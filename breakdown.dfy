/**
 * The per-question breakdown loop that both dashboards share (run_local.py:256-277,
 * app.py:296-316): it walks the rows of the `(question, option, COUNT)` query, groups
 * them by question in a dictionary that keeps insertion order, sums each question's
 * counts, and then gives every option its share of its question's total.
 *
 * `O` is what a row says about its option: its id and points in run_local.py, its id
 * alone in app.py. An option of `None` is the row that `LEFT JOIN options` produces
 * for a question that owns no option.
 */
module Breakdown {
  import opened Common
  import opened Stats

  /** One row of the query: `(q.id, option, COUNT(r.id))`. */
  datatype StatRow<O> = StatRow(questionId: int, option: Option<O>, count: nat)

  /** One entry of a question's `opciones` list. */
  datatype OptionStat<O> = OptionStat(option: Option<O>, count: nat, percentage: real)

  /** The value stored under a question id in `questions_data`. */
  datatype QuestionData<O> = QuestionData(opciones: seq<OptionStat<O>>, totalResponses: nat)

  /** The question id column of the query. */
  function QuestionIds<O>(stats: seq<StatRow<O>>): (ids: seq<int>)
    ensures |ids| == |stats|
    ensures forall i :: 0 <= i < |stats| ==> ids[i] == stats[i].questionId
  {
    seq(|stats|, i requires 0 <= i < |stats| => stats[i].questionId)
  }

  /** The rows of question `q`, in query order. */
  function RowsOf<O>(stats: seq<StatRow<O>>, q: int): (rows: seq<StatRow<O>>)
    ensures forall j :: 0 <= j < |rows| ==> rows[j].questionId == q
  {
    if stats == [] then []
    else
      var last := stats[|stats| - 1];
      RowsOf(stats[..|stats| - 1], q) + (if last.questionId == q then [last] else [])
  }

  /** The count column of some rows. */
  function RowCounts<O>(rows: seq<StatRow<O>>): (cs: seq<nat>)
    ensures |cs| == |rows|
    ensures forall j :: 0 <= j < |rows| ==> cs[j] == rows[j].count
  {
    seq(|rows|, j requires 0 <= j < |rows| => rows[j].count)
  }

  /** A question's entry after the grouping loop: its rows in order, the percentage still unset (0). */
  function Pending<O>(rows: seq<StatRow<O>>): (d: QuestionData<O>)
  {
    if rows == [] then QuestionData([], 0)
    else
      var before := Pending(rows[..|rows| - 1]);
      var r := rows[|rows| - 1];
      QuestionData(before.opciones + [OptionStat(r.option, r.count, 0.0)], before.totalResponses + r.count)
  }

  /** The pending entry lists the rows' options and counts in order, and its total is the sum of the counts. */
  lemma {:induction false} PendingShape<O>(rows: seq<StatRow<O>>)
    ensures |Pending(rows).opciones| == |rows|
    ensures forall j :: 0 <= j < |rows| ==> Pending(rows).opciones[j] == OptionStat(rows[j].option, rows[j].count, 0.0)
    ensures Pending(rows).totalResponses == SumCounts(RowCounts(rows))
  {
    if rows != [] {
      var front := rows[..|rows| - 1];
      PendingShape(front);
      assert RowCounts(rows)[..|rows| - 1] == RowCounts(front);
    }
  }

  /** A question's final entry: every option with `count / total_responses * 100`, or 0 when nobody answered. */
  function Tally<O>(rows: seq<StatRow<O>>): (d: QuestionData<O>)
  {
    var total := SumCounts(RowCounts(rows));
    QuestionData(
      seq(|rows|, j requires 0 <= j < |rows| => OptionStat(rows[j].option, rows[j].count, Percent(rows[j].count, total))),
      total)
  }

  /** The percentage column of a question's options. */
  function OptionPercentages<O>(opciones: seq<OptionStat<O>>): (ps: seq<real>)
    ensures |ps| == |opciones|
    ensures forall j :: 0 <= j < |opciones| ==> ps[j] == opciones[j].percentage
  {
    seq(|opciones|, j requires 0 <= j < |opciones| => opciones[j].percentage)
  }

  /**
   * What a question's final entry promises: one option per row of the question, in
   * query order, with the row's count; the total is the sum of those counts; the
   * percentages add up to 100 when someone answered and are all 0 otherwise.
   */
  lemma TallyMeaning<O>(rows: seq<StatRow<O>>)
    ensures |Tally(rows).opciones| == |rows|
    ensures forall j :: 0 <= j < |rows| ==>
      Tally(rows).opciones[j].option == rows[j].option && Tally(rows).opciones[j].count == rows[j].count
    ensures Tally(rows).totalResponses == SumCounts(RowCounts(rows))
    ensures Tally(rows).totalResponses > 0 ==> SumReals(OptionPercentages(Tally(rows).opciones)) == 100.0
    ensures Tally(rows).totalResponses == 0 ==> forall j :: 0 <= j < |rows| ==> Tally(rows).opciones[j].percentage == 0.0
  {
    var total := SumCounts(RowCounts(rows));
    if total > 0 {
      assert OptionPercentages(Tally(rows).opciones) == PercentsOf(RowCounts(rows), total);
      PercentsSumTo100(RowCounts(rows));
    }
  }

  lemma RowsOfSnoc<O>(stats: seq<StatRow<O>>, i: nat, q: int)
    requires i < |stats|
    ensures stats[i].questionId == q ==> RowsOf(stats[..i + 1], q) == RowsOf(stats[..i], q) + [stats[i]]
    ensures stats[i].questionId != q ==> RowsOf(stats[..i + 1], q) == RowsOf(stats[..i], q)
  {
    assert stats[..i + 1][..i] == stats[..i];
    assert RowsOf(stats[..i], q) + [] == RowsOf(stats[..i], q);
  }

  lemma {:induction false} RowsOfAbsent<O>(stats: seq<StatRow<O>>, q: int)
    requires q !in QuestionIds(stats)
    ensures RowsOf(stats, q) == []
  {
    if stats != [] {
      var front := stats[..|stats| - 1];
      assert QuestionIds(front) == QuestionIds(stats)[..|stats| - 1];
      RowsOfAbsent(front, q);
    }
  }

  lemma PendingSnoc<O>(rows: seq<StatRow<O>>, r: StatRow<O>)
    ensures Pending(rows + [r]) == QuestionData(Pending(rows).opciones + [OptionStat(r.option, r.count, 0.0)], Pending(rows).totalResponses + r.count)
  {
    assert (rows + [r])[..|rows|] == rows;
  }

  /** One turn of the grouping loop: the dictionary's key order. */
  lemma OrderStep<O>(stats: seq<StatRow<O>>, i: nat, order: seq<int>)
    requires i < |stats|
    requires order == Distinct(QuestionIds(stats[..i]))
    ensures Distinct(QuestionIds(stats[..i + 1])) == if stats[i].questionId in order then order else order + [stats[i].questionId]
    ensures stats[i].questionId !in order ==> RowsOf(stats[..i], stats[i].questionId) == []
  {
    var q := stats[i].questionId;
    assert QuestionIds(stats[..i + 1]) == QuestionIds(stats[..i]) + [q];
    DistinctSnoc(QuestionIds(stats[..i]), q);
    if q !in order {
      RowsOfAbsent(stats[..i], q);
    }
  }

  /**
   * The dictionary after one turn of the grouping loop: the question's entry is created
   * empty on first sight, then the row's option is appended to it and its count added
   * to the question's total.
   */
  function AddRow<O>(data: map<int, QuestionData<O>>, r: StatRow<O>): map<int, QuestionData<O>>
  {
    var entry := if r.questionId in data then data[r.questionId] else QuestionData([], 0);
    data[r.questionId := QuestionData(entry.opciones + [OptionStat(r.option, r.count, 0.0)], entry.totalResponses + r.count)]
  }

  /**
   * After the first `i` rows, the dictionary's keys are the questions seen so far in
   * first-appearance order, and every question holds its rows among them.
   */
  ghost predicate GroupedUpTo<O>(stats: seq<StatRow<O>>, i: nat, order: seq<int>, data: map<int, QuestionData<O>>)
  {
    && i <= |stats|
    && order == Distinct(QuestionIds(stats[..i]))
    && (forall q :: q in data <==> q in order)
    && (forall q :: q in data ==> data[q] == Pending(RowsOf(stats[..i], q)))
  }

  /** One turn of the grouping loop: every question's entry. */
  lemma EntriesStep<O>(stats: seq<StatRow<O>>, i: nat, data: map<int, QuestionData<O>>)
    requires i < |stats|
    requires forall q :: q in data ==> data[q] == Pending(RowsOf(stats[..i], q))
    requires stats[i].questionId !in data ==> RowsOf(stats[..i], stats[i].questionId) == []
    ensures forall q :: q in AddRow(data, stats[i]) ==> AddRow(data, stats[i])[q] == Pending(RowsOf(stats[..i + 1], q))
  {
    var data' := AddRow(data, stats[i]);
    forall p | p in data'
      ensures data'[p] == Pending(RowsOf(stats[..i + 1], p))
    {
      RowsOfSnoc(stats, i, p);
      if p == stats[i].questionId {
        PendingSnoc(RowsOf(stats[..i], p), stats[i]);
      }
    }
  }

  /** One turn of the grouping loop. */
  lemma GroupStep<O>(stats: seq<StatRow<O>>, i: nat, order: seq<int>, data: map<int, QuestionData<O>>)
    requires i < |stats|
    requires GroupedUpTo(stats, i, order, data)
    ensures GroupedUpTo(stats, i + 1,
                        if stats[i].questionId in data then order else order + [stats[i].questionId],
                        AddRow(data, stats[i]))
  {
    OrderStep(stats, i, order);
    EntriesStep(stats, i, data);
  }

  /**
   * The first loop: for each row, create the question's entry on first sight (which
   * also fixes the iteration order of the dictionary), append the option, and add its
   * count to the question's total.
   */
  method GroupRows<O>(stats: seq<StatRow<O>>) returns (order: seq<int>, data: map<int, QuestionData<O>>)
    ensures order == Distinct(QuestionIds(stats))
    ensures forall q :: q in data <==> q in order
    ensures forall q :: q in data ==> data[q] == Pending(RowsOf(stats, q))
  {
    order := [];
    data := map[];
    var i := 0;
    assert QuestionIds(stats[..0]) == [];
    while i < |stats|
      invariant GroupedUpTo(stats, i, order, data)
    {
      var stat := stats[i];
      GroupStep(stats, i, order, data);
      if stat.questionId !in data {
        order := order + [stat.questionId];
      }
      data := AddRow(data, stat);
      i := i + 1;
    }
    assert stats[..i] == stats;
  }

  /** The inner percentage loop: `opcion['percentage'] = count / total * 100`, or 0 when the total is 0. */
  method SetPercentages<O>(opciones: seq<OptionStat<O>>, total: nat) returns (result: seq<OptionStat<O>>)
    ensures |result| == |opciones|
    ensures forall j :: 0 <= j < |opciones| ==>
      result[j] == OptionStat(opciones[j].option, opciones[j].count, Percent(opciones[j].count, total))
  {
    result := opciones;
    var j := 0;
    while j < |result|
      invariant 0 <= j <= |result| == |opciones|
      invariant forall m :: 0 <= m < j ==> result[m] == OptionStat(opciones[m].option, opciones[m].count, Percent(opciones[m].count, total))
      invariant forall m :: j <= m < |result| ==> result[m] == opciones[m]
    {
      result := result[j := result[j].(percentage := Percent(result[j].count, total))];
      j := j + 1;
    }
  }

  lemma FinishEntry<O>(rows: seq<StatRow<O>>, entry: QuestionData<O>, opciones: seq<OptionStat<O>>)
    requires entry == Pending(rows)
    requires |opciones| == |entry.opciones|
    requires forall j :: 0 <= j < |entry.opciones| ==>
      opciones[j] == OptionStat(entry.opciones[j].option, entry.opciones[j].count, Percent(entry.opciones[j].count, entry.totalResponses))
    ensures QuestionData(opciones, entry.totalResponses) == Tally(rows)
  {
    PendingShape(rows);
    assert opciones == Tally(rows).opciones;
  }

  /** After the first `k` questions of the second loop: those are tallied, the rest still pending. */
  ghost predicate TalliedUpTo<O>(stats: seq<StatRow<O>>, order: seq<int>, k: nat, data: map<int, QuestionData<O>>)
  {
    && k <= |order|
    && (forall q :: q in data <==> q in order)
    && (forall m :: 0 <= m < |order| ==>
          order[m] in data && data[order[m]] == if m < k then Tally(RowsOf(stats, order[m])) else Pending(RowsOf(stats, order[m])))
  }

  /** One turn of the second loop. */
  lemma TallyStep<O>(stats: seq<StatRow<O>>, order: seq<int>, k: nat, data: map<int, QuestionData<O>>)
    requires k < |order|
    requires forall m, n :: 0 <= m < n < |order| ==> order[m] != order[n]
    requires TalliedUpTo(stats, order, k, data)
    ensures order[k] in data && data[order[k]] == Pending(RowsOf(stats, order[k]))
    ensures TalliedUpTo(stats, order, k + 1, data[order[k] := Tally(RowsOf(stats, order[k]))])
  {
    var q := order[k];
    var data' := data[q := Tally(RowsOf(stats, q))];
    forall m | 0 <= m < |order|
      ensures order[m] in data' && data'[order[m]] == if m < k + 1 then Tally(RowsOf(stats, order[m])) else Pending(RowsOf(stats, order[m]))
    {
      if m != k {
        assert order[m] != q;
      }
    }
  }

  lemma TalliedAll<O>(stats: seq<StatRow<O>>, order: seq<int>, data: map<int, QuestionData<O>>)
    requires TalliedUpTo(stats, order, |order|, data)
    ensures forall q :: q in data ==> data[q] == Tally(RowsOf(stats, q))
  {
    forall q | q in data
      ensures data[q] == Tally(RowsOf(stats, q))
    {
      var m :| 0 <= m < |order| && order[m] == q;
    }
  }

  /**
   * The whole breakdown: group the query rows by question (first loop), then give every
   * option of every question its percentage (second loop, over the dictionary in
   * insertion order). Each question of the query appears once, in first-appearance
   * order, holding exactly its own rows.
   */
  method BuildQuestionsData<O>(stats: seq<StatRow<O>>) returns (order: seq<int>, data: map<int, QuestionData<O>>)
    ensures order == Distinct(QuestionIds(stats))
    ensures forall q :: q in data <==> q in order
    ensures forall q :: q in data ==> data[q] == Tally(RowsOf(stats, q))
  {
    order, data := GroupRows(stats);
    forall m | 0 <= m < |order|
      ensures order[m] in data
    {
      assert order[m] in order;
    }
    assert TalliedUpTo(stats, order, 0, data);
    var k := 0;
    while k < |order|
      invariant TalliedUpTo(stats, order, k, data)
    {
      var q := order[k];
      TallyStep(stats, order, k, data);
      var entry := data[q];
      var opciones := SetPercentages(entry.opciones, entry.totalResponses);
      FinishEntry(RowsOf(stats, q), entry, opciones);
      data := data[q := QuestionData(opciones, entry.totalResponses)];
      k := k + 1;
    }
    TalliedAll(stats, order, data);
  }

  // ---------------------------------------------------------------------------
  // The query itself: questions LEFT JOIN options LEFT JOIN responses,
  // GROUP BY question and option, ORDER BY question id, option id.
  // ---------------------------------------------------------------------------

  /** The columns of an `options` row the query reads: its id, its question, and what it reports about it. */
  datatype JoinOption<O> = JoinOption(id: int, questionId: int, payload: O)

  /** The options of question `q`, in table order. */
  function OwnOptions<O>(options: seq<JoinOption<O>>, q: int): (own: seq<JoinOption<O>>)
    ensures forall j :: 0 <= j < |own| ==> own[j].questionId == q
  {
    if options == [] then []
    else
      var last := options[|options| - 1];
      OwnOptions(options[..|options| - 1], q) + (if last.questionId == q then [last] else [])
  }

  lemma {:induction false} OwnOptionsAppend<O>(a: seq<JoinOption<O>>, b: seq<JoinOption<O>>, q: int)
    ensures OwnOptions(a + b, q) == OwnOptions(a, q) + OwnOptions(b, q)
  {
    if b == [] {
      assert a + b == a;
    } else {
      OwnOptionsAppend(a, b[..|b| - 1], q);
      assert (a + b)[..|a + b| - 1] == a + b[..|b| - 1];
    }
  }

  /** A run of options all of question `p` gives all of itself to `p` and nothing to any other question. */
  lemma {:induction false} OwnOptionsUniform<O>(options: seq<JoinOption<O>>, p: int, q: int)
    requires forall j :: 0 <= j < |options| ==> options[j].questionId == p
    ensures OwnOptions(options, q) == if p == q then options else []
  {
    if options != [] {
      OwnOptionsUniform(options[..|options| - 1], p, q);
    }
  }

  /** A run of options none of which is of question `q` gives it nothing. */
  lemma {:induction false} OwnOptionsNone<O>(options: seq<JoinOption<O>>, q: int)
    requires forall j :: 0 <= j < |options| ==> options[j].questionId != q
    ensures OwnOptions(options, q) == []
  {
    if options != [] {
      OwnOptionsNone(options[..|options| - 1], q);
    }
  }

  /**
   * The query rows of question `q`: one per option it owns, counting the responses whose
   * `respuesta` is that option's id (the question the response was sent for is not
   * compared); a single row with no option and count 0 when it owns none.
   */
  function QuestionBlock<O>(q: int, options: seq<JoinOption<O>>, answers: seq<int>): (rows: seq<StatRow<O>>)
    ensures |rows| >= 1
    ensures forall j :: 0 <= j < |rows| ==> rows[j].questionId == q
  {
    var own := OwnOptions(options, q);
    if own == [] then [StatRow(q, None, 0)]
    else seq(|own|, j requires 0 <= j < |own| => StatRow(q, Some(own[j].payload), Occurrences(answers, own[j].id)))
  }

  /** All query rows, question by question in table order; `answers` is the `respuesta` column of `responses`. */
  function JoinRows<O>(questions: seq<int>, options: seq<JoinOption<O>>, answers: seq<int>): seq<StatRow<O>>
  {
    if questions == [] then []
    else JoinRows(questions[..|questions| - 1], options, answers) + QuestionBlock(questions[|questions| - 1], options, answers)
  }

  /** No two questions share an id (the primary key). */
  predicate DistinctIds(questions: seq<int>)
  {
    forall i, j :: 0 <= i < j < |questions| ==> questions[i] != questions[j]
  }

  lemma {:induction false} RowsOfAppend<O>(a: seq<StatRow<O>>, b: seq<StatRow<O>>, q: int)
    ensures RowsOf(a + b, q) == RowsOf(a, q) + RowsOf(b, q)
  {
    if b == [] {
      assert a + b == a;
    } else {
      var front := b[..|b| - 1];
      RowsOfAppend(a, front, q);
      assert (a + b)[..|a + b| - 1] == a + front;
    }
  }

  lemma {:induction false} RowsOfUniform<O>(rows: seq<StatRow<O>>, p: int, q: int)
    requires forall j :: 0 <= j < |rows| ==> rows[j].questionId == p
    ensures RowsOf(rows, q) == if p == q then rows else []
  {
    if rows != [] {
      RowsOfUniform(rows[..|rows| - 1], p, q);
    }
  }

  /** Every query row belongs to one of the questions. */
  lemma {:induction false} JoinRowsQuestions<O>(questions: seq<int>, options: seq<JoinOption<O>>, answers: seq<int>)
    ensures forall x :: x in QuestionIds(JoinRows(questions, options, answers)) ==> x in questions
  {
    if questions != [] {
      var front := questions[..|questions| - 1];
      var last := questions[|questions| - 1];
      JoinRowsQuestions(front, options, answers);
      var a := JoinRows(front, options, answers);
      var b := QuestionBlock(last, options, answers);
      QuestionIdsAppend(a, b);
      assert forall x :: x in QuestionIds(b) ==> x == last;
      assert questions == front + [last];
    }
  }

  /** Appending a block of question `p` adds that block to the rows of `p` and nothing to any other question. */
  lemma RowsOfBlock<O>(a: seq<StatRow<O>>, b: seq<StatRow<O>>, p: int, q: int)
    requires forall j :: 0 <= j < |b| ==> b[j].questionId == p
    ensures RowsOf(a + b, q) == if p == q then RowsOf(a, q) + b else RowsOf(a, q)
  {
    RowsOfAppend(a, b, q);
    RowsOfUniform(b, p, q);
    if p != q {
      assert RowsOf(a, q) + [] == RowsOf(a, q);
    }
  }

  /** With distinct question ids, the rows of question `q` are exactly its block, or nothing when `q` is not a question. */
  lemma {:induction false} JoinRowsOf<O>(questions: seq<int>, options: seq<JoinOption<O>>, answers: seq<int>, q: int)
    requires DistinctIds(questions)
    ensures RowsOf(JoinRows(questions, options, answers), q) == if q in questions then QuestionBlock(q, options, answers) else []
  {
    if questions != [] {
      var front := questions[..|questions| - 1];
      var last := questions[|questions| - 1];
      var a := JoinRows(front, options, answers);
      var b := QuestionBlock(last, options, answers);
      LastIsNew(questions);
      JoinRowsOf(front, options, answers, q);
      assert JoinRows(questions, options, answers) == a + b;
      RowsOfBlock(a, b, last, q);
      assert q in questions <==> q in front || q == last;
      if q == last {
        assert [] + b == b;
      }
    }
  }

  lemma {:induction false} DistinctAppendUniform(ids: seq<int>, block: seq<int>, q: int)
    requires q !in ids && block != []
    requires forall j :: 0 <= j < |block| ==> block[j] == q
    ensures Distinct(ids + block) == Distinct(ids) + [q]
  {
    var front := block[..|block| - 1];
    assert ids + block == (ids + front) + [q];
    DistinctSnoc(ids + front, q);
    if front == [] {
      assert ids + front == ids;
      assert q !in Distinct(ids);
    } else {
      DistinctAppendUniform(ids, front, q);
    }
  }

  /** With distinct question ids, the last question does not occur before. */
  lemma LastIsNew(questions: seq<int>)
    requires DistinctIds(questions) && questions != []
    ensures questions[|questions| - 1] !in questions[..|questions| - 1]
    ensures DistinctIds(questions[..|questions| - 1])
    ensures questions == questions[..|questions| - 1] + [questions[|questions| - 1]]
  {
    var front := questions[..|questions| - 1];
    forall j | 0 <= j < |front|
      ensures front[j] != questions[|questions| - 1]
    {
      assert front[j] == questions[j];
    }
  }

  lemma QuestionIdsAppend<O>(a: seq<StatRow<O>>, b: seq<StatRow<O>>)
    ensures QuestionIds(a + b) == QuestionIds(a) + QuestionIds(b)
  {
    var l, r := QuestionIds(a + b), QuestionIds(a) + QuestionIds(b);
    assert |l| == |r|;
    forall i | 0 <= i < |l|
      ensures l[i] == r[i]
    {
      if i < |a| {
        assert (a + b)[i] == a[i];
      } else {
        assert (a + b)[i] == b[i - |a|];
      }
    }
  }

  /** With distinct question ids, the dictionary's keys come out in the order of the `questions` table. */
  lemma {:induction false} JoinOrder<O>(questions: seq<int>, options: seq<JoinOption<O>>, answers: seq<int>)
    requires DistinctIds(questions)
    ensures Distinct(QuestionIds(JoinRows(questions, options, answers))) == questions
  {
    if questions != [] {
      var front := questions[..|questions| - 1];
      var last := questions[|questions| - 1];
      var a := JoinRows(front, options, answers);
      var b := QuestionBlock(last, options, answers);
      LastIsNew(questions);
      JoinOrder(front, options, answers);
      assert last !in QuestionIds(a) by {
        JoinRowsQuestions(front, options, answers);
      }
      assert JoinRows(questions, options, answers) == a + b;
      QuestionIdsAppend(a, b);
      DistinctAppendUniform(QuestionIds(a), QuestionIds(b), last);
    }
  }

  /**
   * A question's final entry: one entry per option it owns (a lone empty entry when it
   * owns none), in table order and including options nobody chose, each counting the
   * responses that name that option's id; the total is the sum of those counts, and the
   * percentages add up to 100 when it is positive.
   */
  lemma BlockTally<O>(q: int, options: seq<JoinOption<O>>, answers: seq<int>)
    ensures var own := OwnOptions(options, q);
      var d := Tally(QuestionBlock(q, options, answers));
      && (own != [] ==>
            && |d.opciones| == |own|
            && (forall j :: 0 <= j < |own| ==>
                  d.opciones[j].option == Some(own[j].payload) && d.opciones[j].count == Occurrences(answers, own[j].id)))
      && (own == [] ==> d.opciones == [OptionStat(None, 0, 0.0)] && d.totalResponses == 0)
      && d.totalResponses == SumCounts(RowCounts(QuestionBlock(q, options, answers)))
      && (d.totalResponses > 0 ==> SumReals(OptionPercentages(d.opciones)) == 100.0)
  {
    var rows := QuestionBlock(q, options, answers);
    TallyMeaning(rows);
    if OwnOptions(options, q) == [] {
      assert RowCounts(rows) == [0];
      assert SumCounts([0]) == 0;
    }
  }

  /**
   * What the dashboard's per-question data holds for a catalogue with distinct question
   * ids: the questions in table order, and under each the tally of its own block of query rows.
   */
  lemma BreakdownMeaning<O>(questions: seq<int>, options: seq<JoinOption<O>>, answers: seq<int>,
                            order: seq<int>, data: map<int, QuestionData<O>>, q: int)
    requires DistinctIds(questions)
    requires order == Distinct(QuestionIds(JoinRows(questions, options, answers)))
    requires forall p :: p in data <==> p in order
    requires forall p :: p in data ==> data[p] == Tally(RowsOf(JoinRows(questions, options, answers), p))
    ensures order == questions
    ensures q in data <==> q in questions
    ensures q in data ==> data[q] == Tally(QuestionBlock(q, options, answers))
  {
    JoinOrder(questions, options, answers);
    if q in data {
      JoinRowsOf(questions, options, answers, q);
    }
  }
}
