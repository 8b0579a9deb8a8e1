/**
 * The local revision of the survey (run_local.py): a SQLite database whose `users`
 * rows carry a score and a class, and whose `responses` rows carry the points of the
 * chosen option. `SurveyStore` holds the four tables; `SubmitSurvey` is
 * `POST /api/submit-survey` as one transaction; `Dashboard` is `GET /dashboard`.
 */
module LocalApp {
  import opened Common
  import opened Request
  import opened Catalogue
  import opened Scoring
  import opened Stats
  import opened Breakdown

  /** A `users` row: `id`, the four fields, `puntaje_total`, `clasificacion`, `timestamp`. */
  datatype UserRow = UserRow(id: int, profile: Profile, puntajeTotal: int, clasificacion: Severity, timestamp: Timestamp)

  /**
   * A `responses` row: `user_id` (NULL for an anonymous submission), `pregunta_id`,
   * `respuesta` (the chosen option id), `puntaje` and the database's `CURRENT_TIMESTAMP`.
   * The row's own `id` is not modelled.
   */
  datatype ResponseRow = ResponseRow(userId: Option<int>, preguntaId: int, respuesta: int, puntaje: int, timestamp: Timestamp)

  /** The JSON answer: `success: True` with the score and class, or `success: False` and status 500. */
  datatype Reply = Saved(puntaje: int, clasificacion: Severity) | Rejected(error: SubmitError)

  // ---------------------------------------------------------------------------
  // What a submission writes
  // ---------------------------------------------------------------------------

  /** Every step of the handler succeeds: `responses` is present, every option id and every question id converts and binds, and a named submission carries its four fields. */
  predicate Accepted(sub: Submission)
  {
    && sub.responses.Some?
    && OptionKeysBind(sub.responses.value)
    && (sub.isAnonymous || sub.profile.Some?)
    && QuestionKeysBind(sub.responses.value)
  }

  /**
   * The error a rejected submission reports, in the order the handler meets them: the
   * missing `responses` first, then an option id in the scoring loop, then a missing user
   * field at the insert, and a question id only in the second loop.
   */
  function FirstError(sub: Submission): (e: SubmitError)
    requires !Accepted(sub)
    ensures e == ResponsesMissing <==> sub.responses.None?
    ensures e == BadOptionId <==> sub.responses.Some? && !OptionKeysBind(sub.responses.value)
    ensures e == UserFieldMissing <==>
      sub.responses.Some? && OptionKeysBind(sub.responses.value) && !sub.isAnonymous && sub.profile.None?
    ensures e == BadQuestionId <==>
      sub.responses.Some? && OptionKeysBind(sub.responses.value) && (sub.isAnonymous || sub.profile.Some?)
      && !QuestionKeysBind(sub.responses.value)
  {
    if sub.responses.None? then ResponsesMissing
    else if !OptionKeysBind(sub.responses.value) then BadOptionId
    else if !sub.isAnonymous && sub.profile.None? then UserFieldMissing
    else BadQuestionId
  }

  /** One more entry of the scoring loop adds the points of its option id to the running total. */
  lemma ScoreStep(options: seq<OptionRow>, entries: seq<Entry>, i: int)
    requires 0 <= i < |entries| && OptionKeysBind(entries[..i + 1])
    ensures OptionKeysBind(entries[..i])
    ensures TotalPoints(options, OptionIds(entries[..i + 1]))
         == TotalPoints(options, OptionIds(entries[..i])) + PointsOf(options, entries[i].optionKey.value)
  {
    var ids := OptionIds(entries[..i + 1]);
    assert ids[..i] == OptionIds(entries[..i]);
  }

  /** `puntaje_total` of a submission whose option ids all convert and bind. */
  function Score(options: seq<OptionRow>, sub: Submission): int
    requires sub.responses.Some? && OptionKeysBind(sub.responses.value)
  {
    TotalPoints(options, OptionIds(sub.responses.value))
  }

  /** The `user_id` written on the responses: NULL when anonymous, else the new user's id. */
  function Owner(sub: Submission, newId: int): Option<int>
  {
    if sub.isAnonymous then None else Some(newId)
  }

  /** The `users` rows an accepted submission adds: none when anonymous, else one carrying its score and class. */
  function NewUserRows(options: seq<OptionRow>, sub: Submission, newId: int, now: Timestamp): seq<UserRow>
    requires Accepted(sub)
  {
    if sub.isAnonymous then []
    else [UserRow(newId, sub.profile.value, Score(options, sub), Classify(Score(options, sub)), now)]
  }

  /** One `responses` row per answer, in entry order, each with the points its option id is worth. */
  function AnswerRows(options: seq<OptionRow>, owner: Option<int>, qids: seq<int>, oids: seq<int>, stamp: Timestamp): (rows: seq<ResponseRow>)
    requires |qids| == |oids|
  {
    seq(|qids|, i requires 0 <= i < |qids| => ResponseRow(owner, qids[i], oids[i], PointsOf(options, oids[i]), stamp))
  }

  /** The `responses` rows an accepted submission adds. */
  function SubmittedRows(options: seq<OptionRow>, sub: Submission, newId: int, stamp: Timestamp): seq<ResponseRow>
    requires Accepted(sub)
  {
    var entries := sub.responses.value;
    AnswerRows(options, Owner(sub, newId), QuestionIdsOf(entries), OptionIds(entries), stamp)
  }

  lemma AnswerRowsSnoc(options: seq<OptionRow>, owner: Option<int>, qids: seq<int>, oids: seq<int>, stamp: Timestamp)
    requires |qids| == |oids| && qids != []
    ensures AnswerRows(options, owner, qids, oids, stamp)
         == AnswerRows(options, owner, qids[..|qids| - 1], oids[..|oids| - 1], stamp)
            + [ResponseRow(owner, qids[|qids| - 1], oids[|oids| - 1], PointsOf(options, oids[|oids| - 1]), stamp)]
  {
  }

  // ---------------------------------------------------------------------------
  // The consistency the handler maintains between the two tables
  // ---------------------------------------------------------------------------

  /** The `puntaje` of every stored response of user `u`, added up. */
  function PointsFor(rows: seq<ResponseRow>, u: int): int
  {
    if rows == [] then 0
    else PointsFor(rows[..|rows| - 1], u) + (if rows[|rows| - 1].userId == Some(u) then rows[|rows| - 1].puntaje else 0)
  }

  lemma {:induction false} PointsForAppend(a: seq<ResponseRow>, b: seq<ResponseRow>, u: int)
    ensures PointsFor(a + b, u) == PointsFor(a, u) + PointsFor(b, u)
  {
    if b == [] {
      assert a + b == a;
    } else {
      PointsForAppend(a, b[..|b| - 1], u);
      assert (a + b)[..|a + b| - 1] == a + b[..|b| - 1];
    }
  }

  /** A user no response refers to has no stored points. */
  lemma {:induction false} PointsForUnreferenced(rows: seq<ResponseRow>, u: int)
    requires forall k :: 0 <= k < |rows| ==> rows[k].userId != Some(u)
    ensures PointsFor(rows, u) == 0
  {
    if rows != [] {
      PointsForUnreferenced(rows[..|rows| - 1], u);
    }
  }

  /**
   * The responses a submission stores carry exactly its score: their `puntaje` values add
   * up to `puntaje_total` for the submitting user, and to nothing for anybody else.
   */
  lemma {:induction false} StoredPointsMatchScore(options: seq<OptionRow>, owner: Option<int>, qids: seq<int>, oids: seq<int>, stamp: Timestamp, u: int)
    requires |qids| == |oids|
    ensures PointsFor(AnswerRows(options, owner, qids, oids, stamp), u) == if owner == Some(u) then TotalPoints(options, oids) else 0
  {
    if qids != [] {
      AnswerRowsSnoc(options, owner, qids, oids, stamp);
      StoredPointsMatchScore(options, owner, qids[..|qids| - 1], oids[..|oids| - 1], stamp, u);
    }
  }

  /**
   * What the two tables keep true: user ids are the row numbers `AUTOINCREMENT` hands out,
   * every `user_id` of a response names a stored user, and every user's stored class is
   * the class of its stored total, which is the sum of the `puntaje` of its responses.
   */
  ghost predicate Consistent(users: seq<UserRow>, responses: seq<ResponseRow>)
  {
    && (forall i :: 0 <= i < |users| ==> users[i].id == i + 1)
    && (forall k :: 0 <= k < |responses| && responses[k].userId.Some? ==> 1 <= responses[k].userId.value <= |users|)
    && (forall i :: 0 <= i < |users| ==>
          users[i].clasificacion == Classify(users[i].puntajeTotal)
          && users[i].puntajeTotal == PointsFor(responses, users[i].id))
  }

  /** Committing an accepted submission keeps the tables consistent. */
  lemma CommitKeepsConsistent(users: seq<UserRow>, responses: seq<ResponseRow>, options: seq<OptionRow>,
                              sub: Submission, now: Timestamp, stamp: Timestamp)
    requires Consistent(users, responses)
    requires Accepted(sub)
    ensures Consistent(users + NewUserRows(options, sub, |users| + 1, now),
                       responses + SubmittedRows(options, sub, |users| + 1, stamp))
  {
    var entries := sub.responses.value;
    var added := SubmittedRows(options, sub, |users| + 1, stamp);
    var users' := users + NewUserRows(options, sub, |users| + 1, now);
    forall i | 0 <= i < |users'|
      ensures users'[i].puntajeTotal == PointsFor(responses + added, users'[i].id)
    {
      PointsForAppend(responses, added, users'[i].id);
      StoredPointsMatchScore(options, Owner(sub, |users| + 1), QuestionIdsOf(entries), OptionIds(entries), stamp, users'[i].id);
      if i == |users| {
        PointsForUnreferenced(responses, |users| + 1);
      }
    }
  }

  /** The catalogue tables hold nothing, or exactly the seed. */
  ghost predicate CatalogueState(questions: seq<int>, options: seq<OptionRow>)
  {
    (questions == [] && options == []) || (questions == SeedQuestions && SeedLayout(options))
  }

  // ---------------------------------------------------------------------------
  // The database
  // ---------------------------------------------------------------------------

  class SurveyStore {
    /** The ids of the `questions` rows; their texts are not modelled. */
    var questions: seq<int>
    var options: seq<OptionRow>
    var users: seq<UserRow>
    var responses: seq<ResponseRow>

    ghost predicate Valid()
      reads this
    {
      CatalogueState(questions, options) && Consistent(users, responses)
    }

    /** A freshly created database: every table exists and is empty. */
    constructor ()
      ensures Valid()
      ensures questions == [] && options == [] && users == [] && responses == []
    {
      questions, options, users, responses := [], [], [], [];
    }

    /**
     * The seeding half of `init_db`: when `questions` is empty, insert the six questions
     * and their twenty-four options; otherwise leave the catalogue alone.
     */
    method InitCatalogue()
      requires Valid()
      modifies this
      ensures Valid()
      ensures questions != []
      ensures old(questions) == [] ==> questions == SeedQuestions && options == SeededOptions()
      ensures old(questions) != [] ==> questions == old(questions) && options == old(options)
      ensures users == old(users) && responses == old(responses)
    {
      if |questions| == 0 {
        questions := SeedQuestions;
        options := options + Numbered(SeedOptions, |options| + 1);
        assert options == SeededOptions();
        SeededHasSeedLayout();
      }
    }

    /**
     * The scoring loop: looks every option id up and adds its `puntaje` (nothing for an id
     * with no row). `None` when an option id does not convert or does not bind.
     */
    method ScoreOptions(entries: seq<Entry>) returns (total: Option<int>)
      ensures total.Some? <==> OptionKeysBind(entries)
      ensures total.Some? ==> total.value == TotalPoints(options, OptionIds(entries))
    {
      var puntajeTotal := 0;
      var i := 0;
      while i < |entries|
        invariant 0 <= i <= |entries|
        invariant OptionKeysBind(entries[..i])
        invariant puntajeTotal == TotalPoints(options, OptionIds(entries[..i]))
      {
        if !Binds(entries[i].optionKey) {
          return None;
        }
        var found := FindOption(options, entries[i].optionKey.value);
        if found.Some? {
          puntajeTotal := puntajeTotal + found.value.points;
        }
        assert OptionKeysBind(entries[..i + 1]);
        ScoreStep(options, entries, i);
        i := i + 1;
      }
      assert entries[..i] == entries;
      total := Some(puntajeTotal);
    }

    /**
     * The insert loop: one response row per entry, owned by `owner`, with the points its
     * option id is worth. `None` when a question id does not convert or does not bind.
     */
    method ResponseRows(entries: seq<Entry>, owner: Option<int>, stamp: Timestamp) returns (rows: Option<seq<ResponseRow>>)
      requires OptionKeysBind(entries)
      ensures rows.Some? <==> QuestionKeysBind(entries)
      ensures rows.Some? ==> rows.value == AnswerRows(options, owner, QuestionIdsOf(entries), OptionIds(entries), stamp)
    {
      var staged := [];
      var i := 0;
      while i < |entries|
        invariant 0 <= i <= |entries|
        invariant QuestionKeysBind(entries[..i])
        invariant staged == AnswerRows(options, owner, QuestionIdsOf(entries[..i]), OptionIds(entries[..i]), stamp)
      {
        var optionId := entries[i].optionKey.value;
        var found := FindOption(options, optionId);
        var puntajeRespuesta := if found.Some? then found.value.points else 0;
        if !Binds(entries[i].questionKey) {
          return None;
        }
        var questionId := entries[i].questionKey.value;
        assert QuestionIdsOf(entries[..i + 1]) == QuestionIdsOf(entries[..i]) + [questionId];
        assert OptionIds(entries[..i + 1]) == OptionIds(entries[..i]) + [optionId];
        AnswerRowsSnoc(options, owner, QuestionIdsOf(entries[..i + 1]), OptionIds(entries[..i + 1]), stamp);
        staged := staged + [ResponseRow(owner, questionId, optionId, puntajeRespuesta, stamp)];
        i := i + 1;
      }
      assert entries[..i] == entries;
      rows := Some(staged);
    }

    /**
     * `POST /api/submit-survey`. Scores the option ids, classifies the total, inserts the
     * user unless anonymous, inserts one response per entry, and commits; any failure
     * rolls back, so a rejected submission leaves every table as it was. `now` is
     * `datetime.now()` for the user row; `stamp` is the database's `CURRENT_TIMESTAMP`
     * for the response rows.
     */
    method SubmitSurvey(sub: Submission, now: Timestamp, stamp: Timestamp) returns (reply: Reply)
      requires Valid()
      modifies this
      ensures Valid()
      ensures questions == old(questions) && options == old(options)
      ensures reply.Saved? <==> Accepted(sub)
      ensures !Accepted(sub) ==>
        reply == Rejected(FirstError(sub)) && users == old(users) && responses == old(responses)
      ensures Accepted(sub) ==>
        && reply == Saved(Score(options, sub), Classify(Score(options, sub)))
        && users == old(users) + NewUserRows(options, sub, |old(users)| + 1, now)
        && responses == old(responses) + SubmittedRows(options, sub, |old(users)| + 1, stamp)
    {
      if sub.responses.None? {
        return Rejected(ResponsesMissing);
      }
      var entries := sub.responses.value;
      var scored := ScoreOptions(entries);
      if scored.None? {
        assert FirstError(sub) == BadOptionId;
        return Rejected(BadOptionId);
      }
      var puntajeTotal := scored.value;
      assert puntajeTotal == Score(options, sub);
      var clasificacion;
      if puntajeTotal <= 5 {
        clasificacion := Leve;
      } else if puntajeTotal <= 11 {
        clasificacion := Moderado;
      } else {
        clasificacion := Grave;
      }
      assert clasificacion == Classify(puntajeTotal);

      // The writes are staged until the commit.
      var newId := |users| + 1;
      var stagedUsers := users;
      if !sub.isAnonymous {
        if sub.profile.None? {
          assert FirstError(sub) == UserFieldMissing;
          return Rejected(UserFieldMissing);
        }
        stagedUsers := stagedUsers + [UserRow(newId, sub.profile.value, puntajeTotal, clasificacion, now)];
      }
      var added := ResponseRows(entries, Owner(sub, newId), stamp);
      if added.None? {
        assert FirstError(sub) == BadQuestionId;
        return Rejected(BadQuestionId);
      }
      assert Accepted(sub);

      assert stagedUsers == users + NewUserRows(options, sub, newId, now);
      CommitKeepsConsistent(users, responses, options, sub, now, stamp);
      users, responses := stagedUsers, responses + added.value;
      reply := Saved(puntajeTotal, clasificacion);
    }
  }

  // ---------------------------------------------------------------------------
  // GET /dashboard: how many surveys were completed
  // ---------------------------------------------------------------------------

  /** The `(user_id, timestamp)` pair each response is grouped by. */
  function GroupKeys(rs: seq<ResponseRow>): (keys: seq<(Option<int>, Timestamp)>)
    ensures |keys| == |rs|
    ensures forall k :: 0 <= k < |rs| ==> keys[k] == (rs[k].userId, rs[k].timestamp)
  {
    seq(|rs|, k requires 0 <= k < |rs| => (rs[k].userId, rs[k].timestamp))
  }

  /** Response `k` is in a group of exactly six rows (the subquery's `HAVING respuestas = 6`). */
  predicate InFullGroup(rs: seq<ResponseRow>, k: int)
    requires 0 <= k < |rs|
  {
    Occurrences(GroupKeys(rs), (rs[k].userId, rs[k].timestamp)) == 6
  }

  /** `named_surveys`: the distinct users owning a group of six responses. */
  function NamedSurveys(rs: seq<ResponseRow>): set<int>
  {
    set k | 0 <= k < |rs| && rs[k].userId.Some? && InFullGroup(rs, k) :: rs[k].userId.value
  }

  /** `anonymous_surveys`: the distinct timestamps of a group of six anonymous responses. */
  function AnonymousSurveys(rs: seq<ResponseRow>): set<Timestamp>
  {
    set k | 0 <= k < |rs| && rs[k].userId.None? && InFullGroup(rs, k) :: rs[k].timestamp
  }

  /** `total_surveys`. */
  function TotalSurveys(rs: seq<ResponseRow>): nat
  {
    |NamedSurveys(rs)| + |AnonymousSurveys(rs)|
  }

  /** Appending rows that all share one group key grows that group by their number and no other. */
  lemma GroupGrowth(rs: seq<ResponseRow>, rows: seq<ResponseRow>, key: (Option<int>, Timestamp), other: (Option<int>, Timestamp))
    requires forall k :: 0 <= k < |rows| ==> (rows[k].userId, rows[k].timestamp) == key
    ensures Occurrences(GroupKeys(rs + rows), other) == Occurrences(GroupKeys(rs), other) + if other == key then |rows| else 0
  {
    assert GroupKeys(rs + rows) == GroupKeys(rs) + GroupKeys(rows);
    OccurrencesAppend(GroupKeys(rs), GroupKeys(rows), other);
    OccurrencesUniform(GroupKeys(rows), key, other);
  }

  /** A stored row whose key differs from the appended rows' key keeps its group, full or not. */
  lemma FullGroupKept(rs: seq<ResponseRow>, rows: seq<ResponseRow>, key: (Option<int>, Timestamp), k: int)
    requires forall j :: 0 <= j < |rows| ==> (rows[j].userId, rows[j].timestamp) == key
    requires 0 <= k < |rs| && (rs[k].userId, rs[k].timestamp) != key
    ensures (rs + rows)[k] == rs[k]
    ensures InFullGroup(rs + rows, k) <==> InFullGroup(rs, k)
  {
    GroupGrowth(rs, rows, key, (rs[k].userId, rs[k].timestamp));
  }

  /** Rows appended under a key no stored row has form a group of exactly their number. */
  lemma FullGroupNew(rs: seq<ResponseRow>, rows: seq<ResponseRow>, key: (Option<int>, Timestamp))
    requires forall j :: 0 <= j < |rows| ==> (rows[j].userId, rows[j].timestamp) == key
    requires forall j :: 0 <= j < |rs| ==> (rs[j].userId, rs[j].timestamp) != key
    ensures Occurrences(GroupKeys(rs + rows), key) == |rows|
  {
    GroupGrowth(rs, rows, key, key);
    assert key !in GroupKeys(rs);
  }

  /** A submission of a fresh user adds that user to the named surveys exactly when it holds six answers. */
  lemma NamedSurveysGrow(rs: seq<ResponseRow>, rows: seq<ResponseRow>, u: int, t: Timestamp)
    requires forall k :: 0 <= k < |rs| ==> rs[k].userId != Some(u)
    requires forall k :: 0 <= k < |rows| ==> rows[k].userId == Some(u) && rows[k].timestamp == t
    ensures NamedSurveys(rs + rows) == NamedSurveys(rs) + (if |rows| == 6 then {u} else {})
  {
    var all := rs + rows;
    var key := (Some(u), t);
    forall x | x in NamedSurveys(all)
      ensures x in NamedSurveys(rs) + (if |rows| == 6 then {u} else {})
    {
      var k :| 0 <= k < |all| && all[k].userId.Some? && InFullGroup(all, k) && all[k].userId.value == x;
      if (all[k].userId, all[k].timestamp) != key {
        assert k < |rs| && all[k] == rs[k];
        FullGroupKept(rs, rows, key, k);
      } else {
        FullGroupNew(rs, rows, key);
      }
    }
    forall x | x in NamedSurveys(rs)
      ensures x in NamedSurveys(all)
    {
      var k :| 0 <= k < |rs| && rs[k].userId.Some? && InFullGroup(rs, k) && rs[k].userId.value == x;
      assert all[k] == rs[k];
      FullGroupKept(rs, rows, key, k);
    }
    if |rows| == 6 {
      FullGroupNew(rs, rows, key);
      assert all[|rs|] == rows[0] && InFullGroup(all, |rs|);
    }
  }

  /** Named rows leave the anonymous surveys alone. */
  lemma AnonymousSurveysKept(rs: seq<ResponseRow>, rows: seq<ResponseRow>, u: int, t: Timestamp)
    requires forall k :: 0 <= k < |rows| ==> rows[k].userId == Some(u) && rows[k].timestamp == t
    ensures AnonymousSurveys(rs + rows) == AnonymousSurveys(rs)
  {
    var all := rs + rows;
    var key := (Some(u), t);
    forall x | x in AnonymousSurveys(all)
      ensures x in AnonymousSurveys(rs)
    {
      var k :| 0 <= k < |all| && all[k].userId.None? && InFullGroup(all, k) && all[k].timestamp == x;
      assert k < |rs| && all[k] == rs[k];
      FullGroupKept(rs, rows, key, k);
    }
    forall x | x in AnonymousSurveys(rs)
      ensures x in AnonymousSurveys(all)
    {
      var k :| 0 <= k < |rs| && rs[k].userId.None? && InFullGroup(rs, k) && rs[k].timestamp == x;
      assert all[k] == rs[k];
      FullGroupKept(rs, rows, key, k);
    }
  }

  /**
   * An anonymous submission stamped at a second no stored anonymous response has adds that
   * second to the anonymous surveys exactly when it holds six answers.
   */
  lemma AnonymousSurveysGrow(rs: seq<ResponseRow>, rows: seq<ResponseRow>, t: Timestamp)
    requires forall k :: 0 <= k < |rs| ==> rs[k].userId.Some? || rs[k].timestamp != t
    requires forall k :: 0 <= k < |rows| ==> rows[k].userId.None? && rows[k].timestamp == t
    ensures AnonymousSurveys(rs + rows) == AnonymousSurveys(rs) + (if |rows| == 6 then {t} else {})
  {
    var all := rs + rows;
    var key: (Option<int>, Timestamp) := (None, t);
    forall x | x in AnonymousSurveys(all)
      ensures x in AnonymousSurveys(rs) + (if |rows| == 6 then {t} else {})
    {
      var k :| 0 <= k < |all| && all[k].userId.None? && InFullGroup(all, k) && all[k].timestamp == x;
      if (all[k].userId, all[k].timestamp) != key {
        assert k < |rs| && all[k] == rs[k];
        FullGroupKept(rs, rows, key, k);
      } else {
        FullGroupNew(rs, rows, key);
      }
    }
    forall x | x in AnonymousSurveys(rs)
      ensures x in AnonymousSurveys(all)
    {
      var k :| 0 <= k < |rs| && rs[k].userId.None? && InFullGroup(rs, k) && rs[k].timestamp == x;
      assert all[k] == rs[k];
      FullGroupKept(rs, rows, key, k);
    }
    if |rows| == 6 {
      FullGroupNew(rs, rows, key);
      assert all[|rs|] == rows[0] && InFullGroup(all, |rs|);
    }
  }

  /** Anonymous rows leave the named surveys alone. */
  lemma NamedSurveysKept(rs: seq<ResponseRow>, rows: seq<ResponseRow>, t: Timestamp)
    requires forall k :: 0 <= k < |rows| ==> rows[k].userId.None? && rows[k].timestamp == t
    ensures NamedSurveys(rs + rows) == NamedSurveys(rs)
  {
    var all := rs + rows;
    var key: (Option<int>, Timestamp) := (None, t);
    forall x | x in NamedSurveys(all)
      ensures x in NamedSurveys(rs)
    {
      var k :| 0 <= k < |all| && all[k].userId.Some? && InFullGroup(all, k) && all[k].userId.value == x;
      assert k < |rs| && all[k] == rs[k];
      FullGroupKept(rs, rows, key, k);
    }
    forall x | x in NamedSurveys(rs)
      ensures x in NamedSurveys(all)
    {
      var k :| 0 <= k < |rs| && rs[k].userId.Some? && InFullGroup(rs, k) && rs[k].userId.value == x;
      assert all[k] == rs[k];
      FullGroupKept(rs, rows, key, k);
    }
  }

  /**
   * Two six-answer anonymous submissions stamped in the same second merge into one group
   * of twelve rows, which the `HAVING respuestas = 6` filter drops: neither is counted.
   */
  lemma SameSecondAnonymousSurveysVanish(rs: seq<ResponseRow>, first: seq<ResponseRow>, second: seq<ResponseRow>, t: Timestamp)
    requires forall k :: 0 <= k < |rs| ==> rs[k].userId.Some? || rs[k].timestamp != t
    requires |first| == 6 && |second| == 6
    requires forall k :: 0 <= k < |first| ==> first[k].userId.None? && first[k].timestamp == t
    requires forall k :: 0 <= k < |second| ==> second[k].userId.None? && second[k].timestamp == t
    ensures TotalSurveys(rs + first) == TotalSurveys(rs) + 1
    ensures TotalSurveys(rs + first + second) == TotalSurveys(rs)
  {
    AnonymousSurveysGrow(rs, first, t);
    NamedSurveysKept(rs, first, t);
    assert t !in AnonymousSurveys(rs);
    assert rs + first + second == rs + (first + second);
    AnonymousSurveysGrow(rs, first + second, t);
    NamedSurveysKept(rs, first + second, t);
  }

  /**
   * What an accepted submission does to `total_surveys`: it adds one survey when it holds
   * exactly six answers and none otherwise, provided, when anonymous, that no stored
   * anonymous response carries the same second.
   */
  lemma SubmissionSurveyCount(users: seq<UserRow>, responses: seq<ResponseRow>, options: seq<OptionRow>, sub: Submission, stamp: Timestamp)
    requires Consistent(users, responses)
    requires Accepted(sub)
    requires sub.isAnonymous ==> forall k :: 0 <= k < |responses| ==> responses[k].userId.Some? || responses[k].timestamp != stamp
    ensures TotalSurveys(responses + SubmittedRows(options, sub, |users| + 1, stamp))
         == TotalSurveys(responses) + if |sub.responses.value| == 6 then 1 else 0
  {
    var rows := SubmittedRows(options, sub, |users| + 1, stamp);
    if sub.isAnonymous {
      AnonymousSurveysGrow(responses, rows, stamp);
      NamedSurveysKept(responses, rows, stamp);
      assert stamp !in AnonymousSurveys(responses);
    } else {
      NamedSurveysGrow(responses, rows, |users| + 1, stamp);
      AnonymousSurveysKept(responses, rows, |users| + 1, stamp);
      assert |users| + 1 !in NamedSurveys(responses);
    }
  }

  // ---------------------------------------------------------------------------
  // GET /dashboard: gender, classification and per-question statistics
  // ---------------------------------------------------------------------------

  /** The `sexo` column of `users`. */
  function Sexes(users: seq<UserRow>): (keys: seq<string>)
    ensures |keys| == |users|
    ensures forall i :: 0 <= i < |users| ==> keys[i] == users[i].profile.sexo
  {
    seq(|users|, i requires 0 <= i < |users| => users[i].profile.sexo)
  }

  /** The stored `clasificacion` column of `users`: the key of `GROUP BY clasificacion`. */
  function StoredClasses(users: seq<UserRow>): (keys: seq<Severity>)
    ensures |keys| == |users|
    ensures forall i :: 0 <= i < |users| ==> keys[i] == users[i].clasificacion
  {
    seq(|users|, i requires 0 <= i < |users| => users[i].clasificacion)
  }

  /** The dashboard's `CASE` label of every user's `puntaje_total`. */
  function Labels(users: seq<UserRow>): (keys: seq<Label>)
    ensures |keys| == |users|
    ensures forall i :: 0 <= i < |users| ==> keys[i] == DashboardLabel(users[i].puntajeTotal)
  {
    seq(|users|, i requires 0 <= i < |users| => DashboardLabel(users[i].puntajeTotal))
  }

  /**
   * The `clasificacion` the classification query reports for the group of users stored
   * with class `c`. `GROUP BY clasificacion` names the column of `users`, which takes
   * precedence over the output alias of the same name, so the `CASE` of the select list
   * is evaluated on one row of the group. SQL leaves that row unspecified; the model takes
   * the group's first user, and the contract promises only that it is one of the group.
   */
  function GroupLabel(users: seq<UserRow>, c: Severity): (l: Label)
    ensures (exists i :: 0 <= i < |users| && users[i].clasificacion == c) ==>
      exists i :: 0 <= i < |users| && users[i].clasificacion == c && l == DashboardLabel(users[i].puntajeTotal)
  {
    if users == [] then Unclassified
    else if users[0].clasificacion == c then DashboardLabel(users[0].puntajeTotal)
    else
      var l := GroupLabel(users[1..], c);
      assert (exists i :: 0 <= i < |users| && users[i].clasificacion == c) ==>
        exists i :: 0 <= i < |users[1..]| && users[1..][i].clasificacion == c;
      l
  }

  /**
   * In a consistent database the label of a stored class's group is that class or
   * `Sin clasificar`, never another class, and it is the class itself when every user
   * of the group has a total within 0 to 18.
   */
  lemma ClassGroupLabel(users: seq<UserRow>, responses: seq<ResponseRow>, c: Severity)
    requires Consistent(users, responses)
    requires c in StoredClasses(users)
    ensures GroupLabel(users, c) == Classified(c) || GroupLabel(users, c) == Unclassified
    ensures (forall i :: 0 <= i < |users| && users[i].clasificacion == c ==> 0 <= users[i].puntajeTotal <= 18) ==>
      GroupLabel(users, c) == Classified(c)
  {
    var k :| 0 <= k < |users| && StoredClasses(users)[k] == c;
    var i :| 0 <= i < |users| && users[i].clasificacion == c && GroupLabel(users, c) == DashboardLabel(users[i].puntajeTotal);
    LabelAgreesWithClassify(users[i].puntajeTotal);
  }

  /**
   * The classification list: `SELECT CASE ... AS clasificacion, COUNT(*) FROM users GROUP BY
   * clasificacion` followed by the percentage loop. One row per stored class, in order of
   * first appearance, labelled as `GroupLabel` says, with the number of users stored with
   * that class and their share of all users; the shares add up to 100 when there is a user.
   */
  ghost predicate ClassificationsOf(stats: seq<CategoryStat<Label>>, users: seq<UserRow>)
  {
    var groups := GroupCounts(StoredClasses(users));
    && |stats| == |groups|
    && (forall i :: 0 <= i < |groups| ==>
          stats[i] == CategoryStat(GroupLabel(users, groups[i].0), groups[i].1, Percent(groups[i].1, |users|)))
    && (|users| > 0 ==> SumReals(Percentages(stats)) == 100.0)
  }

  /** The classification query and its percentage loop. */
  method ClassificationStats(users: seq<UserRow>) returns (stats: seq<CategoryStat<Label>>)
    ensures ClassificationsOf(stats, users)
  {
    var groups := GroupCounts(StoredClasses(users));
    var labelled := seq(|groups|, i requires 0 <= i < |groups| => (GroupLabel(users, groups[i].0), groups[i].1));
    assert Counts(labelled) == Counts(groups);
    GroupCountsSum(StoredClasses(users));
    stats := WithPercentages(labelled);
  }

  /**
   * When every total lies within 0 to 18, grouping by the stored class gives the same list
   * as grouping by the `CASE` label: the same rows, counts and shares, in the same order.
   */
  lemma ClassificationsMatchLabels(users: seq<UserRow>, responses: seq<ResponseRow>, stats: seq<CategoryStat<Label>>)
    requires Consistent(users, responses)
    requires forall i :: 0 <= i < |users| ==> 0 <= users[i].puntajeTotal <= 18
    requires ClassificationsOf(stats, users)
    ensures CategoriesOf(stats, Labels(users))
  {
    var f := (c: Severity) => Classified(c);
    assert Injective(f);
    var keys := StoredClasses(users);
    forall i | 0 <= i < |users|
      ensures Labels(users)[i] == MapKeys(f, keys)[i]
    {
      LabelAgreesWithClassify(users[i].puntajeTotal);
    }
    assert Labels(users) == MapKeys(f, keys);
    GroupCountsMapped(f, keys);
    forall i | 0 <= i < |GroupCounts(keys)|
      ensures GroupLabel(users, GroupCounts(keys)[i].0) == Classified(GroupCounts(keys)[i].0)
    {
      assert GroupCounts(keys)[i].0 in Distinct(keys);
      ClassGroupLabel(users, responses, GroupCounts(keys)[i].0);
    }
  }

  /**
   * Two users stored as `Grave`, one with a total of 12 and one with 21 (seven answers),
   * form a single classification row of two users, whereas the `CASE` labels would split
   * them into two rows.
   */
  lemma StoredClassGroupsMixedTotals(users: seq<UserRow>)
    requires |users| == 2
    requires users[0].clasificacion == Grave && users[0].puntajeTotal == 12
    requires users[1].clasificacion == Grave && users[1].puntajeTotal == 21
    ensures GroupCounts(StoredClasses(users)) == [(Grave, 2)]
    ensures |GroupCounts(Labels(users))| == 2
  {
    assert StoredClasses(users) == [Grave, Grave];
    GroupCountsPair(Grave, Grave);
    assert Labels(users) == [Classified(Grave), Unclassified];
    GroupCountsPair(Classified(Grave), Unclassified);
  }

  /**
   * `stats` is the dashboard list for `keys`: one row per distinct key in order of first
   * appearance, with its count and its share of all the keys, the shares adding up to 100
   * when there is any key.
   */
  ghost predicate CategoriesOf<K(!new)>(stats: seq<CategoryStat<K>>, keys: seq<K>)
  {
    var groups := GroupCounts(keys);
    && |stats| == |groups|
    && (forall i :: 0 <= i < |groups| ==>
          stats[i] == CategoryStat(groups[i].0, groups[i].1, Percent(groups[i].1, |keys|)))
    && (|keys| > 0 ==> SumReals(Percentages(stats)) == 100.0)
  }

  /** `SELECT key, COUNT(*) ... GROUP BY key` followed by the percentage loop, against the number of rows counted. */
  method CategoryStats<K(==,!new)>(keys: seq<K>) returns (stats: seq<CategoryStat<K>>)
    ensures CategoriesOf(stats, keys)
  {
    stats := WithPercentages(GroupCounts(keys));
    GroupCountsSum(keys);
  }

  /** What the per-question rows report about an option: its id (standing in for its text) and its `puntaje`. */
  datatype OptionInfo = OptionInfo(id: int, points: int)

  /** The `options` columns the per-question query joins on and reports. */
  function JoinOptions(options: seq<OptionRow>): (rows: seq<JoinOption<OptionInfo>>)
    ensures |rows| == |options|
    ensures forall j :: 0 <= j < |options| ==>
      rows[j] == JoinOption(options[j].id, options[j].questionId, OptionInfo(options[j].id, options[j].points))
  {
    seq(|options|, j requires 0 <= j < |options| => JoinOption(options[j].id, options[j].questionId, OptionInfo(options[j].id, options[j].points)))
  }

  /** The `respuesta` column of `responses`. */
  function Answers(rs: seq<ResponseRow>): (answers: seq<int>)
    ensures |answers| == |rs|
    ensures forall k :: 0 <= k < |rs| ==> answers[k] == rs[k].respuesta
  {
    seq(|rs|, k requires 0 <= k < |rs| => rs[k].respuesta)
  }

  /** What `dashboard.html` is rendered with; `questionOrder` is the key order of `questions_data`. */
  datatype DashboardView = DashboardView(
    totalSurveys: nat,
    genderStats: seq<CategoryStat<string>>,
    anonymousPercentage: real,
    classificationStats: seq<CategoryStat<Label>>,
    questionOrder: seq<int>,
    questionsData: map<int, QuestionData<OptionInfo>>)

  /**
   * `GET /dashboard` over the four tables: the survey count, the gender list and the list of
   * stored classes with their shares of all users, the share of anonymous surveys, and under every
   * question (in table order) one entry per option it owns, counting the responses that
   * chose that option's id.
   */
  method Dashboard(questions: seq<int>, options: seq<OptionRow>, users: seq<UserRow>, responses: seq<ResponseRow>)
    returns (view: DashboardView)
    ensures view.totalSurveys == TotalSurveys(responses)
    ensures view.anonymousPercentage == Percent(|AnonymousSurveys(responses)|, TotalSurveys(responses))
    ensures 0.0 <= view.anonymousPercentage <= 100.0
    ensures CategoriesOf(view.genderStats, Sexes(users))
    ensures ClassificationsOf(view.classificationStats, users)
    ensures forall q :: q in view.questionsData <==> q in view.questionOrder
    ensures DistinctIds(questions) ==> view.questionOrder == questions
    ensures DistinctIds(questions) ==> forall q :: q in view.questionsData ==>
      view.questionsData[q] == Tally(QuestionBlock(q, JoinOptions(options), Answers(responses)))
  {
    var totalNamed := |NamedSurveys(responses)|;
    var totalAnonymous := |AnonymousSurveys(responses)|;
    var totalSurveys := totalNamed + totalAnonymous;
    var genderStats := CategoryStats(Sexes(users));
    var anonymousPercentage := Percent(totalAnonymous, totalSurveys);
    var classificationStats := ClassificationStats(users);
    var order, data := BuildQuestionsData(JoinRows(questions, JoinOptions(options), Answers(responses)));
    if DistinctIds(questions) {
      forall q | q in data
        ensures data[q] == Tally(QuestionBlock(q, JoinOptions(options), Answers(responses)))
      {
        BreakdownMeaning(questions, JoinOptions(options), Answers(responses), order, data, q);
      }
      BreakdownMeaning(questions, JoinOptions(options), Answers(responses), order, data, 0);
    }
    view := DashboardView(totalSurveys, genderStats, anonymousPercentage, classificationStats, order, data);
  }

  /** The seeded catalogue gives question `q` (1 to 6) the options `4q - 3` to `4q`, worth 0 to 3 points, in that order. */
  lemma SeededQuestionOptions(options: seq<OptionRow>, q: int)
    requires SeedLayout(options)
    requires 1 <= q <= 6
    ensures |OwnOptions(JoinOptions(options), q)| == 4
    ensures forall j :: 0 <= j < 4 ==>
      OwnOptions(JoinOptions(options), q)[j] == JoinOption(4 * q - 3 + j, q, OptionInfo(4 * q - 3 + j, j))
  {
    var jo := JoinOptions(options);
    var lo, hi := 4 * (q - 1), 4 * q;
    var a, b, c := jo[..lo], jo[lo..hi], jo[hi..];
    assert jo == a + b + c;
    forall k | 0 <= k < |a|
      ensures a[k].questionId != q
    {
      assert a[k] == jo[k];
    }
    forall k | 0 <= k < |c|
      ensures c[k].questionId != q
    {
      assert c[k] == jo[hi + k];
    }
    forall k | 0 <= k < |b|
      ensures b[k] == JoinOption(lo + k + 1, q, OptionInfo(lo + k + 1, k))
    {
      assert b[k] == jo[lo + k];
    }
    OwnOptionsNone(a, q);
    OwnOptionsNone(c, q);
    OwnOptionsUniform(b, q, q);
    OwnOptionsAppend(a, b, q);
    OwnOptionsAppend(a + b, c, q);
  }

  /**
   * On the seeded catalogue every question's dashboard entry lists its four options in
   * order, including those nobody chose, each with the number of responses naming its id.
   */
  lemma SeededBreakdown(options: seq<OptionRow>, responses: seq<ResponseRow>, q: int)
    requires SeedLayout(options)
    requires 1 <= q <= 6
    ensures var d := Tally(QuestionBlock(q, JoinOptions(options), Answers(responses)));
      && |d.opciones| == 4
      && forall j :: 0 <= j < 4 ==>
           d.opciones[j].option == Some(OptionInfo(4 * q - 3 + j, j))
           && d.opciones[j].count == Occurrences(Answers(responses), 4 * q - 3 + j)
  {
    SeededQuestionOptions(options, q);
    BlockTally(q, JoinOptions(options), Answers(responses));
  }
}
