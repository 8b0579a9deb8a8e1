/**
 * How run_local.py scores a submission (run_local.py:306-321) and how its dashboard
 * re-buckets stored totals (run_local.py:216-227).
 */
module Scoring {
  import opened Common
  import opened Catalogue

  /** The `clasificacion` a submission stores and returns. */
  datatype Severity = Leve | Moderado | Grave

  /**
   * The if-chain on the total: at most 5 is `Leve`, 6 to 11 is `Moderado`, 12 and
   * above is `Grave`; every integer gets exactly one class.
   */
  function Classify(total: int): (s: Severity)
    ensures s == Leve <==> total <= 5
    ensures s == Moderado <==> 6 <= total <= 11
    ensures s == Grave <==> 12 <= total
  {
    if total <= 5 then Leve
    else if total <= 11 then Moderado
    else Grave
  }

  /** The position of a class on the severity scale. */
  function Rank(s: Severity): nat
  {
    match s
    case Leve => 0
    case Moderado => 1
    case Grave => 2
  }

  /** A higher total never gives a milder class. */
  lemma ClassifyMonotone(t1: int, t2: int)
    requires t1 <= t2
    ensures Rank(Classify(t1)) <= Rank(Classify(t2))
  {
  }

  /**
   * The points one submitted option id adds: the `puntaje` of the row with that id, or 0
   * when there is none. The id alone is looked up; the question it was sent for is not.
   */
  function PointsOf(options: seq<OptionRow>, id: int): (p: int)
    ensures (forall k :: 0 <= k < |options| ==> options[k].id != id) ==> p == 0
    ensures p != 0 ==> exists k :: 0 <= k < |options| && options[k].id == id && options[k].points == p
  {
    match FindOption(options, id)
    case Some(row) => row.points
    case None => 0
  }

  /** An id that has an option row adds the `puntaje` of the first row with that id. */
  lemma PointsOfFirstRow(options: seq<OptionRow>, id: int, k: int)
    requires 0 <= k < |options| && options[k].id == id
    requires forall j :: 0 <= j < k ==> options[j].id != id
    ensures PointsOf(options, id) == options[k].points
  {
    FindOptionFirst(options, id, k);
  }

  /** `puntaje_total`: the points of every submitted option id, added in order. */
  function TotalPoints(options: seq<OptionRow>, ids: seq<int>): int
  {
    if ids == [] then 0 else TotalPoints(options, ids[..|ids| - 1]) + PointsOf(options, ids[|ids| - 1])
  }

  /** The total of two runs of answers is the sum of their totals, so the order of `responses` does not matter for the sum. */
  lemma {:induction false} TotalPointsAppend(options: seq<OptionRow>, a: seq<int>, b: seq<int>)
    ensures TotalPoints(options, a + b) == TotalPoints(options, a) + TotalPoints(options, b)
  {
    if b != [] {
      var front := b[..|b| - 1];
      TotalPointsAppend(options, a, front);
      assert (a + b)[..|a + b| - 1] == a + front;
    } else {
      assert a + b == a;
    }
  }

  /** A table laid out as the seed lays out an empty database: row i has id i + 1, question i / 4 + 1, points i % 4. */
  ghost predicate SeedLayout(options: seq<OptionRow>)
  {
    |options| == 24 && forall i :: 0 <= i < 24 ==> options[i] == OptionRow(i + 1, i / 4 + 1, i % 4)
  }

  lemma SeededHasSeedLayout()
    ensures SeedLayout(SeededOptions())
  {
    SeedShape();
  }

  /** In the seed layout option `k` (1 to 24) is worth `(k - 1) % 4` points; any other id is worth 0. */
  lemma SeedLayoutPoints(options: seq<OptionRow>, id: int)
    requires SeedLayout(options)
    ensures PointsOf(options, id) == if 1 <= id <= 24 then (id - 1) % 4 else 0
  {
    FindConsecutive(options, 1, id);
  }

  /** What the seed layout charges for one submitted option id. */
  function SeedPoints(id: int): int
  {
    if 1 <= id <= 24 then (id - 1) % 4 else 0
  }

  /** The total under the seed layout, read off the ids alone. */
  function SeedTotal(ids: seq<int>): int
  {
    if ids == [] then 0 else SeedTotal(ids[..|ids| - 1]) + SeedPoints(ids[|ids| - 1])
  }

  /** In the seed layout the stored total depends on the ids alone. */
  lemma {:induction false} SeedLayoutTotal(options: seq<OptionRow>, ids: seq<int>)
    requires SeedLayout(options)
    ensures TotalPoints(options, ids) == SeedTotal(ids)
  {
    if ids != [] {
      SeedLayoutTotal(options, ids[..|ids| - 1]);
      SeedLayoutPoints(options, ids[|ids| - 1]);
    }
  }

  lemma SeedTotalPrefix(ids: seq<int>, n: nat)
    requires 0 < n <= |ids|
    ensures SeedTotal(ids[..n]) == SeedTotal(ids[..n - 1]) + SeedPoints(ids[n - 1])
  {
    assert ids[..n][..n - 1] == ids[..n - 1];
  }

  /** When every option is worth 0 to 3 points, n answers score between 0 and 3n. */
  lemma {:induction false} TotalPointsBounds(options: seq<OptionRow>, ids: seq<int>)
    requires forall k :: 0 <= k < |options| ==> 0 <= options[k].points <= 3
    ensures 0 <= TotalPoints(options, ids) <= 3 * |ids|
  {
    if ids != [] {
      TotalPointsBounds(options, ids[..|ids| - 1]);
    }
  }

  /** With the seeded catalogue, the first option of every question scores 0 and is `Leve`. */
  lemma FirstOptionsScoreZero(options: seq<OptionRow>, ids: seq<int>)
    requires SeedLayout(options)
    requires ids == [1, 5, 9, 13, 17, 21]
    ensures TotalPoints(options, ids) == 0
    ensures Classify(TotalPoints(options, ids)) == Leve
  {
    SeedLayoutTotal(options, ids);
    assert ids[..6] == ids && ids[..0] == [];
    SeedTotalPrefix(ids, 1); SeedTotalPrefix(ids, 2); SeedTotalPrefix(ids, 3); SeedTotalPrefix(ids, 4); SeedTotalPrefix(ids, 5); SeedTotalPrefix(ids, 6);
  }

  /** With the seeded catalogue, options worth 0, 1, 2, 3, 1, 2 score 9, which is `Moderado`. */
  lemma MixedAnswersScoreNine(options: seq<OptionRow>, ids: seq<int>)
    requires SeedLayout(options)
    requires ids == [1, 6, 11, 16, 18, 23]
    ensures TotalPoints(options, ids) == 9
    ensures Classify(TotalPoints(options, ids)) == Moderado
  {
    SeedLayoutTotal(options, ids);
    assert ids[..6] == ids && ids[..0] == [];
    SeedTotalPrefix(ids, 1); SeedTotalPrefix(ids, 2); SeedTotalPrefix(ids, 3); SeedTotalPrefix(ids, 4); SeedTotalPrefix(ids, 5); SeedTotalPrefix(ids, 6);
  }

  /** What the dashboard's `CASE` makes of a total: a class, or `Sin clasificar`. */
  datatype Label = Classified(severity: Severity) | Unclassified

  /** The dashboard's `CASE`: 0-5 `Leve`, 6-11 `Moderado`, 12-18 `Grave`, anything else `Sin clasificar`. */
  function DashboardLabel(total: int): Label
  {
    if 0 <= total <= 5 then Classified(Leve)
    else if 6 <= total <= 11 then Classified(Moderado)
    else if 12 <= total <= 18 then Classified(Grave)
    else Unclassified
  }

  /** The `CASE` agrees with the stored class exactly on totals 0 to 18, and calls every other total unclassified. */
  lemma LabelAgreesWithClassify(total: int)
    ensures 0 <= total <= 18 ==> DashboardLabel(total) == Classified(Classify(total))
    ensures !(0 <= total <= 18) ==> DashboardLabel(total) == Unclassified
  {
  }

  /** For a submission of at most six answers against the seeded catalogue, the `CASE` gives its stored class. */
  lemma AtMostSixAnswersAreClassified(options: seq<OptionRow>, ids: seq<int>)
    requires SeedLayout(options)
    requires |ids| <= 6
    ensures DashboardLabel(TotalPoints(options, ids)) == Classified(Classify(TotalPoints(options, ids)))
  {
    TotalPointsBounds(options, ids);
  }

  /**
   * Seven answers worth 3 points each (nothing limits the number of entries) score 21:
   * stored as `Grave`, but the `CASE` gives `Sin clasificar`, so a `Grave` group labelled
   * from this user's row is reported as `Sin clasificar`.
   */
  lemma SevenAnswersAreUnclassified(options: seq<OptionRow>, ids: seq<int>)
    requires SeedLayout(options)
    requires ids == [4, 8, 12, 16, 20, 24, 24]
    ensures TotalPoints(options, ids) == 21
    ensures Classify(TotalPoints(options, ids)) == Grave
    ensures DashboardLabel(TotalPoints(options, ids)) == Unclassified
  {
    SeedLayoutTotal(options, ids);
    assert ids[..7] == ids && ids[..0] == [];
    SeedTotalPrefix(ids, 1); SeedTotalPrefix(ids, 2); SeedTotalPrefix(ids, 3); SeedTotalPrefix(ids, 4); SeedTotalPrefix(ids, 5); SeedTotalPrefix(ids, 6); SeedTotalPrefix(ids, 7);
  }
}
