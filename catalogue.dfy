/**
 * The fixed question-and-option catalogue that run_local.py seeds (run_local.py:80-133):
 * six questions, four options each, worth 0 to 3 points in seed order. Option ids are
 * assigned by `AUTOINCREMENT` in insertion order. Question and option texts are not modelled.
 */
module Catalogue {
  import opened Common

  /** A row of the `options` table: `id`, `pregunta_id`, `puntaje`. */
  datatype OptionRow = OptionRow(id: int, questionId: int, points: int)

  /** The ids the six seeded questions receive in an empty `questions` table. */
  const SeedQuestions: seq<int> := [1, 2, 3, 4, 5, 6]

  /** `(pregunta_id, puntaje)` of every seeded option, in insertion order. */
  const SeedOptions: seq<(int, int)> := [
    (1, 0), (1, 1), (1, 2), (1, 3),
    (2, 0), (2, 1), (2, 2), (2, 3),
    (3, 0), (3, 1), (3, 2), (3, 3),
    (4, 0), (4, 1), (4, 2), (4, 3),
    (5, 0), (5, 1), (5, 2), (5, 3),
    (6, 0), (6, 1), (6, 2), (6, 3)
  ]

  /** The rows that inserting `seed` produces when the next free id is `firstId`. */
  function Numbered(seed: seq<(int, int)>, firstId: int): (rows: seq<OptionRow>)
    ensures |rows| == |seed|
    ensures forall i :: 0 <= i < |seed| ==> rows[i] == OptionRow(firstId + i, seed[i].0, seed[i].1)
  {
    seq(|seed|, i requires 0 <= i < |seed| => OptionRow(firstId + i, seed[i].0, seed[i].1))
  }

  /** The `options` table right after seeding an empty database. */
  function SeededOptions(): seq<OptionRow>
  {
    Numbered(SeedOptions, 1)
  }

  /** `SELECT ... FROM options WHERE id = ?` followed by `fetchone()`: the first row with that id, if any. */
  function FindOption(options: seq<OptionRow>, id: int): (r: Option<OptionRow>)
    ensures r.Some? ==> r.value in options && r.value.id == id
    ensures r.None? <==> forall k :: 0 <= k < |options| ==> options[k].id != id
  {
    if options == [] then None
    else if options[0].id == id then Some(options[0])
    else FindOption(options[1..], id)
  }

  /** When several rows carry the id, the lookup returns the first of them. */
  lemma {:induction false} FindOptionFirst(options: seq<OptionRow>, id: int, k: int)
    requires 0 <= k < |options| && options[k].id == id
    requires forall j :: 0 <= j < k ==> options[j].id != id
    ensures FindOption(options, id) == Some(options[k])
  {
    if options[0].id != id {
      FindOptionFirst(options[1..], id, k - 1);
    }
  }

  /** In a table whose ids run consecutively from `firstId`, id `id` is found at position `id - firstId`. */
  lemma {:induction false} FindConsecutive(options: seq<OptionRow>, firstId: int, id: int)
    requires forall i :: 0 <= i < |options| ==> options[i].id == firstId + i
    ensures FindOption(options, id) == if firstId <= id < firstId + |options| then Some(options[id - firstId]) else None
  {
    if options != [] && options[0].id != id {
      FindConsecutive(options[1..], firstId + 1, id);
    }
  }

  /** Question q owns the seeded options 4q-3 .. 4q, worth 0, 1, 2 and 3 points in that order. */
  lemma SeedShape()
    ensures |SeedOptions| == 24
    ensures forall i :: 0 <= i < 24 ==> SeedOptions[i] == (i / 4 + 1, i % 4)
  {
  }

  /**
   * Looking an id up in the seeded catalogue: ids 1 to 24 exist, id `k` belongs to
   * question `(k - 1) / 4 + 1` and is worth `(k - 1) % 4` points; no other id exists.
   */
  lemma SeededLookup(id: int)
    ensures FindOption(SeededOptions(), id) ==
      if 1 <= id <= 24 then Some(OptionRow(id, (id - 1) / 4 + 1, (id - 1) % 4)) else None
  {
    var rows := SeededOptions();
    assert forall i :: 0 <= i < |rows| ==> rows[i].id == 1 + i;
    FindConsecutive(rows, 1, id);
    if 1 <= id <= 24 {
      SeedShape();
      assert rows[id - 1] == OptionRow(id, SeedOptions[id - 1].0, SeedOptions[id - 1].1);
    }
  }

  /** Every seeded option is worth between 0 and 3 points. */
  lemma SeededPointsInRange()
    ensures forall k :: 0 <= k < |SeededOptions()| ==> 0 <= SeededOptions()[k].points <= 3
  {
    SeedShape();
  }
}
