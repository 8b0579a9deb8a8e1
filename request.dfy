/**
 * The JSON body of `POST /api/submit-survey` as both revisions read it:
 * `is_anonymous`, the respondent's fields, and the `responses` object mapping
 * question ids to option ids. The web layer itself is not modelled.
 */
module Request {
  import opened Common

  /** `nombre`, `email`, `edad` and `sexo`, as written to the `users` row. */
  datatype Profile = Profile(nombre: string, email: string, edad: int, sexo: string)

  /**
   * One `question_id: option_id` pair of `responses`, in the object's order. Each side is
   * what Python's `int(...)` makes of the JSON value, and `None` where `int(...)` raises.
   */
  datatype Entry = Entry(questionKey: Option<int>, optionKey: Option<int>)

  /**
   * A request body. `isAnonymous` is the truth value of `data.get('is_anonymous')`;
   * `profile` is `None` when one of the four user fields is absent (a `KeyError` while
   * building the insert); `responses` is `None` when the key is absent or its value is not an object.
   */
  datatype Submission = Submission(isAnonymous: bool, profile: Option<Profile>, responses: Option<seq<Entry>>)

  /** Why a submission was rolled back and answered with `success: False` and status 500. */
  datatype SubmitError =
    | ResponsesMissing   // data['responses'] or .items() raised
    | UserFieldMissing   // data['nombre'] / ['email'] / ['edad'] / ['sexo'] raised
    | BadQuestionId      // int(question_id) raised, or its value did not bind
    | BadOptionId        // int(option_id) raised, or its value did not bind
    | UnknownReference   // a REFERENCES constraint rejected the response row (app.py on PostgreSQL)

  /**
   * A value Python's `sqlite3` can bind as a statement parameter: a signed 64-bit integer.
   * A larger `int` raises `OverflowError` inside `execute`.
   */
  predicate FitsInt64(v: int)
  {
    -0x8000_0000_0000_0000 <= v <= 0x7FFF_FFFF_FFFF_FFFF
  }

  /** The key converts with `int(...)` and the result can be bound as an SQLite parameter. */
  predicate Binds(key: Option<int>)
  {
    key.Some? && FitsInt64(key.value)
  }

  /** Every option id of the entries converts with `int(...)` and binds. */
  predicate OptionKeysBind(entries: seq<Entry>)
  {
    forall i :: 0 <= i < |entries| ==> Binds(entries[i].optionKey)
  }

  /** Every question id of the entries converts with `int(...)` and binds. */
  predicate QuestionKeysBind(entries: seq<Entry>)
  {
    forall i :: 0 <= i < |entries| ==> Binds(entries[i].questionKey)
  }

  /** The converted option ids, in entry order. */
  function OptionIds(entries: seq<Entry>): (ids: seq<int>)
    requires OptionKeysBind(entries)
    ensures |ids| == |entries|
    ensures forall i :: 0 <= i < |entries| ==> entries[i].optionKey == Some(ids[i])
  {
    seq(|entries|, i requires 0 <= i < |entries| => entries[i].optionKey.value)
  }

  /** The converted question ids, in entry order. */
  function QuestionIdsOf(entries: seq<Entry>): (ids: seq<int>)
    requires QuestionKeysBind(entries)
    ensures |ids| == |entries|
    ensures forall i :: 0 <= i < |entries| ==> entries[i].questionKey == Some(ids[i])
  {
    seq(|entries|, i requires 0 <= i < |entries| => entries[i].questionKey.value)
  }
}
