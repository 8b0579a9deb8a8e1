/**
 * The earlier, unscored revision of the survey (app.py) on its PostgreSQL path: user ids
 * come from a `SERIAL` sequence, the `REFERENCES` constraints of `responses` are
 * enforced, a submission stores only which option was chosen, and the dashboard counts
 * surveys by a different rule from run_local.py.
 */
module RailwayApp {
  import opened Common
  import opened Request
  import opened Stats
  import opened Breakdown

  /** The `id` and `pregunta_id` of an `options` row; its text is not modelled. */
  datatype AppOption = AppOption(id: int, questionId: int)

  /** A `users` row: `id`, the four fields and `timestamp`. */
  datatype AppUser = AppUser(id: int, profile: Profile, timestamp: Timestamp)

  /** A `responses` row: `user_id` (NULL when anonymous), `pregunta_id`, `respuesta`. Its own id and timestamp are not modelled. */
  datatype AppResponse = AppResponse(userId: Option<int>, preguntaId: int, respuesta: int)

  /** The JSON answer: `success: True` alone, or `success: False` and status 500. */
  datatype AppReply = Saved | Rejected(error: SubmitError)

  /** The ids of an `options` table. */
  function OptionIdsOf(options: seq<AppOption>): (ids: seq<int>)
    ensures |ids| == |options|
    ensures forall j :: 0 <= j < |options| ==> ids[j] == options[j].id
  {
    seq(|options|, j requires 0 <= j < |options| => options[j].id)
  }

  /**
   * What inserting one entry's row raises, if anything: `int(question_id)` is evaluated
   * before `int(option_id)`, and the `REFERENCES` constraints reject a question or option
   * id the catalogue does not hold.
   */
  function EntryError(questions: seq<int>, optionIds: seq<int>, e: Entry): (r: Option<SubmitError>)
    ensures r.None? <==>
      e.questionKey.Some? && e.optionKey.Some? && e.questionKey.value in questions && e.optionKey.value in optionIds
  {
    if e.questionKey.None? then Some(BadQuestionId)
    else if e.optionKey.None? then Some(BadOptionId)
    else if e.questionKey.value !in questions || e.optionKey.value !in optionIds then Some(UnknownReference)
    else None
  }

  /** The error of the first entry whose insert raises, or `None` when every insert succeeds. */
  function FirstEntryError(questions: seq<int>, optionIds: seq<int>, entries: seq<Entry>): (r: Option<SubmitError>)
    ensures r.None? <==> forall i :: 0 <= i < |entries| ==> EntryError(questions, optionIds, entries[i]).None?
    ensures r.Some? ==> exists i :: 0 <= i < |entries| && EntryError(questions, optionIds, entries[i]) == r
  {
    if entries == [] then None
    else
      var front := FirstEntryError(questions, optionIds, entries[..|entries| - 1]);
      if front.Some? then front else EntryError(questions, optionIds, entries[|entries| - 1])
  }

  /** Once a prefix of the entries fails, the whole list fails with the same error. */
  lemma {:induction false} FirstEntryErrorPrefix(questions: seq<int>, optionIds: seq<int>, entries: seq<Entry>, n: nat)
    requires n <= |entries|
    requires FirstEntryError(questions, optionIds, entries[..n]).Some?
    ensures FirstEntryError(questions, optionIds, entries) == FirstEntryError(questions, optionIds, entries[..n])
  {
    if n < |entries| {
      var front := entries[..|entries| - 1];
      assert front[..n] == entries[..n];
      FirstEntryErrorPrefix(questions, optionIds, front, n);
    } else {
      assert entries[..n] == entries;
    }
  }

  /** Every step of the handler succeeds: a named submission carries its fields, `responses` is present, and every row inserts. */
  predicate AppAccepted(questions: seq<int>, optionIds: seq<int>, sub: Submission)
  {
    && (sub.isAnonymous || sub.profile.Some?)
    && sub.responses.Some?
    && FirstEntryError(questions, optionIds, sub.responses.value).None?
  }

  /**
   * The error a rejected submission reports, in the order the handler meets them: a
   * missing user field at the user insert, then a missing `responses`, then the first
   * entry whose row does not insert.
   */
  function AppFirstError(questions: seq<int>, optionIds: seq<int>, sub: Submission): (e: SubmitError)
    requires !AppAccepted(questions, optionIds, sub)
    ensures !sub.isAnonymous && sub.profile.None? ==> e == UserFieldMissing
    ensures (sub.isAnonymous || sub.profile.Some?) && sub.responses.None? ==> e == ResponsesMissing
    ensures (sub.isAnonymous || sub.profile.Some?) && sub.responses.Some? ==>
      Some(e) == FirstEntryError(questions, optionIds, sub.responses.value)
  {
    if !sub.isAnonymous && sub.profile.None? then UserFieldMissing
    else if sub.responses.None? then ResponsesMissing
    else FirstEntryError(questions, optionIds, sub.responses.value).value
  }

  /** One `responses` row per entry, in entry order, owned by `owner`. */
  function AppRows(questions: seq<int>, optionIds: seq<int>, owner: Option<int>, entries: seq<Entry>): (rows: seq<AppResponse>)
    requires FirstEntryError(questions, optionIds, entries).None?
    ensures |rows| == |entries|
  {
    seq(|entries|, i requires 0 <= i < |entries| =>
      AppResponse(owner, entries[i].questionKey.value, entries[i].optionKey.value))
  }

  /** The `users` rows an accepted submission adds: none when anonymous, else one with the id the sequence hands out. */
  function AppNewUsers(sub: Submission, newId: int, now: Timestamp): seq<AppUser>
    requires sub.isAnonymous || sub.profile.Some?
  {
    if sub.isAnonymous then [] else [AppUser(newId, sub.profile.value, now)]
  }

  /**
   * What the tables keep true: user ids increase strictly and stay below the next value of
   * the sequence, and every response row satisfies the `REFERENCES` constraints.
   */
  ghost predicate AppConsistent(questions: seq<int>, optionIds: seq<int>, users: seq<AppUser>, responses: seq<AppResponse>, nextId: int)
  {
    && (forall i, j :: 0 <= i < j < |users| ==> users[i].id < users[j].id)
    && (forall i :: 0 <= i < |users| ==> users[i].id < nextId)
    && (forall k :: 0 <= k < |responses| ==>
          && responses[k].preguntaId in questions
          && responses[k].respuesta in optionIds
          && (responses[k].userId.Some? ==> exists i :: 0 <= i < |users| && users[i].id == responses[k].userId.value))
  }

  /** Committing an accepted submission keeps the constraints, with the new user's id drawn from the sequence. */
  lemma AppCommitKeepsConsistent(questions: seq<int>, optionIds: seq<int>, users: seq<AppUser>, responses: seq<AppResponse>,
                                 nextId: int, sub: Submission, now: Timestamp)
    requires AppConsistent(questions, optionIds, users, responses, nextId)
    requires AppAccepted(questions, optionIds, sub)
    ensures AppConsistent(questions, optionIds, users + AppNewUsers(sub, nextId, now),
                          responses + AppRows(questions, optionIds, if sub.isAnonymous then None else Some(nextId), sub.responses.value),
                          if sub.isAnonymous then nextId else nextId + 1)
  {
    var entries := sub.responses.value;
    var owner := if sub.isAnonymous then None else Some(nextId);
    var users' := users + AppNewUsers(sub, nextId, now);
    var added := AppRows(questions, optionIds, owner, entries);
    var all := responses + added;
    forall k | 0 <= k < |all|
      ensures all[k].preguntaId in questions && all[k].respuesta in optionIds
      ensures all[k].userId.Some? ==> exists i :: 0 <= i < |users'| && users'[i].id == all[k].userId.value
    {
      if k < |responses| {
        assert all[k] == responses[k];
        if all[k].userId.Some? {
          var i :| 0 <= i < |users| && users[i].id == responses[k].userId.value;
          assert users'[i] == users[i];
        }
      } else {
        var i := k - |responses|;
        assert all[k] == added[i];
        assert EntryError(questions, optionIds, entries[i]).None?;
        if !sub.isAnonymous {
          assert users'[|users|].id == nextId;
        }
      }
    }
  }

  // ---------------------------------------------------------------------------
  // The database
  // ---------------------------------------------------------------------------

  class AppStore {
    /** The ids of the `questions` rows. */
    var questions: seq<int>
    var options: seq<AppOption>
    var users: seq<AppUser>
    var responses: seq<AppResponse>
    /** The next value of the `users.id` sequence; a rolled-back transaction does not give back what it drew. */
    var nextUserId: int

    ghost predicate Valid()
      reads this
    {
      DistinctIds(questions) && AppConsistent(questions, OptionIdsOf(options), users, responses, nextUserId)
    }

    /** A database holding the given catalogue and no users or responses. */
    constructor (questions: seq<int>, options: seq<AppOption>)
      requires DistinctIds(questions)
      ensures Valid()
      ensures this.questions == questions && this.options == options
      ensures users == [] && responses == [] && nextUserId == 1
    {
      this.questions, this.options := questions, options;
      users, responses, nextUserId := [], [], 1;
    }

    /**
     * The insert loop: one row per entry owned by `owner`, converting the question id and
     * then the option id, each row checked against the `REFERENCES` constraints. The
     * error of the first entry that fails, if any.
     */
    method InsertRows(entries: seq<Entry>, owner: Option<int>) returns (error: Option<SubmitError>, rows: seq<AppResponse>)
      ensures error == FirstEntryError(questions, OptionIdsOf(options), entries)
      ensures error.None? ==> rows == AppRows(questions, OptionIdsOf(options), owner, entries)
    {
      var optionIds := OptionIdsOf(options);
      rows := [];
      var i := 0;
      while i < |entries|
        invariant 0 <= i <= |entries|
        invariant FirstEntryError(questions, optionIds, entries[..i]).None?
        invariant rows == AppRows(questions, optionIds, owner, entries[..i])
      {
        assert entries[..i + 1][..i] == entries[..i];
        if entries[i].questionKey.None? {
          FirstEntryErrorPrefix(questions, optionIds, entries, i + 1);
          return Some(BadQuestionId), rows;
        }
        if entries[i].optionKey.None? {
          FirstEntryErrorPrefix(questions, optionIds, entries, i + 1);
          return Some(BadOptionId), rows;
        }
        var questionId, optionId := entries[i].questionKey.value, entries[i].optionKey.value;
        if questionId !in questions || optionId !in optionIds {
          FirstEntryErrorPrefix(questions, optionIds, entries, i + 1);
          return Some(UnknownReference), rows;
        }
        rows := rows + [AppResponse(owner, questionId, optionId)];
        i := i + 1;
      }
      assert entries[..i] == entries;
      error := None;
    }

    /**
     * `POST /api/submit-survey`: inserts the user unless anonymous, then one response per
     * entry, and commits; any failure rolls back, so a rejected submission leaves the
     * tables as they were, although a user id already drawn from the sequence stays used.
     */
    method SubmitSurvey(sub: Submission, now: Timestamp) returns (reply: AppReply)
      requires Valid()
      modifies this
      ensures Valid()
      ensures questions == old(questions) && options == old(options)
      ensures nextUserId == if !sub.isAnonymous && sub.profile.Some? then old(nextUserId) + 1 else old(nextUserId)
      ensures reply == Saved <==> AppAccepted(questions, OptionIdsOf(options), sub)
      ensures !AppAccepted(questions, OptionIdsOf(options), sub) ==>
        reply == Rejected(AppFirstError(questions, OptionIdsOf(options), sub))
        && users == old(users) && responses == old(responses)
      ensures AppAccepted(questions, OptionIdsOf(options), sub) ==>
        && users == old(users) + AppNewUsers(sub, old(nextUserId), now)
        && responses == old(responses)
             + AppRows(questions, OptionIdsOf(options), if sub.isAnonymous then None else Some(old(nextUserId)), sub.responses.value)
    {
      var userId: Option<int> := None;
      var drawn := nextUserId;
      var stagedUsers := users;
      if !sub.isAnonymous {
        if sub.profile.None? {
          return Rejected(UserFieldMissing);
        }
        nextUserId := nextUserId + 1;
        userId := Some(drawn);
        stagedUsers := users + [AppUser(drawn, sub.profile.value, now)];
      }
      if sub.responses.None? {
        return Rejected(ResponsesMissing);
      }
      var error, added := InsertRows(sub.responses.value, userId);
      if error.Some? {
        return Rejected(error.value);
      }
      AppCommitKeepsConsistent(questions, OptionIdsOf(options), users, responses, drawn, sub, now);
      users, responses := stagedUsers, responses + added;
      reply := Saved;
    }
  }

  // ---------------------------------------------------------------------------
  // GET /dashboard
  // ---------------------------------------------------------------------------

  /** `COUNT(DISTINCT user_id) ... WHERE user_id IS NOT NULL`: the users with a stored response. */
  function NamedUserIds(rs: seq<AppResponse>): set<int>
  {
    set k | 0 <= k < |rs| && rs[k].userId.Some? :: rs[k].userId.value
  }

  /** `COUNT(*) ... WHERE user_id IS NULL`: anonymous response rows, not anonymous submissions. */
  function AnonymousRows(rs: seq<AppResponse>): (n: nat)
    ensures n <= |rs|
  {
    if rs == [] then 0
    else AnonymousRows(rs[..|rs| - 1]) + (if rs[|rs| - 1].userId.None? then 1 else 0)
  }

  /** `total_surveys`. */
  function AppTotalSurveys(rs: seq<AppResponse>): nat
  {
    |NamedUserIds(rs)| + AnonymousRows(rs)
  }

  /** `anonymous_percentage`: the anonymous rows' share of `total_surveys`, 0 when there is nothing to count. */
  function AnonymousPercentage(rs: seq<AppResponse>): (p: real)
    ensures AppTotalSurveys(rs) == 0 ==> p == 0.0
    ensures 0.0 <= p <= 100.0
    ensures 0 < AppTotalSurveys(rs) ==> p * (AppTotalSurveys(rs) as real) == (AnonymousRows(rs) as real) * 100.0
  {
    Percent(AnonymousRows(rs), AppTotalSurveys(rs))
  }

  /** The dashboard shows 100% anonymous exactly when something was counted and no stored response names a user. */
  lemma FullyAnonymous(rs: seq<AppResponse>)
    ensures AnonymousPercentage(rs) == 100.0 <==> 0 < AppTotalSurveys(rs) && NamedUserIds(rs) == {}
  {
    if 0 < AppTotalSurveys(rs) {
      var a, t := AnonymousRows(rs) as real, AppTotalSurveys(rs) as real;
      var p := AnonymousPercentage(rs);
      if p == 100.0 {
        assert 100.0 * t == a * 100.0;
      }
      if NamedUserIds(rs) == {} {
        assert a == t;
        WholeShare(t);
      }
    }
  }

  lemma {:induction false} AnonymousRowsAppend(a: seq<AppResponse>, b: seq<AppResponse>)
    ensures AnonymousRows(a + b) == AnonymousRows(a) + AnonymousRows(b)
  {
    if b == [] {
      assert a + b == a;
    } else {
      AnonymousRowsAppend(a, b[..|b| - 1]);
      assert (a + b)[..|a + b| - 1] == a + b[..|b| - 1];
    }
  }

  lemma NamedUserIdsAppend(a: seq<AppResponse>, b: seq<AppResponse>)
    ensures NamedUserIds(a + b) == NamedUserIds(a) + NamedUserIds(b)
  {
    var all := a + b;
    forall x | x in NamedUserIds(all)
      ensures x in NamedUserIds(a) + NamedUserIds(b)
    {
      var k :| 0 <= k < |all| && all[k].userId.Some? && all[k].userId.value == x;
      if k < |a| {
        assert all[k] == a[k];
      } else {
        assert all[k] == b[k - |a|];
      }
    }
    forall x | x in NamedUserIds(a) + NamedUserIds(b)
      ensures x in NamedUserIds(all)
    {
      if x in NamedUserIds(a) {
        var k :| 0 <= k < |a| && a[k].userId.Some? && a[k].userId.value == x;
        assert all[k] == a[k];
      } else {
        var k :| 0 <= k < |b| && b[k].userId.Some? && b[k].userId.value == x;
        assert all[|a| + k] == b[k];
      }
    }
  }

  /**
   * What an accepted submission of n answers does to `total_surveys`: anonymous, it adds
   * n (one per row); named, it adds one when n is at least one and nothing otherwise.
   */
  lemma AppSubmissionSurveyCount(questions: seq<int>, optionIds: seq<int>, users: seq<AppUser>, responses: seq<AppResponse>,
                                 nextId: int, sub: Submission)
    requires AppConsistent(questions, optionIds, users, responses, nextId)
    requires AppAccepted(questions, optionIds, sub)
    ensures var n := |sub.responses.value|;
      AppTotalSurveys(responses + AppRows(questions, optionIds, if sub.isAnonymous then None else Some(nextId), sub.responses.value))
      == AppTotalSurveys(responses) + (if sub.isAnonymous then n else if n > 0 then 1 else 0)
  {
    var entries := sub.responses.value;
    var owner := if sub.isAnonymous then None else Some(nextId);
    var rows := AppRows(questions, optionIds, owner, entries);
    AnonymousRowsAppend(responses, rows);
    NamedUserIdsAppend(responses, rows);
    if sub.isAnonymous {
      AllAnonymous(rows);
      assert NamedUserIds(rows) == {};
    } else {
      NoneAnonymous(rows);
      if |rows| > 0 {
        assert rows[0].userId == Some(nextId);
      }
      assert NamedUserIds(rows) == if |rows| > 0 then {nextId} else {};
      assert nextId !in NamedUserIds(responses);
    }
  }

  lemma {:induction false} AllAnonymous(rows: seq<AppResponse>)
    requires forall k :: 0 <= k < |rows| ==> rows[k].userId.None?
    ensures AnonymousRows(rows) == |rows|
  {
    if rows != [] {
      AllAnonymous(rows[..|rows| - 1]);
    }
  }

  lemma {:induction false} NoneAnonymous(rows: seq<AppResponse>)
    requires forall k :: 0 <= k < |rows| ==> rows[k].userId.Some?
    ensures AnonymousRows(rows) == 0
  {
    if rows != [] {
      NoneAnonymous(rows[..|rows| - 1]);
    }
  }

  /** The `sexo` column of `users`. */
  function AppSexes(users: seq<AppUser>): (keys: seq<string>)
    ensures |keys| == |users|
    ensures forall i :: 0 <= i < |users| ==> keys[i] == users[i].profile.sexo
  {
    seq(|users|, i requires 0 <= i < |users| => users[i].profile.sexo)
  }

  /** The `options` columns the per-question query joins on; the option id stands in for its text. */
  function AppJoinOptions(options: seq<AppOption>): (rows: seq<JoinOption<int>>)
    ensures |rows| == |options|
    ensures forall j :: 0 <= j < |options| ==> rows[j] == JoinOption(options[j].id, options[j].questionId, options[j].id)
  {
    seq(|options|, j requires 0 <= j < |options| => JoinOption(options[j].id, options[j].questionId, options[j].id))
  }

  /** The `respuesta` column of `responses`. */
  function AppAnswers(rs: seq<AppResponse>): (answers: seq<int>)
    ensures |answers| == |rs|
    ensures forall k :: 0 <= k < |rs| ==> answers[k] == rs[k].respuesta
  {
    seq(|rs|, k requires 0 <= k < |rs| => rs[k].respuesta)
  }

  /** What `dashboard.html` is rendered with; `questionOrder` is the key order of `questions_data`. */
  datatype AppDashboardView = AppDashboardView(
    totalSurveys: nat,
    genderStats: seq<(string, nat)>,
    anonymousPercentage: real,
    questionOrder: seq<int>,
    questionsData: map<int, QuestionData<int>>)

  /**
   * `GET /dashboard` over the four tables: the survey total, the users per gender (no
   * percentages in this revision), the share of anonymous rows, and under every question
   * (in table order) one entry per option it owns, counting the responses that chose it.
   */
  method AppDashboard(questions: seq<int>, options: seq<AppOption>, users: seq<AppUser>, responses: seq<AppResponse>)
    returns (view: AppDashboardView)
    ensures view.totalSurveys == AppTotalSurveys(responses)
    ensures view.anonymousPercentage == AnonymousPercentage(responses)
    ensures view.genderStats == GroupCounts(AppSexes(users))
    ensures SumCounts(Counts(view.genderStats)) == |users|
    ensures forall q :: q in view.questionsData <==> q in view.questionOrder
    ensures DistinctIds(questions) ==> view.questionOrder == questions
    ensures DistinctIds(questions) ==> forall q :: q in view.questionsData ==>
      view.questionsData[q] == Tally(QuestionBlock(q, AppJoinOptions(options), AppAnswers(responses)))
  {
    var totalNamed := |NamedUserIds(responses)|;
    var totalAnonymous := AnonymousRows(responses);
    var totalSurveys := totalNamed + totalAnonymous;
    var genderStats := GroupCounts(AppSexes(users));
    GroupCountsSum(AppSexes(users));
    var anonymousPercentage := if totalSurveys > 0 then (totalAnonymous as real) / (totalSurveys as real) * 100.0 else 0.0;
    var order, data := BuildQuestionsData(JoinRows(questions, AppJoinOptions(options), AppAnswers(responses)));
    if DistinctIds(questions) {
      forall q | q in data
        ensures data[q] == Tally(QuestionBlock(q, AppJoinOptions(options), AppAnswers(responses)))
      {
        BreakdownMeaning(questions, AppJoinOptions(options), AppAnswers(responses), order, data, q);
      }
      BreakdownMeaning(questions, AppJoinOptions(options), AppAnswers(responses), order, data, 0);
    }
    view := AppDashboardView(totalSurveys, genderStats, anonymousPercentage, order, data);
  }
}
