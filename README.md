# Survey scoring and dashboard, modelled in Dafny

This project models the score-and-tally logic of a small Flask survey application. The survey is a domestic-violence screening questionnaire. It has six questions with four options each, and every option is worth 0 to 3 points.

Two revisions of the application are modelled.

**`run_local.py`** is the scored revision, on SQLite.
- `POST /api/submit-survey` runs as one transaction:
  - it looks every submitted option id up and adds up its points (`puntaje_total`);
  - it classifies the total as `Leve`, `Moderado` or `Grave`;
  - it inserts a `users` row unless the submission is anonymous;
  - it inserts one `responses` row per answer, carrying the option's points;
  - it commits, or on any exception rolls back and answers status 500.
- `GET /dashboard` computes:
  - the number of completed surveys;
  - the users per gender and per stored class, with their shares;
  - the share of anonymous surveys;
  - a per-question, per-option breakdown of the answers with percentages.
- `init_db` seeds the fixed catalogue when the `questions` table is empty.

**`app.py`** is the earlier, unscored revision, on its PostgreSQL path.
- Its submit path stores only which option was chosen.
- Its `REFERENCES` constraints are enforced.
- Its user ids come from a `SERIAL` sequence.
- Its dashboard counts surveys by a different rule.

## Files

| file | module | models |
|---|---|---|
| `common.dfy` | `Common` | `Option` (SQL NULL, a missing JSON key, a failed `int(...)`) and `Timestamp` |
| `request.dfy` | `Request` | the JSON body of a submission, and the reasons a submission fails |
| `stats.dfy` | `Stats` | the zero-guarded percentage, `GROUP BY key` with `COUNT(*)`, and the percentage loop over groups |
| `catalogue.dfy` | `Catalogue` | the seeded `options` table, and the lookup of an option by id |
| `scoring.dfy` | `Scoring` | `puntaje_total`, the stored class, and the dashboard's `CASE` buckets |
| `breakdown.dfy` | `Breakdown` | the per-question query and its two loops, shared by both revisions |
| `local_app.dfy` | `LocalApp` | the `run_local.py` database as the class `SurveyStore`, its submit transaction and its dashboard |
| `railway_app.dfy` | `RailwayApp` | the `app.py` database as the class `AppStore`, its submit transaction and its dashboard |

## How the model is built

- **Stores are classes.** `SurveyStore` and `AppStore` hold the tables as `seq` fields.
  - A submission stages its rows in locals.
  - It assigns the fields only at the commit.
  - An early `return` is the rollback, so a rejected submission provably leaves every table unchanged.
- **Loops are methods.** The loops of the submit handler and the dashboard are `method`s with `while` loops, proved against specification functions. The `init_db` seeding loops are modelled by the table they produce (`Catalogue.SeededOptions`). The modelled loops are:
  - scoring and inserting in the submit handlers;
  - the grouping and percentage loops of the dashboards.
- **The dashboard dictionary.** `questions_data` is a `map` together with its insertion order `questionOrder`, since a Python dict iterates in insertion order.
- **Python conversion.** Each id is what Python's `int(...)` makes of it, as an `Option<int>`. `None` stands for the exception `int(...)` raises. On the SQLite path an id must also bind as a parameter: `sqlite3` raises `OverflowError` for an integer outside the signed 64-bit range, and the model rejects such an id at the same step (`Request.Binds`).
- **Timestamps.** A submission gets two: `now` is `datetime.now()`, used for the user row, and `stamp` is the database's `CURRENT_TIMESTAMP`, used for the response rows. All response rows of one submission share one `stamp`.
- **Percentages are exact reals.** The source's `round(..., 1)` is not modelled.

Behaviour worth noting:
- **Anonymous submissions.** They create no `users` row, and their responses carry a NULL `user_id` (run_local.py:305, 324; app.py:334, 337).
- **Missing fields.** A named submission missing `nombre`, `email`, `edad` or `sexo` raises `KeyError` and is rolled back with status 500. The fields are not defaulted.
- **Option ownership.** An option is looked up by id alone. Nothing checks that it belongs to the question it was sent for, neither when scoring (run_local.py:310) nor when counting answers (run_local.py:248).
- **Anonymous share.** The share counts survey groups (run_local.py) or response rows (app.py), not respondents.

## Model

| member | source | states |
|---|---|---|
| Stats.Percent | run_local.py:205 | The percentage is 0 when the total is 0. Otherwise percentage × total = count × 100. It lies within 0..100 whenever count ≤ total. |
| Stats.PercentsSumToShare | run_local.py:202-210 | The percentages of some counts against a positive total add up to the percentage of their sum. |
| Stats.PercentsSumTo100 | run_local.py:202-210 | When the total is the sum of the counts and positive, the percentages add up to exactly 100. |
| Stats.Occurrences | run_local.py:198 | The count of a key is 0 exactly when the key does not occur, and never exceeds the number of rows. |
| Stats.OccurrencesAppend | run_local.py:186-188 | Counting a key over two runs of rows adds the two counts. |
| Stats.OccurrencesUniform | run_local.py:186-188 | In a run whose rows all have key x, x is counted once per row and every other key 0 times. |
| Stats.Distinct | run_local.py:198 | The group keys are exactly the keys that occur, each once. |
| Stats.DistinctInOrder | run_local.py:256-264 | The distinct keys are listed in the order of their first appearance in the rows: for any two of them, the earlier-listed one appears first. |
| Stats.GroupCountsExact | run_local.py:198 | A key occurs exactly when some group carries it. That group's count is its positive number of occurrences. |
| Stats.GroupCountsSum | run_local.py:202 | The group counts add up to the number of rows, so `total_users` is the number of users. |
| Stats.WithPercentages | run_local.py:202-210 | One row per group with its key, its count, and count / sum of counts × 100. The percentages add up to 100 when anything was counted, and are all 0 otherwise. |
| Catalogue.FindOption | run_local.py:310-311 | The lookup finds a row with exactly the asked id, and finds none exactly when no row has that id. |
| Catalogue.FindOptionFirst | run_local.py:310-311 | When several rows have the asked id, `fetchone()` returns the first of them. |
| Catalogue.FindConsecutive | run_local.py:310-311 | In a table whose ids run consecutively, id k is found at its position, and ids outside the range are not found. |
| Catalogue.SeedShape | run_local.py:93-129 | The seed has 24 options: option i belongs to question i / 4 + 1 and is worth i % 4 points. |
| Catalogue.SeededLookup | run_local.py:93-133 | In the seeded table, ids 1..24 exist. Id k belongs to question (k-1)/4+1 and is worth (k-1)%4 points. No other id exists. |
| Catalogue.SeededPointsInRange | run_local.py:93-129 | Every seeded option is worth 0..3 points. |
| Scoring.Classify | run_local.py:316-321 | A total of at most 5 is `Leve`, 6..11 is `Moderado`, and 12 or more is `Grave`. Each holds in both directions, so every total gets exactly one class. |
| Scoring.ClassifyMonotone | run_local.py:316-321 | A higher total never gets a milder class. |
| Scoring.PointsOf | run_local.py:310-313 | An id with no option row adds 0. Any non-zero contribution is the `puntaje` of a row with that id. |
| Scoring.PointsOfFirstRow | run_local.py:310-313 | An id with an option row adds the `puntaje` of the first row with that id. |
| Scoring.TotalPointsAppend | run_local.py:309-313 | The total of two runs of answers is the sum of their totals. |
| Scoring.SeededHasSeedLayout | run_local.py:93-133 | The seeded table has the seed layout: row i has id i+1, question i/4+1 and points i%4. |
| Scoring.SeedLayoutPoints | run_local.py:310-313 | Under the seed layout, option k (1..24) adds (k-1)%4 points, and any other id adds 0. |
| Scoring.SeedLayoutTotal | run_local.py:309-313 | Under the seed layout, `puntaje_total` depends on the submitted ids alone. |
| Scoring.TotalPointsBounds | run_local.py:309-313 | With options worth 0..3, n answers score between 0 and 3n. |
| Scoring.FirstOptionsScoreZero | run_local.py:309-321 | Choosing option ids 1, 5, 9, 13, 17, 21 scores 0, which is `Leve`. |
| Scoring.MixedAnswersScoreNine | run_local.py:309-321 | Choosing option ids 1, 6, 11, 16, 18, 23 scores 9, which is `Moderado`. |
| Scoring.LabelAgreesWithClassify | run_local.py:218-222 | The dashboard's `CASE` agrees with the stored class exactly on totals 0..18, and labels every other total `Sin clasificar`. |
| Scoring.AtMostSixAnswersAreClassified | run_local.py:218-222 | Against the seeded catalogue, the `CASE` gives a submission of at most six answers its stored class. |
| Scoring.SevenAnswersAreUnclassified | run_local.py:218-222 | Seven answers worth 3 each score 21. That total is stored as `Grave`, but the `CASE` gives it `Sin clasificar`. |
| Breakdown.PendingShape | run_local.py:256-271 | After grouping, a question's entry lists its rows' options and counts in query order. Its `total_responses` is the sum of those counts. |
| Breakdown.TallyMeaning | run_local.py:273-277 | A finished entry keeps each option and count. Its total is their sum. Its percentages add up to 100 when the total is positive, and are all 0 when it is 0. |
| Breakdown.GroupStep | run_local.py:257-271 | One turn of the grouping loop keeps the dictionary equal to the grouping of the rows seen so far, in first-appearance key order. |
| Breakdown.GroupRows | run_local.py:256-271 | The grouping loop's key order is the first-appearance order of the question ids. Every question holds exactly its own rows in query order (also app.py:296-310). |
| Breakdown.SetPercentages | run_local.py:275-277 | Every option gets count / total × 100, or 0 when the total is 0. Option and count are unchanged (also app.py:313-316). |
| Breakdown.FinishEntry | run_local.py:274-277 | Setting the percentages of a grouped entry yields the finished entry of its rows. |
| Breakdown.TallyStep | run_local.py:274-277 | One turn of the percentage loop finishes one question and leaves the others as they were. |
| Breakdown.BuildQuestionsData | run_local.py:256-277 | Both loops together: one entry per question of the query, in first-appearance order, each the finished entry of exactly its own rows (also app.py:296-316). |
| Breakdown.OwnOptions | run_local.py:247 | `LEFT JOIN options ON q.id = o.pregunta_id` keeps exactly the options of question q, in table order. |
| Breakdown.OwnOptionsAppend | run_local.py:247 | Joining a table split in two joins each half. |
| Breakdown.QuestionBlock | run_local.py:242-251 | A question yields at least one row. All its rows carry its id. |
| Breakdown.RowsOfAppend | run_local.py:256-271 | The rows of a question in two runs of the query are its rows in each, in order. |
| Breakdown.JoinRowsQuestions | run_local.py:242-251 | Every query row belongs to one of the questions. |
| Breakdown.JoinRowsOf | run_local.py:242-251 | With distinct question ids, the query rows of question q are exactly its block. A non-question has none. |
| Breakdown.JoinOrder | run_local.py:250-264 | With distinct question ids, `questions_data` iterates over the questions in table order. |
| Breakdown.BlockTally | run_local.py:242-277 | A question's entry lists every option it owns, in table order, including those nobody chose. Each counts the responses naming that option's id. The total is their sum. The percentages add up to 100 when the total is positive. A question with no option gets one empty entry. |
| Breakdown.BreakdownMeaning | run_local.py:242-277 | The dashboard's keys are exactly the questions, in table order. Each holds the finished entry of its own block. |
| LocalApp.FirstError | run_local.py:304-362 | A rejected submission reports the first failing step, each case in both directions: missing `responses`, then an option id that does not convert or bind, then a missing user field, then a question id that does not convert or bind. |
| LocalApp.StoredPointsMatchScore | run_local.py:340-349 | The `puntaje` values of the stored responses add up to `puntaje_total` for the submitting user, and to 0 for anybody else. |
| LocalApp.CommitKeepsConsistent | run_local.py:324-357 | Committing an accepted submission keeps the tables consistent. User ids are row numbers, every `user_id` names a user, and every user's stored class and total match its responses' points. |
| LocalApp.SurveyStore.constructor | run_local.py:28-70 | A new database has all four tables empty. |
| LocalApp.SurveyStore.InitCatalogue | run_local.py:72-133 | An empty catalogue is seeded with the six questions and the 24 numbered options. A non-empty catalogue is left alone. Users and responses are untouched. |
| LocalApp.SurveyStore.ScoreOptions | run_local.py:309-313 | The scoring loop succeeds exactly when every option id converts and binds, and then returns the sum of the looked-up points. |
| LocalApp.SurveyStore.ResponseRows | run_local.py:340-349 | The insert loop succeeds exactly when every question id converts and binds. It then yields one row per entry, in order, with the owner, both ids and the option's points (0 if unknown). |
| LocalApp.SurveyStore.SubmitSurvey | run_local.py:299-362 | Saved exactly when every step succeeds. Then the reply is the score and its class, at most one user row is appended (none when anonymous), and one response row per entry. Otherwise the reply is the first error and no table changes. Consistency is preserved. |
| LocalApp.GroupGrowth | run_local.py:186-189 | Appending rows that share one `(user_id, timestamp)` key grows that group by their number and no other group. |
| LocalApp.NamedSurveysGrow | run_local.py:182-195 | A fresh user's submission joins the named surveys exactly when it holds six answers. |
| LocalApp.AnonymousSurveysKept | run_local.py:182-195 | Named rows leave the anonymous surveys alone. |
| LocalApp.AnonymousSurveysGrow | run_local.py:182-195 | Suppose no stored anonymous response has the submission's timestamp. Then an anonymous submission joins the anonymous surveys exactly when it holds six answers. |
| LocalApp.NamedSurveysKept | run_local.py:182-195 | Anonymous rows leave the named surveys alone. |
| LocalApp.SameSecondAnonymousSurveysVanish | run_local.py:184-189 | Two six-answer anonymous submissions in the same second form one group of 12. The first alone counts as one survey, and with the second both stop counting. |
| LocalApp.SubmissionSurveyCount | run_local.py:182-195 | An accepted submission raises `total_surveys` by one when it holds exactly six answers and leaves it otherwise. For an anonymous one this needs a fresh second. |
| LocalApp.GroupLabel | run_local.py:216-227 | `GROUP BY clasificacion` groups on the stored column. A group's reported label is the `CASE` value of one of its own users. |
| LocalApp.ClassGroupLabel | run_local.py:216-227 | In a consistent database, a stored class's group is labelled with that class or `Sin clasificar`, never another class. It gets its own class when all its users' totals are 0..18. |
| LocalApp.ClassificationStats | run_local.py:216-239 | One row per stored class, in first-appearance order, with its group label, its number of users, and their share of all users. The shares add up to 100 when there is a user. |
| LocalApp.ClassificationsMatchLabels | run_local.py:216-239 | In a consistent database whose totals all lie in 0..18, the list grouped by stored class equals the list grouped by `CASE` label, row for row. |
| LocalApp.StoredClassGroupsMixedTotals | run_local.py:216-227 | Two users stored `Grave`, with totals 12 and 21, make one classification row of count 2. Their `CASE` labels would make two rows. |
| LocalApp.CategoryStats | run_local.py:198-210 | One row per distinct key in first-appearance order, with its count and its share of all rows. The shares add up to 100 when there is any row. |
| LocalApp.Dashboard | run_local.py:179-277 | The dashboard reports the survey count, and the anonymous share of it, which lies in 0..100. The gender list is that of `CategoryStats`, and the class list that of `ClassificationStats`. With distinct question ids, questions are in table order, each with the finished entry of its own options' answer counts. |
| LocalApp.SeededQuestionOptions | run_local.py:93-133 | In the seeded catalogue, question q owns options 4q-3..4q, worth 0..3 points, in that order. |
| LocalApp.SeededBreakdown | run_local.py:242-277 | On the seeded catalogue, every question's entry lists its four options in order, including unchosen ones, each with the number of responses naming its id. |
| RailwayApp.EntryError | app.py:372-375 | An entry's row inserts exactly when both ids convert and the `REFERENCES` constraints find the question and the option. |
| RailwayApp.FirstEntryError | app.py:365-375 | The insert loop fails exactly when some entry fails, with that entry's error. |
| RailwayApp.FirstEntryErrorPrefix | app.py:365-375 | Once a prefix of the entries fails, the whole loop fails with the same error. |
| RailwayApp.AppFirstError | app.py:333-382 | A rejected submission reports the first failing step: a missing user field, then a missing `responses`, then the first entry whose row does not insert. |
| RailwayApp.AppRows | app.py:365-375 | One response row per entry. |
| RailwayApp.AppCommitKeepsConsistent | app.py:351-377 | Committing keeps user ids increasing and below the sequence. Every response satisfies the `REFERENCES` constraints and names an existing user. |
| RailwayApp.AppStore.constructor | app.py:80-115 | A database with the given catalogue, no users, no responses, and the user sequence at 1. |
| RailwayApp.AppStore.InsertRows | app.py:365-375 | The loop reports the first failing entry's error, converting the question id before the option id. Otherwise it yields one row per entry, in order. |
| RailwayApp.AppStore.SubmitSurvey | app.py:328-382 | Saved exactly when every step succeeds. Then the user row (unless anonymous) and one row per entry are appended. Otherwise the first error is reported and the tables are unchanged. The sequence advances whenever a user row was inserted, even on rollback. |
| RailwayApp.AnonymousRows | app.py:233-234 | The anonymous count is a number of rows, at most all of them. |
| RailwayApp.AnonymousPercentage | app.py:257 | The share is 0 when nothing was counted, lies in 0..100, and is anonymous rows / total × 100 otherwise. |
| RailwayApp.FullyAnonymous | app.py:230-257 | The share is 100 exactly when something was counted and no response names a user. |
| RailwayApp.NamedUserIdsAppend | app.py:230-231 | The distinct named users of two runs of rows are the union of each run's. |
| RailwayApp.AppSubmissionSurveyCount | app.py:230-236 | An accepted anonymous submission of n answers adds n surveys. A named one adds 1 when n > 0, and 0 otherwise. |
| RailwayApp.AppDashboard | app.py:222-316 | The dashboard reports the survey total and the anonymous share of it. Gender counts are grouped by `sexo` and add up to the number of users. With distinct question ids, questions are in table order, each with the finished entry of its own options' answer counts. |

## Left out

- Flask routing, templates, `request.json`/`jsonify`, connections and cursors, and `CREATE TABLE`. The tables are in-memory sequences, and the request body is a `Submission` value.
- The `GET /survey` form pages are not modelled. They only read the catalogue.
- The `USE_SQLITE` switch and the SQLite branches of app.py are not modelled; app.py is modelled on its PostgreSQL path.
  - The SQLite dashboard reads `fetchone()` twice (app.py:224-228), and the second read returns `None`.
  - The SQLite form splits `GROUP_CONCAT` output (app.py:180-200).
- app.py's `init_db` seed (three programming questions) is not modelled. `AppStore` takes its catalogue as a constructor argument.
- crear_db_nueva.py, crear_db_railway.py and static/script.js are not part of this model. They are destructive re-seeding scripts and browser code.
- Question and option texts are not modelled. The option id stands in for the text in the per-question breakdown.
- Rounding with `round(..., 1)` is not modelled; percentages are exact reals.
- Console output and logging are not modelled.
- The dashboard's exception fallback (run_local.py:279-285) is not modelled. In-memory queries cannot fail.
- SQL orders are modelled as follows:
  - `ORDER BY q.id, o.id` is modelled as table order. In run_local.py, ids are handed out in insertion order and rows are never deleted. For app.py, the catalogue passed to `RailwayApp.AppStore` is assumed to be in id order.
  - `GROUP BY sexo` and `GROUP BY clasificacion` fix no order; the model takes first appearance.
- `CURRENT_TIMESTAMP` is one value per submission. A submission whose response inserts straddle a second boundary is not modelled.
- A `NOT NULL` violation on a user field is modelled like a missing field. Field types are not modelled (for example a non-integer `edad`).
- `int(...)` is modelled only as succeeding or failing. Which strings Python accepts is not modelled.
- RailwayApp.EntryError: PostgreSQL rejects an id outside its 32-bit `INTEGER` range with its own error. The model reports such an id as `UnknownReference`, or as accepted if the catalogue holds it. Either way a failing insert rolls back with status 500.
- LocalApp.GroupLabel: SQL does not say which row of a group the `CASE` in the select list is evaluated on. The model takes the group's first user, and its contract promises only that the row is one of the group's.
- The id of a `responses` row is not modelled. Only the `COUNT(r.id)` of such rows is used.
- SQLite does not enforce `FOREIGN KEY` by default, so run_local.py is modelled without reference checks. app.py on PostgreSQL enforces them (`UnknownReference`).
- Concurrent requests are not modelled; each call is one transaction on its own.
- LocalApp.SubmissionSurveyCount: for an anonymous submission, it states the effect only when no stored anonymous response has the same second. `LocalApp.SameSecondAnonymousSurveysVanish` covers a collision.
- LocalApp.Dashboard: the per-question facts are stated for distinct question ids only. The primary key of `questions` guarantees them.
- RailwayApp.AppDashboard: the per-question facts are stated for distinct question ids only, for the same reason.
