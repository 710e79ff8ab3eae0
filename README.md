# Football prediction league: prediction lifecycle

A model of the part of the football-prediction league that carries real rules.
Administrators create seasons and match weeks with their fixtures. They also activate one
match week at a time. Users submit score predictions while a match week's
prediction window is open, and the leaderboard ranks users by the points
stored on their predictions.

Modules:

- `Models` (`models.dfy`): the records (User, Season, MatchWeek, Fixture,
  Prediction). It also holds `MatchWeek.is_predictions_open` with the clock as a
  parameter, and one three-way outcome rule (`ScoreOutcome`) that both
  `Fixture.result` and `Prediction.predicted_result` use.
- `Ledger` (`ledger.dfy`): the prediction table. It has the `unique_user_fixture`
  constraint, the lookup by (user, fixture), and the upsert done by
  `submit_prediction`, with lemmas that the upsert keeps the constraint, leaves
  exactly one row for the pair and changes no other row.
- `Fixtures` (`fixtures.dfy`): the fixture table, the `MatchWeek.fixtures`
  relationship, and the fixtures that `create_match_week` builds from the
  form entries.
- `Activation` (`activation.dfy`): what activating a match week leaves
  behind, and the invariant that at most one match week is active.
- `Leaderboard` (`leaderboard.dfy`): the grouped sum of `points_earned` per
  user, ordered by descending total.
- `Routes` (`routes.dfy`): the class `Store` holds the tables as fields. It has
  one method per route. Its `Valid()` invariant gathers the keys, the foreign
  keys from fixtures to match weeks and from predictions to users, the
  `unique_user_fixture` constraint, the uniqueness of a season's (start, end)
  years that `create_season`'s check-then-insert keeps, and the single-active rule.
  The `unique=True` columns of User (`email`, `google_id`) are not part of it,
  since no modelled route adds users.

Timestamps are integers, and the clock is the `now` parameter. The signed-in
user is the `currentUser` parameter, which must be in the user table. The admin
check is `users[currentUser].isAdmin`, and failing it is an `AccessDenied` reply.
HTTP replies are `Success` or `Failure(error)`. An early error reply leaves
every table unchanged, as the source's uncommitted session is rolled back.

The code does not do the following, and neither does the model:

- Limit submitted scores: any integer is accepted. The 0..20 range exists only on an
  unused form class.
- Check a season's or a window's order (`start < end`, `open < close`).
- Fix an order among equal totals on the leaderboard.
- Score predictions: nothing assigns `points_earned` after its default of 0.

## Model

| member | source | states |
|---|---|---|
| `Models.IsPredictionsOpen` | app/models.py:54-57 | `is_predictions_open` with the clock as `now`: open time <= now <= close time; its contract: an open window never closes before it opens |
| `Models.WindowIsClosedInterval` | app/models.py:54-57 | both ends of the window are open whenever open time <= close time; no time before the open time or after the close time is open; between two open times every time is open |
| `Models.InstantWindow` | app/models.py:57 | when open time equals close time, the window is open at that instant and at no other |
| `Models.InvertedWindow` | app/models.py:57 | when the open time is after the close time, the window is never open |
| `Models.ScoreOutcome` | app/models.py:77-82 | Home iff home > away, Away iff away > home, Draw iff the scores are equal |
| `Models.OutcomeMirror` | app/models.py:77-82 | swapping the two scores swaps Home and Away and keeps Draw |
| `Models.FixtureResult` | app/models.py:66-82 | None exactly when the fixture is not completed, whatever its scores; a TypeError exactly when it is completed with a missing score; otherwise the outcome of its final scores |
| `Models.CompletedResult` | app/models.py:77-82 | a completed fixture's result is H, A or D exactly by the score comparison |
| `Models.PredictedResult` | app/models.py:97-104 | `predicted_result`: the three-way outcome of the predicted score pair; no contract of its own, its properties are `Models.PredictedResultRule` |
| `Models.PredictedResultRule` | app/models.py:97-104 | the predicted result uses the same three-way comparison, for any two integers |
| `Models.ExactPredictionHasResult` | app/models.py:73-104 | a prediction whose scores equal a completed fixture's scores predicts that fixture's result |
| `Ledger.FindPrediction` | app/routes.py:252 | the first row for (user, fixture), or None exactly when no row has that pair |
| `Ledger.Upsert` | app/routes.py:252-264 | the prediction table after a submission: the found row with new scores and update time, or one appended row; its contract: the pair then has a row. `Ledger.UpsertExactlyOne`, `Ledger.UpsertExisting` and `Ledger.UpsertNew` state the rest |
| `Ledger.UniqueCountAtMostOne` | app/models.py:94 | under the unique constraint a (user, fixture) pair has at most one row |
| `Ledger.UpsertExactlyOne` | app/routes.py:252-264 | after a submission the pair has exactly one row, and the rows of other users or fixtures are the same rows in the same order |
| `Ledger.UpsertKeepsUnique` | app/models.py:94 | a submission keeps the unique constraint |
| `Ledger.UpsertExisting` | app/routes.py:253-256 | a resubmission changes only the row's two scores and update time; id, user, fixture, points and creation time stay, and no other row changes |
| `Ledger.UpsertNew` | app/routes.py:257-264 | a first submission appends one row with the given scores, 0 points, and the submission time as creation and update time |
| `Fixtures.FindFixture` | app/routes.py:247 | the row with the given id, or None exactly when no row has it |
| `Fixtures.FixturesOf` | app/routes.py:234 | the match week's fixtures are exactly the rows linked to it |
| `Fixtures.CompleteEntries` | app/routes.py:146-147 | the kept entries are exactly the entries with both teams set |
| `Fixtures.NewFixtures` | app/routes.py:146-154 | the fixtures built for the new match week: one per complete entry, numbered on from the next free id, unscored and not completed; no contract of its own, its properties are `Fixtures.NewFixturesSnoc` and `Fixtures.HasCompleteEntryIffFixtures` |
| `Fixtures.NewFixturesSnoc` | app/routes.py:146-154 | each further form entry adds one fixture with the next id exactly when both of its teams are set |
| `Fixtures.HasCompleteEntryIffFixtures` | app/routes.py:147 | some fixture is built exactly when some entry has both teams set |
| `Fixtures.ValidatedFormHasCompleteEntry` | app/routes.py:146-154 | every form that passes validation has a complete entry and should give one fixture per entry |
| `Activation.Activated` | app/routes.py:217-219 | the match weeks after the bulk clear and the target set: each flag is true exactly for the target; its contract: the same match weeks stay. `Activation.ExactlyOneActive` and `Activation.ActivationTouchesOnlyFlag` state the rest |
| `Activation.ExactlyOneActive` | app/routes.py:217-219 | after activating an existing match week, it is the only active one |
| `Activation.ActivationTouchesOnlyFlag` | app/routes.py:217-219 | activation changes `is_active` and no other field of any match week |
| `Activation.ActivationIdempotent` | app/routes.py:217-219 | activating the same match week twice gives the same state as activating it once |
| `Activation.ActivationKeepsAtMostOne` | app/routes.py:217-219 | activation never leaves two match weeks active |
| `Activation.AddInactiveKeepsAtMostOne` | app/models.py:47 | adding a match week with the default `is_active = False` keeps at most one active |
| `Leaderboard.Total` | app/routes.py:272-275 | `func.sum(points_earned)` for one user over all of their predictions; its contract: a user with no prediction sums to 0 |
| `Leaderboard.Groups` | app/routes.py:272-275 | the grouping keys are the users with at least one prediction, each once |
| `Leaderboard.RowsFor` | app/routes.py:272-275 | each joined user gets a row with the user's name and summed points, and every row is such a user's |
| `Leaderboard.RowsForUnique` | app/routes.py:272-275 | grouping keys without repeats give at most one row per user |
| `Leaderboard.InsertSorted` | app/routes.py:275 | placing a row into rows in descending total keeps them in descending total |
| `Leaderboard.InsertUnique` | app/routes.py:272-275 | placing the row of a user not yet listed keeps one row per user |
| `Leaderboard.SortByTotal` | app/routes.py:275 | the ordering is a permutation of the rows, by non-increasing total |
| `Leaderboard.Ranking` | app/routes.py:272-276 | the leaderboard query: grouped rows, ordered by descending total; no contract of its own, its properties are `Leaderboard.RankingCorrect` and `Leaderboard.RankingOrder` |
| `Leaderboard.RankingCorrect` | app/routes.py:272-275 | rows exist only for users with a prediction, and every such user has exactly one row; each total is the sum of the user's `points_earned` with no completion filter; totals do not increase down the table |
| `Leaderboard.RankingOrder` | app/routes.py:275 | a user with a larger total is listed before a user with a smaller one |
| `Leaderboard.UpsertKeepsTotals` | app/routes.py:252-264 | submitting a prediction changes no user's total |
| `Routes.Store.CreateSeason` | app/routes.py:179-204 | a non-admin is refused. An existing (start, end) pair adds nothing. Otherwise exactly one season is appended with the next season id, and only the season id counter advances. Seasons stay unique by their years |
| `Routes.Store.CreateMatchWeek` | app/routes.py:136-156 | a new inactive match week, plus one fixture per entry with both teams set, in entry order, linked to it. The match-week id counter advances by one and the fixture id counter by the number of fixtures; nothing else changes. A refused request changes nothing |
| `Routes.Store.CreateMatchWeekAsWritten` | app/routes.py:146-156 | as written: a complete entry makes the request fail with nothing stored and no id used; with none, only the match week is stored and only the match-week id counter advances |
| `Routes.Store.ActivateMatchWeek` | app/routes.py:211-220 | a non-admin or an unknown id leaves every flag unchanged. Otherwise the target is the only active match week and no other field changes. No id counter changes on any path |
| `Routes.Store.ActivateMatchWeekAsWritten` | app/routes.py:217-222 | as written: the activation is stored but the reply is always an error; no id counter changes |
| `Routes.Store.PredictMatchWeek` | app/routes.py:227-240 | unknown week: not found. Closed window: refused, and no map is built. Otherwise the map holds exactly the week's fixtures that have a prediction from the user, each mapped to that user's prediction for it |
| `Routes.Store.WindowOpenFor` | app/routes.py:247-248 | the fixture's match week has an open window; its contract: the fixture exists |
| `Routes.Store.SubmitPrediction` | app/routes.py:244-266 | unknown fixture: not found. Closed window of the fixture's match week: refused, nothing changes. Otherwise the upsert is applied to the prediction table, and no other table changes. The prediction id counter advances by one exactly when a new row is inserted, and no other counter changes |
| `Routes.Store.LeaderboardRows` | app/routes.py:269-276 | the leaderboard rows: sorted, one per user with a prediction, carrying the user's name and summed points |

## Findings

| source | as written | input that shows it | evidently intended | confidence | as-written member | corrected member |
|---|---|---|---|---|---|---|
| app/routes.py:148-153 | `Fixture(...)` is passed `season_id`, which Fixture does not declare (app/models.py:60-70); the ORM's keyword constructor raises on it, so the first complete entry fails the request and the session is rolled back | any form that passes validation, e.g. one entry Arsenal v Chelsea (see `Fixtures.ValidatedFormHasCompleteEntry`) | one fixture per complete entry, linked to the new match week | high; not executed | `Routes.Store.CreateMatchWeekAsWritten` | `Routes.Store.CreateMatchWeek` |
| app/routes.py:221 | the success message reads `match_week.week_number`, which MatchWeek does not have (app/models.py:40-57); it raises after the commit at line 220 | activating any existing match week | the activation is stored and reported as a success | high; not executed | `Routes.Store.ActivateMatchWeekAsWritten` | `Routes.Store.ActivateMatchWeek` |

## Left out

- Scoring: nothing in the code assigns `points_earned` after its default of 0. The field is an opaque integer that the leaderboard sums, and no point values are modelled.
- Sign-in, OAuth and logout (app/routes.py:38-94): authentication plumbing. The user table is a constructor parameter.
- Rendering, `flash`, `redirect` and `jsonify`: modelled only as a success or error reply.
- The mock fixture fetch and `import_fixtures` (app/routes.py:17-30, 162-172): a stub data source that stores nothing.
- Form parsing and validation (app/forms.py, `validate_on_submit`, `int(request.form[...])`): the methods take parsed values. An unset team is the empty string. The GET requests that render forms are not modelled.
- Transactions, concurrency and the database: the model is sequential. Each method is all-or-nothing, and uniqueness is a class invariant.
- Debug printing (app/routes.py:126-134), `index` and `admin_dashboard`: output and listing queries with no rules.
- `create_season`'s handler for a failing commit (app/routes.py:205-207): a database failure, which the sequential model does not have.
- The Week table and `match_datetime`: only referenced by id, or never set by the core.
- `Routes.Store.Valid` does not state the foreign key from a prediction to its fixture. Nothing in the core depends on it.
- `Leaderboard.SortByTotal` fixes one order among equal totals (insertion order), where the query fixes none. Every stated property holds for any such order.
