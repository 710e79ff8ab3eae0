/** The records of the prediction league and their computed properties:
    the prediction window of a match week and the three-way outcome of a
    score pair, shared by fixtures and predictions. */
module Models {

  /** A point in time; the source's naive UTC datetimes, as an integer count. */
  type Timestamp = int

  datatype Option<T> = None | Some(value: T)

  /** The outcome of a match, written 'H', 'A' and 'D' by the source. */
  datatype Outcome = Home | Away | Draw

  datatype User = User(id: nat, email: string, name: string, googleId: string, isAdmin: bool)

  datatype Season = Season(id: nat, startYear: int, endYear: int)

  datatype MatchWeek = MatchWeek(
    id: nat,
    seasonId: nat,
    weekId: nat,
    opensAt: Timestamp,
    closesAt: Timestamp,
    isActive: bool,
    createdAt: Timestamp)

  /** Scores are nullable columns: absent until a result is entered. */
  datatype Fixture = Fixture(
    id: nat,
    matchWeekId: nat,
    homeTeam: string,
    awayTeam: string,
    kickoff: Option<Timestamp>,
    homeScore: Option<int>,
    awayScore: Option<int>,
    isCompleted: bool,
    createdAt: Timestamp)

  datatype Prediction = Prediction(
    id: nat,
    userId: nat,
    fixtureId: nat,
    homeScore: int,
    awayScore: int,
    pointsEarned: int,
    createdAt: Timestamp,
    updatedAt: Timestamp)

  /** `MatchWeek.is_predictions_open`, with the clock passed in. */
  predicate IsPredictionsOpen(mw: MatchWeek, now: Timestamp)
    ensures IsPredictionsOpen(mw, now) ==> mw.opensAt <= mw.closesAt
  {
    mw.opensAt <= now <= mw.closesAt
  }

  /** The window is the closed interval from the open time to the close time:
      both ends are inside it, nothing outside them is, and it has no gaps. */
  lemma WindowIsClosedInterval(mw: MatchWeek, a: Timestamp, t: Timestamp, b: Timestamp)
    ensures IsPredictionsOpen(mw, mw.opensAt) <==> mw.opensAt <= mw.closesAt
    ensures IsPredictionsOpen(mw, mw.closesAt) <==> mw.opensAt <= mw.closesAt
    ensures t < mw.opensAt || mw.closesAt < t ==> !IsPredictionsOpen(mw, t)
    ensures IsPredictionsOpen(mw, a) && IsPredictionsOpen(mw, b) && a <= t <= b ==> IsPredictionsOpen(mw, t)
  {
  }

  /** A window whose open and close times coincide is open at that instant only. */
  lemma InstantWindow(mw: MatchWeek, now: Timestamp)
    requires mw.opensAt == mw.closesAt
    ensures IsPredictionsOpen(mw, now) <==> now == mw.opensAt
  {
  }

  /** A window that closes before it opens is never open. */
  lemma InvertedWindow(mw: MatchWeek, now: Timestamp)
    requires mw.closesAt < mw.opensAt
    ensures !IsPredictionsOpen(mw, now)
  {
  }

  /** The three-way rule of `Fixture.result` and `Prediction.predicted_result`,
      stated once over a score pair. */
  function ScoreOutcome(home: int, away: int): (o: Outcome)
    ensures o == Home <==> home > away
    ensures o == Away <==> away > home
    ensures o == Draw <==> home == away
  {
    if home > away then Home
    else if away > home then Away
    else Draw
  }

  function Mirror(o: Outcome): (m: Outcome) {
    match o
    case Home => Away
    case Away => Home
    case Draw => Draw
  }

  /** Swapping the two scores swaps a home win and an away win. */
  lemma OutcomeMirror(home: int, away: int)
    ensures ScoreOutcome(away, home) == Mirror(ScoreOutcome(home, away))
  {
  }

  /** Evaluating a computed property: its value, or the TypeError that
      comparing a missing score with `>` raises. */
  datatype Evaluation<T> = Value(value: T) | TypeError

  /** Both scores of a completed fixture are present. */
  predicate ScoresRecorded(f: Fixture) {
    f.isCompleted ==> f.homeScore.Some? && f.awayScore.Some?
  }

  /** `Fixture.result`: None before completion, then the outcome of the final
      scores; a completed fixture with a missing score raises. */
  function FixtureResult(f: Fixture): (r: Evaluation<Option<Outcome>>)
    ensures r.TypeError? <==> !ScoresRecorded(f)
    ensures r == Value(None) <==> !f.isCompleted
    ensures r.Value? && r.value.Some? ==>
      f.isCompleted && r.value.value == ScoreOutcome(f.homeScore.value, f.awayScore.value)
  {
    if !f.isCompleted then Value(None)
    else if f.homeScore.None? || f.awayScore.None? then TypeError
    else Value(Some(ScoreOutcome(f.homeScore.value, f.awayScore.value)))
  }

  /** `Prediction.predicted_result`: total over any two integers. */
  function PredictedResult(p: Prediction): (o: Outcome) {
    ScoreOutcome(p.homeScore, p.awayScore)
  }

  /** A predicted score pair is graded by the same comparison as a final score. */
  lemma PredictedResultRule(p: Prediction)
    ensures PredictedResult(p) == Home <==> p.homeScore > p.awayScore
    ensures PredictedResult(p) == Away <==> p.awayScore > p.homeScore
    ensures PredictedResult(p) == Draw <==> p.homeScore == p.awayScore
  {
  }

  /** A completed fixture's result is one of H, A and D, by the score comparison. */
  lemma CompletedResult(f: Fixture)
    requires f.isCompleted && f.homeScore.Some? && f.awayScore.Some?
    ensures FixtureResult(f) == Value(Some(Home)) <==> f.homeScore.value > f.awayScore.value
    ensures FixtureResult(f) == Value(Some(Away)) <==> f.awayScore.value > f.homeScore.value
    ensures FixtureResult(f) == Value(Some(Draw)) <==> f.homeScore.value == f.awayScore.value
  {
  }

  /** A prediction of the exact final score predicts the fixture's result. */
  lemma ExactPredictionHasResult(p: Prediction, f: Fixture)
    requires f.isCompleted && f.homeScore == Some(p.homeScore) && f.awayScore == Some(p.awayScore)
    ensures FixtureResult(f) == Value(Some(PredictedResult(p)))
  {
  }
}
