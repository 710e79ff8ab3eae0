/** The request handlers that change or read the league's tables, over a
    store object that holds the tables. Each handler runs as one transaction:
    an early error return leaves every table as it was. */
module Routes {
  import opened Models
  import opened Ledger
  import opened Fixtures
  import opened Activation
  import opened Leaderboard

  /** The error replies: the admin redirect or 403, a 404, the closed-window
      reply, the "Season exists" warning, and an unhandled exception (500). */
  datatype Error = AccessDenied | NotFound | PredictionsClosed | DuplicateSeason | ServerError

  datatype Result<T> = Success(value: T) | Failure(error: Error)

  predicate HasSeason(seasons: seq<Season>, start: int, end: int) {
    exists i :: 0 <= i < |seasons| && seasons[i].startYear == start && seasons[i].endYear == end
  }

  /** No two seasons share a (start year, end year) pair. */
  ghost predicate UniqueSeasonYears(seasons: seq<Season>) {
    forall i, j :: 0 <= i < j < |seasons| ==>
      seasons[i].startYear != seasons[j].startYear || seasons[i].endYear != seasons[j].endYear
  }

  class Store {
    var users: map<nat, User>
    var seasons: seq<Season>
    var matchWeeks: map<nat, MatchWeek>
    var fixtures: seq<Fixture>
    var predictions: seq<Prediction>
    var nextSeasonId: nat
    var nextMatchWeekId: nat
    var nextFixtureId: nat
    var nextPredictionId: nat

    /** Keys and foreign keys, the `unique_user_fixture` constraint, the season-year
        uniqueness that `create_season` keeps, and at most one active match week. */
    ghost predicate Valid()
      reads this
    {
      && (forall id :: id in users ==> users[id].id == id)
      && (forall i :: 0 <= i < |seasons| ==> seasons[i].id < nextSeasonId)
      && (forall i, j :: 0 <= i < j < |seasons| ==> seasons[i].id != seasons[j].id)
      && UniqueSeasonYears(seasons)
      && (forall id :: id in matchWeeks ==> matchWeeks[id].id == id && id < nextMatchWeekId)
      && AtMostOneActive(matchWeeks)
      && (forall i :: 0 <= i < |fixtures| ==>
            fixtures[i].id < nextFixtureId && fixtures[i].matchWeekId in matchWeeks)
      && (forall i, j :: 0 <= i < j < |fixtures| ==> fixtures[i].id != fixtures[j].id)
      && (forall i :: 0 <= i < |predictions| ==>
            predictions[i].id < nextPredictionId && predictions[i].userId in users)
      && (forall i, j :: 0 <= i < j < |predictions| ==> predictions[i].id != predictions[j].id)
      && UniqueUserFixture(predictions)
    }

    /** An empty league over the users that have signed in. */
    constructor (users: map<nat, User>)
      requires forall id :: id in users ==> users[id].id == id
      ensures Valid()
      ensures this.users == users && seasons == [] && matchWeeks == map[]
      ensures fixtures == [] && predictions == []
      ensures nextSeasonId == 0 && nextMatchWeekId == 0 && nextFixtureId == 0 && nextPredictionId == 0
    {
      this.users := users;
      seasons, matchWeeks, fixtures, predictions := [], map[], [], [];
      nextSeasonId, nextMatchWeekId, nextFixtureId, nextPredictionId := 0, 0, 0, 0;
    }

    /** Whether the prediction window of the fixture's match week is open. */
    predicate WindowOpenFor(fixtureId: nat, now: Timestamp)
      reads this
      requires Valid()
      ensures WindowOpenFor(fixtureId, now) ==> FindFixture(fixtures, fixtureId).Some?
    {
      match FindFixture(fixtures, fixtureId)
      case None => false
      case Some(i) => IsPredictionsOpen(matchWeeks[fixtures[i].matchWeekId], now)
    }

    /** `create_season`: refuses a (start, end) pair that already exists,
        otherwise adds exactly one season. */
    method CreateSeason(currentUser: nat, start: int, end: int) returns (r: Result<nat>)
      requires Valid() && currentUser in users
      modifies this
      ensures Valid()
      ensures users == old(users) && matchWeeks == old(matchWeeks)
      ensures fixtures == old(fixtures) && predictions == old(predictions)
      ensures !users[currentUser].isAdmin ==> r == Failure(AccessDenied) && seasons == old(seasons)
      ensures users[currentUser].isAdmin && HasSeason(old(seasons), start, end) ==>
        r == Failure(DuplicateSeason) && seasons == old(seasons)
      ensures users[currentUser].isAdmin && !HasSeason(old(seasons), start, end) ==>
        r == Success(old(nextSeasonId)) && seasons == old(seasons) + [Season(old(nextSeasonId), start, end)]
      ensures nextSeasonId == old(nextSeasonId) + (if r.Success? then 1 else 0)
      ensures nextMatchWeekId == old(nextMatchWeekId) && nextFixtureId == old(nextFixtureId)
      ensures nextPredictionId == old(nextPredictionId)
    {
      if !users[currentUser].isAdmin {
        return Failure(AccessDenied);
      }
      if HasSeason(seasons, start, end) {
        return Failure(DuplicateSeason);
      }
      var id := nextSeasonId;
      seasons := seasons + [Season(id, start, end)];
      nextSeasonId := nextSeasonId + 1;
      r := Success(id);
    }

    /** `create_match_week` as intended: one new inactive match week, and one
        fixture per complete form entry, in entry order, linked to it. */
    method CreateMatchWeek(currentUser: nat, seasonId: nat, weekId: nat, opensAt: Timestamp,
                           closesAt: Timestamp, entries: seq<FixtureEntry>, now: Timestamp)
      returns (r: Result<nat>)
      requires Valid() && currentUser in users
      modifies this
      ensures Valid()
      ensures users == old(users) && seasons == old(seasons) && predictions == old(predictions)
      ensures !users[currentUser].isAdmin ==>
        r == Failure(AccessDenied) && matchWeeks == old(matchWeeks) && fixtures == old(fixtures)
      ensures users[currentUser].isAdmin ==>
        && r == Success(old(nextMatchWeekId))
        && old(nextMatchWeekId) !in old(matchWeeks)
        && matchWeeks == old(matchWeeks)[old(nextMatchWeekId) :=
             MatchWeek(old(nextMatchWeekId), seasonId, weekId, opensAt, closesAt, false, now)]
        && fixtures == old(fixtures) + NewFixtures(entries, old(nextMatchWeekId), old(nextFixtureId), now)
      ensures !users[currentUser].isAdmin ==>
        nextMatchWeekId == old(nextMatchWeekId) && nextFixtureId == old(nextFixtureId)
      ensures users[currentUser].isAdmin ==>
        && nextMatchWeekId == old(nextMatchWeekId) + 1
        && nextFixtureId == old(nextFixtureId) + |NewFixtures(entries, old(nextMatchWeekId), old(nextFixtureId), now)|
      ensures nextSeasonId == old(nextSeasonId) && nextPredictionId == old(nextPredictionId)
    {
      if !users[currentUser].isAdmin {
        return Failure(AccessDenied);
      }
      var mwId, firstId := nextMatchWeekId, nextFixtureId;
      var mw := MatchWeek(mwId, seasonId, weekId, opensAt, closesAt, false, now);
      var added: seq<Fixture> := [];
      var nextId := firstId;
      for i := 0 to |entries|
        invariant added == NewFixtures(entries[..i], mwId, firstId, now)
        invariant nextId == firstId + |added|
        invariant unchanged(this)
      {
        var e := entries[i];
        NewFixturesSnoc(entries[..i], e, mwId, firstId, now);
        assert entries[..i + 1] == entries[..i] + [e];
        if e.homeTeam != "" && e.awayTeam != "" {
          added := added + [Fixture(nextId, mwId, e.homeTeam, e.awayTeam, None, None, None, false, now)];
          nextId := nextId + 1;
        }
      }
      assert entries[..|entries|] == entries;
      AddInactiveKeepsAtMostOne(matchWeeks, mwId, mw);
      matchWeeks := matchWeeks[mwId := mw];
      nextMatchWeekId := nextMatchWeekId + 1;
      fixtures := fixtures + added;
      nextFixtureId := nextId;
      r := Success(mwId);
    }

    /** `create_match_week` as written: the fixture constructor is passed a
        `season_id` that Fixture does not have, so the first complete entry
        raises, the request fails and the transaction is rolled back. */
    method CreateMatchWeekAsWritten(currentUser: nat, seasonId: nat, weekId: nat, opensAt: Timestamp,
                                    closesAt: Timestamp, entries: seq<FixtureEntry>, now: Timestamp)
      returns (r: Result<nat>)
      requires Valid() && currentUser in users
      modifies this
      ensures Valid()
      ensures users == old(users) && seasons == old(seasons) && predictions == old(predictions)
      ensures fixtures == old(fixtures)
      ensures !users[currentUser].isAdmin ==> r == Failure(AccessDenied) && matchWeeks == old(matchWeeks)
      ensures users[currentUser].isAdmin && HasCompleteEntry(entries) ==>
        r == Failure(ServerError) && matchWeeks == old(matchWeeks)
      ensures users[currentUser].isAdmin && !HasCompleteEntry(entries) ==>
        && r == Success(old(nextMatchWeekId))
        && matchWeeks == old(matchWeeks)[old(nextMatchWeekId) :=
             MatchWeek(old(nextMatchWeekId), seasonId, weekId, opensAt, closesAt, false, now)]
      ensures nextMatchWeekId == old(nextMatchWeekId) + (if r.Success? then 1 else 0)
      ensures nextSeasonId == old(nextSeasonId) && nextFixtureId == old(nextFixtureId)
      ensures nextPredictionId == old(nextPredictionId)
    {
      if !users[currentUser].isAdmin {
        return Failure(AccessDenied);
      }
      var mwId := nextMatchWeekId;
      var mw := MatchWeek(mwId, seasonId, weekId, opensAt, closesAt, false, now);
      for i := 0 to |entries|
        invariant forall k :: 0 <= k < i ==> !Complete(entries[k])
      {
        var e := entries[i];
        if e.homeTeam != "" && e.awayTeam != "" {
          return Failure(ServerError);
        }
      }
      AddInactiveKeepsAtMostOne(matchWeeks, mwId, mw);
      matchWeeks := matchWeeks[mwId := mw];
      nextMatchWeekId := nextMatchWeekId + 1;
      r := Success(mwId);
    }

    /** `activate_match_week`: clears every `is_active` flag, then sets the
        target's. An unknown id is a 404 raised before the commit, so the
        cleared flags are rolled back. */
    method ActivateMatchWeek(currentUser: nat, weekId: nat) returns (r: Result<()>)
      requires Valid() && currentUser in users
      modifies this
      ensures Valid()
      ensures users == old(users) && seasons == old(seasons)
      ensures fixtures == old(fixtures) && predictions == old(predictions)
      ensures !users[currentUser].isAdmin ==> r == Failure(AccessDenied) && matchWeeks == old(matchWeeks)
      ensures users[currentUser].isAdmin && weekId !in old(matchWeeks) ==>
        r == Failure(NotFound) && matchWeeks == old(matchWeeks)
      ensures users[currentUser].isAdmin && weekId in old(matchWeeks) ==>
        r == Success(()) && matchWeeks == Activated(old(matchWeeks), weekId)
      ensures nextSeasonId == old(nextSeasonId) && nextMatchWeekId == old(nextMatchWeekId)
      ensures nextFixtureId == old(nextFixtureId) && nextPredictionId == old(nextPredictionId)
    {
      if !users[currentUser].isAdmin {
        return Failure(AccessDenied);
      }
      var cleared := map id | id in matchWeeks :: matchWeeks[id].(isActive := false);
      if weekId !in cleared {
        return Failure(NotFound);
      }
      var updated := cleared[weekId := cleared[weekId].(isActive := true)];
      assert updated == Activated(matchWeeks, weekId);
      ActivationKeepsAtMostOne(matchWeeks, weekId);
      matchWeeks := updated;
      r := Success(());
    }

    /** `activate_match_week` as written: after the commit the success message
        reads `match_week.week_number`, which MatchWeek does not have, so the
        reply is a 500 although the activation is stored. */
    method ActivateMatchWeekAsWritten(currentUser: nat, weekId: nat) returns (r: Result<()>)
      requires Valid() && currentUser in users
      modifies this
      ensures Valid()
      ensures users == old(users) && seasons == old(seasons)
      ensures fixtures == old(fixtures) && predictions == old(predictions)
      ensures r.Failure?
      ensures !users[currentUser].isAdmin ==> r == Failure(AccessDenied) && matchWeeks == old(matchWeeks)
      ensures users[currentUser].isAdmin && weekId !in old(matchWeeks) ==>
        r == Failure(NotFound) && matchWeeks == old(matchWeeks)
      ensures users[currentUser].isAdmin && weekId in old(matchWeeks) ==>
        r == Failure(ServerError) && matchWeeks == Activated(old(matchWeeks), weekId)
      ensures nextSeasonId == old(nextSeasonId) && nextMatchWeekId == old(nextMatchWeekId)
      ensures nextFixtureId == old(nextFixtureId) && nextPredictionId == old(nextPredictionId)
    {
      r := ActivateMatchWeek(currentUser, weekId);
      if r.Success? {
        r := Failure(ServerError);
      }
    }

    /** `predict_match_week`: the prefill map from fixture id to the current
        user's prediction, over the fixtures of the match week that have one;
        refused while the window is closed. */
    method PredictMatchWeek(currentUser: nat, weekId: nat, now: Timestamp)
      returns (r: Result<map<nat, Prediction>>)
      requires Valid() && currentUser in users
      ensures weekId !in matchWeeks ==> r == Failure(NotFound)
      ensures weekId in matchWeeks && !IsPredictionsOpen(matchWeeks[weekId], now) ==>
        r == Failure(PredictionsClosed)
      ensures r.Success? <==> weekId in matchWeeks && IsPredictionsOpen(matchWeeks[weekId], now)
      ensures r.Success? ==> forall fid :: fid in r.value <==>
        InWeek(fixtures, weekId, fid) && HasRow(predictions, currentUser, fid)
      ensures r.Success? ==> forall fid :: fid in r.value ==>
        r.value[fid] in predictions && Matches(r.value[fid], currentUser, fid)
    {
      if weekId !in matchWeeks {
        return Failure(NotFound);
      }
      if !IsPredictionsOpen(matchWeeks[weekId], now) {
        return Failure(PredictionsClosed);
      }
      var weekFixtures := FixturesOf(fixtures, weekId);
      var prefill: map<nat, Prediction> := map[];
      for i := 0 to |weekFixtures|
        invariant forall fid :: fid in prefill <==>
          (exists k :: 0 <= k < i && weekFixtures[k].id == fid) && HasRow(predictions, currentUser, fid)
        invariant forall fid :: fid in prefill ==>
          prefill[fid] in predictions && Matches(prefill[fid], currentUser, fid)
      {
        var f := weekFixtures[i];
        var found := FindPrediction(predictions, currentUser, f.id);
        if found.Some? {
          prefill := prefill[f.id := predictions[found.value]];
        }
      }
      forall fid ensures (exists k :: 0 <= k < |weekFixtures| && weekFixtures[k].id == fid) <==> InWeek(fixtures, weekId, fid) {
        if k :| 0 <= k < |weekFixtures| && weekFixtures[k].id == fid {
          assert weekFixtures[k] in fixtures;
        }
        if InWeek(fixtures, weekId, fid) {
          var k :| 0 <= k < |fixtures| && fixtures[k].id == fid && fixtures[k].matchWeekId == weekId;
          assert fixtures[k] in weekFixtures;
        }
      }
      r := Success(prefill);
    }

    /** `submit_prediction`: refused when the fixture is unknown or its match
        week's window is closed; otherwise the (user, fixture) row is updated
        in place or inserted. */
    method SubmitPrediction(currentUser: nat, fixtureId: nat, home: int, away: int, now: Timestamp)
      returns (r: Result<()>)
      requires Valid() && currentUser in users
      modifies this
      ensures Valid()
      ensures users == old(users) && seasons == old(seasons)
      ensures matchWeeks == old(matchWeeks) && fixtures == old(fixtures)
      ensures FindFixture(fixtures, fixtureId).None? ==> r == Failure(NotFound) && predictions == old(predictions)
      ensures FindFixture(fixtures, fixtureId).Some? && !old(WindowOpenFor(fixtureId, now)) ==>
        r == Failure(PredictionsClosed) && predictions == old(predictions)
      ensures r.Success? <==> old(WindowOpenFor(fixtureId, now))
      ensures r.Success? ==>
        predictions == Upsert(old(predictions), currentUser, fixtureId, home, away, now, old(nextPredictionId))
      ensures nextPredictionId == old(nextPredictionId) +
        (if r.Success? && FindPrediction(old(predictions), currentUser, fixtureId).None? then 1 else 0)
      ensures nextSeasonId == old(nextSeasonId) && nextMatchWeekId == old(nextMatchWeekId)
      ensures nextFixtureId == old(nextFixtureId)
    {
      var fi := FindFixture(fixtures, fixtureId);
      if fi.None? {
        return Failure(NotFound);
      }
      var fixture := fixtures[fi.value];
      if !IsPredictionsOpen(matchWeeks[fixture.matchWeekId], now) {
        return Failure(PredictionsClosed);
      }
      ghost var before := predictions;
      UpsertKeepsUnique(predictions, currentUser, fixtureId, home, away, now, nextPredictionId);
      var found := FindPrediction(predictions, currentUser, fixtureId);
      if found.Some? {
        var p := predictions[found.value];
        predictions := predictions[found.value := p.(homeScore := home, awayScore := away, updatedAt := now)];
      } else {
        predictions := predictions + [Prediction(nextPredictionId, currentUser, fixtureId, home, away, 0, now, now)];
        nextPredictionId := nextPredictionId + 1;
      }
      assert predictions == Upsert(before, currentUser, fixtureId, home, away, now, old(nextPredictionId));
      r := Success(());
    }

    /** `leaderboard`: one row per user with a prediction, with the user's
        name and summed points, ordered by non-increasing total. */
    method LeaderboardRows() returns (rows: seq<Row>)
      requires Valid()
      ensures SortedByTotal(rows) && UniqueUsers(rows)
      ensures forall r :: r in rows ==>
        (r.userId in users && HasPrediction(predictions, r.userId)
         && r.name == users[r.userId].name && r.total == Total(predictions, r.userId))
      ensures forall u :: HasPrediction(predictions, u) ==> exists r :: r in rows && r.userId == u
    {
      rows := Ranking(users, predictions);
      RankingCorrect(users, predictions);
    }
  }
}
