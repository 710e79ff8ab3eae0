/** The prediction table: the `unique_user_fixture` constraint, the lookup
    by (user, fixture) and the upsert that `submit_prediction` performs. */
module Ledger {
  import opened Models

  predicate Matches(p: Prediction, user: nat, fixture: nat) {
    p.userId == user && p.fixtureId == fixture
  }

  /** The unique constraint on (user_id, fixture_id): no two rows share the pair. */
  ghost predicate UniqueUserFixture(preds: seq<Prediction>) {
    forall i, j :: 0 <= i < j < |preds| ==> !Matches(preds[i], preds[j].userId, preds[j].fixtureId)
  }

  ghost predicate HasRow(preds: seq<Prediction>, user: nat, fixture: nat) {
    exists k :: 0 <= k < |preds| && Matches(preds[k], user, fixture)
  }

  /** The number of rows for (user, fixture). */
  function CountFor(preds: seq<Prediction>, user: nat, fixture: nat): (c: nat)
    ensures c <= |preds|
  {
    if |preds| == 0 then 0
    else (if Matches(preds[0], user, fixture) then 1 else 0) + CountFor(preds[1..], user, fixture)
  }

  /** The rows that are not for (user, fixture), in table order. */
  function OthersOf(preds: seq<Prediction>, user: nat, fixture: nat): (r: seq<Prediction>)
    ensures forall p :: p in r <==> p in preds && !Matches(p, user, fixture)
  {
    if |preds| == 0 then []
    else (if Matches(preds[0], user, fixture) then [] else [preds[0]]) + OthersOf(preds[1..], user, fixture)
  }

  /** The query for a user's prediction on a fixture: the index of the first
      row for the pair, or None when there is none. */
  function FindPrediction(preds: seq<Prediction>, user: nat, fixture: nat): (r: Option<nat>)
    ensures r.Some? ==> r.value < |preds| && Matches(preds[r.value], user, fixture)
    ensures r.Some? ==> forall k :: 0 <= k < r.value ==> !Matches(preds[k], user, fixture)
    ensures r.None? <==> forall k :: 0 <= k < |preds| ==> !Matches(preds[k], user, fixture)
  {
    if |preds| == 0 then None
    else if Matches(preds[0], user, fixture) then Some(0)
    else match FindPrediction(preds[1..], user, fixture)
      case None => None
      case Some(k) => Some(k + 1)
  }

  /** The row `submit_prediction` ends with: the found row with new scores and
      update time, or a fresh row with no points. */
  function Upsert(preds: seq<Prediction>, user: nat, fixture: nat, home: int, away: int,
                  now: Timestamp, newId: nat): (r: seq<Prediction>)
    ensures HasRow(r, user, fixture)
  {
    match FindPrediction(preds, user, fixture)
    case Some(i) =>
      var r := preds[i := preds[i].(homeScore := home, awayScore := away, updatedAt := now)];
      assert Matches(r[i], user, fixture);
      r
    case None =>
      var r := preds + [Prediction(newId, user, fixture, home, away, 0, now, now)];
      assert Matches(r[|preds|], user, fixture);
      r
  }

  lemma {:induction false} CountZero(preds: seq<Prediction>, user: nat, fixture: nat)
    ensures CountFor(preds, user, fixture) == 0 <==> FindPrediction(preds, user, fixture).None?
  {
    if |preds| > 0 {
      CountZero(preds[1..], user, fixture);
      if !Matches(preds[0], user, fixture) {
        assert forall k :: 1 <= k < |preds| ==> preds[k] == preds[1..][k - 1];
      }
    }
  }

  /** Under the unique constraint a pair has at most one row. */
  lemma {:induction false} UniqueCountAtMostOne(preds: seq<Prediction>, user: nat, fixture: nat)
    requires UniqueUserFixture(preds)
    ensures CountFor(preds, user, fixture) <= 1
  {
    if |preds| > 0 {
      assert UniqueUserFixture(preds[1..]) by {
        forall i, j | 0 <= i < j < |preds[1..]|
          ensures !Matches(preds[1..][i], preds[1..][j].userId, preds[1..][j].fixtureId)
        {
          assert preds[1..][i] == preds[i + 1] && preds[1..][j] == preds[j + 1];
        }
      }
      UniqueCountAtMostOne(preds[1..], user, fixture);
      if Matches(preds[0], user, fixture) {
        CountZero(preds[1..], user, fixture);
      }
    }
  }

  lemma {:induction false} CountAppend(a: seq<Prediction>, b: seq<Prediction>, user: nat, fixture: nat)
    ensures CountFor(a + b, user, fixture) == CountFor(a, user, fixture) + CountFor(b, user, fixture)
  {
    if |a| > 0 {
      assert (a + b)[1..] == a[1..] + b;
      CountAppend(a[1..], b, user, fixture);
    } else {
      assert a + b == b;
    }
  }

  lemma {:induction false} OthersAppend(a: seq<Prediction>, b: seq<Prediction>, user: nat, fixture: nat)
    ensures OthersOf(a + b, user, fixture) == OthersOf(a, user, fixture) + OthersOf(b, user, fixture)
  {
    if |a| > 0 {
      assert (a + b)[1..] == a[1..] + b;
      OthersAppend(a[1..], b, user, fixture);
    } else {
      assert a + b == b;
    }
  }

  /** Replacing a row by one for the same pair leaves the other rows as they were. */
  lemma {:induction false} OthersReplace(preds: seq<Prediction>, i: nat, q: Prediction, user: nat, fixture: nat)
    requires i < |preds| && Matches(preds[i], user, fixture) && Matches(q, user, fixture)
    ensures OthersOf(preds[i := q], user, fixture) == OthersOf(preds, user, fixture)
    ensures CountFor(preds[i := q], user, fixture) == CountFor(preds, user, fixture)
  {
    var r := preds[i := q];
    assert preds == preds[..i] + [preds[i]] + preds[i + 1..];
    assert r == preds[..i] + [q] + preds[i + 1..];
    OthersAppend(preds[..i] + [preds[i]], preds[i + 1..], user, fixture);
    OthersAppend(preds[..i], [preds[i]], user, fixture);
    OthersAppend(preds[..i] + [q], preds[i + 1..], user, fixture);
    OthersAppend(preds[..i], [q], user, fixture);
    CountAppend(preds[..i] + [preds[i]], preds[i + 1..], user, fixture);
    CountAppend(preds[..i], [preds[i]], user, fixture);
    CountAppend(preds[..i] + [q], preds[i + 1..], user, fixture);
    CountAppend(preds[..i], [q], user, fixture);
  }

  /** After an upsert the pair has exactly one row, and every other row is
      unchanged and in the same order. */
  lemma UpsertExactlyOne(preds: seq<Prediction>, user: nat, fixture: nat, home: int, away: int,
                         now: Timestamp, newId: nat)
    requires UniqueUserFixture(preds)
    ensures CountFor(Upsert(preds, user, fixture, home, away, now, newId), user, fixture) == 1
    ensures OthersOf(Upsert(preds, user, fixture, home, away, now, newId), user, fixture)
         == OthersOf(preds, user, fixture)
  {
    var r := Upsert(preds, user, fixture, home, away, now, newId);
    match FindPrediction(preds, user, fixture)
    case Some(i) =>
      OthersReplace(preds, i, preds[i].(homeScore := home, awayScore := away, updatedAt := now), user, fixture);
      UniqueCountAtMostOne(preds, user, fixture);
      CountZero(preds, user, fixture);
    case None =>
      var p := Prediction(newId, user, fixture, home, away, 0, now, now);
      CountAppend(preds, [p], user, fixture);
      OthersAppend(preds, [p], user, fixture);
      CountZero(preds, user, fixture);
      assert [p][1..] == [];
  }

  /** An upsert keeps the unique constraint. */
  lemma UpsertKeepsUnique(preds: seq<Prediction>, user: nat, fixture: nat, home: int, away: int,
                          now: Timestamp, newId: nat)
    requires UniqueUserFixture(preds)
    ensures UniqueUserFixture(Upsert(preds, user, fixture, home, away, now, newId))
  {
    var r := Upsert(preds, user, fixture, home, away, now, newId);
    match FindPrediction(preds, user, fixture)
    case Some(i) =>
      forall a, b | 0 <= a < b < |r| ensures !Matches(r[a], r[b].userId, r[b].fixtureId) {
        assert r[a].userId == preds[a].userId && r[a].fixtureId == preds[a].fixtureId;
        assert r[b].userId == preds[b].userId && r[b].fixtureId == preds[b].fixtureId;
      }
    case None =>
      forall a, b | 0 <= a < b < |r| ensures !Matches(r[a], r[b].userId, r[b].fixtureId) {
        if b == |preds| {
          assert r[a] == preds[a];
        }
      }
  }

  /** Resubmitting changes only the scores and the update time of the existing row;
      its id, owner, fixture, points and creation time stay. */
  lemma UpsertExisting(preds: seq<Prediction>, user: nat, fixture: nat, home: int, away: int,
                       now: Timestamp, newId: nat, i: nat)
    requires FindPrediction(preds, user, fixture) == Some(i)
    ensures var r := Upsert(preds, user, fixture, home, away, now, newId);
      && |r| == |preds|
      && r[i].homeScore == home && r[i].awayScore == away && r[i].updatedAt == now
      && r[i].id == preds[i].id && r[i].userId == user && r[i].fixtureId == fixture
      && r[i].pointsEarned == preds[i].pointsEarned && r[i].createdAt == preds[i].createdAt
      && forall k :: 0 <= k < |r| && k != i ==> r[k] == preds[k]
  {
  }

  /** A first submission appends one row carrying the given scores, no points,
      and the submission time as both creation and update time. */
  lemma UpsertNew(preds: seq<Prediction>, user: nat, fixture: nat, home: int, away: int,
                  now: Timestamp, newId: nat)
    requires CountFor(preds, user, fixture) == 0
    ensures var r := Upsert(preds, user, fixture, home, away, now, newId);
      && |r| == |preds| + 1 && r[..|preds|] == preds
      && r[|preds|] == Prediction(newId, user, fixture, home, away, 0, now, now)
      && r[|preds|].pointsEarned == 0
  {
    CountZero(preds, user, fixture);
    var r := Upsert(preds, user, fixture, home, away, now, newId);
    assert r[..|preds|] == preds;
  }
}
