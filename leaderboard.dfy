/** The leaderboard query: predictions joined to their users, grouped by
    user, points summed, and the groups ordered by descending total. */
module Leaderboard {
  import opened Models
  import opened Ledger

  /** One result row: the `User.name` and `total_points` columns, with the
      grouping key kept beside them. */
  datatype Row = Row(userId: nat, name: string, total: int)

  /** The sum of `points_earned` over the user's predictions. */
  function Total(preds: seq<Prediction>, user: nat): (t: int)
    ensures !HasPrediction(preds, user) ==> t == 0
  {
    if |preds| == 0 then 0
    else
      assert !HasPrediction(preds, user) ==> !HasPrediction(preds[1..], user) by {
        if k :| 0 <= k < |preds[1..]| && preds[1..][k].userId == user {
          assert preds[k + 1].userId == user;
        }
      }
      (if preds[0].userId == user then preds[0].pointsEarned else 0) + Total(preds[1..], user)
  }

  ghost predicate HasPrediction(preds: seq<Prediction>, user: nat) {
    exists k :: 0 <= k < |preds| && preds[k].userId == user
  }

  ghost predicate Distinct(ids: seq<nat>) {
    forall i, j :: 0 <= i < j < |ids| ==> ids[i] != ids[j]
  }

  /** The GROUP BY keys: the users with at least one prediction, each once,
      in order of their first prediction. */
  function Groups(preds: seq<Prediction>): (ids: seq<nat>)
    ensures Distinct(ids)
    ensures forall u :: u in ids <==> HasPrediction(preds, u)
  {
    if |preds| == 0 then []
    else
      var g := Groups(preds[..|preds| - 1]);
      var u := preds[|preds| - 1].userId;
      assert forall k :: 0 <= k < |preds| - 1 ==> preds[..|preds| - 1][k] == preds[k];
      if u in g then g else g + [u]
  }

  /** One row per grouped user that the inner join finds in the user table. */
  function RowsFor(ids: seq<nat>, users: map<nat, User>, preds: seq<Prediction>): (rows: seq<Row>)
    ensures |rows| <= |ids|
    ensures forall r :: r in rows ==>
      (r.userId in ids && r.userId in users && r.name == users[r.userId].name && r.total == Total(preds, r.userId))
    ensures forall u :: u in ids && u in users ==> exists r :: r in rows && r.userId == u
  {
    if |ids| == 0 then []
    else
      (if ids[0] in users then [Row(ids[0], users[ids[0]].name, Total(preds, ids[0]))] else [])
      + RowsFor(ids[1..], users, preds)
  }

  ghost predicate SortedByTotal(rows: seq<Row>) {
    forall i, j :: 0 <= i < j < |rows| ==> rows[i].total >= rows[j].total
  }

  /** No user has two rows. */
  ghost predicate UniqueUsers(rows: seq<Row>) {
    forall i, j :: 0 <= i < j < |rows| ==> rows[i].userId != rows[j].userId
  }

  lemma ConsSorted(h: Row, t: seq<Row>)
    requires SortedByTotal(t)
    requires forall x :: x in t ==> h.total >= x.total
    ensures SortedByTotal([h] + t)
  {
    forall i, j | 0 <= i < j < |[h] + t| ensures ([h] + t)[i].total >= ([h] + t)[j].total {
      if i > 0 {
        assert ([h] + t)[i] == t[i - 1] && ([h] + t)[j] == t[j - 1];
      } else {
        assert ([h] + t)[j] in t;
      }
    }
  }

  lemma ConsUnique(h: Row, t: seq<Row>)
    requires UniqueUsers(t)
    requires forall x :: x in t ==> x.userId != h.userId
    ensures UniqueUsers([h] + t)
  {
    forall i, j | 0 <= i < j < |[h] + t| ensures ([h] + t)[i].userId != ([h] + t)[j].userId {
      if i > 0 {
        assert ([h] + t)[i] == t[i - 1] && ([h] + t)[j] == t[j - 1];
      } else {
        assert ([h] + t)[j] in t;
      }
    }
  }

  lemma Uncons(rows: seq<Row>)
    requires |rows| > 0
    ensures rows == [rows[0]] + rows[1..]
    ensures SortedByTotal(rows) ==> SortedByTotal(rows[1..])
    ensures UniqueUsers(rows) ==> UniqueUsers(rows[1..])
    ensures UniqueUsers(rows) ==> forall x :: x in rows[1..] ==> x.userId != rows[0].userId
  {
    if UniqueUsers(rows) {
      forall i, j | 0 <= i < j < |rows[1..]| ensures rows[1..][i].userId != rows[1..][j].userId {
        assert rows[1..][i] == rows[i + 1] && rows[1..][j] == rows[j + 1];
      }
      forall x | x in rows[1..] ensures x.userId != rows[0].userId {
        var k :| 0 <= k < |rows[1..]| && rows[1..][k] == x;
        assert rows[k + 1] == x;
      }
    }
  }

  /** Places a row among rows sorted by descending total. */
  function Insert(r: Row, rows: seq<Row>): (s: seq<Row>)
    ensures |s| == |rows| + 1
    ensures forall x :: x in s <==> x == r || x in rows
    ensures multiset(s) == multiset(rows) + multiset{r}
  {
    if |rows| == 0 then [r]
    else if r.total >= rows[0].total then
      Uncons(rows);
      [r] + rows
    else
      Uncons(rows);
      [rows[0]] + Insert(r, rows[1..])
  }

  /** Inserting into rows sorted by descending total keeps them sorted. */
  lemma {:induction false} InsertSorted(r: Row, rows: seq<Row>)
    requires SortedByTotal(rows)
    ensures SortedByTotal(Insert(r, rows))
  {
    if |rows| > 0 {
      Uncons(rows);
      if r.total >= rows[0].total {
        forall x | x in rows ensures r.total >= x.total {
          var k :| 0 <= k < |rows| && rows[k] == x;
        }
        ConsSorted(r, rows);
      } else {
        InsertSorted(r, rows[1..]);
        ConsSorted(rows[0], Insert(r, rows[1..]));
      }
    }
  }

  /** Inserting the row of a user not yet listed keeps one row per user. */
  lemma {:induction false} InsertUnique(r: Row, rows: seq<Row>)
    requires UniqueUsers(rows)
    requires forall x :: x in rows ==> x.userId != r.userId
    ensures UniqueUsers(Insert(r, rows))
  {
    if |rows| > 0 {
      Uncons(rows);
      if r.total >= rows[0].total {
        ConsUnique(r, rows);
      } else {
        assert rows[0] in rows;
        InsertUnique(r, rows[1..]);
        ConsUnique(rows[0], Insert(r, rows[1..]));
      }
    }
  }

  /** Ordering by descending total. The query fixes no order among equal totals;
      this one is an insertion sort. */
  function SortByTotal(rows: seq<Row>): (s: seq<Row>)
    ensures |s| == |rows|
    ensures forall x :: x in s <==> x in rows
    ensures multiset(s) == multiset(rows)
    ensures SortedByTotal(s)
    ensures UniqueUsers(rows) ==> UniqueUsers(s)
  {
    if |rows| == 0 then []
    else
      Uncons(rows);
      var t := SortByTotal(rows[1..]);
      InsertSorted(rows[0], t);
      assert UniqueUsers(rows) ==> UniqueUsers(Insert(rows[0], t)) by {
        if UniqueUsers(rows) { InsertUnique(rows[0], t); }
      }
      Insert(rows[0], t)
  }

  function Ranking(users: map<nat, User>, preds: seq<Prediction>): (rows: seq<Row>) {
    SortByTotal(RowsFor(Groups(preds), users, preds))
  }

  lemma {:induction false} RowsForUnique(ids: seq<nat>, users: map<nat, User>, preds: seq<Prediction>)
    requires Distinct(ids)
    ensures UniqueUsers(RowsFor(ids, users, preds))
  {
    if |ids| > 0 {
      assert Distinct(ids[1..]) by {
        forall i, j | 0 <= i < j < |ids[1..]| ensures ids[1..][i] != ids[1..][j] {
          assert ids[1..][i] == ids[i + 1] && ids[1..][j] == ids[j + 1];
        }
      }
      RowsForUnique(ids[1..], users, preds);
      var rest := RowsFor(ids[1..], users, preds);
      forall r | r in rest ensures r.userId != ids[0] {
        var k :| 0 <= k < |ids[1..]| && ids[1..][k] == r.userId;
        assert ids[k + 1] == r.userId;
      }
      if ids[0] in users {
        ConsUnique(Row(ids[0], users[ids[0]].name, Total(preds, ids[0])), rest);
      }
    }
  }

  /** The leaderboard has one row for each user with at least one prediction
      (and a user record), carrying that user's name and summed points, no
      other rows, and its totals never increase down the table. */
  lemma RankingCorrect(users: map<nat, User>, preds: seq<Prediction>)
    ensures var rows := Ranking(users, preds);
      && SortedByTotal(rows)
      && UniqueUsers(rows)
      && (forall r :: r in rows ==>
            (r.userId in users && HasPrediction(preds, r.userId)
             && r.name == users[r.userId].name && r.total == Total(preds, r.userId)))
      && (forall u :: u in users && HasPrediction(preds, u) ==> exists r :: r in rows && r.userId == u)
  {
    RowsForUnique(Groups(preds), users, preds);
  }

  /** A user with more points is listed above a user with fewer. */
  lemma RankingOrder(users: map<nat, User>, preds: seq<Prediction>, i: nat, j: nat)
    requires i < |Ranking(users, preds)| && j < |Ranking(users, preds)|
    requires Ranking(users, preds)[i].total > Ranking(users, preds)[j].total
    ensures i < j
  {
  }

  lemma {:induction false} TotalAppend(a: seq<Prediction>, b: seq<Prediction>, user: nat)
    ensures Total(a + b, user) == Total(a, user) + Total(b, user)
  {
    if |a| > 0 {
      assert (a + b)[1..] == a[1..] + b;
      TotalAppend(a[1..], b, user);
    } else {
      assert a + b == b;
    }
  }

  /** Submitting a prediction changes no user's total: a new row carries no
      points and a resubmission keeps the row's points. */
  lemma UpsertKeepsTotals(preds: seq<Prediction>, user: nat, fixture: nat, home: int, away: int,
                          now: Timestamp, newId: nat, anyone: nat)
    ensures Total(Upsert(preds, user, fixture, home, away, now, newId), anyone) == Total(preds, anyone)
  {
    match FindPrediction(preds, user, fixture)
    case Some(i) =>
      var q := preds[i].(homeScore := home, awayScore := away, updatedAt := now);
      assert preds == preds[..i] + [preds[i]] + preds[i + 1..];
      assert preds[i := q] == preds[..i] + [q] + preds[i + 1..];
      TotalAppend(preds[..i] + [preds[i]], preds[i + 1..], anyone);
      TotalAppend(preds[..i], [preds[i]], anyone);
      TotalAppend(preds[..i] + [q], preds[i + 1..], anyone);
      TotalAppend(preds[..i], [q], anyone);
    case None =>
      var p := Prediction(newId, user, fixture, home, away, 0, now, now);
      TotalAppend(preds, [p], anyone);
      assert [p][1..] == [];
  }
}
