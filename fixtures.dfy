/** The fixture table: lookup by primary key, the fixtures of one match week,
    and the fixtures that `create_match_week` builds from the form entries. */
module Fixtures {
  import opened Models

  /** Lookup by primary key: the index of the row with that id, if any. */
  function FindFixture(fixtures: seq<Fixture>, id: nat): (r: Option<nat>)
    ensures r.Some? ==> r.value < |fixtures| && fixtures[r.value].id == id
    ensures r.None? <==> forall k :: 0 <= k < |fixtures| ==> fixtures[k].id != id
  {
    if |fixtures| == 0 then None
    else if fixtures[0].id == id then Some(0)
    else match FindFixture(fixtures[1..], id)
      case None => None
      case Some(k) => Some(k + 1)
  }

  /** The `MatchWeek.fixtures` relationship: the rows linked to match week `w`,
      in table order. */
  function FixturesOf(fixtures: seq<Fixture>, w: nat): (r: seq<Fixture>)
    ensures |r| <= |fixtures|
    ensures forall f :: f in r <==> f in fixtures && f.matchWeekId == w
  {
    if |fixtures| == 0 then []
    else (if fixtures[0].matchWeekId == w then [fixtures[0]] else []) + FixturesOf(fixtures[1..], w)
  }

  /** One fixture row of the creation form; an unset team is the empty string. */
  datatype FixtureEntry = FixtureEntry(homeTeam: string, awayTeam: string)

  /** The creation loop's guard: both teams of the entry are set. */
  predicate Complete(e: FixtureEntry) {
    e.homeTeam != "" && e.awayTeam != ""
  }

  ghost predicate InWeek(fixtures: seq<Fixture>, w: nat, fid: nat) {
    exists k :: 0 <= k < |fixtures| && fixtures[k].id == fid && fixtures[k].matchWeekId == w
  }

  predicate HasCompleteEntry(entries: seq<FixtureEntry>) {
    exists k :: 0 <= k < |entries| && Complete(entries[k])
  }

  /** The entries the creation loop turns into fixtures, in form order. */
  function CompleteEntries(entries: seq<FixtureEntry>): (r: seq<FixtureEntry>)
    ensures |r| <= |entries|
    ensures forall e :: e in r <==> e in entries && Complete(e)
  {
    if |entries| == 0 then []
    else (if Complete(entries[0]) then [entries[0]] else []) + CompleteEntries(entries[1..])
  }

  /** The fixture rows made for match week `w` from `entries`, numbered from `firstId`:
      one per complete entry, in entry order, with no scores and not completed. */
  function NewFixtures(entries: seq<FixtureEntry>, w: nat, firstId: nat, now: Timestamp): (r: seq<Fixture>)
  {
    var ce := CompleteEntries(entries);
    seq(|ce|, k requires 0 <= k < |ce| =>
      Fixture(firstId + k, w, ce[k].homeTeam, ce[k].awayTeam, None, None, None, false, now))
  }

  /** Filtering an extended form list extends the filtered list. */
  lemma {:induction false} CompleteEntriesSnoc(entries: seq<FixtureEntry>, e: FixtureEntry)
    ensures CompleteEntries(entries + [e])
         == CompleteEntries(entries) + (if Complete(e) then [e] else [])
  {
    if |entries| == 0 {
      assert entries + [e] == [e];
      assert [e][1..] == [];
    } else {
      assert (entries + [e])[1..] == entries[1..] + [e];
      CompleteEntriesSnoc(entries[1..], e);
    }
  }

  /** Appending an entry adds a fixture exactly when the entry is complete. */
  lemma NewFixturesSnoc(entries: seq<FixtureEntry>, e: FixtureEntry, w: nat, firstId: nat, now: Timestamp)
    ensures var n := |NewFixtures(entries, w, firstId, now)|;
      NewFixtures(entries + [e], w, firstId, now)
      == NewFixtures(entries, w, firstId, now)
         + (if Complete(e) then [Fixture(firstId + n, w, e.homeTeam, e.awayTeam, None, None, None, false, now)] else [])
  {
    CompleteEntriesSnoc(entries, e);
  }

  /** When every entry is complete (what the form's required-field validation
      enforces), every entry becomes a fixture. */
  lemma {:induction false} AllCompleteKept(entries: seq<FixtureEntry>)
    requires forall k :: 0 <= k < |entries| ==> Complete(entries[k])
    ensures CompleteEntries(entries) == entries
  {
    if |entries| > 0 {
      AllCompleteKept(entries[1..]);
      assert [entries[0]] + entries[1..] == entries;
    }
  }

  /** Some entry is complete exactly when the creation loop builds a fixture. */
  lemma HasCompleteEntryIffFixtures(entries: seq<FixtureEntry>, w: nat, firstId: nat, now: Timestamp)
    ensures HasCompleteEntry(entries) <==> |NewFixtures(entries, w, firstId, now)| > 0
  {
    var ce := CompleteEntries(entries);
    if |ce| > 0 {
      assert ce[0] in ce;
      var k :| 0 <= k < |entries| && entries[k] == ce[0];
      assert Complete(entries[k]);
    }
    if HasCompleteEntry(entries) {
      var k :| 0 <= k < |entries| && Complete(entries[k]);
      assert entries[k] in ce;
    }
  }

  /** A form that passes validation (at least one entry, both teams required in
      each) always has a complete entry, and as intended yields one fixture per
      entry: so the creation that raises on the first complete entry never
      stores a match week with fixtures. */
  lemma ValidatedFormHasCompleteEntry(entries: seq<FixtureEntry>, w: nat, firstId: nat, now: Timestamp)
    requires |entries| >= 1
    requires forall k :: 0 <= k < |entries| ==> Complete(entries[k])
    ensures HasCompleteEntry(entries)
    ensures |NewFixtures(entries, w, firstId, now)| == |entries|
  {
    AllCompleteKept(entries);
    assert Complete(entries[0]);
  }
}
