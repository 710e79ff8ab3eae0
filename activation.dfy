/** The `is_active` flag of the match weeks: what activating a match week
    leaves behind, and the single-active invariant it keeps. */
module Activation {
  import opened Models

  /** The match weeks after activating `target`: every flag cleared, the
      target's set, nothing else changed. */
  function Activated(mws: map<nat, MatchWeek>, target: nat): (r: map<nat, MatchWeek>)
    ensures r.Keys == mws.Keys
  {
    map id | id in mws :: mws[id].(isActive := id == target)
  }

  ghost function ActiveIds(mws: map<nat, MatchWeek>): set<nat> {
    set id | id in mws && mws[id].isActive
  }

  ghost predicate AtMostOneActive(mws: map<nat, MatchWeek>) {
    forall a, b :: a in mws && b in mws && mws[a].isActive && mws[b].isActive ==> a == b
  }

  /** After activating an existing match week it is the only active one. */
  lemma ExactlyOneActive(mws: map<nat, MatchWeek>, target: nat)
    requires target in mws
    ensures ActiveIds(Activated(mws, target)) == {target}
    ensures forall id :: id in Activated(mws, target) ==>
      (Activated(mws, target)[id].isActive <==> id == target)
  {
  }

  /** Activation changes the `is_active` flag and no other field. */
  lemma ActivationTouchesOnlyFlag(mws: map<nat, MatchWeek>, target: nat)
    ensures forall id :: id in mws ==>
      Activated(mws, target)[id].(isActive := mws[id].isActive) == mws[id]
  {
  }

  /** Activating the same match week twice is the same as activating it once. */
  lemma ActivationIdempotent(mws: map<nat, MatchWeek>, target: nat)
    ensures Activated(Activated(mws, target), target) == Activated(mws, target)
  {
  }

  /** Activating is never a way to get two active match weeks. */
  lemma ActivationKeepsAtMostOne(mws: map<nat, MatchWeek>, target: nat)
    ensures AtMostOneActive(Activated(mws, target))
  {
  }

  /** Adding an inactive match week keeps the invariant. */
  lemma AddInactiveKeepsAtMostOne(mws: map<nat, MatchWeek>, id: nat, mw: MatchWeek)
    requires AtMostOneActive(mws) && !mw.isActive
    ensures AtMostOneActive(mws[id := mw])
  {
  }
}
