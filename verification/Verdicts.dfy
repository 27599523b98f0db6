/** What becomes of data packets. */
module Verdicts {
  import opened Aodv
  import opened Messages
  import opened TimeFuncs
  import opened RoutingTable
  import opened SendMessages
  import opened Callbacks
  import opened TableRefinement
  import opened Threads
  import opened Expiry
  import opened SearchRun

  /** A packet passes at once exactly when it needs no route or has an active one that leads somewhere; it is dropped
      at once exactly when a search for its destination has just failed and no route stands against that. */
  lemma OutgoingAtOnce(n: Node, dest: u32, now: Time)
    ensures OutgoingVerdict(n, dest, now) == Some(Accept) <==>
            dest == n.broadcastIp || dest == n.ip || (Active(n, dest) && NextHopUsable(n, EntryOf(n, dest)))
    ensures OutgoingVerdict(n, dest, now) == Some(Drop) <==>
            && dest != n.broadcastIp && dest != n.ip && HasEntry(n, dest) && EntryOf(n, dest).search == Failed
            && (if Active(n, dest) then !NextHopUsable(n, EntryOf(n, dest)) else !EntryOf(n, dest).routeValid)
  {
    hide AddMs, WakeAt, DropActive, NextHopUsable;
  }

  /** A packet to pass on is accepted exactly when nothing is reported; else it is dropped, and its destination is
      reported to all neighbours. */
  lemma ForwardedOrReported(n: Node, src: u32, dest: u32, now: Time)
    requires !LinkBreak(n, dest)
    ensures var outs := ForwardedMessages(n, src, dest, now).outs;
            if ForwardVerdict(n, dest) == Accept then outs == []
            else exists destSeq: u32 :: outs == [Broadcast(RerrMessage([Pair(dest, destSeq)]))]
  {
    hide RefreshRoute;
  }

  /** A packet that waits for a search passes when an answer ends the search, and is dropped when the search has used up
      its plan. */
  lemma SearchDecides(n: Node, ev: Event, now: Time, id: nat, dest: u32)
    requires Ledger(n) && Placed(n) && Enabled(n, ev, now)
    requires id in n.threads && Searches(n.threads[id]) && Slot(dest) == n.threads[id].slot
    ensures Answers(n, ev, Slot(dest)) ==> Decided(Apply(n, ev, now).node, dest, Accept)
    ensures ev == Wake(id) && UsedUp(n.threads[id]) ==> Decided(Apply(n, ev, now).node, dest, Drop)
  {
    SearchEnds(n, ev, now, id);
    hide Apply, Ledger, Placed, Answers, Removes;
  }

  predicate UsedUp(t: RoutingTable.Thread) {
    t.RingSearch? && |t.log| >= |t.plan|
  }

  /** The waiting sender can go on, with this verdict. */
  predicate Decided(n: Node, dest: u32, verdict: Verdict) {
    HasEntry(n, dest) && EntryOf(n, dest).search != Searching && OutcomeVerdict(n, dest) == verdict
  }
}
