/** The life cycle of an entry: who may remove it, and when. */
module Expiry {
  import opened Aodv
  import opened TimeFuncs
  import opened RoutingTable
  import opened SendMessages
  import opened RecvMessages
  import opened Callbacks
  import opened Operations
  import opened TableRefinement
  import opened Threads

  /** The event is the expiration of an invalid entry in slot s. */
  predicate Removes(n: Node, ev: Event, s: u8) {
    && ev.Wake? && ev.id in n.threads && n.threads[ev.id].Expiration? && n.threads[ev.id].slot == s
    && s in n.table && !n.table[s].routeValid
  }

  ghost predicate NoRemoval(n: Node, op: Operation) {
    op.Thread? && op.id in n.threads && n.threads[op.id].Expiration? && n.threads[op.id].slot in n.table ==>
      n.table[n.threads[op.id].slot].routeValid
  }

  lemma OperationKeepsEntries(n: Node, op: Operation, now: Time)
    requires Allowed(n, op, now) && NoRemoval(n, op)
    ensures n.table.Keys <= Do(n, op, now).table.Keys
  {
    hide PreviousHop, ReverseRoute, ForwardRoute, Hello, StopSearch, Invalidate, RefreshRoute, LoseRoute, SendRreq,
      SendRreqOutcome, ExpirationFunc, RreqIdFunc, BeginSearch, SendRing, FailSearch;
  }

  lemma {:induction false} OperationsKeepEntries(n: Node, ops: seq<Operation>, now: Time)
    requires AllAllowed(n, ops, now) && forall op <- ops :: !op.Thread?
    ensures n.table.Keys <= DoAll(n, ops, now).table.Keys
    decreases |ops|
  {
    hide Do, Allowed;
    if ops == [] {
    } else {
      OperationKeepsEntries(n, ops[0], now);
      OperationsKeepEntries(Do(n, ops[0], now), ops[1..], now);
    }
  }

  /** An entry leaves the table exactly when its own expiration finds it invalid, and never
      before its deadline. */
  lemma RemovedOnlyWhenExpired(n: Node, ev: Event, now: Time, s: u8)
    requires Ledger(n) && Placed(n) && Enabled(n, ev, now) && s in n.table
    ensures s !in Apply(n, ev, now).node.table <==> Removes(n, ev, s)
    ensures Removes(n, ev, s) ==> n.table[s].expirationThread == ev.id && n.table[s].timeOut.Ns() <= now.Ns()
  {
    hide RecvRreq, RecvRrep, RecvRerr, IncomingDataMessage, ForwardedMessages, OutgoingMessage, SendRreqOutcome,
      OperationsOf, BeginSearch, SendRing, FailSearch, RreqIdFunc, AddMs;
    if ev.Wake? {
      assert Owned(n, ev.id);
      assert !n.threads[ev.id].Expiration? ==> RoutesKept(n, Run(n, ev.id, now).node);
    } else {
      OperationsFrom(n, ev, now);
      EventIsOperations(n, ev, now);
      OperationsKeepEntries(n, OperationsOf(n, ev, now), now);
    }
  }

  /** An expiration that finds its entry valid makes it invalid, drops the kernel route and
      sleeps on under the same handle until exactly DELETE_PERIOD from now. */
  lemma ValidEntryExpires(n: Node, id: nat, now: Time)
    requires Ledger(n) && Enabled(n, Wake(id), now)
    requires n.threads[id].Expiration? && n.table[n.threads[id].slot].routeValid
    ensures var s := n.threads[id].slot;
            var e, r := n.table[s], Apply(n, Wake(id), now).node;
            && s in r.table && r.table == n.table[s := r.table[s]]
            && r.table[s] == e.(routeValid := false, timeOut := r.table[s].timeOut)
            && r.table[s].timeOut.Ns() == now.Ns() + DELETE_PERIOD * MILLION
            && e.destIp !in r.kernel && r.table[s].expirationThread == id
            && r.threads == n.threads[id := Expiration(s, r.table[s].timeOut.Ns())]
  {
    assert Owned(n, id);
    SubtractNeverEarly(now, AddMs(now, DELETE_PERIOD));
    AddMsKeepsOrder(now, DELETE_PERIOD);
    hide AddMs, Subtract;
  }

  // ---- Deadlines never run far ahead of the clock ----

  /** Every deadline lies less than 2^32 milliseconds ahead, so what remains fits in 32 bits. */
  ghost predicate Bounded(n: Node, now: Time) {
    forall s :: s in n.table ==> n.table[s].timeOut.Ns() < now.Ns() + WORD * MILLION
  }

  lemma OperationBounds(n: Node, op: Operation, now: Time)
    requires Allowed(n, op, now) && Bounded(n, now)
    ensures Bounded(Do(n, op, now), now)
  {
    hide PreviousHop, ReverseRoute, ForwardRoute, Hello, StopSearch, Invalidate, RefreshRoute, LoseRoute, SendRreq,
      SendRreqOutcome, Run;
  }

  lemma {:induction false} OperationsBound(n: Node, ops: seq<Operation>, now: Time)
    requires AllAllowed(n, ops, now) && Bounded(n, now)
    ensures Bounded(DoAll(n, ops, now), now)
    decreases |ops|
  {
    hide Do, Allowed;
    if ops == [] {
    } else {
      OperationBounds(n, ops[0], now);
      OperationsBound(Do(n, ops[0], now), ops[1..], now);
    }
  }
}
