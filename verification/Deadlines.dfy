/** What the handlers leave in the entry they work on: status, deadline and timer; and that no entry stays for
    ever. */
module Deadlines {
  import opened Aodv
  import opened Messages
  import opened TimeFuncs
  import opened RoutingTable
  import opened SendMessages
  import opened RecvMessages
  import opened Callbacks
  import opened Operations
  import opened TableRefinement
  import opened Threads
  import opened Expiry
  import opened Network

  /** The entry ends ms milliseconds from now and its one timer wakes up exactly then. */
  predicate EndsIn(n: Node, s: u8, ms: int, now: Time) {
    && s in n.table && n.table[s].timeOut.Ns() == now.Ns() + ms * MILLION
    && n.table[s].expirationThread in n.threads
    && n.threads[n.table[s].expirationThread] == Expiration(s, n.table[s].timeOut.Ns())
  }

  /** A timer with a time, whatever the old one. */
  lemma TimerEnds(n: Node, s: u8, e: Entry, ms: u32, now: Time)
    requires (s in n.table ==> Grows(n.table[s], e)) && ms != 0
    ensures EndsIn(SetExpirationTimer(n, s, e, ms, now), s, ms, now)
  {
    var timeOut := AddMs(now, ms);
    SubtractNeverEarly(now, timeOut);
    AddMsKeepsOrder(now, ms);
    hide AddMs, Subtract;
  }

  /** A timer replaces the old one. With 0 milliseconds it keeps the deadline and does not wake up before it,
      else it sets both to the same moment. */
  lemma TimerIsSet(n: Node, s: u8, e: Entry, ms: u32, now: Time)
    requires s in n.table ==> Grows(n.table[s], e)
    requires e.expirationThread <= n.lastThread
    ensures var r := SetExpirationTimer(n, s, e, ms, now);
            var e' := r.table[s];
            && e' == e.(timeOut := e'.timeOut, expirationThread := e'.expirationThread)
            && e.expirationThread !in r.threads
            && (if ms == 0 then
                  && e'.timeOut == e.timeOut && e'.expirationThread in r.threads
                  && r.threads[e'.expirationThread].Expiration? && r.threads[e'.expirationThread].slot == s
                  && r.threads[e'.expirationThread].wake >= e.timeOut.Ns()
                else EndsIn(r, s, ms, now))
  {
    if ms != 0 {
      TimerEnds(n, s, e, ms, now);
    } else {
      SubtractNeverEarly(now, e.timeOut);
    }
    hide AddMs, Subtract;
  }

  /** A reply leaves a valid kernel route to its destination that is marked active and ends with the lifetime
      it names. */
  lemma ReplyInstallsRoute(n: Node, sender: u32, m: Rrep, now: Time, junk: u32)
    requires m.lifetime != 0
    ensures var r := ForwardRoute(n, sender, m, now, junk);
            && EntryOf(r, m.destIp).routeValid && EntryOf(r, m.destIp).activeRoute != 0 && m.destIp in r.kernel
            && EndsIn(r, Slot(m.destIp), m.lifetime, now)
  {
    var found := CreateOrGet(n, m.destIp, m.destSeq, true, sender, m.hopCount, m.lifetime, now, junk);
    var e := UpdateForward(found, !HasEntry(n, m.destIp), sender, m);
    TimerEnds(AddRoute(n, m.destIp), Slot(m.destIp), e, m.lifetime, now);
    hide SetExpirationTimer, SeqCompare, AddMs;
  }

  /** A search that fails keeps its entry for twice the network traversal time, or, once the waiting sender
      sees the failure, for half a second. */
  lemma FailureIsRemembered(n: Node, id: nat, now: Time, later: Time)
    requires id in n.threads && n.threads[id].RingSearch? && n.threads[id].slot in n.table
    requires Slot(n.table[n.threads[id].slot].destIp) == n.threads[id].slot && id <= n.lastThread
    ensures var s := n.threads[id].slot;
            var r := FailSearch(n, id, now);
            && EndsIn(r, s, 5600, now) && r.table[s].search == Failed && id !in r.threads
            && EndsIn(SendRreqOutcome(r, n.table[s].destIp, later), s, 500, later)
  {
    var s, r := n.threads[id].slot, FailSearch(n, id, now);
    var e := n.table[s].(messageSender := 0, search := Failed);
    TimerEnds(n.(table := n.table[s := e], threads := n.threads - {id}), s, e, 2 * NET_TRAVERSAL_TIME, now);
    TimerEnds(r, s, r.table[s], 500, later);
    hide SetExpirationTimer;
  }

  // ---- Nothing stays for ever ----

  /** The entry has a timer, or a search in its place; then it holds no active route. */
  predicate Watched(e: Entry) {
    e.expirationThread != 0 || (e.search == Searching && !(e.routeValid && e.seqValid))
  }

  /** All entries are watched, but for some slots. */
  ghost predicate WatchedBut(n: Node, lax: set<u8>) {
    forall s :: s in n.table && s !in lax ==> Watched(n.table[s])
  }

  /** The operation ends no search, and starts none for a route that is in use. */
  predicate Mild(n: Node, op: Operation) {
    !op.EndSearch? && (op.Ask? ==> !Active(n, op.dest))
  }

  lemma RunWatches(n: Node, id: nat, now: Time, lax: set<u8>)
    requires WatchedBut(n, lax) && Enabled(n, Wake(id), now)
    ensures WatchedBut(Run(n, id, now).node, lax)
  {
    hide AddMs, WakeAt, Plan, Timely, SaysSame, IndexKept, NoNewSearch, OnlySlot;
  }

  lemma OperationWatches(n: Node, op: Operation, now: Time, lax: set<u8>)
    requires WatchedBut(n, lax) && Allowed(n, op, now) && Mild(n, op)
    ensures WatchedBut(Do(n, op, now), lax)
  {
    if op.Thread? {
      RunWatches(n, op.id, now, lax);
    }
    hide Run, AddMs, WakeAt, ReverseLifetime, SeqCompare, Slot, Plan, Timely, SaysSame, SaysRoute, IndexKept,
      SearchKept, NoNewSearch, Grows, AddIfAbsent, StopSearch;
  }

  lemma {:induction false} OperationsWatch(n: Node, ops: seq<Operation>, now: Time)
    requires WatchedBut(n, {}) && AllAllowed(n, ops, now) && forall op <- ops :: !op.EndSearch? && !op.Ask?
    ensures WatchedBut(DoAll(n, ops, now), {})
    decreases |ops|
  {
    hide Do, Allowed, WatchedBut;
    if ops == [] {
    } else {
      OperationWatches(n, ops[0], now, {});
      OperationsWatch(Do(n, ops[0], now), ops[1..], now);
    }
  }

  lemma OutgoingWatches(n: Node, dest: u32, now: Time, junk: u32)
    requires WatchedBut(n, {})
    ensures WatchedBut(OutgoingMessage(n, dest, now, junk), {})
  {
    hide RefreshRoute, LoseRoute, SendRreq, WatchedBut, NextHopUsable;
    if dest != n.broadcastIp && dest != n.ip {
      if Active(n, dest) && NextHopUsable(n, EntryOf(n, dest)) {
        OperationWatches(n, Refresh(dest), now, {});
      } else if Active(n, dest) {
        LostIsNotActive(n, dest, now);
        OperationWatches(n, Operation.Lose(dest), now, {});
        OperationWatches(LoseRoute(n, dest, now), Ask(dest, junk), now, {});
      } else {
        OperationWatches(n, Ask(dest, junk), now, {});
      }
    }
  }

  lemma LostIsNotActive(n: Node, dest: u32, now: Time)
    requires HasEntry(n, dest)
    ensures !Active(LoseRoute(n, dest, now), dest)
  {
    hide AddMs, WakeAt, DropActive;
  }

  /** The end of a search leaves the entry without either, until the reply gives it a timer. */
  lemma StopLeavesOne(n: Node, m: Rrep)
    requires WatchedBut(n, {})
    ensures WatchedBut(StopSearch(n, m), {Slot(m.destIp)})
  {
  }

  lemma ForwardWatches(n: Node, sender: u32, m: Rrep, now: Time, junk: u32)
    requires WatchedBut(n, {Slot(m.destIp)})
    ensures WatchedBut(ForwardRoute(n, sender, m, now, junk), {})
  {
    hide AddMs, WakeAt, SeqCompare, Timely, SaysSame, SaysRoute, IndexKept, SearchKept;
  }

  /** An own address of 0 would turn a hello into an answer that sets no timer. */
  lemma ReplyWatches(n: Node, sender: u32, message: Rrep, now: Time, junk: u32, junk': u32)
    requires WatchedBut(n, {}) && n.ip != 0
    ensures WatchedBut(RecvRrep(n, sender, message, now, junk, junk').node, {})
  {
    hide WatchedBut, PreviousHop, ForwardRoute, Hello, ForwardReply;
    var m := message.(hopCount := NextHopCount(message.hopCount));
    var n1 := StopSearch(n, message);
    if m.srcIp == 0 {
      OperationWatches(n, Greet(sender, m, junk), now, {});
    } else {
      var n2 := PreviousHop(n1, sender, m.destIp, now, junk);
      var n3 := ForwardRoute(n2, sender, m, now, junk');
      StopLeavesOne(n, message);
      OperationWatches(n1, MeetSender(sender, m.destIp, junk), now, {Slot(m.destIp)});
      ForwardWatches(n2, sender, m, now, junk');
      OperationWatches(n3, Annotate(ForwardReply(n3, m).node), now, {});
    }
  }

  lemma EventWatches(n: Node, ev: Event, now: Time)
    requires WatchedBut(n, {}) && n.ip != 0 && Enabled(n, ev, now)
    ensures WatchedBut(Apply(n, ev, now).node, {})
  {
    hide WatchedBut, OperationsOf, OutgoingMessage, RecvRrep, RecvRreq, RecvRerr, ForwardedMessages,
      IncomingDataMessage, SendRreqOutcome, HelloInterval, Run, OnlySlot, Timely, SaysSame, SaysRoute, IndexKept,
      RoutesKept, Annotated;
    if ev.DataOut? {
      OutgoingWatches(n, ev.dest, now, ev.junk);
    } else if ev.ReceiveRrep? {
      ReplyWatches(n, ev.sender, ev.rrep, now, ev.junk, ev.junk');
    } else {
      hide Apply, Enabled;
      OperationsFrom(n, ev, now);
      EventIsOperations(n, ev, now);
      OperationsWatch(n, OperationsOf(n, ev, now), now);
    }
  }

  lemma {:induction false} RunsWatch(n: Node, run: seq<Step>)
    requires WatchedBut(n, {}) && n.ip != 0 && Legal(n, run)
    ensures WatchedBut(Final(n, run), {})
    decreases |run|
  {
    hide Apply, Enabled, WatchedBut;
    if run == [] {
    } else {
      EventWatches(n, run[0].event, run[0].now);
      ApplyKeepsAddress(n, run[0].event, run[0].now);
      RunsWatch(After(n, run[0]), run[1..]);
    }
  }

  /** The entry has a live timer of its own that wakes up at its deadline or later; then a valid entry becomes invalid
      and leaves the kernel, with the same timer set to DELETE_PERIOD later, and an invalid one is removed. */
  ghost predicate Runs(n: Node, s: u8, now: Time)
    requires s in n.table
  {
    var e := n.table[s];
    && e.expirationThread in n.threads && n.threads[e.expirationThread].Expiration?
    && n.threads[e.expirationThread].slot == s && n.threads[e.expirationThread].wake >= e.timeOut.Ns()
    && (Enabled(n, Wake(e.expirationThread), now) ==>
          var r := Apply(n, Wake(e.expirationThread), now).node;
          if e.routeValid
          then && s in r.table && !r.table[s].routeValid && e.destIp !in r.kernel
               && r.table[s].expirationThread == e.expirationThread && EndsIn(r, s, DELETE_PERIOD, now)
          else s !in r.table)
  }

  lemma TimerRuns(n: Node, s: u8, now: Time)
    requires Ledger(n) && Placed(n) && s in n.table && n.table[s].expirationThread != 0
    ensures Runs(n, s, now)
  {
    hide Apply, Enabled;
    var id := n.table[s].expirationThread;
    assert Backed(n, s) && Owned(n, id);
    if Enabled(n, Wake(id), now) {
      if n.table[s].routeValid {
        ValidEntryExpires(n, id, now);
      } else {
        RemovedOnlyWhenExpired(n, Wake(id), now, s);
      }
    }
  }

  /** In every reachable state of a node with an address, an entry has a timer that runs, or it has no active route
      and a live search thread: no entry is for ever. */
  lemma NoEntryIsForEver(ip: u32, broadcastIp: u32, run: seq<Step>, s: u8, now: Time)
    requires ip != 0 && Legal(Boot(ip, broadcastIp), run)
    requires s in Final(Boot(ip, broadcastIp), run).table
    ensures var n := Final(Boot(ip, broadcastIp), run);
            var e := n.table[s];
            || Runs(n, s, now)
            || (&& e.search == Searching && !(e.routeValid && e.seqValid)
                && e.messageSender in n.threads && Searches(n.threads[e.messageSender])
                && n.threads[e.messageSender].slot == s)
  {
    RunsWatch(Boot(ip, broadcastIp), run);
    StepsKeep(Boot(ip, broadcastIp), run);
    RunPlaces(Boot(ip, broadcastIp), run);
    hide Final, Legal, Runs;
    var n := Final(Boot(ip, broadcastIp), run);
    assert Watched(n.table[s]) && Backed(n, s);
    if n.table[s].expirationThread != 0 {
      TimerRuns(n, s, now);
    }
  }
}
