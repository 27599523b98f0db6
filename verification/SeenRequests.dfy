/** A node reacts to one request of an originator once: repeats are dropped while its id is remembered. */
module SeenRequests {
  import opened Aodv
  import opened Messages
  import opened TimeFuncs
  import opened RoutingTable
  import opened SendMessages
  import opened RecvMessages
  import opened Callbacks
  import opened Operations
  import opened TableRefinement
  import opened Threads
  import opened Expiry
  import opened Lifetime
  import opened Network

  /** The request id in slot s and the timer that will forget it. */
  predicate Remembers(n: Node, s: u8, id: u32, until: int) {
    && s in n.table && n.table[s].rreqId == id && n.table[s].rreqIdThread in n.threads
    && n.threads[n.table[s].rreqIdThread] == IdExpiry(s, until)
  }

  /** The remembered id of slot s is the same, and so is its timer. */
  predicate StillRemembers(n: Node, r: Node, s: u8)
    requires s in n.table
  {
    && s in r.table && r.table[s].rreqId == n.table[s].rreqId && r.table[s].rreqIdThread == n.table[s].rreqIdThread
    && var h := n.table[s].rreqIdThread; h in n.threads ==> h in r.threads && r.threads[h] == n.threads[h]
  }

  // ---- One operation ----

  /** A timer for the entry of slot t: another one than the timer of a request id. */
  lemma TimerLeaves(n: Node, t: u8, e: Entry, ms: u32, now: Time, s: u8)
    requires Ledger(n) && s in n.table && SameHandles(n, t, e) && (t in n.table ==> Grows(n.table[t], e))
    requires t == s ==> e.rreqId == n.table[s].rreqId
    ensures StillRemembers(n, SetExpirationTimer(n, t, e, ms, now), s)
  {
    hide AddMs, WakeAt, Grows, OnlySlot;
    Known(n, t);
    assert Backed(n, s);
  }

  lemma MeetingLeaves(n: Node, sender: u32, about: u32, now: Time, junk: u32, s: u8)
    requires Ledger(n) && s in n.table
    ensures StillRemembers(n, PreviousHop(n, sender, about, now, junk), s)
  {
    hide SetExpirationTimer, AddMs;
    var found := CreateOrGet(n, sender, 0, false, sender, 0, ACTIVE_ROUTE_TIMEOUT, now, junk);
    var n1 := AddRoute(n, sender);
    SameThreadsKeep(n, n1);
    TimerLeaves(n1, Slot(sender), Neighbour(found, about, !HasEntry(n, sender), now), 0, now, s);
  }

  lemma ReverseLeaves(n: Node, sender: u32, m: Rreq, now: Time, s: u8)
    requires Ledger(n) && s in n.table && s != Slot(m.srcIp)
    ensures StillRemembers(n, ReverseRoute(n, sender, m, now), s)
  {
    hide SetExpirationTimer, AddMs, ReverseLifetime, WakeAt, Improves, Timely, SaysRoute, SaysSame, IndexKept,
      NoNewSearch;
    var t := Slot(m.srcIp);
    var n1 := Originator(n, sender, m, now);
    var found := CreateOrGet(n, m.srcIp, m.srcSeq, true, sender, m.hopCount, 0, now, m.rreqId);
    Known(n, t);
    assert Backed(n, s);
    IdTimerKeeps(n, t, found.(rreqId := m.rreqId), now);
    var e := UpdateReverse(n1.table[t], !HasEntry(n, m.srcIp), sender, m).(routeValid := true);
    var n2 := AddRoute(n1, e.destIp);
    SameThreadsKeep(n1, n2);
    TimerLeaves(n2, t, e, ReverseLifetime(now, e.timeOut, m.hopCount), now, s);
  }

  lemma ForwardLeaves(n: Node, sender: u32, m: Rrep, now: Time, junk: u32, s: u8)
    requires Ledger(n) && s in n.table
    ensures StillRemembers(n, ForwardRoute(n, sender, m, now, junk), s)
  {
    hide SetExpirationTimer, AddMs, Accepts;
    var found := CreateOrGet(n, m.destIp, m.destSeq, true, sender, m.hopCount, m.lifetime, now, junk);
    var n1 := AddRoute(n, m.destIp);
    SameThreadsKeep(n, n1);
    TimerLeaves(n1, Slot(m.destIp), UpdateForward(found, !HasEntry(n, m.destIp), sender, m), m.lifetime, now, s);
  }

  lemma HelloLeaves(n: Node, sender: u32, m: Rrep, now: Time, junk: u32, s: u8)
    requires Ledger(n) && s in n.table
    ensures StillRemembers(n, Hello(n, sender, m, now, junk), s)
  {
    hide SetExpirationTimer, AddMs, SeqCompare;
    var e := CreateOrGet(n, m.destIp, m.destSeq, true, sender, m.hopCount, m.lifetime, now, junk);
    TimerLeaves(n, Slot(m.destIp), e.(seqValid := true, destSeq := m.destSeq), m.lifetime, now, s);
  }

  lemma BreakLeaves(n: Node, pair: Pair, now: Time, s: u8)
    requires Ledger(n) && HasEntry(n, pair.destIp) && s in n.table
    ensures StillRemembers(n, Invalidate(n, pair, now), s)
  {
    hide SetExpirationTimer;
    var e := EntryOf(n, pair.destIp).(destSeq := pair.destSeq, routeValid := false);
    var n1 := DeleteRoute(n, e.destIp);
    SameThreadsKeep(n, n1);
    TimerLeaves(n1, Slot(pair.destIp), e, DELETE_PERIOD, now, s);
  }

  lemma LossLeaves(n: Node, dest: u32, now: Time, s: u8)
    requires Ledger(n) && HasEntry(n, dest) && s in n.table
    ensures StillRemembers(n, LoseRoute(n, dest, now), s)
  {
    hide SetExpirationTimer;
    var e := EntryOf(n, dest).(routeValid := false);
    var n1 := DropActive(DeleteRoute(n, e.destIp), e);
    SameThreadsKeep(n, n1);
    TimerLeaves(n1, Slot(dest), e, DELETE_PERIOD, now, s);
  }

  /** Starting, ending and failing a search changes only expirations and search threads. */
  lemma SearchLeaves(n: Node, op: Operation, now: Time, s: u8)
    requires Ledger(n) && s in n.table && Allowed(n, op, now)
    requires op.EndSearch? || op.Ask? || op.Conclude? || op.Refresh?
    ensures StillRemembers(n, Do(n, op, now), s)
  {
    hide SetExpirationTimer, AddMs, WakeAt, Timely, SaysSame, SaysRoute, IndexKept, RoutesKept, NoNewSearch;
    Known(n, s);
    match op
    case EndSearch(m) => Known(n, Slot(m.destIp));
    case Ask(dest, _) => Known(n, Slot(dest));
    case Conclude(dest) => TimerLeaves(n, Slot(dest), EntryOf(n, dest), 500, now, s);
    case Refresh(ip) => TimerLeaves(n, Slot(ip), EntryOf(n, ip), ACTIVE_ROUTE_TIMEOUT, now, s);
  }

  lemma ForgettingLeaves(n: Node, id: nat, s: u8)
    requires Ledger(n) && s in n.table && id in n.threads && n.threads[id].IdExpiry? && n.threads[id].slot in n.table
    requires n.threads[id].slot != s
    ensures StillRemembers(n, RreqIdFunc(n, id), s)
  {
    Known(n, s);
  }

  lemma ExpirationLeaves(n: Node, id: nat, now: Time, s: u8)
    requires Ledger(n) && Placed(n) && s in n.table && Enabled(n, Wake(id), now) && n.threads[id].Expiration?
    requires !Removes(n, Wake(id), s)
    ensures StillRemembers(n, ExpirationFunc(n, id, now), s)
  {
    hide AddMs, WakeAt, Timely, OnlySlot, SaysSame, IndexKept;
    Known(n, s);
    Known(n, n.threads[id].slot);
    assert Owned(n, id) && Slot(n.table[n.threads[id].slot].destIp) == n.threads[id].slot;
  }

  /** A turn of a search thread that lives on. */
  lemma TurnLeaves(n: Node, r: Node, id: nat, s: u8)
    requires Ledger(n) && s in n.table && id in n.threads && Searches(n.threads[id])
    requires r.table == n.table && id in r.threads && r.threads == n.threads[id := r.threads[id]]
    ensures StillRemembers(n, r, s)
  {
    Known(n, s);
  }

  lemma FailureLeaves(n: Node, id: nat, now: Time, s: u8)
    requires Ledger(n) && s in n.table && id in n.threads && n.threads[id].RingSearch? && n.threads[id].slot in n.table
    ensures StillRemembers(n, FailSearch(n, id, now), s)
  {
    hide AddMs, WakeAt, Timely, RoutesKept, NoNewSearch, OnlySlot;
    Known(n, s);
    Known(n, n.threads[id].slot);
  }

  /** A thread leaves the remembered ids alone, unless it forgets this one or removes its entry. */
  lemma ThreadLeaves(n: Node, id: nat, now: Time, s: u8)
    requires Ledger(n) && Placed(n) && s in n.table && Enabled(n, Wake(id), now)
    requires !Removes(n, Wake(id), s) && !(n.threads[id].IdExpiry? && n.threads[id].slot == s)
    ensures StillRemembers(n, Run(n, id, now).node, s)
  {
    hide ExpirationFunc, FailSearch, Plan, Timely, RoutesKept, StillRemembers;
    assert Backed(n, s) && Owned(n, id);
    match n.threads[id]
    case Expiration(_, _) => ExpirationLeaves(n, id, now, s);
    case IdExpiry(_, _) => ForgettingLeaves(n, id, s);
    case SearchStart(_) => TurnLeaves(n, BeginSearch(n, id, now), id, s);
    case RingSearch(_, _, _, plan, log) =>
      if |log| < |plan| {
        TurnLeaves(n, SendRing(n, id, now).node, id, s);
      } else {
        FailureLeaves(n, id, now, s);
      }
  }

  lemma OperationLeaves(n: Node, op: Operation, now: Time, s: u8)
    requires Ledger(n) && Placed(n) && s in n.table && Allowed(n, op, now) && !op.Thread?
    requires op.MakeReverse? ==> Slot(op.rreq.srcIp) != s
    ensures StillRemembers(n, Do(n, op, now), s)
  {
    hide PreviousHop, ReverseRoute, ForwardRoute, Hello, StopSearch, Invalidate, RefreshRoute, LoseRoute, SendRreq,
      SendRreqOutcome, StillRemembers;
    match op
    case MeetSender(sender, about, junk) => MeetingLeaves(n, sender, about, now, junk, s);
    case MakeReverse(sender, m) => ReverseLeaves(n, sender, m, now, s);
    case MakeForward(sender, m, junk) => ForwardLeaves(n, sender, m, now, junk, s);
    case Greet(sender, m, junk) => HelloLeaves(n, sender, m, now, junk, s);
    case Annotate(r) => AnnotatedLeaves(n, r, s);
    case Break(pair) => BreakLeaves(n, pair, now, s);
    case Lose(dest) => LossLeaves(n, dest, now, s);
    case _ => SearchLeaves(n, op, now, s);
  }

  lemma AnnotatedLeaves(n: Node, r: Node, s: u8)
    requires Annotated(n, r) && s in n.table
    ensures StillRemembers(n, r, s)
  {
  }

  // ---- Events ----

  lemma {:induction false} OperationsLeave(n: Node, ops: seq<Operation>, now: Time, s: u8)
    requires Ledger(n) && Placed(n) && s in n.table && AllAllowed(n, ops, now)
    requires forall op <- ops :: !op.Thread? && (op.MakeReverse? ==> Slot(op.rreq.srcIp) != s)
    ensures StillRemembers(n, DoAll(n, ops, now), s)
    decreases |ops|
  {
    hide Do, Allowed, Ledger, Placed;
    if ops == [] {
    } else {
      OperationLeaves(n, ops[0], now, s);
      OperationKeeps(n, ops[0], now);
      OperationPlaces(n, ops[0], now, {});
      OperationsLeave(Do(n, ops[0], now), ops[1..], now, s);
    }
  }

  /** The event is no other request of the originator in slot s, and none for this node. */
  predicate NoNews(ip: u32, ev: Event, s: u8, id: u32) {
    ev.ReceiveRreq? && Slot(ev.rreq.srcIp) == s ==> ev.rreq.rreqId == id && ev.rreq.destIp != ip
  }

  /** A repeat ends where the sender has been met. */
  lemma RepeatIsSeen(n: Node, sender: u32, m: Rreq, now: Time, junk: u32)
    requires Ledger(n) && HasEntry(n, m.srcIp) && EntryOf(n, m.srcIp).rreqId == m.rreqId && m.destIp != n.ip
    ensures AlreadySeen(PreviousHop(n, sender, m.srcIp, now, junk), m)
    ensures RecvRreq(n, sender, m, now, junk) == Effect(PreviousHop(n, sender, m.srcIp, now, junk), [])
    ensures RreqOperations(n, sender, m, now, junk) == [MeetSender(sender, m.srcIp, junk)]
  {
    MeetingLeaves(n, sender, m.srcIp, now, junk, Slot(m.srcIp));
    hide PreviousHop, Answer, ReverseRoute;
  }

  lemma NoNewReverse(n: Node, ev: Event, now: Time, s: u8, id: u32)
    requires Ledger(n) && Enabled(n, ev, now) && !ev.Wake? && NoNews(n.ip, ev, s, id)
    requires s in n.table && n.table[s].rreqId == id
    ensures forall op <- OperationsOf(n, ev, now) :: !op.Thread? && (op.MakeReverse? ==> Slot(op.rreq.srcIp) != s)
  {
    hide RreqOperations, RrepOperations, RerrOperations, ForwardedMessages, Ledger, OperationsOf;
    OperationsFrom(n, ev, now);
    if ev.ReceiveRreq? && Slot(ev.rreq.srcIp) == s {
      RepeatIsSeen(n, ev.sender, ev.rreq, now, ev.junk);
      assert OperationsOf(n, ev, now) == [MeetSender(ev.sender, ev.rreq.srcIp, ev.junk)] by {
        OperationsOfRequest(n, ev, now);
      }
    }
  }

  lemma OperationsOfRequest(n: Node, ev: Event, now: Time)
    requires Enabled(n, ev, now) && ev.ReceiveRreq?
    ensures OperationsOf(n, ev, now) == RreqOperations(n, ev.sender, ev.rreq, now, ev.junk)
  {
    hide RreqOperations;
  }

  /** Before its time is over a request id is forgotten only with its entry or for another request. */
  lemma EventRemembers(n: Node, ev: Event, now: Time, s: u8, id: u32, until: int)
    requires Ledger(n) && Placed(n) && Enabled(n, ev, now) && Remembers(n, s, id, until)
    requires now.Ns() < until && !Removes(n, ev, s) && NoNews(n.ip, ev, s, id)
    ensures Remembers(Apply(n, ev, now).node, s, id, until)
    ensures Ledger(Apply(n, ev, now).node) && Placed(Apply(n, ev, now).node)
  {
    hide RecvRreq, RecvRrep, RecvRerr, IncomingDataMessage, ForwardedMessages, OutgoingMessage, SendRreqOutcome, Run,
      OperationsOf;
    Threads.EventKeeps(n, ev, now);
    if ev.Wake? {
      assert Owned(n, ev.id);
      ThreadLeaves(n, ev.id, now, s);
    } else {
      NoNewReverse(n, ev, now, s, id);
      EventIsOperations(n, ev, now);
      OperationsLeave(n, OperationsOf(n, ev, now), now, s);
    }
  }

  // ---- Runs ----

  /** Every step of the run comes before the time is over, removes no entry from slot s and brings no news. */
  predicate Quiet(n: Node, run: seq<Step>, s: u8, id: u32, until: int)
    requires Legal(n, run)
    decreases |run|
  {
    run != [] ==>
      && run[0].now.Ns() < until && !Removes(n, run[0].event, s) && NoNews(n.ip, run[0].event, s, id)
      && Quiet(After(n, run[0]), run[1..], s, id, until)
  }

  lemma {:induction false} RunRemembers(n: Node, run: seq<Step>, s: u8, id: u32, until: int)
    requires Ledger(n) && Placed(n) && Legal(n, run) && Remembers(n, s, id, until) && Quiet(n, run, s, id, until)
    ensures Ledger(Final(n, run)) && Remembers(Final(n, run), s, id, until)
    decreases |run|
  {
    hide Apply, Enabled, Ledger, Placed, Remembers, NoNews, Removes;
    if run == [] {
    } else {
      EventRemembers(n, run[0].event, run[0].now, s, id, until);
      RunRemembers(After(n, run[0]), run[1..], s, id, until);
    }
  }

  /** A request that is taken is remembered for PATH_DISCOVERY_TIME. */
  lemma TakingRemembers(n: Node, sender: u32, m: Rreq, now: Time, junk: u32)
    requires Ledger(n) && Taken(n, sender, m, now, junk)
    ensures Remembers(RecvRreq(n, sender, m, now, junk).node, Slot(m.srcIp), m.rreqId,
                      now.Ns() + PATH_DISCOVERY_TIME * MILLION)
  {
    hide PreviousHop, ReverseRoute, Answer, AlreadySeen, Remembers;
    var n1 := PreviousHop(n, sender, m.srcIp, now, junk);
    var m' := m.(hopCount := NextHopCount(m.hopCount));
    PreviousHopKeeps(n, sender, m.srcIp, now, junk);
    ReverseRemembers(n1, sender, m', now);
    var n2 := ReverseRoute(n1, sender, m', now);
    AnnotatedRemembers(n2, Answer(n2, sender, m', now).node, Slot(m.srcIp), m.rreqId,
                       now.Ns() + PATH_DISCOVERY_TIME * MILLION);
  }

  lemma ReverseRemembers(n: Node, sender: u32, m: Rreq, now: Time)
    requires Ledger(n)
    ensures Remembers(ReverseRoute(n, sender, m, now), Slot(m.srcIp), m.rreqId,
                      now.Ns() + PATH_DISCOVERY_TIME * MILLION)
  {
    hide SetExpirationTimer, AddMs, ReverseLifetime, Improves;
    var s := Slot(m.srcIp);
    var found := CreateOrGet(n, m.srcIp, m.srcSeq, true, sender, m.hopCount, 0, now, m.rreqId);
    var n1 := Originator(n, sender, m, now);
    IdTimerKeeps(n, s, found.(rreqId := m.rreqId), now);
    var e := UpdateReverse(n1.table[s], !HasEntry(n, m.srcIp), sender, m).(routeValid := true);
    var n2 := AddRoute(n1, e.destIp);
    SameThreadsKeep(n1, n2);
    TimerLeaves(n2, s, e, ReverseLifetime(now, e.timeOut, m.hopCount), now, s);
  }

  lemma AnnotatedRemembers(n: Node, r: Node, s: u8, id: u32, until: int)
    requires Annotated(n, r) && Remembers(n, s, id, until)
    ensures Remembers(r, s, id, until)
  {
  }

  /** A node takes a request, goes through a quiet run, and receives a copy of the request of which it is not
      the destination. */
  predicate Repeats(n: Node, first: Step, during: seq<Step>, again: Step) {
    && Enabled(n, first.event, first.now) && first.event.ReceiveRreq? && again.event.ReceiveRreq?
    && var m, copy := first.event.rreq, again.event.rreq;
       && Taken(n, first.event.sender, m, first.now, first.event.junk)
       && copy.srcIp == m.srcIp && copy.rreqId == m.rreqId && copy.destIp != n.ip
       && QuietAfter(After(n, first), during, m, first.now.Ns() + PATH_DISCOVERY_TIME * MILLION)
  }

  predicate QuietAfter(n: Node, during: seq<Step>, m: Rreq, until: int) {
    Legal(n, during) && Quiet(n, during, Slot(m.srcIp), m.rreqId, until)
  }

  /** What the copy does at the end. */
  function Repeated(n: Node, during: seq<Step>, again: Step): Effect
    requires Legal(n, during) && again.event.ReceiveRreq?
  {
    RecvRreq(Final(n, during), again.event.sender, again.event.rreq, again.now, again.event.junk)
  }

  lemma {:induction false} RunKeepsAddress(n: Node, run: seq<Step>)
    requires Legal(n, run)
    ensures Final(n, run).ip == n.ip
    decreases |run|
  {
    hide Apply, Enabled;
    if run == [] {
    } else {
      ApplyKeepsAddress(n, run[0].event, run[0].now);
      RunKeepsAddress(After(n, run[0]), run[1..]);
    }
  }

  /** In every run: within PATH_DISCOVERY_TIME after a request has been taken, and unless its originator's entry is
      removed or another of its requests arrives first, a node that is not the destination answers no copy of it,
      from whichever neighbour and however short its way, and keeps the route the first one made. */
  lemma RepeatsAreDropped(ip: u32, broadcastIp: u32, before: seq<Step>, first: Step, during: seq<Step>, again: Step)
    requires Legal(Boot(ip, broadcastIp), before) && Repeats(Final(Boot(ip, broadcastIp), before), first, during, again)
    ensures var r, S := After(Final(Boot(ip, broadcastIp), before), first), first.event.rreq.srcIp;
            var f, e := Final(r, during), Repeated(r, during, again);
            && e.outs == [] && HasEntry(f, S) && HasEntry(e.node, S) && SaysSame(EntryOf(f, S), EntryOf(e.node, S))
  {
    StartsKept(ip, broadcastIp);
    StepsKeep(Boot(ip, broadcastIp), before);
    hide Legal, Ledger, Placed;
    RepeatIsDropped(Final(Boot(ip, broadcastIp), before), first, during, again);
  }

  lemma RepeatIsDropped(n: Node, first: Step, during: seq<Step>, again: Step)
    requires Ledger(n) && Placed(n) && Repeats(n, first, during, again)
    ensures var r, S := After(n, first), first.event.rreq.srcIp;
            var f, e := Final(r, during), Repeated(r, during, again);
            && e.outs == [] && HasEntry(f, S) && HasEntry(e.node, S) && SaysSame(EntryOf(f, S), EntryOf(e.node, S))
  {
    hide Final, Legal, Quiet, Ledger, Placed, Taken, RecvRreq, PreviousHop, Enabled;
    var m, r := first.event.rreq, After(n, first);
    Threads.EventKeeps(n, first.event, first.now);
    ApplyKeepsAddress(n, first.event, first.now);
    TakingRemembers(n, first.event.sender, m, first.now, first.event.junk);
    RunRemembers(r, during, Slot(m.srcIp), m.rreqId, first.now.Ns() + PATH_DISCOVERY_TIME * MILLION);
    RunKeepsAddress(r, during);
    RepeatChangesNothing(Final(r, during), again.event.sender, again.event.rreq, again.now, again.event.junk);
  }

  lemma StartsKept(ip: u32, broadcastIp: u32)
    ensures Ledger(Boot(ip, broadcastIp)) && Placed(Boot(ip, broadcastIp))
  {
  }

  lemma RepeatChangesNothing(n: Node, sender: u32, m: Rreq, now: Time, junk: u32)
    requires Ledger(n) && HasEntry(n, m.srcIp) && EntryOf(n, m.srcIp).rreqId == m.rreqId && m.destIp != n.ip
    ensures var e := RecvRreq(n, sender, m, now, junk);
            e.outs == [] && HasEntry(e.node, m.srcIp) && SaysSame(EntryOf(n, m.srcIp), EntryOf(e.node, m.srcIp))
  {
    hide PreviousHop, RecvRreq, Ledger;
    RepeatIsSeen(n, sender, m, now, junk);
  }
}
