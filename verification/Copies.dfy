/** A destination answers the copies of one request only over ways that are no longer than those before. */
module Copies {
  import opened Aodv
  import opened Messages
  import opened TimeFuncs
  import opened RoutingTable
  import opened SendMessages
  import opened RecvMessages
  import opened Callbacks
  import opened Operations
  import opened TableRefinement
  import opened Threads
  import opened Expiry
  import opened Network
  import opened RequestHandling
  import opened SeenRequests

  /** Slot s has the id recorded, for some time yet, with a way of so many hops at most. */
  ghost predicate Holds(n: Node, s: u8, id: u32, until: int, hops: nat) {
    && s in n.table && n.table[s].hopCount <= hops
    && exists wake: int :: until <= wake && Remembers(n, s, id, wake)
  }

  /** The event says nothing new about slot s: no other request, no reply and no hello. */
  predicate OnlyCopies(ev: Event, s: u8, id: u32) {
    && (ev.ReceiveRreq? && Slot(ev.rreq.srcIp) == s ==> ev.rreq.rreqId == id)
    && (ev.ReceiveRrep? ==> Slot(ev.rrep.destIp) != s)
  }

  /** The operation makes no route in slot s. */
  predicate Elsewhere(op: Operation, s: u8) {
    && (op.MakeReverse? ==> Slot(op.rreq.srcIp) != s)
    && (op.MakeForward? || op.Greet? ==> Slot(op.rrep.destIp) != s)
  }

  lemma OperationKeepsHops(n: Node, op: Operation, now: Time, s: u8)
    requires Allowed(n, op, now) && s in n.table && Elsewhere(op, s)
    ensures var r := Do(n, op, now); s in r.table ==> r.table[s].hopCount == n.table[s].hopCount
  {
    hide PreviousHop, ReverseRoute, ForwardRoute, Hello, StopSearch, Invalidate, RefreshRoute, LoseRoute, SendRreq,
      SendRreqOutcome, ExpirationFunc, BeginSearch, SendRing, FailSearch, RreqIdFunc, Slot, Timely, IndexKept;
  }

  lemma {:induction false} OperationsKeepHops(n: Node, ops: seq<Operation>, now: Time, s: u8)
    requires AllAllowed(n, ops, now) && s in n.table && (forall op <- ops :: Elsewhere(op, s) && !op.Thread?)
    ensures var r := DoAll(n, ops, now); s in r.table && r.table[s].hopCount == n.table[s].hopCount
    decreases |ops|
  {
    hide Do, Allowed, Elsewhere;
    if ops == [] {
    } else {
      OperationKeepsHops(n, ops[0], now, s);
      OperationKeepsEntries(n, ops[0], now);
      OperationsKeepHops(Do(n, ops[0], now), ops[1..], now, s);
    }
  }

  /** An event that is no request of the originator in slot s and no reply about it leaves the recorded way. */
  lemma EventKeepsHops(n: Node, ev: Event, now: Time, s: u8)
    requires Enabled(n, ev, now) && s in n.table && s in Apply(n, ev, now).node.table
    requires ev.ReceiveRreq? ==> Slot(ev.rreq.srcIp) != s
    requires ev.ReceiveRrep? ==> Slot(ev.rrep.destIp) != s
    ensures Apply(n, ev, now).node.table[s].hopCount == n.table[s].hopCount
  {
    if ev.Wake? {
      OperationKeepsHops(n, Operation.Thread(ev.id), now, s);
      hide Run;
    } else {
      hide Apply, Enabled, OperationsOf, Slot, Elsewhere, From;
      OperationsFrom(n, ev, now);
      forall op | op in OperationsOf(n, ev, now)
        ensures Elsewhere(op, s) && !op.Thread?
      {
        ComesFromElsewhere(op, ev, s);
      }
      EventIsOperations(n, ev, now);
      OperationsKeepHops(n, OperationsOf(n, ev, now), now, s);
    }
  }

  lemma ComesFromElsewhere(op: Operation, ev: Event, s: u8)
    requires From(op, ev) && !ev.Wake?
    requires ev.ReceiveRreq? ==> Slot(ev.rreq.srcIp) != s
    requires ev.ReceiveRrep? ==> Slot(ev.rrep.destIp) != s
    ensures Elsewhere(op, s) && !op.Thread?
  {
    hide Slot;
  }

  /** A copy at its destination: it is answered only when it has come a shorter way than is recorded. */
  lemma CopyHolds(n: Node, sender: u32, m: Rreq, now: Time, junk: u32, until: int, hops: nat)
    requires Ledger(n) && HasEntry(n, m.srcIp) && Holds(n, Slot(m.srcIp), m.rreqId, until, hops)
    requires until <= now.Ns() + PATH_DISCOVERY_TIME * MILLION
    ensures Holds(RecvRreq(n, sender, m, now, junk).node, Slot(m.srcIp), m.rreqId, until, hops)
  {
    hide RecvRreq, PreviousHop, Ledger, Remembers;
    var s := Slot(m.srcIp);
    var wake: int :| until <= wake && Remembers(n, s, m.rreqId, wake);
    IdIs(n, s, m.rreqId, wake);
    if Reaches(n, sender, m, junk) {
      ReachesIsTaken(n, sender, m, now, junk);
      OriginatorIsRecorded(n, sender, m, now, junk);
      TakingRemembers(n, sender, m, now, junk);
    } else {
      Dropped(n, sender, m, now, junk);
      DropIsMeeting(n, sender, m, now, junk);
      MeetingLeaves(n, sender, m.srcIp, now, junk, s);
      StillIs(n, RecvRreq(n, sender, m, now, junk).node, s, m.rreqId, wake);
    }
  }

  lemma IdIs(n: Node, s: u8, id: u32, wake: int)
    requires Remembers(n, s, id, wake)
    ensures s in n.table && n.table[s].rreqId == id
  {
  }

  lemma StillIs(n: Node, r: Node, s: u8, id: u32, wake: int)
    requires Remembers(n, s, id, wake) && StillRemembers(n, r, s)
    ensures Remembers(r, s, id, wake)
  {
  }

  lemma DropIsMeeting(n: Node, sender: u32, m: Rreq, now: Time, junk: u32)
    requires !Reaches(n, sender, m, junk)
    ensures RecvRreq(n, sender, m, now, junk).node == PreviousHop(n, sender, m.srcIp, now, junk)
  {
    ReachesIsTaken(n, sender, m, now, junk);
    hide PreviousHop, ReverseRoute, Answer, AlreadySeen, Reaches;
  }

  lemma EventHolds(n: Node, ev: Event, now: Time, s: u8, id: u32, until: int, hops: nat)
    requires Ledger(n) && Placed(n) && Enabled(n, ev, now) && Holds(n, s, id, until, hops)
    requires now.Ns() < until <= now.Ns() + PATH_DISCOVERY_TIME * MILLION
    requires !Removes(n, ev, s) && OnlyCopies(ev, s, id)
    ensures var r := Apply(n, ev, now).node; Ledger(r) && Placed(r) && Holds(r, s, id, until, hops)
  {
    hide Ledger, Placed, Removes, Apply, Slot, Remembers, RecvRreq;
    Threads.EventKeeps(n, ev, now);
    if ev.ReceiveRreq? && Slot(ev.rreq.srcIp) == s {
      assert Apply(n, ev, now) == RecvRreq(n, ev.sender, ev.rreq, now, ev.junk) by { RequestApplies(n, ev, now); }
      CopyHolds(n, ev.sender, ev.rreq, now, ev.junk, until, hops);
    } else {
      var wake: int :| until <= wake && Remembers(n, s, id, wake);
      EventRemembers(n, ev, now, s, id, wake);
      IdIs(Apply(n, ev, now).node, s, id, wake);
      EventKeepsHops(n, ev, now, s);
    }
  }

  lemma RequestApplies(n: Node, ev: Event, now: Time)
    requires Enabled(n, ev, now) && ev.ReceiveRreq?
    ensures Apply(n, ev, now) == RecvRreq(n, ev.sender, ev.rreq, now, ev.junk)
  {
    hide RecvRreq;
  }

  // ---- Runs ----

  /** Every step of the run lies within PATH_DISCOVERY_TIME of the start, removes no entry from slot s and brings
      nothing about it but copies. */
  predicate AllCopies(n: Node, run: seq<Step>, s: u8, id: u32, start: Time)
    requires Legal(n, run)
    decreases |run|
  {
    run != [] ==>
      && start.Ns() <= run[0].now.Ns() < start.Ns() + PATH_DISCOVERY_TIME * MILLION
      && !Removes(n, run[0].event, s) && OnlyCopies(run[0].event, s, id)
      && AllCopies(After(n, run[0]), run[1..], s, id, start)
  }

  lemma {:induction false} RunHolds(n: Node, run: seq<Step>, s: u8, id: u32, start: Time, hops: nat)
    requires Ledger(n) && Placed(n) && Legal(n, run) && AllCopies(n, run, s, id, start)
    requires Holds(n, s, id, start.Ns() + PATH_DISCOVERY_TIME * MILLION, hops)
    ensures Holds(Final(n, run), s, id, start.Ns() + PATH_DISCOVERY_TIME * MILLION, hops)
    decreases |run|
  {
    hide Apply, Enabled, Ledger, Placed, Holds, Removes, OnlyCopies;
    if run == [] {
    } else {
      EventHolds(n, run[0].event, run[0].now, s, id, start.Ns() + PATH_DISCOVERY_TIME * MILLION, hops);
      RunHolds(After(n, run[0]), run[1..], s, id, start, hops);
    }
  }

  /** A destination takes a request whose originator it knows no greater number of, and goes through a run. */
  predicate TakenThen(n: Node, first: Step, during: seq<Step>) {
    && Enabled(n, first.event, first.now) && first.event.ReceiveRreq?
    && var m := first.event.rreq;
       && m.destIp == n.ip && Reaches(n, first.event.sender, m, first.event.junk)
       && (HasEntry(n, m.srcIp) && EntryOf(n, m.srcIp).seqValid ==> EntryOf(n, m.srcIp).destSeq <= m.srcSeq)
       && Legal(After(n, first), during) && AllCopies(After(n, first), during, Slot(m.srcIp), m.rreqId, first.now)
  }

  /** From the start of a destination: within PATH_DISCOVERY_TIME after it has answered a request, and unless the
      originator's entry is removed or other news of it arrive, a further copy is answered if and only if it has
      come fewer hops than the way then recorded, and so only if it has come no more hops than the copy answered
      first. */
  lemma CopiesAreNotLonger(ip: u32, broadcastIp: u32, before: seq<Step>, first: Step, during: seq<Step>, sender: u32,
                           copy: Rreq, now: Time, junk: u32)
    requires Legal(Boot(ip, broadcastIp), before) && TakenThen(Final(Boot(ip, broadcastIp), before), first, during)
    requires copy.srcIp == first.event.rreq.srcIp && copy.rreqId == first.event.rreq.rreqId && copy.destIp == ip
    ensures var n := Final(After(Final(Boot(ip, broadcastIp), before), first), during);
            && HasEntry(n, copy.srcIp) && EntryOf(n, copy.srcIp).rreqId == copy.rreqId
            && var answered := RecvRreq(n, sender, copy, now, junk).outs != [];
               && (answered <==> copy.hopCount < EntryOf(n, copy.srcIp).hopCount)
               && (answered ==> copy.hopCount <= first.event.rreq.hopCount)
  {
    StartsKept(ip, broadcastIp);
    StepsKeep(Boot(ip, broadcastIp), before);
    RunKeepsAddress(Boot(ip, broadcastIp), before);
    hide Legal, Ledger, Placed, Boot, Final;
    AnsweredThen(Final(Boot(ip, broadcastIp), before), first, during, sender, copy, now, junk);
  }

  lemma AnsweredThen(n: Node, first: Step, during: seq<Step>, sender: u32, copy: Rreq, now: Time, junk: u32)
    requires Ledger(n) && Placed(n) && TakenThen(n, first, during)
    requires copy.srcIp == first.event.rreq.srcIp && copy.rreqId == first.event.rreq.rreqId && copy.destIp == n.ip
    ensures var r := Final(After(n, first), during);
            && HasEntry(r, copy.srcIp) && EntryOf(r, copy.srcIp).rreqId == copy.rreqId
            && var answered := RecvRreq(r, sender, copy, now, junk).outs != [];
               && (answered <==> copy.hopCount < EntryOf(r, copy.srcIp).hopCount)
               && (answered ==> copy.hopCount <= first.event.rreq.hopCount)
  {
    hide Final, Legal, AllCopies, Ledger, Placed, RecvRreq, Remembers;
    var m, n1 := first.event.rreq, After(n, first);
    var s, until := Slot(m.srcIp), first.now.Ns() + PATH_DISCOVERY_TIME * MILLION;
    Threads.EventKeeps(n, first.event, first.now);
    ApplyKeepsAddress(n, first.event, first.now);
    ReachesIsTaken(n, first.event.sender, m, first.now, first.event.junk);
    TakingRemembers(n, first.event.sender, m, first.now, first.event.junk);
    OriginatorIsRecorded(n, first.event.sender, m, first.now, first.event.junk);
    assert Holds(n1, s, m.rreqId, until, m.hopCount + 1);
    RunHolds(n1, during, s, m.rreqId, first.now, m.hopCount + 1);
    RunKeepsAddress(n1, during);
    var r := Final(n1, during);
    var wake: int :| until <= wake && Remembers(r, s, m.rreqId, wake);
    IdIs(r, s, m.rreqId, wake);
    DestinationRepeats(r, sender, copy, now, junk);
  }

  // ---- Forgetting ----

  /** When the time of a remembered id is over its timer forgets it, and nothing else; then a copy of the request is
      taken again, whatever way it has come. */
  lemma IdIsForgotten(n: Node, s: u8, id: u32, until: int, now: Time)
    requires Ledger(n) && Remembers(n, s, id, until) && until <= now.Ns()
    ensures var h := n.table[s].rreqIdThread;
            && Enabled(n, Wake(h), now)
            && var r := Apply(n, Wake(h), now);
               && r.outs == []
               && r.node == n.(table := n.table[s := n.table[s].(rreqId := 0, rreqIdThread := 0)],
                               threads := n.threads - {h})
               && forall sender: u32, m: Rreq, junk: u32 ::
                    Slot(m.srcIp) == s && m.srcIp != n.ip && m.rreqId != 0 ==> Reaches(r.node, sender, m, junk)
  {
    hide RoutesKept, Timely;
  }
}
