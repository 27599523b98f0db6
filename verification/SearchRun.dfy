/** The expanding-ring search over whole runs: what it sends and how it ends. */
module SearchRun {
  import opened Aodv
  import opened TimeFuncs
  import opened RoutingTable
  import opened SendMessages
  import opened RecvMessages
  import opened Callbacks
  import opened Operations
  import opened TableRefinement
  import opened Threads
  import opened Expiry

  // ---- The plan ----

  function TotalWait(plan: seq<Ring>): nat {
    if plan == [] then 0 else plan[0].waitMs + TotalWait(plan[1..])
  }

  lemma {:induction false} TotalWaitConcat(p: seq<Ring>, q: seq<Ring>)
    ensures TotalWait(p + q) == TotalWait(p) + TotalWait(q)
  {
    if p == [] {
      assert p + q == q;
    } else {
      TotalWaitConcat(p[1..], q);
      assert (p + q)[1..] == p[1..] + q;
    }
  }

  ghost predicate Growing(plan: seq<Ring>, least: nat, most: nat) {
    && (forall i :: 0 <= i < |plan| ==> least <= plan[i].ttl <= most)
    && (forall i, j :: 0 <= i < j < |plan| ==> plan[i].ttl <= plan[j].ttl)
  }

  lemma OddRings()
    ensures Rings(7) == [Ring(7, 720)] && TotalWait(Rings(7)) == 720
    ensures Rings(5) == [Ring(5, 560), Ring(7, 720)] && TotalWait(Rings(5)) == 1280
    ensures Rings(3) == [Ring(3, 400), Ring(5, 560), Ring(7, 720)] && TotalWait(Rings(3)) == 1680
    ensures Rings(1) == [Ring(1, 240), Ring(3, 400), Ring(5, 560), Ring(7, 720)] && TotalWait(Rings(1)) == 1920
  {
    assert Rings(9) == [];
    assert Rings(7)[1..] == Rings(9);
    assert Rings(5)[1..] == Rings(7);
    assert Rings(3)[1..] == Rings(5);
    assert Rings(1)[1..] == Rings(3);
  }

  lemma EvenRings()
    ensures Rings(6) == [Ring(6, 640)] && TotalWait(Rings(6)) == 640
    ensures Rings(4) == [Ring(4, 480), Ring(6, 640)] && TotalWait(Rings(4)) == 1120
  {
    assert Rings(8) == [];
    assert Rings(6)[1..] == Rings(8);
    assert Rings(4)[1..] == Rings(6);
  }

  lemma RetriesShape()
    ensures Retries(0, 1) == [Ring(35, 2800), Ring(35, 5600), Ring(35, 11200)]
    ensures TotalWait(Retries(0, 1)) == 19600
  {
    assert Retries(2, 4) == [Ring(35, 11200)];
    assert Retries(1, 2) == [Ring(35, 5600), Ring(35, 11200)];
    assert TotalWait([Ring(35, 11200)]) == 11200;
    assert TotalWait([Ring(35, 5600), Ring(35, 11200)]) == 16800;
    assert Retries(0, 1)[1..] == [Ring(35, 5600), Ring(35, 11200)];
  }

  /** Whatever the hop count known before: at most seven requests, TTLs that never shrink
      and stay within the network diameter, and at most 21520 ms of waiting. */
  lemma PlanShape(hopCount: u32)
    ensures 3 <= |Plan(hopCount)| <= 7
    ensures Growing(Plan(hopCount), 1, NET_DIAMETER)
    ensures TotalWait(Plan(hopCount)) <= 21520
    ensures hopCount == 0 ==> |Plan(hopCount)| == 7 && TotalWait(Plan(hopCount)) == 21520
  {
    var ttl := FirstTtl(hopCount);
    assert ttl == 1 || 3 <= ttl;
    OddRings();
    EvenRings();
    RetriesShape();
    TotalWaitConcat(Rings(ttl), Retries(0, 1));
    hide Rings, Retries, TotalWait;
    if ttl > TTL_THRESHOLD {
      NoRings(ttl);
    }
  }

  lemma NoRings(ttl: nat)
    requires ttl > TTL_THRESHOLD
    ensures Rings(ttl) == [] && TotalWait(Rings(ttl)) == 0
  {
  }

  // ---- The requests of a search ----

  /** The requests sent so far follow a plan and differ only in TTL and id; the ids grow. */
  ghost predicate Orderly(t: RoutingTable.Thread, rreqIds: u32) {
    t.RingSearch? ==>
      && (exists h: u32 :: t.plan == Plan(h))
      && |t.log| <= |t.plan|
      && (forall i :: 0 <= i < |t.log| ==> t.log[i].ttl == t.plan[i].ttl)
      && (forall i :: 0 <= i < |t.log| ==> t.request == t.log[i].(ttl := t.request.ttl, rreqId := t.request.rreqId))
      && (forall i :: 0 <= i < |t.log| ==> t.log[i].rreqId <= rreqIds)
      && (forall i, j :: 0 <= i < j < |t.log| ==> t.log[i].rreqId < t.log[j].rreqId)
  }

  ghost predicate AllOrderly(n: Node) {
    forall id :: id in n.threads ==> Orderly(n.threads[id], n.rreqIds)
  }

  /** One more request, with the next id and the TTL of the plan. */
  lemma NextOrderly(t: RoutingTable.Thread, t': RoutingTable.Thread, rreqIds: u32)
    requires t.RingSearch? && Orderly(t, rreqIds) && |t.log| < |t.plan| && rreqIds < WORD - 1
    requires t'.RingSearch? && t'.plan == t.plan && t'.log == t.log + [t'.request]
    requires t'.request == t.request.(rreqId := rreqIds + 1, ttl := t'.request.ttl)
    requires t'.request.ttl == t.plan[|t.log|].ttl
    ensures Orderly(t', rreqIds + 1)
  {
    hide Plan;
    forall i | 0 <= i < |t'.log|
      ensures t'.log[i].ttl == t'.plan[i].ttl && t'.log[i].rreqId <= rreqIds + 1
      ensures t'.request == t'.log[i].(ttl := t'.request.ttl, rreqId := t'.request.rreqId)
    {
      assert i < |t.log| ==> t'.log[i] == t.log[i];
    }
  }

  lemma SendRingOrderly(n: Node, id: nat, now: Time)
    requires AllOrderly(n) && n.rreqIds < WORD - 1
    requires id in n.threads && n.threads[id].RingSearch? && |n.threads[id].log| < |n.threads[id].plan|
    ensures AllOrderly(SendRing(n, id, now).node)
  {
    var t, r := n.threads[id], SendRing(n, id, now).node;
    assert Orderly(t, n.rreqIds);
    var h: u32 :| t.plan == Plan(h);
    PlanShape(h);
    NextOrderly(t, r.threads[id], n.rreqIds);
    hide Plan;
    forall j | j in r.threads
      ensures Orderly(r.threads[j], r.rreqIds)
    {
      assert j != id ==> Orderly(n.threads[j], n.rreqIds);
    }
  }

  lemma RunOrderly(n: Node, id: nat, now: Time)
    requires AllOrderly(n) && n.rreqIds < WORD - 1 && Enabled(n, Wake(id), now)
    ensures AllOrderly(Run(n, id, now).node)
  {
    if n.threads[id].RingSearch? && |n.threads[id].log| < |n.threads[id].plan| {
      SendRingOrderly(n, id, now);
    } else {
      hide Plan, SendRing, AddMs, WakeAt, DropActive;
      var t := Run(n, id, now).node.threads;
      forall i | i in t
        ensures Orderly(t[i], n.rreqIds)
      {
        if i in n.threads && t[i] == n.threads[i] {
          assert Orderly(n.threads[i], n.rreqIds);
        }
      }
    }
  }

  lemma OperationOrderly(n: Node, op: Operation, now: Time)
    requires AllOrderly(n) && n.rreqIds < WORD - 1 && Allowed(n, op, now)
    ensures AllOrderly(Do(n, op, now))
    ensures !op.Thread? ==> Do(n, op, now).rreqIds == n.rreqIds
  {
    hide PreviousHop, ReverseRoute, ForwardRoute, Hello, Invalidate, RefreshRoute, LoseRoute, SendRreq,
      SendRreqOutcome, Run, Plan;
    if op.Thread? {
      RunOrderly(n, op.id, now);
    } else {
      var r := Do(n, op, now);
      assert r.rreqIds == n.rreqIds && NoNewSearch(n, r);
    }
  }

  lemma {:induction false} OperationsOrderly(n: Node, ops: seq<Operation>, now: Time)
    requires AllOrderly(n) && n.rreqIds < WORD - 1 && AllAllowed(n, ops, now)
    requires |ops| <= 1 || forall op <- ops :: !op.Thread?
    ensures AllOrderly(DoAll(n, ops, now))
    decreases |ops|
  {
    hide Do, Allowed;
    if ops == [] {
    } else {
      OperationOrderly(n, ops[0], now);
      if |ops| > 1 {
        OperationsOrderly(Do(n, ops[0], now), ops[1..], now);
      } else {
        assert DoAll(n, ops, now) == Do(n, ops[0], now);
      }
    }
  }

  /** The id counter has not rolled over before any step of the run. */
  predicate NoRollover(n: Node, run: seq<Step>)
    requires Legal(n, run)
    decreases |run|
  {
    run != [] ==> n.rreqIds < WORD - 1 && NoRollover(After(n, run[0]), run[1..])
  }

  lemma {:induction false} StepsOrderly(n: Node, run: seq<Step>)
    requires AllOrderly(n) && Legal(n, run) && NoRollover(n, run)
    ensures AllOrderly(Final(n, run))
    decreases |run|
  {
    hide Apply, Enabled, OperationsOf, AllOrderly;
    if run == [] {
    } else {
      EventIsOperations(n, run[0].event, run[0].now);
      OperationsFrom(n, run[0].event, run[0].now);
      FewThreads(n, run[0].event, run[0].now);
      OperationsOrderly(n, OperationsOf(n, run[0].event, run[0].now), run[0].now);
      StepsOrderly(After(n, run[0]), run[1..]);
    }
  }

  /** In every reachable state before the id counter rolls over, a search has sent at most seven
      requests, with one source number, strictly growing ids and TTLs that never shrink. */
  lemma SearchSends(ip: u32, broadcastIp: u32, run: seq<Step>, id: nat)
    requires Legal(Boot(ip, broadcastIp), run) && NoRollover(Boot(ip, broadcastIp), run)
    requires id in Final(Boot(ip, broadcastIp), run).threads
    requires Final(Boot(ip, broadcastIp), run).threads[id].RingSearch?
    ensures var log := Final(Boot(ip, broadcastIp), run).threads[id].log;
            && |log| <= 7
            && forall i, j :: 0 <= i < j < |log| ==>
                 log[i].srcSeq == log[j].srcSeq && log[i].rreqId < log[j].rreqId && log[i].ttl <= log[j].ttl
  {
    StepsOrderly(Boot(ip, broadcastIp), run);
    var t := Final(Boot(ip, broadcastIp), run).threads[id];
    hide Final, Legal, NoRollover;
    assert Orderly(t, Final(Boot(ip, broadcastIp), run).rreqIds);
    var h: u32 :| t.plan == Plan(h);
    PlanShape(h);
    hide Plan;
  }

  // ---- How a search ends ----

  /** An answer to this node's request for the destination in slot s. */
  predicate Answers(n: Node, ev: Event, s: u8) {
    ev.ReceiveRrep? && ev.rrep.srcIp == n.ip && Slot(ev.rrep.destIp) == s
  }

  lemma OperationGoesOn(n: Node, op: Operation, now: Time, s: u8)
    requires Allowed(n, op, now) && s in n.table && n.table[s].search == Searching
    requires !op.Thread? && (op.EndSearch? ==> n.ip != op.rrep.srcIp || Slot(op.rrep.destIp) != s)
    ensures var r := Do(n, op, now); s in r.table && SearchGoesOn(n.table[s], r.table[s]) && r.ip == n.ip
  {
    hide PreviousHop, ReverseRoute, ForwardRoute, Hello, Invalidate, RefreshRoute, LoseRoute, SendRreq,
      SendRreqOutcome, Run;
  }

  lemma {:induction false} OperationsGoOn(n: Node, ops: seq<Operation>, now: Time, s: u8)
    requires AllAllowed(n, ops, now) && s in n.table && n.table[s].search == Searching
    requires forall op <- ops :: !op.Thread? && (op.EndSearch? ==> n.ip != op.rrep.srcIp || Slot(op.rrep.destIp) != s)
    ensures var r := DoAll(n, ops, now); s in r.table && SearchGoesOn(n.table[s], r.table[s])
    decreases |ops|
  {
    hide Do, Allowed;
    if ops == [] {
    } else {
      OperationGoesOn(n, ops[0], now, s);
      OperationsGoOn(Do(n, ops[0], now), ops[1..], now, s);
    }
  }

  lemma AnswerStops(n: Node, ev: Event, now: Time, s: u8)
    requires Enabled(n, ev, now) && s in n.table && Answers(n, ev, s)
    ensures var r := Apply(n, ev, now).node; s in r.table && r.table[s].search == Found && r.table[s].messageSender == 0
  {
    hide PreviousHop, ForwardRoute, Hello, ForwardReply;
    assert StopSearch(n, ev.rrep).table[s].search == Found;
  }

  lemma WakeGoesOn(n: Node, wake: nat, now: Time, s: u8)
    requires Ledger(n) && Placed(n) && Enabled(n, Wake(wake), now) && s in n.table && n.table[s].search == Searching
    ensures var r, id := Apply(n, Wake(wake), now).node, n.table[s].messageSender;
            if Removes(n, Wake(wake), s) then s !in r.table
            else if wake == id && n.threads[id].RingSearch? && |n.threads[id].log| >= |n.threads[id].plan| then
              s in r.table && r.table[s].search == Failed && r.table[s].messageSender == 0
            else s in r.table && SearchGoesOn(n.table[s], r.table[s])
  {
    assert Owned(n, wake);
    assert Backed(n, s);
    hide BeginSearch, SendRing, AddMs, WakeAt, DropActive;
    if n.threads[wake].RingSearch? && |n.threads[wake].log| < |n.threads[wake].plan| {
      assert SendRing(n, wake, now).node.table == n.table by { SendRingTable(n, wake, now); }
    } else if n.threads[wake].SearchStart? {
      assert BeginSearch(n, wake, now).table == n.table by { BeginTable(n, wake, now); }
    }
  }

  lemma SendRingTable(n: Node, id: nat, now: Time)
    requires id in n.threads && n.threads[id].RingSearch? && |n.threads[id].log| < |n.threads[id].plan|
    ensures SendRing(n, id, now).node.table == n.table
  {
  }

  lemma BeginTable(n: Node, id: nat, now: Time)
    requires id in n.threads && n.threads[id].SearchStart? && n.threads[id].slot in n.table
    ensures BeginSearch(n, id, now).table == n.table
  {
  }

  ghost predicate NoSearcher(n: Node, s: u8) {
    forall id :: id in n.threads && n.threads[id].slot == s ==> !Searches(n.threads[id])
  }

  /** No search, no thread. */
  lemma NoneWithoutSearch(n: Node, s: u8)
    requires Ledger(n) && (s in n.table ==> n.table[s].search != Searching)
    ensures NoSearcher(n, s)
  {
    assert Backed(n, s);
    forall id | id in n.threads && n.threads[id].slot == s
      ensures !Searches(n.threads[id])
    {
      assert Owned(n, id);
    }
  }

  /** A search thread names an entry that is searching, under its own handle. */
  lemma ThreadSearches(n: Node, id: nat)
    requires Ledger(n) && id in n.threads && Searches(n.threads[id])
    ensures var s := n.threads[id].slot;
            s in n.table && n.table[s].search == Searching && n.table[s].messageSender == id
  {
    assert Owned(n, id);
    assert Backed(n, n.threads[id].slot);
  }

  /** An entry that goes on searching keeps its thread. */
  lemma ThreadGoesOn(n: Node, r: Node, id: nat)
    requires Ledger(n) && Ledger(r) && id in n.threads && Searches(n.threads[id])
    requires var s := n.threads[id].slot; s in n.table && s in r.table && SearchGoesOn(n.table[s], r.table[s])
    ensures r.table[n.threads[id].slot].search == Searching && id in r.threads && Searches(r.threads[id])
  {
    ThreadSearches(n, id);
    assert Backed(r, n.threads[id].slot);
  }

  /** Neither an answer nor a wake-up: the search goes on. */
  lemma OtherEventsGoOn(n: Node, ev: Event, now: Time, s: u8)
    requires Enabled(n, ev, now) && s in n.table && n.table[s].search == Searching
    requires !ev.Wake? && !Answers(n, ev, s)
    ensures var r := Apply(n, ev, now).node; s in r.table && SearchGoesOn(n.table[s], r.table[s])
  {
    hide Apply, OperationsOf, SearchGoesOn;
    OperationsFrom(n, ev, now);
    EventIsOperations(n, ev, now);
    OperationsGoOn(n, OperationsOf(n, ev, now), now, s);
  }

  /** What a wake-up does to a search: it ends only with its entry or its plan. */
  lemma SearchEndsByWake(n: Node, wake: nat, now: Time, id: nat)
    requires Ledger(n) && Placed(n) && Enabled(n, Wake(wake), now) && id in n.threads && Searches(n.threads[id])
    ensures var s := n.threads[id].slot;
            var r := Apply(n, Wake(wake), now).node;
            if Removes(n, Wake(wake), s) then s !in r.table && NoSearcher(r, s)
            else if wake == id && n.threads[id].RingSearch? && |n.threads[id].log| >= |n.threads[id].plan| then
              s in r.table && r.table[s].search == Failed && NoSearcher(r, s)
            else s in r.table && r.table[s].search == Searching && id in r.threads && Searches(r.threads[id])
  {
    hide Apply, Ledger, Removes, SearchGoesOn;
    var s, r := n.threads[id].slot, Apply(n, Wake(wake), now).node;
    EventKeeps(n, Wake(wake), now);
    ThreadSearches(n, id);
    WakeGoesOn(n, wake, now, s);
    if Removes(n, Wake(wake), s) || (s in r.table && r.table[s].search == Failed) {
      NoneWithoutSearch(r, s);
    }
    if s in r.table && SearchGoesOn(n.table[s], r.table[s]) {
      ThreadGoesOn(n, r, id);
    }
  }

  /** A live search thread goes on until its plan is used up and it fails, an answer arrives
      and it is cancelled, or its entry expires; it ends in no other way. */
  lemma SearchEnds(n: Node, ev: Event, now: Time, id: nat)
    requires Ledger(n) && Placed(n) && Enabled(n, ev, now) && id in n.threads && Searches(n.threads[id])
    ensures var s := n.threads[id].slot;
            var r := Apply(n, ev, now).node;
            if Answers(n, ev, s) then s in r.table && r.table[s].search == Found && NoSearcher(r, s)
            else if Removes(n, ev, s) then s !in r.table && NoSearcher(r, s)
            else if ev == Wake(id) && n.threads[id].RingSearch? && |n.threads[id].log| >= |n.threads[id].plan| then
              s in r.table && r.table[s].search == Failed && NoSearcher(r, s)
            else s in r.table && r.table[s].search == Searching && id in r.threads && Searches(r.threads[id])
  {
    hide Apply, Ledger, SearchGoesOn;
    var s, r := n.threads[id].slot, Apply(n, ev, now).node;
    ThreadSearches(n, id);
    if ev.Wake? {
      SearchEndsByWake(n, ev.id, now, id);
    } else {
      EventKeeps(n, ev, now);
      if Answers(n, ev, s) {
        AnswerStops(n, ev, now, s);
        NoneWithoutSearch(r, s);
      } else {
        OtherEventsGoOn(n, ev, now, s);
        ThreadGoesOn(n, r, id);
      }
    }
  }

  // ---- A search nobody answers ----

  /** The turns of a search thread left alone, each when the wait of the one before is over. */
  function Turns(n: Node, id: nat, now: Time): (turns: seq<Step>)
    requires id in n.threads && n.threads[id].RingSearch?
    ensures turns != []
    decreases |n.threads[id].plan| - |n.threads[id].log|
  {
    var t := n.threads[id];
    [Step(Wake(id), now)] +
    if |t.log| >= |t.plan| then []
    else Turns(SendRing(n, id, now).node, id, AddMs(now, Wrap(t.plan[|t.log|].waitMs)))
  }

  /** The turns take the waits still planned, no more and no less. */
  lemma {:induction false} TurnsTakeTheWaits(n: Node, id: nat, now: Time)
    requires id in n.threads && n.threads[id].RingSearch? && |n.threads[id].log| <= |n.threads[id].plan|
    requires forall ring <- n.threads[id].plan :: ring.waitMs < WORD
    ensures var t, turns := n.threads[id], Turns(n, id, now);
            && |turns| == |t.plan| - |t.log| + 1
            && turns[|turns| - 1].now.Ns() == now.Ns() + TotalWait(t.plan[|t.log|..]) * MILLION
    decreases |n.threads[id].plan| - |n.threads[id].log|
  {
    hide AddMs, SendRing, Wrap;
    var t, turns := n.threads[id], Turns(n, id, now);
    if |t.log| < |t.plan| {
      var wait := t.plan[|t.log|].waitMs;
      var n1, later := SendRing(n, id, now).node, AddMs(now, Wrap(wait));
      SendRingThread(n, id, now);
      TurnsTakeTheWaits(n1, id, later);
      assert turns == [Step(Wake(id), now)] + Turns(n1, id, later);
      assert t.plan[|t.log|..] == [t.plan[|t.log|]] + t.plan[|t.log| + 1..];
      assert TotalWait(t.plan[|t.log|..]) == wait + TotalWait(t.plan[|t.log| + 1..]);
      assert later.Ns() == now.Ns() + wait * MILLION by { WrapSame(wait); }
    } else {
      assert t.plan[|t.log|..] == [];
    }
  }

  lemma SendRingThread(n: Node, id: nat, now: Time)
    requires id in n.threads && n.threads[id].RingSearch? && |n.threads[id].log| < |n.threads[id].plan|
    ensures var t, r := n.threads[id], SendRing(n, id, now).node;
            && id in r.threads && r.threads[id].RingSearch?
            && r.threads[id].plan == t.plan && |r.threads[id].log| == |t.log| + 1
  {
  }

  lemma WrapSame(ms: nat)
    requires ms < WORD
    ensures Wrap(ms) == ms
  {
  }

  /** The turns are a legal run, with the effect of the whole thread, and end in failure. */
  lemma {:induction false} TurnsAreARun(n: Node, id: nat, now: Time)
    requires id in n.threads && n.threads[id].RingSearch? && |n.threads[id].log| <= |n.threads[id].plan|
    requires Enabled(n, Wake(id), now)
    requires forall ring <- n.threads[id].plan :: ring.waitMs < WORD
    ensures var t, turns, r := n.threads[id], Turns(n, id, now), Undisturbed(n, id, now).node;
            && Legal(n, turns) && Final(n, turns) == r
            && r.table.Keys == n.table.Keys && t.slot in r.table && r.table[t.slot].search == Failed
    decreases |n.threads[id].plan| - |n.threads[id].log|
  {
    hide SendRing, FailSearch, AddMs, Apply, Enabled, Run, RoutesKept, NoNewSearch, Timely;
    var t, turns := n.threads[id], Turns(n, id, now);
    assert n.threads[id].slot in n.table by { InTable(n, id, now); }
    assert turns[0] == Step(Wake(id), now);
    if |t.log| < |t.plan| {
      var n1, later := SendRing(n, id, now).node, AddMs(now, Wrap(t.plan[|t.log|].waitMs));
      TurnGoesOn(n, id, now);
      TurnsAreARun(n1, id, later);
      assert turns[1..] == Turns(n1, id, later);
    } else {
      LastTurn(n, id, now);
      assert turns[1..] == [];
    }
  }

  lemma InTable(n: Node, id: nat, now: Time)
    requires Enabled(n, Wake(id), now)
    ensures n.threads[id].slot in n.table
  {
  }

  lemma TurnGoesOn(n: Node, id: nat, now: Time)
    requires Enabled(n, Wake(id), now) && n.threads[id].RingSearch? && |n.threads[id].log| < |n.threads[id].plan|
    requires n.threads[id].plan[|n.threads[id].log|].waitMs < WORD
    ensures var t, n1 := n.threads[id], SendRing(n, id, now).node;
            && After(n, Step(Wake(id), now)) == n1
            && n1.table == n.table && id in n1.threads && n1.threads[id].RingSearch?
            && n1.threads[id].slot == t.slot && n1.threads[id].plan == t.plan && |n1.threads[id].log| == |t.log| + 1
            && Enabled(n1, Wake(id), AddMs(now, Wrap(t.plan[|t.log|].waitMs)))
  {
    hide AddMs;
  }

  lemma LastTurn(n: Node, id: nat, now: Time)
    requires Enabled(n, Wake(id), now) && n.threads[id].RingSearch? && |n.threads[id].log| == |n.threads[id].plan|
    ensures After(n, Step(Wake(id), now)) == FailSearch(n, id, now) == Undisturbed(n, id, now).node
    ensures var r := FailSearch(n, id, now);
            r.table.Keys == n.table.Keys && r.table[n.threads[id].slot].search == Failed
  {
  }

  /** A search that nothing interrupts sends a request for every ring of its plan, three to seven of them, and marks
      its entry as failed once it has waited for each, 21520 ms at most. */
  lemma UnansweredSearchFails(n: Node, id: nat, now: Time)
    requires Enabled(n, Wake(id), now) && n.threads[id].SearchStart?
    ensures var s := n.threads[id].slot;
            var n1 := BeginSearch(n, id, now);
            var turns := [Step(Wake(id), now)] + Turns(n1, id, now);
            && Legal(n, turns) && s in Final(n, turns).table && Final(n, turns).table[s].search == Failed
            && 3 <= |turns| - 2 == |Plan(n.table[s].hopCount)| <= 7
            && now.Ns() <= turns[|turns| - 1].now.Ns() <= now.Ns() + 21520 * MILLION
  {
    hide SendRing, FailSearch, AddMs, Plan, TotalWait, Turns;
    var hopCount := n.table[n.threads[id].slot].hopCount;
    var n1 := BeginSearch(n, id, now);
    var turns := [Step(Wake(id), now)] + Turns(n1, id, now);
    PlanShape(hopCount);
    PlanWaits(hopCount);
    TurnsAreARun(n1, id, now);
    TurnsTakeTheWaits(n1, id, now);
    assert turns[1..] == Turns(n1, id, now);
    assert Plan(hopCount)[0..] == Plan(hopCount);
    assert After(n, turns[0]) == n1;
  }

  lemma {:induction false} WaitOfEach(plan: seq<Ring>, i: nat)
    requires i < |plan|
    ensures plan[i].waitMs <= TotalWait(plan)
  {
    if i == 0 {
    } else {
      WaitOfEach(plan[1..], i - 1);
    }
  }

  lemma PlanWaits(hopCount: u32)
    ensures forall ring <- Plan(hopCount) :: ring.waitMs < WORD
  {
    PlanShape(hopCount);
    hide Plan, TotalWait;
    forall i | 0 <= i < |Plan(hopCount)|
      ensures Plan(hopCount)[i].waitMs < WORD
    {
      WaitOfEach(Plan(hopCount), i);
    }
  }
}
