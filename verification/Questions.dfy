/** What the requests of a search ask: they carry what was recorded of the destination when the search began. */
module Questions {
  import opened Aodv
  import opened Messages
  import opened TimeFuncs
  import opened RoutingTable
  import opened SendMessages
  import opened RecvMessages
  import opened Callbacks
  import opened Operations
  import opened TableRefinement
  import opened Threads
  import opened SearchRun
  import SeenRequests

  // ---- The rings for a known hop count ----

  /** The i-th of k growing rings from a TTL. */
  ghost predicate RingAt(plan: seq<Ring>, i: nat, ttl: nat) {
    i < |plan| && plan[i] == Ring(ttl, 80 * (ttl + 2))
  }

  /** The growing rings start two beyond the hop count known, or at 1 without one, grow by 2 and end at 7; three
      rings for the whole network follow, each waiting twice as long as the one before. */
  lemma PlanIs(hopCount: u32)
    ensures var plan, first := Plan(hopCount), if hopCount == 0 then 1 else hopCount + 2;
            && |plan| >= 3 && plan[|plan| - 3..] == [Ring(35, 2800), Ring(35, 5600), Ring(35, 11200)]
            && (forall i: nat :: i < |plan| - 3 ==> RingAt(plan, i, first + 2 * i) && first + 2 * i <= 7)
            && first + 2 * (|plan| - 3) > 7
  {
    var first := if hopCount == 0 then 1 else hopCount + 2;
    assert FirstTtl(hopCount) == first;
    RingsAre(first);
    assert Retries(2, 4) == [Ring(35, 11200)];
    assert Retries(1, 2) == [Ring(35, 5600), Ring(35, 11200)];
    assert Retries(0, 1) == [Ring(35, 2800), Ring(35, 5600), Ring(35, 11200)];
    hide Rings, Retries;
  }

  lemma {:induction false} RingsAre(ttl: nat)
    ensures forall i: nat :: i < |Rings(ttl)| ==> RingAt(Rings(ttl), i, ttl + 2 * i) && ttl + 2 * i <= 7
    ensures ttl + 2 * |Rings(ttl)| > 7
    decreases 8 - ttl
  {
    if ttl <= TTL_THRESHOLD {
      RingsAre(ttl + 2);
      forall i: nat | i < |Rings(ttl)|
        ensures RingAt(Rings(ttl), i, ttl + 2 * i) && ttl + 2 * i <= 7
      {
        if i > 0 {
          assert RingAt(Rings(ttl + 2), i - 1, ttl + 2 + 2 * (i - 1));
        }
      }
    }
  }

  // ---- The question ----

  /** The request asks for the entry's destination in the name of the node, with its number; it knows the number of the
      destination if the entry had a valid one, and then exactly that. */
  predicate Question(m: Rreq, e: Entry, ip: u32, number: u32) {
    && m.destIp == e.destIp && m.srcIp == ip && m.srcSeq == number && m.hopCount == 0
    && m.flags == (if e.seqValid then 4 else 5) && (if e.seqValid then m.destSeq == e.destSeq else m.destSeq == 0)
  }

  /** Whatever thread id has sent and is about to send, while it lives, asks this. */
  ghost predicate AsksAs(n: Node, id: nat, e: Entry, number: u32) {
    && id <= n.lastThread
    && (id in n.threads ==>
          var t := n.threads[id];
          && t.RingSearch? && t.plan == Plan(e.hopCount) && Question(t.request, e, n.ip, number)
          && forall q <- t.log :: Question(q, e, n.ip, number))
  }

  /** A thread that lives is the same, or new under a new handle. */
  ghost predicate ThreadsStay(n: Node, r: Node) {
    && r.lastThread >= n.lastThread && r.ip == n.ip
    && forall id :: id in r.threads && id <= n.lastThread ==> id in n.threads && r.threads[id] == n.threads[id]
  }

  lemma OperationKeepsThreads(n: Node, op: Operation, now: Time)
    requires Allowed(n, op, now) && !op.Thread?
    ensures ThreadsStay(n, Do(n, op, now))
  {
    hide AddMs, WakeAt, ReverseLifetime, SeqCompare, Slot, Timely, SaysSame, SaysRoute, IndexKept, SearchKept, Grows,
      NoNewSearch, AddIfAbsent, MoreMarks, OnlySlot, RoutesKept, Improves, Accepts;
  }

  lemma {:induction false} OperationsKeepThreads(n: Node, ops: seq<Operation>, now: Time)
    requires AllAllowed(n, ops, now) && forall op <- ops :: !op.Thread?
    ensures ThreadsStay(n, DoAll(n, ops, now))
    decreases |ops|
  {
    hide Do, Allowed;
    if ops == [] {
    } else {
      OperationKeepsThreads(n, ops[0], now);
      OperationsKeepThreads(Do(n, ops[0], now), ops[1..], now);
    }
  }

  lemma OtherWakeKeepsThread(n: Node, wake: nat, now: Time, id: nat)
    requires Enabled(n, Wake(wake), now) && id <= n.lastThread && wake != id
    ensures var r := Run(n, wake, now).node;
            && r.lastThread >= n.lastThread && r.ip == n.ip
            && (id in r.threads ==> id in n.threads && r.threads[id] == n.threads[id])
  {
    hide AddMs, WakeAt, Plan, Timely, SaysSame, IndexKept, RoutesKept, NoNewSearch, Slot;
  }

  /** A turn of the thread asks the question again, with the TTL of its plan, and sends it to all. */
  lemma TurnAsks(n: Node, id: nat, now: Time, e: Entry, number: u32)
    requires Enabled(n, Wake(id), now) && AsksAs(n, id, e, number)
    ensures AsksAs(Apply(n, Wake(id), now).node, id, e, number)
    ensures var t, outs := n.threads[id], Apply(n, Wake(id), now).outs;
            if |t.log| >= |t.plan| then outs == []
            else
              && |outs| == 1 && outs[0].Broadcast? && outs[0].message.RreqMessage?
              && Question(outs[0].message.rreq, e, n.ip, number)
              && outs[0].message.rreq.ttl == Plan(e.hopCount)[|t.log|].ttl
  {
    PlanShape(e.hopCount);
    hide Plan, AddMs, WakeAt, Timely, RoutesKept, NoNewSearch;
  }

  lemma EventAsks(n: Node, ev: Event, now: Time, id: nat, e: Entry, number: u32)
    requires Enabled(n, ev, now) && AsksAs(n, id, e, number)
    ensures AsksAs(Apply(n, ev, now).node, id, e, number)
  {
    if ev == Wake(id) {
      TurnAsks(n, id, now, e, number);
    } else {
      OtherEventKeepsThread(n, ev, now, id);
      hide Apply, Enabled, Plan, Question;
    }
  }

  lemma OtherEventKeepsThread(n: Node, ev: Event, now: Time, id: nat)
    requires Enabled(n, ev, now) && id <= n.lastThread && ev != Wake(id)
    ensures var r := Apply(n, ev, now).node;
            && r.lastThread >= n.lastThread && r.ip == n.ip
            && (id in r.threads ==> id in n.threads && r.threads[id] == n.threads[id])
  {
    if ev.Wake? {
      OtherWakeKeepsThread(n, ev.id, now, id);
      hide Run;
    } else {
      hide Apply, Enabled, OperationsOf, From;
      OperationsFrom(n, ev, now);
      forall op | op in OperationsOf(n, ev, now)
        ensures !op.Thread?
      {
        NoThreadFrom(op, ev);
      }
      EventIsOperations(n, ev, now);
      OperationsKeepThreads(n, OperationsOf(n, ev, now), now);
    }
  }

  lemma NoThreadFrom(op: Operation, ev: Event)
    requires From(op, ev) && !ev.Wake?
    ensures !op.Thread?
  {
  }

  lemma {:induction false} RunAsks(n: Node, run: seq<Step>, id: nat, e: Entry, number: u32)
    requires Legal(n, run) && AsksAs(n, id, e, number)
    ensures AsksAs(Final(n, run), id, e, number)
    decreases |run|
  {
    hide Apply, Enabled, AsksAs;
    if run == [] {
    } else {
      EventAsks(n, run[0].event, run[0].now, id, e, number);
      RunAsks(After(n, run[0]), run[1..], id, e, number);
    }
  }

  /** The thread begins: the node takes its next number, and the thread is going to ask with what the entry says. */
  lemma BeginningAsks(n: Node, id: nat, now: Time)
    requires Ledger(n) && Enabled(n, Wake(id), now) && n.threads[id].SearchStart?
    ensures var r := Apply(n, Wake(id), now);
            && r.outs == [] && r.node.sequenceNum == Incr(n.sequenceNum) && r.node.table == n.table && r.node.ip == n.ip
            && id in r.node.threads && r.node.threads[id].log == []
            && AsksAs(r.node, id, n.table[n.threads[id].slot], Incr(n.sequenceNum))
  {
    assert Owned(n, id);
    hide Plan;
  }

  /** The state in which a search begins, and a run after that. */
  predicate Begins(n: Node, id: nat, now: Time, during: seq<Step>) {
    && Enabled(n, Wake(id), now) && n.threads[id].SearchStart?
    && Legal(After(n, Step(Wake(id), now)), during)
  }

  /** In every reachable state of a search every request it has sent, and the one it sends next, asks with what was
      recorded of the destination when it began: with its address, with its number if that was valid, else with
      none known, in the name of the node and with the number the node took for the search. */
  lemma SearchAsksWhatIsRecorded(ip: u32, broadcastIp: u32, before: seq<Step>, id: nat, now: Time, during: seq<Step>,
                                 later: Time)
    requires Legal(Boot(ip, broadcastIp), before) && Begins(Final(Boot(ip, broadcastIp), before), id, now, during)
    ensures var n := Final(Boot(ip, broadcastIp), before);
            var e, number := n.table[n.threads[id].slot], Incr(n.sequenceNum);
            var r := Final(After(n, Step(Wake(id), now)), during);
            id in r.threads ==>
              && r.threads[id].RingSearch? && (forall q <- r.threads[id].log :: Question(q, e, ip, number))
              && (Enabled(r, Wake(id), later) ==>
                    forall o <- Apply(r, Wake(id), later).outs ::
                      o.Broadcast? && o.message.RreqMessage? && Question(o.message.rreq, e, ip, number))
  {
    StepsKeep(Boot(ip, broadcastIp), before);
    SeenRequests.RunKeepsAddress(Boot(ip, broadcastIp), before);
    hide Legal, Ledger, Placed, Boot;
    SearchAsks(Final(Boot(ip, broadcastIp), before), id, now, during, later);
  }

  lemma SearchAsks(n: Node, id: nat, now: Time, during: seq<Step>, later: Time)
    requires Ledger(n) && Begins(n, id, now, during)
    ensures var e, number := n.table[n.threads[id].slot], Incr(n.sequenceNum);
            var r := Final(After(n, Step(Wake(id), now)), during);
            && AsksAs(r, id, e, number) && r.ip == n.ip
            && (id in r.threads && Enabled(r, Wake(id), later) ==>
                  forall o <- Apply(r, Wake(id), later).outs ::
                    o.Broadcast? && o.message.RreqMessage? && Question(o.message.rreq, e, n.ip, number))
  {
    var s, n1 := n.threads[id].slot, After(n, Step(Wake(id), now));
    var e, number := n.table[s], Incr(n.sequenceNum);
    BeginningAsks(n, id, now);
    hide Apply, Enabled, Ledger, Question, Legal, Final, Plan;
    RunAsks(n1, during, id, e, number);
    SeenRequests.RunKeepsAddress(n1, during);
    if id in Final(n1, during).threads && Enabled(Final(n1, during), Wake(id), later) {
      TurnAsks(Final(n1, during), id, later, e, number);
    }
  }
}
