/** Reverse routes are free of loops, as long as no entry is deleted, no reply or error is received and no hello
    brings a new number for a route through another node. */
module LoopFreedom {
  import opened Aodv
  import opened Messages
  import opened TimeFuncs
  import opened RoutingTable
  import opened SendMessages
  import opened RecvMessages
  import opened Callbacks
  import opened Operations
  import opened TableRefinement
  import opened Expiry
  import opened Freshness
  import opened Network
  import opened Flood

  // ---- One node ----

  /** The route is the one made by the request of the event. */
  predicate MadeBy(n: Node, e: Entry, ev: Event, s: u8) {
    && ev.ReceiveRreq? && s == Slot(ev.rreq.srcIp) && ev.rreq.srcIp != n.ip
    && SaysRoute(e, ev.rreq.srcSeq, true, ev.sender, NextHopCount(ev.rreq.hopCount))
  }

  /** How the route in slot s can differ after some operations of an event. */
  ghost predicate Explained(n: Node, r: Node, ev: Event, s: u8) {
    s in r.table ==>
      || (s in n.table && SaysSame(n.table[s], r.table[s]))
      || (s !in n.table && !r.table[s].seqValid)
      || MadeBy(n, r.table[s], ev, s)
  }

  predicate Ours(op: Operation, ev: Event, ip: u32) {
    && From(op, ev) && !op.MakeForward? && !op.Greet? && !op.Break?
    && (op.MakeReverse? ==> ev.rreq.srcIp != ip)
  }

  lemma OperationExplained(n: Node, op: Operation, now: Time, ev: Event, s: u8)
    requires Allowed(n, op, now) && Ours(op, ev, n.ip)
    ensures Explained(n, Do(n, op, now), ev, s)
  {
    hide PreviousHop, ReverseRoute, StopSearch, RefreshRoute, LoseRoute, SendRreq, SendRreqOutcome, ExpirationFunc,
      BeginSearch, SendRing, RreqIdFunc, FailSearch, AddMs;
  }

  lemma OperationKeepsAddress(n: Node, op: Operation, now: Time)
    requires Allowed(n, op, now) && !op.Thread?
    ensures Do(n, op, now).ip == n.ip
  {
    hide PreviousHop, ReverseRoute, ForwardRoute, Hello, Invalidate, RefreshRoute, LoseRoute, SendRreq,
      SendRreqOutcome;
  }

  lemma {:induction false} OperationsExplained(n: Node, ops: seq<Operation>, now: Time, ev: Event, s: u8)
    requires AllAllowed(n, ops, now) && (forall op <- ops :: Ours(op, ev, n.ip))
    requires |ops| <= 1 || forall op <- ops :: !op.Thread?
    ensures Explained(n, DoAll(n, ops, now), ev, s)
    decreases |ops|
  {
    hide Do, Allowed, From;
    if ops == [] {
    } else {
      OperationExplained(n, ops[0], now, ev, s);
      if |ops| > 1 {
        OperationKeepsEntries(n, ops[0], now);
        OperationKeepsAddress(n, ops[0], now);
        OperationsExplained(Do(n, ops[0], now), ops[1..], now, ev, s);
      } else {
        assert DoAll(n, ops, now) == Do(n, ops[0], now);
      }
    }
  }

  lemma EventIsOurs(n: Node, ev: Event, now: Time)
    requires Enabled(n, ev, now) && !ev.ReceiveRrep? && !ev.ReceiveRerr?
    ensures forall op <- OperationsOf(n, ev, now) :: Ours(op, ev, n.ip)
  {
    hide OperationsOf;
    OperationsFrom(n, ev, now);
    if ev.ReceiveRreq? && ev.rreq.srcIp == n.ip {
      OwnRequestMakesNothing(n, ev, now);
    }
  }

  lemma EventExplained(n: Node, ev: Event, now: Time, s: u8)
    requires Enabled(n, ev, now) && !ev.ReceiveRrep? && !ev.ReceiveRerr?
    ensures Explained(n, Apply(n, ev, now).node, ev, s)
  {
    hide Apply, OperationsOf, Ours, Explained;
    FewThreads(n, ev, now);
    EventIsOurs(n, ev, now);
    EventIsOperations(n, ev, now);
    OperationsExplained(n, OperationsOf(n, ev, now), now, ev, s);
  }

  lemma OwnRequestMakesNothing(n: Node, ev: Event, now: Time)
    requires Enabled(n, ev, now) && ev.ReceiveRreq? && ev.rreq.srcIp == n.ip
    ensures forall op <- OperationsOf(n, ev, now) :: !op.MakeReverse?
  {
    hide PreviousHop, AlreadySeen, ReverseRoute, Answer;
  }

  /** The node has a valid number for S that is newer than q, or equal with at most h hops. */
  predicate Knows(n: Node, S: u32, q: u32, h: int) {
    HasEntry(n, S) && EntryOf(n, S).seqValid &&
    (EntryOf(n, S).destSeq > q || (EntryOf(n, S).destSeq == q && EntryOf(n, S).hopCount <= h))
  }

  /** Whoever passes a request on knows the way to its originator at least as well as the request says. */
  lemma RelayerKnows(n: Node, sender: u32, message: Rreq, now: Time, junk: u32)
    ensures var r := RecvRreq(n, sender, message, now, junk);
            (exists o <- r.outs :: o.message.RreqMessage?) ==>
              Knows(r.node, message.srcIp, message.srcSeq, NextHopCount(message.hopCount))
  {
    hide PreviousHop, ReverseRoute, Answer, AlreadySeen;
  }

  // ---- Hellos ----

  /** A hello of its own subject that cannot turn a route: the subject is new, or the number is not newer than the valid
      one recorded, or the recorded next hop is the subject itself, a counted hop away. */
  predicate Harmless(n: Node, ev: Event) {
    && ev.ReceiveRrep? && ev.rrep.srcIp == 0 && ev.sender == ev.rrep.destIp && ev.rrep.hopCount == 0
    && (HasEntry(n, ev.rrep.destIp) ==>
          var e, number := EntryOf(n, ev.rrep.destIp), ev.rrep.destSeq;
          || (e.seqValid && (number == e.destSeq || SeqCompare(number, e.destSeq) < 0))
          || (e.nextHop == ev.rrep.destIp && e.hopCount >= 1 && (e.seqValid ==> e.destSeq <= number)))
  }

  /** It makes no record worse, and changes none but a route straight to its subject. */
  lemma HarmlessMeans(n: Node, ev: Event, now: Time, s: u8)
    requires Enabled(n, ev, now) && Harmless(n, ev)
    ensures var r := Apply(n, ev, now).node;
            && (s in n.table ==> s in r.table && NotWorse(n.table[s], r.table[s]))
            && (s in r.table ==>
                  || (s in n.table && SaysSame(n.table[s], r.table[s]))
                  || (s == Slot(ev.sender) && r.table[s].nextHop == ev.sender && r.table[s].hopCount >= 1))
  {
    hide Hello, StopSearch, SeqCompare, Timely, SearchKept, IndexKept, NoNewSearch;
    var n1 := StopSearch(n, ev.rrep);
    assert n1.table.Keys == n.table.Keys;
    assert s in n.table ==> SaysSame(n.table[s], n1.table[s]);
    assert HasEntry(n, ev.sender) ==> SaysSame(EntryOf(n, ev.sender), EntryOf(n1, ev.sender));
  }

  // ---- The network ----

  /** The route e to S leads to S or to a node strictly closer to S in the order of the numbers. */
  ghost predicate OnTheWay(net: Net, S: u32, e: Entry) {
    && e.hopCount >= 1
    && (e.nextHop == S || (e.nextHop in net.nodes && Knows(net.nodes[e.nextHop], S, e.destSeq, e.hopCount - 1)))
  }

  predicate ValidAt(net: Net, a: u32, S: u32) {
    a in net.nodes && HasEntry(net.nodes[a], S) && EntryOf(net.nodes[a], S).seqValid
  }

  ghost predicate SenderKnows(net: Net, p: Packet) {
    p.out.message.RreqMessage? && p.from in net.nodes ==>
      var m := p.out.message.rreq;
      p.from == m.srcIp || Knows(net.nodes[p.from], m.srcIp, m.srcSeq, m.hopCount)
  }

  ghost predicate LoopFree(net: Net) {
    && Flooding(net) && DistinctSlots(net.nodes.Keys)
    && (forall p :: p in net.sent ==> SenderKnows(net, p))
    && (forall a, S :: S in net.nodes && ValidAt(net, a, S) ==> a != S && OnTheWay(net, S, EntryOf(net.nodes[a], S)))
  }

  /** A step that receives no reply, no error and only harmless hellos, and removes no entry. */
  ghost predicate Reverse(net: Net, step: NetStep)
    requires NetEnabled(net, step)
  {
    && !step.event.ReceiveRerr? && (step.event.ReceiveRrep? ==> Harmless(net.nodes[step.at], step.event))
    && net.nodes[step.at].table.Keys <= Effects(net, step).node.table.Keys
  }

  lemma KnowsGrows(n: Node, r: Node, S: u32, q: u32, h: int)
    requires Knows(n, S, q, h) && HasEntry(r, S) && NotWorse(EntryOf(n, S), EntryOf(r, S))
    ensures Knows(r, S, q, h)
  {
  }

  /** What a node knows it goes on knowing, here and elsewhere. */
  lemma NetKnowsGrows(net: Net, step: NetStep, a: u32, S: u32, q: u32, h: int)
    requires NetEnabled(net, step) && Reverse(net, step) && a in net.nodes && Knows(net.nodes[a], S, q, h)
    ensures Knows(NetAfter(net, step).nodes[a], S, q, h)
  {
    hide Apply, Enabled, Knows, Harmless;
    if a == step.at {
      KnowsHas(net.nodes[a], S, q, h);
      if step.event.ReceiveRrep? {
        HarmlessMeans(net.nodes[a], step.event, step.now, Slot(S));
      } else {
        EventNotWorse(net.nodes[a], step.event, step.now, Slot(S));
      }
      KnowsGrows(net.nodes[a], NetAfter(net, step).nodes[a], S, q, h);
    }
  }

  lemma KnowsHas(n: Node, S: u32, q: u32, h: int)
    requires Knows(n, S, q, h)
    ensures HasEntry(n, S)
  {
  }

  lemma WayStays(net: Net, step: NetStep, S: u32, e: Entry)
    requires NetEnabled(net, step) && Reverse(net, step) && OnTheWay(net, S, e)
    ensures OnTheWay(NetAfter(net, step), S, e)
  {
    hide Apply, Enabled, Knows;
    if e.nextHop != S {
      NetKnowsGrows(net, step, e.nextHop, S, e.destSeq, e.hopCount - 1);
    }
  }

  /** The sender of a request on the way is its originator or still knows the way. */
  lemma SenderStillKnows(net: Net, step: NetStep, p: Packet)
    requires LoopFree(net) && NetEnabled(net, step) && Reverse(net, step) && p in net.sent
    ensures SenderKnows(NetAfter(net, step), p)
  {
    hide Apply, Enabled, Knows, Flooding;
    if p.out.message.RreqMessage? && p.from in net.nodes && p.from != p.out.message.rreq.srcIp {
      var m := p.out.message.rreq;
      assert SenderKnows(net, p);
      NetKnowsGrows(net, step, p.from, m.srcIp, m.srcSeq, m.hopCount);
    }
  }

  lemma NewSenderKnows(net: Net, step: NetStep, o: Out)
    requires LoopFree(net) && NetEnabled(net, step) && o in Effects(net, step).outs
    ensures SenderKnows(NetAfter(net, step), Packet(step.at, o))
  {
    var n, ev := net.nodes[step.at], step.event;
    if o.message.RreqMessage? {
      RequestsSent(n, ev, step.now);
      if ev.ReceiveRreq? {
        assert Effects(net, step) == RecvRreq(n, ev.sender, ev.rreq, step.now, ev.junk);
        hide RecvRreq, Apply, Enabled, Knows;
        RelayerKnows(n, ev.sender, ev.rreq, step.now, ev.junk);
      } else {
        hide Apply, Enabled, Knows;
        assert SearchInRange(n.ip, n.threads[ev.id]);
      }
    }
  }

  lemma RequestsAreBroadcast(net: Net, step: NetStep)
    requires Flooding(net) && NetEnabled(net, step) && step.event.ReceiveRreq?
    ensures Packet(step.event.sender, Broadcast(RreqMessage(step.event.rreq))) in net.sent
  {
    hide Enabled, Conserved, SearchesInRange;
  }

  /** The route a request makes leads to its sender, who is its originator or knows the way. */
  lemma MadeIsOnTheWay(net: Net, step: NetStep, S: u32, e: Entry)
    requires LoopFree(net) && NetEnabled(net, step) && S in net.nodes
    requires MadeBy(net.nodes[step.at], e, step.event, Slot(S))
    ensures step.at != S && OnTheWay(net, S, e)
  {
    hide Apply, Enabled, Knows, SearchesInRange;
    var m := step.event.rreq;
    ReceivedIsConserved(net, step);
    assert m.srcIp == S;
    var p := Packet(step.event.sender, Broadcast(RreqMessage(m)));
    assert p in net.sent by { RequestsAreBroadcast(net, step); }
    assert SenderKnows(net, p);
  }

  lemma ValidStaysOnTheWay(net: Net, step: NetStep, a: u32, S: u32)
    requires LoopFree(net) && NetEnabled(net, step) && Reverse(net, step)
    requires S in net.nodes && ValidAt(NetAfter(net, step), a, S)
    ensures a != S && OnTheWay(NetAfter(net, step), S, EntryOf(NetAfter(net, step).nodes[a], S))
  {
    hide Apply, Enabled, Flooding, Knows, Harmless;
    var e := EntryOf(NetAfter(net, step).nodes[a], S);
    if a == step.at && step.event.ReceiveRrep? {
      HarmlessMeans(net.nodes[a], step.event, step.now, Slot(S));
      if e.nextHop == step.event.sender && e.hopCount >= 1 && Slot(S) == Slot(step.event.sender) {
        HelloIsFromNode(net, step, S);
      } else {
        assert ValidAt(net, a, S);
        SameWay(net, S, EntryOf(net.nodes[a], S), e);
      }
    } else if a == step.at {
      EventExplained(net.nodes[a], step.event, step.now, Slot(S));
      if MadeBy(net.nodes[a], e, step.event, Slot(S)) {
        MadeIsOnTheWay(net, step, S, e);
      } else {
        assert ValidAt(net, a, S);
        SameWay(net, S, EntryOf(net.nodes[a], S), e);
      }
    } else {
      assert ValidAt(net, a, S);
    }
    WayStays(net, step, S, e);
  }

  /** The sender of a message is another node, known by its slot. */
  lemma HelloIsFromNode(net: Net, step: NetStep, S: u32)
    requires LoopFree(net) && NetEnabled(net, step) && step.event.ReceiveRrep? && S in net.nodes
    requires Slot(S) == Slot(step.event.sender)
    ensures step.event.sender == S != step.at
  {
    hide Conserved, SearchesInRange, Knows;
  }

  lemma SameWay(net: Net, S: u32, e: Entry, e': Entry)
    requires OnTheWay(net, S, e) && SaysSame(e, e')
    ensures OnTheWay(net, S, e')
  {
  }

  lemma StepLoopFree(net: Net, step: NetStep)
    requires LoopFree(net) && NetEnabled(net, step) && Reverse(net, step)
    ensures LoopFree(NetAfter(net, step)) && NetAfter(net, step).nodes.Keys == net.nodes.Keys
  {
    hide Apply, Enabled, Flooding, SenderKnows, OnTheWay, Reverse;
    var net' := NetAfter(net, step);
    StepFloods(net, step);
    assert net'.nodes.Keys == net.nodes.Keys;
    forall p | p in net'.sent
      ensures SenderKnows(net', p)
    {
      if p in net.sent {
        SenderStillKnows(net, step, p);
      } else {
        NewSenderKnows(net, step, p.out);
      }
    }
    forall a, S | S in net'.nodes && ValidAt(net', a, S)
      ensures a != S && OnTheWay(net', S, EntryOf(net'.nodes[a], S))
    {
      ValidStaysOnTheWay(net, step, a, S);
    }
  }

  /** Every step of the run is of this kind. */
  ghost predicate AllReverse(net: Net, run: seq<NetStep>)
    requires NetLegal(net, run)
    decreases |run|
  {
    run != [] ==> Reverse(net, run[0]) && AllReverse(NetAfter(net, run[0]), run[1..])
  }

  lemma {:induction false} RunLoopFree(net: Net, run: seq<NetStep>)
    requires LoopFree(net) && NetLegal(net, run) && AllReverse(net, run)
    ensures LoopFree(NetFinal(net, run)) && NetFinal(net, run).nodes.Keys == net.nodes.Keys
    decreases |run|
  {
    hide NetEnabled, LoopFree, Reverse, Effects;
    if run == [] {
    } else {
      StepLoopFree(net, run[0]);
      RunLoopFree(NetAfter(net, run[0]), run[1..]);
    }
  }

  // ---- Walking along next hops ----

  /** The nodes met when following next hops from a to S. */
  ghost function Walk(net: Net, a: u32, S: u32): (walk: seq<u32>)
    requires LoopFree(net) && S in net.nodes && ValidAt(net, a, S)
    ensures |walk| >= 2 && walk[0] == a && walk[|walk| - 1] == S
    decreases WORD - EntryOf(net.nodes[a], S).destSeq, EntryOf(net.nodes[a], S).hopCount
  {
    var e := EntryOf(net.nodes[a], S);
    assert OnTheWay(net, S, e);
    if e.nextHop == S then [a, S] else [a] + Walk(net, e.nextHop, S)
  }

  /** b is strictly closer to S than a: a higher number, or the same number and fewer hops. */
  predicate Closer(net: Net, a: u32, b: u32, S: u32)
    requires ValidAt(net, a, S) && ValidAt(net, b, S)
  {
    var e, f := EntryOf(net.nodes[a], S), EntryOf(net.nodes[b], S);
    f.destSeq > e.destSeq || (f.destSeq == e.destSeq && f.hopCount < e.hopCount)
  }

  /** Each node of the walk is the next hop of the one before. */
  ghost predicate Follows(net: Net, walk: seq<u32>, S: u32) {
    forall i :: 0 <= i < |walk| - 1 ==>
      ValidAt(net, walk[i], S) && EntryOf(net.nodes[walk[i]], S).nextHop == walk[i + 1]
  }

  /** All nodes of the walk from one on, but the last, are strictly closer to S than a. */
  ghost predicate AllCloser(net: Net, walk: seq<u32>, from: nat, a: u32, S: u32)
    requires ValidAt(net, a, S)
  {
    forall i :: from <= i < |walk| - 1 ==> ValidAt(net, walk[i], S) && Closer(net, a, walk[i], S)
  }

  /** The walk from the next hop b, closer than a, is one from a. */
  lemma PrependFollows(net: Net, a: u32, b: u32, rest: seq<u32>, S: u32)
    requires ValidAt(net, a, S) && ValidAt(net, b, S) && EntryOf(net.nodes[a], S).nextHop == b && Closer(net, a, b, S)
    requires |rest| >= 2 && rest[0] == b && Follows(net, rest, S) && AllCloser(net, rest, 1, b, S)
    ensures Follows(net, [a] + rest, S) && AllCloser(net, [a] + rest, 1, a, S)
  {
    var walk := [a] + rest;
    forall i | 0 <= i < |walk| - 1
      ensures ValidAt(net, walk[i], S) && EntryOf(net.nodes[walk[i]], S).nextHop == walk[i + 1]
    {
      if i > 0 {
        assert walk[i] == rest[i - 1] && walk[i + 1] == rest[i];
      }
    }
    forall i | 1 <= i < |walk| - 1
      ensures ValidAt(net, walk[i], S) && Closer(net, a, walk[i], S)
    {
      assert walk[i] == rest[i - 1];
      assert i > 1 ==> Closer(net, b, rest[i - 1], S);
    }
  }

  /** a holds the highest number recorded for S. */
  ghost predicate Highest(net: Net, a: u32, S: u32)
    requires ValidAt(net, a, S)
  {
    forall b :: ValidAt(net, b, S) ==> EntryOf(net.nodes[b], S).destSeq <= EntryOf(net.nodes[a], S).destSeq
  }

  /** The next hop towards S, when it is not S, has a valid number itself and is closer. */
  lemma NextIsCloser(net: Net, a: u32, S: u32)
    requires LoopFree(net) && S in net.nodes && ValidAt(net, a, S)
    ensures a != S
    ensures var b := EntryOf(net.nodes[a], S).nextHop;
            b != S ==> ValidAt(net, b, S) && Closer(net, a, b, S) && Walk(net, a, S) == [a] + Walk(net, b, S)
    ensures EntryOf(net.nodes[a], S).nextHop == S ==>
              Walk(net, a, S) == [a, S] && 1 <= EntryOf(net.nodes[a], S).hopCount
  {
    hide Flooding, DistinctSlots;
    assert OnTheWay(net, S, EntryOf(net.nodes[a], S));
  }

  /** Every step of the walk follows a next hop; every later node but S is strictly closer than a; and where a holds
      the highest number recorded for S, the walk is no longer than its hop count. */
  lemma {:induction false} WalkImproves(net: Net, a: u32, S: u32)
    requires LoopFree(net) && S in net.nodes && ValidAt(net, a, S)
    ensures Follows(net, Walk(net, a, S), S) && AllCloser(net, Walk(net, a, S), 1, a, S)
    ensures Highest(net, a, S) ==> |Walk(net, a, S)| - 1 <= EntryOf(net.nodes[a], S).hopCount
    decreases WORD - EntryOf(net.nodes[a], S).destSeq, EntryOf(net.nodes[a], S).hopCount
  {
    hide LoopFree, OnTheWay, Walk;
    var b := EntryOf(net.nodes[a], S).nextHop;
    NextIsCloser(net, a, S);
    if b != S {
      WalkImproves(net, b, S);
      PrependFollows(net, a, b, Walk(net, b, S), S);
      assert Highest(net, a, S) ==> Highest(net, b, S);
    }
  }

  ghost predicate NoRepeats(walk: seq<u32>) {
    forall i, j :: 0 <= i < j < |walk| ==> walk[i] != walk[j]
  }

  lemma {:induction false} WalkHasNoLoop(net: Net, a: u32, S: u32)
    requires LoopFree(net) && S in net.nodes && ValidAt(net, a, S)
    ensures NoRepeats(Walk(net, a, S))
    decreases WORD - EntryOf(net.nodes[a], S).destSeq, EntryOf(net.nodes[a], S).hopCount
  {
    hide LoopFree, OnTheWay, Walk;
    var b := EntryOf(net.nodes[a], S).nextHop;
    NextIsCloser(net, a, S);
    WalkImproves(net, a, S);
    if b != S {
      var walk, rest := Walk(net, a, S), Walk(net, b, S);
      WalkHasNoLoop(net, b, S);
      forall j | 0 < j < |walk|
        ensures walk[j] != a
      {
        assert j < |walk| - 1 ==> Closer(net, a, walk[j], S);
      }
      PrependKeepsDistinct(a, rest, walk);
    }
  }

  lemma PrependKeepsDistinct(a: u32, rest: seq<u32>, walk: seq<u32>)
    requires walk == [a] + rest
    requires NoRepeats(rest)
    requires forall j :: 0 < j < |walk| ==> walk[j] != a
    ensures NoRepeats(walk)
  {
    forall i, j | 0 <= i < j < |walk|
      ensures walk[i] != walk[j]
    {
      assert i > 0 ==> walk[i] == rest[i - 1] && walk[j] == rest[j - 1];
    }
  }

  /** The nodes met from a on the way to S: each is the next hop of the one before and none comes twice; all after a
      but S are strictly closer than a; and where a holds the highest number recorded for S, they are no more
      than its hops. */
  ghost predicate LeadsTo(net: Net, walk: seq<u32>, a: u32, S: u32)
    requires ValidAt(net, a, S)
  {
    && |walk| >= 2 && walk[0] == a && walk[|walk| - 1] == S
    && Follows(net, walk, S) && AllCloser(net, walk, 1, a, S) && NoRepeats(walk)
    && (Highest(net, a, S) ==> |walk| - 1 <= EntryOf(net.nodes[a], S).hopCount)
  }

  lemma WalkLeads(net: Net, a: u32, S: u32)
    requires LoopFree(net) && S in net.nodes && ValidAt(net, a, S)
    ensures LeadsTo(net, Walk(net, a, S), a, S)
  {
    hide LoopFree, NoRepeats, Follows, AllCloser, Highest, Walk;
    WalkImproves(net, a, S);
    WalkHasNoLoop(net, a, S);
  }

  /** In every run of originations and request deliveries (lost, repeated or reordered), timers and data, in which no
      reply, no error and only harmless hellos are received and no entry is removed: following next hops from any node
      with a valid number for S never meets a node twice and ends at S, and each later node on the way is strictly
      closer. */
  lemma ReverseRoutesAreLoopFree(addresses: set<u32>, broadcastIp: u32, run: seq<NetStep>, a: u32, S: u32)
    requires DistinctSlots(addresses) && NetLegal(NetBoot(addresses, broadcastIp), run)
    requires AllReverse(NetBoot(addresses, broadcastIp), run)
    requires S in addresses && ValidAt(NetFinal(NetBoot(addresses, broadcastIp), run), a, S)
    ensures LoopFree(NetFinal(NetBoot(addresses, broadcastIp), run))
    ensures S in NetFinal(NetBoot(addresses, broadcastIp), run).nodes
    ensures var net := NetFinal(NetBoot(addresses, broadcastIp), run); LeadsTo(net, Walk(net, a, S), a, S)
  {
    var start := NetBoot(addresses, broadcastIp);
    assert start.nodes.Keys == addresses && LoopFree(start) by { StartIsLoopFree(addresses, broadcastIp); }
    RunLoopFree(start, run);
    hide LoopFree, NetFinal, NetLegal, AllReverse, NetBoot, LeadsTo, ValidAt;
    WalkLeads(NetFinal(start, run), a, S);
  }

  lemma StartIsLoopFree(addresses: set<u32>, broadcastIp: u32)
    requires DistinctSlots(addresses)
    ensures NetBoot(addresses, broadcastIp).nodes.Keys == addresses && LoopFree(NetBoot(addresses, broadcastIp))
  {
  }
}
