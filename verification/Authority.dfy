/** A node is the authority on its own sequence number: nobody records or sends a higher one. */
module Authority {
  import opened Aodv
  import opened Messages
  import opened TimeFuncs
  import opened RoutingTable
  import opened SendMessages
  import opened RecvMessages
  import opened Callbacks
  import opened Operations
  import opened TableRefinement
  import opened Lifetime
  import opened Network
  import opened InPlay

  /** The current sequence numbers of the nodes. */
  type Caps = map<u32, u32>

  predicate AtMost(caps: Caps, a: u32, x: u32) {
    a in caps ==> x <= caps[a]
  }

  /** No recorded number exceeds the node's own. */
  ghost predicate EntriesAtMost(n: Node, caps: Caps) {
    forall a :: a in caps && HasEntry(n, a) ==> EntryOf(n, a).destSeq <= caps[a]
  }

  predicate RequestAtMost(m: Rreq, caps: Caps) {
    AtMost(caps, m.srcIp, m.srcSeq) && AtMost(caps, m.destIp, m.destSeq)
  }

  predicate MessageAtMost(m: Message, caps: Caps) {
    match m
    case RreqMessage(rreq) => RequestAtMost(rreq, caps)
    case RrepMessage(rrep) => AtMost(caps, rrep.destIp, rrep.destSeq)
    case RerrMessage(_) => true
  }

  ghost predicate ThreadsAtMost(n: Node, caps: Caps) {
    forall id :: id in n.threads && n.threads[id].RingSearch? ==> RequestAtMost(n.threads[id].request, caps)
  }

  predicate EventAtMost(ev: Event, caps: Caps) {
    match ev
    case ReceiveRreq(_, m, _) => RequestAtMost(m, caps)
    case ReceiveRrep(_, m, _, _) => AtMost(caps, m.destIp, m.destSeq)
    case ReceiveRerr(_, _) => false
    case _ => true
  }

  /** The numbers only grow from caps to caps'. */
  predicate CapsGrow(caps: Caps, caps': Caps) {
    caps'.Keys == caps.Keys && forall a :: a in caps ==> caps[a] <= caps'[a]
  }

  // ---- Entries ----

  lemma OperationEntries(n: Node, op: Operation, now: Time, ev: Event, caps: Caps, addresses: set<u32>)
    requires EntriesAtMost(n, caps) && Allowed(n, op, now) && From(op, ev) && EventAtMost(ev, caps)
    requires DistinctSlots(addresses) && caps.Keys <= addresses && Creates(op) <= addresses
    ensures EntriesAtMost(Do(n, op, now), caps)
  {
    hide PreviousHop, ReverseRoute, ForwardRoute, Hello, StopSearch, RefreshRoute, LoseRoute, SendRreq,
      SendRreqOutcome, ExpirationFunc, BeginSearch, SendRing, FailSearch, RreqIdFunc, AddMs, SeqCompare, Slot;
  }

  lemma {:induction false} OperationsEntries(n: Node, ops: seq<Operation>, now: Time, ev: Event, caps: Caps,
                                             addresses: set<u32>)
    requires EntriesAtMost(n, caps) && AllAllowed(n, ops, now) && EventAtMost(ev, caps)
    requires forall op <- ops :: From(op, ev) && Creates(op) <= addresses
    requires DistinctSlots(addresses) && caps.Keys <= addresses
    ensures EntriesAtMost(DoAll(n, ops, now), caps)
    decreases |ops|
  {
    hide Do, Allowed, EntriesAtMost, EventAtMost;
    if ops == [] {
    } else {
      OperationEntries(n, ops[0], now, ev, caps, addresses);
      OperationsEntries(Do(n, ops[0], now), ops[1..], now, ev, caps, addresses);
    }
  }

  lemma EventEntries(n: Node, ev: Event, now: Time, caps: Caps, addresses: set<u32>)
    requires EntriesAtMost(n, caps) && Enabled(n, ev, now) && EventAtMost(ev, caps)
    requires DistinctSlots(addresses) && caps.Keys <= addresses && Concerns(ev, addresses)
    ensures EntriesAtMost(Apply(n, ev, now).node, caps)
  {
    hide Apply, OperationsOf, EntriesAtMost, EventAtMost;
    OperationsFrom(n, ev, now);
    EventIsOperations(n, ev, now);
    OperationsEntries(n, OperationsOf(n, ev, now), now, ev, caps, addresses);
  }

  // ---- A node's own number ----

  /** The cap of the node itself is its number, which has not reached the end of the 32 bits. */
  predicate OwnCap(n: Node, caps: Caps) {
    n.ip in caps && caps[n.ip] == n.sequenceNum < WORD - 1
  }

  /** The request knows no number for its destination, or one at most half a word behind the next. */
  predicate Recent(own: u32, m: Rreq) {
    m.Unknown() || own + 1 - m.destSeq <= HALF
  }

  /** A request for the node itself, unless it is dropped, is recent. */
  predicate AsksRecently(n: Node, ev: Event, now: Time) {
    ev.ReceiveRreq? && ev.rreq.destIp == n.ip && Taken(n, ev.sender, ev.rreq, now, ev.junk) ==>
      Recent(n.sequenceNum, ev.rreq)
  }

  /** A recent request makes its destination advertise the next number; any other makes it fall back to the
      old number of its own that the request knows. */
  lemma OldRequestTakesNumberBack(own: u32, m: Rreq)
    requires m.destSeq <= own < WORD - 1
    ensures ReplySequence(own, m) == own + 1 <==> Recent(own, m)
    ensures ReplySequence(own, m) != own + 1 <==> ReplySequence(own, m) == m.destSeq
  {
    SeqCompareCongruent(m.destSeq, own + 1);
    assert Wrap(m.destSeq) == m.destSeq && Wrap(own + 1) == own + 1;
  }

  ghost predicate OutsAtMost(outs: seq<Out>, caps: Caps) {
    forall o <- outs :: MessageAtMost(o.message, caps)
  }

  /** What a step leaves behind: numbers grow, and what was sent and is about to be sent respects them. */
  ghost predicate Respects(n: Node, r: Effect, caps: Caps) {
    && n.ip in caps && n.sequenceNum <= r.node.sequenceNum && r.node.ip == n.ip
    && ThreadsAtMost(r.node, caps[n.ip := r.node.sequenceNum])
    && OutsAtMost(r.outs, caps[n.ip := r.node.sequenceNum])
  }

  lemma AnswerOuts(n: Node, sender: u32, m: Rreq, now: Time, caps: Caps)
    requires HasEntry(n, m.srcIp) && EntriesAtMost(n, caps) && OwnCap(n, caps) && RequestAtMost(m, caps)
    requires m.destIp == n.ip ==> Recent(n.sequenceNum, m)
    ensures var r := Answer(n, sender, m, now);
            n.sequenceNum <= r.node.sequenceNum && OutsAtMost(r.outs, caps[n.ip := r.node.sequenceNum])
  {
    hide Activate, ReplySequence, SendRrepIntermediate, SeqCompare;
    if n.ip == m.destIp {
      OldRequestTakesNumberBack(n.sequenceNum, m);
    } else if CanAnswer(n, m) {
      IntermediateOuts(n, m, sender, now, caps);
    }
  }

  lemma IntermediateOuts(n: Node, m: Rreq, sender: u32, now: Time, caps: Caps)
    requires HasEntry(n, m.destIp) && HasEntry(n, m.srcIp) && EntriesAtMost(n, caps) && RequestAtMost(m, caps)
    ensures OutsAtMost(SendRrepIntermediate(n, m, sender, now).outs, caps)
    ensures SendRrepIntermediate(n, m, sender, now).node.sequenceNum == n.sequenceNum
  {
    hide Remaining;
  }

  lemma RecvRreqRespects(n: Node, sender: u32, message: Rreq, now: Time, junk: u32, caps: Caps, addresses: set<u32>)
    requires EntriesAtMost(n, caps) && ThreadsAtMost(n, caps) && OwnCap(n, caps) && RequestAtMost(message, caps)
    requires DistinctSlots(addresses) && caps.Keys <= addresses && sender in addresses && message.srcIp in addresses
    requires sender != n.ip && AsksRecently(n, ReceiveRreq(sender, message, junk), now)
    ensures Respects(n, RecvRreq(n, sender, message, now, junk), caps)
  {
    hide PreviousHop, ReverseRoute, Answer, AlreadySeen, EntriesAtMost, OutsAtMost;
    var ev := ReceiveRreq(sender, message, junk);
    var m := message.(hopCount := NextHopCount(message.hopCount));
    var n1 := PreviousHop(n, sender, message.srcIp, now, junk);
    var n2 := ReverseRoute(n1, sender, m, now);
    OperationEntries(n, MeetSender(sender, message.srcIp, junk), now, ev, caps, addresses);
    OperationEntries(n1, MakeReverse(sender, m), now, ev, caps, addresses);
    if Taken(n, sender, message, now, junk) {
      AnswerOuts(n2, sender, m, now, caps);
    }
    NoOuts(caps[n.ip := n.sequenceNum]);
  }

  lemma NoOuts(caps: Caps)
    ensures OutsAtMost([], caps)
  {
  }

  /** Steps that start no search and leave the own number alone. */
  ghost predicate Quiet(n: Node, r: Node) {
    r.ip == n.ip && r.sequenceNum == n.sequenceNum && NoNewSearch(n, r)
  }

  lemma QuietRespects(n: Node, r: Effect, caps: Caps)
    requires ThreadsAtMost(n, caps) && OwnCap(n, caps) && Quiet(n, r.node) && OutsAtMost(r.outs, caps)
    ensures Respects(n, r, caps)
  {
    assert caps[n.ip := n.sequenceNum] == caps;
  }

  lemma RecvRrepQuiet(n: Node, sender: u32, message: Rrep, now: Time, junk: u32, junk': u32)
    ensures Quiet(n, RecvRrep(n, sender, message, now, junk, junk').node)
  {
    hide PreviousHop, ForwardRoute, Hello, StopSearch, ForwardReply, Quiet;
    var n1 := StopSearch(n, message);
    StopSearchQuiet(n, message);
    var m := message.(hopCount := NextHopCount(message.hopCount));
    if m.srcIp == 0 {
      SlotIsQuiet(n, n1, Hello(n1, sender, m, now, junk), Slot(m.destIp));
    } else {
      var n2 := PreviousHop(n1, sender, m.destIp, now, junk);
      var n3 := ForwardRoute(n2, sender, m, now, junk');
      SlotIsQuiet(n, n1, n2, Slot(sender));
      SlotIsQuiet(n, n2, n3, Slot(m.destIp));
      AnnotatedIsQuiet(n, n3, ForwardReply(n3, m).node);
    }
  }

  lemma SlotIsQuiet(n: Node, m: Node, r: Node, s: u8)
    requires Quiet(n, m) && OnlySlot(m, r, s)
    ensures Quiet(n, r)
  {
  }

  lemma AnnotatedIsQuiet(n: Node, m: Node, r: Node)
    requires Quiet(n, m) && Annotated(m, r) && r.sequenceNum == m.sequenceNum
    ensures Quiet(n, r)
  {
  }

  lemma RecvRrepSendsNumber(n: Node, sender: u32, message: Rrep, now: Time, junk: u32, junk': u32)
    ensures forall o <- RecvRrep(n, sender, message, now, junk, junk').outs ::
              && o.message.RrepMessage?
              && o.message.rrep.destIp == message.destIp && o.message.rrep.destSeq == message.destSeq
              && o.message.rrep.srcIp == message.srcIp
  {
    hide PreviousHop, ForwardRoute, Hello, StopSearch, Activate, AddPrecursor;
  }

  lemma StopSearchQuiet(n: Node, m: Rrep)
    ensures Quiet(n, StopSearch(n, m))
  {
  }

  lemma RunRespects(n: Node, id: nat, now: Time, caps: Caps)
    requires Enabled(n, Wake(id), now) && Placed(n)
    requires EntriesAtMost(n, caps) && ThreadsAtMost(n, caps) && OwnCap(n, caps)
    ensures Respects(n, Run(n, id, now), caps)
  {
    hide BeginSearch, SendRing, EntriesAtMost, OutsAtMost, AddMs, WakeAt;
    if n.threads[id].SearchStart? {
      BeginRespects(n, id, now, caps);
    } else if Originates(n, Wake(id)) {
      RingRespects(n, id, now, caps);
    } else {
      NoOuts(caps);
      QuietRespects(n, Run(n, id, now), caps);
    }
  }

  lemma BeginRespects(n: Node, id: nat, now: Time, caps: Caps)
    requires id in n.threads && n.threads[id].SearchStart? && n.threads[id].slot in n.table && Placed(n)
    requires EntriesAtMost(n, caps) && ThreadsAtMost(n, caps) && OwnCap(n, caps)
    ensures Respects(n, Effect(BeginSearch(n, id, now), []), caps)
  {
    hide Plan;
    var e := n.table[n.threads[id].slot];
    assert HasEntry(n, e.destIp) && EntryOf(n, e.destIp) == e;
  }

  lemma RingRespects(n: Node, id: nat, now: Time, caps: Caps)
    requires id in n.threads && n.threads[id].RingSearch? && |n.threads[id].log| < |n.threads[id].plan|
    requires ThreadsAtMost(n, caps) && OwnCap(n, caps)
    ensures Respects(n, SendRing(n, id, now), caps)
  {
    assert RequestAtMost(n.threads[id].request, caps);
    assert caps[n.ip := n.sequenceNum] == caps;
  }

  lemma EventRespects(n: Node, ev: Event, now: Time, caps: Caps, addresses: set<u32>)
    requires Enabled(n, ev, now) && Placed(n) && EntriesAtMost(n, caps) && ThreadsAtMost(n, caps) && OwnCap(n, caps)
    requires DistinctSlots(addresses) && caps.Keys <= addresses && Concerns(ev, addresses) && EventAtMost(ev, caps)
    requires AsksRecently(n, ev, now)
    ensures Respects(n, Apply(n, ev, now), caps)
  {
    hide RecvRreq, RecvRrep, Run, EntriesAtMost, ThreadsAtMost, OutsAtMost, Respects, LoseRoute, SendRreq,
      RefreshRoute, SendRreqOutcome;
    match ev
    case ReceiveRreq(sender, m, junk) => RecvRreqRespects(n, sender, m, now, junk, caps, addresses);
    case ReceiveRrep(sender, m, junk, junk') =>
      RecvRrepQuiet(n, sender, m, now, junk, junk');
      RecvRrepSendsNumber(n, sender, m, now, junk, junk');
      RepliesAtMost(RecvRrep(n, sender, m, now, junk, junk').outs, m, caps);
      QuietRespects(n, RecvRrep(n, sender, m, now, junk, junk'), caps);
    case Wake(id) => RunRespects(n, id, now, caps);
    case HelloTick => HelloAtMost(n, caps); QuietRespects(n, Apply(n, ev, now), caps);
    case DataThrough(src, dest) =>
      ErrorsAtMost(ForwardedMessages(n, src, dest, now).outs, caps);
      QuietRespects(n, Apply(n, ev, now), caps);
    case ReceiveRerr(_, _) =>
    case _ => NoOuts(caps); QuietRespects(n, Apply(n, ev, now), caps);
  }

  lemma RepliesAtMost(outs: seq<Out>, m: Rrep, caps: Caps)
    requires AtMost(caps, m.destIp, m.destSeq)
    requires forall o <- outs ::
               && o.message.RrepMessage?
               && o.message.rrep.destIp == m.destIp && o.message.rrep.destSeq == m.destSeq
    ensures OutsAtMost(outs, caps)
  {
  }

  lemma HelloAtMost(n: Node, caps: Caps)
    requires OwnCap(n, caps)
    ensures OutsAtMost([Broadcast(RrepMessage(HelloMessage(n)))], caps)
  {
  }

  lemma ErrorsAtMost(outs: seq<Out>, caps: Caps)
    requires forall o <- outs :: o.message.RerrMessage?
    ensures OutsAtMost(outs, caps)
  {
  }

  // ---- The network ----

  function CapsOf(net: Net): Caps {
    map a | a in net.nodes :: net.nodes[a].sequenceNum
  }

  ghost predicate NodeAtMost(n: Node, caps: Caps) {
    Placed(n) && EntriesAtMost(n, caps) && ThreadsAtMost(n, caps)
  }

  ghost predicate Authoritative(net: Net) {
    && Named(net) && FromNodes(net)
    && (forall a :: a in net.nodes ==> NodeAtMost(net.nodes[a], CapsOf(net)))
    && (forall p :: p in net.sent ==> MessageAtMost(p.out.message, CapsOf(net)))
  }

  /** Steps that ask for addresses in play, without errors, before rollover of the node's number, and without a request
      more than half a word behind its destination. */
  predicate Counted(net: Net, step: NetStep, addresses: set<u32>)
    requires NetEnabled(net, step)
  {
    && !step.event.ReceiveRerr? && AsksInPlay(step, addresses)
    && net.nodes[step.at].sequenceNum < WORD - 1 && AsksRecently(net.nodes[step.at], step.event, step.now)
  }

  lemma NodeGrows(n: Node, caps: Caps, caps': Caps)
    requires NodeAtMost(n, caps) && CapsGrow(caps, caps')
    ensures NodeAtMost(n, caps')
  {
    forall id | id in n.threads && n.threads[id].RingSearch?
      ensures RequestAtMost(n.threads[id].request, caps')
    {
      assert RequestAtMost(n.threads[id].request, caps);
    }
  }

  lemma MessageGrows(m: Message, caps: Caps, caps': Caps)
    requires MessageAtMost(m, caps) && CapsGrow(caps, caps')
    ensures MessageAtMost(m, caps')
  {
  }

  lemma ReceivedAtMost(net: Net, step: NetStep)
    requires Authoritative(net) && NetEnabled(net, step) && !step.event.ReceiveRerr?
    ensures EventAtMost(step.event, CapsOf(net))
  {
    hide Enabled, CapsOf, NodeAtMost;
  }

  /** The node that takes the step. */
  lemma ActorAtMost(net: Net, step: NetStep, addresses: set<u32>)
    requires Authoritative(net) && AllInPlay(net, addresses) && NetEnabled(net, step) && Counted(net, step, addresses)
    requires DistinctSlots(addresses)
    ensures CapsGrow(CapsOf(net), CapsOf(NetAfter(net, step)))
    ensures NodeAtMost(Effects(net, step).node, CapsOf(NetAfter(net, step)))
    ensures OutsAtMost(Effects(net, step).outs, CapsOf(NetAfter(net, step)))
  {
    hide Apply, Enabled, EntriesAtMost, ThreadsAtMost, OutsAtMost, EventAtMost, DistinctSlots, Placed, OperationsOf,
      AsksRecently, ProperNode, Proper, Concerns;
    var n, ev, now, caps := net.nodes[step.at], step.event, step.now, CapsOf(net);
    var r, caps' := Effects(net, step), CapsOf(NetAfter(net, step));
    ReceivedAtMost(net, step);
    AskedInPlay(net, step, addresses);
    EventRespects(n, ev, now, caps, addresses);
    EventEntries(n, ev, now, caps, addresses);
    EventIsOperations(n, ev, now);
    OperationsPlace(n, OperationsOf(n, ev, now), now, {});
    assert caps' == caps[n.ip := r.node.sequenceNum];
    EntriesGrow(r.node, caps, caps');
  }

  lemma EntriesGrow(n: Node, caps: Caps, caps': Caps)
    requires EntriesAtMost(n, caps) && CapsGrow(caps, caps')
    ensures EntriesAtMost(n, caps')
  {
  }

  lemma StepAuthoritative(net: Net, step: NetStep, addresses: set<u32>)
    requires Authoritative(net) && AllInPlay(net, addresses) && NetEnabled(net, step) && Counted(net, step, addresses)
    requires DistinctSlots(addresses)
    ensures Authoritative(NetAfter(net, step)) && NetAfter(net, step).nodes.Keys == net.nodes.Keys
  {
    hide Apply, Enabled, NodeAtMost, MessageAtMost, CapsOf, CapsGrow, DistinctSlots, AllInPlay;
    var net' := NetAfter(net, step);
    StepNames(net, step);
    ActorAtMost(net, step, addresses);
    forall a | a in net'.nodes
      ensures NodeAtMost(net'.nodes[a], CapsOf(net'))
    {
      if a != step.at {
        NodeGrows(net.nodes[a], CapsOf(net), CapsOf(net'));
      }
    }
    forall p | p in net'.sent
      ensures MessageAtMost(p.out.message, CapsOf(net'))
    {
      if p in net.sent {
        MessageGrows(p.out.message, CapsOf(net), CapsOf(net'));
      } else {
        assert p.out in Effects(net, step).outs;
      }
    }
  }

  ghost predicate AllCounted(net: Net, run: seq<NetStep>, addresses: set<u32>)
    requires NetLegal(net, run)
    decreases |run|
  {
    run != [] ==> Counted(net, run[0], addresses) && AllCounted(NetAfter(net, run[0]), run[1..], addresses)
  }

  lemma {:induction false} RunAuthoritative(net: Net, run: seq<NetStep>, addresses: set<u32>)
    requires Authoritative(net) && NetLegal(net, run) && AllCounted(net, run, addresses)
    requires AllInPlay(net, addresses) && DistinctSlots(addresses) && 0 !in addresses
    ensures Authoritative(NetFinal(net, run)) && NetFinal(net, run).nodes.Keys == net.nodes.Keys
    decreases |run|
  {
    hide NetEnabled, Authoritative, Counted, Effects, DistinctSlots, AllInPlay, AsksInPlay;
    if run == [] {
    } else {
      StepAuthoritative(net, run[0], addresses);
      assert AsksInPlay(run[0], addresses) by { CountedAsks(net, run[0], addresses); }
      StepInPlay(net, run[0], addresses);
      RunAuthoritative(NetAfter(net, run[0]), run[1..], addresses);
    }
  }

  lemma CountedAsks(net: Net, step: NetStep, addresses: set<u32>)
    requires NetEnabled(net, step) && Counted(net, step, addresses)
    ensures AsksInPlay(step, addresses)
  {
    hide AsksInPlay;
  }

  /** In every run of requests, replies, hellos, data and timers, without errors, before rollover and without a request
      more than half a word behind its destination: no number recorded or on the way for a node exceeds the node's
      own. */
  lemma SequenceNumberAuthority(nodes: set<u32>, addresses: set<u32>, broadcastIp: u32, run: seq<NetStep>, d: u32)
    requires DistinctSlots(addresses) && nodes <= addresses && 0 !in addresses && d in nodes
    requires NetLegal(NetBoot(nodes, broadcastIp), run) && AllCounted(NetBoot(nodes, broadcastIp), run, addresses)
    ensures var net := NetFinal(NetBoot(nodes, broadcastIp), run);
            && d in net.nodes
            && (forall a :: a in net.nodes && HasEntry(net.nodes[a], d) ==>
                  EntryOf(net.nodes[a], d).destSeq <= net.nodes[d].sequenceNum)
            && (forall p :: p in net.sent && p.out.message.RreqMessage? && p.out.message.rreq.srcIp == d ==>
                  p.out.message.rreq.srcSeq <= net.nodes[d].sequenceNum)
            && (forall p :: p in net.sent && p.out.message.RreqMessage? && p.out.message.rreq.destIp == d ==>
                  p.out.message.rreq.destSeq <= net.nodes[d].sequenceNum)
            && (forall p :: p in net.sent && p.out.message.RrepMessage? && p.out.message.rrep.destIp == d ==>
                  p.out.message.rrep.destSeq <= net.nodes[d].sequenceNum)
  {
    var start := NetBoot(nodes, broadcastIp);
    assert start.nodes.Keys == nodes && Authoritative(start);
    StartInPlay(nodes, addresses, broadcastIp);
    RunAuthoritative(start, run, addresses);
    hide NetFinal, NetLegal, AllCounted, NetBoot;
    var net := NetFinal(start, run);
    forall p | p in net.sent
      ensures MessageAtMost(p.out.message, CapsOf(net))
    {
    }
    forall a | a in net.nodes && HasEntry(net.nodes[a], d)
      ensures EntryOf(net.nodes[a], d).destSeq <= net.nodes[d].sequenceNum
    {
      assert NodeAtMost(net.nodes[a], CapsOf(net));
    }
  }

  /** So a destination that takes a request in such a run answers it, with its old number plus one if and only if
      the request is recent, and otherwise with the number the request knows. */
  lemma DestinationAdvertisesNext(net: Net, step: NetStep)
    requires Authoritative(net) && NetEnabled(net, step) && step.event.ReceiveRreq?
    requires var n, ev := net.nodes[step.at], step.event;
             && ev.rreq.destIp == n.ip && n.sequenceNum < WORD - 1
             && Taken(n, ev.sender, ev.rreq, step.now, ev.junk)
    ensures var n, m, r := net.nodes[step.at], step.event.rreq, Effects(net, step);
            && (r.node.sequenceNum == n.sequenceNum + 1 <==> Recent(n.sequenceNum, m))
            && (r.node.sequenceNum != n.sequenceNum + 1 ==> r.node.sequenceNum == m.destSeq <= n.sequenceNum)
            && r.outs == [Unicast(step.event.sender,
                                  RrepMessage(Rrep(0, 0, n.ip, r.node.sequenceNum, m.srcIp, MY_ROUTE_TIMEOUT)))]
  {
    hide PreviousHop, ReverseRoute, AlreadySeen, Activate, ReplySequence;
    var n, m := net.nodes[step.at], step.event.rreq;
    ReceivedAtMost(net, step);
    OldRequestTakesNumberBack(n.sequenceNum, m.(hopCount := NextHopCount(m.hopCount)));
    SameReply(n.sequenceNum, m, m.(hopCount := NextHopCount(m.hopCount)));
  }

  lemma SameReply(own: u32, m: Rreq, m': Rreq)
    requires m' == m.(hopCount := m'.hopCount)
    ensures ReplySequence(own, m') == ReplySequence(own, m) && (Recent(own, m) <==> Recent(own, m'))
  {
  }
}
