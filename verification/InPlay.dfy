/** In a network whose users ask for addresses in play, all messages are about addresses in play, and hellos come from
    their own subject; so what single nodes keep under these conditions, the nodes of every network keep. */
module InPlay {
  import opened Aodv
  import opened Messages
  import opened TimeFuncs
  import opened RoutingTable
  import opened SendMessages
  import opened RecvMessages
  import opened Callbacks
  import opened Operations
  import opened TableRefinement
  import opened KernelAgreement
  import opened NextHopIndex
  import LoopFreedom
  import opened Network

  /** A message of this sender names addresses in play; a reply without an originator is a hello about its sender. */
  predicate Proper(from: u32, m: Message, addresses: set<u32>) {
    match m
    case RreqMessage(rreq) => rreq.srcIp in addresses && rreq.destIp in addresses
    case RrepMessage(rrep) =>
      rrep.destIp in addresses && if rrep.srcIp == 0 then rrep.destIp == from else rrep.srcIp in addresses
    case RerrMessage(_) => true
  }

  ghost predicate OutsProper(from: u32, outs: seq<Out>, addresses: set<u32>) {
    forall o <- outs :: Proper(from, o.message, addresses)
  }

  predicate ProperEvent(ev: Event, addresses: set<u32>) {
    match ev
    case ReceiveRreq(sender, m, _) => sender in addresses && Proper(sender, RreqMessage(m), addresses)
    case ReceiveRrep(sender, m, _, _) => sender in addresses && Proper(sender, RrepMessage(m), addresses)
    case DataOut(dest, _) => dest in addresses
    case _ => true
  }

  predicate ProperSearch(t: RoutingTable.Thread, addresses: set<u32>) {
    t.RingSearch? ==> t.request.srcIp in addresses && t.request.destIp in addresses
  }

  ghost predicate ProperSearches(n: Node, addresses: set<u32>) {
    forall id :: id in n.threads ==> ProperSearch(n.threads[id], addresses)
  }

  // ---- One node ----

  lemma RunProper(n: Node, id: nat, now: Time, addresses: set<u32>)
    requires ProperSearches(n, addresses) && Within(n, addresses) && n.ip in addresses && Enabled(n, Wake(id), now)
    ensures ProperSearches(Run(n, id, now).node, addresses)
  {
    hide Plan, AddMs, WakeAt, FailSearch, Timely;
    var r := Run(n, id, now).node;
    if n.threads[id].RingSearch? {
      assert NoNewSearch(n, FailSearch(n, id, now));
    }
    forall i | i in r.threads
      ensures ProperSearch(r.threads[i], addresses)
    {
      assert i in n.threads ==> ProperSearch(n.threads[i], addresses);
      assert ProperSearch(n.threads[id], addresses);
    }
  }

  lemma OperationProper(n: Node, op: Operation, now: Time, addresses: set<u32>)
    requires ProperSearches(n, addresses) && Within(n, addresses) && n.ip in addresses && Allowed(n, op, now)
    ensures ProperSearches(Do(n, op, now), addresses)
  {
    hide PreviousHop, ReverseRoute, ForwardRoute, Hello, Invalidate, RefreshRoute, LoseRoute, SendRreq,
      SendRreqOutcome, Run;
    if op.Thread? {
      RunProper(n, op.id, now, addresses);
    } else {
      assert NoNewSearch(n, Do(n, op, now));
    }
  }

  lemma {:induction false} OperationsProper(n: Node, ops: seq<Operation>, now: Time, addresses: set<u32>)
    requires ProperSearches(n, addresses) && Within(n, addresses) && Placed(n) && n.ip in addresses
    requires AllAllowed(n, ops, now) && forall op <- ops :: Creates(op) <= addresses
    requires |ops| <= 1 || forall op <- ops :: !op.Thread?
    ensures ProperSearches(DoAll(n, ops, now), addresses)
    decreases |ops|
  {
    hide Do, Allowed, ProperSearches, Within, Placed;
    if ops == [] {
    } else {
      OperationProper(n, ops[0], now, addresses);
      OperationPlaces(n, ops[0], now, addresses);
      if |ops| > 1 {
        LoopFreedom.OperationKeepsAddress(n, ops[0], now);
        OperationsProper(Do(n, ops[0], now), ops[1..], now, addresses);
      } else {
        assert DoAll(n, ops, now) == Do(n, ops[0], now);
      }
    }
  }

  /** What a node keeps of itself. */
  ghost predicate ProperNode(n: Node, addresses: set<u32>) {
    Placed(n) && Within(n, addresses) && ProperSearches(n, addresses) && n.ip in addresses
  }

  lemma EventKeepsProper(n: Node, ev: Event, now: Time, addresses: set<u32>)
    requires ProperNode(n, addresses) && Enabled(n, ev, now) && ProperEvent(ev, addresses)
    ensures ProperNode(Apply(n, ev, now).node, addresses)
  {
    hide Apply, OperationsOf, Placed, Within, ProperSearches;
    assert Concerns(ev, addresses);
    OperationsFrom(n, ev, now);
    FewThreads(n, ev, now);
    EventIsOperations(n, ev, now);
    OperationsPlace(n, OperationsOf(n, ev, now), now, addresses);
    OperationsProper(n, OperationsOf(n, ev, now), now, addresses);
    ApplyKeepsAddress(n, ev, now);
  }

  lemma AnswerProper(n: Node, sender: u32, m: Rreq, now: Time, addresses: set<u32>)
    requires HasEntry(n, m.srcIp) && n.ip in addresses && Proper(sender, RreqMessage(m), addresses) && 0 !in addresses
    ensures OutsProper(n.ip, Answer(n, sender, m, now).outs, addresses)
  {
    hide Activate, AddPrecursor, ReplySequence, Remaining, KnowsNewer;
  }

  lemma RequestAnsweredProper(n: Node, sender: u32, m: Rreq, now: Time, junk: u32, addresses: set<u32>)
    requires n.ip in addresses && Proper(sender, RreqMessage(m), addresses) && 0 !in addresses
    ensures OutsProper(n.ip, RecvRreq(n, sender, m, now, junk).outs, addresses)
  {
    hide PreviousHop, ReverseRoute, Answer, AlreadySeen, OutsProper;
    NothingIsProper(n.ip, addresses);
    var n1 := PreviousHop(n, sender, m.srcIp, now, junk);
    var m' := m.(hopCount := NextHopCount(m.hopCount));
    AnswerProper(ReverseRoute(n1, sender, m', now), sender, m', now, addresses);
  }

  lemma NothingIsProper(from: u32, addresses: set<u32>)
    ensures OutsProper(from, [], addresses)
  {
  }

  lemma ReplyForwardedProper(n: Node, sender: u32, m: Rrep, now: Time, junk: u32, junk': u32, addresses: set<u32>)
    requires Proper(sender, RrepMessage(m), addresses)
    ensures OutsProper(n.ip, RecvRrep(n, sender, m, now, junk, junk').outs, addresses)
  {
    hide PreviousHop, ForwardRoute, Hello, StopSearch, Activate, AddPrecursor;
  }

  lemma EventSendsProper(n: Node, ev: Event, now: Time, addresses: set<u32>)
    requires ProperNode(n, addresses) && Enabled(n, ev, now) && ProperEvent(ev, addresses) && 0 !in addresses
    ensures OutsProper(n.ip, Apply(n, ev, now).outs, addresses)
  {
    hide RecvRreq, RecvRrep, RecvRerr, OutgoingMessage, ForwardedMessages, SendRreqOutcome, IncomingDataMessage,
      Run, Placed, Within;
    match ev
    case ReceiveRreq(sender, m, junk) => RequestAnsweredProper(n, sender, m, now, junk, addresses);
    case ReceiveRrep(sender, m, junk, junk') => ReplyForwardedProper(n, sender, m, now, junk, junk', addresses);
    case ReceiveRerr(sender, pairs) => RecvRerrSends(n, sender, pairs, now);
    case DataThrough(src, dest) => ForwardedSends(n, src, dest, now);
    case Wake(id) => RunSends(n, id, now);
    case _ =>
  }

  // ---- The network ----

  ghost predicate AllInPlay(net: Net, addresses: set<u32>) {
    && Named(net) && FromNodes(net) && net.nodes.Keys <= addresses
    && (forall a :: a in net.nodes ==> ProperNode(net.nodes[a], addresses))
    && (forall p :: p in net.sent ==> Proper(p.from, p.out.message, addresses))
  }

  /** Packets of the node's own users go to addresses in play. */
  predicate AsksInPlay(step: NetStep, addresses: set<u32>) {
    step.event.DataOut? ==> step.event.dest in addresses
  }

  lemma ReceivedProper(net: Net, step: NetStep, addresses: set<u32>)
    requires AllInPlay(net, addresses) && NetEnabled(net, step) && AsksInPlay(step, addresses)
    ensures ProperEvent(step.event, addresses)
  {
    hide Enabled, ProperNode;
  }

  lemma StepInPlay(net: Net, step: NetStep, addresses: set<u32>)
    requires AllInPlay(net, addresses) && NetEnabled(net, step) && AsksInPlay(step, addresses) && 0 !in addresses
    ensures AllInPlay(NetAfter(net, step), addresses)
  {
    hide Apply, Enabled, ProperNode, Proper;
    var n, net' := net.nodes[step.at], NetAfter(net, step);
    ReceivedProper(net, step, addresses);
    StepNames(net, step);
    EventKeepsProper(n, step.event, step.now, addresses);
    EventSendsProper(n, step.event, step.now, addresses);
    forall p | p in net'.sent
      ensures Proper(p.from, p.out.message, addresses)
    {
      if p !in net.sent {
        assert p.out in Effects(net, step).outs;
      }
    }
  }

  // ---- What all nodes keep ----

  predicate AllAskInPlay(run: seq<NetStep>, addresses: set<u32>) {
    forall i :: 0 <= i < |run| ==> AsksInPlay(run[i], addresses)
  }

  ghost predicate AllAgree(net: Net, addresses: set<u32>) {
    forall a :: a in net.nodes ==> Agrees(net.nodes[a], addresses)
  }

  lemma {:induction false} RunAgrees(net: Net, run: seq<NetStep>, addresses: set<u32>)
    requires AllInPlay(net, addresses) && AllAgree(net, addresses) && 0 !in addresses
    requires NetLegal(net, run) && AllAskInPlay(run, addresses)
    ensures AllAgree(NetFinal(net, run), addresses) && AllInPlay(NetFinal(net, run), addresses)
    ensures NetFinal(net, run).nodes.Keys == net.nodes.Keys
    decreases |run|
  {
    hide Apply, Enabled, Agrees, AllInPlay, AsksInPlay, Deliverable;
    if run == [] {
    } else {
      var step, net' := run[0], NetAfter(net, run[0]);
      AskedInPlay(net, step, addresses);
      StepInPlay(net, step, addresses);
      KernelAgreement.EventKeeps(net.nodes[step.at], step.event, step.now, addresses);
      assert AllAskInPlay(run[1..], addresses);
      RunAgrees(net', run[1..], addresses);
    }
  }

  lemma AskedInPlay(net: Net, step: NetStep, addresses: set<u32>)
    requires AllInPlay(net, addresses) && NetEnabled(net, step) && AsksInPlay(step, addresses)
    ensures Concerns(step.event, addresses) && HonestHello(step.event)
  {
    ReceivedProper(net, step, addresses);
    hide AllInPlay;
  }

  lemma StartInPlay(nodes: set<u32>, addresses: set<u32>, broadcastIp: u32)
    requires nodes <= addresses
    ensures AllInPlay(NetBoot(nodes, broadcastIp), addresses) && NetBoot(nodes, broadcastIp).nodes.Keys == nodes
    ensures forall a :: a in nodes ==> NetBoot(nodes, broadcastIp).nodes[a] == Boot(a, broadcastIp)
  {
  }

  /** In every run of a network of nodes whose users ask for addresses in play, through all messages, losses and
      repetitions: a destination has a kernel route at a node if and only if it has a valid entry there. */
  lemma KernelsAgree(nodes: set<u32>, addresses: set<u32>, broadcastIp: u32, run: seq<NetStep>, x: u32, a: u32)
    requires DistinctSlots(addresses) && nodes <= addresses && 0 !in addresses && x in nodes
    requires NetLegal(NetBoot(nodes, broadcastIp), run) && AllAskInPlay(run, addresses)
    ensures var net := NetFinal(NetBoot(nodes, broadcastIp), run);
            && x in net.nodes
            && (a in net.nodes[x].kernel <==>
                  exists s :: s in net.nodes[x].table &&
                              net.nodes[x].table[s].destIp == a && net.nodes[x].table[s].routeValid)
  {
    StartInPlay(nodes, addresses, broadcastIp);
    RunAgrees(NetBoot(nodes, broadcastIp), run, addresses);
    hide NetFinal, NetLegal, AllInPlay, NetBoot;
    assert Agrees(NetFinal(NetBoot(nodes, broadcastIp), run).nodes[x], addresses);
  }

  // ---- The index ----

  /** No step of the run removes an entry. */
  predicate NothingRemovedAnywhere(net: Net, run: seq<NetStep>)
    requires NetLegal(net, run)
    decreases |run|
  {
    run != [] ==>
      && net.nodes[run[0].at].table.Keys <= Effects(net, run[0]).node.table.Keys
      && NothingRemovedAnywhere(NetAfter(net, run[0]), run[1..])
  }

  ghost predicate AllIndexed(net: Net) {
    forall a :: a in net.nodes ==> Indexed(net.nodes[a])
  }

  lemma {:induction false} RunIndexesAll(net: Net, run: seq<NetStep>, addresses: set<u32>)
    requires AllInPlay(net, addresses) && AllIndexed(net) && 0 !in addresses && DistinctSlots(addresses)
    requires NetLegal(net, run) && AllAskInPlay(run, addresses) && NothingRemovedAnywhere(net, run)
    ensures AllIndexed(NetFinal(net, run)) && NetFinal(net, run).nodes.Keys == net.nodes.Keys
    decreases |run|
  {
    hide Apply, Enabled, Indexed, AllInPlay, AsksInPlay, Deliverable, DistinctSlots, Placed, Within;
    if run == [] {
    } else {
      var step := run[0];
      AskedInPlay(net, step, addresses);
      StepInPlay(net, step, addresses);
      ActorInPlay(net, step.at, addresses);
      EventIndexed(net.nodes[step.at], step.event, step.now, addresses);
      assert AllAskInPlay(run[1..], addresses);
      RunIndexesAll(NetAfter(net, step), run[1..], addresses);
    }
  }

  lemma ActorInPlay(net: Net, a: u32, addresses: set<u32>)
    requires AllInPlay(net, addresses) && a in net.nodes
    ensures Placed(net.nodes[a]) && Within(net.nodes[a], addresses)
  {
  }

  /** In every such run, as long as no entry has been removed: at every node every route through another node is
      recorded in that node's entry, and no list names a destination twice. */
  lemma NextHopsAreIndexedEverywhere(nodes: set<u32>, addresses: set<u32>, broadcastIp: u32, run: seq<NetStep>,
                                     x: u32, s: u8)
    requires DistinctSlots(addresses) && nodes <= addresses && 0 !in addresses && x in nodes
    requires NetLegal(NetBoot(nodes, broadcastIp), run) && AllAskInPlay(run, addresses)
    requires NothingRemovedAnywhere(NetBoot(nodes, broadcastIp), run)
    ensures var net := NetFinal(NetBoot(nodes, broadcastIp), run);
            x in net.nodes && IndexedAt(net.nodes[x], s)
  {
    StartInPlay(nodes, addresses, broadcastIp);
    RunIndexesAll(NetBoot(nodes, broadcastIp), run, addresses);
    hide NetFinal, NetLegal, AllInPlay, NetBoot, NothingRemovedAnywhere;
    assert Indexed(NetFinal(NetBoot(nodes, broadcastIp), run).nodes[x]);
  }
}
