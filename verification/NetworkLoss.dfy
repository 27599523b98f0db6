/** In a network no error is long enough to crowd out a report: every neighbour that was handed a route is told. */
module NetworkLoss {
  import opened Aodv
  import opened Messages
  import opened TimeFuncs
  import opened RoutingTable
  import opened SendMessages
  import opened RecvMessages
  import opened Callbacks
  import opened TableRefinement
  import opened RouteErrors
  import opened NoSilentLoss
  import opened Network
  import opened InPlay

  // ---- Errors are short ----

  predicate Short(m: Message) {
    m.RerrMessage? ==> |m.pairs| <= 127
  }

  ghost predicate OutsShort(outs: seq<Out>) {
    forall o <- outs :: Short(o.message)
  }

  lemma AnswerSendsNoError(n: Node, sender: u32, m: Rreq, now: Time)
    requires HasEntry(n, m.srcIp)
    ensures OutsShort(Answer(n, sender, m, now).outs)
  {
    hide Activate, AddPrecursor, ReplySequence, Remaining, KnowsNewer;
  }

  lemma RequestSendsNoError(n: Node, sender: u32, m: Rreq, now: Time, junk: u32)
    ensures OutsShort(RecvRreq(n, sender, m, now, junk).outs)
  {
    hide PreviousHop, ReverseRoute, AlreadySeen, Answer, OutsShort;
    NothingIsShort();
    var m' := m.(hopCount := NextHopCount(m.hopCount));
    var n1 := PreviousHop(n, sender, m.srcIp, now, junk);
    AnswerSendsNoError(ReverseRoute(n1, sender, m', now), sender, m', now);
  }

  lemma NothingIsShort()
    ensures OutsShort([])
  {
  }

  lemma EventSendsShort(n: Node, ev: Event, now: Time)
    requires Enabled(n, ev, now)
    ensures OutsShort(Apply(n, ev, now).outs)
  {
    hide RecvRreq, RecvRrep, RecvRerr, OutgoingMessage, ForwardedMessages, SendRreqOutcome, IncomingDataMessage, Run;
    match ev
    case ReceiveRreq(sender, m, junk) => RequestSendsNoError(n, sender, m, now, junk);
    case ReceiveRrep(sender, m, junk, junk') => RecvRrepSends(n, sender, m, now, junk, junk');
    case ReceiveRerr(sender, pairs) => RerrIsShort(n, sender, pairs, now);
    case DataThrough(src, dest) => ForwardedHands(n, src, dest, now);
    case Wake(id) => RunSends(n, id, now);
    case _ =>
  }

  ghost predicate AllShort(net: Net) {
    forall p :: p in net.sent ==> Short(p.out.message)
  }

  lemma StepShort(net: Net, step: NetStep)
    requires AllShort(net) && NetEnabled(net, step)
    ensures AllShort(NetAfter(net, step))
  {
    hide Apply, Enabled, Short;
    EventSendsShort(net.nodes[step.at], step.event, step.now);
    forall p | p in NetAfter(net, step).sent
      ensures Short(p.out.message)
    {
      if p !in net.sent {
        assert p.out in Effects(net, step).outs;
      }
    }
  }

  // ---- What a node of a network has handed out ----

  /** The promises of node x standing at the end of a run. */
  ghost function NetPromises(net: Net, run: seq<NetStep>, x: u32, past: set<Promise>): set<Promise>
    requires NetLegal(net, run)
    decreases |run|
  {
    if run == [] then past
    else NetPromises(NetAfter(net, run[0]), run[1..], x, PromisesAfter(net, run[0], x, past))
  }

  ghost function PromisesAfter(net: Net, step: NetStep, x: u32, past: set<Promise>): set<Promise>
    requires NetEnabled(net, step)
  {
    if step.at == x then NextPromises(net.nodes[x], Step(step.event, step.now), past) else past
  }

  /** What node x has handed out is about addresses in play, and it remembers to whom. */
  ghost predicate Kept(net: Net, x: u32, promises: set<Promise>, addresses: set<u32>) {
    && x in net.nodes && Covered(net.nodes[x], promises)
    && forall p :: p in promises ==> p.dest in addresses
  }

  lemma StepKeeps(net: Net, step: NetStep, x: u32, past: set<Promise>, addresses: set<u32>)
    requires AllInPlay(net, addresses) && NetEnabled(net, step) && AsksInPlay(step, addresses) && 0 !in addresses
    requires Kept(net, x, past, addresses)
    ensures Kept(NetAfter(net, step), x, PromisesAfter(net, step, x, past), addresses)
  {
    hide Apply, Enabled, Covered, ProperNode;
    if step.at == x {
      var n, s := net.nodes[x], Step(step.event, step.now);
      StepCovers(n, s, past);
      ReceivedProper(net, step, addresses);
      EventSendsProper(n, step.event, step.now, addresses);
      forall p | p in NextPromises(n, s, past)
        ensures p.dest in addresses
      {
        if p !in past {
          var o :| o in Apply(n, step.event, step.now).outs && HandsOut(n.ip, o) &&
                   p == Promise(o.message.rrep.destIp, o.to);
          assert Proper(n.ip, o.message, addresses);
        }
      }
    }
  }

  lemma {:induction false} RunKeeps(net: Net, run: seq<NetStep>, x: u32, past: set<Promise>, addresses: set<u32>)
    requires AllInPlay(net, addresses) && AllShort(net) && Kept(net, x, past, addresses) && 0 !in addresses
    requires NetLegal(net, run) && AllAskInPlay(run, addresses)
    ensures AllInPlay(NetFinal(net, run), addresses) && AllShort(NetFinal(net, run))
    ensures Kept(NetFinal(net, run), x, NetPromises(net, run, x, past), addresses)
    decreases |run|
  {
    hide NetEnabled, NetAfter, AllInPlay, AllShort, Kept, PromisesAfter, AsksInPlay;
    if run == [] {
    } else {
      assert AsksInPlay(run[0], addresses) && AllAskInPlay(run[1..], addresses);
      StepInPlay(net, run[0], addresses);
      StepShort(net, run[0]);
      StepKeeps(net, run[0], x, past, addresses);
      RunKeeps(NetAfter(net, run[0]), run[1..], x, PromisesAfter(net, run[0], x, past), addresses);
    }
  }

  // ---- Everybody is told ----

  /** An error arrives at node x and takes away its route to dest. */
  predicate TakesAway(net: Net, step: NetStep, x: u32, dest: u32) {
    && NetEnabled(net, step) && step.at == x && step.event.ReceiveRerr?
    && FirstNumber(step.event.pairs, Slot(dest)).Some?
    && HasEntry(net.nodes[x], dest) && Affected(EntryOf(net.nodes[x], dest), step.event.sender)
  }

  /** In every run of a network whose users ask for addresses in play: when an error takes away a route that a node has
      handed to a neighbour, the node tells the neighbour, with the number received. */
  lemma EveryNeighbourIsTold(nodes: set<u32>, addresses: set<u32>, broadcastIp: u32, run: seq<NetStep>, x: u32,
                             p: Promise, step: NetStep)
    requires DistinctSlots(addresses) && nodes <= addresses && 0 !in addresses && x in nodes
    requires NetLegal(NetBoot(nodes, broadcastIp), run) && AllAskInPlay(run, addresses)
    requires p in NetPromises(NetBoot(nodes, broadcastIp), run, x, {}) && p.neighbour != 0
    requires TakesAway(NetFinal(NetBoot(nodes, broadcastIp), run), step, x, p.dest)
    ensures var net := NetFinal(NetBoot(nodes, broadcastIp), run);
            var number := FirstNumber(step.event.pairs, Slot(p.dest)).value;
            Told(Effects(net, step).outs, Pair(p.dest, number), p.neighbour)
  {
    var boot := NetBoot(nodes, broadcastIp);
    StartInPlay(nodes, addresses, broadcastIp);
    RunKeeps(boot, run, x, {}, addresses);
    hide NetBoot, NetFinal, NetLegal, NetPromises;
    LastErrorTells(NetFinal(boot, run), NetPromises(boot, run, x, {}), addresses, x, p, step);
  }

  lemma LastErrorTells(net: Net, promises: set<Promise>, addresses: set<u32>, x: u32, p: Promise, step: NetStep)
    requires DistinctSlots(addresses) && AllInPlay(net, addresses) && AllShort(net) && Kept(net, x, promises, addresses)
    requires p in promises && p.neighbour != 0 && TakesAway(net, step, x, p.dest)
    ensures var number := FirstNumber(step.event.pairs, Slot(p.dest)).value;
            Told(Effects(net, step).outs, Pair(p.dest, number), p.neighbour)
  {
    hide RecvRerr, DueOf, Told, Affected, FirstNumber, Covered;
    var n, ev := net.nodes[x], step.event;
    ErrorIsShort(net, step);
    DestinationIs(net, x, p.dest, addresses);
    LossIsReported(n, promises, p, ev.sender, ev.pairs, step.now);
    DueIsShort(n, ev.sender, ev.pairs);
    var report := Report(EntryOf(n, p.dest), FirstNumber(ev.pairs, Slot(p.dest)).value);
    var due := DueOf(n, ev.sender, ev.pairs);
    var i :| 0 <= i < |due| && due[i] == report;
  }

  lemma ErrorIsShort(net: Net, step: NetStep)
    requires AllShort(net) && NetEnabled(net, step) && step.event.ReceiveRerr?
    ensures |step.event.pairs| <= 127
  {
    assert Short(RerrMessage(step.event.pairs));
  }

  lemma DestinationIs(net: Net, x: u32, dest: u32, addresses: set<u32>)
    requires DistinctSlots(addresses) && AllInPlay(net, addresses) && x in net.nodes && dest in addresses
    requires HasEntry(net.nodes[x], dest)
    ensures Placed(net.nodes[x]) && EntryOf(net.nodes[x], dest).destIp == dest
  {
    hide ProperSearches;
  }

  lemma DueIsShort(n: Node, sender: u32, pairs: seq<Pair>)
    ensures |DueOf(n, sender, pairs)| <= |pairs|
  {
    DueListed(n.table, sender, pairs, {});
  }
}
