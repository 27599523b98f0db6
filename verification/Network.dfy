/** A network of nodes: every message ever sent may be delivered any number of times, in any order, or never,
    to any node (broadcast) or to its addressee (unicast). */
module Network {
  import opened Aodv
  import opened Messages
  import opened TimeFuncs
  import opened RoutingTable
  import opened SendMessages
  import opened RecvMessages
  import opened Callbacks

  datatype Packet = Packet(from: u32, out: Out)

  datatype Net = Net(nodes: map<u32, Node>, sent: set<Packet>)

  /** One node takes one step. */
  datatype NetStep = NetStep(at: u32, event: Event, now: Time)

  /** The message has been sent by its claimed sender, to this node or to all. */
  predicate Carried(net: Net, sender: u32, at: u32, message: Message) {
    Packet(sender, Broadcast(message)) in net.sent || Packet(sender, Unicast(at, message)) in net.sent
  }

  predicate Deliverable(net: Net, at: u32, ev: Event) {
    match ev
    case ReceiveRreq(sender, m, _) => Carried(net, sender, at, RreqMessage(m))
    case ReceiveRrep(sender, m, _, _) => Carried(net, sender, at, RrepMessage(m))
    case ReceiveRerr(sender, pairs) => Carried(net, sender, at, RerrMessage(pairs))
    case _ => true
  }

  predicate NetEnabled(net: Net, step: NetStep) {
    step.at in net.nodes && Enabled(net.nodes[step.at], step.event, step.now) && Deliverable(net, step.at, step.event)
  }

  function Effects(net: Net, step: NetStep): Effect
    requires NetEnabled(net, step)
  {
    Apply(net.nodes[step.at], step.event, step.now)
  }

  function NetAfter(net: Net, step: NetStep): Net
    requires NetEnabled(net, step)
  {
    var r := Effects(net, step);
    Net(net.nodes[step.at := r.node], net.sent + (set o | o in r.outs :: Packet(step.at, o)))
  }

  predicate NetLegal(net: Net, run: seq<NetStep>)
    decreases |run|
  {
    run != [] ==> NetEnabled(net, run[0]) && NetLegal(NetAfter(net, run[0]), run[1..])
  }

  function NetFinal(net: Net, run: seq<NetStep>): Net
    requires NetLegal(net, run)
    decreases |run|
  {
    if run == [] then net else NetFinal(NetAfter(net, run[0]), run[1..])
  }

  /** All nodes just started, nothing sent. */
  function NetBoot(addresses: set<u32>, broadcastIp: u32): Net {
    Net(map a | a in addresses :: Boot(a, broadcastIp), {})
  }

  /** Nodes answer to their own addresses. */
  ghost predicate Named(net: Net) {
    forall a :: a in net.nodes ==> net.nodes[a].ip == a
  }

  lemma ApplyKeepsAddress(n: Node, ev: Event, now: Time)
    requires Enabled(n, ev, now)
    ensures Apply(n, ev, now).node.ip == n.ip
  {
    hide PreviousHop, ReverseRoute, ForwardRoute, Hello, Answer, ForwardReply, AlreadySeen, RefreshRoute, LoseRoute,
      SendRreq, SendRreqOutcome, ScanPairs, AddMs, WakeAt;
    match ev
    case ReceiveRerr(sender, pairs) => ScanKeepsAddress(n, sender, pairs, now, Resend(0, false, 0, []));
    case _ =>
  }

  lemma {:induction false} ScanKeepsAddress(n: Node, sender: u32, pairs: seq<Pair>, now: Time, r: Resend)
    requires ResendOk(r)
    ensures ScanPairs(n, sender, pairs, now, r).node.ip == n.ip
    decreases |pairs|
  {
    hide Invalidate, Collect;
    if pairs == [] {
    } else {
      if Hit(n, sender, pairs[0]) {
        ScanKeepsAddress(Invalidate(n, pairs[0], now), sender, pairs[1..], now,
                         Collect(r, EntryOf(n, pairs[0].destIp), pairs[0].destSeq));
      } else {
        ScanKeepsAddress(n, sender, pairs[1..], now, r);
      }
    }
  }

  /** Senders of packets are nodes. */
  ghost predicate FromNodes(net: Net) {
    forall p :: p in net.sent ==> p.from in net.nodes
  }

  lemma StepNames(net: Net, step: NetStep)
    requires NetEnabled(net, step) && Named(net) && FromNodes(net)
    ensures var net' := NetAfter(net, step);
            Named(net') && FromNodes(net') && net'.nodes.Keys == net.nodes.Keys && net.sent <= net'.sent
  {
    hide Apply, Enabled;
    ApplyKeepsAddress(net.nodes[step.at], step.event, step.now);
  }

  // ---- Requests on the way ----

  /** m' is m one hop further. */
  predicate Relayed(m: Rreq, m': Rreq) {
    && m.ttl > 1
    && m' == m.(hopCount := NextHopCount(m.hopCount), ttl := m.ttl - 1, destSeq := m'.destSeq)
  }

  /** The event is a turn of a search thread that still has rings to send. */
  predicate Originates(n: Node, ev: Event) {
    ev.Wake? && ev.id in n.threads && n.threads[ev.id].RingSearch? && |n.threads[ev.id].log| < |n.threads[ev.id].plan|
  }

  lemma AnswerRelays(n: Node, sender: u32, m: Rreq, now: Time)
    requires HasEntry(n, m.srcIp)
    ensures forall o <- Answer(n, sender, m, now).outs :: o.message.RreqMessage? ==>
              o.Broadcast? && m.ttl > 1 && o.message.rreq == m.(ttl := m.ttl - 1, destSeq := o.message.rreq.destSeq)
  {
    hide Activate, AddPrecursor, ReplySequence, Remaining, KnowsNewer;
  }

  /** A node sends requests only by relaying one or by a turn of its own search, and always broadcasts them. */
  lemma RequestsSent(n: Node, ev: Event, now: Time)
    requires Enabled(n, ev, now)
    ensures forall o <- Apply(n, ev, now).outs :: o.message.RreqMessage? ==>
              && o.Broadcast?
              && ((ev.ReceiveRreq? && Relayed(ev.rreq, o.message.rreq)) ||
                  (Originates(n, ev) && Apply(n, ev, now).outs == [o] &&
                   var t := n.threads[ev.id];
                   o.message.rreq == t.request.(rreqId := Incr(n.rreqIds), ttl := t.plan[|t.log|].ttl % 2048)))
  {
    hide RecvRreq, RecvRrep, RecvRerr, OutgoingMessage, ForwardedMessages, SendRreqOutcome, IncomingDataMessage,
      Run;
    match ev
    case ReceiveRreq(sender, m, junk) => RecvRreqSends(n, sender, m, now, junk);
    case ReceiveRrep(sender, m, junk, junk') => RecvRrepSends(n, sender, m, now, junk, junk');
    case ReceiveRerr(sender, pairs) => RecvRerrSends(n, sender, pairs, now);
    case DataThrough(src, dest) => ForwardedSends(n, src, dest, now);
    case Wake(id) => RunSends(n, id, now);
    case _ =>
  }

  lemma RecvRreqSends(n: Node, sender: u32, message: Rreq, now: Time, junk: u32)
    ensures forall o <- RecvRreq(n, sender, message, now, junk).outs :: o.message.RreqMessage? ==>
              o.Broadcast? && Relayed(message, o.message.rreq)
  {
    hide PreviousHop, ReverseRoute, Answer, AlreadySeen;
    var m := message.(hopCount := NextHopCount(message.hopCount));
    var n1 := PreviousHop(n, sender, message.srcIp, now, junk);
    AnswerRelays(ReverseRoute(n1, sender, m, now), sender, m, now);
  }

  lemma RecvRrepSends(n: Node, sender: u32, m: Rrep, now: Time, junk: u32, junk': u32)
    ensures forall o <- RecvRrep(n, sender, m, now, junk, junk').outs :: o.message.RrepMessage?
  {
    hide PreviousHop, ForwardRoute, Hello, StopSearch, Activate, AddPrecursor;
  }

  lemma RecvRerrSends(n: Node, sender: u32, pairs: seq<Pair>, now: Time)
    ensures forall o <- RecvRerr(n, sender, pairs, now).outs :: o.message.RerrMessage?
  {
    hide ScanPairs;
  }

  lemma ForwardedSends(n: Node, src: u32, dest: u32, now: Time)
    requires !LinkBreak(n, dest)
    ensures forall o <- ForwardedMessages(n, src, dest, now).outs :: o.message.RerrMessage?
  {
    hide RefreshRoute;
  }

  lemma RunSends(n: Node, id: nat, now: Time)
    requires Enabled(n, Wake(id), now)
    ensures forall o <- Run(n, id, now).outs ::
              && o.Broadcast? && o.message.RreqMessage? && Originates(n, Wake(id)) && Run(n, id, now).outs == [o]
              && var t := n.threads[id];
                 o.message.rreq == t.request.(rreqId := Incr(n.rreqIds), ttl := t.plan[|t.log|].ttl % 2048)
  {
    hide ExpirationFunc, RreqIdFunc, BeginSearch, FailSearch;
  }
}
