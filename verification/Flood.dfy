/** The flood of a route request: its reach is bounded and it dies out. */
module Flood {
  import opened Aodv
  import opened Messages
  import opened TimeFuncs
  import opened RoutingTable
  import opened SendMessages
  import opened RecvMessages
  import opened Callbacks
  import opened Operations
  import opened SearchRun
  import opened Network

  // ---- Search threads ----

  /** A search asks for its own node, from hop 0, with TTLs within the network diameter. */
  predicate SearchInRange(ip: u32, t: RoutingTable.Thread) {
    t.RingSearch? ==>
      && t.request.srcIp == ip && t.request.hopCount == 0
      && forall i :: 0 <= i < |t.plan| ==> 1 <= t.plan[i].ttl <= NET_DIAMETER
  }

  ghost predicate SearchesInRange(n: Node) {
    forall id :: id in n.threads ==> SearchInRange(n.ip, n.threads[id])
  }

  lemma RunInRange(n: Node, id: nat, now: Time)
    requires SearchesInRange(n) && Enabled(n, Wake(id), now)
    ensures SearchesInRange(Run(n, id, now).node)
  {
    if n.threads[id].SearchStart? {
      PlanShape(n.table[n.threads[id].slot].hopCount);
    }
    hide Plan, AddMs, WakeAt, FailSearch;
    assert n.threads[id].RingSearch? ==>
             NoNewSearch(n, FailSearch(n, id, now)) && FailSearch(n, id, now).ip == n.ip by {
      if n.threads[id].RingSearch? { FailSearchAddress(n, id, now); }
    }
    var r := Run(n, id, now).node;
    forall i | i in r.threads
      ensures SearchInRange(r.ip, r.threads[i])
    {
      assert i in n.threads ==> SearchInRange(n.ip, n.threads[i]);
      assert SearchInRange(n.ip, n.threads[id]);
    }
  }

  lemma FailSearchAddress(n: Node, id: nat, now: Time)
    requires id in n.threads && n.threads[id].RingSearch? && n.threads[id].slot in n.table
    ensures FailSearch(n, id, now).ip == n.ip
  {
    hide AddMs, WakeAt;
  }

  lemma OperationInRange(n: Node, op: Operation, now: Time)
    requires SearchesInRange(n) && Allowed(n, op, now)
    ensures SearchesInRange(Do(n, op, now))
  {
    hide PreviousHop, ReverseRoute, ForwardRoute, Hello, Invalidate, RefreshRoute, LoseRoute, SendRreq,
      SendRreqOutcome, Run;
    if op.Thread? {
      RunInRange(n, op.id, now);
    } else {
      var r := Do(n, op, now);
      assert r.ip == n.ip && NoNewSearch(n, r);
    }
  }

  lemma {:induction false} OperationsInRange(n: Node, ops: seq<Operation>, now: Time)
    requires SearchesInRange(n) && AllAllowed(n, ops, now)
    ensures SearchesInRange(DoAll(n, ops, now))
    decreases |ops|
  {
    hide Do, Allowed, SearchesInRange;
    if ops == [] {
    } else {
      OperationInRange(n, ops[0], now);
      OperationsInRange(Do(n, ops[0], now), ops[1..], now);
    }
  }

  lemma EventInRange(n: Node, ev: Event, now: Time)
    requires SearchesInRange(n) && Enabled(n, ev, now)
    ensures SearchesInRange(Apply(n, ev, now).node)
  {
    hide Apply, OperationsOf, SearchesInRange;
    EventIsOperations(n, ev, now);
    OperationsInRange(n, OperationsOf(n, ev, now), now);
  }

  // ---- Conservation ----

  /** The request as its originator sent it. */
  predicate OriginalOf(m: Rreq, m': Rreq) {
    m' == m.(hopCount := m'.hopCount, ttl := m'.ttl, destSeq := m'.destSeq) &&
    m.hopCount == 0 && m.ttl == m'.hopCount + m'.ttl <= NET_DIAMETER
  }

  /** Hops made and hops left add up to the TTL of a request its originator sent. */
  ghost predicate Conserved(net: Net, m: Rreq) {
    && m.ttl >= 1 && m.srcIp in net.nodes
    && exists o: Rreq :: Packet(m.srcIp, Broadcast(RreqMessage(o))) in net.sent && OriginalOf(o, m)
  }

  ghost predicate Flooding(net: Net) {
    && Named(net) && FromNodes(net)
    && (forall a :: a in net.nodes ==> SearchesInRange(net.nodes[a]))
    && (forall p :: p in net.sent && p.out.message.RreqMessage? ==>
          p.out.Broadcast? && Conserved(net, p.out.message.rreq))
  }

  lemma RelayedIsConserved(net: Net, net': Net, m: Rreq, m': Rreq)
    requires Conserved(net, m) && Relayed(m, m') && net.sent <= net'.sent && net'.nodes.Keys == net.nodes.Keys
    ensures Conserved(net', m')
  {
    var first: Rreq :| Packet(m.srcIp, Broadcast(RreqMessage(first))) in net.sent && OriginalOf(first, m);
    assert OriginalOf(first, m') && Packet(m'.srcIp, Broadcast(RreqMessage(first))) in net'.sent;
  }

  lemma ReceivedIsConserved(net: Net, step: NetStep)
    requires Flooding(net) && NetEnabled(net, step) && step.event.ReceiveRreq?
    ensures Conserved(net, step.event.rreq)
  {
    hide Enabled, Conserved, Named, FromNodes, SearchesInRange;
  }

  lemma SentIsConserved(net: Net, step: NetStep, o: Out)
    requires Flooding(net) && NetEnabled(net, step) && o in Effects(net, step).outs && o.message.RreqMessage?
    ensures o.Broadcast? && Conserved(NetAfter(net, step), o.message.rreq)
  {
    var n, net' := net.nodes[step.at], NetAfter(net, step);
    RequestsSent(n, step.event, step.now);
    if step.event.ReceiveRreq? {
      ReceivedIsConserved(net, step);
    }
    hide Apply, Enabled, Conserved, Carried, Relayed, SearchesInRange, Originates;
    assert Packet(step.at, o) in net'.sent && net.sent <= net'.sent && net'.nodes.Keys == net.nodes.Keys;
    assert n.ip == step.at && SearchesInRange(n);
    hide Flooding, NetAfter;
    if step.event.ReceiveRreq? && Relayed(step.event.rreq, o.message.rreq) {
      RelayedIsConserved(net, net', step.event.rreq, o.message.rreq);
    } else {
      OriginalIsConserved(net, net', step.at, step.event, o.message.rreq);
    }
  }

  lemma OriginalIsConserved(net: Net, net': Net, a: u32, ev: Event, m: Rreq)
    requires a in net.nodes && a in net'.nodes && net.nodes[a].ip == a && SearchesInRange(net.nodes[a])
    requires Originates(net.nodes[a], ev)
    requires var t := net.nodes[a].threads[ev.id];
             m == t.request.(rreqId := m.rreqId, ttl := t.plan[|t.log|].ttl % 2048)
    requires Packet(a, Broadcast(RreqMessage(m))) in net'.sent
    ensures Conserved(net', m)
  {
    assert SearchInRange(a, net.nodes[a].threads[ev.id]);
    assert OriginalOf(m, m);
  }

  lemma StepFloods(net: Net, step: NetStep)
    requires Flooding(net) && NetEnabled(net, step)
    ensures Flooding(NetAfter(net, step))
  {
    hide Apply, Enabled;
    var net' := NetAfter(net, step);
    StepNames(net, step);
    EventInRange(net.nodes[step.at], step.event, step.now);
    forall p | p in net'.sent && p.out.message.RreqMessage?
      ensures p.out.Broadcast? && Conserved(net', p.out.message.rreq)
    {
      if p in net.sent {
        var m := p.out.message.rreq;
        assert Conserved(net, m);
        var first: Rreq :| Packet(m.srcIp, Broadcast(RreqMessage(first))) in net.sent && OriginalOf(first, m);
        assert Packet(m.srcIp, Broadcast(RreqMessage(first))) in net'.sent;
      } else {
        SentIsConserved(net, step, p.out);
      }
    }
  }

  lemma {:induction false} RunFloods(net: Net, run: seq<NetStep>)
    requires Flooding(net) && NetLegal(net, run)
    ensures Flooding(NetFinal(net, run))
    decreases |run|
  {
    hide NetEnabled, Flooding, NetAfter;
    if run == [] {
    } else {
      StepFloods(net, run[0]);
      RunFloods(NetAfter(net, run[0]), run[1..]);
    }
  }

  /** In every run of the network, through all events, losses, duplicates and reorderings: every request on
      the way has at least one hop left, and its hops made and left add up to the TTL, at most
      NET_DIAMETER, with which its originator sent it. So the 8-bit hop count never wraps. */
  lemma FloodConservation(addresses: set<u32>, broadcastIp: u32, run: seq<NetStep>, p: Packet)
    requires NetLegal(NetBoot(addresses, broadcastIp), run)
    requires p in NetFinal(NetBoot(addresses, broadcastIp), run).sent && p.out.message.RreqMessage?
    ensures var net, m := NetFinal(NetBoot(addresses, broadcastIp), run), p.out.message.rreq;
            && p.out.Broadcast? && m.ttl >= 1 && m.hopCount + m.ttl <= NET_DIAMETER
            && NextHopCount(m.hopCount) == m.hopCount + 1
            && exists o: Rreq :: Packet(m.srcIp, Broadcast(RreqMessage(o))) in net.sent && OriginalOf(o, m)
  {
    RunFloods(NetBoot(addresses, broadcastIp), run);
    hide NetFinal, NetBoot, NetLegal;
    assert Conserved(NetFinal(NetBoot(addresses, broadcastIp), run), p.out.message.rreq);
  }
}
