/** Why the theorem about loops stops at reverse routes: a gratuitous reply makes a forward loop. */
module ForwardLoop {
  import opened Aodv
  import opened Messages
  import opened TimeFuncs
  import opened RoutingTable
  import opened SendMessages
  import opened RecvMessages

  /** A valid route to S, with a valid number, through another node. */
  predicate RouteVia(n: Node, S: u32, hop: u32) {
    HasEntry(n, S) && EntryOf(n, S).routeValid && EntryOf(n, S).seqValid && EntryOf(n, S).nextHop == hop
  }

  /** a answers b's copy of a request of S for D from a route to D that itself goes through b. */
  predicate AnswersThroughSender(a: Node, b: Node, m: Rreq) {
    && {Slot(m.srcIp), Slot(m.destIp), Slot(a.ip)} !! {Slot(b.ip)} && Slot(m.srcIp) != Slot(m.destIp)
    && Slot(m.srcIp) != Slot(a.ip) && m.srcIp != a.ip && m.destIp != a.ip && m.destIp != b.ip && m.destIp != 0
    && m.Unknown() && !m.DestOnly()
    && RouteVia(a, m.destIp, b.ip) && !HasEntry(a, m.srcIp)
  }

  /** The gratuitous reply to a request whose copy has arrived. */
  function Gratuitous(m: Rreq): Rrep {
    Rrep(0, NextHopCount(m.hopCount), m.srcIp, m.srcSeq, m.destIp, ACTIVE_ROUTE_TIMEOUT)
  }

  /** The gratuitous reply a sends to its next hop towards D, here b, advertises the reverse route to S. Then a
      reaches S through b, and b reaches S through a exactly when it had no entry, did so before, or accepts the
      reply; and it accepts equal numbers whatever the hop count. */
  lemma GratuitousReplyLoops(a: Node, b: Node, m: Rreq, now: Time, later: Time, junk: u32, junk': u32)
    requires AnswersThroughSender(a, b, m)
    ensures var ra := RecvRreq(a, b.ip, m, now, junk);
            && Unicast(b.ip, RrepMessage(Gratuitous(m))) in ra.outs
            && RouteVia(ra.node, m.srcIp, b.ip)
    ensures var rb := RecvRrep(b, a.ip, Gratuitous(m), later, junk, junk').node;
            var hops := NextHopCount(NextHopCount(m.hopCount));
            && (RouteVia(rb, m.srcIp, a.ip) <==>
                  || !HasEntry(b, m.srcIp) || EntryOf(b, m.srcIp).nextHop == a.ip
                  || Accepts(EntryOf(b, m.srcIp), Gratuitous(m).(hopCount := hops)))
  {
    AnswererTurnsToSender(a, b, m, now, junk);
    SenderTurnsToAnswerer(a, b, m, later, junk, junk');
  }

  lemma AnswererTurnsToSender(a: Node, b: Node, m: Rreq, now: Time, junk: u32)
    requires AnswersThroughSender(a, b, m)
    ensures var ra := RecvRreq(a, b.ip, m, now, junk);
            && Unicast(b.ip, RrepMessage(Gratuitous(m))) in ra.outs
            && RouteVia(ra.node, m.srcIp, b.ip)
  {
    hide PreviousHop, ReverseRoute, SendRrepIntermediate, Remaining, Activate;
    var n1 := PreviousHop(a, b.ip, m.srcIp, now, junk);
    var m1 := m.(hopCount := NextHopCount(m.hopCount));
    var n2 := ReverseRoute(n1, b.ip, m1, now);
    assert n1.table[Slot(m.destIp)] == a.table[Slot(m.destIp)] && n2.table[Slot(m.destIp)] == n1.table[Slot(m.destIp)];
    assert Slot(m.srcIp) !in n1.table;
    assert CanAnswer(n2, m1);
    ReverseIsValid(n1, b.ip, m1, now);
    IntermediateSends(n2, m1, b.ip, now);
  }

  lemma ReverseIsValid(n: Node, sender: u32, m: Rreq, now: Time)
    ensures EntryOf(ReverseRoute(n, sender, m, now), m.srcIp).routeValid
  {
    hide Originator, ReverseLifetime, AddMs, WakeAt;
  }

  lemma IntermediateSends(n: Node, m: Rreq, sender: u32, now: Time)
    requires HasEntry(n, m.destIp) && HasEntry(n, m.srcIp) && m.flags != 0
    ensures var g := Rrep(0, m.hopCount, m.srcIp, m.srcSeq, m.destIp, ACTIVE_ROUTE_TIMEOUT);
            Unicast(EntryOf(n, m.destIp).nextHop, RrepMessage(g)) in SendRrepIntermediate(n, m, sender, now).outs
  {
    hide Remaining;
    var outs := SendRrepIntermediate(n, m, sender, now).outs;
    assert |outs| == 2 && outs[1].Unicast?;
  }

  lemma SenderTurnsToAnswerer(a: Node, b: Node, m: Rreq, now: Time, junk: u32, junk': u32)
    requires AnswersThroughSender(a, b, m)
    ensures var rb := RecvRrep(b, a.ip, Gratuitous(m), now, junk, junk').node;
            var hops := NextHopCount(NextHopCount(m.hopCount));
            && (RouteVia(rb, m.srcIp, a.ip) <==>
                  || !HasEntry(b, m.srcIp) || EntryOf(b, m.srcIp).nextHop == a.ip
                  || Accepts(EntryOf(b, m.srcIp), Gratuitous(m).(hopCount := hops)))
  {
    hide PreviousHop, ForwardRoute, ForwardReply, Accepts, Timely, SearchKept, IndexKept, NoNewSearch;
    var g := Gratuitous(m);
    assert StopSearch(b, g) == b;
    var b1 := PreviousHop(b, a.ip, g.destIp, now, junk);
    ForwardIsValid(b1, a.ip, g.(hopCount := NextHopCount(g.hopCount)), now, junk');
  }

  lemma ForwardIsValid(n: Node, sender: u32, m: Rrep, now: Time, junk: u32)
    ensures EntryOf(ForwardRoute(n, sender, m, now, junk), m.destIp).routeValid
    ensures EntryOf(ForwardRoute(n, sender, m, now, junk), m.destIp).seqValid
  {
    hide SeqCompare, AddMs, WakeAt;
  }
}
