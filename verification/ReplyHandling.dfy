/** What a node makes of any reply and any hello: what it records, and what it passes on, said of the whole handler. */
module ReplyHandling {
  import opened Aodv
  import opened Messages
  import opened TimeFuncs
  import opened RoutingTable
  import opened SendMessages
  import opened RecvMessages

  /** Both ends of a route are active, and each has the next hop towards the other as a precursor. */
  ghost predicate Joined(n: Node, destIp: u32, srcIp: u32) {
    && HasEntry(n, destIp) && HasEntry(n, srcIp)
    && var d, o := EntryOf(n, destIp), EntryOf(n, srcIp);
       d.activeRoute != 0 && o.activeRoute != 0 && o.nextHop in d.precursors && d.nextHop in o.precursors
  }

  /** A reply is passed on, to one neighbour and one hop further but otherwise as it came, if and only if it is
      meant for another node to which a way is recorded; to the next hop on that way. Then the two ways are joined. */
  lemma ReplyIsPassedOn(n: Node, sender: u32, m: Rrep, now: Time, junk: u32, junk': u32)
    requires m.srcIp != 0
    ensures var r := RecvRrep(n, sender, m, now, junk, junk');
            if m.srcIp == n.ip || !HasEntry(r.node, m.srcIp) then r.outs == []
            else
              && r.outs == [Unicast(EntryOf(r.node, m.srcIp).nextHop,
                                    RrepMessage(m.(hopCount := NextHopCount(m.hopCount))))]
              && Joined(r.node, m.destIp, m.srcIp)
  {
    hide PreviousHop, ForwardRoute, ForwardReply, Joined, SearchKept, IndexKept, Timely, SaysSame, SaysRoute,
      RoutesKept, NoNewSearch, Annotated;
    var m' := m.(hopCount := NextHopCount(m.hopCount));
    var n1 := StopSearch(n, m);
    var n2 := PreviousHop(n1, sender, m'.destIp, now, junk);
    RouteIsMade(n2, sender, m', now, junk');
    Forwarding(ForwardRoute(n2, sender, m', now, junk'), m');
  }

  lemma RouteIsMade(n: Node, sender: u32, m: Rrep, now: Time, junk: u32)
    ensures var r := ForwardRoute(n, sender, m, now, junk);
            && EntryOf(r, m.destIp).activeRoute != 0 && EntryOf(r, m.destIp).routeValid && m.destIp in r.kernel
            && (m.lifetime != 0 ==> EntryOf(r, m.destIp).timeOut.Ns() == now.Ns() + m.lifetime * MILLION)
  {
    hide SeqCompare, WakeAt, Timely, SearchKept, IndexKept;
  }

  lemma Forwarding(n: Node, m: Rrep)
    requires HasEntry(n, m.destIp) && EntryOf(n, m.destIp).activeRoute != 0
    ensures var r := ForwardReply(n, m);
            if m.srcIp == n.ip || !HasEntry(r.node, m.srcIp) then r.outs == [] && r.node == n
            else
              r.outs == [Unicast(EntryOf(r.node, m.srcIp).nextHop, RrepMessage(m))] && Joined(r.node, m.destIp, m.srcIp)
  {
    hide OnlySlot, NoNewSearch, Slot;
    if m.srcIp != n.ip && HasEntry(n, m.srcIp) {
      var d, o := Slot(m.destIp), Slot(m.srcIp);
      var n1 := AddPrecursor(Activate(n, o), o, n.table[d].nextHop);
      var n2 := AddPrecursor(n1, d, n.table[o].nextHop);
      assert n1.table[o].precursors[|n1.table[o].precursors| - 1] == n.table[d].nextHop;
      assert n2.table[d].precursors[|n2.table[d].precursors| - 1] == n.table[o].nextHop;
      assert n1.table[o].precursors <= n2.table[o].precursors;
    }
  }

  /** Unless it is the destination or the sender, the way to the originator is the one recorded before. */
  lemma WayToOriginator(n: Node, sender: u32, m: Rrep, now: Time, junk: u32, junk': u32)
    requires m.srcIp != 0 && Slot(m.srcIp) != Slot(m.destIp) && Slot(m.srcIp) != Slot(sender)
    ensures var r := RecvRrep(n, sender, m, now, junk, junk').node;
            && (HasEntry(r, m.srcIp) <==> HasEntry(n, m.srcIp))
            && (HasEntry(n, m.srcIp) ==> MoreMarks(EntryOf(n, m.srcIp), EntryOf(r, m.srcIp)))
  {
    hide PreviousHop, ForwardRoute, ForwardReply, NoNewSearch;
  }

  /** The route to the destination becomes valid, active and a kernel route that ends with the lifetime named. The
      way is the one of the reply unless a valid newer number was recorded. */
  lemma DestinationIsRecorded(n: Node, sender: u32, m: Rrep, now: Time, junk: u32, junk': u32)
    requires m.srcIp != 0
    ensures var r := RecvRrep(n, sender, m, now, junk, junk').node;
            && HasEntry(r, m.destIp) && m.destIp in r.kernel
            && var e := EntryOf(r, m.destIp);
               && e.routeValid && e.activeRoute != 0
               && (m.lifetime != 0 ==> e.timeOut.Ns() == now.Ns() + m.lifetime * MILLION)
               && if HasEntry(n, m.destIp) && EntryOf(n, m.destIp).seqValid &&
                     SeqCompare(m.destSeq, EntryOf(n, m.destIp).destSeq) < 0
                  then SaysSame(EntryOf(n, m.destIp), e)
                  else SaysRoute(e, m.destSeq, true, sender, NextHopCount(m.hopCount))
  {
    hide PreviousHop, ForwardRoute, ForwardReply, SeqCompare, SearchKept, IndexKept, Timely, NoNewSearch;
    var m' := m.(hopCount := NextHopCount(m.hopCount));
    var n1 := StopSearch(n, m);
    var n2 := PreviousHop(n1, sender, m'.destIp, now, junk);
    var n3 := ForwardRoute(n2, sender, m', now, junk');
    RouteIsMade(n2, sender, m', now, junk');
    if HasEntry(n, m.destIp) {
      AcceptsNotOlder(EntryOf(n2, m.destIp), m');
    }
    var r := ForwardReply(n3, m').node;
    assert MoreMarks(EntryOf(n3, m.destIp), EntryOf(r, m.destIp));
    Forwarding(n3, m');
  }

  lemma AcceptsNotOlder(e: Entry, m: Rrep)
    ensures Accepts(e, m) <==> !e.seqValid || SeqCompare(m.destSeq, e.destSeq) >= 0
  {
  }

  // ---- Hellos ----

  /** The record of the sender of a hello. */
  predicate HelloRecorded(n: Node, e: Entry, sender: u32, m: Rrep, now: Time) {
    if !HasEntry(n, m.destIp) then
      && SaysRoute(e, m.destSeq, true, sender, NextHopCount(m.hopCount)) && !e.routeValid && e.destIp == m.destIp
      && (m.lifetime != 0 ==> e.timeOut.Ns() == now.Ns() + m.lifetime * MILLION)
    else
      var known := EntryOf(n, m.destIp);
      if known.seqValid && SeqCompare(m.destSeq, known.destSeq) < 0 then e == known
      else
        && e == known.(destSeq := m.destSeq, seqValid := true, timeOut := e.timeOut,
                       expirationThread := e.expirationThread)
        && (m.lifetime != 0 ==> e.timeOut.Ns() == now.Ns() + m.lifetime * MILLION)
  }

  /** A hello sends nothing and touches nothing but the record of the node it is about. A new one is made without a
      route; a known one takes the number, unless it has a valid newer one, and the lifetime, and keeps its way and
      status. */
  lemma HelloIsRecorded(n: Node, sender: u32, m: Rrep, now: Time, junk: u32, junk': u32)
    requires m.srcIp == 0 != n.ip
    ensures var r := RecvRrep(n, sender, m, now, junk, junk');
            && r.outs == [] && OnlySlot(n, r.node, Slot(m.destIp)) && r.node.kernel == n.kernel
            && r.node.activeRoutes == n.activeRoutes
            && HelloRecorded(n, EntryOf(r.node, m.destIp), sender, m, now)
  {
    hide SeqCompare, WakeAt, Timely, SearchKept, IndexKept, NoNewSearch;
  }
}
