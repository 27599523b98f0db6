/** How long a reverse route installed by a request lives. */
module Lifetime {
  import opened Aodv
  import opened Messages
  import opened TimeFuncs
  import opened RoutingTable
  import opened SendMessages
  import opened RecvMessages
  import opened Callbacks
  import opened Operations
  import opened Expiry
  import opened Network
  import opened Flood

  /** MinimalLifetime in milliseconds, before any truncation. */
  function MinimalLifetime(hopCount: u8): int {
    2 * NET_TRAVERSAL_TIME - 2 * hopCount * NODE_TRAVERSAL_TIME
  }

  /** The unsigned subtraction underflows exactly past 70 hops, twice the network diameter. */
  lemma MinimalLifetimeRange(hopCount: u8)
    ensures Wrap(MinimalLifetime(hopCount)) == MinimalLifetime(hopCount) <==> hopCount <= 2 * NET_DIAMETER
    ensures 1 <= hopCount <= NET_DIAMETER ==> 2800 <= MinimalLifetime(hopCount) <= 5520
  {
  }

  lemma ChosenLifetime(now: Time, timeOut: Time, hopCount: u8)
    requires 1 <= hopCount <= NET_DIAMETER && timeOut.Ns() < now.Ns() + WORD * MILLION
    ensures var ms := ReverseLifetime(now, timeOut, hopCount);
            && MinimalLifetime(hopCount) <= ms
            && timeOut.Ns() - BILLION <= now.Ns() + ms * MILLION
  {
    var minimal := FromMs(MinimalLifetime(hopCount));
    var left := Subtract(now, timeOut);
    MsRoundTrip(MinimalLifetime(hopCount));
    SubtractNeverEarly(now, timeOut);
    if minimal.sec < left.sec {
      assert left.Ns() == timeOut.Ns() - now.Ns();
      ToMsRoundsDown(left);
    }
  }

  /** A request over at most NET_DIAMETER hops leaves the route to its originator alive for at least
      MinimalLifetime, and takes at most one second off a longer life it had before. */
  lemma ReverseRouteLives(n: Node, sender: u32, m: Rreq, now: Time)
    requires 1 <= m.hopCount <= NET_DIAMETER && Bounded(n, now)
    ensures var r := ReverseRoute(n, sender, m, now);
            && EntryOf(r, m.srcIp).routeValid
            && EntryOf(r, m.srcIp).timeOut.Ns() >= now.Ns() + MinimalLifetime(m.hopCount) * MILLION
            && (HasEntry(n, m.srcIp) ==>
                  EntryOf(r, m.srcIp).timeOut.Ns() >= EntryOf(n, m.srcIp).timeOut.Ns() - BILLION)
  {
    hide AddMs, ReverseLifetime, WakeAt;
    var found := CreateOrGet(n, m.srcIp, m.srcSeq, true, sender, m.hopCount, 0, now, m.rreqId);
    ChosenLifetime(now, found.timeOut, m.hopCount);
  }

  // ---- The whole handler ----

  /** The request is not the node's own and not a repeat that brings nothing. */
  predicate Taken(n: Node, sender: u32, m: Rreq, now: Time, junk: u32) {
    m.srcIp != n.ip && !AlreadySeen(PreviousHop(n, sender, m.srcIp, now, junk), m)
  }

  /** A request relayed by a neighbour extends the route to its originator or takes at most one second off it. */
  lemma RequestLives(n: Node, sender: u32, m: Rreq, now: Time, junk: u32)
    requires m.hopCount < NET_DIAMETER && Bounded(n, now) && Taken(n, sender, m, now, junk)
    ensures var r := RecvRreq(n, sender, m, now, junk).node;
            && HasEntry(r, m.srcIp) && EntryOf(r, m.srcIp).routeValid
            && EntryOf(r, m.srcIp).timeOut.Ns() >= now.Ns() + MinimalLifetime(m.hopCount + 1) * MILLION
            && (HasEntry(n, m.srcIp) && Slot(sender) != Slot(m.srcIp) ==>
                  EntryOf(r, m.srcIp).timeOut.Ns() >= EntryOf(n, m.srcIp).timeOut.Ns() - BILLION)
  {
    hide PreviousHop, ReverseRoute, Answer, AlreadySeen, MinimalLifetime, SaysRoute, SaysSame, SearchKept, IndexKept;
    var m' := m.(hopCount := NextHopCount(m.hopCount));
    ReverseRouteLives(PreviousHop(n, sender, m.srcIp, now, junk), sender, m', now);
  }

  /** A request straight from a known originator fixes the deadline, whatever it was before: the route then ends
      exactly MinimalLifetime from now, which is more than a second early iff it had more than that left. */
  lemma DirectRequestLives(n: Node, m: Rreq, now: Time, junk: u32)
    requires m.hopCount == 0 && HasEntry(n, m.srcIp) && Taken(n, m.srcIp, m, now, junk)
    ensures var r := RecvRreq(n, m.srcIp, m, now, junk).node;
            && HasEntry(r, m.srcIp)
            && EntryOf(r, m.srcIp).timeOut.Ns() == now.Ns() + MinimalLifetime(1) * MILLION
            && (EntryOf(r, m.srcIp).timeOut.Ns() < EntryOf(n, m.srcIp).timeOut.Ns() - BILLION <==>
                EntryOf(n, m.srcIp).timeOut.Ns() > now.Ns() + 6520 * MILLION)
  {
    hide Answer, AlreadySeen, AddMs, WakeAt;
    var timeOut := AddMs(now, ACTIVE_ROUTE_TIMEOUT);
    SubtractNeverEarly(now, timeOut);
    MsRoundTrip(5520);
    var minimal := FromMs(5520);
    assert ReverseLifetime(now, timeOut, 1) == 5520;
  }

  // ---- In the network ----

  /** No step happens before the one it follows. */
  predicate NetMonotone(start: Time, run: seq<NetStep>)
    decreases |run|
  {
    run != [] ==> start.Ns() <= run[0].now.Ns() && NetMonotone(run[0].now, run[1..])
  }

  function Latest(start: Time, run: seq<NetStep>): Time {
    if run == [] then start else run[|run| - 1].now
  }

  ghost predicate NetBounded(net: Net, now: Time) {
    forall a :: a in net.nodes ==> Bounded(net.nodes[a], now)
  }

  lemma {:induction false} NetRunBounds(net: Net, start: Time, run: seq<NetStep>)
    requires NetBounded(net, start) && NetLegal(net, run) && NetMonotone(start, run)
    ensures NetBounded(NetFinal(net, run), Latest(start, run))
    decreases |run|
  {
    hide Apply, Enabled, OperationsOf;
    if run == [] {
    } else {
      var n, step := net.nodes[run[0].at], run[0];
      EventIsOperations(n, step.event, step.now);
      OperationsBound(n, OperationsOf(n, step.event, step.now), step.now);
      NetRunBounds(NetAfter(net, step), step.now, run[1..]);
    }
  }

  /** In every run of the network under one clock that never goes back, a request that is taken leaves the route
      to its originator valid for 2800 to 5520 ms at least. */
  lemma DeliveredRequestLives(addresses: set<u32>, broadcastIp: u32, start: Time, run: seq<NetStep>, step: NetStep)
    requires NetLegal(NetBoot(addresses, broadcastIp), run) && NetMonotone(start, run)
    requires NetEnabled(NetFinal(NetBoot(addresses, broadcastIp), run), step) && step.event.ReceiveRreq?
    requires Latest(start, run).Ns() <= step.now.Ns()
    requires Taken(NetFinal(NetBoot(addresses, broadcastIp), run).nodes[step.at], step.event.sender, step.event.rreq,
                   step.now, step.event.junk)
    ensures var net, m := NetFinal(NetBoot(addresses, broadcastIp), run), step.event.rreq;
            var n, r := net.nodes[step.at], NetAfter(net, step).nodes[step.at];
            && m.hopCount < NET_DIAMETER && 2800 <= MinimalLifetime(m.hopCount + 1) <= 5520
            && HasEntry(r, m.srcIp) && EntryOf(r, m.srcIp).routeValid
            && EntryOf(r, m.srcIp).timeOut.Ns() >= step.now.Ns() + MinimalLifetime(m.hopCount + 1) * MILLION
            && (HasEntry(n, m.srcIp) && Slot(step.event.sender) != Slot(m.srcIp) ==>
                  EntryOf(r, m.srcIp).timeOut.Ns() >= EntryOf(n, m.srcIp).timeOut.Ns() - BILLION)
  {
    var boot := NetBoot(addresses, broadcastIp);
    var net := NetFinal(boot, run);
    NetRunBounds(boot, start, run);
    var packet := Packet(step.event.sender, Broadcast(RreqMessage(step.event.rreq)));
    var direct := Packet(step.event.sender, Unicast(step.at, RreqMessage(step.event.rreq)));
    FloodConservation(addresses, broadcastIp, run, if packet in net.sent then packet else direct);
    MinimalLifetimeRange(step.event.rreq.hopCount + 1);
    hide NetFinal, NetBoot, NetLegal, MinimalLifetime, RecvRreq, Taken;
    RequestLives(net.nodes[step.at], step.event.sender, step.event.rreq, step.now, step.event.junk);
  }
}
