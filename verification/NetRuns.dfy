/** Building runs of the network step by step: what some steps leave behind. */
module NetRuns {
  import opened Aodv
  import opened Messages
  import opened TimeFuncs
  import opened RoutingTable
  import opened SendMessages
  import opened RecvMessages
  import opened Callbacks
  import opened TableRefinement
  import opened Threads
  import opened Expiry
  import opened Deadlines
  import opened SearchRun
  import opened Lifetime
  import opened Network

  /** What a run may do besides originating and delivering requests. Nobody receives an error, and no node acts while
      it holds a valid route past its deadline. */
  datatype Kind = Kind(replies: bool, hellos: bool, deletions: bool)

  /** The deadlines of all valid routes lie no earlier. */
  ghost predicate AliveUntil(n: Node, until: int) {
    forall s :: s in n.table && n.table[s].routeValid ==> until <= n.table[s].timeOut.Ns()
  }

  ghost predicate OfKind(net: Net, step: NetStep, kind: Kind)
    requires NetEnabled(net, step)
  {
    && !step.event.ReceiveRerr? && AliveUntil(net.nodes[step.at], step.now.Ns())
    && (step.event.ReceiveRrep? ==> if step.event.rrep.srcIp == 0 then kind.hellos else kind.replies)
    && (!kind.deletions ==> net.nodes[step.at].table.Keys <= Effects(net, step).node.table.Keys)
  }

  ghost predicate AllOfKind(net: Net, run: seq<NetStep>, kind: Kind)
    requires NetLegal(net, run)
    decreases |run|
  {
    run != [] ==> OfKind(net, run[0], kind) && AllOfKind(NetAfter(net, run[0]), run[1..], kind)
  }

  /** A run, the state it leads to, and the time of its last step. */
  datatype Point = Point(run: seq<NetStep>, net: Net, now: Time)

  /** The point is reached by a run of the kind, under a clock that does not go back. */
  ghost predicate Reached(start: Net, kind: Kind, p: Point) {
    && NetLegal(start, p.run) && AllOfKind(start, p.run, kind) && NetFinal(start, p.run) == p.net
    && NetMonotone(Instant(0, 0), p.run) && Latest(Instant(0, 0), p.run) == p.now
  }

  lemma {:induction false} LegalAppend(net: Net, run: seq<NetStep>, step: NetStep, kind: Kind)
    requires NetLegal(net, run) && AllOfKind(net, run, kind)
    requires NetEnabled(NetFinal(net, run), step) && OfKind(NetFinal(net, run), step, kind)
    ensures NetLegal(net, run + [step]) && NetFinal(net, run + [step]) == NetAfter(NetFinal(net, run), step)
    ensures AllOfKind(net, run + [step], kind)
    decreases |run|
  {
    hide NetEnabled, NetAfter, OfKind;
    if run == [] {
      assert [step][1..] == [];
    } else {
      assert (run + [step])[1..] == run[1..] + [step];
      LegalAppend(NetAfter(net, run[0]), run[1..], step, kind);
    }
  }

  lemma {:induction false} MonotoneAppend(start: Time, run: seq<NetStep>, step: NetStep)
    requires NetMonotone(start, run) && Latest(start, run).Ns() <= step.now.Ns()
    ensures NetMonotone(start, run + [step])
    decreases |run|
  {
    if run == [] {
      assert [step][1..] == [];
    } else {
      assert (run + [step])[1..] == run[1..] + [step];
      MonotoneAppend(run[0].now, run[1..], step);
    }
  }

  /** The handles and slots of a node are in order. */
  ghost predicate Ordered(n: Node, ip: u32) {
    Ledger(n) && Placed(n) && n.ip == ip
  }

  lemma FreshIsOrdered(ip: u32)
    ensures Ordered(Boot(ip, 0), ip)
  {
  }

  /** Only one node has changed, and all packets are still there. */
  ghost predicate OnlyAt(net: Net, net': Net, x: u32) {
    && net'.nodes.Keys == net.nodes.Keys && net.sent <= net'.sent
    && forall z :: z in net.nodes && z != x ==> net'.nodes[z] == net.nodes[z]
  }

  /** One step more. */
  lemma Take(start: Net, kind: Kind, p: Point, at: u32, ev: Event, now: Time) returns (p': Point)
    requires Reached(start, kind, p) && NetEnabled(p.net, NetStep(at, ev, now)) && p.now.Ns() <= now.Ns()
    requires !ev.ReceiveRerr? && (ev.ReceiveRrep? ==> if ev.rrep.srcIp == 0 then kind.hellos else kind.replies)
    requires var n := p.net.nodes[at];
             && Ordered(n, at) && AliveUntil(n, now.Ns())
             && (kind.deletions || forall s :: s in n.table ==> !Removes(n, ev, s))
    ensures Reached(start, kind, p') && p'.now == now && OnlyAt(p.net, p'.net, at)
    ensures p'.net.nodes[at] == Apply(p.net.nodes[at], ev, now).node && Ordered(p'.net.nodes[at], at)
    ensures forall o <- Apply(p.net.nodes[at], ev, now).outs :: Packet(at, o) in p'.net.sent
  {
    hide Apply, Enabled, NetLegal, NetFinal, NetMonotone, AllOfKind, Ledger, Placed, AliveUntil;
    var n, step := p.net.nodes[at], NetStep(at, ev, now);
    Threads.EventKeeps(n, ev, now);
    ApplyKeepsAddress(n, ev, now);
    forall s | s in n.table && !kind.deletions
      ensures s in Apply(n, ev, now).node.table
    {
      RemovedOnlyWhenExpired(n, ev, now, s);
    }
    p' := Point(p.run + [step], NetAfter(p.net, step), now);
    LegalAppend(start, p.run, step, kind);
    MonotoneAppend(Instant(0, 0), p.run, step);
  }

  /** All slots but two hold what they held. */
  ghost predicate OthersSame(n: Node, r: Node, s: u8, t: u8) {
    forall u: u8 :: u != s && u != t ==> (u in r.table <==> u in n.table) && (u in n.table ==> r.table[u] == n.table[u])
  }

  // ---- A node asks for a route ----

  /** The second request of a search of x for y, with the number and the id it has then. */
  function Asked(x: u32, y: u32, number: u32, id: u32): Rreq {
    Rreq(RREQ_GRAT + RREQ_UNKNOWN, 3, 0, id, y, 0, x, number)
  }

  /** Since n, a search for y has been started as thread id and come as far as t. */
  ghost predicate Asking(n: Node, r: Node, y: u32, id: nat, t: RoutingTable.Thread, number: u32, ids: u32) {
    && r == n.(sequenceNum := number, rreqIds := ids, table := r.table, threads := r.threads,
               lastThread := r.lastThread)
    && OthersSame(n, r, Slot(y), Slot(y)) && HasEntry(r, y) && EntryOf(r, y).destIp == y
    && !EntryOf(r, y).routeValid && !EntryOf(r, y).seqValid && EntryOf(r, y).hopCount == 0
    && id in r.threads && r.threads[id] == t
  }

  lemma AskStarts(n: Node, y: u32, now: Time)
    requires y != n.ip && y != n.broadcastIp && !HasEntry(n, y)
    ensures Enabled(n, DataOut(y, 0), now)
    ensures var id, r := n.lastThread + 1, Apply(n, DataOut(y, 0), now).node;
            Asking(n, r, y, id, SearchStart(Slot(y)), n.sequenceNum, n.rreqIds) && Enabled(r, Wake(id), now)
  {
    hide AddMs;
  }

  lemma AskBegins(n: Node, r: Node, y: u32, id: nat, now: Time)
    requires Asking(n, r, y, id, SearchStart(Slot(y)), n.sequenceNum, n.rreqIds) && n.sequenceNum < WORD - 1
    ensures Enabled(r, Wake(id), now)
    ensures var q := n.sequenceNum + 1;
            var t := RingSearch(Slot(y), now.Ns(), Asked(n.ip, y, q, q).(ttl := 0), Plan(0), []);
            var r' := Apply(r, Wake(id), now).node;
            Asking(n, r', y, id, t, q, n.rreqIds) && Enabled(r', Wake(id), now)
  {
    hide Plan;
  }

  lemma AskRings(n: Node, r: Node, y: u32, id: nat, t: RoutingTable.Thread, number: u32, ids: u32, now: Time)
    requires t.RingSearch? && t.slot == Slot(y) && t.plan == Plan(0) && |t.log| < 2 && t.wake <= now.Ns()
    requires Asking(n, r, y, id, t, number, ids) && ids < WORD - 1
    ensures Enabled(r, Wake(id), now) && |Plan(0)| > 2
    ensures var ring, e := Plan(0)[|t.log|], Apply(r, Wake(id), now);
            var m := t.request.(rreqId := ids + 1, ttl := ring.ttl % 2048);
            var t' := t.(wake := now.Ns() + ring.waitMs * MILLION, request := m, log := t.log + [m]);
            e.outs == [Broadcast(RreqMessage(m))] && Asking(n, e.node, y, id, t', number, ids + 1)
  {
    PlanOfFresh();
    hide Plan;
  }

  lemma PlanOfFresh()
    ensures |Plan(0)| > 2 && Plan(0)[0] == Ring(1, 240) && Plan(0)[1].ttl == 3
  {
    OddRings();
    hide Rings, Retries;
  }

  /** A node asks for a destination it has no entry for; in the end the second request is on the way. */
  lemma Ask(start: Net, kind: Kind, p: Point, x: u32, y: u32, later: Time) returns (p': Point)
    requires Reached(start, kind, p) && p.now.Ns() + 240 * MILLION <= later.Ns()
    requires x in p.net.nodes && Ordered(p.net.nodes[x], x) && AliveUntil(p.net.nodes[x], later.Ns()) && y != x
    requires var n := p.net.nodes[x];
             y != n.broadcastIp && !HasEntry(n, y) && n.sequenceNum < WORD - 1 && n.rreqIds < WORD - 2
    ensures Reached(start, kind, p') && p'.now == later && OnlyAt(p.net, p'.net, x) && Ordered(p'.net.nodes[x], x)
    ensures var n, r := p.net.nodes[x], p'.net.nodes[x];
            && HasAsked(n, r, y) && OthersSame(n, r, Slot(y), Slot(y))
            && (forall until :: AliveUntil(n, until) ==> AliveUntil(r, until))
            && Packet(x, Broadcast(RreqMessage(Asked(x, y, r.sequenceNum, r.rreqIds)))) in p'.net.sent
  {
    hide Reached, Apply, Enabled, Plan, Ledger, Placed, Asking, OthersSame, AliveUntil;
    AliveEarlier(p.net.nodes[x], p.now.Ns(), later.Ns());
    var n, id, now := p.net.nodes[x], p.net.nodes[x].lastThread + 1, p.now;
    var q, i := n.sequenceNum + 1, n.rreqIds;
    PlanOfFresh();
    AskStarts(n, y, now);
    DataRemovesNothing(n, y);
    p' := Take(start, kind, p, x, DataOut(y, 0), now);
    var t0 := SearchStart(Slot(y));
    SearchMeans(n, p'.net.nodes[x], y, id, t0, n.sequenceNum, i);
    AskBegins(n, p'.net.nodes[x], y, id, now);
    p' := Take(start, kind, p', x, Wake(id), now);
    var t1 := RingSearch(Slot(y), now.Ns(), Asked(x, y, q, q).(ttl := 0), Plan(0), []);
    SearchMeans(n, p'.net.nodes[x], y, id, t1, q, i);
    AskRings(n, p'.net.nodes[x], y, id, t1, q, i, now);
    p' := Take(start, kind, p', x, Wake(id), now);
    var m := Asked(x, y, q, i + 1).(ttl := 1);
    var t2 := t1.(wake := now.Ns() + 240 * MILLION, request := m, log := t1.log + [m]);
    SearchMeans(n, p'.net.nodes[x], y, id, t2, q, i + 1);
    AskRings(n, p'.net.nodes[x], y, id, t2, q, i + 1, later);
    p' := Take(start, kind, p', x, Wake(id), later);
    var m' := Asked(x, y, q, i + 2);
    var t3 := t2.(wake := later.Ns() + Plan(0)[1].waitMs * MILLION, request := m', log := t2.log + [m']);
    SearchMeans(n, p'.net.nodes[x], y, id, t3, q, i + 2);
    AskingEnds(n, p'.net.nodes[x], y, id, t3, q, i + 2);
  }

  /** It has taken one number and two ids for the search, and is otherwise as before. */
  predicate HasAsked(n: Node, r: Node, y: u32) {
    && r.sequenceNum == n.sequenceNum + 1 && r.rreqIds == n.rreqIds + 2
    && r.broadcastIp == n.broadcastIp && r.activeRoutes == n.activeRoutes && r.hello == n.hello
    && HasEntry(r, y) && !EntryOf(r, y).routeValid
  }

  lemma AskingEnds(n: Node, r: Node, y: u32, id: nat, t: RoutingTable.Thread, number: u32, ids: u32)
    requires Asking(n, r, y, id, t, number, ids) && number == n.sequenceNum + 1 && ids == n.rreqIds + 2
    ensures HasAsked(n, r, y)
  {
    hide OthersSame;
  }

  lemma AliveEarlier(n: Node, sooner: int, later: int)
    requires AliveUntil(n, later) && sooner <= later
    ensures AliveUntil(n, sooner)
  {
  }

  lemma DataRemovesNothing(n: Node, y: u32)
    ensures forall s :: !Removes(n, DataOut(y, 0), s)
  {
  }

  lemma SearchMeans(n: Node, r: Node, y: u32, id: nat, t: RoutingTable.Thread, number: u32, ids: u32)
    requires Asking(n, r, y, id, t, number, ids) && !t.Expiration?
    ensures r.sequenceNum == number && r.rreqIds == ids && (forall s :: !Removes(r, Wake(id), s))
    ensures OthersSame(n, r, Slot(y), Slot(y))
    ensures forall until :: AliveUntil(n, until) ==> AliveUntil(r, until)
  {
  }

  // ---- How long routes stay alive ----

  /** What was alive until a time up to the limit still is. */
  ghost predicate StaysAlive(n: Node, r: Node, limit: int) {
    forall until :: AliveUntil(n, until) && until <= limit ==> AliveUntil(r, until)
  }

  lemma AnnotatedStays(n: Node, r: Node, limit: int)
    requires Annotated(n, r)
    ensures StaysAlive(n, r, limit)
  {
  }

  lemma PreviousHopStays(n: Node, sender: u32, about: u32, now: Time, junk: u32)
    ensures StaysAlive(n, PreviousHop(n, sender, about, now, junk), now.Ns() + 2800 * MILLION)
  {
    hide AddIfAbsent, Timely, SearchKept, IndexKept, SaysSame, SaysRoute, WakeAt;
  }

  lemma ReverseStays(n: Node, sender: u32, m: Rreq, now: Time)
    requires 1 <= m.hopCount <= NET_DIAMETER && Bounded(n, now)
    ensures StaysAlive(n, ReverseRoute(n, sender, m, now), now.Ns() + 2800 * MILLION)
  {
    MinimalLifetimeRange(m.hopCount);
    ReverseRouteLives(n, sender, m, now);
    hide ReverseRoute, Timely, IndexKept, SaysSame, SaysRoute;
  }

  /** A request leaves every valid route 2800 ms at least, or what it had. */
  lemma RequestStays(n: Node, sender: u32, m: Rreq, now: Time, junk: u32)
    requires m.hopCount < NET_DIAMETER && Bounded(n, now)
    ensures StaysAlive(n, RecvRreq(n, sender, m, now, junk).node, now.Ns() + 2800 * MILLION)
  {
    hide PreviousHop, ReverseRoute, Answer, AlreadySeen, SearchKept, IndexKept, SaysSame, SaysRoute, Annotated,
      StaysAlive, Bounded;
    var m' := m.(hopCount := NextHopCount(m.hopCount));
    var n1 := PreviousHop(n, sender, m.srcIp, now, junk);
    var n2 := ReverseRoute(n1, sender, m', now);
    var limit := now.Ns() + 2800 * MILLION;
    PreviousHopStays(n, sender, m.srcIp, now, junk);
    if m.srcIp != n.ip && !AlreadySeen(n1, m) {
      PreviousHopBounded(n, sender, m.srcIp, now, junk);
      ReverseStays(n1, sender, m', now);
      AnnotatedStays(n2, Answer(n2, sender, m', now).node, limit);
      StaysTrans(n, n1, n2, limit);
      StaysTrans(n, n2, Answer(n2, sender, m', now).node, limit);
    }
  }

  lemma StaysTrans(n: Node, m: Node, r: Node, limit: int)
    requires StaysAlive(n, m, limit) && StaysAlive(m, r, limit)
    ensures StaysAlive(n, r, limit)
  {
    hide AliveUntil;
  }

  lemma PreviousHopBounded(n: Node, sender: u32, about: u32, now: Time, junk: u32)
    requires Bounded(n, now)
    ensures Bounded(PreviousHop(n, sender, about, now, junk), now)
  {
  }

  /** So does a reply that names a lifetime of 2800 ms or more. */
  lemma ReplyStays(n: Node, sender: u32, message: Rrep, now: Time, junk: u32, junk': u32)
    requires message.srcIp != 0 && message.lifetime >= 2800
    ensures StaysAlive(n, RecvRrep(n, sender, message, now, junk, junk').node, now.Ns() + 2800 * MILLION)
  {
    hide PreviousHop, StopSearch, ForwardRoute, ForwardReply, SearchKept, IndexKept, SaysSame, SaysRoute, Annotated,
      StaysAlive, NoNewSearch, RoutesKept, Timely;
    var m := message.(hopCount := NextHopCount(message.hopCount));
    var n1 := StopSearch(n, message);
    var n2 := PreviousHop(n1, sender, m.destIp, now, junk);
    var n3 := ForwardRoute(n2, sender, m, now, junk');
    var limit := now.Ns() + 2800 * MILLION;
    StopSearchStays(n, message, limit);
    PreviousHopStays(n1, sender, m.destIp, now, junk);
    ForwardStays(n2, sender, m, now, junk');
    AnnotatedStays(n3, ForwardReply(n3, m).node, limit);
    StaysTrans(n, n1, n2, limit);
    StaysTrans(n, n2, n3, limit);
    StaysTrans(n, n3, ForwardReply(n3, m).node, limit);
  }

  lemma StopSearchStays(n: Node, m: Rrep, limit: int)
    ensures StaysAlive(n, StopSearch(n, m), limit)
  {
  }

  lemma ForwardStays(n: Node, sender: u32, m: Rrep, now: Time, junk: u32)
    requires m.lifetime >= 2800
    ensures StaysAlive(n, ForwardRoute(n, sender, m, now, junk), now.Ns() + 2800 * MILLION)
  {
    hide SeqCompare, WakeAt, Timely, SearchKept, IndexKept, SaysSame, SaysRoute;
  }

  // ---- Requests arrive ----

  /** A request that is neither the node's own nor for it nor a repeat, nor one it can answer. */
  predicate NewRequest(n: Node, sender: u32, m: Rreq) {
    && m.srcIp != n.ip && m.destIp != n.ip && sender != n.ip && m.rreqId != 0
    && Slot(m.destIp) != Slot(sender) && Slot(m.destIp) != Slot(m.srcIp)
    && (if HasEntry(n, m.srcIp) then EntryOf(n, m.srcIp).rreqId != m.rreqId && Slot(sender) != Slot(m.srcIp)
        else sender == m.srcIp || Slot(sender) != Slot(m.srcIp))
    && (HasEntry(n, m.destIp) ==> !EntryOf(n, m.destIp).routeValid)
  }

  /** The request one hop further. */
  function Passed(n: Node, m: Rreq): Rreq
    requires m.ttl > 1
  {
    m.(hopCount := NextHopCount(m.hopCount), ttl := m.ttl - 1,
       destSeq := if KnowsNewer(n, m) then EntryOf(n, m.destIp).destSeq else m.destSeq)
  }

  /** What it leaves: a valid route back to its originator, new if the request improves on the old one, with a timer. */
  predicate Answered(n: Node, r: Node, sender: u32, m: Rreq) {
    && HasEntry(r, m.srcIp)
    && var e, m' := EntryOf(r, m.srcIp), m.(hopCount := NextHopCount(m.hopCount));
       && e.routeValid && e.seqValid && e.rreqId == m.rreqId && e.expirationThread != 0
       && if HasEntry(n, m.srcIp) && !Improves(EntryOf(n, m.srcIp), m') then SaysSame(EntryOf(n, m.srcIp), e)
          else SaysRoute(e, m.srcSeq, true, sender, m'.hopCount)
  }

  /** It goes on while its TTL lasts. */
  lemma NewRequestPasses(n: Node, sender: u32, m: Rreq, now: Time)
    requires NewRequest(n, sender, m)
    ensures var r := RecvRreq(n, sender, m, now, 0);
            && Answered(n, r.node, sender, m) && OthersSame(n, r.node, Slot(sender), Slot(m.srcIp))
            && (m.ttl > 1 ==> r.outs == [Broadcast(RreqMessage(Passed(n, m)))])
  {
    hide PreviousHop, ReverseRoute, Answer, Timely, SearchKept, IndexKept, AddIfAbsent, NoNewSearch, MoreMarks, Passed;
    var m' := m.(hopCount := NextHopCount(m.hopCount));
    var n1 := PreviousHop(n, sender, m.srcIp, now, 0);
    var n2 := ReverseRoute(n1, sender, m', now);
    if !HasEntry(n, m.srcIp) && sender == m.srcIp {
      FreshNeighbour(n, sender, m.srcIp, now, 0);
    }
    ReverseIsTimed(n1, sender, m', now);
    UnknownIsPassed(n, n2, sender, m, now);
  }

  lemma UnknownIsPassed(n: Node, n2: Node, sender: u32, m: Rreq, now: Time)
    requires HasEntry(n2, m.srcIp) && n2.ip == n.ip != m.destIp
    requires HasEntry(n2, m.destIp) <==> HasEntry(n, m.destIp)
    requires HasEntry(n, m.destIp) ==> EntryOf(n2, m.destIp) == EntryOf(n, m.destIp) && !EntryOf(n, m.destIp).routeValid
    ensures Answer(n2, sender, m.(hopCount := NextHopCount(m.hopCount)), now) ==
            Effect(n2, if m.ttl <= 1 then [] else [Broadcast(RreqMessage(Passed(n, m)))])
  {
    hide SeqCompare;
  }

  lemma FreshNeighbour(n: Node, sender: u32, about: u32, now: Time, junk: u32)
    requires !HasEntry(n, sender)
    ensures var e := EntryOf(PreviousHop(n, sender, about, now, junk), sender);
            e.rreqId == junk && e.timeOut == AddMs(now, ACTIVE_ROUTE_TIMEOUT)
  {
    hide AddMs, WakeAt;
  }

  lemma ReverseIsTimed(n: Node, sender: u32, m: Rreq, now: Time)
    ensures var e := EntryOf(ReverseRoute(n, sender, m, now), m.srcIp);
            e.expirationThread != 0 && e.routeValid && e.rreqId == m.rreqId
  {
    hide ReverseLifetime, AddMs, WakeAt;
  }

  /** The entry ends at this moment, and its timer is set for it. */
  ghost predicate Due(n: Node, dest: u32, wake: int) {
    && HasEntry(n, dest) && EntryOf(n, dest).timeOut.Ns() == wake
    && EntryOf(n, dest).expirationThread in n.threads
    && n.threads[EntryOf(n, dest).expirationThread] == Expiration(Slot(dest), wake)
  }

  /** A first request straight from its originator leaves a route that ends 5520 ms later. */
  lemma FirstHopIsDue(n: Node, m: Rreq, now: Time)
    requires NewRequest(n, m.srcIp, m) && m.hopCount == 0 && !HasEntry(n, m.srcIp)
    ensures Due(RecvRreq(n, m.srcIp, m, now, 0).node, m.srcIp, now.Ns() + 5520 * MILLION)
  {
    hide Answer, ReverseRoute, Timely, SearchKept, IndexKept, AddIfAbsent, NoNewSearch, MoreMarks, AddMs, WakeAt,
      Passed, SaysSame, SaysRoute;
    var m' := m.(hopCount := 1);
    var n1 := PreviousHop(n, m.srcIp, m.srcIp, now, 0);
    FirstRouteEnds(n1, m', now);
    FreshNeighbour(n, m.srcIp, m.srcIp, now, 0);
    UnknownIsPassed(n, ReverseRoute(n1, m.srcIp, m', now), m.srcIp, m, now);
  }

  lemma FirstRouteEnds(n: Node, m: Rreq, now: Time)
    requires HasEntry(n, m.srcIp) && m.hopCount == 1
    requires EntryOf(n, m.srcIp).timeOut == AddMs(now, ACTIVE_ROUTE_TIMEOUT)
    ensures EndsIn(ReverseRoute(n, m.srcIp, m, now), Slot(m.srcIp), 5520, now)
  {
    hide ReverseLifetime, AddMs, SetExpirationTimer, Improves;
    var s := Slot(m.srcIp);
    var n1 := Originator(n, m.srcIp, m, now);
    var e := UpdateReverse(n1.table[s], false, m.srcIp, m).(routeValid := true);
    FirstHopLifetime(now);
    TimerEnds(AddRoute(n1, e.destIp), s, e, 5520, now);
  }

  lemma FirstHopLifetime(now: Time)
    ensures ReverseLifetime(now, AddMs(now, ACTIVE_ROUTE_TIMEOUT), 1) == 5520
  {
    var timeOut := AddMs(now, ACTIVE_ROUTE_TIMEOUT);
    SubtractNeverEarly(now, timeOut);
    MsRoundTrip(5520);
    var minimal := FromMs(5520);
  }

  /** A request on its way arrives. */
  lemma Deliver(start: Net, kind: Kind, p: Point, from: u32, to: u32, m: Rreq, now: Time) returns (p': Point)
    requires Reached(start, kind, p) && NetBounded(start, Instant(0, 0)) && p.now.Ns() <= now.Ns() && from != to
    requires to in p.net.nodes && Ordered(p.net.nodes[to], to) && AliveUntil(p.net.nodes[to], now.Ns())
    requires Packet(from, Broadcast(RreqMessage(m))) in p.net.sent && NewRequest(p.net.nodes[to], from, m)
    requires m.hopCount < NET_DIAMETER
    ensures Reached(start, kind, p') && p'.now == now && OnlyAt(p.net, p'.net, to) && Ordered(p'.net.nodes[to], to)
    ensures var n, r := p.net.nodes[to], p'.net.nodes[to];
            && Answered(n, r, from, m) && OthersSame(n, r, Slot(from), Slot(m.srcIp))
            && StaysAlive(n, r, now.Ns() + 2800 * MILLION) && DueIfFirst(n, r, from, m, now)
            && (m.ttl > 1 ==> Packet(to, Broadcast(RreqMessage(Passed(n, m)))) in p'.net.sent)
  {
    ReachedIsBounded(start, kind, p, now);
    hide Reached, RecvRreq, Answered, Ledger, Placed, OthersSame, Passed, NewRequest, AliveUntil, Bounded, StaysAlive,
      DueIfFirst;
    NewRequestPasses(p.net.nodes[to], from, m, now);
    RequestStays(p.net.nodes[to], from, m, now, 0);
    FirstIsDue(p.net.nodes[to], from, m, now);
    p' := Take(start, kind, p, to, ReceiveRreq(from, m, 0), now);
  }

  ghost predicate DueIfFirst(n: Node, r: Node, sender: u32, m: Rreq, now: Time) {
    sender == m.srcIp && m.hopCount == 0 && !HasEntry(n, sender) ==> Due(r, sender, now.Ns() + 5520 * MILLION)
  }

  lemma FirstIsDue(n: Node, sender: u32, m: Rreq, now: Time)
    requires NewRequest(n, sender, m)
    ensures DueIfFirst(n, RecvRreq(n, sender, m, now, 0).node, sender, m, now)
  {
    hide RecvRreq, NewRequest, Due;
    if sender == m.srcIp && m.hopCount == 0 && !HasEntry(n, sender) {
      FirstHopIsDue(n, m, now);
    }
  }

  lemma ReachedIsBounded(start: Net, kind: Kind, p: Point, now: Time)
    requires Reached(start, kind, p) && NetBounded(start, Instant(0, 0)) && p.now.Ns() <= now.Ns()
    ensures NetBounded(p.net, now)
  {
    NetRunBounds(start, Instant(0, 0), p.run);
    hide NetFinal, NetLegal, AllOfKind, NetMonotone, Latest;
  }

  /** The node has answered a request for itself straight from a node it did not know. */
  predicate Served(n: Node, r: Node, from: u32) {
    && r.sequenceNum == n.sequenceNum + 1 && r.activeRoutes == n.activeRoutes + 1
    && r.rreqIds == n.rreqIds && r.broadcastIp == n.broadcastIp && r.hello == n.hello
  }

  lemma DestinationAnswers(n: Node, from: u32, m: Rreq, now: Time)
    requires m.srcIp == from != n.ip == m.destIp && m.rreqId != 0 && m.Unknown() && !HasEntry(n, from)
    requires n.activeRoutes < WORD - 1 && n.sequenceNum < WORD - 1 && m.hopCount == 0
    ensures var r := RecvRreq(n, from, m, now, 0).node;
            && Served(n, r, from) && OthersSame(n, r, Slot(from), Slot(from))
            && StaysAlive(n, r, now.Ns() + 2800 * MILLION)
  {
    hide PreviousHop, ReverseRoute, SeqCompare, Timely, SearchKept, IndexKept, NoNewSearch, SaysSame, SaysRoute,
      AddIfAbsent, Annotated, EndsIn;
    var n1 := PreviousHop(n, from, from, now, 0);
    FreshNeighbour(n, from, from, now, 0);
    FirstRouteEnds(n1, m.(hopCount := 1), now);
    FirstRouteIsUnused(n, from, m.(hopCount := 1), now);
    EndsLater(ReverseRoute(n1, from, m.(hopCount := 1), now), from, 5520, now);
  }

  lemma FirstRouteIsUnused(n: Node, from: u32, m: Rreq, now: Time)
    requires m.srcIp == from && !HasEntry(n, from)
    ensures var r := ReverseRoute(PreviousHop(n, from, from, now, 0), from, m, now);
            && r == n.(table := r.table, kernel := r.kernel, threads := r.threads, lastThread := r.lastThread)
            && HasEntry(r, from) && EntryOf(r, from).activeRoute == 0
  {
    hide AddMs, WakeAt, ReverseLifetime, Timely, SearchKept, IndexKept, NoNewSearch, SaysSame, SaysRoute, AddIfAbsent,
      OnlySlot, Improves;
  }

  lemma EndsLater(n: Node, dest: u32, ms: int, now: Time)
    requires EndsIn(n, Slot(dest), ms, now)
    ensures EntryOf(n, dest).timeOut.Ns() == now.Ns() + ms * MILLION
  {
  }

  /** A request for a node itself arrives there. */
  lemma Serve(start: Net, kind: Kind, p: Point, from: u32, to: u32, m: Rreq) returns (p': Point)
    requires Reached(start, kind, p) && m.srcIp == from != to == m.destIp && m.rreqId != 0 && m.Unknown()
    requires to in p.net.nodes && Ordered(p.net.nodes[to], to) && AliveUntil(p.net.nodes[to], p.now.Ns())
    requires Packet(from, Broadcast(RreqMessage(m))) in p.net.sent && m.hopCount == 0
    requires var n := p.net.nodes[to]; !HasEntry(n, from) && n.activeRoutes < WORD - 1 && n.sequenceNum < WORD - 1
    ensures Reached(start, kind, p') && p'.now == p.now && OnlyAt(p.net, p'.net, to) && Ordered(p'.net.nodes[to], to)
    ensures var n, r := p.net.nodes[to], p'.net.nodes[to];
            && Served(n, r, from) && OthersSame(n, r, Slot(from), Slot(from))
            && StaysAlive(n, r, p.now.Ns() + 2800 * MILLION)
  {
    hide Reached, RecvRreq, Ledger, Placed, OthersSame, AliveUntil, StaysAlive;
    DestinationAnswers(p.net.nodes[to], from, m, p.now);
    p' := Take(start, kind, p, to, ReceiveRreq(from, m, 0), p.now);
  }

  // ---- Timers and hellos ----

  /** A valid entry has become invalid and ends DELETE_PERIOD later, an invalid one is gone. */
  ghost predicate Lapsed(n: Node, r: Node, dest: u32, now: Time)
    requires HasEntry(n, dest)
  {
    && OthersSame(n, r, Slot(dest), Slot(dest))
    && if EntryOf(n, dest).routeValid
       then && HasEntry(r, dest) && Due(r, dest, now.Ns() + DELETE_PERIOD * MILLION)
            && EntryOf(r, dest) == EntryOf(n, dest).(routeValid := false, timeOut := EntryOf(r, dest).timeOut)
       else !HasEntry(r, dest)
  }

  lemma TimerFires(n: Node, dest: u32, now: Time)
    requires Ledger(n) && Placed(n) && Due(n, dest, now.Ns())
    ensures Enabled(n, Wake(EntryOf(n, dest).expirationThread), now)
    ensures Lapsed(n, Apply(n, Wake(EntryOf(n, dest).expirationThread), now).node, dest, now)
    ensures forall s :: Removes(n, Wake(EntryOf(n, dest).expirationThread), s) ==> !EntryOf(n, dest).routeValid
  {
    if EntryOf(n, dest).routeValid {
      ValidEntryExpires(n, EntryOf(n, dest).expirationThread, now);
    }
    hide AddMs, WakeAt, Ledger, Timely, IndexKept, SaysSame;
  }

  /** The timer of an entry goes off when it is due. */
  lemma Fire(start: Net, kind: Kind, p: Point, at: u32, dest: u32, now: Time) returns (p': Point)
    requires Reached(start, kind, p) && at in p.net.nodes && Ordered(p.net.nodes[at], at)
    requires Due(p.net.nodes[at], dest, now.Ns()) && p.now.Ns() <= now.Ns() && AliveUntil(p.net.nodes[at], now.Ns())
    requires kind.deletions || EntryOf(p.net.nodes[at], dest).routeValid
    ensures Reached(start, kind, p') && p'.now == now && OnlyAt(p.net, p'.net, at) && Ordered(p'.net.nodes[at], at)
    ensures Lapsed(p.net.nodes[at], p'.net.nodes[at], dest, now)
  {
    hide Reached, Apply, Ledger, Placed, Lapsed, AliveUntil;
    TimerFires(p.net.nodes[at], dest, now);
    p' := Take(start, kind, p, at, Wake(EntryOf(p.net.nodes[at], dest).expirationThread), now);
  }

  /** The record of a node's number has been raised, and nothing else about the way to it. */
  predicate Raised(n: Node, r: Node, about: u32, number: u32)
    requires HasEntry(n, about)
  {
    && HasEntry(r, about)
    && var e, e' := EntryOf(n, about), EntryOf(r, about);
       SaysRoute(e', number, true, e.nextHop, e.hopCount) && e'.routeValid == e.routeValid && e'.rreqId == e.rreqId
  }

  lemma HelloRaises(n: Node, sender: u32, number: u32, now: Time)
    requires HasEntry(n, sender) && n.ip != 0 && SeqCompare(number, EntryOf(n, sender).destSeq) >= 0
    ensures var r := RecvRrep(n, sender, Rrep(0, 0, sender, number, 0, 2000), now, 0, 0).node;
            && Raised(n, r, sender, number) && OthersSame(n, r, Slot(sender), Slot(sender))
            && StaysAlive(n, r, now.Ns() + 2000 * MILLION)
  {
    hide SeqCompare, AddMs, WakeAt, Timely;
  }

  /** The hello thread sees an active route and goes to sleep. */
  lemma Pause(start: Net, kind: Kind, p: Point, x: u32) returns (p': Point)
    requires Reached(start, kind, p) && x in p.net.nodes && Ordered(p.net.nodes[x], x)
    requires AliveUntil(p.net.nodes[x], p.now.Ns()) && p.net.nodes[x].hello.Waiting? && p.net.nodes[x].activeRoutes != 0
    ensures Reached(start, kind, p') && p'.now == p.now && OnlyAt(p.net, p'.net, x) && Ordered(p'.net.nodes[x], x)
    ensures p'.net.nodes[x] == p.net.nodes[x].(hello := Sleeping(p.now.Ns() + HELLO_INTERVAL * MILLION))
  {
    hide Reached, Ledger, Placed, AliveUntil;
    p' := Take(start, kind, p, x, HelloTick, p.now);
  }

  /** A node whose hello thread has slept says hello, and another one with a record of it hears that. */
  lemma Greet(start: Net, kind: Kind, p: Point, from: u32, to: u32) returns (p': Point)
    requires Reached(start, kind, p) && kind.hellos && from != to && to != 0
    requires from in p.net.nodes && Ordered(p.net.nodes[from], from) && AliveUntil(p.net.nodes[from], p.now.Ns())
    requires p.net.nodes[from].hello.Sleeping? && p.net.nodes[from].hello.wake <= p.now.Ns()
    requires to in p.net.nodes && Ordered(p.net.nodes[to], to) && AliveUntil(p.net.nodes[to], p.now.Ns())
    requires HasEntry(p.net.nodes[to], from)
    requires SeqCompare(p.net.nodes[from].sequenceNum, EntryOf(p.net.nodes[to], from).destSeq) >= 0
    ensures Reached(start, kind, p') && p'.now == p.now
    ensures p'.net.nodes.Keys == p.net.nodes.Keys && p.net.sent <= p'.net.sent && Ordered(p'.net.nodes[to], to)
    ensures forall z :: z in p'.net.nodes && z != from && z != to ==> p'.net.nodes[z] == p.net.nodes[z]
    ensures var n, r, now := p.net.nodes[to], p'.net.nodes[to], p.now;
            && HasEntry(n, from) && Raised(n, r, from, p.net.nodes[from].sequenceNum)
            && OthersSame(n, r, Slot(from), Slot(from))
            && StaysAlive(n, r, now.Ns() + 2000 * MILLION)
  {
    hide Reached, RecvRrep, Ledger, Placed, Raised, OthersSame, SeqCompare, AliveUntil, StaysAlive;
    var number := p.net.nodes[from].sequenceNum;
    HelloRaises(p.net.nodes[to], from, number, p.now);
    p' := Take(start, kind, p, from, HelloTick, p.now);
    p' := Take(start, kind, p', to, ReceiveRrep(from, Rrep(0, 0, from, number, 0, 2000), 0, 0), p.now);
  }
}
