/** Runs of the network from its start that end with two nodes sending packets for a third back and forth. */
module LoopRuns {
  import opened Aodv
  import opened Messages
  import opened TimeFuncs
  import opened RoutingTable
  import opened SendMessages
  import opened RecvMessages
  import opened Callbacks
  import opened TableRefinement
  import opened Threads
  import opened Lifetime
  import opened Network
  import opened NetRuns
  import opened ForwardLoop

  /** Each of two nodes has a valid route to S with a valid number through the other, and none of its valid routes is
      past its deadline. */
  ghost predicate TwoNodeLoop(p: Point, a: u32, b: u32, S: u32) {
    && a != b && S != a && S != b && a in p.net.nodes && b in p.net.nodes
    && RouteVia(p.net.nodes[a], S, b) && RouteVia(p.net.nodes[b], S, a)
    && AliveUntil(p.net.nodes[a], p.now.Ns()) && AliveUntil(p.net.nodes[b], p.now.Ns())
  }

  const S: u32 := 0x0100_0001
  const B: u32 := 0x0200_0001
  const A: u32 := 0x0300_0001
  const C: u32 := 0x0400_0001
  const D: u32 := 0x0500_0001
  const E: u32 := 0x0600_0001
  const F: u32 := 0x0700_0001

  const SEVEN := {S, B, A, C, D, E, F}

  function Start(): Net {
    NetBoot(SEVEN, 0)
  }

  lemma Slots()
    ensures Slot(S) == 1 && Slot(B) == 2 && Slot(A) == 3 && Slot(C) == 4 && Slot(D) == 5 && Slot(E) == 6 && Slot(F) == 7
    ensures DistinctSlots(SEVEN)
  {
  }

  lemma StartIsReached(kind: Kind)
    ensures Reached(Start(), kind, Point([], Start(), Instant(0, 0))) && NetBounded(Start(), Instant(0, 0))
    ensures Start().nodes.Keys == SEVEN && forall z :: z in SEVEN ==> Start().nodes[z] == Boot(z, 0)
  {
  }

  /** A valid route with all it says, made by the request with this id. */
  predicate Recorded(n: Node, dest: u32, number: u32, hop: u32, hops: u32, id: u32) {
    && HasEntry(n, dest)
    && var e := EntryOf(n, dest); e.routeValid && SaysRoute(e, number, true, hop, hops) && e.rreqId == id
  }

  lemma NewIsRecorded(n: Node, r: Node, sender: u32, m: Rreq)
    requires Answered(n, r, sender, m)
    requires HasEntry(n, m.srcIp) ==> Improves(EntryOf(n, m.srcIp), m.(hopCount := NextHopCount(m.hopCount)))
    ensures Recorded(r, m.srcIp, m.srcSeq, sender, NextHopCount(m.hopCount), m.rreqId)
  {
  }

  // ---- A request goes through B to A ----

  /** The second request x sends in its first search, as B passes it on. */
  function Once(x: u32, y: u32): Rreq {
    Asked(x, y, 1, 2).(hopCount := 1, ttl := 2)
  }

  /** And as A does. */
  function Twice(x: u32, y: u32): Rreq {
    Asked(x, y, 1, 2).(hopCount := 2, ttl := 1)
  }

  /** x has asked for y, and its request has gone to B, at one second. */
  ghost predicate WentToB(net: Net, x: u32, y: u32) {
    && net.nodes.Keys == SEVEN && x in SEVEN && Searched(net.nodes[x], x, y)
    && KnowsOnly(net.nodes[B], x) && AliveUntil(net.nodes[B], 3_800 * MILLION)
    && Packet(B, Broadcast(RreqMessage(Once(x, y)))) in net.sent
    && forall z :: z in SEVEN && z != x && z != B ==> net.nodes[z] == Boot(z, 0)
  }

  /** It has gone on to A. */
  ghost predicate WentToA(net: Net, x: u32, y: u32, now: Time) {
    && A in net.nodes && Ordered(net.nodes[A], A) && Recorded(net.nodes[A], x, 1, B, 2, 2)
    && OthersSame(Boot(A, 0), net.nodes[A], Slot(B), Slot(x))
    && AliveUntil(net.nodes[A], now.Ns() + 2800 * MILLION)
    && Packet(A, Broadcast(RreqMessage(Twice(x, y)))) in net.sent
  }

  /** The state of a node after its first search has sent two requests. */
  ghost predicate Searched(n: Node, x: u32, y: u32) {
    && Ordered(n, x) && n.sequenceNum == 1 && n.rreqIds == 2 && n.broadcastIp == 0 && n.activeRoutes == 0
    && n.hello.Waiting? && OthersSame(Boot(x, 0), n, Slot(y), Slot(y)) && forall until :: AliveUntil(n, until)
  }

  ghost predicate HasSent(net: Net, x: u32, y: u32) {
    && net.nodes.Keys == SEVEN && x in SEVEN && Searched(net.nodes[x], x, y)
    && Packet(x, Broadcast(RreqMessage(Asked(x, y, 1, 2)))) in net.sent
    && forall z :: z in SEVEN && z != x ==> net.nodes[z] == Boot(z, 0)
  }

  lemma Send(kind: Kind, x: u32, y: u32) returns (p: Point)
    requires x in {S, D} && y in {S, D} && x != y
    ensures Reached(Start(), kind, p) && p.now == Instant(1, 0) && HasSent(p.net, x, y)
  {
    hide Reached, Ledger, Placed, Slot, OthersSame, Boot, Start, AliveUntil;
    StartIsReached(kind);
    FreshNode(x);
    p := Ask(Start(), kind, Point([], Start(), Instant(0, 0)), x, y, Instant(1, 0));
  }

  lemma ToB(kind: Kind, x: u32, y: u32) returns (p: Point)
    requires x in {S, D} && y in {S, D} && x != y
    ensures Reached(Start(), kind, p) && p.now == Instant(1, 0) && WentToB(p.net, x, y)
  {
    hide Reached, KnowsOnly, Boot, Start, AliveUntil, Searched, Asked;
    var p1 := Send(kind, x, y);
    p := FirstHop(kind, p1, x, y);
  }

  lemma FirstHop(kind: Kind, p: Point, x: u32, y: u32) returns (p': Point)
    requires x in {S, D} && y in {S, D} && x != y && p.net.nodes.Keys == SEVEN && p.net.nodes[B] == Boot(B, 0)
    requires Reached(Start(), kind, p) && p.now == Instant(1, 0)
    requires Packet(x, Broadcast(RreqMessage(Asked(x, y, 1, 2)))) in p.net.sent
    ensures Reached(Start(), kind, p') && p'.now == Instant(1, 0) && OnlyAt(p.net, p'.net, B)
    ensures p'.net.nodes.Keys == SEVEN
    ensures KnowsOnly(p'.net.nodes[B], x) && AliveUntil(p'.net.nodes[B], 3_800 * MILLION)
    ensures Packet(B, Broadcast(RreqMessage(Once(x, y)))) in p'.net.sent
  {
    hide Reached, Ledger, Placed, Slot, Answered, OthersSame, Recorded, Boot, Start, AliveUntil, Due, NewRequest,
      Passed, Asked, Once, KnowsOnly, StaysAlive, DueIfFirst;
    StartIsReached(kind);
    FreshNode(B);
    FirstIsTaken(x, y);
    p' := Deliver(Start(), kind, p, x, B, Asked(x, y, 1, 2), Instant(1, 0));
    FirstIsKnown(x, y, p'.net.nodes[B]);
  }

  lemma FirstIsKnown(x: u32, y: u32, r: Node)
    requires var n, m := Boot(B, 0), Asked(x, y, 1, 2);
             && Ordered(r, B) && Answered(n, r, x, m) && OthersSame(n, r, Slot(x), Slot(x))
             && StaysAlive(n, r, 3_800 * MILLION) && DueIfFirst(n, r, x, m, Instant(1, 0))
    ensures KnowsOnly(r, x) && AliveUntil(r, 3_800 * MILLION)
  {
    hide Ledger, Placed, Slot, OthersSame, AliveUntil, Due;
    FreshNode(B);
  }

  lemma FirstIsTaken(x: u32, y: u32)
    requires x in {S, D} && y in {S, D} && x != y
    ensures var m := Asked(x, y, 1, 2);
            && NewRequest(Boot(B, 0), x, m) && Passed(Boot(B, 0), m) == Once(x, y)
            && m.srcIp == x && m.srcSeq == 1 && m.hopCount == 0 && m.rreqId == 2 && m.ttl == 3
  {
    Slots();
    FreshTakes(B, x, Asked(x, y, 1, 2));
    hide NewRequest, Passed, Slot, Boot;
  }

  lemma ToA(kind: Kind, p: Point, x: u32, y: u32, now: Time) returns (p': Point)
    requires x in {S, D} && y in {S, D} && x != y && p.net.nodes.Keys == SEVEN && p.net.nodes[A] == Boot(A, 0)
    requires Reached(Start(), kind, p) && p.now.Ns() <= now.Ns()
    requires Packet(B, Broadcast(RreqMessage(Once(x, y)))) in p.net.sent
    ensures Reached(Start(), kind, p') && p'.now == now && OnlyAt(p.net, p'.net, A) && WentToA(p'.net, x, y, now)
  {
    hide Reached, Ledger, Placed, Slot, Answered, OthersSame, Recorded, Boot, Start, AliveUntil, Due;
    StartIsReached(kind);
    Slots();
    FreshNode(A);
    assert Passed(p.net.nodes[A], Once(x, y)) == Twice(x, y);
    p' := Deliver(Start(), kind, p, B, A, Once(x, y), now);
    NewIsRecorded(p.net.nodes[A], p'.net.nodes[A], B, Once(x, y));
  }

  /** A fresh node takes any request for others from a neighbour and passes it on as it is. */
  lemma FreshTakes(x: u32, sender: u32, m: Rreq)
    requires m.srcIp != x && m.destIp != x && sender != x && m.rreqId != 0
    requires Slot(m.destIp) != Slot(sender) && Slot(m.destIp) != Slot(m.srcIp)
    requires sender == m.srcIp || Slot(sender) != Slot(m.srcIp)
    ensures NewRequest(Boot(x, 0), sender, m)
    ensures m.ttl > 1 ==>
              Passed(Boot(x, 0), m) == m.(hopCount := NextHopCount(m.hopCount), ttl := m.ttl - 1)
  {
  }

  lemma FreshNode(x: u32)
    ensures var n := Boot(x, 0);
            && Ordered(n, x) && n.broadcastIp == 0 && n.sequenceNum == 0 && n.rreqIds == 0 && n.activeRoutes == 0
            && n.hello.Waiting? && (forall until :: AliveUntil(n, until)) && forall y :: !HasEntry(n, y)
  {
  }

  /** What a node that was fresh has no entry for. */
  lemma OthersStayUnknown(x: u32, n: Node, s: u8, t: u8, y: u32)
    requires OthersSame(Boot(x, 0), n, s, t) && Slot(y) != s && Slot(y) != t
    ensures !HasEntry(n, y)
  {
  }

  lemma StillUnknown(n: Node, r: Node, s: u8, t: u8, y: u32)
    requires OthersSame(n, r, s, t) && Slot(y) != s && Slot(y) != t
    ensures HasEntry(r, y) <==> HasEntry(n, y)
    ensures HasEntry(n, y) ==> EntryOf(r, y) == EntryOf(n, y)
  {
  }

  /** The only route of B ends when it is due. */
  lemma LapseAtB(kind: Kind, p: Point, x: u32) returns (p': Point)
    requires Reached(Start(), kind, p) && p.now.Ns() <= 6_520 * MILLION
    requires B in p.net.nodes && KnowsOnly(p.net.nodes[B], x)
    ensures Reached(Start(), kind, p') && p'.now == Instant(6, 520 * MILLION) && OnlyAt(p.net, p'.net, B)
    ensures Ordered(p'.net.nodes[B], B) && HasLapsed(p'.net.nodes[B], x)
  {
    hide Reached, Ledger, Placed, Slot, Boot, Start, OthersSame, Due, AliveUntil, Lapsed;
    OnlyRouteIsAlive(B, p.net.nodes[B], x, 6_520 * MILLION);
    p' := Fire(Start(), kind, p, B, x, Instant(6, 520 * MILLION));
    OnlyRouteLapses(B, p.net.nodes[B], p'.net.nodes[B], x, Instant(6, 520 * MILLION));
  }

  /** All B knows is the originator of the request. */
  ghost predicate KnowsOnly(n: Node, x: u32) {
    && Ordered(n, B) && Recorded(n, x, 1, x, 1, 2) && Due(n, x, 6_520 * MILLION)
    && OthersSame(Boot(B, 0), n, Slot(x), Slot(x))
  }

  ghost predicate HasLapsed(n: Node, x: u32) {
    && HasEntry(n, x) && Due(n, x, 21_520 * MILLION) && OthersSame(Boot(B, 0), n, Slot(x), Slot(x))
    && (forall until :: AliveUntil(n, until))
    && var e := EntryOf(n, x); !e.routeValid && e.seqValid && e.destSeq == 1
  }

  lemma OnlyRouteIsAlive(ip: u32, n: Node, x: u32, wake: int)
    requires OthersSame(Boot(ip, 0), n, Slot(x), Slot(x)) && Due(n, x, wake)
    ensures AliveUntil(n, wake)
  {
  }

  lemma OnlyRouteLapses(ip: u32, n: Node, r: Node, x: u32, now: Time)
    requires OthersSame(Boot(ip, 0), n, Slot(x), Slot(x)) && HasEntry(n, x) && Lapsed(n, r, x, now)
    ensures OthersSame(Boot(ip, 0), r, Slot(x), Slot(x)) && forall until :: AliveUntil(r, until)
    ensures if EntryOf(n, x).routeValid
            then && Due(r, x, now.Ns() + DELETE_PERIOD * MILLION)
                 && EntryOf(r, x) == EntryOf(n, x).(routeValid := false, timeOut := EntryOf(r, x).timeOut)
            else !HasEntry(r, x)
  {
  }

  // ---- A deletion ----

  /** Deletion alone makes a loop: B forgets its route to S, and then takes back its own copy of an old request
      from A, whose route to S goes through B. No reply, no hello and no error is received. */
  lemma DeletionMakesLoop() returns (p: Point)
    ensures DistinctSlots(SEVEN) && Reached(NetBoot(SEVEN, 0), Kind(false, false, true), p) && TwoNodeLoop(p, A, B, S)
  {
    hide Reached, Ledger, Placed, Slot, OthersSame, Boot, NetBoot, Recorded, Due, AliveUntil, Searched;
    var kind := Kind(false, false, true);
    Slots();
    var p1 := ToB(kind, S, D);
    var p2 := LapseAtB(kind, p1, S);
    var p3 := ToA(kind, p2, S, D, Instant(20, 0));
    var p4 := ForgetAtB(kind, p3);
    p := TakeBack(kind, p4);
  }

  ghost predicate Forgot(n: Node) {
    && Ordered(n, B) && !HasEntry(n, S) && !HasEntry(n, A) && !HasEntry(n, D)
    && forall until :: AliveUntil(n, until)
  }

  lemma ForgetAtB(kind: Kind, p: Point) returns (p': Point)
    requires Reached(Start(), kind, p) && kind.deletions && p.now.Ns() <= 21_520 * MILLION
    requires B in p.net.nodes && Ordered(p.net.nodes[B], B) && HasLapsed(p.net.nodes[B], S)
    ensures Reached(Start(), kind, p') && p'.now == Instant(21, 520 * MILLION) && OnlyAt(p.net, p'.net, B)
    ensures Forgot(p'.net.nodes[B])
  {
    hide Reached, Ledger, Placed, Slot, Boot, Start, OthersSame, Due, AliveUntil, Lapsed;
    Slots();
    p' := Fire(Start(), kind, p, B, S, Instant(21, 520 * MILLION));
    OnlyRouteLapses(B, p.net.nodes[B], p'.net.nodes[B], S, Instant(21, 520 * MILLION));
    OthersStayUnknown(B, p'.net.nodes[B], Slot(S), Slot(S), A);
    OthersStayUnknown(B, p'.net.nodes[B], Slot(S), Slot(S), D);
  }

  lemma TakeBack(kind: Kind, p: Point) returns (p': Point)
    requires Reached(Start(), kind, p) && p.now == Instant(21, 520 * MILLION) && B in p.net.nodes
    requires WentToA(p.net, S, D, Instant(20, 0))
    requires Forgot(p.net.nodes[B])
    ensures Reached(Start(), kind, p') && TwoNodeLoop(p', A, B, S)
  {
    hide Reached, Ledger, Placed, Slot, Boot, Start, OthersSame, Due, AliveUntil, Answered;
    StartIsReached(kind);
    Slots();
    p' := Deliver(Start(), kind, p, A, B, Twice(S, D), p.now);
    NewIsRecorded(p.net.nodes[B], p'.net.nodes[B], A, Twice(S, D));
    AliveEarlier(p.net.nodes[A], p.now.Ns(), 22_800 * MILLION);
  }

  // ---- A hello ----

  /** A hello alone makes a loop: it gives A the newer number of S and leaves A's next hop, so that A keeps its route
      through B when S's next request comes through C, and passes on a request that B takes. No reply and no error
      is received, and no entry is removed. */
  lemma HelloMakesLoop() returns (p: Point)
    ensures DistinctSlots(SEVEN) && Reached(NetBoot(SEVEN, 0), Kind(false, true, false), p) && TwoNodeLoop(p, A, B, S)
  {
    hide Reached, Ledger, Placed, Slot, OthersSame, Boot, NetBoot, Recorded, Due, AliveUntil, Searched;
    var kind := Kind(false, true, false);
    Slots();
    var p1 := ToB(kind, S, D);
    var p2 := ToA(kind, p1, S, D, Instant(1, 0));
    var p3 := BecomeActive(kind, p2);
    var p4 := AskForF(kind, p3);
    var p5 := GreetA(kind, p4);
    p := AroundThroughC(kind, p5);
  }

  /** What A and B hold since the first request of S. */
  ghost predicate BothKnow(net: Net) {
    && net.nodes.Keys == SEVEN && WentToA(net, S, D, Instant(1, 0)) && net.nodes[C] == Boot(C, 0)
    && KnowsOnly(net.nodes[B], S) && AliveUntil(net.nodes[B], 3_800 * MILLION)
  }

  /** The hello thread of S sleeps, and S knows only D and E. */
  ghost predicate IsActive(n: Node) {
    && Ordered(n, S) && n.sequenceNum == 2 && n.rreqIds == 2 && n.broadcastIp == 0 && !HasEntry(n, F)
    && n.hello == Sleeping(3_000 * MILLION) && AliveUntil(n, 4_800 * MILLION)
  }

  /** E asks for S, whose answer makes the route back to E its first active route. */
  lemma BecomeActive(kind: Kind, p: Point) returns (p': Point)
    requires Reached(Start(), kind, p) && p.now == Instant(1, 0) && BothKnow(p.net)
    requires p.net.nodes.Keys == SEVEN && Searched(p.net.nodes[S], S, D) && p.net.nodes[E] == Boot(E, 0)
    ensures Reached(Start(), kind, p') && p'.now == Instant(2, 0) && BothKnow(p'.net) && IsActive(p'.net.nodes[S])
  {
    hide Reached, Ledger, Placed, Slot, OthersSame, Boot, Start, AliveUntil, BothKnow, Searched, Asked;
    FreshNode(E);
    var p1 := Ask(Start(), kind, p, E, S, Instant(2, 0));
    BothStillKnow(p.net, p1.net, E);
    var p2 := ServeE(kind, p1);
    BothStillKnow(p1.net, p2.net, S);
    AliveEarlier(p2.net.nodes[S], 2_000 * MILLION, 4_800 * MILLION);
    p' := Pause(Start(), kind, p2, S);
    BothStillKnow(p2.net, p'.net, S);
    SameIsAlive(p2.net.nodes[S], p'.net.nodes[S], 4_800 * MILLION);
  }

  lemma BothStillKnow(net: Net, net': Net, x: u32)
    requires BothKnow(net) && OnlyAt(net, net', x) && x in {S, E}
    ensures BothKnow(net')
  {
    hide KnowsOnly, AliveUntil, Ledger, Placed, Slot, OthersSame, Boot, Recorded;
  }

  /** S has answered E. */
  ghost predicate HasServed(n: Node) {
    && Ordered(n, S) && n.sequenceNum == 2 && n.rreqIds == 2 && n.broadcastIp == 0 && !HasEntry(n, F)
    && n.hello.Waiting? && n.activeRoutes == 1 && AliveUntil(n, 4_800 * MILLION)
  }

  lemma ServeE(kind: Kind, p: Point) returns (p': Point)
    requires Reached(Start(), kind, p) && p.now == Instant(2, 0) && S in p.net.nodes && Searched(p.net.nodes[S], S, D)
    requires Packet(E, Broadcast(RreqMessage(Asked(E, S, 1, 2)))) in p.net.sent
    ensures Reached(Start(), kind, p') && p'.now == p.now && OnlyAt(p.net, p'.net, S)
    ensures HasServed(p'.net.nodes[S])
  {
    hide Reached, Ledger, Placed, Slot, OthersSame, Boot, Start, AliveUntil;
    Slots();
    OthersStayUnknown(S, p.net.nodes[S], Slot(D), Slot(D), E);
    OthersStayUnknown(S, p.net.nodes[S], Slot(D), Slot(D), F);
    p' := Serve(Start(), kind, p, E, S, Asked(E, S, 1, 2));
    StillUnknown(p.net.nodes[S], p'.net.nodes[S], Slot(E), Slot(E), F);
  }

  lemma SameIsAlive(n: Node, r: Node, until: int)
    requires AliveUntil(n, until) && r.table == n.table
    ensures AliveUntil(r, until)
  {
  }

  /** S has asked for F with number 3, and A and B are as before. */
  ghost predicate AskedForF(net: Net) {
    && BothKnow(net) && Packet(S, Broadcast(RreqMessage(Asked(S, F, 3, 4)))) in net.sent
    && Ordered(net.nodes[S], S) && net.nodes[S].sequenceNum == 3 && net.nodes[S].hello == Sleeping(3_000 * MILLION)
    && AliveUntil(net.nodes[S], 3_000 * MILLION)
  }

  lemma AskForF(kind: Kind, p: Point) returns (p': Point)
    requires Reached(Start(), kind, p) && p.now == Instant(2, 0) && BothKnow(p.net) && IsActive(p.net.nodes[S])
    ensures Reached(Start(), kind, p') && p'.now == Instant(3, 0) && AskedForF(p'.net)
  {
    hide Reached, Ledger, Placed, Slot, OthersSame, Boot, Start, AliveUntil, Recorded, Due;
    AliveEarlier(p.net.nodes[S], 3_000 * MILLION, 4_800 * MILLION);
    p' := Ask(Start(), kind, p, S, F, Instant(3, 0));
  }

  /** A has the number of the request, but still reaches S through B. */
  ghost predicate GreetedA(net: Net) {
    && net.nodes.Keys == SEVEN && net.nodes[C] == Boot(C, 0)
    && Ordered(net.nodes[A], A) && AliveUntil(net.nodes[A], 3_000 * MILLION)
    && Recorded(net.nodes[A], S, 3, B, 2, 2) && !HasEntry(net.nodes[A], F)
    && Ordered(net.nodes[B], B) && AliveUntil(net.nodes[B], 3_000 * MILLION)
    && Recorded(net.nodes[B], S, 1, S, 1, 2) && !HasEntry(net.nodes[B], F)
    && Packet(S, Broadcast(RreqMessage(Asked(S, F, 3, 4)))) in net.sent
  }

  lemma NewerAccepted()
    ensures SeqCompare(3, 1) >= 0
  {
  }

  lemma GreetA(kind: Kind, p: Point) returns (p': Point)
    requires Reached(Start(), kind, p) && kind.hellos && p.now == Instant(3, 0) && AskedForF(p.net)
    ensures Reached(Start(), kind, p') && p'.now == Instant(3, 0) && GreetedA(p'.net)
  {
    hide Reached, Ledger, Placed, Slot, OthersSame, Boot, Start, AliveUntil, Due, SeqCompare;
    Slots();
    NewerAccepted();
    AliveEarlier(p.net.nodes[A], 3_000 * MILLION, 3_800 * MILLION);
    AliveEarlier(p.net.nodes[B], 3_000 * MILLION, 3_800 * MILLION);
    p' := Greet(Start(), kind, p, S, A);
    OthersStayUnknown(A, p.net.nodes[A], Slot(B), Slot(S), F);
    StillUnknown(p.net.nodes[A], p'.net.nodes[A], Slot(S), Slot(S), F);
    OthersStayUnknown(B, p.net.nodes[B], Slot(S), Slot(S), F);
  }

  /** S's request for F after some hops. */
  function ForF(hops: u8): Rreq
    requires hops <= 2
  {
    Asked(S, F, 3, 4).(hopCount := hops, ttl := 3 - hops)
  }

  /** It goes through C and A to B. */
  lemma AroundThroughC(kind: Kind, p: Point) returns (p': Point)
    requires Reached(Start(), kind, p) && p.now == Instant(3, 0) && GreetedA(p.net)
    ensures Reached(Start(), kind, p') && TwoNodeLoop(p', A, B, S)
  {
    hide Reached, Ledger, Placed, Slot, OthersSame, Boot, Start, AliveUntil, Answered, Recorded, NewRequest, Passed,
      ForF, RouteVia;
    Slots();
    StartIsReached(kind);
    var p1 := ToC(kind, p);
    GreetedTakes(p1.net.nodes[A]);
    var p2 := Deliver(Start(), kind, p1, C, A, ForF(1), p.now);
    GreetedKeeps(p1.net.nodes[A], p2.net.nodes[A]);
    WaitingTakes(p2.net.nodes[B]);
    p' := Deliver(Start(), kind, p2, A, B, ForF(2), p.now);
    WaitingTurns(p2.net.nodes[B], p'.net.nodes[B]);
  }

  lemma ToC(kind: Kind, p: Point) returns (p': Point)
    requires Reached(Start(), kind, p) && p.now == Instant(3, 0) && GreetedA(p.net)
    ensures Reached(Start(), kind, p') && p'.now == p.now && OnlyAt(p.net, p'.net, C)
    ensures Packet(C, Broadcast(RreqMessage(ForF(1)))) in p'.net.sent
  {
    hide Reached, Ledger, Placed, Slot, OthersSame, Boot, Start, AliveUntil, Answered, Recorded, NewRequest, Passed;
    Slots();
    StartIsReached(kind);
    FreshNode(C);
    FreshTakes(C, S, ForF(0));
    p' := Deliver(Start(), kind, p, S, C, ForF(0), p.now);
  }

  lemma GreetedTakes(n: Node)
    requires n.ip == A && Recorded(n, S, 3, B, 2, 2) && !HasEntry(n, F)
    ensures ForF(1).hopCount == 1 && ForF(1).srcIp == S && ForF(1).ttl == 2
    ensures NewRequest(n, C, ForF(1)) && Passed(n, ForF(1)) == ForF(2)
  {
  }

  /** The request repeats the number, so A keeps the way it had. */
  lemma GreetedKeeps(n: Node, r: Node)
    requires Recorded(n, S, 3, B, 2, 2) && Answered(n, r, C, ForF(1))
    ensures RouteVia(r, S, B)
  {
  }

  lemma WaitingTakes(n: Node)
    requires n.ip == B && Recorded(n, S, 1, S, 1, 2) && !HasEntry(n, F)
    ensures ForF(2).hopCount == 2 && ForF(2).srcIp == S && NewRequest(n, A, ForF(2))
  {
  }

  /** For B its number is newer. */
  lemma WaitingTurns(n: Node, r: Node)
    requires Recorded(n, S, 1, S, 1, 2) && Answered(n, r, A, ForF(2))
    ensures RouteVia(r, S, A)
  {
  }

  // ---- A reply ----

  /** Replies alone make a loop: D's request leaves routes to D, B loses its own while that of A through B lives, and
      A answers S's request with a gratuitous reply that B accepts though it is longer. No hello and no error is
      received, and no entry is removed. */
  lemma ReplyMakesLoop() returns (p: Point)
    ensures DistinctSlots(SEVEN) && Reached(NetBoot(SEVEN, 0), Kind(true, false, false), p) && TwoNodeLoop(p, A, B, S)
  {
    hide Reached, Ledger, Placed, Slot, OthersSame, Boot, NetBoot, Recorded, Due, AliveUntil, Searched;
    var kind := Kind(true, false, false);
    Slots();
    var p1 := ToB(kind, D, S);
    var p2 := ToA(kind, p1, D, S, Instant(5, 0));
    var p3 := LapseAtB(kind, p2, D);
    var p4 := AskThroughB(kind, p3);
    p := AnswerAndReply(kind, p4);
  }

  /** S's request as B passes it on, with the number of D that B remembers. */
  function Informed(): Rreq {
    Once(S, D).(destSeq := 1)
  }

  /** What A still knows of D. */
  ghost predicate KnowsWay(n: Node) {
    Ordered(n, A) && Recorded(n, D, 1, B, 2, 2) && !HasEntry(n, S) && AliveUntil(n, 7_800 * MILLION)
  }

  /** S's request for D goes to B. */
  lemma AskThroughB(kind: Kind, p: Point) returns (p': Point)
    requires Reached(Start(), kind, p) && p.now == Instant(6, 520 * MILLION)
    requires p.net.nodes.Keys == SEVEN && p.net.nodes[S] == Boot(S, 0) && WentToA(p.net, D, S, Instant(5, 0))
    requires Ordered(p.net.nodes[B], B) && HasLapsed(p.net.nodes[B], D)
    ensures Reached(Start(), kind, p') && p'.now == Instant(7, 0) && p'.net.nodes.Keys == SEVEN
    ensures KnowsWay(p'.net.nodes[A])
    ensures Ordered(p'.net.nodes[B], B) && Recorded(p'.net.nodes[B], S, 1, S, 1, 2)
    ensures AliveUntil(p'.net.nodes[B], 9_800 * MILLION)
    ensures Packet(B, Broadcast(RreqMessage(Informed()))) in p'.net.sent
  {
    hide Reached, Ledger, Placed, Slot, OthersSame, Boot, Start, Answered, Recorded, AliveUntil, Due,
      NewRequest, Passed, Asked, Informed, SeqCompare;
    StartIsReached(kind);
    Slots();
    FreshNode(S);
    var m := Asked(S, D, 1, 2);
    OthersStayUnknown(A, p.net.nodes[A], Slot(B), Slot(D), S);
    OthersStayUnknown(B, p.net.nodes[B], Slot(D), Slot(D), S);
    var p1 := Ask(Start(), kind, p, S, D, Instant(7, 0));
    LapsedTakes(p.net.nodes[B]);
    p' := Deliver(Start(), kind, p1, S, B, m, Instant(7, 0));
    NewIsRecorded(p1.net.nodes[B], p'.net.nodes[B], S, m);
  }

  lemma LapsedTakes(n: Node)
    requires n.ip == B && HasEntry(n, D) && !HasEntry(n, S)
    requires var e := EntryOf(n, D); !e.routeValid && e.seqValid && e.destSeq == 1
    ensures var m := Asked(S, D, 1, 2);
            && NewRequest(n, S, m) && Passed(n, m) == Informed()
            && m.srcIp == S && m.srcSeq == 1 && m.hopCount == 0 && m.rreqId == 2 && m.ttl == 3
  {
    Slots();
  }

  lemma AnswerAndReply(kind: Kind, p: Point) returns (p': Point)
    requires Reached(Start(), kind, p) && kind.replies && p.now == Instant(7, 0) && p.net.nodes.Keys == SEVEN
    requires KnowsWay(p.net.nodes[A])
    requires Ordered(p.net.nodes[B], B) && Recorded(p.net.nodes[B], S, 1, S, 1, 2)
    requires AliveUntil(p.net.nodes[B], 9_800 * MILLION)
    requires Packet(B, Broadcast(RreqMessage(Informed()))) in p.net.sent
    ensures Reached(Start(), kind, p') && TwoNodeLoop(p', A, B, S)
  {
    hide Reached, RecvRreq, RecvRrep, Ledger, Placed, Slot, Gratuitous, AliveUntil, Informed;
    var a, b, m := p.net.nodes[A], p.net.nodes[B], Informed();
    InformedIs();
    Slots();
    AliveEarlier(a, 7_000 * MILLION, 7_800 * MILLION);
    AliveEarlier(b, 7_000 * MILLION, 9_800 * MILLION);
    StartIsReached(kind);
    ReachedIsBounded(Start(), kind, p, p.now);
    RequestStays(a, B, m, p.now, 0);
    ReplyStays(b, A, Gratuitous(m), p.now, 0, 0);
    GratuitousReplyLoops(a, b, m, p.now, p.now, 0, 0);
    EqualIsAccepted(EntryOf(b, S), m);
    var p1 := Take(Start(), kind, p, A, ReceiveRreq(B, m, 0), p.now);
    p' := Take(Start(), kind, p1, B, ReceiveRrep(A, Gratuitous(m), 0, 0), p.now);
  }

  lemma InformedIs()
    ensures var m := Informed();
            && m.srcIp == S && m.destIp == D && m.Unknown() && !m.DestOnly() && m.srcSeq == 1 && m.hopCount == 1
            && Gratuitous(m).srcIp == D && Gratuitous(m).lifetime == 3000
  {
  }

  lemma EqualIsAccepted(e: Entry, m: Rreq)
    requires e.destSeq == m.srcSeq
    ensures forall hops: u8 :: Accepts(e, Gratuitous(m).(hopCount := hops))
  {
  }
}
