/** Messages/recv_messages.c: the handlers of the three control messages. */
module RecvMessages {
  import opened Aodv
  import opened Messages
  import opened TimeFuncs
  import opened RoutingTable
  import opened SendMessages

  function AddIfAbsent(list: seq<u32>, ip: u32): seq<u32> {
    if ip in list then list else list + [ip]
  }

  /** The sender's entry: valid, next hop for the node the message is about, and a known one lives on. */
  function Neighbour(e: Entry, about: u32, isNew: bool, now: Time): Entry {
    e.(routeValid := true, nextHopFor := AddIfAbsent(e.nextHopFor, about),
       timeOut := if isNew then e.timeOut else AddMs(now, ACTIVE_ROUTE_TIMEOUT))
  }

  /** The opening of both receivers: a valid one-hop route to the sender, which is
      recorded as next hop for the node the message is about. */
  function PreviousHop(n: Node, sender: u32, about: u32, now: Time, junk: u32): (r: Node)
    ensures OnlySlot(n, r, Slot(sender))
    ensures !HasEntry(n, sender) ==> EntryOf(r, sender).destIp == sender
    ensures Timely(n, r, now)
    ensures SearchKept(n, r, Slot(sender))
    ensures if HasEntry(n, sender) then SaysSame(EntryOf(n, sender), EntryOf(r, sender))
            else SaysRoute(EntryOf(r, sender), 0, false, sender, 0)
    ensures EntryOf(r, sender).nextHopFor ==
            AddIfAbsent(if HasEntry(n, sender) then EntryOf(n, sender).nextHopFor else [], about)
  {
    var found := CreateOrGet(n, sender, 0, false, sender, 0, ACTIVE_ROUTE_TIMEOUT, now, junk);
    var e := Neighbour(found, about, !HasEntry(n, sender), now);
    SetExpirationTimer(AddRoute(n, sender), Slot(sender), e, 0, now)
  }

  /** A request already seen is dropped, except by its destination when it came shorter. */
  predicate AlreadySeen(n: Node, m: Rreq) {
    && HasEntry(n, m.srcIp)
    && EntryOf(n, m.srcIp).rreqId == m.rreqId
    && (n.ip != m.destIp || EntryOf(n, m.srcIp).hopCount <= m.hopCount)
  }

  /** Lifetime in milliseconds for a reverse route of hopCount hops with deadline timeOut. */
  function ReverseLifetime(now: Time, timeOut: Time, hopCount: u8): u32 {
    var minimal := FromMs(Wrap(2 * NET_TRAVERSAL_TIME - 2 * hopCount * NODE_TRAVERSAL_TIME));
    ToMs(Max(minimal, Subtract(now, timeOut)))
  }

  /** A request with a higher number or the same number and fewer hops improves a reverse route, and any
      request improves one without a valid number; the numbers are compared unsigned. */
  predicate Improves(e: Entry, m: Rreq) {
    m.srcSeq > e.destSeq || !e.seqValid || (m.srcSeq == e.destSeq && m.hopCount < e.hopCount)
  }

  function UpdateReverse(e: Entry, isNew: bool, sender: u32, m: Rreq): Entry {
    if isNew || Improves(e, m)
    then e.(destSeq := m.srcSeq, seqValid := true, nextHop := sender, hopCount := m.hopCount)
    else e
  }

  /** The originator's entry, found or created, with the id of the request and a new timer for it. */
  function Originator(n: Node, sender: u32, m: Rreq, now: Time): (r: Node)
    ensures OnlySlot(n, r, Slot(m.srcIp))
  {
    var found := CreateOrGet(n, m.srcIp, m.srcSeq, true, sender, m.hopCount, 0, now, m.rreqId);
    StartRreqTimer(n, Slot(m.srcIp), found.(rreqId := m.rreqId), now)
  }

  /** Create or refresh the route to the originator of a request whose hop count is already incremented. */
  function ReverseRoute(n: Node, sender: u32, m: Rreq, now: Time): (r: Node)
    ensures OnlySlot(n, r, Slot(m.srcIp))
    ensures !HasEntry(n, m.srcIp) ==> EntryOf(r, m.srcIp).destIp == m.srcIp
    ensures Timely(n, r, now)
    ensures if HasEntry(n, m.srcIp) && !Improves(EntryOf(n, m.srcIp), m)
            then SaysSame(EntryOf(n, m.srcIp), EntryOf(r, m.srcIp))
            else SaysRoute(EntryOf(r, m.srcIp), m.srcSeq, true, sender, m.hopCount)
    ensures IndexKept(n, r, Slot(m.srcIp))
  {
    var s := Slot(m.srcIp);
    var n1 := Originator(n, sender, m, now);
    var e := UpdateReverse(n1.table[s], !HasEntry(n, m.srcIp), sender, m).(routeValid := true);
    SetExpirationTimer(AddRoute(n1, e.destIp), s, e, ReverseLifetime(now, e.timeOut, m.hopCount), now)
  }

  function Activate(n: Node, s: u8): (r: Node)
    requires s in n.table
    ensures OnlySlot(n, r, s) && Annotated(n, r)
  {
    if n.table[s].activeRoute == 0 then
      Put(n, s, n.table[s].(activeRoute := 1)).(activeRoutes := Incr(n.activeRoutes))
    else n
  }

  /** The node holds a valid sequence number for the destination newer than the request's. */
  predicate KnowsNewer(n: Node, m: Rreq) {
    && HasEntry(n, m.destIp)
    && EntryOf(n, m.destIp).seqValid
    && (m.Unknown() || SeqCompare(m.destSeq, EntryOf(n, m.destIp).destSeq) < 0)
  }

  predicate CanAnswer(n: Node, m: Rreq) {
    !m.DestOnly() && KnowsNewer(n, m) && EntryOf(n, m.destIp).routeValid
  }

  function Relay(n: Node, m: Rreq): Rreq
    requires m.ttl > 1
  {
    m.(ttl := m.ttl - 1, destSeq := if KnowsNewer(n, m) then EntryOf(n, m.destIp).destSeq else m.destSeq)
  }

  /** What follows the reverse route: answer as destination, answer as intermediate node,
      or pass the request on while its TTL lasts. */
  function Answer(n: Node, sender: u32, m: Rreq, now: Time): (r: Effect)
    requires HasEntry(n, m.srcIp)
    ensures Annotated(n, r.node)
  {
    if n.ip == m.destIp then SendRrepDestination(Activate(n, Slot(m.srcIp)), m, sender)
    else if CanAnswer(n, m) then SendRrepIntermediate(n, m, sender, now)
    else if m.ttl <= 1 then Effect(n, [])
    else Effect(n, [Broadcast(RreqMessage(Relay(n, m)))])
  }

  function RecvRreq(n: Node, sender: u32, message: Rreq, now: Time, junk: u32): Effect {
    var n1 := PreviousHop(n, sender, message.srcIp, now, junk);
    if message.srcIp == n.ip || AlreadySeen(n1, message) then Effect(n1, [])
    else
      var m := message.(hopCount := NextHopCount(message.hopCount));
      Answer(ReverseRoute(n1, sender, m, now), sender, m, now)
  }

  // ---- Replies ----

  /** The originator of the request stops its search. */
  function StopSearch(n: Node, m: Rrep): (r: Node)
    ensures RoutesKept(n, r) && NoNewSearch(n, r)
    ensures forall s :: s in n.table ==> r.table[s].timeOut == n.table[s].timeOut
  {
    if n.ip == m.srcIp && HasEntry(n, m.destIp) then
      var e := EntryOf(n, m.destIp);
      Cancel(n, e.messageSender).(table := n.table[Slot(m.destIp) := e.(search := Found, messageSender := 0)])
    else n
  }

  /** A hello is a reply with source address 0; its hop count is already incremented here. */
  function Hello(n: Node, sender: u32, m: Rrep, now: Time, junk: u32): (r: Node)
    ensures OnlySlot(n, r, Slot(m.destIp))
    ensures !HasEntry(n, m.destIp) ==> EntryOf(r, m.destIp).destIp == m.destIp
    ensures Timely(n, r, now)
    ensures SearchKept(n, r, Slot(m.destIp))
    ensures if !HasEntry(n, m.destIp) then SaysRoute(EntryOf(r, m.destIp), m.destSeq, true, sender, m.hopCount)
            else var e := EntryOf(n, m.destIp);
                 if !e.seqValid || SeqCompare(m.destSeq, e.destSeq) >= 0
                 then SaysRoute(EntryOf(r, m.destIp), m.destSeq, true, e.nextHop, e.hopCount)
                 else SaysSame(e, EntryOf(r, m.destIp))
    ensures IndexKept(n, r, Slot(m.destIp))
  {
    var s := Slot(m.destIp);
    var e := CreateOrGet(n, m.destIp, m.destSeq, true, sender, m.hopCount, m.lifetime, now, junk);
    if !HasEntry(n, m.destIp) || !e.seqValid || SeqCompare(m.destSeq, e.destSeq) >= 0 then
      SetExpirationTimer(n, s, e.(seqValid := true, destSeq := m.destSeq), m.lifetime, now)
    else n
  }

  /** The guard as written: any number not older is taken, whatever its hop count. */
  predicate Accepts(e: Entry, m: Rrep) {
    || !e.seqValid
    || SeqCompare(m.destSeq, e.destSeq) >= 0
    || (m.destSeq == e.destSeq && !e.routeValid)
    || (m.destSeq == e.destSeq && m.hopCount < e.hopCount)
  }

  function UpdateForward(e: Entry, isNew: bool, sender: u32, m: Rrep): Entry {
    (if isNew || Accepts(e, m)
     then e.(seqValid := true, nextHop := sender, hopCount := m.hopCount, destSeq := m.destSeq)
     else e).(routeValid := true)
  }

  /** Create or update the route to the destination of a reply whose hop count is already incremented. */
  function ForwardRoute(n: Node, sender: u32, m: Rrep, now: Time, junk: u32): (r: Node)
    ensures OnlySlot(n, r, Slot(m.destIp))
    ensures !HasEntry(n, m.destIp) ==> EntryOf(r, m.destIp).destIp == m.destIp
    ensures Timely(n, r, now)
    ensures SearchKept(n, r, Slot(m.destIp))
    ensures if HasEntry(n, m.destIp) && !Accepts(EntryOf(n, m.destIp), m)
            then SaysSame(EntryOf(n, m.destIp), EntryOf(r, m.destIp))
            else SaysRoute(EntryOf(r, m.destIp), m.destSeq, true, sender, m.hopCount)
    ensures IndexKept(n, r, Slot(m.destIp))
  {
    var s := Slot(m.destIp);
    var found := CreateOrGet(n, m.destIp, m.destSeq, true, sender, m.hopCount, m.lifetime, now, junk);
    var e := UpdateForward(found, !HasEntry(n, m.destIp), sender, m);
    Activate(SetExpirationTimer(AddRoute(n, m.destIp), s, e, m.lifetime, now), s)
  }

  /** Pass the reply on along the reverse route, recording precursors at both ends. */
  function ForwardReply(n: Node, m: Rrep): (r: Effect)
    requires HasEntry(n, m.destIp)
    ensures Annotated(n, r.node) && r.node.sequenceNum == n.sequenceNum
  {
    if n.ip == m.srcIp || !HasEntry(n, m.srcIp) then Effect(n, [])
    else
      var d, o := Slot(m.destIp), Slot(m.srcIp);
      var n1 := AddPrecursor(Activate(n, o), o, n.table[d].nextHop);
      var n2 := AddPrecursor(n1, d, n.table[o].nextHop);
      Effect(n2, [Unicast(n.table[o].nextHop, RrepMessage(m))])
  }

  function RecvRrep(n: Node, sender: u32, message: Rrep, now: Time, junk: u32, junk': u32): Effect {
    var n1 := StopSearch(n, message);
    var m := message.(hopCount := NextHopCount(message.hopCount));
    if m.srcIp == 0 then Effect(Hello(n1, sender, m, now, junk), [])
    else
      var n2 := PreviousHop(n1, sender, m.destIp, now, junk);
      ForwardReply(ForwardRoute(n2, sender, m, now, junk'), m)
  }

  // ---- Route errors ----

  /** Does a listed pair name a valid route through the sender? */
  predicate Hit(n: Node, sender: u32, pair: Pair) {
    && HasEntry(n, pair.destIp)
    && EntryOf(n, pair.destIp).nextHop == sender
    && EntryOf(n, pair.destIp).routeValid
  }

  function Invalidate(n: Node, pair: Pair, now: Time): (r: Node)
    requires HasEntry(n, pair.destIp)
    ensures OnlySlot(n, r, Slot(pair.destIp))
    ensures Timely(n, r, now)
    ensures var e := EntryOf(n, pair.destIp);
            SaysRoute(EntryOf(r, pair.destIp), pair.destSeq, e.seqValid, e.nextHop, e.hopCount)
    ensures IndexKept(n, r, Slot(pair.destIp))
  {
    var s := Slot(pair.destIp);
    var e := n.table[s].(destSeq := pair.destSeq, routeValid := false);
    DropActive(SetExpirationTimer(DeleteRoute(n, e.destIp), s, e, DELETE_PERIOD, now), e)
  }

  /** The locals of recv_rerr: the 8-bit word counter wraps after 128 pairs. */
  datatype Resend = Resend(single: u32, broadcast: bool, numDests: u8, pairs: seq<Pair>)

  function Store(pairs: seq<Pair>, i: nat, p: Pair): seq<Pair>
    requires i <= |pairs|
  {
    if i < |pairs| then pairs[i := p] else pairs + [p]
  }

  predicate ResendOk(r: Resend) {
    r.numDests % 2 == 0 && r.numDests / 2 <= |r.pairs|
  }

  /** What one hit adds to the error to send on: nothing unless the entry has precursors. */
  function Collect(r: Resend, e: Entry, seqNum: u32): (r': Resend)
    requires ResendOk(r)
    ensures ResendOk(r')
  {
    if e.precursors == [] then r
    else
      var alone := |e.precursors| == 1 && r.single == 0;
      Resend(if alone then e.precursors[0] else r.single, r.broadcast || !alone,
             (r.numDests + 2) % 256, Store(r.pairs, r.numDests / 2, Pair(e.destIp, seqNum)))
  }

  datatype Scan = Scan(node: Node, resend: Resend)

  function ScanPairs(n: Node, sender: u32, pairs: seq<Pair>, now: Time, r: Resend): (scan: Scan)
    requires ResendOk(r)
    ensures ResendOk(scan.resend)
    decreases |pairs|
  {
    if pairs == [] then Scan(n, r)
    else if Hit(n, sender, pairs[0]) then
      ScanPairs(Invalidate(n, pairs[0], now), sender, pairs[1..], now,
                Collect(r, EntryOf(n, pairs[0].destIp), pairs[0].destSeq))
    else ScanPairs(n, sender, pairs[1..], now, r)
  }

  /** Send the collected pairs: to the single precursor if there is just one, else to all. */
  function SendRerr(r: Resend): seq<Out>
    requires ResendOk(r)
  {
    if r.numDests == 0 then []
    else
      var message := RerrMessage(r.pairs[..r.numDests / 2]);
      if r.single != 0 && !r.broadcast then [Unicast(r.single, message)] else [Broadcast(message)]
  }

  function RecvRerr(n: Node, sender: u32, pairs: seq<Pair>, now: Time): Effect {
    var scan := ScanPairs(n, sender, pairs, now, Resend(0, false, 0, []));
    Effect(scan.node, SendRerr(scan.resend))
  }
}
