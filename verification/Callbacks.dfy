/** The packet callbacks of AODV.c and the events a node reacts to. */
module Callbacks {
  import opened Aodv
  import opened Messages
  import opened TimeFuncs
  import opened RoutingTable
  import opened SendMessages
  import opened RecvMessages

  /** A packet used the route: it stays for another ACTIVE_ROUTE_TIMEOUT. */
  function RefreshRoute(n: Node, ip: u32, now: Time): (r: Node)
    requires HasEntry(n, ip)
    ensures OnlySlot(n, r, Slot(ip)) && RoutesKept(n, r)
    ensures Timely(n, r, now)
  {
    SetExpirationTimer(n, Slot(ip), EntryOf(n, ip), ACTIVE_ROUTE_TIMEOUT, now)
  }

  /** A data packet for this node came in. */
  function IncomingDataMessage(n: Node, src: u32, dest: u32, now: Time): Node {
    if dest == n.ip && HasEntry(n, src) then RefreshRoute(n, src, now) else n
  }

  /** An active route: valid, with a valid number. */
  predicate Active(n: Node, dest: u32) {
    HasEntry(n, dest) && EntryOf(n, dest).routeValid && EntryOf(n, dest).seqValid
  }

  predicate NextHopUsable(n: Node, e: Entry) {
    e.nextHop == e.destIp || (HasEntry(n, e.nextHop) && EntryOf(n, e.nextHop).routeValid)
  }

  /** The table entry lost its next hop: give up the route. */
  function LoseRoute(n: Node, dest: u32, now: Time): (r: Node)
    requires HasEntry(n, dest)
    ensures OnlySlot(n, r, Slot(dest))
    ensures Timely(n, r, now)
    ensures SaysSame(EntryOf(n, dest), EntryOf(r, dest))
    ensures IndexKept(n, r, Slot(dest))
  {
    var s := Slot(dest);
    var e := n.table[s].(routeValid := false);
    SetExpirationTimer(DropActive(DeleteRoute(n, e.destIp), e), s, e, DELETE_PERIOD, now)
  }

  /** A local packet goes out, up to the wait of a search. */
  function OutgoingMessage(n: Node, dest: u32, now: Time, junk: u32): Node {
    if dest == n.broadcastIp || dest == n.ip then n
    else if Active(n, dest) && NextHopUsable(n, EntryOf(n, dest)) then
      if EntryOf(n, dest).nextHop == EntryOf(n, dest).destIp
      then RefreshRoute(n, dest, now)
      else n
    else
      SendRreq(if Active(n, dest) then LoseRoute(n, dest, now) else n, dest, now, junk)
  }

  function OutgoingVerdict(n: Node, dest: u32, now: Time): Messages.Option<Verdict> {
    if dest == n.broadcastIp || dest == n.ip then Some(Accept)
    else if Active(n, dest) && NextHopUsable(n, EntryOf(n, dest)) then Some(Accept)
    else SearchVerdict(if Active(n, dest) then LoseRoute(n, dest, now) else n, dest)
  }

  /** The branch of forwarded_messages that repairs a broken link; it is not modelled. */
  predicate LinkBreak(n: Node, dest: u32) {
    && HasEntry(n, dest) && EntryOf(n, dest).routeValid
    && HasEntry(n, EntryOf(n, dest).nextHop) && !EntryOf(n, EntryOf(n, dest).nextHop).routeValid
  }

  /** A packet passes through: refresh both ends, or report the destination unreachable.
      The report for a known destination carries its address as sequence number. */
  function ForwardedMessages(n: Node, src: u32, dest: u32, now: Time): Effect
    requires !LinkBreak(n, dest)
  {
    if !HasEntry(n, dest) then Effect(n, [Broadcast(RerrMessage([Pair(dest, 0)]))])
    else
      var e := EntryOf(n, dest);
      if e.routeValid && HasEntry(n, e.nextHop) && EntryOf(n, e.nextHop).routeValid then
        var n1 := RefreshRoute(n, dest, now);
        Effect(if HasEntry(n, src) then RefreshRoute(n1, src, now) else n1, [])
      else Effect(n, [Broadcast(RerrMessage([Pair(dest, e.destIp)]))])
  }

  function ForwardVerdict(n: Node, dest: u32): Verdict {
    if HasEntry(n, dest) && EntryOf(n, dest).routeValid && HasEntry(n, EntryOf(n, dest).nextHop)
       && EntryOf(n, EntryOf(n, dest).nextHop).routeValid
    then Accept else Drop
  }

  function HelloMessage(n: Node): Rrep {
    Rrep(0, 0, n.ip, n.sequenceNum, 0, ALLOWED_HELLO_LOSS * HELLO_INTERVAL)
  }

  /** A turn of the hello thread: once there is an active route it sleeps for an interval, and then says hello,
      whether there is still one or not. */
  function HelloInterval(n: Node, now: Time): (r: Effect)
    ensures Annotated(n, r.node) && r.node.table == n.table && r.node.sequenceNum == n.sequenceNum
  {
    if n.hello.Waiting? then Effect(n.(hello := Sleeping(now.Ns() + HELLO_INTERVAL * MILLION)), [])
    else Effect(n.(hello := Waiting), [Broadcast(RrepMessage(HelloMessage(n)))])
  }

  // ---- Events ----

  /** Everything that changes a node, one atomic step each. */
  datatype Event =
    | ReceiveRreq(sender: u32, rreq: Rreq, junk: u32)
    | ReceiveRrep(sender: u32, rrep: Rrep, junk: u32, junk': u32)
    | ReceiveRerr(sender: u32, pairs: seq<Pair>)
    | DataIn(src: u32, dest: u32)
    | DataThrough(src: u32, dest: u32)
    | DataOut(dest: u32, junk: u32)
    | SearchOver(dest: u32)
    | Wake(id: nat)
    | HelloTick

  /** Threads run when their sleep is over; a waiting sender continues when no search is on. The hello thread waits
      for an active route before it sleeps. */
  predicate Enabled(n: Node, ev: Event, now: Time) {
    match ev
    case ReceiveRreq(sender, _, _) => sender != n.ip
    case ReceiveRrep(sender, _, _, _) => sender != n.ip
    case ReceiveRerr(sender, pairs) => sender != n.ip && |pairs| < 256
    case DataIn(_, _) => true
    case DataThrough(_, dest) => !LinkBreak(n, dest)
    case DataOut(_, _) => true
    case SearchOver(dest) => HasEntry(n, dest) && EntryOf(n, dest).search != Searching
    case Wake(id) =>
      && id in n.threads && n.threads[id].slot in n.table
      && (n.threads[id].SearchStart? || n.threads[id].wake <= now.Ns())
    case HelloTick => if n.hello.Waiting? then n.activeRoutes != 0 else n.hello.wake <= now.Ns()
  }

  function Run(n: Node, id: nat, now: Time): (r: Effect)
    requires Enabled(n, Wake(id), now)
    ensures !n.threads[id].Expiration? ==> RoutesKept(n, r.node)
    ensures Timely(n, r.node, now)
  {
    match n.threads[id]
    case Expiration(_, _) => Effect(ExpirationFunc(n, id, now), [])
    case IdExpiry(_, _) => Effect(RreqIdFunc(n, id), [])
    case SearchStart(_) => Effect(BeginSearch(n, id, now), [])
    case RingSearch(_, _, _, plan, log) =>
      if |log| < |plan| then SendRing(n, id, now) else Effect(FailSearch(n, id, now), [])
  }

  function Apply(n: Node, ev: Event, now: Time): Effect
    requires Enabled(n, ev, now)
  {
    match ev
    case ReceiveRreq(sender, m, junk) => RecvRreq(n, sender, m, now, junk)
    case ReceiveRrep(sender, m, junk, junk') => RecvRrep(n, sender, m, now, junk, junk')
    case ReceiveRerr(sender, pairs) => RecvRerr(n, sender, pairs, now)
    case DataIn(src, dest) => Effect(IncomingDataMessage(n, src, dest, now), [])
    case DataThrough(src, dest) => ForwardedMessages(n, src, dest, now)
    case DataOut(dest, junk) => Effect(OutgoingMessage(n, dest, now, junk), [])
    case SearchOver(dest) => Effect(SendRreqOutcome(n, dest, now), [])
    case Wake(id) => Run(n, id, now)
    case HelloTick => HelloInterval(n, now)
  }

  /** The state main leaves behind before the callbacks run. */
  function Boot(ip: u32, broadcastIp: u32): Node {
    Node(ip, broadcastIp, 0, 0, map[], 0, {}, map[], 0, Waiting)
  }

  // ---- Runs ----

  datatype Step = Step(event: Event, now: Time)

  predicate Legal(n: Node, run: seq<Step>)
    decreases |run|
  {
    run != [] ==> Enabled(n, run[0].event, run[0].now) && Legal(After(n, run[0]), run[1..])
  }

  function After(n: Node, step: Step): Node
    requires Enabled(n, step.event, step.now)
  {
    Apply(n, step.event, step.now).node
  }

  /** The state at the end of a run. */
  function Final(n: Node, run: seq<Step>): Node
    requires Legal(n, run)
    decreases |run|
  {
    if run == [] then n else Final(After(n, run[0]), run[1..])
  }
}
