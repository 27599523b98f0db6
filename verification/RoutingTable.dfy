/** The state of one node and the operations of DataStructures/routing_table.c,
    DataStructures/data_structure.c and the timer half of DataStructures/time_funcs.c,
    as functions on values. */
module RoutingTable {
  import opened Aodv
  import opened Messages
  import opened TimeFuncs

  datatype Search = Found | Failed | NoSearch | Searching

  /** A `routing_entry`. The three handles name threads; 0 is no thread. */
  datatype Entry = Entry(
    destIp: u32, destSeq: u32, seqValid: bool, nextHop: u32, hopCount: u32, routeValid: bool,
    timeOut: Time, precursors: seq<u32>, nextHopFor: seq<u32>, expirationThread: nat,
    rreqId: u32, rreqIdThread: nat, search: Search, messageSender: nat, activeRoute: u32)

  /** One step of the expanding-ring search: a TTL and the wait after it. */
  datatype Ring = Ring(ttl: nat, waitMs: nat)

  /** The hello thread: it waits for an active route, or sleeps until a time in nanoseconds. */
  datatype HelloThread = Waiting | Sleeping(wake: int)

  /** A live thread working on the entry in a slot; wake is in nanoseconds. */
  datatype Thread =
    | Expiration(slot: u8, wake: int)
    | IdExpiry(slot: u8, wake: int)
    | SearchStart(slot: u8)
    | RingSearch(slot: u8, wake: int, request: Rreq, plan: seq<Ring>, log: seq<Rreq>)

  /** The globals of AODV.c, the live threads and the destinations with a kernel route. */
  datatype Node = Node(
    ip: u32, broadcastIp: u32, sequenceNum: u32, rreqIds: u32, table: map<u8, Entry>,
    activeRoutes: u32, kernel: set<u32>, threads: map<nat, Thread>, lastThread: nat, hello: HelloThread)

  // ---- Table ----

  /** The table is indexed by the top byte of an address. */
  function Slot(ip: u32): u8 {
    ip / 0x100_0000
  }

  predicate HasEntry(n: Node, ip: u32) {
    Slot(ip) in n.table
  }

  function EntryOf(n: Node, ip: u32): Entry
    requires HasEntry(n, ip)
  {
    n.table[Slot(ip)]
  }

  function Put(n: Node, s: u8, e: Entry): (r: Node)
    requires s in n.table ==> Grows(n.table[s], e)
    ensures OnlySlot(n, r, s)
  {
    n.(table := n.table[s := e])
  }

  /** The frame of most operations: the entry in one slot, routes, threads and active_routes may differ. */
  predicate OnlySlot(n: Node, r: Node, s: u8) {
    && r.ip == n.ip && r.broadcastIp == n.broadcastIp
    && r.sequenceNum == n.sequenceNum && r.rreqIds == n.rreqIds
    && s in r.table && r.table == n.table[s := r.table[s]]
    && (s in n.table ==> Grows(n.table[s], r.table[s]))
    && NoNewSearch(n, r)
  }

  /** Deadlines are kept or set by at most 2^32 - 1 milliseconds from now. */
  ghost predicate Timely(n: Node, r: Node, now: Time) {
    forall s :: s in r.table ==>
      || (s in n.table && r.table[s].timeOut == n.table[s].timeOut)
      || r.table[s].timeOut.Ns() < now.Ns() + WORD * MILLION
  }

  /** An entry keeps its address and a running search, and its lists only grow at the end. */
  predicate Grows(e: Entry, e': Entry) {
    && e'.destIp == e.destIp && SearchGoesOn(e, e')
    && e.precursors <= e'.precursors && e.nextHopFor <= e'.nextHopFor
  }

  /** What an entry says about the way to its destination. */
  predicate SaysRoute(e: Entry, destSeq: u32, seqValid: bool, nextHop: u32, hopCount: u32) {
    e.destSeq == destSeq && e.seqValid == seqValid && e.nextHop == nextHop && e.hopCount == hopCount
  }

  predicate SaysSame(e: Entry, e': Entry) {
    SaysRoute(e', e.destSeq, e.seqValid, e.nextHop, e.hopCount)
  }

  predicate IndexKept(n: Node, r: Node, s: u8) {
    s in r.table && r.table[s].nextHopFor == if s in n.table then n.table[s].nextHopFor else []
  }

  predicate SearchGoesOn(e: Entry, e': Entry) {
    e.search == Searching ==> e'.search == Searching && e'.messageSender == e.messageSender
  }

  predicate SearchKept(n: Node, r: Node, s: u8) {
    s in n.table ==>
      s in r.table && r.table[s].search == n.table[s].search && r.table[s].messageSender == n.table[s].messageSender
  }

  predicate NoNewSearch(n: Node, r: Node) {
    forall id :: id in r.threads && r.threads[id].RingSearch? ==> id in n.threads && r.threads[id] == n.threads[id]
  }

  /** The frame of answering: entries may gain precursors and the active mark, nothing else. */
  ghost predicate Annotated(n: Node, r: Node) {
    && r == n.(table := r.table, activeRoutes := r.activeRoutes, sequenceNum := r.sequenceNum, hello := r.hello)
    && r.table.Keys == n.table.Keys
    && forall s :: s in n.table ==> MoreMarks(n.table[s], r.table[s])
  }

  predicate MoreMarks(e: Entry, e': Entry) {
    e' == e.(precursors := e'.precursors, activeRoute := e'.activeRoute) && e.precursors <= e'.precursors
  }

  /** The frame of timers and searches: no route changes, in the table or in the kernel. */
  ghost predicate RoutesKept(n: Node, r: Node) {
    && r.kernel == n.kernel && r.table.Keys == n.table.Keys
    && forall s :: s in n.table ==> SameRoute(n.table[s], r.table[s])
  }

  predicate SameRoute(e: Entry, e': Entry) {
    e' == e.(timeOut := e'.timeOut, expirationThread := e'.expirationThread, rreqId := e'.rreqId,
             rreqIdThread := e'.rreqIdThread, search := e'.search, messageSender := e'.messageSender)
  }

  /** create_or_get_routing_entry: the entry found, or the new one to be put in its place.
      A new entry leaves rreq_id unset; its value is the parameter junk. */
  function CreateOrGet(n: Node, destIp: u32, destSeq: u32, seqValid: bool, nextHop: u32, hopCount: u32,
                       ms: u32, now: Time, junk: u32): Entry {
    if HasEntry(n, destIp) then EntryOf(n, destIp)
    else Entry(destIp, destSeq, seqValid, nextHop, hopCount, false, AddMs(now, ms), [], [], 0, junk, 0, NoSearch, 0, 0)
  }

  // ---- Kernel routes ----

  function AddRoute(n: Node, destIp: u32): Node {
    n.(kernel := n.kernel + {destIp})
  }

  function DeleteRoute(n: Node, destIp: u32): Node {
    n.(kernel := n.kernel - {destIp})
  }

  // ---- Threads ----

  /** pthread_cancel of a handle; no thread has the handle 0. */
  function Cancel(n: Node, handle: nat): Node {
    n.(threads := n.threads - {handle})
  }

  /** When expiration_func, started now, wakes up for a deadline. */
  function WakeAt(now: Time, deadline: Time): int {
    now.Ns() + Subtract(now, deadline).Ns()
  }

  /** Put an entry in its slot with a new thread of one kind in place of the old one. */
  function SetExpirationTimer(n: Node, s: u8, e: Entry, ms: u32, now: Time): (r: Node)
    requires s in n.table ==> Grows(n.table[s], e)
    ensures OnlySlot(n, r, s)
  {
    var timeOut := if ms != 0 then AddMs(now, ms) else e.timeOut;
    var id := n.lastThread + 1;
    n.(table := n.table[s := e.(timeOut := timeOut, expirationThread := id)],
       threads := (n.threads - {e.expirationThread})[id := Expiration(s, WakeAt(now, timeOut))],
       lastThread := id)
  }

  function StartRreqTimer(n: Node, s: u8, e: Entry, now: Time): (r: Node)
    requires s in n.table ==> Grows(n.table[s], e)
    ensures OnlySlot(n, r, s)
  {
    var id := n.lastThread + 1;
    n.(table := n.table[s := e.(rreqIdThread := id)],
       threads := (n.threads - {e.rreqIdThread})[id := IdExpiry(s, now.Ns() + PATH_DISCOVERY_TIME * MILLION)],
       lastThread := id)
  }

  /** active_routes -= active_route, in 32 bits, unless the counter is already 0. */
  function DropActive(n: Node, e: Entry): Node {
    if n.activeRoutes > 0 then n.(activeRoutes := Wrap(n.activeRoutes - e.activeRoute)) else n
  }

  /** expiration_func after its sleep: an invalid entry is removed and freed with its other
      threads; a valid one becomes invalid and the same thread sleeps on for DELETE_PERIOD. */
  function ExpirationFunc(n: Node, id: nat, now: Time): (r: Node)
    requires id in n.threads && n.threads[id].Expiration? && n.threads[id].slot in n.table
    ensures Timely(n, r, now)
    ensures var s := n.threads[id].slot;
            if n.table[s].routeValid then OnlySlot(n, r, s) && SaysSame(n.table[s], r.table[s]) && IndexKept(n, r, s)
            else r.ip == n.ip && r.table == n.table - {Slot(n.table[s].destIp)}
  {
    var s := n.threads[id].slot;
    var e := n.table[s];
    if !e.routeValid then
      n.(table := n.table - {Slot(e.destIp)}, threads := n.threads - {e.rreqIdThread, e.messageSender, id})
    else
      var n1 := if e.seqValid then DropActive(n, e) else n;
      var timeOut := AddMs(now, DELETE_PERIOD);
      n1.(table := n1.table[s := e.(routeValid := false, timeOut := timeOut)],
          kernel := n1.kernel - {e.destIp},
          threads := n1.threads[id := Expiration(s, WakeAt(now, timeOut))])
  }

  /** rreq_id_func after its sleep. */
  function RreqIdFunc(n: Node, id: nat): (r: Node)
    requires id in n.threads && n.threads[id].IdExpiry? && n.threads[id].slot in n.table
    ensures RoutesKept(n, r)
  {
    var s := n.threads[id].slot;
    Cancel(Put(n, s, n.table[s].(rreqId := 0, rreqIdThread := 0)), id)
  }
}
