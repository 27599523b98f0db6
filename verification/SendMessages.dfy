/** Messages/send_messages.c: replies, and the expanding-ring search as a thread. */
module SendMessages {
  import opened Aodv
  import opened Messages
  import opened TimeFuncs
  import opened RoutingTable

  /** A message handed to the network. */
  datatype Out = Broadcast(message: Message) | Unicast(to: u32, message: Message)

  datatype Effect = Effect(node: Node, outs: seq<Out>)

  function AddPrecursor(n: Node, s: u8, ip: u32): (r: Node)
    requires s in n.table
    ensures OnlySlot(n, r, s) && Annotated(n, r)
  {
    Put(n, s, n.table[s].(precursors := n.table[s].precursors + [ip]))
  }

  /** The number a destination advertises in its reply to m. */
  function ReplySequence(own: u32, m: Rreq): u32 {
    var seqNum := Incr(own);
    if !m.Unknown() && SeqCompare(m.destSeq, seqNum) >= 0 then m.destSeq else seqNum
  }

  function SendRrepDestination(n: Node, m: Rreq, sender: u32): (r: Effect)
    ensures Annotated(n, r.node)
  {
    var seqNum := ReplySequence(n.sequenceNum, m);
    var reply := Rrep(0, 0, n.ip, seqNum, m.srcIp, MY_ROUTE_TIMEOUT);
    Effect(n.(sequenceNum := seqNum), [Unicast(sender, RrepMessage(reply))])
  }

  /** Time left before a deadline, as a 32-bit number of milliseconds. */
  function Remaining(now: Time, deadline: Time): u32 {
    ToMs(Subtract(now, deadline))
  }

  /** The reply from an intermediate node and, when any flag at all is set, the gratuitous
      reply towards the destination. */
  function SendRrepIntermediate(n: Node, m: Rreq, sender: u32, now: Time): (r: Effect)
    requires HasEntry(n, m.destIp) && HasEntry(n, m.srcIp)
    ensures Annotated(n, r.node)
  {
    var d, o := Slot(m.destIp), Slot(m.srcIp);
    var n1 := AddPrecursor(n, d, sender);
    var dest := n1.table[d];
    var reply := Rrep(0, dest.hopCount % 256, m.destIp, dest.destSeq, m.srcIp, Remaining(now, dest.timeOut));
    var n2 := AddPrecursor(n1, o, dest.nextHop);
    var gratuitous := Rrep(0, m.hopCount, m.srcIp, m.srcSeq, m.destIp, ACTIVE_ROUTE_TIMEOUT);
    Effect(n2, [Unicast(sender, RrepMessage(reply))] +
               if m.flags != 0 then [Unicast(dest.nextHop, RrepMessage(gratuitous))] else [])
  }

  // ---- Searching for a route ----

  /** What becomes of the packet a callback was given. */
  datatype Verdict = Accept | Drop

  /** The search for this destination has just failed. */
  predicate JustFailed(n: Node, dest: u32) {
    HasEntry(n, dest) && EntryOf(n, dest).search == Failed && !EntryOf(n, dest).routeValid
  }

  /** A packet that needs a search is dropped at once after a recent failure; else its verdict has to wait. */
  function SearchVerdict(n: Node, dest: u32): Messages.Option<Verdict> {
    if JustFailed(n, dest) then Some(Drop) else None
  }

  /** The verdict on a packet that has waited for a search. */
  function OutcomeVerdict(n: Node, dest: u32): Verdict
    requires HasEntry(n, dest) && EntryOf(n, dest).search != Searching
  {
    if EntryOf(n, dest).search == Failed then Drop else Accept
  }

  /** send_rreq up to its wait. */
  function SendRreq(n: Node, dest: u32, now: Time, junk: u32): (r: Node)
    ensures OnlySlot(n, r, Slot(dest))
    ensures !HasEntry(n, dest) ==> EntryOf(r, dest).destIp == dest
    ensures Timely(n, r, now)
    ensures if HasEntry(n, dest) then SaysSame(EntryOf(n, dest), EntryOf(r, dest))
            else SaysRoute(EntryOf(r, dest), 0, false, 0, 0)
    ensures IndexKept(n, r, Slot(dest))
  {
    var s := Slot(dest);
    var e := CreateOrGet(n, dest, 0, false, 0, 0, MY_ROUTE_TIMEOUT, now, junk);
    if (e.search == Failed && !e.routeValid) || e.search == Searching then n
    else
      var id := n.lastThread + 1;
      n.(table := n.table[s := e.(expirationThread := 0, search := Searching, messageSender := id)],
         threads := (n.threads - {e.expirationThread})[id := SearchStart(s)],
         lastThread := id)
  }

  /** send_rreq after its wait. */
  function SendRreqOutcome(n: Node, dest: u32, now: Time): (r: Node)
    requires HasEntry(n, dest) && EntryOf(n, dest).search != Searching
    ensures OnlySlot(n, r, Slot(dest)) && RoutesKept(n, r)
    ensures Timely(n, r, now)
  {
    var s, e := Slot(dest), EntryOf(n, dest);
    if e.search == Failed then SetExpirationTimer(n, s, e, 500, now) else Put(n, s, e.(search := NoSearch))
  }

  function FirstTtl(hopCount: u32): nat {
    if TTL_START > hopCount then TTL_START else hopCount + TTL_INCREMENT
  }

  /** The growing rings from a TTL up to the threshold. */
  function Rings(ttl: nat): seq<Ring>
    decreases 8 - ttl
  {
    if ttl <= TTL_THRESHOLD then [Ring(ttl, RingTraversalTime(ttl))] + Rings(ttl + TTL_INCREMENT) else []
  }

  /** The network-wide attempts, each waiting twice as long as the one before. */
  function Retries(i: nat, fallOff: nat): seq<Ring>
    decreases RREQ_RETRIES + 1 - i
  {
    if i <= RREQ_RETRIES then [Ring(NET_DIAMETER, NET_TRAVERSAL_TIME * fallOff)] + Retries(i + 1, 2 * fallOff) else []
  }

  function Plan(hopCount: u32): seq<Ring> {
    Rings(FirstTtl(hopCount)) + Retries(0, 1)
  }

  /** The thread's prologue: take a new sequence number and fix the request. */
  function BeginSearch(n: Node, id: nat, now: Time): Node
    requires id in n.threads && n.threads[id].SearchStart? && n.threads[id].slot in n.table
  {
    var s := n.threads[id].slot;
    var e := n.table[s];
    var seqNum := Incr(n.sequenceNum);
    var flags := if e.seqValid then RREQ_GRAT else RREQ_GRAT + RREQ_UNKNOWN;
    var request := Rreq(flags, 0, 0, seqNum, e.destIp, if e.seqValid then e.destSeq else 0, n.ip, seqNum);
    n.(sequenceNum := seqNum,
       threads := n.threads[id := RingSearch(s, now.Ns(), request, Plan(e.hopCount), [])])
  }

  /** One turn of either loop: a new id, the next TTL, a broadcast and a wait. */
  function SendRing(n: Node, id: nat, now: Time): Effect
    requires id in n.threads && n.threads[id].RingSearch? && |n.threads[id].log| < |n.threads[id].plan|
  {
    var t := n.threads[id];
    var ring := t.plan[|t.log|];
    var rreqId := Incr(n.rreqIds);
    var request := t.request.(rreqId := rreqId, ttl := ring.ttl % 2048);
    var t1 := t.(wake := now.Ns() + ring.waitMs * MILLION, request := request, log := t.log + [request]);
    Effect(n.(rreqIds := rreqId, threads := n.threads[id := t1]), [Broadcast(RreqMessage(request))])
  }

  /** No answer: the thread marks the failure, starts the expiry and ends. */
  function FailSearch(n: Node, id: nat, now: Time): (r: Node)
    requires id in n.threads && n.threads[id].RingSearch? && n.threads[id].slot in n.table
    ensures RoutesKept(n, r) && NoNewSearch(n, r)
    ensures Timely(n, r, now)
  {
    var s := n.threads[id].slot;
    var e := n.table[s].(messageSender := 0, search := Failed);
    SetExpirationTimer(n.(table := n.table[s := e], threads := n.threads - {id}), s, e, 2 * NET_TRAVERSAL_TIME, now)
  }

  function Prepend(outs: seq<Out>, r: Effect): Effect {
    Effect(r.node, outs + r.outs)
  }

  /** The search thread left alone to its end: each turn comes when the wait before it is over. */
  function Undisturbed(n: Node, id: nat, now: Time): Effect
    requires id in n.threads && n.threads[id].RingSearch? && n.threads[id].slot in n.table
    decreases |n.threads[id].plan| - |n.threads[id].log|
  {
    var t := n.threads[id];
    if |t.log| >= |t.plan| then Effect(FailSearch(n, id, now), [])
    else
      var sent := SendRing(n, id, now);
      var rest := Undisturbed(sent.node, id, AddMs(now, Wrap(t.plan[|t.log|].waitMs)));
      Prepend(sent.outs, rest)
  }
}
