/** The next_hop_for lists index the table by next hop. */
module NextHopIndex {
  import opened Aodv
  import opened TimeFuncs
  import opened RoutingTable
  import opened SendMessages
  import opened RecvMessages
  import opened Callbacks
  import opened Operations
  import opened TableRefinement
  import opened Expiry

  /** The entry for hop lists the destination. */
  predicate Noted(n: Node, hop: u32, dest: u32) {
    HasEntry(n, hop) && dest in EntryOf(n, hop).nextHopFor
  }

  predicate NoDuplicates(list: seq<u32>) {
    forall i, j :: 0 <= i < j < |list| ==> list[i] != list[j]
  }

  predicate IndexedAt(n: Node, s: u8) {
    s in n.table ==>
      var e := n.table[s];
      NoDuplicates(e.nextHopFor) && (e.nextHop == 0 || e.nextHop == e.destIp || Noted(n, e.nextHop, e.destIp))
  }

  /** Every route through another node is in that node's list, once. */
  ghost predicate Indexed(n: Node) {
    forall s :: IndexedAt(n, s)
  }

  /** The entry an operation changes, if there is one, is that of its address. */
  predicate Aims(n: Node, op: Operation) {
    match op
    case MakeReverse(_, m) => HasEntry(n, m.srcIp) ==> EntryOf(n, m.srcIp).destIp == m.srcIp
    case MakeForward(_, m, _) => HasEntry(n, m.destIp) ==> EntryOf(n, m.destIp).destIp == m.destIp
    case _ => true
  }

  /** What has to be noted before a route through a sender is made. */
  predicate Prepared(n: Node, op: Operation) {
    match op
    case MakeReverse(sender, m) => Noted(n, sender, m.srcIp)
    case MakeForward(sender, m, _) => Noted(n, sender, m.destIp)
    case Greet(sender, m, _) => sender == m.destIp
    case _ => true
  }

  lemma SlotIndexed(n: Node, r: Node, s: u8)
    requires Indexed(n) && OnlySlot(n, r, s) && NoDuplicates(r.table[s].nextHopFor)
    requires var e := r.table[s];
             || e.nextHop == 0 || e.nextHop == e.destIp || Noted(n, e.nextHop, e.destIp)
             || (s in n.table && e.nextHop == n.table[s].nextHop)
    ensures Indexed(r)
  {
    assert IndexedAt(n, s);
    forall t
      ensures IndexedAt(r, t)
    {
      assert IndexedAt(n, t);
    }
  }

  lemma SameIndexed(n: Node, r: Node)
    requires Indexed(n) && r.table.Keys == n.table.Keys
    requires forall s :: s in n.table ==>
      && r.table[s].destIp == n.table[s].destIp && r.table[s].nextHop == n.table[s].nextHop
      && r.table[s].nextHopFor == n.table[s].nextHopFor
    ensures Indexed(r)
  {
    forall t
      ensures IndexedAt(r, t)
    {
      assert IndexedAt(n, t);
    }
  }

  lemma OperationIndexed(n: Node, op: Operation, now: Time)
    requires Indexed(n) && Allowed(n, op, now) && Aims(n, op) && Prepared(n, op) && NoRemoval(n, op)
    ensures Indexed(Do(n, op, now))
  {
    hide PreviousHop, ReverseRoute, ForwardRoute, Hello, StopSearch, Invalidate, RefreshRoute, LoseRoute, SendRreq,
      SendRreqOutcome, ExpirationFunc, BeginSearch, SendRing, FailSearch, RreqIdFunc, AddMs, SeqCompare, Indexed,
      Timely, NoNewSearch, SearchKept;
    var r := Do(n, op, now);
    match op
    case MeetSender(sender, about, _) => At(n, Slot(sender)); SlotIndexed(n, r, Slot(sender));
    case MakeReverse(_, m) => At(n, Slot(m.srcIp)); SlotIndexed(n, r, Slot(m.srcIp));
    case MakeForward(_, m, _) => At(n, Slot(m.destIp)); SlotIndexed(n, r, Slot(m.destIp));
    case Greet(_, m, _) => At(n, Slot(m.destIp)); SlotIndexed(n, r, Slot(m.destIp));
    case Break(pair) => At(n, Slot(pair.destIp)); SlotIndexed(n, r, Slot(pair.destIp));
    case Lose(dest) => At(n, Slot(dest)); SlotIndexed(n, r, Slot(dest));
    case Ask(dest, _) => At(n, Slot(dest)); SlotIndexed(n, r, Slot(dest));
    case _ => SameIndexed(n, r);
  }

  lemma At(n: Node, s: u8)
    requires Indexed(n)
    ensures IndexedAt(n, s)
  {
  }

  // ---- Events and runs ----

  /** The sender of a message has been noted as next hop for the node the message is about. */
  predicate Heard(n: Node, ev: Event) {
    && (ev.ReceiveRreq? ==> Noted(n, ev.sender, ev.rreq.srcIp))
    && (ev.ReceiveRrep? && ev.rrep.srcIp != 0 ==> Noted(n, ev.sender, ev.rrep.destIp))
  }

  predicate MakesRoute(op: Operation) {
    op.MakeReverse? || op.MakeForward?
  }

  /** Routes are made only after the sender was met. */
  ghost predicate MetFirst(ops: seq<Operation>) {
    forall i :: 0 <= i < |ops| && MakesRoute(ops[i]) ==> exists j :: 0 <= j < i && ops[j].MeetSender?
  }

  /** Hellos come from their own subject. */
  predicate HonestHello(ev: Event) {
    ev.ReceiveRrep? && ev.rrep.srcIp == 0 ==> ev.sender == ev.rrep.destIp
  }

  lemma OwnEntry(n: Node, a: u32, addresses: set<u32>)
    requires DistinctSlots(addresses) && Placed(n) && Within(n, addresses) && a in addresses
    ensures HasEntry(n, a) ==> EntryOf(n, a).destIp == a
  {
  }

  lemma OperationReady(n: Node, op: Operation, now: Time, ev: Event, addresses: set<u32>)
    requires DistinctSlots(addresses) && Placed(n) && Within(n, addresses) && Creates(op) <= addresses
    requires From(op, ev) && HonestHello(ev) && (MakesRoute(op) ==> Heard(n, ev))
    ensures Aims(n, op) && Prepared(n, op)
  {
    match op
    case MakeReverse(_, m) => OwnEntry(n, m.srcIp, addresses);
    case MakeForward(_, m, _) => OwnEntry(n, m.destIp, addresses);
    case _ =>
  }

  lemma OperationHears(n: Node, op: Operation, now: Time, ev: Event)
    requires Allowed(n, op, now) && From(op, ev) && !op.Thread?
    ensures Heard(n, ev) || (op.MeetSender? && !(ev.ReceiveRrep? && ev.rrep.srcIp == 0)) ==> Heard(Do(n, op, now), ev)
  {
    hide PreviousHop, ReverseRoute, ForwardRoute, Hello, StopSearch, Invalidate, RefreshRoute, LoseRoute, SendRreq,
      SendRreqOutcome, Run;
    if op.MeetSender? {
      InList(n, Do(n, op, now), op.sender, op.about);
    }
  }

  lemma InList(n: Node, r: Node, sender: u32, about: u32)
    requires HasEntry(r, sender)
    requires EntryOf(r, sender).nextHopFor ==
             AddIfAbsent(if HasEntry(n, sender) then EntryOf(n, sender).nextHopFor else [], about)
    ensures Noted(r, sender, about)
  {
    var list := if HasEntry(n, sender) then EntryOf(n, sender).nextHopFor else [];
    if about !in list {
      assert (list + [about])[|list|] == about;
    }
  }

  lemma {:induction false} OperationsIndexed(n: Node, ops: seq<Operation>, now: Time, ev: Event, addresses: set<u32>)
    requires Indexed(n) && AllAllowed(n, ops, now) && DistinctSlots(addresses) && Placed(n) && Within(n, addresses)
    requires forall op <- ops :: From(op, ev) && Creates(op) <= addresses
    requires HonestHello(ev) && (Heard(n, ev) || MetFirst(ops))
    requires |ops| <= 1 || forall op <- ops :: !op.Thread?
    requires ops != [] ==> NoRemoval(n, ops[0])
    ensures Indexed(DoAll(n, ops, now))
    decreases |ops|
  {
    hide Do, Allowed, Indexed, DistinctSlots, Placed, Within;
    if ops == [] {
    } else {
      OperationReady(n, ops[0], now, ev, addresses);
      OperationIndexed(n, ops[0], now);
      var n1 := Do(n, ops[0], now);
      if |ops| > 1 {
        OperationHears(n, ops[0], now, ev);
        OperationPlaces(n, ops[0], now, addresses);
        MetRest(ops, ev);
        OperationsIndexed(n1, ops[1..], now, ev, addresses);
      } else {
        assert DoAll(n, ops, now) == n1;
      }
    }
  }

  lemma MetRest(ops: seq<Operation>, ev: Event)
    requires ops != []
    ensures MetFirst(ops) && !ops[0].MeetSender? ==> MetFirst(ops[1..])
  {
    if MetFirst(ops) && !ops[0].MeetSender? {
      forall i | 0 <= i < |ops[1..]| && MakesRoute(ops[1..][i])
        ensures exists j :: 0 <= j < i && ops[1..][j].MeetSender?
      {
        assert MakesRoute(ops[i + 1]);
        var j :| 0 <= j < i + 1 && ops[j].MeetSender?;
        assert ops[1..][j - 1].MeetSender?;
      }
    }
  }

  lemma EventMeetsFirst(n: Node, ev: Event, now: Time)
    requires Enabled(n, ev, now)
    ensures MetFirst(OperationsOf(n, ev, now))
  {
    hide PreviousHop, ReverseRoute, ForwardRoute, Answer, ForwardReply, AlreadySeen, StopSearch, RerrOperations,
      Active, NextHopUsable, ForwardedMessages, LinkBreak, From;
    var ops := OperationsOf(n, ev, now);
    if ev.ReceiveRreq? {
      assert ops[0].MeetSender?;
    } else if ev.ReceiveRrep? {
      assert !MakesRoute(ops[0]) && !MakesRoute(ops[1]);
      assert |ops| > 2 ==> ops[1].MeetSender?;
    } else {
      OnlyMessagesMakeRoutes(n, ev, now);
    }
  }

  lemma OnlyMessagesMakeRoutes(n: Node, ev: Event, now: Time)
    requires Enabled(n, ev, now) && !ev.ReceiveRreq? && !ev.ReceiveRrep?
    ensures forall op <- OperationsOf(n, ev, now) :: !MakesRoute(op)
  {
    hide OperationsOf;
    OperationsFrom(n, ev, now);
  }

  lemma EventIndexed(n: Node, ev: Event, now: Time, addresses: set<u32>)
    requires Indexed(n) && DistinctSlots(addresses) && Placed(n) && Within(n, addresses)
    requires Enabled(n, ev, now) && Concerns(ev, addresses) && HonestHello(ev)
    requires n.table.Keys <= Apply(n, ev, now).node.table.Keys
    ensures var r := Apply(n, ev, now).node; Indexed(r) && Placed(r) && Within(r, addresses)
  {
    hide Apply, OperationsOf, Indexed, DistinctSlots, Placed, Within;
    OperationsFrom(n, ev, now);
    FewThreads(n, ev, now);
    EventIsOperations(n, ev, now);
    EventMeetsFirst(n, ev, now);
    if ev.Wake? {
      KeptMeansValid(n, ev.id, now);
    }
    var ops := OperationsOf(n, ev, now);
    assert ops != [] ==> ops[0] in ops;
    OperationsIndexed(n, OperationsOf(n, ev, now), now, ev, addresses);
    OperationsPlace(n, OperationsOf(n, ev, now), now, addresses);
  }

  lemma KeptMeansValid(n: Node, id: nat, now: Time)
    requires Placed(n) && Enabled(n, Wake(id), now) && n.table.Keys <= Apply(n, Wake(id), now).node.table.Keys
    ensures NoRemoval(n, Operation.Thread(id))
  {
    hide RreqIdFunc, BeginSearch, SendRing, FailSearch;
  }

  /** No step of the run removes an entry. */
  predicate NothingRemoved(n: Node, run: seq<Step>)
    requires Legal(n, run)
    decreases |run|
  {
    run != [] ==> n.table.Keys <= After(n, run[0]).table.Keys && NothingRemoved(After(n, run[0]), run[1..])
  }

  predicate AllHonest(run: seq<Step>, addresses: set<u32>) {
    forall i :: 0 <= i < |run| ==> Concerns(run[i].event, addresses) && HonestHello(run[i].event)
  }

  lemma {:induction false} RunIndexed(n: Node, run: seq<Step>, addresses: set<u32>)
    requires Indexed(n) && DistinctSlots(addresses) && Placed(n) && Within(n, addresses)
    requires Legal(n, run) && NothingRemoved(n, run) && AllHonest(run, addresses)
    ensures Indexed(Final(n, run))
    decreases |run|
  {
    hide Apply, Enabled, Indexed, DistinctSlots, Placed, Within;
    if run == [] {
    } else {
      EventIndexed(n, run[0].event, run[0].now, addresses);
      assert AllHonest(run[1..], addresses);
      RunIndexed(After(n, run[0]), run[1..], addresses);
    }
  }

  /** As long as no entry has been removed and hellos come from their own subject, every route through another
      node is recorded in that node's entry, and no list names a destination twice. */
  lemma NextHopsAreIndexed(ip: u32, broadcastIp: u32, run: seq<Step>, addresses: set<u32>, s: u8)
    requires DistinctSlots(addresses) && Legal(Boot(ip, broadcastIp), run) && AllHonest(run, addresses)
    requires NothingRemoved(Boot(ip, broadcastIp), run)
    ensures var n := Final(Boot(ip, broadcastIp), run);
            s in n.table ==>
              var e := n.table[s];
              && NoDuplicates(e.nextHopFor)
              && (e.nextHop != 0 && e.nextHop != e.destIp ==>
                    HasEntry(n, e.nextHop) && e.destIp in EntryOf(n, e.nextHop).nextHopFor)
  {
    RunIndexed(Boot(ip, broadcastIp), run, addresses);
    assert IndexedAt(Final(Boot(ip, broadcastIp), run), s);
  }
}
