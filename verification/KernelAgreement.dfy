/** The kernel's routes and the table's valid entries name the same destinations. */
module KernelAgreement {
  import opened Aodv
  import opened Messages
  import opened TimeFuncs
  import opened RoutingTable
  import opened SendMessages
  import opened RecvMessages
  import opened Callbacks
  import opened Operations
  import opened TableRefinement

  /** Exactly the valid entries have a kernel route. */
  ghost predicate KernelAgrees(n: Node) {
    && (forall s :: s in n.table && n.table[s].routeValid ==> n.table[s].destIp in n.kernel)
    && (forall a :: a in n.kernel ==> HasEntry(n, a) && EntryOf(n, a).destIp == a && EntryOf(n, a).routeValid)
  }

  ghost predicate Agrees(n: Node, addresses: set<u32>) {
    DistinctSlots(addresses) && Placed(n) && Within(n, addresses) && KernelAgrees(n)
  }

  /** One slot and its kernel route change together. */
  lemma SlotKeeps(n: Node, r: Node, s: u8, addresses: set<u32>)
    requires Agrees(n, addresses) && OnlySlot(n, r, s)
    requires Placed(r) && Within(r, addresses)
    requires forall a :: a != r.table[s].destIp ==> (a in r.kernel <==> a in n.kernel)
    requires r.table[s].routeValid <==> r.table[s].destIp in r.kernel
    ensures Agrees(r, addresses)
  {
    var d := r.table[s].destIp;
    assert forall t :: t in r.table && t != s ==> t in n.table && r.table[t] == n.table[t];
    forall t | t in r.table && r.table[t].routeValid
      ensures r.table[t].destIp in r.kernel
    {
      assert t != s ==> Slot(r.table[t].destIp) == t && r.table[t].destIp != d;
    }
    forall a | a in r.kernel
      ensures HasEntry(r, a) && EntryOf(r, a).destIp == a && EntryOf(r, a).routeValid
    {
      assert a != d ==> Slot(a) != s;
    }
  }

  /** Validity and destinations stay. */
  lemma StatusKeeps(n: Node, r: Node)
    requires KernelAgrees(n) && r.kernel == n.kernel && r.table.Keys == n.table.Keys
    requires forall s :: s in n.table ==>
      r.table[s].destIp == n.table[s].destIp && r.table[s].routeValid == n.table[s].routeValid
    ensures KernelAgrees(r)
  {
  }

  lemma PreviousHopKeeps(n: Node, sender: u32, about: u32, now: Time, junk: u32, addresses: set<u32>)
    requires Agrees(n, addresses) && sender in addresses
    requires var r := PreviousHop(n, sender, about, now, junk); Placed(r) && Within(r, addresses)
    ensures Agrees(PreviousHop(n, sender, about, now, junk), addresses)
  {
    SlotKeeps(n, PreviousHop(n, sender, about, now, junk), Slot(sender), addresses);
  }

  lemma ReverseRouteKeeps(n: Node, sender: u32, m: Rreq, now: Time, addresses: set<u32>)
    requires Agrees(n, addresses) && m.srcIp in addresses
    requires var r := ReverseRoute(n, sender, m, now); Placed(r) && Within(r, addresses)
    ensures Agrees(ReverseRoute(n, sender, m, now), addresses)
  {
    SlotKeeps(n, ReverseRoute(n, sender, m, now), Slot(m.srcIp), addresses);
  }

  lemma ForwardRouteKeeps(n: Node, sender: u32, m: Rrep, now: Time, junk: u32, addresses: set<u32>)
    requires Agrees(n, addresses) && m.destIp in addresses
    requires var r := ForwardRoute(n, sender, m, now, junk); Placed(r) && Within(r, addresses)
    ensures Agrees(ForwardRoute(n, sender, m, now, junk), addresses)
  {
    SlotKeeps(n, ForwardRoute(n, sender, m, now, junk), Slot(m.destIp), addresses);
  }

  lemma HelloKeeps(n: Node, sender: u32, m: Rrep, now: Time, junk: u32, addresses: set<u32>)
    requires Agrees(n, addresses) && m.destIp in addresses
    requires var r := Hello(n, sender, m, now, junk); Placed(r) && Within(r, addresses)
    ensures Agrees(Hello(n, sender, m, now, junk), addresses)
  {
    SlotKeeps(n, Hello(n, sender, m, now, junk), Slot(m.destIp), addresses);
  }

  lemma InvalidateKeeps(n: Node, pair: Pair, now: Time, addresses: set<u32>)
    requires Agrees(n, addresses) && HasEntry(n, pair.destIp)
    requires var r := Invalidate(n, pair, now); Placed(r) && Within(r, addresses)
    ensures Agrees(Invalidate(n, pair, now), addresses)
  {
    SlotKeeps(n, Invalidate(n, pair, now), Slot(pair.destIp), addresses);
  }

  lemma LoseRouteKeeps(n: Node, dest: u32, now: Time, addresses: set<u32>)
    requires Agrees(n, addresses) && HasEntry(n, dest)
    requires var r := LoseRoute(n, dest, now); Placed(r) && Within(r, addresses)
    ensures Agrees(LoseRoute(n, dest, now), addresses)
  {
    SlotKeeps(n, LoseRoute(n, dest, now), Slot(dest), addresses);
  }

  lemma SendRreqKeeps(n: Node, dest: u32, now: Time, junk: u32, addresses: set<u32>)
    requires Agrees(n, addresses) && dest in addresses
    requires var r := SendRreq(n, dest, now, junk); Placed(r) && Within(r, addresses)
    ensures Agrees(SendRreq(n, dest, now, junk), addresses)
  {
    SlotKeeps(n, SendRreq(n, dest, now, junk), Slot(dest), addresses);
  }

  lemma RunKeeps(n: Node, id: nat, now: Time, addresses: set<u32>)
    requires Agrees(n, addresses) && Enabled(n, Wake(id), now)
    requires var r := Run(n, id, now).node; Placed(r) && Within(r, addresses)
    ensures Agrees(Run(n, id, now).node, addresses)
  {
    hide BeginSearch, SendRing, FailSearch, RreqIdFunc;
    var r := Run(n, id, now).node;
    if !n.threads[id].Expiration? {
      StatusKeeps(n, r);
    } else if n.table[n.threads[id].slot].routeValid {
      SlotKeeps(n, r, n.threads[id].slot, addresses);
    }
  }

  lemma OperationKeeps(n: Node, op: Operation, now: Time, addresses: set<u32>)
    requires Agrees(n, addresses) && Allowed(n, op, now) && Creates(op) <= addresses
    ensures Agrees(Do(n, op, now), addresses)
  {
    hide PreviousHop, ReverseRoute, ForwardRoute, Hello, StopSearch, Invalidate, RefreshRoute, LoseRoute, SendRreq,
      SendRreqOutcome, Run;
    OperationPlaces(n, op, now, addresses);
    match op
    case MeetSender(sender, about, junk) => PreviousHopKeeps(n, sender, about, now, junk, addresses);
    case MakeReverse(sender, m) => ReverseRouteKeeps(n, sender, m, now, addresses);
    case MakeForward(sender, m, junk) => ForwardRouteKeeps(n, sender, m, now, junk, addresses);
    case Greet(sender, m, junk) => HelloKeeps(n, sender, m, now, junk, addresses);
    case Break(pair) => InvalidateKeeps(n, pair, now, addresses);
    case Lose(dest) => LoseRouteKeeps(n, dest, now, addresses);
    case Ask(dest, junk) => SendRreqKeeps(n, dest, now, junk, addresses);
    case Thread(id) => RunKeeps(n, id, now, addresses);
    case _ => StatusKeeps(n, Do(n, op, now));
  }

  lemma {:induction false} OperationsKeep(n: Node, ops: seq<Operation>, now: Time, addresses: set<u32>)
    requires Agrees(n, addresses) && AllAllowed(n, ops, now) && forall op <- ops :: Creates(op) <= addresses
    ensures Agrees(DoAll(n, ops, now), addresses)
    decreases |ops|
  {
    hide Do, Allowed;
    if ops == [] {
    } else {
      OperationKeeps(n, ops[0], now, addresses);
      OperationsKeep(Do(n, ops[0], now), ops[1..], now, addresses);
    }
  }

  /** Every event keeps table and kernel in agreement. */
  lemma EventKeeps(n: Node, ev: Event, now: Time, addresses: set<u32>)
    requires Agrees(n, addresses) && Enabled(n, ev, now) && Concerns(ev, addresses)
    ensures Agrees(Apply(n, ev, now).node, addresses)
  {
    hide Apply, OperationsOf;
    OperationsFrom(n, ev, now);
    EventIsOperations(n, ev, now);
    OperationsKeep(n, OperationsOf(n, ev, now), now, addresses);
  }

  // ---- Whole runs ----

  predicate AllConcern(run: seq<Step>, addresses: set<u32>) {
    forall i :: 0 <= i < |run| ==> Concerns(run[i].event, addresses)
  }

  lemma {:induction false} StepsKeep(n: Node, run: seq<Step>, addresses: set<u32>)
    requires Agrees(n, addresses) && Legal(n, run) && AllConcern(run, addresses)
    ensures Agrees(Final(n, run), addresses)
    decreases |run|
  {
    hide Apply, Enabled;
    if run == [] {
    } else {
      EventKeeps(n, run[0].event, run[0].now, addresses);
      assert AllConcern(run[1..], addresses);
      StepsKeep(After(n, run[0]), run[1..], addresses);
    }
  }

  /** From the start of the daemon, through any events among nodes with distinct top bytes,
      the destinations with a kernel route are exactly those of the valid entries. */
  lemma KernelAgreement(ip: u32, broadcastIp: u32, run: seq<Step>, addresses: set<u32>, a: u32)
    requires DistinctSlots(addresses) && Legal(Boot(ip, broadcastIp), run) && AllConcern(run, addresses)
    ensures var n := Final(Boot(ip, broadcastIp), run);
            a in n.kernel <==> exists s :: s in n.table && n.table[s].destIp == a && n.table[s].routeValid
  {
    StepsKeep(Boot(ip, broadcastIp), run, addresses);
  }
}
