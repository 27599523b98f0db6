/** The 256-slot table behaves like a map from addresses to entries. */
module TableRefinement {
  import opened Aodv
  import opened TimeFuncs
  import opened RoutingTable
  import opened SendMessages
  import opened RecvMessages
  import opened Callbacks
  import opened Operations

  /** Addresses in play differ in their top byte, so each has a slot of its own. */
  ghost predicate DistinctSlots(addresses: set<u32>) {
    forall a, b :: a in addresses && b in addresses && Slot(a) == Slot(b) ==> a == b
  }

  /** Every entry sits in the slot of its own address. */
  ghost predicate Placed(n: Node) {
    forall s :: s in n.table ==> Slot(n.table[s].destIp) == s
  }

  ghost predicate Within(n: Node, addresses: set<u32>) {
    forall s :: s in n.table ==> n.table[s].destIp in addresses
  }

  /** The addresses for which an operation may create an entry. */
  function Creates(op: Operation): set<u32> {
    match op
    case MeetSender(sender, _, _) => {sender}
    case MakeReverse(_, m) => {m.srcIp}
    case MakeForward(_, m, _) => {m.destIp}
    case Greet(_, m, _) => {m.destIp}
    case Ask(dest, _) => {dest}
    case _ => {}
  }

  /** The addresses for which an event may create an entry are in play. */
  predicate Concerns(ev: Event, addresses: set<u32>) {
    match ev
    case ReceiveRreq(sender, m, _) => sender in addresses && m.srcIp in addresses
    case ReceiveRrep(sender, m, _, _) => sender in addresses && m.destIp in addresses
    case DataOut(dest, _) => dest in addresses
    case _ => true
  }

  /** No operation moves an entry away from its slot, whatever the addresses. */
  lemma OperationPlaces(n: Node, op: Operation, now: Time, addresses: set<u32>)
    requires Placed(n) && Allowed(n, op, now)
    ensures Placed(Do(n, op, now))
    ensures Within(n, addresses) && Creates(op) <= addresses ==> Within(Do(n, op, now), addresses)
  {
    hide PreviousHop, ReverseRoute, ForwardRoute, Hello, StopSearch, Invalidate, RefreshRoute, LoseRoute, SendRreq,
      SendRreqOutcome, Run, Timely, SaysSame, SaysRoute, SearchKept, IndexKept, NoNewSearch, SearchGoesOn, AddIfAbsent;
    if op.Thread? {
      ThreadPlaces(n, op.id, now, addresses);
    }
  }

  lemma ThreadPlaces(n: Node, id: nat, now: Time, addresses: set<u32>)
    requires Placed(n) && Enabled(n, Wake(id), now)
    ensures Placed(Run(n, id, now).node)
    ensures Within(n, addresses) ==> Within(Run(n, id, now).node, addresses)
  {
  }

  lemma {:induction false} OperationsPlace(n: Node, ops: seq<Operation>, now: Time, addresses: set<u32>)
    requires Placed(n) && AllAllowed(n, ops, now)
    ensures Placed(DoAll(n, ops, now))
    ensures Within(n, addresses) && (forall op <- ops :: Creates(op) <= addresses) ==>
              Within(DoAll(n, ops, now), addresses)
    decreases |ops|
  {
    hide Do, Allowed;
    if ops == [] {
    } else {
      OperationPlaces(n, ops[0], now, addresses);
      OperationsPlace(Do(n, ops[0], now), ops[1..], now, addresses);
    }
  }

  /** In every run from the start of the daemon each entry sits in the slot of its address. */
  lemma {:induction false} RunPlaces(n: Node, run: seq<Step>)
    requires Placed(n) && Legal(n, run)
    ensures Placed(Final(n, run))
    decreases |run|
  {
    hide Apply, Enabled, OperationsOf;
    if run == [] {
    } else {
      EventIsOperations(n, run[0].event, run[0].now);
      OperationsPlace(n, OperationsOf(n, run[0].event, run[0].now), run[0].now, {});
      RunPlaces(After(n, run[0]), run[1..]);
    }
  }

  // ---- A map from addresses ----

  ghost predicate Tabled(t: map<u8, Entry>, addresses: set<u32>) {
    forall s :: s in t ==> t[s].destIp in addresses && Slot(t[s].destIp) == s
  }

  /** The table as a map from the addresses in play. */
  ghost function ByAddress(t: map<u8, Entry>, addresses: set<u32>): map<u32, Entry> {
    map a | a in addresses && Slot(a) in t :: t[Slot(a)]
  }

  /** The map misses nothing and mixes up nothing: one binding for each entry, under the entry's own address. */
  lemma MapIsTable(t: map<u8, Entry>, addresses: set<u32>)
    requires DistinctSlots(addresses) && Tabled(t, addresses)
    ensures forall a :: a in ByAddress(t, addresses) ==> ByAddress(t, addresses)[a].destIp == a
    ensures forall s :: s in t ==>
              t[s].destIp in ByAddress(t, addresses) && ByAddress(t, addresses)[t[s].destIp] == t[s]
  {
    forall a | a in ByAddress(t, addresses)
      ensures ByAddress(t, addresses)[a].destIp == a
    {
      assert t[Slot(a)].destIp in addresses;
    }
  }

  /** Storing an entry for an address binds that address and no other. */
  lemma StoreRefines(t: map<u8, Entry>, a: u32, e: Entry, addresses: set<u32>)
    requires DistinctSlots(addresses) && a in addresses
    ensures ByAddress(t[Slot(a) := e], addresses) == ByAddress(t, addresses)[a := e]
  {
    var x, y := ByAddress(t[Slot(a) := e], addresses), ByAddress(t, addresses)[a := e];
    forall b: u32
      ensures b in x <==> b in y
      ensures b in x ==> x[b] == y[b]
    {
      assert b in addresses && b != a ==> Slot(b) != Slot(a);
    }
    assert x == y;
  }

  /** Removing the entry of an address unbinds that address and no other. */
  lemma RemoveRefines(t: map<u8, Entry>, a: u32, addresses: set<u32>)
    requires DistinctSlots(addresses) && a in addresses
    ensures ByAddress(t - {Slot(a)}, addresses) == ByAddress(t, addresses) - {a}
  {
    var x, y := ByAddress(t - {Slot(a)}, addresses), ByAddress(t, addresses) - {a};
    forall b: u32
      ensures b in x <==> b in y
      ensures b in x ==> x[b] == y[b]
    {
      assert b in addresses && b != a ==> Slot(b) != Slot(a);
    }
    assert x == y;
  }

  /** create_or_get returns what the map holds, or a new invalid entry for the address. */
  lemma CreateOrGetRefines(n: Node, a: u32, destSeq: u32, seqValid: bool, nextHop: u32, hopCount: u32,
                           ms: u32, now: Time, junk: u32, addresses: set<u32>)
    requires DistinctSlots(addresses) && Tabled(n.table, addresses) && a in addresses
    ensures var e := CreateOrGet(n, a, destSeq, seqValid, nextHop, hopCount, ms, now, junk);
            && e.destIp == a
            && (a in ByAddress(n.table, addresses) ==> e == ByAddress(n.table, addresses)[a])
            && (a !in ByAddress(n.table, addresses) ==>
                  !e.routeValid && e.search == NoSearch && e.timeOut.Ns() == now.Ns() + ms * MILLION)
  {
    MapIsTable(n.table, addresses);
  }
}
