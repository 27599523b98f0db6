/** The threads behind the entries: who is alive, how entries expire and how searches end. */
module Threads {
  import opened Aodv
  import opened Messages
  import opened TimeFuncs
  import opened RoutingTable
  import opened SendMessages
  import opened RecvMessages
  import opened Callbacks
  import opened Operations
  import opened TableRefinement

  // ---- The ledger of live threads ----

  predicate Searches(t: RoutingTable.Thread) {
    t.SearchStart? || t.RingSearch?
  }

  /** The handle of an entry that a thread is recorded under. */
  function Handle(e: Entry, t: RoutingTable.Thread): nat {
    if t.Expiration? then e.expirationThread else if t.IdExpiry? then e.rreqIdThread else e.messageSender
  }

  /** A live thread is the one its entry's handle names, and an expiry never wakes before its deadline. */
  ghost predicate Owned(n: Node, id: nat) {
    id in n.threads ==>
      && 0 < id <= n.lastThread
      && n.threads[id].slot in n.table
      && Handle(n.table[n.threads[id].slot], n.threads[id]) == id
      && (n.threads[id].Expiration? ==> n.threads[id].wake >= n.table[n.threads[id].slot].timeOut.Ns())
  }

  /** A handle is 0 or names a live thread of the slot. */
  ghost predicate Live(n: Node, s: u8, handle: nat) {
    handle != 0 ==> handle in n.threads && n.threads[handle].slot == s
  }

  /** The handles of an entry name live threads of the right kind, and exactly a search has its thread. */
  ghost predicate Backed(n: Node, s: u8) {
    s in n.table ==>
      var e := n.table[s];
      && Live(n, s, e.expirationThread) && (e.expirationThread != 0 ==> n.threads[e.expirationThread].Expiration?)
      && Live(n, s, e.rreqIdThread) && (e.rreqIdThread != 0 ==> n.threads[e.rreqIdThread].IdExpiry?)
      && Live(n, s, e.messageSender) && (e.messageSender != 0 ==> Searches(n.threads[e.messageSender]))
      && (e.messageSender != 0 <==> e.search == Searching)
  }

  ghost predicate Ledger(n: Node) {
    (forall id :: Owned(n, id)) && (forall s :: Backed(n, s))
  }

  /** The threads of other slots are the same. */
  ghost predicate OthersKept(n: Node, r: Node, s: u8) {
    && (forall id :: id in n.threads && n.threads[id].slot != s ==> id in r.threads && r.threads[id] == n.threads[id])
    && (forall id :: id in r.threads && r.threads[id].slot != s ==> id in n.threads && r.threads[id] == n.threads[id])
  }

  lemma SlotKeeps(n: Node, r: Node, s: u8)
    requires Ledger(n) && n.lastThread <= r.lastThread && OthersKept(n, r, s)
    requires forall t :: t != s ==> (t in r.table <==> t in n.table) && (t in n.table ==> r.table[t] == n.table[t])
    requires Backed(r, s) && forall id :: id in r.threads && r.threads[id].slot == s ==> Owned(r, id)
    ensures Ledger(r)
  {
    forall t
      ensures Backed(r, t)
    {
      assert Backed(n, t);
    }
    forall id
      ensures Owned(r, id)
    {
      assert Owned(n, id);
    }
  }

  /** An entry whose handles are those of the slot, or a new one without threads. */
  predicate SameHandles(n: Node, s: u8, e: Entry) {
    if s in n.table then
      && e.expirationThread == n.table[s].expirationThread && e.rreqIdThread == n.table[s].rreqIdThread
      && e.messageSender == n.table[s].messageSender && e.search == n.table[s].search
    else e.expirationThread == 0 && e.rreqIdThread == 0 && e.messageSender == 0 && e.search != Searching
  }

  /** What is needed of the old ledger to replace a thread of one slot. */
  lemma Known(n: Node, s: u8)
    requires Ledger(n)
    ensures 0 !in n.threads
    ensures forall id :: id in n.threads ==> 0 < id <= n.lastThread && n.threads[id].slot in n.table
    ensures forall id :: id in n.threads && n.threads[id].slot == s ==>
      && s in n.table
      && (id == n.table[s].expirationThread || id == n.table[s].rreqIdThread || id == n.table[s].messageSender)
    ensures Backed(n, s)
  {
    assert Owned(n, 0);
    forall id | id in n.threads
      ensures 0 < id <= n.lastThread && n.threads[id].slot in n.table
      ensures n.threads[id].slot == s ==>
        id == n.table[s].expirationThread || id == n.table[s].rreqIdThread || id == n.table[s].messageSender
    {
      assert Owned(n, id);
    }
  }

  lemma TimerKeeps(n: Node, s: u8, e: Entry, ms: u32, now: Time)
    requires Ledger(n)
    requires s in n.table ==> Grows(n.table[s], e)
    requires SameHandles(n, s, e)
    ensures Ledger(SetExpirationTimer(n, s, e, ms, now))
  {
    var r := SetExpirationTimer(n, s, e, ms, now);
    SubtractNeverEarly(now, if ms != 0 then AddMs(now, ms) else e.timeOut);
    Known(n, s);
    SlotKeeps(n, r, s);
  }

  lemma IdTimerKeeps(n: Node, s: u8, e: Entry, now: Time)
    requires Ledger(n)
    requires s in n.table ==> Grows(n.table[s], e)
    requires SameHandles(n, s, e) && (s in n.table ==> e.timeOut == n.table[s].timeOut)
    ensures Ledger(StartRreqTimer(n, s, e, now))
  {
    Known(n, s);
    var r := StartRreqTimer(n, s, e, now);
    forall id | id in r.threads && r.threads[id].slot == s
      ensures Owned(r, id)
    {
      assert Owned(n, id);
    }
    SlotKeeps(n, r, s);
  }

  /** Only routes, marks, precursors or globals changed. */
  lemma SameThreadsKeep(n: Node, r: Node)
    requires Ledger(n) && r.threads == n.threads && r.lastThread == n.lastThread && r.table.Keys == n.table.Keys
    requires forall s :: s in n.table ==> SameHandles(n, s, r.table[s]) && r.table[s].timeOut == n.table[s].timeOut
    ensures Ledger(r)
  {
    forall id
      ensures Owned(r, id)
    {
      assert Owned(n, id);
    }
    forall s
      ensures Backed(r, s)
    {
      assert Backed(n, s);
    }
  }

  lemma PreviousHopKeeps(n: Node, sender: u32, about: u32, now: Time, junk: u32)
    requires Ledger(n)
    ensures Ledger(PreviousHop(n, sender, about, now, junk))
  {
    hide SetExpirationTimer, AddMs;
    var found := CreateOrGet(n, sender, 0, false, sender, 0, ACTIVE_ROUTE_TIMEOUT, now, junk);
    var e := Neighbour(found, about, !HasEntry(n, sender), now);
    SameThreadsKeep(n, AddRoute(n, sender));
    TimerKeeps(AddRoute(n, sender), Slot(sender), e, 0, now);
  }

  lemma ReverseRouteKeeps(n: Node, sender: u32, m: Rreq, now: Time)
    requires Ledger(n)
    ensures Ledger(ReverseRoute(n, sender, m, now))
  {
    hide SetExpirationTimer, AddMs, ReverseLifetime, WakeAt;
    var s := Slot(m.srcIp);
    var found := CreateOrGet(n, m.srcIp, m.srcSeq, true, sender, m.hopCount, 0, now, m.rreqId);
    var n1 := StartRreqTimer(n, s, found.(rreqId := m.rreqId), now);
    IdTimerKeeps(n, s, found.(rreqId := m.rreqId), now);
    var e := UpdateReverse(n1.table[s], !HasEntry(n, m.srcIp), sender, m).(routeValid := true);
    SameThreadsKeep(n1, AddRoute(n1, e.destIp));
    TimerKeeps(AddRoute(n1, e.destIp), s, e, ReverseLifetime(now, e.timeOut, m.hopCount), now);
  }

  lemma ForwardRouteKeeps(n: Node, sender: u32, m: Rrep, now: Time, junk: u32)
    requires Ledger(n)
    ensures Ledger(ForwardRoute(n, sender, m, now, junk))
  {
    hide SetExpirationTimer, AddMs, SeqCompare, Activate;
    var s := Slot(m.destIp);
    var found := CreateOrGet(n, m.destIp, m.destSeq, true, sender, m.hopCount, m.lifetime, now, junk);
    var e := UpdateForward(found, !HasEntry(n, m.destIp), sender, m);
    SameThreadsKeep(n, AddRoute(n, m.destIp));
    TimerKeeps(AddRoute(n, m.destIp), s, e, m.lifetime, now);
    var r := SetExpirationTimer(AddRoute(n, m.destIp), s, e, m.lifetime, now);
    SameThreadsKeep(r, Activate(r, s));
  }

  lemma HelloKeeps(n: Node, sender: u32, m: Rrep, now: Time, junk: u32)
    requires Ledger(n)
    ensures Ledger(Hello(n, sender, m, now, junk))
  {
    hide SetExpirationTimer, AddMs, SeqCompare;
    var e := CreateOrGet(n, m.destIp, m.destSeq, true, sender, m.hopCount, m.lifetime, now, junk);
    TimerKeeps(n, Slot(m.destIp), e.(seqValid := true, destSeq := m.destSeq), m.lifetime, now);
  }

  lemma StopSearchKeeps(n: Node, m: Rrep)
    requires Ledger(n)
    ensures Ledger(StopSearch(n, m))
  {
    if n.ip == m.srcIp && HasEntry(n, m.destIp) {
      ReleaseKeeps(n, StopSearch(n, m), Slot(m.destIp));
    }
  }

  /** The search thread of a slot is gone, from the ledger and from its handle. */
  lemma ReleaseKeeps(n: Node, r: Node, s: u8)
    requires Ledger(n) && s in n.table && s in r.table
    requires r.table == n.table[s := r.table[s]] && r.lastThread == n.lastThread
    requires r.threads == n.threads - {n.table[s].messageSender}
    requires var e, e' := n.table[s], r.table[s];
             && e'.messageSender == 0 && e'.search != Searching && e'.expirationThread == e.expirationThread
             && e'.rreqIdThread == e.rreqIdThread && e'.timeOut == e.timeOut
    ensures Ledger(r)
  {
    Known(n, s);
    forall id | id in r.threads && r.threads[id].slot == s
      ensures Owned(r, id)
    {
      assert Owned(n, id);
    }
    SlotKeeps(n, r, s);
  }

  lemma BreakKeeps(n: Node, pair: Pair, now: Time)
    requires Ledger(n) && HasEntry(n, pair.destIp)
    ensures Ledger(Invalidate(n, pair, now))
  {
    hide SetExpirationTimer;
    var s := Slot(pair.destIp);
    var e := n.table[s].(destSeq := pair.destSeq, routeValid := false);
    SameThreadsKeep(n, DeleteRoute(n, e.destIp));
    TimerKeeps(DeleteRoute(n, e.destIp), s, e, DELETE_PERIOD, now);
    var r := SetExpirationTimer(DeleteRoute(n, e.destIp), s, e, DELETE_PERIOD, now);
    SameThreadsKeep(r, DropActive(r, e));
  }

  lemma LoseRouteKeeps(n: Node, dest: u32, now: Time)
    requires Ledger(n) && HasEntry(n, dest)
    ensures Ledger(LoseRoute(n, dest, now))
  {
    hide SetExpirationTimer;
    var s := Slot(dest);
    var e := n.table[s].(routeValid := false);
    var n1 := DropActive(DeleteRoute(n, e.destIp), e);
    SameThreadsKeep(n, n1);
    TimerKeeps(n1, s, e, DELETE_PERIOD, now);
  }

  lemma SendRreqKeeps(n: Node, dest: u32, now: Time, junk: u32)
    requires Ledger(n)
    ensures Ledger(SendRreq(n, dest, now, junk))
  {
    hide AddMs;
    var s := Slot(dest);
    var r := SendRreq(n, dest, now, junk);
    Known(n, s);
    forall id | id in r.threads && r.threads[id].slot == s
      ensures Owned(r, id)
    {
      assert Owned(n, id);
    }
    SlotKeeps(n, r, s);
  }

  lemma OutcomeKeeps(n: Node, dest: u32, now: Time)
    requires Ledger(n) && HasEntry(n, dest) && EntryOf(n, dest).search != Searching
    ensures Ledger(SendRreqOutcome(n, dest, now))
  {
    hide SetExpirationTimer;
    var s := Slot(dest);
    assert Backed(n, s);
    if n.table[s].search == Failed {
      TimerKeeps(n, s, n.table[s], 500, now);
    } else {
      assert Owned(n, 0);
      ReleaseKeeps(n, SendRreqOutcome(n, dest, now), s);
    }
  }

  lemma ExpirationKeeps(n: Node, id: nat, now: Time)
    requires Ledger(n) && id in n.threads && n.threads[id].Expiration? && n.threads[id].slot in n.table
    requires Slot(n.table[n.threads[id].slot].destIp) == n.threads[id].slot
    ensures Ledger(ExpirationFunc(n, id, now))
  {
    var s := n.threads[id].slot;
    var r := ExpirationFunc(n, id, now);
    Known(n, s);
    assert Owned(n, id);
    SubtractNeverEarly(now, AddMs(now, DELETE_PERIOD));
    hide AddMs, Subtract;
    forall i | i in r.threads && r.threads[i].slot == s
      ensures Owned(r, i)
    {
      assert Owned(n, i);
    }
    SlotKeeps(n, r, s);
  }

  lemma IdExpiryKeeps(n: Node, id: nat)
    requires Ledger(n) && id in n.threads && n.threads[id].IdExpiry? && n.threads[id].slot in n.table
    ensures Ledger(RreqIdFunc(n, id))
  {
    var s := n.threads[id].slot;
    var r := RreqIdFunc(n, id);
    Known(n, s);
    assert Owned(n, id);
    forall i | i in r.threads && r.threads[i].slot == s
      ensures Owned(r, i)
    {
      assert Owned(n, i);
    }
    SlotKeeps(n, r, s);
  }

  /** A search thread that stays alive keeps its slot and its handle. */
  lemma SearchStepKeeps(n: Node, r: Node, id: nat)
    requires Ledger(n) && id in n.threads && Searches(n.threads[id])
    requires id in r.threads && Searches(r.threads[id]) && r.threads == n.threads[id := r.threads[id]]
    requires r.threads[id].slot == n.threads[id].slot && r.table == n.table && r.lastThread == n.lastThread
    ensures Ledger(r)
  {
    forall i
      ensures Owned(r, i)
    {
      assert Owned(n, i);
    }
    forall s
      ensures Backed(r, s)
    {
      assert Backed(n, s);
    }
  }

  lemma FailSearchKeeps(n: Node, id: nat, now: Time)
    requires Ledger(n) && id in n.threads && n.threads[id].RingSearch? && n.threads[id].slot in n.table
    ensures Ledger(FailSearch(n, id, now))
  {
    var s := n.threads[id].slot;
    var e := n.table[s].(messageSender := 0, search := Failed);
    assert Owned(n, id);
    var n1 := n.(table := n.table[s := e], threads := n.threads - {id});
    ReleaseKeeps(n, n1, s);
    TimerKeeps(n1, s, e, 2 * NET_TRAVERSAL_TIME, now);
  }

  // ---- All operations ----

  lemma RunKeeps(n: Node, id: nat, now: Time)
    requires Ledger(n) && Placed(n) && Enabled(n, Wake(id), now)
    ensures Ledger(Run(n, id, now).node)
  {
    hide ExpirationFunc, RreqIdFunc, BeginSearch, SendRing, FailSearch;
    match n.threads[id]
    case Expiration(_, _) => ExpirationKeeps(n, id, now);
    case IdExpiry(_, _) => IdExpiryKeeps(n, id);
    case SearchStart(_) => BeginKeeps(n, id, now);
    case RingSearch(_, _, _, plan, log) =>
      if |log| < |plan| { RingKeeps(n, id, now); } else { FailSearchKeeps(n, id, now); }
  }

  lemma BeginKeeps(n: Node, id: nat, now: Time)
    requires Ledger(n) && id in n.threads && n.threads[id].SearchStart? && n.threads[id].slot in n.table
    ensures Ledger(BeginSearch(n, id, now))
  {
    hide Plan;
    SearchStepKeeps(n, BeginSearch(n, id, now), id);
  }

  lemma RingKeeps(n: Node, id: nat, now: Time)
    requires Ledger(n) && id in n.threads && n.threads[id].RingSearch? && |n.threads[id].log| < |n.threads[id].plan|
    ensures Ledger(SendRing(n, id, now).node)
  {
    SearchStepKeeps(n, SendRing(n, id, now).node, id);
  }

  lemma OperationKeeps(n: Node, op: Operation, now: Time)
    requires Ledger(n) && Placed(n) && Allowed(n, op, now)
    ensures Ledger(Do(n, op, now))
  {
    hide PreviousHop, ReverseRoute, ForwardRoute, Hello, StopSearch, Invalidate, RefreshRoute, LoseRoute, SendRreq,
      SendRreqOutcome, Run;
    match op
    case MeetSender(sender, about, junk) => PreviousHopKeeps(n, sender, about, now, junk);
    case MakeReverse(sender, m) => ReverseRouteKeeps(n, sender, m, now);
    case MakeForward(sender, m, junk) => ForwardRouteKeeps(n, sender, m, now, junk);
    case Greet(sender, m, junk) => HelloKeeps(n, sender, m, now, junk);
    case EndSearch(m) => StopSearchKeeps(n, m);
    case Annotate(r) => SameThreadsKeep(n, r);
    case Break(pair) => BreakKeeps(n, pair, now);
    case Refresh(ip) => RefreshKeeps(n, ip, now);
    case Lose(dest) => LoseRouteKeeps(n, dest, now);
    case Ask(dest, junk) => SendRreqKeeps(n, dest, now, junk);
    case Conclude(dest) => OutcomeKeeps(n, dest, now);
    case Thread(id) => RunKeeps(n, id, now);
  }

  lemma RefreshKeeps(n: Node, ip: u32, now: Time)
    requires Ledger(n) && HasEntry(n, ip)
    ensures Ledger(RefreshRoute(n, ip, now))
  {
    hide SetExpirationTimer;
    TimerKeeps(n, Slot(ip), EntryOf(n, ip), ACTIVE_ROUTE_TIMEOUT, now);
  }

  lemma {:induction false} OperationsKeep(n: Node, ops: seq<Operation>, now: Time)
    requires Ledger(n) && Placed(n) && AllAllowed(n, ops, now)
    ensures Ledger(DoAll(n, ops, now)) && Placed(DoAll(n, ops, now))
    decreases |ops|
  {
    hide Do, Allowed;
    if ops == [] {
    } else {
      OperationKeeps(n, ops[0], now);
      OperationPlaces(n, ops[0], now, {});
      OperationsKeep(Do(n, ops[0], now), ops[1..], now);
    }
  }

  lemma EventKeeps(n: Node, ev: Event, now: Time)
    requires Ledger(n) && Placed(n) && Enabled(n, ev, now)
    ensures Ledger(Apply(n, ev, now).node) && Placed(Apply(n, ev, now).node)
  {
    hide Apply, OperationsOf;
    EventIsOperations(n, ev, now);
    OperationsKeep(n, OperationsOf(n, ev, now), now);
  }

  lemma {:induction false} StepsKeep(n: Node, run: seq<Step>)
    requires Ledger(n) && Placed(n) && Legal(n, run)
    ensures Ledger(Final(n, run)) && Placed(Final(n, run))
    decreases |run|
  {
    hide Apply, Enabled;
    if run == [] {
    } else {
      EventKeeps(n, run[0].event, run[0].now);
      StepsKeep(After(n, run[0]), run[1..]);
    }
  }

  // ---- What the ledger means ----

  /** In every reachable state: every live thread works on an entry in the table; an entry has at
      most one pending expiration and at most one pending id expiry; and it has a live search thread, just one,
      exactly while it is searching. */
  lemma ThreadsOfEntries(ip: u32, broadcastIp: u32, run: seq<Step>, s: u8)
    requires Legal(Boot(ip, broadcastIp), run)
    ensures var n := Final(Boot(ip, broadcastIp), run);
            && (forall id :: id in n.threads ==> n.threads[id].slot in n.table)
            && (forall i, j :: i in n.threads && j in n.threads && SamePurpose(n.threads[i], n.threads[j]) ==> i == j)
            && (s in n.table ==> (n.table[s].search == Searching <==>
                  exists id :: id in n.threads && Searches(n.threads[id]) && n.threads[id].slot == s))
  {
    StepsKeep(Boot(ip, broadcastIp), run);
    var n := Final(Boot(ip, broadcastIp), run);
    forall id | id in n.threads
      ensures Owned(n, id)
    {
    }
    assert Backed(n, s);
  }

  predicate SamePurpose(t: RoutingTable.Thread, u: RoutingTable.Thread) {
    && t.slot == u.slot
    && ((t.Expiration? && u.Expiration?) || (t.IdExpiry? && u.IdExpiry?) || (Searches(t) && Searches(u)))
  }
}
