/** The counter of active routes, which wakes the hello thread: how it follows the marks of the entries. */
module ActiveRoutes {
  import opened Aodv
  import opened Messages
  import opened TimeFuncs
  import opened RoutingTable
  import opened SendMessages
  import opened RecvMessages
  import opened Callbacks
  import opened RouteErrors

  /** The slots of the entries marked as active. */
  function Marks(n: Node): set<u8> {
    set s | s in n.table && n.table[s].activeRoute != 0
  }

  /** The marks are the same, and so is the counter. */
  predicate SameCount(n: Node, r: Node) {
    Marks(r) == Marks(n) && r.activeRoutes == n.activeRoutes
  }

  /** The counter has gone up by one for each entry newly marked. */
  predicate CountsNew(n: Node, r: Node) {
    Marks(n) <= Marks(r) && r.activeRoutes == Wrap(n.activeRoutes + |Marks(r) - Marks(n)|)
  }

  lemma ActivateCounts(n: Node, s: u8)
    requires s in n.table
    ensures CountsNew(n, Activate(n, s)) && Marks(Activate(n, s)) == Marks(n) + {s}
  {
    hide OnlySlot, Annotated, Grows, NoNewSearch;
    var r := Activate(n, s);
    assert r.table.Keys == n.table.Keys;
    assert forall t :: t in n.table && t != s ==> r.table[t] == n.table[t];
    assert Marks(r) == Marks(n) + {s};
    hide Activate, Marks;
    assert Marks(r) - Marks(n) == if s in Marks(n) then {} else {s};
    MarkCounts(n, s);
  }

  lemma MarkCounts(n: Node, s: u8)
    requires s in n.table
    ensures Activate(n, s).activeRoutes == Wrap(n.activeRoutes + if s in Marks(n) then 0 else 1)
  {
  }

  lemma SameIsNone(n: Node, m: Node, r: Node)
    requires SameCount(n, m) && CountsNew(m, r)
    ensures CountsNew(n, r)
  {
    hide Marks;
  }

  lemma ThenSame(n: Node, m: Node, r: Node)
    requires CountsNew(n, m) && SameCount(m, r)
    ensures CountsNew(n, r)
  {
    hide Marks;
  }

  lemma CountsTrans(n: Node, m: Node, r: Node)
    requires CountsNew(n, m) && CountsNew(m, r)
    ensures CountsNew(n, r)
  {
    hide Marks;
    assert Marks(r) - Marks(n) == (Marks(m) - Marks(n)) + (Marks(r) - Marks(m));
    WrapTwice(n.activeRoutes, |Marks(m) - Marks(n)|, |Marks(r) - Marks(m)|);
    hide Wrap;
  }

  lemma WrapTwice(a: u32, b: nat, c: nat)
    ensures Wrap(Wrap(a + b) + c) == Wrap(a + (b + c))
  {
  }

  lemma SameIsNew(n: Node, r: Node)
    requires SameCount(n, r)
    ensures CountsNew(n, r)
  {
    hide Marks;
  }

  // ---- The steps of the handlers ----

  lemma MeetingCounts(n: Node, sender: u32, about: u32, now: Time, junk: u32)
    ensures SameCount(n, PreviousHop(n, sender, about, now, junk))
  {
    hide AddMs, WakeAt, Timely, SearchKept, IndexKept, AddIfAbsent, NoNewSearch, Slot;
  }

  lemma ReverseCounts(n: Node, sender: u32, m: Rreq, now: Time)
    ensures SameCount(n, ReverseRoute(n, sender, m, now))
  {
    hide AddMs, WakeAt, Timely, SearchKept, IndexKept, ReverseLifetime, NoNewSearch, Slot, Improves;
  }

  lemma PrecursorCounts(n: Node, s: u8, ip: u32)
    requires s in n.table
    ensures SameCount(n, AddPrecursor(n, s, ip))
  {
  }

  lemma SameTable(n: Node, r: Node)
    requires r.table == n.table && r.activeRoutes == n.activeRoutes
    ensures SameCount(n, r)
  {
  }

  lemma AnswerCounts(n: Node, sender: u32, m: Rreq, now: Time)
    requires HasEntry(n, m.srcIp)
    ensures CountsNew(n, Answer(n, sender, m, now).node)
  {
    hide Activate, ReplySequence, SendRrepIntermediate, SeqCompare, Slot, Marks, SameCount, CountsNew, OnlySlot,
      Annotated;
    var r := Answer(n, sender, m, now).node;
    if n.ip == m.destIp {
      ActivateCounts(n, Slot(m.srcIp));
      SameTable(Activate(n, Slot(m.srcIp)), r);
      ThenSame(n, Activate(n, Slot(m.srcIp)), r);
    } else {
      if CanAnswer(n, m) {
        IntermediateCounts(n, m, sender, now);
      } else {
        SameTable(n, r);
      }
      SameIsNew(n, r);
    }
  }

  lemma IntermediateCounts(n: Node, m: Rreq, sender: u32, now: Time)
    requires HasEntry(n, m.destIp) && HasEntry(n, m.srcIp)
    ensures SameCount(n, SendRrepIntermediate(n, m, sender, now).node)
  {
    hide AddPrecursor, Remaining, Slot;
    var n1 := AddPrecursor(n, Slot(m.destIp), sender);
    PrecursorCounts(n, Slot(m.destIp), sender);
    PrecursorCounts(n1, Slot(m.srcIp), n1.table[Slot(m.destIp)].nextHop);
    hide Marks;
  }

  /** A request raises the counter by the number of entries it marks. */
  lemma RequestCounts(n: Node, sender: u32, m: Rreq, now: Time, junk: u32)
    ensures CountsNew(n, RecvRreq(n, sender, m, now, junk).node)
  {
    hide PreviousHop, ReverseRoute, Answer, AlreadySeen, SameCount, CountsNew;
    var m' := m.(hopCount := NextHopCount(m.hopCount));
    var n1 := PreviousHop(n, sender, m.srcIp, now, junk);
    MeetingCounts(n, sender, m.srcIp, now, junk);
    if m.srcIp == n.ip || AlreadySeen(n1, m) {
      SameIsNew(n, n1);
    } else {
      var n2 := ReverseRoute(n1, sender, m', now);
      ReverseCounts(n1, sender, m', now);
      AnswerCounts(n2, sender, m', now);
      SameIsNone(n1, n2, Answer(n2, sender, m', now).node);
      SameIsNone(n, n1, Answer(n2, sender, m', now).node);
    }
  }

  lemma StopCounts(n: Node, m: Rrep)
    ensures SameCount(n, StopSearch(n, m))
  {
    hide Slot;
  }

  lemma HelloCounts(n: Node, sender: u32, m: Rrep, now: Time, junk: u32)
    ensures SameCount(n, Hello(n, sender, m, now, junk))
  {
    hide AddMs, WakeAt, Timely, SearchKept, IndexKept, NoNewSearch, Slot, SeqCompare;
  }

  lemma ForwardCounts(n: Node, sender: u32, m: Rrep, now: Time, junk: u32)
    ensures CountsNew(n, ForwardRoute(n, sender, m, now, junk))
  {
    hide Activate, AddMs, WakeAt, Timely, SearchKept, IndexKept, NoNewSearch, Slot, Accepts;
    var s := Slot(m.destIp);
    var found := CreateOrGet(n, m.destIp, m.destSeq, true, sender, m.hopCount, m.lifetime, now, junk);
    var e := UpdateForward(found, !HasEntry(n, m.destIp), sender, m);
    var n1 := SetExpirationTimer(AddRoute(n, m.destIp), s, e, m.lifetime, now);
    assert SameCount(n, n1);
    ActivateCounts(n1, s);
    SameIsNone(n, n1, Activate(n1, s));
  }

  lemma PassingCounts(n: Node, m: Rrep)
    requires HasEntry(n, m.destIp)
    ensures CountsNew(n, ForwardReply(n, m).node)
  {
    hide Activate, AddPrecursor, Slot, Marks, SameCount, CountsNew, OnlySlot;
    if n.ip == m.srcIp || !HasEntry(n, m.srcIp) {
      SameTable(n, n);
      SameIsNew(n, n);
    } else {
      var d, o := Slot(m.destIp), Slot(m.srcIp);
      var n1 := Activate(n, o);
      var n2 := AddPrecursor(n1, o, n.table[d].nextHop);
      var n3 := AddPrecursor(n2, d, n.table[o].nextHop);
      ActivateCounts(n, o);
      PrecursorCounts(n1, o, n.table[d].nextHop);
      PrecursorCounts(n2, d, n.table[o].nextHop);
      ThenSame(n, n1, n2);
      ThenSame(n, n2, n3);
    }
  }

  /** So does a reply, and a hello leaves it. */
  lemma ReplyCounts(n: Node, sender: u32, message: Rrep, now: Time, junk: u32, junk': u32)
    ensures var r := RecvRrep(n, sender, message, now, junk, junk').node;
            if message.srcIp == 0 then SameCount(n, r) else CountsNew(n, r)
  {
    hide PreviousHop, StopSearch, Hello, ForwardRoute, ForwardReply, CountsNew;
    var m := message.(hopCount := NextHopCount(message.hopCount));
    var n1 := StopSearch(n, message);
    StopCounts(n, message);
    if m.srcIp == 0 {
      HelloCounts(n1, sender, m, now, junk);
    } else {
      var n2 := PreviousHop(n1, sender, m.destIp, now, junk);
      var n3 := ForwardRoute(n2, sender, m, now, junk');
      MeetingCounts(n1, sender, m.destIp, now, junk);
      ForwardCounts(n2, sender, m, now, junk');
      PassingCounts(n3, m);
      CountsTrans(n2, n3, ForwardReply(n3, m).node);
      SameIsNone(n, n2, ForwardReply(n3, m).node);
    }
  }

  // ---- Losses ----

  /** Marks are 0 or 1. */
  predicate Binary(n: Node) {
    forall s :: s in n.table ==> n.table[s].activeRoute <= 1
  }

  /** The marked entries an error takes away. */
  function MarkedLost(n: Node, sender: u32, pairs: seq<Pair>): set<u8> {
    set s | s in n.table && FirstNumber(pairs, s).Some? && Affected(n.table[s], sender) && n.table[s].activeRoute != 0
  }

  function Less(count: u32, lost: nat): int {
    if count <= lost then 0 else count - lost
  }

  lemma BreakCounts(n: Node, pair: Pair, now: Time)
    requires HasEntry(n, pair.destIp) && Binary(n)
    ensures var r := Invalidate(n, pair, now);
            && Binary(r) && r.ip == n.ip && r.table == n.table[Slot(pair.destIp) := EntryOf(r, pair.destIp)]
            && !EntryOf(r, pair.destIp).routeValid
            && EntryOf(r, pair.destIp).activeRoute == EntryOf(n, pair.destIp).activeRoute
            && r.activeRoutes == Less(n.activeRoutes, EntryOf(n, pair.destIp).activeRoute)
  {
    hide AddMs, WakeAt, Slot, Timely, SaysRoute, IndexKept, NoNewSearch;
  }

  lemma HitCounts(n: Node, n1: Node, sender: u32, pairs: seq<Pair>)
    requires pairs != [] && Hit(n, sender, pairs[0]) && Binary(n)
    requires HasEntry(n1, pairs[0].destIp) && n1.table == n.table[Slot(pairs[0].destIp) := EntryOf(n1, pairs[0].destIp)]
    requires !EntryOf(n1, pairs[0].destIp).routeValid
    requires EntryOf(n1, pairs[0].destIp).activeRoute == EntryOf(n, pairs[0].destIp).activeRoute
    ensures Marks(n1) == Marks(n)
    ensures |MarkedLost(n, sender, pairs)| ==
            |MarkedLost(n1, sender, pairs[1..])| + EntryOf(n, pairs[0].destIp).activeRoute
  {
    hide Slot;
    var s, rest := Slot(pairs[0].destIp), MarkedLost(n1, sender, pairs[1..]);
    assert MarkedLost(n, sender, pairs) == if n.table[s].activeRoute != 0 then rest + {s} else rest;
  }

  lemma MissCounts(n: Node, sender: u32, pairs: seq<Pair>)
    requires pairs != [] && !Hit(n, sender, pairs[0])
    ensures MarkedLost(n, sender, pairs) == MarkedLost(n, sender, pairs[1..])
  {
    hide Slot;
  }

  /** An error lowers the counter by the number of marked entries it takes away, but not below 0, and keeps the
      marks. */
  lemma {:induction false} ErrorCounts(n: Node, sender: u32, pairs: seq<Pair>, now: Time, r: Resend)
    requires ResendOk(r) && Binary(n)
    ensures var n' := ScanPairs(n, sender, pairs, now, r).node;
            && Binary(n') && Marks(n') == Marks(n)
            && n'.activeRoutes == Less(n.activeRoutes, |MarkedLost(n, sender, pairs)|)
    decreases |pairs|
  {
    hide Invalidate, Collect, Slot, Marks, Binary, MarkedLost;
    if pairs == [] {
      NothingIsLost(n, sender);
    } else if Hit(n, sender, pairs[0]) {
      var n1 := Invalidate(n, pairs[0], now);
      BreakCounts(n, pairs[0], now);
      HitCounts(n, n1, sender, pairs);
      ErrorCounts(n1, sender, pairs[1..], now, Collect(r, EntryOf(n, pairs[0].destIp), pairs[0].destSeq));
    } else {
      MissCounts(n, sender, pairs);
      ErrorCounts(n, sender, pairs[1..], now, r);
    }
  }

  lemma NothingIsLost(n: Node, sender: u32)
    ensures MarkedLost(n, sender, []) == {}
  {
  }

  /** A timer that ends a valid route with a valid number lowers the counter by the mark of the entry; any other thread
      leaves the counter. */
  lemma WakeCounts(n: Node, id: nat, now: Time)
    requires Enabled(n, Wake(id), now)
    ensures var r, e := Apply(n, Wake(id), now).node, n.table[n.threads[id].slot];
            if n.threads[id].Expiration? && e.routeValid && e.seqValid && n.activeRoutes > 0
            then r.activeRoutes == Wrap(n.activeRoutes - e.activeRoute) else r.activeRoutes == n.activeRoutes
  {
    hide AddMs, WakeAt, Plan, Timely, RoutesKept;
  }

  // ---- Runs ----

  /** The event takes no valid route away and removes no entry. */
  predicate KeepsRoutes(n: Node, ev: Event) {
    && !ev.ReceiveRerr?
    && (ev.Wake? && ev.id in n.threads ==> !n.threads[ev.id].Expiration?)
    && (ev.DataOut? && Active(n, ev.dest) ==> NextHopUsable(n, EntryOf(n, ev.dest)))
  }

  lemma RefreshCounts(n: Node, ip: u32, now: Time)
    requires HasEntry(n, ip)
    ensures SameCount(n, RefreshRoute(n, ip, now))
  {
    hide AddMs, WakeAt, Slot, Timely, NoNewSearch;
  }

  lemma AskCounts(n: Node, dest: u32, now: Time, junk: u32)
    ensures SameCount(n, SendRreq(n, dest, now, junk))
  {
    hide AddMs, Slot, Timely, SaysSame, SaysRoute, IndexKept, NoNewSearch;
  }

  lemma ThreadCounts(n: Node, id: nat, now: Time)
    requires Enabled(n, Wake(id), now) && !n.threads[id].Expiration?
    ensures SameCount(n, Run(n, id, now).node)
  {
    hide AddMs, WakeAt, Plan, Timely, NoNewSearch;
  }

  lemma ConcludeCounts(n: Node, dest: u32, now: Time)
    requires HasEntry(n, dest) && EntryOf(n, dest).search != Searching
    ensures SameCount(n, SendRreqOutcome(n, dest, now))
  {
    hide AddMs, WakeAt, Slot, Timely, NoNewSearch;
  }

  lemma EventCounts(n: Node, ev: Event, now: Time)
    requires Enabled(n, ev, now) && KeepsRoutes(n, ev)
    ensures CountsNew(n, Apply(n, ev, now).node)
  {
    hide RecvRreq, RecvRrep, RefreshRoute, SendRreq, Run, SendRreqOutcome, SameCount, CountsNew, LoseRoute;
    var r := Apply(n, ev, now).node;
    match ev
    case ReceiveRreq(sender, m, junk) => RequestCounts(n, sender, m, now, junk);
    case ReceiveRrep(sender, m, junk, junk') =>
      ReplyCounts(n, sender, m, now, junk, junk');
      if m.srcIp == 0 { SameIsNew(n, r); }
    case Wake(id) => ThreadCounts(n, id, now); SameIsNew(n, r);
    case SearchOver(dest) => ConcludeCounts(n, dest, now); SameIsNew(n, r);
    case _ =>
      DataCounts(n, ev, now);
      SameIsNew(n, r);
  }

  lemma DataCounts(n: Node, ev: Event, now: Time)
    requires Enabled(n, ev, now) && KeepsRoutes(n, ev)
    requires ev.DataIn? || ev.DataThrough? || ev.DataOut? || ev.HelloTick?
    ensures SameCount(n, Apply(n, ev, now).node)
  {
    hide RefreshRoute, SendRreq, SameCount, LoseRoute, Slot, NextHopUsable;
    SameTable(n, n);
    match ev
    case DataIn(src, dest) => if dest == n.ip && HasEntry(n, src) { RefreshCounts(n, src, now); }
    case DataThrough(src, dest) => ThroughCounts(n, src, dest, now);
    case DataOut(dest, junk) =>
      AskCounts(n, dest, now, junk);
      if Active(n, dest) { RefreshCounts(n, dest, now); }
    case HelloTick => SameTable(n, Apply(n, ev, now).node);
  }

  lemma ThroughCounts(n: Node, src: u32, dest: u32, now: Time)
    requires !LinkBreak(n, dest)
    ensures SameCount(n, ForwardedMessages(n, src, dest, now).node)
  {
    hide RefreshRoute, Marks;
    if HasEntry(n, dest) {
      RefreshCounts(n, dest, now);
      if HasEntry(n, src) {
        RefreshCounts(RefreshRoute(n, dest, now), src, now);
      }
    }
  }

  predicate AllKeepRoutes(n: Node, run: seq<Step>)
    requires Legal(n, run)
    decreases |run|
  {
    run != [] ==> KeepsRoutes(n, run[0].event) && AllKeepRoutes(After(n, run[0]), run[1..])
  }

  lemma {:induction false} RunCounts(n: Node, run: seq<Step>)
    requires Legal(n, run) && AllKeepRoutes(n, run) && n.activeRoutes == |Marks(n)|
    ensures Final(n, run).activeRoutes == |Marks(Final(n, run))|
    decreases |run|
  {
    hide Apply, Enabled, Marks, KeepsRoutes;
    if run == [] {
    } else {
      EventCounts(n, run[0].event, run[0].now);
      CountIsExact(n, After(n, run[0]));
      RunCounts(After(n, run[0]), run[1..]);
    }
  }

  lemma CountIsExact(n: Node, r: Node)
    requires CountsNew(n, r) && n.activeRoutes == |Marks(n)|
    ensures r.activeRoutes == |Marks(r)|
  {
    hide Marks;
    assert Marks(r) == Marks(n) + (Marks(r) - Marks(n));
    FewSlots(Marks(r), 256);
  }

  lemma {:induction false} FewSlots(slots: set<u8>, bound: nat)
    requires forall s :: s in slots ==> s < bound
    ensures |slots| <= bound
    decreases bound
  {
    if bound > 0 {
      var rest := set s | s in slots && s < bound - 1 :: s;
      FewSlots(rest, bound - 1);
      assert forall s :: s in slots && s !in rest ==> s == bound - 1;
      if rest != slots {
        var last :| last in slots && last !in rest;
        assert slots == rest + {last};
      }
    } else {
      assert slots == {};
    }
  }

  /** Until a route is lost or an entry runs out, the counter is the number of entries marked: it is 0, and the
      hello thread waits, until the first mark. */
  lemma CounterIsExact(ip: u32, broadcastIp: u32, run: seq<Step>)
    requires Legal(Boot(ip, broadcastIp), run) && AllKeepRoutes(Boot(ip, broadcastIp), run)
    ensures var n := Final(Boot(ip, broadcastIp), run); n.activeRoutes == |Marks(n)|
  {
    assert Marks(Boot(ip, broadcastIp)) == {};
    RunCounts(Boot(ip, broadcastIp), run);
  }
}
