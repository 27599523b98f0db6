/** What data packets do to the routes they use, and what becomes of routes that fail them. */
module DataRoutes {
  import opened Aodv
  import opened Messages
  import opened TimeFuncs
  import opened RoutingTable
  import opened SendMessages
  import opened Callbacks
  import opened Threads
  import opened Deadlines

  /** The entry is the same but ends 3000 ms from now, by a timer set for that moment in place of the old one; all else
      in the node stays. */
  ghost predicate Renewed(n: Node, r: Node, ip: u32, now: Time) {
    && HasEntry(n, ip) && HasEntry(r, ip) && EndsIn(r, Slot(ip), 3000, now)
    && var e, e' := EntryOf(n, ip), EntryOf(r, ip);
       && e' == e.(timeOut := e'.timeOut, expirationThread := e'.expirationThread)
       && e'.expirationThread !in n.threads
       && r == n.(table := n.table[Slot(ip) := e'], lastThread := e'.expirationThread,
                  threads := (n.threads - {e.expirationThread})[e'.expirationThread := r.threads[e'.expirationThread]])
  }

  lemma RefreshRenews(n: Node, ip: u32, now: Time)
    requires HasEntry(n, ip) && Ledger(n)
    ensures Renewed(n, RefreshRoute(n, ip, now), ip, now)
  {
    TimerEnds(n, Slot(ip), EntryOf(n, ip), 3000, now);
    assert Owned(n, n.lastThread + 1);
    hide AddMs, WakeAt, EndsIn, Timely, RoutesKept, NoNewSearch, Slot;
  }

  /** A packet that has come in for this node renews the route to its source, if there is one, and nothing else. */
  lemma IncomingRenews(n: Node, src: u32, dest: u32, now: Time)
    requires Ledger(n)
    ensures var r := Apply(n, DataIn(src, dest), now);
            && r.outs == []
            && if dest == n.ip && HasEntry(n, src) then Renewed(n, r.node, src, now) else r.node == n
  {
    hide RefreshRoute, Renewed;
    if dest == n.ip && HasEntry(n, src) {
      RefreshRenews(n, src, now);
    }
  }

  /** A valid route with a valid number. */
  predicate InUse(n: Node, dest: u32) {
    HasEntry(n, dest) && EntryOf(n, dest).routeValid && EntryOf(n, dest).seqValid
  }

  /** The way leads straight to its end, or to a neighbour with a valid route. */
  predicate LeadsOn(n: Node, dest: u32)
    requires HasEntry(n, dest)
  {
    var e := EntryOf(n, dest);
    e.nextHop == e.destIp || (HasEntry(n, e.nextHop) && EntryOf(n, e.nextHop).routeValid)
  }

  /** A packet of this node that has a route renews it when it leads straight to its end, and changes nothing when it
      leads through another node; nor does one that needs no route. */
  lemma OutgoingRenews(n: Node, dest: u32, now: Time, junk: u32)
    requires Ledger(n) && (dest == n.broadcastIp || dest == n.ip || (InUse(n, dest) && LeadsOn(n, dest)))
    ensures var r := Apply(n, DataOut(dest, junk), now);
            && r.outs == []
            && if dest != n.broadcastIp && dest != n.ip && EntryOf(n, dest).nextHop == EntryOf(n, dest).destIp
               then Renewed(n, r.node, dest, now) else r.node == n
  {
    hide RefreshRoute, Renewed, LoseRoute, SendRreq;
    if dest != n.broadcastIp && dest != n.ip && EntryOf(n, dest).nextHop == EntryOf(n, dest).destIp {
      RefreshRenews(n, dest, now);
    }
  }

  /** A search for the entry has just been started: a new thread at its beginning in place of the timer. What the entry
      says of the route stays; a new entry has no route. */
  ghost predicate Started(n: Node, r: Node, dest: u32) {
    && HasEntry(r, dest) && r.table == n.table[Slot(dest) := EntryOf(r, dest)]
    && r.kernel == n.kernel && r.activeRoutes == n.activeRoutes
    && var e := EntryOf(r, dest);
       && e.search == Searching && e.expirationThread == 0
       && e.messageSender !in n.threads && e.messageSender in r.threads
       && r.threads[e.messageSender] == SearchStart(Slot(dest))
       && if HasEntry(n, dest) then
            && EntryOf(n, dest).expirationThread !in r.threads
            && e == EntryOf(n, dest).(search := Searching, expirationThread := 0, messageSender := e.messageSender)
          else !e.routeValid && !e.seqValid && e.destIp == dest && e.hopCount == 0
  }

  /** No search can be started now: one is on, or one has just failed and there is no route. */
  predicate Refuses(n: Node, dest: u32) {
    && HasEntry(n, dest)
    && (EntryOf(n, dest).search == Searching || (EntryOf(n, dest).search == Failed && !EntryOf(n, dest).routeValid))
  }

  lemma SearchIsStarted(n: Node, dest: u32, now: Time, junk: u32)
    requires Ledger(n)
    ensures var r := SendRreq(n, dest, now, junk); if Refuses(n, dest) then r == n else Started(n, r, dest)
  {
    if HasEntry(n, dest) {
      assert Backed(n, Slot(dest));
    }
    assert Owned(n, n.lastThread + 1);
    hide AddMs, Slot, Timely, SaysSame, SaysRoute, IndexKept, Ledger;
  }

  /** The route has been given up: it is invalid and out of the kernel and ends DELETE_PERIOD from now, the entry is
      otherwise the same, and there is one active route less if it was marked as one. */
  ghost predicate Lost(n: Node, r: Node, dest: u32, now: Time) {
    && HasEntry(n, dest) && HasEntry(r, dest) && r.table == n.table[Slot(dest) := EntryOf(r, dest)]
    && EndsIn(r, Slot(dest), 15_000, now) && r.kernel == n.kernel - {EntryOf(n, dest).destIp}
    && r.activeRoutes == (if n.activeRoutes > 0 then Wrap(n.activeRoutes - EntryOf(n, dest).activeRoute) else 0)
    && var e := EntryOf(r, dest);
       e == EntryOf(n, dest).(routeValid := false, timeOut := e.timeOut, expirationThread := e.expirationThread)
  }

  lemma RouteIsLost(n: Node, dest: u32, now: Time)
    requires HasEntry(n, dest)
    ensures Lost(n, LoseRoute(n, dest, now), dest, now)
  {
    hide AddMs, WakeAt, Slot, Timely, SaysSame, IndexKept;
    var e := EntryOf(n, dest).(routeValid := false);
    TimerEnds(DropActive(DeleteRoute(n, e.destIp), e), Slot(dest), e, DELETE_PERIOD, now);
  }

  /** A packet of this node without a route that leads on first gives up the route it has, if any, and then starts a
      search unless one is on or has just failed. */
  lemma OutgoingSearches(n: Node, dest: u32, now: Time, junk: u32)
    requires Ledger(n) && dest != n.broadcastIp && dest != n.ip && !(InUse(n, dest) && LeadsOn(n, dest))
    ensures var r := Apply(n, DataOut(dest, junk), now);
            && r.outs == []
            && exists n1 ::
                 && (if InUse(n, dest) then Lost(n, n1, dest, now) else n1 == n)
                 && if Refuses(n1, dest) then r.node == n1 else Started(n1, r.node, dest)
  {
    hide LoseRoute, SendRreq, RefreshRoute, Lost, Started, Refuses, Ledger;
    if InUse(n, dest) {
      RouteIsLost(n, dest, now);
      LoseRouteKeeps(n, dest, now);
      SearchIsStarted(LoseRoute(n, dest, now), dest, now, junk);
    } else {
      SearchIsStarted(n, dest, now, junk);
    }
  }

  // ---- After the wait ----

  /** The sender that has waited forgets a search that has succeeded; after one that has failed the entry ends in
      500 ms. */
  lemma WaitIsOver(n: Node, dest: u32, now: Time)
    requires Ledger(n) && Enabled(n, SearchOver(dest), now)
    ensures var r := Apply(n, SearchOver(dest), now);
            && r.outs == [] && HasEntry(r.node, dest)
            && r.node.table == n.table[Slot(dest) := EntryOf(r.node, dest)] && r.node.kernel == n.kernel
            && var e, e' := EntryOf(n, dest), EntryOf(r.node, dest);
               if e.search == Failed then
                 && EndsIn(r.node, Slot(dest), 500, now)
                 && e' == e.(timeOut := e'.timeOut, expirationThread := e'.expirationThread)
               else e' == e.(search := NoSearch) && r.node.threads == n.threads
  {
    hide AddMs, WakeAt, Slot, Timely, RoutesKept, EndsIn, Ledger, NoNewSearch;
    if EntryOf(n, dest).search == Failed {
      TimerEnds(n, Slot(dest), EntryOf(n, dest), 500, now);
    }
  }

  // ---- Packets that pass through ----

  /** A packet that passes through over a route that leads on renews both ends. Any other packet changes nothing and
      makes the node report its destination to all neighbours, with number 0 if it is unknown, else with its address. */
  lemma ThroughRenews(n: Node, src: u32, dest: u32, now: Time)
    requires Ledger(n) && !LinkBreak(n, dest)
    ensures var r := Apply(n, DataThrough(src, dest), now);
            if HasEntry(n, dest) && EntryOf(n, dest).routeValid && HasEntry(n, EntryOf(n, dest).nextHop) then
              && r.outs == []
              && exists n1 :: Renewed(n, n1, dest, now) &&
                   if HasEntry(n, src) then Renewed(n1, r.node, src, now) else r.node == n1
            else
              && r.node == n
              && var number := if HasEntry(n, dest) then EntryOf(n, dest).destIp else 0;
                 r.outs == [Broadcast(RerrMessage([Pair(dest, number)]))]
  {
    hide RefreshRoute, Renewed, Ledger;
    if HasEntry(n, dest) && EntryOf(n, dest).routeValid && HasEntry(n, EntryOf(n, dest).nextHop) {
      var n1 := RefreshRoute(n, dest, now);
      RefreshRenews(n, dest, now);
      if HasEntry(n, src) {
        RefreshKeeps(n, dest, now);
        RefreshRenews(n1, src, now);
      }
    }
  }
}
