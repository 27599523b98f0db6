/** The daemon as it runs: entries updated in place behind a 256-slot array, handlers that assign their fields.
    Every method is proved to do to the daemon's value exactly what the functions of the other modules do. */
module RoutingDaemon {
  import opened Aodv
  import opened Messages
  import opened TimeFuncs
  import opened RoutingTable
  import opened SendMessages
  import opened RecvMessages
  import opened Callbacks

  /** The `routing_entry` structure. */
  class RoutingEntry {
    const destIp: u32
    var destSeq: u32
    var seqValid: bool
    var nextHop: u32
    var hopCount: u32
    var routeValid: bool
    var timeOut: Time
    var precursors: seq<u32>
    var nextHopFor: seq<u32>
    var expirationThread: nat
    var rreqId: u32
    var rreqIdThread: nat
    var search: Search
    var messageSender: nat
    var activeRoute: u32

    function Value(): Entry
      reads this
    {
      Entry(destIp, destSeq, seqValid, nextHop, hopCount, routeValid, timeOut, precursors, nextHopFor,
            expirationThread, rreqId, rreqIdThread, search, messageSender, activeRoute)
    }

    constructor (destIp: u32, destSeq: u32, seqValid: bool, nextHop: u32, hopCount: u32, timeOut: Time, rreqId: u32)
      ensures Value() == Entry(destIp, destSeq, seqValid, nextHop, hopCount, false, timeOut, [], [], 0, rreqId, 0,
                               NoSearch, 0, 0)
    {
      this.destIp := destIp;
      this.destSeq := destSeq;
      this.nextHop := nextHop;
      this.hopCount := hopCount;
      this.seqValid := seqValid;
      this.routeValid := false;
      this.search := NoSearch;
      this.timeOut := timeOut;
      this.precursors, this.nextHopFor := [], [];
      this.activeRoute := 0;
      this.expirationThread, this.rreqIdThread, this.messageSender := 0, 0, 0;
      this.rreqId := rreqId;
    }

    /** The entry gets a deadline and the thread that waits for it. */
    method WaitUntil(deadline: Time, thread: nat)
      modifies this`timeOut, this`expirationThread
      ensures Value() == old(Value()).(timeOut := deadline, expirationThread := thread)
    {
      timeOut, expirationThread := deadline, thread;
    }

    /** The entry waits for its search thread, not for a deadline. */
    method BeSearched(thread: nat)
      modifies this`expirationThread, this`messageSender, this`search
      ensures Value() == old(Value()).(expirationThread := 0, messageSender := thread, search := Searching)
    {
      expirationThread, messageSender, search := 0, thread, Searching;
    }

    /** The sender of a message becomes a valid neighbour, next hop for the node the message is about. */
    method BecomeNeighbour(about: u32, isNew: bool, now: Time)
      modifies this
      ensures Value() == Neighbour(old(Value()), about, isNew, now)
    {
      routeValid := true;
      if about !in nextHopFor {
        nextHopFor := nextHopFor + [about];
      }
      if !isNew {
        var deadline := new Timespec(now);
        AddTimeMs(deadline, ACTIVE_ROUTE_TIMEOUT);
        timeOut := deadline.Value();
      }
    }

    /** The update of the reverse route by a request. */
    method TakeRequest(isNew: bool, senderIp: u32, m: Rreq)
      modifies this
      ensures Value() == UpdateReverse(old(Value()), isNew, senderIp, m).(routeValid := true)
    {
      if isNew || m.srcSeq > destSeq || !seqValid || (m.srcSeq == destSeq && m.hopCount < hopCount) {
        destSeq := m.srcSeq;
        seqValid := true;
        nextHop := senderIp;
        hopCount := m.hopCount;
      }
      routeValid := true;
    }

    /** The update of the forward route by a reply. */
    method TakeReply(isNew: bool, senderIp: u32, m: Rrep)
      modifies this
      ensures Value() == UpdateForward(old(Value()), isNew, senderIp, m)
    {
      if isNew || !seqValid || SeqCompare(m.destSeq, destSeq) >= 0 || (m.destSeq == destSeq && !routeValid)
         || (m.destSeq == destSeq && m.hopCount < hopCount)
      {
        routeValid := true;
        seqValid := true;
        nextHop := senderIp;
        hopCount := m.hopCount;
        destSeq := m.destSeq;
      }
      routeValid := true;
    }
  }

  class Daemon {
    const ip: u32
    const broadcastIp: u32
    var sequenceNum: u32
    var rreqIds: u32
    var activeRoutes: u32
    const routes: array<RoutingEntry?>
    /** Destinations with a kernel route, and the live threads. */
    var kernel: set<u32>
    var threads: map<nat, Thread>
    var lastThread: nat
    var hello: HelloThread

    ghost predicate Valid()
      reads this`threads, routes
    {
      routes.Length == 256 && 0 !in threads && forall i: u8 :: routes[i] != null ==> Slot(routes[i].destIp) == i
    }

    ghost function Entries(): set<RoutingEntry>
      reads routes
    {
      set i | 0 <= i < routes.Length && routes[i] != null :: routes[i]
    }

    ghost function Table(): map<u8, Entry>
      requires Valid()
      reads this`threads, routes, Entries()
    {
      map i: u8 | routes[i] != null :: routes[i].Value()
    }

    /** The value of the daemon. */
    ghost function View(): Node
      requires Valid()
      reads this, routes, Entries()
    {
      Node(ip, broadcastIp, sequenceNum, rreqIds, Table(), activeRoutes, kernel, threads, lastThread, hello)
    }

    /** Entries are those there before, or new objects. */
    twostate predicate Kept()
      reads routes
    {
      forall i :: 0 <= i < routes.Length && routes[i] != null ==> routes[i] == old(routes[i]) || fresh(routes[i])
    }

    /** The entry of a slot. */
    ghost predicate Holds(e: RoutingEntry)
      reads this`threads, routes
    {
      Valid() && routes[Slot(e.destIp)] == e
    }

    /** All slots but one, and their entries, are as before. */
    twostate predicate OtherSlots(s: u8)
      requires old(Valid()) && Valid()
      reads this`threads, routes, Entries()
    {
      forall i: u8 :: i != s ==>
        routes[i] == old(routes[i]) && (routes[i] != null ==> routes[i].Value() == old(routes[i].Value()))
    }

    twostate lemma TableChanged(s: u8)
      requires old(Valid()) && Valid() && OtherSlots(s) && routes[s] != null
      ensures Table() == old(Table())[s := routes[s].Value()]
    {
    }

    twostate lemma TableSame()
      requires old(Valid()) && Valid()
      requires forall i: u8 ::
        routes[i] == old(routes[i]) && (routes[i] != null ==> routes[i].Value() == old(routes[i].Value()))
      ensures Table() == old(Table())
    {
    }

    constructor (ip: u32, broadcastIp: u32)
      ensures Valid() && fresh(routes) && View() == Boot(ip, broadcastIp)
    {
      this.ip, this.broadcastIp := ip, broadcastIp;
      sequenceNum, rreqIds, activeRoutes := 0, 0, 0;
      routes := new RoutingEntry?[256](_ => null);
      kernel, threads, lastThread, hello := {}, map[], 0, Waiting;
    }

    // ---- routing_table.c ----

    function GetRoutingEntry(destIp: u32): (e: RoutingEntry?)
      requires Valid()
      reads this, routes, Entries()
      ensures e != null <==> HasEntry(View(), destIp)
      ensures e != null ==> Holds(e) && EntryOf(View(), destIp) == e.Value()
    {
      routes[Slot(destIp)]
    }

    method CreateOrGetRoutingEntry(destIp: u32, destSeq: u32, seqValid: bool, nextHop: u32, hopCount: u32,
                                   ms: u32, now: Time, junk: u32) returns (e: RoutingEntry, isNew: bool)
      requires Valid()
      modifies routes
      ensures Valid() && Kept() && Holds(e) && (e in old(Entries()) || fresh(e))
      ensures isNew <==> !HasEntry(old(View()), destIp)
      ensures isNew ==> e.expirationThread == 0
      ensures e.Value() == CreateOrGet(old(View()), destIp, destSeq, seqValid, nextHop, hopCount, ms, now, junk)
      ensures Slot(e.destIp) == Slot(destIp)
      ensures View() == old(View()).(table := old(View()).table[Slot(destIp) := e.Value()])
      ensures OtherSlots(Slot(destIp))
    {
      var s := Slot(destIp);
      var found := GetRoutingEntry(destIp);
      if found != null {
        e, isNew := found, false;
        TableChanged(s);
        return;
      }
      isNew := true;
      var timeOut := new Timespec(now);
      AddTimeMs(timeOut, ms);
      e := new RoutingEntry(destIp, destSeq, seqValid, nextHop, hopCount, timeOut.Value(), junk);
      routes[s] := e;
      TableChanged(s);
    }

    /** pthread_cancel, unless the handle is 0. */
    method CancelThread(handle: nat)
      requires Valid()
      modifies this`threads
      ensures Valid() && threads == old(threads) - {handle}
    {
      if handle != 0 {
        threads := threads - {handle};
      }
    }

    /** What pthread_cancel leaves, unless the handle is 0. */
    function ThreadsWithout(handle: nat): (rest: map<nat, Thread>)
      requires Valid()
      reads this`threads, routes
      ensures rest == threads - {handle}
    {
      if handle != 0 then threads - {handle} else threads
    }

    /** Cancel the old timer of an entry, set its deadline unless ms is 0, and start a new timer. */
    method SetExpirationTimer(e: RoutingEntry, ms: u32, now: Time)
      requires Holds(e)
      modifies this`threads, this`lastThread, e`timeOut, e`expirationThread
      ensures Valid()
      ensures View() == RoutingTable.SetExpirationTimer(old(View()), Slot(e.destIp), old(e.Value()), ms, now)
    {
      hide OnlySlot, Grows, AddMs, WakeAt, Timely, Slot, RoutingTable.SetExpirationTimer, TimerAt;
      var timeOut := e.timeOut;
      if ms != 0 {
        timeOut := DeadlineAfter(now, ms);
      }
      TableSame();
      TimerParts(View(), Slot(e.destIp), e.Value(), ms, now);
      StartExpiration(e, timeOut, now);
    }

    /** A new expiration thread in place of the old one. */
    method StartExpiration(e: RoutingEntry, timeOut: Time, now: Time)
      requires Holds(e)
      modifies this`threads, this`lastThread, e`timeOut, e`expirationThread
      ensures Valid()
      ensures View() == TimerAt(old(View()), Slot(e.destIp), old(e.Value()), timeOut, now)
    {
      hide WakeAt, Slot, TimerAt;
      ghost var was := e.Value();
      var t := Expiration(Slot(e.destIp), WakeAt(now, timeOut));
      threads := ThreadsWithout(e.expirationThread)[lastThread + 1 := t];
      lastThread := lastThread + 1;
      e.WaitUntil(timeOut, lastThread);
      TableChanged(Slot(e.destIp));
      TimerAtParts(old(View()), View(), Slot(e.destIp), was, timeOut, now);
    }

    /** Restart the timer that forgets the request id of an entry. */
    method StartRreqTimer(e: RoutingEntry, now: Time)
      requires Holds(e)
      modifies this`threads, this`lastThread, e`rreqIdThread
      ensures Valid()
      ensures View() == RoutingTable.StartRreqTimer(old(View()), Slot(e.destIp), old(e.Value()), now)
    {
      hide OnlySlot, Grows, Slot, RoutingTable.StartRreqTimer;
      ghost var was := e.Value();
      var t := IdExpiry(Slot(e.destIp), now.Ns() + PATH_DISCOVERY_TIME * MILLION);
      threads := ThreadsWithout(e.rreqIdThread)[lastThread + 1 := t];
      lastThread := lastThread + 1;
      e.rreqIdThread := lastThread;
      TableChanged(Slot(e.destIp));
      IdTimerParts(old(View()), View(), Slot(e.destIp), was, now);
    }

    // ---- recv_messages.c ----

    /** The opening of recv_rreq and recv_rrep. */
    method MeetSender(senderIp: u32, about: u32, now: Time, junk: u32)
      requires Valid()
      modifies this`threads, this`lastThread, this`kernel, routes, Entries()
      ensures Valid() && Kept()
      ensures View() == PreviousHop(old(View()), senderIp, about, now, junk)
    {
      hide OnlySlot, Grows, Timely, RoutingTable.SetExpirationTimer, CreateOrGet, AddMs, PreviousHop, Neighbour,
        Slot, SaysSame, SaysRoute, SearchKept, AddIfAbsent, IndexKept, EntryOf, HasEntry, NoNewSearch;
      var e, isNew := CreateOrGetRoutingEntry(senderIp, 0, false, senderIp, 0, ACTIVE_ROUTE_TIMEOUT, now, junk);
      ghost var found := e.Value();
      e.BecomeNeighbour(about, isNew, now);
      kernel := kernel + {senderIp};
      TableChanged(Slot(senderIp));
      PreviousHopParts(old(View()), View(), senderIp, about, now, junk, found);
      SetExpirationTimer(e, 0, now);
    }

    /** Lifetime of a reverse route, by the timespec functions. */
    method ReverseLifetimeMs(now: Time, deadline: Time, hopCount: u8) returns (ms: u32)
      ensures ms == ReverseLifetime(now, deadline, hopCount)
    {
      var minimal := new Timespec(Instant(0, 0));
      ConvertMsToTimespec(minimal, Wrap(2 * NET_TRAVERSAL_TIME - 2 * hopCount * NODE_TRAVERSAL_TIME));
      var left := new Timespec(now);
      var end := new Timespec(deadline);
      SubtractTime(left, end);
      var chosen := MaxTimespec(minimal, left);
      ms := ConvertTimespecToMs(chosen);
    }

    /** The originator's entry, with the id of the request and a new timer for it. */
    method FindOriginator(senderIp: u32, m: Rreq, now: Time, junk: u32) returns (e: RoutingEntry, isNew: bool)
      requires Valid()
      modifies this`threads, this`lastThread, routes, Entries()
      ensures Valid() && Kept() && Holds(e) && Slot(e.destIp) == Slot(m.srcIp) && (e in old(Entries()) || fresh(e))
      ensures isNew <==> !HasEntry(old(View()), m.srcIp)
      ensures View() == Originator(old(View()), senderIp, m, now)
    {
      hide OnlySlot, Grows, Timely, RoutingTable.StartRreqTimer, CreateOrGet, AddMs, Slot, EntryOf, HasEntry,
        NoNewSearch, Originator;
      e, isNew := CreateOrGetRoutingEntry(m.srcIp, m.srcSeq, true, senderIp, m.hopCount, 0, now, junk);
      e.rreqId := m.rreqId;
      TableChanged(Slot(m.srcIp));
      OriginatorParts(old(View()), View(), senderIp, m, now, junk, e.Value());
      StartRreqTimer(e, now);
    }

    /** Let a reverse route live for the longer of what is left and MinimalLifetime. */
    method SetReverseTimer(e: RoutingEntry, hopCount: u8, now: Time)
      requires Holds(e)
      modifies this`threads, this`lastThread, e`timeOut, e`expirationThread
      ensures Valid()
      ensures View() == RoutingTable.SetExpirationTimer(old(View()), Slot(e.destIp), old(e.Value()),
                                                        ReverseLifetime(now, old(e.timeOut), hopCount), now)
    {
      hide OnlySlot, Grows, Timely, RoutingTable.SetExpirationTimer, ReverseLifetime;
      var ms := ReverseLifetimeMs(now, e.timeOut, hopCount);
      TableSame();
      SetExpirationTimer(e, ms, now);
    }

    /** Create or refresh the route to the originator of a request. */
    method MakeReverse(senderIp: u32, m: Rreq, now: Time, junk: u32) returns (e: RoutingEntry)
      requires Valid()
      modifies this`threads, this`lastThread, this`kernel, routes, Entries()
      ensures Valid() && Kept() && Holds(e) && Slot(e.destIp) == Slot(m.srcIp) && (e in old(Entries()) || fresh(e))
      ensures View() == ReverseRoute(old(View()), senderIp, m, now)
    {
      hide OnlySlot, Grows, Timely, RoutingTable.SetExpirationTimer, AddMs, ReverseRoute, Originator, UpdateReverse,
        ReverseLifetime, Slot, SaysSame, SaysRoute, IndexKept, EntryOf, HasEntry, NoNewSearch, Improves;
      var isNew;
      e, isNew := FindOriginator(senderIp, m, now, junk);
      label Found:
      ghost var n1 := View();
      e.TakeRequest(isNew, senderIp, m);
      kernel := kernel + {e.destIp};
      TableChanged@Found(Slot(m.srcIp));
      assert View() == n1.(table := n1.table[Slot(m.srcIp) := e.Value()], kernel := n1.kernel + {e.destIp});
      ReverseRouteParts(old(View()), n1, View(), senderIp, m, now);
      SetReverseTimer(e, m.hopCount, now);
    }

    /** Mark the entry of an active route and count it. */
    method Activate(e: RoutingEntry)
      requires Holds(e)
      modifies this`activeRoutes, e`activeRoute
      ensures Valid() && View() == RecvMessages.Activate(old(View()), Slot(e.destIp))
    {
      hide OnlySlot, Annotated;
      if e.activeRoute == 0 {
        e.activeRoute := 1;
        activeRoutes := Incr(activeRoutes);
      }
      TableChanged(Slot(e.destIp));
    }

    method AddPrecursor(e: RoutingEntry, neighbour: u32)
      requires Holds(e)
      modifies e`precursors
      ensures Valid() && View() == SendMessages.AddPrecursor(old(View()), Slot(e.destIp), neighbour)
    {
      hide OnlySlot, Annotated;
      e.precursors := e.precursors + [neighbour];
      TableChanged(Slot(e.destIp));
    }

    // ---- send_messages.c: replies ----

    method SendRrepDestination(m: Rreq, senderIp: u32) returns (outs: seq<Out>)
      requires Valid()
      modifies this`sequenceNum
      ensures Valid() && Effect(View(), outs) == SendMessages.SendRrepDestination(old(View()), m, senderIp)
    {
      hide Annotated;
      var seqNum := Incr(sequenceNum);
      if !m.Unknown() {
        seqNum := if SeqCompare(m.destSeq, seqNum) < 0 then seqNum else m.destSeq;
      }
      sequenceNum := seqNum;
      outs := [Unicast(senderIp, RrepMessage(Rrep(0, 0, ip, seqNum, m.srcIp, MY_ROUTE_TIMEOUT)))];
      TableSame();
    }

    /** Milliseconds left until a deadline, by the timespec functions. */
    method RemainingMs(now: Time, deadline: Time) returns (ms: u32)
      ensures ms == Remaining(now, deadline)
    {
      var left := new Timespec(now);
      var end := new Timespec(deadline);
      SubtractTime(left, end);
      ms := ConvertTimespecToMs(left);
    }

    method SendRrepIntermediate(m: Rreq, senderIp: u32, now: Time) returns (outs: seq<Out>)
      requires Valid() && HasEntry(View(), m.destIp) && HasEntry(View(), m.srcIp)
      modifies Entries()
      ensures Valid() && Effect(View(), outs) == SendMessages.SendRrepIntermediate(old(View()), m, senderIp, now)
    {
      hide OnlySlot, Annotated, SendMessages.AddPrecursor, Remaining, Slot;
      var left := RemainingMs(now, routes[Slot(m.destIp)].timeOut);
      TableSame();
      var dest := GetRoutingEntry(m.destIp);
      AddPrecursor(dest, senderIp);
      var reply := Rrep(0, dest.hopCount % 256, m.destIp, dest.destSeq, m.srcIp, left);
      outs := [Unicast(senderIp, RrepMessage(reply))];
      var origin := GetRoutingEntry(m.srcIp);
      AddPrecursor(origin, dest.nextHop);
      if m.flags != 0 {
        var gratuitous := Rrep(0, m.hopCount, m.srcIp, m.srcSeq, m.destIp, ACTIVE_ROUTE_TIMEOUT);
        outs := outs + [Unicast(dest.nextHop, RrepMessage(gratuitous))];
      }
    }

    // ---- recv_messages.c: requests ----

    /** The rest of recv_rreq, once the reverse route stands. */
    method AnswerRreq(originator: RoutingEntry, senderIp: u32, packet: array<u32>, now: Time) returns (outs: seq<Out>)
      requires packet.Length >= 6 && Holds(originator)
      requires Slot(originator.destIp) == Slot(UnpackRreq(packet[..]).srcIp)
      requires HasEntry(View(), UnpackRreq(packet[..]).srcIp)
      modifies this`activeRoutes, this`sequenceNum, Entries(), packet
      ensures Valid() && Effect(View(), outs) == Answer(old(View()), senderIp, UnpackRreq(old(packet[..])), now)
    {
      hide UnpackRreq, OnlySlot, Annotated, RecvMessages.Activate, SendMessages.SendRrepDestination,
        SendMessages.SendRrepIntermediate, Slot, MoreMarks;
      var m := UnpackRreq(packet[..]);
      if ip == m.destIp {
        Activate(originator);
        outs := SendRrepDestination(m, senderIp);
        return;
      }
      var destination := GetRoutingEntry(m.destIp);
      var newer := && destination != null && destination.seqValid
                   && (m.Unknown() || SeqCompare(m.destSeq, destination.destSeq) < 0);
      if !m.DestOnly() && newer && destination.routeValid {
        outs := SendRrepIntermediate(m, senderIp, now);
        return;
      }
      if m.ttl <= 1 {
        return [];
      }
      DecrementTtl(packet);
      if newer {
        SetDestSeq(packet, destination.destSeq);
      }
      TableSame();
      outs := [Broadcast(RreqMessage(UnpackRreq(packet[..])))];
    }

    /** Is the request our own, or a repeat that brings nothing? */
    predicate IsDropped(message: Rreq)
      requires Valid()
      reads this, routes, Entries()
      ensures IsDropped(message) <==> message.srcIp == ip || AlreadySeen(View(), message)
    {
      var originator := GetRoutingEntry(message.srcIp);
      || message.srcIp == ip
      || (originator != null && originator.rreqId == message.rreqId &&
          (ip != message.destIp || originator.hopCount <= message.hopCount))
    }

    /** The packet is changed in place, and broadcast as it is then. */
    method RecvRreq(senderIp: u32, packet: array<u32>, now: Time, junk: u32, junk': u32) returns (outs: seq<Out>)
      requires Valid() && packet.Length >= 6
      modifies this, routes, Entries(), packet
      ensures Valid() && Kept()
      ensures Effect(View(), outs) ==
              RecvMessages.RecvRreq(old(View()), senderIp, UnpackRreq(old(packet[..])), now, junk)
    {
      hide UnpackRreq, OnlySlot, Annotated, Grows, Timely, PreviousHop, ReverseRoute, Answer, SaysSame, SaysRoute,
        SearchKept, IndexKept, AddIfAbsent, Improves, Slot, MoreMarks, AlreadySeen, EntryOf;
      var message := UnpackRreq(packet[..]);
      MeetSender(senderIp, message.srcIp, now, junk);
      if IsDropped(message) {
        return [];
      }
      outs := TakeRreq(senderIp, packet, now, junk');
    }

    /** The rest of recv_rreq, for a request that is not dropped. */
    method TakeRreq(senderIp: u32, packet: array<u32>, now: Time, junk: u32) returns (outs: seq<Out>)
      requires Valid() && packet.Length >= 6
      modifies this, routes, Entries(), packet
      ensures Valid() && Kept()
      ensures var message := UnpackRreq(old(packet[..]));
              var m := message.(hopCount := NextHopCount(message.hopCount));
              Effect(View(), outs) == Answer(ReverseRoute(old(View()), senderIp, m, now), senderIp, m, now)
    {
      hide UnpackRreq, OnlySlot, Annotated, Grows, Timely, ReverseRoute, Answer, SaysSame, SaysRoute, SearchKept,
        IndexKept, Improves, Slot, MoreMarks, EntryOf;
      IncrementHopRreq(packet);
      TableSame();
      var originator := MakeReverse(senderIp, UnpackRreq(packet[..]), now, junk);
      outs := AnswerRreq(originator, senderIp, packet, now);
    }

    // ---- recv_messages.c: replies ----

    /** An answer to our own request stops the search. */
    method StopSearch(m: Rrep)
      requires Valid()
      modifies this`threads, Entries()
      ensures Valid() && View() == RecvMessages.StopSearch(old(View()), m)
    {
      hide RoutesKept, NoNewSearch;
      var destination := GetRoutingEntry(m.destIp);
      if ip == m.srcIp && destination != null {
        destination.search := Found;
        CancelThread(destination.messageSender);
        destination.messageSender := 0;
        TableChanged(Slot(m.destIp));
        assert View() == RecvMessages.StopSearch(old(View()), m);
      }
    }

    /** The hello branch of recv_rrep. */
    method RecvHello(senderIp: u32, m: Rrep, now: Time, junk: u32)
      requires Valid()
      modifies this`threads, this`lastThread, routes, Entries()
      ensures Valid() && Kept()
      ensures View() == Hello(old(View()), senderIp, m, now, junk)
    {
      hide OnlySlot, Grows, Timely, RoutingTable.SetExpirationTimer, CreateOrGet, AddMs, SaysSame, SaysRoute,
        SearchKept, IndexKept, Slot, Hello, SeqCompare, NoNewSearch, EntryOf, HasEntry;
      var destination, isNew :=
        CreateOrGetRoutingEntry(m.destIp, m.destSeq, true, senderIp, m.hopCount, m.lifetime, now, junk);
      ghost var found := destination.Value();
      if isNew || !destination.seqValid || SeqCompare(m.destSeq, destination.destSeq) >= 0 {
        destination.seqValid := true;
        destination.destSeq := m.destSeq;
        TableChanged(Slot(m.destIp));
        HelloParts(old(View()), View(), senderIp, m, now, junk, found);
        SetExpirationTimer(destination, m.lifetime, now);
      } else {
        HelloRefused(old(View()), senderIp, m, now, junk, found);
      }
    }

    /** Create or update the route to the destination of a reply. */
    method MakeForward(senderIp: u32, m: Rrep, now: Time, junk: u32) returns (destination: RoutingEntry)
      requires Valid()
      modifies this`threads, this`lastThread, this`kernel, this`activeRoutes, routes, Entries()
      ensures Valid() && Kept() && Holds(destination) && Slot(destination.destIp) == Slot(m.destIp)
      ensures View() == ForwardRoute(old(View()), senderIp, m, now, junk)
    {
      hide OnlySlot, Grows, Timely, RoutingTable.SetExpirationTimer, CreateOrGet, AddMs, SaysSame, SaysRoute,
        SearchKept, IndexKept, Slot, ForwardRoute, SeqCompare, NoNewSearch, RecvMessages.Activate, UpdateForward,
        EntryOf, HasEntry, Accepts, Annotated;
      var isNew;
      destination, isNew :=
        CreateOrGetRoutingEntry(m.destIp, m.destSeq, true, senderIp, m.hopCount, m.lifetime, now, junk);
      ghost var found := destination.Value();
      destination.TakeReply(isNew, senderIp, m);
      kernel := kernel + {m.destIp};
      TableChanged(Slot(m.destIp));
      ForwardRouteParts(old(View()), View(), senderIp, m, now, junk, found);
      SetExpirationTimer(destination, m.lifetime, now);
      Activate(destination);
    }

    /** Pass a reply on towards the originator of the request. */
    method ForwardReply(destination: RoutingEntry, m: Rrep) returns (outs: seq<Out>)
      requires Holds(destination) && Slot(destination.destIp) == Slot(m.destIp) && HasEntry(View(), m.destIp)
      modifies this`activeRoutes, Entries()
      ensures Valid() && Effect(View(), outs) == RecvMessages.ForwardReply(old(View()), m)
    {
      hide OnlySlot, Annotated, RecvMessages.Activate, SendMessages.AddPrecursor, Slot, MoreMarks;
      if ip == m.srcIp {
        return [];
      }
      var originator := GetRoutingEntry(m.srcIp);
      if originator == null {
        return [];
      }
      Activate(originator);
      AddPrecursor(originator, destination.nextHop);
      AddPrecursor(destination, originator.nextHop);
      outs := [Unicast(originator.nextHop, RrepMessage(m))];
    }

    /** The packet is changed in place, and passed on as it is then. */
    method RecvRrep(senderIp: u32, packet: array<u32>, now: Time, junk: u32, junk': u32) returns (outs: seq<Out>)
      requires Valid() && packet.Length >= 5
      modifies this, routes, Entries(), packet
      ensures Valid() && Kept()
      ensures Effect(View(), outs) ==
              RecvMessages.RecvRrep(old(View()), senderIp, UnpackRrep(old(packet[..])), now, junk, junk')
    {
      hide UnpackRrep, OnlySlot, Annotated, Grows, Timely, PreviousHop, ForwardRoute, Hello, RecvMessages.StopSearch,
        RecvMessages.ForwardReply, SaysSame, SaysRoute, SearchKept, IndexKept, AddIfAbsent, Slot, MoreMarks,
        RoutesKept, NoNewSearch, Accepts;
      StopSearch(UnpackRrep(packet[..]));
      label Stopped:
      IncrementHopRrep(packet);
      TableSame@Stopped();
      outs := TakeRrep(senderIp, UnpackRrep(packet[..]), now, junk, junk');
    }

    /** The rest of recv_rrep, with the hop count incremented. */
    method TakeRrep(senderIp: u32, m: Rrep, now: Time, junk: u32, junk': u32) returns (outs: seq<Out>)
      requires Valid()
      modifies this, routes, Entries()
      ensures Valid() && Kept()
      ensures var n := old(View());
              Effect(View(), outs) ==
              if m.srcIp == 0 then Effect(Hello(n, senderIp, m, now, junk), [])
              else
                var n1 := PreviousHop(n, senderIp, m.destIp, now, junk);
                RecvMessages.ForwardReply(ForwardRoute(n1, senderIp, m, now, junk'), m)
    {
      hide OnlySlot, Annotated, Grows, Timely, PreviousHop, ForwardRoute, Hello, RecvMessages.ForwardReply, SaysSame,
        SaysRoute, SearchKept, IndexKept, AddIfAbsent, Slot, MoreMarks, NoNewSearch, Accepts;
      if m.srcIp == 0 {
        RecvHello(senderIp, m, now, junk);
        return [];
      }
      MeetSender(senderIp, m.destIp, now, junk);
      var destination := MakeForward(senderIp, m, now, junk');
      outs := ForwardReply(destination, m);
    }

    // ---- recv_messages.c: errors ----

    method UncountRoute(e: RoutingEntry)
      requires Holds(e)
      modifies this`activeRoutes
      ensures Valid() && View() == DropActive(old(View()), e.Value())
    {
      if activeRoutes > 0 {
        activeRoutes := Wrap(activeRoutes - e.activeRoute);
      }
      TableSame();
    }

    /** A route ends: its kernel route goes and its entry is kept for DELETE_PERIOD. */
    method Invalidate(e: RoutingEntry, pair: Pair, now: Time)
      requires Holds(e) && Slot(e.destIp) == Slot(pair.destIp) && HasEntry(View(), pair.destIp)
      modifies this`threads, this`lastThread, this`kernel, this`activeRoutes, e
      ensures Valid() && View() == RecvMessages.Invalidate(old(View()), pair, now)
    {
      hide OnlySlot, Grows, Timely, RoutingTable.SetExpirationTimer, SaysRoute, IndexKept, Slot, NoNewSearch,
        RecvMessages.Invalidate, DropActive;
      e.destSeq := pair.destSeq;
      e.routeValid := false;
      kernel := kernel - {e.destIp};
      TableChanged(Slot(pair.destIp));
      ghost var marked := e.Value();
      InvalidateParts(old(View()), View(), pair, now);
      SetExpirationTimer(e, DELETE_PERIOD, now);
      DropActiveSame(View(), marked, e.Value());
      UncountRoute(e);
    }

    /** Record what has to be reported about an entry: the first lone precursor, or that there are more,
        and the pair in the buffer. */
    method CollectReport(e: RoutingEntry, destSeq: u32, single: u32, broadcast: bool, numDests: u8,
                         buffer: array<u32>, ghost stored: seq<Pair>)
      returns (single': u32, broadcast': bool, numDests': u8, ghost stored': seq<Pair>)
      requires ResendOk(Resend(single, broadcast, numDests, stored)) && Buffered(buffer[..], stored)
      requires numDests + 1 < buffer.Length
      modifies buffer
      ensures Resend(single', broadcast', numDests', stored') ==
              Collect(Resend(single, broadcast, numDests, stored), e.Value(), destSeq)
      ensures Buffered(buffer[..], stored') && |stored'| <= |stored| + 1
    {
      single', broadcast', numDests', stored' := single, broadcast, numDests, stored;
      if e.precursors != [] {
        if |e.precursors| == 1 && single == 0 {
          single' := e.precursors[0];
        } else {
          broadcast' := true;
        }
        buffer[numDests] := e.destIp;
        buffer[numDests + 1] := destSeq;
        numDests' := (numDests + 2) % 256;
        stored' := Store(stored, numDests / 2, Pair(e.destIp, destSeq));
      }
    }

    /** Send the collected pairs, to one neighbour or to all. */
    method SendRerr(single: u32, broadcast: bool, numDests: u8, buffer: array<u32>, ghost stored: seq<Pair>)
      returns (outs: seq<Out>)
      requires ResendOk(Resend(single, broadcast, numDests, stored)) && Buffered(buffer[..], stored)
      ensures outs == RecvMessages.SendRerr(Resend(single, broadcast, numDests, stored))
    {
      if numDests == 0 {
        return [];
      }
      UnpackBuffered(buffer[..], stored, numDests / 2);
      var packet := GenerateRerrMessageBuff(numDests / 2, buffer);
      RerrRoundTrip(stored[..numDests / 2], []);
      assert packet[..] + [] == packet[..];
      var sent := Dispatch(packet[..]);
      if single != 0 && !broadcast {
        outs := [Unicast(single, sent.value)];
      } else {
        outs := [Broadcast(sent.value)];
      }
    }

    /** recv_rerr: invalidate what is listed and hit, and report it. */
    method RecvRerr(senderIp: u32, pairs: seq<Pair>, now: Time) returns (outs: seq<Out>)
      requires Valid() && |pairs| < 256
      modifies this`threads, this`lastThread, this`kernel, this`activeRoutes, Entries()
      ensures Valid() && Effect(View(), outs) == RecvMessages.RecvRerr(old(View()), senderIp, pairs, now)
    {
      hide OnlySlot, Grows, Timely, RecvMessages.Invalidate, SaysRoute, IndexKept, Slot, NoNewSearch, Collect,
        RecvMessages.SendRerr, Buffered, EntryOf, HasEntry;
      var single: u32, broadcast, numDests: u8 := 0, false, 0;
      var buffer := new u32[2 * |pairs|];
      ghost var stored: seq<Pair> := [];
      NothingBuffered(buffer[..]);
      TableSame();
      for i := 0 to |pairs|
        invariant Valid() && Buffered(buffer[..], stored) && |stored| <= i
        invariant ResendOk(Resend(single, broadcast, numDests, stored))
        invariant ScanPairs(old(View()), senderIp, pairs, now, Resend(0, false, 0, [])) ==
                  ScanPairs(View(), senderIp, pairs[i..], now, Resend(single, broadcast, numDests, stored))
      {
        assert pairs[i..][0] == pairs[i] && pairs[i..][1..] == pairs[i + 1..];
        var invalidDest := GetRoutingEntry(pairs[i].destIp);
        if invalidDest != null && invalidDest.nextHop == senderIp && invalidDest.routeValid {
          label Hit:
          single, broadcast, numDests, stored :=
            CollectReport(invalidDest, pairs[i].destSeq, single, broadcast, numDests, buffer, stored);
          TableSame@Hit();
          Invalidate(invalidDest, pairs[i], now);
        }
      }
      assert pairs[|pairs|..] == [];
      label Scanned:
      outs := SendRerr(single, broadcast, numDests, buffer, stored);
      TableSame@Scanned();
    }

    // ---- routing_table.c: timers ----

    /** The entry a thread works on, while its slot still holds it. */
    ghost predicate WorksOn(id: nat, e: RoutingEntry)
      reads this`threads, routes
    {
      Holds(e) && id in threads && threads[id].slot == Slot(e.destIp)
    }

    /** expiration_func after its sleep. */
    method ExpirationFunc(id: nat, ownEntry: RoutingEntry, now: Time)
      requires WorksOn(id, ownEntry) && threads[id].Expiration?
      modifies this`threads, this`kernel, this`activeRoutes, routes, ownEntry
      ensures Valid() && Kept() && View() == RoutingTable.ExpirationFunc(old(View()), id, now)
    {
      hide OnlySlot, Grows, Timely, AddMs, WakeAt, SaysSame, IndexKept, Slot, NoNewSearch;
      if !ownEntry.routeValid {
        FreeEntry(id, ownEntry);
      } else {
        ExpireRoute(id, ownEntry, now);
      }
    }

    /** remove_routing_entry and free_entry, by the expiration thread that then ends. */
    method FreeEntry(id: nat, ownEntry: RoutingEntry)
      requires WorksOn(id, ownEntry)
      modifies this`threads, routes
      ensures Valid() && Kept()
      ensures View() == var n := old(View());
                        n.(table := n.table - {Slot(ownEntry.destIp)},
                           threads := n.threads - {ownEntry.rreqIdThread, ownEntry.messageSender, id})
    {
      hide Slot;
      EndThreads(id, ownEntry);
      TableSame();
      label Ended:
      routes[Slot(ownEntry.destIp)] := null;
      assert Table() == old@Ended(Table()) - {Slot(ownEntry.destIp)};
    }

    /** Cancel the other threads of an entry, and end this one. */
    method EndThreads(id: nat, ownEntry: RoutingEntry)
      requires Valid()
      modifies this`threads
      ensures Valid() && threads == old(threads) - {ownEntry.rreqIdThread, ownEntry.messageSender, id}
    {
      CancelThread(ownEntry.rreqIdThread);
      CancelThread(ownEntry.messageSender);
      threads := threads - {id};
      assert threads == old(threads) - {ownEntry.rreqIdThread, ownEntry.messageSender, id};
    }

    /** A valid entry becomes invalid and its thread sleeps on. */
    method ExpireRoute(id: nat, ownEntry: RoutingEntry, now: Time)
      requires WorksOn(id, ownEntry) && threads[id].Expiration? && ownEntry.routeValid
      modifies this`threads, this`kernel, this`activeRoutes, ownEntry
      ensures Valid() && View() == RoutingTable.ExpirationFunc(old(View()), id, now)
    {
      hide OnlySlot, Grows, Timely, AddMs, WakeAt, SaysSame, IndexKept, Slot, NoNewSearch, DropActive,
        RoutingTable.ExpirationFunc;
      var timeOut := DeadlineAfter(now, DELETE_PERIOD);
      TableSame();
      if ownEntry.seqValid {
        UncountRoute(ownEntry);
      }
      ExpireParts(old(View()), View(), id, now);
      SleepOn(id, ownEntry, now, timeOut);
    }

    /** Mark an entry invalid until a deadline, and let its timer wake up then. */
    method SleepOn(id: nat, ownEntry: RoutingEntry, now: Time, timeOut: Time)
      requires WorksOn(id, ownEntry)
      modifies this`threads, this`kernel, ownEntry`routeValid, ownEntry`timeOut
      ensures Valid()
      ensures View() == Expired(old(View()), id, old(ownEntry.Value()), now, timeOut)
    {
      hide WakeAt, Slot;
      kernel := kernel - {ownEntry.destIp};
      threads := threads[id := Expiration(Slot(ownEntry.destIp), WakeAt(now, timeOut))];
      ownEntry.routeValid, ownEntry.timeOut := false, timeOut;
      TableChanged(Slot(ownEntry.destIp));
    }

    method DeadlineAfter(now: Time, ms: u32) returns (deadline: Time)
      ensures deadline == AddMs(now, ms)
    {
      var timeOut := new Timespec(now);
      AddTimeMs(timeOut, ms);
      deadline := timeOut.Value();
    }

    /** rreq_id_func after its sleep. */
    method RreqIdFunc(id: nat, ownEntry: RoutingEntry)
      requires WorksOn(id, ownEntry) && threads[id].IdExpiry?
      modifies this`threads, ownEntry`rreqId, ownEntry`rreqIdThread
      ensures Valid() && View() == RoutingTable.RreqIdFunc(old(View()), id)
    {
      hide RoutesKept, OnlySlot, Grows, Slot, NoNewSearch;
      ownEntry.rreqId := 0;
      ownEntry.rreqIdThread := 0;
      threads := threads - {id};
      TableChanged(old(threads[id].slot));
    }

    // ---- send_messages.c: searches ----

    /** send_rreq up to its wait: start a search unless one is on or has just failed. */
    method SendRreq(dest: u32, now: Time, junk: u32) returns (verdict: Messages.Option<Verdict>)
      requires Valid()
      modifies this`threads, this`lastThread, routes, Entries()
      ensures Valid() && Kept()
      ensures View() == SendMessages.SendRreq(old(View()), dest, now, junk)
      ensures verdict == SearchVerdict(old(View()), dest)
    {
      hide OnlySlot, Grows, Timely, CreateOrGet, AddMs, SaysSame, SaysRoute, IndexKept, Slot, NoNewSearch, EntryOf,
        HasEntry, SendMessages.SendRreq, SearchVerdict;
      var e, isNew := CreateOrGetRoutingEntry(dest, 0, false, 0, 0, MY_ROUTE_TIMEOUT, now, junk);
      ghost var found := e.Value();
      if e.search == Failed && !e.routeValid {
        SendRreqRefused(old(View()), View(), dest, now, junk, found);
        return Some(Drop);
      }
      if e.search != Searching {
        StartSearch(e, isNew);
        SendRreqStarts(old(View()), View(), dest, now, junk, found);
      } else {
        SendRreqRefused(old(View()), View(), dest, now, junk, found);
      }
      return None;
    }

    /** Cancel the expiration of an entry and create its search thread. */
    method StartSearch(e: RoutingEntry, isNew: bool)
      requires Holds(e) && e.search != Searching && (isNew ==> e.expirationThread == 0)
      modifies this`threads, this`lastThread, e`expirationThread, e`search, e`messageSender
      ensures Valid()
      ensures View() == Started(old(View()), Slot(e.destIp), old(e.Value()))
    {
      hide Slot, Started;
      ghost var was := e.Value();
      var previous := if isNew then 0 else e.expirationThread;
      threads := ThreadsWithout(previous)[lastThread + 1 := SearchStart(Slot(e.destIp))];
      lastThread := lastThread + 1;
      e.BeSearched(lastThread);
      TableChanged(Slot(e.destIp));
      StartedParts(old(View()), View(), Slot(e.destIp), was);
    }

    /** send_rreq after its wait: on failure the entry soon expires, else the search is forgotten. */
    method SendRreqOutcome(dest: u32, now: Time) returns (verdict: Verdict)
      requires Valid() && HasEntry(View(), dest) && EntryOf(View(), dest).search != Searching
      modifies this`threads, this`lastThread, Entries()
      ensures Valid() && View() == SendMessages.SendRreqOutcome(old(View()), dest, now)
      ensures verdict == OutcomeVerdict(old(View()), dest)
    {
      hide OnlySlot, Grows, Timely, RoutesKept, RoutingTable.SetExpirationTimer, Slot, NoNewSearch;
      var e := GetRoutingEntry(dest);
      if e.search == Failed {
        SetExpirationTimer(e, 500, now);
        verdict := Drop;
      } else {
        e.search := NoSearch;
        TableChanged(Slot(dest));
        verdict := Accept;
      }
    }

    // ---- send_messages.c: the search thread ----

    /** What a search thread has still to send. */
    ghost predicate StillToSend(id: nat, e: RoutingEntry, rest: seq<Ring>)
      reads this`threads, routes
    {
      && WorksOn(id, e) && threads[id].RingSearch?
      && |threads[id].log| <= |threads[id].plan| && threads[id].plan[|threads[id].log|..] == rest
    }

    /** The prologue: take a new sequence number and fix the request. */
    method BeginSearch(id: nat, destEntry: RoutingEntry, now: Time)
      requires WorksOn(id, destEntry) && threads[id].SearchStart?
      modifies this`sequenceNum, this`threads
      ensures Valid() && View() == SendMessages.BeginSearch(old(View()), id, now)
      ensures StillToSend(id, destEntry, Plan(destEntry.hopCount))
    {
      hide Slot, Plan;
      sequenceNum := Incr(sequenceNum);
      var flags, destSeq := RREQ_GRAT, 0;
      if !destEntry.seqValid {
        flags := RREQ_GRAT + RREQ_UNKNOWN;
      } else {
        destSeq := destEntry.destSeq;
      }
      var request := Rreq(flags, 0, 0, sequenceNum, destEntry.destIp, destSeq, ip, sequenceNum);
      threads := threads[id := RingSearch(Slot(destEntry.destIp), now.Ns(), request, Plan(destEntry.hopCount), [])];
      TableSame();
    }

    /** One turn of either loop. */
    method SendRing(id: nat, destEntry: RoutingEntry, ttl: nat, waitMs: nat, ghost rest: seq<Ring>, now: Time)
      returns (sent: seq<Out>)
      requires StillToSend(id, destEntry, [Ring(ttl, waitMs)] + rest)
      modifies this`rreqIds, this`threads
      ensures old(|threads[id].log| < |threads[id].plan|)
      ensures StillToSend(id, destEntry, rest)
      ensures Effect(View(), sent) == SendMessages.SendRing(old(View()), id, now)
    {
      hide Slot;
      var t := threads[id];
      NextInPlan(t.plan, |t.log|, Ring(ttl, waitMs), rest);
      rreqIds := Incr(rreqIds);
      var request := t.request.(rreqId := rreqIds, ttl := ttl % 2048);
      sent := [Broadcast(RreqMessage(request))];
      threads := threads[id := t.(wake := now.Ns() + waitMs * MILLION, request := request, log := t.log + [request])];
      TableSame();
    }

    /** One turn of the thread left alone, and what is left for it to do. */
    method SendTurn(id: nat, destEntry: RoutingEntry, ttl: nat, waitMs: u32, ghost rest: seq<Ring>, now: Time)
      returns (sent: seq<Out>)
      requires StillToSend(id, destEntry, [Ring(ttl, waitMs)] + rest)
      modifies this`rreqIds, this`threads
      ensures StillToSend(id, destEntry, rest)
      ensures Undisturbed(old(View()), id, now) == Prepend(sent, Undisturbed(View(), id, AddMs(now, waitMs)))
    {
      hide Slot, AddMs, Undisturbed, SendMessages.SendRing;
      UndisturbedTurn(View(), id, now, Ring(ttl, waitMs), rest);
      sent := SendRing(id, destEntry, ttl, waitMs, rest, now);
    }

    /** The epilogue: nobody answered. */
    method FailSearch(id: nat, destEntry: RoutingEntry, now: Time)
      requires WorksOn(id, destEntry) && threads[id].RingSearch? && |threads[id].plan| <= |threads[id].log|
      modifies this`threads, this`lastThread, destEntry
      ensures Valid() && View() == SendMessages.FailSearch(old(View()), id, now)
      ensures Effect(View(), []) == Undisturbed(old(View()), id, now)
    {
      hide Slot, RoutingTable.SetExpirationTimer, OnlySlot, Grows, Timely, RoutesKept, NoNewSearch;
      threads := threads - {id};
      destEntry.messageSender, destEntry.search := 0, Failed;
      TableChanged(Slot(destEntry.destIp));
      SetExpirationTimer(destEntry, 2 * NET_TRAVERSAL_TIME, now);
    }

    /** The first loop: growing rings up to the threshold, each after the wait of the one before. */
    method SendRings(id: nat, destEntry: RoutingEntry, start: Time) returns (outs: seq<Out>, now: Time)
      requires StillToSend(id, destEntry, Plan(destEntry.hopCount))
      modifies this`rreqIds, this`threads
      ensures StillToSend(id, destEntry, Retries(0, 1))
      ensures Undisturbed(old(View()), id, start) == Prepend(outs, Undisturbed(View(), id, now))
    {
      hide Slot, AddMs, Undisturbed, Rings, Retries;
      outs, now := [], start;
      var ttl := FirstTtl(destEntry.hopCount);
      while ttl <= TTL_THRESHOLD
        invariant StillToSend(id, destEntry, Rings(ttl) + Retries(0, 1))
        invariant Undisturbed(old(View()), id, start) == Prepend(outs, Undisturbed(View(), id, now))
        decreases TTL_THRESHOLD + TTL_INCREMENT - ttl
      {
        var waitMs: u32 := RingTraversalTime(ttl);
        NextRing(ttl);
        var sent := SendTurn(id, destEntry, ttl, waitMs, Rings(ttl + TTL_INCREMENT) + Retries(0, 1), now);
        outs := outs + sent;
        now := AddMs(now, waitMs);
        ttl := ttl + TTL_INCREMENT;
      }
      NoMoreRings(ttl);
    }

    /** The second loop: network-wide attempts, each waiting twice as long as the one before. */
    method SendRetries(id: nat, destEntry: RoutingEntry, start: Time) returns (outs: seq<Out>, now: Time)
      requires StillToSend(id, destEntry, Retries(0, 1))
      modifies this`rreqIds, this`threads
      ensures StillToSend(id, destEntry, [])
      ensures Undisturbed(old(View()), id, start) == Prepend(outs, Undisturbed(View(), id, now))
    {
      hide Slot, AddMs, Undisturbed, Retries;
      outs, now := [], start;
      var fallOff := 1;
      for i := 0 to RREQ_RETRIES + 1
        invariant fallOff == [1, 2, 4, 8][i] && StillToSend(id, destEntry, Retries(i, fallOff))
        invariant Undisturbed(old(View()), id, start) == Prepend(outs, Undisturbed(View(), id, now))
      {
        var waitMs: u32 := NET_TRAVERSAL_TIME * fallOff;
        NextRetry(i, fallOff);
        var sent := SendTurn(id, destEntry, NET_DIAMETER, waitMs, Retries(i + 1, 2 * fallOff), now);
        outs := outs + sent;
        now := AddMs(now, waitMs);
        fallOff := 2 * fallOff;
      }
      NextRetry(RREQ_RETRIES + 1, 8);
    }

    /** send_rreq_thread when nothing cancels it. */
    method SendRreqThread(id: nat, destEntry: RoutingEntry, start: Time) returns (outs: seq<Out>)
      requires WorksOn(id, destEntry) && threads[id].SearchStart?
      modifies this`sequenceNum, this`rreqIds, this`threads, this`lastThread, destEntry
      ensures Valid()
      ensures Effect(View(), outs) == Undisturbed(SendMessages.BeginSearch(old(View()), id, start), id, start)
    {
      hide Slot, SendMessages.BeginSearch, SendMessages.FailSearch, Undisturbed, Plan, Retries, Rings, FirstTtl;
      BeginSearch(id, destEntry, start);
      var now;
      outs, now := SendRings(id, destEntry, start);
      var more;
      more, now := SendRetries(id, destEntry, now);
      outs := outs + more;
      FailSearch(id, destEntry, now);
    }

    // ---- AODV.c ----

    method IncomingDataMessage(src: u32, dest: u32, now: Time) returns (verdict: Verdict)
      requires Valid()
      modifies this`threads, this`lastThread, Entries()
      ensures Valid() && View() == Callbacks.IncomingDataMessage(old(View()), src, dest, now)
      ensures verdict == Accept
    {
      hide Slot, RoutingTable.SetExpirationTimer, OnlySlot, Grows, Timely, RoutesKept, NoNewSearch;
      var originator := GetRoutingEntry(src);
      if dest == ip {
        if originator != null {
          SetExpirationTimer(originator, ACTIVE_ROUTE_TIMEOUT, now);
        }
      }
      return Accept;
    }

    /** Give up the route of an entry whose next hop is lost. */
    method LoseRoute(destination: RoutingEntry, dest: u32, now: Time)
      requires Holds(destination) && Slot(destination.destIp) == Slot(dest) && HasEntry(View(), dest)
      modifies this`threads, this`lastThread, this`kernel, this`activeRoutes, destination
      ensures Valid() && View() == Callbacks.LoseRoute(old(View()), dest, now)
    {
      hide Slot, RoutingTable.SetExpirationTimer, OnlySlot, Grows, Timely, SaysSame, SaysRoute, IndexKept,
        NoNewSearch, DropActive, Callbacks.LoseRoute;
      destination.routeValid := false;
      kernel := kernel - {destination.destIp};
      TableChanged(Slot(dest));
      ghost var n1 := View();
      UncountRoute(destination);
      LoseRouteParts(old(View()), n1, View(), dest, now);
      SetExpirationTimer(destination, DELETE_PERIOD, now);
    }

    /** Does the entry lead somewhere: to a neighbour, or through a valid next hop? */
    predicate Leads(destination: RoutingEntry)
      requires Valid()
      reads this, routes, Entries(), destination
      ensures Leads(destination) <==> NextHopUsable(View(), destination.Value())
    {
      || destination.nextHop == destination.destIp
      || var nextHop := GetRoutingEntry(destination.nextHop); nextHop != null && nextHop.routeValid
    }

    method OutgoingMessage(dest: u32, now: Time, junk: u32) returns (verdict: Messages.Option<Verdict>)
      requires Valid()
      modifies this`threads, this`lastThread, this`kernel, this`activeRoutes, routes, Entries()
      ensures Valid() && Kept()
      ensures View() == Callbacks.OutgoingMessage(old(View()), dest, now, junk)
      ensures verdict == OutgoingVerdict(old(View()), dest, now)
    {
      hide Slot, RoutingTable.SetExpirationTimer, OnlySlot, Grows, Timely, SaysSame, SaysRoute, IndexKept,
        NoNewSearch, RoutesKept, Callbacks.LoseRoute, SendMessages.SendRreq, NextHopUsable;
      if dest == broadcastIp || dest == ip {
        return Some(Accept);
      }
      var destination := GetRoutingEntry(dest);
      if destination != null && destination.routeValid && destination.seqValid && Leads(destination) {
        if destination.nextHop == destination.destIp {
          SetExpirationTimer(destination, ACTIVE_ROUTE_TIMEOUT, now);
        }
        return Some(Accept);
      }
      if destination != null && destination.routeValid && destination.seqValid {
        LoseRoute(destination, dest, now);
      }
      verdict := SendRreq(dest, now, junk);
    }

    /** forwarded_messages, except for the repair of a broken link. */
    method ForwardedMessages(src: u32, dest: u32, now: Time) returns (outs: seq<Out>, verdict: Verdict)
      requires Valid() && !LinkBreak(View(), dest)
      modifies this`threads, this`lastThread, Entries()
      ensures Valid() && Effect(View(), outs) == Callbacks.ForwardedMessages(old(View()), src, dest, now)
      ensures verdict == ForwardVerdict(old(View()), dest)
    {
      hide Slot, RoutingTable.SetExpirationTimer, OnlySlot, Grows, Timely, RoutesKept, NoNewSearch;
      var destination := GetRoutingEntry(dest);
      var srcEntry := GetRoutingEntry(src);
      if destination == null {
        return [Broadcast(RerrMessage([Pair(dest, 0)]))], Drop;
      }
      var destHop := GetRoutingEntry(destination.nextHop);
      if destHop != null && destination.routeValid && destHop.routeValid {
        SetExpirationTimer(destination, ACTIVE_ROUTE_TIMEOUT, now);
        if srcEntry != null {
          SetExpirationTimer(srcEntry, ACTIVE_ROUTE_TIMEOUT, now);
        }
        return [], Accept;
      }
      return [Broadcast(RerrMessage([Pair(dest, destination.destIp)]))], Drop;
    }

    /** incoming_control_message: own messages and unknown types are ignored, the rest goes to its receiver. */
    method IncomingControlMessage(src: u32, payload: array<u32>, now: Time, junk: u32, junk': u32)
      returns (outs: seq<Out>)
      requires Valid() && payload.Length > 0
      modifies this, routes, Entries(), payload
      ensures Valid() && Kept()
      ensures Effect(View(), outs) == match Received(src, old(payload[..]), junk, junk')
                                      case Some(ev) =>
                                        if src != ip then Apply(old(View()), ev, now) else Effect(old(View()), [])
                                      case None => Effect(old(View()), [])
    {
      hide RecvMessages.RecvRreq, RecvMessages.RecvRrep, RecvMessages.RecvRerr;
      outs := [];
      if src != ip {
        match Dispatch(payload[..])
        case Some(RreqMessage(_)) => outs := RecvRreq(src, payload, now, junk, junk');
        case Some(RrepMessage(_)) => outs := RecvRrep(src, payload, now, junk, junk');
        case Some(RerrMessage(pairs)) => outs := RecvRerr(src, pairs, now);
        case None =>
      }
    }

    // ---- All events ----

    /** The turn of a thread whose sleep is over. */
    method RunThread(id: nat, now: Time) returns (outs: seq<Out>)
      requires Valid() && Enabled(View(), Wake(id), now)
      modifies this, routes, Entries()
      ensures Valid() && Kept()
      ensures Effect(View(), outs) == Run(old(View()), id, now)
    {
      hide Slot, RoutingTable.ExpirationFunc, RoutingTable.RreqIdFunc, SendMessages.BeginSearch,
        SendMessages.SendRing, SendMessages.FailSearch, Undisturbed, Timely, RoutesKept, OnlySlot, Plan, SaysSame,
        IndexKept;
      outs := [];
      var t := threads[id];
      var e := routes[t.slot];
      match t
      case Expiration(_, _) => ExpirationFunc(id, e, now);
      case IdExpiry(_, _) => RreqIdFunc(id, e);
      case SearchStart(_) => BeginSearch(id, e, now);
      case RingSearch(_, _, _, plan, log) =>
        if |log| < |plan| {
          outs := SendRing(id, e, plan[|log|].ttl, plan[|log|].waitMs, plan[|log| + 1..], now);
        } else {
          FailSearch(id, e, now);
        }
    }

    /** hello_interval, from one of its waits to the next. */
    method HelloInterval(now: Time) returns (outs: seq<Out>)
      requires Valid() && Enabled(View(), HelloTick, now)
      modifies this`hello
      ensures Valid() && Effect(View(), outs) == Callbacks.HelloInterval(old(View()), now)
    {
      outs := [];
      match hello
      case Waiting => hello := Sleeping(now.Ns() + HELLO_INTERVAL * MILLION);
      case Sleeping(_) =>
        hello := Waiting;
        outs := [Broadcast(RrepMessage(Rrep(0, 0, ip, sequenceNum, 0, ALLOWED_HELLO_LOSS * HELLO_INTERVAL)))];
      TableSame();
    }

    static method Packet(words: seq<u32>) returns (packet: array<u32>)
      ensures fresh(packet) && packet[..] == words && packet[..] == words + []
    {
      packet := new u32[|words|](i requires 0 <= i < |words| => words[i]);
    }

    /** Whatever happens to the daemon, it does what the event does to its value. */
    method Handle(ev: Event, now: Time) returns (outs: seq<Out>)
      requires Valid() && Enabled(View(), ev, now)
      modifies this, routes, Entries()
      ensures Valid() && Kept()
      ensures Effect(View(), outs) == Apply(old(View()), ev, now)
    {
      hide RecvMessages.RecvRreq, RecvMessages.RecvRrep, RecvMessages.RecvRerr, Callbacks.IncomingDataMessage,
        Callbacks.ForwardedMessages, Callbacks.OutgoingMessage, SendMessages.SendRreqOutcome, Run, LinkBreak, Slot;
      outs := [];
      match ev
      case ReceiveRreq(sender, m, junk) =>
        var packet := Packet(PackRreq(m));
        RreqRoundTrip(m, []);
        TableSame();
        outs := RecvRreq(sender, packet, now, junk, junk);
      case ReceiveRrep(sender, m, junk, junk') =>
        var packet := Packet(PackRrep(m, 0));
        RrepRoundTrip(m, 0, []);
        TableSame();
        outs := RecvRrep(sender, packet, now, junk, junk');
      case ReceiveRerr(sender, pairs) => outs := RecvRerr(sender, pairs, now);
      case DataIn(src, dest) => var _ := IncomingDataMessage(src, dest, now);
      case DataThrough(src, dest) => var verdict; outs, verdict := ForwardedMessages(src, dest, now);
      case DataOut(dest, junk) => var _ := OutgoingMessage(dest, now, junk);
      case SearchOver(dest) => var _ := SendRreqOutcome(dest, now);
      case Wake(id) => outs := RunThread(id, now);
      case HelloTick => outs := HelloInterval(now);
    }
  }

  // ---- What the methods leave to show about values ----

  /** The buffer holds the pairs as consecutive words. */
  predicate Buffered(words: seq<u32>, stored: seq<Pair>) {
    && 2 * |stored| <= |words|
    && forall k :: 0 <= k < |stored| ==> words[2 * k] == stored[k].destIp && words[2 * k + 1] == stored[k].destSeq
  }

  lemma NothingBuffered(words: seq<u32>)
    ensures Buffered(words, [])
  {
  }

  lemma BufferedRest(words: seq<u32>, stored: seq<Pair>)
    requires Buffered(words, stored) && stored != []
    ensures words[0] == stored[0].destIp && words[1] == stored[0].destSeq && Buffered(words[2..], stored[1..])
  {
    assert words[2 * 0] == stored[0].destIp && words[2 * 0 + 1] == stored[0].destSeq;
    forall k | 0 <= k < |stored[1..]|
      ensures words[2..][2 * k] == stored[1..][k].destIp && words[2..][2 * k + 1] == stored[1..][k].destSeq
    {
      assert words[2 * (k + 1)] == stored[k + 1].destIp && words[2 * (k + 1) + 1] == stored[k + 1].destSeq;
    }
  }

  lemma {:induction false} UnpackBuffered(words: seq<u32>, stored: seq<Pair>, count: nat)
    requires Buffered(words, stored) && count <= |stored|
    ensures UnpackPairs(words, count) == stored[..count]
  {
    if count == 0 {
    } else {
      BufferedRest(words, stored);
      hide Buffered;
      UnpackBuffered(words[2..], stored[1..], count - 1);
      assert stored[..count] == [stored[0]] + stored[1..][..count - 1];
    }
  }

  /** n' is n with the entry in slot s stored. */
  predicate Stored(n: Node, n': Node, s: u8, e: Entry) {
    n' == n.(table := n'.table) && n'.table == n.table[s := e]
  }

  lemma PreviousHopParts(n: Node, n1: Node, sender: u32, about: u32, now: Time, junk: u32, found: Entry)
    requires found == CreateOrGet(n, sender, 0, false, sender, 0, ACTIVE_ROUTE_TIMEOUT, now, junk)
    requires Stored(AddRoute(n, sender), n1, Slot(sender), Neighbour(found, about, !HasEntry(n, sender), now))
    ensures var e := Neighbour(found, about, !HasEntry(n, sender), now);
            RoutingTable.SetExpirationTimer(n1, Slot(sender), e, 0, now) == PreviousHop(n, sender, about, now, junk)
  {
    TimerOverwrites(AddRoute(n, sender), n1, Slot(sender), Neighbour(found, about, !HasEntry(n, sender), now), 0, now);
  }

  lemma OriginatorParts(n: Node, n1: Node, sender: u32, m: Rreq, now: Time, junk: u32, found: Entry)
    requires found == CreateOrGet(n, m.srcIp, m.srcSeq, true, sender, m.hopCount, 0, now, junk).(rreqId := m.rreqId)
    requires Stored(n, n1, Slot(m.srcIp), found)
    ensures RoutingTable.StartRreqTimer(n1, Slot(m.srcIp), found, now) == Originator(n, sender, m, now)
  {
    IdTimerOverwrites(n, n1, Slot(m.srcIp), found, now);
  }

  lemma ReverseRouteParts(n: Node, n1: Node, n2: Node, sender: u32, m: Rreq, now: Time)
    requires n1 == Originator(n, sender, m, now)
    requires var e := UpdateReverse(n1.table[Slot(m.srcIp)], !HasEntry(n, m.srcIp), sender, m).(routeValid := true);
             Stored(AddRoute(n1, e.destIp), n2, Slot(m.srcIp), e)
    ensures var e := UpdateReverse(n1.table[Slot(m.srcIp)], !HasEntry(n, m.srcIp), sender, m).(routeValid := true);
            RoutingTable.SetExpirationTimer(n2, Slot(m.srcIp), e, ReverseLifetime(now, e.timeOut, m.hopCount), now)
            == ReverseRoute(n, sender, m, now)
  {
    hide RoutingTable.SetExpirationTimer, ReverseLifetime, Originator;
    var s := Slot(m.srcIp);
    var e := UpdateReverse(n1.table[s], !HasEntry(n, m.srcIp), sender, m).(routeValid := true);
    TimerOverwrites(AddRoute(n1, e.destIp), n2, s, e, ReverseLifetime(now, e.timeOut, m.hopCount), now);
  }

  /** The entry of thread id invalid until a deadline, when the thread wakes up. */
  ghost function Expired(n: Node, id: nat, e: Entry, now: Time, timeOut: Time): Node
    requires id in n.threads
  {
    var s := n.threads[id].slot;
    n.(table := n.table[s := e.(routeValid := false, timeOut := timeOut)],
       kernel := n.kernel - {e.destIp},
       threads := n.threads[id := Expiration(s, WakeAt(now, timeOut))])
  }

  lemma ExpireParts(n: Node, n1: Node, id: nat, now: Time)
    requires id in n.threads && n.threads[id].Expiration? && n.threads[id].slot in n.table
    requires var e := n.table[n.threads[id].slot]; e.routeValid && n1 == if e.seqValid then DropActive(n, e) else n
    ensures RoutingTable.ExpirationFunc(n, id, now) ==
            Expired(n1, id, n.table[n.threads[id].slot], now, AddMs(now, DELETE_PERIOD))
  {
  }

  lemma InvalidateParts(n: Node, n1: Node, pair: Pair, now: Time)
    requires HasEntry(n, pair.destIp)
    requires var e := EntryOf(n, pair.destIp).(destSeq := pair.destSeq, routeValid := false);
             Stored(DeleteRoute(n, e.destIp), n1, Slot(pair.destIp), e)
    ensures var e := EntryOf(n, pair.destIp).(destSeq := pair.destSeq, routeValid := false);
            DropActive(RoutingTable.SetExpirationTimer(n1, Slot(pair.destIp), e, DELETE_PERIOD, now), e)
            == RecvMessages.Invalidate(n, pair, now)
  {
    var e := EntryOf(n, pair.destIp).(destSeq := pair.destSeq, routeValid := false);
    TimerOverwrites(DeleteRoute(n, e.destIp), n1, Slot(pair.destIp), e, DELETE_PERIOD, now);
  }

  lemma DropActiveSame(n: Node, e: Entry, e': Entry)
    requires e.activeRoute == e'.activeRoute
    ensures DropActive(n, e) == DropActive(n, e')
  {
  }

  lemma UndisturbedTurn(n: Node, id: nat, now: Time, ring: Ring, rest: seq<Ring>)
    requires id in n.threads && n.threads[id].RingSearch? && n.threads[id].slot in n.table
    requires var t := n.threads[id]; |t.log| <= |t.plan| && t.plan[|t.log|..] == [ring] + rest
    ensures |n.threads[id].log| < |n.threads[id].plan|
    ensures var sent := SendMessages.SendRing(n, id, now);
            Undisturbed(n, id, now) == Prepend(sent.outs, Undisturbed(sent.node, id, AddMs(now, Wrap(ring.waitMs))))
  {
    hide AddMs, SendMessages.FailSearch;
    NextInPlan(n.threads[id].plan, |n.threads[id].log|, ring, rest);
  }

  lemma NextInPlan(plan: seq<Ring>, i: nat, ring: Ring, rest: seq<Ring>)
    requires i <= |plan| && plan[i..] == [ring] + rest
    ensures i < |plan| && plan[i] == ring && plan[i + 1..] == rest
  {
    assert plan[i] == plan[i..][0];
    assert plan[i + 1..] == plan[i..][1..] == rest;
  }

  lemma NextRing(ttl: nat)
    requires ttl <= TTL_THRESHOLD
    ensures Rings(ttl) + Retries(0, 1)
         == [Ring(ttl, RingTraversalTime(ttl))] + (Rings(ttl + TTL_INCREMENT) + Retries(0, 1))
  {
    hide Retries;
  }

  lemma NoMoreRings(ttl: nat)
    requires ttl > TTL_THRESHOLD
    ensures Rings(ttl) + Retries(0, 1) == Retries(0, 1)
  {
  }

  lemma NextRetry(i: nat, fallOff: nat)
    ensures Retries(i, fallOff) ==
            if i > RREQ_RETRIES then []
            else [Ring(NET_DIAMETER, NET_TRAVERSAL_TIME * fallOff)] + Retries(i + 1, 2 * fallOff)
  {
  }

  /** The event a payload stands for. */
  function Received(sender: u32, payload: seq<u32>, junk: u32, junk': u32): (r: Option<Event>)
    requires |payload| > 0
    ensures r.Some? && r.value.ReceiveRerr? ==> |r.value.pairs| < 256
  {
    match Dispatch(payload)
    case Some(RreqMessage(m)) => Some(ReceiveRreq(sender, m, junk))
    case Some(RrepMessage(m)) => Some(ReceiveRrep(sender, m, junk, junk'))
    case Some(RerrMessage(pairs)) => Some(ReceiveRerr(sender, pairs))
    case None => None
  }

  lemma LoseRouteParts(n: Node, n1: Node, n2: Node, dest: u32, now: Time)
    requires HasEntry(n, dest)
    requires var e := EntryOf(n, dest).(routeValid := false);
             Stored(DeleteRoute(n, e.destIp), n1, Slot(dest), e) && n2 == DropActive(n1, e)
    ensures RoutingTable.SetExpirationTimer(n2, Slot(dest), EntryOf(n, dest).(routeValid := false), DELETE_PERIOD, now)
            == Callbacks.LoseRoute(n, dest, now)
  {
    var e := EntryOf(n, dest).(routeValid := false);
    TimerOverwrites(DropActive(DeleteRoute(n, e.destIp), e), n2, Slot(dest), e, DELETE_PERIOD, now);
  }

  /** A search thread for slot s in place of the expiration. */
  ghost function Started(n: Node, s: u8, e: Entry): Node {
    var id := n.lastThread + 1;
    n.(table := n.table[s := e.(expirationThread := 0, search := Searching, messageSender := id)],
       threads := (n.threads - {e.expirationThread})[id := SearchStart(s)],
       lastThread := id)
  }

  lemma SendRreqStarts(n: Node, r: Node, dest: u32, now: Time, junk: u32, found: Entry)
    requires found == CreateOrGet(n, dest, 0, false, 0, 0, MY_ROUTE_TIMEOUT, now, junk)
    requires found.search != Searching && !(found.search == Failed && !found.routeValid)
    requires r == Started(n.(table := n.table[Slot(dest) := found]), Slot(dest), found)
    ensures r == SendMessages.SendRreq(n, dest, now, junk) && SearchVerdict(n, dest) == None
  {
    assert r.table == n.table[Slot(dest) := r.table[Slot(dest)]];
  }

  lemma SendRreqRefused(n: Node, r: Node, dest: u32, now: Time, junk: u32, found: Entry)
    requires found == CreateOrGet(n, dest, 0, false, 0, 0, MY_ROUTE_TIMEOUT, now, junk)
    requires found.search == Searching || (found.search == Failed && !found.routeValid)
    requires r == n.(table := n.table[Slot(dest) := found])
    ensures r == SendMessages.SendRreq(n, dest, now, junk)
    ensures SearchVerdict(n, dest) == if found.search == Failed && !found.routeValid then Some(Drop) else None
  {
    assert r.table == n.table;
  }

  lemma HelloParts(n: Node, n1: Node, sender: u32, m: Rrep, now: Time, junk: u32, found: Entry)
    requires found == CreateOrGet(n, m.destIp, m.destSeq, true, sender, m.hopCount, m.lifetime, now, junk)
    requires !HasEntry(n, m.destIp) || !found.seqValid || SeqCompare(m.destSeq, found.destSeq) >= 0
    requires Stored(n, n1, Slot(m.destIp), found.(seqValid := true, destSeq := m.destSeq))
    ensures var e := found.(seqValid := true, destSeq := m.destSeq);
            RoutingTable.SetExpirationTimer(n1, Slot(m.destIp), e, m.lifetime, now) == Hello(n, sender, m, now, junk)
  {
    hide SeqCompare;
    TimerOverwrites(n, n1, Slot(m.destIp), found.(seqValid := true, destSeq := m.destSeq), m.lifetime, now);
  }

  lemma HelloRefused(n: Node, sender: u32, m: Rrep, now: Time, junk: u32, found: Entry)
    requires HasEntry(n, m.destIp)
    requires found == CreateOrGet(n, m.destIp, m.destSeq, true, sender, m.hopCount, m.lifetime, now, junk)
    requires found.seqValid && SeqCompare(m.destSeq, found.destSeq) < 0
    ensures Hello(n, sender, m, now, junk) == n == n.(table := n.table[Slot(m.destIp) := found])
  {
    assert n.table[Slot(m.destIp) := found] == n.table;
  }

  lemma ForwardRouteParts(n: Node, n1: Node, sender: u32, m: Rrep, now: Time, junk: u32, found: Entry)
    requires found == CreateOrGet(n, m.destIp, m.destSeq, true, sender, m.hopCount, m.lifetime, now, junk)
    requires Stored(AddRoute(n, m.destIp), n1, Slot(m.destIp), UpdateForward(found, !HasEntry(n, m.destIp), sender, m))
    ensures var e := UpdateForward(found, !HasEntry(n, m.destIp), sender, m);
            var n2 := RoutingTable.SetExpirationTimer(n1, Slot(m.destIp), e, m.lifetime, now);
            RecvMessages.Activate(n2, Slot(m.destIp)) == ForwardRoute(n, sender, m, now, junk)
  {
    hide SeqCompare, RecvMessages.Activate;
    var e := UpdateForward(found, !HasEntry(n, m.destIp), sender, m);
    TimerOverwrites(AddRoute(n, m.destIp), n1, Slot(m.destIp), e, m.lifetime, now);
  }

  /** A new expiration for slot s with this deadline. */
  ghost function TimerAt(n: Node, s: u8, e: Entry, timeOut: Time, now: Time): Node {
    var id := n.lastThread + 1;
    n.(table := n.table[s := e.(timeOut := timeOut, expirationThread := id)],
       threads := (n.threads - {e.expirationThread})[id := Expiration(s, WakeAt(now, timeOut))],
       lastThread := id)
  }

  lemma TimerAtParts(n: Node, r: Node, s: u8, e: Entry, timeOut: Time, now: Time)
    requires var id := n.lastThread + 1;
             && r.table == n.table[s := e.(timeOut := timeOut, expirationThread := id)]
             && r.threads == (n.threads - {e.expirationThread})[id := Expiration(s, WakeAt(now, timeOut))]
             && r == n.(table := r.table, threads := r.threads, lastThread := id)
    ensures r == TimerAt(n, s, e, timeOut, now)
  {
  }

  lemma TimerParts(n: Node, s: u8, e: Entry, ms: u32, now: Time)
    requires s in n.table && n.table[s] == e
    ensures RoutingTable.SetExpirationTimer(n, s, e, ms, now) ==
            TimerAt(n, s, e, if ms != 0 then AddMs(now, ms) else e.timeOut, now)
  {
  }

  lemma IdTimerParts(n: Node, r: Node, s: u8, e: Entry, now: Time)
    requires s in n.table && n.table[s] == e
    requires var id := n.lastThread + 1;
             && r.table == n.table[s := e.(rreqIdThread := id)]
             && r.threads == (n.threads - {e.rreqIdThread})[id := IdExpiry(s, now.Ns() + PATH_DISCOVERY_TIME * MILLION)]
             && r == n.(table := r.table, threads := r.threads, lastThread := id)
    ensures r == RoutingTable.StartRreqTimer(n, s, e, now)
  {
  }

  lemma StartedParts(n: Node, r: Node, s: u8, e: Entry)
    requires var id := n.lastThread + 1;
             && r.table == n.table[s := e.(expirationThread := 0, search := Searching, messageSender := id)]
             && r.threads == (n.threads - {e.expirationThread})[id := SearchStart(s)]
             && r == n.(table := r.table, threads := r.threads, lastThread := id)
    ensures r == Started(n, s, e)
  {
  }

  /** The entry a timer is set for need not have been stored before. */
  lemma TimerOverwrites(n: Node, n': Node, s: u8, e: Entry, ms: u32, now: Time)
    requires (s in n.table ==> Grows(n.table[s], e)) && Stored(n, n', s, e)
    ensures RoutingTable.SetExpirationTimer(n', s, e, ms, now) == RoutingTable.SetExpirationTimer(n, s, e, ms, now)
  {
    var r := RoutingTable.SetExpirationTimer(n, s, e, ms, now);
    assert n'.table[s := r.table[s]] == n.table[s := r.table[s]];
  }

  lemma IdTimerOverwrites(n: Node, n': Node, s: u8, e: Entry, now: Time)
    requires (s in n.table ==> Grows(n.table[s], e)) && Stored(n, n', s, e)
    ensures RoutingTable.StartRreqTimer(n', s, e, now) == RoutingTable.StartRreqTimer(n, s, e, now)
  {
    var r := RoutingTable.StartRreqTimer(n, s, e, now);
    assert n'.table[s := r.table[s]] == n.table[s := r.table[s]];
  }
}
