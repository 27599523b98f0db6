/** Every event is a short sequence of operations, each touching the entry in one slot
    (or only annotating entries): what all operations keep, all events keep. */
module Operations {
  import opened Aodv
  import opened Messages
  import opened TimeFuncs
  import opened RoutingTable
  import opened SendMessages
  import opened RecvMessages
  import opened Callbacks

  datatype Operation =
    | MeetSender(sender: u32, about: u32, junk: u32)
    | MakeReverse(sender: u32, rreq: Rreq)
    | MakeForward(sender: u32, rrep: Rrep, junk: u32)
    | Greet(sender: u32, rrep: Rrep, junk: u32)
    | EndSearch(rrep: Rrep)
    | Annotate(result: Node)
    | Break(pair: Pair)
    | Refresh(ip: u32)
    | Lose(dest: u32)
    | Ask(dest: u32, junk: u32)
    | Conclude(dest: u32)
    | Thread(id: nat)

  ghost predicate Allowed(n: Node, op: Operation, now: Time) {
    match op
    case Annotate(r) => Annotated(n, r)
    case Break(pair) => HasEntry(n, pair.destIp)
    case Refresh(ip) => HasEntry(n, ip)
    case Lose(dest) => HasEntry(n, dest)
    case Conclude(dest) => HasEntry(n, dest) && EntryOf(n, dest).search != Searching
    case Thread(id) => Enabled(n, Wake(id), now)
    case _ => true
  }

  ghost function Do(n: Node, op: Operation, now: Time): Node
    requires Allowed(n, op, now)
  {
    match op
    case MeetSender(sender, about, junk) => PreviousHop(n, sender, about, now, junk)
    case MakeReverse(sender, m) => ReverseRoute(n, sender, m, now)
    case MakeForward(sender, m, junk) => ForwardRoute(n, sender, m, now, junk)
    case Greet(sender, m, junk) => Hello(n, sender, m, now, junk)
    case EndSearch(m) => StopSearch(n, m)
    case Annotate(r) => r
    case Break(pair) => Invalidate(n, pair, now)
    case Refresh(ip) => RefreshRoute(n, ip, now)
    case Lose(dest) => LoseRoute(n, dest, now)
    case Ask(dest, junk) => SendRreq(n, dest, now, junk)
    case Conclude(dest) => SendRreqOutcome(n, dest, now)
    case Thread(id) => Run(n, id, now).node
  }

  ghost predicate AllAllowed(n: Node, ops: seq<Operation>, now: Time)
    decreases |ops|
  {
    ops != [] ==> Allowed(n, ops[0], now) && AllAllowed(Do(n, ops[0], now), ops[1..], now)
  }

  ghost function DoAll(n: Node, ops: seq<Operation>, now: Time): Node
    requires AllAllowed(n, ops, now)
    decreases |ops|
  {
    if ops == [] then n else DoAll(Do(n, ops[0], now), ops[1..], now)
  }

  // ---- The operations of an event ----

  ghost function RreqOperations(n: Node, sender: u32, message: Rreq, now: Time, junk: u32): seq<Operation> {
    var n1 := PreviousHop(n, sender, message.srcIp, now, junk);
    var m := message.(hopCount := NextHopCount(message.hopCount));
    [MeetSender(sender, message.srcIp, junk)] +
    if message.srcIp == n.ip || AlreadySeen(n1, message) then []
    else [MakeReverse(sender, m), Annotate(Answer(ReverseRoute(n1, sender, m, now), sender, m, now).node)]
  }

  ghost function RrepOperations(n: Node, sender: u32, message: Rrep, now: Time, junk: u32, junk': u32): seq<Operation> {
    var n1 := StopSearch(n, message);
    var m := message.(hopCount := NextHopCount(message.hopCount));
    [EndSearch(message)] +
    if m.srcIp == 0 then [Greet(sender, m, junk)]
    else
      var n3 := ForwardRoute(PreviousHop(n1, sender, m.destIp, now, junk), sender, m, now, junk');
      [MeetSender(sender, m.destIp, junk), MakeForward(sender, m, junk'), Annotate(ForwardReply(n3, m).node)]
  }

  ghost function RerrOperations(n: Node, sender: u32, pairs: seq<Pair>, now: Time): seq<Operation>
    decreases |pairs|
  {
    if pairs == [] then []
    else if Hit(n, sender, pairs[0]) then
      [Break(pairs[0])] + RerrOperations(Invalidate(n, pairs[0], now), sender, pairs[1..], now)
    else RerrOperations(n, sender, pairs[1..], now)
  }

  ghost function OperationsOf(n: Node, ev: Event, now: Time): seq<Operation>
    requires Enabled(n, ev, now)
  {
    match ev
    case ReceiveRreq(sender, m, junk) => RreqOperations(n, sender, m, now, junk)
    case ReceiveRrep(sender, m, junk, junk') => RrepOperations(n, sender, m, now, junk, junk')
    case ReceiveRerr(sender, pairs) => RerrOperations(n, sender, pairs, now)
    case DataIn(src, dest) => if dest == n.ip && HasEntry(n, src) then [Refresh(src)] else []
    case DataThrough(src, dest) =>
      if ForwardedMessages(n, src, dest, now).outs != [] then []
      else [Refresh(dest)] + if HasEntry(n, src) then [Refresh(src)] else []
    case DataOut(dest, junk) =>
      if dest == n.broadcastIp || dest == n.ip then []
      else if Active(n, dest) && NextHopUsable(n, EntryOf(n, dest)) then
        if EntryOf(n, dest).nextHop == EntryOf(n, dest).destIp then [Refresh(dest)] else []
      else (if Active(n, dest) then [Lose(dest)] else []) + [Ask(dest, junk)]
    case SearchOver(dest) => [Conclude(dest)]
    case Wake(id) => [Thread(id)]
    case HelloTick => [Annotate(HelloInterval(n, now).node)]
  }

  lemma RreqIsOperations(n: Node, sender: u32, message: Rreq, now: Time, junk: u32)
    ensures var ops := RreqOperations(n, sender, message, now, junk);
            AllAllowed(n, ops, now) && DoAll(n, ops, now) == RecvRreq(n, sender, message, now, junk).node
  {
    hide PreviousHop, ReverseRoute, Answer, AlreadySeen, Timely, SaysSame, SaysRoute, SearchKept, IndexKept,
      RoutesKept, NoNewSearch, Annotated;
    var n1 := PreviousHop(n, sender, message.srcIp, now, junk);
    var m := message.(hopCount := NextHopCount(message.hopCount));
    var n2 := ReverseRoute(n1, sender, m, now);
    var n3 := Answer(n2, sender, m, now).node;
    var ops := RreqOperations(n, sender, message, now, junk);
    if !(message.srcIp == n.ip || AlreadySeen(n1, message)) {
      Three(n, n1, n2, ops, now);
    } else {
      One(n, ops, now);
    }
  }

  lemma RrepIsOperations(n: Node, sender: u32, message: Rrep, now: Time, junk: u32, junk': u32)
    ensures var ops := RrepOperations(n, sender, message, now, junk, junk');
            AllAllowed(n, ops, now) && DoAll(n, ops, now) == RecvRrep(n, sender, message, now, junk, junk').node
  {
    hide PreviousHop, StopSearch, Hello, ForwardRoute, ForwardReply, OnlySlot, Timely, SaysSame, SaysRoute,
      SearchKept, IndexKept, RoutesKept, NoNewSearch, Annotated;
    var n1 := StopSearch(n, message);
    var m := message.(hopCount := NextHopCount(message.hopCount));
    var ops := RrepOperations(n, sender, message, now, junk, junk');
    if m.srcIp == 0 {
      Two(n, n1, ops, now);
    } else {
      var n2 := PreviousHop(n1, sender, m.destIp, now, junk);
      var n3 := ForwardRoute(n2, sender, m, now, junk');
      Three(n1, n2, n3, ops[1..], now);
    }
  }

  lemma {:induction false} RerrIsOperations(n: Node, sender: u32, pairs: seq<Pair>, now: Time, r: Resend)
    requires ResendOk(r)
    ensures var ops := RerrOperations(n, sender, pairs, now);
            AllAllowed(n, ops, now) && DoAll(n, ops, now) == ScanPairs(n, sender, pairs, now, r).node
    decreases |pairs|
  {
    hide Invalidate, Collect;
    if pairs == [] {
    } else {
      if Hit(n, sender, pairs[0]) {
        var n1 := Invalidate(n, pairs[0], now);
        RerrIsOperations(n1, sender, pairs[1..], now, Collect(r, EntryOf(n, pairs[0].destIp), pairs[0].destSeq));
        assert RerrOperations(n, sender, pairs, now)[1..] == RerrOperations(n1, sender, pairs[1..], now);
      } else {
        RerrIsOperations(n, sender, pairs[1..], now, r);
      }
    }
  }

  lemma One(n: Node, ops: seq<Operation>, now: Time)
    requires |ops| == 1 && Allowed(n, ops[0], now)
    ensures AllAllowed(n, ops, now) && DoAll(n, ops, now) == Do(n, ops[0], now)
  {
    hide Do, Allowed;
    var n1 := Do(n, ops[0], now);
    assert AllAllowed(n1, ops[1..], now) && DoAll(n1, ops[1..], now) == n1;
  }

  lemma Two(n: Node, n1: Node, ops: seq<Operation>, now: Time)
    requires |ops| == 2
    requires Allowed(n, ops[0], now) && n1 == Do(n, ops[0], now)
    requires Allowed(n1, ops[1], now)
    ensures AllAllowed(n, ops, now) && DoAll(n, ops, now) == Do(n1, ops[1], now)
  {
    hide Do, Allowed;
    One(n1, ops[1..], now);
  }

  lemma Three(n: Node, n1: Node, n2: Node, ops: seq<Operation>, now: Time)
    requires |ops| == 3
    requires Allowed(n, ops[0], now) && n1 == Do(n, ops[0], now)
    requires Allowed(n1, ops[1], now) && n2 == Do(n1, ops[1], now)
    requires Allowed(n2, ops[2], now)
    ensures AllAllowed(n, ops, now) && DoAll(n, ops, now) == Do(n2, ops[2], now)
  {
    hide Do, Allowed;
    Two(n1, n2, ops[1..], now);
  }

  lemma OutgoingIsOperations(n: Node, ev: Event, now: Time)
    requires ev.DataOut?
    ensures var ops := OperationsOf(n, ev, now);
            AllAllowed(n, ops, now) && DoAll(n, ops, now) == OutgoingMessage(n, ev.dest, now, ev.junk)
  {
    hide RefreshRoute, LoseRoute, SendRreq, NextHopUsable;
    var ops := OperationsOf(n, ev, now);
    if |ops| == 2 {
      Two(n, LoseRoute(n, ev.dest, now), ops, now);
    } else if |ops| == 1 {
      One(n, ops, now);
    }
  }

  lemma ForwardedIsOperations(n: Node, ev: Event, now: Time)
    requires ev.DataThrough? && !LinkBreak(n, ev.dest)
    ensures var ops := OperationsOf(n, ev, now);
            AllAllowed(n, ops, now) && DoAll(n, ops, now) == ForwardedMessages(n, ev.src, ev.dest, now).node
  {
    hide RefreshRoute;
    var ops := OperationsOf(n, ev, now);
    if |ops| == 2 {
      Two(n, RefreshRoute(n, ev.dest, now), ops, now);
    } else if |ops| == 1 {
      One(n, ops, now);
    }
  }

  /** An event is the sequence of its operations. */
  lemma EventIsOperations(n: Node, ev: Event, now: Time)
    requires Enabled(n, ev, now)
    ensures var ops := OperationsOf(n, ev, now);
            AllAllowed(n, ops, now) && DoAll(n, ops, now) == Apply(n, ev, now).node
  {
    hide RecvRreq, RecvRrep, ScanPairs, OutgoingMessage, ForwardedMessages, RreqOperations, RrepOperations,
      RerrOperations, RefreshRoute, SendRreqOutcome, Run, HelloInterval, LinkBreak, Active, NextHopUsable, OnlySlot,
      Timely, SaysSame, SaysRoute, IndexKept, RoutesKept;
    match ev
    case ReceiveRreq(sender, m, junk) => RreqIsOperations(n, sender, m, now, junk);
    case ReceiveRrep(sender, m, junk, junk') => RrepIsOperations(n, sender, m, now, junk, junk');
    case ReceiveRerr(sender, pairs) => RerrIsOperations(n, sender, pairs, now, Resend(0, false, 0, []));
    case DataThrough(_, _) => ForwardedIsOperations(n, ev, now);
    case DataOut(_, _) => OutgoingIsOperations(n, ev, now);
    case DataIn(src, dest) => if dest == n.ip && HasEntry(n, src) { One(n, [Refresh(src)], now); }
    case SearchOver(dest) => One(n, [Conclude(dest)], now);
    case Wake(id) => One(n, [Thread(id)], now);
    case HelloTick => One(n, OperationsOf(n, ev, now), now);
  }

  // ---- Where the operations of an event come from ----

  /** The operation carries the data of the event. */
  predicate From(op: Operation, ev: Event) {
    match op
    case MeetSender(sender, about, _) =>
      || (ev.ReceiveRreq? && sender == ev.sender && about == ev.rreq.srcIp)
      || (ev.ReceiveRrep? && sender == ev.sender && about == ev.rrep.destIp)
    case MakeReverse(sender, m) =>
      ev.ReceiveRreq? && sender == ev.sender && m == ev.rreq.(hopCount := NextHopCount(ev.rreq.hopCount))
    case MakeForward(sender, m, _) =>
      && ev.ReceiveRrep? && sender == ev.sender && m.srcIp != 0
      && m == ev.rrep.(hopCount := NextHopCount(ev.rrep.hopCount))
    case Greet(sender, m, _) =>
      && ev.ReceiveRrep? && sender == ev.sender && m.srcIp == 0
      && m == ev.rrep.(hopCount := NextHopCount(ev.rrep.hopCount))
    case EndSearch(m) => ev.ReceiveRrep? && m == ev.rrep
    case Annotate(_) => ev.ReceiveRreq? || ev.ReceiveRrep? || ev.HelloTick?
    case Break(pair) => ev.ReceiveRerr? && pair in ev.pairs
    case Refresh(_) => ev.DataIn? || ev.DataThrough? || ev.DataOut?
    case Lose(dest) => ev.DataOut? && dest == ev.dest
    case Ask(dest, _) => ev.DataOut? && dest == ev.dest
    case Conclude(dest) => ev.SearchOver? && dest == ev.dest
    case Thread(id) => ev == Wake(id)
  }

  lemma {:induction false} RerrOperationsFrom(n: Node, sender: u32, pairs: seq<Pair>, now: Time)
    ensures forall op <- RerrOperations(n, sender, pairs, now) :: op.Break? && op.pair in pairs
    decreases |pairs|
  {
    hide Invalidate;
    if pairs == [] {
    } else {
      RerrOperationsFrom(n, sender, pairs[1..], now);
      if Hit(n, sender, pairs[0]) {
        RerrOperationsFrom(Invalidate(n, pairs[0], now), sender, pairs[1..], now);
      }
    }
  }

  lemma OperationsFrom(n: Node, ev: Event, now: Time)
    requires Enabled(n, ev, now)
    ensures forall op <- OperationsOf(n, ev, now) :: From(op, ev)
  {
    hide RreqOperations, RrepOperations, RerrOperations, ForwardedMessages, Active, NextHopUsable;
    match ev
    case ReceiveRreq(sender, m, junk) => RreqOperationsFrom(n, ev, now);
    case ReceiveRrep(sender, m, junk, junk') => RrepOperationsFrom(n, ev, now);
    case ReceiveRerr(sender, pairs) => RerrOperationsFrom(n, sender, pairs, now);
    case _ =>
  }

  lemma RreqOperationsFrom(n: Node, ev: Event, now: Time)
    requires ev.ReceiveRreq?
    ensures forall op <- RreqOperations(n, ev.sender, ev.rreq, now, ev.junk) :: From(op, ev)
  {
    hide PreviousHop, ReverseRoute, Answer, AlreadySeen, OnlySlot, Timely, SaysSame, SaysRoute, SearchKept,
      IndexKept, RoutesKept, NoNewSearch, Annotated;
  }

  lemma RrepOperationsFrom(n: Node, ev: Event, now: Time)
    requires ev.ReceiveRrep?
    ensures forall op <- RrepOperations(n, ev.sender, ev.rrep, now, ev.junk, ev.junk') :: From(op, ev)
  {
    hide PreviousHop, ForwardRoute, ForwardReply, StopSearch, OnlySlot, Timely, SaysSame, SaysRoute, SearchKept,
      IndexKept, RoutesKept, NoNewSearch, Annotated;
  }

  /** A thread's step is alone; all other events consist of other operations. */
  lemma FewThreads(n: Node, ev: Event, now: Time)
    requires Enabled(n, ev, now)
    ensures var ops := OperationsOf(n, ev, now); |ops| <= 1 || forall op <- ops :: !op.Thread?
  {
    hide RreqOperations, RrepOperations, RerrOperations, Active, NextHopUsable, ForwardedMessages, LinkBreak;
    if ev.Wake? {
      assert OperationsOf(n, ev, now) == [Thread(ev.id)];
    } else {
      OperationsFrom(n, ev, now);
      hide OperationsOf;
    }
  }
}
