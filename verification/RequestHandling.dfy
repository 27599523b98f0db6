/** What a node makes of any request: when it is dropped, what it records, and what is sent, each said of the whole
    handler. */
module RequestHandling {
  import opened Aodv
  import opened Messages
  import opened TimeFuncs
  import opened RoutingTable
  import opened SendMessages
  import opened RecvMessages
  import opened Expiry
  import opened Lifetime

  // ---- Dropped or not ----

  /** The request is not the node's own, and its id is new from its originator; or the node is the destination and the
      way it has recorded to the originator is longer than that of the request. */
  predicate Reaches(n: Node, sender: u32, m: Rreq, junk: u32) {
    && m.srcIp != n.ip
    && (if HasEntry(n, m.srcIp) then
          var e := EntryOf(n, m.srcIp);
          e.rreqId != m.rreqId || (m.destIp == n.ip && e.hopCount > m.hopCount)
        else Slot(sender) == Slot(m.srcIp) ==> junk != m.rreqId)
  }

  lemma MeetingKeepsId(n: Node, sender: u32, about: u32, now: Time, junk: u32)
    ensures var r := PreviousHop(n, sender, about, now, junk);
            forall s :: s in r.table ==>
              if s in n.table
              then r.table[s].rreqId == n.table[s].rreqId && r.table[s].activeRoute == n.table[s].activeRoute
              else r.table[s].rreqId == junk
  {
    hide AddMs, WakeAt, Timely, SearchKept, IndexKept, AddIfAbsent;
  }

  lemma ReachesIsTaken(n: Node, sender: u32, m: Rreq, now: Time, junk: u32)
    ensures Reaches(n, sender, m, junk) <==> Taken(n, sender, m, now, junk)
  {
    MeetingKeepsId(n, sender, m.srcIp, now, junk);
    hide PreviousHop;
  }

  /** A request that does not reach the node is not answered and leaves the way to its originator as it was. */
  lemma Dropped(n: Node, sender: u32, m: Rreq, now: Time, junk: u32)
    requires !Reaches(n, sender, m, junk)
    ensures var r := RecvRreq(n, sender, m, now, junk);
            && r.outs == [] && OnlySlot(n, r.node, Slot(sender)) && r.node.activeRoutes == n.activeRoutes
            && (HasEntry(n, m.srcIp) ==>
                  && SaysSame(EntryOf(n, m.srcIp), EntryOf(r.node, m.srcIp))
                  && EntryOf(r.node, m.srcIp).rreqId == EntryOf(n, m.srcIp).rreqId)
  {
    ReachesIsTaken(n, sender, m, now, junk);
    MeetingKeepsId(n, sender, m.srcIp, now, junk);
    MeetingCounts(n, sender, m.srcIp, now, junk);
    hide PreviousHop, ReverseRoute, Answer, AlreadySeen, Reaches;
  }

  lemma MeetingCounts(n: Node, sender: u32, about: u32, now: Time, junk: u32)
    ensures PreviousHop(n, sender, about, now, junk).activeRoutes == n.activeRoutes
  {
    hide AddMs, WakeAt, Timely, SearchKept, IndexKept, AddIfAbsent;
  }

  // ---- What is recorded ----

  /** The sender's entry becomes a valid kernel route that lives for 3000 ms from now, whatever its life was before, and
      lists the originator once as reached through it; what it says about the way to the sender does not change. */
  lemma SenderIsMet(n: Node, sender: u32, m: Rreq, now: Time, junk: u32)
    requires Slot(sender) != Slot(m.srcIp)
    ensures var r := RecvRreq(n, sender, m, now, junk).node;
            && HasEntry(r, sender) && sender in r.kernel
            && var e := EntryOf(r, sender);
               && e.routeValid && e.timeOut.Ns() == now.Ns() + 3000 * MILLION && m.srcIp in e.nextHopFor
               && if HasEntry(n, sender) then
                    && SaysSame(EntryOf(n, sender), e) && e.rreqId == EntryOf(n, sender).rreqId
                    && e.nextHopFor == EntryOf(n, sender).nextHopFor +
                                       if m.srcIp in EntryOf(n, sender).nextHopFor then [] else [m.srcIp]
                  else SaysRoute(e, 0, false, sender, 0) && e.nextHopFor == [m.srcIp] && e.rreqId == junk
  {
    hide PreviousHop, ReverseRoute, Answer, AlreadySeen, Timely, SearchKept, IndexKept, NoNewSearch;
    var m' := m.(hopCount := NextHopCount(m.hopCount));
    var n1 := PreviousHop(n, sender, m.srcIp, now, junk);
    MeetingKeepsId(n, sender, m.srcIp, now, junk);
    Meeting(n, sender, m.srcIp, now, junk);
    ReverseAddsRoute(n1, sender, m', now);
  }

  lemma Meeting(n: Node, sender: u32, about: u32, now: Time, junk: u32)
    ensures var r := PreviousHop(n, sender, about, now, junk);
            && sender in r.kernel && EntryOf(r, sender).routeValid
            && EntryOf(r, sender).timeOut.Ns() == now.Ns() + 3000 * MILLION
  {
    hide WakeAt, Timely, SearchKept, IndexKept, AddIfAbsent;
  }

  lemma ReverseAddsRoute(n: Node, sender: u32, m: Rreq, now: Time)
    ensures var r := ReverseRoute(n, sender, m, now);
            && n.kernel <= r.kernel && r.activeRoutes == n.activeRoutes && EntryOf(r, m.srcIp).rreqId == m.rreqId
            && EntryOf(r, m.srcIp).routeValid
            && (HasEntry(n, m.srcIp) ==> EntryOf(r, m.srcIp).activeRoute == EntryOf(n, m.srcIp).activeRoute)
  {
    hide AddMs, WakeAt, ReverseLifetime, Timely, SearchKept, IndexKept;
  }

  /** A request that reaches the node leaves a valid route to its originator with the id of the request. The way is
      the one of the request if there was none with a valid number, if the number is greater, or if it is the same
      and the way shorter; otherwise it is the way recorded. */
  lemma OriginatorIsRecorded(n: Node, sender: u32, m: Rreq, now: Time, junk: u32)
    requires Reaches(n, sender, m, junk)
    ensures var r, hops := RecvRreq(n, sender, m, now, junk).node, NextHopCount(m.hopCount);
            && HasEntry(r, m.srcIp)
            && var e := EntryOf(r, m.srcIp);
               && e.routeValid && e.rreqId == m.rreqId
               && if HasEntry(n, m.srcIp) && EntryOf(n, m.srcIp).seqValid &&
                     (m.srcSeq < EntryOf(n, m.srcIp).destSeq ||
                      (m.srcSeq == EntryOf(n, m.srcIp).destSeq && hops >= EntryOf(n, m.srcIp).hopCount))
                  then SaysSame(EntryOf(n, m.srcIp), e) else SaysRoute(e, m.srcSeq, true, sender, hops)
  {
    ReachesIsTaken(n, sender, m, now, junk);
    hide PreviousHop, ReverseRoute, Answer, AlreadySeen, Reaches;
    var m' := m.(hopCount := NextHopCount(m.hopCount));
    ReverseAddsRoute(PreviousHop(n, sender, m.srcIp, now, junk), sender, m', now);
  }

  /** The deadline the route to the originator had when its life was chosen. */
  function DeadlineBefore(n: Node, sender: u32, m: Rreq, now: Time): int {
    if Slot(sender) == Slot(m.srcIp) then now.Ns() + 3000 * MILLION
    else if HasEntry(n, m.srcIp) then EntryOf(n, m.srcIp).timeOut.Ns()
    else now.Ns()
  }

  /** The route lives for MinimalLifetime or as long as before, whichever is later, up to a second of rounding; a new
      one for exactly MinimalLifetime. */
  lemma LifetimeIsChosen(n: Node, sender: u32, m: Rreq, now: Time, junk: u32)
    requires Reaches(n, sender, m, junk) && m.hopCount < NET_DIAMETER && Bounded(n, now)
    ensures var r := RecvRreq(n, sender, m, now, junk).node;
            var minimal := now.Ns() + MinimalLifetime(m.hopCount + 1) * MILLION;
            var before := DeadlineBefore(n, sender, m, now);
            && HasEntry(r, m.srcIp)
            && var deadline := EntryOf(r, m.srcIp).timeOut.Ns();
               && minimal <= deadline && before - BILLION <= deadline
               && deadline <= (if before <= minimal then minimal else before)
  {
    ReachesIsTaken(n, sender, m, now, junk);
    Meeting(n, sender, m.srcIp, now, junk);
    hide PreviousHop, ReverseRoute, Answer, AlreadySeen, MinimalLifetime, Reaches;
    var m' := m.(hopCount := NextHopCount(m.hopCount));
    var n1 := PreviousHop(n, sender, m.srcIp, now, junk);
    MeetingKeepsDeadlines(n, sender, m.srcIp, now, junk);
    MeetingIsBounded(n, sender, m.srcIp, now, junk);
    ReverseIsChosen(n1, sender, m', now);
  }

  lemma MeetingKeepsDeadlines(n: Node, sender: u32, about: u32, now: Time, junk: u32)
    ensures var r := PreviousHop(n, sender, about, now, junk);
            forall s :: s in r.table && s != Slot(sender) ==> s in n.table && r.table[s].timeOut == n.table[s].timeOut
  {
    hide PreviousHop;
  }

  lemma MeetingIsBounded(n: Node, sender: u32, about: u32, now: Time, junk: u32)
    requires Bounded(n, now)
    ensures Bounded(PreviousHop(n, sender, about, now, junk), now)
  {
    hide PreviousHop;
  }

  lemma ReverseIsChosen(n: Node, sender: u32, m: Rreq, now: Time)
    requires 1 <= m.hopCount <= NET_DIAMETER && Bounded(n, now)
    ensures var deadline := EntryOf(ReverseRoute(n, sender, m, now), m.srcIp).timeOut.Ns();
            var minimal := now.Ns() + MinimalLifetime(m.hopCount) * MILLION;
            var before := if HasEntry(n, m.srcIp) then EntryOf(n, m.srcIp).timeOut.Ns() else now.Ns();
            && minimal <= deadline && before - BILLION <= deadline
            && deadline <= (if before <= minimal then minimal else before)
  {
    var found := CreateOrGet(n, m.srcIp, m.srcSeq, true, sender, m.hopCount, 0, now, m.rreqId);
    assert !HasEntry(n, m.srcIp) ==> found.timeOut.Ns() == now.Ns();
    hide ReverseLifetime, WakeAt, AddMs;
    ChosenLifetime(now, found.timeOut, m.hopCount);
    ChosenIsNoLonger(now, found.timeOut, m.hopCount);
  }

  lemma ChosenIsNoLonger(now: Time, timeOut: Time, hopCount: u8)
    requires 1 <= hopCount <= NET_DIAMETER && timeOut.Ns() < now.Ns() + WORD * MILLION
    ensures var ms, minimal := ReverseLifetime(now, timeOut, hopCount), MinimalLifetime(hopCount);
            ms == minimal || (ms > minimal && now.Ns() + ms * MILLION <= timeOut.Ns())
  {
    var minimal := FromMs(MinimalLifetime(hopCount));
    var left := Subtract(now, timeOut);
    MsRoundTrip(MinimalLifetime(hopCount));
    SubtractNeverEarly(now, timeOut);
  }

  // ---- What is sent ----

  /** The destination marks the way back as active, takes the next number of its own or the one of the request if
      that is not older, and answers the sender alone with that number, at no hops. */
  lemma DestinationAnswers(n: Node, sender: u32, m: Rreq, now: Time, junk: u32)
    requires Reaches(n, sender, m, junk) && m.destIp == n.ip
    ensures var r, next := RecvRreq(n, sender, m, now, junk), Incr(n.sequenceNum);
            && r.node.sequenceNum == (if !m.Unknown() && SeqCompare(m.destSeq, next) >= 0 then m.destSeq else next)
            && r.outs == [Unicast(sender, RrepMessage(Rrep(0, 0, n.ip, r.node.sequenceNum, m.srcIp, 6000)))]
            && HasEntry(r.node, m.srcIp) && EntryOf(r.node, m.srcIp).activeRoute != 0
  {
    ReachesIsTaken(n, sender, m, now, junk);
    hide PreviousHop, ReverseRoute, AlreadySeen, Reaches, SeqCompare;
  }

  /** A valid way to the destination, with a valid number newer than the one asked with, or any if none is known. */
  predicate Knows(n: Node, m: Rreq) {
    && HasEntry(n, m.destIp) && EntryOf(n, m.destIp).seqValid
    && (m.flags % 2 == 1 || SeqCompare(m.destSeq, EntryOf(n, m.destIp).destSeq) < 0)
  }

  /** The node answers as an intermediate one, for a destination with this record. */
  predicate AnswersFor(n: Node, m: Rreq) {
    Knows(n, m) && EntryOf(n, m.destIp).routeValid && m.flags / 2 % 2 == 0
  }

  /** Milliseconds left until a deadline not yet over, rounded down. */
  predicate IsLeft(ms: u32, now: Time, deadline: Time) {
    now.Ns() <= deadline.Ns() < now.Ns() + WORD * MILLION ==>
      ms * MILLION <= deadline.Ns() - now.Ns() < (ms + 1) * MILLION
  }

  /** What an intermediate node sends: to the sender the recorded way to the destination, and if any flag is set also to
      the next hop of that way the way to the originator. */
  ghost predicate IntermediateSends(outs: seq<Out>, d: Entry, sender: u32, m: Rreq, now: Time) {
    && outs != [] && outs[0].Unicast? && outs[0].to == sender && outs[0].message.RrepMessage?
    && (var reply := outs[0].message.rrep;
        && reply == Rrep(0, d.hopCount % 256, m.destIp, d.destSeq, m.srcIp, reply.lifetime)
        && IsLeft(reply.lifetime, now, d.timeOut))
    && var back := Rrep(0, NextHopCount(m.hopCount), m.srcIp, m.srcSeq, m.destIp, 3000);
       outs[1..] == if m.flags == 0 then [] else [Unicast(d.nextHop, RrepMessage(back))]
  }

  lemma TimeIsLeft(now: Time, deadline: Time)
    ensures IsLeft(Remaining(now, deadline), now, deadline)
  {
    var left := Subtract(now, deadline);
    if now.Ns() <= deadline.Ns() < now.Ns() + WORD * MILLION {
      assert left.Ns() == deadline.Ns() - now.Ns();
      ToMsRoundsDown(left);
    }
  }

  /** A node that is not the destination answers if and only if it has a valid way with a newer number and is
      allowed to; then the sender becomes a precursor of the destination and the next hop one of the originator.
      Otherwise it passes the request on if its TTL lasts, one hop further, with its own number if that is newer.
      The record of the destination is the one at the end of the handler, which answering does not change but for
      precursors. */
  lemma OthersAnswerOrPass(n: Node, sender: u32, m: Rreq, now: Time, junk: u32)
    requires Reaches(n, sender, m, junk) && m.destIp != n.ip
    ensures var r := RecvRreq(n, sender, m, now, junk);
            if AnswersFor(r.node, m) then
              var d := EntryOf(r.node, m.destIp);
              && IntermediateSends(r.outs, d, sender, m, now)
              && sender in d.precursors && d.nextHop in EntryOf(r.node, m.srcIp).precursors
            else
              r.outs == if m.ttl <= 1 then []
                        else [Broadcast(RreqMessage(m.(hopCount := NextHopCount(m.hopCount), ttl := m.ttl - 1,
                                destSeq := if Knows(r.node, m) then EntryOf(r.node, m.destIp).destSeq else m.destSeq)))]
  {
    ReachesIsTaken(n, sender, m, now, junk);
    hide PreviousHop, ReverseRoute, AlreadySeen, Reaches, SeqCompare, Answer, AnswersFor, IntermediateSends, Knows;
    var m' := m.(hopCount := NextHopCount(m.hopCount));
    OthersAnswer(ReverseRoute(PreviousHop(n, sender, m.srcIp, now, junk), sender, m', now), sender, m, m', now);
  }

  lemma OthersAnswer(n: Node, sender: u32, m: Rreq, m': Rreq, now: Time)
    requires HasEntry(n, m.srcIp) && m.destIp != n.ip && m' == m.(hopCount := NextHopCount(m.hopCount))
    ensures var r := Answer(n, sender, m', now);
            if AnswersFor(r.node, m) then
              var d := EntryOf(r.node, m.destIp);
              && IntermediateSends(r.outs, d, sender, m, now)
              && sender in d.precursors && d.nextHop in EntryOf(r.node, m.srcIp).precursors
            else
              r.outs == if m.ttl <= 1 then []
                        else [Broadcast(RreqMessage(m'.(ttl := m.ttl - 1,
                                destSeq := if Knows(r.node, m) then EntryOf(r.node, m.destIp).destSeq else m.destSeq)))]
  {
    hide SeqCompare, Remaining, IsLeft;
    if CanAnswer(n, m') {
      TimeIsLeft(now, EntryOf(n, m.destIp).timeOut);
    }
  }

  /** Unless it is the sender or the originator, the destination's record is the one from before. */
  lemma RecordOfDestination(n: Node, sender: u32, m: Rreq, now: Time, junk: u32)
    requires Slot(m.destIp) != Slot(sender) && Slot(m.destIp) != Slot(m.srcIp)
    ensures var r := RecvRreq(n, sender, m, now, junk).node;
            && (HasEntry(r, m.destIp) <==> HasEntry(n, m.destIp))
            && (HasEntry(n, m.destIp) ==> MoreMarks(EntryOf(n, m.destIp), EntryOf(r, m.destIp)))
  {
    hide PreviousHop, ReverseRoute, AlreadySeen, Answer;
  }

  // ---- A destination and the copies of one request ----

  /** A destination that has the id of the request recorded answers this copy, and once, if and only if the way it has
      recorded is longer than the one the copy has come so far. If not, its number and the way stay. */
  lemma DestinationRepeats(n: Node, sender: u32, m: Rreq, now: Time, junk: u32)
    requires m.destIp == n.ip != m.srcIp && HasEntry(n, m.srcIp) && EntryOf(n, m.srcIp).rreqId == m.rreqId
    ensures var r, e := RecvRreq(n, sender, m, now, junk), EntryOf(n, m.srcIp);
            && HasEntry(r.node, m.srcIp) && EntryOf(r.node, m.srcIp).rreqId == m.rreqId
            && if e.hopCount <= m.hopCount then
                 r.outs == [] && r.node.sequenceNum == n.sequenceNum && SaysSame(e, EntryOf(r.node, m.srcIp))
               else
                 && r.outs == [Unicast(sender, RrepMessage(Rrep(0, 0, n.ip, r.node.sequenceNum, m.srcIp, 6000)))]
                 && EntryOf(r.node, m.srcIp).hopCount <= e.hopCount
  {
    hide RecvRreq;
    if EntryOf(n, m.srcIp).hopCount <= m.hopCount {
      Dropped(n, sender, m, now, junk);
      DropKeepsNumber(n, sender, m, now, junk);
    } else {
      DestinationAnswers(n, sender, m, now, junk);
      OriginatorIsRecorded(n, sender, m, now, junk);
    }
  }

  lemma DropKeepsNumber(n: Node, sender: u32, m: Rreq, now: Time, junk: u32)
    requires OnlySlot(n, RecvRreq(n, sender, m, now, junk).node, Slot(sender))
    ensures RecvRreq(n, sender, m, now, junk).node.sequenceNum == n.sequenceNum
    ensures HasEntry(n, m.srcIp) ==> HasEntry(RecvRreq(n, sender, m, now, junk).node, m.srcIp)
  {
    hide RecvRreq;
  }
}
