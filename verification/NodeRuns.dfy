/** Runs of one node from its start, in which a route is cut short and a number falls back. */
module NodeRuns {
  import opened Aodv
  import opened Messages
  import opened TimeFuncs
  import opened RoutingTable
  import opened SendMessages
  import opened RecvMessages
  import opened Callbacks
  import opened TableRefinement
  import opened Threads
  import opened Lifetime
  import opened Authority
  import opened NetRuns
  import RequestHandling

  const S: u32 := 0x0100_0001
  const A: u32 := 0x0200_0001
  const D: u32 := 0x0300_0001
  const B: u32 := 0x0400_0001
  const C: u32 := 0x0500_0001

  lemma {:induction false} FinalOfTwo(n: Node, first: Step, second: Step)
    requires Enabled(n, first.event, first.now) && Enabled(After(n, first), second.event, second.now)
    ensures Legal(n, [first, second]) && Final(n, [first, second]) == After(After(n, first), second)
  {
    hide Apply, Enabled;
    assert [first, second][1..] == [second] && [second][1..] == [];
    assert Legal(After(n, first), [second]);
    assert Final(After(n, first), [second]) == After(After(n, first), second);
  }

  lemma OldIdIsSeen(n: Node, m: Rreq, now: Time)
    requires HasEntry(n, m.srcIp) && EntryOf(n, m.srcIp).rreqId != m.rreqId && m.srcIp != n.ip
    ensures Taken(n, m.srcIp, m, now, 0)
  {
    hide AddMs, WakeAt;
  }

  // ---- A route is cut short ----

  /** S asks for D, and A is its neighbour. */
  function FromS(id: u32): Rreq {
    Rreq(0, 3, 0, id, D, 5, S, id)
  }

  /** A hears S, loses the route 5520 ms later and is to keep the entry for another 15 s; but S asks again at once, and
      then the entry has 5520 ms left. */
  lemma DirectRequestShortens() returns (run: seq<Step>, now: Time)
    ensures Legal(Boot(A, 0), run)
    ensures var n, m := Final(Boot(A, 0), run), FromS(2);
            && Enabled(n, ReceiveRreq(S, m, 0), now) && Taken(n, S, m, now, 0)
            && HasEntry(n, S) && EntryOf(n, S).timeOut.Ns() == now.Ns() + DELETE_PERIOD * MILLION
            && var r := Apply(n, ReceiveRreq(S, m, 0), now).node;
               HasEntry(r, S) && EntryOf(r, S).timeOut.Ns() == now.Ns() + 5520 * MILLION
  {
    hide RecvRreq, Run, Lapsed, Ledger, Placed;
    var boot, start := Boot(A, 0), Instant(1, 0);
    now := Instant(6, 520 * MILLION);
    var first := Step(ReceiveRreq(S, FromS(1), 0), start);
    var n := RecvRreq(boot, S, FromS(1), start, 0).node;
    FirstIsHeard(boot, start);
    TimerFires(n, S, now);
    var second := Step(Wake(EntryOf(n, S).expirationThread), now);
    run := [first, second];
    FinalOfTwo(boot, first, second);
    var n2 := After(n, second);
    JustLapsed(n, n2, now);
    Network.ApplyKeepsAddress(n, second.event, now);
    OldIdIsSeen(n2, FromS(2), now);
    DirectRequestLives(n2, FromS(2), now, 0);
  }

  lemma FirstIsHeard(n: Node, now: Time)
    requires n == Boot(A, 0)
    ensures var r := RecvRreq(n, S, FromS(1), now, 0).node;
            && Ledger(r) && Placed(r) && Due(r, S, now.Ns() + 5520 * MILLION)
            && EntryOf(r, S).routeValid && EntryOf(r, S).rreqId == 1 && r.ip == A
  {
    hide RecvRreq, Due, OthersSame;
    NewRequestPasses(n, S, FromS(1), now);
    FirstHopIsDue(n, FromS(1), now);
    assert Enabled(n, ReceiveRreq(S, FromS(1), 0), now);
    Threads.EventKeeps(n, ReceiveRreq(S, FromS(1), 0), now);
    Network.ApplyKeepsAddress(n, ReceiveRreq(S, FromS(1), 0), now);
  }

  lemma JustLapsed(n: Node, r: Node, now: Time)
    requires HasEntry(n, S) && EntryOf(n, S).routeValid && EntryOf(n, S).rreqId == 1 && Lapsed(n, r, S, now)
    ensures HasEntry(r, S) && EntryOf(r, S).rreqId == 1
    ensures EntryOf(r, S).timeOut.Ns() == now.Ns() + DELETE_PERIOD * MILLION
  {
  }

  // ---- A number falls back ----

  /** S asks for A, with a number it has heard of. */
  function ForA(id: u32, number: u32): Rreq {
    Rreq(0, 3, 0, id, A, number, S, id)
  }

  lemma AnswerTakesNumber(n: Node, id: u32, number: u32, now: Time)
    requires n.ip == A && Taken(n, S, ForA(id, number), now, 0)
    ensures var r := RecvRreq(n, S, ForA(id, number), now, 0).node;
            && r.ip == A && r.sequenceNum == ReplySequence(n.sequenceNum, ForA(id, number))
            && HasEntry(r, S) && EntryOf(r, S).rreqId == id
  {
    hide PreviousHop, AlreadySeen, ReplySequence, ReverseLifetime, AddMs, WakeAt, SearchKept, IndexKept, NoNewSearch,
      Timely;
    SameReply(n.sequenceNum, ForA(id, number), ForA(id, number).(hopCount := 1));
  }

  /** Asked with greater and greater numbers A takes them over, and then falls back to 0 when it is asked with 0. */
  lemma NumberFallsBack(now: Time) returns (run: seq<Step>)
    ensures Legal(Boot(A, 0), run)
    ensures var n, m := Final(Boot(A, 0), run), ForA(3, 0);
            && n.sequenceNum == 0x9000_0000 && Enabled(n, ReceiveRreq(S, m, 0), now) && Taken(n, S, m, now, 0)
            && Apply(n, ReceiveRreq(S, m, 0), now).node.sequenceNum == 0
  {
    hide RecvRreq, Taken, ReplySequence;
    var boot := Boot(A, 0);
    NumbersTaken();
    FirstIsTaken(boot, now);
    AnswerTakesNumber(boot, 1, 0x7000_0000, now);
    var first := Step(ReceiveRreq(S, ForA(1, 0x7000_0000), 0), now);
    var n := After(boot, first);
    OldIdIsSeen(n, ForA(2, 0x9000_0000), now);
    AnswerTakesNumber(n, 2, 0x9000_0000, now);
    var second := Step(ReceiveRreq(S, ForA(2, 0x9000_0000), 0), now);
    FinalOfTwo(boot, first, second);
    run := [first, second];
    OldIdIsSeen(After(n, second), ForA(3, 0), now);
    AnswerTakesNumber(After(n, second), 3, 0, now);
  }

  /** Two copies of one request, over ways of the same length through two neighbours. */
  function Copy(): Rreq {
    Rreq(1, 3, 1, 7, A, 0, S, 4)
  }

  /** A answers both copies, the second though it has come no shorter way, and takes a new number for each. */
  lemma EqualCopyIsAnswered(now: Time)
    ensures var boot := Boot(A, 0);
            var first := RecvRreq(boot, B, Copy(), now, 0);
            var second := RecvRreq(first.node, C, Copy(), now, 0);
            && Legal(boot, [Step(ReceiveRreq(B, Copy(), 0), now), Step(ReceiveRreq(C, Copy(), 0), now)])
            && first.outs == [Unicast(B, RrepMessage(Rrep(0, 0, A, 1, S, 6000)))]
            && second.outs == [Unicast(C, RrepMessage(Rrep(0, 0, A, 2, S, 6000)))]
  {
    hide RecvRreq;
    var boot := Boot(A, 0);
    var first := RecvRreq(boot, B, Copy(), now, 0).node;
    CopySlots();
    RequestHandling.DestinationAnswers(boot, B, Copy(), now, 0);
    RequestHandling.OriginatorIsRecorded(boot, B, Copy(), now, 0);
    Network.ApplyKeepsAddress(boot, ReceiveRreq(B, Copy(), 0), now);
    assert first == After(boot, Step(ReceiveRreq(B, Copy(), 0), now));
    RequestHandling.DestinationRepeats(first, C, Copy(), now, 0);
    RequestHandling.DestinationAnswers(first, C, Copy(), now, 0);
    FinalOfTwo(boot, Step(ReceiveRreq(B, Copy(), 0), now), Step(ReceiveRreq(C, Copy(), 0), now));
  }

  lemma CopySlots()
    ensures Slot(B) != Slot(S) && Slot(C) != Slot(S) && Copy().Unknown()
  {
  }

  lemma NumbersTaken()
    ensures ReplySequence(0, ForA(1, 0x7000_0000)) == 0x7000_0000
    ensures ReplySequence(0x7000_0000, ForA(2, 0x9000_0000)) == 0x9000_0000
    ensures ReplySequence(0x9000_0000, ForA(3, 0)) == 0
  {
  }

  lemma FirstIsTaken(n: Node, now: Time)
    requires n == Boot(A, 0)
    ensures Taken(n, S, ForA(1, 0x7000_0000), now, 0)
  {
    FreshNeighbour(n, S, S, now, 0);
    hide PreviousHop;
  }
}
