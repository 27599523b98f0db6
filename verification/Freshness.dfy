/** Recorded sequence numbers do not go back while an entry lives. */
module Freshness {
  import opened Aodv
  import opened Messages
  import opened TimeFuncs
  import opened RoutingTable
  import opened SendMessages
  import opened RecvMessages
  import opened Callbacks
  import opened Operations
  import opened Expiry

  /** Numbers that have not rolled over against each other. */
  predicate Window(w: u32, x: u32) {
    w <= x < w + HALF
  }

  /** The later entry knows at least as new a number. */
  predicate Fresher(e: Entry, e': Entry) {
    e.seqValid ==> e'.seqValid && e.destSeq <= e'.destSeq
  }

  /** The later entry has a newer number, or the same number and no more hops. */
  predicate NotWorse(e: Entry, e': Entry) {
    e.seqValid ==> e'.seqValid && (e.destSeq < e'.destSeq || (e.destSeq == e'.destSeq && e'.hopCount <= e.hopCount))
  }

  /** The number recorded in slot s, if valid, lies in the window. */
  ghost predicate Recorded(n: Node, s: u8, w: u32) {
    s in n.table && n.table[s].seqValid ==> Window(w, n.table[s].destSeq)
  }

  /** The number a message carries for the node in slot s lies in the window. */
  predicate Carries(ev: Event, s: u8, w: u32) {
    match ev
    case ReceiveRreq(_, m, _) => Slot(m.srcIp) == s ==> Window(w, m.srcSeq)
    case ReceiveRrep(_, m, _, _) => Slot(m.destIp) == s ==> Window(w, m.destSeq)
    case ReceiveRerr(_, _) => false
    case _ => true
  }

  /** Requests, data, timers and searches never make a record worse, rollover or not. */
  lemma OperationNotWorse(n: Node, op: Operation, now: Time, s: u8)
    requires Allowed(n, op, now) && s in n.table && !op.MakeForward? && !op.Greet? && !op.Break?
    ensures var r := Do(n, op, now); s in r.table ==> NotWorse(n.table[s], r.table[s])
  {
    hide PreviousHop, ReverseRoute, StopSearch, RefreshRoute, LoseRoute, SendRreq, SendRreqOutcome, ExpirationFunc,
      BeginSearch, SendRing, FailSearch, RreqIdFunc, AddMs;
  }

  lemma OperationFresh(n: Node, op: Operation, now: Time, ev: Event, s: u8, w: u32)
    requires Allowed(n, op, now) && From(op, ev) && Carries(ev, s, w) && Recorded(n, s, w)
    ensures var r := Do(n, op, now);
            Recorded(r, s, w) && (s in n.table && s in r.table ==> Fresher(n.table[s], r.table[s]))
  {
    hide PreviousHop, ReverseRoute, ForwardRoute, Hello, StopSearch, Invalidate, RefreshRoute, LoseRoute, SendRreq,
      SendRreqOutcome, ExpirationFunc, BeginSearch, SendRing, FailSearch, RreqIdFunc, AddMs, SeqCompare;
    if op.MakeForward? || op.Greet? {
      if s in n.table && n.table[s].seqValid && Slot(op.rrep.destIp) == s {
        SeqCompareInWindow(op.rrep.destSeq, n.table[s].destSeq);
      }
    } else if s in n.table {
      OperationNotWorse(n, op, now, s);
    }
  }

  lemma {:induction false} OperationsFresh(n: Node, ops: seq<Operation>, now: Time, ev: Event, s: u8, w: u32)
    requires AllAllowed(n, ops, now) && (forall op <- ops :: From(op, ev)) && Carries(ev, s, w) && Recorded(n, s, w)
    requires |ops| <= 1 || forall op <- ops :: !op.Thread?
    ensures var r := DoAll(n, ops, now);
            Recorded(r, s, w) && (s in n.table && s in r.table ==> Fresher(n.table[s], r.table[s]))
    decreases |ops|
  {
    hide Do, Allowed;
    if ops == [] {
    } else {
      OperationFresh(n, ops[0], now, ev, s, w);
      if |ops| > 1 {
        OperationKeepsEntries(n, ops[0], now);
        OperationsFresh(Do(n, ops[0], now), ops[1..], now, ev, s, w);
      } else {
        assert DoAll(n, ops, now) == Do(n, ops[0], now);
      }
    }
  }

  lemma EventFresh(n: Node, ev: Event, now: Time, s: u8, w: u32)
    requires Enabled(n, ev, now) && Carries(ev, s, w) && Recorded(n, s, w)
    ensures var r := Apply(n, ev, now).node;
            Recorded(r, s, w) && (s in n.table && s in r.table ==> Fresher(n.table[s], r.table[s]))
  {
    hide Apply, OperationsOf;
    OperationsFrom(n, ev, now);
    FewThreads(n, ev, now);
    EventIsOperations(n, ev, now);
    OperationsFresh(n, OperationsOf(n, ev, now), now, ev, s, w);
  }

  lemma {:induction false} OperationsNotWorse(n: Node, ops: seq<Operation>, now: Time, s: u8)
    requires AllAllowed(n, ops, now) && s in n.table
    requires forall op <- ops :: !op.MakeForward? && !op.Greet? && !op.Break?
    requires |ops| <= 1 || forall op <- ops :: !op.Thread?
    ensures var r := DoAll(n, ops, now); s in r.table ==> NotWorse(n.table[s], r.table[s])
    decreases |ops|
  {
    hide Do, Allowed;
    if ops == [] {
    } else {
      OperationNotWorse(n, ops[0], now, s);
      if |ops| > 1 {
        OperationKeepsEntries(n, ops[0], now);
        OperationsNotWorse(Do(n, ops[0], now), ops[1..], now, s);
      } else {
        assert DoAll(n, ops, now) == Do(n, ops[0], now);
      }
    }
  }

  /** A step other than receiving a reply or an error leaves every record no worse: in particular
      a request with the recorded number never makes the hop count grow. */
  lemma EventNotWorse(n: Node, ev: Event, now: Time, s: u8)
    requires Enabled(n, ev, now) && !ev.ReceiveRrep? && !ev.ReceiveRerr? && s in n.table
    ensures var r := Apply(n, ev, now).node; s in r.table ==> NotWorse(n.table[s], r.table[s])
  {
    hide Apply, OperationsOf;
    OperationsFrom(n, ev, now);
    FewThreads(n, ev, now);
    EventIsOperations(n, ev, now);
    OperationsNotWorse(n, OperationsOf(n, ev, now), now, s);
  }

  // ---- Replies ----

  /** The reply repeats the recorded number with more hops. */
  predicate Longer(e: Entry, m: Rrep) {
    m.srcIp != 0 && m.destSeq == e.destSeq && NextHopCount(m.hopCount) > e.hopCount
  }

  /** With the numbers for its destination in one window, a reply makes that record worse exactly when it repeats
      the number with more hops; a hello never does, and no other record is touched. */
  lemma ReplyMayWorsen(n: Node, ev: Event, now: Time, s: u8, w: u32)
    requires Enabled(n, ev, now) && ev.ReceiveRrep? && s in n.table && n.table[s].seqValid
    requires Carries(ev, s, w) && Recorded(n, s, w)
    ensures var r := Apply(n, ev, now).node;
            && s in r.table
            && (NotWorse(n.table[s], r.table[s]) <==> !(s == Slot(ev.rrep.destIp) && Longer(n.table[s], ev.rrep)))
  {
    hide PreviousHop, Hello, ForwardRoute, ForwardReply, StopSearch, SeqCompare, Timely, IndexKept, NoNewSearch;
    var m := ev.rrep.(hopCount := NextHopCount(ev.rrep.hopCount));
    var n1 := StopSearch(n, ev.rrep);
    assert s in n1.table && SaysSame(n.table[s], n1.table[s]);
    if s == Slot(m.destIp) {
      SeqCompareInWindow(m.destSeq, n.table[s].destSeq);
    }
    if m.srcIp == 0 {
      HelloNotWorse(n1, ev.sender, m, now, ev.junk, s);
    } else {
      var n2 := PreviousHop(n1, ev.sender, m.destIp, now, ev.junk);
      var n3 := ForwardRoute(n2, ev.sender, m, now, ev.junk');
      assert s in n2.table && SaysSame(n1.table[s], n2.table[s]);
      ForwardWorsens(n2, ev.sender, m, now, ev.junk', s);
      assert Annotated(n3, ForwardReply(n3, m).node);
    }
  }

  lemma HelloNotWorse(n: Node, sender: u32, m: Rrep, now: Time, junk: u32, s: u8)
    requires s in n.table && n.table[s].seqValid
    requires s == Slot(m.destIp) ==> SeqCompare(m.destSeq, n.table[s].destSeq) == m.destSeq - n.table[s].destSeq
    ensures var r := Hello(n, sender, m, now, junk); s in r.table && NotWorse(n.table[s], r.table[s])
  {
    hide Hello, SeqCompare;
  }

  lemma ForwardWorsens(n: Node, sender: u32, m: Rrep, now: Time, junk: u32, s: u8)
    requires s in n.table && n.table[s].seqValid
    requires s == Slot(m.destIp) ==> SeqCompare(m.destSeq, n.table[s].destSeq) == m.destSeq - n.table[s].destSeq
    ensures var e, r := n.table[s], ForwardRoute(n, sender, m, now, junk);
            && s in r.table
            && (NotWorse(e, r.table[s]) <==>
                  !(s == Slot(m.destIp) && m.destSeq == e.destSeq && m.hopCount > e.hopCount))
  {
    hide ForwardRoute, SeqCompare;
  }

  // ---- Whole runs ----

  predicate AllCarry(run: seq<Step>, s: u8, w: u32) {
    forall i :: 0 <= i < |run| ==> Carries(run[i].event, s, w)
  }

  /** The entry in slot s is in the table all along. */
  predicate Stays(n: Node, run: seq<Step>, s: u8)
    requires Legal(n, run)
    decreases |run|
  {
    s in n.table && (run != [] ==> Stays(After(n, run[0]), run[1..], s))
  }

  lemma {:induction false} RunRecorded(n: Node, run: seq<Step>, s: u8, w: u32)
    requires Legal(n, run) && AllCarry(run, s, w) && Recorded(n, s, w)
    ensures Recorded(Final(n, run), s, w)
    decreases |run|
  {
    hide Apply, Enabled, Recorded;
    if run == [] {
    } else {
      EventFresh(n, run[0].event, run[0].now, s, w);
      assert AllCarry(run[1..], s, w);
      RunRecorded(After(n, run[0]), run[1..], s, w);
    }
  }

  lemma {:induction false} RunFresh(n: Node, run: seq<Step>, s: u8, w: u32)
    requires Legal(n, run) && AllCarry(run, s, w) && Recorded(n, s, w) && Stays(n, run, s)
    ensures s in Final(n, run).table && Fresher(n.table[s], Final(n, run).table[s])
    decreases |run|
  {
    hide Apply, Enabled, Recorded;
    if run == [] {
    } else {
      EventFresh(n, run[0].event, run[0].now, s, w);
      assert AllCarry(run[1..], s, w);
      RunFresh(After(n, run[0]), run[1..], s, w);
    }
  }

  /** From the start of the daemon: between any two moments with the entry in the table throughout, and no
      error received, a valid number for a node whose numbers lie in one window does not go back. */
  lemma FreshnessGrows(ip: u32, broadcastIp: u32, before: seq<Step>, during: seq<Step>, s: u8, w: u32)
    requires Legal(Boot(ip, broadcastIp), before) && AllCarry(before, s, w)
    requires var n := Final(Boot(ip, broadcastIp), before);
             Legal(n, during) && AllCarry(during, s, w) && Stays(n, during, s)
    ensures var n := Final(Boot(ip, broadcastIp), before);
            s in Final(n, during).table && Fresher(n.table[s], Final(n, during).table[s])
  {
    RunRecorded(Boot(ip, broadcastIp), before, s, w);
    RunFresh(Final(Boot(ip, broadcastIp), before), during, s, w);
  }

  /** An error does take numbers back: the received number is copied, whatever it is. */
  lemma ErrorLowersNumber(n: Node, sender: u32, pair: Pair, now: Time)
    requires Hit(n, sender, pair)
    ensures var r := RecvRerr(n, sender, [pair], now).node;
            HasEntry(r, pair.destIp) && EntryOf(r, pair.destIp).destSeq == pair.destSeq
    ensures EntryOf(n, pair.destIp).seqValid && pair.destSeq < EntryOf(n, pair.destIp).destSeq ==>
              !Fresher(EntryOf(n, pair.destIp), EntryOf(RecvRerr(n, sender, [pair], now).node, pair.destIp))
  {
    hide Invalidate, Collect;
    var n1 := Invalidate(n, pair, now);
    var r := Collect(Resend(0, false, 0, []), EntryOf(n, pair.destIp), pair.destSeq);
    assert ScanPairs(n, sender, [pair], now, Resend(0, false, 0, [])) == ScanPairs(n1, sender, [pair][1..], now, r);
  }
}
