/** What recv_rerr does with a list of broken destinations, and when nobody is forgotten. */
module RouteErrors {
  import opened Aodv
  import opened Messages
  import opened TimeFuncs
  import opened RoutingTable
  import opened SendMessages
  import opened RecvMessages

  /** The number listed first for a slot. */
  function FirstNumber(pairs: seq<Pair>, s: u8): Messages.Option<u32> {
    if pairs == [] then None
    else if Slot(pairs[0].destIp) == s then Some(pairs[0].destSeq)
    else FirstNumber(pairs[1..], s)
  }

  predicate Affected(e: Entry, sender: u32) {
    e.routeValid && e.nextHop == sender
  }

  /** The fields of an entry that lost its route, with the number it was given. */
  predicate LostRoute(e: Entry, e': Entry, destSeq: u32, now: Time) {
    && e' == e.(destSeq := destSeq, routeValid := false, timeOut := e'.timeOut, expirationThread := e'.expirationThread)
    && e'.timeOut.Ns() == now.Ns() + DELETE_PERIOD * MILLION
  }

  // ---- The table ----

  lemma InvalidateEntry(n: Node, pair: Pair, now: Time)
    requires HasEntry(n, pair.destIp)
    ensures LostRoute(EntryOf(n, pair.destIp), EntryOf(Invalidate(n, pair, now), pair.destIp), pair.destSeq, now)
  {
    hide AddMs;
  }

  /** Exactly the listed entries that were valid through the sender become invalid, each with the
      number listed first for it; every other entry is untouched. */
  lemma {:induction false} ScanTable(n: Node, sender: u32, pairs: seq<Pair>, now: Time, r: Resend, s: u8)
    requires ResendOk(r)
    ensures var n' := ScanPairs(n, sender, pairs, now, r).node;
            && n'.table.Keys == n.table.Keys
            && (s in n.table ==>
                  if FirstNumber(pairs, s).Some? && Affected(n.table[s], sender)
                  then LostRoute(n.table[s], n'.table[s], FirstNumber(pairs, s).value, now)
                  else n'.table[s] == n.table[s])
    decreases |pairs|
  {
    hide Invalidate, Collect, AddMs;
    if pairs == [] {
    } else {
      if Hit(n, sender, pairs[0]) {
        var n1 := Invalidate(n, pairs[0], now);
        InvalidateEntry(n, pairs[0], now);
        ScanTable(n1, sender, pairs[1..], now, Collect(r, EntryOf(n, pairs[0].destIp), pairs[0].destSeq), s);
      } else {
        ScanTable(n, sender, pairs[1..], now, r, s);
      }
    }
  }

  // ---- The error sent on ----

  /** An entry whose loss must be reported, with the number to report. */
  datatype Report = Report(entry: Entry, destSeq: u32)

  /** In list order, the affected entries with precursors, each once. */
  ghost function Due(t: map<u8, Entry>, sender: u32, pairs: seq<Pair>, done: set<u8>): seq<Report> {
    if pairs == [] then []
    else
      var s := Slot(pairs[0].destIp);
      var rest := Due(t, sender, pairs[1..], done + {s});
      if s in t && s !in done && Affected(t[s], sender) && t[s].precursors != []
      then [Report(t[s], pairs[0].destSeq)] + rest else rest
  }

  ghost function CollectAll(r: Resend, due: seq<Report>): (r': Resend)
    requires ResendOk(r)
    ensures ResendOk(r')
    decreases |due|
  {
    if due == [] then r else CollectAll(Collect(r, due[0].entry, due[0].destSeq), due[1..])
  }

  /** The scan collects what is due by the original table. */
  lemma {:induction false} ScanCollects(t: map<u8, Entry>, n: Node, sender: u32, pairs: seq<Pair>, now: Time,
                                        r: Resend, done: set<u8>)
    requires ResendOk(r) && n.table.Keys == t.Keys
    requires forall s :: s in t ==> n.table[s] == t[s] || (s in done && !Affected(n.table[s], sender))
    requires forall s :: s in t && s in done ==> !Affected(n.table[s], sender)
    ensures ScanPairs(n, sender, pairs, now, r).resend == CollectAll(r, Due(t, sender, pairs, done))
    decreases |pairs|
  {
    hide Invalidate, Collect, AddMs;
    if pairs == [] {
    } else {
      var s := Slot(pairs[0].destIp);
      if Hit(n, sender, pairs[0]) {
        var n1 := Invalidate(n, pairs[0], now);
        InvalidateEntry(n, pairs[0], now);
        ScanCollects(t, n1, sender, pairs[1..], now, Collect(r, n.table[s], pairs[0].destSeq), done + {s});
        CollectNothing(r, n.table[s], pairs[0].destSeq);
        assert Due(t, sender, pairs, done) == (if t[s].precursors != [] then [Report(t[s], pairs[0].destSeq)] else []) +
                                              Due(t, sender, pairs[1..], done + {s});
      } else {
        ScanCollects(t, n, sender, pairs[1..], now, r, done + {s});
      }
    }
  }

  lemma CollectNothing(r: Resend, e: Entry, destSeq: u32)
    requires ResendOk(r)
    ensures e.precursors == [] ==> Collect(r, e, destSeq) == r
  {
  }

  lemma {:induction false} CollectAllLast(r: Resend, due: seq<Report>, d: Report)
    requires ResendOk(r)
    ensures CollectAll(r, due + [d]) == Collect(CollectAll(r, due), d.entry, d.destSeq)
    decreases |due|
  {
    hide Collect;
    if due == [] {
      assert due + [d] == [d];
      assert CollectAll(Collect(r, d.entry, d.destSeq), [d][1..]) == Collect(r, d.entry, d.destSeq);
    } else {
      assert (due + [d])[1..] == due[1..] + [d] && (due + [d])[0] == due[0];
      CollectAllLast(Collect(r, due[0].entry, due[0].destSeq), due[1..], d);
    }
  }

  ghost function PairsOf(due: seq<Report>): seq<Pair> {
    seq(|due|, i requires 0 <= i < |due| => Pair(due[i].entry.destIp, due[i].destSeq))
  }

  const START := Resend(0, false, 0, [])

  ghost predicate AllListed(due: seq<Report>) {
    forall d <- due :: d.entry.precursors != []
  }

  /** All precursor lists but the last are [0] and the last is one non-zero address. */
  ghost predicate ForOne(due: seq<Report>) {
    && due != []
    && (forall i :: 0 <= i < |due| - 1 ==> due[i].entry.precursors == [0])
    && |due[|due| - 1].entry.precursors| == 1 && due[|due| - 1].entry.precursors[0] != 0
  }

  ghost predicate ForNone(due: seq<Report>) {
    forall i :: 0 <= i < |due| ==> due[i].entry.precursors == [0]
  }

  /** The counter after the collected entries wraps in 8 bits. */
  lemma {:induction false} CollectedCount(due: seq<Report>)
    requires AllListed(due)
    ensures CollectAll(START, due).numDests == 2 * |due| % 256
    decreases |due|
  {
    if due == [] {
    } else {
      var before, d := due[..|due| - 1], due[|due| - 1];
      assert due == before + [d];
      assert d in due;
      hide CollectAll, Collect;
      CollectedCount(before);
      CollectAllLast(START, before, d);
      CollectCounts(CollectAll(START, before), d);
      NextCount(|before|);
    }
  }

  /** The pair of the last entry goes where the counter points. */
  lemma LastIsStored(before: seq<Report>, d: Report)
    requires AllListed(before) && d.entry.precursors != [] && |before| < 256
    ensures var r := CollectAll(START, before);
            && |before| % 128 <= |r.pairs|
            && CollectAll(START, before + [d]).pairs ==
               Store(r.pairs, |before| % 128, Pair(d.entry.destIp, d.destSeq))
  {
    hide CollectAll, Collect, Store;
    CollectedCount(before);
    CollectAllLast(START, before, d);
    HalfOfCount(|before|);
    CollectStores(CollectAll(START, before), d);
  }

  lemma CollectCounts(r: Resend, d: Report)
    requires ResendOk(r) && d.entry.precursors != []
    ensures Collect(r, d.entry, d.destSeq).numDests == (r.numDests + 2) % 256
  {
  }

  lemma NextCount(k: nat)
    ensures (2 * k % 256 + 2) % 256 == 2 * (k + 1) % 256
  {
  }

  lemma HalfOfCount(k: nat)
    ensures 2 * k % 256 / 2 == k % 128
  {
  }

  lemma CollectStores(r: Resend, d: Report)
    requires ResendOk(r) && d.entry.precursors != []
    ensures Collect(r, d.entry, d.destSeq).pairs == Store(r.pairs, r.numDests / 2, Pair(d.entry.destIp, d.destSeq))
  {
  }

  /** Up to 127 pairs are stored, in order. */
  lemma {:induction false} CollectedPairs(due: seq<Report>)
    requires AllListed(due) && |due| < 128
    ensures CollectAll(START, due).pairs == PairsOf(due)
    decreases |due|
  {
    if due == [] {
    } else {
      var before, d := due[..|due| - 1], due[|due| - 1];
      assert due == before + [d];
      CollectedPairs(before);
      assert d in due;
      LastIsStored(before, d);
      hide CollectAll;
      assert PairsOf(due) == PairsOf(before) + [Pair(d.entry.destIp, d.destSeq)];
    }
  }

  /** From the 129th on they overwrite the first ones, which are not sent. */
  lemma {:induction false} CollectedLate(due: seq<Report>)
    requires AllListed(due) && 128 <= |due| < 256
    ensures var r := CollectAll(START, due);
            |r.pairs| == 128 && r.pairs[..|due| - 128] == PairsOf(due)[128..]
    decreases |due|
  {
    var k := |due| - 1;
    var before, d := due[..k], due[k];
    assert due == before + [d];
    assert d in due;
    hide CollectAll;
    LastIsStored(before, d);
    if k == 127 {
      CollectedPairs(before);
    } else {
      CollectedLate(before);
    }
    var r, p := CollectAll(START, before), Pair(d.entry.destIp, d.destSeq);
    assert PairsOf(due) == PairsOf(before) + [p];
    if k > 127 {
      LastStored(r.pairs, k - 128, p, PairsOf(before)[128..]);
      assert PairsOf(due)[128..] == PairsOf(before)[128..] + [p];
    }
  }

  lemma LastStored(pairs: seq<Pair>, i: nat, p: Pair, first: seq<Pair>)
    requires i < |pairs| && pairs[..i] == first
    ensures Store(pairs, i, p)[..i + 1] == first + [p]
  {
  }

  /** To whom the error goes, by the locals single_rerr and broadcast_rerr. */
  lemma {:induction false} CollectedTarget(due: seq<Report>)
    requires AllListed(due)
    ensures var r := CollectAll(START, due);
            && (r.broadcast <==> !ForOne(due) && !ForNone(due))
            && (ForOne(due) ==> r.single == due[|due| - 1].entry.precursors[0] && r.single != 0)
            && (ForNone(due) ==> r.single == 0)
    decreases |due|
  {
    if due == [] {
    } else {
      var k := |due| - 1;
      var before, d := due[..k], due[k];
      assert due == before + [d];
      CollectedTarget(before);
      CollectAllLast(START, before, d);
      hide CollectAll;
      assert ForNone(due) <==> ForNone(before) && d.entry.precursors == [0] by { LastOfNone(before, d); }
      assert ForOne(due) <==> ForNone(before) && |d.entry.precursors| == 1 && d.entry.precursors[0] != 0;
      assert |d.entry.precursors| == 1 && d.entry.precursors[0] == 0 ==> d.entry.precursors == [0];
    }
  }

  lemma LastOfNone(before: seq<Report>, d: Report)
    ensures ForNone(before + [d]) <==> ForNone(before) && d.entry.precursors == [0]
  {
    assert (before + [d])[|before|] == d;
    assert forall i :: 0 <= i < |before| ==> (before + [d])[i] == before[i];
  }

  // ---- recv_rerr as a whole ----

  ghost function DueOf(n: Node, sender: u32, pairs: seq<Pair>): seq<Report> {
    Due(n.table, sender, pairs, {})
  }

  /** The destinations an outgoing error names. */
  ghost function Named(outs: seq<Out>): seq<Pair> {
    if |outs| == 1 && outs[0].message.RerrMessage? then outs[0].message.pairs else []
  }

  lemma {:induction false} DueListed(t: map<u8, Entry>, sender: u32, pairs: seq<Pair>, done: set<u8>)
    ensures AllListed(Due(t, sender, pairs, done)) && |Due(t, sender, pairs, done)| <= |pairs|
  {
    if pairs == [] {
    } else {
      DueListed(t, sender, pairs[1..], done + {Slot(pairs[0].destIp)});
    }
  }

  /** The error sent on names exactly the lost destinations with precursors, in list order and with
      the received numbers, if and only if there are fewer than 128 of them. */
  lemma RerrNames(n: Node, sender: u32, pairs: seq<Pair>, now: Time)
    requires |pairs| < 256
    ensures var due := DueOf(n, sender, pairs);
            Named(RecvRerr(n, sender, pairs, now).outs) == PairsOf(due) <==> |due| < 128
  {
    hide ScanPairs, CollectAll;
    var due := DueOf(n, sender, pairs);
    ScanCollects(n.table, n, sender, pairs, now, START, {});
    DueListed(n.table, sender, pairs, {});
    CollectedCount(due);
    if |due| < 128 {
      CollectedPairs(due);
    }
  }

  /** With 128 or more it names those from the 129th on. */
  lemma RerrNamesLast(n: Node, sender: u32, pairs: seq<Pair>, now: Time)
    requires |pairs| < 256
    ensures var due := DueOf(n, sender, pairs);
            Named(RecvRerr(n, sender, pairs, now).outs) == if |due| < 128 then PairsOf(due) else PairsOf(due)[128..]
  {
    RerrNames(n, sender, pairs, now);
    hide ScanPairs, CollectAll;
    var due := DueOf(n, sender, pairs);
    ScanCollects(n.table, n, sender, pairs, now, START, {});
    DueListed(n.table, sender, pairs, {});
    CollectedCount(due);
    if |due| >= 128 {
      CollectedLate(due);
    }
  }

  /** It goes to a single precursor exactly when ForOne holds of what is due. */
  lemma RerrGoes(n: Node, sender: u32, pairs: seq<Pair>, now: Time)
    requires |pairs| < 256
    ensures var due := DueOf(n, sender, pairs);
            var outs := RecvRerr(n, sender, pairs, now).outs;
            if |due| % 128 == 0 then outs == []
            else if ForOne(due) then outs == [Unicast(due[|due| - 1].entry.precursors[0], RerrMessage(Named(outs)))]
            else outs == [Broadcast(RerrMessage(Named(outs)))]
  {
    hide ScanPairs, CollectAll;
    var due := DueOf(n, sender, pairs);
    ScanCollects(n.table, n, sender, pairs, now, START, {});
    DueListed(n.table, sender, pairs, {});
    CollectedCount(due);
    CollectedTarget(due);
  }

  /** Without the address 0 among the precursors that means: one destination, with one precursor. */
  lemma ForOneMeansOne(due: seq<Report>)
    requires forall d <- due :: d.entry.precursors != [] && 0 !in d.entry.precursors
    ensures ForOne(due) <==> |due| == 1 && |due[0].entry.precursors| == 1
  {
    if |due| > 1 {
      var zero: seq<u32> := [0];
      assert due[0] in due && 0 in zero;
    }
    if |due| == 1 {
      assert due[0] in due && due[0].entry.precursors[0] in due[0].entry.precursors;
    }
  }

  /** No error this node sends on names more than 127 destinations. */
  lemma RerrIsShort(n: Node, sender: u32, pairs: seq<Pair>, now: Time)
    ensures forall o <- RecvRerr(n, sender, pairs, now).outs :: o.message.RerrMessage? && |o.message.pairs| <= 127
  {
    hide ScanPairs;
  }
}
