/** A neighbour that was handed a route is told when the route is lost. */
module NoSilentLoss {
  import opened Aodv
  import opened Messages
  import opened TimeFuncs
  import opened RoutingTable
  import opened SendMessages
  import opened RecvMessages
  import opened Callbacks
  import opened Operations
  import opened Expiry
  import opened RouteErrors
  import opened TableRefinement
  import opened KernelAgreement

  /** A route handed out: its destination and the neighbour it was unicast to. */
  datatype Promise = Promise(dest: u32, neighbour: u32)

  /** A reply for a destination other than the node itself. */
  predicate HandsOut(ip: u32, o: Out) {
    o.Unicast? && o.message.RrepMessage? && o.message.rrep.destIp != ip
  }

  ghost function PromisesOf(ip: u32, outs: seq<Out>): set<Promise> {
    set o | o in outs && HandsOut(ip, o) :: Promise(o.message.rrep.destIp, o.to)
  }

  /** The promises after one step: those whose entry still lives, and the new ones. */
  ghost function NextPromises(n: Node, step: Step, past: set<Promise>): set<Promise>
    requires Enabled(n, step.event, step.now)
  {
    (set p | p in past && HasEntry(After(n, step), p.dest)) + PromisesOf(n.ip, Apply(n, step.event, step.now).outs)
  }

  /** The promises standing at the end of a run. */
  ghost function Promises(n: Node, run: seq<Step>, past: set<Promise>): set<Promise>
    requires Legal(n, run)
    decreases |run|
  {
    if run == [] then past else Promises(After(n, run[0]), run[1..], NextPromises(n, run[0], past))
  }

  ghost predicate Covered(n: Node, promises: set<Promise>) {
    forall p :: p in promises ==> HasEntry(n, p.dest) && p.neighbour in EntryOf(n, p.dest).precursors
  }

  ghost predicate Handed(n: Node, ip: u32, outs: seq<Out>) {
    forall o :: o in outs && HandsOut(ip, o) ==>
      HasEntry(n, o.message.rrep.destIp) && o.to in EntryOf(n, o.message.rrep.destIp).precursors
  }

  lemma AnswerHands(n: Node, sender: u32, m: Rreq, now: Time)
    requires HasEntry(n, m.srcIp)
    ensures var r := Answer(n, sender, m, now); Handed(r.node, n.ip, r.outs)
  {
    hide SendRrepIntermediate, ReplySequence, Relay, Activate;
    if CanAnswer(n, m) {
      IntermediateHands(n, sender, m, now);
    }
  }

  lemma IntermediateHands(n: Node, sender: u32, m: Rreq, now: Time)
    requires HasEntry(n, m.srcIp) && HasEntry(n, m.destIp)
    ensures var r := SendRrepIntermediate(n, m, sender, now); Handed(r.node, n.ip, r.outs)
  {
    hide Remaining;
    var d, o := Slot(m.destIp), Slot(m.srcIp);
    var n1 := AddPrecursor(n, d, sender);
    var n2 := AddPrecursor(n1, o, n1.table[d].nextHop);
    LastIn(n.table[d].precursors, sender);
    LastIn(n1.table[o].precursors, n1.table[d].nextHop);
    assert sender in n1.table[d].precursors && n1.table[d].precursors <= n2.table[d].precursors;
    assert n1.table[d].nextHop in n2.table[o].precursors;
  }

  lemma LastIn(s: seq<u32>, x: u32)
    ensures x in s + [x]
  {
    assert (s + [x])[|s|] == x;
  }

  lemma ForwardHands(n: Node, m: Rrep)
    requires HasEntry(n, m.destIp)
    ensures var r := ForwardReply(n, m); Handed(r.node, n.ip, r.outs)
  {
    if n.ip != m.srcIp && HasEntry(n, m.srcIp) {
      var d, o := Slot(m.destIp), Slot(m.srcIp);
      var n1 := AddPrecursor(Activate(n, o), o, n.table[d].nextHop);
      LastIn(n1.table[d].precursors, n.table[o].nextHop);
    }
  }

  lemma EventHands(n: Node, ev: Event, now: Time)
    requires Enabled(n, ev, now)
    ensures var r := Apply(n, ev, now); Handed(r.node, n.ip, r.outs)
  {
    hide PreviousHop, ReverseRoute, ForwardRoute, Hello, StopSearch, Answer, ForwardReply, AlreadySeen, ScanPairs,
      OutgoingMessage, ForwardedMessages, RefreshRoute, SendRreqOutcome, ExpirationFunc, RreqIdFunc, BeginSearch,
      FailSearch;
    match ev
    case ReceiveRreq(sender, message, junk) =>
      var n1 := PreviousHop(n, sender, message.srcIp, now, junk);
      var m := message.(hopCount := NextHopCount(message.hopCount));
      AnswerHands(ReverseRoute(n1, sender, m, now), sender, m, now);
    case ReceiveRrep(sender, message, junk, junk') =>
      var n2 := PreviousHop(StopSearch(n, message), sender, message.destIp, now, junk);
      var m := message.(hopCount := NextHopCount(message.hopCount));
      assert StopSearch(n, message).ip == n.ip by { StopSearchIp(n, message); }
      ForwardHands(ForwardRoute(n2, sender, m, now, junk'), m);
    case DataThrough(src, dest) => ForwardedHands(n, src, dest, now);
    case _ =>
  }

  lemma StopSearchIp(n: Node, m: Rrep)
    ensures StopSearch(n, m).ip == n.ip
  {
  }

  lemma ForwardedHands(n: Node, src: u32, dest: u32, now: Time)
    requires !LinkBreak(n, dest)
    ensures forall o <- ForwardedMessages(n, src, dest, now).outs :: o.message.RerrMessage? && |o.message.pairs| == 1
  {
    hide RefreshRoute;
  }

  // ---- Precursors stay ----

  lemma OperationKeepsLists(n: Node, op: Operation, now: Time, s: u8)
    requires Allowed(n, op, now) && s in n.table
    ensures var r := Do(n, op, now); s in r.table ==> n.table[s].precursors <= r.table[s].precursors
  {
    hide PreviousHop, ReverseRoute, ForwardRoute, Hello, StopSearch, Invalidate, RefreshRoute, LoseRoute, SendRreq,
      SendRreqOutcome, ExpirationFunc, BeginSearch, SendRing, FailSearch, RreqIdFunc, AddMs;
  }

  lemma {:induction false} OperationsKeepLists(n: Node, ops: seq<Operation>, now: Time, s: u8)
    requires AllAllowed(n, ops, now) && s in n.table && (|ops| <= 1 || forall op <- ops :: !op.Thread?)
    ensures var r := DoAll(n, ops, now); s in r.table ==> n.table[s].precursors <= r.table[s].precursors
    decreases |ops|
  {
    hide Do, Allowed;
    if ops == [] {
    } else {
      OperationKeepsLists(n, ops[0], now, s);
      if |ops| > 1 {
        OperationKeepsEntries(n, ops[0], now);
        OperationsKeepLists(Do(n, ops[0], now), ops[1..], now, s);
      } else {
        assert DoAll(n, ops, now) == Do(n, ops[0], now);
      }
    }
  }

  lemma EventKeepsLists(n: Node, ev: Event, now: Time, s: u8)
    requires Enabled(n, ev, now) && s in n.table
    ensures var r := Apply(n, ev, now).node; s in r.table ==> n.table[s].precursors <= r.table[s].precursors
  {
    hide Apply, OperationsOf;
    FewThreads(n, ev, now);
    EventIsOperations(n, ev, now);
    OperationsKeepLists(n, OperationsOf(n, ev, now), now, s);
  }

  lemma StepCovers(n: Node, step: Step, past: set<Promise>)
    requires Enabled(n, step.event, step.now) && Covered(n, past)
    ensures Covered(After(n, step), NextPromises(n, step, past))
  {
    hide Apply;
    EventHands(n, step.event, step.now);
    forall p | p in past && HasEntry(After(n, step), p.dest)
      ensures p.neighbour in EntryOf(After(n, step), p.dest).precursors
    {
      EventKeepsLists(n, step.event, step.now, Slot(p.dest));
    }
  }

  lemma {:induction false} RunCovers(n: Node, run: seq<Step>, past: set<Promise>)
    requires Legal(n, run) && Covered(n, past)
    ensures Covered(Final(n, run), Promises(n, run, past))
    decreases |run|
  {
    hide Apply, Enabled, NextPromises;
    if run == [] {
    } else {
      StepCovers(n, run[0], past);
      RunCovers(After(n, run[0]), run[1..], NextPromises(n, run[0], past));
    }
  }

  // ---- The report ----

  lemma {:induction false} DueContains(t: map<u8, Entry>, sender: u32, pairs: seq<Pair>, done: set<u8>, s: u8)
    requires s in t && s !in done && FirstNumber(pairs, s).Some? && Affected(t[s], sender) && t[s].precursors != []
    ensures Report(t[s], FirstNumber(pairs, s).value) in Due(t, sender, pairs, done)
  {
    var s0 := Slot(pairs[0].destIp);
    if s0 != s {
      DueContains(t, sender, pairs[1..], done + {s0}, s);
    }
  }

  lemma LastOfOne(due: seq<Report>, i: nat, ip: u32)
    requires i < |due| && ip in due[i].entry.precursors && ip != 0
    ensures ForOne(due) ==> i == |due| - 1 && due[i].entry.precursors == [ip]
  {
    var list := due[i].entry.precursors;
    assert list != [0];
  }

  /** What is due has one report for each entry, that of the entry's own slot. */
  lemma {:induction false} DueDistinct(t: map<u8, Entry>, sender: u32, pairs: seq<Pair>, done: set<u8>)
    requires forall s :: s in t ==> Slot(t[s].destIp) == s
    ensures var due := Due(t, sender, pairs, done);
            && (forall d <- due :: Slot(d.entry.destIp) in t && Slot(d.entry.destIp) !in done)
            && forall i, j :: 0 <= i < j < |due| ==> due[i].entry.destIp != due[j].entry.destIp
  {
    if pairs == [] {
    } else {
      var s, due := Slot(pairs[0].destIp), Due(t, sender, pairs, done);
      var rest := Due(t, sender, pairs[1..], done + {s});
      DueDistinct(t, sender, pairs[1..], done + {s});
      if due != rest {
        assert due == [Report(t[s], pairs[0].destSeq)] + rest;
        forall i, j | 0 <= i < j < |due|
          ensures due[i].entry.destIp != due[j].entry.destIp
        {
          assert due[j] == rest[j - 1] && rest[j - 1] in rest;
          assert i > 0 ==> due[i] == rest[i - 1];
        }
      }
    }
  }

  /** A neighbour is told the pair: it is in the one message sent, to that neighbour or to all. */
  predicate Told(outs: seq<Out>, pair: Pair, neighbour: u32) {
    && |outs| == 1 && outs[0].message.RerrMessage? && pair in outs[0].message.pairs
    && (outs[0].Broadcast? || outs[0].to == neighbour)
  }

  /** The error a node sends on tells a promised neighbour of the lost destination, with the number received,
      exactly when fewer than 128 reports are due or this is one of those from the 129th on. */
  lemma LossIsReported(n: Node, promises: set<Promise>, p: Promise, sender: u32, pairs: seq<Pair>, now: Time)
    requires Placed(n) && Covered(n, promises) && p in promises && p.neighbour != 0 && |pairs| < 256
    requires FirstNumber(pairs, Slot(p.dest)).Some? && Affected(EntryOf(n, p.dest), sender)
    ensures var due, e := DueOf(n, sender, pairs), EntryOf(n, p.dest);
            var report := Report(e, FirstNumber(pairs, Slot(p.dest)).value);
            && report in due
            && forall i :: 0 <= i < |due| && due[i] == report ==>
                 (Told(RecvRerr(n, sender, pairs, now).outs, Pair(e.destIp, report.destSeq), p.neighbour) <==>
                    |due| < 128 || i >= 128)
  {
    hide RecvRerr;
    var due, outs := DueOf(n, sender, pairs), RecvRerr(n, sender, pairs, now).outs;
    var report := Report(EntryOf(n, p.dest), FirstNumber(pairs, Slot(p.dest)).value);
    DueContains(n.table, sender, pairs, {}, Slot(p.dest));
    DueListed(n.table, sender, pairs, {});
    DueDistinct(n.table, sender, pairs, {});
    RerrNamesLast(n, sender, pairs, now);
    RerrGoes(n, sender, pairs, now);
    forall i | 0 <= i < |due| && due[i] == report
      ensures Told(outs, Pair(report.entry.destIp, report.destSeq), p.neighbour) <==> |due| < 128 || i >= 128
    {
      hide DueOf, Slot;
      LastOfOne(due, i, p.neighbour);
      ReportIsNamed(due, i);
    }
  }

  /** Where the pair of a report is among the last pairs. */
  lemma ReportIsNamed(due: seq<Report>, i: nat)
    requires i < |due| && forall j, k :: 0 <= j < k < |due| ==> due[j].entry.destIp != due[k].entry.destIp
    ensures var pair := Pair(due[i].entry.destIp, due[i].destSeq);
            pair in PairsOf(due) && (|due| >= 128 ==> (pair in PairsOf(due)[128..] <==> i >= 128))
  {
    var pair := Pair(due[i].entry.destIp, due[i].destSeq);
    assert PairsOf(due)[i] == pair;
    if |due| >= 128 {
      if i >= 128 {
        assert PairsOf(due)[128..][i - 128] == pair;
      } else {
        forall j | 0 <= j < |PairsOf(due)[128..]|
          ensures PairsOf(due)[128..][j] != pair
        {
          assert PairsOf(due)[128..][j].destIp == due[128 + j].entry.destIp;
        }
      }
    }
  }

  /** In every run of a node among addresses with distinct top bytes, whatever messages it receives: when an error takes
      away a route it has handed to a neighbour, the report of that loss is due, and the neighbour is told of its
      destination exactly when fewer than 128 reports are due or this is one of those from the 129th on. */
  lemma NoSilentRouteLoss(ip: u32, broadcastIp: u32, addresses: set<u32>, run: seq<Step>, p: Promise, sender: u32,
                          pairs: seq<Pair>, now: Time)
    requires DistinctSlots(addresses) && Legal(Boot(ip, broadcastIp), run) && AllConcern(run, addresses)
    requires p in Promises(Boot(ip, broadcastIp), run, {}) && p.dest in addresses && p.neighbour != 0
    requires |pairs| < 256
    ensures var n := Final(Boot(ip, broadcastIp), run);
            && HasEntry(n, p.dest) && EntryOf(n, p.dest).destIp == p.dest
            && (FirstNumber(pairs, Slot(p.dest)).Some? && Affected(EntryOf(n, p.dest), sender) ==>
                  var due, destSeq := DueOf(n, sender, pairs), FirstNumber(pairs, Slot(p.dest)).value;
                  && Report(EntryOf(n, p.dest), destSeq) in due
                  && forall i :: 0 <= i < |due| && due[i] == Report(EntryOf(n, p.dest), destSeq) ==>
                       (Told(RecvRerr(n, sender, pairs, now).outs, Pair(p.dest, destSeq), p.neighbour) <==>
                          |due| < 128 || i >= 128))
  {
    hide RecvRerr, DueOf, Told, Affected;
    RunCovers(Boot(ip, broadcastIp), run, {});
    KernelAgreement.StepsKeep(Boot(ip, broadcastIp), run, addresses);
    var n := Final(Boot(ip, broadcastIp), run);
    assert EntryOf(n, p.dest).destIp in addresses && Slot(EntryOf(n, p.dest).destIp) == Slot(p.dest);
    if FirstNumber(pairs, Slot(p.dest)).Some? && Affected(EntryOf(n, p.dest), sender) {
      LossIsReported(n, Promises(Boot(ip, broadcastIp), run, {}), p, sender, pairs, now);
    }
  }

  // ---- Promises are made ----

  /** A node that passes a reply on hands the route to its next hop towards the originator. */
  lemma ForwardingPromises(n: Node, sender: u32, m: Rrep, now: Time, junk: u32, junk': u32)
    requires m.srcIp != n.ip && m.srcIp != 0 && m.destIp != n.ip && HasEntry(n, m.srcIp)
    requires Slot(m.srcIp) != Slot(sender) && Slot(m.srcIp) != Slot(m.destIp)
    ensures Promise(m.destIp, EntryOf(n, m.srcIp).nextHop) in
              PromisesOf(n.ip, RecvRrep(n, sender, m, now, junk, junk').outs)
  {
    hide PreviousHop, ForwardRoute, Activate, AddPrecursor, Timely, SaysRoute, SaysSame, SearchKept, IndexKept,
      NoNewSearch, RoutesKept;
    var m' := m.(hopCount := NextHopCount(m.hopCount));
    var o := Unicast(EntryOf(n, m.srcIp).nextHop, RrepMessage(m'));
    assert RecvRrep(n, sender, m, now, junk, junk').outs == [o];
    assert HandsOut(n.ip, o);
  }

  /** The theorem has instances: a request from S for D comes through P, the reply through Q. */
  lemma PromiseHasInstance() returns (addresses: set<u32>, run: seq<Step>, p: Promise)
    ensures DistinctSlots(addresses) && AllConcern(run, addresses) && p.dest in addresses
    ensures Legal(Boot(0x0100_0001, 0), run) && p in Promises(Boot(0x0100_0001, 0), run, {}) && p.neighbour != 0
  {
    hide RecvRreq, RecvRrep, PromisesOf;
    var P: u32, Q: u32, S: u32, D: u32 := 0x0200_0001, 0x0300_0001, 0x0400_0001, 0x0500_0001;
    var n, now := Boot(0x0100_0001, 0), Instant(1, 0);
    var request, reply := Rreq(0, 3, 1, 9, D, 5, S, 1), Rrep(0, 1, D, 8, S, MY_ROUTE_TIMEOUT);
    var asked, answered := Step(ReceiveRreq(P, request, 0), now), Step(ReceiveRrep(Q, reply, 0, 0), now);
    addresses, run, p := {P, Q, S, D}, [asked, answered], Promise(D, P);
    RequestLeavesRoute(n, P, request, now);
    ForwardingPromises(After(n, asked), Q, reply, now, 0, 0);
    PromisedLast(n, asked, answered, p);
  }

  lemma PromisedLast(n: Node, first: Step, second: Step, p: Promise)
    requires Enabled(n, first.event, first.now) && Enabled(After(n, first), second.event, second.now)
    requires var n1 := After(n, first); p in PromisesOf(n1.ip, Apply(n1, second.event, second.now).outs)
    ensures Legal(n, [first, second]) && p in Promises(n, [first, second], {})
  {
    hide Enabled, Apply, PromisesOf;
    var run, n1 := [first, second], After(n, first);
    assert run[1..] == [second] && [second][1..] == [];
    assert Legal(After(n1, second), [second][1..]) && Legal(n1, [second]) && Legal(n, run);
    var past := NextPromises(n, first, {});
    assert p in NextPromises(n1, second, past);
    assert Promises(n1, [second], past) == Promises(After(n1, second), [second][1..], NextPromises(n1, second, past));
  }

  lemma RequestLeavesRoute(n: Node, sender: u32, m: Rreq, now: Time)
    requires n.table == map[] && m.srcIp != n.ip && Slot(m.srcIp) != Slot(sender)
    ensures var r := RecvRreq(n, sender, m, now, 0).node;
            r.ip == n.ip && HasEntry(r, m.srcIp) && EntryOf(r, m.srcIp).nextHop == sender
  {
    hide PreviousHop, ReverseRoute, Answer;
  }
}
