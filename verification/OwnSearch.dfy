/** From a node's own search to the route it ends up with: the route is at least as fresh as the one recorded when the
    search began. */
module OwnSearch {
  import opened Aodv
  import opened Messages
  import opened TimeFuncs
  import opened RoutingTable
  import opened SendMessages
  import opened RecvMessages
  import opened Callbacks
  import opened TableRefinement
  import opened Threads
  import opened Freshness
  import opened ReplyHandling
  import opened Questions
  import opened EndToEnd

  /** A run of a node in which search id begins with the first step and sends request m with the last. */
  predicate SendsWith(n: Node, run: seq<Step>, id: nat, m: Rreq) {
    && |run| >= 2 && Legal(n, run) && run[0].event == Wake(id) && run[|run| - 1].event == Wake(id)
    && Enabled(n, Wake(id), run[0].now) && n.threads[id].SearchStart?
    && var k := |run| - 1;
       && Legal(n, run[..k]) && Enabled(Final(n, run[..k]), Wake(id), run[k].now)
       && Broadcast(RreqMessage(m)) in Apply(Final(n, run[..k]), Wake(id), run[k].now).outs
  }

  lemma BeginThenRun(n: Node, run: seq<Step>)
    requires run != [] && Legal(n, run)
    ensures Legal(After(n, run[0]), run[1..]) && Final(n, run) == Final(After(n, run[0]), run[1..])
  {
  }

  /** The request asks with what is recorded when the search begins. */
  lemma SentIsQuestion(n: Node, run: seq<Step>, id: nat, m: Rreq)
    requires Ledger(n) && SendsWith(n, run, id, m)
    ensures Question(m, n.table[n.threads[id].slot], n.ip, Incr(n.sequenceNum))
  {
    hide Apply, Question, Ledger, Final;
    var k, e := |run| - 1, n.table[n.threads[id].slot];
    var upto := run[..k];
    assert upto[0] == run[0];
    BeginThenRun(n, upto);
    SearchAsks(n, id, run[0].now, upto[1..], run[k].now);
    assert run[0] == Step(Wake(id), run[0].now);
    SenderLives(Final(n, upto), id, run[k].now);
  }

  lemma SenderLives(n: Node, id: nat, now: Time)
    requires Enabled(n, Wake(id), now)
    ensures id in n.threads
  {
  }

  /** What the reply leaves at the originator: a valid route with the greater of both numbers; the way offered
      unless the number recorded is greater. */
  lemma ReplyAtOrigin(n: Node, sender: u32, m: Rrep, now: Time, junk: u32, junk': u32, w: u32)
    requires m.srcIp == n.ip != 0 && Window(w, m.destSeq) && HasEntry(n, m.destIp)
    requires EntryOf(n, m.destIp).seqValid && Window(w, EntryOf(n, m.destIp).destSeq)
    ensures var r, known := RecvRrep(n, sender, m, now, junk, junk').node, EntryOf(n, m.destIp);
            && HasEntry(r, m.destIp) && EntryOf(r, m.destIp).routeValid
            && if known.destSeq > m.destSeq then SaysSame(known, EntryOf(r, m.destIp))
               else SaysRoute(EntryOf(r, m.destIp), m.destSeq, true, sender, NextHopCount(m.hopCount))
  {
    hide RecvRrep, SeqCompare;
    SeqCompareInWindow(m.destSeq, EntryOf(n, m.destIp).destSeq);
    DestinationIsRecorded(n, sender, m, now, junk, junk');
  }

  /** A run in which the node searches, with request m, for a destination it has a valid number of, and goes on
      waiting; no error is received, the entry stays, and all numbers heard for the destination lie in one window. */
  ghost predicate SearchesAndWaits(n: Node, run: seq<Step>, id: nat, m: Rreq, wait: seq<Step>, w: u32) {
    && SendsWith(n, run, id, m) && n.table[n.threads[id].slot].seqValid && n.threads[id].slot != Slot(n.ip)
    && Legal(n, run + wait) && Stays(n, run + wait, n.threads[id].slot)
    && AllCarry(run + wait, n.threads[id].slot, w)
  }

  /** What the record was when the search began, what it is when the reply comes, and what it is then. */
  ghost predicate EndsFresh(asked: Entry, known: Node, m: Rrep, r: Node, sender: u32, hops: u32) {
    && m.destIp == asked.destIp && HasEntry(known, m.destIp) && HasEntry(r, m.destIp)
    && EntryOf(r, m.destIp).routeValid && EntryOf(r, m.destIp).seqValid && EntryOf(r, m.destIp).destSeq >= asked.destSeq
    && (EntryOf(known, m.destIp).destSeq <= m.destSeq ==>
          SaysRoute(EntryOf(r, m.destIp), m.destSeq, true, sender, hops))
  }

  /** From the start of a node that searches for a destination it has a valid number of: when an answer to any
      request of the search reaches it, it has a valid route with a number at least as great as the one recorded
      when the search began. It is the route of the answer, with the hops the answer has come, unless the node has
      heard of a greater number by then. */
  lemma SearchEndsFresher(ip: u32, broadcastIp: u32, before: seq<Step>, id: nat, run: seq<Step>, m: Rreq,
                          wait: seq<Step>, path: seq<Hop<Rreq>>, answerer: Hop<Rrep>, back: seq<Hop<Rrep>>,
                          sender: u32, now: Time, junk: u32, junk': u32, w: u32)
    requires ip != 0 && Legal(Boot(ip, broadcastIp), before)
    requires SearchesAndWaits(Final(Boot(ip, broadcastIp), before), run, id, m, wait, w)
    requires AllCarry(before, Final(Boot(ip, broadcastIp), before).threads[id].slot, w)
    requires Answered(m, path, answerer, back, w)
    ensures var n, last := Final(Boot(ip, broadcastIp), before), LastReply(answerer.out, back);
            var known := Final(n, run + wait);
            EndsFresh(n.table[n.threads[id].slot], known, last, RecvRrep(known, sender, last, now, junk, junk').node,
                      sender, (answerer.out.hopCount + |back| + 1) % 256)
  {
    hide Boot, Legal, Ledger, Placed, Final, Answered, EndsFresh, Freshness.Recorded, RecvRrep, LastReply, Apply,
      AllCarry, Stays, Question;
    var n := Final(Boot(ip, broadcastIp), before);
    ReachedState(ip, broadcastIp, before, n.threads[id].slot, w);
    hide SearchesAndWaits, Enabled, SendsWith;
    EndsFresher(n, id, run, m, wait, path, answerer, back, sender, now, junk, junk', w);
  }

  lemma ReachedState(ip: u32, broadcastIp: u32, before: seq<Step>, s: u8, w: u32)
    requires Legal(Boot(ip, broadcastIp), before) && AllCarry(before, s, w)
    ensures var n := Final(Boot(ip, broadcastIp), before);
            Ledger(n) && Placed(n) && n.ip == ip && Freshness.Recorded(n, s, w)
  {
    StepsKeep(Boot(ip, broadcastIp), before);
    RunPlaces(Boot(ip, broadcastIp), before);
    SeenRequests.RunKeepsAddress(Boot(ip, broadcastIp), before);
    RunRecorded(Boot(ip, broadcastIp), before, s, w);
    hide Legal, Final;
  }

  lemma EndsFresher(n: Node, id: nat, run: seq<Step>, m: Rreq, wait: seq<Step>, path: seq<Hop<Rreq>>,
                    answerer: Hop<Rrep>, back: seq<Hop<Rrep>>, sender: u32, now: Time, junk: u32, junk': u32, w: u32)
    requires n.ip != 0 && Ledger(n) && Placed(n) && SearchesAndWaits(n, run, id, m, wait, w)
    requires Freshness.Recorded(n, n.threads[id].slot, w) && Answered(m, path, answerer, back, w)
    ensures var known, last := Final(n, run + wait), LastReply(answerer.out, back);
            EndsFresh(n.table[n.threads[id].slot], known, last, RecvRrep(known, sender, last, now, junk, junk').node,
                      sender, (answerer.out.hopCount + |back| + 1) % 256)
  {
    hide Apply, Enabled, Legal, Final, Answered, RecvRrep, LastReply, Question;
    RecordAtReply(n, id, run, m, wait, w);
    AnswerComesBack(m, path, answerer, back, w);
    ReplyAtOrigin(Final(n, run + wait), sender, LastReply(answerer.out, back), now, junk, junk', w);
  }

  /** The request is informed, and when the reply comes the record is at least as new as it was. */
  lemma RecordAtReply(n: Node, id: nat, run: seq<Step>, m: Rreq, wait: seq<Step>, w: u32)
    requires Ledger(n) && Placed(n) && SearchesAndWaits(n, run, id, m, wait, w)
    requires Freshness.Recorded(n, n.threads[id].slot, w)
    ensures var s, known := n.threads[id].slot, Final(n, run + wait);
            && Informed(m, w) && m.destIp == n.table[s].destIp && Slot(m.destIp) == s && m.srcIp == n.ip
            && m.destSeq == n.table[s].destSeq && known.ip == n.ip && s in known.table && known.table[s].seqValid
            && known.table[s].destSeq >= m.destSeq && Window(w, known.table[s].destSeq)
  {
    var s := n.threads[id].slot;
    SentIsQuestion(n, run, id, m);
    assert Slot(n.table[s].destIp) == s;
    RunRecorded(n, run + wait, s, w);
    RunFresh(n, run + wait, s, w);
    SeenRequests.RunKeepsAddress(n, run + wait);
    hide Apply, Enabled, Legal, Ledger, Final, Stays, SendsWith, Slot, AllCarry;
  }
}
