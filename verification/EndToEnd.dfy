/** From a request to the reply it causes: numbers for the destination do not get older on the way. */
module EndToEnd {
  import opened Aodv
  import opened Messages
  import opened TimeFuncs
  import opened RoutingTable
  import opened SendMessages
  import opened RecvMessages
  import opened Callbacks
  import opened Freshness
  import opened ReplyHandling

  /** A node receives the message so far and sends the next one. */
  datatype Hop<T> = Hop(node: Node, sender: u32, now: Time, junk: u32, junk': u32, out: T)

  /** Whatever the node has recorded for d lies in the window, and if it is d itself so do its own number
      and the next. */
  predicate Windowed(n: Node, d: u32, w: u32) {
    && (HasEntry(n, d) && EntryOf(n, d).seqValid ==> Window(w, EntryOf(n, d).destSeq))
    && (n.ip == d ==> Window(w, n.sequenceNum) && n.sequenceNum < WORD - 1 && Window(w, n.sequenceNum + 1))
  }

  // ---- The request on its way ----

  ghost predicate RequestPath(m: Rreq, path: seq<Hop<Rreq>>)
    decreases |path|
  {
    path != [] ==>
      var h := path[0];
      && Broadcast(RreqMessage(h.out)) in RecvRreq(h.node, h.sender, m, h.now, h.junk).outs
      && RequestPath(h.out, path[1..])
  }

  function LastRequest(m: Rreq, path: seq<Hop<Rreq>>): Rreq {
    if path == [] then m else path[|path| - 1].out
  }

  /** A request that knows a number, for another node than its own. */
  predicate Informed(m: Rreq, w: u32) {
    !m.Unknown() && Slot(m.srcIp) != Slot(m.destIp) && Window(w, m.destSeq)
  }

  /** The node's record of d when it decides about the request is the one it had, or has no valid number. */
  lemma RecordIsOld(n: Node, sender: u32, message: Rreq, now: Time, junk: u32)
    requires Slot(message.srcIp) != Slot(message.destIp)
    ensures var m := message.(hopCount := NextHopCount(message.hopCount));
            var n2 := ReverseRoute(PreviousHop(n, sender, message.srcIp, now, junk), sender, m, now);
            n2.ip == n.ip && n2.sequenceNum == n.sequenceNum &&
            (HasEntry(n2, m.destIp) && EntryOf(n2, m.destIp).seqValid ==>
               HasEntry(n, m.destIp) && SaysSame(EntryOf(n, m.destIp), EntryOf(n2, m.destIp)))
  {
    hide PreviousHop, ReverseRoute;
  }

  /** What a node makes of an informed request: a relayed request or a reply for d with a number at least as new. */
  lemma AnswerIsFresh(n: Node, sender: u32, m: Rreq, now: Time, w: u32)
    requires HasEntry(n, m.srcIp) && Informed(m, w) && Windowed(n, m.destIp, w)
    ensures forall o <- Answer(n, sender, m, now).outs ::
              && (o.message.RreqMessage? ==>
                    var m' := o.message.rreq;
                    Informed(m', w) && m'.destSeq >= m.destSeq && m'.destIp == m.destIp && m'.srcIp == m.srcIp)
              && (o.message.RrepMessage? && o.message.rrep.destIp == m.destIp ==>
                    && Window(w, o.message.rrep.destSeq) && o.message.rrep.destSeq >= m.destSeq
                    && o.message.rrep.srcIp == m.srcIp)
  {
    hide Activate, SendRrepIntermediate, SeqCompare;
    if CanAnswer(n, m) {
      IntermediateReplies(n, m, sender, now);
    }
    if HasEntry(n, m.destIp) && EntryOf(n, m.destIp).seqValid {
      SeqCompareInWindow(m.destSeq, EntryOf(n, m.destIp).destSeq);
    }
    if n.ip == m.destIp {
      SeqCompareInWindow(m.destSeq, n.sequenceNum + 1);
    }
  }

  /** An intermediate node replies with the number it has recorded, and to the destination about the originator. */
  lemma IntermediateReplies(n: Node, m: Rreq, sender: u32, now: Time)
    requires HasEntry(n, m.destIp) && HasEntry(n, m.srcIp)
    ensures forall o <- SendRrepIntermediate(n, m, sender, now).outs ::
              && o.message.RrepMessage?
              && (o.message.rrep.destIp == m.srcIp ||
                  (o.message.rrep.destIp == m.destIp && o.message.rrep.srcIp == m.srcIp &&
                   o.message.rrep.destSeq == EntryOf(n, m.destIp).destSeq))
  {
    hide AddPrecursor, Remaining;
  }

  lemma RequestStepIsFresh(n: Node, sender: u32, message: Rreq, now: Time, junk: u32, w: u32)
    requires Informed(message, w) && Windowed(n, message.destIp, w)
    ensures forall o <- RecvRreq(n, sender, message, now, junk).outs ::
              && (o.message.RreqMessage? ==>
                    var m' := o.message.rreq;
                    && Informed(m', w) && m'.destSeq >= message.destSeq
                    && m'.destIp == message.destIp && m'.srcIp == message.srcIp)
              && (o.message.RrepMessage? && o.message.rrep.destIp == message.destIp ==>
                    && Window(w, o.message.rrep.destSeq) && o.message.rrep.destSeq >= message.destSeq
                    && o.message.rrep.srcIp == message.srcIp)
  {
    hide PreviousHop, ReverseRoute, Answer, AlreadySeen;
    var m := message.(hopCount := NextHopCount(message.hopCount));
    RecordIsOld(n, sender, message, now, junk);
    AnswerIsFresh(ReverseRoute(PreviousHop(n, sender, message.srcIp, now, junk), sender, m, now), sender, m, now, w);
  }

  lemma {:induction false} RequestPathIsFresh(m: Rreq, path: seq<Hop<Rreq>>, w: u32)
    requires RequestPath(m, path) && Informed(m, w)
    requires forall h <- path :: Windowed(h.node, m.destIp, w)
    ensures var last := LastRequest(m, path);
            Informed(last, w) && last.destSeq >= m.destSeq && last.destIp == m.destIp && last.srcIp == m.srcIp
    decreases |path|
  {
    hide RecvRreq, Informed, Windowed;
    if path == [] {
    } else {
      var h := path[0];
      assert h in path;
      RequestStepIsFresh(h.node, h.sender, m, h.now, h.junk, w);
      RequestPathIsFresh(h.out, path[1..], w);
    }
  }

  // ---- The reply on its way back ----

  ghost predicate ReplyPath(m: Rrep, path: seq<Hop<Rrep>>)
    decreases |path|
  {
    path != [] ==>
      var h := path[0];
      && (exists to :: Unicast(to, RrepMessage(h.out)) in RecvRrep(h.node, h.sender, m, h.now, h.junk, h.junk').outs)
      && ReplyPath(h.out, path[1..])
  }

  function LastReply(m: Rrep, path: seq<Hop<Rrep>>): Rrep {
    if path == [] then m else path[|path| - 1].out
  }

  /** A node passes a reply on one hop further and otherwise as it came. */
  lemma ReplyHop(n: Node, sender: u32, m: Rrep, now: Time, junk: u32, junk': u32)
    ensures forall o <- RecvRrep(n, sender, m, now, junk, junk').outs ::
              o.Unicast? && o.message == RrepMessage(m.(hopCount := NextHopCount(m.hopCount)))
  {
    hide RecvRrep, Joined;
    if m.srcIp != 0 {
      ReplyIsPassedOn(n, sender, m, now, junk, junk');
    } else {
      HelloIsSilent(n, sender, m, now, junk, junk');
    }
  }

  lemma HelloIsSilent(n: Node, sender: u32, m: Rrep, now: Time, junk: u32, junk': u32)
    requires m.srcIp == 0
    ensures RecvRrep(n, sender, m, now, junk, junk').outs == []
  {
    hide PreviousHop, ForwardRoute, ForwardReply, Hello, StopSearch;
  }

  /** Along any path back a reply changes in its hop count alone, which counts the hops, in 8 bits. */
  lemma {:induction false} ReplyPathCountsHops(m: Rrep, path: seq<Hop<Rrep>>)
    requires ReplyPath(m, path)
    ensures LastReply(m, path) == m.(hopCount := (m.hopCount + |path|) % 256)
    decreases |path|
  {
    hide RecvRrep;
    if path == [] {
    } else {
      var h := path[0];
      ReplyHop(h.node, h.sender, m, h.now, h.junk, h.junk');
      ReplyPathCountsHops(h.out, path[1..]);
    }
  }

  /** The originator takes the reply when its record still has the number it asked with. */
  lemma OriginatorAccepts(n: Node, sender: u32, m: Rrep, asked: u32, now: Time, junk: u32, junk': u32)
    requires -HALF < m.destSeq - asked < HALF && asked <= m.destSeq && m.srcIp == n.ip != 0
    requires HasEntry(n, m.destIp) && EntryOf(n, m.destIp).destSeq == asked
    ensures var r := RecvRrep(n, sender, m, now, junk, junk').node;
            HasEntry(r, m.destIp) && SaysRoute(EntryOf(r, m.destIp), m.destSeq, true, sender, NextHopCount(m.hopCount))
  {
    hide PreviousHop, ForwardRoute, ForwardReply, SeqCompare;
    SeqCompareInWindow(m.destSeq, asked);
    assert HasEntry(StopSearch(n, m), m.destIp) && EntryOf(StopSearch(n, m), m.destIp).destSeq == asked;
  }

  /** The way of a request and of the reply it causes, all nodes with their numbers for the destination in one
      window. */
  ghost predicate Answered(m: Rreq, path: seq<Hop<Rreq>>, answerer: Hop<Rrep>, back: seq<Hop<Rrep>>, w: u32) {
    && RequestPath(m, path) && (forall h <- path :: Windowed(h.node, m.destIp, w))
    && Windowed(answerer.node, m.destIp, w) && answerer.out.destIp == m.destIp
    && (exists to :: Unicast(to, RrepMessage(answerer.out)) in
          RecvRreq(answerer.node, answerer.sender, LastRequest(m, path), answerer.now, answerer.junk).outs)
    && ReplyPath(answerer.out, back)
  }

  /** The answer that comes back is about the destination asked for, for the node that asked, with a number in the
      window that is at least the one asked with, and it has counted its hops. */
  lemma AnswerComesBack(m: Rreq, path: seq<Hop<Rreq>>, answerer: Hop<Rrep>, back: seq<Hop<Rrep>>, w: u32)
    requires Informed(m, w) && Answered(m, path, answerer, back, w)
    ensures var last := LastReply(answerer.out, back);
            && last.destIp == m.destIp && last.srcIp == m.srcIp && Window(w, last.destSeq)
            && last.destSeq == answerer.out.destSeq >= LastRequest(m, path).destSeq >= m.destSeq
            && last.hopCount == (answerer.out.hopCount + |back|) % 256
  {
    hide RecvRreq, RecvRrep, RequestPath, ReplyPath, Windowed;
    RequestPathIsFresh(m, path, w);
    RequestStepIsFresh(answerer.node, answerer.sender, LastRequest(m, path), answerer.now, answerer.junk, w);
    ReplyPathCountsHops(answerer.out, back);
  }

  /** Along any path a request takes through any nodes, with all numbers for the destination in one window: the reply
      it causes carries a number at least as new as the one asked with, keeps it on any path back, and
      the originator, if its record has not changed, takes the route it offers, with the hops the reply has made. */
  lemma EndToEndFreshness(m: Rreq, path: seq<Hop<Rreq>>, answerer: Hop<Rrep>, back: seq<Hop<Rrep>>,
                          origin: Node, sender: u32, now: Time, junk: u32, junk': u32, w: u32)
    requires Informed(m, w) && Answered(m, path, answerer, back, w) && m.srcIp == origin.ip != 0
    requires HasEntry(origin, m.destIp) && EntryOf(origin, m.destIp).destSeq == m.destSeq
    ensures var last := LastReply(answerer.out, back);
            var r := RecvRrep(origin, sender, last, now, junk, junk').node;
            && last.destSeq == answerer.out.destSeq >= LastRequest(m, path).destSeq >= m.destSeq && HasEntry(r, m.destIp)
            && SaysRoute(EntryOf(r, m.destIp), last.destSeq, true, sender, (answerer.out.hopCount + |back| + 1) % 256)
  {
    hide RecvRrep, Answered;
    AnswerComesBack(m, path, answerer, back, w);
    OriginatorAccepts(origin, sender, LastReply(answerer.out, back), m.destSeq, now, junk, junk');
  }

  /** The theorem has instances: here a destination two hops away answers. */
  lemma FreshnessHasInstance()
    returns (m: Rreq, relay: Hop<Rreq>, answerer: Hop<Rrep>, origin: Node, w: u32)
    ensures Informed(m, w) && RequestPath(m, [relay]) && Windowed(relay.node, m.destIp, w)
    ensures Windowed(answerer.node, m.destIp, w) && answerer.out.destIp == m.destIp
    ensures exists to :: Unicast(to, RrepMessage(answerer.out)) in
              RecvRreq(answerer.node, answerer.sender, relay.out, answerer.now, answerer.junk).outs
    ensures m.srcIp == origin.ip != 0
    ensures HasEntry(origin, m.destIp) && EntryOf(origin, m.destIp).destSeq == m.destSeq
  {
    hide RecvRreq, Slot, RequestPath;
    var D: u32, R: u32, O: u32 := 0x0100_0001, 0x0200_0001, 0x0300_0001;
    var now := Instant(1, 0);
    m, w := Rreq(0, 3, 0, 9, D, 5, O, 1), 0;
    var record := Entry(D, 5, true, R, 2, false, now, [], [], 0, 0, 0, NoSearch, 0, 0);
    origin := Node(O, 0, 0, 0, map[Slot(D) := record], 0, {}, map[], 0, Waiting);
    relay := Hop(Boot(R, 0), O, now, 0, 0, m.(hopCount := 1, ttl := 2));
    answerer := Hop(Boot(D, 0).(sequenceNum := 7), R, now, 0, 0, Rrep(0, 0, D, 8, O, MY_ROUTE_TIMEOUT));
    ThreeSlots(D, R, O);
    RelayInstance(relay.node, m, now);
    OneHop(m, relay);
    AnswerInstance(answerer.node, R, relay.out, now);
  }

  lemma ThreeSlots(D: u32, R: u32, O: u32)
    requires D == 0x0100_0001 && R == 0x0200_0001 && O == 0x0300_0001
    ensures Slot(D) != Slot(O) && Slot(R) != Slot(O)
  {
  }

  lemma OneHop(m: Rreq, h: Hop<Rreq>)
    requires Broadcast(RreqMessage(h.out)) in RecvRreq(h.node, h.sender, m, h.now, h.junk).outs
    ensures RequestPath(m, [h])
  {
    hide RecvRreq;
    assert RequestPath(h.out, [h][1..]);
  }

  /** A node that knows neither originator nor destination relays a request straight from its originator. */
  lemma RelayInstance(n: Node, m: Rreq, now: Time)
    requires n.table == map[] && m.srcIp != n.ip && m.destIp != n.ip && Slot(m.srcIp) != Slot(m.destIp)
    requires m.ttl > 1 && m.rreqId != 0
    ensures Broadcast(RreqMessage(m.(hopCount := NextHopCount(m.hopCount), ttl := m.ttl - 1))) in
              RecvRreq(n, m.srcIp, m, now, 0).outs
  {
    hide ReverseRoute, AddMs, WakeAt;
  }

  /** A destination answers the request of an originator it does not know. */
  lemma AnswerInstance(n: Node, sender: u32, m: Rreq, now: Time)
    requires n.table == map[] && m.srcIp != n.ip == m.destIp && Slot(m.srcIp) != Slot(sender)
    requires !m.Unknown() && m.destSeq <= n.sequenceNum < HALF - 1
    ensures Unicast(sender, RrepMessage(Rrep(0, 0, n.ip, n.sequenceNum + 1, m.srcIp, MY_ROUTE_TIMEOUT))) in
              RecvRreq(n, sender, m, now, 0).outs
  {
    hide PreviousHop, ReverseRoute, Activate, SeqCompare;
    SeqCompareInWindow(m.destSeq, n.sequenceNum + 1);
  }
}
