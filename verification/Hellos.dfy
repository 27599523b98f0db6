/** When a node says hello, and what it says. */
module Hellos {
  import opened Aodv
  import opened Messages
  import opened TimeFuncs
  import opened RoutingTable
  import opened SendMessages
  import opened RecvMessages
  import opened Callbacks

  // ---- Only the hello thread touches its state ----

  lemma RequestLeavesHello(n: Node, sender: u32, message: Rreq, now: Time, junk: u32)
    ensures RecvRreq(n, sender, message, now, junk).node.hello == n.hello
  {
    hide AddMs, WakeAt, ReverseLifetime, SeqCompare, Slot, Timely, SaysSame, SaysRoute, IndexKept, SearchKept, Grows,
      NoNewSearch, AddIfAbsent, MoreMarks, OnlySlot, Improves, CreateOrGet, AlreadySeen, KnowsNewer, ReplySequence,
      Remaining, Annotated, Relay;
  }

  lemma ReplyLeavesHello(n: Node, sender: u32, message: Rrep, now: Time, junk: u32, junk': u32)
    ensures RecvRrep(n, sender, message, now, junk, junk').node.hello == n.hello
  {
    hide AddMs, WakeAt, SeqCompare, Slot, Timely, SaysSame, SaysRoute, IndexKept, SearchKept, Grows, NoNewSearch,
      AddIfAbsent, MoreMarks, OnlySlot, RoutesKept, Accepts, CreateOrGet, Annotated;
  }

  lemma {:induction false} ScanLeavesHello(n: Node, sender: u32, pairs: seq<Pair>, now: Time, r: Resend)
    requires ResendOk(r)
    ensures ScanPairs(n, sender, pairs, now, r).node.hello == n.hello
    decreases |pairs|
  {
    hide Collect, AddMs, WakeAt, Timely, SaysRoute, IndexKept, NoNewSearch, OnlySlot, Slot;
    if pairs == [] {
    } else if Hit(n, sender, pairs[0]) {
      ScanLeavesHello(Invalidate(n, pairs[0], now), sender, pairs[1..], now,
                      Collect(r, EntryOf(n, pairs[0].destIp), pairs[0].destSeq));
    } else {
      ScanLeavesHello(n, sender, pairs[1..], now, r);
    }
  }

  lemma ThreadLeavesHello(n: Node, id: nat, now: Time)
    requires Enabled(n, Wake(id), now)
    ensures Run(n, id, now).node.hello == n.hello
  {
    hide AddMs, WakeAt, Plan, Timely, RoutesKept, NoNewSearch, OnlySlot;
  }

  lemma DataLeavesHello(n: Node, ev: Event, now: Time)
    requires Enabled(n, ev, now) && (ev.DataIn? || ev.DataThrough? || ev.DataOut? || ev.SearchOver?)
    ensures Apply(n, ev, now).node.hello == n.hello
  {
    hide AddMs, WakeAt, Slot, Timely, SaysSame, SaysRoute, IndexKept, NoNewSearch, OnlySlot, RoutesKept, Grows,
      CreateOrGet, NextHopUsable;
  }

  lemma EventLeavesHello(n: Node, ev: Event, now: Time)
    requires Enabled(n, ev, now) && !ev.HelloTick?
    ensures Apply(n, ev, now).node.hello == n.hello
  {
    hide RecvRreq, RecvRrep, ScanPairs, Run, IncomingDataMessage, ForwardedMessages, OutgoingMessage, SendRreqOutcome;
    match ev
    case ReceiveRreq(sender, m, junk) => RequestLeavesHello(n, sender, m, now, junk);
    case ReceiveRrep(sender, m, junk, junk') => ReplyLeavesHello(n, sender, m, now, junk, junk');
    case ReceiveRerr(sender, pairs) => ScanLeavesHello(n, sender, pairs, now, Resend(0, false, 0, []));
    case Wake(id) => ThreadLeavesHello(n, id, now);
    case _ => DataLeavesHello(n, ev, now);
  }

  // ---- Runs ----

  /** In the run the hello thread has seen an active route, an interval before the time given. */
  predicate SawActive(n: Node, run: seq<Step>, wake: int)
    requires Legal(n, run)
    decreases |run|
  {
    run != [] &&
    ((run[0].event.HelloTick? && n.activeRoutes != 0 && run[0].now.Ns() + 1000 * MILLION == wake) ||
     SawActive(After(n, run[0]), run[1..], wake))
  }

  lemma TurnSleeps(n: Node, now: Time)
    requires Enabled(n, HelloTick, now)
    ensures var r := Apply(n, HelloTick, now).node;
            r.hello.Sleeping? ==> n.activeRoutes != 0 && r.hello.wake == now.Ns() + 1000 * MILLION
  {
  }

  lemma {:induction false} SleepsBecause(n: Node, run: seq<Step>)
    requires Legal(n, run) && Final(n, run).hello.Sleeping?
    ensures n.hello == Final(n, run).hello || SawActive(n, run, Final(n, run).hello.wake)
    decreases |run|
  {
    hide Apply, Enabled;
    if run == [] {
    } else {
      SleepsBecause(After(n, run[0]), run[1..]);
      if run[0].event.HelloTick? {
        TurnSleeps(n, run[0].now);
      } else {
        EventLeavesHello(n, run[0].event, run[0].now);
      }
    }
  }

  /** In every run a turn of the hello thread either sends nothing and puts it to sleep, and then there is an active
      route; or it sends one hello to all, with the node's own address and number and for 2000 ms, and then the
      thread saw an active route at least 1000 ms before. Nothing else in the node changes. */
  lemma HelloIsGuarded(ip: u32, broadcastIp: u32, run: seq<Step>, now: Time)
    requires Legal(Boot(ip, broadcastIp), run) && Enabled(Final(Boot(ip, broadcastIp), run), HelloTick, now)
    ensures var n := Final(Boot(ip, broadcastIp), run);
            var r := Apply(n, HelloTick, now);
            && r.node == n.(hello := r.node.hello)
            && if r.node.hello.Sleeping? then
                 r.outs == [] && n.activeRoutes != 0 && r.node.hello.wake == now.Ns() + 1000 * MILLION
               else
                 && r.outs == [Broadcast(RrepMessage(Rrep(0, 0, n.ip, n.sequenceNum, 0, 2000)))]
                 && exists wake :: wake <= now.Ns() && SawActive(Boot(ip, broadcastIp), run, wake)
  {
    hide Final, Legal, Boot, SawActive, Apply, Enabled;
    var boot, n := Boot(ip, broadcastIp), Final(Boot(ip, broadcastIp), run);
    TurnIs(n, now);
    if n.hello.Sleeping? {
      SleepsBecause(boot, run);
      StartsAwake(ip, broadcastIp);
    }
  }

  lemma StartsAwake(ip: u32, broadcastIp: u32)
    ensures Boot(ip, broadcastIp).hello.Waiting?
  {
  }

  lemma TurnIs(n: Node, now: Time)
    requires Enabled(n, HelloTick, now)
    ensures var r := Apply(n, HelloTick, now);
            && r.node == n.(hello := r.node.hello)
            && if n.hello.Waiting? then
                 r.outs == [] && n.activeRoutes != 0 && r.node.hello == Sleeping(now.Ns() + 1000 * MILLION)
               else
                 && r.outs == [Broadcast(RrepMessage(Rrep(0, 0, n.ip, n.sequenceNum, 0, 2000)))]
                 && r.node.hello.Waiting? && n.hello.wake <= now.Ns()
  {
  }
}
