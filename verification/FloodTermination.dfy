/** Without new requests and without duplication by the network, a flood ends. */
module FloodTermination {
  import opened Aodv
  import opened Messages
  import opened TimeFuncs
  import opened RoutingTable
  import opened SendMessages
  import opened Callbacks
  import opened Network

  /** A request about to arrive at one node. */
  datatype Copy = Copy(to: u32, from: u32, rreq: Rreq)

  datatype Flood = Flood(nodes: map<u32, Node>, pending: seq<Copy>)

  /** Either a pending copy arrives, and each other node receives at most one copy of what is sent
      in turn; or a node does something else. Any copy may also get lost. */
  datatype FloodStep =
    | Arrive(index: nat, copies: seq<Copy>, now: Time, junk: u32)
    | Lose(index: nat)
    | Elsewhere(at: u32, event: Event, now: Time)

  function Arrival(f: Flood, step: FloodStep): Event
    requires step.Arrive? && step.index < |f.pending|
  {
    ReceiveRreq(f.pending[step.index].from, f.pending[step.index].rreq, step.junk)
  }

  /** At most one copy for each node but the sender, each of a message sent. */
  ghost predicate Spread(nodes: set<u32>, from: u32, outs: seq<Out>, copies: seq<Copy>) {
    && (forall c <- copies :: c.from == from && c.to in nodes && c.to != from && Broadcast(RreqMessage(c.rreq)) in outs)
    && (forall i, j :: 0 <= i < j < |copies| ==> copies[i].to != copies[j].to)
  }

  ghost predicate FloodEnabled(f: Flood, step: FloodStep) {
    match step
    case Arrive(index, copies, now, _) =>
      && index < |f.pending| && f.pending[index].to in f.nodes
      && Enabled(f.nodes[f.pending[index].to], Arrival(f, step), now)
      && var to := f.pending[index].to;
         Spread(f.nodes.Keys, to, Apply(f.nodes[to], Arrival(f, step), now).outs, copies)
    case Lose(index) => index < |f.pending|
    case Elsewhere(at, ev, now) =>
      at in f.nodes && Enabled(f.nodes[at], ev, now) && !ev.ReceiveRreq? && !Originates(f.nodes[at], ev)
  }

  function Without(pending: seq<Copy>, i: nat): seq<Copy>
    requires i < |pending|
  {
    pending[..i] + pending[i + 1..]
  }

  ghost function FloodAfter(f: Flood, step: FloodStep): Flood
    requires FloodEnabled(f, step)
  {
    match step
    case Arrive(index, copies, now, _) =>
      var a := f.pending[index].to;
      Flood(f.nodes[a := Apply(f.nodes[a], Arrival(f, step), now).node], Without(f.pending, index) + copies)
    case Lose(index) => Flood(f.nodes, Without(f.pending, index))
    case Elsewhere(at, ev, now) => Flood(f.nodes[at := Apply(f.nodes[at], ev, now).node], f.pending)
  }

  ghost predicate FloodLegal(f: Flood, run: seq<FloodStep>)
    decreases |run|
  {
    run != [] ==> FloodEnabled(f, run[0]) && FloodLegal(FloodAfter(f, run[0]), run[1..])
  }

  function Arrivals(run: seq<FloodStep>): nat {
    if run == [] then 0 else (if run[0].Arrive? then 1 else 0) + Arrivals(run[1..])
  }

  // ---- The measure ----

  function Power(base: nat, exponent: nat): nat {
    if exponent == 0 then 1 else base * Power(base, exponent - 1)
  }

  /** Each copy can give rise to at most base^ttl arrivals. */
  function Weight(base: nat, pending: seq<Copy>): nat {
    if pending == [] then 0 else Power(base, pending[0].rreq.ttl) + Weight(base, pending[1..])
  }

  lemma {:induction false} WeightConcat(base: nat, p: seq<Copy>, q: seq<Copy>)
    ensures Weight(base, p + q) == Weight(base, p) + Weight(base, q)
  {
    if p == [] {
      assert p + q == q;
    } else {
      WeightConcat(base, p[1..], q);
      assert (p + q)[1..] == p[1..] + q;
    }
  }

  lemma WeightWithout(base: nat, pending: seq<Copy>, i: nat)
    requires i < |pending|
    ensures Weight(base, pending) == Weight(base, Without(pending, i)) + Power(base, pending[i].rreq.ttl)
  {
    assert pending == pending[..i] + ([pending[i]] + pending[i + 1..]);
    WeightConcat(base, pending[..i], [pending[i]] + pending[i + 1..]);
    WeightConcat(base, pending[..i], pending[i + 1..]);
    assert ([pending[i]] + pending[i + 1..])[1..] == pending[i + 1..];
  }

  lemma {:induction false} WeightUniform(base: nat, copies: seq<Copy>, ttl: nat)
    requires forall c <- copies :: c.rreq.ttl == ttl
    ensures Weight(base, copies) == |copies| * Power(base, ttl)
  {
    if copies == [] {
    } else {
      WeightUniform(base, copies[1..], ttl);
      assert |copies| * Power(base, ttl) == Power(base, ttl) + (|copies| - 1) * Power(base, ttl);
    }
  }

  lemma {:induction false} PowerPositive(base: nat, exponent: nat)
    requires base > 0
    ensures Power(base, exponent) > 0
  {
    if exponent == 0 {
    } else {
      PowerPositive(base, exponent - 1);
    }
  }

  /** Distinct receivers are at most as many as there are nodes to receive. */
  lemma {:induction false} DistinctReceivers(copies: seq<Copy>, receivers: set<u32>)
    requires forall c <- copies :: c.to in receivers
    requires forall i, j :: 0 <= i < j < |copies| ==> copies[i].to != copies[j].to
    ensures |copies| <= |receivers|
  {
    if copies == [] {
    } else {
      var rest := receivers - {copies[0].to};
      forall c | c in copies[1..]
        ensures c.to in rest
      {
        var i :| 0 <= i < |copies[1..]| && copies[1..][i] == c;
        assert copies[i + 1].to != copies[0].to;
      }
      DistinctReceivers(copies[1..], rest);
    }
  }

  /** The copies caused by an arrival are the arrived request one hop further. */
  lemma ArrivalRelays(f: Flood, step: FloodStep)
    requires step.Arrive? && FloodEnabled(f, step)
    ensures forall c <- step.copies ::
              c.to in f.nodes.Keys - {f.pending[step.index].to} && Relayed(f.pending[step.index].rreq, c.rreq)
  {
    RequestsSent(f.nodes[f.pending[step.index].to], Arrival(f, step), step.now);
    hide Apply, Enabled, Relayed;
  }

  lemma CopiesLighten(base: nat, copies: seq<Copy>, ttl: nat, receivers: set<u32>)
    requires |receivers| < base
    requires forall c <- copies :: c.to in receivers && ttl == c.rreq.ttl + 1
    requires forall i, j :: 0 <= i < j < |copies| ==> copies[i].to != copies[j].to
    ensures Weight(base, copies) < Power(base, ttl)
  {
    PowerPositive(base, ttl);
    if copies != [] {
      assert ttl == copies[0].rreq.ttl + 1;
      WeightUniform(base, copies, ttl - 1);
      DistinctReceivers(copies, receivers);
      PowerPositive(base, ttl - 1);
      Fewer(|copies|, base, Power(base, ttl - 1));
    }
  }

  /** An arrival takes away more weight than the copies it causes bring. */
  lemma ArrivalLightens(f: Flood, step: FloodStep)
    requires step.Arrive? && FloodEnabled(f, step)
    ensures Weight(|f.nodes|, step.copies) < Power(|f.nodes|, f.pending[step.index].rreq.ttl)
  {
    hide Apply, Enabled;
    var copy := f.pending[step.index];
    ArrivalRelays(f, step);
    assert |f.nodes| == |f.nodes.Keys| && |f.nodes.Keys - {copy.to}| == |f.nodes.Keys| - 1;
    CopiesLighten(|f.nodes|, step.copies, copy.rreq.ttl, f.nodes.Keys - {copy.to});
  }

  lemma Fewer(few: nat, base: nat, x: nat)
    requires few < base && x > 0
    ensures few * x < base * x
  {
  }

  /** The number of arrivals in any run is bounded by the weight of what is pending at its start. */
  lemma {:induction false} FloodEnds(f: Flood, run: seq<FloodStep>)
    requires FloodLegal(f, run)
    ensures Arrivals(run) <= Weight(|f.nodes|, f.pending)
    decreases |run|
  {
    hide Apply, Enabled, Spread;
    if run == [] {
    } else {
      var step, f' := run[0], FloodAfter(f, run[0]);
      FloodEnds(f', run[1..]);
      SameNodes(f, step);
      match step
      case Arrive(index, copies, _, _) =>
        ArrivalLightens(f, step);
        WeightWithout(|f.nodes|, f.pending, index);
        WeightConcat(|f.nodes|, Without(f.pending, index), copies);
      case Lose(index) => WeightWithout(|f.nodes|, f.pending, index);
      case Elsewhere(_, _, _) =>
    }
  }

  lemma SameNodes(f: Flood, step: FloodStep)
    requires FloodEnabled(f, step)
    ensures |FloodAfter(f, step).nodes| == |f.nodes|
  {
    hide Apply, Enabled, Spread;
    assert FloodAfter(f, step).nodes.Keys == f.nodes.Keys;
    assert |FloodAfter(f, step).nodes.Keys| == |FloodAfter(f, step).nodes| && |f.nodes.Keys| == |f.nodes|;
  }
}
