/** A run of a node from its start that ends with an error which takes 128 routes away and goes unreported. */
module LossRuns {
  import opened Aodv
  import opened Messages
  import opened TimeFuncs
  import opened RoutingTable
  import opened RecvMessages
  import opened Callbacks
  import opened TableRefinement
  import opened KernelAgreement
  import opened Deadlines
  import opened RouteErrors
  import opened NoSilentLoss

  /** The node, the originator of a request, the neighbour it came from, and the one the replies come from. */
  const X: u32 := 0xC800_0000
  const O: u32 := 0xC900_0000
  const Q: u32 := 0xCA00_0000
  const P: u32 := 0xCB00_0000

  /** The k-th of 128 destinations, in a slot of its own. */
  function Far(k: nat): u32
    requires k < 128
  {
    (k + 1) * 0x100_0000
  }

  function Addresses(): set<u32> {
    {X, O, Q, P} + set k: nat | k < 128 :: Far(k)
  }

  lemma Slots()
    ensures Slot(X) == 0xC8 && Slot(O) == 0xC9 && Slot(Q) == 0xCA && Slot(P) == 0xCB
    ensures forall k: nat :: k < 128 ==> Slot(Far(k)) == k + 1
  {
  }

  lemma AddressesAreDistinct()
    ensures DistinctSlots(Addresses())
  {
    Slots();
  }

  // ---- The run ----

  /** The last copy of O's request for an unknown destination. */
  function Request(): Rreq {
    Rreq(0, 1, 1, 1, Far(0), 0, O, 1)
  }

  function Reply(k: nat): Rrep
    requires k < 128
  {
    Rrep(0, 0, Far(k), 2, O, 3000)
  }

  function Replies(k: nat, now: Time): seq<Step>
    requires k <= 128
    decreases 128 - k
  {
    if k == 128 then [] else [Step(ReceiveRrep(P, Reply(k), 0, 0), now)] + Replies(k + 1, now)
  }

  function Heard(now: Time): seq<Step> {
    [Step(ReceiveRreq(Q, Request(), 0), now)] + Replies(0, now)
  }

  /** A valid route to the k-th destination through P, handed to somebody. */
  predicate HasFar(n: Node, k: nat)
    requires k < 128
  {
    HasEntry(n, Far(k)) && Affected(EntryOf(n, Far(k)), P) && EntryOf(n, Far(k)).precursors != []
  }

  /** The node knows O through Q, and the first k destinations. */
  predicate KnowsFar(n: Node, k: nat)
    requires k <= 128
  {
    && n.ip == X && HasEntry(n, O) && EntryOf(n, O).nextHop == Q
    && (forall j: nat :: j < k ==> HasFar(n, j))
    && forall j: nat :: k <= j < 128 ==> !HasEntry(n, Far(j))
  }

  lemma RequestMakesRoute(now: Time)
    ensures KnowsFar(RecvRreq(Boot(X, 0), Q, Request(), now, 0).node, 0)
  {
    Slots();
    hide Slot, Far, AddMs, WakeAt, ReverseLifetime, Timely, SearchKept, IndexKept, NoNewSearch;
  }

  lemma ReplyMakesRoute(n: Node, k: nat, now: Time)
    requires k < 128 && KnowsFar(n, k)
    ensures KnowsFar(RecvRrep(n, P, Reply(k), now, 0, 0).node, k + 1)
  {
    hide Slot, Far, PreviousHop, ForwardRoute, ForwardReply, Timely, SearchKept, IndexKept, NoNewSearch, RoutesKept,
      EndsIn, HasFar, AddIfAbsent;
    Slots();
    var m := Reply(k).(hopCount := 1);
    var n2 := PreviousHop(n, P, Far(k), now, 0);
    var n3 := ForwardRoute(n2, P, m, now, 0);
    ReplyInstallsRoute(n2, P, m, now, 0);
    assert RecvRrep(n, P, Reply(k), now, 0, 0) == ForwardReply(n3, m);
    var r := ForwardReply(n3, m).node;
    FarIsHanded(n3, m, k);
    forall j: nat | j < k
      ensures HasFar(r, j)
    {
      assert HasFar(n, j);
      FarStays(n, n2, n3, r, j, k);
    }
  }

  lemma FarIsHanded(n: Node, m: Rrep, k: nat)
    requires k < 128 && n.ip == X && m == Reply(k).(hopCount := 1) && HasEntry(n, O)
    requires HasEntry(n, Far(k)) && Affected(EntryOf(n, Far(k)), P)
    ensures HasFar(ForwardReply(n, m).node, k)
  {
    Slots();
    hide Slot, Far;
  }

  lemma FarStays(n: Node, n2: Node, n3: Node, r: Node, j: nat, k: nat)
    requires j < k < 128 && HasFar(n, j)
    requires OnlySlot(n, n2, Slot(P)) && OnlySlot(n2, n3, Slot(Far(k))) && Annotated(n3, r)
    ensures HasFar(r, j)
  {
    Slots();
    hide Slot, Far;
  }

  /** The first k destinations have been handed to Q. */
  ghost predicate Handed(promises: set<Promise>, k: nat)
    requires k <= 128
  {
    forall j: nat :: j < k ==> Promise(Far(j), Q) in promises
  }

  lemma ReplyHands(n: Node, k: nat, now: Time, past: set<Promise>)
    requires k < 128 && KnowsFar(n, k) && Handed(past, k)
    ensures Handed(NextPromises(n, Step(ReceiveRrep(P, Reply(k), 0, 0), now), past), k + 1)
  {
    hide RecvRrep, Far, Slot, PromisesOf;
    Slots();
    ReplyMakesRoute(n, k, now);
    ForwardingPromises(n, P, Reply(k), now, 0, 0);
    var r := RecvRrep(n, P, Reply(k), now, 0, 0).node;
    forall j: nat | j < k
      ensures HasEntry(r, Far(j))
    {
      assert HasFar(r, j);
    }
  }

  lemma {:induction false} RepliesMakeRoutes(n: Node, k: nat, now: Time, past: set<Promise>)
    requires k <= 128 && KnowsFar(n, k) && Handed(past, k)
    ensures Legal(n, Replies(k, now)) && KnowsFar(Final(n, Replies(k, now)), 128)
    ensures Handed(Promises(n, Replies(k, now), past), 128)
    decreases 128 - k
  {
    hide RecvRrep, KnowsFar, Handed, NextPromises;
    if k < 128 {
      var step := Step(ReceiveRrep(P, Reply(k), 0, 0), now);
      var run := Replies(k, now);
      assert run[0] == step && run[1..] == Replies(k + 1, now);
      FarIsNotOwn(n, k);
      ReplyMakesRoute(n, k, now);
      ReplyHands(n, k, now, past);
      RepliesMakeRoutes(After(n, step), k + 1, now, NextPromises(n, step, past));
    }
  }

  lemma FarIsNotOwn(n: Node, k: nat)
    requires k <= 128 && KnowsFar(n, k)
    ensures n.ip == X
  {
  }

  // ---- The loss ----

  lemma {:induction false} RepliesConcern(k: nat, now: Time)
    requires k <= 128
    ensures AllConcern(Replies(k, now), Addresses())
    decreases 128 - k
  {
    if k < 128 {
      RepliesConcern(k + 1, now);
      assert Replies(k, now)[1..] == Replies(k + 1, now);
      assert Far(k) in Addresses() && P in Addresses();
      hide Addresses, Far;
    }
  }

  lemma RunConcerns(now: Time)
    ensures AllConcern(Heard(now), Addresses())
  {
    RepliesConcern(0, now);
    assert Q in Addresses() && O in Addresses();
    hide Addresses, Replies;
  }

  lemma AllFarDue(n: Node, pairs: seq<Pair>)
    requires KnowsFar(n, 128) && |pairs| == 128
    requires forall k :: 0 <= k < 128 ==> pairs[k].destIp == Far(k)
    ensures |DueOf(n, P, pairs)| == 128
  {
    Slots();
    hide Slot, Far, RouteErrors.Due;
    forall p | p in pairs
      ensures HasEntry(n, p.destIp) && Affected(EntryOf(n, p.destIp), P) && EntryOf(n, p.destIp).precursors != []
    {
      var k: nat :| k < 128 && pairs[k] == p;
      assert HasFar(n, k);
    }
    DueAll(n.table, P, pairs, {});
  }

  /** Pairs that all hit routes with precursors, none in the same slot as another, count as many reports. */
  lemma {:induction false} DueAll(t: map<u8, Entry>, sender: u32, pairs: seq<Pair>, done: set<u8>)
    requires forall p <- pairs :: Slot(p.destIp) in t && Affected(t[Slot(p.destIp)], sender)
    requires forall p <- pairs :: t[Slot(p.destIp)].precursors != [] && Slot(p.destIp) !in done
    requires forall i, j :: 0 <= i < j < |pairs| ==> Slot(pairs[i].destIp) != Slot(pairs[j].destIp)
    ensures |RouteErrors.Due(t, sender, pairs, done)| == |pairs|
  {
    hide Slot;
    if pairs == [] {
    } else {
      assert pairs[0] in pairs;
      forall p | p in pairs[1..]
        ensures Slot(p.destIp) !in done + {Slot(pairs[0].destIp)}
      {
        var k :| 0 <= k < |pairs[1..]| && p == pairs[1..][k];
        assert p == pairs[k + 1];
      }
      DueAll(t, sender, pairs[1..], done + {Slot(pairs[0].destIp)});
    }
  }

  function Pairs(): seq<Pair> {
    seq(128, k requires 0 <= k < 128 => Pair(Far(k), 2))
  }

  /** An error that names all 128 takes them away and is not reported. */
  lemma ErrorIsSilent(n: Node, now: Time)
    requires KnowsFar(n, 128)
    ensures |Pairs()| == 128 && Enabled(n, ReceiveRerr(P, Pairs()), now)
    ensures Apply(n, ReceiveRerr(P, Pairs()), now).outs == []
  {
    hide RecvRerr, Far, DueOf, HasFar;
    AllFarDue(n, Pairs());
    RerrGoes(n, P, Pairs(), now);
  }

  lemma RunMakesRoutes(now: Time)
    ensures Legal(Boot(X, 0), Heard(now)) && KnowsFar(Final(Boot(X, 0), Heard(now)), 128)
    ensures Handed(Promises(Boot(X, 0), Heard(now), {}), 128)
  {
    hide RecvRreq, Far, KnowsFar, Replies, Request, NextPromises;
    var boot, step := Boot(X, 0), Step(ReceiveRreq(Q, Request(), 0), now);
    RequestMakesRoute(now);
    assert Heard(now)[0] == step && Heard(now)[1..] == Replies(0, now);
    RepliesMakeRoutes(After(boot, step), 0, now, NextPromises(boot, step, {}));
  }

  /** It does happen: a node has heard one request and 128 replies, which it handed to a neighbour; then an error takes
      all 128 routes away, and the node sends nothing. */
  lemma LosesAllReports(now: Time)
    ensures var boot, run := Boot(X, 0), Heard(now);
            && DistinctSlots(Addresses()) && AllConcern(run, Addresses()) && Legal(boot, run)
            && (forall k: nat :: k < 128 ==> HasFar(Final(boot, run), k))
            && (forall k: nat :: k < 128 ==> Promise(Far(k), Q) in Promises(boot, run, {}))
            && |Pairs()| == 128 && (forall k: nat :: k < 128 ==> Pairs()[k] == Pair(Far(k), 2))
            && Enabled(Final(boot, run), ReceiveRerr(P, Pairs()), now)
            && Apply(Final(boot, run), ReceiveRerr(P, Pairs()), now).outs == []
  {
    hide Apply, Enabled, Far, HasFar, Addresses, Heard, Final, Legal, Promises, Boot;
    AddressesAreDistinct();
    RunConcerns(now);
    RunMakesRoutes(now);
    ErrorIsSilent(Final(Boot(X, 0), Heard(now)), now);
  }
}
