/**
  Quiescence is reached by bridges fresh from creation: by two that share a link as soon as the
  one has heard the other, by any network after two rounds more than it has bridges, and so by
  two that share two links, where one port blocks.
*/
module StpWitness {
  import opened Common
  import opened StpModel
  import opened StpElection
  import opened StpRuns
  import opened StpNetwork
  import opened StpTree
  import opened StpHearing
  import opened StpFresh
  import opened StpRounds
  import opened StpConvergence

  // ----- new bridges

  /** A bridge as created, with ports enabled one by one. */
  function PowerUp(id: nat, on: seq<nat>): (b: Bridge)
    requires id < TWO64 && forall k :: 0 <= k < |on| ==> on[k] < MAX_PORTS
    ensures |b.ports| == MAX_PORTS && RootPortInRange(b)
  {
    if on == [] then Create(id)
    else EnablePort(PowerUp(id, on[..|on| - 1]), on[|on| - 1])
  }

  lemma {:induction false} PowerUpIsUnheard(id: nat, on: seq<nat>)
    requires id < TWO64 && forall k :: 0 <= k < |on| ==> on[k] < MAX_PORTS
    ensures var b := PowerUp(id, on);
            && Starts(b) && b.id == Create(id).id
            && forall k :: 0 <= k < MAX_PORTS ==> (Enabled(b.ports[k]) <==> k in on) && b.ports[k].pathCost == 19
  {
    CreateIsUnheard(id);
    if on != [] {
      var init, i := on[..|on| - 1], on[|on| - 1];
      assert on == init + [i];
      PowerUpIsUnheard(id, init);
      EnableIsUnheard(PowerUp(id, init), i);
    }
  }

  // ----- two bridges, one link

  /** A bridge that has heard nothing, with one enabled port. */
  predicate Lone(b: Bridge, i: nat) {
    && Starts(b) && i < |b.ports|
    && (forall k :: 0 <= k < |b.ports| ==> Enabled(b.ports[k]) == (k == i) && b.ports[k].pathCost == 19)
  }

  lemma EnabledIsLone(id: nat, i: nat)
    requires id < TWO64 && i < MAX_PORTS
    ensures Lone(EnablePort(Create(id), i), i) && EnablePort(Create(id), i).id == Create(id).id
  {
    CreateIsUnheard(id);
    EnableIsUnheard(Create(id), i);
  }

  /** A lone bridge that hears of a better root on its one link makes that port its root port. */
  lemma HearsBetterRoot(b: Bridge, j: nat, c: Config, tcFlag: bool, ackFlag: bool)
    requires Lone(b, j) && c.vec.root < b.id && c.vec.bridge < b.id && c.vec.cost == 0
    requires c.messageAge < c.maxAge
    ensures var r := ReceiveConfig(b, j, c, tcFlag, ackFlag);
            && Inv(r) && Elected(r) && r.id == b.id && r.ports[j].des == c.vec
            && forall k :: 0 <= k < |r.ports| ==>
                 && Enabled(r.ports[k]) == (k == j)
                 && r.ports[k].pathCost == 19 && r.ports[k].des.cost == 0
  {
    var r, rec := ReceiveConfig(b, j, c, tcFlag, ackFlag), Record(b, j, c);
    assert b.root == b.id && Accepted(b, j, c);
    ReceiveConfigKeeps(b, j, c, tcFlag, ackFlag);
    ReceiveConfigElects(b, j, c, tcFlag, ackFlag);
    RecordIsSound(b, j, c);
    DistinctIdsOfSound(rec);
    SelectRootElectsLeast(rec);
    assert IsLeastCandidate(rec, j);
    var u := UpdateConfiguration(rec);
    forall k | 0 <= k < |r.ports|
      ensures SameRecord(u.ports[k], r.ports[k]) && u.ports[k] == rec.ports[k]
    {
      UpdateShape(rec, k);
    }
  }

  /** Two bridges with one link between them. */
  function Pair(a: Bridge, b: Bridge, i: nat, j: nat): Network {
    Network([a, b], map[Place(0, i) := 0, Place(1, j) := 0])
  }

  lemma PairIsWellFormed(a: Bridge, b: Bridge, i: nat, j: nat)
    requires Lone(a, i) && Inv(b) && Elected(b) && j < |b.ports| && a.id != b.id
    requires forall k :: 0 <= k < |b.ports| ==>
               && Enabled(b.ports[k]) == (k == j)
               && b.ports[k].pathCost == 19 && b.ports[k].des.cost == 0
    ensures WellFormed(Pair(a, b, i, j))
    ensures forall x :: Live(Pair(a, b, i, j), x) <==> x in {Place(0, i), Place(1, j)}
  {
  }

  /** What a lone bridge has to say. */
  lemma LoneOffer(a: Bridge, i: nat)
    requires Lone(a, i)
    ensures var c := ConfigToSend(a, a.ports[i]);
            && c.vec == a.ports[i].des && c.vec.root == c.vec.bridge == a.id && c.vec.cost == 0
            && c.messageAge == 0 < c.maxAge
  {
  }

  lemma PairSettles(a: Bridge, b: Bridge, i: nat, j: nat)
    requires Lone(a, i) && Inv(b) && Elected(b) && j < |b.ports| && a.id != b.id
    requires forall k :: 0 <= k < |b.ports| ==>
               && Enabled(b.ports[k]) == (k == j)
               && b.ports[k].pathCost == 19 && b.ports[k].des.cost == 0
    requires b.ports[j].des == a.ports[i].des
    ensures Quiescent(Pair(a, b, i, j))
  {
    var net := Pair(a, b, i, j);
    PairIsWellFormed(a, b, i, j);
    LoneOffer(a, i);
    var d := Place(0, i);
    assert Refreshes(net, d, Place(1, j));
    forall e, x | Designated(net, e) && SameLink(net, e, x) && e != x ensures Undisturbed(net, e, x) {
      assert e == d && x == Place(1, j);
      forall tcFlag, ackFlag ensures SameElection(b, ReceiveConfig(b, j, Offer(net, d), tcFlag, ackFlag)) {
        HearsNothingNew(b, j, Offer(net, d), tcFlag, ackFlag);
      }
    }
  }

  /** Two lone bridges, joined, are quiescent once the one has heard the other. */
  lemma LonePairSettles(a: Bridge, b: Bridge, i: nat, j: nat, tcFlag: bool, ackFlag: bool)
    requires Lone(a, i) && Lone(b, j) && a.id < b.id
    ensures Quiescent(Pair(a, ReceiveConfig(b, j, ConfigToSend(a, a.ports[i]), tcFlag, ackFlag), i, j))
  {
    LoneOffer(a, i);
    var c := ConfigToSend(a, a.ports[i]);
    HearsBetterRoot(b, j, c, tcFlag, ackFlag);
    PairSettles(a, ReceiveConfig(b, j, c, tcFlag, ackFlag), i, j);
  }

  lemma TwoBridgesSettle(idA: nat, idB: nat, i: nat, j: nat, tcFlag: bool, ackFlag: bool)
    requires idA < TWO64 && idB < TWO64 && i < MAX_PORTS && j < MAX_PORTS
    requires Create(idA).id < Create(idB).id
    ensures var a, b := EnablePort(Create(idA), i), EnablePort(Create(idB), j);
            Quiescent(Pair(a, ReceiveConfig(b, j, ConfigToSend(a, a.ports[i]), tcFlag, ackFlag), i, j))
  {
    EnabledIsLone(idA, i);
    EnabledIsLone(idB, j);
    LonePairSettles(EnablePort(Create(idA), i), EnablePort(Create(idB), j), i, j, tcFlag, ackFlag);
  }

  // ----- any network

  ghost predicate PoweredUp(b: Bridge) {
    exists id, on :: PoweredUpAs(b, id, on)
  }

  predicate PoweredUpAs(b: Bridge, id: nat, on: seq<nat>) {
    id < TWO64 && (forall k :: 0 <= k < |on| ==> on[k] < MAX_PORTS) && b == PowerUp(id, on)
  }

  /** Up to 1536 bridges with different identifiers, fresh from creation, with any ports enabled
      and linked in any way, are quiescent after two fair rounds more than there are bridges. */
  lemma NewNetworkSettles(net: Network, rounds: seq<seq<Turn>>)
    requires DistinctIds(net) && |net.bridges| <= MIN_MAX_AGE
    requires forall i :: 0 <= i < |net.bridges| ==> PoweredUp(net.bridges[i])
    requires forall x :: InNet(net, x) && Enabled(At(net, x)) ==> x in net.link
    requires AllFair(net, rounds) && |rounds| >= |net.bridges| + 2 && net.bridges != []
    ensures Quiescent(Rounds(Silence(net), rounds).net)
  {
    forall i | 0 <= i < |net.bridges| ensures Starts(net.bridges[i]) {
      assert PoweredUp(net.bridges[i]);
      var id, on :| PoweredUpAs(net.bridges[i], id, on);
      PowerUpIsUnheard(id, on);
    }
    Converges(net, rounds);
  }

  // ----- a network with a loop

  /** Two bridges with two links between them. */
  function Parallel(a: Bridge, b: Bridge, i1: nat, i2: nat, j1: nat, j2: nat): Network {
    Network([a, b], map[Place(0, i1) := 0, Place(1, j1) := 0, Place(0, i2) := 1, Place(1, j2) := 1])
  }

  /** Every port sends, and then the messages arrive, the last one first. */
  function AllPorts(i1: nat, i2: nat, j1: nat, j2: nat, tcFlag: bool, ackFlag: bool): seq<Turn> {
    [Sends(Place(0, i1)), Sends(Place(0, i2)), Sends(Place(1, j1)), Sends(Place(1, j2)),
     Arrives(Place(1, j2), [Place(0, i2)], tcFlag, ackFlag), Arrives(Place(1, j1), [Place(0, i1)], tcFlag, ackFlag),
     Arrives(Place(0, i2), [Place(1, j2)], tcFlag, ackFlag), Arrives(Place(0, i1), [Place(1, j1)], tcFlag, ackFlag)]
  }

  /** The ports at `i1` and `i2` of one bridge, at `j1` and `j2` of the other. */
  predicate TwoLinks(a: Bridge, b: Bridge, i1: nat, i2: nat, j1: nat, j2: nat) {
    && Starts(a) && Starts(b) && i1 != i2 && j1 != j2
    && i1 < |a.ports| && i2 < |a.ports| && j1 < |b.ports| && j2 < |b.ports|
    && (forall k :: 0 <= k < |a.ports| ==> (Enabled(a.ports[k]) <==> k == i1 || k == i2))
    && (forall k :: 0 <= k < |b.ports| ==> (Enabled(b.ports[k]) <==> k == j1 || k == j2))
  }

  lemma ParallelLive(a: Bridge, b: Bridge, i1: nat, i2: nat, j1: nat, j2: nat)
    requires TwoLinks(a, b, i1, i2, j1, j2)
    ensures var net := Parallel(a, b, i1, i2, j1, j2);
            forall x :: Live(net, x) <==> x in {Place(0, i1), Place(0, i2), Place(1, j1), Place(1, j2)}
  {
  }

  lemma ArrivesAcross(net: Network, x: Place, y: Place, tcFlag: bool, ackFlag: bool)
    requires SameLink(net, x, y) && x != y && forall z :: SameLink(net, x, z) ==> z == x || z == y
    ensures Broadcast(net, Arrives(x, [y], tcFlag, ackFlag))
  {
  }

  lemma SendsThenArrives(turns: seq<Turn>, i: nat, k: nat, x: Place)
    requires i < k < |turns| && turns[i] == Sends(x) && ArrivalFrom(turns[k], x)
    ensures GetsThrough(turns, x)
  {
    assert turns[..k][i] == Sends(x);
  }

  lemma ParallelIsFair(a: Bridge, b: Bridge, i1: nat, i2: nat, j1: nat, j2: nat, tcFlag: bool, ackFlag: bool)
    requires TwoLinks(a, b, i1, i2, j1, j2)
    ensures Fair(Parallel(a, b, i1, i2, j1, j2), AllPorts(i1, i2, j1, j2, tcFlag, ackFlag))
  {
    var net, turns := Parallel(a, b, i1, i2, j1, j2), AllPorts(i1, i2, j1, j2, tcFlag, ackFlag);
    ParallelLive(a, b, i1, i2, j1, j2);
    ArrivesAcross(net, Place(0, i1), Place(1, j1), tcFlag, ackFlag);
    ArrivesAcross(net, Place(0, i2), Place(1, j2), tcFlag, ackFlag);
    ArrivesAcross(net, Place(1, j1), Place(0, i1), tcFlag, ackFlag);
    ArrivesAcross(net, Place(1, j2), Place(0, i2), tcFlag, ackFlag);
    SendsThenArrives(turns, 0, 7, Place(0, i1));
    SendsThenArrives(turns, 1, 6, Place(0, i2));
    SendsThenArrives(turns, 2, 5, Place(1, j1));
    SendsThenArrives(turns, 3, 4, Place(1, j2));
  }

  /** A root bridge is designated on every link that it is on just once. */
  lemma RootIsDesignated(net: Network, x: Place)
    requires Quiescent(net) && Live(net, x) && IsRoot(Of(net, x)) && Of(net, x).rootCost == 0
    requires forall y :: SameLink(net, x, y) && y != x ==> y.bridge != x.bridge
    ensures Designated(net, x)
  {
    var d := OneDesignatedPort(net, x);
    if d != x {
      assert SameLink(net, x, d);
      BridgeFacts(net, x);
      BridgeFacts(net, d);
      DifferentNames(net, x, d);
    }
  }

  /** A live port that is neither root port nor designated is blocking. */
  lemma NoRoleBlocks(net: Network, x: Place)
    requires Quiescent(net) && Live(net, x) && !IsRootPort(net, x) && !Designated(net, x)
    ensures At(net, x).state == Blocking
  {
    BridgeFacts(net, x);
    assert HasRole(Of(net, x), x.port);
  }

  lemma ParallelIsConnected(a: Bridge, b: Bridge, i1: nat, i2: nat, j1: nat, j2: nat)
    requires TwoLinks(a, b, i1, i2, j1, j2)
    ensures Connected(Parallel(a, b, i1, i2, j1, j2))
  {
    var net, x, y := Parallel(a, b, i1, i2, j1, j2), Place(0, i1), Place(1, j1);
    ParallelLive(a, b, i1, i2, j1, j2);
    assert SameLink(net, x, y);
    forall c: nat, z: nat | c < 2 && z < 2 ensures Joined(net, c, z) {
      assert IsPath(net, c, [], c);
      assert [Hop(x, y)][1..] == [] && [Hop(y, x)][1..] == [];
      assert IsPath(net, 1, [], 1) && IsPath(net, 0, [], 0);
      assert IsPath(net, 0, [Hop(x, y)], 1) && IsPath(net, 1, [Hop(y, x)], 0);
    }
  }

  /** On both links the smaller bridge is designated; the other bridge reaches it over one and
      blocks the other. */
  predicate OneBlocks(m: Network, i1: nat, i2: nat, j1: nat, j2: nat) {
    && Designated(m, Place(0, i1)) && Designated(m, Place(0, i2))
    && (|| (IsRootPort(m, Place(1, j1)) && Live(m, Place(1, j2)) && At(m, Place(1, j2)).state == Blocking)
        || (IsRootPort(m, Place(1, j2)) && Live(m, Place(1, j1)) && At(m, Place(1, j1)).state == Blocking))
  }

  lemma QuiescentParallel(a: Bridge, b: Bridge, i1: nat, i2: nat, j1: nat, j2: nat, m: Network)
    requires TwoLinks(a, b, i1, i2, j1, j2) && a.id < b.id
    requires Quiescent(m) && SameShape(Parallel(a, b, i1, i2, j1, j2), m)
    ensures OneBlocks(m, i1, i2, j1, j2)
  {
    var net := Parallel(a, b, i1, i2, j1, j2);
    ParallelIsConnected(a, b, i1, i2, j1, j2);
    ConnectedFrame(net, m);
    var r := OneRoot(m);
    assert m.bridges[0].id == a.id && m.bridges[1].id == b.id;
    assert r == 0;
    ParallelRoles(a, b, i1, i2, j1, j2, m);
  }

  lemma ParallelRoles(a: Bridge, b: Bridge, i1: nat, i2: nat, j1: nat, j2: nat, m: Network)
    requires TwoLinks(a, b, i1, i2, j1, j2)
    requires Quiescent(m) && SameShape(Parallel(a, b, i1, i2, j1, j2), m)
    requires IsRoot(m.bridges[0]) && !IsRoot(m.bridges[1])
    ensures OneBlocks(m, i1, i2, j1, j2)
  {
    var net := Parallel(a, b, i1, i2, j1, j2);
    ParallelLive(a, b, i1, i2, j1, j2);
    forall x, y ensures Live(m, x) == Live(net, x) && SameLink(m, x, y) == SameLink(net, x, y) {
      ShapeFacts(net, m, x, y);
    }
    RootAcross(m, Place(0, i1), Place(1, j1));
    RootAcross(m, Place(0, i2), Place(1, j2));
    assert Settled(m.bridges[1]) && InNet(m, Place(1, m.bridges[1].rootPort.value));
    assert Live(m, Place(1, m.bridges[1].rootPort.value));
  }

  /** Of two ports at the ends of a link, the root bridge's is designated, and the other is the
      root port of its bridge or blocked. */
  lemma RootAcross(net: Network, x: Place, y: Place)
    requires Quiescent(net) && SameLink(net, x, y) && IsRoot(Of(net, x)) && x.bridge != y.bridge
    requires forall z :: SameLink(net, x, z) ==> z == x || z == y
    ensures Designated(net, x) && (IsRootPort(net, y) || At(net, y).state == Blocking)
  {
    BridgeFacts(net, x);
    RootIsDesignated(net, x);
    var d := OneDesignatedPort(net, x);
    if !IsRootPort(net, y) {
      NoRoleBlocks(net, y);
    }
  }

  lemma ParallelRun(a: Bridge, b: Bridge, i1: nat, i2: nat, j1: nat, j2: nat, tcFlag: bool, ackFlag: bool)
    requires TwoLinks(a, b, i1, i2, j1, j2) && a.id < b.id
    ensures var net := Parallel(a, b, i1, i2, j1, j2);
            var turns := AllPorts(i1, i2, j1, j2, tcFlag, ackFlag);
            var m := Rounds(Silence(net), [turns, turns, turns, turns]).net;
            Fair(net, turns) && Quiescent(m) && OneBlocks(m, i1, i2, j1, j2)
  {
    var net, turns := Parallel(a, b, i1, i2, j1, j2), AllPorts(i1, i2, j1, j2, tcFlag, ackFlag);
    ParallelIsFair(a, b, i1, i2, j1, j2, tcFlag, ackFlag);
    var rounds := [turns, turns, turns, turns];
    assert AllFair(net, rounds) && AtStart(net);
    Converges(net, rounds);
    StartIsSane(net);
    RoundsReach(Silence(net), rounds);
    QuiescentParallel(a, b, i1, i2, j1, j2, Rounds(Silence(net), rounds).net);
  }

  lemma TwoPortsOn(id: nat, on: seq<nat>)
    requires id < TWO64 && |on| == 2 && on[0] < MAX_PORTS && on[1] < MAX_PORTS
    ensures var b := PowerUp(id, on);
            && Starts(b) && b.id == Create(id).id
            && forall k :: 0 <= k < |b.ports| ==> (Enabled(b.ports[k]) <==> k == on[0] || k == on[1])
  {
    PowerUpIsUnheard(id, on);
    assert forall k: nat :: k in on <==> k == on[0] || k == on[1];
  }

  lemma NewTwoLinks(idA: nat, idB: nat, i1: nat, i2: nat, j1: nat, j2: nat)
    requires idA < TWO64 && idB < TWO64 && i1 != i2 && j1 != j2
    requires i1 < MAX_PORTS && i2 < MAX_PORTS && j1 < MAX_PORTS && j2 < MAX_PORTS
    ensures var a, b := PowerUp(idA, [i1, i2]), PowerUp(idB, [j1, j2]);
            TwoLinks(a, b, i1, i2, j1, j2) && a.id == Create(idA).id && b.id == Create(idB).id
  {
    TwoPortsOn(idA, [i1, i2]);
    TwoPortsOn(idB, [j1, j2]);
  }

  /** Two new bridges joined by two links: after four rounds the loop is cut by one blocked port. */
  lemma ParallelLinksSettle(idA: nat, idB: nat, i1: nat, i2: nat, j1: nat, j2: nat, tcFlag: bool, ackFlag: bool)
    requires idA < TWO64 && idB < TWO64 && Create(idA).id < Create(idB).id && i1 != i2 && j1 != j2
    requires i1 < MAX_PORTS && i2 < MAX_PORTS && j1 < MAX_PORTS && j2 < MAX_PORTS
    ensures var net := Parallel(PowerUp(idA, [i1, i2]), PowerUp(idB, [j1, j2]), i1, i2, j1, j2);
            var turns := AllPorts(i1, i2, j1, j2, tcFlag, ackFlag);
            var m := Rounds(Silence(net), [turns, turns, turns, turns]).net;
            Fair(net, turns) && Quiescent(m) && OneBlocks(m, i1, i2, j1, j2)
  {
    NewTwoLinks(idA, idB, i1, i2, j1, j2);
    ParallelRun(PowerUp(idA, [i1, i2]), PowerUp(idB, [j1, j2]), i1, i2, j1, j2, tcFlag, ackFlag);
  }
}
