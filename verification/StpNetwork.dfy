/**
  Bridges joined by links.  When nothing that a bridge would send can change what any other
  bridge believes, the network has one root, exact distances and a loop-free, spanning
  active topology.
*/
module StpNetwork {
  import opened Common
  import opened StpModel
  import opened StpElection
  import opened StpRuns

  /** A port of a bridge, by index. */
  datatype Place = Place(bridge: nat, port: nat)

  datatype Network = Network(bridges: seq<Bridge>, link: map<Place, nat>)

  predicate InNet(net: Network, x: Place) {
    x.bridge < |net.bridges| && x.port < |net.bridges[x.bridge].ports|
  }

  function Of(net: Network, x: Place): Bridge
    requires InNet(net, x)
  {
    net.bridges[x.bridge]
  }

  function At(net: Network, x: Place): Port
    requires InNet(net, x)
  {
    net.bridges[x.bridge].ports[x.port]
  }

  /** An enabled port attached to a link. */
  predicate Live(net: Network, x: Place) {
    InNet(net, x) && Enabled(At(net, x)) && x in net.link
  }

  predicate SameLink(net: Network, x: Place, y: Place) {
    Live(net, x) && Live(net, y) && net.link[x] == net.link[y]
  }

  predicate Designated(net: Network, x: Place) {
    Live(net, x) && IsDesignated(Of(net, x), At(net, x))
  }

  predicate IsRootPort(net: Network, x: Place) {
    Live(net, x) && Of(net, x).rootPort == Some(x.port)
  }

  ghost predicate DistinctIds(net: Network) {
    forall i, j :: 0 <= i < j < |net.bridges| ==> net.bridges[i].id != net.bridges[j].id
  }

  /** Costs are positive and leave the signed 32-bit comparison of root selection exact. */
  predicate CostsModest(b: Bridge) {
    forall i :: 0 <= i < |b.ports| ==>
      b.ports[i].pathCost > 0 && b.ports[i].des.cost + b.ports[i].pathCost < TWO31
  }

  ghost predicate WellFormed(net: Network) {
    && DistinctIds(net)
    && (forall i :: 0 <= i < |net.bridges| ==>
          Inv(net.bridges[i]) && Settled(net.bridges[i]) && CostsModest(net.bridges[i]))
    && (forall x :: InNet(net, x) && Enabled(At(net, x)) ==> x in net.link)
  }

  /** The configuration message that the designated port at `d` has to offer. */
  function Offer(net: Network, d: Place): Config
    requires InNet(net, d) && RootPortInRange(Of(net, d))
  {
    ConfigToSend(Of(net, d), At(net, d))
  }

  /** No designated port's message changes any election, and every port that is not designated
      keeps accepting the messages of one that is, so that its record does not age out. */
  ghost predicate Quiescent(net: Network) {
    && WellFormed(net)
    && (forall d, x {:trigger Undisturbed(net, d, x)} ::
          Designated(net, d) && SameLink(net, d, x) && d != x ==> Undisturbed(net, d, x))
    && (forall x {:trigger Refreshed(net, x)} :: Live(net, x) && !Designated(net, x) ==> Refreshed(net, x))
  }

  /** The port at `d` can send, and the port at `x` learns nothing from what it sends. */
  ghost predicate Undisturbed(net: Network, d: Place, x: Place)
    requires InNet(net, d) && InNet(net, x)
    requires RootPortInRange(Of(net, d)) && RootPortInRange(Of(net, x))
  {
    && Offer(net, d).messageAge < Offer(net, d).maxAge
    && forall tcFlag, ackFlag ::
         SameElection(Of(net, x),
                      ReceiveConfig(Of(net, x), x.port, Offer(net, d), tcFlag, ackFlag))
  }

  ghost predicate Refreshed(net: Network, x: Place) {
    exists d :: Refreshes(net, d, x)
  }

  predicate Refreshes(net: Network, d: Place, x: Place) {
    && Designated(net, d) && SameLink(net, d, x) && RootPortInRange(Of(net, d))
    && Accepted(Of(net, x), x.port, Offer(net, d))
  }

  // ----- links

  lemma BridgeFacts(net: Network, x: Place)
    requires WellFormed(net) && Live(net, x)
    ensures var b, p := Of(net, x), At(net, x);
            && Inv(b) && Settled(b) && PortSettled(b, p) && p.des.root == b.root
            && p.pathCost > 0 && p.des.cost + p.pathCost < TWO31
            && b.root <= b.id && b.rootCost < TWO32 && WellNumbered(p, x.port)
  {
    var b := Of(net, x);
    assert PortSound(b, x.port);
  }

  /** A message that beats a port's record and comes from elsewhere disturbs its bridge. */
  lemma AcceptedMessageDisturbs(b: Bridge, i: nat, c: Config, tcFlag: bool, ackFlag: bool)
    requires Inv(b) && Settled(b) && i < |b.ports| && Accepted(b, i, c) && c.vec.cost < TWO32
    requires c.vec.bridge == b.id ==> c.vec.port != b.ports[i].portId
    requires SameElection(b, ReceiveConfig(b, i, c, tcFlag, ackFlag))
    ensures b.ports[i].des == c.vec
  {
    var p := b.ports[i];
    var rec := Record(b, i, c);
    var s, u, r := SelectRoot(rec), UpdateConfiguration(rec), ReceiveConfig(b, i, c, tcFlag, ackFlag);
    ReceiveConfigKeeps(b, i, c, tcFlag, ackFlag);
    assert SameRecord(b.ports[i], r.ports[i]) && SameRecord(u.ports[i], r.ports[i]);
    UpdateShape(rec, i);
    if ShouldDesignate(s, rec.ports[i]) {
      assert IsDesignated(b, p);
      if c.vec.root < b.root {
        RecordIsSound(b, i, c);
        DistinctIdsOfSound(rec);
        SelectRootElectsLeast(rec);
        assert Candidate(rec, rec.ports[i]);
      }
    }
  }

  /** A port that would accept its designated port's vector already holds it. */
  lemma NothingNew(net: Network, d: Place, x: Place)
    requires Quiescent(net) && Designated(net, d) && SameLink(net, d, x) && d != x
    ensures SupersedesPortInfo(Of(net, x).id, At(net, x), At(net, d).des) ==>
              At(net, x).des == At(net, d).des
  {
    BridgeFacts(net, d);
    BridgeFacts(net, x);
    DifferentNames(net, d, x);
    var c := Offer(net, d);
    assert c.vec == At(net, d).des;
    if SupersedesPortInfo(Of(net, x).id, At(net, x), c.vec) {
      assert Undisturbed(net, d, x);
      AcceptedMessageDisturbs(Of(net, x), x.port, c, false, false);
    }
  }

  /** Two designated ports on one link would disturb each other. */
  lemma OneDesignated(net: Network, d: Place, e: Place)
    requires Quiescent(net) && Designated(net, d) && Designated(net, e) && SameLink(net, d, e)
    ensures d == e
  {
    if d != e {
      BridgeFacts(net, d);
      BridgeFacts(net, e);
      DifferentNames(net, d, e);
      NothingNew(net, d, e);
      NothingNew(net, e, d);
    }
  }

  lemma DifferentNames(net: Network, d: Place, e: Place)
    requires DistinctIds(net) && InNet(net, d) && InNet(net, e) && d != e && Sound(Of(net, d))
    ensures Of(net, d).id == Of(net, e).id ==> d.bridge == e.bridge && At(net, d).portId != At(net, e).portId
  {
    if d.bridge == e.bridge {
      DistinctIdsOfSound(Of(net, d));
    }
  }

  /** What quiescence means for each port: all it takes to reason about the whole tree. */
  ghost predicate Stable(net: Network) {
    && DistinctIds(net)
    && (forall i {:trigger BridgeStable(net, i)} :: 0 <= i < |net.bridges| ==> BridgeStable(net, i))
    && (forall x {:trigger PortStable(net, x)} :: Live(net, x) ==> PortStable(net, x))
    && (forall d, e {:trigger SameLink(net, d, e)} ::
          Designated(net, d) && Designated(net, e) && SameLink(net, d, e) ==> d == e)
  }

  ghost predicate BridgeStable(net: Network, i: nat)
    requires i < |net.bridges|
  {
    && Settled(net.bridges[i]) && net.bridges[i].root <= net.bridges[i].id
    && (net.bridges[i].rootPort.Some? ==>
          IsRootPort(net, Place(i, net.bridges[i].rootPort.value)))
  }

  ghost predicate PortStable(net: Network, x: Place)
    requires Live(net, x)
  {
    var b, p := Of(net, x), At(net, x);
    && PortSettled(b, p) && p.des.root == b.root
    && p.pathCost > 0 && p.des.cost + p.pathCost < TWO31
    && Backed(net, x)
  }

  /** The port holds what some designated port of its link advertises. */
  ghost predicate Backed(net: Network, x: Place) {
    exists d :: Backs(net, d, x)
  }

  predicate Backs(net: Network, d: Place, x: Place) {
    Designated(net, d) && SameLink(net, d, x) && At(net, d).des == At(net, x).des
  }

  /** A record that is kept being accepted without effect is the sender's own. */
  lemma RefreshedIsBacked(net: Network, x: Place)
    requires Quiescent(net) && Live(net, x)
    ensures Backed(net, x)
  {
    if Designated(net, x) {
      assert Backs(net, x, x);
    } else {
      assert Refreshed(net, x);
      var d :| Refreshes(net, d, x);
      NothingNew(net, d, x);
      BridgeFacts(net, d);
      assert Backs(net, d, x);
    }
  }

  lemma QuiescentIsStable(net: Network)
    requires Quiescent(net)
    ensures Stable(net)
  {
    forall x | Live(net, x) ensures PortStable(net, x) {
      BridgeFacts(net, x);
      RefreshedIsBacked(net, x);
    }
    forall d, e | Designated(net, d) && Designated(net, e) && SameLink(net, d, e) ensures d == e {
      OneDesignated(net, d, e);
    }
    forall i: nat | i < |net.bridges| ensures BridgeStable(net, i) {
      assert Inv(net.bridges[i]) && Settled(net.bridges[i]);
      if net.bridges[i].rootPort.Some? {
        assert InNet(net, Place(i, net.bridges[i].rootPort.value));
      }
    }
  }
}

/**
  The tree that a quiescent network settles on: one root, exact distances, no loops.
*/
module StpTree {
  import opened Common
  import opened StpModel
  import opened StpElection
  import opened StpRuns
  import opened StpNetwork

  /** The designated port of the link that a live port is on. */
  ghost function Leader(net: Network, x: Place): (d: Place)
    requires Stable(net) && Live(net, x)
    ensures Backs(net, d, x)
  {
    assert PortStable(net, x);
    var d :| Backs(net, d, x);
    d
  }

  lemma LinksAgree(net: Network, x: Place, y: Place)
    requires Stable(net) && SameLink(net, x, y)
    ensures At(net, x).des == At(net, y).des
    ensures forall d :: Designated(net, d) && SameLink(net, d, x) <==> d == Leader(net, x)
    ensures var d := Leader(net, x);
            At(net, x).des == OwnVector(Of(net, d), At(net, d))
    ensures Of(net, x).root == Of(net, y).root
  {
    var d := Leader(net, x);
    assert PortStable(net, x) && PortStable(net, y) && PortStable(net, d);
    assert SameLink(net, d, Leader(net, y));
    forall e | Designated(net, e) && SameLink(net, e, x) ensures e == d {
      assert SameLink(net, e, d);
    }
  }

  /** Every link with a live port has exactly one designated port, and all its live ports
      hold the vector that the port's bridge advertises. */
  lemma OneDesignatedPort(net: Network, x: Place) returns (d: Place)
    requires Quiescent(net) && Live(net, x)
    ensures Designated(net, d) && SameLink(net, d, x)
    ensures forall e :: Designated(net, e) && SameLink(net, e, x) ==> e == d
    ensures forall y :: SameLink(net, x, y) ==> At(net, y).des == OwnVector(Of(net, d), At(net, d))
  {
    QuiescentIsStable(net);
    d := Leader(net, x);
    LinksAgree(net, x, x);
    forall y | SameLink(net, x, y) ensures At(net, y).des == At(net, x).des {
      LinksAgree(net, x, y);
    }
  }

  // ----- distances

  /** Crossing a link: leaving a bridge by port `out`, entering another at `into`. */
  datatype Hop = Hop(out: Place, into: Place)

  predicate IsPath(net: Network, a: nat, hops: seq<Hop>, z: nat)
    decreases hops
  {
    if hops == [] then a == z
    else
      && hops[0].out.bridge == a
      && SameLink(net, hops[0].out, hops[0].into)
      && IsPath(net, hops[0].into.bridge, hops[1..], z)
  }

  /** The path costs of the ports a path leaves by, added up. */
  function PathCost(net: Network, hops: seq<Hop>): nat {
    if hops == [] || !InNet(net, hops[0].out) then 0
    else At(net, hops[0].out).pathCost + PathCost(net, hops[1..])
  }

  ghost predicate Connected(net: Network) {
    forall a: nat, z: nat :: a < |net.bridges| && z < |net.bridges| ==> Joined(net, a, z)
  }

  ghost predicate Joined(net: Network, a: nat, z: nat) {
    exists hops :: IsPath(net, a, hops, z)
  }

  lemma {:induction false} RootsAgreeAlong(net: Network, a: nat, hops: seq<Hop>, z: nat)
    requires Stable(net) && a < |net.bridges| && IsPath(net, a, hops, z)
    ensures z < |net.bridges| && net.bridges[a].root == net.bridges[z].root
    decreases hops
  {
    if hops != [] {
      var h := hops[0];
      LinksAgree(net, h.out, h.into);
      RootsAgreeAlong(net, h.into.bridge, hops[1..], z);
    }
  }

  /** The designated port opposite a root port is strictly nearer to the root. */
  lemma RootPortDescends(net: Network, x: Place)
    requires Stable(net) && IsRootPort(net, x)
    ensures var d := Leader(net, x);
            && d.bridge != x.bridge
            && Of(net, x).rootCost == Of(net, d).rootCost + At(net, x).pathCost
            && Of(net, d).rootCost < Of(net, x).rootCost
  {
    LinksAgree(net, x, x);
    assert PortStable(net, x) && BridgeStable(net, x.bridge);
  }

  /** Following root ports leads from any bridge to a root bridge, over active ports only,
      at exactly the advertised cost. */
  lemma {:induction false} ClimbToRoot(net: Network, a: nat) returns (hops: seq<Hop>, z: nat)
    requires Stable(net) && a < |net.bridges|
    ensures IsPath(net, a, hops, z) && z < |net.bridges| && IsRoot(net.bridges[z])
    ensures forall h :: h in hops ==> IsRootPort(net, h.out) && Designated(net, h.into)
    ensures PathCost(net, hops) == net.bridges[a].rootCost
    decreases net.bridges[a].rootCost
  {
    var b := net.bridges[a];
    assert BridgeStable(net, a);
    if b.rootPort.None? {
      return [], a;
    }
    var x := Place(a, b.rootPort.value);
    RootPortDescends(net, x);
    var d := Leader(net, x);
    var rest, end := ClimbToRoot(net, d.bridge);
    hops, z := [Hop(x, d)] + rest, end;
    assert hops[1..] == rest;
  }

  /** One link can save at most its path cost. */
  lemma CostDropsByAtMostPathCost(net: Network, x: Place, y: Place)
    requires Stable(net) && SameLink(net, x, y)
    ensures Of(net, x).rootCost <= At(net, x).pathCost + Of(net, y).rootCost
  {
    var b, p := Of(net, x), At(net, x);
    LinksAgree(net, x, y);
    assert PortStable(net, x) && PortStable(net, y) && BridgeStable(net, x.bridge) && BridgeStable(net, y.bridge);
    assert p.des.cost <= Of(net, y).rootCost;
    if !IsDesignated(b, p) && b.rootPort.Some? {
      var r := Place(x.bridge, b.rootPort.value);
      assert PortStable(net, r);
      assert p.des.root < b.id ==> Candidate(b, p);
      assert CostVia(p) == p.des.cost + p.pathCost && b.rootCost == CostVia(At(net, r));
    }
  }

  lemma {:induction false} NoPathIsCheaper(net: Network, a: nat, hops: seq<Hop>, z: nat)
    requires Stable(net) && a < |net.bridges|
    requires IsPath(net, a, hops, z) && z < |net.bridges| && IsRoot(net.bridges[z])
    ensures net.bridges[a].rootCost <= PathCost(net, hops)
    decreases hops
  {
    if hops == [] {
      assert BridgeStable(net, a);
    } else {
      CostDropsByAtMostPathCost(net, hops[0].out, hops[0].into);
      NoPathIsCheaper(net, hops[0].into.bridge, hops[1..], z);
    }
  }

  ghost predicate IsSmallestId(net: Network, r: nat) {
    r < |net.bridges| && forall i :: 0 <= i < |net.bridges| ==> net.bridges[r].id <= net.bridges[i].id
  }

  /** In a connected quiescent network every bridge names as root the one bridge with the
      smallest identifier. */
  lemma OneRoot(net: Network) returns (r: nat)
    requires Quiescent(net) && Connected(net) && |net.bridges| > 0
    ensures IsSmallestId(net, r)
    ensures forall i :: 0 <= i < |net.bridges| ==> net.bridges[i].root == net.bridges[r].id
    ensures forall i :: 0 <= i < |net.bridges| ==> (IsRoot(net.bridges[i]) <==> i == r)
  {
    QuiescentIsStable(net);
    var hops, z := ClimbToRoot(net, 0);
    r := z;
    forall i | 0 <= i < |net.bridges|
      ensures net.bridges[i].root == net.bridges[r].id && net.bridges[r].id <= net.bridges[i].id
      ensures IsRoot(net.bridges[i]) <==> i == r
    {
      assert Joined(net, i, r);
      var path :| IsPath(net, i, path, r);
      RootsAgreeAlong(net, i, path, r);
      var b := net.bridges[i];
      assert BridgeStable(net, i);
      assert b.id == net.bridges[r].id ==> i == r;
    }
  }

  /** In a connected quiescent network each bridge's root path cost is its least-cost path
      distance to the bridge with the smallest identifier: some path attains it, made of root
      ports and designated ports, and no path is cheaper. */
  lemma ExactDistances(net: Network, a: nat, r: nat) returns (hops: seq<Hop>)
    requires Quiescent(net) && Connected(net) && a < |net.bridges| && IsSmallestId(net, r)
    ensures IsPath(net, a, hops, r)
    ensures forall h :: h in hops ==> IsRootPort(net, h.out) && Designated(net, h.into)
    ensures PathCost(net, hops) == net.bridges[a].rootCost
    ensures forall other :: IsPath(net, a, other, r) ==>
              net.bridges[a].rootCost <= PathCost(net, other)
  {
    QuiescentIsStable(net);
    var r' := OneRoot(net);
    assert net.bridges[r].id == net.bridges[r'].id;
    assert r == r';
    var z;
    hops, z := ClimbToRoot(net, a);
    forall other | IsPath(net, a, other, r)
      ensures net.bridges[a].rootCost <= PathCost(net, other)
    {
      NoPathIsCheaper(net, a, other, r);
    }
  }

  // ----- loops

  /** A port that spanning tree lets take part in forwarding. */
  predicate InTree(net: Network, x: Place) {
    IsRootPort(net, x) || Designated(net, x)
  }

  /** A frame's tour that ends where it began: every hop crosses a link between two different
      ports in the tree, and every bridge passes the frame on by another port than it came in. */
  predicate IsLoop(net: Network, hops: seq<Hop>) {
    && |hops| > 0
    && (forall i :: 0 <= i < |hops| ==> TreeHop(net, hops[i]))
    && (forall i :: 0 <= i < |hops| ==> Turns(hops[i], Successor(hops, i)))
  }

  predicate TreeHop(net: Network, h: Hop) {
    && SameLink(net, h.out, h.into) && h.out != h.into
    && InTree(net, h.out) && InTree(net, h.into)
  }

  function Successor(hops: seq<Hop>, i: nat): Hop
    requires i < |hops|
  {
    if i + 1 < |hops| then hops[i + 1] else hops[0]
  }

  predicate Turns(h: Hop, next: Hop) {
    h.into.bridge == next.out.bridge && h.into != next.out
  }

  /** Across any link of the tree, the side that is not designated is a root port and
      strictly farther from the root. */
  lemma TreeLink(net: Network, x: Place, y: Place)
    requires Stable(net) && SameLink(net, x, y) && x != y
    requires Designated(net, x) && InTree(net, y)
    ensures Of(net, x).rootCost < Of(net, y).rootCost
  {
    LinksAgree(net, x, y);
    RootPortDescends(net, y);
  }

  lemma MaxCost(net: Network, hops: seq<Hop>) returns (m: nat)
    requires |hops| > 0 && forall i :: 0 <= i < |hops| ==> InNet(net, hops[i].into)
    ensures m < |hops|
    ensures forall i :: 0 <= i < |hops| ==>
              Of(net, hops[i].into).rootCost <= Of(net, hops[m].into).rootCost
  {
    m := 0;
    for k := 1 to |hops|
      invariant m < |hops|
      invariant forall i :: 0 <= i < k ==>
                  Of(net, hops[i].into).rootCost <= Of(net, hops[m].into).rootCost
    {
      if Of(net, hops[m].into).rootCost < Of(net, hops[k].into).rootCost {
        m := k;
      }
    }
  }

  /** From any bridge on a loop, one of the two neighbours on the loop is farther from the root. */
  lemma LoopGoesFarther(net: Network, before: Hop, h: Hop, next: Hop)
    requires Stable(net)
    requires TreeHop(net, before) && TreeHop(net, h) && TreeHop(net, next)
    requires Turns(before, h) && Turns(h, next)
    ensures || Of(net, h.into).rootCost < Of(net, before.into).rootCost
            || Of(net, h.into).rootCost < Of(net, next.into).rootCost
  {
    if Designated(net, h.into) {
      TreeLink(net, h.into, h.out);
    } else {
      TreeLink(net, next.out, next.into);
    }
  }

  /** No loop runs over root ports and designated ports of a quiescent network. */
  lemma TreeIsLoopFree(net: Network, hops: seq<Hop>)
    requires Quiescent(net)
    ensures !IsLoop(net, hops)
  {
    QuiescentIsStable(net);
    LoopHasNoFarthest(net, hops);
  }

  lemma LoopTurns(net: Network, hops: seq<Hop>, i: nat, j: nat)
    requires IsLoop(net, hops) && i < |hops| && j < |hops| && Successor(hops, i) == hops[j]
    ensures TreeHop(net, hops[i]) && TreeHop(net, hops[j]) && Turns(hops[i], hops[j])
  {
  }

  lemma LoopHasNoFarthest(net: Network, hops: seq<Hop>)
    requires Stable(net)
    ensures !IsLoop(net, hops)
  {
    if IsLoop(net, hops) {
      var m := MaxCost(net, hops);
      var prev, next := if m > 0 then m - 1 else |hops| - 1, if m + 1 < |hops| then m + 1 else 0;
      LoopTurns(net, hops, prev, m);
      LoopTurns(net, hops, m, next);
      LoopGoesFarther(net, hops[prev], hops[m], hops[next]);
    }
  }

  /** No loop runs over ports in the forwarding state. */
  lemma ForwardingIsLoopFree(net: Network, hops: seq<Hop>)
    requires Quiescent(net) && |hops| > 0
    requires forall i :: 0 <= i < |hops| ==>
               && SameLink(net, hops[i].out, hops[i].into) && hops[i].out != hops[i].into
               && At(net, hops[i].out).state == Forwarding && At(net, hops[i].into).state == Forwarding
    ensures exists i :: 0 <= i < |hops| && !Turns(hops[i], Successor(hops, i))
  {
    forall i | 0 <= i < |hops| ensures InTree(net, hops[i].out) && InTree(net, hops[i].into) {
      assert HasRole(Of(net, hops[i].out), hops[i].out.port);
      assert HasRole(Of(net, hops[i].into), hops[i].into.port);
    }
    TreeIsLoopFree(net, hops);
  }
}
