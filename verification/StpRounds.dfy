/**
  Bridges that hear one another.  A designated port's message reaches every other port of its
  link sooner or later; whatever is sent and arrives in whatever order, every record a port
  holds stands for a real path of that cost and that many hops to the bridge it names as root.
*/
module StpRounds {
  import opened Common
  import opened StpModel
  import opened StpElection
  import opened StpRuns
  import opened StpNetwork
  import opened StpTree
  import opened StpHearing

  /** Six seconds in ticks: the shortest maximum age that a bridge allows. */
  const MIN_MAX_AGE := 1536

  /** The bridges, and what each port has sent that its link has yet to hear. */
  datatype Traffic = Traffic(net: Network, flight: map<Place, Config>)

  /** A port's turn to send, which it takes if it is designated; or what a port has sent arrives,
      and the ports in `to` hear it in turn. */
  datatype Turn =
    | Sends(from: Place)
    | Arrives(from: Place, to: seq<Place>, tcFlag: bool, ackFlag: bool)

  function Hear(net: Network, x: Place, c: Config, tcFlag: bool, ackFlag: bool): Network {
    if InNet(net, x) && RootPortInRange(Of(net, x)) then
      net.(bridges := net.bridges[x.bridge := ReceiveConfig(Of(net, x), x.port, c, tcFlag, ackFlag)])
    else net
  }

  function HearAll(net: Network, xs: seq<Place>, c: Config, tcFlag: bool, ackFlag: bool): Network {
    if xs == [] then net
    else Hear(HearAll(net, xs[..|xs| - 1], c, tcFlag, ackFlag), xs[|xs| - 1], c, tcFlag, ackFlag)
  }

  /** A message stays on its way until it arrives or the port sends a newer one. */
  function Take(t: Traffic, e: Turn): Traffic {
    match e
    case Sends(x) =>
      if Designated(t.net, x) && RootPortInRange(Of(t.net, x))
      then t.(flight := t.flight[x := Offer(t.net, x)]) else t
    case Arrives(x, to, tcFlag, ackFlag) =>
      if x in t.flight
      then Traffic(HearAll(t.net, to, t.flight[x], tcFlag, ackFlag), t.flight - {x}) else t
  }

  function Round(t: Traffic, turns: seq<Turn>): Traffic {
    if turns == [] then t else Take(Round(t, turns[..|turns| - 1]), turns[|turns| - 1])
  }

  /** What arrives does so at every other port of the link. */
  ghost predicate Broadcast(net: Network, e: Turn) {
    e.Arrives? ==> forall y :: y in e.to <==> SameLink(net, e.from, y) && y != e.from
  }

  ghost predicate AllBroadcast(net: Network, turns: seq<Turn>) {
    forall k {:trigger turns[k]} :: 0 <= k < |turns| ==> Broadcast(net, turns[k])
  }

  predicate ArrivalFrom(e: Turn, x: Place) {
    e.Arrives? && e.from == x
  }

  predicate GetsToSend(turns: seq<Turn>, x: Place) {
    exists k :: 0 <= k < |turns| && turns[k] == Sends(x)
  }

  /** The port at `x` gets to send, and after that what it has sent gets to arrive. */
  predicate GetsThrough(turns: seq<Turn>, x: Place) {
    exists k :: 0 <= k < |turns| && ArrivalFrom(turns[k], x) && GetsToSend(turns[..k], x)
  }

  /** Every port gets through at least once, with any delay and in any order. */
  ghost predicate Fair(net: Network, turns: seq<Turn>) {
    AllBroadcast(net, turns) && forall x {:trigger Live(net, x)} :: Live(net, x) ==> GetsThrough(turns, x)
  }

  // ----- what no message changes

  predicate SamePort(p: Port, q: Port) {
    p.portId == q.portId && p.pathCost == q.pathCost && Enabled(p) == Enabled(q)
  }

  ghost predicate SameShape(net: Network, m: Network) {
    && m.link == net.link && |m.bridges| == |net.bridges|
    && (forall i :: 0 <= i < |net.bridges| ==>
          m.bridges[i].id == net.bridges[i].id && |m.bridges[i].ports| == |net.bridges[i].ports|)
    && (forall x {:trigger InNet(net, x)} :: InNet(net, x) ==> SamePort(At(net, x), At(m, x)))
  }

  lemma ShapeFacts(net: Network, m: Network, x: Place, y: Place)
    requires SameShape(net, m)
    ensures InNet(net, x) == InNet(m, x) && Live(net, x) == Live(m, x) && SameLink(net, x, y) == SameLink(m, x, y)
  {
    assert InNet(net, x) ==> SamePort(At(net, x), At(m, x));
    assert InNet(net, y) ==> SamePort(At(net, y), At(m, y));
  }

  lemma {:induction false} PathFrame(net: Network, m: Network, a: nat, hops: seq<Hop>, z: nat)
    requires SameShape(net, m) && IsPath(net, a, hops, z)
    ensures IsPath(m, a, hops, z) && PathCost(m, hops) == PathCost(net, hops)
    decreases hops
  {
    if hops != [] {
      ShapeFacts(net, m, hops[0].out, hops[0].into);
      PathFrame(net, m, hops[0].into.bridge, hops[1..], z);
    }
  }

  /** Bridges only ever come to believe better. */
  ghost predicate Later(net: Network, m: Network) {
    SameShape(net, m)
    && forall i :: 0 <= i < |net.bridges| ==> BetterBelief(m.bridges[i], net.bridges[i])
  }

  lemma LaterRefl(net: Network)
    ensures Later(net, net)
  {
  }

  lemma LaterTrans(a: Network, b: Network, c: Network)
    requires Later(a, b) && Later(b, c)
    ensures Later(a, c)
  {
    forall x | InNet(a, x) ensures SamePort(At(a, x), At(c, x)) {
      assert InNet(b, x);
    }
  }

  // ----- paths that stand behind what a bridge believes

  function Visited(a: nat, hops: seq<Hop>): set<nat>
    decreases hops
  {
    if hops == [] then {a} else {a} + Visited(hops[0].into.bridge, hops[1..])
  }

  predicate Simple(a: nat, hops: seq<Hop>)
    decreases hops
  {
    hops == [] || (a !in Visited(hops[0].into.bridge, hops[1..]) && Simple(hops[0].into.bridge, hops[1..]))
  }

  /** Every bridge of the path believes at least as well as what is left of the path promises. */
  predicate Under(net: Network, a: nat, hops: seq<Hop>, root: nat)
    decreases hops
  {
    && a < |net.bridges|
    && NoWorse(net.bridges[a].root, net.bridges[a].rootCost, root, PathCost(net, hops))
    && (hops != [] ==> Under(net, hops[0].into.bridge, hops[1..], root))
  }

  predicate Stands(net: Network, a: nat, hops: seq<Hop>, z: nat, root: nat, cost: nat) {
    && IsPath(net, a, hops, z) && Simple(a, hops) && Under(net, a, hops, root)
    && z < |net.bridges| && net.bridges[z].id == root && PathCost(net, hops) == cost
  }

  /** A vector that the port at `d` advertised, with a path behind it of as many hops as its age. */
  ghost predicate Vouched(net: Network, d: Place, v: Vector, age: int) {
    && InNet(net, d) && v.bridge == Of(net, d).id && v.port == At(net, d).portId
    && exists hops, z :: Stands(net, d.bridge, hops, z, v.root, v.cost) && |hops| == age
  }

  ghost predicate Told(net: Network, y: Place)
    requires InNet(net, y)
  {
    exists d :: SameLink(net, d, y) && d != y && Vouched(net, d, At(net, y).des, At(net, y).messageAge.value)
  }

  predicate BridgeOk(b: Bridge) {
    && Inv(b) && Elected(b) && b.maxAge >= MIN_MAX_AGE
    && forall k :: 0 <= k < |b.ports| && !Enabled(b.ports[k]) ==> b.ports[k].des.cost == 0
  }

  ghost predicate Truthful(net: Network) {
    && DistinctIds(net) && |net.bridges| <= MIN_MAX_AGE
    && (forall i :: 0 <= i < |net.bridges| ==> BridgeOk(net.bridges[i]))
    && (forall x :: InNet(net, x) && Enabled(At(net, x)) ==> x in net.link)
    && (forall y {:trigger Told(net, y)} :: Live(net, y) && !Designated(net, y) ==> Told(net, y))
  }

  lemma {:induction false} UnderLater(net: Network, m: Network, a: nat, hops: seq<Hop>, z: nat, root: nat)
    requires Later(net, m) && IsPath(net, a, hops, z) && Under(net, a, hops, root)
    ensures Under(m, a, hops, root)
    decreases hops
  {
    PathFrame(net, m, a, hops, z);
    if hops != [] {
      UnderLater(net, m, hops[0].into.bridge, hops[1..], z, root);
    }
  }

  lemma VouchedLater(net: Network, m: Network, d: Place, v: Vector, age: int)
    requires Later(net, m) && Vouched(net, d, v, age)
    ensures Vouched(m, d, v, age)
  {
    ShapeFacts(net, m, d, d);
    var hops, z :| Stands(net, d.bridge, hops, z, v.root, v.cost) && |hops| == age;
    PathFrame(net, m, d.bridge, hops, z);
    UnderLater(net, m, d.bridge, hops, z, v.root);
    assert Stands(m, d.bridge, hops, z, v.root, v.cost);
  }

  lemma {:induction false} UnderVisited(net: Network, a: nat, hops: seq<Hop>, z: nat, root: nat, q: nat)
    requires IsPath(net, a, hops, z) && Under(net, a, hops, root) && q in Visited(a, hops)
    ensures q < |net.bridges| && NoWorse(net.bridges[q].root, net.bridges[q].rootCost, root, PathCost(net, hops))
    decreases hops
  {
    if q != a {
      UnderVisited(net, hops[0].into.bridge, hops[1..], z, root, q);
    }
  }

  lemma {:induction false} VisitedInNet(net: Network, a: nat, hops: seq<Hop>, root: nat)
    requires Under(net, a, hops, root)
    ensures forall q :: q in Visited(a, hops) ==> q < |net.bridges|
    decreases hops
  {
    if hops != [] {
      VisitedInNet(net, hops[0].into.bridge, hops[1..], root);
    }
  }

  lemma {:induction false} SimpleSize(a: nat, hops: seq<Hop>)
    requires Simple(a, hops)
    ensures |Visited(a, hops)| == |hops| + 1
    decreases hops
  {
    if hops != [] {
      SimpleSize(hops[0].into.bridge, hops[1..]);
    }
  }

  lemma {:induction false} BoundedSize(s: set<nat>, n: nat)
    requires forall q :: q in s ==> q < n
    ensures |s| <= n
  {
    if n > 0 {
      BoundedSize(s - {n - 1}, n - 1);
    } else {
      assert s == {};
    }
  }

  /** A path that visits no bridge twice has fewer hops than there are bridges. */
  lemma StandsIsShort(net: Network, a: nat, hops: seq<Hop>, z: nat, root: nat, cost: nat)
    requires Stands(net, a, hops, z, root, cost)
    ensures |hops| < |net.bridges|
  {
    VisitedInNet(net, a, hops, root);
    SimpleSize(a, hops);
    BoundedSize(Visited(a, hops), |net.bridges|);
  }

  lemma {:induction false} PathCostBound(net: Network, a: nat, hops: seq<Hop>, z: nat)
    requires IsPath(net, a, hops, z) && forall i :: 0 <= i < |net.bridges| ==> Inv(net.bridges[i])
    ensures PathCost(net, hops) <= 65535 * |hops|
    decreases hops
  {
    if hops != [] {
      PathCostBound(net, hops[0].into.bridge, hops[1..], z);
      var x := hops[0].out;
      assert PortSound(Of(net, x), x.port);
    }
  }

  const COST_LIMIT := 65535 * MIN_MAX_AGE

  lemma StandsIsModest(net: Network, a: nat, hops: seq<Hop>, z: nat, root: nat, cost: nat)
    requires Truthful(net) && Stands(net, a, hops, z, root, cost)
    ensures |hops| < |net.bridges| && cost < COST_LIMIT
  {
    StandsIsShort(net, a, hops, z, root, cost);
    PathCostBound(net, a, hops, z);
  }

  // ----- beliefs, records and messages

  lemma ToldStands(net: Network, y: Place) returns (d: Place, hops: seq<Hop>, z: nat)
    requires Truthful(net) && Live(net, y) && !Designated(net, y)
    ensures SameLink(net, d, y) && d != y
    ensures At(net, y).des.bridge == Of(net, d).id && At(net, y).des.port == At(net, d).portId
    ensures Stands(net, d.bridge, hops, z, At(net, y).des.root, At(net, y).des.cost)
    ensures |hops| == At(net, y).messageAge.value && |hops| < |net.bridges| && At(net, y).des.cost < COST_LIMIT
  {
    assert Told(net, y);
    var v, age := At(net, y).des, At(net, y).messageAge.value;
    d :| SameLink(net, d, y) && d != y && Vouched(net, d, v, age);
    hops, z :| Stands(net, d.bridge, hops, z, v.root, v.cost) && |hops| == age;
    StandsIsModest(net, d.bridge, hops, z, v.root, v.cost);
  }

  /** The path behind a bridge's belief: out by its root port, then as its record says. */
  lemma BeliefStands(net: Network, i: nat) returns (hops: seq<Hop>, z: nat)
    requires Truthful(net) && i < |net.bridges|
    ensures var b := net.bridges[i];
            && Stands(net, i, hops, z, b.root, b.rootCost) && AgeToSend(b) == |hops|
            && |hops| < |net.bridges| && b.rootCost < COST_LIMIT
  {
    var b := net.bridges[i];
    assert BridgeOk(b);
    if b.rootPort.None? {
      hops, z := [], i;
    } else {
      var x := Place(i, b.rootPort.value);
      assert IsLeastCandidate(b, x.port) && InNet(net, x) && PortSound(b, x.port);
      var d, rest, end := ToldStands(net, x);
      hops, z := [Hop(x, d)] + rest, end;
      ViaRootPort(net, x, d, rest, z);
      RootPortAge(b, |rest|);
    }
    StandsIsModest(net, i, hops, z, b.root, b.rootCost);
  }

  lemma RootPortAge(b: Bridge, age: nat)
    requires RootSettled(b) && b.rootPort.Some? && age < MIN_MAX_AGE
    requires b.ports[b.rootPort.value].messageAge.value == age
    ensures AgeToSend(b) == age + 1
  {
  }

  lemma ViaRootPort(net: Network, x: Place, d: Place, rest: seq<Hop>, z: nat)
    requires SameLink(net, x, d) && At(net, x).pathCost > 0
    requires Stands(net, d.bridge, rest, z, Of(net, x).root, At(net, x).des.cost)
    requires Of(net, x).rootCost == At(net, x).des.cost + At(net, x).pathCost
    ensures Stands(net, x.bridge, [Hop(x, d)] + rest, z, Of(net, x).root, Of(net, x).rootCost)
  {
    var hops := [Hop(x, d)] + rest;
    assert hops[1..] == rest;
    if x.bridge in Visited(d.bridge, rest) {
      UnderVisited(net, d.bridge, rest, z, Of(net, x).root, x.bridge);
    }
  }

  lemma CostsAreModest(net: Network, i: nat)
    requires Truthful(net) && i < |net.bridges|
    ensures CostsModest(net.bridges[i])
  {
    var b := net.bridges[i];
    assert BridgeOk(b);
    var _, _ := BeliefStands(net, i);
    forall k | 0 <= k < |b.ports|
      ensures b.ports[k].pathCost > 0 && b.ports[k].des.cost + b.ports[k].pathCost < TWO31
    {
      assert PortSound(b, k) && PortFit(b, b.ports[k]);
      var y := Place(i, k);
      assert InNet(net, y);
      if Enabled(b.ports[k]) {
        assert PortSettled(b, b.ports[k]);
        if !IsDesignated(b, b.ports[k]) {
          var _, _, _ := ToldStands(net, y);
        }
      }
    }
  }

  /** A message that a port has sent, or could send. */
  ghost predicate Message(net: Network, d: Place, c: Config) {
    && Vouched(net, d, c.vec, c.messageAge)
    && c.messageAge < MIN_MAX_AGE <= c.maxAge && c.vec.cost < COST_LIMIT
  }

  lemma OfferIsMessage(net: Network, d: Place)
    requires Truthful(net) && Designated(net, d)
    ensures RootPortInRange(Of(net, d)) && Message(net, d, Offer(net, d)) && Offer(net, d).vec == At(net, d).des
  {
    assert BridgeOk(Of(net, d)) && PortSettled(Of(net, d), At(net, d));
    var _, _ := BeliefStands(net, d.bridge);
  }

  // ----- hearing one message

  /** How the record of the port at `y` may change when the port at `x` hears. */
  predicate Moves(net: Network, m: Network, y: Place, x: Place, c: Config)
    requires InNet(net, y) && InNet(m, y)
  {
    var p, q := At(net, y), At(m, y);
    && BetterRecord(q.des, p.des)
    && (Precedes(q.des, p.des) || (y == x && SupersedesPortInfo(Of(net, y).id, p, c.vec)))
    && (y == x ==> Precedes(q.des, c.vec))
    && (|| IsDesignated(Of(m, y), q)
        || (q.des == p.des && (q.messageAge.value == p.messageAge.value))
        || (y == x && q.des == c.vec && q.messageAge.value == c.messageAge))
  }

  /** One bridge of the network, replaced by one that has heard. */
  predicate Replaces(net: Network, m: Network, x: Place, c: Config)
    requires InNet(net, x)
  {
    && |m.bridges| == |net.bridges| && m.link == net.link
    && m.bridges == net.bridges[x.bridge := m.bridges[x.bridge]]
    && Improves(Of(net, x), m.bridges[x.bridge], x.port, c)
  }

  lemma ReplacedMoves(net: Network, m: Network, x: Place, c: Config, y: Place)
    requires InNet(net, x) && Replaces(net, m, x, c) && InNet(net, y)
    ensures InNet(m, y) && Moves(net, m, y, x, c) && SamePort(At(net, y), At(m, y))
  {
    assert y.bridge == x.bridge ==> RecordMoves(Of(net, x), m.bridges[x.bridge], y.port, x.port, c);
  }

  lemma ReplacedIsLater(net: Network, m: Network, x: Place, c: Config)
    requires InNet(net, x) && Replaces(net, m, x, c)
    ensures Later(net, m)
  {
    forall y | InNet(net, y) ensures SamePort(At(net, y), At(m, y)) {
      ReplacedMoves(net, m, x, c, y);
    }
  }

  lemma ReplacedIsOk(net: Network, m: Network, x: Place, c: Config)
    requires InNet(net, x) && Replaces(net, m, x, c) && BridgeOk(Of(net, x)) && c.maxAge >= MIN_MAX_AGE
    ensures BridgeOk(m.bridges[x.bridge])
  {
    var b, r := Of(net, x), m.bridges[x.bridge];
    forall k | 0 <= k < |r.ports| && !Enabled(r.ports[k]) ensures r.ports[k].des.cost == 0 {
      assert RecordMoves(b, r, k, x.port, c);
    }
  }

  lemma HearReplaces(net: Network, d: Place, x: Place, c: Config, tcFlag: bool, ackFlag: bool)
    requires Truthful(net) && SameLink(net, d, x) && d != x && Message(net, d, c)
    ensures Replaces(net, Hear(net, x, c, tcFlag, ackFlag), x, c)
  {
    var b := Of(net, x);
    assert BridgeOk(b);
    CostsAreModest(net, x.bridge);
    assert BridgeOk(Of(net, d));
    DifferentNames(net, d, x);
    Hearing(b, x.port, c, tcFlag, ackFlag);
  }

  lemma ToldLater(net: Network, m: Network, d: Place, x: Place, c: Config, y: Place)
    requires Truthful(net) && SameLink(net, d, x) && d != x && Message(net, d, c)
    requires Replaces(net, m, x, c) && Later(net, m) && Live(m, y) && !Designated(m, y)
    ensures Told(m, y)
  {
    ShapeFacts(net, m, y, x);
    ReplacedMoves(net, m, x, c, y);
    var v, age := At(m, y).des, At(m, y).messageAge.value;
    if v == At(net, y).des && age == At(net, y).messageAge.value {
      assert Told(net, y);
      var e :| SameLink(net, e, y) && e != y && Vouched(net, e, v, age);
      VouchedLater(net, m, e, v, age);
      ShapeFacts(net, m, e, y);
    } else {
      VouchedLater(net, m, d, v, age);
      ShapeFacts(net, m, d, y);
    }
  }

  lemma ReplacedIsTruthful(net: Network, m: Network, d: Place, x: Place, c: Config)
    requires Truthful(net) && SameLink(net, d, x) && d != x && Message(net, d, c) && Replaces(net, m, x, c)
    ensures Truthful(m) && Later(net, m) && Message(m, d, c)
  {
    ReplacedIsLater(net, m, x, c);
    assert BridgeOk(Of(net, x));
    ReplacedIsOk(net, m, x, c);
    VouchedLater(net, m, d, c.vec, c.messageAge);
    forall y | Live(m, y) && !Designated(m, y) ensures Told(m, y) {
      ToldLater(net, m, d, x, c, y);
    }
    forall y | InNet(m, y) && Enabled(At(m, y)) ensures y in m.link {
      ShapeFacts(net, m, y, y);
      assert InNet(net, y);
    }
  }

  /** Hearing a message keeps the network truthful. */
  lemma HearKeepsTruth(net: Network, d: Place, x: Place, c: Config, tcFlag: bool, ackFlag: bool)
    requires Truthful(net) && SameLink(net, d, x) && d != x && Message(net, d, c)
    ensures var m := Hear(net, x, c, tcFlag, ackFlag);
            Truthful(m) && Later(net, m) && Replaces(net, m, x, c) && Message(m, d, c)
  {
    HearReplaces(net, d, x, c, tcFlag, ackFlag);
    ReplacedIsTruthful(net, Hear(net, x, c, tcFlag, ackFlag), d, x, c);
  }

  // ----- a message to a whole link

  /** What hearing one message at each of several ports does to the record of the port at `y`. */
  predicate Settles(net: Network, m: Network, y: Place, c: Config, heard: seq<Place>)
    requires InNet(net, y) && InNet(m, y)
  {
    var p, q := At(net, y).des, At(m, y).des;
    && BetterRecord(q, p) && (y in heard ==> Precedes(q, c.vec))
    && (Precedes(q, p) || (y in heard && SupersedesPortInfo(Of(net, y).id, At(net, y), c.vec)))
    && (IsDesignated(Of(m, y), At(m, y)) || q == p || (y in heard && q == c.vec))
  }

  ghost predicate AllSettle(net: Network, m: Network, c: Config, heard: seq<Place>) {
    forall y {:trigger InNet(net, y)} :: InNet(net, y) ==> InNet(m, y) && Settles(net, m, y, c, heard)
  }

  lemma SettlesNext(net: Network, m: Network, r: Network, y: Place, x: Place, c: Config, heard: seq<Place>)
    requires InNet(net, y) && InNet(m, y) && InNet(m, x) && Settles(net, m, y, c, heard)
    requires Replaces(m, r, x, c) && Of(m, y).id == Of(net, y).id
    ensures InNet(r, y) && Settles(net, r, y, c, heard + [x])
  {
    ReplacedMoves(m, r, x, c, y);
  }

  ghost predicate SoFar(net: Network, m: Network, d: Place, c: Config, heard: seq<Place>) {
    Truthful(m) && Later(net, m) && Message(m, d, c) && AllSettle(net, m, c, heard)
  }

  lemma NothingHeard(net: Network, d: Place, c: Config)
    requires Truthful(net) && Message(net, d, c)
    ensures SoFar(net, net, d, c, [])
  {
    LaterRefl(net);
    forall y | InNet(net, y) ensures Settles(net, net, y, c, []) {}
  }

  lemma OneMoreHears(net: Network, m: Network, d: Place, x: Place, c: Config, heard: seq<Place>,
                     tcFlag: bool, ackFlag: bool)
    requires SoFar(net, m, d, c, heard) && SameLink(net, d, x) && x != d
    ensures SoFar(net, Hear(m, x, c, tcFlag, ackFlag), d, c, heard + [x])
  {
    var r := Hear(m, x, c, tcFlag, ackFlag);
    ShapeFacts(net, m, d, x);
    HearKeepsTruth(m, d, x, c, tcFlag, ackFlag);
    LaterTrans(net, m, r);
    forall y | InNet(net, y) ensures InNet(r, y) && Settles(net, r, y, c, heard + [x]) {
      SettlesNext(net, m, r, y, x, c, heard);
    }
  }

  lemma {:induction false} HearAllKeeps(net: Network, d: Place, xs: seq<Place>, c: Config, tcFlag: bool, ackFlag: bool)
    requires Truthful(net) && Message(net, d, c)
    requires forall k :: 0 <= k < |xs| ==> SameLink(net, d, xs[k]) && xs[k] != d
    ensures SoFar(net, HearAll(net, xs, c, tcFlag, ackFlag), d, c, xs)
  {
    if xs == [] {
      NothingHeard(net, d, c);
    } else {
      var init, x := xs[..|xs| - 1], xs[|xs| - 1];
      assert init + [x] == xs;
      HearAllKeeps(net, d, init, c, tcFlag, ackFlag);
      OneMoreHears(net, HearAll(net, init, c, tcFlag, ackFlag), d, x, c, init, tcFlag, ackFlag);
    }
  }

  // ----- what the ports of one link have in common

  /** The port at `x` holds a record no worse than the one the port at `y` holds. */
  predicate Abreast(net: Network, x: Place, y: Place)
    requires InNet(net, x) && InNet(net, y)
  {
    NoWorse(At(net, x).des.root, At(net, x).des.cost, At(net, y).des.root, At(net, y).des.cost)
  }

  /** Whatever one port of a link has heard, all have. */
  ghost predicate Linked(net: Network) {
    forall x, y {:trigger SameLink(net, x, y)} :: SameLink(net, x, y) && !Designated(net, y) ==> Abreast(net, x, y)
  }

  /** A message on its way: its port has since held no worse a record. */
  ghost predicate Sent(net: Network, x: Place, c: Config) {
    && Message(net, x, c) && Live(net, x)
    && NoWorse(At(net, x).des.root, At(net, x).des.cost, c.vec.root, c.vec.cost)
  }

  ghost predicate Sane(t: Traffic) {
    && Truthful(t.net) && Linked(t.net)
    && forall x {:trigger Sent(t.net, x, t.flight[x])} :: x in t.flight ==> Sent(t.net, x, t.flight[x])
  }

  lemma AbreastAfter(net: Network, m: Network, d: Place, c: Config, to: seq<Place>, x: Place, y: Place)
    requires Linked(net) && Sent(net, d, c) && SameShape(net, m) && AllSettle(net, m, c, to)
    requires forall z :: z in to <==> SameLink(net, d, z) && z != d
    requires SameLink(m, x, y) && !Designated(m, y)
    ensures Abreast(m, x, y)
  {
    ShapeFacts(net, m, x, y);
    assert InNet(net, x) && InNet(net, y) && Settles(net, m, x, c, to) && Settles(net, m, y, c, to);
    if At(m, y).des == At(net, y).des {
      assert SamePort(At(net, y), At(m, y));
      assert Abreast(net, x, y);
    } else {
      assert SameLink(net, d, y);
      assert x in to || x == d;
    }
  }

  lemma SentLater(net: Network, m: Network, x: Place, c: Config, heard: Config, to: seq<Place>)
    requires Later(net, m) && AllSettle(net, m, heard, to) && Sent(net, x, c)
    ensures Sent(m, x, c)
  {
    ShapeFacts(net, m, x, x);
    VouchedLater(net, m, x, c.vec, c.messageAge);
    assert InNet(net, x) && Settles(net, m, x, heard, to);
  }

  /** A message arrives: everything stays sane, and no belief gets worse. */
  lemma ArrivalKeeps(t: Traffic, e: Turn)
    requires Sane(t) && Broadcast(t.net, e) && e.Arrives? && e.from in t.flight
    ensures var m := Take(t, e);
            Sane(m) && Later(t.net, m.net) && AllSettle(t.net, m.net, t.flight[e.from], e.to)
  {
    var m, d, c := Take(t, e), e.from, t.flight[e.from];
    assert Sent(t.net, d, c);
    forall k | 0 <= k < |e.to| ensures SameLink(t.net, d, e.to[k]) && e.to[k] != d {
      assert e.to[k] in e.to;
    }
    HearAllKeeps(t.net, d, e.to, c, e.tcFlag, e.ackFlag);
    forall x, y | SameLink(m.net, x, y) && !Designated(m.net, y) ensures Abreast(m.net, x, y) {
      AbreastAfter(t.net, m.net, d, c, e.to, x, y);
    }
    forall x | x in m.flight ensures Sent(m.net, x, m.flight[x]) {
      assert Sent(t.net, x, t.flight[x]);
      SentLater(t.net, m.net, x, t.flight[x], c, e.to);
    }
  }

  lemma SendKeeps(t: Traffic, x: Place)
    requires Sane(t)
    ensures Sane(Take(t, Sends(x)))
    ensures Designated(t.net, x) ==>
              x in Take(t, Sends(x)).flight && Take(t, Sends(x)).flight[x].vec == At(t.net, x).des
  {
    var m := Take(t, Sends(x));
    if Designated(t.net, x) {
      OfferIsMessage(t.net, x);
      assert Sent(t.net, x, Offer(t.net, x));
    }
    forall y | y in m.flight ensures Sent(m.net, y, m.flight[y]) {
      assert y != x ==> Sent(t.net, y, t.flight[y]);
      assert !Designated(t.net, x) && y == x ==> Sent(t.net, y, t.flight[y]);
    }
  }

  lemma TurnKeeps(t: Traffic, e: Turn)
    requires Sane(t) && Broadcast(t.net, e)
    ensures Sane(Take(t, e)) && Later(t.net, Take(t, e).net)
  {
    if e.Sends? {
      SendKeeps(t, e.from);
      LaterRefl(t.net);
    } else if e.from in t.flight {
      ArrivalKeeps(t, e);
    } else {
      LaterRefl(t.net);
    }
  }
}
