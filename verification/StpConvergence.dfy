/**
  Convergence: bridges that start out knowing only themselves come to rest.  If in every round
  every port gets to send and its link gets to hear, then two rounds more than there are bridges
  make the network quiescent, however long messages take and in whatever order they arrive.
*/
module StpConvergence {
  import opened Common
  import opened StpModel
  import opened StpElection
  import opened StpRuns
  import opened StpNetwork
  import opened StpTree
  import opened StpHearing
  import opened StpFresh
  import opened StpRounds

  function Rounds(t: Traffic, rounds: seq<seq<Turn>>): Traffic {
    if rounds == [] then t else Round(Rounds(t, rounds[..|rounds| - 1]), rounds[|rounds| - 1])
  }

  ghost predicate AllFair(net: Network, rounds: seq<seq<Turn>>) {
    forall k {:trigger rounds[k]} :: 0 <= k < |rounds| ==> Fair(net, rounds[k])
  }

  // ----- rounds keep what single messages keep

  lemma ShapeSym(net: Network, m: Network)
    requires SameShape(net, m)
    ensures SameShape(m, net)
  {
    forall x | InNet(m, x) ensures SamePort(At(m, x), At(net, x)) {
      assert InNet(net, x);
    }
  }

  lemma BroadcastFrame(net: Network, m: Network, e: Turn)
    requires SameShape(net, m) && Broadcast(net, e)
    ensures Broadcast(m, e)
  {
    if e.Arrives? {
      forall y ensures y in e.to <==> SameLink(m, e.from, y) && y != e.from {
        ShapeFacts(net, m, e.from, y);
      }
    }
  }

  lemma FairFrame(net: Network, m: Network, turns: seq<Turn>)
    requires SameShape(net, m) && Fair(net, turns)
    ensures Fair(m, turns)
  {
    forall k | 0 <= k < |turns| ensures Broadcast(m, turns[k]) {
      BroadcastFrame(net, m, turns[k]);
    }
    forall x | Live(m, x) ensures GetsThrough(turns, x) {
      ShapeFacts(net, m, x, x);
      assert Live(net, x);
    }
  }

  lemma {:induction false} RoundKeeps(t: Traffic, turns: seq<Turn>)
    requires Sane(t) && AllBroadcast(t.net, turns)
    ensures Sane(Round(t, turns)) && Later(t.net, Round(t, turns).net)
  {
    if turns == [] {
      LaterRefl(t.net);
    } else {
      var init, e := turns[..|turns| - 1], turns[|turns| - 1];
      var m := Round(t, init);
      RoundKeeps(t, init);
      BroadcastFrame(t.net, m.net, e);
      TurnKeeps(m, e);
      LaterTrans(t.net, m.net, Take(m, e).net);
    }
  }

  lemma UpToLast(t: Traffic, turns: seq<Turn>)
    requires Sane(t) && AllBroadcast(t.net, turns) && turns != []
    ensures var init, e := turns[..|turns| - 1], turns[|turns| - 1];
            var m := Round(t, init);
            && AllBroadcast(t.net, init) && Sane(m) && Later(t.net, m.net)
            && Broadcast(m.net, e) && Later(m.net, Take(m, e).net) && Round(t, turns) == Take(m, e)
  {
    var init, e := turns[..|turns| - 1], turns[|turns| - 1];
    RoundKeeps(t, init);
    BroadcastFrame(t.net, Round(t, init).net, e);
    TurnKeeps(Round(t, init), e);
  }

  /** Getting to send, or through, among several turns: with the last, or before it. */
  lemma LastTurn(turns: seq<Turn>, x: Place)
    requires turns != []
    ensures var init, e := turns[..|turns| - 1], turns[|turns| - 1];
            && (GetsToSend(turns, x) ==> e == Sends(x) || GetsToSend(init, x))
            && (GetsThrough(turns, x) ==> (ArrivalFrom(e, x) && GetsToSend(init, x)) || GetsThrough(init, x))
  {
    var init, e := turns[..|turns| - 1], turns[|turns| - 1];
    if GetsToSend(turns, x) && e != Sends(x) {
      var k :| 0 <= k < |turns| && turns[k] == Sends(x);
      assert init[k] == Sends(x);
    }
    if GetsThrough(turns, x) {
      var k :| 0 <= k < |turns| && ArrivalFrom(turns[k], x) && GetsToSend(turns[..k], x);
      if k < |init| {
        assert init[..k] == turns[..k] && init[k] == turns[k];
      }
    }
  }

  // ----- distances shrink to what the paths allow

  /** The bridge at `a` believes at least as well as the path promises. */
  predicate Realizes(net: Network, a: nat, hops: seq<Hop>, z: nat) {
    && a < |net.bridges| && z < |net.bridges|
    && NoWorse(net.bridges[a].root, net.bridges[a].rootCost, net.bridges[z].id, PathCost(net, hops))
  }

  /** All paths of at most `k` hops are realized. */
  ghost predicate Reaches(net: Network, k: int) {
    forall a: nat, hops, z {:trigger IsPath(net, a, hops, z)} ::
      a < |net.bridges| && IsPath(net, a, hops, z) && |hops| <= k ==> Realizes(net, a, hops, z)
  }

  lemma RealizesLater(net: Network, m: Network, a: nat, hops: seq<Hop>, z: nat)
    requires Later(net, m) && IsPath(net, a, hops, z) && Realizes(net, a, hops, z)
    ensures Realizes(m, a, hops, z)
  {
    PathFrame(net, m, a, hops, z);
  }

  lemma ReachesLater(net: Network, m: Network, k: int)
    requires Later(net, m) && Reaches(net, k)
    ensures Reaches(m, k)
  {
    ShapeSym(net, m);
    forall a: nat, hops, z | a < |m.bridges| && IsPath(m, a, hops, z) && |hops| <= k
      ensures Realizes(m, a, hops, z)
    {
      PathFrame(m, net, a, hops, z);
      RealizesLater(net, m, a, hops, z);
    }
  }

  /** A bridge believes at least as well as the record of any of its ports lets it. */
  lemma BeliefFollowsRecord(net: Network, x: Place)
    requires Truthful(net) && Live(net, x)
    ensures NoWorse(Of(net, x).root, Of(net, x).rootCost,
                    At(net, x).des.root, At(net, x).des.cost + At(net, x).pathCost)
  {
    var b, p := Of(net, x), At(net, x);
    assert BridgeOk(b) && PortSettled(b, p);
    CostsAreModest(net, x.bridge);
    if !IsDesignated(b, p) && b.rootPort.Some? {
      assert Candidate(b, p);
      var q := b.ports[b.rootPort.value];
      assert b.rootPort.value != x.port ==> SupersedesRoot(p, q);
    }
  }

  /** The bridge at `x` believes at least as well as that. */
  predicate Knows(net: Network, x: Place, root: nat, cost: nat) {
    InNet(net, x) && NoWorse(Of(net, x).root, Of(net, x).rootCost, root, cost)
  }

  lemma KnowsLater(net: Network, m: Network, x: Place, root: nat, cost: nat)
    requires Later(net, m) && Knows(net, x, root, cost)
    ensures Knows(m, x, root, cost)
  {
    ShapeFacts(net, m, x, x);
  }

  /** What the port at `y` has sent is on its way, and no worse than that. */
  predicate OnItsWay(t: Traffic, y: Place, root: nat, cost: nat) {
    y in t.flight && NoWorse(t.flight[y].vec.root, t.flight[y].vec.cost, root, cost)
  }

  /** The bridge at `x` believes at least as well as it could by going through `y`, or is about
      to be told. */
  predicate Reached(t: Traffic, x: Place, y: Place, root: nat, cost: nat)
    requires InNet(t.net, x)
  {
    OnItsWay(t, y, root, cost) || Knows(t.net, x, root, cost + At(t.net, x).pathCost)
  }

  lemma SendReaches(t: Traffic, x: Place, y: Place, root: nat, cost: nat)
    requires Sane(t) && SameLink(t.net, x, y) && Knows(t.net, y, root, cost)
    ensures Reached(Take(t, Sends(y)), x, y, root, cost)
  {
    SendKeeps(t, y);
    assert BridgeOk(Of(t.net, y)) && PortSettled(Of(t.net, y), At(t.net, y));
    if !Designated(t.net, y) {
      assert Abreast(t.net, x, y);
      BeliefFollowsRecord(t.net, x);
    }
  }

  lemma ArrivalReaches(t: Traffic, e: Turn, x: Place, y: Place, root: nat, cost: nat)
    requires Sane(t) && Broadcast(t.net, e) && ArrivalFrom(e, y) && SameLink(t.net, x, y)
    requires Knows(t.net, y, root, cost) && OnItsWay(t, y, root, cost)
    ensures Knows(Take(t, e).net, x, root, cost + At(t.net, x).pathCost)
  {
    var m := Take(t, e).net;
    ArrivalKeeps(t, e);
    ShapeFacts(t.net, m, x, y);
    assert SamePort(At(t.net, x), At(m, x));
    if x == y {
      KnowsLater(t.net, m, y, root, cost);
    } else {
      assert Settles(t.net, m, x, t.flight[y], e.to);
      BeliefFollowsRecord(m, x);
    }
  }

  /** Once on its way, a message stays so until it arrives, or a better one takes its place. */
  lemma StaysReached(t: Traffic, e: Turn, x: Place, y: Place, root: nat, cost: nat)
    requires Sane(t) && Broadcast(t.net, e) && SameLink(t.net, x, y) && Knows(t.net, y, root, cost)
    requires Reached(t, x, y, root, cost)
    ensures var m := Take(t, e);
            && SameLink(m.net, x, y) && Reached(m, x, y, root, cost)
            && (ArrivalFrom(e, y) ==> Knows(m.net, x, root, cost + At(m.net, x).pathCost))
  {
    var m := Take(t, e);
    TurnKeeps(t, e);
    ShapeFacts(t.net, m.net, x, y);
    assert SamePort(At(t.net, x), At(m.net, x));
    if Knows(t.net, x, root, cost + At(t.net, x).pathCost) {
      KnowsLater(t.net, m.net, x, root, cost + At(t.net, x).pathCost);
    } else if ArrivalFrom(e, y) {
      ArrivalReaches(t, e, x, y, root, cost);
    } else if e == Sends(y) {
      SendReaches(t, x, y, root, cost);
    }
  }

  lemma {:induction false} RoundReachesOne(t: Traffic, turns: seq<Turn>, x: Place, y: Place, root: nat, cost: nat)
    requires Sane(t) && AllBroadcast(t.net, turns) && SameLink(t.net, x, y) && Knows(t.net, y, root, cost)
    ensures var m := Round(t, turns);
            && SameLink(m.net, x, y) && Knows(m.net, y, root, cost)
            && (GetsToSend(turns, y) ==> Reached(m, x, y, root, cost))
            && (GetsThrough(turns, y) ==> Knows(m.net, x, root, cost + At(m.net, x).pathCost))
    decreases |turns|
  {
    if turns != [] {
      var init, e := turns[..|turns| - 1], turns[|turns| - 1];
      var m := Round(t, init);
      UpToLast(t, turns);
      LastTurn(turns, y);
      RoundReachesOne(t, init, x, y, root, cost);
      OneMoreTurn(m, e, x, y, root, cost);
    }
  }

  lemma OneMoreTurn(t: Traffic, e: Turn, x: Place, y: Place, root: nat, cost: nat)
    requires Sane(t) && Broadcast(t.net, e) && SameLink(t.net, x, y) && Knows(t.net, y, root, cost)
    ensures var m := Take(t, e);
            && SameLink(m.net, x, y) && Knows(m.net, y, root, cost)
            && (e == Sends(y) || Reached(t, x, y, root, cost) ==> Reached(m, x, y, root, cost))
            && ((ArrivalFrom(e, y) && Reached(t, x, y, root, cost))
                || Knows(t.net, x, root, cost + At(t.net, x).pathCost)
                ==> Knows(m.net, x, root, cost + At(m.net, x).pathCost))
  {
    var m := Take(t, e);
    TurnKeeps(t, e);
    ShapeFacts(t.net, m.net, x, y);
    KnowsLater(t.net, m.net, y, root, cost);
    assert InNet(t.net, x) && SamePort(At(t.net, x), At(m.net, x));
    if e == Sends(y) {
      SendReaches(t, x, y, root, cost);
    }
    if Reached(t, x, y, root, cost) {
      StaysReached(t, e, x, y, root, cost);
    }
    if Knows(t.net, x, root, cost + At(t.net, x).pathCost) {
      KnowsLater(t.net, m.net, x, root, cost + At(t.net, x).pathCost);
    }
  }

  /** A fair round realizes paths one hop longer. */
  lemma RoundReaches(t: Traffic, turns: seq<Turn>, k: int)
    requires Sane(t) && Fair(t.net, turns) && Reaches(t.net, k)
    ensures Reaches(Round(t, turns).net, k + 1)
  {
    var m := Round(t, turns).net;
    RoundKeeps(t, turns);
    ReachesLater(t.net, m, k);
    ShapeSym(t.net, m);
    forall a: nat, hops, z | a < |m.bridges| && IsPath(m, a, hops, z) && |hops| <= k + 1
      ensures Realizes(m, a, hops, z)
    {
      if |hops| == k + 1 {
        PathFrame(m, t.net, a, hops, z);
        OneHopLonger(t, turns, k, a, hops, z);
      }
    }
  }

  lemma OneHopLonger(t: Traffic, turns: seq<Turn>, k: int, a: nat, hops: seq<Hop>, z: nat)
    requires Sane(t) && Fair(t.net, turns) && Reaches(t.net, k) && |hops| == k + 1
    requires a < |t.net.bridges| && IsPath(t.net, a, hops, z) && Later(t.net, Round(t, turns).net)
    ensures Realizes(Round(t, turns).net, a, hops, z)
  {
    var net, m := t.net, Round(t, turns).net;
    PathFrame(net, m, a, hops, z);
    if hops == [] {
      assert BridgeOk(net.bridges[a]);
    } else {
      var x, y := hops[0].out, hops[0].into;
      assert IsPath(net, y.bridge, hops[1..], z);
      assert Realizes(net, y.bridge, hops[1..], z);
      assert Live(net, y) && InNet(net, x) && SamePort(At(net, x), At(m, x));
      RoundReachesOne(t, turns, x, y, net.bridges[z].id, PathCost(net, hops[1..]));
    }
  }

  lemma {:induction false} RoundsReach(t: Traffic, rounds: seq<seq<Turn>>)
    requires Sane(t) && Reaches(t.net, 0) && AllFair(t.net, rounds)
    ensures var m := Rounds(t, rounds); Sane(m) && Later(t.net, m.net) && Reaches(m.net, |rounds|)
  {
    if rounds == [] {
      LaterRefl(t.net);
    } else {
      var init, turns := rounds[..|rounds| - 1], rounds[|rounds| - 1];
      var m := Rounds(t, init);
      RoundsReach(t, init);
      FairFrame(t.net, m.net, turns);
      RoundKeeps(m, turns);
      RoundReaches(m, turns, |init|);
      LaterTrans(t.net, m.net, Round(m, turns).net);
    }
  }

  // ----- beliefs come to rest

  /** All paths without repetition are realized. */
  ghost predicate Exhausted(net: Network) {
    Truthful(net) && Reaches(net, |net.bridges| - 1)
  }

  ghost predicate SameBeliefs(net: Network, m: Network) {
    && SameShape(net, m)
    && forall i :: 0 <= i < |net.bridges| ==>
         m.bridges[i].root == net.bridges[i].root && m.bridges[i].rootCost == net.bridges[i].rootCost
  }

  /** No belief can get better once all paths are exhausted. */
  lemma BeliefsRest(net: Network, m: Network)
    requires Exhausted(net) && Truthful(m) && Later(net, m)
    ensures SameBeliefs(net, m) && Exhausted(m)
  {
    ReachesLater(net, m, |net.bridges| - 1);
    ShapeSym(net, m);
    forall i | 0 <= i < |net.bridges|
      ensures m.bridges[i].root == net.bridges[i].root && m.bridges[i].rootCost == net.bridges[i].rootCost
    {
      var hops, z := BeliefStands(m, i);
      PathFrame(m, net, i, hops, z);
      assert Realizes(net, i, hops, z);
    }
  }

  // ----- records come to rest

  function OwnAt(net: Network, x: Place): Vector
    requires InNet(net, x)
  {
    OwnVector(Of(net, x), At(net, x))
  }

  /** The port at `d` has the best vector of its link to advertise. */
  ghost predicate Leads(net: Network, d: Place) {
    && Live(net, d)
    && forall y {:trigger SameLink(net, d, y)} :: SameLink(net, d, y) ==> Precedes(OwnAt(net, d), OwnAt(net, y))
  }

  lemma {:induction false} FindLeader(net: Network, x: Place) returns (d: Place)
    requires Live(net, x)
    ensures SameLink(net, x, d) && Leads(net, d)
    decreases OwnAt(net, x).root, OwnAt(net, x).cost, OwnAt(net, x).bridge, OwnAt(net, x).port
  {
    if Leads(net, x) {
      d := x;
    } else {
      var y :| SameLink(net, x, y) && !Precedes(OwnAt(net, x), OwnAt(net, y));
      d := FindLeader(net, y);
    }
  }

  /** A record is never better than what the port it names has to say now, so never better than
      what the leader has to say. */
  lemma AboveLeader(net: Network, d: Place, x: Place)
    requires Truthful(net) && Leads(net, d) && SameLink(net, d, x)
    ensures Precedes(OwnAt(net, d), At(net, x).des)
  {
    assert BridgeOk(Of(net, x)) && PortSettled(Of(net, x), At(net, x));
    if !Designated(net, x) {
      var e, hops, z := ToldStands(net, x);
      assert SameLink(net, d, e);
    }
  }

  lemma LeaderIsDesignated(net: Network, d: Place)
    requires Truthful(net) && Leads(net, d)
    ensures Designated(net, d) && At(net, d).des == OwnAt(net, d)
  {
    AboveLeader(net, d, d);
    assert BridgeOk(Of(net, d)) && PortSettled(Of(net, d), At(net, d));
  }

  lemma LeadsFrame(net: Network, m: Network, d: Place)
    requires SameBeliefs(net, m) && Leads(net, d)
    ensures Leads(m, d) && OwnAt(m, d) == OwnAt(net, d)
  {
    ShapeFacts(net, m, d, d);
    assert InNet(net, d) && SamePort(At(net, d), At(m, d));
    forall y | SameLink(m, d, y) ensures Precedes(OwnAt(m, d), OwnAt(m, y)) {
      ShapeFacts(net, m, d, y);
      assert InNet(net, y) && SamePort(At(net, y), At(m, y));
    }
  }

  /** Every port of the link holds the leader's vector. */
  ghost predicate Agrees(net: Network, d: Place) {
    InNet(net, d) && forall x {:trigger SameLink(net, d, x)} :: SameLink(net, d, x) ==> At(net, x).des == OwnAt(net, d)
  }

  /** A message is never better than what the port that sent it has to say now. */
  lemma MessageAboveLeader(net: Network, d: Place, e: Place, c: Config)
    requires Leads(net, d) && SameLink(net, d, e) && Message(net, e, c)
    ensures Precedes(OwnAt(net, d), c.vec)
  {
    var hops, z :| Stands(net, e.bridge, hops, z, c.vec.root, c.vec.cost) && |hops| == c.messageAge;
    assert Precedes(OwnAt(net, d), OwnAt(net, e));
  }

  /** Every port of the link has heard of the leader's bridge, and its own ports of the leader. */
  ghost predicate Near(net: Network, d: Place) {
    && InNet(net, d)
    && forall x {:trigger SameLink(net, d, x)} :: SameLink(net, d, x) ==>
         && BetterRecord(At(net, x).des, OwnAt(net, d))
         && (x.bridge == d.bridge ==> Precedes(At(net, x).des, OwnAt(net, d)))
  }

  /** Where all have heard of the leader, no other port sends. */
  lemma OnlyLeaderSends(net: Network, d: Place, e: Place)
    requires Truthful(net) && Leads(net, d) && Near(net, d) && SameLink(net, d, e) && Designated(net, e)
    ensures e == d
  {
    AboveLeader(net, d, e);
    if e != d {
      assert BridgeOk(Of(net, d));
      DifferentNames(net, d, e);
    }
  }

  /** Beliefs are at rest, and the port at `d` leads its link. */
  ghost predicate Led(t: Traffic, d: Place) {
    Sane(t) && Exhausted(t.net) && Leads(t.net, d)
  }

  lemma TurnKeepsLeader(t: Traffic, e: Turn, d: Place)
    requires Led(t, d) && Broadcast(t.net, e)
    ensures Led(Take(t, e), d) && SameShape(t.net, Take(t, e).net) && OwnAt(Take(t, e).net, d) == OwnAt(t.net, d)
  {
    TurnKeeps(t, e);
    BeliefsRest(t.net, Take(t, e).net);
    LeadsFrame(t.net, Take(t, e).net, d);
  }

  /** The leader's message is on its way. */
  ghost predicate Ready(t: Traffic, d: Place) {
    InNet(t.net, d) && d in t.flight && t.flight[d].vec == OwnAt(t.net, d)
  }

  lemma LeaderSends(t: Traffic, d: Place)
    requires Led(t, d)
    ensures Ready(Take(t, Sends(d)), d)
  {
    LeaderIsDesignated(t.net, d);
    SendKeeps(t, d);
  }

  lemma LeaderArrives(t: Traffic, e: Turn, d: Place)
    requires Led(t, d) && Broadcast(t.net, e) && Ready(t, d) && ArrivalFrom(e, d)
    ensures Agrees(Take(t, e).net, d)
  {
    var m := Take(t, e).net;
    ArrivalKeeps(t, e);
    TurnKeepsLeader(t, e, d);
    forall x | SameLink(m, d, x) ensures At(m, x).des == OwnAt(m, d) {
      ShapeFacts(t.net, m, d, x);
      AboveLeader(m, d, x);
      if x == d {
        LeaderIsDesignated(m, d);
      } else {
        assert Settles(t.net, m, x, t.flight[d], e.to);
      }
    }
  }

  lemma NearStays(t: Traffic, e: Turn, d: Place)
    requires Led(t, d) && Broadcast(t.net, e) && Near(t.net, d)
    ensures Near(Take(t, e).net, d)
  {
    var m := Take(t, e).net;
    TurnKeepsLeader(t, e, d);
    if e.Arrives? && e.from in t.flight {
      ArrivalKeeps(t, e);
      forall x | SameLink(m, d, x)
        ensures && BetterRecord(At(m, x).des, OwnAt(m, d))
                && (x.bridge == d.bridge ==> Precedes(At(m, x).des, OwnAt(m, d)))
      {
        ShapeFacts(t.net, m, d, x);
        assert Settles(t.net, m, x, t.flight[e.from], e.to);
        if x in e.to && x.bridge == d.bridge {
          assert Sent(t.net, e.from, t.flight[e.from]);
          MessageAboveLeader(t.net, d, e.from, t.flight[e.from]);
        }
      }
    }
  }

  /** The only messages on their way over the link are the leader's. */
  ghost predicate Cleared(t: Traffic, d: Place) {
    forall e {:trigger SameLink(t.net, d, e)} :: SameLink(t.net, d, e) && e != d ==> e !in t.flight
  }

  /** The leader has been heard on its link. */
  ghost predicate Heard(t: Traffic, d: Place) {
    Near(t.net, d) && (d in t.flight ==> t.flight[d].vec == OwnAt(t.net, d))
  }

  lemma HeardStays(t: Traffic, e: Turn, d: Place)
    requires Led(t, d) && Broadcast(t.net, e) && Heard(t, d)
    ensures Heard(Take(t, e), d)
  {
    NearStays(t, e, d);
    TurnKeepsLeader(t, e, d);
    if e == Sends(d) {
      LeaderSends(t, d);
    }
  }

  lemma ClearedStays(t: Traffic, e: Turn, d: Place)
    requires Led(t, d) && Broadcast(t.net, e) && Heard(t, d) && Cleared(t, d)
    ensures Cleared(Take(t, e), d)
  {
    var m := Take(t, e);
    TurnKeepsLeader(t, e, d);
    forall x | SameLink(m.net, d, x) && x != d ensures x !in m.flight {
      SilentStays(t, e, d, x);
    }
  }

  lemma SilentStays(t: Traffic, e: Turn, d: Place, x: Place)
    requires Led(t, d) && Broadcast(t.net, e) && Heard(t, d) && x != d
    requires SameLink(t.net, d, x) || SameLink(Take(t, e).net, d, x)
    ensures SameLink(t.net, d, x) && SameLink(Take(t, e).net, d, x)
    ensures x !in t.flight || ArrivalFrom(e, x) ==> x !in Take(t, e).flight
  {
    TurnKeepsLeader(t, e, d);
    ShapeFacts(t.net, Take(t, e).net, d, x);
    if e == Sends(x) && Designated(t.net, x) {
      OnlyLeaderSends(t.net, d, x);
    }
  }

  lemma AgreementStays(t: Traffic, e: Turn, d: Place)
    requires Led(t, d) && Broadcast(t.net, e) && Heard(t, d) && Cleared(t, d) && Agrees(t.net, d)
    ensures Agrees(Take(t, e).net, d)
  {
    var m := Take(t, e).net;
    TurnKeepsLeader(t, e, d);
    if e.Arrives? && e.from in t.flight {
      ArrivalKeeps(t, e);
      forall x | SameLink(m, d, x) ensures At(m, x).des == OwnAt(m, d) {
        ShapeFacts(t.net, m, d, x);
        AboveLeader(m, d, x);
        assert Settles(t.net, m, x, t.flight[e.from], e.to);
        if x in e.to {
          assert SameLink(t.net, d, e.from);
        }
      }
    }
  }

  /** The leader has been heard, and on a cleared link so that all agree. */
  ghost predicate Done(t: Traffic, d: Place, cleared: bool) {
    Heard(t, d) && (cleared ==> Agrees(t.net, d))
  }

  lemma LeaderTurn(t: Traffic, e: Turn, d: Place, cleared: bool)
    requires Led(t, d) && Broadcast(t.net, e) && (cleared ==> Heard(t, d) && Cleared(t, d))
    ensures var m := Take(t, e);
            && Led(m, d) && (cleared ==> Heard(m, d) && Cleared(m, d))
            && (e == Sends(d) || Ready(t, d) || Done(t, d, cleared) ==> Ready(m, d) || Done(m, d, cleared))
            && (Done(t, d, cleared) || (ArrivalFrom(e, d) && Ready(t, d)) ==> Done(m, d, cleared))
  {
    var m := Take(t, e);
    TurnKeepsLeader(t, e, d);
    if cleared {
      HeardStays(t, e, d);
      ClearedStays(t, e, d);
    }
    if e == Sends(d) {
      LeaderSends(t, d);
    }
    if Done(t, d, cleared) {
      DoneStays(t, e, d, cleared);
    } else if Ready(t, d) && ArrivalFrom(e, d) {
      LeaderArrives(t, e, d);
      assert Near(m.net, d);
    }
  }

  lemma DoneStays(t: Traffic, e: Turn, d: Place, cleared: bool)
    requires Led(t, d) && Broadcast(t.net, e) && (cleared ==> Cleared(t, d)) && Done(t, d, cleared)
    ensures Done(Take(t, e), d, cleared)
  {
    HeardStays(t, e, d);
    if cleared {
      AgreementStays(t, e, d);
    }
  }

  lemma {:induction false} LeaderRound(t: Traffic, turns: seq<Turn>, d: Place, cleared: bool)
    requires Led(t, d) && AllBroadcast(t.net, turns) && (cleared ==> Heard(t, d) && Cleared(t, d))
    ensures var m := Round(t, turns);
            && Led(m, d) && (cleared ==> Heard(m, d) && Cleared(m, d))
            && (GetsToSend(turns, d) ==> Ready(m, d) || Done(m, d, cleared))
            && (GetsThrough(turns, d) ==> Done(m, d, cleared))
    decreases |turns|
  {
    if turns != [] {
      var init, e := turns[..|turns| - 1], turns[|turns| - 1];
      UpToLast(t, turns);
      LastTurn(turns, d);
      LeaderRound(t, init, d, cleared);
      LeaderTurn(Round(t, init), e, d, cleared);
    }
  }

  /** Whatever the others still had on its way when the leader was heard arrives, and no more
      follows. */
  lemma {:induction false} SilentRound(t: Traffic, turns: seq<Turn>, d: Place, x: Place)
    requires Led(t, d) && AllBroadcast(t.net, turns) && Heard(t, d) && SameLink(t.net, d, x) && x != d
    ensures var m := Round(t, turns);
            && Led(m, d) && Heard(m, d) && SameLink(m.net, d, x)
            && (GetsThrough(turns, x) ==> x !in m.flight)
    decreases |turns|
  {
    if turns != [] {
      var init, e := turns[..|turns| - 1], turns[|turns| - 1];
      var m := Round(t, init);
      UpToLast(t, turns);
      LastTurn(turns, x);
      SilentRound(t, init, d, x);
      TurnKeepsLeader(m, e, d);
      HeardStays(m, e, d);
      SilentStays(m, e, d, x);
    }
  }

  lemma RoundClears(t: Traffic, turns: seq<Turn>, d: Place)
    requires Led(t, d) && Fair(t.net, turns) && Heard(t, d)
    ensures Led(Round(t, turns), d) && Heard(Round(t, turns), d) && Cleared(Round(t, turns), d)
  {
    var m := Round(t, turns);
    LeaderRound(t, turns, d, false);
    assert Live(t.net, d);
    RoundKeeps(t, turns);
    forall x | SameLink(m.net, d, x) && x != d ensures x !in m.flight {
      ShapeFacts(t.net, m.net, d, x);
      assert Live(t.net, x);
      SilentRound(t, turns, d, x);
    }
  }

  // ----- the network comes to rest

  ghost predicate Calm(net: Network) {
    Truthful(net) && forall d {:trigger Leads(net, d)} :: Leads(net, d) ==> Agrees(net, d)
  }

  /** One round to hear the leader, one for stale messages to arrive, one for all to agree. */
  lemma LinkCalms(t: Traffic, one: seq<Turn>, two: seq<Turn>, three: seq<Turn>, d: Place)
    requires Led(t, d) && Fair(t.net, one) && Fair(t.net, two) && Fair(t.net, three)
    ensures Agrees(Round(Round(Round(t, one), two), three).net, d)
  {
    var t1 := Round(t, one);
    var t2 := Round(t1, two);
    assert Live(t.net, d);
    RoundKeeps(t, one);
    LeaderRound(t, one, d, false);
    FairFrame(t.net, t1.net, two);
    FairFrame(t.net, t1.net, three);
    RoundClears(t1, two, d);
    RoundKeeps(t1, two);
    FairFrame(t1.net, t2.net, three);
    assert Live(t2.net, d);
    LeaderRound(t2, three, d, true);
  }

  lemma RoundsCalm(t: Traffic, one: seq<Turn>, two: seq<Turn>, three: seq<Turn>)
    requires Sane(t) && Exhausted(t.net) && Fair(t.net, one) && Fair(t.net, two) && Fair(t.net, three)
    ensures Calm(Round(Round(Round(t, one), two), three).net)
  {
    var m := Round(Round(Round(t, one), two), three).net;
    ThreeRounds(t, one, two, three);
    BeliefsRest(t.net, m);
    ShapeSym(t.net, m);
    forall d | Leads(m, d) ensures Agrees(m, d) {
      LeadsFrame(m, t.net, d);
      LinkCalms(t, one, two, three, d);
    }
  }

  lemma ThreeRounds(t: Traffic, one: seq<Turn>, two: seq<Turn>, three: seq<Turn>)
    requires Sane(t) && Fair(t.net, one) && Fair(t.net, two) && Fair(t.net, three)
    ensures var m := Round(Round(Round(t, one), two), three); Sane(m) && Later(t.net, m.net)
  {
    var t1 := Round(t, one);
    var t2 := Round(t1, two);
    RoundKeeps(t, one);
    FairFrame(t.net, t1.net, two);
    RoundKeeps(t1, two);
    LaterTrans(t.net, t1.net, t2.net);
    FairFrame(t.net, t2.net, three);
    RoundKeeps(t2, three);
    LaterTrans(t.net, t2.net, Round(t2, three).net);
  }

  lemma CalmOffer(net: Network, x: Place) returns (d: Place)
    requires Calm(net) && Live(net, x)
    ensures SameLink(net, x, d) && Designated(net, d) && RootPortInRange(Of(net, d))
    ensures Offer(net, d).vec == At(net, x).des && Offer(net, d).messageAge < Offer(net, d).maxAge
    ensures forall e :: SameLink(net, x, e) && Designated(net, e) ==> e == d
  {
    d := FindLeader(net, x);
    LeaderIsDesignated(net, d);
    OfferIsMessage(net, d);
    assert Agrees(net, d) && SameLink(net, d, x);
    assert Near(net, d);
    forall e | SameLink(net, x, e) && Designated(net, e) ensures e == d {
      OnlyLeaderSends(net, d, e);
    }
  }

  lemma CalmIsWellFormed(net: Network)
    requires Calm(net)
    ensures WellFormed(net)
  {
    forall i | 0 <= i < |net.bridges|
      ensures Inv(net.bridges[i]) && Settled(net.bridges[i]) && CostsModest(net.bridges[i])
    {
      assert BridgeOk(net.bridges[i]);
      CostsAreModest(net, i);
    }
  }

  lemma CalmIsQuiescent(net: Network)
    requires Calm(net)
    ensures Quiescent(net)
  {
    CalmIsWellFormed(net);
    forall e, x | Designated(net, e) && SameLink(net, e, x) && e != x ensures Undisturbed(net, e, x) {
      var d := CalmOffer(net, x);
      CalmUndisturbed(net, d, x);
    }
    forall x | Live(net, x) && !Designated(net, x) ensures Refreshed(net, x) {
      var d := CalmOffer(net, x);
      assert Refreshes(net, d, x);
    }
  }

  lemma CalmUndisturbed(net: Network, d: Place, x: Place)
    requires WellFormed(net) && Truthful(net) && SameLink(net, x, d) && Designated(net, d)
    requires Offer(net, d).vec == At(net, x).des && Offer(net, d).messageAge < Offer(net, d).maxAge
    ensures Undisturbed(net, d, x)
  {
    var b, c := Of(net, x), Offer(net, d);
    assert BridgeOk(b) && PortSound(b, x.port);
    forall tcFlag, ackFlag ensures SameElection(b, ReceiveConfig(b, x.port, c, tcFlag, ackFlag)) {
      HearsNothingNew(b, x.port, c, tcFlag, ackFlag);
    }
  }

  // ----- from the start

  /** A bridge that has heard nothing, with positive path costs and a maximum age as allowed. */
  predicate Starts(b: Bridge) {
    Unheard(b) && Fit(b) && b.maxAge >= MIN_MAX_AGE
  }

  ghost predicate AtStart(net: Network) {
    && DistinctIds(net) && |net.bridges| <= MIN_MAX_AGE
    && (forall i :: 0 <= i < |net.bridges| ==> Starts(net.bridges[i]))
    && (forall x :: InNet(net, x) && Enabled(At(net, x)) ==> x in net.link)
  }

  /** The network with nothing on its way. */
  function Silence(net: Network): Traffic {
    Traffic(net, map[])
  }

  lemma StartIsSane(net: Network)
    requires AtStart(net)
    ensures Sane(Silence(net)) && Reaches(net, 0)
  {
    forall i | 0 <= i < |net.bridges| ensures BridgeOk(net.bridges[i]) {
      assert Starts(net.bridges[i]);
    }
    forall x | Live(net, x) ensures Designated(net, x) {
      assert Starts(Of(net, x));
    }
    forall a: nat, hops, z | a < |net.bridges| && IsPath(net, a, hops, z) && |hops| <= 0
      ensures Realizes(net, a, hops, z)
    {
      assert Starts(net.bridges[a]);
    }
  }

  /** From the start, two fair rounds more than there are bridges take the network to quiescence. */
  lemma Converges(net: Network, rounds: seq<seq<Turn>>)
    requires AtStart(net) && AllFair(net, rounds) && |rounds| >= |net.bridges| + 2 && net.bridges != []
    ensures Quiescent(Rounds(Silence(net), rounds).net)
  {
    var n := |rounds| - 3;
    var m := Rounds(Silence(net), rounds[..n]);
    StartIsSane(net);
    RoundsReach(Silence(net), rounds[..n]);
    forall k | n <= k < |rounds| ensures Fair(m.net, rounds[k]) {
      FairFrame(net, m.net, rounds[k]);
    }
    RoundsCalm(m, rounds[n], rounds[n + 1], rounds[n + 2]);
    LastThree(Silence(net), rounds);
    CalmIsQuiescent(Rounds(Silence(net), rounds).net);
  }

  lemma LastThree(t: Traffic, rounds: seq<seq<Turn>>)
    requires |rounds| >= 3
    ensures var n := |rounds| - 3;
            Rounds(t, rounds) == Round(Round(Round(Rounds(t, rounds[..n]), rounds[n]), rounds[n + 1]), rounds[n + 2])
  {
    var n := |rounds| - 3;
    assert rounds[..n + 2][..n + 1] == rounds[..n + 1];
    assert rounds[..n + 1][..n] == rounds[..n];
    assert Rounds(t, rounds) == Round(Rounds(t, rounds[..n + 2]), rounds[n + 2]);
    assert Rounds(t, rounds[..n + 2]) == Round(Rounds(t, rounds[..n + 1]), rounds[n + 1]);
    assert Rounds(t, rounds[..n + 1]) == Round(Rounds(t, rounds[..n]), rounds[n]);
  }

  /** What the network settles on is what its links and path costs alone say: every bridge names
      the one with the smallest identifier as root, at the cost of the cheapest path to it. */
  lemma ConvergesToShortestPaths(net: Network, rounds: seq<seq<Turn>>, a: nat, r: nat) returns (hops: seq<Hop>)
    requires AtStart(net) && AllFair(net, rounds) && |rounds| >= |net.bridges| + 2
    requires Connected(net) && a < |net.bridges| && IsSmallestId(net, r)
    ensures var m := Rounds(Silence(net), rounds).net;
            && |m.bridges| == |net.bridges| && m.bridges[a].root == net.bridges[r].id
            && IsPath(net, a, hops, r) && m.bridges[a].rootCost == PathCost(net, hops)
    ensures forall other :: IsPath(net, a, other, r) ==> PathCost(net, hops) <= PathCost(net, other)
  {
    var m := Rounds(Silence(net), rounds).net;
    StartIsSane(net);
    RoundsReach(Silence(net), rounds);
    Converges(net, rounds);
    ConnectedFrame(net, m);
    hops := ExactDistances(m, a, r);
    var r' := OneRoot(m);
    ShapeSym(net, m);
    PathFrame(m, net, a, hops, r);
    forall other | IsPath(net, a, other, r) ensures PathCost(net, hops) <= PathCost(net, other) {
      PathFrame(net, m, a, other, r);
    }
  }

  lemma ConnectedFrame(net: Network, m: Network)
    requires SameShape(net, m) && Connected(net)
    ensures Connected(m)
  {
    forall a: nat, z: nat | a < |m.bridges| && z < |m.bridges| ensures Joined(m, a, z) {
      assert Joined(net, a, z);
      var hops :| IsPath(net, a, hops, z);
      PathFrame(net, m, a, hops, z);
    }
  }
}
