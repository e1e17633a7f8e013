/**
  New bridges: what creation, enabling ports and setting path costs lead to before anything has
  been heard.
*/
module StpFresh {
  import opened Common
  import opened StpModel
  import opened StpElection
  import opened StpRuns
  import opened StpHearing

  /** A bridge that takes itself for root and has heard nothing. */
  predicate Unheard(b: Bridge) {
    && Inv(b) && b.root == b.id && b.rootCost == 0 && b.rootPort.None?
    && forall k :: 0 <= k < |b.ports| ==> b.ports[k].des == Vector(b.id, 0, b.id, b.ports[k].portId)
  }

  /** The same bridge with the same ports, as to numbers and costs. */
  predicate SamePorts(b: Bridge, c: Bridge) {
    && b.id == c.id && b.maxAge == c.maxAge && |b.ports| == |c.ports|
    && forall k :: 0 <= k < |b.ports| ==>
         b.ports[k].pathCost == c.ports[k].pathCost && b.ports[k].portId == c.ports[k].portId
  }

  lemma CreateIsUnheard(id: nat)
    requires id < TWO64
    ensures var b := Create(id);
            && Unheard(b) && Fit(b) && b.maxAge == 1536
            && forall k :: 0 <= k < MAX_PORTS ==>
                 && !Enabled(b.ports[k]) && b.ports[k].pathCost == 19
                 && b.ports[k].portId == DEFAULT_PORT_PRIORITY * 256 + k + 1
  {
    CreateIsSound(id);
    forall k | 0 <= k < MAX_PORTS ensures Create(id).ports[k] == NewPort(Create(id).id, k) {}
  }

  lemma InitializeIsUnheard(b: Bridge, i: nat)
    requires Unheard(b) && i < |b.ports|
    ensures var c := InitializePort(b, i, Blocking);
            && c.root == c.id && c.rootCost == 0 && c.rootPort.None? && SamePorts(b, c)
            && forall k :: 0 <= k < |b.ports| ==>
                 && c.ports[k].des == Vector(c.id, 0, c.id, c.ports[k].portId)
                 && (Enabled(c.ports[k]) <==> k == i || Enabled(b.ports[k]))
  {
  }

  lemma EnableIsUnheard(b: Bridge, i: nat)
    requires Unheard(b) && i < |b.ports|
    ensures var r := EnablePort(b, i);
            && Unheard(r) && (Fit(b) ==> Fit(r)) && SamePorts(b, r)
            && forall k :: 0 <= k < |b.ports| ==> (Enabled(r.ports[k]) <==> k == i || Enabled(b.ports[k]))
  {
    if !Enabled(b.ports[i]) {
      var c, r := InitializePort(b, i, Blocking), EnablePort(b, i);
      EnablePortKeeps(b, i);
      InitializeIsUnheard(b, i);
      InitializeIsSound(b, i);
      SelectStatesKeeps(c);
      SelectStatesKeepsAges(c, 0);
      forall k | 0 <= k < |r.ports| ensures SameRecord(c.ports[k], r.ports[k]) {}
    }
  }

  /** With no port enabled there is nothing to elect or to designate. */
  lemma NothingToElect(c: Bridge)
    requires Sound(c) && c.rootPort.None? && c.root == c.id && c.rootCost == 0
    requires forall k :: 0 <= k < |c.ports| ==> !Enabled(c.ports[k])
    ensures UpdateConfiguration(c) == c
  {
    DistinctIdsOfSound(c);
    SettledIffFixpoint(c);
  }

  /** With no port enabled a path cost changes nothing else. */
  lemma CostIsUnheard(b: Bridge, i: nat, cost: nat)
    requires Unheard(b) && i < |b.ports| && cost < TWO16
    requires forall k :: 0 <= k < |b.ports| ==> !Enabled(b.ports[k])
    ensures var r := SetPathCost(b, i, cost);
            && Unheard(r) && SamePorts(SetPort(b, i, b.ports[i].(pathCost := cost)), r)
            && forall k :: 0 <= k < |r.ports| ==> !Enabled(r.ports[k])
  {
    SetPathCostKeeps(b, i, cost);
    var q := b.ports[i].(pathCost := cost);
    var c, r := SetPort(b, i, q), SetPathCost(b, i, cost);
    if b.ports[i].pathCost != cost {
      assert PortSound(b, i);
      SoundPort(b, i, q);
      NothingToElect(c);
      SoundReconfigure(c);
      SelectStatesKeepsAges(c, 0);
      forall k | 0 <= k < |r.ports| ensures SameRecord(c.ports[k], r.ports[k]) {}
    }
  }
}
