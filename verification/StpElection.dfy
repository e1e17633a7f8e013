/**
  Root election and designated-port selection: what the configuration update settles on,
  exactly when it does, and that a settled bridge is left alone.
*/
module StpElection {
  import opened Common
  import opened StpModel

  predicate DistinctPortIds(b: Bridge) {
    forall i, j :: 0 <= i < j < |b.ports| ==> b.ports[i].portId != b.ports[j].portId
  }

  /** `v` beats `w` among configurations naming the same root. */
  predicate Better(v: Vector, w: Vector) {
    && v.root == w.root
    && (v.cost < w.cost
        || (v.cost == w.cost
            && (v.bridge < w.bridge || (v.bridge == w.bridge && v.port < w.port))))
  }

  /** Port `r` is a candidate and precedes every other candidate in the five-key order. */
  predicate IsLeastCandidate(b: Bridge, r: nat) {
    && r < |b.ports|
    && Candidate(b, b.ports[r])
    && forall i :: 0 <= i < |b.ports| && i != r && Candidate(b, b.ports[i]) ==>
         SupersedesRoot(b.ports[i], b.ports[r])
  }

  predicate RootSettled(b: Bridge) {
    if b.rootPort.None? then
      && IsRoot(b) && b.rootCost == 0
      && forall i :: 0 <= i < |b.ports| ==> !Candidate(b, b.ports[i])
    else
      && IsLeastCandidate(b, b.rootPort.value)
      && b.root == b.ports[b.rootPort.value].des.root
      && b.rootCost == CostVia(b.ports[b.rootPort.value])
  }

  /** The port holds this bridge's own vector, or a strictly better one for the same root. */
  predicate PortSettled(b: Bridge, p: Port) {
    if IsDesignated(b, p) then p.des == OwnVector(b, p)
    else Better(p.des, OwnVector(b, p))
  }

  predicate PortsSettled(b: Bridge) {
    forall i :: 0 <= i < |b.ports| && Enabled(b.ports[i]) ==> PortSettled(b, b.ports[i])
  }

  predicate Settled(b: Bridge) {
    RootSettled(b) && PortsSettled(b)
  }

  /** The port elected as root port does not itself qualify as designated port: its
      recorded cost and path cost add up without wrapping, and the path cost is positive
      or the recorded transmitter precedes this port. */
  predicate RootPortSurvives(b: Bridge) {
    var r := Best(b, |b.ports|);
    r.Some? ==>
      var p := b.ports[r.value];
      && p.des.cost + p.pathCost < TWO32
      && (p.pathCost > 0 || p.des.bridge < b.id
          || (p.des.bridge == b.id && p.des.port < p.portId))
  }

  predicate CostsInRange(b: Bridge) {
    forall i :: 0 <= i < |b.ports| ==> b.ports[i].des.cost < TWO32 && b.ports[i].pathCost < TWO16
  }

  /** The five-key comparison is a strict total order on ports with different identifiers. */
  lemma SupersedesRootIsAnOrder(p: Port, q: Port, r: Port)
    ensures p.portId != q.portId ==> (SupersedesRoot(p, q) <==> !SupersedesRoot(q, p))
    ensures SupersedesRoot(p, q) && SupersedesRoot(q, r) ==> SupersedesRoot(p, r)
  {
  }

  lemma {:induction false} BestIsLeast(b: Bridge, k: nat)
    requires k <= |b.ports| && DistinctPortIds(b)
    ensures Best(b, k).None? <==> forall i :: 0 <= i < k ==> !Candidate(b, b.ports[i])
    ensures Best(b, k).Some? ==>
              forall i :: 0 <= i < k && i != Best(b, k).value && Candidate(b, b.ports[i]) ==>
                SupersedesRoot(b.ports[i], b.ports[Best(b, k).value])
  {
    if k > 0 {
      BestIsLeast(b, k - 1);
      var r := Best(b, k - 1);
      if r.Some? {
        forall i | 0 <= i < k && Candidate(b, b.ports[i])
          ensures i != Best(b, k).value ==> SupersedesRoot(b.ports[i], b.ports[Best(b, k).value])
        {
          SupersedesRootIsAnOrder(b.ports[i], b.ports[r.value], b.ports[k - 1]);
          SupersedesRootIsAnOrder(b.ports[r.value], b.ports[k - 1], b.ports[i]);
        }
      }
    }
  }

  /** Root selection elects the least candidate, and only one port is least. */
  lemma SelectRootElectsLeast(b: Bridge)
    requires DistinctPortIds(b)
    ensures RootSettled(SelectRoot(b))
    ensures forall r: nat :: IsLeastCandidate(b, r) <==> SelectRoot(b).rootPort == Some(r)
  {
    BestIsLeast(b, |b.ports|);
    var s := SelectRoot(b);
    forall i | 0 <= i < |b.ports| ensures Candidate(b, b.ports[i]) == Candidate(s, s.ports[i]) {}
    forall r: nat | IsLeastCandidate(b, r) ensures s.rootPort == Some(r) {
      if s.rootPort != Some(r) {
        SupersedesRootIsAnOrder(b.ports[r], b.ports[s.rootPort.value], b.ports[r]);
      }
    }
  }

  /** Every enabled port leaves designated-port selection settled. */
  lemma RedesignateSettles(b: Bridge, p: Port)
    ensures Enabled(p) ==> PortSettled(b, Redesignate(b, p))
    ensures Enabled(p) && PortSettled(b, p) ==> Redesignate(b, p) == p
  {
  }

  lemma UpdateShape(b: Bridge, i: nat)
    requires i < |b.ports|
    ensures var s, u := SelectRoot(b), UpdateConfiguration(b);
            && |u.ports| == |b.ports| && u == s.(ports := u.ports)
            && u.ports[i] == Redesignate(s, b.ports[i])
  {
  }

  /** The elected port keeps the record it was elected on exactly when it survives. */
  lemma RootPortKeepsItsRecord(b: Bridge)
    requires CostsInRange(b) && DistinctPortIds(b)
    requires SelectRoot(b).rootPort.Some?
    ensures var r := SelectRoot(b).rootPort.value;
            RootPortSurvives(b) <==> !ShouldDesignate(SelectRoot(b), b.ports[r])
  {
    var p := b.ports[SelectRoot(b).rootPort.value];
    if p.des.cost + p.pathCost >= TWO32 {
      assert CostVia(p) == p.des.cost + p.pathCost - TWO32;
    }
  }

  /** The configuration update leaves every enabled port holding this bridge's own vector or
      a strictly better one; the whole bridge is settled exactly when its root port survives. */
  lemma UpdateSettles(b: Bridge)
    requires CostsInRange(b) && DistinctPortIds(b)
    ensures PortsSettled(UpdateConfiguration(b))
    ensures Settled(UpdateConfiguration(b)) <==> RootPortSurvives(b)
  {
    var s, u := SelectRoot(b), UpdateConfiguration(b);
    SelectRootElectsLeast(b);
    forall i | 0 <= i < |b.ports|
      ensures u.ports[i] == Redesignate(s, s.ports[i])
      ensures Enabled(u.ports[i]) ==> PortSettled(u, u.ports[i])
      ensures Candidate(u, u.ports[i]) ==> u.ports[i] == s.ports[i] && Candidate(s, s.ports[i])
    {
      UpdateShape(b, i);
      RedesignateSettles(s, s.ports[i]);
    }
    if s.rootPort.Some? {
      RootPortKeepsItsRecord(b);
      var r := s.rootPort.value;
      if RootPortSurvives(b) {
        assert u.ports[r] == s.ports[r];
      } else {
        assert IsDesignated(u, u.ports[r]);
      }
    }
  }

  /** Settled is exactly being a fixed point of the configuration update. */
  lemma SettledIffFixpoint(b: Bridge)
    requires DistinctPortIds(b)
    ensures Settled(b) <==> UpdateConfiguration(b) == b
  {
    var s, u := SelectRoot(b), UpdateConfiguration(b);
    SelectRootElectsLeast(b);
    forall i | 0 <= i < |b.ports|
      ensures u.ports[i] == Redesignate(s, b.ports[i])
      ensures Enabled(b.ports[i]) ==> PortSettled(s, u.ports[i])
      ensures Enabled(b.ports[i]) && PortSettled(s, b.ports[i]) ==> u.ports[i] == b.ports[i]
      ensures !Enabled(b.ports[i]) ==> u.ports[i] == b.ports[i]
    {
      UpdateShape(b, i);
      RedesignateSettles(s, b.ports[i]);
    }
    if Settled(b) {
      if b.rootPort.Some? {
        assert IsLeastCandidate(b, b.rootPort.value);
      }
      assert s == b;
      assert u.ports == b.ports;
    } else if u == b {
      assert s == b;
      assert PortsSettled(b);
    }
  }

  /** Running the update a second time changes nothing, exactly when the root port survives. */
  lemma UpdateIsIdempotent(b: Bridge)
    requires CostsInRange(b) && DistinctPortIds(b)
    ensures UpdateConfiguration(UpdateConfiguration(b)) == UpdateConfiguration(b)
            <==> RootPortSurvives(b)
  {
    UpdateSettles(b);
    var u := UpdateConfiguration(b);
    forall i | 0 <= i < |b.ports| ensures u.ports[i].portId == b.ports[i].portId {
      UpdateShape(b, i);
    }
    SettledIffFixpoint(u);
  }
}
