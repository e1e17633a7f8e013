/**
  What a settled bridge does with one more message: its belief about the root and the record
  of every port can only get better, and every record is an old one, the message's or its own.
*/
module StpHearing {
  import opened Common
  import opened StpModel
  import opened StpElection
  import opened StpRuns
  import opened StpNetwork

  /** A root and a cost to it, no worse than another root and cost. */
  predicate NoWorse(root: nat, cost: nat, thanRoot: nat, thanCost: nat) {
    root < thanRoot || (root == thanRoot && cost <= thanCost)
  }

  predicate BetterBelief(b: Bridge, than: Bridge) {
    NoWorse(b.root, b.rootCost, than.root, than.rootCost)
  }

  /** No worse as to root, cost and bridge. */
  predicate BetterRecord(v: Vector, w: Vector) {
    NoWorse(v.root, v.cost, w.root, w.cost) && (v.root == w.root && v.cost == w.cost ==> v.bridge <= w.bridge)
  }

  /** No later in the order of root, cost, bridge and port. */
  predicate Precedes(v: Vector, w: Vector) {
    BetterRecord(v, w) && (v.root == w.root && v.cost == w.cost && v.bridge == w.bridge ==> v.port <= w.port)
  }

  // ----- times

  predicate SameAges(b: Bridge, c: Bridge) {
    |c.ports| == |b.ports|
    && forall k :: 0 <= k < |b.ports| ==> c.ports[k].messageAge.value == b.ports[k].messageAge.value
  }

  lemma SetPortKeepsAges(b: Bridge, i: nat, p: Port)
    requires i < |b.ports| && p.messageAge.value == b.ports[i].messageAge.value
    ensures SameAges(b, SetPort(b, i, p))
  {
  }

  lemma MoveKeepsAges(b: Bridge, i: nat, st: PortState, delay: Timer)
    requires i < |b.ports|
    ensures SameAges(b, Move(b, i, st, delay)) && Move(b, i, st, delay).maxAge == b.maxAge
  {
  }

  lemma MakeBlockingKeepsAges(b: Bridge, i: nat)
    requires i < |b.ports|
    ensures SameAges(b, MakeBlocking(b, i)) && MakeBlocking(b, i).maxAge == b.maxAge
  {
    var p := b.ports[i];
    if !p.state.Disabled? && !p.state.Blocking? {
      var b1 := if (p.state.Forwarding? || p.state.Learning?) && p.detectChanges
                then DetectTopologyChange(b) else b;
      assert b1.ports == b.ports && b1.maxAge == b.maxAge;
      MoveKeepsAges(b1, i, Blocking, Stop(p.forwardDelay));
    }
  }

  lemma SelectStateKeepsAges(b: Bridge, i: nat)
    requires i < |b.ports|
    ensures SameAges(b, SelectState(b, i)) && SelectState(b, i).maxAge == b.maxAge
  {
    var p := b.ports[i];
    var q := p.(configPending := false, tcAck := false);
    var r := p.(messageAge := Stop(p.messageAge));
    SetPortKeepsAges(b, i, q);
    SetPortKeepsAges(b, i, r);
    if Enabled(p) {
      if b.rootPort == Some(i) {
        MoveKeepsAges(SetPort(b, i, q), i, Listening, Start(0));
      } else if IsDesignated(b, p) {
        MoveKeepsAges(SetPort(b, i, r), i, Listening, Start(0));
      } else {
        MakeBlockingKeepsAges(SetPort(b, i, q), i);
      }
    }
  }

  lemma {:induction false} SelectStatesKeepsAges(b: Bridge, from: nat)
    ensures SameAges(b, SelectStates(b, from)) && SelectStates(b, from).maxAge == b.maxAge
    decreases |b.ports| - from
  {
    if from < |b.ports| {
      SelectStateKeepsAges(b, from);
      SelectStatesKeepsAges(SelectState(b, from), from + 1);
    }
  }

  lemma TransmitKeepsAges(b: Bridge, i: nat)
    requires RootPortInRange(b) && i < |b.ports|
    ensures SameAges(b, TransmitConfig(b, i)) && TransmitConfig(b, i).maxAge == b.maxAge
  {
  }

  lemma {:induction false} GenerateKeepsAges(b: Bridge, from: nat)
    requires RootPortInRange(b)
    ensures SameAges(b, GenerateConfigs(b, from)) && GenerateConfigs(b, from).maxAge == b.maxAge
    decreases |b.ports| - from
  {
    if from < |b.ports| {
      if Enabled(b.ports[from]) && IsDesignated(b, b.ports[from]) {
        TransmitKeepsAges(b, from);
        GenerateKeepsAges(TransmitConfig(b, from), from + 1);
      } else {
        GenerateKeepsAges(b, from + 1);
      }
    }
  }

  lemma ReconfigureKeepsAges(b: Bridge)
    ensures SameAges(b, Reconfigure(b)) && Reconfigure(b).maxAge == b.maxAge
  {
    SelectStatesKeepsAges(UpdateConfiguration(b), 0);
  }

  lemma AcceptTimesKeepsAges(b: Bridge, c: Config, tcFlag: bool, ackFlag: bool)
    requires RootPortInRange(b)
    ensures SameAges(b, AcceptTimes(b, c, tcFlag, ackFlag)) && AcceptTimes(b, c, tcFlag, ackFlag).maxAge == c.maxAge
  {
    var b1 := b.(maxAge := c.maxAge, helloTime := c.helloTime, forwardDelay := c.forwardDelay, tc := tcFlag);
    GenerateKeepsAges(b1, 0);
  }

  lemma LoseRootKeepsAges(b: Bridge)
    ensures SameAges(b, LoseRoot(b)) && LoseRoot(b).maxAge == b.maxAge
  {
  }

  lemma AcceptanceKeepsAges(b: Bridge, wasRoot: bool, i: nat, c: Config, tcFlag: bool, ackFlag: bool)
    requires RootPortInRange(b)
    ensures var b2 := if !IsRoot(b) && wasRoot then LoseRoot(b) else b;
            var r := if b2.rootPort == Some(i) then AcceptTimes(b2, c, tcFlag, ackFlag) else b2;
            SameAges(b, r) && (r.maxAge == b.maxAge || r.maxAge == c.maxAge)
  {
    LoseRootKeepsAges(b);
    var b2 := if !IsRoot(b) && wasRoot then LoseRoot(b) else b;
    AcceptTimesKeepsAges(b2, c, tcFlag, ackFlag);
  }

  /** A message's age and its sender's times are taken over, or nothing is. */
  lemma HearingKeepsAges(b: Bridge, i: nat, c: Config, tcFlag: bool, ackFlag: bool)
    requires i < |b.ports| && RootPortInRange(b)
    ensures var r := ReceiveConfig(b, i, c, tcFlag, ackFlag);
            && SameAges(if Accepted(b, i, c) then Record(b, i, c) else b, r)
            && (r.maxAge == b.maxAge || r.maxAge == c.maxAge)
  {
    if Accepted(b, i, c) {
      AcceptanceKeepsAges(Reconfigure(Record(b, i, c)), IsRoot(b), i, c, tcFlag, ackFlag);
      ReconfigureKeepsAges(Record(b, i, c));
    } else {
      TransmitKeepsAges(b, i);
    }
  }

  // ----- the election

  /** The message is not one of the port's own. */
  predicate Foreign(b: Bridge, i: nat, c: Config)
    requires i < |b.ports|
  {
    c.vec.bridge == b.id ==> c.vec.port != b.ports[i].portId
  }

  predicate CanHear(b: Bridge, i: nat, c: Config) {
    && Inv(b) && Elected(b) && CostsModest(b) && i < |b.ports|
    && c.messageAge < c.maxAge && c.vec.cost + TWO16 < TWO31 && Enabled(b.ports[i]) && Foreign(b, i, c)
  }

  lemma RecordKeepsCandidates(b: Bridge, i: nat, c: Config, k: nat)
    requires CanHear(b, i, c) && Accepted(b, i, c) && k < |b.ports| && Candidate(b, b.ports[k])
    ensures var rec := Record(b, i, c);
            && Candidate(rec, rec.ports[k])
            && NoWorse(rec.ports[k].des.root, CostVia(rec.ports[k]), b.ports[k].des.root, CostVia(b.ports[k]))
  {
    assert PortSound(b, k);
  }

  /** The bridge elected a candidate at least as good as each one it had. */
  lemma ElectsNoWorse(b: Bridge, k: nat)
    requires DistinctPortIds(b) && k < |b.ports| && Candidate(b, b.ports[k])
    requires forall j :: 0 <= j < |b.ports| ==> b.ports[j].des.cost + b.ports[j].pathCost < TWO31
    ensures var s := SelectRoot(b);
            NoWorse(s.root, s.rootCost, b.ports[k].des.root, CostVia(b.ports[k]))
  {
    SelectRootElectsLeast(b);
    var q := SelectRoot(b).rootPort;
    assert IsLeastCandidate(b, q.value);
  }

  lemma RecordIsModest(b: Bridge, i: nat, c: Config)
    requires CanHear(b, i, c)
    ensures Sound(Record(b, i, c)) && DistinctPortIds(Record(b, i, c)) && CostsModest(Record(b, i, c))
  {
    RecordIsSound(b, i, c);
    DistinctIdsOfSound(Record(b, i, c));
    assert PortSound(b, i);
  }

  /** Accepting a message, the bridge comes to a belief no worse than before, nor than the
      message. */
  lemma BeliefImproves(b: Bridge, i: nat, c: Config)
    requires CanHear(b, i, c) && Accepted(b, i, c)
    ensures var s := SelectRoot(Record(b, i, c)); BetterBelief(s, b) && s.root <= c.vec.root && s.root <= b.id
  {
    var rec := Record(b, i, c);
    var s := SelectRoot(rec);
    RecordIsModest(b, i, c);
    SelectRootElectsLeast(rec);
    if b.rootPort.Some? {
      RecordKeepsCandidates(b, i, c, b.rootPort.value);
      ElectsNoWorse(rec, b.rootPort.value);
    }
    if c.vec.root < b.id {
      ElectsNoWorse(rec, i);
    }
  }

  /** Redesignating with a better belief, a port's record gets no worse. */
  lemma RecordImproves(b: Bridge, s: Bridge, q: Port)
    requires s.id == b.id && BetterBelief(s, b) && s.root <= q.des.root
    requires IsDesignated(b, q) ==> q.des == OwnVector(b, q)
    ensures Precedes(Redesignate(s, q).des, q.des)
  {
  }

  /** How the record of one port may change. */
  predicate RecordMoves(b: Bridge, r: Bridge, k: nat, i: nat, c: Config)
    requires k < |b.ports| && k < |r.ports|
  {
    var p, q := b.ports[k], r.ports[k];
    && p.portId == q.portId && p.pathCost == q.pathCost && Enabled(p) == Enabled(q)
    && BetterRecord(q.des, p.des) && (!Enabled(p) ==> q.des == p.des)
    && (Precedes(q.des, p.des) || (k == i && SupersedesPortInfo(b.id, p, c.vec)))
    && (k == i ==> Precedes(q.des, c.vec))
    && (|| IsDesignated(r, q)
        || (q.des == p.des && (q.messageAge.value == p.messageAge.value))
        || (k == i && q.des == c.vec && q.messageAge.value == c.messageAge))
  }

  lemma UpdateMovesRecord(b: Bridge, i: nat, c: Config, k: nat)
    requires CanHear(b, i, c) && Accepted(b, i, c) && k < |b.ports|
    ensures var rec, u := Record(b, i, c), UpdateConfiguration(Record(b, i, c));
            && (IsDesignated(u, u.ports[k]) || u.ports[k].des == rec.ports[k].des)
            && Precedes(u.ports[k].des, rec.ports[k].des) && BetterRecord(rec.ports[k].des, b.ports[k].des)
            && (!Enabled(b.ports[k]) ==> u.ports[k].des == b.ports[k].des)
  {
    var rec, s := Record(b, i, c), SelectRoot(Record(b, i, c));
    BeliefImproves(b, i, c);
    UpdateShape(rec, k);
    if Enabled(b.ports[k]) {
      assert PortSettled(b, b.ports[k]);
      RecordImproves(b, s, rec.ports[k]);
    }
  }

  /** A bridge that hears a message: it stays settled, its belief improves or stays, the port that
      hears ends up with a record no worse than the message, and no other port takes it over. */
  predicate Improves(b: Bridge, r: Bridge, i: nat, c: Config) {
    && Inv(r) && Elected(r) && r.id == b.id && |r.ports| == |b.ports| && BetterBelief(r, b)
    && (r.maxAge == b.maxAge || r.maxAge == c.maxAge)
    && (forall k {:trigger RecordMoves(b, r, k, i, c)} :: 0 <= k < |b.ports| ==> RecordMoves(b, r, k, i, c))
  }

  lemma Hearing(b: Bridge, i: nat, c: Config, tcFlag: bool, ackFlag: bool)
    requires CanHear(b, i, c)
    ensures Improves(b, ReceiveConfig(b, i, c, tcFlag, ackFlag), i, c)
  {
    var r := ReceiveConfig(b, i, c, tcFlag, ackFlag);
    ReceiveConfigKeeps(b, i, c, tcFlag, ackFlag);
    ReceiveConfigElects(b, i, c, tcFlag, ackFlag);
    HearingKeepsAges(b, i, c, tcFlag, ackFlag);
    if Accepted(b, i, c) {
      HearingAccepted(b, i, c, r);
    } else {
      forall k | 0 <= k < |b.ports| ensures RecordMoves(b, r, k, i, c) {
        assert SameRecord(b.ports[k], r.ports[k]);
      }
    }
  }

  lemma HearingAccepted(b: Bridge, i: nat, c: Config, r: Bridge)
    requires CanHear(b, i, c) && Accepted(b, i, c) && SameAges(Record(b, i, c), r)
    requires SameElection(UpdateConfiguration(Record(b, i, c)), r)
    ensures BetterBelief(r, b) && forall k :: 0 <= k < |b.ports| ==> RecordMoves(b, r, k, i, c)
  {
    var rec, u := Record(b, i, c), UpdateConfiguration(Record(b, i, c));
    BeliefImproves(b, i, c);
    UpdateShape(rec, i);
    forall k | 0 <= k < |b.ports| ensures RecordMoves(b, r, k, i, c) {
      UpdateMovesRecord(b, i, c, k);
      UpdateShape(rec, k);
      assert SameRecord(u.ports[k], r.ports[k]);
    }
  }

  /** Hearing again what the port holds changes no election. */
  lemma HearsNothingNew(b: Bridge, j: nat, c: Config, tcFlag: bool, ackFlag: bool)
    requires Inv(b) && Elected(b) && j < |b.ports| && Enabled(b.ports[j])
    requires b.ports[j].des == c.vec && c.messageAge < c.maxAge && c.vec.cost < TWO32
    ensures SameElection(b, ReceiveConfig(b, j, c, tcFlag, ackFlag))
  {
    var r, rec := ReceiveConfig(b, j, c, tcFlag, ackFlag), Record(b, j, c);
    assert Accepted(b, j, c) && SameElection(b, rec);
    ReceiveConfigKeeps(b, j, c, tcFlag, ackFlag);
    RecordIsSound(b, j, c);
    DistinctIdsOfSound(rec);
    ElectionFrame(b, rec);
    SettledIffFixpoint(rec);
    SameElectionTrans(b, rec, r);
  }
}
