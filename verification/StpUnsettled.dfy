/**
  Runs of a bridge, from creation, that unsettle its election: a zero path cost, a bridge
  priority, a port priority, and the loss of a port.  All are ones the bridge accepts, so the
  conditions of module `StpSettled` are not empty.
*/
module StpUnsettled {
  import opened Common
  import opened StpModel
  import opened StpElection
  import opened StpRuns
  import opened StpSettled
  import opened StpFresh

  lemma RunAppend(b: Bridge, events: seq<Event>, e: Event)
    requires |b.ports| == MAX_PORTS && RootPortInRange(b) && AllLegal(events) && Legal(e)
    ensures AllLegal(events + [e]) && Run(b, events + [e]) == Step(Run(b, events), e)
  {
    assert (events + [e])[..|events|] == events;
  }

  // ----- one port whose link costs nothing

  /** Port `i` is the only one enabled, and its link costs nothing. */
  predicate OnlyFree(b: Bridge, i: nat) {
    && i < |b.ports| && b.ports[i].pathCost == 0
    && forall k :: 0 <= k < |b.ports| ==> (Enabled(b.ports[k]) <==> k == i)
  }

  function ZeroCost(i: nat): seq<Event> {
    [PathCostSet(i, 0)] + [PortEnabled(i)]
  }

  lemma ZeroCostBridge(id: nat, i: nat)
    requires id < TWO64 && i < MAX_PORTS
    ensures var b := EnablePort(SetPathCost(Create(id), i, 0), i);
            && Unheard(b) && OnlyFree(b, i) && b.id == Create(id).id
            && forall k :: 0 <= k < |b.ports| && k != i ==> b.ports[k].pathCost == 19
  {
    CreateIsUnheard(id);
    CostIsUnheard(Create(id), i, 0);
    EnableIsUnheard(SetPathCost(Create(id), i, 0), i);
  }

  lemma ZeroCostRun(id: nat, i: nat)
    requires id < TWO64 && i < MAX_PORTS
    ensures AllLegal(ZeroCost(i))
    ensures Run(Create(id), ZeroCost(i)) == EnablePort(SetPathCost(Create(id), i, 0), i)
  {
    var b := Create(id);
    RunAppend(b, [], PathCostSet(i, 0));
    assert [] + [PathCostSet(i, 0)] == [PathCostSet(i, 0)];
    RunAppend(b, [PathCostSet(i, 0)], PortEnabled(i));
  }

  /** The only enabled port is elected on any record of a better root. */
  lemma OnlyCandidate(b: Bridge, i: nat)
    requires DistinctPortIds(b) && OnlyFree(b, i) && Candidate(b, b.ports[i])
    ensures Best(b, |b.ports|) == Some(i)
  {
    SelectRootElectsLeast(b);
    assert IsLeastCandidate(b, i);
  }

  /** Elected on what it heard: the port keeps the record just when the sender precedes. */
  predicate ElectedOn(b: Bridge, r: Bridge, i: nat, v: Vector) {
    && i < |b.ports| && OnlyFree(r, i) && r.id == b.id && r.rootPort == Some(i)
    && r.ports[i].portId == b.ports[i].portId
    && r.ports[i].des == if v.bridge < b.id then v else Vector(v.root, v.cost, b.id, b.ports[i].portId)
  }

  lemma FreeLinkUpdate(b: Bridge, i: nat, c: Config)
    requires Unheard(b) && OnlyFree(b, i) && c.vec.root < b.id && c.vec.bridge != b.id && c.vec.cost < TWO32
    ensures var rec := Record(b, i, c);
            ElectedOn(b, UpdateConfiguration(rec), i, c.vec) && (RootPortSurvives(rec) <==> c.vec.bridge < b.id)
  {
    var rec := Record(b, i, c);
    RecordIsSound(b, i, c);
    DistinctIdsOfSound(rec);
    OnlyCandidate(rec, i);
    forall k | 0 <= k < |b.ports|
      ensures UpdateConfiguration(rec).ports[k] == Redesignate(SelectRoot(rec), rec.ports[k])
    {
      UpdateShape(rec, k);
    }
  }

  lemma ElectedFrame(b: Bridge, u: Bridge, r: Bridge, i: nat, v: Vector)
    requires ElectedOn(b, u, i, v) && SameElection(u, r)
    ensures ElectedOn(b, r, i, v)
  {
    forall k | 0 <= k < |u.ports| ensures SameRecord(u.ports[k], r.ports[k]) {}
  }

  /** Hearing a better root over it, the bridge elects the port, and the election is settled just
      when the sender precedes the bridge. */
  lemma FreeLinkElected(b: Bridge, i: nat, c: Config, tcFlag: bool, ackFlag: bool)
    requires Unheard(b) && OnlyFree(b, i) && c.vec.root < b.id && c.vec.bridge != b.id
    requires c.vec.cost < TWO32 && c.messageAge < c.maxAge
    ensures var r := ReceiveConfig(b, i, c, tcFlag, ackFlag);
            Inv(r) && ElectedOn(b, r, i, c.vec) && (Settled(r) <==> c.vec.bridge < b.id)
  {
    assert Accepted(b, i, c);
    FreeLinkUpdate(b, i, c);
    ConfigSettledIff(b, i, c, tcFlag, ackFlag);
    ReceiveConfigKeeps(b, i, c, tcFlag, ackFlag);
    ElectedFrame(b, UpdateConfiguration(Record(b, i, c)), ReceiveConfig(b, i, c, tcFlag, ackFlag), i, c.vec);
  }

  /** The root port is designated, which no settled bridge's is. */
  predicate Unelectable(r: Bridge, i: nat) {
    && i < |r.ports| && r.rootPort == Some(i) && IsDesignated(r, r.ports[i])
    && !Settled(r) && UpdateConfiguration(r) != r
  }

  /** The run: set the cost, enable the port, hear the message. */
  lemma ZeroPathCostUnsettles(id: nat, i: nat, c: Config, tcFlag: bool, ackFlag: bool)
    requires id < TWO64 && i < MAX_PORTS && Legal(ConfigReceived(i, c, tcFlag, ackFlag))
    requires c.vec.root < Create(id).id < c.vec.bridge && c.messageAge < c.maxAge
    ensures var events := ZeroCost(i) + [ConfigReceived(i, c, tcFlag, ackFlag)];
            AllLegal(events) && Unelectable(Run(Create(id), events), i)
  {
    var b := Run(Create(id), ZeroCost(i));
    ZeroCostRun(id, i);
    ZeroCostBridge(id, i);
    FreeLinkElected(b, i, c, tcFlag, ackFlag);
    var r := ReceiveConfig(b, i, c, tcFlag, ackFlag);
    DistinctIdsOfSound(r);
    SettledIffFixpoint(r);
    RunAppend(Create(id), ZeroCost(i), ConfigReceived(i, c, tcFlag, ackFlag));
  }

  // ----- a bridge priority

  /** A bridge that has come to precede the sender on such a link takes the link over. */
  lemma RenamingTakesOver(b: Bridge, i: nat, newId: nat)
    requires Inv(b) && OnlyFree(b, i) && !IsDesignated(b, b.ports[i]) && newId != b.id
    requires b.ports[i].des.root < newId < b.ports[i].des.bridge
    ensures !Settled(ChangeBridgeId(b, newId))
  {
    var c := RenameAll(b, newId);
    RenameIsSound(b, newId);
    DistinctIdsOfSound(c);
    assert c.ports[i] == b.ports[i];
    OnlyCandidate(c, i);
    BridgeIdSettledIff(b, newId);
  }

  /** The run: the same with a sender that precedes the bridge, after which the election is
      settled; then a priority that puts the bridge between root and sender. */
  lemma BridgePriorityUnsettles(id: nat, i: nat, c: Config, tcFlag: bool, ackFlag: bool, priority: nat)
    requires id < TWO64 && i < MAX_PORTS && Legal(ConfigReceived(i, c, tcFlag, ackFlag))
    requires c.messageAge < c.maxAge && priority < TWO16
    requires c.vec.root < WithPriority(Create(id).id, priority) < c.vec.bridge < Create(id).id
    ensures var events := ZeroCost(i) + [ConfigReceived(i, c, tcFlag, ackFlag)];
            && AllLegal(events) && Settled(Run(Create(id), events))
            && AllLegal(events + [BridgePrioritySet(priority)])
            && !Settled(Run(Create(id), events + [BridgePrioritySet(priority)]))
  {
    var b := Run(Create(id), ZeroCost(i));
    var events := ZeroCost(i) + [ConfigReceived(i, c, tcFlag, ackFlag)];
    ZeroCostRun(id, i);
    ZeroCostBridge(id, i);
    FreeLinkElected(b, i, c, tcFlag, ackFlag);
    RunAppend(Create(id), ZeroCost(i), ConfigReceived(i, c, tcFlag, ackFlag));
    RenamingTakesOver(Run(Create(id), events), i, WithPriority(Create(id).id, priority));
    RunAppend(Create(id), events, BridgePrioritySet(priority));
  }

  // ----- a port priority

  /** The bridge has heard the same on two ports and has the first of them as root port. */
  predicate HeardTwice(b: Bridge, i: nat, j: nat, v: Vector) {
    && Inv(b) && Elected(b) && i < j < |b.ports| && b.rootPort == Some(i) && v.root < b.id && v.bridge != b.id
    && (forall k :: k in {i, j} ==>
          && Enabled(b.ports[k]) && b.ports[k].des == v && b.ports[k].pathCost == 19
          && b.ports[k].portId == DEFAULT_PORT_PRIORITY * 256 + k + 1)
  }

  /** Raising the priority number of the first hands the root port to the second by the fifth
      key, which the code does not act on. */
  lemma PriorityUnsettles(b: Bridge, i: nat, j: nat, v: Vector, priority: nat)
    requires HeardTwice(b, i, j, v) && DEFAULT_PORT_PRIORITY < priority < 256
    ensures !Settled(SetPortPriority(b, i, priority))
  {
    SetPortPriorityKeeps(b, i, priority);
    assert PortSound(b, i);
    assert Candidate(b, b.ports[j]) && Tied(b.ports[j], b.ports[i]);
    PrioritySettledIff(b, i, priority);
  }

  /** The same ports with the same identifiers and costs are enabled. */
  predicate TwoPorts(b: Bridge, i: nat, j: nat) {
    && i < j < |b.ports|
    && (forall k :: 0 <= k < |b.ports| ==>
          && Enabled(b.ports[k]) == (k == i || k == j) && b.ports[k].pathCost == 19
          && b.ports[k].portId == DEFAULT_PORT_PRIORITY * 256 + k + 1)
  }

  lemma TwoPortsKept(b: Bridge, i: nat, j: nat, p: nat, c: Config)
    requires TwoPorts(b, i, j) && p < |b.ports|
    ensures TwoPorts(UpdateConfiguration(Record(b, p, c)), i, j)
  {
    var rec := Record(b, p, c);
    forall k | 0 <= k < |b.ports|
      ensures UpdateConfiguration(rec).ports[k] == Redesignate(SelectRoot(rec), rec.ports[k])
    {
      UpdateShape(rec, k);
    }
  }

  lemma TwoPortsSame(b: Bridge, c: Bridge, i: nat, j: nat)
    requires TwoPorts(b, i, j) && SameElection(b, c)
    ensures TwoPorts(c, i, j)
  {
    forall k | 0 <= k < |b.ports| ensures SameRecord(b.ports[k], c.ports[k]) {}
  }

  /** What the first message leaves: its port is root port, the other still designated. */
  predicate HeardOnce(b: Bridge, i: nat, j: nat, v: Vector) {
    && TwoPorts(b, i, j) && b.rootPort == Some(i) && b.root == v.root && b.rootCost == 19
    && b.ports[i].des == v && b.ports[j].des == Vector(v.root, 19, b.id, b.ports[j].portId)
  }

  lemma HearsFirst(b: Bridge, i: nat, j: nat, c: Config)
    requires Unheard(b) && TwoPorts(b, i, j)
    requires c.vec.root < b.id && c.vec.bridge != b.id && c.vec.cost == 0
    ensures HeardOnce(UpdateConfiguration(Record(b, i, c)), i, j, c.vec)
  {
    var rec := Record(b, i, c);
    RecordIsSound(b, i, c);
    DistinctIdsOfSound(rec);
    SelectRootElectsLeast(rec);
    assert IsLeastCandidate(rec, i);
    TwoPortsKept(b, i, j, i, c);
    UpdateShape(rec, i);
    UpdateShape(rec, j);
  }

  lemma HearsSecond(b: Bridge, i: nat, j: nat, c: Config)
    requires Inv(b) && HeardOnce(b, i, j, c.vec)
    requires c.vec.root < b.id && c.vec.bridge != b.id && c.vec.cost == 0
    ensures var u := UpdateConfiguration(Record(b, j, c));
            TwoPorts(u, i, j) && u.rootPort == Some(i) && u.ports[i].des == u.ports[j].des == c.vec
  {
    var rec := Record(b, j, c);
    RecordIsSound(b, j, c);
    DistinctIdsOfSound(rec);
    SelectRootElectsLeast(rec);
    assert IsLeastCandidate(rec, i);
    TwoPortsKept(b, i, j, j, c);
    UpdateShape(rec, i);
    UpdateShape(rec, j);
  }

  lemma HearsBoth(b: Bridge, i: nat, j: nat, c: Config)
    requires Unheard(b) && TwoPorts(b, i, j)
    requires c.vec.root < b.id && c.vec.bridge != b.id && c.vec.cost == 0 && c.messageAge < c.maxAge
    ensures HeardTwice(ReceiveConfig(ReceiveConfig(b, i, c, false, false), j, c, false, false), i, j, c.vec)
  {
    var b1 := ReceiveConfig(b, i, c, false, false);
    var u1 := UpdateConfiguration(Record(b, i, c));
    assert Fit(b) && Accepted(b, i, c);
    ReceiveConfigKeeps(b, i, c, false, false);
    ReceiveConfigElects(b, i, c, false, false);
    HearsFirst(b, i, j, c);
    TwoPortsSame(u1, b1, i, j);
    assert SameRecord(u1.ports[i], b1.ports[i]) && SameRecord(u1.ports[j], b1.ports[j]);
    HearsSecondTime(b1, i, j, c);
  }

  lemma HearsSecondTime(b: Bridge, i: nat, j: nat, c: Config)
    requires Inv(b) && Elected(b) && HeardOnce(b, i, j, c.vec)
    requires c.vec.root < b.id && c.vec.bridge != b.id && c.vec.cost == 0 && c.messageAge < c.maxAge
    ensures HeardTwice(ReceiveConfig(b, j, c, false, false), i, j, c.vec)
  {
    var r := ReceiveConfig(b, j, c, false, false);
    var u := UpdateConfiguration(Record(b, j, c));
    assert Accepted(b, j, c);
    ReceiveConfigKeeps(b, j, c, false, false);
    ReceiveConfigElects(b, j, c, false, false);
    HearsSecond(b, i, j, c);
    TwoPortsSame(u, r, i, j);
    assert SameRecord(u.ports[i], r.ports[i]) && SameRecord(u.ports[j], r.ports[j]);
  }

  function EnableTwo(i: nat, j: nat): seq<Event> {
    [PortEnabled(i)] + [PortEnabled(j)]
  }

  lemma EnableTwoRun(id: nat, i: nat, j: nat)
    requires id < TWO64 && i < j < MAX_PORTS
    ensures AllLegal(EnableTwo(i, j))
    ensures var b := Run(Create(id), EnableTwo(i, j));
            Unheard(b) && TwoPorts(b, i, j) && b.id == Create(id).id
  {
    var b := Create(id);
    CreateIsUnheard(id);
    EnableIsUnheard(b, i);
    EnableIsUnheard(EnablePort(b, i), j);
    RunAppend(b, [], PortEnabled(i));
    assert [] + [PortEnabled(i)] == [PortEnabled(i)];
    RunAppend(b, [PortEnabled(i)], PortEnabled(j));
  }

  function HearOnTwo(i: nat, j: nat, c: Config): seq<Event> {
    EnableTwo(i, j) + [ConfigReceived(i, c, false, false)] + [ConfigReceived(j, c, false, false)]
  }

  /** The run: enable two ports, hear one message on both. */
  lemma HearOnTwoRun(id: nat, i: nat, j: nat, c: Config)
    requires id < TWO64 && i < j < MAX_PORTS && Legal(ConfigReceived(i, c, false, false))
    requires c.vec.root < Create(id).id && c.vec.bridge != Create(id).id && c.vec.cost == 0
    requires c.messageAge < c.maxAge
    ensures AllLegal(HearOnTwo(i, j, c)) && HeardTwice(Run(Create(id), HearOnTwo(i, j, c)), i, j, c.vec)
  {
    EnableTwoRun(id, i, j);
    HearsBoth(Run(Create(id), EnableTwo(i, j)), i, j, c);
    RunAppend(Create(id), EnableTwo(i, j), ConfigReceived(i, c, false, false));
    RunAppend(Create(id), EnableTwo(i, j) + [ConfigReceived(i, c, false, false)], ConfigReceived(j, c, false, false));
  }

  /** After it the election is settled, and no longer so once the first port's priority number
      is raised. */
  lemma PortPriorityUnsettles(id: nat, i: nat, j: nat, c: Config, priority: nat)
    requires id < TWO64 && i < j < MAX_PORTS && Legal(ConfigReceived(i, c, false, false))
    requires c.vec.root < Create(id).id && c.vec.bridge != Create(id).id && c.vec.cost == 0
    requires c.messageAge < c.maxAge && DEFAULT_PORT_PRIORITY < priority < 256
    ensures var events := HearOnTwo(i, j, c);
            && AllLegal(events) && Elected(Run(Create(id), events))
            && AllLegal(events + [PortPrioritySet(i, priority)])
            && !Settled(Run(Create(id), events + [PortPrioritySet(i, priority)]))
  {
    HearOnTwoRun(id, i, j, c);
    PriorityUnsettles(Run(Create(id), HearOnTwo(i, j, c)), i, j, c.vec, priority);
    RunAppend(Create(id), HearOnTwo(i, j, c), PortPrioritySet(i, priority));
  }

  // ----- the loss of a port

  /** Two ports are enabled: the link of `i` costs nothing, that of `j` the usual. */
  predicate FreeAndDear(b: Bridge, i: nat, j: nat) {
    && i < |b.ports| && j < |b.ports| && i != j && b.ports[i].pathCost == 0 && b.ports[j].pathCost == 19
    && forall k :: 0 <= k < |b.ports| ==> (Enabled(b.ports[k]) <==> k == i || k == j)
  }

  lemma FreeAndDearFrame(b: Bridge, c: Bridge, i: nat, j: nat)
    requires FreeAndDear(b, i, j) && SameElection(b, c)
    ensures FreeAndDear(c, i, j)
  {
    forall k | 0 <= k < |b.ports| ensures SameRecord(b.ports[k], c.ports[k]) {}
  }

  lemma FreeAndDearKept(b: Bridge, i: nat, j: nat, p: nat, c: Config)
    requires FreeAndDear(b, i, j) && p < |b.ports|
    ensures FreeAndDear(UpdateConfiguration(Record(b, p, c)), i, j)
  {
    var rec := Record(b, p, c);
    forall k | 0 <= k < |b.ports|
      ensures UpdateConfiguration(rec).ports[k] == Redesignate(SelectRoot(rec), rec.ports[k])
    {
      UpdateShape(rec, k);
    }
  }

  function EnableFreeAndDear(i: nat, j: nat): seq<Event> {
    ZeroCost(i) + [PortEnabled(j)]
  }

  lemma FreeAndDearRun(id: nat, i: nat, j: nat)
    requires id < TWO64 && i < MAX_PORTS && j < MAX_PORTS && i != j
    ensures AllLegal(EnableFreeAndDear(i, j))
    ensures var b := Run(Create(id), EnableFreeAndDear(i, j));
            Unheard(b) && FreeAndDear(b, i, j) && b.id == Create(id).id
  {
    ZeroCostRun(id, i);
    ZeroCostBridge(id, i);
    EnableIsUnheard(Run(Create(id), ZeroCost(i)), j);
    RunAppend(Create(id), ZeroCost(i), PortEnabled(j));
  }

  /** A cost whose sum with a path cost reads as a negative number. */
  predicate ReadsNegative(cost: nat) {
    TWO31 <= cost && cost + TWO16 <= TWO32
  }

  /** The bridge follows what it heard on `j`; what `i` holds is `w`. */
  predicate Follows(b: Bridge, i: nat, j: nat, v: Vector, w: Vector) {
    && FreeAndDear(b, i, j) && b.rootPort == Some(j) && b.root == v.root && b.rootCost == v.cost + 19
    && b.ports[j].des == v && b.ports[i].des == w
  }

  lemma FollowsFrame(b: Bridge, c: Bridge, i: nat, j: nat, v: Vector, w: Vector)
    requires Follows(b, i, j, v, w) && SameElection(b, c)
    ensures Follows(c, i, j, v, w)
  {
    FreeAndDearFrame(b, c, i, j);
    assert SameRecord(b.ports[i], c.ports[i]) && SameRecord(b.ports[j], c.ports[j]);
  }

  /** A port with such a record is preferred to one with an ordinary record of the same root. */
  predicate DearBeats(b: Bridge, i: nat, j: nat) {
    && FreeAndDear(b, i, j) && Candidate(b, b.ports[j]) && ReadsNegative(b.ports[j].des.cost)
    && (|| IsDesignated(b, b.ports[i])
        || (b.ports[i].des.root == b.ports[j].des.root && b.ports[i].des.cost < TWO31))
  }

  lemma DearIsBest(b: Bridge, i: nat, j: nat)
    requires DistinctPortIds(b) && DearBeats(b, i, j)
    ensures SelectRoot(b).rootPort == Some(j) && RootPortSurvives(b)
  {
    SelectRootElectsLeast(b);
    assert IsLeastCandidate(b, j);
  }

  /** Elected on such a cost, the port survives, and the other keeps what it holds if that is
      cheaper. */
  lemma DearElected(b: Bridge, i: nat, j: nat, p: nat, c: Config)
    requires Sound(b) && FreeAndDear(b, i, j) && p < |b.ports| && c.vec.cost < TWO32
    requires DearBeats(Record(b, p, c), i, j)
    ensures var rec := Record(b, p, c);
            var u := UpdateConfiguration(rec);
            && RootPortSurvives(rec)
            && Follows(u, i, j, rec.ports[j].des,
                       if IsDesignated(rec, rec.ports[i]) then OwnVector(u, rec.ports[i]) else rec.ports[i].des)
  {
    var rec := Record(b, p, c);
    RecordIsSound(b, p, c);
    DistinctIdsOfSound(rec);
    DearIsBest(rec, i, j);
    FreeAndDearKept(b, i, j, p, c);
    UpdateShape(rec, i);
    UpdateShape(rec, j);
  }

  /** Disabling the port it follows, the bridge elects the other and takes its link over. */
  lemma LossTakesOver(b: Bridge, i: nat, j: nat, v: Vector, w: Vector)
    requires Inv(b) && Follows(b, i, j, v, w) && w.root < b.id < w.bridge
    ensures !Settled(DisablePort(b, j))
  {
    var c := ShutDown(b, j);
    ShutDownIsSound(b, j);
    DistinctIdsOfSound(c);
    assert c.ports[i] == b.ports[i];
    OnlyCandidate(c, i);
    DisableSettledIff(b, j);
  }

  function HearDearThenFree(i: nat, j: nat, d: Config, c: Config): seq<Event> {
    EnableFreeAndDear(i, j) + [ConfigReceived(j, d, false, false)] + [ConfigReceived(i, c, false, false)]
  }

  /** What the two messages have to be. */
  predicate DearThenFree(id: nat, i: nat, j: nat, d: Config, c: Config) {
    && Legal(ConfigReceived(j, d, false, false)) && Legal(ConfigReceived(i, c, false, false)) && i != j
    && d.vec.root == c.vec.root < id < c.vec.bridge && d.vec.bridge != id
    && ReadsNegative(d.vec.cost) && c.vec.cost < TWO31
    && d.messageAge < d.maxAge && c.messageAge < c.maxAge
  }

  lemma HearsDearThenFree(b: Bridge, i: nat, j: nat, d: Config, c: Config)
    requires Unheard(b) && FreeAndDear(b, i, j) && DearThenFree(b.id, i, j, d, c)
    ensures var r := ReceiveConfig(ReceiveConfig(b, j, d, false, false), i, c, false, false);
            Inv(r) && Settled(r) && r.id == b.id && Follows(r, i, j, d.vec, c.vec)
  {
    var b1 := ReceiveConfig(b, j, d, false, false);
    var u1 := UpdateConfiguration(Record(b, j, d));
    assert Accepted(b, j, d);
    ReceiveConfigKeeps(b, j, d, false, false);
    DearElected(b, i, j, j, d);
    FollowsFrame(u1, b1, i, j, d.vec, u1.ports[i].des);
    HearsFree(b1, i, j, d, c);
  }

  lemma HearsFree(b: Bridge, i: nat, j: nat, d: Config, c: Config)
    requires Inv(b) && DearThenFree(b.id, i, j, d, c) && Follows(b, i, j, d.vec, b.ports[i].des)
    requires b.ports[i].des == OwnVector(b, b.ports[i])
    ensures var r := ReceiveConfig(b, i, c, false, false);
            Inv(r) && Settled(r) && r.id == b.id && Follows(r, i, j, d.vec, c.vec)
  {
    assert Accepted(b, i, c);
    ReceiveConfigKeeps(b, i, c, false, false);
    DearElected(b, i, j, i, c);
    ConfigSettledIff(b, i, c, false, false);
    FollowsFrame(UpdateConfiguration(Record(b, i, c)), ReceiveConfig(b, i, c, false, false), i, j, d.vec, c.vec);
  }

  /** The run: a link that costs nothing and one that costs the usual; a cost that reads as
      negative is heard on the second and so preferred to a cheaper one on the first; then the
      second port is disabled. */
  lemma DisablingUnsettles(id: nat, i: nat, j: nat, d: Config, c: Config)
    requires id < TWO64 && DearThenFree(Create(id).id, i, j, d, c)
    ensures var events := HearDearThenFree(i, j, d, c);
            && AllLegal(events) && Settled(Run(Create(id), events))
            && AllLegal(events + [PortDisabled(j)]) && !Settled(Run(Create(id), events + [PortDisabled(j)]))
  {
    var events := HearDearThenFree(i, j, d, c);
    FreeAndDearRun(id, i, j);
    HearsDearThenFree(Run(Create(id), EnableFreeAndDear(i, j)), i, j, d, c);
    RunAppend(Create(id), EnableFreeAndDear(i, j), ConfigReceived(j, d, false, false));
    RunAppend(Create(id), EnableFreeAndDear(i, j) + [ConfigReceived(j, d, false, false)],
              ConfigReceived(i, c, false, false));
    LossTakesOver(Run(Create(id), events), i, j, d.vec, c.vec);
    RunAppend(Create(id), events, PortDisabled(j));
  }
}
