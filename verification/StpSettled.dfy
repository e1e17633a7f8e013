/**
  When an election stays settled: for each event, the exact condition under which a settled
  election is settled after it, and so for whole runs.  An event that holds a new election
  settles it just when the port elected as root port survives designation; of the others only a
  port priority can unsettle one.
*/
module StpSettled {
  import opened Common
  import opened StpModel
  import opened StpElection
  import opened StpRuns

  lemma ElectionsAgree(b: Bridge, c: Bridge)
    requires SameElection(b, c)
    ensures (Elected(b) <==> Elected(c)) && (Settled(b) <==> Settled(c))
  {
    ElectionFrame(b, c);
    assert SameElection(c, b) by {
      forall i | 0 <= i < |b.ports| ensures SameRecord(c.ports[i], b.ports[i]) {
        assert SameRecord(b.ports[i], c.ports[i]);
      }
    }
    ElectionFrame(c, b);
  }

  // ----- events that hold a new election

  /** The new election is settled just when its root port survives designation. */
  lemma ReconfigureSettledIff(c: Bridge)
    requires Sound(c)
    ensures Settled(Reconfigure(c)) <==> RootPortSurvives(c)
  {
    DistinctIdsOfSound(c);
    UpdateSettles(c);
    SoundReconfigure(c);
    ElectionsAgree(UpdateConfiguration(c), Reconfigure(c));
  }

  /** So it is if a new root bridge then announces itself. */
  lemma AnnouncedSettledIff(c: Bridge, wasRoot: bool)
    requires Sound(c)
    ensures Settled(AnnounceIfNewRoot(Reconfigure(c), wasRoot)) <==> RootPortSurvives(c)
  {
    ReconfigureSettledIff(c);
    SoundReconfigure(c);
    SoundAnnounce(Reconfigure(c), wasRoot);
    ElectionsAgree(Reconfigure(c), AnnounceIfNewRoot(Reconfigure(c), wasRoot));
  }

  lemma PathCostSettledIff(b: Bridge, i: nat, cost: nat)
    requires Inv(b) && i < |b.ports| && cost < TWO16 && b.ports[i].pathCost != cost
    ensures Settled(SetPathCost(b, i, cost))
            <==> RootPortSurvives(SetPort(b, i, b.ports[i].(pathCost := cost)))
  {
    var q := b.ports[i].(pathCost := cost);
    assert PortSound(b, i);
    SoundPort(b, i, q);
    ReconfigureSettledIff(SetPort(b, i, q));
  }

  lemma ConfigSettledIff(b: Bridge, i: nat, c: Config, tcFlag: bool, ackFlag: bool)
    requires Inv(b) && i < |b.ports| && c.vec.cost < TWO32 && Accepted(b, i, c)
    ensures Settled(ReceiveConfig(b, i, c, tcFlag, ackFlag)) <==> RootPortSurvives(Record(b, i, c))
  {
    var rec, r := Record(b, i, c), ReceiveConfig(b, i, c, tcFlag, ackFlag);
    RecordIsSound(b, i, c);
    DistinctIdsOfSound(rec);
    UpdateSettles(rec);
    ReceiveConfigKeeps(b, i, c, tcFlag, ackFlag);
    ElectionsAgree(UpdateConfiguration(rec), r);
  }

  lemma BridgeIdSettledIff(b: Bridge, id: nat)
    requires Inv(b) && id != b.id
    ensures Settled(ChangeBridgeId(b, id)) <==> RootPortSurvives(RenameAll(b, id))
  {
    RenameIsSound(b, id);
    AnnouncedSettledIff(RenameAll(b, id), IsRoot(b));
  }

  lemma DisableSettledIff(b: Bridge, i: nat)
    requires Inv(b) && i < |b.ports| && Enabled(b.ports[i])
    ensures Settled(DisablePort(b, i)) <==> RootPortSurvives(ShutDown(b, i))
  {
    ShutDownIsSound(b, i);
    AnnouncedSettledIff(ShutDown(b, i), IsRoot(b));
  }

  // ----- ticks

  predicate AgesOut(b: Bridge, i: nat, elapsed: nat)
    requires i < |b.ports|
  {
    Enabled(b.ports[i]) && Expires(b.ports[i].messageAge, elapsed, b.maxAge)
  }

  /** The bridge with port `i` resigned to, about to hold a new election. */
  function Resigned(b: Bridge, i: nat, elapsed: nat): (r: Bridge)
    requires i < |b.ports|
    ensures |r.ports| == |b.ports|
  {
    var p := b.ports[i];
    BecomeDesignated(SetPort(b, i, p.(messageAge := Advance(p.messageAge, elapsed, b.maxAge))), i)
  }

  /** The bridge about to hold the last election of a tick, if the tick holds any. */
  function LastElection(b: Bridge, from: nat, elapsed: nat): (r: Option<Bridge>)
    requires RootPortInRange(b)
    decreases |b.ports| - from
  {
    if from >= |b.ports| then None
    else
      var later := LastElection(AgeTick(b, from, elapsed), from + 1, elapsed);
      if later.Some? || !AgesOut(b, from, elapsed) then later else Some(Resigned(b, from, elapsed))
  }

  lemma ResignedIsSound(b: Bridge, i: nat, elapsed: nat)
    requires Sound(b) && i < |b.ports|
    ensures Sound(Resigned(b, i, elapsed))
  {
    var p := b.ports[i];
    var q := p.(messageAge := Advance(p.messageAge, elapsed, b.maxAge));
    assert PortSound(b, i);
    SoundPort(b, i, q);
    DesignateIsSound(SetPort(b, i, q), i);
  }

  lemma AgeTickSettledIff(b: Bridge, i: nat, elapsed: nat)
    requires Inv(b) && i < |b.ports|
    ensures Settled(AgeTick(b, i, elapsed))
            <==> if AgesOut(b, i, elapsed) then RootPortSurvives(Resigned(b, i, elapsed)) else Settled(b)
  {
    if AgesOut(b, i, elapsed) {
      ResignedIsSound(b, i, elapsed);
      AnnouncedSettledIff(Resigned(b, i, elapsed), IsRoot(b));
    } else {
      ElectionsAgree(b, AgeTick(b, i, elapsed));
    }
  }

  lemma {:induction false} AgeTicksSettledIff(b: Bridge, from: nat, elapsed: nat)
    requires Inv(b)
    ensures var last := LastElection(b, from, elapsed);
            Settled(AgeTicks(b, from, elapsed))
            <==> if last.Some? then RootPortSurvives(last.value) else Settled(b)
    decreases |b.ports| - from
  {
    if from < |b.ports| {
      AgeTickKeeps(b, from, elapsed);
      AgeTickSettledIff(b, from, elapsed);
      AgeTicksSettledIff(AgeTick(b, from, elapsed), from + 1, elapsed);
    }
  }

  /** The bridge when its message ages are about to advance. */
  function BeforeAging(b: Bridge, elapsed: nat): (r: Bridge)
    requires RootPortInRange(b)
    ensures |r.ports| == |b.ports| && RootPortInRange(r)
  {
    TopologyChangeTick(TcnTick(HelloTick(b, elapsed), elapsed), elapsed)
  }

  predicate TickHarmless(b: Bridge, elapsed: nat)
    requires RootPortInRange(b)
  {
    elapsed == 0 ||
    var last := LastElection(BeforeAging(b, elapsed), 0, elapsed);
    last.Some? ==> RootPortSurvives(last.value)
  }

  lemma TickSettledIff(b: Bridge, elapsed: nat)
    requires Inv(b) && Settled(b)
    ensures Settled(Tick(b, elapsed)) <==> TickHarmless(b, elapsed)
  {
    if elapsed > 0 {
      var b1 := BeforeAging(b, elapsed);
      BridgeTicksKeep(b, elapsed);
      AgeTicksKeep(b1, 0, elapsed);
      AgeTicksSettledIff(b1, 0, elapsed);
      PortTicksKeep(AgeTicks(b1, 0, elapsed), 0, elapsed);
      ElectionsAgree(AgeTicks(b1, 0, elapsed), Tick(b, elapsed));
    }
  }

  // ----- port priorities

  function NewPortId(p: Port, priority: nat): nat {
    priority * 256 + p.portId % 256
  }

  /** The two ports differ at most in the last of the five keys. */
  predicate Tied(p: Port, q: Port) {
    && p.des.root == q.des.root && CostVia(p) == CostVia(q)
    && p.des.bridge == q.des.bridge && p.des.port == q.des.port
  }

  /** The root port and the ports tied with it keep their order. */
  predicate OrderKept(b: Bridge, i: nat, newId: nat)
    requires i < |b.ports|
  {
    forall j :: 0 <= j < |b.ports| && j != i && Candidate(b, b.ports[j]) && Tied(b.ports[j], b.ports[i]) ==>
      && (b.rootPort == Some(i) ==> newId < b.ports[j].portId)
      && (b.rootPort == Some(j) && Candidate(b, b.ports[i]) ==> b.ports[j].portId < newId)
  }

  /** A port that hears its own bridge and gets an identifier as low as the one it hears takes
      the link over; one that does not keeps its place in the election. */
  predicate PriorityHarmless(b: Bridge, i: nat, priority: nat)
    requires i < |b.ports|
  {
    var p := b.ports[i];
    var newId := NewPortId(p, priority);
    || newId == p.portId || !Enabled(p) || IsDesignated(b, p)
    || if b.id == p.des.bridge && newId <= p.des.port
       then b.rootPort != Some(i) && (newId < p.des.port || p.des.cost == b.rootCost)
       else OrderKept(b, i, newId)
  }

  /** The bridge with the new identifier in place, before port states are selected. */
  function AfterTakeover(b: Bridge, i: nat, priority: nat): (c: Bridge)
    requires i < |b.ports|
    ensures |c.ports| == |b.ports|
  {
    var c := Renumber(b, i, NewPortId(b.ports[i], priority));
    if b.id == c.ports[i].des.bridge && c.ports[i].portId < c.ports[i].des.port
    then BecomeDesignated(c, i) else c
  }

  /** Two bridges that differ in one port agree on the roles of all others. */
  lemma OthersKeepRoles(b: Bridge, c: Bridge, i: nat, j: nat)
    requires |c.ports| == |b.ports| && i < |b.ports| && j < |b.ports| && j != i
    requires c == b.(ports := b.ports[i := c.ports[i]])
    ensures c.ports[j] == b.ports[j] && Candidate(c, c.ports[j]) == Candidate(b, b.ports[j])
    ensures PortSettled(c, c.ports[j]) == PortSettled(b, b.ports[j])
  {
  }

  /** Replacing one port of a settled bridge by another with a settled record: what is left to
      ask is who is root port. */
  lemma OnePortSettled(b: Bridge, c: Bridge, i: nat)
    requires Settled(b) && |c.ports| == |b.ports| && i < |b.ports|
    requires c == b.(ports := b.ports[i := c.ports[i]])
    requires Enabled(c.ports[i]) ==> PortSettled(c, c.ports[i])
    ensures Settled(c) <==> RootSettled(c)
  {
    forall j | 0 <= j < |c.ports| && Enabled(c.ports[j]) ensures PortSettled(c, c.ports[j]) {
      if j != i {
        OthersKeepRoles(b, c, i, j);
      }
    }
  }

  /** A port that is no candidate afterwards was not missed unless it was the root port. */
  lemma CandidateLost(b: Bridge, c: Bridge, i: nat)
    requires RootSettled(b) && |c.ports| == |b.ports| && i < |b.ports|
    requires c == b.(ports := b.ports[i := c.ports[i]]) && !Candidate(c, c.ports[i])
    ensures RootSettled(c) <==> b.rootPort != Some(i)
  {
    forall j | 0 <= j < |b.ports| && j != i ensures Candidate(c, c.ports[j]) == Candidate(b, b.ports[j]) {
      OthersKeepRoles(b, c, i, j);
    }
  }

  /** A candidate that only changes its identifier keeps the root port exactly when the order of
      those tied with it is kept. */
  lemma CandidateRenumbered(b: Bridge, c: Bridge, i: nat, newId: nat)
    requires RootSettled(b) && |c.ports| == |b.ports| && i < |b.ports| && DistinctPortIds(c)
    requires c == SetPort(b, i, b.ports[i].(portId := newId))
    requires Candidate(c, c.ports[i]) == Candidate(b, b.ports[i])
    ensures RootSettled(c) <==> OrderKept(b, i, newId)
  {
    forall j | 0 <= j < |b.ports| ensures Candidate(c, c.ports[j]) == Candidate(b, b.ports[j]) {
      if j != i {
        OthersKeepRoles(b, c, i, j);
      }
    }
    forall j, k | 0 <= j < |b.ports| && 0 <= k < |b.ports| && j != k
      ensures (if Tied(b.ports[j], b.ports[k])
               then SupersedesRoot(c.ports[j], c.ports[k]) == (c.ports[k].portId < c.ports[j].portId)
               else SupersedesRoot(c.ports[j], c.ports[k]) == SupersedesRoot(b.ports[j], b.ports[k]))
    {
    }
  }

  lemma DisabledOrDesignated(b: Bridge, i: nat, priority: nat)
    requires Inv(b) && Settled(b) && i < |b.ports| && (!Enabled(b.ports[i]) || IsDesignated(b, b.ports[i]))
    ensures Settled(AfterTakeover(b, i, priority))
  {
    var c := AfterTakeover(b, i, priority);
    assert Enabled(b.ports[i]) ==> PortSettled(b, b.ports[i]);
    OnePortSettled(b, c, i);
    CandidateLost(b, c, i);
  }

  /** Getting an identifier below the one it hears, a port becomes designated. */
  lemma Undercuts(b: Bridge, i: nat, priority: nat)
    requires Inv(b) && Settled(b) && i < |b.ports| && Enabled(b.ports[i]) && !IsDesignated(b, b.ports[i])
    requires b.id == b.ports[i].des.bridge && NewPortId(b.ports[i], priority) < b.ports[i].des.port
    ensures Settled(AfterTakeover(b, i, priority)) <==> b.rootPort != Some(i)
  {
    var c := AfterTakeover(b, i, priority);
    OnePortSettled(b, c, i);
    CandidateLost(b, c, i);
  }

  /** Getting the very identifier it hears, a port counts as designated, with the record it
      happens to hold. */
  lemma Coincides(b: Bridge, i: nat, priority: nat)
    requires Inv(b) && Settled(b) && i < |b.ports| && Enabled(b.ports[i]) && !IsDesignated(b, b.ports[i])
    requires b.id == b.ports[i].des.bridge && NewPortId(b.ports[i], priority) == b.ports[i].des.port
    ensures Settled(AfterTakeover(b, i, priority))
            <==> b.rootPort != Some(i) && b.ports[i].des.cost == b.rootCost
  {
    var p, c := b.ports[i], AfterTakeover(b, i, priority);
    assert PortSettled(b, p);
    if p.des.cost == b.rootCost {
      OnePortSettled(b, c, i);
      CandidateLost(b, c, i);
    } else {
      assert !PortSettled(c, c.ports[i]);
    }
  }

  lemma KeepsItsLink(b: Bridge, i: nat, priority: nat)
    requires Inv(b) && Settled(b) && i < |b.ports| && Enabled(b.ports[i]) && !IsDesignated(b, b.ports[i])
    requires b.id != b.ports[i].des.bridge || NewPortId(b.ports[i], priority) > b.ports[i].des.port
    requires NewPortId(b.ports[i], priority) != b.ports[i].portId && priority < 256
    ensures Settled(AfterTakeover(b, i, priority)) <==> PriorityHarmless(b, i, priority)
  {
    var p, c := b.ports[i], AfterTakeover(b, i, priority);
    assert PortSettled(b, p) && PortSound(b, i);
    OnePortSettled(b, c, i);
    SoundPort(b, i, c.ports[i]);
    DistinctIdsOfSound(c);
    CandidateRenumbered(b, c, i, c.ports[i].portId);
  }

  /** A new port priority leaves a settled election settled exactly when it neither takes the
      root port's link nor breaks the order of ports tied on the first four keys. */
  lemma PrioritySettledIff(b: Bridge, i: nat, priority: nat)
    requires Inv(b) && Settled(b) && i < |b.ports| && priority < 256
    ensures Settled(SetPortPriority(b, i, priority)) <==> PriorityHarmless(b, i, priority)
  {
    var p, c, r := b.ports[i], AfterTakeover(b, i, priority), SetPortPriority(b, i, priority);
    SetPortPriorityKeeps(b, i, priority);
    if NewPortId(p, priority) != p.portId {
      TakeoverThenStates(b, i, priority);
      ElectionsAgree(c, r);
      if !Enabled(p) || IsDesignated(b, p) {
        DisabledOrDesignated(b, i, priority);
      } else if b.id == p.des.bridge && NewPortId(p, priority) <= p.des.port {
        if NewPortId(p, priority) < p.des.port {
          Undercuts(b, i, priority);
        } else {
          Coincides(b, i, priority);
        }
      } else {
        KeepsItsLink(b, i, priority);
      }
    }
  }

  lemma SetPriorityInSteps(b: Bridge, i: nat, priority: nat)
    requires i < |b.ports| && NewPortId(b.ports[i], priority) != b.ports[i].portId
    ensures var c1, c := Renumber(b, i, NewPortId(b.ports[i], priority)), AfterTakeover(b, i, priority);
            if b.id == c1.ports[i].des.bridge && c1.ports[i].portId < c1.ports[i].des.port
            then c == BecomeDesignated(c1, i) && SetPortPriority(b, i, priority) == SelectStates(c, 0)
            else c == c1 && SetPortPriority(b, i, priority) == c
  {
  }

  /** Selecting port states afterwards does not touch the election. */
  lemma TakeoverThenStates(b: Bridge, i: nat, priority: nat)
    requires Inv(b) && i < |b.ports| && priority < 256
    requires NewPortId(b.ports[i], priority) != b.ports[i].portId
    ensures SameElection(AfterTakeover(b, i, priority), SetPortPriority(b, i, priority))
  {
    var c1 := Renumber(b, i, NewPortId(b.ports[i], priority));
    SetPriorityInSteps(b, i, priority);
    RenumberIsSound(b, i, priority);
    DesignateIsSound(c1, i);
    SelectStatesKeeps(BecomeDesignated(c1, i));
  }

  // ----- every event, every run

  predicate NewIdHarmless(b: Bridge, id: nat) {
    id != b.id ==> RootPortSurvives(RenameAll(b, id))
  }

  /** What it takes for an event to leave a settled election settled: where it holds a new
      election, that the port elected survives designation. */
  predicate Gentle(b: Bridge, e: Event)
    requires |b.ports| == MAX_PORTS && RootPortInRange(b) && Legal(e)
  {
    match e
    case ConfigReceived(i, c, _, _) => Accepted(b, i, c) ==> RootPortSurvives(Record(b, i, c))
    case Ticked(elapsed) => TickHarmless(b, elapsed)
    case BridgeMacSet(mac) => NewIdHarmless(b, WithMac(b.id, mac))
    case BridgePrioritySet(priority) => NewIdHarmless(b, WithPriority(b.id, priority))
    case PortDisabled(i) => Enabled(b.ports[i]) ==> RootPortSurvives(ShutDown(b, i))
    case PortPrioritySet(i, priority) => PriorityHarmless(b, i, priority)
    case PathCostSet(i, cost) =>
      b.ports[i].pathCost != cost ==> RootPortSurvives(SetPort(b, i, b.ports[i].(pathCost := cost)))
    case _ => true
  }

  lemma ManagementSettledIff(b: Bridge, e: Event)
    requires Inv(b) && Settled(b) && Legal(e)
    requires !e.ConfigReceived? && !e.TcnReceived? && !e.Ticked? && !e.ChangedTaken?
    ensures Settled(Step(b, e)) <==> Gentle(b, e)
  {
    match e
    case BridgeMacSet(mac) =>
      if WithMac(b.id, mac) != b.id {
        BridgeIdSettledIff(b, WithMac(b.id, mac));
      }
    case BridgePrioritySet(priority) =>
      if WithPriority(b.id, priority) != b.id {
        BridgeIdSettledIff(b, WithPriority(b.id, priority));
      }
    case PortEnabled(i) => EnablePortKeeps(b, i);
    case PortDisabled(i) =>
      if Enabled(b.ports[i]) {
        DisableSettledIff(b, i);
      }
    case PortPrioritySet(i, priority) => PrioritySettledIff(b, i, priority);
    case PathCostSet(i, cost) =>
      if b.ports[i].pathCost != cost {
        PathCostSettledIff(b, i, cost);
      }
    case ChangeDetectionSet(i, on) => SetChangeDetectionKeeps(b, i, on);
    case HelloTimeRequested(ms) => UpdateTimesKeeps(b, b.(rqHelloTime := ms));
    case MaxAgeRequested(ms) => UpdateTimesKeeps(b, b.(rqMaxAge := ms));
    case ForwardDelayRequested(ms) => UpdateTimesKeeps(b, b.(rqForwardDelay := ms));
  }

  lemma StepSettledIff(b: Bridge, e: Event)
    requires Inv(b) && Settled(b) && Legal(e)
    ensures Settled(Step(b, e)) <==> Gentle(b, e)
  {
    match e
    case ConfigReceived(i, c, tcFlag, ackFlag) =>
      if Accepted(b, i, c) {
        ConfigSettledIff(b, i, c, tcFlag, ackFlag);
      } else {
        ReceiveConfigKeeps(b, i, c, tcFlag, ackFlag);
        ElectionsAgree(b, ReceiveConfig(b, i, c, tcFlag, ackFlag));
      }
    case TcnReceived(i) => ReceiveTcnKeeps(b, i);
    case Ticked(elapsed) => TickSettledIff(b, elapsed);
    case ChangedTaken => TakeChangedKeeps(b);
    case _ => ManagementSettledIff(b, e);
  }

  /** Each event is gentle to the state that the events before it have led to. */
  predicate GentleRun(id: nat, events: seq<Event>)
    requires id < TWO64 && AllLegal(events)
  {
    events == [] ||
    var init := events[..|events| - 1];
    GentleRun(id, init) && Gentle(Run(Create(id), init), events[|events| - 1])
  }

  /** The election is settled at the start and after each event. */
  predicate AlwaysSettled(id: nat, events: seq<Event>)
    requires id < TWO64 && AllLegal(events)
  {
    && Settled(Run(Create(id), events))
    && (events == [] || AlwaysSettled(id, events[..|events| - 1]))
  }

  /** The election stays settled over a run exactly when every event is gentle. */
  lemma {:induction false} RunSettledIff(id: nat, events: seq<Event>)
    requires id < TWO64 && AllLegal(events)
    ensures AlwaysSettled(id, events) <==> GentleRun(id, events)
  {
    if events == [] {
      CreateIsSound(id);
    } else {
      var init := events[..|events| - 1];
      RunSettledIff(id, init);
      EveryRunIsSound(id, init);
      if AlwaysSettled(id, init) {
        StepSettledIff(Run(Create(id), init), events[|events| - 1]);
      }
    }
  }

  /** With positive path costs and heard costs clear of the 32-bit limit, nothing but a port
      priority can unsettle an election. */
  predicate PlainRun(id: nat, events: seq<Event>)
    requires id < TWO64 && AllLegal(events)
  {
    events == [] ||
    var init, e := events[..|events| - 1], events[|events| - 1];
    && PlainRun(id, init)
    && (Plain(e) || (e.PortPrioritySet? && Gentle(Run(Create(id), init), e)))
  }

  lemma {:induction false} PlainRunsStaySettled(id: nat, events: seq<Event>)
    requires id < TWO64 && AllLegal(events) && PlainRun(id, events)
    ensures Elected(Run(Create(id), events)) && AlwaysSettled(id, events)
  {
    if events == [] {
      CreateIsSound(id);
    } else {
      var init, e := events[..|events| - 1], events[|events| - 1];
      var b := Run(Create(id), init);
      PlainRunsStaySettled(id, init);
      EveryRunIsSound(id, init);
      StepKeeps(b, e);
      if e.PortPrioritySet? {
        StepSettledIff(b, e);
        SetPortPriorityKeeps(b, e.port, e.priority);
      }
    }
  }

  // ----- losing ports

  /** The cost sums of all candidates are exact, signed or not. */
  predicate Clear(b: Bridge) {
    forall i :: 0 <= i < |b.ports| && Candidate(b, b.ports[i]) ==>
      b.ports[i].des.cost + b.ports[i].pathCost < TWO31
  }

  lemma ClearFrame(b: Bridge, c: Bridge)
    requires SameElection(b, c) && Clear(b)
    ensures Clear(c)
  {
    forall i | 0 <= i < |c.ports| && Candidate(c, c.ports[i])
      ensures c.ports[i].des.cost + c.ports[i].pathCost < TWO31
    {
      assert SameRecord(b.ports[i], c.ports[i]);
    }
  }

  /** The same bridge, except that port `i` is no candidate any more. */
  predicate Loses(b: Bridge, c: Bridge, i: nat) {
    && c.id == b.id && |c.ports| == |b.ports| && i < |b.ports| && !Candidate(c, c.ports[i])
    && forall j :: 0 <= j < |b.ports| && j != i ==> c.ports[j] == b.ports[j]
  }

  /** The port elected in place of a lost one survives even if its link costs nothing: the
      record of a settled port is never better than what the root port offered. */
  lemma SurvivesLoss(b: Bridge, c: Bridge, i: nat)
    requires Settled(b) && Clear(b) && Loses(b, c, i)
    ensures RootPortSurvives(c)
  {
    var r := Best(c, |c.ports|);
    if r.Some? {
      var p := b.ports[r.value];
      assert r.value != i && Candidate(b, p) && PortSettled(b, p);
      assert b.rootPort.Some? && (b.rootPort != r ==> SupersedesRoot(p, b.ports[b.rootPort.value]));
      assert Candidate(b, b.ports[b.rootPort.value]);
    }
  }

  lemma ClearAfterLoss(b: Bridge, c: Bridge, i: nat)
    requires Clear(b) && Loses(b, c, i)
    ensures Clear(UpdateConfiguration(c))
  {
    var u := UpdateConfiguration(c);
    forall j | 0 <= j < |u.ports| && Candidate(u, u.ports[j])
      ensures u.ports[j].des.cost + u.ports[j].pathCost < TWO31
    {
      UpdateShape(c, j);
      assert Candidate(c, c.ports[j]) && Candidate(b, b.ports[j]);
    }
  }

  lemma LossKeepsClear(b: Bridge, c: Bridge, i: nat, wasRoot: bool)
    requires Settled(b) && Clear(b) && Loses(b, c, i) && Sound(c)
    ensures var r := AnnounceIfNewRoot(Reconfigure(c), wasRoot); Settled(r) && Clear(r)
  {
    SurvivesLoss(b, c, i);
    AnnouncedSettledIff(c, wasRoot);
    ClearAfterLoss(b, c, i);
    SoundReconfigure(c);
    SoundAnnounce(Reconfigure(c), wasRoot);
    ClearFrame(UpdateConfiguration(c), Reconfigure(c));
    ClearFrame(Reconfigure(c), AnnounceIfNewRoot(Reconfigure(c), wasRoot));
  }

  /** Disabling a port never unsettles an election whose cost sums are clear of 2^31. */
  lemma DisableKeepsClear(b: Bridge, i: nat)
    requires Inv(b) && Settled(b) && Clear(b) && i < |b.ports|
    ensures Settled(DisablePort(b, i)) && Clear(DisablePort(b, i))
  {
    if Enabled(b.ports[i]) {
      ShutDownIsSound(b, i);
      LossKeepsClear(b, ShutDown(b, i), i, IsRoot(b));
    }
  }

  lemma AgeTickKeepsClear(b: Bridge, i: nat, elapsed: nat)
    requires Inv(b) && Settled(b) && Clear(b) && i < |b.ports|
    ensures Settled(AgeTick(b, i, elapsed)) && Clear(AgeTick(b, i, elapsed))
  {
    AgeTickSettledIff(b, i, elapsed);
    if AgesOut(b, i, elapsed) {
      ResignedIsSound(b, i, elapsed);
      LossKeepsClear(b, Resigned(b, i, elapsed), i, IsRoot(b));
    } else {
      ClearFrame(b, AgeTick(b, i, elapsed));
    }
  }

  lemma {:induction false} AgeTicksKeepClear(b: Bridge, from: nat, elapsed: nat)
    requires Inv(b) && Settled(b) && Clear(b)
    ensures Settled(AgeTicks(b, from, elapsed)) && Clear(AgeTicks(b, from, elapsed))
    decreases |b.ports| - from
  {
    if from < |b.ports| {
      AgeTickKeeps(b, from, elapsed);
      AgeTickKeepsClear(b, from, elapsed);
      AgeTicksKeepClear(AgeTick(b, from, elapsed), from + 1, elapsed);
    }
  }

  /** Nor does the passing of time, however many records it makes stale. */
  lemma TickKeepsClear(b: Bridge, elapsed: nat)
    requires Inv(b) && Settled(b) && Clear(b)
    ensures Settled(Tick(b, elapsed)) && Clear(Tick(b, elapsed))
  {
    if elapsed > 0 {
      var b1 := BeforeAging(b, elapsed);
      var b2 := AgeTicks(b1, 0, elapsed);
      BridgeTicksKeep(b, elapsed);
      ClearFrame(b, b1);
      AgeTicksKeep(b1, 0, elapsed);
      AgeTicksKeepClear(b1, 0, elapsed);
      PortTicksKeep(b2, 0, elapsed);
      ElectionsAgree(b2, Tick(b, elapsed));
      ClearFrame(b2, Tick(b, elapsed));
    }
  }
}
