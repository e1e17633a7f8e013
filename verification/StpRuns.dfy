/**
  What every run of a bridge keeps: how its trace constrains each port, which ports may
  carry traffic, and when the election is settled.
*/
module StpRuns {
  import opened Common
  import opened StpModel
  import opened StpElection

  // ----- reading a trace

  /** What a trace says about one port: ticks credited to its hold timer since it last sent
      a configuration, its state, and whether the trace has been lawful for it. */
  datatype History = History(credit: Option<nat>, state: PortState, lawful: bool)

  /** The port-state moves of clause 8.4: forwarding is entered only from learning, and
      learning only from listening. */
  predicate Allowed(before: PortState, after: PortState) {
    match after
    case Disabled => before != Disabled
    case Blocking => before != Blocking
    case Listening => before == Blocking
    case Learning => before == Listening
    case Forwarding => before == Learning
  }

  function Observe(h: History, o: Obs, p: nat): History {
    match o
    case SentConfig(q, _) =>
      if q != p then h
      else h.(credit := Some(0),
              lawful := h.lawful && (h.credit.Some? ==> h.credit.value >= HOLD_TICKS))
    case HoldCredit(q, ticks) =>
      if q != p || h.credit.None? then h else h.(credit := Some(h.credit.value + ticks))
    case Initialized(q) => if q != p then h else h.(credit := None)
    case Changed(q, before, after) =>
      if q != p then h
      else h.(state := after,
              lawful := h.lawful && before == h.state && Allowed(before, after))
    case SentTcn(_) => h
  }

  function HistoryOf(trace: seq<Obs>, p: nat): History {
    if trace == [] then History(None, Disabled, true)
    else Observe(HistoryOf(trace[..|trace| - 1], p), trace[|trace| - 1], p)
  }

  lemma HistoryAppend(trace: seq<Obs>, o: Obs)
    ensures forall p: nat :: HistoryOf(trace + [o], p) == Observe(HistoryOf(trace, p), o, p)
  {
    assert (trace + [o])[..|trace|] == trace;
  }

  /** Ticks credited to port `p`'s hold timer strictly between positions `i` and `j`. */
  function Credited(trace: seq<Obs>, p: nat, i: nat, j: nat): nat
    requires i < j <= |trace|
  {
    if j == i + 1 then 0
    else
      Credited(trace, p, i, j - 1)
      + (if trace[j - 1].HoldCredit? && trace[j - 1].port == p then trace[j - 1].ticks else 0)
  }

  predicate Sends(trace: seq<Obs>, p: nat, i: nat)
    requires i < |trace|
  {
    trace[i].SentConfig? && trace[i].port == p
  }

  // ----- what every procedure keeps

  predicate Timed(p: Port) {
    p.forwardDelay.active <==> p.state.Listening? || p.state.Learning?
  }

  predicate Tracked(p: Port, h: History) {
    && h.lawful && h.state == p.state
    && (h.credit.Some? ==>
          if p.hold.active then p.hold.value == h.credit.value
          else h.credit.value >= HOLD_TICKS)
  }

  predicate WellNumbered(p: Port, i: nat) {
    && p.portId % 256 == i + 1 && p.portId < TWO16
    && p.pathCost < TWO16 && p.des.cost < TWO32
  }

  predicate PortSound(b: Bridge, i: nat)
    requires i < |b.ports|
  {
    && Timed(b.ports[i])
    && Tracked(b.ports[i], HistoryOf(b.trace, i))
    && WellNumbered(b.ports[i], i)
    && (b.ports[i].changed ==> b.firstChanged <= i)
  }

  predicate Sound(b: Bridge) {
    && |b.ports| == MAX_PORTS && RootPortInRange(b) && b.rootCost < TWO32
    && forall i :: 0 <= i < |b.ports| ==> PortSound(b, i)
  }

  predicate Active(p: Port) {
    p.state.Listening? || p.state.Learning? || p.state.Forwarding?
  }

  /** A port that is listening, learning or forwarding is the root port or designated. */
  predicate HasRole(b: Bridge, i: nat)
    requires i < |b.ports|
  {
    Active(b.ports[i]) ==> b.rootPort == Some(i) || IsDesignated(b, b.ports[i])
  }

  predicate RolesHeld(b: Bridge) {
    && (forall i :: 0 <= i < |b.ports| ==> HasRole(b, i))
    && (b.rootPort.Some? ==> b.rootPort.value < |b.ports| && Enabled(b.ports[b.rootPort.value]))
  }

  /** The two states agree on everything the election reads or writes. */
  predicate SameElection(b: Bridge, c: Bridge) {
    && b.id == c.id && b.root == c.root && b.rootCost == c.rootCost && b.rootPort == c.rootPort
    && |b.ports| == |c.ports|
    && forall i :: 0 <= i < |b.ports| ==> SameRecord(b.ports[i], c.ports[i])
  }

  predicate SameRecord(p: Port, q: Port) {
    p.portId == q.portId && p.pathCost == q.pathCost && p.des == q.des && Enabled(p) == Enabled(q)
  }

  lemma SoundPort(b: Bridge, i: nat, p: Port)
    requires Sound(b) && i < |b.ports|
    requires Timed(p) && Tracked(p, HistoryOf(b.trace, i)) && WellNumbered(p, i)
    requires p.changed ==> b.ports[i].changed
    ensures Sound(SetPort(b, i, p))
  {
    var c := SetPort(b, i, p);
    forall j | 0 <= j < |c.ports| ensures PortSound(c, j) {
      assert PortSound(b, j);
    }
  }

  /** Replacing port `i` while one observation about it is recorded. */
  lemma SoundStep(b: Bridge, i: nat, p: Port, first: nat, o: Obs)
    requires Sound(b) && i < |b.ports|
    requires !o.SentTcn? && o.port == i
    requires Timed(p) && Tracked(p, Observe(HistoryOf(b.trace, i), o, i)) && WellNumbered(p, i)
    requires first <= b.firstChanged && (p.changed ==> first <= i)
    ensures Sound(SetPort(b, i, p).(firstChanged := first, trace := b.trace + [o]))
  {
    var c := SetPort(b, i, p).(firstChanged := first, trace := b.trace + [o]);
    HistoryAppend(b.trace, o);
    forall j | 0 <= j < |c.ports| ensures PortSound(c, j) {
      assert PortSound(b, j);
    }
  }

  lemma SoundTcn(b: Bridge)
    requires Sound(b)
    ensures Sound(TransmitTcn(b)) && SameElection(b, TransmitTcn(b))
    ensures TransmitTcn(b).ports == b.ports
  {
    if b.rootPort.Some? {
      HistoryAppend(b.trace, SentTcn(b.rootPort.value));
      forall j | 0 <= j < |b.ports| ensures PortSound(TransmitTcn(b), j) {
        assert PortSound(b, j);
      }
    }
  }

  /** Fields outside the ports and the trace play no part in soundness. */
  lemma SoundElsewhere(b: Bridge, c: Bridge)
    requires Sound(b) && c.ports == b.ports && c.trace == b.trace
    requires c.firstChanged == b.firstChanged && c.rootPort == b.rootPort && c.rootCost < TWO32
    ensures Sound(c)
  {
    forall j | 0 <= j < |c.ports| ensures PortSound(c, j) {
      assert PortSound(b, j);
    }
  }

  lemma SoundDetect(b: Bridge)
    requires Sound(b)
    ensures Sound(DetectTopologyChange(b)) && SameElection(b, DetectTopologyChange(b))
    ensures DetectTopologyChange(b).ports == b.ports
  {
    SoundTcn(b);
    if IsRoot(b) {
      SoundElsewhere(b, DetectTopologyChange(b));
    } else if !b.tcDetected {
      SoundElsewhere(TransmitTcn(b), DetectTopologyChange(b));
    }
  }

  lemma TransmitKeepsElection(b: Bridge, i: nat)
    requires RootPortInRange(b) && i < |b.ports|
    ensures SameElection(b, TransmitConfig(b, i))
    ensures RolesHeld(b) ==> RolesHeld(TransmitConfig(b, i))
  {
    RolesFrame(b, TransmitConfig(b, i));
  }

  lemma SoundTransmit(b: Bridge, i: nat)
    requires Sound(b) && i < |b.ports|
    ensures Sound(TransmitConfig(b, i))
  {
    var p := b.ports[i];
    assert PortSound(b, i);
    if !IsRoot(b) && b.rootPort.None? {
    } else if p.hold.active {
      SoundPort(b, i, p.(configPending := true));
    } else if AgeToSend(b) < b.maxAge {
      SoundStep(b, i, p.(tcAck := false, configPending := false, hold := Start(0)),
                b.firstChanged, SentConfig(i, ConfigToSend(b, p)));
    }
  }

  /** Roles depend only on port states and the election. */
  lemma RolesFrame(b: Bridge, c: Bridge)
    requires SameElection(b, c)
    requires forall i :: 0 <= i < |b.ports| ==> (Active(c.ports[i]) ==> Active(b.ports[i]))
    ensures RolesHeld(b) ==> RolesHeld(c)
  {
    if RolesHeld(b) {
      forall i | 0 <= i < |c.ports| ensures HasRole(c, i) {
        assert HasRole(b, i);
        assert SameRecord(b.ports[i], c.ports[i]);
      }
      if b.rootPort.Some? {
        assert SameRecord(b.ports[b.rootPort.value], c.ports[b.rootPort.value]);
      }
    }
  }

  lemma SameElectionTrans(a: Bridge, b: Bridge, c: Bridge)
    requires SameElection(a, b) && SameElection(b, c)
    ensures SameElection(a, c)
  {
    forall i | 0 <= i < |a.ports| ensures SameRecord(a.ports[i], c.ports[i]) {
      assert SameRecord(a.ports[i], b.ports[i]) && SameRecord(b.ports[i], c.ports[i]);
    }
  }

  lemma {:induction false} SoundGenerate(b: Bridge, from: nat)
    requires Sound(b)
    ensures Sound(GenerateConfigs(b, from)) && SameElection(b, GenerateConfigs(b, from))
    ensures RolesHeld(b) ==> RolesHeld(GenerateConfigs(b, from))
    decreases |b.ports| - from
  {
    if from < |b.ports| {
      if Enabled(b.ports[from]) && IsDesignated(b, b.ports[from]) {
        SoundTransmit(b, from);
        TransmitKeepsElection(b, from);
        SoundGenerate(TransmitConfig(b, from), from + 1);
        SameElectionTrans(b, TransmitConfig(b, from), GenerateConfigs(b, from));
      } else {
        SoundGenerate(b, from + 1);
      }
    }
  }

  lemma MoveOnePort(b: Bridge, i: nat, st: PortState, delay: Timer)
    requires i < |b.ports| && st != b.ports[i].state
    ensures var p := b.ports[i];
            Move(b, i, st, delay)
            == SetPort(b, i, p.(state := st, changed := true, forwardDelay := delay))
                 .(firstChanged := if !p.changed && i < b.firstChanged then i else b.firstChanged,
                   trace := b.trace + [Changed(i, p.state, st)])
    ensures Enabled(b.ports[i]) && st != Disabled ==> SameElection(b, Move(b, i, st, delay))
  {
    var p := b.ports[i];
    var q := p.(state := st, changed := true, forwardDelay := delay);
    assert b.ports[i := p.(state := st, changed := true)][i := q] == b.ports[i := q];
  }

  lemma SoundMove(b: Bridge, i: nat, st: PortState, delay: Timer)
    requires Sound(b) && i < |b.ports|
    requires st != b.ports[i].state && Allowed(b.ports[i].state, st)
    requires Enabled(b.ports[i]) && st != Disabled
    requires Timed(b.ports[i].(state := st, forwardDelay := delay))
    ensures Sound(Move(b, i, st, delay)) && SameElection(b, Move(b, i, st, delay))
    ensures forall j :: 0 <= j < |b.ports| && j != i ==> Move(b, i, st, delay).ports[j] == b.ports[j]
    ensures Move(b, i, st, delay).ports[i].state == st
  {
    var p := b.ports[i];
    assert PortSound(b, i);
    var q := p.(state := st, changed := true, forwardDelay := delay);
    var first := if !p.changed && i < b.firstChanged then i else b.firstChanged;
    var o := Changed(i, p.state, st);
    SoundStep(b, i, q, first, o);
    MoveOnePort(b, i, st, delay);
  }

  lemma SoundMakeBlocking(b: Bridge, i: nat)
    requires Sound(b) && i < |b.ports|
    ensures Sound(MakeBlocking(b, i)) && SameElection(b, MakeBlocking(b, i))
    ensures !Active(MakeBlocking(b, i).ports[i])
    ensures forall j :: 0 <= j < |b.ports| && j != i ==> MakeBlocking(b, i).ports[j] == b.ports[j]
  {
    var p := b.ports[i];
    if Active(p) {
      SoundDetect(b);
      var b1 := if (p.state.Forwarding? || p.state.Learning?) && p.detectChanges
                then DetectTopologyChange(b) else b;
      SoundMove(b1, i, Blocking, Stop(p.forwardDelay));
      SameElectionTrans(b, b1, MakeBlocking(b, i));
    }
  }

  lemma SoundMakeForwarding(b: Bridge, i: nat)
    requires Sound(b) && i < |b.ports|
    ensures Sound(MakeForwarding(b, i)) && SameElection(b, MakeForwarding(b, i))
    ensures forall j :: 0 <= j < |b.ports| && j != i ==> MakeForwarding(b, i).ports[j] == b.ports[j]
  {
    if b.ports[i].state.Blocking? {
      SoundMove(b, i, Listening, Start(0));
    }
  }

  lemma SoundSelectState(b: Bridge, i: nat)
    requires Sound(b) && i < |b.ports|
    ensures Sound(SelectState(b, i)) && SameElection(b, SelectState(b, i))
    ensures HasRole(SelectState(b, i), i)
    ensures forall j :: 0 <= j < |b.ports| && j != i ==> SelectState(b, i).ports[j] == b.ports[j]
  {
    var p := b.ports[i];
    assert PortSound(b, i);
    if Enabled(p) {
      var q := p.(configPending := false, tcAck := false);
      var r := p.(messageAge := Stop(p.messageAge));
      SoundPort(b, i, q);
      SoundPort(b, i, r);
      if b.rootPort == Some(i) {
        SoundMakeForwarding(SetPort(b, i, q), i);
      } else if IsDesignated(b, p) {
        SoundMakeForwarding(SetPort(b, i, r), i);
      } else {
        SoundMakeBlocking(SetPort(b, i, q), i);
      }
    }
  }

  lemma {:induction false} SoundSelectStates(b: Bridge, from: nat)
    requires Sound(b)
    ensures Sound(SelectStates(b, from)) && SameElection(b, SelectStates(b, from))
    ensures forall j :: from <= j < |b.ports| ==> HasRole(SelectStates(b, from), j)
    ensures forall j :: 0 <= j < |b.ports| && j < from ==> SelectStates(b, from).ports[j] == b.ports[j]
    decreases |b.ports| - from
  {
    if from < |b.ports| {
      var c := SelectState(b, from);
      SoundSelectState(b, from);
      SoundSelectStates(c, from + 1);
      SameElectionTrans(b, c, SelectStates(b, from));
      assert SelectStates(b, from).ports[from] == c.ports[from];
      assert HasRole(c, from);
    }
  }

  // ----- reconfiguration

  lemma DistinctIdsOfSound(b: Bridge)
    requires Sound(b)
    ensures DistinctPortIds(b) && CostsInRange(b)
  {
    forall i, j | 0 <= i < j < |b.ports| ensures b.ports[i].portId != b.ports[j].portId {
      assert PortSound(b, i) && PortSound(b, j);
    }
    forall i | 0 <= i < |b.ports|
      ensures b.ports[i].des.cost < TWO32 && b.ports[i].pathCost < TWO16
    {
      assert PortSound(b, i);
    }
  }

  lemma SoundUpdate(b: Bridge)
    requires Sound(b)
    ensures Sound(UpdateConfiguration(b))
    ensures var r := UpdateConfiguration(b).rootPort;
            r.Some? ==> Enabled(UpdateConfiguration(b).ports[r.value])
  {
    var u := UpdateConfiguration(b);
    forall i | 0 <= i < |u.ports| ensures PortSound(u, i) {
      UpdateShape(b, i);
      assert PortSound(b, i);
    }
  }

  lemma SoundReconfigure(b: Bridge)
    requires Sound(b)
    ensures Sound(Reconfigure(b)) && RolesHeld(Reconfigure(b))
    ensures SameElection(UpdateConfiguration(b), Reconfigure(b))
  {
    var u, r := UpdateConfiguration(b), Reconfigure(b);
    SoundUpdate(b);
    SoundSelectStates(u, 0);
    forall j | 0 <= j < |r.ports| ensures HasRole(r, j) {}
    if r.rootPort.Some? {
      assert SameRecord(u.ports[r.rootPort.value], r.ports[r.rootPort.value]);
    }
  }

  lemma SoundBecomeRoot(b: Bridge)
    requires Sound(b)
    ensures Sound(BecomeRootBridge(b)) && SameElection(b, BecomeRootBridge(b))
    ensures RolesHeld(b) ==> RolesHeld(BecomeRootBridge(b))
  {
    var b0 := UseOwnTimes(b);
    var b1 := DetectTopologyChange(b0);
    var b2 := b1.(tcnTimer := Stop(b1.tcnTimer));
    SoundElsewhere(b, b0);
    SoundDetect(b0);
    SoundElsewhere(b1, b2);
    RolesFrame(b, b2);
    SoundGenerate(b2, 0);
    SoundElsewhere(GenerateConfigs(b2, 0), BecomeRootBridge(b));
    SameElectionTrans(b, b2, BecomeRootBridge(b));
    RolesFrame(GenerateConfigs(b2, 0), BecomeRootBridge(b));
  }

  lemma SoundAnnounce(b: Bridge, wasRoot: bool)
    requires Sound(b) && RolesHeld(b)
    ensures Sound(AnnounceIfNewRoot(b, wasRoot)) && RolesHeld(AnnounceIfNewRoot(b, wasRoot))
    ensures SameElection(b, AnnounceIfNewRoot(b, wasRoot))
  {
    SoundBecomeRoot(b);
  }

  // ----- the election over a run

  /** Path costs are positive and no recorded cost can wrap when a path cost is added. */
  predicate Fit(b: Bridge) {
    forall i :: 0 <= i < |b.ports| ==> PortFit(b, b.ports[i])
  }

  predicate PortFit(b: Bridge, p: Port) {
    && p.pathCost > 0
    && (Enabled(p) && !IsDesignated(b, p) ==> p.des.cost + TWO16 <= TWO32)
  }

  predicate Elected(b: Bridge) {
    Settled(b) && Fit(b)
  }

  lemma ElectionFrame(b: Bridge, c: Bridge)
    requires SameElection(b, c)
    ensures Fit(b) ==> Fit(c)
    ensures Settled(b) ==> Settled(c)
  {
    forall i | 0 <= i < |b.ports|
      ensures SameRecord(b.ports[i], c.ports[i])
      ensures Candidate(b, b.ports[i]) == Candidate(c, c.ports[i])
      ensures PortFit(b, b.ports[i]) == PortFit(c, c.ports[i])
      ensures PortSettled(b, b.ports[i]) == PortSettled(c, c.ports[i])
    {
      assert SameRecord(b.ports[i], c.ports[i]);
    }
    if RootSettled(b) && b.rootPort.Some? {
      var r := b.rootPort.value;
      forall i | 0 <= i < |c.ports| && i != r && Candidate(c, c.ports[i])
        ensures SupersedesRoot(c.ports[i], c.ports[r])
      {
        assert SameRecord(b.ports[i], c.ports[i]) && SameRecord(b.ports[r], c.ports[r]);
        assert SupersedesRoot(b.ports[i], b.ports[r]);
      }
    }
  }

  lemma FitUpdate(b: Bridge)
    requires Sound(b) && Fit(b)
    ensures Elected(UpdateConfiguration(b))
  {
    DistinctIdsOfSound(b);
    UpdateSettles(b);
    var u := UpdateConfiguration(b);
    var r := Best(b, |b.ports|);
    if r.Some? {
      assert PortFit(b, b.ports[r.value]) && PortSound(b, r.value);
    }
    forall i | 0 <= i < |u.ports| ensures PortFit(u, u.ports[i]) {
      UpdateShape(b, i);
      assert PortFit(b, b.ports[i]);
    }
  }

  lemma FitReconfigure(b: Bridge)
    requires Sound(b) && Fit(b)
    ensures Elected(Reconfigure(b))
  {
    FitUpdate(b);
    SoundReconfigure(b);
    ElectionFrame(UpdateConfiguration(b), Reconfigure(b));
  }

  // ----- what every event keeps

  predicate Inv(b: Bridge) {
    Sound(b) && RolesHeld(b)
  }

  /** How an event may treat the election: `r` keeps it settled and fit if it was. */
  predicate KeepsElection(b: Bridge, r: Bridge) {
    (Fit(b) ==> Fit(r)) && (Elected(b) ==> Elected(r))
  }

  /** The same, whatever the costs: a settled election is settled afterwards. */
  predicate KeepsSettled(b: Bridge, r: Bridge) {
    (Fit(b) ==> Fit(r)) && (Settled(b) ==> Settled(r))
  }

  lemma SameKeeps(b: Bridge, r: Bridge)
    requires SameElection(b, r)
    ensures KeepsSettled(b, r)
  {
    ElectionFrame(b, r);
  }

  /** Changing a bridge's own variables, apart from the election. */
  lemma InvElsewhere(b: Bridge, c: Bridge)
    requires Inv(b) && SameElection(b, c)
    requires c.ports == b.ports && c.trace == b.trace && c.firstChanged == b.firstChanged
    ensures Inv(c) && KeepsSettled(b, c)
  {
    SoundElsewhere(b, c);
    RolesFrame(b, c);
    SameKeeps(b, c);
  }

  lemma RecordIsSound(b: Bridge, i: nat, c: Config)
    requires Sound(b) && i < |b.ports| && c.vec.cost < TWO32
    ensures Sound(Record(b, i, c))
    ensures Fit(b) && c.vec.cost + TWO16 <= TWO32 ==> Fit(Record(b, i, c))
  {
    assert PortSound(b, i);
    SoundPort(b, i, b.ports[i].(des := c.vec, messageAge := Start(c.messageAge)));
    if Fit(b) && c.vec.cost + TWO16 <= TWO32 {
      forall j | 0 <= j < |b.ports| ensures PortFit(Record(b, i, c), Record(b, i, c).ports[j]) {
        assert PortFit(b, b.ports[j]);
      }
    }
  }

  lemma LoseRootKeeps(b: Bridge)
    requires Inv(b)
    ensures Inv(LoseRoot(b)) && SameElection(b, LoseRoot(b))
  {
    var b1 := b.(helloTimer := Stop(b.helloTimer));
    InvElsewhere(b, b1);
    if b1.tcDetected {
      var b2 := b1.(tcTimer := Stop(b1.tcTimer));
      InvElsewhere(b1, b2);
      SoundTcn(b2);
      RolesFrame(b2, TransmitTcn(b2));
      InvElsewhere(TransmitTcn(b2), LoseRoot(b));
    }
  }

  lemma AcceptTimesKeeps(b: Bridge, c: Config, tcFlag: bool, ackFlag: bool)
    requires Inv(b)
    ensures Inv(AcceptTimes(b, c, tcFlag, ackFlag))
    ensures SameElection(b, AcceptTimes(b, c, tcFlag, ackFlag))
  {
    var b0 := b.(maxAge := c.maxAge, helloTime := c.helloTime,
                 forwardDelay := c.forwardDelay, tc := tcFlag);
    InvElsewhere(b, b0);
    SoundGenerate(b0, 0);
    var b1 := GenerateConfigs(b0, 0);
    InvElsewhere(b1, AcceptTimes(b, c, tcFlag, ackFlag));
    SameElectionTrans(b, b1, AcceptTimes(b, c, tcFlag, ackFlag));
  }

  /** A received configuration is accepted when it is fresh and beats the port's record. */
  predicate Accepted(b: Bridge, i: nat, c: Config)
    requires i < |b.ports|
  {
    && c.messageAge < c.maxAge && Enabled(b.ports[i])
    && SupersedesPortInfo(b.id, b.ports[i], c.vec)
  }

  lemma AfterAcceptanceKeeps(b: Bridge, wasRoot: bool, c: Config, tcFlag: bool, ackFlag: bool)
    requires Inv(b)
    ensures var b2 := if !IsRoot(b) && wasRoot then LoseRoot(b) else b;
            var b3 := AcceptTimes(b2, c, tcFlag, ackFlag);
            Inv(b2) && SameElection(b, b2) && Inv(b3) && SameElection(b, b3)
  {
    LoseRootKeeps(b);
    var b2 := if !IsRoot(b) && wasRoot then LoseRoot(b) else b;
    AcceptTimesKeeps(b2, c, tcFlag, ackFlag);
    SameElectionTrans(b, b2, AcceptTimes(b2, c, tcFlag, ackFlag));
  }

  lemma ReceiveConfigKeeps(b: Bridge, i: nat, c: Config, tcFlag: bool, ackFlag: bool)
    requires Inv(b) && i < |b.ports| && c.vec.cost < TWO32
    ensures Inv(ReceiveConfig(b, i, c, tcFlag, ackFlag))
    ensures !Accepted(b, i, c) ==> SameElection(b, ReceiveConfig(b, i, c, tcFlag, ackFlag))
    ensures Accepted(b, i, c) ==>
              SameElection(UpdateConfiguration(Record(b, i, c)),
                           ReceiveConfig(b, i, c, tcFlag, ackFlag))
  {
    if Accepted(b, i, c) {
      RecordIsSound(b, i, c);
      var b1 := Reconfigure(Record(b, i, c));
      SoundReconfigure(Record(b, i, c));
      AfterAcceptanceKeeps(b1, IsRoot(b), c, tcFlag, ackFlag);
      var b2 := if !IsRoot(b1) && IsRoot(b) then LoseRoot(b1) else b1;
      var r := if b2.rootPort == Some(i) then AcceptTimes(b2, c, tcFlag, ackFlag) else b2;
      SameElectionTrans(UpdateConfiguration(Record(b, i, c)), b1, r);
    } else {
      SoundTransmit(b, i);
      TransmitKeepsElection(b, i);
    }
  }

  lemma ReceiveConfigElects(b: Bridge, i: nat, c: Config, tcFlag: bool, ackFlag: bool)
    requires Inv(b) && i < |b.ports| && c.vec.cost + TWO16 <= TWO32
    ensures var r := ReceiveConfig(b, i, c, tcFlag, ackFlag);
            KeepsElection(b, r) && (Fit(b) && Accepted(b, i, c) ==> Elected(r))
  {
    var r := ReceiveConfig(b, i, c, tcFlag, ackFlag);
    ReceiveConfigKeeps(b, i, c, tcFlag, ackFlag);
    if !Accepted(b, i, c) {
      SameKeeps(b, r);
    } else if Fit(b) {
      RecordIsSound(b, i, c);
      FitUpdate(Record(b, i, c));
      ElectionFrame(UpdateConfiguration(Record(b, i, c)), r);
    }
  }

  lemma ReceiveTcnKeeps(b: Bridge, i: nat)
    requires Inv(b) && i < |b.ports|
    ensures Inv(ReceiveTcn(b, i)) && KeepsSettled(b, ReceiveTcn(b, i))
  {
    SoundDetect(b);
    var b1 := DetectTopologyChange(b);
    assert PortSound(b1, i);
    var b2 := SetPort(b1, i, b1.ports[i].(tcAck := true));
    SoundPort(b1, i, b1.ports[i].(tcAck := true));
    RolesFrame(b, b2);
    SoundTransmit(b2, i);
    TransmitKeepsElection(b2, i);
    SameElectionTrans(b, b2, TransmitConfig(b2, i));
    SameKeeps(b, TransmitConfig(b2, i));
    SameKeeps(b, b);
  }

  lemma RenameIsSound(b: Bridge, id: nat)
    requires Sound(b)
    ensures Sound(RenameAll(b, id)) && (Fit(b) ==> Fit(RenameAll(b, id)))
  {
    var c := RenameAll(b, id);
    forall i | 0 <= i < |c.ports| ensures PortSound(c, i) {
      assert PortSound(b, i);
    }
    if Fit(b) {
      forall i | 0 <= i < |c.ports| ensures PortFit(c, c.ports[i]) {
        assert PortFit(b, b.ports[i]);
      }
    }
  }

  lemma ChangeBridgeIdKeeps(b: Bridge, id: nat)
    requires Inv(b)
    ensures Inv(ChangeBridgeId(b, id)) && KeepsElection(b, ChangeBridgeId(b, id))
  {
    if id != b.id {
      var c := RenameAll(b, id);
      RenameIsSound(b, id);
      SoundReconfigure(c);
      SoundAnnounce(Reconfigure(c), IsRoot(b));
      if Fit(b) {
        FitReconfigure(c);
        ElectionFrame(Reconfigure(c), ChangeBridgeId(b, id));
      }
    }
  }

  lemma DesignateIsSound(b: Bridge, i: nat)
    requires Sound(b) && i < |b.ports|
    ensures Sound(BecomeDesignated(b, i)) && KeepsFit(b, BecomeDesignated(b, i))
  {
    assert PortSound(b, i);
    SoundPort(b, i, b.ports[i].(des := OwnVector(b, b.ports[i])));
    if Fit(b) {
      forall j | 0 <= j < |b.ports|
        ensures PortFit(BecomeDesignated(b, i), BecomeDesignated(b, i).ports[j])
      {
        assert PortFit(b, b.ports[j]);
      }
    }
  }

  predicate KeepsFit(b: Bridge, r: Bridge) {
    Fit(b) ==> Fit(r)
  }

  lemma ShutDownIsSound(b: Bridge, i: nat)
    requires Sound(b) && i < |b.ports| && Enabled(b.ports[i])
    ensures Sound(ShutDown(b, i)) && KeepsFit(b, ShutDown(b, i))
  {
    var b0 := BecomeDesignated(b, i);
    DesignateIsSound(b, i);
    assert PortSound(b0, i);
    var b1 := SetState(b0, i, Disabled);
    var p := b1.ports[i];
    var q := p.(tcAck := false, configPending := false,
                messageAge := Stop(p.messageAge), forwardDelay := Stop(p.forwardDelay));
    SoundStep(b0, i, q, b1.firstChanged, Changed(i, b0.ports[i].state, Disabled));
    assert b0.ports[i := p][i := q] == b0.ports[i := q];
    if Fit(b) {
      forall j | 0 <= j < |b.ports| ensures PortFit(ShutDown(b, i), ShutDown(b, i).ports[j]) {
        assert PortFit(b0, b0.ports[j]);
      }
    }
  }

  lemma DisablePortKeeps(b: Bridge, i: nat)
    requires Inv(b) && i < |b.ports|
    ensures Inv(DisablePort(b, i)) && KeepsElection(b, DisablePort(b, i))
  {
    if Enabled(b.ports[i]) {
      ShutDownIsSound(b, i);
      var c := Reconfigure(ShutDown(b, i));
      SoundReconfigure(ShutDown(b, i));
      SoundAnnounce(c, IsRoot(b));
      if Fit(b) {
        FitReconfigure(ShutDown(b, i));
        ElectionFrame(c, DisablePort(b, i));
      }
    }
  }

  /** Resetting a disabled port: one state change, then one reset of its hold timer. */
  lemma InitializeIsSound(b: Bridge, i: nat)
    requires Sound(b) && i < |b.ports| && !Enabled(b.ports[i])
    ensures Sound(InitializePort(b, i, Blocking))
  {
    var b0 := BecomeDesignated(b, i);
    DesignateIsSound(b, i);
    assert PortSound(b0, i);
    var b1 := SetState(b0, i, Blocking);
    SoundStep(b0, i, b1.ports[i], b1.firstChanged, Changed(i, Disabled, Blocking));
    var p := b1.ports[i];
    assert PortSound(b1, i);
    var q := p.(tcAck := false, configPending := false, detectChanges := true,
                messageAge := Stop(p.messageAge), forwardDelay := Stop(p.forwardDelay),
                hold := Stop(p.hold));
    SoundStep(b1, i, q, b1.firstChanged, Initialized(i));
  }

  lemma InitializeKeepsElection(b: Bridge, i: nat)
    requires i < |b.ports| && !Enabled(b.ports[i]) && RolesHeld(b)
    ensures KeepsSettled(b, InitializePort(b, i, Blocking))
  {
    var c := InitializePort(b, i, Blocking);
    var q := c.ports[i];
    assert IsDesignated(c, q) && q.des == OwnVector(c, q);
    assert forall j :: 0 <= j < |b.ports| && j != i ==> c.ports[j] == b.ports[j];
    assert forall j :: 0 <= j < |b.ports| ==> Candidate(c, c.ports[j]) == Candidate(b, b.ports[j]);
    if Fit(b) {
      forall j | 0 <= j < |c.ports| ensures PortFit(c, c.ports[j]) {
        assert PortFit(b, b.ports[j]);
      }
    }
    if Settled(b) {
      forall j | 0 <= j < |c.ports| && Enabled(c.ports[j]) ensures PortSettled(c, c.ports[j]) {
        assert j != i ==> PortSettled(b, b.ports[j]);
      }
    }
  }

  lemma EnablePortKeeps(b: Bridge, i: nat)
    requires Inv(b) && i < |b.ports|
    ensures Inv(EnablePort(b, i)) && KeepsSettled(b, EnablePort(b, i))
  {
    if !Enabled(b.ports[i]) {
      var c := InitializePort(b, i, Blocking);
      InitializeIsSound(b, i);
      InitializeKeepsElection(b, i);
      SelectStatesKeeps(c);
    }
  }

  /** Selecting states alone gives every port a role and leaves the election as it is. */
  lemma SelectStatesKeeps(c: Bridge)
    requires Sound(c)
    requires c.rootPort.Some? ==> Enabled(c.ports[c.rootPort.value])
    ensures Inv(SelectStates(c, 0)) && SameElection(c, SelectStates(c, 0))
    ensures KeepsSettled(c, SelectStates(c, 0))
  {
    var r := SelectStates(c, 0);
    SoundSelectStates(c, 0);
    forall j | 0 <= j < |r.ports| ensures HasRole(r, j) {}
    if r.rootPort.Some? {
      assert SameRecord(c.ports[r.rootPort.value], r.ports[r.rootPort.value]);
    }
    SameKeeps(c, r);
  }

  lemma RenumberIsSound(b: Bridge, i: nat, priority: nat)
    requires Sound(b) && i < |b.ports| && priority < 256
    ensures var r := Renumber(b, i, priority * 256 + b.ports[i].portId % 256);
            Sound(r) && KeepsFit(b, r)
  {
    var r := Renumber(b, i, priority * 256 + b.ports[i].portId % 256);
    assert PortSound(b, i);
    SoundPort(b, i, r.ports[i]);
    if Fit(b) {
      forall j | 0 <= j < |r.ports| ensures PortFit(r, r.ports[j]) {
        assert PortFit(b, b.ports[j]);
      }
    }
  }

  lemma SetPortPriorityKeeps(b: Bridge, i: nat, priority: nat)
    requires Inv(b) && i < |b.ports| && priority < 256
    ensures Inv(SetPortPriority(b, i, priority)) && KeepsFit(b, SetPortPriority(b, i, priority))
  {
    var newId := priority * 256 + b.ports[i].portId % 256;
    if b.ports[i].portId != newId {
      var b1 := Renumber(b, i, newId);
      RenumberIsSound(b, i, priority);
      if b.id == b1.ports[i].des.bridge && newId < b1.ports[i].des.port {
        DesignateIsSound(b1, i);
        SelectStatesKeeps(BecomeDesignated(b1, i));
      } else {
        forall j | 0 <= j < |b1.ports| ensures HasRole(b1, j) {
          assert HasRole(b, j);
        }
      }
    }
  }

  lemma SetPathCostKeeps(b: Bridge, i: nat, cost: nat)
    requires Inv(b) && i < |b.ports| && cost < TWO16
    ensures Inv(SetPathCost(b, i, cost))
    ensures cost > 0 ==> KeepsElection(b, SetPathCost(b, i, cost))
  {
    if b.ports[i].pathCost != cost {
      assert PortSound(b, i);
      var q := b.ports[i].(pathCost := cost);
      var c := SetPort(b, i, q);
      SoundPort(b, i, q);
      SoundReconfigure(c);
      if Fit(b) && cost > 0 {
        forall j | 0 <= j < |c.ports| ensures PortFit(c, c.ports[j]) {
          assert PortFit(b, b.ports[j]);
        }
        FitReconfigure(c);
      }
    }
  }

  lemma SetChangeDetectionKeeps(b: Bridge, i: nat, on: bool)
    requires Inv(b) && i < |b.ports|
    ensures Inv(SetChangeDetection(b, i, on)) && KeepsSettled(b, SetChangeDetection(b, i, on))
  {
    assert PortSound(b, i);
    SoundPort(b, i, b.ports[i].(detectChanges := on));
    RolesFrame(b, SetChangeDetection(b, i, on));
    SameKeeps(b, SetChangeDetection(b, i, on));
  }

  lemma TakeChangedKeeps(b: Bridge)
    requires Inv(b)
    ensures Inv(TakeChanged(b).0) && KeepsSettled(b, TakeChanged(b).0)
    ensures TakeChanged(b).1.None? <==> forall i :: 0 <= i < |b.ports| ==> !b.ports[i].changed
    ensures TakeChanged(b).1.Some? ==> b.ports[TakeChanged(b).1.value].changed
  {
    var r := TakeChanged(b).0;
    var i := NextChanged(b, b.firstChanged);
    forall j | 0 <= j < |r.ports| ensures PortSound(r, j) {
      assert PortSound(b, j);
    }
    RolesFrame(b, r);
    SameKeeps(b, r);
    if i < |b.ports| {
      assert b.ports[i].changed;
    }
    forall j | 0 <= j < |b.ports| && b.ports[j].changed ensures i < |b.ports| {
      assert PortSound(b, j);
    }
  }

  // ----- ticks

  lemma HelloTickKeeps(b: Bridge, elapsed: nat)
    requires Inv(b)
    ensures Inv(HelloTick(b, elapsed)) && SameElection(b, HelloTick(b, elapsed))
  {
    var b0 := b.(helloTimer := Advance(b.helloTimer, elapsed, b.helloTime));
    InvElsewhere(b, b0);
    if Expires(b.helloTimer, elapsed, b.helloTime) {
      var b1 := GenerateConfigs(b0, 0);
      SoundGenerate(b0, 0);
      InvElsewhere(b1, b1.(helloTimer := Start(0)));
      SameElectionTrans(b0, b1, b1.(helloTimer := Start(0)));
    }
  }

  lemma TcnTickKeeps(b: Bridge, elapsed: nat)
    requires Inv(b)
    ensures Inv(TcnTick(b, elapsed)) && SameElection(b, TcnTick(b, elapsed))
  {
    var b0 := b.(tcnTimer := Advance(b.tcnTimer, elapsed, b.ownHelloTime));
    InvElsewhere(b, b0);
    if Expires(b.tcnTimer, elapsed, b.ownHelloTime) {
      var b1 := TransmitTcn(b0);
      SoundTcn(b0);
      RolesFrame(b0, b1);
      InvElsewhere(b1, b1.(tcnTimer := Start(0)));
    }
  }

  lemma BridgeTicksKeep(b: Bridge, elapsed: nat)
    requires Inv(b)
    ensures var r := TopologyChangeTick(TcnTick(HelloTick(b, elapsed), elapsed), elapsed);
            Inv(r) && SameElection(b, r) && KeepsSettled(b, r)
  {
    HelloTickKeeps(b, elapsed);
    var b1 := HelloTick(b, elapsed);
    TcnTickKeeps(b1, elapsed);
    var b2 := TcnTick(b1, elapsed);
    InvElsewhere(b2, TopologyChangeTick(b2, elapsed));
    SameElectionTrans(b, b1, b2);
    SameKeeps(b, TopologyChangeTick(b2, elapsed));
  }

  lemma AgeTickKeeps(b: Bridge, i: nat, elapsed: nat)
    requires Inv(b) && i < |b.ports|
    ensures Inv(AgeTick(b, i, elapsed)) && KeepsElection(b, AgeTick(b, i, elapsed))
  {
    var p := b.ports[i];
    if Enabled(p) {
      assert PortSound(b, i);
      var q := p.(messageAge := Advance(p.messageAge, elapsed, b.maxAge));
      var b1 := SetPort(b, i, q);
      SoundPort(b, i, q);
      RolesFrame(b, b1);
      SameKeeps(b, b1);
      if Expires(p.messageAge, elapsed, b.maxAge) {
        DesignateIsSound(b1, i);
        var c := BecomeDesignated(b1, i);
        SoundReconfigure(c);
        SoundAnnounce(Reconfigure(c), IsRoot(b1));
        if Fit(b) {
          FitReconfigure(c);
          ElectionFrame(Reconfigure(c), AgeTick(b, i, elapsed));
        }
      }
    }
  }

  lemma {:induction false} AgeTicksKeep(b: Bridge, from: nat, elapsed: nat)
    requires Inv(b)
    ensures Inv(AgeTicks(b, from, elapsed)) && KeepsElection(b, AgeTicks(b, from, elapsed))
    decreases |b.ports| - from
  {
    if from < |b.ports| {
      AgeTickKeeps(b, from, elapsed);
      AgeTicksKeep(AgeTick(b, from, elapsed), from + 1, elapsed);
    }
  }

  /** When it expires, the timer of a listening or learning port moves it one state on. */
  lemma ExpiryMoves(b: Bridge, i: nat, elapsed: nat)
    requires i < |b.ports| && Expires(b.ports[i].forwardDelay, elapsed, b.forwardDelay)
    requires b.ports[i].state.Listening? || b.ports[i].state.Learning?
    ensures var p := b.ports[i];
            var spent := Advance(p.forwardDelay, elapsed, b.forwardDelay);
            var moved := if p.state.Listening? then Move(b, i, Learning, Start(0))
                         else Move(b, i, Forwarding, spent);
            || DelayTick(b, i, elapsed) == moved
            || (p.state.Learning? && DelayTick(b, i, elapsed) == DetectTopologyChange(moved))
  {
    var p := b.ports[i];
    var q := p.(forwardDelay := Advance(p.forwardDelay, elapsed, b.forwardDelay));
    var b1 := SetPort(b, i, q);
    var st := if p.state.Listening? then Learning else Forwarding;
    var delay := if p.state.Listening? then Start(0) else q.forwardDelay;
    MoveOnePort(b, i, st, delay);
    MoveOnePort(b1, i, st, delay);
    assert b1.ports[i := Move(b1, i, st, delay).ports[i]] == Move(b, i, st, delay).ports;
    assert p.state.Learning? ==> SetState(b1, i, st) == Move(b1, i, st, delay);
  }

  lemma CountingKeeps(b: Bridge, i: nat, delay: Timer)
    requires Inv(b) && i < |b.ports| && delay.active == b.ports[i].forwardDelay.active
    ensures var c := SetPort(b, i, b.ports[i].(forwardDelay := delay));
            Inv(c) && SameElection(b, c)
  {
    assert PortSound(b, i);
    SoundPort(b, i, b.ports[i].(forwardDelay := delay));
    RolesFrame(b, SetPort(b, i, b.ports[i].(forwardDelay := delay)));
  }

  lemma PromotionKeeps(b: Bridge, i: nat, st: PortState, delay: Timer)
    requires Inv(b) && i < |b.ports| && (st.Learning? || st.Forwarding?)
    requires Allowed(b.ports[i].state, st)
    requires Timed(b.ports[i].(state := st, forwardDelay := delay))
    ensures var m := Move(b, i, st, delay);
            Inv(m) && SameElection(b, m)
            && Inv(DetectTopologyChange(m)) && SameElection(b, DetectTopologyChange(m))
  {
    SoundMove(b, i, st, delay);
    var moved := Move(b, i, st, delay);
    RolesFrame(b, moved);
    SoundDetect(moved);
    RolesFrame(moved, DetectTopologyChange(moved));
    SameElectionTrans(b, moved, DetectTopologyChange(moved));
  }

  /** A forward-delay tick moves an active port one state on, or only counts. */
  lemma DelayTickKeeps(b: Bridge, i: nat, elapsed: nat)
    requires Inv(b) && i < |b.ports|
    ensures Inv(DelayTick(b, i, elapsed)) && SameElection(b, DelayTick(b, i, elapsed))
  {
    var p := b.ports[i];
    assert PortSound(b, i) && HasRole(b, i);
    var q := p.(forwardDelay := Advance(p.forwardDelay, elapsed, b.forwardDelay));
    if !Expires(p.forwardDelay, elapsed, b.forwardDelay) {
      CountingKeeps(b, i, q.forwardDelay);
    } else {
      ExpiryMoves(b, i, elapsed);
      PromotionKeeps(b, i, if p.state.Listening? then Learning else Forwarding,
                     if p.state.Listening? then Start(0) else q.forwardDelay);
    }
  }

  lemma HoldTickKeeps(b: Bridge, i: nat, elapsed: nat)
    requires Inv(b) && i < |b.ports|
    ensures Inv(HoldTick(b, i, elapsed)) && SameElection(b, HoldTick(b, i, elapsed))
  {
    var p := b.ports[i];
    if p.hold.active {
      assert PortSound(b, i);
      var q := p.(hold := Advance(p.hold, elapsed, HOLD_TICKS));
      SoundStep(b, i, q, b.firstChanged, HoldCredit(i, elapsed));
      var b1 := SetPort(b, i, q).(trace := b.trace + [HoldCredit(i, elapsed)]);
      RolesFrame(b, b1);
      SoundTransmit(b1, i);
      TransmitKeepsElection(b1, i);
      SameElectionTrans(b, b1, HoldTick(b, i, elapsed));
    }
  }

  lemma {:induction false} PortTicksKeep(b: Bridge, from: nat, elapsed: nat)
    requires Inv(b)
    ensures Inv(PortTicks(b, from, elapsed)) && SameElection(b, PortTicks(b, from, elapsed))
    decreases |b.ports| - from
  {
    if from < |b.ports| {
      if Enabled(b.ports[from]) {
        var b1 := DelayTick(b, from, elapsed);
        var b2 := HoldTick(b1, from, elapsed);
        DelayTickKeeps(b, from, elapsed);
        HoldTickKeeps(b1, from, elapsed);
        SameElectionTrans(b, b1, b2);
        PortTicksKeep(b2, from + 1, elapsed);
        SameElectionTrans(b, b2, PortTicks(b, from, elapsed));
      } else {
        PortTicksKeep(b, from + 1, elapsed);
      }
    }
  }

  lemma TickKeeps(b: Bridge, elapsed: nat)
    requires Inv(b)
    ensures Inv(Tick(b, elapsed)) && KeepsElection(b, Tick(b, elapsed))
  {
    if elapsed > 0 {
      var b1 := TopologyChangeTick(TcnTick(HelloTick(b, elapsed), elapsed), elapsed);
      BridgeTicksKeep(b, elapsed);
      AgeTicksKeep(b1, 0, elapsed);
      var b2 := AgeTicks(b1, 0, elapsed);
      PortTicksKeep(b2, 0, elapsed);
      SameKeeps(b2, Tick(b, elapsed));
    }
  }

  // ----- whole runs

  /** Events under which a settled election always stays settled: port priorities are left
      alone, path costs are positive and heard costs are clear of the 32-bit limit. */
  predicate Plain(e: Event) {
    match e
    case ConfigReceived(_, c, _, _) => c.vec.cost + TWO16 <= TWO32
    case PathCostSet(_, cost) => cost > 0
    case PortPrioritySet(_, _) => false
    case _ => true
  }

  lemma BridgeMacKeeps(b: Bridge, mac: nat)
    requires Inv(b)
    ensures Inv(SetBridgeMac(b, mac)) && KeepsElection(b, SetBridgeMac(b, mac))
  {
    ChangeBridgeIdKeeps(b, WithMac(b.id, mac));
  }

  lemma BridgePriorityKeeps(b: Bridge, priority: nat)
    requires Inv(b)
    ensures Inv(SetBridgePriority(b, priority)) && KeepsElection(b, SetBridgePriority(b, priority))
  {
    ChangeBridgeIdKeeps(b, WithPriority(b.id, priority));
  }

  lemma UpdateTimesKeeps(b: Bridge, c: Bridge)
    requires Inv(b) && SameElection(b, c)
    requires c.ports == b.ports && c.trace == b.trace && c.firstChanged == b.firstChanged
    ensures Inv(UpdateTimes(c)) && KeepsSettled(b, UpdateTimes(c))
  {
    InvElsewhere(b, UpdateTimes(c));
  }

  lemma ManagementKeeps(b: Bridge, e: Event)
    requires Inv(b) && Legal(e)
    requires !e.ConfigReceived? && !e.TcnReceived? && !e.Ticked? && !e.ChangedTaken?
    ensures Inv(Step(b, e))
    ensures Plain(e) ==> KeepsElection(b, Step(b, e))
  {
    match e
    case BridgeMacSet(mac) => BridgeMacKeeps(b, mac);
    case BridgePrioritySet(priority) => BridgePriorityKeeps(b, priority);
    case PortEnabled(i) => EnablePortKeeps(b, i);
    case PortDisabled(i) => DisablePortKeeps(b, i);
    case PortPrioritySet(i, priority) => SetPortPriorityKeeps(b, i, priority);
    case PathCostSet(i, cost) => SetPathCostKeeps(b, i, cost);
    case ChangeDetectionSet(i, on) => SetChangeDetectionKeeps(b, i, on);
    case HelloTimeRequested(ms) => UpdateTimesKeeps(b, b.(rqHelloTime := ms));
    case MaxAgeRequested(ms) => UpdateTimesKeeps(b, b.(rqMaxAge := ms));
    case ForwardDelayRequested(ms) => UpdateTimesKeeps(b, b.(rqForwardDelay := ms));
  }

  lemma StepKeeps(b: Bridge, e: Event)
    requires Inv(b) && Legal(e)
    ensures Inv(Step(b, e))
    ensures Plain(e) ==> KeepsElection(b, Step(b, e))
  {
    match e
    case ConfigReceived(i, c, tcFlag, ackFlag) =>
      ReceiveConfigKeeps(b, i, c, tcFlag, ackFlag);
      if Plain(e) {
        ReceiveConfigElects(b, i, c, tcFlag, ackFlag);
      }
    case TcnReceived(i) => ReceiveTcnKeeps(b, i);
    case Ticked(elapsed) => TickKeeps(b, elapsed);
    case ChangedTaken => TakeChangedKeeps(b);
    case _ => ManagementKeeps(b, e);
  }

  lemma CreateIsSound(id: nat)
    requires id < TWO64
    ensures Inv(Create(id)) && Elected(Create(id))
  {
    var b := Create(id);
    forall i | 0 <= i < |b.ports|
      ensures PortSound(b, i) && HasRole(b, i) && PortFit(b, b.ports[i]) && !Enabled(b.ports[i])
    {
      assert b.ports[i] == NewPort(b.id, i);
    }
  }

  predicate AllLegal(events: seq<Event>) {
    forall e :: e in events ==> Legal(e)
  }

  /** Every state a bridge can reach is sound, and every port that takes part in forwarding
      is the root port or a designated port. */
  lemma {:induction false} EveryRunIsSound(id: nat, events: seq<Event>)
    requires id < TWO64 && AllLegal(events)
    ensures Inv(Run(Create(id), events))
  {
    if events == [] {
      CreateIsSound(id);
    } else {
      var init := events[..|events| - 1];
      EveryRunIsSound(id, init);
      StepKeeps(Run(Create(id), init), events[|events| - 1]);
    }
  }

  lemma {:induction false} LawfulPrefix(trace: seq<Obs>, p: nat, k: nat)
    requires k <= |trace| && HistoryOf(trace, p).lawful
    ensures HistoryOf(trace[..k], p).lawful
  {
    if k < |trace| {
      var init := trace[..|trace| - 1];
      LawfulPrefix(init, p, k);
      assert init[..k] == trace[..k];
    } else {
      assert trace[..k] == trace;
    }
  }

  /** After a configuration at `i` and no reset since, the history's credit is what the
      trace shows, or less if more configurations were sent. */
  lemma {:induction false} CreditSince(trace: seq<Obs>, p: nat, i: nat, j: nat)
    requires i < j <= |trace| && Sends(trace, p, i)
    requires forall k :: i < k < j ==> !(trace[k].Initialized? && trace[k].port == p)
    ensures HistoryOf(trace[..j], p).credit.Some?
    ensures HistoryOf(trace[..j], p).credit.value <= Credited(trace, p, i, j)
  {
    assert trace[..j][..j - 1] == trace[..j - 1];
    if j > i + 1 {
      CreditSince(trace, p, i, j - 1);
    }
  }

  lemma LawfulSpacing(trace: seq<Obs>, p: nat, i: nat, j: nat)
    requires i < j < |trace| && HistoryOf(trace, p).lawful
    requires Sends(trace, p, i) && Sends(trace, p, j)
    requires forall k :: i < k < j ==> !(trace[k].Initialized? && trace[k].port == p)
    ensures Credited(trace, p, i, j) >= HOLD_TICKS
  {
    LawfulPrefix(trace, p, j + 1);
    assert trace[..j + 1][..j] == trace[..j];
    CreditSince(trace, p, i, j);
  }

  /** Between two configuration messages sent on a port that is not reset in between, its
      hold timer is credited with at least one second of ticks. */
  lemma HoldTimerSpacesConfigs(id: nat, events: seq<Event>, p: nat, i: nat, j: nat)
    requires id < TWO64 && AllLegal(events)
    requires var trace := Run(Create(id), events).trace;
             && p < MAX_PORTS && i < j < |trace|
             && Sends(trace, p, i) && Sends(trace, p, j)
             && forall k :: i < k < j ==> !(trace[k].Initialized? && trace[k].port == p)
    ensures Credited(Run(Create(id), events).trace, p, i, j) >= HOLD_TICKS
  {
    TracesAreLawful(id, events, p);
    LawfulSpacing(Run(Create(id), events).trace, p, i, j);
  }

  lemma TracesAreLawful(id: nat, events: seq<Event>, p: nat)
    requires id < TWO64 && AllLegal(events) && p < MAX_PORTS
    ensures HistoryOf(Run(Create(id), events).trace, p).lawful
    ensures HistoryOf(Run(Create(id), events).trace, p).state == Run(Create(id), events).ports[p].state
  {
    EveryRunIsSound(id, events);
    assert PortSound(Run(Create(id), events), p);
  }

  predicate ChangesTo(trace: seq<Obs>, p: nat, i: nat, st: PortState)
    requires i < |trace|
  {
    trace[i].Changed? && trace[i].port == p && trace[i].after == st
  }

  predicate Quiet(trace: seq<Obs>, p: nat, i: nat, j: nat)
    requires j <= |trace|
  {
    forall k :: i < k < j ==> !(trace[k].Changed? && trace[k].port == p)
  }

  /** A port not in its initial state got there by its last recorded change. */
  lemma {:induction false} LastChange(trace: seq<Obs>, p: nat) returns (i: nat)
    requires HistoryOf(trace, p).state != Disabled
    ensures i < |trace| && ChangesTo(trace, p, i, HistoryOf(trace, p).state)
    ensures Quiet(trace, p, i, |trace|)
  {
    var last := |trace| - 1;
    if trace[last].Changed? && trace[last].port == p {
      return last;
    }
    i := LastChange(trace[..last], p);
  }

  predicate Promotion(trace: seq<Obs>, p: nat, i: nat, j: nat, k: nat) {
    && i < j < k < |trace|
    && trace[i] == Changed(p, Blocking, Listening)
    && trace[j] == Changed(p, Listening, Learning)
    && trace[k] == Changed(p, Learning, Forwarding)
    && Quiet(trace, p, i, j) && Quiet(trace, p, j, k)
  }

  lemma LawfulChange(trace: seq<Obs>, p: nat, k: nat)
    requires k < |trace| && HistoryOf(trace, p).lawful
    requires trace[k].Changed? && trace[k].port == p
    ensures HistoryOf(trace[..k], p).state == trace[k].before
    ensures Allowed(trace[k].before, trace[k].after)
  {
    LawfulPrefix(trace, p, k + 1);
    assert trace[..k + 1][..k] == trace[..k];
  }

  lemma LawfulPromotion(trace: seq<Obs>, p: nat, k: nat) returns (i: nat, j: nat)
    requires k < |trace| && HistoryOf(trace, p).lawful
    requires ChangesTo(trace, p, k, Forwarding)
    ensures Promotion(trace, p, i, j, k)
  {
    LawfulChange(trace, p, k);
    j := LastChange(trace[..k], p);
    LawfulChange(trace, p, j);
    i := LastChange(trace[..j], p);
    LawfulChange(trace, p, i);
  }

  /** Whenever a port starts forwarding it has gone from blocking to listening, then to
      learning, then to forwarding, with no other change of state on the way. */
  lemma ForwardingIsEarned(id: nat, events: seq<Event>, p: nat, k: nat) returns (i: nat, j: nat)
    requires id < TWO64 && AllLegal(events)
    requires p < MAX_PORTS && k < |Run(Create(id), events).trace|
    requires ChangesTo(Run(Create(id), events).trace, p, k, Forwarding)
    ensures Promotion(Run(Create(id), events).trace, p, i, j, k)
  {
    TracesAreLawful(id, events, p);
    i, j := LawfulPromotion(Run(Create(id), events).trace, p, k);
  }

  /** At every event boundary: a port taking part in forwarding is the root port or
      designated, its forward-delay timer runs exactly while it is listening or learning,
      and no port flagged as changed is out of the reporting scan's reach. */
  lemma PortStatesOverRuns(id: nat, events: seq<Event>, i: nat)
    requires id < TWO64 && AllLegal(events) && i < MAX_PORTS
    ensures var b := Run(Create(id), events);
            && (Active(b.ports[i]) ==> b.rootPort == Some(i) || IsDesignated(b, b.ports[i]))
            && (b.ports[i].forwardDelay.active <==>
                  b.ports[i].state.Listening? || b.ports[i].state.Learning?)
            && (b.ports[i].changed ==> b.firstChanged <= i)
  {
    var b := Run(Create(id), events);
    EveryRunIsSound(id, events);
    assert PortSound(b, i) && HasRole(b, i);
  }
}
