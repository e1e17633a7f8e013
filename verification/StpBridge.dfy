/**
  The spanning-tree bridge as a mutable object.  Every procedure updates the bridge in place
  and is proved to leave exactly the state that the function of the same purpose in
  `StpModel` describes, so what is proved about those functions holds of the object.
*/
module StpBridge {
  import opened Common
  import opened StpModel
  import opened StpRuns

  class Stp {
    var id: nat
    var maxAge: int
    var helloTime: int
    var forwardDelay: int
    var ownMaxAge: int
    var ownHelloTime: int
    var ownForwardDelay: int
    var rqMaxAge: int
    var rqHelloTime: int
    var rqForwardDelay: int
    var root: nat
    var rootCost: nat
    var rootPort: Option<nat>
    var tcDetected: bool
    var tc: bool
    var helloTimer: Timer
    var tcnTimer: Timer
    var tcTimer: Timer
    const ports: array<Port>
    var firstChanged: nat
    var trace: seq<Obs>

    ghost function View(): Bridge
      reads this, ports
    {
      Bridge(id, maxAge, helloTime, forwardDelay, ownMaxAge, ownHelloTime, ownForwardDelay,
             rqMaxAge, rqHelloTime, rqForwardDelay, root, rootCost, rootPort, tcDetected, tc,
             helloTimer, tcnTimer, tcTimer, ports[..], firstChanged, trace)
    }

    ghost predicate Valid()
      reads this, ports
    {
      ports.Length == MAX_PORTS && RootPortInRange(View())
    }

    constructor (bridgeId: nat)
      requires bridgeId < TWO64
      ensures Valid() && View() == Create(bridgeId) && fresh(ports)
    {
      id := if bridgeId < TWO48 then bridgeId + DEFAULT_BRIDGE_PRIORITY * TWO48 else bridgeId;
      var self := if bridgeId < TWO48 then bridgeId + DEFAULT_BRIDGE_PRIORITY * TWO48 else bridgeId;
      maxAge, helloTime, forwardDelay := 0, 0, 0;
      ownMaxAge, ownHelloTime, ownForwardDelay := 0, 0, 0;
      rqMaxAge, rqHelloTime, rqForwardDelay := 6000, 2000, 4000;
      root, rootCost, rootPort := self, 0, None;
      tcDetected, tc := false, false;
      helloTimer, tcnTimer, tcTimer := Start(0), Timer(false, 0), Timer(false, 0);
      ports := new Port[MAX_PORTS](i requires 0 <= i < MAX_PORTS => NewPort(self, i));
      firstChanged, trace := 0, [];
      new;
      assert ports[..] == seq(MAX_PORTS, i requires 0 <= i < MAX_PORTS => NewPort(self, i));
      UpdateBridgeTimers();
    }

    method UpdateBridgeTimers()
      requires Valid()
      modifies this
      ensures Valid() && View() == UpdateTimes(old(View()))
    {
      var (ht, ma, fd) := AllowedTimes(rqHelloTime, rqMaxAge, rqForwardDelay);
      ownHelloTime, ownMaxAge, ownForwardDelay := MsToTimer(ht), MsToTimer(ma), MsToTimer(fd);
      if id == root {
        AdoptOwnTimes();
      }
    }

    method SetHelloTime(ms: int)
      requires Valid()
      modifies this
      ensures Valid() && View() == Step(old(View()), HelloTimeRequested(ms))
    {
      rqHelloTime := ms;
      UpdateBridgeTimers();
    }

    method SetMaxAge(ms: int)
      requires Valid()
      modifies this
      ensures Valid() && View() == Step(old(View()), MaxAgeRequested(ms))
    {
      rqMaxAge := ms;
      UpdateBridgeTimers();
    }

    method SetForwardDelay(ms: int)
      requires Valid()
      modifies this
      ensures Valid() && View() == Step(old(View()), ForwardDelayRequested(ms))
    {
      rqForwardDelay := ms;
      UpdateBridgeTimers();
    }

    // ----- election

    /** Scans the ports once for the best candidate. */
    method RootSelection()
      requires Valid()
      modifies this
      ensures Valid() && View() == SelectRoot(old(View()))
    {
      var best: Option<nat> := None;
      for i := 0 to ports.Length
        invariant View() == old(View())
        invariant best == Best(View(), i)
      {
        var p := ports[i];
        if !Enabled(p) || (p.des.bridge == id && p.des.port == p.portId) || p.des.root >= id {
          continue;
        }
        if best.Some? && !SupersedesRoot(ports[best.value], p) {
          continue;
        }
        best := Some(i);
      }
      rootPort := best;
      if best.None? {
        root, rootCost := id, 0;
      } else {
        root := ports[best.value].des.root;
        rootCost := CostVia(ports[best.value]);
      }
    }

    method BecomeDesignatedPort(i: nat)
      requires Valid() && i < ports.Length
      modifies ports
      ensures Valid() && View() == BecomeDesignated(old(View()), i)
    {
      ports[i] := ports[i].(des := Vector(root, rootCost, id, ports[i].portId));
    }

    method DesignatedPortSelection()
      requires Valid()
      modifies ports
      ensures Valid() && View() == SelectDesignated(old(View()))
    {
      ghost var b := View();
      for i := 0 to ports.Length
        invariant Valid() && View() == b.(ports := ports[..])
        invariant forall j :: 0 <= j < i ==> ports[j] == Redesignate(b, b.ports[j])
        invariant forall j :: i <= j < ports.Length ==> ports[j] == b.ports[j]
      {
        var p := ports[i];
        if Enabled(p)
           && ((p.des.bridge == id && p.des.port == p.portId)
               || p.des.root != root
               || rootCost < p.des.cost
               || (rootCost == p.des.cost
                   && (id < p.des.bridge || (id == p.des.bridge && p.portId <= p.des.port)))) {
          BecomeDesignatedPort(i);
        }
      }
      assert ports[..] == SelectDesignated(b).ports;
    }

    method ConfigurationUpdate()
      requires Valid()
      modifies this, ports
      ensures Valid() && View() == UpdateConfiguration(old(View()))
    {
      RootSelection();
      DesignatedPortSelection();
    }

    // ----- port states

    method SetPortState(i: nat, st: PortState)
      requires Valid() && i < ports.Length
      modifies this, ports
      ensures Valid() && View() == SetState(old(View()), i, st)
    {
      var p := ports[i];
      if st != p.state {
        trace := trace + [Changed(i, p.state, st)];
        if !p.changed {
          ports[i] := ports[i].(changed := true);
          if i < firstChanged {
            firstChanged := i;
          }
        }
      }
      ports[i] := ports[i].(state := st);
      assert ports[..] == SetState(old(View()), i, st).ports;
    }

    method SendTcn()
      requires Valid()
      modifies this`trace
      ensures Valid() && View() == TransmitTcn(old(View()))
    {
      if rootPort.Some? {
        trace := trace + [SentTcn(rootPort.value)];
      }
    }

    method TopologyChangeDetection()
      requires Valid()
      modifies this
      ensures Valid() && View() == DetectTopologyChange(old(View()))
    {
      if id == root {
        tc := true;
        tcTimer := Start(0);
      } else if !tcDetected {
        SendTcn();
        tcnTimer := Start(0);
      }
      tcDetected := true;
    }

    method BeginForwarding(i: nat)
      requires Valid() && i < ports.Length
      modifies this, ports
      ensures Valid() && View() == MakeForwarding(old(View()), i)
    {
      if ports[i].state.Blocking? {
        SetPortState(i, Listening);
        ports[i] := ports[i].(forwardDelay := Start(0));
      }
    }

    method BeginBlocking(i: nat)
      requires Valid() && i < ports.Length
      modifies this, ports
      ensures Valid() && View() == MakeBlocking(old(View()), i)
    {
      if !ports[i].state.Disabled? && !ports[i].state.Blocking? {
        if ports[i].state.Forwarding? || ports[i].state.Learning? {
          if ports[i].detectChanges {
            TopologyChangeDetection();
          }
        }
        SetPortState(i, Blocking);
        ports[i] := ports[i].(forwardDelay := Stop(ports[i].forwardDelay));
      }
    }

    method SelectPortState(i: nat)
      requires Valid() && i < ports.Length && Enabled(ports[i])
      modifies this, ports
      ensures Valid() && View() == SelectState(old(View()), i)
    {
      var p := ports[i];
      if rootPort == Some(i) {
        ports[i] := p.(configPending := false, tcAck := false);
        BeginForwarding(i);
      } else if p.des.bridge == id && p.des.port == p.portId {
        ports[i] := p.(messageAge := Stop(p.messageAge));
        BeginForwarding(i);
      } else {
        ports[i] := p.(configPending := false, tcAck := false);
        BeginBlocking(i);
      }
    }

    method PortStateSelection()
      requires Valid()
      modifies this, ports
      ensures Valid() && View() == SelectStates(old(View()), 0)
    {
      for i := 0 to ports.Length
        invariant Valid() && SelectStates(View(), i) == SelectStates(old(View()), 0)
      {
        if Enabled(ports[i]) {
          SelectPortState(i);
        }
      }
    }

    /** Reruns the election and gives every port the state its role calls for. */
    method Reelect()
      requires Valid()
      modifies this, ports
      ensures Valid() && View() == Reconfigure(old(View()))
    {
      ConfigurationUpdate();
      PortStateSelection();
    }

    // ----- transmission

    method SendConfig(i: nat)
      requires Valid() && i < ports.Length
      modifies this`trace, ports
      ensures Valid() && View() == TransmitConfig(old(View()), i)
    {
      var isRoot := id == root;
      if !isRoot && rootPort.None? {
        return;
      }
      if ports[i].hold.active {
        ports[i] := ports[i].(configPending := true);
      } else {
        var age := if isRoot then 0 else (ports[rootPort.value].messageAge.value + 1) % TWO16;
        var config := Config(Vector(root, rootCost, id, ports[i].portId), age,
                             maxAge, helloTime, forwardDelay);
        if age < maxAge {
          ports[i] := ports[i].(tcAck := false, configPending := false, hold := Start(0));
          trace := trace + [SentConfig(i, config)];
        }
      }
    }

    method ConfigBpduGeneration()
      requires Valid()
      modifies this`trace, ports
      ensures Valid() && View() == GenerateConfigs(old(View()), 0)
    {
      for i := 0 to ports.Length
        invariant Valid() && GenerateConfigs(View(), i) == GenerateConfigs(old(View()), 0)
      {
        if Enabled(ports[i]) && ports[i].des.bridge == id && ports[i].des.port == ports[i].portId {
          SendConfig(i);
        }
      }
    }

    method HelloTimerExpiry()
      requires Valid()
      modifies this`trace, this`helloTimer, ports
      ensures Valid() && View() == GenerateConfigs(old(View()), 0).(helloTimer := Start(0))
    {
      ConfigBpduGeneration();
      helloTimer := Start(0);
    }

    method AdoptOwnTimes()
      requires Valid()
      modifies this`maxAge, this`helloTime, this`forwardDelay
      ensures Valid() && View() == UseOwnTimes(old(View()))
    {
      maxAge, helloTime, forwardDelay := ownMaxAge, ownHelloTime, ownForwardDelay;
    }

    method StopTcnTimer()
      requires Valid()
      modifies this`tcnTimer
      ensures Valid() && View() == old(View()).(tcnTimer := Stop(old(View()).tcnTimer))
    {
      tcnTimer := Stop(tcnTimer);
    }

    method TakeOverAsRoot()
      requires Valid()
      modifies this, ports
      ensures Valid() && View() == BecomeRootBridge(old(View()))
    {
      AdoptOwnTimes();
      TopologyChangeDetection();
      StopTcnTimer();
      HelloTimerExpiry();
    }

    // ----- reception

    /** Steps down as root: no more hellos, and a pending change is reported upwards. */
    method StepDown()
      requires Valid()
      modifies this
      ensures Valid() && View() == LoseRoot(old(View()))
    {
      helloTimer := Stop(helloTimer);
      if tcDetected {
        tcTimer := Stop(tcTimer);
        SendTcn();
        tcnTimer := Start(0);
      }
    }

    method RecordTimeoutValues(c: Config, tcFlag: bool)
      requires Valid()
      modifies this`maxAge, this`helloTime, this`forwardDelay, this`tc
      ensures Valid()
      ensures View() == old(View()).(maxAge := c.maxAge, helloTime := c.helloTime,
                                     forwardDelay := c.forwardDelay, tc := tcFlag)
    {
      maxAge, helloTime, forwardDelay, tc := c.maxAge, c.helloTime, c.forwardDelay, tcFlag;
    }

    method TopologyChangeAcknowledged()
      requires Valid()
      modifies this`tcDetected, this`tcnTimer
      ensures Valid()
      ensures View() == old(View()).(tcDetected := false, tcnTimer := Stop(old(View()).tcnTimer))
    {
      tcDetected := false;
      StopTcnTimer();
    }

    method FollowRoot(c: Config, tcFlag: bool, ackFlag: bool)
      requires Valid()
      modifies this, ports
      ensures Valid() && View() == AcceptTimes(old(View()), c, tcFlag, ackFlag)
    {
      RecordTimeoutValues(c, tcFlag);
      ConfigBpduGeneration();
      if ackFlag {
        TopologyChangeAcknowledged();
      }
    }

    method ReceivedConfigBpdu(i: nat, c: Config, tcFlag: bool, ackFlag: bool)
      requires Valid() && i < ports.Length
      modifies this, ports
      ensures Valid() && View() == ReceiveConfig(old(View()), i, c, tcFlag, ackFlag)
    {
      if c.messageAge >= c.maxAge || !Enabled(ports[i]) {
        return;
      }
      var wasRoot := id == root;
      if SupersedesPortInfo(id, ports[i], c.vec) {
        ports[i] := ports[i].(des := c.vec, messageAge := Start(c.messageAge));
        assert View() == Record(old(View()), i, c);
        Reelect();
        if id != root && wasRoot {
          StepDown();
        }
        if rootPort == Some(i) {
          FollowRoot(c, tcFlag, ackFlag);
        }
      } else if ports[i].des.bridge == id && ports[i].des.port == ports[i].portId {
        SendConfig(i);
      }
    }

    method ReceivedTcnBpdu(i: nat)
      requires Valid() && i < ports.Length
      modifies this, ports
      ensures Valid() && View() == ReceiveTcn(old(View()), i)
    {
      if Enabled(ports[i]) && ports[i].des.bridge == id && ports[i].des.port == ports[i].portId {
        TopologyChangeDetection();
        ports[i] := ports[i].(tcAck := true);
        SendConfig(i);
      }
    }

    // ----- management

    /** Writes a new identifier for the bridge into the records that are its own. */
    method RenamePorts(newId: nat)
      requires Valid()
      modifies ports
      ensures Valid() && View() == old(View()).(ports := RenameAll(old(View()), newId).ports)
    {
      ghost var b := View();
      for i := 0 to ports.Length
        invariant Valid() && View() == b.(ports := ports[..])
        invariant forall j :: 0 <= j < i ==> ports[j] == Rename(b, b.ports[j], newId)
        invariant forall j :: i <= j < ports.Length ==> ports[j] == b.ports[j]
      {
        var p := ports[i];
        if Enabled(p) && p.des.bridge == id && p.des.port == p.portId {
          ports[i] := p.(des := p.des.(bridge := newId));
        }
      }
      assert ports[..] == RenameAll(b, newId).ports;
    }

    method SetBridgeId(newId: nat)
      requires Valid()
      modifies this, ports
      ensures Valid() && View() == ChangeBridgeId(old(View()), newId)
    {
      if newId == id {
        return;
      }
      var wasRoot := id == root;
      RenamePorts(newId);
      id := newId;
      Reelect();
      if id == root && !wasRoot {
        TakeOverAsRoot();
      }
    }

    method SetMac(mac: nat)
      requires Valid()
      modifies this, ports
      ensures Valid() && View() == SetBridgeMac(old(View()), mac)
    {
      SetBridgeId(WithMac(id, mac));
    }

    method SetPriority(priority: nat)
      requires Valid()
      modifies this, ports
      ensures Valid() && View() == SetBridgePriority(old(View()), priority)
    {
      SetBridgeId(WithPriority(id, priority));
    }

    method PortDisable(i: nat)
      requires Valid() && i < ports.Length
      modifies this, ports
      ensures Valid() && View() == DisablePort(old(View()), i)
    {
      if Enabled(ports[i]) {
        var wasRoot := id == root;
        BecomeDesignatedPort(i);
        SetPortState(i, Disabled);
        var p := ports[i];
        ports[i] := p.(tcAck := false, configPending := false,
                       messageAge := Stop(p.messageAge), forwardDelay := Stop(p.forwardDelay));
        assert View() == ShutDown(old(View()), i);
        Reelect();
        if id == root && !wasRoot {
          TakeOverAsRoot();
        }
      }
    }

    method ResetPort(i: nat, st: PortState)
      requires Valid() && i < ports.Length
      modifies this, ports
      ensures Valid() && View() == InitializePort(old(View()), i, st)
    {
      BecomeDesignatedPort(i);
      SetPortState(i, st);
      var p := ports[i];
      ports[i] := p.(tcAck := false, configPending := false, detectChanges := true,
                     messageAge := Stop(p.messageAge), forwardDelay := Stop(p.forwardDelay),
                     hold := Stop(p.hold));
      trace := trace + [Initialized(i)];
    }

    method PortEnable(i: nat)
      requires Valid() && i < ports.Length
      modifies this, ports
      ensures Valid() && View() == EnablePort(old(View()), i)
    {
      if !Enabled(ports[i]) {
        ResetPort(i, Blocking);
        PortStateSelection();
      }
    }

    method RenumberPort(i: nat, newId: nat)
      requires Valid() && i < ports.Length
      modifies ports
      ensures Valid() && View() == Renumber(old(View()), i, newId)
    {
      if ports[i].des.bridge == id && ports[i].des.port == ports[i].portId {
        ports[i] := ports[i].(des := ports[i].des.(port := newId));
      }
      ports[i] := ports[i].(portId := newId);
    }

    method PortSetPriority(i: nat, priority: nat)
      requires Valid() && i < ports.Length
      modifies this, ports
      ensures Valid() && View() == SetPortPriority(old(View()), i, priority)
    {
      var newId := priority * 256 + ports[i].portId % 256;
      if ports[i].portId != newId {
        RenumberPort(i, newId);
        if id == ports[i].des.bridge && ports[i].portId < ports[i].des.port {
          BecomeDesignatedPort(i);
          PortStateSelection();
        }
      }
    }

    method PortSetPathCost(i: nat, cost: nat)
      requires Valid() && i < ports.Length
      modifies this, ports
      ensures Valid() && View() == SetPathCost(old(View()), i, cost)
    {
      if ports[i].pathCost != cost {
        ports[i] := ports[i].(pathCost := cost);
        Reelect();
      }
    }

    method PortSetChangeDetection(i: nat, on: bool)
      requires Valid() && i < ports.Length
      modifies ports
      ensures Valid() && View() == SetChangeDetection(old(View()), i, on)
    {
      ports[i] := ports[i].(detectChanges := on);
    }

    /** Reports and clears the first flagged port. */
    method GetChangedPort() returns (r: Option<nat>)
      requires Valid()
      modifies this`firstChanged, ports
      ensures Valid() && (View(), r) == TakeChanged(old(View()))
    {
      var i := firstChanged;
      while i < ports.Length
        invariant NextChanged(View(), i) == NextChanged(View(), firstChanged)
        invariant View() == old(View())
      {
        if ports[i].changed {
          ports[i] := ports[i].(changed := false);
          firstChanged := i + 1;
          return Some(i);
        }
        i := i + 1;
      }
      firstChanged := ports.Length;
      return None;
    }

    // ----- timers

    method IsDesignatedForSomePort() returns (r: bool)
      requires Valid()
      ensures r == DesignatedForSome(View())
    {
      for i := 0 to ports.Length
        invariant forall j :: 0 <= j < i ==> !(Enabled(ports[j]) && ports[j].des.bridge == id)
      {
        if Enabled(ports[i]) && ports[i].des.bridge == id {
          assert Enabled(View().ports[i]);
          return true;
        }
      }
      return false;
    }

    method HelloTimerTick(elapsed: nat)
      requires Valid()
      modifies this, ports
      ensures Valid() && View() == HelloTick(old(View()), elapsed)
    {
      var expired := Expires(helloTimer, elapsed, helloTime);
      helloTimer := Advance(helloTimer, elapsed, helloTime);
      if expired {
        HelloTimerExpiry();
      }
    }

    method TcnTimerTick(elapsed: nat)
      requires Valid()
      modifies this
      ensures Valid() && View() == TcnTick(old(View()), elapsed)
    {
      var expired := Expires(tcnTimer, elapsed, ownHelloTime);
      tcnTimer := Advance(tcnTimer, elapsed, ownHelloTime);
      if expired {
        SendTcn();
        tcnTimer := Start(0);
      }
    }

    method TopologyChangeTimerTick(elapsed: nat)
      requires Valid()
      modifies this
      ensures Valid() && View() == TopologyChangeTick(old(View()), elapsed)
    {
      var expired := Expires(tcTimer, elapsed, maxAge + forwardDelay);
      tcTimer := Advance(tcTimer, elapsed, maxAge + forwardDelay);
      if expired {
        tcDetected, tc := false, false;
      }
    }

    method MessageAgeTick(i: nat, elapsed: nat)
      requires Valid() && i < ports.Length && Enabled(ports[i])
      modifies this, ports
      ensures Valid() && View() == AgeTick(old(View()), i, elapsed)
    {
      var p := ports[i];
      var expired := Expires(p.messageAge, elapsed, maxAge);
      ports[i] := p.(messageAge := Advance(p.messageAge, elapsed, maxAge));
      if expired {
        var wasRoot := id == root;
        BecomeDesignatedPort(i);
        Reelect();
        if id == root && !wasRoot {
          TakeOverAsRoot();
        }
      }
    }

    method ForwardDelayTimerExpiry(i: nat)
      requires Valid() && i < ports.Length
      modifies this, ports
      ensures Valid() && View() == ForwardDelayExpiry(old(View()), i)
    {
      if ports[i].state.Listening? {
        SetPortState(i, Learning);
        ports[i] := ports[i].(forwardDelay := Start(0));
      } else if ports[i].state.Learning? {
        SetPortState(i, Forwarding);
        var some := IsDesignatedForSomePort();
        if some {
          if ports[i].detectChanges {
            TopologyChangeDetection();
          }
        }
      }
    }

    method ForwardDelayTick(i: nat, elapsed: nat)
      requires Valid() && i < ports.Length
      modifies this, ports
      ensures Valid() && View() == DelayTick(old(View()), i, elapsed)
    {
      var p := ports[i];
      var expired := Expires(p.forwardDelay, elapsed, forwardDelay);
      ports[i] := p.(forwardDelay := Advance(p.forwardDelay, elapsed, forwardDelay));
      if expired {
        ForwardDelayTimerExpiry(i);
      }
    }

    method HoldTimerTick(i: nat, elapsed: nat)
      requires Valid() && i < ports.Length
      modifies this, ports
      ensures Valid() && View() == HoldTick(old(View()), i, elapsed)
    {
      var p := ports[i];
      if p.hold.active {
        trace := trace + [HoldCredit(i, elapsed)];
        ports[i] := p.(hold := Advance(p.hold, elapsed, HOLD_TICKS));
        if Expires(p.hold, elapsed, HOLD_TICKS) && p.configPending {
          SendConfig(i);
        }
      }
    }

    method AgePorts(elapsed: nat)
      requires Valid()
      modifies this, ports
      ensures Valid() && View() == AgeTicks(old(View()), 0, elapsed)
    {
      for i := 0 to ports.Length
        invariant Valid() && AgeTicks(View(), i, elapsed) == AgeTicks(old(View()), 0, elapsed)
      {
        if Enabled(ports[i]) {
          MessageAgeTick(i, elapsed);
        }
      }
    }

    method TickPorts(elapsed: nat)
      requires Valid()
      modifies this, ports
      ensures Valid() && View() == PortTicks(old(View()), 0, elapsed)
    {
      for i := 0 to ports.Length
        invariant Valid() && PortTicks(View(), i, elapsed) == PortTicks(old(View()), 0, elapsed)
      {
        if Enabled(ports[i]) {
          ForwardDelayTick(i, elapsed);
          HoldTimerTick(i, elapsed);
        }
      }
    }

    method TickTimers(elapsed: nat)
      requires Valid()
      modifies this, ports
      ensures Valid() && View() == Tick(old(View()), elapsed)
    {
      if elapsed == 0 {
        return;
      }
      HelloTimerTick(elapsed);
      TcnTimerTick(elapsed);
      TopologyChangeTimerTick(elapsed);
      AgePorts(elapsed);
      TickPorts(elapsed);
    }

    /** Handles one event of any kind. */
    method Handle(e: Event)
      requires Valid() && Legal(e)
      modifies this, ports
      ensures Valid() && View() == Step(old(View()), e)
    {
      match e
      case ConfigReceived(i, c, tcFlag, ackFlag) => ReceivedConfigBpdu(i, c, tcFlag, ackFlag);
      case TcnReceived(i) => ReceivedTcnBpdu(i);
      case Ticked(elapsed) => TickTimers(elapsed);
      case BridgeMacSet(mac) => SetMac(mac);
      case BridgePrioritySet(priority) => SetPriority(priority);
      case PortEnabled(i) => PortEnable(i);
      case PortDisabled(i) => PortDisable(i);
      case PortPrioritySet(i, priority) => PortSetPriority(i, priority);
      case PathCostSet(i, cost) => PortSetPathCost(i, cost);
      case ChangeDetectionSet(i, on) => PortSetChangeDetection(i, on);
      case HelloTimeRequested(ms) => SetHelloTime(ms);
      case MaxAgeRequested(ms) => SetMaxAge(ms);
      case ForwardDelayRequested(ms) => SetForwardDelay(ms);
      case ChangedTaken => var _ := GetChangedPort();
    }
  }

  /** Runs a new bridge through any sequence of events: the object ends in the state the
      model reaches, so every theorem about runs applies to it. */
  method Simulate(bridgeId: nat, events: seq<Event>) returns (stp: Stp)
    requires bridgeId < TWO64 && AllLegal(events)
    ensures stp.Valid() && stp.View() == Run(Create(bridgeId), events) && Inv(stp.View())
  {
    stp := new Stp(bridgeId);
    assert events[..0] == [];
    for k := 0 to |events|
      invariant fresh(stp) && fresh(stp.ports) && stp.Valid()
      invariant stp.View() == Run(Create(bridgeId), events[..k])
    {
      stp.Handle(events[k]);
      assert events[..k + 1][..k] == events[..k];
    }
    assert events[..|events|] == events;
    EveryRunIsSound(bridgeId, events);
  }
}
