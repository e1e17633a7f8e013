/**
  One spanning-tree bridge: its state and, for every procedure of the bridge, a
  function giving the state that procedure leaves behind.  The class `StpBridge.Stp`
  runs the same procedures in place and is proved to agree with these functions.

  Costs are 32-bit: a stored cost is a number below 2^32, compared as unsigned in most
  places and as signed in root selection, exactly where the program does so.
*/
module StpModel {
  import opened Common

  const MAX_PORTS := 255
  const HOLD_TICKS := 256
  const TWO16 := 0x1_0000
  const TWO31 := 0x8000_0000
  const TWO48 := 0x1_0000_0000_0000
  const TWO64 := 0x1_0000_0000_0000_0000
  const DEFAULT_BRIDGE_PRIORITY := 32768
  const DEFAULT_PORT_PRIORITY := 128

  datatype PortState = Disabled | Listening | Learning | Forwarding | Blocking

  datatype Timer = Timer(active: bool, value: int)

  /** What a port remembers of the best configuration heard on its link. */
  datatype Vector = Vector(root: nat, cost: nat, bridge: nat, port: nat)

  datatype Port = Port(
    portId: nat,
    state: PortState,
    pathCost: nat,
    des: Vector,
    tcAck: bool,
    configPending: bool,
    detectChanges: bool,
    messageAge: Timer,
    forwardDelay: Timer,
    hold: Timer,
    changed: bool)

  datatype Config = Config(
    vec: Vector, messageAge: nat, maxAge: int, helloTime: int, forwardDelay: int)

  /** What an observer of one bridge can record, in order. */
  datatype Obs =
    | SentConfig(port: nat, config: Config)
    | SentTcn(port: nat)
    | HoldCredit(port: nat, ticks: nat)
    | Initialized(port: nat)
    | Changed(port: nat, before: PortState, after: PortState)

  datatype Bridge = Bridge(
    id: nat,
    maxAge: int, helloTime: int, forwardDelay: int,
    ownMaxAge: int, ownHelloTime: int, ownForwardDelay: int,
    rqMaxAge: int, rqHelloTime: int, rqForwardDelay: int,
    root: nat, rootCost: nat, rootPort: Option<nat>,
    tcDetected: bool, tc: bool,
    helloTimer: Timer, tcnTimer: Timer, tcTimer: Timer,
    ports: seq<Port>,
    firstChanged: nat,
    trace: seq<Obs>)

  function Start(value: int): Timer {
    Timer(true, value)
  }

  function Stop(t: Timer): Timer {
    t.(active := false)
  }

  /** Advances a running timer; it stops when it reaches `timeout`. */
  function Advance(t: Timer, elapsed: nat, timeout: int): Timer {
    if !t.active then t
    else Timer(t.value + elapsed < timeout, t.value + elapsed)
  }

  predicate Expires(t: Timer, elapsed: nat, timeout: int) {
    t.active && t.value + elapsed >= timeout
  }

  predicate IsRoot(b: Bridge) {
    b.id == b.root
  }

  predicate Enabled(p: Port) {
    !p.state.Disabled?
  }

  predicate IsDesignated(b: Bridge, p: Port) {
    p.des.bridge == b.id && p.des.port == p.portId
  }

  predicate RootPortInRange(b: Bridge) {
    b.rootPort.Some? ==> b.rootPort.value < |b.ports|
  }

  function OwnVector(b: Bridge, p: Port): Vector {
    Vector(b.root, b.rootCost, b.id, p.portId)
  }

  function SetPort(b: Bridge, i: nat, p: Port): Bridge
    requires i < |b.ports|
  {
    b.(ports := b.ports[i := p])
  }

  function BecomeDesignated(b: Bridge, i: nat): Bridge
    requires i < |b.ports|
  {
    SetPort(b, i, b.ports[i].(des := OwnVector(b, b.ports[i])))
  }

  // ----- root and designated-port selection

  /** The bits of a 32-bit sum of a stored cost and a port's path cost. */
  function CostVia(p: Port): nat {
    (p.des.cost + p.pathCost) % TWO32
  }

  /** Those bits read as a signed 32-bit integer. */
  function Signed(bits: nat): int {
    if bits < TWO31 then bits else bits - TWO32
  }

  predicate SupersedesRoot(root: Port, p: Port) {
    var c, d := Signed(CostVia(p)), Signed(CostVia(root));
    if p.des.root != root.des.root then p.des.root < root.des.root
    else if c != d then c < d
    else if p.des.bridge != root.des.bridge then p.des.bridge < root.des.bridge
    else if p.des.port != root.des.port then p.des.port < root.des.port
    else p.portId < root.portId
  }

  predicate Candidate(b: Bridge, p: Port) {
    Enabled(p) && !IsDesignated(b, p) && p.des.root < b.id
  }

  /** The root port chosen among the first `k` ports. */
  function Best(b: Bridge, k: nat): (r: Option<nat>)
    requires k <= |b.ports|
    ensures r.Some? ==> r.value < k && Candidate(b, b.ports[r.value])
  {
    if k == 0 then None
    else
      var r := Best(b, k - 1);
      var p := b.ports[k - 1];
      if !Candidate(b, p) || (r.Some? && !SupersedesRoot(b.ports[r.value], p)) then r
      else Some(k - 1)
  }

  function SelectRoot(b: Bridge): Bridge {
    var r := Best(b, |b.ports|);
    if r.None? then b.(rootPort := None, root := b.id, rootCost := 0)
    else
      var p := b.ports[r.value];
      b.(rootPort := r, root := p.des.root, rootCost := CostVia(p))
  }

  predicate ShouldDesignate(b: Bridge, p: Port) {
    || IsDesignated(b, p)
    || p.des.root != b.root
    || b.rootCost < p.des.cost
    || (b.rootCost == p.des.cost
        && (b.id < p.des.bridge || (b.id == p.des.bridge && p.portId <= p.des.port)))
  }

  function Redesignate(b: Bridge, p: Port): Port {
    if Enabled(p) && ShouldDesignate(b, p) then p.(des := OwnVector(b, p)) else p
  }

  function SelectDesignated(b: Bridge): Bridge {
    b.(ports := seq(|b.ports|, i requires 0 <= i < |b.ports| => Redesignate(b, b.ports[i])))
  }

  function UpdateConfiguration(b: Bridge): Bridge {
    SelectDesignated(SelectRoot(b))
  }

  // ----- port states

  function SetState(b: Bridge, i: nat, st: PortState): Bridge
    requires i < |b.ports|
  {
    var p := b.ports[i];
    if st == p.state then b
    else b.(ports := b.ports[i := p.(state := st, changed := true)],
            firstChanged := if !p.changed && i < b.firstChanged then i else b.firstChanged,
            trace := b.trace + [Changed(i, p.state, st)])
  }

  function Move(b: Bridge, i: nat, st: PortState, delay: Timer): Bridge
    requires i < |b.ports|
  {
    var b1 := SetState(b, i, st);
    SetPort(b1, i, b1.ports[i].(forwardDelay := delay))
  }

  function TransmitTcn(b: Bridge): Bridge {
    if b.rootPort.None? then b else b.(trace := b.trace + [SentTcn(b.rootPort.value)])
  }

  function DetectTopologyChange(b: Bridge): Bridge {
    if IsRoot(b) then b.(tc := true, tcTimer := Start(0), tcDetected := true)
    else if !b.tcDetected then TransmitTcn(b).(tcnTimer := Start(0), tcDetected := true)
    else b
  }

  function MakeForwarding(b: Bridge, i: nat): Bridge
    requires i < |b.ports|
  {
    if b.ports[i].state.Blocking? then Move(b, i, Listening, Start(0)) else b
  }

  function MakeBlocking(b: Bridge, i: nat): Bridge
    requires i < |b.ports|
  {
    var p := b.ports[i];
    if p.state.Disabled? || p.state.Blocking? then b
    else
      var b1 := if (p.state.Forwarding? || p.state.Learning?) && p.detectChanges
                then DetectTopologyChange(b) else b;
      Move(b1, i, Blocking, Stop(p.forwardDelay))
  }

  function SelectState(b: Bridge, i: nat): (r: Bridge)
    requires i < |b.ports|
    ensures |r.ports| == |b.ports| && r.rootPort == b.rootPort
  {
    var p := b.ports[i];
    if p.state.Disabled? then b
    else if b.rootPort == Some(i) then
      MakeForwarding(SetPort(b, i, p.(configPending := false, tcAck := false)), i)
    else if IsDesignated(b, p) then
      MakeForwarding(SetPort(b, i, p.(messageAge := Stop(p.messageAge))), i)
    else
      MakeBlocking(SetPort(b, i, p.(configPending := false, tcAck := false)), i)
  }

  function SelectStates(b: Bridge, from: nat): (r: Bridge)
    ensures |r.ports| == |b.ports| && r.rootPort == b.rootPort
    decreases |b.ports| - from
  {
    if from >= |b.ports| then b else SelectStates(SelectState(b, from), from + 1)
  }

  // ----- transmission

  function AgeToSend(b: Bridge): int
    requires RootPortInRange(b)
  {
    if IsRoot(b) || b.rootPort.None? then 0
    else (b.ports[b.rootPort.value].messageAge.value + 1) % TWO16
  }

  function ConfigToSend(b: Bridge, p: Port): Config
    requires RootPortInRange(b)
  {
    Config(OwnVector(b, p), AgeToSend(b), b.maxAge, b.helloTime, b.forwardDelay)
  }

  function TransmitConfig(b: Bridge, i: nat): (r: Bridge)
    requires i < |b.ports| && RootPortInRange(b)
    ensures |r.ports| == |b.ports| && r.rootPort == b.rootPort
  {
    var p := b.ports[i];
    if !IsRoot(b) && b.rootPort.None? then b
    else if p.hold.active then SetPort(b, i, p.(configPending := true))
    else if AgeToSend(b) < b.maxAge then
      SetPort(b, i, p.(tcAck := false, configPending := false, hold := Start(0)))
        .(trace := b.trace + [SentConfig(i, ConfigToSend(b, p))])
    else b
  }

  /** Sends a configuration message on every designated port from `from` on. */
  function GenerateConfigs(b: Bridge, from: nat): (r: Bridge)
    requires RootPortInRange(b)
    ensures |r.ports| == |b.ports| && r.rootPort == b.rootPort
    decreases |b.ports| - from
  {
    if from >= |b.ports| then b
    else if Enabled(b.ports[from]) && IsDesignated(b, b.ports[from]) then
      GenerateConfigs(TransmitConfig(b, from), from + 1)
    else GenerateConfigs(b, from + 1)
  }

  // ----- reception

  function UseOwnTimes(b: Bridge): Bridge {
    b.(maxAge := b.ownMaxAge, helloTime := b.ownHelloTime, forwardDelay := b.ownForwardDelay)
  }

  function BecomeRootBridge(b: Bridge): (r: Bridge)
    requires RootPortInRange(b)
    ensures |r.ports| == |b.ports| && r.rootPort == b.rootPort
  {
    var b1 := DetectTopologyChange(UseOwnTimes(b));
    GenerateConfigs(b1.(tcnTimer := Stop(b1.tcnTimer)), 0).(helloTimer := Start(0))
  }

  /** Whether received information replaces what port `p` of bridge `id` holds. */
  predicate SupersedesPortInfo(id: nat, p: Port, v: Vector) {
    if v.root != p.des.root then v.root < p.des.root
    else if v.cost != p.des.cost then v.cost < p.des.cost
    else if v.bridge != p.des.bridge then v.bridge < p.des.bridge
    else v.bridge != id || v.port <= p.des.port
  }

  function Record(b: Bridge, i: nat, c: Config): Bridge
    requires i < |b.ports|
  {
    SetPort(b, i, b.ports[i].(des := c.vec, messageAge := Start(c.messageAge)))
  }

  /** Recomputes roots, designated ports and port states. */
  function Reconfigure(b: Bridge): (r: Bridge)
    ensures |r.ports| == |b.ports| && RootPortInRange(r)
  {
    SelectStates(UpdateConfiguration(b), 0)
  }

  function LoseRoot(b: Bridge): (r: Bridge)
    ensures |r.ports| == |b.ports| && r.rootPort == b.rootPort
  {
    var b1 := b.(helloTimer := Stop(b.helloTimer));
    if !b1.tcDetected then b1
    else TransmitTcn(b1.(tcTimer := Stop(b1.tcTimer))).(tcnTimer := Start(0))
  }

  function AcceptTimes(b: Bridge, c: Config, tcFlag: bool, ackFlag: bool): (r: Bridge)
    requires RootPortInRange(b)
    ensures |r.ports| == |b.ports| && r.rootPort == b.rootPort
  {
    var b1 := GenerateConfigs(
                b.(maxAge := c.maxAge, helloTime := c.helloTime,
                   forwardDelay := c.forwardDelay, tc := tcFlag), 0);
    if ackFlag then b1.(tcDetected := false, tcnTimer := Stop(b1.tcnTimer)) else b1
  }

  function ReceiveConfig(b: Bridge, i: nat, c: Config, tcFlag: bool, ackFlag: bool): (r: Bridge)
    requires i < |b.ports| && RootPortInRange(b)
    ensures |r.ports| == |b.ports| && RootPortInRange(r)
  {
    var p := b.ports[i];
    if c.messageAge >= c.maxAge || p.state.Disabled? then b
    else if SupersedesPortInfo(b.id, p, c.vec) then
      var b1 := Reconfigure(Record(b, i, c));
      var b2 := if !IsRoot(b1) && IsRoot(b) then LoseRoot(b1) else b1;
      if b2.rootPort == Some(i) then AcceptTimes(b2, c, tcFlag, ackFlag) else b2
    else if IsDesignated(b, p) then TransmitConfig(b, i)
    else b
  }

  function ReceiveTcn(b: Bridge, i: nat): (r: Bridge)
    requires i < |b.ports| && RootPortInRange(b)
    ensures |r.ports| == |b.ports| && r.rootPort == b.rootPort
  {
    if b.ports[i].state.Disabled? || !IsDesignated(b, b.ports[i]) then b
    else
      var b1 := DetectTopologyChange(b);
      TransmitConfig(SetPort(b1, i, b1.ports[i].(tcAck := true)), i)
  }

  // ----- management

  /** The port with the bridge's new identifier in its record, if that is the bridge's own. */
  function Rename(b: Bridge, p: Port, id: nat): Port {
    if Enabled(p) && IsDesignated(b, p) then p.(des := p.des.(bridge := id)) else p
  }

  function RenameAll(b: Bridge, id: nat): Bridge {
    b.(id := id, ports := seq(|b.ports|, i requires 0 <= i < |b.ports| => Rename(b, b.ports[i], id)))
  }

  function ChangeBridgeId(b: Bridge, id: nat): (r: Bridge)
    requires RootPortInRange(b)
    ensures |r.ports| == |b.ports| && RootPortInRange(r)
  {
    if id == b.id then b else AnnounceIfNewRoot(Reconfigure(RenameAll(b, id)), IsRoot(b))
  }

  /** Runs the new-root procedure when `b` has just become root. */
  function AnnounceIfNewRoot(b: Bridge, wasRoot: bool): (r: Bridge)
    requires RootPortInRange(b)
    ensures |r.ports| == |b.ports| && r.rootPort == b.rootPort
  {
    if IsRoot(b) && !wasRoot then BecomeRootBridge(b) else b
  }

  /** Bridge identifiers: 16 bits of priority above 48 bits of address. */
  function WithMac(id: nat, mac: nat): nat {
    id / TWO48 * TWO48 + mac % TWO48
  }

  function WithPriority(id: nat, priority: nat): nat {
    priority * TWO48 + id % TWO48
  }

  function SetBridgeMac(b: Bridge, mac: nat): (r: Bridge)
    requires RootPortInRange(b)
    ensures |r.ports| == |b.ports| && RootPortInRange(r)
  {
    ChangeBridgeId(b, WithMac(b.id, mac))
  }

  function SetBridgePriority(b: Bridge, priority: nat): (r: Bridge)
    requires RootPortInRange(b)
    ensures |r.ports| == |b.ports| && RootPortInRange(r)
  {
    ChangeBridgeId(b, WithPriority(b.id, priority))
  }

  function InitializePort(b: Bridge, i: nat, st: PortState): (r: Bridge)
    requires i < |b.ports|
    ensures |r.ports| == |b.ports| && r.rootPort == b.rootPort
  {
    var b1 := SetState(BecomeDesignated(b, i), i, st);
    var p := b1.ports[i];
    SetPort(b1, i, p.(tcAck := false, configPending := false, detectChanges := true,
                      messageAge := Stop(p.messageAge), forwardDelay := Stop(p.forwardDelay),
                      hold := Stop(p.hold)))
      .(trace := b1.trace + [Initialized(i)])
  }

  function EnablePort(b: Bridge, i: nat): (r: Bridge)
    requires i < |b.ports|
    ensures |r.ports| == |b.ports| && r.rootPort == b.rootPort
  {
    if Enabled(b.ports[i]) then b else SelectStates(InitializePort(b, i, Blocking), 0)
  }

  function ShutDown(b: Bridge, i: nat): (r: Bridge)
    requires i < |b.ports|
    ensures |r.ports| == |b.ports|
  {
    var b1 := SetState(BecomeDesignated(b, i), i, Disabled);
    var p := b1.ports[i];
    SetPort(b1, i, p.(tcAck := false, configPending := false,
                      messageAge := Stop(p.messageAge), forwardDelay := Stop(p.forwardDelay)))
  }

  function DisablePort(b: Bridge, i: nat): (r: Bridge)
    requires i < |b.ports| && RootPortInRange(b)
    ensures |r.ports| == |b.ports| && RootPortInRange(r)
  {
    if !Enabled(b.ports[i]) then b
    else AnnounceIfNewRoot(Reconfigure(ShutDown(b, i)), IsRoot(b))
  }

  /** Port `i` with a new number, also in its record if that is the port's own. */
  function Renumber(b: Bridge, i: nat, newId: nat): (r: Bridge)
    requires i < |b.ports|
    ensures |r.ports| == |b.ports| && r.rootPort == b.rootPort && r.id == b.id
  {
    var p := b.ports[i];
    var des := if IsDesignated(b, p) then p.des.(port := newId) else p.des;
    SetPort(b, i, p.(portId := newId, des := des))
  }

  function SetPortPriority(b: Bridge, i: nat, priority: nat): (r: Bridge)
    requires i < |b.ports|
    ensures |r.ports| == |b.ports| && r.rootPort == b.rootPort
  {
    var p := b.ports[i];
    var newId := priority * 256 + p.portId % 256;
    if p.portId == newId then b
    else
      var b1 := Renumber(b, i, newId);
      if b.id == b1.ports[i].des.bridge && newId < b1.ports[i].des.port
      then SelectStates(BecomeDesignated(b1, i), 0) else b1
  }

  function SetPathCost(b: Bridge, i: nat, cost: nat): (r: Bridge)
    requires i < |b.ports| && RootPortInRange(b)
    ensures |r.ports| == |b.ports| && RootPortInRange(r)
  {
    if b.ports[i].pathCost == cost then b
    else Reconfigure(SetPort(b, i, b.ports[i].(pathCost := cost)))
  }

  function SetChangeDetection(b: Bridge, i: nat, on: bool): Bridge
    requires i < |b.ports|
  {
    SetPort(b, i, b.ports[i].(detectChanges := on))
  }

  function Clamp(x: int, min: int, max: int): int {
    if x < min then min else if x > max then max else x
  }

  function MsToTimer(ms: nat): nat {
    ms * 256 / 1000
  }

  /** The hello time, maximum age and forward delay, in milliseconds, that stand in for the
      requested ones. */
  function AllowedTimes(hello: int, maxAge: int, forwardDelay: int): (nat, nat, nat) {
    var ht: nat := Clamp(hello, 1000, 10000);
    var least := if 2 * (ht + 1000) > 6000 then 2 * (ht + 1000) else 6000;
    var ma: nat := Clamp(maxAge, least, 40000);
    var fd: nat := Clamp(forwardDelay, ma / 2 + 1000, 30000);
    (ht, ma, fd)
  }

  function UpdateTimes(b: Bridge): (r: Bridge)
    ensures r.ports == b.ports && r.rootPort == b.rootPort
  {
    var (ht, ma, fd) := AllowedTimes(b.rqHelloTime, b.rqMaxAge, b.rqForwardDelay);
    var b1 := b.(ownHelloTime := MsToTimer(ht), ownMaxAge := MsToTimer(ma),
                 ownForwardDelay := MsToTimer(fd));
    if IsRoot(b1) then UseOwnTimes(b1) else b1
  }

  /** Reports the first port flagged as changed, at or after the remembered place. */
  function NextChanged(b: Bridge, from: nat): (i: nat)
    ensures from <= |b.ports| ==> from <= i <= |b.ports|
    ensures from <= |b.ports| ==> forall j :: from <= j < i ==> !b.ports[j].changed
    ensures i < |b.ports| ==> b.ports[i].changed
    decreases |b.ports| - from
  {
    if from >= |b.ports| then |b.ports|
    else if b.ports[from].changed then from
    else NextChanged(b, from + 1)
  }

  function TakeChanged(b: Bridge): (Bridge, Option<nat>) {
    var i := NextChanged(b, b.firstChanged);
    if i < |b.ports|
    then (SetPort(b, i, b.ports[i].(changed := false)).(firstChanged := i + 1), Some(i))
    else (b.(firstChanged := |b.ports|), None)
  }

  // ----- timers

  function HelloTick(b: Bridge, elapsed: nat): (r: Bridge)
    requires RootPortInRange(b)
    ensures |r.ports| == |b.ports| && r.rootPort == b.rootPort
  {
    var b1 := b.(helloTimer := Advance(b.helloTimer, elapsed, b.helloTime));
    if Expires(b.helloTimer, elapsed, b.helloTime)
    then GenerateConfigs(b1, 0).(helloTimer := Start(0)) else b1
  }

  function TcnTick(b: Bridge, elapsed: nat): Bridge {
    var b1 := b.(tcnTimer := Advance(b.tcnTimer, elapsed, b.ownHelloTime));
    if Expires(b.tcnTimer, elapsed, b.ownHelloTime)
    then TransmitTcn(b1).(tcnTimer := Start(0)) else b1
  }

  function TopologyChangeTick(b: Bridge, elapsed: nat): Bridge {
    var timeout := b.maxAge + b.forwardDelay;
    var b1 := b.(tcTimer := Advance(b.tcTimer, elapsed, timeout));
    if Expires(b.tcTimer, elapsed, timeout)
    then b1.(tcDetected := false, tc := false) else b1
  }

  function AgeTick(b: Bridge, i: nat, elapsed: nat): (r: Bridge)
    requires i < |b.ports| && RootPortInRange(b)
    ensures |r.ports| == |b.ports| && RootPortInRange(r)
  {
    var p := b.ports[i];
    if !Enabled(p) then b
    else
      var b1 := SetPort(b, i, p.(messageAge := Advance(p.messageAge, elapsed, b.maxAge)));
      if !Expires(p.messageAge, elapsed, b.maxAge) then b1
      else AnnounceIfNewRoot(Reconfigure(BecomeDesignated(b1, i)), IsRoot(b1))
  }

  function AgeTicks(b: Bridge, from: nat, elapsed: nat): (r: Bridge)
    requires RootPortInRange(b)
    ensures |r.ports| == |b.ports| && RootPortInRange(r)
    decreases |b.ports| - from
  {
    if from >= |b.ports| then b else AgeTicks(AgeTick(b, from, elapsed), from + 1, elapsed)
  }

  predicate DesignatedForSome(b: Bridge) {
    exists i :: 0 <= i < |b.ports| && Enabled(b.ports[i]) && b.ports[i].des.bridge == b.id
  }

  function ForwardDelayExpiry(b: Bridge, i: nat): (r: Bridge)
    requires i < |b.ports|
    ensures |r.ports| == |b.ports| && r.rootPort == b.rootPort
  {
    if b.ports[i].state.Listening? then Move(b, i, Learning, Start(0))
    else if b.ports[i].state.Learning? then
      var b1 := SetState(b, i, Forwarding);
      if DesignatedForSome(b1) && b1.ports[i].detectChanges
      then DetectTopologyChange(b1) else b1
    else b
  }

  function DelayTick(b: Bridge, i: nat, elapsed: nat): (r: Bridge)
    requires i < |b.ports|
    ensures |r.ports| == |b.ports| && r.rootPort == b.rootPort
  {
    var p := b.ports[i];
    var b1 := SetPort(b, i, p.(forwardDelay := Advance(p.forwardDelay, elapsed, b.forwardDelay)));
    if Expires(p.forwardDelay, elapsed, b.forwardDelay) then ForwardDelayExpiry(b1, i) else b1
  }

  function HoldTick(b: Bridge, i: nat, elapsed: nat): (r: Bridge)
    requires i < |b.ports| && RootPortInRange(b)
    ensures |r.ports| == |b.ports| && r.rootPort == b.rootPort
  {
    var p := b.ports[i];
    if !p.hold.active then b
    else
      var b1 := SetPort(b, i, p.(hold := Advance(p.hold, elapsed, HOLD_TICKS)))
                  .(trace := b.trace + [HoldCredit(i, elapsed)]);
      if Expires(p.hold, elapsed, HOLD_TICKS) && p.configPending
      then TransmitConfig(b1, i) else b1
  }

  function PortTicks(b: Bridge, from: nat, elapsed: nat): (r: Bridge)
    requires RootPortInRange(b)
    ensures |r.ports| == |b.ports| && r.rootPort == b.rootPort
    decreases |b.ports| - from
  {
    if from >= |b.ports| then b
    else if !Enabled(b.ports[from]) then PortTicks(b, from + 1, elapsed)
    else PortTicks(HoldTick(DelayTick(b, from, elapsed), from, elapsed), from + 1, elapsed)
  }

  function Tick(b: Bridge, elapsed: nat): (r: Bridge)
    requires RootPortInRange(b)
    ensures |r.ports| == |b.ports| && RootPortInRange(r)
  {
    if elapsed == 0 then b
    else
      var b1 := TopologyChangeTick(TcnTick(HelloTick(b, elapsed), elapsed), elapsed);
      PortTicks(AgeTicks(b1, 0, elapsed), 0, elapsed)
  }

  // ----- the bridge as a state machine

  datatype Event =
    | ConfigReceived(port: nat, config: Config, tcFlag: bool, ackFlag: bool)
    | TcnReceived(port: nat)
    | Ticked(elapsed: nat)
    | BridgeMacSet(mac: nat)
    | BridgePrioritySet(priority: nat)
    | PortEnabled(port: nat)
    | PortDisabled(port: nat)
    | PortPrioritySet(port: nat, priority: nat)
    | PathCostSet(port: nat, cost: nat)
    | ChangeDetectionSet(port: nat, on: bool)
    | HelloTimeRequested(ms: int)
    | MaxAgeRequested(ms: int)
    | ForwardDelayRequested(ms: int)
    | ChangedTaken

  /** Argument ranges that the C types and the wire format impose. */
  predicate Legal(e: Event) {
    match e
    case ConfigReceived(i, c, _, _) =>
      i < MAX_PORTS && c.vec.root < TWO64 && c.vec.cost < TWO32 && c.vec.bridge < TWO64
      && c.vec.port < TWO16 && c.messageAge < TWO16
    case TcnReceived(i) => i < MAX_PORTS
    case BridgePrioritySet(priority) => priority < TWO16
    case PortEnabled(i) => i < MAX_PORTS
    case PortDisabled(i) => i < MAX_PORTS
    case PortPrioritySet(i, priority) => i < MAX_PORTS && priority < 256
    case PathCostSet(i, cost) => i < MAX_PORTS && cost < TWO16
    case ChangeDetectionSet(i, _) => i < MAX_PORTS
    case _ => true
  }

  function Step(b: Bridge, e: Event): (r: Bridge)
    requires |b.ports| == MAX_PORTS && RootPortInRange(b) && Legal(e)
    ensures |r.ports| == MAX_PORTS && RootPortInRange(r)
  {
    match e
    case ConfigReceived(i, c, tcFlag, ackFlag) => ReceiveConfig(b, i, c, tcFlag, ackFlag)
    case TcnReceived(i) => ReceiveTcn(b, i)
    case Ticked(elapsed) => Tick(b, elapsed)
    case BridgeMacSet(mac) => SetBridgeMac(b, mac)
    case BridgePrioritySet(priority) => SetBridgePriority(b, priority)
    case PortEnabled(i) => EnablePort(b, i)
    case PortDisabled(i) => DisablePort(b, i)
    case PortPrioritySet(i, priority) => SetPortPriority(b, i, priority)
    case PathCostSet(i, cost) => SetPathCost(b, i, cost)
    case ChangeDetectionSet(i, on) => SetChangeDetection(b, i, on)
    case HelloTimeRequested(ms) => UpdateTimes(b.(rqHelloTime := ms))
    case MaxAgeRequested(ms) => UpdateTimes(b.(rqMaxAge := ms))
    case ForwardDelayRequested(ms) => UpdateTimes(b.(rqForwardDelay := ms))
    case ChangedTaken => TakeChanged(b).0
  }

  function Run(b: Bridge, events: seq<Event>): (r: Bridge)
    requires |b.ports| == MAX_PORTS && RootPortInRange(b)
    requires forall e :: e in events ==> Legal(e)
    ensures |r.ports| == MAX_PORTS && RootPortInRange(r)
  {
    if events == [] then b else Step(Run(b, events[..|events| - 1]), events[|events| - 1])
  }

  function NewPort(id: nat, i: nat): Port {
    var portId := DEFAULT_PORT_PRIORITY * 256 + i + 1;
    var stopped := Timer(false, 0);
    Port(portId, Disabled, 19, Vector(id, 0, id, portId), false, false, true,
         stopped, stopped, stopped, true)
  }

  /** A fresh bridge; a zero priority in the identifier stands for the default one. */
  function Create(bridgeId: nat): (r: Bridge)
    requires bridgeId < TWO64
    ensures |r.ports| == MAX_PORTS && RootPortInRange(r)
  {
    var id := if bridgeId < TWO48 then bridgeId + DEFAULT_BRIDGE_PRIORITY * TWO48 else bridgeId;
    var stopped := Timer(false, 0);
    UpdateTimes(
      Bridge(id, 0, 0, 0, 0, 0, 0, 6000, 2000, 4000, id, 0, None, false, false,
             Start(0), stopped, stopped,
             seq(MAX_PORTS, i requires 0 <= i < MAX_PORTS => NewPort(id, i)), 0, []))
  }
}
