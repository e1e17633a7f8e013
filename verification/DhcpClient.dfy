/**
  The DHCP client: nine states driven by timeouts and received messages.  Proved of every
  call, whatever arrives and whatever is drawn at random: a binding is held exactly while the
  client is bound, the `changed` flag covers every visible change, and processing terminates
  at any fixed time.
*/
module DhcpClient {
  import opened Common
  import opened DhcpOptions

  const MIN_ACCEPTABLE_LEASE := 15
  const DHCPOFFER := 2
  const DHCPACK := 5
  const DHCPNAK := 6

  const SUBNET_MASK := 1
  const ROUTER := 3
  const LEASE_TIME := 51
  const SERVER_IDENTIFIER := 54
  const T1 := 58
  const T2 := 59

  /** Options that must not change for a binding to count as the same. */
  const BINDING_CODES: seq<nat> := [SUBNET_MASK, ROUTER, 6, 12, 15, 23, 26, 28, 33, 35, 36, 37,
                                    SERVER_IDENTIFIER, 257, 258]

  datatype State =
    Init | InitReboot | Rebooting | Selecting | Requesting | Bound | Renewing | Rebinding | Released

  datatype Msg = Msg(kind: nat, xid: nat, yiaddr: nat, options: seq<Option<seq<byte>>>)

  /** A datagram waiting on the device: a message, or something that does not parse as one. */
  type Packet = Option<Msg>

  function Opt(m: Msg, code: nat): Option<seq<byte>> {
    if code < |m.options| then m.options[code] else None
  }

  /** The 32-bit number at the start of an option. */
  function Word(m: Msg, code: nat): Option<nat> {
    var v := Value(Opt(m, code));
    if |v| < 4 then None
    else
      var a: int, b: int, c: int, d: int := v[0], v[1], v[2], v[3];
      Some(((a * 256 + b) * 256 + c) * 256 + d)
  }

  function WordOr0(m: Msg, code: nat): nat {
    if Word(m, code).Some? then Word(m, code).value else 0
  }

  predicate IsBoundState(s: State) {
    s.Bound? || s.Renewing? || s.Rebinding?
  }

  predicate AwaitsAck(s: State) {
    s.Rebooting? || s.Requesting? || s.Renewing? || s.Rebinding?
  }

  function Clamp(x: nat, min: nat, max: nat): nat {
    if x < min then min else if x > max then max else x
  }

  /** What a user of the client can see of its configuration. */
  datatype Seen = Seen(bound: bool, ip: nat, netmask: nat, router: nat)

  /** Datagrams that may fail to parse before the rest are dropped. */
  const MAX_UNPARSED := 50

  /** What a read comes back with, and what it leaves. */
  datatype Read = Read(msg: Option<Msg>, queue: seq<Packet>, received: nat)

  function NextParsed(q: seq<Packet>, received: nat): (r: Read)
    ensures |r.queue| <= |q| && (r.msg.Some? ==> |r.queue| < |q|)
  {
    if received >= MAX_UNPARSED || q == [] then Read(None, [], received)
    else if q[0].Some? then Read(q[0], q[1..], received)
    else NextParsed(q[1..], received + 1)
  }

  predicate Answers(p: Packet, kinds: set<nat>, xid: nat) {
    p.Some? && p.value.kind in kinds && p.value.xid == xid
  }

  function NextAnswer(q: seq<Packet>, received: nat, kinds: set<nat>, xid: nat): (r: Read)
    ensures |r.queue| <= |q| && (r.msg.Some? ==> |r.queue| < |q| && Answers(r.msg, kinds, xid))
    decreases |q|
  {
    var r := NextParsed(q, received);
    if r.msg.None? || Answers(r.msg, kinds, xid) then r
    else NextAnswer(r.queue, r.received, kinds, xid)
  }

  const ACKS := {DHCPACK, DHCPNAK}
  const OFFERS := {DHCPOFFER}

  /** The message grants a long enough lease. */
  predicate Leases(m: Msg) {
    Word(m, LEASE_TIME).Some? && Word(m, LEASE_TIME).value >= MIN_ACCEPTABLE_LEASE
  }

  /** The message can be used: it grants a lease, it has a network mask, and the caller's hook,
      given by the messages it refuses, does not refuse it. */
  predicate Usable(m: Msg, refused: set<Msg>) {
    Leases(m) && Word(m, SUBNET_MASK).Some? && m !in refused
  }

  predicate UsableOffer(m: Msg, refused: set<Msg>) {
    Usable(m, refused) && Word(m, SERVER_IDENTIFIER).Some?
  }

  function NextOffer(q: seq<Packet>, received: nat, xid: nat, refused: set<Msg>): (r: Read)
    ensures |r.queue| <= |q| && (r.msg.Some? ==> |r.queue| < |q| && UsableOffer(r.msg.value, refused))
    ensures r.msg.Some? ==> Answers(r.msg, OFFERS, xid)
    decreases |q|
  {
    var r := NextAnswer(q, received, OFFERS, xid);
    if r.msg.None? || UsableOffer(r.msg.value, refused) then r
    else NextOffer(r.queue, r.received, xid, refused)
  }

  function Unparsed(q: seq<Packet>): nat {
    if q == [] then 0 else (if q[0].None? then 1 else 0) + Unparsed(q[1..])
  }

  lemma SkipsFirst(q: seq<Packet>, received: nat, kinds: set<nat>, xid: nat)
    requires received < MAX_UNPARSED && q != [] && !Answers(q[0], kinds, xid)
    ensures NextAnswer(q, received, kinds, xid)
            == NextAnswer(q[1..], received + if q[0].None? then 1 else 0, kinds, xid)
  {
  }

  /** An answer that decides: a refusal, or an acknowledgement that can be used. */
  predicate Decides(p: Packet, refused: set<Msg>) {
    p.Some? && (p.value.kind == DHCPNAK || Usable(p.value, refused))
  }

  /** Where an answer leads: a refusal to the start, a usable acknowledgement to being bound, and
      anything else where the clock does. */
  function AfterAnswer(p: Packet, refused: set<Msg>, onTimers: State): State {
    if !Decides(p, refused) then onTimers
    else if p.value.kind == DHCPNAK then Init
    else Bound
  }

  /** The message read is the first that answers, at place `k`, and what came after it is left;
      none is read only if none answers before too many have failed to parse. */
  predicate IsFirst(q: seq<Packet>, received: nat, kinds: set<nat>, xid: nat, k: nat, r: Read) {
    && k <= |q| && (forall i :: 0 <= i < k ==> !Answers(q[i], kinds, xid))
    && received + Unparsed(q[..k]) <= MAX_UNPARSED
    && if r.msg.Some? then k < |q| && r.msg == q[k] && r.queue == q[k + 1..]
       else r.queue == [] && (k == |q| || received + Unparsed(q[..k]) == MAX_UNPARSED)
  }

  lemma IsFirstLater(q: seq<Packet>, received: nat, kinds: set<nat>, xid: nat, k: nat, r: Read)
    requires q != [] && !Answers(q[0], kinds, xid)
    requires IsFirst(q[1..], received + if q[0].None? then 1 else 0, kinds, xid, k, r)
    ensures IsFirst(q, received, kinds, xid, k + 1, r)
  {
    assert q[..k + 1][1..] == q[1..][..k];
  }

  lemma {:induction false} FirstAnswer(q: seq<Packet>, received: nat, kinds: set<nat>, xid: nat) returns (k: nat)
    requires received <= MAX_UNPARSED
    ensures IsFirst(q, received, kinds, xid, k, NextAnswer(q, received, kinds, xid))
    decreases |q|
  {
    k := 0;
    if received < MAX_UNPARSED && q != [] && !Answers(q[0], kinds, xid) {
      var read := received + if q[0].None? then 1 else 0;
      var r := NextAnswer(q[1..], read, kinds, xid);
      SkipsFirst(q, received, kinds, xid);
      k := FirstAnswer(q[1..], read, kinds, xid);
      IsFirstLater(q, received, kinds, xid, k, r);
      k := k + 1;
    }
  }

  /** How far a state is from giving its address up, counted in timeouts alone. */
  function Rank(s: State): nat {
    match s
    case Bound => 3
    case Renewing => 2
    case Rebinding => 1
    case _ => 0
  }

  /** The moves of the client state diagram, section 4.4 of RFC 2131. */
  predicate Allowed(before: State, after: State) {
    after == before ||
    match before
    case Init => after == Selecting
    case InitReboot => after == Rebooting
    case Rebooting => after == Init || after == Bound
    case Selecting => after == Init || after == Requesting
    case Requesting => after == Init || after == Bound
    case Bound => after == Renewing
    case Renewing => after == Rebinding || after == Bound || after == Init
    case Rebinding => after == Bound || after == Init
    case Released => false
  }

  predicate SameBinding(a: Msg, b: Msg) {
    a.yiaddr == b.yiaddr && forall c :: c in BINDING_CODES ==> Opt(a, c) == Opt(b, c)
  }

  /** The message acknowledges this transaction, grants a lease, and gives the configuration. */
  predicate Grants(m: Msg, xid: nat, ip: nat, netmask: nat, router: nat) {
    && m.kind == DHCPACK && m.xid == xid && Leases(m)
    && ip == m.yiaddr && Word(m, SUBNET_MASK) == Some(netmask) && router == WordOr0(m, ROUTER)
  }

  /** The configuration seen is the one that the message gives. */
  predicate Configures(m: Msg, seen: Seen) {
    && seen.bound && seen.ip == m.yiaddr && Some(seen.netmask) == Word(m, SUBNET_MASK)
    && seen.router == WordOr0(m, ROUTER)
  }

  class Client {
    var state: State
    var entered: nat
    const xid: nat
    var ipaddr: nat
    var netmask: nat
    var router: nat
    var serverIp: nat
    var binding: Option<Msg>
    var changed: bool
    var retransmit: nat
    var delay: nat
    var maxTimeout: nat
    var initDelay: nat
    var leaseExpiration: nat
    var boundTimeout: nat
    var renewingTimeout: nat
    var rebindingTimeout: nat
    var minTimeout: nat
    var received: nat
    var queue: seq<Packet>
    /** What the user saw when last told of changes. */
    ghost var told: Seen

    ghost function Current(): Seen
      reads this`state, this`ipaddr, this`netmask, this`router
    {
      if IsBoundState(state) then Seen(true, ipaddr, netmask, router) else Seen(false, 0, 0, 0)
    }

    ghost predicate Valid()
      reads this`state, this`binding, this`ipaddr, this`netmask, this`router, this`changed, this`told
    {
      && (binding.Some? <==> IsBoundState(state))
      && (binding.Some? ==> Grants(binding.value, xid, ipaddr, netmask, router))
      && (!changed ==> Current() == told)
    }

    constructor (xid: nat, now: nat)
      ensures Valid() && state == Released && changed && this.xid == xid
    {
      state, entered, this.xid := Released, now, xid;
      ipaddr, netmask, router, serverIp := 0, 0, 0, 0;
      binding, changed := None, true;
      retransmit, delay, maxTimeout, initDelay := 0, 0, 64, 0;
      leaseExpiration, boundTimeout, renewingTimeout, rebindingTimeout := 0, 0, 0, 0;
      minTimeout, received, queue := 1, 0, [];
      told := Seen(false, 0, 0, 0);
    }

    /** Enters a state.  A bound state may be entered only with a binding in hand; leaving the
        bound states gives the binding up. */
    method Transition(s: State, now: nat)
      requires IsBoundState(s) ==> binding.Some?
      modifies this`state, this`entered, this`retransmit, this`delay, this`changed, this`binding, this`queue
      ensures state == s && entered == now
      ensures changed == (old(changed) || IsBoundState(old(state)) != IsBoundState(s))
      ensures binding == if IsBoundState(old(state)) && !IsBoundState(s) then None else old(binding)
      ensures queue == if s.Selecting? || s.Requesting? || s.Rebooting? then [] else old(queue)
    {
      var wasBound := IsBoundState(state);
      state := s;
      entered := now;
      retransmit, delay := 0, 0;
      var amBound := IsBoundState(state);
      if wasBound != amBound {
        changed := true;
        if amBound {
          assert binding.Some?;
        } else {
          binding := None;
        }
      }
      if state.Selecting? || state.Requesting? || state.Rebooting? {
        queue := [];
      }
    }

    /** The same, from one sound state to another: a bound state only from a bound one. */
    method Enter(s: State, now: nat)
      requires Valid() && (IsBoundState(s) ==> IsBoundState(state))
      modifies this`state, this`entered, this`retransmit, this`delay, this`changed, this`binding, this`queue
      ensures Valid() && state == s && entered == now
      ensures IsBoundState(s) ==> binding == old(binding)
      ensures queue == if s.Selecting? || s.Requesting? || s.Rebooting? then [] else old(queue)
    {
      Transition(s, now);
    }

    method Timeout(secs: nat, now: nat) returns (r: bool)
      modifies this`minTimeout
      ensures r == (now >= SatAdd(entered, secs))
    {
      minTimeout := if secs < minTimeout then secs else minTimeout;
      r := now >= SatAdd(entered, secs);
    }

    /** A number within `spread` of `x`, kept in the unsigned range. */
    method Fuzz(x: nat, spread: nat) returns (r: nat)
      requires x <= UINT_MAX
      ensures SatSub(x, spread) <= r <= SatAdd(x, spread)
    {
      var down, up := 0 - spread, spread;
      var f: int :| down <= f <= up;
      r := if x + f < 0 then 0 else if x + f > UINT_MAX then UINT_MAX else x + f;
    }

    /** Takes messages off the device until one parses; gives up and drops everything after
        fifty that do not. */
    method DoReceive() returns (r: Option<Msg>)
      modifies this`queue, this`received
      ensures Read(r, queue, received) == NextParsed(old(queue), old(received))
    {
      while received < MAX_UNPARSED
        invariant NextParsed(queue, received) == NextParsed(old(queue), old(received))
        decreases MAX_UNPARSED - received
      {
        if queue == [] {
          return None;
        }
        var p := queue[0];
        queue := queue[1..];
        if p.Some? {
          return p;
        }
        received := received + 1;
      }
      queue := [];
      return None;
    }

    /** The next message of one of the given kinds that answers this client. */
    method Receive(kinds: set<nat>) returns (r: Option<Msg>)
      modifies this`queue, this`received
      ensures Read(r, queue, received) == NextAnswer(old(queue), old(received), kinds, xid)
    {
      r := DoReceive();
      while r.Some?
        invariant var first := NextAnswer(old(queue), old(received), kinds, xid);
                  if r.None? || (r.value.kind in kinds && r.value.xid == xid)
                  then first == Read(r, queue, received)
                  else first == NextAnswer(queue, received, kinds, xid)
        decreases |queue|, r.Some?
      {
        if r.value.kind in kinds && r.value.xid == xid {
          return;
        }
        r := DoReceive();
      }
    }

    /** Whether an offer or acknowledgement can be used; the last word is the caller's hook. */
    method ValidateOffered(m: Msg, refused: set<Msg>) returns (ok: bool)
      ensures ok == Usable(m, refused)
    {
      if Word(m, LEASE_TIME).None? || Word(m, SUBNET_MASK).None? {
        return false;
      } else if Word(m, LEASE_TIME).value < MIN_ACCEPTABLE_LEASE {
        return false;
      }
      return m !in refused;
    }

    method CompareBindings(a: Msg, b: Msg) returns (same: bool)
      ensures same == SameBinding(a, b)
    {
      same := a.yiaddr == b.yiaddr;
      for i := 0 to |BINDING_CODES|
        invariant same == (a.yiaddr == b.yiaddr
                           && forall k :: 0 <= k < i ==>
                                Opt(a, BINDING_CODES[k]) == Opt(b, BINDING_CODES[k]))
      {
        if Opt(a, BINDING_CODES[i]) != Opt(b, BINDING_CODES[i]) {
          same := false;
        }
      }
    }

    method CalcT2(lease: nat) returns (t2: nat)
      requires MIN_ACCEPTABLE_LEASE <= lease <= UINT_MAX
      ensures 0 < t2 < lease
      ensures if lease < 60 then t2 == lease * 7 / 8 else lease * 7 / 8 - 10 <= t2 <= lease * 7 / 8 + 10
    {
      t2 := lease * 7 / 8;
      if lease >= 60 {
        var f := Fuzz(t2, 10);
        t2 := Clamp(f, 0, lease - 1);
      }
    }

    method CalcT1(lease: nat, t2: nat) returns (t1: nat)
      requires lease <= UINT_MAX && 0 < t2 <= UINT_MAX
      ensures t1 <= UINT_MAX && if lease >= 60 then t1 < t2 else t1 == lease / 2
      ensures lease >= 60 ==> t1 <= lease / 2 + 10 && (lease / 2 - 10 <= t1 || t1 == t2 - 1)
    {
      t1 := lease / 2;
      if lease >= 60 {
        var f := Fuzz(t1, 10);
        t1 := Clamp(f, 0, t2 - 1);
      }
    }

    /** Takes the server's times `s1` and `s2` if they fit, and defaults otherwise. */
    method ChooseTimes(lease: nat, s1: nat, s2: nat) returns (t1: nat, t2: nat)
      requires MIN_ACCEPTABLE_LEASE <= lease <= UINT_MAX && s1 <= UINT_MAX && s2 <= UINT_MAX
      ensures 0 < t2 < lease && t1 <= UINT_MAX
      ensures 0 < s2 < lease ==> t2 == s2
      ensures 0 < s1 < t2 ==> t1 == s1
      ensures t1 < t2 <==> 0 < s1 < t2 || lease >= 60 || lease / 2 < t2
    {
      t1, t2 := s1, s2;
      if t2 == 0 || t2 >= lease {
        t2 := CalcT2(lease);
      }
      if t1 == 0 || t1 >= t2 {
        t1 := CalcT1(lease, t2);
      }
    }

    /** Works out the lease and when to renew (`t1`) and rebind (`t2`) it.  A server's time is
        used if it fits; the times are in order, and the three waits add up to the lease,
        exactly unless a short lease's default `t1` falls past the server's `t2`. */
    method SetLease(m: Msg, now: nat) returns (t1: nat, t2: nat)
      requires Word(m, LEASE_TIME).Some? && Word(m, LEASE_TIME).value >= MIN_ACCEPTABLE_LEASE
      requires now <= UINT_MAX
      modifies this`leaseExpiration, this`boundTimeout, this`renewingTimeout, this`rebindingTimeout
      ensures var lease, s1, s2 := WordOr0(m, LEASE_TIME), WordOr0(m, T1), WordOr0(m, T2);
              && leaseExpiration == SatAdd(now, lease)
              && 0 < t2 < lease && boundTimeout == t1 && rebindingTimeout == lease - t2
              && (0 < s2 < lease ==> t2 == s2)
              && (0 < s1 < t2 ==> t1 == s1)
              && (t1 < t2 <==> 0 < s1 < t2 || lease >= 60 || lease / 2 < t2)
              && (boundTimeout + renewingTimeout + rebindingTimeout == lease <==> t1 <= t2)
    {
      WordBound(m, LEASE_TIME);
      WordBound(m, T1);
      WordBound(m, T2);
      var lease := WordOr0(m, LEASE_TIME);
      assert lease >= MIN_ACCEPTABLE_LEASE;
      t1, t2 := ChooseTimes(lease, WordOr0(m, T1), WordOr0(m, T2));
      leaseExpiration := SatAdd(now, lease);
      boundTimeout := t1;
      renewingTimeout := (t2 - t1) % (UINT_MAX + 1);
      rebindingTimeout := lease - t2;
    }

    /** Flags the change if the message differs from the binding in hand: unflagged, it gives
        just the configuration the user was told. */
    method FlagDifference(m: Msg)
      requires Valid()
      modifies this`changed
      ensures changed == (old(changed) || (binding.Some? && !SameBinding(binding.value, m)))
      ensures IsBoundState(state) && !changed ==> Configures(m, told)
    {
      if binding.Some? {
        var same := CompareBindings(binding.value, m);
        if same {
          SameBindingSeen(binding.value, m);
        } else {
          changed := true;
        }
      }
    }

    /** Takes over an acknowledged configuration. */
    method Install(m: Msg, now: nat)
      requires Leases(m) && Word(m, SUBNET_MASK).Some? && m.kind == DHCPACK && m.xid == xid && now <= UINT_MAX
      modifies this`binding, this`ipaddr, this`netmask, this`router,
               this`leaseExpiration, this`boundTimeout, this`renewingTimeout, this`rebindingTimeout
      ensures binding == Some(m) && Grants(m, xid, ipaddr, netmask, router)
      ensures leaseExpiration == SatAdd(now, WordOr0(m, LEASE_TIME))
    {
      binding := Some(m);
      var _, _ := SetLease(m, now);
      ipaddr := m.yiaddr;
      netmask := Word(m, SUBNET_MASK).value;
      router := WordOr0(m, ROUTER);
    }

    /** Adopts an acknowledged configuration. */
    method Bind(m: Msg, now: nat)
      requires Valid() && Word(m, SUBNET_MASK).Some? && m.kind == DHCPACK && m.xid == xid
      requires Leases(m) && now <= UINT_MAX
      modifies this
      ensures Valid() && state == Bound && entered == now && told == old(told) && binding == Some(m)
      ensures leaseExpiration == SatAdd(now, WordOr0(m, LEASE_TIME))
      ensures |queue| <= old(|queue|)
    {
      FlagDifference(m);
      Install(m, now);
      Transition(Bound, now);
    }

    /** Handles the next acknowledgement, if there is one. */
    method ReceiveAck(refused: set<Msg>, now: nat) returns (handled: bool)
      requires Valid() && now <= UINT_MAX
      modifies this
      ensures Valid() && |queue| <= old(|queue|) && told == old(told)
      ensures handled ==> |queue| < old(|queue|) && entered == now
      ensures !handled ==> entered == old(entered) && binding == old(binding)
      ensures var a := NextAnswer(old(queue), old(received), ACKS, xid).msg;
              && handled == Decides(a, refused) && state == AfterAnswer(a, refused, old(state))
              && (handled && state == Bound ==> binding == a)
    {
      var r := Receive(ACKS);
      if r.None? {
        return false;
      } else if r.value.kind == DHCPNAK {
        Enter(Init, now);
        return true;
      }
      var ok := ValidateOffered(r.value, refused);
      if ok {
        Bind(r.value, now);
      }
      return ok;
    }

    method SendReliably(now: nat)
      modifies this`minTimeout, this`delay, this`retransmit
      ensures now < SatAdd(entered, old(retransmit)) ==> delay == old(delay) && retransmit == old(retransmit)
      ensures now >= SatAdd(entered, old(retransmit)) ==>
                && delay == (if maxTimeout <= 4 || maxTimeout <= 2 * old(delay) then maxTimeout
                             else if old(delay) <= 2 then 4 else 2 * old(delay))
                && (delay <= UINT_MAX ==>
                      old(retransmit) + SatSub(delay, 1) <= retransmit <= old(retransmit) + delay + 1)
    {
      var due := Timeout(retransmit, now);
      if due {
        var doubled := if 2 * delay > 4 then 2 * delay else 4;
        delay := if doubled > maxTimeout then maxTimeout else doubled;
        var f := Fuzz(if delay > UINT_MAX then UINT_MAX else delay, 1);
        retransmit := retransmit + f;
        var _ := Timeout(retransmit, now);
      }
    }

    // ----- one step in each state

    /** What one step promises about progress: it never adds messages, and if it changes the
        state it has used one up, or entered the new state at this very moment coming from a
        state entered earlier or higher in rank. */
    twostate predicate Progress(now: nat)
      reads this`queue, this`state, this`entered
    {
      && |queue| <= old(|queue|)
      && (state == old(state) ==> entered == old(entered))
      && (state != old(state) ==>
            || |queue| < old(|queue|)
            || (entered == now && old(entered) != now)
            || (entered == now && Rank(state) < old(Rank(state))))
    }

    /** The state that the clock alone leads to. */
    ghost function OnTimers(now: nat): State
      reads this
    {
      match state
      case Init => if now >= SatAdd(entered, initDelay) then Selecting else Init
      case InitReboot => if now >= SatAdd(entered, initDelay) then Rebooting else InitReboot
      case Rebooting => if now >= SatAdd(entered, 60) then Init else Rebooting
      case Selecting => if serverIp != 0 && now >= SatAdd(entered, 60) then Init else Selecting
      case Requesting => if now >= SatAdd(entered, 60) then Init else Requesting
      case Bound => if now >= SatAdd(entered, boundTimeout) then Renewing else Bound
      case Renewing => if now >= SatAdd(entered, renewingTimeout) then Rebinding else Renewing
      case Rebinding => if now >= SatAdd(entered, rebindingTimeout) then Init else Rebinding
      case Released => Released
    }

    /** The state that messages and the clock lead to: an answer counts before the clock. */
    ghost function Next(refused: set<Msg>, now: nat): State
      reads this
    {
      if AwaitsAck(state)
      then AfterAnswer(NextAnswer(queue, 0, ACKS, xid).msg, refused, OnTimers(now))
      else if state.Selecting? && NextOffer(queue, 0, xid, refused).msg.Some? then Requesting
      else OnTimers(now)
    }

    /** A random delay is still to be drawn. */
    ghost predicate Undecided()
      reads this
    {
      (state.Init? || state.InitReboot?) && initDelay == 0
    }

    method StepInit(next: State, now: nat)
      requires Valid() && now < UINT_MAX
      requires !IsBoundState(state) && !IsBoundState(next) && next != state
      modifies this
      ensures Valid() && Progress(now) && told == old(told)
      ensures if old(initDelay) != 0 then initDelay == old(initDelay) else 1 <= initDelay <= 3
      ensures state == if now >= SatAdd(old(entered), initDelay) then next else old(state)
    {
      if initDelay == 0 {
        initDelay := Fuzz(2, 1);
      }
      var due := Timeout(initDelay, now);
      if due {
        Enter(next, now);
      }
    }

    /** Looks for an acceptable offer; if one is found, asks for its address. */
    method AcceptOffer(refused: set<Msg>, now: nat)
      requires Valid() && !IsBoundState(state)
      modifies this`queue, this`received, this`serverIp, this`ipaddr, this`state, this`entered,
               this`retransmit, this`delay, this`changed, this`binding
      ensures Valid() && |queue| <= old(|queue|)
      ensures var o := NextOffer(old(queue), old(received), xid, refused);
              if o.msg.Some?
              then && state == Requesting && entered == now && |queue| < old(|queue|)
                   && ipaddr == o.msg.value.yiaddr && Some(serverIp) == Word(o.msg.value, SERVER_IDENTIFIER)
              else state == old(state) && entered == old(entered) && ipaddr == old(ipaddr) && serverIp == old(serverIp)
    {
      var r := Receive(OFFERS);
      while r.Some?
        invariant Valid() && state == old(state) && entered == old(entered)
        invariant ipaddr == old(ipaddr) && serverIp == old(serverIp)
        invariant |queue| <= old(|queue|) && (r.Some? ==> |queue| < old(|queue|))
        invariant var o := NextOffer(old(queue), old(received), xid, refused);
                  if r.None? || UsableOffer(r.value, refused) then o == Read(r, queue, received)
                  else o == NextOffer(queue, received, xid, refused)
        decreases |queue|, r.Some?
      {
        var ok := ValidateOffered(r.value, refused);
        if ok && Word(r.value, SERVER_IDENTIFIER).Some? {
          serverIp := Word(r.value, SERVER_IDENTIFIER).value;
          ipaddr := r.value.yiaddr;
          Enter(Requesting, now);
          return;
        }
        r := Receive(OFFERS);
      }
    }

    /** Gives a selection up that has been going for a minute after an offer. */
    method ExpireSelection(now: nat)
      requires Valid() && now < UINT_MAX && state == Selecting
      modifies this`state, this`entered, this`retransmit, this`delay, this`changed, this`binding, this`queue,
               this`serverIp, this`minTimeout
      ensures Valid() && queue == old(queue)
      ensures state == old(OnTimers(now)) && entered == (if state == Selecting then old(entered) else now)
    {
      SendReliably(now);
      if serverIp != 0 {
        var due := Timeout(60, now);
        if due {
          serverIp := 0;
          Enter(Init, now);
        }
      }
    }

    /** Offers are looked at even when the selection has just timed out. */
    method StepSelecting(refused: set<Msg>, now: nat)
      requires Valid() && now < UINT_MAX && state == Selecting
      modifies this
      ensures Valid() && Progress(now) && told == old(told)
      ensures var o := NextOffer(old(queue), old(received), xid, refused);
              && state == (if o.msg.Some? then Requesting else old(OnTimers(now)))
              && (o.msg.Some? ==>
                    ipaddr == o.msg.value.yiaddr && Some(serverIp) == Word(o.msg.value, SERVER_IDENTIFIER))
    {
      ExpireSelection(now);
      AcceptOffer(refused, now);
    }

    /** Leaves the state for `next` once it has lasted `secs` seconds. */
    method FallBack(next: State, secs: nat, now: nat)
      requires Valid() && next != state && (IsBoundState(next) ==> IsBoundState(state))
      modifies this`state, this`entered, this`retransmit, this`delay, this`changed, this`binding, this`queue,
               this`minTimeout
      ensures Valid() && |queue| <= old(|queue|)
      ensures if now >= SatAdd(old(entered), secs) then state == next && entered == now
              else state == old(state) && entered == old(entered)
    {
      var due := Timeout(secs, now);
      if due {
        Enter(next, now);
      }
    }

    /** Waits for an acknowledgement, falling back to `next` after `secs` seconds. */
    method StepAwaitAck(next: State, secs: nat, refused: set<Msg>, now: nat)
      requires Valid() && now < UINT_MAX && next != state && next != Bound && state != Init && state != Bound
      requires IsBoundState(next) ==> IsBoundState(state)
      requires secs > 0 || Rank(next) < Rank(state)
      modifies this
      ensures Valid() && Progress(now) && told == old(told)
      ensures var a := NextAnswer(old(queue), old(received), ACKS, xid).msg;
              && state == AfterAnswer(a, refused, if now >= SatAdd(old(entered), secs) then next else old(state))
              && (state == Bound ==> binding == a)
    {
      SendReliably(now);
      var handled := ReceiveAck(refused, now);
      if !handled {
        FallBack(next, secs, now);
      }
    }

    /** A step in the states that wait for an acknowledgement. */
    method StepAnswering(refused: set<Msg>, now: nat)
      requires Valid() && now < UINT_MAX && received == 0
      requires AwaitsAck(state)
      modifies this
      ensures Valid() && Progress(now) && told == old(told)
      ensures var a := NextAnswer(old(queue), 0, ACKS, xid).msg;
              && state == AfterAnswer(a, refused, old(OnTimers(now)))
              && (state == Bound ==> binding == a)
    {
      match state
      case Rebooting => StepAwaitAck(Init, 60, refused, now);
      case Requesting => StepAwaitAck(Init, 60, refused, now);
      case Renewing => StepAwaitAck(Rebinding, renewingTimeout, refused, now);
      case Rebinding => StepAwaitAck(Init, rebindingTimeout, refused, now);
    }

    /** A step in the states that wait for the clock alone. */
    method StepWaiting(now: nat)
      requires Valid() && now < UINT_MAX && !AwaitsAck(state) && state != Selecting
      modifies this
      ensures Valid() && Progress(now) && told == old(told)
      ensures Allowed(old(state), state) && (!old(Undecided()) ==> state == old(OnTimers(now)))
    {
      match state
      case Init => StepInit(Selecting, now);
      case InitReboot => StepInit(Rebooting, now);
      case Bound => FallBack(Renewing, boundTimeout, now);
      case Released =>
    }

    method Step(refused: set<Msg>, now: nat)
      requires Valid() && now < UINT_MAX
      modifies this
      ensures Valid() && Progress(now) && told == old(told)
      ensures Allowed(old(state), state)
      ensures !old(Undecided()) ==> state == old(Next(refused, now))
      ensures state == Bound && old(state) != Bound ==> binding == NextAnswer(old(queue), 0, ACKS, xid).msg
      ensures state == Requesting && old(state) != Requesting ==>
                var o := NextOffer(old(queue), 0, xid, refused).msg;
                && o.Some? && ipaddr == o.value.yiaddr
                && Some(serverIp) == Word(o.value, SERVER_IDENTIFIER)
    {
      minTimeout := UINT_MAX;
      received := 0;
      if AwaitsAck(state) {
        StepAnswering(refused, now);
      } else if state.Selecting? {
        StepSelecting(refused, now);
      } else {
        StepWaiting(now);
      }
    }

    /** Steps until the state stops changing.  Terminates at any time of day, whatever is
        waiting to be received. */
    method Run(refused: set<Msg>, now: nat)
      requires Valid() && now < UINT_MAX
      modifies this
      ensures Valid() && told == old(told)
    {
      var before := state;
      Step(refused, now);
      while state != before
        invariant Valid() && told == old(told)
        decreases |queue|, entered != now, Rank(state), state != before
      {
        before := state;
        Step(refused, now);
      }
    }

    // ----- requests from the user

    method Restart(requestedIp: nat, now: nat)
      requires Valid()
      modifies this
      ensures Valid() && told == old(told) && entered == now && initDelay == 0
      ensures state == (if requestedIp != 0 then InitReboot else Init) && ipaddr == requestedIp && queue == old(queue)
    {
      Enter(if requestedIp != 0 then InitReboot else Init, now);
      ipaddr := requestedIp;
      minTimeout, initDelay := 0, 0;
    }

    method Release(now: nat)
      requires Valid()
      modifies this
      ensures Valid() && told == old(told) && state == Released && entered == now
    {
      Enter(Released, now);
      minTimeout := UINT_MAX;
    }

    method ForceRenew(deadline: nat, now: nat)
      requires Valid()
      modifies this
      ensures Valid() && told == old(told) && queue == []
      ensures old(state).Released? ==> state == Init && entered == now
      ensures !old(state).Released? && !IsBoundState(old(state)) ==> state == old(state)
      ensures IsBoundState(old(state)) ==>
                var left := SatSub(leaseExpiration, now);
                var limit := if left <= deadline then left else deadline;
                if left <= deadline && !old(state).Bound? then
                  state == old(state) && entered == old(entered)
                else
                  && entered == now && state == (if old(state).Rebinding? then Rebinding else Renewing)
                  && limit - 1 <= (if state.Renewing? then renewingTimeout else 0) + rebindingTimeout <= limit
    {
      queue := [];
      if state.Released? {
        Restart(0, now);
      } else if IsBoundState(state) {
        var left := SatSub(leaseExpiration, now);
        var limit := deadline;
        if left <= deadline {
          if !state.Bound? {
            return;
          }
          limit := left;
        }
        if !state.Rebinding? {
          Enter(Renewing, now);
          renewingTimeout := limit * 3 / 4;
          rebindingTimeout := limit / 4;
        } else {
          Enter(Rebinding, now);
          rebindingTimeout := limit;
        }
        minTimeout := 0;
      }
    }

    /** Tells the user whether anything may have changed since last asked: a `false` answer
        means the configuration is the one last told. */
    method TakeChanged() returns (r: bool)
      requires Valid()
      modifies this`changed, this`told
      ensures Valid() && !changed && told == Current()
      ensures !r ==> told == old(told)
    {
      r := changed;
      changed := false;
      told := Current();
    }
  }

  lemma SameBindingSeen(a: Msg, b: Msg)
    requires SameBinding(a, b)
    ensures a.yiaddr == b.yiaddr && Word(a, SUBNET_MASK) == Word(b, SUBNET_MASK)
    ensures WordOr0(a, ROUTER) == WordOr0(b, ROUTER)
  {
    assert BINDING_CODES[0] == SUBNET_MASK && BINDING_CODES[1] == ROUTER;
  }

  lemma WordBound(m: Msg, code: nat)
    ensures WordOr0(m, code) <= UINT_MAX
  {
  }
}
