/**
  A reliable connection: five states, a transmit queue whose packets may carry a pointer to an
  in-flight counter, and exponential back-off.  Proved of every call, whatever the
  underlying connection does: each counter is its starting value plus the packets in the
  queue that carry it, and running the state machine terminates at any fixed time.
*/
module Rconn {
  import opened Common

  datatype State = Void | Backoff | Connecting | Active | Idle

  /** A caller's count of its packets in flight. */
  class Counter {
    var n: int
    constructor (n: int)
      ensures this.n == n
    {
      this.n := n;
    }
  }

  datatype Packet = Packet(counter: Counter?, xid: nat)

  ghost function Carried(p: Packet): set<Counter> {
    if p.counter == null then {} else {p.counter}
  }

  /** What a call on the underlying connection comes back with. */
  datatype Outcome = Done | Again | Failed

  /** When back-off starts over: at once, from some time on, or not until set again. */
  datatype Deadline = Past | At(time: nat) | Never

  predicate Reached(d: Deadline, now: nat) {
    d.Past? || (d.At? && now >= d.time)
  }

  /** Waits double up to the limit and start over at one second after a quiet spell. */
  function NextBackoff(startOver: bool, backoff: nat, limit: nat): nat {
    if startOver then 1
    else
      var doubled := if 2 * backoff > 1 then 2 * backoff else 1;
      if doubled > limit then limit else doubled
  }

  /** The wait after the given number of failures in a row, none of them after a quiet spell. */
  function WaitAfter(failures: nat, limit: nat): nat {
    if failures == 0 then 0 else NextBackoff(false, WaitAfter(failures - 1, limit), limit)
  }

  /** Waits go 1, 2, 4, ... and stay at the limit once they have reached it. */
  lemma {:induction false} WaitsDouble(failures: nat, limit: nat)
    requires limit >= 1
    ensures WaitAfter(failures + 1, limit) == if TwoTo(failures) < limit then TwoTo(failures) else limit
  {
    if failures > 0 {
      WaitsDouble(failures - 1, limit);
    }
  }

  ghost function InFlight(q: seq<Packet>, c: Counter): nat {
    if q == [] then 0
    else InFlight(q[1..], c) + (if q[0].counter == c then 1 else 0)
  }

  lemma {:induction false} InFlightAppend(q: seq<Packet>, p: Packet, c: Counter)
    ensures InFlight(q + [p], c) == InFlight(q, c) + (if p.counter == c then 1 else 0)
  {
    if q == [] {
      assert [] + [p] == [p];
    } else {
      assert (q + [p])[1..] == q[1..] + [p];
      InFlightAppend(q[1..], p, c);
    }
  }

  predicate IsConnected(s: State) {
    s.Active? || s.Idle?
  }

  predicate HasConnection(s: State) {
    s.Connecting? || s.Active? || s.Idle?
  }

  /** How far along a connection attempt a state is. */
  function Rank(s: State): nat {
    match s
    case Connecting => 3
    case Active => 2
    case Idle => 1
    case _ => 0
  }

  class Connection {
    var state: State
    var entered: nat
    var vconn: bool
    var reliable: bool
    var txq: seq<Packet>
    var backoff: nat
    var maxBackoff: nat
    var deadline: Deadline
    var lastReceived: nat
    var lastConnected: nat
    var packetsSent: nat
    var seqno: nat
    var questionable: bool
    var lastQuestioned: nat
    var probeInterval: nat
    var idleEchoXid: nat
    /** Counters that have been used, with the value each would have with nothing in flight. */
    ghost var base: map<Counter, int>

    ghost predicate Counted()
      reads this`txq, this`base, base.Keys
    {
      && (forall i :: 0 <= i < |txq| ==> txq[i].counter == null || txq[i].counter in base)
      && (forall c :: c in base ==> c.n == base[c] + InFlight(txq, c))
    }

    ghost predicate Valid()
      reads this, base.Keys
    {
      && Counted()
      && (vconn <==> HasConnection(state))
      && maxBackoff >= 1 && (state.Backoff? ==> backoff >= 1)
      && (seqno % 2 == 1 <==> state.Active?)
      && (state.Idle? ==> probeInterval >= 1)
      && (state.Backoff? ==> reliable)
    }

    constructor (probeInterval: nat, maxBackoff: nat, now: nat)
      ensures Valid() && state == Void && txq == [] && base == map[]
    {
      state, entered, vconn, reliable, txq := Void, now, false, false, [];
      backoff, this.maxBackoff := 0, if maxBackoff != 0 then maxBackoff else 60;
      deadline := Past;
      lastReceived, lastConnected, packetsSent, seqno := now, now, 0, 0;
      questionable, lastQuestioned := false, now;
      this.probeInterval, idleEchoXid := probeInterval, 0;
      base := map[];
    }

    /** No counter has grown. */
    twostate predicate NoCounterGrew()
      reads this`base, base.Keys
    {
      base == old(base) && forall c :: c in base ==> c.n <= old(c.n)
    }

    /** The queue has lost from its front exactly the packets that were sent. */
    twostate predicate SentInOrder()
      reads this`txq, this`packetsSent
    {
      && old(packetsSent) <= packetsSent <= old(packetsSent) + |old(txq)|
      && txq == old(txq)[packetsSent - old(packetsSent)..]
    }

    /** The connection was lost just now. */
    twostate predicate Dropped(now: nat)
      reads this`state, this`entered
    {
      state == (if old(reliable) then Backoff else Void) && entered == now
    }

    method Transition(s: State, now: nat)
      modifies this`state, this`entered, this`seqno
      ensures state == s && entered == now
      ensures seqno == old(seqno) + if old(state).Active? != s.Active? then 1 else 0
    {
      seqno := seqno + if state.Active? != s.Active? then 1 else 0;
      state, entered := s, now;
    }

    /** Takes the first packet off the queue and out of its counter. */
    method PopHead()
      requires Counted() && txq != []
      modifies this`txq, base.Keys
      ensures Counted() && txq == old(txq)[1..] && NoCounterGrew()
    {
      var c := txq[0].counter;
      if c != null {
        c.n := c.n - 1;
      }
      txq := txq[1..];
      assert forall i :: 0 <= i < |txq| ==> txq[i] == old(txq)[i + 1];
    }

    method FlushQueue()
      requires Counted()
      modifies this`txq, base.Keys
      ensures Counted() && txq == [] && NoCounterGrew()
    {
      while |txq| > 0
        invariant Counted() && NoCounterGrew()
        decreases |txq|
      {
        PopHead();
      }
    }

    method QuestionConnectivity(now: nat)
      modifies this`questionable, this`lastQuestioned
      ensures if now > old(lastQuestioned) + 60 then questionable && lastQuestioned == now
              else questionable == old(questionable) && lastQuestioned == old(lastQuestioned)
    {
      if now > lastQuestioned + 60 {
        questionable := true;
        lastQuestioned := now;
      }
    }

    /** Lets go of the connection for good.  Packets in the queue stay there. */
    method Abandon(now: nat)
      requires Valid()
      modifies this
      ensures Valid() && state == Void && NoCounterGrew() && txq == old(txq)
      ensures old(state) != Void ==> !reliable && entered == now
      ensures old(state) == Void ==> reliable == old(reliable)
    {
      if !state.Void? {
        vconn := false;
        reliable := false;
        backoff := 0;
        deadline := Past;
        Transition(Void, now);
      }
    }

    method BackOff(now: nat)
      requires maxBackoff >= 1 && (seqno % 2 == 1 <==> state.Active?)
      modifies this`backoff, this`deadline, this`state, this`entered, this`seqno
      ensures state == Backoff && entered == now && seqno % 2 == 0
      ensures backoff == NextBackoff(Reached(old(deadline), now), old(backoff), maxBackoff)
      ensures backoff >= 1 && deadline == At(now + backoff)
    {
      if Reached(deadline, now) {
        backoff := 1;
      } else {
        var doubled := if 2 * backoff > 1 then 2 * backoff else 1;
        backoff := if doubled > maxBackoff then maxBackoff else doubled;
      }
      deadline := At(now + backoff);
      Transition(Backoff, now);
    }

    /** Drops the connection after a failure.  A reliable connection backs off and, if it had
        got as far as connecting, loses its queue; an unreliable one is let go of, keeping it. */
    method Disconnect(now: nat)
      requires Valid()
      modifies this, base.Keys
      ensures Valid() && NoCounterGrew()
      ensures state == if old(reliable) then Backoff else Void
      ensures old(reliable) || old(state) != Void ==> entered == now
      ensures txq == if old(reliable) && HasConnection(old(state)) then [] else old(txq)
      ensures old(reliable) ==>
                && reliable && deadline == At(now + backoff)
                && backoff == NextBackoff(Reached(old(deadline), now), old(backoff), maxBackoff)
    {
      if reliable {
        if HasConnection(state) {
          vconn := false;
          FlushQueue();
        }
        BackOff(now);
        if now > lastConnected + 60 {
          QuestionConnectivity(now);
        }
      } else {
        Abandon(now);
      }
    }

    /** Opens the underlying connection afresh; a failure to open does not reset back-off. */
    method Reconnect(now: nat)
      requires Valid() && !HasConnection(state) && reliable
      modifies this, base.Keys
      ensures Valid() && NoCounterGrew() && txq == old(txq)
      ensures entered == now && (state == Connecting || state == Backoff)
      ensures state == Backoff ==> backoff == NextBackoff(false, old(backoff), maxBackoff)
      ensures state == Connecting ==> backoff == old(backoff)
      ensures deadline == At(now + backoff)
    {
      var isOpen: bool := *;
      if isOpen {
        vconn := true;
        var reconnectable: bool := *;
        if !reconnectable {
          reliable := false;
        }
        deadline := At(now + backoff);
        Transition(Connecting, now);
      } else {
        deadline := Never;
        Disconnect(now);
      }
    }

    /** How many seconds the present state may last. */
    function Timeout(): nat
      reads this
    {
      match state
      case Void => UINT_MAX
      case Backoff => backoff
      case Connecting => if backoff > 1 then backoff else 1
      case Active =>
        if probeInterval == 0 then UINT_MAX
        else (if lastReceived > entered then lastReceived - entered else 0) + probeInterval
      case Idle => probeInterval
    }

    predicate TimedOut(now: nat)
      reads this
    {
      now >= SatAdd(entered, Timeout())
    }

    /** Offers the first packet to the connection; an error that is not temporary drops it. */
    method TrySend(now: nat) returns (r: Outcome)
      requires Valid() && IsConnected(state) && txq != []
      modifies this, base.Keys
      ensures Valid() && NoCounterGrew()
      ensures r.Done? ==> txq == old(txq)[1..] && state == old(state) && entered == old(entered)
                          && packetsSent == old(packetsSent) + 1
      ensures r.Again? ==> txq == old(txq) && state == old(state) && entered == old(entered)
                           && packetsSent == old(packetsSent)
      ensures r.Failed? ==> Dropped(now)
      ensures !r.Failed? ==> idleEchoXid == if r.Done? then old(txq)[0].xid else 0
      ensures !r.Failed? ==> reliable == old(reliable) && Timeout() == old(Timeout())
    {
      idleEchoXid := txq[0].xid;
      var outcome: Outcome := *;
      r := outcome;
      if !r.Done? {
        idleEchoXid := 0;
        if r.Failed? {
          Disconnect(now);
        }
        return;
      }
      packetsSent := packetsSent + 1;
      PopHead();
    }

    /** Puts a packet at the end of the queue and into its counter. */
    method PushTail(p: Packet)
      requires Counted()
      modifies this`txq, this`base, base.Keys, Carried(p)
      ensures Counted() && txq == old(txq) + [p]
      ensures p.counter == null || p.counter in old(base) ==> base == old(base)
      ensures p.counter != null && p.counter !in old(base) ==> base == old(base)[p.counter := old(p.counter.n)]
      ensures forall c :: c in old(base) ==> c.n == old(c.n) + if c == p.counter then 1 else 0
      ensures p.counter != null ==> p.counter.n == old(p.counter.n) + 1
    {
      if p.counter != null {
        if p.counter !in base {
          NoneInFlight(txq, p.counter);
          base := base[p.counter := p.counter.n];
        }
        p.counter.n := p.counter.n + 1;
      }
      txq := txq + [p];
      forall c: Counter | c in base ensures c.n == base[c] + InFlight(txq, c) {
        InFlightAppend(old(txq), p, c);
      }
    }

    /** Queues a packet if connected, and tries to send it at once if the queue was empty. */
    method Send(p: Packet, now: nat) returns (accepted: bool)
      requires Valid()
      modifies this, base.Keys, Carried(p)
      ensures Valid() && accepted == IsConnected(old(state))
      ensures old(base).Keys <= base.Keys <= old(base).Keys + Carried(p)
      ensures forall c :: c in old(base) ==> c.n <= old(c.n) + if c == p.counter then 1 else 0
      ensures p.counter != null ==> p.counter.n <= old(p.counter.n) + 1
      ensures !accepted ==> NoCounterGrew() && txq == old(txq) && state == old(state)
                            && entered == old(entered)
      ensures accepted && old(txq) != [] ==> txq == old(txq) + [p] && state == old(state)
      ensures (state == old(state) && entered == old(entered)) || Dropped(now)
      ensures p.counter == null ==> NoCounterGrew()
    {
      if !IsConnected(state) {
        return false;
      }
      PushTail(p);
      if |txq| == 1 {
        var _ := TrySend(now);
      }
      return true;
    }

    /** Sends a packet unless its counter is at the limit already. */
    method SendWithLimit(p: Packet, limit: int, now: nat) returns (accepted: bool)
      requires Valid() && p.counter != null
      modifies this, base.Keys, Carried(p)
      ensures Valid() && accepted == (old(p.counter.n) < limit && IsConnected(old(state)))
      ensures old(base).Keys <= base.Keys <= old(base).Keys + Carried(p)
      ensures p.counter.n <= old(p.counter.n) || p.counter.n <= limit
      ensures forall c :: c in old(base) && c != p.counter ==> c.n <= old(c.n)
      ensures !accepted ==> NoCounterGrew() && txq == old(txq) && state == old(state)
    {
      if p.counter.n >= limit {
        return false;
      }
      accepted := Send(p, now);
    }

    /** Connects reliably, trying again for ever. */
    method Connect(now: nat)
      requires Valid()
      modifies this, base.Keys
      ensures Valid() && NoCounterGrew() && txq == old(txq)
      ensures entered == now && (state == Connecting || state == Backoff)
    {
      Abandon(now);
      reliable := true;
      Reconnect(now);
    }

    /** Adopts a connection made elsewhere, which is let go of at its first failure. */
    method ConnectUnreliably(now: nat)
      requires Valid()
      modifies this
      ensures Valid() && NoCounterGrew() && txq == old(txq)
      ensures state == Active && !reliable && entered == now && lastConnected == now
    {
      Abandon(now);
      reliable := false;
      vconn := true;
      lastConnected := now;
      Transition(Active, now);
    }

    /** Takes in one message.  Anything but an echo reply to some other request ends a probe. */
    method Receive(outcome: Outcome, isEchoReply: bool, xid: nat, now: nat)
      requires Valid()
      modifies this, base.Keys
      ensures Valid() && NoCounterGrew()
      ensures !IsConnected(old(state)) || outcome.Again? ==> state == old(state) && txq == old(txq)
      ensures IsConnected(old(state)) && outcome.Done? ==>
                && lastReceived == now && txq == old(txq)
                && state == (if isEchoReply && old(idleEchoXid) !in {0, xid} then old(state) else Active)
      ensures IsConnected(old(state)) && outcome.Done? ==>
                idleEchoXid == if old(state).Idle? && isEchoReply then 0 else old(idleEchoXid)
      ensures IsConnected(old(state)) && outcome.Failed? ==>
                && state == (if old(reliable) then Backoff else Void)
                && txq == if old(reliable) then [] else old(txq)
    {
      if !IsConnected(state) {
        return;
      }
      if outcome.Done? {
        lastReceived := now;
        if state.Idle? {
          if isEchoReply {
            if idleEchoXid == 0 {
              Transition(Active, now);
            } else {
              if idleEchoXid == xid {
                Transition(Active, now);
              }
              idleEchoXid := 0;
            }
          } else {
            Transition(Active, now);
          }
        }
      } else if outcome.Failed? {
        Disconnect(now);
      }
    }

    /** Sends packets from the front of the queue until one is refused. */
    method DoTxWork(now: nat)
      requires Valid() && IsConnected(state)
      modifies this, base.Keys
      ensures Valid() && NoCounterGrew()
      ensures if IsConnected(state)
              then state == old(state) && entered == old(entered) && SentInOrder()
                   && Timeout() == old(Timeout())
              else Dropped(now)
    {
      while |txq| > 0
        invariant Valid() && NoCounterGrew()
        invariant IsConnected(state) && state == old(state) && entered == old(entered)
        invariant SentInOrder()
        invariant reliable == old(reliable) && Timeout() == old(Timeout())
        decreases |txq|
      {
        var r := TrySend(now);
        if !r.Done? {
          break;
        }
      }
    }

    /** A state change is stamped with the present time and, within one second, only goes
        forward through a connection attempt. */
    twostate predicate Progress(now: nat)
      reads this
    {
      state != old(state) ==> entered == now && (old(entered) != now || Rank(state) < Rank(old(state)))
    }

    method RunConnecting(now: nat)
      requires Valid() && state == Connecting
      modifies this, base.Keys
      ensures Valid() && NoCounterGrew() && Progress(now)
      ensures state == Connecting ==> !TimedOut(now) && entered == old(entered) && txq == old(txq)
      ensures state == Active ==> lastConnected == now && txq == old(txq)
      ensures state != Idle
    {
      var outcome: Outcome := *;
      if outcome.Done? {
        Transition(Active, now);
        lastConnected := entered;
      } else if outcome.Failed? {
        Disconnect(now);
      } else if TimedOut(now) {
        deadline := Never;
        Disconnect(now);
      }
    }

    method RunActive(probeXid: nat, now: nat)
      requires Valid() && state == Active && now < UINT_MAX
      modifies this, base.Keys
      ensures Valid() && NoCounterGrew() && Progress(now)
      ensures state == Idle ==> old(TimedOut(now))
      ensures state == Active ==> !TimedOut(now) && entered == old(entered) && SentInOrder()
      ensures !IsConnected(state) ==> Dropped(now)
    {
      if TimedOut(now) {
        Transition(Idle, now);
        var _ := Send(Packet(null, probeXid), now);
        return;
      }
      DoTxWork(now);
    }

    method RunIdle(now: nat)
      requires Valid() && state == Idle
      modifies this, base.Keys
      ensures Valid() && NoCounterGrew() && Progress(now)
      ensures state == Idle ==> !TimedOut(now) && entered == old(entered) && SentInOrder()
      ensures state != Idle ==> Dropped(now)
    {
      if TimedOut(now) {
        QuestionConnectivity(now);
        Disconnect(now);
      } else {
        DoTxWork(now);
      }
    }

    method RunBackoff(now: nat)
      requires Valid() && state == Backoff && now < UINT_MAX
      modifies this, base.Keys
      ensures Valid() && NoCounterGrew() && Progress(now) && txq == old(txq)
      ensures !old(TimedOut(now)) ==> state == Backoff && entered == old(entered)
      ensures old(TimedOut(now)) ==> entered == now && (state == Connecting || state == Backoff)
      ensures state == Backoff ==> !TimedOut(now)
    {
      if TimedOut(now) {
        Reconnect(now);
      }
    }

    /** Runs until the state settles, which it does at any one time: no state is left timed
        out, except the void one, which nothing ends. */
    method Run(probeXid: nat, now: nat)
      requires Valid() && now < UINT_MAX
      modifies this, base.Keys
      ensures Valid() && NoCounterGrew()
      ensures old(state) == Void ==> state == Void && txq == old(txq)
      ensures state != old(state) ==> entered == now
      ensures state != Void ==> !TimedOut(now)
    {
      var before := state;
      var settled := false;
      while !settled
        invariant Valid() && NoCounterGrew()
        invariant old(state) == Void ==> state == Void && txq == old(txq)
        invariant state != old(state) ==> entered == now
        invariant settled && state != Void ==> !TimedOut(now)
        decreases entered != now, Rank(state), !settled
      {
        before := state;
        match state {
          case Void =>
          case Backoff => RunBackoff(now);
          case Connecting => RunConnecting(now);
          case Active => RunActive(probeXid, now);
          case Idle => RunIdle(now);
        }
        settled := state == before;
      }
    }

    /** Any one operation.  It raises no counter but the one its packet carries, and that only
        as far as the limit it is given. */
    method Apply(op: Operation, now: nat)
      requires Valid() && Proper(op) && now < UINT_MAX
      modifies this, base.Keys, Users(op)
      ensures Valid() && old(base).Keys <= base.Keys <= old(base).Keys + Users(op)
      ensures forall c :: c in old(base).Keys + Users(op) ==>
                c.n <= old(c.n) || (op.Send? && op.p.counter == c)
                || (op.SendLimited? && op.p.counter == c && c.n <= op.limit)
    {
      match op {
        case Connect => Connect(now);
        case Adopt => ConnectUnreliably(now);
        case Disconnect => Abandon(now);
        case Send(p) => var _ := Send(p, now);
        case SendLimited(p, limit) => var _ := SendWithLimit(p, limit, now);
        case Receive(outcome, isEchoReply, xid) => Receive(outcome, isEchoReply, xid, now);
        case Run(probeXid) => Run(probeXid, now);
      }
    }

    /** Any sequence of operations at any times.  A counter that only ever travels with packets
        sent under a limit ends no higher than it began or than that limit, and every counter
        is its starting value plus the queued packets that carry it. */
    method Drive(ops: seq<Operation>, times: seq<nat>, c: Counter, limit: int)
      requires Valid() && |times| == |ops|
      requires forall i :: 0 <= i < |ops| ==> Proper(ops[i]) && Respects(ops[i], c, limit) && times[i] < UINT_MAX
      modifies this, base.Keys, AllUsers(ops)
      ensures Valid() && (c.n <= old(c.n) || c.n <= limit)
    {
      for i := 0 to |ops|
        invariant Valid() && base.Keys <= old(base).Keys + AllUsers(ops)
        invariant c.n <= old(c.n) || c.n <= limit
      {
        assert Users(ops[i]) <= AllUsers(ops);
        Apply(ops[i], times[i]);
      }
    }
  }

  /** What can be asked of a connection. */
  datatype Operation =
    | Connect
    | Adopt
    | Disconnect
    | Send(p: Packet)
    | SendLimited(p: Packet, limit: int)
    | Receive(outcome: Outcome, isEchoReply: bool, xid: nat)
    | Run(probeXid: nat)

  predicate Proper(op: Operation) {
    op.SendLimited? ==> op.p.counter != null
  }

  /** Counters that an operation hands over. */
  ghost function Users(op: Operation): set<Counter> {
    if op.Send? || op.SendLimited? then Carried(op.p) else {}
  }

  ghost function AllUsers(ops: seq<Operation>): set<Counter> {
    set i, c | 0 <= i < |ops| && c in Users(ops[i]) :: c
  }

  /** The operation sends packets with the counter only under the limit. */
  predicate Respects(op: Operation, c: Counter, limit: int) {
    match op
    case Send(p) => p.counter != c
    case SendLimited(p, l) => p.counter == c ==> l <= limit
    case _ => true
  }

  lemma {:induction false} NoneInFlight(q: seq<Packet>, c: Counter)
    requires forall i :: 0 <= i < |q| ==> q[i].counter != c
    ensures InFlight(q, c) == 0
  {
    if q != [] {
      NoneInFlight(q[1..], c);
    }
  }
}
