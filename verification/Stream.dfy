/**
  Framing OpenFlow messages over a byte stream whose reads and writes may fall short: one
  end's transmit buffer, the other end's reassembly buffer, and the proof that what comes
  out is, message for message, what went in.
*/
module Stream {
  import opened Common

  type Message = seq<byte>

  /** Size of an OpenFlow header: version, type, 16-bit length, 32-bit transaction id. */
  const HEADER := 8

  /** What a read or write call comes back with; a count may fall short of the request. */
  datatype Outcome = Count(n: nat) | Again | Broken

  function LengthField(b: seq<byte>): nat
    requires |b| >= 4
  {
    var hi: int, lo: int := b[2], b[3];
    hi * 256 + lo
  }

  /** The length field tells the truth. */
  predicate Framed(m: Message) {
    |m| >= HEADER && LengthField(m) == |m|
  }

  // ----- transmitting

  datatype Status = Accepted | Busy | Failed

  datatype Sent = Sent(txbuf: Option<Message>, written: seq<byte>, status: Status)

  function Send(txbuf: Option<Message>, m: Message, w: Outcome): Sent
    requires w.Count? ==> w.n <= |m|
  {
    if txbuf.Some? then Sent(txbuf, [], Busy)
    else
      match w
      case Count(n) =>
        if n == |m| then Sent(None, m, Accepted) else Sent(Some(m[n..]), m[..n], Accepted)
      case Again => Sent(Some(m), [], Accepted)
      case Broken => Sent(None, [], Failed)
  }

  /** Pushes more of the transmit buffer; a hard error throws the rest of it away. */
  function Drain(buf: Message, w: Outcome): Sent
    requires w.Count? ==> w.n <= |buf|
  {
    match w
    case Count(n) =>
      if n > 0 && n == |buf| then Sent(None, buf, Accepted)
      else Sent(Some(buf[n..]), buf[..n], Accepted)
    case Again => Sent(Some(buf), [], Accepted)
    case Broken => Sent(None, [], Failed)
  }

  // ----- receiving

  datatype Verdict = Delivered(m: Message) | Pending | Closed | CutOff | TooShort | Error

  datatype Received = Received(rxbuf: seq<byte>, wire: seq<byte>, verdict: Verdict)

  /** A partial message never runs past its own length field. */
  predicate Partial(rx: seq<byte>) {
    |rx| > HEADER ==> |rx| < LengthField(rx)
  }

  function Wanted(rx: seq<byte>): nat
    requires Partial(rx) && (|rx| >= HEADER ==> LengthField(rx) >= HEADER)
  {
    if |rx| < HEADER then HEADER - |rx| else LengthField(rx) - |rx|
  }

  /** A read returns some bytes that are there, up to the number asked for. */
  predicate Readable(r: Outcome, want: nat, wire: seq<byte>) {
    r.Count? ==> r.n <= want && r.n <= |wire|
  }

  /** One receive call.  `script` decides what each read call returns, in order; a decision
      that the wire cannot honour counts as nothing being available. */
  function Receive(rx: seq<byte>, wire: seq<byte>, script: seq<Outcome>): (r: Received)
    requires Partial(rx)
    ensures Partial(r.rxbuf)
    decreases if |rx| < HEADER then 1 else 0
  {
    if |rx| >= HEADER && LengthField(rx) < HEADER then Received(rx, wire, TooShort)
    else if |rx| >= HEADER && Wanted(rx) == 0 then Received([], wire, Delivered(rx))
    else
      var want := Wanted(rx);
      var read := if script == [] then Again else script[0];
      match read
      case Again => Received(rx, wire, Pending)
      case Broken => Received(rx, wire, Error)
      case Count(n) =>
        if !Readable(read, want, wire) then Received(rx, wire, Pending)
        else if n == 0 then Received(rx, wire, if rx == [] then Closed else CutOff)
        else
          var rx' := rx + wire[..n];
          var rest := wire[n..];
          if n < want then Received(rx', rest, Pending)
          else if |rx'| > HEADER then Received([], rest, Delivered(rx'))
          else Receive(rx', rest, script[1..])
  }

  // ----- both ends of a connection

  datatype Link = Link(
    txbuf: Option<Message>,
    wire: seq<byte>,
    rxbuf: seq<byte>,
    accepted: seq<Message>,
    delivered: seq<Message>)

  datatype Action =
    | DoSend(m: Message, w: Outcome)
    | DoDrain(w: Outcome)
    | DoReceive(script: seq<Outcome>)

  const IDLE := Link(None, [], [], [], [])

  function Buffered(txbuf: Option<Message>): seq<byte> {
    if txbuf.Some? then txbuf.value else []
  }

  /** The action makes sense here and, when it sends, sends a well-framed message. */
  predicate Enabled(l: Link, a: Action) {
    match a
    case DoSend(m, w) => Framed(m) && (w.Count? ==> w.n <= |m|)
    case DoDrain(w) => l.txbuf.Some? && (w.Count? ==> w.n <= |l.txbuf.value|)
    case DoReceive(_) => true
  }

  /** A write error while draining loses what is left of a message. */
  predicate Discards(a: Action) {
    a == DoDrain(Broken)
  }

  function Step(l: Link, a: Action): (r: Link)
    requires Enabled(l, a) && Partial(l.rxbuf)
    ensures Partial(r.rxbuf)
  {
    match a
    case DoSend(m, w) =>
      var s := Send(l.txbuf, m, w);
      l.(txbuf := s.txbuf, wire := l.wire + s.written,
         accepted := if s.status.Accepted? then l.accepted + [m] else l.accepted)
    case DoDrain(w) =>
      var s := Drain(l.txbuf.value, w);
      l.(txbuf := s.txbuf, wire := l.wire + s.written)
    case DoReceive(script) =>
      var r := Receive(l.rxbuf, l.wire, script);
      l.(rxbuf := r.rxbuf, wire := r.wire,
         delivered := if r.verdict.Delivered? then l.delivered + [r.verdict.m] else l.delivered)
  }

  // ----- what every action keeps

  function Flatten(ms: seq<Message>): seq<byte> {
    if ms == [] then [] else ms[0] + Flatten(ms[1..])
  }

  lemma {:induction false} FlattenAppend(ms: seq<Message>, m: Message)
    ensures Flatten(ms + [m]) == Flatten(ms) + m
  {
    if ms == [] {
      assert Flatten([m][1..]) == [];
      assert [] + [m] == [m];
      assert m + [] == m;
    } else {
      FlattenAppend(ms[1..], m);
      assert (ms + [m])[1..] == ms[1..] + [m];
      calc {
        Flatten(ms + [m]);
        ms[0] + (Flatten(ms[1..]) + m);
        (ms[0] + Flatten(ms[1..])) + m;
        Flatten(ms) + m;
      }
    }
  }

  /** Messages accepted and not yet delivered. */
  function Owed(l: Link): seq<Message>
    requires |l.delivered| <= |l.accepted|
  {
    l.accepted[|l.delivered|..]
  }

  /** Delivered messages are the first ones accepted, and the bytes in the three buffers are
      exactly those of the messages still owed, the receiver holding a proper part of one. */
  predicate Faithful(l: Link) {
    && l.delivered <= l.accepted
    && (forall i :: 0 <= i < |l.accepted| ==> Framed(l.accepted[i]))
    && l.rxbuf + l.wire + Buffered(l.txbuf) == Flatten(Owed(l))
    && (l.rxbuf != [] ==> Owed(l) != [] && |l.rxbuf| < |Owed(l)[0]|)
    && (l.txbuf.Some? ==> l.txbuf.value != [])
  }

  /** Moving bytes from the wire to the receiver, up to the end of `m`. */
  lemma ReadAdvances(rx: seq<byte>, wire: seq<byte>, n: nat, tail: seq<byte>, m: Message, rest: seq<byte>)
    requires |rx| + n <= |m| && n <= |wire| && rx == m[..|rx|]
    requires rx + wire + tail == m + rest
    ensures rx + wire[..n] == m[..|rx| + n]
    ensures rx + wire[..n] + wire[n..] + tail == m + rest
    ensures |rx| + n == |m| ==> wire[n..] + tail == rest
  {
    var all := m + rest;
    assert wire == wire[..n] + wire[n..];
    assert rx + wire[..n] == all[..|rx| + n];
    assert wire[n..] + tail == all[|rx| + n..];
  }

  /** A receive call against a well-framed message `m` of which `rx` is a proper beginning:
      it delivers exactly `m`, or leaves a longer proper beginning and loses no byte. */
  lemma {:induction false} ReceiveFollowsMessage(
    rx: seq<byte>, wire: seq<byte>, script: seq<Outcome>, tail: seq<byte>, m: Message, rest: seq<byte>)
    requires Framed(m) && |rx| < |m| && rx == m[..|rx|] && Partial(rx)
    requires rx + wire + tail == m + rest
    ensures var r := Receive(rx, wire, script);
            if r.verdict.Delivered? then
              r.verdict.m == m && r.rxbuf == [] && r.wire + tail == rest
            else
              && !r.verdict.TooShort?
              && |r.rxbuf| < |m| && r.rxbuf + r.wire + tail == m + rest
    decreases if |rx| < HEADER then 1 else 0
  {
    assert |rx| >= HEADER ==> LengthField(rx) == |m|;
    var want := Wanted(rx);
    var read := if script == [] then Again else script[0];
    if read.Count? && Readable(read, want, wire) && read.n > 0 {
      var n := read.n;
      ReadAdvances(rx, wire, n, tail, m, rest);
      var rx' := rx + wire[..n];
      if n == want && |rx'| == HEADER && |rx'| < |m| {
        ReceiveFollowsMessage(rx', wire[n..], script[1..], tail, m, rest);
      }
    }
  }

  /** What the receiver holds is the beginning of the next message owed. */
  lemma HeldIsPrefix(l: Link)
    requires Faithful(l) && Owed(l) != []
    ensures l.rxbuf == Owed(l)[0][..|l.rxbuf|]
    ensures Framed(Owed(l)[0]) && |l.rxbuf| < |Owed(l)[0]|
    ensures Partial(l.rxbuf)
  {
    var m := Owed(l)[0];
    var all := l.rxbuf + l.wire + Buffered(l.txbuf);
    assert Framed(l.accepted[|l.delivered|]);
    assert all[..|l.rxbuf|] == l.rxbuf;
    assert Flatten(Owed(l))[..|m|] == m;
    assert m[..|l.rxbuf|] == all[..|l.rxbuf|];
  }

  lemma DeliveryKeepsFaith(l: Link, wire: seq<byte>)
    requires Faithful(l) && Owed(l) != []
    requires wire + Buffered(l.txbuf) == Flatten(Owed(l)[1..])
    ensures Faithful(l.(rxbuf := [], wire := wire, delivered := l.delivered + [Owed(l)[0]]))
  {
    var l' := l.(rxbuf := [], wire := wire, delivered := l.delivered + [Owed(l)[0]]);
    assert l'.delivered == l.accepted[..|l.delivered| + 1];
    DropOne(l.accepted, |l.delivered|);
    assert [] + wire + Buffered(l.txbuf) == wire + Buffered(l.txbuf);
  }

  lemma DropOne(ms: seq<Message>, k: nat)
    requires k < |ms|
    ensures ms[k + 1..] == ms[k..][1..]
  {
  }

  lemma ReceiveKeepsFaith(l: Link, script: seq<Outcome>)
    requires Faithful(l) && Partial(l.rxbuf)
    ensures Faithful(Step(l, DoReceive(script)))
    ensures !Receive(l.rxbuf, l.wire, script).verdict.TooShort?
  {
    var r := Receive(l.rxbuf, l.wire, script);
    var tail := Buffered(l.txbuf);
    if Owed(l) == [] {
      assert l.wire == [];
    } else {
      var m, rest := Owed(l)[0], Owed(l)[1..];
      HeldIsPrefix(l);
      ReceiveFollowsMessage(l.rxbuf, l.wire, script, tail, m, Flatten(rest));
      if r.verdict.Delivered? {
        DeliveryKeepsFaith(l, r.wire);
      }
    }
  }

  lemma Regroup(a: seq<byte>, b: seq<byte>, c: seq<byte>, d: seq<byte>)
    ensures a + (b + c) + d == (a + b) + (c + d)
  {
  }

  lemma SendKeepsFaith(l: Link, m: Message, w: Outcome)
    requires Faithful(l) && Partial(l.rxbuf) && Enabled(l, DoSend(m, w))
    ensures Faithful(Step(l, DoSend(m, w)))
  {
    var s := Send(l.txbuf, m, w);
    var l' := Step(l, DoSend(m, w));
    if s.status.Accepted? {
      assert Owed(l') == Owed(l) + [m];
      FlattenAppend(Owed(l), m);
      assert s.written + Buffered(s.txbuf) == m;
      Regroup(l.rxbuf, l.wire, s.written, Buffered(s.txbuf));
      assert l.rxbuf + l.wire + [] == l.rxbuf + l.wire;
    }
  }

  lemma DrainKeepsFaith(l: Link, w: Outcome)
    requires Faithful(l) && Partial(l.rxbuf) && Enabled(l, DoDrain(w)) && !Discards(DoDrain(w))
    ensures Faithful(Step(l, DoDrain(w)))
  {
    var s := Drain(l.txbuf.value, w);
    assert s.written + Buffered(s.txbuf) == l.txbuf.value;
    Regroup(l.rxbuf, l.wire, s.written, Buffered(s.txbuf));
  }

  /** Where a schedule of actions leads from an idle connection; nowhere if some action is
      not possible or a write error discards buffered bytes. */
  function Play(actions: seq<Action>): (r: Option<Link>)
    ensures r.Some? ==> Partial(r.value.rxbuf)
  {
    if actions == [] then Some(IDLE)
    else
      var l := Play(actions[..|actions| - 1]);
      var a := actions[|actions| - 1];
      if l.Some? && Enabled(l.value, a) && !Discards(a) then Some(Step(l.value, a)) else None
  }

  /** An action keeps the connection faithful exactly when it is not a write error that
      discards the transmit buffer. */
  lemma FaithKeptUnlessDiscarded(l: Link, a: Action)
    requires Faithful(l) && Partial(l.rxbuf) && Enabled(l, a)
    ensures Faithful(Step(l, a)) <==> !Discards(a)
  {
    if Discards(a) {
      var l' := Step(l, a);
      assert l'.wire == l.wire;
      assert |l'.rxbuf + l'.wire + []| < |l.rxbuf + l.wire + l.txbuf.value|;
    } else {
      match a
      case DoSend(m, w) => SendKeepsFaith(l, m, w);
      case DoDrain(w) => DrainKeepsFaith(l, w);
      case DoReceive(script) => ReceiveKeepsFaith(l, script);
    }
  }

  lemma {:induction false} PlayIsFaithful(actions: seq<Action>)
    requires Play(actions).Some?
    ensures Faithful(Play(actions).value)
  {
    if actions != [] {
      PlayIsFaithful(actions[..|actions| - 1]);
      FaithKeptUnlessDiscarded(Play(actions[..|actions| - 1]).value, actions[|actions| - 1]);
    }
  }

  /** For every schedule of short writes and short reads, the messages delivered are the
      first ones accepted, unchanged and in order; no header is ever found too short; and
      when nothing is left in transit everything accepted has been delivered. */
  lemma DeliveredIsPrefixOfAccepted(actions: seq<Action>, script: seq<Outcome>)
    requires Play(actions).Some?
    ensures var l := Play(actions).value;
            && l.delivered <= l.accepted
            && !Receive(l.rxbuf, l.wire, script).verdict.TooShort?
            && (l.rxbuf + l.wire + Buffered(l.txbuf) == [] ==> l.delivered == l.accepted)
  {
    var l := Play(actions).value;
    PlayIsFaithful(actions);
    ReceiveKeepsFaith(l, script);
    if Owed(l) != [] {
      HeldIsPrefix(l);
      assert |Flatten(Owed(l))| >= |Owed(l)[0]|;
    }
  }

  /** The reads that take in one message that is wholly on the wire. */
  function WholeReads(m: Message): seq<Outcome>
    requires |m| >= HEADER
  {
    if |m| == HEADER then [Count(HEADER)] else [Count(HEADER), Count(|m| - HEADER)]
  }

  /** A read that completes a header goes on with what comes after it. */
  lemma HeaderJoins(rx: seq<byte>, wire: seq<byte>, script: seq<Outcome>)
    requires |rx| < HEADER <= |rx| + |wire| && script != [] && script[0] == Count(HEADER - |rx|)
    ensures var n := HEADER - |rx|;
            && Partial(rx + wire[..n])
            && Receive(rx, wire, script) == Receive(rx + wire[..n], wire[n..], script[1..])
  {
  }

  lemma HeaderRead(wire: seq<byte>, script: seq<Outcome>)
    requires |wire| >= HEADER && script != [] && script[0] == Count(HEADER)
    ensures Partial(wire[..HEADER])
    ensures Receive([], wire, script) == Receive(wire[..HEADER], wire[HEADER..], script[1..])
  {
    HeaderJoins([], wire, script);
    assert [] + wire[..HEADER] == wire[..HEADER];
  }

  lemma ReceivesWhole(m: Message)
    requires Framed(m)
    ensures Receive([], m, WholeReads(m)) == Received([], [], Delivered(m))
  {
    HeaderRead(m, WholeReads(m));
    var header, rest := m[..HEADER], m[HEADER..];
    assert LengthField(header) == LengthField(m) && header + rest == m;
    if rest == [] {
      assert header == m;
    } else {
      assert rest[..|rest|] == rest && WholeReads(m)[1..] == [Count(|rest|)];
      assert Receive(header, rest, [Count(|rest|)]) == Received([], rest[|rest|..], Delivered(header + rest));
    }
  }

  /** A message is accepted, of which some bytes get out and the rest are thrown away, and then
      another, which gets out whole. */
  function AfterDiscard(m: Message, k: nat, m2: Message): (r: Link)
    requires Framed(m) && Framed(m2) && k < |m|
    ensures Partial(r.rxbuf)
  {
    Step(Step(Step(IDLE, DoSend(m, Count(k))), DoDrain(Broken)), DoSend(m2, Count(|m2|)))
  }

  lemma WhatIsLeft(m: Message, k: nat, m2: Message)
    requires Framed(m) && Framed(m2) && k < |m|
    ensures AfterDiscard(m, k, m2) == Link(None, m[..k] + m2, [], [m, m2], [])
  {
    assert [] + m[..k] == m[..k] && m[..k] + [] == m[..k] && [] + [m] == [m] && [m] + [m2] == [m, m2];
  }

  /** Discarding does break the promise, for any two different messages: the first is accepted
      and thrown away whole, and the second is delivered in its place. */
  lemma DiscardSkips(m: Message, m2: Message)
    requires Framed(m) && Framed(m2) && m != m2
    ensures var r := Step(AfterDiscard(m, 0, m2), DoReceive(WholeReads(m2)));
            r.accepted == [m, m2] && r.delivered == [m2] && !(r.delivered <= r.accepted)
  {
    WhatIsLeft(m, 0, m2);
    assert m[..0] + m2 == m2;
    ReceivesWhole(m2);
    var r := Step(AfterDiscard(m, 0, m2), DoReceive(WholeReads(m2)));
    assert [] + [m2] == [m2] && r.delivered[0] != r.accepted[0];
  }

  /** It also delivers what nobody sent: the bytes of the second message are taken for the rest
      of the first. */
  lemma DiscardGarbles(m: Message, k: nat, m2: Message)
    requires Framed(m) && Framed(m2) && 0 < k < HEADER && |m2| >= HEADER
    requires var header := m[..k] + m2[..HEADER - k]; LengthField(header) == HEADER && header !in [m, m2]
    ensures var header := m[..k] + m2[..HEADER - k];
            var r := Step(AfterDiscard(m, k, m2), DoReceive([Count(HEADER)]));
            && r.accepted == [m, m2] && r.delivered == [header]
            && header !in r.accepted && !(r.delivered <= r.accepted)
  {
    WhatIsLeft(m, k, m2);
    var wire, header := m[..k] + m2, m[..k] + m2[..HEADER - k];
    assert wire[..HEADER] == header;
    HeaderRead(wire, [Count(HEADER)]);
    assert [] + [header] == [header];
    var r := Step(AfterDiscard(m, k, m2), DoReceive([Count(HEADER)]));
    assert r.delivered[0] != r.accepted[0];
  }

  /** Such messages exist. */
  lemma DiscardGarblesSome()
    ensures var m, m2 := [4, 0, 0, 8, 0, 0, 0, 1], [0, 8, 0, 8, 0, 0, 0, 2];
            && Framed(m) && Framed(m2)
            && var r := Step(AfterDiscard(m, 2, m2), DoReceive([Count(HEADER)]));
               r.accepted == [m, m2] && r.delivered == [[4, 0, 0, 8, 0, 8, 0, 0]]
  {
    var m, m2 := [4, 0, 0, 8, 0, 0, 0, 1], [0, 8, 0, 8, 0, 0, 0, 2];
    var header := m[..2] + m2[..6];
    assert header == [4, 0, 0, 8, 0, 8, 0, 0];
    assert header[5] != m[5] && header[0] != m2[0];
    DiscardGarbles(m, 2, m2);
  }

  // ----- every discard can come to light

  /** Where actions lead from a link; nowhere if one is not possible or discards. */
  function PlayFrom(l: Link, actions: seq<Action>): (r: Option<Link>)
    requires Partial(l.rxbuf)
    ensures r.Some? ==> Partial(r.value.rxbuf)
    decreases |actions|
  {
    if actions == [] then Some(l)
    else if Enabled(l, actions[0]) && !Discards(actions[0]) then PlayFrom(Step(l, actions[0]), actions[1..])
    else None
  }

  lemma {:induction false} PlayOn(l: Link, first: seq<Action>, more: seq<Action>)
    requires Partial(l.rxbuf) && PlayFrom(l, first).Some?
    ensures PlayFrom(l, first + more) == PlayFrom(PlayFrom(l, first).value, more)
    decreases |first|
  {
    if first == [] {
      assert first + more == more;
    } else {
      assert (first + more)[1..] == first[1..] + more;
      PlayOn(Step(l, first[0]), first[1..], more);
    }
  }

  /** The reads that take in the rest of a message of which some bytes are there. */
  function ReadsFor(rx: seq<byte>, m: Message): seq<Outcome>
    requires |rx| < |m|
  {
    if |rx| >= HEADER then [Count(|m| - |rx|)]
    else [Count(HEADER - |rx|)] + if |m| > HEADER then [Count(|m| - HEADER)] else []
  }

  lemma ReceivesRest(rx: seq<byte>, wire: seq<byte>, m: Message, rest: seq<byte>)
    requires Framed(m) && HEADER <= |rx| < |m| && rx == m[..|rx|] && rx + wire == m + rest
    ensures Partial(rx) && Receive(rx, wire, [Count(|m| - |rx|)]) == Received([], rest, Delivered(m))
  {
    var n := |m| - |rx|;
    assert LengthField(rx) == |m|;
    assert wire == (rx + wire)[|rx|..] && wire[..n] == m[|rx|..] && wire[n..] == rest;
    assert rx + wire[..n] == m;
  }

  lemma HeaderCompletes(rx: seq<byte>, wire: seq<byte>, m: Message, rest: seq<byte>)
    requires Framed(m) && |rx| < HEADER && rx + wire == m + rest
    ensures var n := HEADER - |rx|;
            && n <= |wire| && rx + wire[..n] == m[..HEADER] && rx + wire[..n] + wire[n..] == m + rest
            && LengthField(rx + wire[..n]) == |m|
            && (|m| == HEADER ==> rx + wire[..n] == m && wire[n..] == rest)
  {
    var n := HEADER - |rx|;
    assert rx + wire[..n] == (m + rest)[..HEADER];
    assert wire[n..] == (m + rest)[HEADER..];
  }

  lemma HeaderOnly(m: Message, wire: seq<byte>, script: seq<Outcome>)
    requires Framed(m) && |m| == HEADER
    ensures Receive(m, wire, script) == Received([], wire, Delivered(m))
  {
  }

  /** A whole message ahead is delivered, and what comes after it is left. */
  lemma ReceivesNext(rx: seq<byte>, wire: seq<byte>, m: Message, rest: seq<byte>)
    requires Framed(m) && |rx| < |m| && rx == m[..|rx|] && rx + wire == m + rest
    ensures Partial(rx) && Receive(rx, wire, ReadsFor(rx, m)) == Received([], rest, Delivered(m))
  {
    if |rx| >= HEADER {
      ReceivesRest(rx, wire, m, rest);
    } else {
      var n, script := HEADER - |rx|, ReadsFor(rx, m);
      HeaderCompletes(rx, wire, m, rest);
      HeaderJoins(rx, wire, script);
      if |m| > HEADER {
        assert script[1..] == [Count(|m| - HEADER)];
        ReceivesRest(rx + wire[..n], wire[n..], m, rest);
      } else {
        HeaderOnly(m, rest, script[1..]);
      }
    }
  }

  lemma PlayOne(l: Link, a: Action, more: seq<Action>)
    requires Partial(l.rxbuf) && Enabled(l, a) && !Discards(a)
    ensures PlayFrom(l, [a] + more) == PlayFrom(Step(l, a), more)
  {
    assert ([a] + more)[1..] == more;
  }

  lemma DeliversOne(l: Link, m: Message, rest: seq<byte>)
    requires Framed(m) && |l.rxbuf| < |m| && l.rxbuf == m[..|l.rxbuf|] && l.rxbuf + l.wire == m + rest
    ensures Partial(l.rxbuf)
    ensures Step(l, DoReceive(ReadsFor(l.rxbuf, m))) == l.(rxbuf := [], wire := rest, delivered := l.delivered + [m])
  {
    ReceivesNext(l.rxbuf, l.wire, m, rest);
  }

  lemma Assoc<T>(a: seq<T>, b: seq<T>, c: seq<T>)
    ensures (a + b) + c == a + (b + c)
  {
  }

  lemma FirstApart(delivered: seq<Message>, ms: seq<Message>, tail: seq<byte>)
    requires ms != []
    ensures Flatten(ms) + tail == ms[0] + (Flatten(ms[1..]) + tail)
    ensures [] + (Flatten(ms[1..]) + tail) == Flatten(ms[1..]) + tail
    ensures delivered + [ms[0]] + ms[1..] == delivered + ms
  {
    Assoc(ms[0], Flatten(ms[1..]), tail);
    assert [ms[0]] + ms[1..] == ms;
    Assoc(delivered, [ms[0]], ms[1..]);
  }

  /** All whole messages ahead are delivered. */
  lemma {:induction false} DeliversAll(l: Link, ms: seq<Message>, tail: seq<byte>)
    returns (actions: seq<Action>, r: Link)
    requires Partial(l.rxbuf) && l.rxbuf + l.wire == Flatten(ms) + tail
    requires forall i :: 0 <= i < |ms| ==> Framed(ms[i])
    requires ms != [] ==> |l.rxbuf| < |ms[0]| && l.rxbuf == ms[0][..|l.rxbuf|]
    ensures PlayFrom(l, actions) == Some(r) && r == l.(rxbuf := r.rxbuf, wire := r.wire, delivered := l.delivered + ms)
    ensures r.rxbuf + r.wire == tail && (r.rxbuf == [] || (ms == [] && r.rxbuf == l.rxbuf))
    decreases |ms|
  {
    if ms == [] {
      assert l.delivered + [] == l.delivered && Flatten(ms) + tail == tail;
      actions, r := [], l;
    } else {
      var m, rest := ms[0], Flatten(ms[1..]) + tail;
      FirstApart(l.delivered, ms, tail);
      DeliversOne(l, m, rest);
      var a, l' := DoReceive(ReadsFor(l.rxbuf, m)), l.(rxbuf := [], wire := rest, delivered := l.delivered + [m]);
      var more;
      more, r := DeliversAll(l', ms[1..], tail);
      PlayOne(l, a, more);
      actions := [a] + more;
    }
  }

  /** A message of the given size: its first two bytes, a true length, and zeros. */
  function Filler(a: byte, b: byte, n: nat): (m: Message)
    requires HEADER <= n < 0x1_0000
    ensures Framed(m) && |m| == n && m[0] == a && m[1] == b && m[2] == n / 256
  {
    [a, b, n / 256, n % 256] + seq(n - 4, _ => 0)
  }

  function Other(x: byte): byte {
    if x == 8 then 9 else 8
  }

  /** Sent after the first `k` bytes of `m`, `m2` makes them the beginning of another message. */
  predicate Continues(m: Message, k: nat, m2: Message, x: Message) {
    && Framed(m2) && Framed(x) && x != m && k < |x| <= k + |m2| && k <= |m|
    && x == m[..k] + m2[..|x| - k]
  }

  /** Past the length field: a message of the same size, with another byte after the cut. */
  lemma ContinueInBody(m: Message, k: nat) returns (m2: Message, x: Message)
    requires Framed(m) && 4 <= k < |m|
    ensures Continues(m, k, m2, x)
  {
    m2 := Filler(Other(m[k]), 0, if |m| - k < HEADER then HEADER else |m| - k);
    x := m[..k] + m2[..|m| - k];
    assert x[k] == m2[0] && x[2] == m[2] && x[3] == m[3];
  }

  /** Within the length field, the first byte of it there. */
  lemma ContinueInLength(m: Message) returns (m2: Message, x: Message)
    requires Framed(m)
    ensures Continues(m, 3, m2, x)
  {
    var hi: int, lo: int := m[2], Other(m[3]);
    var n := hi * 256 + lo;
    m2 := Filler(lo, 0, n);
    x := m[..3] + m2[..n - 3];
    assert x[2] == m[2] && x[3] == m2[0];
  }

  /** Ahead of the length field, all of which the second message supplies. */
  lemma ContinueInHeader(m: Message, k: nat) returns (m2: Message, x: Message)
    requires Framed(m) && k < 3
    ensures Continues(m, k, m2, x)
  {
    if k == 0 {
      m2 := Filler(Other(m[0]), 0, HEADER);
      x := m2;
      assert x == m[..0] + m2[..HEADER];
    } else if k == 1 {
      m2 := Filler(Other(m[1]), 0, 8 * 256);
      x := m[..1] + m2[..7];
      assert x[1] == m2[0] && x[2] == m2[1] && x[3] == m2[2];
    } else {
      var n := if |m| == HEADER then 9 else 8;
      m2 := Filler(0, n, 16);
      x := m[..2] + m2[..n - 2];
      assert x[2] == m2[0] && x[3] == m2[1];
    }
  }

  lemma CanContinue(m: Message, k: nat) returns (m2: Message, x: Message)
    requires Framed(m) && k < |m|
    ensures Continues(m, k, m2, x)
  {
    if k >= 4 {
      m2, x := ContinueInBody(m, k);
    } else if k == 3 {
      m2, x := ContinueInLength(m);
    } else {
      m2, x := ContinueInHeader(m, k);
    }
  }

  /** Where bytes that fall short of all the messages stop: so many whole ones, and then part of
      the next. */
  lemma {:induction false} WhereCut(ms: seq<Message>, bytes: seq<byte>) returns (j: nat, k: nat)
    requires |bytes| < |Flatten(ms)| && bytes == Flatten(ms)[..|bytes|]
    ensures j < |ms| && k < |ms[j]| && bytes == Flatten(ms[..j]) + ms[j][..k]
    decreases |ms|
  {
    var m := ms[0];
    if |bytes| < |m| {
      j, k := 0, |bytes|;
      assert bytes == [] + m[..k] && ms[..0] == [];
    } else {
      var rest := bytes[|m|..];
      assert bytes == m + rest && rest == Flatten(ms[1..])[..|rest|];
      j, k := WhereCut(ms[1..], rest);
      assert ms[..j + 1][1..] == ms[1..][..j];
      assert m + (Flatten(ms[1..][..j]) + ms[j + 1][..k]) == (m + Flatten(ms[1..][..j])) + ms[j + 1][..k];
      j := j + 1;
    }
  }

  lemma SentAfter(rx: seq<byte>, wire: seq<byte>, m: Message, k: nat, m2: Message, x: Message)
    requires k < |m| && Continues(m, k, m2, x) && rx + wire == m[..k]
    ensures rx + (wire + m2) == x + m2[|x| - k..] && |rx| < |x| && rx == x[..|rx|]
  {
    assert rx + (wire + m2) == m[..k] + m2;
    assert m2 == m2[..|x| - k] + m2[|x| - k..];
    assert x[..|rx|] == m[..k][..|rx|] == rx;
  }

  /** The second message sent, the other message is delivered. */
  lemma DeliversOther(l: Link, m: Message, k: nat, m2: Message, x: Message) returns (actions: seq<Action>, r: Link)
    requires Partial(l.rxbuf) && l.txbuf.None? && k < |m| && Continues(m, k, m2, x)
    requires l.rxbuf + l.wire == m[..k]
    ensures PlayFrom(l, actions) == Some(r)
    ensures r.accepted == l.accepted + [m2] && r.delivered == l.delivered + [x]
  {
    var send, rest := DoSend(m2, Count(|m2|)), m2[|x| - k..];
    var l' := Step(l, send);
    SentAfter(l.rxbuf, l.wire, m, k, m2, x);
    DeliversOne(l', x, rest);
    var receive := DoReceive(ReadsFor(l'.rxbuf, x));
    r := Step(l', receive);
    PlayOne(l', receive, []);
    PlayOne(l, send, [receive] + []);
    actions := [send] + ([receive] + []);
  }

  /** From any faithful link with something buffered, a discard can be followed by sends and
      receives, with no further error, after which what is delivered is no beginning of what was
      accepted. */
  lemma DiscardCanShow(l: Link) returns (actions: seq<Action>, r: Link)
    requires Faithful(l) && Partial(l.rxbuf) && l.txbuf.Some?
    ensures PlayFrom(Step(l, DoDrain(Broken)), actions) == Some(r) && !(r.delivered <= r.accepted)
  {
    var d, owed := Step(l, DoDrain(Broken)), Owed(l);
    var left := l.rxbuf + l.wire;
    assert d == l.(txbuf := None) by {
      assert l.wire + [] == l.wire;
    }
    assert left + l.txbuf.value == Flatten(owed);
    var j, k := WhereCut(owed, left);
    var m := owed[j];
    assert Framed(l.accepted[|l.delivered| + j]);
    HeldIsPrefix(l);
    var first, mid := DeliversAll(d, owed[..j], m[..k]);
    var m2, x := CanContinue(m, k);
    var second;
    second, r := DeliversOther(mid, m, k, m2, x);
    PlayOn(d, first, second);
    actions := first + second;
    assert r.delivered[|l.delivered| + j] == x && r.accepted[|l.delivered| + j] == m;
  }

  lemma {:induction false} PlayFromKeepsFaith(l: Link, actions: seq<Action>)
    requires Faithful(l) && Partial(l.rxbuf) && PlayFrom(l, actions).Some?
    ensures Faithful(PlayFrom(l, actions).value)
    decreases |actions|
  {
    if actions != [] {
      FaithKeptUnlessDiscarded(l, actions[0]);
      PlayFromKeepsFaith(Step(l, actions[0]), actions[1..]);
    }
  }

  /** However it goes on, what is delivered is a beginning of what was accepted. */
  ghost predicate Safe(l: Link)
    requires Partial(l.rxbuf)
  {
    forall actions :: PlayFrom(l, actions).Some? ==>
      PlayFrom(l, actions).value.delivered <= PlayFrom(l, actions).value.accepted
  }

  /** An action leaves a faithful link safe exactly when it does not discard. */
  lemma SafeIffNotDiscarded(l: Link, a: Action)
    requires Faithful(l) && Partial(l.rxbuf) && Enabled(l, a)
    ensures Safe(Step(l, a)) <==> !Discards(a)
  {
    if Discards(a) {
      var actions, r := DiscardCanShow(l);
      assert PlayFrom(Step(l, a), actions) == Some(r);
    } else {
      FaithKeptUnlessDiscarded(l, a);
      forall actions | PlayFrom(Step(l, a), actions).Some?
        ensures PlayFrom(Step(l, a), actions).value.delivered <= PlayFrom(Step(l, a), actions).value.accepted
      {
        PlayFromKeepsFaith(Step(l, a), actions);
      }
    }
  }

  // ----- one end of a connection

  class StreamVconn {
    var rxbuf: seq<byte>
    var txbuf: Option<Message>

    ghost predicate Valid()
      reads this
    {
      Partial(rxbuf)
    }

    constructor ()
      ensures Valid() && rxbuf == [] && txbuf.None?
    {
      rxbuf, txbuf := [], None;
    }

    /** Offers a message; `w` is what the write call returns.  Gives back the bytes written. */
    method SendMessage(m: Message, w: Outcome) returns (written: seq<byte>, status: Status)
      requires Valid() && (w.Count? ==> w.n <= |m|)
      modifies this`txbuf
      ensures Valid() && Sent(txbuf, written, status) == Send(old(txbuf), m, w)
    {
      if txbuf.Some? {
        return [], Busy;
      }
      if w == Count(|m|) {
        return m, Accepted;
      } else if w.Count? || w.Again? {
        var n := if w.Count? then w.n else 0;
        txbuf := Some(m);
        if n > 0 {
          txbuf := Some(m[n..]);
        }
        return m[..n], Accepted;
      } else {
        return [], Failed;
      }
    }

    method DoTx(w: Outcome) returns (written: seq<byte>, status: Status)
      requires Valid() && txbuf.Some? && (w.Count? ==> w.n <= |txbuf.value|)
      modifies this`txbuf
      ensures Valid() && Sent(txbuf, written, status) == Drain(old(txbuf).value, w)
    {
      written, status := [], Accepted;
      if w.Broken? {
        txbuf := None;
        status := Failed;
      } else if w.Count? && w.n > 0 {
        written := txbuf.value[..w.n];
        txbuf := Some(txbuf.value[w.n..]);
        if txbuf.value == [] {
          txbuf := None;
        }
      }
    }

    /** Reads towards one message; loops at most once, when a header has just been completed. */
    method ReceiveMessage(wire: seq<byte>, script: seq<Outcome>)
      returns (rest: seq<byte>, verdict: Verdict)
      requires Valid()
      modifies this`rxbuf
      ensures Valid() && Received(rxbuf, rest, verdict) == Receive(old(rxbuf), wire, script)
    {
      rest := wire;
      var k := 0;
      while true
        invariant Valid() && k <= |script|
        invariant Receive(rxbuf, rest, script[k..]) == Receive(old(rxbuf), wire, script)
        decreases if |rxbuf| < HEADER then 1 else 0
      {
        var want := HEADER - |rxbuf|;
        if |rxbuf| >= HEADER {
          if LengthField(rxbuf) < HEADER {
            return rest, TooShort;
          }
          want := LengthField(rxbuf) - |rxbuf|;
          if want == 0 {
            verdict := Delivered(rxbuf);
            rxbuf := [];
            return;
          }
        }
        var read := if k < |script| then script[k] else Again;
        if read.Broken? {
          return rest, Error;
        } else if read.Again? || !Readable(read, want, rest) {
          return rest, Pending;
        } else if read.n == 0 {
          return rest, if rxbuf == [] then Closed else CutOff;
        }
        rxbuf, rest := rxbuf + rest[..read.n], rest[read.n..];
        if read.n < want {
          return rest, Pending;
        }
        if |rxbuf| > HEADER {
          verdict := Delivered(rxbuf);
          rxbuf := [];
          return;
        }
        assert script[k..][1..] == script[k + 1..];
        k := k + 1;
      }
    }
  }
}
