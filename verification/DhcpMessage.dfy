/**
  A DHCP message's option storage: option values live in one growing arena, are extended in
  place when they are last in it and moved to its end otherwise, and are compacted whenever
  the arena is reallocated.  Every operation is proved to act on the table of option values
  exactly as `DhcpOptions` says.
*/
module DhcpMessage {
  import opened Common
  import opened DhcpOptions

  /** Where an option's bytes start in the arena, if it is present, and how many there are. */
  datatype Slot = Slot(at: Option<nat>, n: nat)

  predicate SlotOk(s: Slot, used: nat) {
    if s.at.Some? then s.at.value + s.n <= used else s.n == 0
  }

  predicate SlotsOk(slots: seq<Slot>, used: nat) {
    |slots| == N_OPTIONS && forall c :: 0 <= c < |slots| ==> SlotOk(slots[c], used)
  }

  function SlotValue(s: Slot, arena: seq<byte>): Option<seq<byte>>
    requires SlotOk(s, |arena|)
  {
    if s.at.None? then None else Some(arena[s.at.value..s.at.value + s.n])
  }

  function TableOf(slots: seq<Slot>, arena: seq<byte>): seq<Option<seq<byte>>>
    requires SlotsOk(slots, |arena|)
  {
    seq(|slots|, c requires 0 <= c < |slots| => SlotValue(slots[c], arena))
  }

  /** Bytes held by the first `k` options. */
  function Total(slots: seq<Slot>, k: nat): nat
    requires k <= |slots|
  {
    if k == 0 then 0 else Total(slots, k - 1) + slots[k - 1].n
  }

  lemma {:induction false} TotalMonotone(slots: seq<Slot>, j: nat, k: nat)
    requires j <= k <= |slots|
    ensures Total(slots, j) <= Total(slots, k)
  {
    if j < k {
      TotalMonotone(slots, j, k - 1);
    }
  }

  lemma {:induction false} TotalUpdate(slots: seq<Slot>, c: nat, s: Slot, k: nat)
    requires c < |slots| && k <= |slots|
    ensures Total(slots[c := s], k) == Total(slots, k) + if c < k then s.n - slots[c].n else 0
  {
    if k > 0 {
      TotalUpdate(slots, c, s, k - 1);
    }
  }

  lemma {:induction false} TotalSame(slots: seq<Slot>, other: seq<Slot>, k: nat)
    requires k <= |slots| == |other| && forall c :: 0 <= c < k ==> slots[c].n == other[c].n
    ensures Total(slots, k) == Total(other, k)
  {
    if k > 0 {
      TotalSame(slots, other, k - 1);
    }
  }

  lemma {:induction false} TotalZero(slots: seq<Slot>, k: nat)
    requires k <= |slots| && forall c :: 0 <= c < k ==> slots[c].n == 0
    ensures Total(slots, k) == 0
  {
    if k > 0 {
      TotalZero(slots, k - 1);
    }
  }

  /** Growing the arena at its end changes no option. */
  lemma AppendKeepsValue(s: Slot, arena: seq<byte>, more: seq<byte>)
    requires SlotOk(s, |arena|)
    ensures SlotOk(s, |arena + more|) && SlotValue(s, arena + more) == SlotValue(s, arena)
  {
    if s.at.Some? {
      assert (arena + more)[s.at.value..s.at.value + s.n] == arena[s.at.value..s.at.value + s.n];
    }
  }

  /** Moving an option's bytes to the end of the arena changes no value. */
  lemma MovedTable(slots: seq<Slot>, arena: seq<byte>, code: nat)
    requires SlotsOk(slots, |arena|) && code < N_OPTIONS && slots[code].at.Some?
    ensures var s := slots[code];
            var moved := slots[code := Slot(Some(|arena|), s.n)];
            var longer := arena + arena[s.at.value..s.at.value + s.n];
            SlotsOk(moved, |longer|) && TableOf(moved, longer) == TableOf(slots, arena)
  {
    var s := slots[code];
    assert SlotOk(s, |arena|);
    var bytes := arena[s.at.value..s.at.value + s.n];
    var moved := slots[code := Slot(Some(|arena|), s.n)];
    assert (arena + bytes)[|arena|..|arena| + s.n] == bytes;
    forall c | 0 <= c < N_OPTIONS
      ensures SlotOk(moved[c], |arena + bytes|)
      ensures SlotValue(moved[c], arena + bytes) == SlotValue(slots[c], arena)
    {
      AppendKeepsValue(slots[c], arena, bytes);
    }
  }

  lemma ExtendedSlot(s: Slot, arena: seq<byte>, bytes: seq<byte>)
    requires SlotOk(s, |arena|) && (s.n > 0 ==> s.at == Some(|arena| - s.n)) && s.n <= |arena|
    ensures var longer := Slot(Some(|arena| - s.n), s.n + |bytes|);
            && SlotOk(longer, |arena + bytes|)
            && SlotValue(longer, arena + bytes) == Some(Value(SlotValue(s, arena)) + bytes)
  {
    assert (arena + bytes)[|arena| - s.n..|arena| + |bytes|] == arena[|arena| - s.n..] + bytes;
    assert Value(SlotValue(s, arena)) == arena[|arena| - s.n..];
  }

  /** Adding bytes to the arena and to the option whose bytes end there. */
  lemma ExtendedTable(slots: seq<Slot>, arena: seq<byte>, code: nat, bytes: seq<byte>)
    requires SlotsOk(slots, |arena|) && code < N_OPTIONS
    requires slots[code].n > 0 ==> slots[code].at == Some(|arena| - slots[code].n)
    ensures var n := slots[code].n;
            var longer := slots[code := Slot(Some(|arena| - n), n + |bytes|)];
            && SlotsOk(longer, |arena + bytes|)
            && TableOf(longer, arena + bytes)
               == TableOf(slots, arena)[code := Some(Value(TableOf(slots, arena)[code]) + bytes)]
  {
    var n := slots[code].n;
    assert SlotOk(slots[code], |arena|);
    var longer := slots[code := Slot(Some(|arena| - n), n + |bytes|)];
    ExtendedSlot(slots[code], arena, bytes);
    forall c | 0 <= c < N_OPTIONS && c != code
      ensures SlotOk(longer[c], |arena + bytes|)
      ensures SlotValue(longer[c], arena + bytes) == SlotValue(slots[c], arena)
    {
      AppendKeepsValue(slots[c], arena, bytes);
    }
    assert SlotsOk(longer, |arena + bytes|);
    OneChanged(TableOf(longer, arena + bytes), TableOf(slots, arena), code,
               Some(Value(SlotValue(slots[code], arena)) + bytes));
  }

  /** What lies past the used part of an arena does not matter. */
  lemma PrefixIsEnough(slots: seq<Slot>, arena: seq<byte>, used: nat)
    requires used <= |arena| && SlotsOk(slots, used)
    ensures SlotsOk(slots, |arena|) && TableOf(slots, arena) == TableOf(slots, arena[..used])
  {
    assert arena == arena[..used] + arena[used..];
    forall c | 0 <= c < N_OPTIONS
      ensures SlotOk(slots[c], |arena|) && SlotValue(slots[c], arena) == SlotValue(slots[c], arena[..used])
    {
      AppendKeepsValue(slots[c], arena[..used], arena[used..]);
    }
  }

  lemma OneChanged(t: seq<Option<seq<byte>>>, u: seq<Option<seq<byte>>>, c: nat, v: Option<seq<byte>>)
    requires |t| == |u| && c < |u| && t[c] == v && forall i :: 0 <= i < |u| && i != c ==> t[i] == u[i]
    ensures t == u[c := v]
  {
  }

  // ----- room in the arena

  /** Where the slots and the end of the used part are after a put that fits. */
  datatype Layout = Layout(slots: seq<Slot>, used: nat)

  function AfterPut(l: Layout, code: nat, n: nat): Layout
    requires code < |l.slots|
  {
    var s := l.slots[code];
    if s.n == 0 then Layout(l.slots[code := Slot(Some(l.used), n)], l.used + n)
    else if s.at == Some(l.used - s.n) then Layout(l.slots[code := Slot(s.at, s.n + n)], l.used + n)
    else Layout(l.slots[code := Slot(Some(l.used), s.n + n)], l.used + s.n + n)
  }

  /** A put asks for room for the option's old bytes and the new ones, and does not have to move
      to a larger arena just when there is. */
  predicate PutFits(l: Layout, capacity: nat, code: nat, n: nat)
    requires code < |l.slots|
  {
    l.used + n + l.slots[code].n <= capacity
  }

  /** Parsing the bytes as vendor options never has to move to a larger arena. */
  predicate ParseFits(l: Layout, capacity: nat, b: seq<byte>)
    requires |l.slots| == N_OPTIONS
    decreases |b|
  {
    if b == [] || b[0] == END then true
    else if b[0] == PAD then ParseFits(l, capacity, b[1..])
    else if |b| < 2 || |b| < 2 + b[1] as int then true
    else
      var code: int, n: int := b[0], b[1];
      && PutFits(l, capacity, code + VENDOR_OFS, n)
      && ParseFits(AfterPut(l, code + VENDOR_OFS, n), capacity, b[2 + n..])
  }

  lemma AfterPutTotal(l: Layout, code: nat, n: nat)
    requires |l.slots| == N_OPTIONS && code < N_OPTIONS
    ensures var after := AfterPut(l, code, n);
            && |after.slots| == N_OPTIONS && after.slots[code].n == l.slots[code].n + n
            && Total(after.slots, N_OPTIONS) == Total(l.slots, N_OPTIONS) + n
  {
    var after := AfterPut(l, code, n);
    TotalUpdate(l.slots, code, after.slots[code], N_OPTIONS);
    assert after.slots == l.slots[code := after.slots[code]];
  }

  lemma ParseSkips(o: Options, b: seq<byte>, offset: nat)
    requires WellFormed(o) && offset <= VENDOR_OFS
    ensures b == [] || b[0] == END ==> Parse(o, b, offset) == o
    ensures b != [] && b[0] == PAD ==> Parse(o, b, offset) == Parse(o, b[1..], offset)
    ensures b != [] && b[0] != PAD && (|b| < 2 || |b| < 2 + b[1] as int) ==> Parse(o, b, offset) == o
  {
  }

  lemma SliceOfSlice(arena: seq<byte>, i: nat, end: nat, n: nat)
    requires i + 2 + n <= end <= |arena|
    ensures arena[i..end][2..2 + n] == arena[i + 2..i + 2 + n]
    ensures arena[i..end][2 + n..] == arena[i + 2 + n..end]
  {
    var s := arena[i..end];
    var x, y := s[2..2 + n], arena[i + 2..i + 2 + n];
    assert |x| == |y| && forall k :: 0 <= k < n ==> x[k] == y[k];
    var v, w := s[2 + n..], arena[i + 2 + n..end];
    assert |v| == |w| && forall k :: 0 <= k < |v| ==> v[k] == w[k];
  }

  /** Where the parsing of vendor options in an arena has got to. */
  datatype Stage = Stage(i: nat, o: Options, l: Layout)

  predicate IsStage(s: Stage, end: nat) {
    s.i <= end && WellFormed(s.o) && |s.l.slots| == N_OPTIONS
  }

  /** There is no whole option left to parse. */
  predicate AtEnd(arena: seq<byte>, i: nat, end: nat)
    requires i <= end <= |arena|
  {
    || i == end || arena[i] == END
    || (arena[i] != PAD && (i + 1 == end || i + 2 + arena[i + 1] as int > end))
  }

  /** The option at this stage does not fit in the arena as it is. */
  predicate Stuck(arena: seq<byte>, end: nat, capacity: nat, s: Stage)
    requires end <= |arena| && IsStage(s, end)
  {
    && !AtEnd(arena, s.i, end) && arena[s.i] != PAD
    && !PutFits(s.l, capacity, arena[s.i] + VENDOR_OFS, arena[s.i + 1])
  }

  /** What an option that fits leads to. */
  function Taken(arena: seq<byte>, s: Stage, code: nat, n: nat): Stage
    requires s.i + 2 + n <= |arena| && WellFormed(s.o) && code < |s.l.slots| == N_OPTIONS
  {
    Stage(s.i + 2 + n, Put(s.o, code, arena[s.i + 2..s.i + 2 + n]), AfterPut(s.l, code, n))
  }

  /** One turn of the parsing loop: a padding byte or an option that fits. */
  predicate Turns(arena: seq<byte>, end: nat, capacity: nat, s: Stage, s': Stage)
    requires end <= |arena| && IsStage(s, end)
  {
    && !AtEnd(arena, s.i, end) && !Stuck(arena, end, capacity, s)
    && s' == if arena[s.i] == PAD then s.(i := s.i + 1)
             else Taken(arena, s, arena[s.i] + VENDOR_OFS, arena[s.i + 1])
  }

  predicate IsRun(arena: seq<byte>, end: nat, capacity: nat, run: seq<Stage>) {
    && end <= |arena| && |run| > 0
    && (forall k :: 0 <= k < |run| ==> IsStage(run[k], end))
    && (forall k :: 0 < k < |run| ==> Turns(arena, end, capacity, run[k - 1], run[k]))
  }

  lemma RunGoesOn(arena: seq<byte>, end: nat, capacity: nat, run: seq<Stage>, s: Stage)
    requires IsRun(arena, end, capacity, run) && IsStage(s, end)
    requires Turns(arena, end, capacity, run[|run| - 1], s)
    ensures IsRun(arena, end, capacity, run + [s])
  {
  }

  lemma PadKeepsOutcome(o: Options, l: Layout, capacity: nat, b: seq<byte>, rest: seq<byte>)
    requires WellFormed(o) && |l.slots| == N_OPTIONS && b != [] && b[0] == PAD && rest == b[1..]
    ensures Parse(o, b, VENDOR_OFS) == Parse(o, rest, VENDOR_OFS)
    ensures ParseFits(l, capacity, b) == ParseFits(l, capacity, rest)
  {
  }

  lemma OptionKeepsOutcome(s: Stage, s': Stage, capacity: nat, b: seq<byte>, code: nat, n: nat, rest: seq<byte>)
    requires WellFormed(s.o) && |s.l.slots| == N_OPTIONS && |b| >= 2 + n && b[0] != PAD && b[0] != END
    requires code == b[0] + VENDOR_OFS && n == b[1] && rest == b[2 + n..] && PutFits(s.l, capacity, code, n)
    requires s'.o == Put(s.o, code, b[2..2 + n]) && s'.l == AfterPut(s.l, code, n)
    ensures Parse(s.o, b, VENDOR_OFS) == Parse(s'.o, rest, VENDOR_OFS)
    ensures ParseFits(s.l, capacity, b) == ParseFits(s'.l, capacity, rest)
  {
  }

  /** What a turn leaves is what there was to parse, less what it took. */
  lemma TurnKeepsOutcome(arena: seq<byte>, end: nat, capacity: nat, s: Stage, s': Stage)
    requires end <= |arena| && IsStage(s, end) && IsStage(s', end) && Turns(arena, end, capacity, s, s')
    ensures Parse(s.o, arena[s.i..end], VENDOR_OFS) == Parse(s'.o, arena[s'.i..end], VENDOR_OFS)
    ensures ParseFits(s.l, capacity, arena[s.i..end]) == ParseFits(s'.l, capacity, arena[s'.i..end])
  {
    var b, rest := arena[s.i..end], arena[s'.i..end];
    if arena[s.i] == PAD {
      assert rest == b[1..];
      PadKeepsOutcome(s.o, s.l, capacity, b, rest);
    } else {
      var n: nat := arena[s.i + 1];
      SliceOfSlice(arena, s.i, end, n);
      OptionKeepsOutcome(s, s', capacity, b, arena[s.i] + VENDOR_OFS, n, rest);
    }
  }

  /** A run that comes to an end has parsed everything, and one that gets stuck could not. */
  lemma {:induction false} RunDecides(arena: seq<byte>, end: nat, capacity: nat, run: seq<Stage>)
    requires IsRun(arena, end, capacity, run)
    ensures var first, last := run[0], run[|run| - 1];
            && (AtEnd(arena, last.i, end) ==>
                  && Parse(first.o, arena[first.i..end], VENDOR_OFS) == last.o
                  && ParseFits(first.l, capacity, arena[first.i..end]))
            && (Stuck(arena, end, capacity, last) ==> !ParseFits(first.l, capacity, arena[first.i..end]))
  {
    if |run| > 1 {
      TurnKeepsOutcome(arena, end, capacity, run[0], run[1]);
      RunDecides(arena, end, capacity, run[1..]);
    }
  }

  lemma VendorOutcome(o: Options, l: Layout, capacity: nat, arena: seq<byte>, from: nat, end: nat, run: seq<Stage>,
                      b: seq<byte>)
    requires IsRun(arena, end, capacity, run) && run[0] == Stage(from, o, l) && b == arena[from..end]
    ensures AtEnd(arena, run[|run| - 1].i, end) ==>
              Parse(o, b, VENDOR_OFS) == run[|run| - 1].o && ParseFits(l, capacity, b)
    ensures Stuck(arena, end, capacity, run[|run| - 1]) ==> !ParseFits(l, capacity, b)
  {
    RunDecides(arena, end, capacity, run);
  }

  lemma ParseOne(o: Options, b: seq<byte>, offset: nat)
    requires WellFormed(o) && offset <= VENDOR_OFS && |b| >= 2 && b[0] != PAD && b[0] != END
    requires |b| >= 2 + b[1] as int
    ensures var code: int, n: int := b[0], b[1];
            Parse(o, b, offset) == Parse(Put(o, code + offset, b[2..2 + n]), b[2 + n..], offset)
  {
  }

  class Msg {
    const options: array<Slot>
    var data: array?<byte>
    var used: nat

    ghost predicate Valid()
      reads this, options, data
    {
      && options.Length == N_OPTIONS
      && SlotsOk(options[..], used)
      && Total(options[..], N_OPTIONS) <= used
      && (data != null ==> used <= data.Length)
      && (data == null ==> used == 0 && forall c :: 0 <= c < N_OPTIONS ==> options[c].at.None?)
    }

    ghost function Arena(): seq<byte>
      requires Valid()
      reads this, options, data
      ensures |Arena()| == used
    {
      if data == null then [] else data[..used]
    }

    ghost function View(): Options
      requires Valid()
      reads this, options, data
    {
      Options(TableOf(options[..], Arena()), data != null)
    }

    constructor ()
      ensures Valid() && View() == NO_OPTIONS && fresh(options) && data == null
    {
      options := new Slot[N_OPTIONS](_ => Slot(None, 0));
      data, used := null, 0;
      new;
      TotalZero(options[..], N_OPTIONS);
      assert View().table == EmptyTable();
    }

    /** Copies bytes to the end of the arena, which must have room for them. */
    method Append(bytes: seq<byte>) returns (at: nat)
      requires data != null && used + |bytes| <= data.Length
      modifies this`used, data
      ensures at == old(used) && used == old(used) + |bytes|
      ensures used <= data.Length && data[..used] == old(data[..used]) + bytes
    {
      at := used;
      forall i | 0 <= i < |bytes| {
        data[used + i] := bytes[i];
      }
      used := used + |bytes|;
    }

    /** The first `code` options have been copied here out of slots `before`; the others
        still describe the arena they came from. */
    ghost predicate Copied(before: seq<Slot>, table: seq<Option<seq<byte>>>, code: nat)
      requires |before| == |table| == N_OPTIONS && code <= N_OPTIONS
      reads this, options, data
    {
      && data != null && options.Length == N_OPTIONS
      && used == Total(before, code) <= data.Length
      && (forall c :: code <= c < N_OPTIONS ==> options[c] == before[c])
      && (forall c :: 0 <= c < code ==>
            && SlotOk(options[c], used) && options[c].n == before[c].n
            && SlotValue(options[c], data[..used]) == table[c])
    }

    method CopyOption(source: array<byte>, code: nat, ghost before: seq<Slot>)
      requires code < N_OPTIONS && SlotsOk(before, source.Length)
      requires data != null && data != source
      requires Copied(before, TableOf(before, source[..]), code)
      requires Total(before, code + 1) <= data.Length
      modifies this`used, options, data
      ensures Copied(before, TableOf(before, source[..]), code + 1)
    {
      var slot := options[code];
      assert SlotOk(slot, source.Length);
      if slot.at.Some? {
        ghost var arena := data[..used];
        ghost var slots := options[..];
        var bytes := source[slot.at.value..slot.at.value + slot.n];
        var at := Append(bytes);
        options[code] := Slot(Some(at), slot.n);
        assert data[..used][at..at + slot.n] == bytes;
        forall c | 0 <= c < code
          ensures SlotOk(options[c], used) && SlotValue(options[c], data[..used]) == SlotValue(slots[c], arena)
        {
          AppendKeepsValue(slots[c], arena, bytes);
        }
      }
    }

    /** Copies every option's bytes, in code order, from `source` to this message's arena.
        There is always room: the options' bytes together never outgrow the arena. */
    method CopyData(source: array<byte>)
      requires data != null && data != source && options.Length == N_OPTIONS
      requires SlotsOk(options[..], source.Length)
      requires Total(options[..], N_OPTIONS) <= data.Length
      modifies this`used, options, data
      ensures Valid() && used == Total(old(options[..]), N_OPTIONS)
      ensures View().table == TableOf(old(options[..]), source[..])
      ensures forall c :: 0 <= c < N_OPTIONS ==> options[c].n == old(options[c].n)
    {
      ghost var before := options[..];
      used := 0;
      for code := 0 to N_OPTIONS
        invariant Copied(before, TableOf(before, source[..]), code)
      {
        TotalMonotone(before, code + 1, N_OPTIONS);
        CopyOption(source, code, before);
      }
      TotalSame(options[..], before, N_OPTIONS);
    }

    /** A copy of another message, in an arena no larger than the used part of the original's: it
        holds every option, and no dead bytes. */
    constructor Copy(original: Msg)
      requires original.Valid()
      ensures Valid() && View() == Options(original.View().table, true)
      ensures fresh(options) && data != null && fresh(data) && data.Length == original.used
      ensures used == Total(options[..], N_OPTIONS)
    {
      options := new Slot[N_OPTIONS](_ => Slot(None, 0));
      data, used := new byte[original.used](_ => 0), 0;
      new;
      forall c | 0 <= c < N_OPTIONS {
        options[c] := original.options[c];
      }
      ghost var slots := options[..];
      assert slots == original.options[..];
      var source := original.data;
      if source == null {
        source := new byte[0];
      }
      PrefixIsEnough(slots, source[..], original.used);
      assert source[..original.used] == original.Arena();
      CopyData(source);
      TotalSame(options[..], slots, N_OPTIONS);
    }

    ghost function Placed(): Layout
      reads this, options
    {
      Layout(options[..], used)
    }

    function Capacity(): nat
      reads this
    {
      if data == null then 0 else data.Length
    }

    /** Makes room for `n` more bytes, moving to a larger arena if need be. */
    method Prealloc(n: nat)
      requires Valid()
      modifies this, options
      ensures if old(used) + n <= old(Capacity()) then data == old(data) && Placed() == old(Placed())
              else && fresh(data) && used == Total(options[..], N_OPTIONS)
                   && Capacity() == if (old(used) + n) * 2 > 64 then (old(used) + n) * 2 else 64
      ensures Total(options[..], N_OPTIONS) == old(Total(options[..], N_OPTIONS))
      ensures Valid() && View().table == old(View().table)
      ensures if n == 0 && old(data) == null then data == null
              else data != null && used + n <= data.Length
      ensures data == old(data) || fresh(data)
      ensures forall c :: 0 <= c < N_OPTIONS ==> options[c].n == old(options[c].n)
    {
      var needed := used + n;
      var capacity := if data == null then 0 else data.Length;
      if needed > capacity {
        var source := data;
        data := new byte[if needed * 2 > 64 then needed * 2 else 64](_ => 0);
        if source != null {
          PrefixIsEnough(options[..], source[..], used);
          CopyData(source);
          TotalSame(options[..], old(options[..]), N_OPTIONS);
        }
      }
    }

    /** Makes sure the option's bytes are the last in the arena. */
    method MoveToEnd(code: nat)
      requires Valid() && data != null && code < N_OPTIONS && options[code].n > 0
      requires used + options[code].n <= data.Length
      modifies this`used, options, data
      ensures Valid() && View() == old(View())
      ensures options[..] == old(options[..])[code := Slot(Some(used - options[code].n), old(options[code].n))]
      ensures used == if old(options[code].at) == Some(old(used) - options[code].n) then old(used)
                      else old(used) + options[code].n
      ensures data[..old(used)] == old(data[..used])
    {
      var n := options[code].n;
      assert SlotOk(options[code], used);
      if options[code].at != Some(used - n) {
        ghost var arena, slots := data[..used], options[..];
        var bytes := data[options[code].at.value..options[code].at.value + n];
        assert bytes == arena[options[code].at.value..options[code].at.value + n];
        MovedTable(slots, arena, code);
        TotalUpdate(slots, code, Slot(Some(used), n), N_OPTIONS);
        var at := Append(bytes);
        options[code] := options[code].(at := Some(at));
        assert options[..] == slots[code := Slot(Some(at), n)];
      }
    }

    /** Adds bytes to an option that is absent, empty or last in the arena. */
    method Extend(code: nat, bytes: seq<byte>)
      requires Valid() && data != null && code < N_OPTIONS
      requires used + |bytes| <= data.Length
      requires options[code].n > 0 ==> options[code].at == Some(used - options[code].n)
      modifies this`used, options, data
      ensures Valid()
      ensures View() == Options(old(View()).table[code := Some(Value(old(View()).table[code]) + bytes)], true)
      ensures used == old(used) + |bytes| && data[..old(used)] == old(data[..used])
      ensures var n := old(options[code].n);
              options[..] == old(options[..])[code := Slot(Some(old(used) - n), n + |bytes|)]
    {
      ghost var arena, slots := data[..used], options[..];
      var n := options[code].n;
      assert SlotOk(options[code], used);
      var at := Append(bytes);
      if n == 0 {
        options[code] := options[code].(at := Some(at));
      }
      options[code] := options[code].(n := n + |bytes|);
      ExtendedTable(slots, arena, code, bytes);
      TotalUpdate(slots, code, options[code], N_OPTIONS);
      assert options[..] == slots[code := Slot(Some(|arena| - n), n + |bytes|)];
    }

    /** Appends bytes to one option, there being room for them and the option's own. */
    method AppendTo(code: nat, bytes: seq<byte>)
      requires Valid() && data != null && code < N_OPTIONS && PutFits(Placed(), data.Length, code, |bytes|)
      modifies this`used, options, data
      ensures Valid() && Placed() == AfterPut(old(Placed()), code, |bytes|)
      ensures View() == Options(old(View()).table[code := Some(Value(old(View()).table[code]) + bytes)], true)
      ensures data[..old(used)] == old(data[..used])
    {
      if options[code].n > 0 {
        MoveToEnd(code);
      }
      Extend(code, bytes);
    }

    /** Appends bytes to one option; every other option keeps its value. */
    method PutBytes(code: nat, bytes: seq<byte>)
      requires Valid() && code < N_OPTIONS
      modifies this, options, data
      ensures Valid() && View() == Put(old(View()), code, bytes)
      ensures data == old(data) || fresh(data)
      ensures code != PAD && code != END && old(data) != null ==>
                if PutFits(old(Placed()), old(Capacity()), code, |bytes|) then
                  && data == old(data) && Placed() == AfterPut(old(Placed()), code, |bytes|)
                  && data[..old(used)] == old(data[..used])
                else fresh(data)
      ensures code != PAD && code != END && data != null ==>
                Total(options[..], N_OPTIONS) == old(Total(options[..], N_OPTIONS)) + |bytes|
      ensures code != PAD && code != END && old(options[code].n) == 0 && data != old(data) ==>
                && used == Total(options[..], N_OPTIONS)
                && var needed := old(used) + |bytes|; Capacity() == if needed * 2 > 64 then needed * 2 else 64
    {
      if code == PAD || code == END {
        return;
      }
      Prealloc(|bytes| + options[code].n);
      if data == null {
        return;
      }
      AfterPutTotal(Placed(), code, |bytes|);
      AppendTo(code, bytes);
    }

    /** The message as it stands while vendor options are parsed out of its arena: the arena starts
        with these bytes. */
    ghost predicate Reading(source: array<byte>, arena: seq<byte>, o: Options, l: Layout)
      reads this, options, data
    {
      && Valid() && data == source && |arena| <= used && source[..|arena|] == arena
      && View() == o && Placed() == l
    }

    /** Puts one vendor option found at place `i` of the arena.  There is something to read on from
        just when the put did not have to move to a larger arena. */
    method PutVendor(i: nat, n: nat, ghost source: array<byte>, ghost arena: seq<byte>,
                     ghost o: Options, ghost l: Layout)
      returns (live: bool)
      requires Reading(source, arena, o, l) && i + 2 + n <= |arena|
      modifies this, options, data
      ensures Valid() && (data == source || fresh(data))
      ensures var code: nat := arena[i] + VENDOR_OFS;
              && live == PutFits(l, source.Length, code, n)
              && (live ==> Reading(source, arena, Put(o, code, arena[i + 2..i + 2 + n]), AfterPut(l, code, n)))
    {
      var before, code: int := data, data[i];
      var bytes := data[i + 2..i + 2 + n];
      assert bytes == arena[i + 2..i + 2 + n];
      PutBytes(code + VENDOR_OFS, bytes);
      live := data == before;
      if live {
        assert data[..old(used)][..|arena|] == arena;
      }
    }

    method TakeVendor(i: nat, end: nat, ghost source: array<byte>, ghost arena: seq<byte>, ghost s: Stage)
      returns (live: bool, next: nat, ghost s': Stage)
      requires Reading(source, arena, s.o, s.l) && end <= |arena| && IsStage(s, end)
      requires i == s.i && !AtEnd(arena, i, end) && arena[i] != PAD
      modifies this, options, data
      ensures Valid() && (data == source || fresh(data))
      ensures if live then
                && Turns(arena, end, source.Length, s, s') && Reading(source, arena, s'.o, s'.l)
                && IsStage(s', end) && s.i < next == s'.i
              else Stuck(arena, end, source.Length, s)
    {
      var n: nat := data[i + 1];
      live := PutVendor(i, n, source, arena, s.o, s.l);
      next, s' := i + 2 + n, Taken(arena, s, arena[i] + VENDOR_OFS, n);
    }

    /** The loop of the parser over part of the arena: the run it makes, ended or stuck. */
    method VendorLoop(from: nat, end: nat, ghost arena: seq<byte>, ghost o: Options, ghost l: Layout)
      returns (live: bool, ghost run: seq<Stage>)
      requires data != null && Reading(data, arena, o, l) && from <= end <= |arena|
      modifies this, options, data
      ensures Valid() && IsRun(arena, end, old(data.Length), run) && run[0] == Stage(from, o, l)
      ensures if live then AtEnd(arena, run[|run| - 1].i, end) && View() == run[|run| - 1].o
              else Stuck(arena, end, old(data.Length), run[|run| - 1])
    {
      var source, i := data, from;
      ghost var s := Stage(from, o, l);
      run := [s];
      while true
        invariant IsRun(arena, end, source.Length, run) && run[0] == Stage(from, o, l)
        invariant run[|run| - 1] == s && s.i == i <= end && Reading(source, arena, s.o, s.l)
        decreases end - i
      {
        if i == end || source[i] == END {
          return true, run;
        } else if source[i] == PAD {
          i := i + 1;
          RunGoesOn(arena, end, source.Length, run, s.(i := i));
          s := s.(i := i);
          run := run + [s];
          continue;
        }
        if i + 1 == end || i + 2 + source[i + 1] as int > end {
          return true, run;
        }
        ghost var s';
        live, i, s' := TakeVendor(i, end, source, arena, s);
        if !live {
          return;
        }
        RunGoesOn(arena, end, source.Length, run, s');
        s := s';
        run := run + [s];
      }
    }

    method ParseRange(from: nat, end: nat, ghost o: Options, ghost l: Layout, ghost b: seq<byte>) returns (live: bool)
      requires Valid() && data != null && from <= end <= used && b == data[from..end]
      requires View() == o && Placed() == l
      modifies this, options, data
      ensures Valid() && live == ParseFits(l, old(data.Length), b)
      ensures live ==> View() == Parse(o, b, VENDOR_OFS)
    {
      ghost var arena := data[..used];
      ghost var run;
      live, run := VendorLoop(from, end, arena, o, l);
      VendorOutcome(o, l, old(data.Length), arena, from, end, run, b);
    }

    /** Parses the vendor options out of the arena that they are put into, with no end marker.
        `live` tells whether all that was read was still there to be read: if a put moves to a
        larger arena, the one being read is given up, and nothing is promised. */
    method ParseVendor() returns (live: bool)
      requires Valid()
      modifies this, options, data
      ensures Valid()
      ensures var b := Value(old(View()).table[VENDOR_SPECIFIC]);
              && (live <==> ParseFits(old(Placed()), old(Capacity()), b))
              && (live ==> View() == Parse(old(View()), b, VENDOR_OFS))
    {
      var slot := options[VENDOR_SPECIFIC];
      ghost var o := View();
      assert SlotOk(slot, used) && o.table[VENDOR_SPECIFIC] == SlotValue(slot, Arena());
      if slot.at.None? {
        return true;
      }
      live := ParseRange(slot.at.value, slot.at.value + slot.n, o, Placed(), Value(o.table[VENDOR_SPECIFIC]));
    }

    method ParseOptions(b: seq<byte>, offset: nat)
      requires Valid() && offset <= VENDOR_OFS
      modifies this, options, data
      ensures Valid() && View() == Parse(old(View()), b, offset)
    {
      var rest := b;
      while true
        invariant Valid() && (data == old(data) || fresh(data))
        invariant Parse(View(), rest, offset) == Parse(old(View()), b, offset)
        decreases |rest|
      {
        ParseSkips(View(), rest, offset);
        if rest == [] || rest[0] == END {
          break;
        } else if rest[0] == PAD {
          rest := rest[1..];
          continue;
        }
        if |rest| < 2 {
          break;
        }
        if |rest| < 2 + rest[1] as int {
          break;
        }
        rest := TakeOption(rest, offset);
      }
    }

    /** Parses the option at the front of a buffer and gives what comes after it. */
    method TakeOption(b: seq<byte>, offset: nat) returns (rest: seq<byte>)
      requires Valid() && offset <= VENDOR_OFS && |b| >= 2 && b[0] != PAD && b[0] != END
      requires |b| >= 2 + b[1] as int
      modifies this, options, data
      ensures Valid() && (data == old(data) || fresh(data)) && |rest| < |b|
      ensures Parse(View(), rest, offset) == Parse(old(View()), b, offset)
    {
      var code: nat, n: nat := b[0] + offset, b[1];
      ghost var o := View();
      PutBytes(code, b[2..2 + n]);
      rest := b[2 + n..];
      assert View() == Put(o, code, b[2..2 + n]);
      ParseOne(o, b, offset);
    }
  }

  // ----- encoding

  method PutOption(b: seq<byte>, code: byte, v: Option<seq<byte>>) returns (r: seq<byte>)
    ensures r == b + EncodeOption(code, v)
  {
    r := b;
    if v.None? {
      return;
    }
    var rest := v.value;
    if rest == [] {
      r := r + Chunk(code, []);
      return;
    }
    while rest != []
      invariant rest != [] ==> r + Chunks(code, rest) == b + Chunks(code, v.value)
      invariant rest == [] ==> r == b + Chunks(code, v.value)
      decreases |rest|
    {
      var n := if |rest| > 255 then 248 else |rest|;
      ghost var before := r;
      r := r + Chunk(code, rest[..n]);
      if n < |rest| {
        assert r + Chunks(code, rest[n..]) == before + (Chunk(code, rest[..n]) + Chunks(code, rest[n..]));
      }
      rest := rest[n..];
    }
  }

  lemma AssembleStep(r: seq<byte>, t: seq<Option<seq<byte>>>, i: nat)
    requires |t| >= 256 && i < 256
    ensures (r + EncodeOption(i, t[i])) + Encode(t, 0, i + 1) == r + Encode(t, 0, i)
  {
    var one, more := EncodeOption(i, t[i]), Encode(t, 0, i + 1);
    assert (r + one) + more == r + (one + more);
  }

  /** The standard options of a table, in code order, and the end marker. */
  method Assemble(t: seq<Option<seq<byte>>>) returns (r: seq<byte>)
    requires Standard(t)
    ensures r == Encode(t, 0, 0) + [END]
  {
    r := [];
    for i := 0 to 256
      invariant r + Encode(t, 0, i) == Encode(t, 0, 0)
    {
      AssembleStep(r, t, i);
      r := PutOption(r, i, t[i]);
    }
    assert r + [] == r;
    r := r + [END];
  }

  /** Assembling a table and parsing the bytes into a fresh message gives the table back,
      exactly when every empty option comes after one with content. */
  method AssembleAndParse(t: seq<Option<seq<byte>>>) returns (msg: Msg)
    requires Standard(t)
    ensures msg.Valid() && (msg.View().table == t <==> LeadsWithContent(t))
  {
    var b := Assemble(t);
    msg := new Msg();
    msg.ParseOptions(b, 0);
    assert b == Encode(t, 0, 0) + ([END] + []);
    RoundTrip(t, []);
  }

  // ----- vendor options

  /** Vendor options encoded as the value of one standard option come back if parsing them never
      has to move to a larger arena. */
  method ParseEncodedVendor(msg: Msg, t: seq<Option<seq<byte>>>) returns (live: bool)
    requires msg.Valid() && Proper(t) && msg.View().table[VENDOR_SPECIFIC] == Some(Encode(t, VENDOR_OFS, 0))
    requires forall c :: VENDOR_OFS <= c < N_OPTIONS ==> msg.View().table[c].None?
    modifies msg, msg.options, msg.data
    ensures msg.Valid()
    ensures live <==> ParseFits(old(msg.Placed()), old(msg.Capacity()), Encode(t, VENDOR_OFS, 0))
    ensures live ==> forall c :: VENDOR_OFS <= c < N_OPTIONS ==> msg.View().table[c] == t[c]
  {
    ghost var o := msg.View();
    live := msg.ParseVendor();
    if live {
      forall c | VENDOR_OFS <= c < N_OPTIONS ensures msg.View().table[c] == t[c] {
        VendorRoundTrip(o, t, c - VENDOR_OFS);
      }
    }
  }

  lemma OneFits(l: Layout, capacity: nat, code: byte, v: seq<byte>)
    requires |l.slots| == N_OPTIONS && code != PAD && code != END && |v| < 256
    ensures ParseFits(l, capacity, Chunk(code, v)) <==> PutFits(l, capacity, code + VENDOR_OFS, |v|)
  {
    assert Chunk(code, v)[2 + |v|..] == [];
  }

  lemma OneParsed(o: Options, code: byte, v: seq<byte>)
    requires WellFormed(o) && code != PAD && code != END && |v| < 256
    ensures Parse(o, Chunk(code, v), VENDOR_OFS) == Put(o, code + VENDOR_OFS, v)
  {
    assert Chunk(code, v) + [] == Chunk(code, v);
    ParseChunk(o, code, v, [], VENDOR_OFS);
  }

  const MSG_TYPE := 53
  const VENDOR_CLASS := 60

  method PutTypeAndClass(kind: byte, cls: seq<byte>) returns (msg: Msg)
    requires |cls| == 8
    ensures msg.Valid() && fresh(msg) && fresh(msg.options) && msg.data != null && fresh(msg.data)
    ensures forall c :: 0 <= c < N_OPTIONS && c != MSG_TYPE && c != VENDOR_CLASS ==> msg.View().table[c].None?
    ensures msg.used == Total(msg.options[..], N_OPTIONS) == 9 && msg.data.Length == 64
  {
    msg := new Msg();
    msg.PutBytes(MSG_TYPE, [kind]);
    msg.PutBytes(VENDOR_CLASS, cls);
  }

  /** A message type, a class of eight characters, and vendor options, put in that order. */
  method PutVendorMessage(kind: byte, cls: seq<byte>, bytes: seq<byte>) returns (msg: Msg)
    requires |cls| == 8 && 0 < |bytes| < 256
    ensures msg.Valid() && fresh(msg) && fresh(msg.options) && msg.data != null && fresh(msg.data)
    ensures msg.View().table[VENDOR_SPECIFIC] == Some(bytes)
    ensures forall c :: VENDOR_OFS <= c < N_OPTIONS ==> msg.View().table[c].None? && msg.options[c].n == 0
    ensures msg.used == 9 + |bytes| && msg.data.Length == if msg.used <= 64 then 64 else 2 * msg.used
  {
    msg := PutTypeAndClass(kind, cls);
    msg.PutBytes(VENDOR_SPECIFIC, bytes);
    assert [] + bytes == bytes;
    forall c | VENDOR_OFS <= c < N_OPTIONS ensures msg.View().table[c].None? && msg.options[c].n == 0 {
      assert SlotOk(msg.options[c], msg.used);
    }
  }

  /** The exact condition for the smallest message with a vendor option: from 27 bytes the option
      does not fit in the first arena twice; from 54 it does not fit once, and so came with a
      larger arena. */
  method ParseOneVendorOption(kind: byte, cls: seq<byte>, code: byte, v: seq<byte>) returns (msg: Msg, live: bool)
    requires |cls| == 8 && code != PAD && code != END && |v| <= 253
    ensures msg.Valid() && (live <==> |v| <= 26 || |v| >= 54)
    ensures live ==> msg.View().table[code + VENDOR_OFS] == Some(v)
  {
    msg := PutVendorMessage(kind, cls, Chunk(code, v));
    ghost var o := msg.View();
    OneFits(msg.Placed(), msg.Capacity(), code, v);
    OneParsed(o, code, v);
    assert [] + v == v;
    live := msg.ParseVendor();
  }
}
