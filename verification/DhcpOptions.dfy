/**
  DHCP options on the wire: values of any length cut into chunks, parsed back by
  concatenation, for tables indexed by option code.
*/
module DhcpOptions {
  import opened Common

  const PAD := 0
  const END := 255
  const N_OPTIONS := 512
  const VENDOR_OFS := 256

  /** The option whose value is the encoded vendor options. */
  const VENDOR_SPECIFIC := 43

  /** Option values by code, and whether any storage has been set aside for them yet. */
  datatype Options = Options(table: seq<Option<seq<byte>>>, stored: bool)

  predicate WellFormed(o: Options) {
    && |o.table| == N_OPTIONS
    && (!o.stored ==> forall c :: 0 <= c < N_OPTIONS ==> o.table[c].None?)
  }

  function Value(v: Option<seq<byte>>): seq<byte> {
    if v.Some? then v.value else []
  }

  function EmptyTable(): (t: seq<Option<seq<byte>>>)
    ensures |t| == N_OPTIONS && forall c :: 0 <= c < N_OPTIONS ==> t[c].None?
  {
    seq(N_OPTIONS, i => None)
  }

  const NO_OPTIONS := Options(EmptyTable(), false)

  /** Appends to one option's value.  Padding and end markers carry no value, and an empty
      value leaves no trace while nothing is stored. */
  function Put(o: Options, code: nat, data: seq<byte>): (r: Options)
    requires WellFormed(o) && code < N_OPTIONS
    ensures WellFormed(r)
  {
    if code == PAD || code == END || (data == [] && !o.stored) then o
    else Options(o.table[code := Some(Value(o.table[code]) + data)], true)
  }

  // ----- parsing

  function Parse(o: Options, b: seq<byte>, offset: nat): (r: Options)
    requires WellFormed(o) && offset <= VENDOR_OFS
    ensures WellFormed(r)
    decreases |b|
  {
    if b == [] || b[0] == END then o
    else if b[0] == PAD then Parse(o, b[1..], offset)
    else if |b| < 2 || |b| < 2 + b[1] as int then o
    else
      var code: int, n: int := b[0], b[1];
      Parse(Put(o, code + offset, b[2..2 + n]), b[2 + n..], offset)
  }

  // ----- encoding

  function Chunk(code: byte, data: seq<byte>): seq<byte>
    requires |data| < 256
  {
    [code, |data|] + data
  }

  /** A non-empty value as chunks of at most 255 bytes, all but the last of 248. */
  function Chunks(code: byte, data: seq<byte>): seq<byte> {
    if |data| > 255 then Chunk(code, data[..248]) + Chunks(code, data[248..])
    else Chunk(code, data)
  }

  function EncodeOption(code: byte, v: Option<seq<byte>>): seq<byte> {
    if v.None? then [] else Chunks(code, v.value)
  }

  /** The options with codes from `from` up, in code order, of the 256 that start at `offset`. */
  function Encode(t: seq<Option<seq<byte>>>, offset: nat, from: nat): seq<byte>
    requires |t| >= offset + 256 && from <= 256
    decreases 256 - from
  {
    if from == 256 then []
    else EncodeOption(from, t[offset + from]) + Encode(t, offset, from + 1)
  }

  // ----- round trip

  lemma PutTwice(o: Options, code: nat, x: seq<byte>, y: seq<byte>)
    requires WellFormed(o) && code < N_OPTIONS && x != []
    ensures Put(Put(o, code, x), code, y) == Put(o, code, x + y)
  {
    assert (Value(o.table[code]) + x) + y == Value(o.table[code]) + (x + y);
  }

  lemma ParseChunk(o: Options, code: byte, data: seq<byte>, rest: seq<byte>, offset: nat)
    requires WellFormed(o) && offset <= VENDOR_OFS && code != PAD && code != END && |data| < 256
    ensures Parse(o, Chunk(code, data) + rest, offset)
            == Parse(Put(o, code + offset, data), rest, offset)
  {
    var b := Chunk(code, data) + rest;
    assert b[0] == code && b[1] == |data|;
    assert b[2..2 + |data|] == data;
    assert b[2 + |data|..] == rest;
  }

  /** Parsing an encoded value, whatever its length, puts that value. */
  lemma {:induction false} ParseChunks(
    o: Options, code: byte, data: seq<byte>, rest: seq<byte>, offset: nat)
    requires WellFormed(o) && offset <= VENDOR_OFS && code != PAD && code != END
    ensures Parse(o, Chunks(code, data) + rest, offset)
            == Parse(Put(o, code + offset, data), rest, offset)
    decreases |data|
  {
    if |data| > 255 {
      var first, more := data[..248], data[248..];
      assert Chunks(code, data) + rest == Chunk(code, first) + (Chunks(code, more) + rest);
      ParseChunk(o, code, first, Chunks(code, more) + rest, offset);
      ParseChunks(Put(o, code + offset, first), code, more, rest, offset);
      PutTwice(o, code + offset, first, more);
      assert first + more == data;
    } else {
      ParseChunk(o, code, data, rest, offset);
    }
  }

  /** Putting every present option of a table, in code order. */
  function Load(o: Options, t: seq<Option<seq<byte>>>, offset: nat, from: nat): (r: Options)
    requires WellFormed(o) && offset <= VENDOR_OFS && |t| == N_OPTIONS && from <= 256
    ensures WellFormed(r)
    decreases 256 - from
  {
    if from == 256 then o
    else Load(LoadOne(o, t[offset + from], offset + from), t, offset, from + 1)
  }

  /** A table of options that have a code of their own: padding and end markers are absent. */
  predicate Proper(t: seq<Option<seq<byte>>>) {
    && |t| == N_OPTIONS
    && t[PAD].None? && t[END].None? && t[VENDOR_OFS + PAD].None? && t[VENDOR_OFS + END].None?
  }

  /** Where the standard and the vendor options start. */
  predicate IsBase(offset: nat) {
    offset == 0 || offset == VENDOR_OFS
  }

  lemma EncodeStep(t: seq<Option<seq<byte>>>, offset: nat, from: nat, rest: seq<byte>)
    requires |t| >= offset + 256 && from < 256
    ensures Encode(t, offset, from) + rest
            == EncodeOption(from, t[offset + from]) + (Encode(t, offset, from + 1) + rest)
  {
  }

  /** Parsing an encoded table loads it; parsing stops where the bytes end or at an end marker. */
  lemma {:induction false} ParseLoads(
    o: Options, t: seq<Option<seq<byte>>>, offset: nat, from: nat, rest: seq<byte>)
    requires WellFormed(o) && Proper(t) && from <= 256 && IsBase(offset) && (rest == [] || rest[0] == END)
    ensures Parse(o, Encode(t, offset, from) + rest, offset) == Load(o, t, offset, from)
    decreases 256 - from
  {
    if from == 256 {
      assert [] + rest == rest;
    } else {
      var v := t[offset + from];
      var more := Encode(t, offset, from + 1) + rest;
      EncodeStep(t, offset, from, rest);
      if v.None? {
        assert [] + more == more;
        ParseLoads(o, t, offset, from + 1, rest);
      } else {
        ParseChunks(o, from, v.value, more, offset);
        ParseLoads(Put(o, offset + from, v.value), t, offset, from + 1, rest);
      }
    }
  }

  /** Some option with a code in `[from, to)` has a value that is not empty. */
  predicate SomeNonEmpty(t: seq<Option<seq<byte>>>, from: nat, to: nat)
    requires to <= |t|
  {
    exists c :: from <= c < to && Value(t[c]) != []
  }

  lemma SomeNonEmptyFrom(t: seq<Option<seq<byte>>>, from: nat, to: nat)
    requires from < to <= |t|
    ensures SomeNonEmpty(t, from, to) <==> Value(t[from]) != [] || SomeNonEmpty(t, from + 1, to)
  {
  }

  function LoadOne(o: Options, v: Option<seq<byte>>, code: nat): (r: Options)
    requires WellFormed(o) && code < N_OPTIONS
    ensures WellFormed(r)
  {
    if v.None? then o else Put(o, code, v.value)
  }

  lemma LoadOneResult(o: Options, v: Option<seq<byte>>, code: nat)
    requires WellFormed(o) && code < N_OPTIONS && (v.Some? ==> code != PAD && code != END)
    ensures LoadOne(o, v, code).stored <==> o.stored || Value(v) != []
    ensures forall c :: 0 <= c < N_OPTIONS && c != code ==> LoadOne(o, v, code).table[c] == o.table[c]
    ensures o.table[code].None? ==>
              LoadOne(o, v, code).table[code] == if v == Some([]) && !o.stored then None else v
  {
    assert [] + Value(v) == Value(v);
  }

  /** What loading does to a code that has no value yet: it takes the table's value, unless
      that is empty and nothing has been stored by then. */
  lemma {:induction false} LoadResult(
    o: Options, t: seq<Option<seq<byte>>>, offset: nat, from: nat, c: nat)
    requires WellFormed(o) && Proper(t) && IsBase(offset) && from <= c < 256
    requires o.table[offset + c].None?
    ensures Load(o, t, offset, from).table[offset + c]
            == if t[offset + c] == Some([]) && !o.stored && !SomeNonEmpty(t, offset + from, offset + c)
               then None else t[offset + c]
    decreases 256 - from
  {
    var code := offset + from;
    var o' := LoadOne(o, t[code], code);
    LoadOneResult(o, t[code], code);
    assert Load(o, t, offset, from) == Load(o', t, offset, from + 1);
    if c == from {
      LoadKeeps(o', t, offset, from + 1, code);
    } else {
      LoadResult(o', t, offset, from + 1, c);
      SomeNonEmptyFrom(t, code, offset + c);
    }
  }

  lemma {:induction false} LoadKeeps(
    o: Options, t: seq<Option<seq<byte>>>, offset: nat, from: nat, c: nat)
    requires WellFormed(o) && Proper(t) && IsBase(offset) && from <= 256
    requires c < N_OPTIONS && (c < offset + from || c >= offset + 256)
    ensures Load(o, t, offset, from).table[c] == o.table[c]
    decreases 256 - from
  {
    if from < 256 {
      LoadOneResult(o, t[offset + from], offset + from);
      LoadKeeps(LoadOne(o, t[offset + from], offset + from), t, offset, from + 1, c);
    }
  }

  /** Only standard options are present. */
  predicate Standard(t: seq<Option<seq<byte>>>) {
    Proper(t) && forall c :: VENDOR_OFS <= c < N_OPTIONS ==> t[c].None?
  }

  /** Every option that is present but empty comes after one that is not empty. */
  predicate LeadsWithContent(t: seq<Option<seq<byte>>>)
    requires |t| == N_OPTIONS
  {
    forall c :: 0 <= c < 256 && t[c] == Some([]) ==> SomeNonEmpty(t, 0, c)
  }

  /** Encoding a table of standard options and parsing the result into a new message gives
      the table back, whatever follows the end marker, exactly when every empty option comes
      after one with content. */
  lemma RoundTrip(t: seq<Option<seq<byte>>>, junk: seq<byte>)
    requires Standard(t)
    ensures Parse(NO_OPTIONS, Encode(t, 0, 0) + ([END] + junk), 0).table == t <==> LeadsWithContent(t)
  {
    var r := Load(NO_OPTIONS, t, 0, 0);
    ParseLoads(NO_OPTIONS, t, 0, 0, [END] + junk);
    forall c | 0 <= c < 256
      ensures r.table[c] == t[c] <==> !(t[c] == Some([]) && !SomeNonEmpty(t, 0, c))
    {
      LoadResult(NO_OPTIONS, t, 0, 0, c);
    }
    forall c | VENDOR_OFS <= c < N_OPTIONS ensures r.table[c] == t[c] {
      LoadKeeps(NO_OPTIONS, t, 0, 0, c);
    }
  }

  /** Vendor options are encoded without an end marker, as the value of one standard option.
      Parsed once anything is stored they come back, empty ones included. */
  lemma VendorRoundTrip(o: Options, t: seq<Option<seq<byte>>>, c: nat)
    requires WellFormed(o) && o.stored && Proper(t) && c < 256
    requires o.table[VENDOR_OFS + c].None?
    ensures Parse(o, Encode(t, VENDOR_OFS, 0), VENDOR_OFS).table[VENDOR_OFS + c] == t[VENDOR_OFS + c]
  {
    assert Encode(t, VENDOR_OFS, 0) + [] == Encode(t, VENDOR_OFS, 0);
    ParseLoads(o, t, VENDOR_OFS, 0, []);
    LoadResult(o, t, VENDOR_OFS, 0, c);
  }
}
