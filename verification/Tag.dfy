/**
  Tags: 32-bit superimposed codes with exactly two bits set, and the tag sets that
  accumulate them.  A 32-bit word is modelled by the set of its bit positions; module
  `TagWord` shows that the word expressions compute exactly these set operations.
*/
module Tag {
  import opened Common

  type Tag = set<nat>

  const N_BITS := 32
  const N_SLOTS := 4

  function Below(n: nat): (x: Tag)
    ensures forall k: nat :: k in x <==> k < n
  {
    if n == 0 then {} else Below(n - 1) + {n - 1}
  }

  function AllOnes(): Tag {
    Below(N_BITS)
  }

  function Least(x: Tag): (k: nat)
    requires x != {}
    ensures k in x && forall j :: j in x ==> k <= j
  {
    LeastExists(x);
    var k :| k in x && forall j :: j in x ==> k <= j;
    k
  }

  lemma {:induction false} LeastExists(x: Tag)
    requires x != {}
    ensures exists k :: k in x && forall j :: j in x ==> k <= j
  {
    var k :| k in x;
    if x != {k} {
      var rest := x - {k};
      LeastExists(rest);
      var m :| m in rest && forall j :: j in rest ==> m <= j;
      var least := if k < m then k else m;
      assert forall j :: j in x ==> j == k || j in rest;
      assert least in x && forall j :: j in x ==> least <= j;
    }
  }

  /** What `x & (x - 1)` leaves of `x`. */
  function ClearLowest(x: Tag): Tag {
    if x == {} then {} else x - {Least(x)}
  }

  /** Two combinations of tags share at least two bits. */
  predicate Intersects(a: Tag, b: Tag) {
    ClearLowest(a * b) != {}
  }

  predicate IsValid(tag: Tag) {
    var x := ClearLowest(tag);
    x != {} && ClearLowest(x) == {}
  }

  lemma IntersectsMeaning(a: Tag, b: Tag)
    ensures Intersects(a, b) <==> exists i, j :: i != j && i in a && i in b && j in a && j in b
  {
    var x := a * b;
    if Intersects(a, b) {
      var j :| j in ClearLowest(x);
      assert Least(x) in x && Least(x) != j;
    }
    forall i, j | i != j && i in a && i in b && j in a && j in b ensures Intersects(a, b) {
      assert i in x && j in x;
      assert i in ClearLowest(x) || j in ClearLowest(x);
    }
  }

  /** Being valid is being made of exactly two bits. */
  lemma ValidMeaning(tag: Tag)
    ensures IsValid(tag) <==> exists i, j :: i != j && tag == {i, j}
  {
    var x := ClearLowest(tag);
    if IsValid(tag) {
      assert tag == {Least(tag), Least(x)};
    }
    forall i, j | i != j && tag == {i, j} ensures IsValid(tag) {
      assert x == {i} || x == {j};
    }
  }

  /** The positions of the two bits that a 32-bit seed selects. */
  function Positions(seed: nat): (r: (nat, nat))
    ensures r.0 < N_BITS && r.1 < N_BITS && r.0 != r.1
  {
    var x := seed % N_BITS;
    var y := seed / N_BITS % 31;
    (x, if y >= x then y + 1 else y)
  }

  /** The tag that a 32-bit seed determines. */
  function Deterministic(seed: nat): Tag {
    {Positions(seed).0} + {Positions(seed).1}
  }

  /** Whatever the seed, the result is a tag. */
  lemma DeterministicIsValid(seed: nat)
    ensures IsValid(Deterministic(seed))
  {
    ValidMeaning(Deterministic(seed));
    var (i, j) := Positions(seed);
    assert i != j && Deterministic(seed) == {i, j};
  }

  lemma IntersectsGrows(a: Tag, b: Tag, q: Tag)
    requires a <= b && Intersects(a, q)
    ensures Intersects(b, q)
  {
    IntersectsMeaning(a, q);
    IntersectsMeaning(b, q);
  }

  /** A valid tag that meets `s` lies wholly inside `s`. */
  lemma ValidIsContained(s: Tag, tag: Tag)
    requires IsValid(tag) && Intersects(s, tag)
    ensures tag <= s
  {
    IntersectsMeaning(s, tag);
    ValidMeaning(tag);
  }

  // ----- tag sets

  /** The contents of a tag set: the union of all tags, and four slots sharing them out. */
  datatype Contents = Contents(total: Tag, tags: seq<Tag>, n: nat)

  predicate FourSlots(s: Contents) {
    |s.tags| == N_SLOTS && s.n < TWO32
  }

  const EMPTY := Contents({}, [{}, {}, {}, {}], 0)

  predicate Matches(s: Contents, q: Tag)
    requires FourSlots(s)
  {
    && Intersects(s.total, q)
    && (Intersects(s.tags[0], q) || Intersects(s.tags[1], q)
        || Intersects(s.tags[2], q) || Intersects(s.tags[3], q))
  }

  /** A tag is stored unless it is empty or already covered. */
  predicate Takes(s: Contents, tag: Tag)
    requires FourSlots(s)
  {
    tag != {} && (!IsValid(tag) || !Matches(s, tag))
  }

  /** Joins the tag to the slot whose turn it is; a full slot is copied to slot 0. */
  function Put(s: Contents, tag: Tag): (r: Contents)
    requires FourSlots(s)
    ensures FourSlots(r)
  {
    var i := s.n % N_SLOTS;
    var t := s.tags[i] + tag;
    var tags := s.tags[i := t];
    Contents(s.total + tag, if t == AllOnes() then tags[0 := t] else tags, (s.n + 1) % TWO32)
  }

  function Add(s: Contents, tag: Tag): (r: Contents)
    requires FourSlots(s)
    ensures FourSlots(r)
  {
    if Takes(s, tag) then Put(s, tag) else s
  }

  function AddAll(s: Contents, tags: seq<Tag>): (r: Contents)
    requires FourSlots(s)
    ensures FourSlots(r)
  {
    if tags == [] then s else Add(AddAll(s, tags[..|tags| - 1]), tags[|tags| - 1])
  }

  function Union(tags: seq<Tag>): Tag {
    if tags == [] then {} else Union(tags[..|tags| - 1]) + tags[|tags| - 1]
  }

  /** All bits are positions in a 32-bit word. */
  predicate InWord(t: Tag) {
    t <= AllOnes()
  }

  predicate SlotsInWord(s: Contents)
    requires FourSlots(s)
  {
    forall i :: 0 <= i < N_SLOTS ==> InWord(s.tags[i])
  }

  predicate SlotsWithin(s: Contents, r: Contents)
    requires FourSlots(s) && FourSlots(r)
  {
    s.total <= r.total && forall i :: 0 <= i < N_SLOTS ==> s.tags[i] <= r.tags[i]
  }

  lemma AddOnlyGrows(s: Contents, tag: Tag)
    requires FourSlots(s) && SlotsInWord(s) && InWord(tag)
    ensures SlotsWithin(s, Add(s, tag)) && SlotsInWord(Add(s, tag))
  {
  }

  lemma WithinMatches(s: Contents, r: Contents, q: Tag)
    requires FourSlots(s) && FourSlots(r) && SlotsWithin(s, r) && Matches(s, q)
    ensures Matches(r, q)
  {
    IntersectsGrows(s.total, r.total, q);
    var i :| 0 <= i < N_SLOTS && Intersects(s.tags[i], q);
    IntersectsGrows(s.tags[i], r.tags[i], q);
  }

  /** Adding a tag makes the set match everything the tag meets, even when the tag is
      skipped as already covered or the slot it lands in fills up. */
  lemma AddCovers(s: Contents, tag: Tag, q: Tag)
    requires FourSlots(s) && Intersects(tag, q)
    ensures Matches(Add(s, tag), q)
  {
    var r := Add(s, tag);
    assert tag != {} by {
      IntersectsMeaning(tag, q);
    }
    if !IsValid(tag) || !Matches(s, tag) {
      var i := s.n % N_SLOTS;
      IntersectsGrows(tag, r.total, q);
      IntersectsGrows(tag, s.tags[i] + tag, q);
      assert r.tags[i] == s.tags[i] + tag;
    } else {
      ValidIsContained(s.total, tag);
      IntersectsGrows(tag, s.total, q);
      var i :| 0 <= i < N_SLOTS && Intersects(s.tags[i], tag);
      ValidIsContained(s.tags[i], tag);
      IntersectsGrows(tag, s.tags[i], q);
    }
  }

  /** After any sequence of additions the set matches every query that meets some added tag:
      there are no false negatives. */
  lemma {:induction false} NoFalseNegatives(tags: seq<Tag>, k: nat, q: Tag)
    requires forall t :: t in tags ==> InWord(t)
    requires k < |tags| && Intersects(tags[k], q)
    ensures Matches(AddAll(EMPTY, tags), q)
  {
    var last := |tags| - 1;
    var init := AddAll(EMPTY, tags[..last]);
    if k == last {
      AddCovers(init, tags[last], q);
    } else {
      NoFalseNegatives(tags[..last], k, q);
      AllInWord(tags[..last]);
      AddOnlyGrows(init, tags[last]);
      WithinMatches(init, AddAll(EMPTY, tags), q);
    }
  }

  lemma {:induction false} AllInWord(tags: seq<Tag>)
    requires forall t :: t in tags ==> InWord(t)
    ensures SlotsInWord(AddAll(EMPTY, tags))
  {
    if tags != [] {
      var last := |tags| - 1;
      AllInWord(tags[..last]);
      AddOnlyGrows(AddAll(EMPTY, tags[..last]), tags[last]);
    }
  }

  /** The running total is exactly the union of what was added, so a set never matches a
      query that meets no combination of added tags. */
  lemma {:induction false} TotalIsUnion(tags: seq<Tag>)
    ensures AddAll(EMPTY, tags).total == Union(tags)
    ensures forall q :: Matches(AddAll(EMPTY, tags), q) ==> Intersects(Union(tags), q)
  {
    if tags != [] {
      var last := |tags| - 1;
      var init := AddAll(EMPTY, tags[..last]);
      TotalIsUnion(tags[..last]);
      if IsValid(tags[last]) && Matches(init, tags[last]) {
        ValidIsContained(init.total, tags[last]);
      }
    }
  }

  class TagSet {
    var total: Tag
    const tags: array<Tag>
    var n: nat

    ghost function View(): Contents
      reads this, tags
    {
      Contents(total, tags[..], n)
    }

    ghost predicate Valid()
      reads this, tags
    {
      FourSlots(View())
    }

    constructor ()
      ensures Valid() && View() == EMPTY && fresh(tags)
    {
      total, n := {}, 0;
      tags := new Tag[4](_ => {});
      new;
      assert tags[..] == [{}, {}, {}, {}];
    }

    method Test(q: Tag) returns (r: bool)
      requires Valid()
      ensures r == Matches(View(), q)
    {
      r := Intersects(total, q)
           && (Intersects(tags[0], q) || Intersects(tags[1], q)
               || Intersects(tags[2], q) || Intersects(tags[3], q));
    }

    method Insert(tag: Tag)
      requires Valid()
      modifies this, tags
      ensures Valid() && View() == Add(old(View()), tag)
    {
      var covered := Test(tag);
      if tag != {} && (!IsValid(tag) || !covered) {
        var i := n % N_SLOTS;
        n := (n + 1) % TWO32;
        var t := tags[i] + tag;
        tags[i] := t;
        if t == AllOnes() {
          tags[0] := t;
        }
        total := total + tag;
        assert tags[..] == Add(old(View()), tag).tags;
      }
    }
  }
}
