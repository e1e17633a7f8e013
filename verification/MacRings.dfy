/**
  The lists of the MAC learning table as linked memory.  Each entry has two list nodes: one is on
  the free or the LRU ring, the other on the ring of its bucket while the entry is in use.  The
  list operations of the program, in its order, take the rings that stand for one store to the
  rings that stand for the next.
*/
module MacRings {
  import opened Common
  import opened MacTable
  import MacLearning
  import opened ListRing

  type Store = MacLearning.Store

  // ----- several rings in one memory

  /** Rings by their heads, no two of which share a node. */
  ghost predicate Family(m: Links, rs: map<Address, seq<Address>>) {
    && (forall h :: h in rs ==> Ring(m, [h] + rs[h]))
    && (forall h, g :: h in rs && g in rs && h != g ==> Apart([h] + rs[h], [g] + rs[g]))
  }

  /** A node that is on none of the rings. */
  ghost predicate Loose(rs: map<Address, seq<Address>>, x: Address) {
    forall h :: h in rs ==> x !in [h] + rs[h]
  }

  /** Working on one ring of a family, and at most one loose node, leaves the others alone. */
  lemma FamilyStep(m: Links, m': Links, rs: map<Address, seq<Address>>, h: Address, items: seq<Address>,
                   touched: set<Address>)
    requires Family(m, rs) && h in rs && Ring(m', [h] + items) && SameOutside(m, m', touched)
    requires forall a :: a in [h] + items ==> a in touched
    requires forall a, g :: a in touched && g in rs && g != h ==> a !in [g] + rs[g]
    ensures Family(m', rs[h := items])
  {
    var rs' := rs[h := items];
    forall g | g in rs' ensures Ring(m', [g] + rs'[g]) {
      if g != h {
        OtherRingsKept(m, m', touched, [g] + rs[g]);
      }
    }
    forall g, f | g in rs' && f in rs' && g != f ensures Apart([g] + rs'[g], [f] + rs'[f]) {
      if g == h {
        ApartFromTouched([h] + items, [f] + rs[f], touched);
      } else if f == h {
        ApartFromTouched([h] + items, [g] + rs[g], touched);
      }
    }
  }

  lemma ApartFromTouched(p: seq<Address>, q: seq<Address>, touched: set<Address>)
    requires (forall a :: a in p ==> a in touched) && forall a :: a in touched ==> a !in q
    ensures Apart(p, q) && Apart(q, p)
  {
  }

  function Less(xs: seq<Address>, k: nat): (r: seq<Address>)
    requires k < |xs|
    ensures |r| == |xs| - 1 && forall i :: 0 <= i < |r| ==> r[i] == xs[if i < k then i else i + 1]
  {
    xs[..k] + xs[k + 1..]
  }

  /** A ring read from the node after the given one on. */
  lemma ReadFrom(m: Links, h: Address, items: seq<Address>, k: nat)
    requires Ring(m, [h] + items) && k < |items|
    ensures var rest := items[k + 1..] + ([h] + items[..k]);
            Ring(m, rest + [items[k]]) && rest != [] && Nodes(rest + [items[k]]) == Nodes([h] + items)
  {
    var p, q := [h] + items[..k + 1], items[k + 1..];
    var rest := q + ([h] + items[..k]);
    assert p + q == [h] + items;
    RingTurned(m, p, q);
    assert p == [h] + items[..k] + [items[k]];
    assert q + p == rest + [items[k]];
    assert forall a :: a in q + p <==> a in p + q;
  }

  lemma ReadBack(m: Links, h: Address, items: seq<Address>, k: nat)
    requires k < |items| && Ring(m, items[k + 1..] + ([h] + items[..k]))
    ensures Ring(m, [h] + Less(items, k))
  {
    RingTurned(m, items[k + 1..], [h] + items[..k]);
    assert [h] + items[..k] + items[k + 1..] == [h] + Less(items, k);
  }

  lemma LessMembers(h: Address, items: seq<Address>, k: nat)
    requires k < |items| && Distinct([h] + items)
    ensures forall a :: a in [h] + Less(items, k) <==> a in [h] + items && a != items[k]
  {
    var s, r := [h] + items, [h] + Less(items, k);
    assert s[k + 1] == items[k];
    forall a | a in s && a != items[k] ensures a in r {
      var i :| 0 <= i < |s| && s[i] == a;
      assert r[if i <= k then i else i - 1] == a;
    }
    forall a | a in r ensures a in s && a != items[k] {
      var i :| 0 <= i < |r| && r[i] == a;
      assert s[if i <= k then i else i + 1] == a;
    }
  }

  method TakeFrom(l: Lists, x: Address, ghost rs: map<Address, seq<Address>>, ghost h: Address, ghost k: nat)
    requires Family(l.m, rs) && h in rs && k < |rs[h]| && x == rs[h][k]
    modifies l
    ensures Family(l.m, rs[h := Less(rs[h], k)]) && Loose(rs[h := Less(rs[h], k)], x)
  {
    ghost var items := rs[h];
    ghost var m := l.m;
    ReadFrom(m, h, items, k);
    var _ := l.Take(x, items[k + 1..] + ([h] + items[..k]));
    ReadBack(l.m, h, items, k);
    LessMembers(h, items, k);
    FamilyStep(m, l.m, rs, h, Less(items, k), Nodes([h] + items));
  }

  method PushBackTo(l: Lists, h: Address, x: Address, ghost rs: map<Address, seq<Address>>)
    requires Family(l.m, rs) && h in rs && Loose(rs, x)
    modifies l
    ensures Family(l.m, rs[h := rs[h] + [x]])
  {
    ghost var m := l.m;
    l.PushBack(h, x, rs[h]);
    assert [h] + (rs[h] + [x]) == [h] + rs[h] + [x];
    FamilyStep(m, l.m, rs, h, rs[h] + [x], Nodes([h] + rs[h] + [x]));
  }

  method PushFrontTo(l: Lists, h: Address, x: Address, ghost rs: map<Address, seq<Address>>)
    requires Family(l.m, rs) && h in rs && Loose(rs, x)
    modifies l
    ensures Family(l.m, rs[h := [x] + rs[h]])
  {
    ghost var m := l.m;
    l.PushFront(h, x, rs[h]);
    FamilyStep(m, l.m, rs, h, [x] + rs[h], Nodes([h] + rs[h] + [x]));
  }

  // ----- the rings of a table

  const FREE: Address := 2 * MAC_MAX
  const LRUS: Address := 2 * MAC_MAX + 1

  function LruNode(e: nat): Address {
    2 * e
  }

  function HashNode(e: nat): Address {
    2 * e + 1
  }

  function Bucket(b: nat): Address {
    2 * MAC_MAX + 2 + b
  }

  function LruNodes(es: seq<nat>): (r: seq<Address>)
    ensures |r| == |es| && forall i :: 0 <= i < |r| ==> r[i] == LruNode(es[i])
  {
    seq(|es|, i requires 0 <= i < |es| => LruNode(es[i]))
  }

  function HashNodes(es: seq<nat>): (r: seq<Address>)
    ensures |r| == |es| && forall i :: 0 <= i < |r| ==> r[i] == HashNode(es[i])
  {
    seq(|es|, i requires 0 <= i < |es| => HashNode(es[i]))
  }

  predicate IsHead(h: Address) {
    FREE <= h < Bucket(MacLearning.N_BUCKETS)
  }

  /** The nodes on the ring with the given head. */
  function RingAt(s: Store, h: Address): seq<Address>
    requires |s.table| == MacLearning.N_BUCKETS && IsHead(h)
  {
    if h == FREE then LruNodes(s.free)
    else if h == LRUS then LruNodes(s.lrus)
    else HashNodes(s.table[h - Bucket(0)])
  }

  /** The rings that stand for a store, by their heads. */
  ghost function RingsOf(s: Store): (rs: map<Address, seq<Address>>)
    requires |s.table| == MacLearning.N_BUCKETS
    ensures forall h :: h in rs <==> IsHead(h)
    ensures forall h :: h in rs ==> rs[h] == RingAt(s, h)
  {
    map h: Address | FREE <= h < Bucket(MacLearning.N_BUCKETS) :: RingAt(s, h)
  }

  ghost predicate Represents(m: Links, s: Store) {
    |s.table| == MacLearning.N_BUCKETS && Family(m, RingsOf(s))
  }

  lemma SameMap(x: map<Address, seq<Address>>, y: map<Address, seq<Address>>)
    requires forall h :: h in x <==> h in y
    requires forall h :: h in x && h in y ==> x[h] == y[h]
    ensures x == y
  {
    assert x.Keys == y.Keys;
  }

  /** The rings stand for the lists of a store, whatever its entries. */
  lemma RepresentsSame(m: Links, s: Store, t: Store)
    requires Represents(m, s) && t.free == s.free && t.lrus == s.lrus && t.table == s.table
    ensures Represents(m, t)
  {
    forall h: Address | IsHead(h) ensures RingAt(s, h) == RingAt(t, h) {}
    SameMap(RingsOf(s), RingsOf(t));
  }

  /** Setting one list of a store is setting one ring. */
  lemma RingsOfFree(s: Store, es: seq<nat>)
    requires |s.table| == MacLearning.N_BUCKETS
    ensures RingsOf(s.(free := es)) == RingsOf(s)[FREE := LruNodes(es)]
  {
    SameMap(RingsOf(s.(free := es)), RingsOf(s)[FREE := LruNodes(es)]);
  }

  lemma RingsOfLrus(s: Store, es: seq<nat>)
    requires |s.table| == MacLearning.N_BUCKETS
    ensures RingsOf(s.(lrus := es)) == RingsOf(s)[LRUS := LruNodes(es)]
  {
    SameMap(RingsOf(s.(lrus := es)), RingsOf(s)[LRUS := LruNodes(es)]);
  }

  lemma RingsOfBucket(s: Store, b: nat, es: seq<nat>)
    requires |s.table| == MacLearning.N_BUCKETS && b < MacLearning.N_BUCKETS
    ensures RingsOf(s.(table := s.table[b := es])) == RingsOf(s)[Bucket(b) := HashNodes(es)]
  {
    SameMap(RingsOf(s.(table := s.table[b := es])), RingsOf(s)[Bucket(b) := HashNodes(es)]);
  }

  lemma NodesOfLess(es: seq<nat>, k: nat)
    requires k < |es|
    ensures LruNodes(Less(es, k)) == Less(LruNodes(es), k) && HashNodes(Less(es, k)) == Less(HashNodes(es), k)
  {
    SameSeq(LruNodes(Less(es, k)), Less(LruNodes(es), k));
    SameSeq(HashNodes(Less(es, k)), Less(HashNodes(es), k));
  }

  lemma NodesLess(es: seq<nat>, k: nat)
    requires MacLearning.NoDuplicates(es) && k < |es|
    ensures LruNodes(MacLearning.Unlink(es, es[k])) == Less(LruNodes(es), k)
    ensures HashNodes(MacLearning.Unlink(es, es[k])) == Less(HashNodes(es), k)
  {
    MacLearning.UnlinkAt(es, es[k], k);
    NodesOfLess(es, k);
  }

  lemma SameSeq(x: seq<Address>, y: seq<Address>)
    requires |x| == |y| && forall i :: 0 <= i < |x| ==> x[i] == y[i]
    ensures x == y
  {
  }

  lemma NodesMore(es: seq<nat>, e: nat)
    ensures LruNodes([e] + es) == [LruNode(e)] + LruNodes(es) && LruNodes(es + [e]) == LruNodes(es) + [LruNode(e)]
    ensures HashNodes([e] + es) == [HashNode(e)] + HashNodes(es)
  {
  }

  // ----- list operations on the rings of a table

  method TakeHash(l: Lists, e: nat, ghost s: Store, ghost b: nat, ghost k: nat) returns (ghost s': Store)
    requires Represents(l.m, s) && b < MacLearning.N_BUCKETS && MacLearning.NoDuplicates(s.table[b])
    requires k < |s.table[b]| && s.table[b][k] == e
    modifies l
    ensures s' == s.(table := s.table[b := MacLearning.Unlink(s.table[b], e)])
    ensures Represents(l.m, s') && Loose(RingsOf(s'), HashNode(e))
  {
    s' := s.(table := s.table[b := MacLearning.Unlink(s.table[b], e)]);
    NodesLess(s.table[b], k);
    RingsOfBucket(s, b, MacLearning.Unlink(s.table[b], e));
    TakeFrom(l, HashNode(e), RingsOf(s), Bucket(b), k);
  }

  method TakeLru(l: Lists, e: nat, ghost s: Store, ghost k: nat) returns (ghost s': Store)
    requires Represents(l.m, s) && MacLearning.NoDuplicates(s.lrus) && k < |s.lrus| && s.lrus[k] == e
    modifies l
    ensures s' == s.(lrus := MacLearning.Unlink(s.lrus, e))
    ensures Represents(l.m, s') && Loose(RingsOf(s'), LruNode(e))
  {
    s' := s.(lrus := MacLearning.Unlink(s.lrus, e));
    NodesLess(s.lrus, k);
    RingsOfLrus(s, MacLearning.Unlink(s.lrus, e));
    TakeFrom(l, LruNode(e), RingsOf(s), LRUS, k);
  }

  method TakeFree(l: Lists, e: nat, ghost s: Store, ghost k: nat) returns (ghost s': Store)
    requires Represents(l.m, s) && MacLearning.NoDuplicates(s.free) && k < |s.free| && s.free[k] == e
    modifies l
    ensures s' == s.(free := MacLearning.Unlink(s.free, e))
    ensures Represents(l.m, s') && Loose(RingsOf(s'), LruNode(e))
  {
    s' := s.(free := MacLearning.Unlink(s.free, e));
    NodesLess(s.free, k);
    RingsOfFree(s, MacLearning.Unlink(s.free, e));
    TakeFrom(l, LruNode(e), RingsOf(s), FREE, k);
  }

  method PushHash(l: Lists, b: nat, e: nat, ghost s: Store) returns (ghost s': Store)
    requires Represents(l.m, s) && b < MacLearning.N_BUCKETS && Loose(RingsOf(s), HashNode(e))
    modifies l
    ensures s' == s.(table := s.table[b := [e] + s.table[b]]) && Represents(l.m, s')
  {
    s' := s.(table := s.table[b := [e] + s.table[b]]);
    NodesMore(s.table[b], e);
    RingsOfBucket(s, b, [e] + s.table[b]);
    PushFrontTo(l, Bucket(b), HashNode(e), RingsOf(s));
  }

  method PushLru(l: Lists, e: nat, ghost s: Store) returns (ghost s': Store)
    requires Represents(l.m, s) && Loose(RingsOf(s), LruNode(e))
    modifies l
    ensures s' == s.(lrus := s.lrus + [e]) && Represents(l.m, s')
  {
    s' := s.(lrus := s.lrus + [e]);
    NodesMore(s.lrus, e);
    RingsOfLrus(s, s.lrus + [e]);
    PushBackTo(l, LRUS, LruNode(e), RingsOf(s));
  }

  method PushFree(l: Lists, e: nat, ghost s: Store) returns (ghost s': Store)
    requires Represents(l.m, s) && Loose(RingsOf(s), LruNode(e))
    modifies l
    ensures s' == s.(free := [e] + s.free) && Represents(l.m, s')
  {
    s' := s.(free := [e] + s.free);
    NodesMore(s.free, e);
    RingsOfFree(s, [e] + s.free);
    PushFrontTo(l, FREE, LruNode(e), RingsOf(s));
  }

  // ----- what the table does

  /** Where an entry in use is: on the LRU list, and in the bucket of its key. */
  lemma Places(bucket: Key -> nat, s: Store, e: nat) returns (b: nat, k: nat, j: nat)
    requires MacLearning.StoreOk(bucket, s) && e in s.lrus
    ensures b == bucket(s.entries[e].key) && b < MacLearning.N_BUCKETS && MacLearning.NoDuplicates(s.table[b])
    ensures k < |s.table[b]| && s.table[b][k] == e && j < |s.lrus| && s.lrus[j] == e
  {
    b := bucket(s.entries[e].key);
    assert MacLearning.BucketOk(bucket, s, b);
    assert e in s.table[b];
    k :| 0 <= k < |s.table[b]| && s.table[b][k] == e;
    j :| 0 <= j < |s.lrus| && s.lrus[j] == e;
  }

  /** The hash node of an entry that is not in use is on no ring. */
  lemma HashNodeLoose(bucket: Key -> nat, s: Store, e: nat)
    requires MacLearning.StoreOk(bucket, s) && e < MAC_MAX && e !in s.lrus
    ensures Loose(RingsOf(s), HashNode(e))
  {
    forall h: Address | IsHead(h) ensures HashNode(e) !in [h] + RingAt(s, h) {
      if h != FREE && h != LRUS {
        assert MacLearning.BucketOk(bucket, s, h - Bucket(0));
      }
    }
  }

  lemma FrontOf(m: Links, h: Address, items: seq<Address>)
    requires Ring(m, [h] + items)
    ensures h in m.next && m.next[h] == if items == [] then h else items[0]
  {
    var s := [h] + items;
    assert s[0] == h;
    assert items != [] ==> Edge(m, s[0], s[1]);
  }

  /** The entry to go first, if any is in use: the one after the head of the LRU ring. */
  method GetLru(l: Lists, ghost s: Store) returns (e: Option<nat>)
    requires Represents(l.m, s)
    ensures e == if s.lrus == [] then None else Some(s.lrus[0])
  {
    FrontOf(l.m, LRUS, RingsOf(s)[LRUS]);
    var front := l.m.next[LRUS];
    if s.lrus != [] {
      assert front == LruNode(s.lrus[0]);
    }
    e := if front == LRUS then None else Some(front / 2);
  }

  /** Takes an entry out of use: off its bucket and the LRU list, onto the free list. */
  method FreeEntry(l: Lists, e: nat, ghost bucket: Key -> nat, ghost s: Store)
    requires MacLearning.StoreOk(bucket, s) && e in s.lrus && Represents(l.m, s)
    modifies l
    ensures Represents(l.m, MacLearning.Release(bucket, s, e))
  {
    ghost var b, k, j := Places(bucket, s, e);
    ghost var s1 := TakeHash(l, e, s, b, k);
    ghost var s2 := TakeLru(l, e, s1, j);
    ghost var s3 := PushFree(l, e, s2);
    assert s3 == MacLearning.Release(bucket, s, e);
  }

  /** Puts a free entry to use in bucket `b`, most recently used. */
  method UseFree(l: Lists, e: nat, b: nat, ghost bucket: Key -> nat, ghost s: Store, ghost row: Row)
    requires MacLearning.StoreOk(bucket, s) && e in s.free && b == bucket(row.key) && Represents(l.m, s)
    modifies l
    ensures Represents(l.m, MacLearning.Claim(bucket, s, e, row))
  {
    HashNodeLoose(bucket, s, e);
    ghost var k :| 0 <= k < |s.free| && s.free[k] == e;
    ghost var s1 := PushHash(l, b, e, s);
    ghost var s2 := TakeFree(l, e, s1, k);
    ghost var s3 := PushLru(l, e, s2);
    RepresentsSame(l.m, s3, MacLearning.Claim(bucket, s, e, row));
  }

  /** Gives an entry in use to another key: the free list is not involved. */
  method Evict(l: Lists, e: nat, b: nat, ghost bucket: Key -> nat, ghost s: Store, ghost row: Row)
    requires MacLearning.StoreOk(bucket, s) && e in s.lrus && b == bucket(row.key) && Represents(l.m, s)
    modifies l
    ensures MacLearning.StoreOk(bucket, MacLearning.Release(bucket, s, e))
    ensures Represents(l.m, MacLearning.Claim(bucket, MacLearning.Release(bucket, s, e), e, row))
  {
    ghost var b', k, j := Places(bucket, s, e);
    MacLearning.ReleaseKeeps(bucket, s, j);
    ghost var s1 := TakeHash(l, e, s, b', k);
    ghost var s2 := PushHash(l, b, e, s1);
    ghost var s3 := TakeLru(l, e, s2, j);
    ghost var s4 := PushLru(l, e, s3);
    RepresentsSame(l.m, s4, MacLearning.Claim(bucket, MacLearning.Release(bucket, s, e), e, row));
  }

  /** Makes an entry in use the most recently used. */
  method Renew(l: Lists, e: nat, ghost s: Store, ghost row: Row)
    requires MacLearning.NoDuplicates(s.lrus) && e in s.lrus && e < |s.entries| && Represents(l.m, s)
    modifies l
    ensures Represents(l.m, MacLearning.Renew(s, e, row))
  {
    ghost var j :| 0 <= j < |s.lrus| && s.lrus[j] == e;
    ghost var s1 := TakeLru(l, e, s, j);
    ghost var s2 := PushLru(l, e, s1);
    RepresentsSame(l.m, s2, MacLearning.Renew(s, e, row));
  }

  // ----- a new table

  /** A family with one more head, alone on its ring. */
  method AddHead(l: Lists, h: Address, ghost rs: map<Address, seq<Address>>)
    requires Family(l.m, rs) && Loose(rs, h)
    modifies l
    ensures Family(l.m, rs[h := []])
  {
    ghost var m := l.m;
    l.Init(h);
    HeadAdded(m, l.m, rs, h);
  }

  lemma HeadAdded(m: Links, m': Links, rs: map<Address, seq<Address>>, h: Address)
    requires Family(m, rs) && Loose(rs, h) && Ring(m', [h]) && SameOutside(m, m', {h})
    ensures Family(m', rs[h := []])
  {
    var rs' := rs[h := []];
    assert [h] + [] == [h];
    forall g | g in rs' ensures Ring(m', [g] + rs'[g]) {
      if g != h {
        OtherRingsKept(m, m', {h}, [g] + rs[g]);
      }
    }
    forall g, f | g in rs' && f in rs' && g != f ensures Apart([g] + rs'[g], [f] + rs'[f]) {
      if g == h {
        ApartFromTouched([h] + [], [f] + rs[f], {h});
      } else if f == h {
        ApartFromTouched([h] + [], [g] + rs[g], {h});
      }
    }
  }

  function NoNodes(h: Address): seq<Address> {
    []
  }

  /** Empty rings with the heads from the first up to a given one. */
  ghost function EmptyRings(from: Address, to: Address): map<Address, seq<Address>> {
    map h: Address | from <= h < to :: NoNodes(h)
  }

  lemma OneMoreHead(from: Address, to: Address)
    requires from <= to
    ensures EmptyRings(from, to)[to := []] == EmptyRings(from, to + 1) && Loose(EmptyRings(from, to), to)
  {
    SameMap(EmptyRings(from, to)[to := []], EmptyRings(from, to + 1));
  }

  /** The store of a new table. */
  function EmptyStore(entries: seq<Row>, free: seq<nat>): Store {
    MacLearning.Store(entries, seq(MacLearning.N_BUCKETS, _ => []), free, [])
  }

  lemma EmptyStoreRings(entries: seq<Row>)
    ensures RingsOf(EmptyStore(entries, [])) == EmptyRings(FREE, Bucket(MacLearning.N_BUCKETS))
  {
    var s := EmptyStore(entries, []);
    forall h: Address | IsHead(h) ensures RingAt(s, h) == [] {}
    SameMap(RingsOf(s), EmptyRings(FREE, Bucket(MacLearning.N_BUCKETS)));
  }

  /** The entries up to a number, the last put first. */
  function Pool(n: nat): seq<nat> {
    seq(n, k requires 0 <= k < n => n - 1 - k)
  }

  lemma NoPool(entries: seq<Row>)
    ensures EmptyStore(entries, Pool(0)) == EmptyStore(entries, [])
  {
    assert Pool(0) == [];
  }

  lemma NextOfPool(entries: seq<Row>, n: nat)
    requires n < MAC_MAX
    ensures [n] + Pool(n) == Pool(n + 1)
    ensures Loose(RingsOf(EmptyStore(entries, Pool(n))), LruNode(n))
  {
    var s := EmptyStore(entries, Pool(n));
    forall h: Address | IsHead(h) ensures LruNode(n) !in [h] + RingAt(s, h) {}
  }

  method InitHeads(l: Lists, ghost entries: seq<Row>)
    modifies l
    ensures Represents(l.m, EmptyStore(entries, []))
  {
    assert EmptyRings(FREE, FREE) == map[];
    for h: Address := FREE to Bucket(MacLearning.N_BUCKETS)
      invariant Family(l.m, EmptyRings(FREE, h))
    {
      OneMoreHead(FREE, h);
      AddHead(l, h, EmptyRings(FREE, h));
    }
    EmptyStoreRings(entries);
  }

  method AddToPool(l: Lists, i: nat, ghost entries: seq<Row>)
    requires i < MAC_MAX && Represents(l.m, EmptyStore(entries, Pool(i)))
    modifies l
    ensures Represents(l.m, EmptyStore(entries, Pool(i + 1)))
  {
    NextOfPool(entries, i);
    ghost var s := PushFree(l, i, EmptyStore(entries, Pool(i)));
    assert s == EmptyStore(entries, Pool(i + 1));
  }

  /** Sets up all list heads, and puts every entry on the free list. */
  method Create(l: Lists, ghost entries: seq<Row>)
    modifies l
    ensures Represents(l.m, EmptyStore(entries, Pool(MAC_MAX)))
  {
    InitHeads(l, entries);
    NoPool(entries);
    for i: nat := 0 to MAC_MAX
      invariant Represents(l.m, EmptyStore(entries, Pool(i)))
    {
      AddToPool(l, i, entries);
    }
  }
}
