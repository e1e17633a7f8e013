/**
  The MAC learning table as it is stored: a fixed pool of entries, each on exactly one of the
  free list and the LRU list, with in-use entries also chained in hash buckets.  Every
  operation is proved to act on the list of rows in LRU order exactly as `MacTable` says,
  whatever the bucket function.
*/
module MacLearning {
  import opened Common
  import opened Tag
  import opened MacTable

  const N_BUCKETS := 1024

  // ----- lists of entry numbers

  predicate NoDuplicates(s: seq<nat>) {
    forall i, j :: 0 <= i < j < |s| ==> s[i] != s[j]
  }

  /** Unlinks `x` from a list. */
  function Unlink(s: seq<nat>, x: nat): (r: seq<nat>)
    ensures x !in s ==> r == s
  {
    if s == [] then []
    else if s[0] == x then s[1..]
    else [s[0]] + Unlink(s[1..], x)
  }

  lemma {:induction false} UnlinkAt(s: seq<nat>, x: nat, k: nat)
    requires NoDuplicates(s) && k < |s| && s[k] == x
    ensures Unlink(s, x) == s[..k] + s[k + 1..]
  {
    if k > 0 {
      UnlinkAt(s[1..], x, k - 1);
      assert s[..k] == [s[0]] + s[1..][..k - 1];
      assert s[k + 1..] == s[1..][k..];
    }
  }

  lemma UnlinkMembers(s: seq<nat>, x: nat)
    requires NoDuplicates(s)
    ensures NoDuplicates(Unlink(s, x))
    ensures forall y :: y in Unlink(s, x) <==> y in s && y != x
    ensures |Unlink(s, x)| == if x in s then |s| - 1 else |s|
  {
    if x in s {
      var k :| 0 <= k < |s| && s[k] == x;
      UnlinkAt(s, x, k);
    }
  }

  // ----- the stored form

  datatype Store = Store(entries: seq<Row>, table: seq<seq<nat>>, free: seq<nat>, lrus: seq<nat>)

  /** Every entry is on exactly one of the two lists. */
  predicate Partitioned(s: Store) {
    && NoDuplicates(s.free) && NoDuplicates(s.lrus)
    && |s.free| + |s.lrus| == MAC_MAX
    && (forall i :: i in s.free ==> i < MAC_MAX && i !in s.lrus)
    && (forall k :: 0 <= k < |s.lrus| ==> s.lrus[k] < MAC_MAX)
  }

  predicate Keyed(s: Store)
    requires |s.entries| == MAC_MAX && Partitioned(s)
  {
    forall i, j :: i in s.lrus && j in s.lrus && s.entries[i].key == s.entries[j].key ==> i == j
  }

  /** Bucket `b` chains exactly the in-use entries whose key belongs in it. */
  ghost predicate BucketOk(bucket: Key -> nat, s: Store, b: nat)
    requires b < |s.table| && |s.entries| == MAC_MAX && Partitioned(s)
  {
    && NoDuplicates(s.table[b])
    && forall i: nat {:trigger i in s.table[b]} {:trigger i in s.lrus} ::
         i in s.table[b] <==> i in s.lrus && bucket(s.entries[i].key) == b
  }

  ghost predicate StoreOk(bucket: Key -> nat, s: Store) {
    && |s.entries| == MAC_MAX && |s.table| == N_BUCKETS
    && Partitioned(s) && Keyed(s)
    && (forall b: nat {:trigger BucketOk(bucket, s, b)} :: b < N_BUCKETS ==> BucketOk(bucket, s, b))
    && (forall key :: bucket(key) < N_BUCKETS)
  }

  /** The rows in LRU order. */
  function Rows(s: Store): Table
    requires |s.entries| == MAC_MAX && forall k :: 0 <= k < |s.lrus| ==> s.lrus[k] < MAC_MAX
  {
    seq(|s.lrus|, k requires 0 <= k < |s.lrus| => s.entries[s.lrus[k]])
  }

  lemma RowsUnique(bucket: Key -> nat, s: Store)
    requires StoreOk(bucket, s)
    ensures UniqueKeys(Rows(s)) && |Rows(s)| <= MAC_MAX
  {
    forall i, j | 0 <= i < j < |s.lrus| ensures Rows(s)[i].key != Rows(s)[j].key {
      assert s.lrus[i] in s.lrus && s.lrus[j] in s.lrus;
    }
  }

  /** Takes entry `e` out of use: off its bucket and the LRU list, onto the free list. */
  function Release(bucket: Key -> nat, s: Store, e: nat): Store
    requires StoreOk(bucket, s) && e in s.lrus
  {
    var b := bucket(s.entries[e].key);
    s.(table := s.table[b := Unlink(s.table[b], e)],
       lrus := Unlink(s.lrus, e),
       free := [e] + s.free)
  }

  lemma ReleasePartition(bucket: Key -> nat, s: Store, e: nat)
    requires StoreOk(bucket, s) && e in s.lrus
    ensures Partitioned(Release(bucket, s, e)) && Keyed(Release(bucket, s, e))
  {
    UnlinkMembers(s.lrus, e);
    var r := Release(bucket, s, e);
    forall k | 0 <= k < |r.lrus| ensures r.lrus[k] < MAC_MAX {
      assert r.lrus[k] in r.lrus;
    }
  }

  lemma ReleaseBucket(bucket: Key -> nat, s: Store, e: nat, c: nat)
    requires StoreOk(bucket, s) && e in s.lrus && c < N_BUCKETS
    requires Partitioned(Release(bucket, s, e))
    ensures BucketOk(bucket, Release(bucket, s, e), c)
  {
    UnlinkMembers(s.lrus, e);
    assert BucketOk(bucket, s, c);
    UnlinkMembers(s.table[c], e);
  }

  lemma RowsWithout(s: Store, k: nat)
    requires |s.entries| == MAC_MAX && Partitioned(s) && k < |s.lrus|
    ensures var r := s.(lrus := Unlink(s.lrus, s.lrus[k]));
            && (forall j :: 0 <= j < |r.lrus| ==> r.lrus[j] < MAC_MAX)
            && Rows(r) == Without(Rows(s), k)
  {
    UnlinkAt(s.lrus, s.lrus[k], k);
  }

  lemma ReleaseKeeps(bucket: Key -> nat, s: Store, k: nat)
    requires StoreOk(bucket, s) && k < |s.lrus|
    ensures StoreOk(bucket, Release(bucket, s, s.lrus[k]))
    ensures Rows(Release(bucket, s, s.lrus[k])) == Without(Rows(s), k)
  {
    var e := s.lrus[k];
    ReleasePartition(bucket, s, e);
    forall c: nat | c < N_BUCKETS ensures BucketOk(bucket, Release(bucket, s, e), c) {
      ReleaseBucket(bucket, s, e, c);
    }
    RowsWithout(s, k);
  }

  /** Puts free entry `e` to use for `row`, most recently used. */
  function Claim(bucket: Key -> nat, s: Store, e: nat, row: Row): Store
    requires StoreOk(bucket, s) && e in s.free
  {
    var b := bucket(row.key);
    Store(s.entries[e := row], s.table[b := [e] + s.table[b]], Unlink(s.free, e), s.lrus + [e])
  }

  lemma ClaimKeeps(bucket: Key -> nat, s: Store, e: nat, row: Row)
    requires StoreOk(bucket, s) && e in s.free
    requires forall i :: i in s.lrus ==> s.entries[i].key != row.key
    ensures StoreOk(bucket, Claim(bucket, s, e, row))
    ensures Rows(Claim(bucket, s, e, row)) == Rows(s) + [row]
  {
    var r := Claim(bucket, s, e, row);
    UnlinkMembers(s.free, e);
    forall c: nat | c < N_BUCKETS ensures BucketOk(bucket, r, c) {
      assert BucketOk(bucket, s, c);
    }
    forall k | 0 <= k < |s.lrus| ensures Rows(r)[k] == Rows(s)[k] {
      assert s.lrus[k] in s.lrus;
    }
  }

  /** The store with an entry free: its least recently used one, if none was. */
  function Vacated(bucket: Key -> nat, s: Store): Store
    requires StoreOk(bucket, s)
  {
    if s.free != [] then s else Release(bucket, s, s.lrus[0])
  }

  lemma VacatedRows(bucket: Key -> nat, s: Store, key: Key)
    requires StoreOk(bucket, s) && forall i :: i in s.lrus ==> s.entries[i].key != key
    ensures var v := Vacated(bucket, s);
            && StoreOk(bucket, v) && (forall i :: i in v.lrus ==> v.entries[i].key != key)
            && Rows(v) == if |Rows(s)| >= MAC_MAX then Rows(s)[1..] else Rows(s)
  {
    if s.free == [] {
      ReleaseKeeps(bucket, s, 0);
      UnlinkMembers(s.lrus, s.lrus[0]);
      assert Without(Rows(s), 0) == Rows(s)[1..];
    }
  }

  /** Replaces in-use entry `e` by `row` for the same key and makes it most recently used. */
  function Renew(s: Store, e: nat, row: Row): Store
    requires e < |s.entries|
  {
    s.(entries := s.entries[e := row], lrus := Unlink(s.lrus, e) + [e])
  }

  lemma RenewMembers(s: Store, e: nat, row: Row)
    requires |s.entries| == MAC_MAX && Partitioned(s) && e in s.lrus
    ensures Partitioned(Renew(s, e, row))
    ensures forall i :: i in Renew(s, e, row).lrus <==> i in s.lrus
  {
    UnlinkMembers(s.lrus, e);
    var r := Renew(s, e, row);
    forall k | 0 <= k < |r.lrus| ensures r.lrus[k] < MAC_MAX {
      assert r.lrus[k] in r.lrus;
    }
  }

  lemma RenewRows(s: Store, k: nat, row: Row)
    requires |s.entries| == MAC_MAX && Partitioned(s) && k < |s.lrus|
    requires Partitioned(Renew(s, s.lrus[k], row))
    ensures Rows(Renew(s, s.lrus[k], row)) == Without(Rows(s), k) + [row]
  {
    var e := s.lrus[k];
    var r := Renew(s, e, row);
    var rest := s.(lrus := Unlink(s.lrus, e));
    RowsWithout(s, k);
    UnlinkMembers(s.lrus, e);
    forall j | 0 <= j < |rest.lrus| ensures Rows(r)[j] == Rows(rest)[j] {
      assert rest.lrus[j] in rest.lrus;
    }
  }

  lemma RenewKeeps(bucket: Key -> nat, s: Store, k: nat, row: Row)
    requires StoreOk(bucket, s) && k < |s.lrus| && s.entries[s.lrus[k]].key == row.key
    ensures StoreOk(bucket, Renew(s, s.lrus[k], row))
    ensures Rows(Renew(s, s.lrus[k], row)) == Without(Rows(s), k) + [row]
  {
    var e := s.lrus[k];
    var r := Renew(s, e, row);
    RenewMembers(s, e, row);
    RenewRows(s, k, row);
    forall c: nat | c < N_BUCKETS ensures BucketOk(bucket, r, c) {
      assert BucketOk(bucket, s, c);
    }
  }

  /** Row `n` still expires from the front exactly when it has itself expired. */
  lemma {:induction false} ExpiredSuffix(t: Table, now: int, n: nat)
    requires n <= Expired(t, now)
    ensures n < |t| && t[n].expires <= now <==> n < Expired(t, now)
  {
  }

  lemma AnnounceNext(s: Contents, t: Table, n: nat)
    requires FourSlots(s) && n < |t|
    ensures AddAll(s, TagsOf(t[..n + 1])) == Add(AddAll(s, TagsOf(t[..n])), t[n].tag)
  {
    assert TagsOf(t[..n + 1])[..n] == TagsOf(t[..n]);
  }

  /** The set, if there is one, has taken in the tags heard. */
  ghost predicate Heard(tags: TagSet?, s: Contents, heard: seq<Tag>)
    requires FourSlots(s)
    reads tags, if tags == null then {} else {tags.tags}
  {
    tags != null ==> tags.Valid() && tags.View() == AddAll(s, heard)
  }

  // ----- the table

  class Learner {
    const bucket: Key -> nat
    const seed: Key -> nat
    const entries: array<Row>
    const table: array<seq<nat>>
    var free: seq<nat>
    var lrus: seq<nat>

    ghost function Stored(): Store
      reads this, entries, table
    {
      Store(entries[..], table[..], free, lrus)
    }

    ghost predicate Valid()
      reads this, entries, table
    {
      entries.Length == MAC_MAX && table.Length == N_BUCKETS && StoreOk(bucket, Stored())
    }

    ghost function View(): Table
      requires Valid()
      reads this, entries, table
    {
      Rows(Stored())
    }

    constructor (bucket: Key -> nat, seed: Key -> nat)
      requires forall key :: bucket(key) < N_BUCKETS
      ensures Valid() && View() == [] && fresh(entries) && fresh(table)
      ensures this.bucket == bucket && this.seed == seed
    {
      this.bucket, this.seed := bucket, seed;
      var blank := Row(Key(0, 0), 0, {}, 0);
      entries := new Row[MAC_MAX](_ => blank);
      table := new seq<nat>[N_BUCKETS](_ => []);
      var pool: seq<nat> := [];
      for i: nat := 0 to MAC_MAX
        invariant |pool| == i && forall k :: 0 <= k < i ==> pool[k] == i - 1 - k
      {
        pool := [i] + pool;
      }
      free, lrus := pool, [];
      new;
      forall b: nat | b < N_BUCKETS ensures BucketOk(bucket, Stored(), b) {}
    }

    method SearchBucket(key: Key) returns (r: Option<nat>)
      requires Valid()
      ensures r.Some? ==> r.value in lrus && r.value < MAC_MAX && entries[r.value].key == key
      ensures r.None? ==> forall i :: i in lrus ==> i < MAC_MAX && entries[i].key != key
    {
      var chain := table[bucket(key)];
      assert BucketOk(bucket, Stored(), bucket(key));
      for k := 0 to |chain|
        invariant forall j :: 0 <= j < k ==> chain[j] < MAC_MAX && entries[chain[j]].key != key
      {
        assert chain[k] in table[bucket(key)];
        if entries[chain[k]].key == key {
          return Some(chain[k]);
        }
      }
      forall i | i in lrus ensures i < MAC_MAX && entries[i].key != key {
        assert i in table[bucket(key)] <==> bucket(entries[i].key) == bucket(key);
      }
      return None;
    }

    method FreeEntry(e: nat)
      requires Valid() && e in lrus
      modifies this, entries, table
      ensures Valid() && Stored() == Release(bucket, old(Stored()), e)
    {
      ghost var k :| 0 <= k < |lrus| && lrus[k] == e;
      ReleaseKeeps(bucket, Stored(), k);
      var b := bucket(entries[e].key);
      table[b] := Unlink(table[b], e);
      lrus := Unlink(lrus, e);
      free := [e] + free;
      assert Stored() == Release(bucket, old(Stored()), e);
    }

    /** Finding an entry by hash is finding its row. */
    lemma SearchFindsRow(key: Key, found: Option<nat>)
      requires Valid()
      requires found.Some? ==> found.value in lrus && entries[found.value].key == key
      requires found.None? ==> forall i :: i in lrus ==> entries[i].key != key
      ensures found.None? <==> Find(View(), key).None?
      ensures found.Some? ==> found.value == lrus[Find(View(), key).value]
    {
      RowsUnique(bucket, Stored());
      if found.Some? {
        var k :| 0 <= k < |lrus| && lrus[k] == found.value;
        FindUnique(View(), key, k);
      } else {
        forall k | 0 <= k < |lrus| ensures View()[k].key != key {
          assert lrus[k] in lrus;
        }
      }
    }

    method LookupTag(key: Key, tag: Tag) returns (port: int, newTag: Tag)
      requires Valid()
      ensures (port, newTag) == (Lookup(seed, View(), key).0, tag + Lookup(seed, View(), key).1)
    {
      if IsMulticast(key) {
        assert tag + {} == tag;
        return FLOOD, tag;
      }
      var found := SearchBucket(key);
      SearchFindsRow(key, found);
      if found.Some? {
        return entries[found.value].port, tag + entries[found.value].tag;
      } else {
        return FLOOD, tag + UnknownTag(seed, key);
      }
    }

    /** Renews the entry of a known address. */
    method Refresh(e: nat, ghost k: nat, port: int, now: int, newTag: Tag) returns (stale: Tag)
      requires Valid() && k < |lrus| && lrus[k] == e
      modifies this, entries
      ensures Valid()
      ensures var row := old(View())[k].(expires := now + LIFETIME);
              if row.port == port then
                View() == Without(old(View()), k) + [row] && stale == {}
              else
                View() == Without(old(View()), k) + [row.(port := port, tag := newTag)]
                && stale == row.tag
    {
      free, lrus := Unlink(free, e), Unlink(lrus, e) + [e];
      entries[e] := entries[e].(expires := now + LIFETIME);
      stale := {};
      if entries[e].port != port {
        stale := entries[e].tag;
        entries[e] := entries[e].(port := port, tag := newTag);
      }
      assert Stored() == Renew(old(Stored()), e, entries[e]);
      RenewKeeps(bucket, old(Stored()), k, entries[e]);
    }

    /** Picks a free entry, or failing that the least recently used one, and takes it out of its
        bucket: but for the lists, still to be updated, the store is as `Vacated` says. */
    method Vacate() returns (e: nat)
      requires Valid()
      modifies table
      ensures var s := Vacated(bucket, old(Stored()));
              && StoreOk(bucket, s) && e in s.free && entries[..] == s.entries && table[..] == s.table
              && Unlink(free, e) == Unlink(s.free, e) && Unlink(lrus, e) == s.lrus
    {
      if free != [] {
        e := free[0];
        return;
      }
      e := lrus[0];
      ReleaseKeeps(bucket, Stored(), 0);
      UnlinkMembers(lrus, e);
      var b := bucket(entries[e].key);
      table[b] := Unlink(table[b], e);
    }

    /** Puts the vacated entry `e` to use. */
    method ClaimEntry(e: nat, key: Key, port: int, now: int, newTag: Tag, ghost s: Store) returns (stale: Tag)
      requires entries.Length == MAC_MAX && table.Length == N_BUCKETS && port != -1
      requires StoreOk(bucket, s) && e in s.free && entries[..] == s.entries && table[..] == s.table
      requires Unlink(free, e) == Unlink(s.free, e) && Unlink(lrus, e) == s.lrus
      modifies this, entries, table
      ensures stale == UnknownTag(seed, key)
      ensures Stored() == Claim(bucket, s, e, Row(key, port, newTag, now + LIFETIME))
    {
      entries[e] := Row(key, -1, UnknownTag(seed, key), entries[e].expires);
      table[bucket(key)] := [e] + table[bucket(key)];
      free, lrus := Unlink(free, e), Unlink(lrus, e) + [e];
      entries[e] := entries[e].(expires := now + LIFETIME);
      stale := entries[e].tag;
      entries[e] := entries[e].(port := port, tag := newTag);
      assert Stored() == Claim(bucket, s, e, Row(key, port, newTag, now + LIFETIME));
    }

    /** Gives a free entry, or failing that the least recently used one, to a new address. */
    method Adopt(key: Key, port: int, now: int, newTag: Tag) returns (stale: Tag)
      requires Valid() && port != -1
      requires forall i :: i in lrus ==> entries[i].key != key
      modifies this, entries, table
      ensures Valid() && stale == UnknownTag(seed, key)
      ensures var room := if |old(View())| >= MAC_MAX then old(View())[1..] else old(View());
              View() == room + [Row(key, port, newTag, now + LIFETIME)]
    {
      VacatedRows(bucket, Stored(), key);
      ghost var s := Vacated(bucket, Stored());
      var e := Vacate();
      ClaimKeeps(bucket, s, e, Row(key, port, newTag, now + LIFETIME));
      stale := ClaimEntry(e, key, port, now, newTag, s);
    }

    method LearnFrom(key: Key, port: int, now: int, newTag: Tag) returns (stale: Tag)
      requires Valid() && 0 <= port < TWO16
      modifies this, entries, table
      ensures Valid() && (View(), stale) == Learn(seed, old(View()), key, port, now, newTag)
    {
      if IsMulticast(key) {
        return {};
      }
      var found := SearchBucket(key);
      SearchFindsRow(key, found);
      if found.Some? {
        stale := Refresh(found.value, Find(View(), key).value, port, now, newTag);
      } else {
        stale := Adopt(key, port, now, newTag);
      }
    }

    method Flush()
      requires Valid()
      modifies this, entries, table
      ensures Valid() && View() == []
    {
      while lrus != []
        invariant Valid()
        decreases |lrus|
      {
        UnlinkMembers(lrus, lrus[0]);
        FreeEntry(lrus[0]);
      }
    }

    /** Drops the least recently used entry, handing its tag to `tags` if there is such a set. */
    method ExpireFirst(tags: TagSet?, ghost s: Contents, ghost t: Table, ghost n: nat)
      requires Valid() && n < |t| && View() == t[n..] && FourSlots(s) && Heard(tags, s, TagsOf(t[..n]))
      modifies this, entries, table, tags, if tags == null then {} else {tags.tags}
      ensures Valid() && View() == t[n + 1..] && Heard(tags, s, TagsOf(t[..n + 1]))
    {
      var e := lrus[0];
      assert View()[0] == t[n];
      if tags != null {
        AnnounceNext(s, t, n);
        tags.Insert(entries[e].tag);
      }
      ReleaseKeeps(bucket, Stored(), 0);
      FreeEntry(e);
      assert Without(old(View()), 0) == old(View())[1..];
    }

    lemma FirstRow(t: Table, n: nat)
      requires Valid() && n <= |t| && View() == t[n..]
      ensures lrus == [] <==> n == |t|
      ensures lrus != [] ==> entries[lrus[0]] == t[n]
    {
      assert n < |t| ==> View()[0] == t[n];
    }

    method ExpireAll(now: int, tags: TagSet?, ghost s: Contents, ghost t: Table)
      requires Valid() && View() == t && FourSlots(s) && Heard(tags, s, [])
      modifies this, entries, table, tags, if tags == null then {} else {tags.tags}
      ensures Valid() && View() == t[Expired(t, now)..] && Heard(tags, s, TagsOf(t[..Expired(t, now)]))
    {
      ghost var n: nat := 0;
      assert TagsOf(t[..0]) == [];
      while lrus != [] && now >= entries[lrus[0]].expires
        invariant n <= Expired(t, now) && Valid() && View() == t[n..] && Heard(tags, s, TagsOf(t[..n]))
        decreases |t| - n
      {
        FirstRow(t, n);
        ExpiredSuffix(t, now, n);
        ExpireFirst(tags, s, t, n);
        n := n + 1;
      }
      FirstRow(t, n);
      ExpiredSuffix(t, now, n);
    }

    /** Drops expired entries from the front of the LRU list, handing their tags to `tags` if
        there is such a set. */
    method Expire(now: int, tags: TagSet?)
      requires Valid() && (tags != null ==> tags.Valid())
      modifies this, entries, table, tags, if tags == null then {} else {tags.tags}
      ensures Valid() && View() == Step(seed, old(View()), Ran(now, tags != null))
      ensures tags != null ==>
                && tags.Valid()
                && tags.View() == AddAll(old(tags.View()), Announces(seed, old(View()), Ran(now, true)))
    {
      ExpireAll(now, tags, if tags == null then EMPTY else tags.View(), View());
    }
  }
}
