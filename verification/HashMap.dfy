/**
  The hash map: buckets of singly linked nodes, resized as it grows.  Each node is in the one
  bucket its hash selects.  Resizing keeps exactly the same nodes, iteration visits each node
  once, and a search by hash yields exactly the nodes with that hash.
*/
module HashMap {
  import opened Common
  import opened HashMask

  /** The address of a node. */
  type Address = nat
  const NULL: Address := 0

  datatype Node = Node(hash: nat, next: Address)

  /** Nodes by address. */
  type Memory = map<Address, Node>

  /** The nodes of a map, with their hashes. */
  type Contents = map<Address, nat>

  /** The given nodes, in order, are those reached from an address. */
  ghost predicate Linked(head: Address, chain: seq<Address>, memory: Memory) {
    && (if chain == [] then head == NULL else head == chain[0])
    && (forall i :: 0 <= i < |chain| ==> chain[i] != NULL && chain[i] in memory)
    && (forall i, j :: 0 <= i && i + 1 == j < |chain| ==> memory[chain[i]].next == chain[j])
    && (chain != [] ==> memory[chain[|chain| - 1]].next == NULL)
  }

  ghost predicate Distinct(s: seq<Address>) {
    forall i, j :: 0 <= i < j < |s| ==> s[i] != s[j]
  }

  /** The nodes of a bucket are the ones whose hash selects it. */
  ghost predicate Selected(b: nat, mask: nat, chain: seq<Address>, contents: Contents) {
    forall x :: x in chain <==> x in contents && And(contents[x], mask) == b
  }

  ghost predicate BucketOk(b: nat, mask: nat, head: Address, chain: seq<Address>,
                           contents: Contents, memory: Memory) {
    Selected(b, mask, chain, contents) && Linked(head, chain, memory) && Distinct(chain)
  }

  datatype Table = Table(mask: nat, buckets: seq<Address>, memory: Memory)

  /** What a table holds, and for each bucket its nodes in order. */
  datatype Shape = Shape(contents: Contents, chains: seq<seq<Address>>)

  ghost predicate Sized(t: Table, s: Shape) {
    && IsMask(t.mask) && |t.buckets| == t.mask + 1 && |s.chains| == t.mask + 1
    && (forall x :: x in s.contents ==> x != NULL && x in t.memory && t.memory[x].hash == s.contents[x])
  }

  /** The buckets hold the given nodes and no others. */
  ghost predicate TableOk(t: Table, s: Shape) {
    && Sized(t, s)
    && forall b :: 0 <= b <= t.mask ==> BucketOk(b, t.mask, t.buckets[b], s.chains[b], s.contents, t.memory)
  }

  lemma PrependOk(b: nat, mask: nat, head: Address, chain: seq<Address>, contents: Contents, memory: Memory,
                  node: Address, hash: nat)
    requires BucketOk(b, mask, head, chain, contents, memory)
    requires node !in contents && node != NULL && And(hash, mask) == b
    ensures BucketOk(b, mask, node, [node] + chain, contents[node := hash], memory[node := Node(hash, head)])
  {
    var longer := [node] + chain;
    assert node !in chain && longer[0] == node;
    assert forall i :: 0 < i < |longer| ==> longer[i] == chain[i - 1];
    assert forall x :: x in longer <==> x == node || x in chain;
  }

  lemma OtherBucketOk(b: nat, mask: nat, head: Address, chain: seq<Address>, contents: Contents, memory: Memory,
                      node: Address, hash: nat, next: Address)
    requires BucketOk(b, mask, head, chain, contents, memory)
    requires node !in contents && And(hash, mask) != b
    ensures BucketOk(b, mask, head, chain, contents[node := hash], memory[node := Node(hash, next)])
  {
    assert node !in chain;
  }

  /** The table with a node put in front of the bucket its hash selects. */
  function Inserted(t: Table, node: Address, hash: nat): Table
    requires |t.buckets| == t.mask + 1
  {
    var b := And(hash, t.mask);
    Table(t.mask, t.buckets[b := node], t.memory[node := Node(hash, t.buckets[b])])
  }

  ghost function WithNode(t: Table, s: Shape, node: Address, hash: nat): Shape
    requires |s.chains| == t.mask + 1
  {
    var b := And(hash, t.mask);
    Shape(s.contents[node := hash], s.chains[b := [node] + s.chains[b]])
  }

  lemma InsertedOk(t: Table, s: Shape, node: Address, hash: nat)
    requires TableOk(t, s) && node !in s.contents && node != NULL
    ensures TableOk(Inserted(t, node, hash), WithNode(t, s, node, hash))
  {
    var b := And(hash, t.mask);
    PrependOk(b, t.mask, t.buckets[b], s.chains[b], s.contents, t.memory, node, hash);
    var t', s' := Inserted(t, node, hash), WithNode(t, s, node, hash);
    forall c | 0 <= c <= t.mask && c != b
      ensures BucketOk(c, t.mask, t'.buckets[c], s'.chains[c], s'.contents, t'.memory)
    {
      OtherBucketOk(c, t.mask, t.buckets[c], s.chains[c], s.contents, t.memory, node, hash, t.buckets[b]);
    }
  }

  /** The links with a node taken out after another, or from the front if that is null. */
  function Unlinked(memory: Memory, prev: Address, node: Address): Memory
    requires node in memory && (prev != NULL ==> prev in memory)
  {
    if prev == NULL then memory else memory[prev := memory[prev].(next := memory[node].next)]
  }

  function Without(chain: seq<Address>, i: nat): (rest: seq<Address>)
    requires i < |chain|
    ensures |rest| == |chain| - 1
    ensures forall k :: 0 <= k < |rest| ==> rest[k] == chain[if k < i then k else k + 1]
  {
    chain[..i] + chain[i + 1..]
  }

  lemma WithoutDistinct(chain: seq<Address>, i: nat)
    requires Distinct(chain) && i < |chain|
    ensures Distinct(Without(chain, i))
    ensures forall x :: x in Without(chain, i) <==> x in chain && x != chain[i]
  {
    forall x | x in chain && x != chain[i] ensures x in Without(chain, i) {
      var k :| 0 <= k < |chain| && chain[k] == x;
      assert Without(chain, i)[if k < i then k else k - 1] == x;
    }
  }

  lemma WithoutLinked(head: Address, chain: seq<Address>, memory: Memory, i: nat)
    requires Linked(head, chain, memory) && Distinct(chain) && i < |chain|
    ensures Linked(if i == 0 then memory[chain[i]].next else head, Without(chain, i),
                   Unlinked(memory, if i == 0 then NULL else chain[i - 1], chain[i]))
  {
    var rest := Without(chain, i);
    var memory' := Unlinked(memory, if i == 0 then NULL else chain[i - 1], chain[i]);
    forall k, l | 0 <= k && k + 1 == l < |rest| ensures memory'[rest[k]].next == rest[l] {
      var m := if k < i then k else k + 1;
      assert memory[chain[m]].next == chain[m + 1];
    }
    if i + 1 < |chain| {
      assert memory[chain[i]].next == chain[i + 1];
    }
  }

  lemma UnlinkedOk(b: nat, mask: nat, head: Address, chain: seq<Address>, contents: Contents, memory: Memory, i: nat)
    requires BucketOk(b, mask, head, chain, contents, memory) && i < |chain|
    ensures BucketOk(b, mask, if i == 0 then memory[chain[i]].next else head, Without(chain, i),
                     contents - {chain[i]}, Unlinked(memory, if i == 0 then NULL else chain[i - 1], chain[i]))
  {
    WithoutDistinct(chain, i);
    WithoutLinked(head, chain, memory, i);
  }

  lemma ElsewhereOk(b: nat, mask: nat, head: Address, chain: seq<Address>, contents: Contents, memory: Memory,
                    prev: Address, node: Address)
    requires BucketOk(b, mask, head, chain, contents, memory) && node in memory && (prev != NULL ==> prev in memory)
    requires prev !in chain && node !in chain
    ensures BucketOk(b, mask, head, chain, contents - {node}, Unlinked(memory, prev, node))
  {
  }

  /** The table with the node at a place of a bucket taken out. */
  function Removed(t: Table, b: nat, prev: Address, node: Address): Table
    requires b < |t.buckets| && node in t.memory && (prev != NULL ==> prev in t.memory)
  {
    Table(t.mask, if prev == NULL then t.buckets[b := t.memory[node].next] else t.buckets,
          Unlinked(t.memory, prev, node))
  }

  lemma InOneBucket(t: Table, s: Shape, b: nat, c: nat, x: Address)
    requires TableOk(t, s) && b <= t.mask && c <= t.mask && b != c && x in s.chains[b]
    ensures x in s.contents && x != NULL && x in t.memory && x !in s.chains[c]
  {
    assert BucketOk(b, t.mask, t.buckets[b], s.chains[b], s.contents, t.memory);
    assert BucketOk(c, t.mask, t.buckets[c], s.chains[c], s.contents, t.memory);
  }

  lemma NullInNoBucket(t: Table, s: Shape, c: nat)
    requires TableOk(t, s) && c <= t.mask
    ensures NULL !in s.chains[c]
  {
    assert BucketOk(c, t.mask, t.buckets[c], s.chains[c], s.contents, t.memory);
  }

  /** Taking a node out of a bucket leaves the others as they were. */
  lemma RemovedElsewhere(t: Table, s: Shape, b: nat, c: nat, prev: Address, node: Address)
    requires TableOk(t, s) && b <= t.mask && c <= t.mask && b != c && node in s.chains[b]
    requires prev == NULL || prev in s.chains[b]
    ensures node in t.memory && (prev != NULL ==> prev in t.memory)
    ensures BucketOk(c, t.mask, t.buckets[c], s.chains[c], s.contents - {node}, Unlinked(t.memory, prev, node))
  {
    InOneBucket(t, s, b, c, node);
    NullInNoBucket(t, s, c);
    if prev != NULL {
      InOneBucket(t, s, b, c, prev);
    }
    ElsewhereOk(c, t.mask, t.buckets[c], s.chains[c], s.contents, t.memory, prev, node);
  }

  lemma RemovedOk(t: Table, s: Shape, b: nat, i: nat, prev: Address, node: Address)
    requires TableOk(t, s) && b <= t.mask && i < |s.chains[b]| && node == s.chains[b][i]
    requires prev == if i == 0 then NULL else s.chains[b][i - 1]
    ensures node in t.memory && (prev != NULL ==> prev in t.memory)
    ensures TableOk(Removed(t, b, prev, node), Shape(s.contents - {node}, s.chains[b := Without(s.chains[b], i)]))
  {
    assert BucketOk(b, t.mask, t.buckets[b], s.chains[b], s.contents, t.memory);
    UnlinkedOk(b, t.mask, t.buckets[b], s.chains[b], s.contents, t.memory, i);
    assert i == 0 <==> prev == NULL;
    forall c | 0 <= c <= t.mask && c != b
      ensures BucketOk(c, t.mask, t.buckets[c], s.chains[c], s.contents - {node}, Unlinked(t.memory, prev, node))
    {
      RemovedElsewhere(t, s, b, c, prev, node);
    }
    RemovedBuckets(t, s, b, i, prev, node);
  }

  /** The same, bucket by bucket. */
  lemma RemovedBuckets(t: Table, s: Shape, b: nat, i: nat, prev: Address, node: Address)
    requires Sized(t, s) && b <= t.mask && i < |s.chains[b]| && node in t.memory
    requires prev != NULL ==> prev in t.memory
    requires forall c :: 0 <= c <= t.mask && c != b ==>
               BucketOk(c, t.mask, t.buckets[c], s.chains[c], s.contents - {node}, Unlinked(t.memory, prev, node))
    requires BucketOk(b, t.mask, if prev == NULL then t.memory[node].next else t.buckets[b],
                      Without(s.chains[b], i), s.contents - {node}, Unlinked(t.memory, prev, node))
    ensures TableOk(Removed(t, b, prev, node), Shape(s.contents - {node}, s.chains[b := Without(s.chains[b], i)]))
  {
  }

  lemma LinkedTail(head: Address, chain: seq<Address>, memory: Memory)
    requires Linked(head, chain, memory) && chain != []
    ensures head == chain[0] && head in memory && Linked(memory[head].next, chain[1..], memory)
  {
    if |chain| > 1 {
      assert memory[chain[0]].next == chain[1];
    }
  }

  lemma LinkedApart(head: Address, chain: seq<Address>, memory: Memory, x: Address, node: Node)
    requires Linked(head, chain, memory) && x !in chain
    ensures Linked(head, chain, memory[x := node])
  {
  }

  /** The buckets from a number on are still to be moved. */
  ghost predicate Pending(t: Table, s: Shape, memory: Memory, i: nat)
    requires |t.buckets| == t.mask + 1 && |s.chains| == t.mask + 1
  {
    && (forall x :: x in s.contents ==> x in memory && memory[x].hash == s.contents[x])
    && (forall c :: i <= c <= t.mask ==> Linked(t.buckets[c], s.chains[c], memory))
  }

  /** The nodes moved so far: those of the buckets before a number and some of that bucket. */
  ghost predicate Moved(t: Table, s: Shape, i: nat, some: seq<Address>, contents: Contents) {
    && (forall x :: x in contents <==> x in s.contents && (And(s.contents[x], t.mask) < i || x in some))
    && (forall x :: x in contents ==> x in s.contents && contents[x] == s.contents[x])
  }

  lemma SplitAt(chain: seq<Address>, k: nat)
    requires k < |chain|
    ensures chain[..k + 1] == chain[..k] + [chain[k]] && chain[k..][1..] == chain[k + 1..]
  {
  }

  /** A move that has got to a place in a bucket, where it stands at the given node. */
  ghost predicate Moving(t: Table, s: Shape, i: nat, k: nat, node: Address, into: Table, sh: Shape)
    requires TableOk(t, s) && i <= t.mask
  {
    && k <= |s.chains[i]| && TableOk(into, sh)
    && Pending(t, s, into.memory, i + 1) && Moved(t, s, i, s.chains[i][..k], sh.contents)
    && Linked(node, s.chains[i][k..], into.memory)
  }

  lemma MovingNode(t: Table, s: Shape, i: nat, k: nat, node: Address, into: Table, sh: Shape)
    requires TableOk(t, s) && i <= t.mask && Moving(t, s, i, k, node, into, sh) && node != NULL
    ensures k < |s.chains[i]| && node == s.chains[i][k] && node in into.memory && node in s.contents
    ensures into.memory[node].hash == s.contents[node] && node !in sh.contents
    ensures node !in s.chains[i][..k] && node !in s.chains[i][k + 1..]
    ensures And(s.contents[node], t.mask) == i
  {
    assert BucketOk(i, t.mask, t.buckets[i], s.chains[i], s.contents, t.memory);
  }

  lemma MovePending(t: Table, s: Shape, i: nat, memory: Memory, x: Address, node: Node)
    requires TableOk(t, s) && i <= t.mask && Pending(t, s, memory, i + 1)
    requires x in s.chains[i] && x in s.contents && node.hash == s.contents[x]
    ensures Pending(t, s, memory[x := node], i + 1)
  {
    forall c | i + 1 <= c <= t.mask ensures Linked(t.buckets[c], s.chains[c], memory[x := node]) {
      InOneBucket(t, s, i, c, x);
      LinkedApart(t.buckets[c], s.chains[c], memory, x, node);
    }
  }

  lemma MoveCounts(t: Table, s: Shape, i: nat, some: seq<Address>, contents: Contents, x: Address)
    requires Moved(t, s, i, some, contents) && x in s.contents
    ensures Moved(t, s, i, some + [x], contents[x := s.contents[x]])
  {
  }

  /** Moving one node of a bucket leaves the rest of the bucket and the later ones to move. */
  lemma MoveStep(t: Table, s: Shape, i: nat, k: nat, node: Address, into: Table, sh: Shape)
    requires TableOk(t, s) && i <= t.mask && Moving(t, s, i, k, node, into, sh) && node != NULL
    ensures node in into.memory && node in s.contents && node !in sh.contents
    ensures into.memory[node].hash == s.contents[node]
    ensures Inserted(into, node, s.contents[node]).memory.Keys == into.memory.Keys
    ensures Moving(t, s, i, k + 1, into.memory[node].next,
                   Inserted(into, node, s.contents[node]), WithNode(into, sh, node, s.contents[node]))
  {
    MovingNode(t, s, i, k, node, into, sh);
    var chain, hash := s.chains[i], s.contents[node];
    var moved := Node(hash, into.buckets[And(hash, into.mask)]);
    InsertedOk(into, sh, node, hash);
    MovePending(t, s, i, into.memory, node, moved);
    SplitAt(chain, k);
    MoveCounts(t, s, i, chain[..k], sh.contents, node);
    LinkedTail(node, chain[k..], into.memory);
    LinkedApart(into.memory[node].next, chain[k + 1..], into.memory, node, moved);
  }

  lemma MoveStart(t: Table, s: Shape, i: nat, into: Table, sh: Shape)
    requires TableOk(t, s) && i <= t.mask && TableOk(into, sh)
    requires Pending(t, s, into.memory, i) && Moved(t, s, i, [], sh.contents)
    ensures Moving(t, s, i, 0, t.buckets[i], into, sh)
  {
    assert s.chains[i][..0] == [] && s.chains[i][0..] == s.chains[i];
  }

  /** Moves the nodes of one bucket to another table. */
  method MoveBucket(t: Table, ghost s: Shape, i: nat, start: Table, ghost shape: Shape)
    returns (into: Table, ghost sh: Shape)
    requires TableOk(t, s) && i <= t.mask && TableOk(start, shape)
    requires Pending(t, s, start.memory, i) && Moved(t, s, i, [], shape.contents)
    ensures TableOk(into, sh) && into.mask == start.mask && into.memory.Keys == start.memory.Keys
    ensures Pending(t, s, into.memory, i + 1) && Moved(t, s, i + 1, [], sh.contents)
  {
    into, sh := start, shape;
    var node := t.buckets[i];
    ghost var k := 0;
    MoveStart(t, s, i, into, sh);
    while node != NULL
      invariant Moving(t, s, i, k, node, into, sh)
      invariant into.mask == start.mask && into.memory.Keys == start.memory.Keys
      decreases |s.chains[i]| - k
    {
      MoveStep(t, s, i, k, node, into, sh);
      var hash, next := into.memory[node].hash, into.memory[node].next;
      sh := WithNode(into, sh, node, hash);
      into := Inserted(into, node, hash);
      node := next;
      k := k + 1;
    }
    BucketMoved(t, s, i, k, into, sh);
  }

  lemma BucketMoved(t: Table, s: Shape, i: nat, k: nat, into: Table, sh: Shape)
    requires TableOk(t, s) && i <= t.mask && Moving(t, s, i, k, NULL, into, sh)
    ensures Moved(t, s, i + 1, [], sh.contents) && Pending(t, s, into.memory, i + 1)
  {
    assert s.chains[i][..k] == s.chains[i];
    assert BucketOk(i, t.mask, t.buckets[i], s.chains[i], s.contents, t.memory);
  }

  lemma NothingMoved(t: Table, s: Shape, newMask: nat)
    requires TableOk(t, s) && IsMask(newMask)
    ensures TableOk(Table(newMask, seq(newMask + 1, b => NULL), t.memory), Shape(map[], seq(newMask + 1, b => [])))
    ensures Pending(t, s, t.memory, 0) && Moved(t, s, 0, [], map[])
  {
    forall c | 0 <= c <= t.mask ensures Linked(t.buckets[c], s.chains[c], t.memory) {
      assert BucketOk(c, t.mask, t.buckets[c], s.chains[c], s.contents, t.memory);
    }
  }

  lemma AllMoved(t: Table, s: Shape, contents: Contents)
    requires TableOk(t, s) && Moved(t, s, t.mask + 1, [], contents)
    ensures contents == s.contents
  {
  }

  /** The nodes of all chains, one chain after the other. */
  function Flat(chains: seq<seq<Address>>): seq<Address> {
    if chains == [] then [] else chains[0] + Flat(chains[1..])
  }

  /** The nodes from a place in a chain on; none from the null address. */
  ghost function From(chains: seq<seq<Address>>, at: Address, b: nat, i: nat): seq<Address>
    requires at != NULL ==> b < |chains| && i <= |chains[b]|
  {
    if at == NULL then [] else chains[b][i..] + Flat(chains[b + 1..])
  }

  lemma FlatStep(chains: seq<seq<Address>>, b: nat)
    requires b < |chains|
    ensures Flat(chains[b..]) == chains[b] + Flat(chains[b + 1..])
  {
    assert chains[b..][1..] == chains[b + 1..];
  }

  /** From one bucket on, the chains hold each node that selects such a bucket, once. */
  lemma {:induction false} FlatIsContents(t: Table, s: Shape, b: nat)
    requires TableOk(t, s) && b <= t.mask + 1
    ensures Distinct(Flat(s.chains[b..]))
    ensures forall x :: x in Flat(s.chains[b..]) <==> x in s.contents && And(s.contents[x], t.mask) >= b
    decreases t.mask + 1 - b
  {
    if b <= t.mask {
      FlatIsContents(t, s, b + 1);
      FlatStep(s.chains, b);
      assert BucketOk(b, t.mask, t.buckets[b], s.chains[b], s.contents, t.memory);
      Joined(s.chains[b], Flat(s.chains[b + 1..]));
    }
  }

  lemma Joined(p: seq<Address>, q: seq<Address>)
    requires Distinct(p) && Distinct(q) && forall x :: x in p ==> x !in q
    ensures Distinct(p + q) && forall x :: x in p + q <==> x in p || x in q
  {
    forall i, j | 0 <= i < j < |p + q| ensures (p + q)[i] != (p + q)[j] {
      if i < |p| <= j {
        assert (p + q)[i] in p && (p + q)[j] == q[j - |p|];
      }
    }
  }

  lemma Bucket(t: Table, s: Shape, b: nat)
    requires TableOk(t, s) && b <= t.mask
    ensures BucketOk(b, t.mask, t.buckets[b], s.chains[b], s.contents, t.memory)
    ensures t.buckets[b] == if s.chains[b] == [] then NULL else s.chains[b][0]
    ensures t.buckets[b] == NULL <==> s.chains[b] == []
  {
  }

  /** The first node of the first bucket, from a number on, that has any. */
  method NextBucket(t: Table, ghost s: Shape, start: nat) returns (at: Address, ghost b: nat)
    requires TableOk(t, s) && start <= t.mask + 1
    ensures at != NULL ==> start <= b <= t.mask && s.chains[b] != [] && at == s.chains[b][0]
    ensures Flat(s.chains[start..]) == From(s.chains, at, b, 0)
  {
    b := start;
    var i := start;
    while i <= t.mask
      invariant start <= i <= t.mask + 1 && b == i
      invariant Flat(s.chains[start..]) == Flat(s.chains[i..])
    {
      Bucket(t, s, i);
      FlatStep(s.chains, i);
      at := t.buckets[i];
      if at != NULL {
        assert From(s.chains, at, i, 0) == Flat(s.chains[i..]) by {
          assert s.chains[i][0..] == s.chains[i];
        }
        return;
      }
      i, b := i + 1, i + 1;
    }
    at := NULL;
  }

  method First(t: Table, ghost s: Shape) returns (at: Address, ghost b: nat)
    requires TableOk(t, s)
    ensures at != NULL ==> b <= t.mask && s.chains[b] != [] && at == s.chains[b][0]
    ensures Flat(s.chains) == From(s.chains, at, b, 0)
  {
    assert s.chains[0..] == s.chains;
    at, b := NextBucket(t, s, 0);
  }

  lemma PlaceInBucket(t: Table, s: Shape, b: nat, i: nat)
    requires TableOk(t, s) && b <= t.mask && i < |s.chains[b]|
    ensures var node := s.chains[b][i];
            && node in t.memory && And(t.memory[node].hash, t.mask) == b && node != NULL
            && t.memory[node].next == if i + 1 < |s.chains[b]| then s.chains[b][i + 1] else NULL
    ensures i + 1 < |s.chains[b]| ==> s.chains[b][i + 1] != NULL
  {
    Bucket(t, s, b);
  }

  lemma FromNext(chains: seq<seq<Address>>, b: nat, i: nat)
    requires b < |chains| && i < |chains[b]| && chains[b][i] != NULL
    ensures From(chains, chains[b][i], b, i) == [chains[b][i]] + (chains[b][i + 1..] + Flat(chains[b + 1..]))
  {
    assert chains[b][i..] == [chains[b][i]] + chains[b][i + 1..];
  }

  /** What comes after a node whose link leads to the given place of its bucket, whether the node
      itself is still in the map or not. */
  method StepOn(t: Table, ghost s: Shape, node: Address, ghost b: nat, ghost i: nat)
    returns (at: Address, ghost b': nat, ghost i': nat)
    requires TableOk(t, s) && b <= t.mask && i <= |s.chains[b]|
    requires node in t.memory && And(t.memory[node].hash, t.mask) == b
    requires t.memory[node].next == if i < |s.chains[b]| then s.chains[b][i] else NULL
    ensures at != NULL ==> b' <= t.mask && i' < |s.chains[b']| && at == s.chains[b'][i']
    ensures s.chains[b][i..] + Flat(s.chains[b + 1..]) == From(s.chains, at, b', i')
  {
    Bucket(t, s, b);
    b', i' := b, i;
    at := t.memory[node].next;
    if at == NULL {
      assert s.chains[b][i..] == [];
      at, b' := NextBucket(t, s, And(t.memory[node].hash, t.mask) + 1);
      i' := 0;
    }
  }

  /** The node after the one at the given place. */
  method Next(t: Table, ghost s: Shape, node: Address, ghost b: nat, ghost i: nat)
    returns (at: Address, ghost b': nat, ghost i': nat)
    requires TableOk(t, s) && b <= t.mask && i < |s.chains[b]| && node == s.chains[b][i]
    ensures at != NULL ==> b' <= t.mask && i' < |s.chains[b']| && at == s.chains[b'][i']
    ensures From(s.chains, node, b, i) == [node] + From(s.chains, at, b', i')
  {
    PlaceInBucket(t, s, b, i);
    FromNext(s.chains, b, i);
    at, b', i' := StepOn(t, s, node, b, i + 1);
  }

  /** Goes through the map from the first node to the next: each node is met, once. */
  method Enumerate(t: Table, ghost s: Shape) returns (met: seq<Address>)
    requires TableOk(t, s)
    ensures Distinct(met) && forall x :: x in met <==> x in s.contents
  {
    met := [];
    ghost var all := Flat(s.chains);
    var at;
    ghost var b: nat;
    ghost var i: nat := 0;
    at, b := First(t, s);
    while at != NULL
      invariant at != NULL ==> b <= t.mask && i < |s.chains[b]| && at == s.chains[b][i]
      invariant met + From(s.chains, at, b, i) == all
      decreases |all| - |met|
    {
      var node := at;
      at, b, i := Next(t, s, node, b, i);
      Shifted(met, node, From(s.chains, at, b, i));
      met := met + [node];
    }
    assert met == all;
    AllContents(t, s);
  }

  lemma Shifted(met: seq<Address>, node: Address, rest: seq<Address>)
    ensures met + ([node] + rest) == met + [node] + rest
  {
  }

  lemma AllContents(t: Table, s: Shape)
    requires TableOk(t, s)
    ensures Distinct(Flat(s.chains)) && forall x :: x in Flat(s.chains) <==> x in s.contents
  {
    assert s.chains[0..] == s.chains;
    FlatIsContents(t, s, 0);
  }

  /** The first node with the given hash, from a place in a chain on. */
  method Skip(t: Table, ghost s: Shape, start: Address, hash: nat, ghost b: nat, ghost i: nat)
    returns (at: Address, ghost i': nat)
    requires TableOk(t, s) && b <= t.mask && i <= |s.chains[b]|
    requires start == if i < |s.chains[b]| then s.chains[b][i] else NULL
    ensures i <= i' <= |s.chains[b]| && at == if i' < |s.chains[b]| then s.chains[b][i'] else NULL
    ensures forall k :: i <= k < i' ==> s.contents[s.chains[b][k]] != hash
    ensures at != NULL ==> s.contents[at] == hash
  {
    assert BucketOk(b, t.mask, t.buckets[b], s.chains[b], s.contents, t.memory);
    at, i' := start, i;
    while at != NULL && t.memory[at].hash != hash
      invariant i <= i' <= |s.chains[b]| && at == if i' < |s.chains[b]| then s.chains[b][i'] else NULL
      invariant forall k :: i <= k < i' ==> s.contents[s.chains[b][k]] != hash
      decreases |s.chains[b]| - i'
    {
      at := t.memory[at].next;
      i' := i' + 1;
    }
  }

  /** The first nodes of a chain that have the given hash. */
  ghost predicate Found(met: seq<Address>, first: seq<Address>, contents: Contents, hash: nat) {
    Distinct(met) && forall x :: x in met <==> x in first && x in contents && contents[x] == hash
  }

  lemma FoundNext(met: seq<Address>, chain: seq<Address>, contents: Contents, hash: nat, i: nat, i': nat)
    requires Distinct(chain) && i < i' <= |chain| && (forall k :: 0 <= k < |chain| ==> chain[k] in contents)
    requires Found(met, chain[..i], contents, hash) && contents[chain[i]] == hash
    requires forall k :: i < k < i' ==> contents[chain[k]] != hash
    ensures Found(met + [chain[i]], chain[..i'], contents, hash)
  {
    assert chain[i] !in chain[..i] && chain[i] == chain[..i'][i];
    forall x | x in met + [chain[i]] ensures x in chain[..i'] {
      if x in met {
        assert x in chain[..i];
      }
    }
  }

  /** Goes through the nodes with one hash, from the first to the next: each is met, once. */
  method FindAll(t: Table, ghost s: Shape, hash: nat) returns (met: seq<Address>)
    requires TableOk(t, s)
    ensures Distinct(met) && forall x :: x in met <==> x in s.contents && s.contents[x] == hash
  {
    var b := And(hash, t.mask);
    ghost var chain := s.chains[b];
    Bucket(t, s, b);
    met := [];
    var at;
    ghost var i: nat;
    at, i := Skip(t, s, t.buckets[b], hash, b, 0);
    while at != NULL
      invariant i <= |chain| && at == if i < |chain| then chain[i] else NULL
      invariant at != NULL ==> s.contents[at] == hash
      invariant Found(met, chain[..i], s.contents, hash)
      decreases |chain| - i
    {
      var node := at;
      ghost var place := i;
      at, i := Skip(t, s, t.memory[node].next, t.memory[node].hash, b, i + 1);
      FoundNext(met, chain, s.contents, hash, place, i);
      met := met + [node];
    }
    assert chain[..i] == chain;
  }

  /** Walks a bucket to the node before the given one, or null if that is the first. */
  method Before(t: Table, ghost s: Shape, node: Address, b: nat) returns (prev: Address, ghost i: nat)
    requires TableOk(t, s) && node in s.contents && b == And(s.contents[node], t.mask)
    ensures i < |s.chains[b]| && s.chains[b][i] == node
    ensures prev == if i == 0 then NULL else s.chains[b][i - 1]
  {
    Bucket(t, s, b);
    var at := t.buckets[b];
    prev, i := NULL, 0;
    while at != node
      invariant i < |s.chains[b]| && at == s.chains[b][i]
      invariant prev == if i == 0 then NULL else s.chains[b][i - 1]
      invariant node !in s.chains[b][..i]
      decreases |s.chains[b]| - i
    {
      assert i + 1 < |s.chains[b]|;
      prev, at := at, t.memory[at].next;
      i := i + 1;
    }
  }

  class Hmap {
    var t: Table
    var n: nat
    ghost var s: Shape

    ghost predicate Valid()
      reads this
    {
      TableOk(t, s) && n == |s.contents|
    }

    constructor (memory: Memory)
      ensures Valid() && t.mask == 0 && s.contents == map[]
    {
      t, n := Table(0, [NULL], memory), 0;
      s := Shape(map[], [[]]);
      assert TwoTo(0) == 1;
    }

    /** Inserts a node, at the front of its bucket, without expanding the map. */
    method InsertFast(node: Address, hash: nat)
      requires Valid() && node !in s.contents && node != NULL
      modifies this
      ensures Valid() && t == Inserted(old(t), node, hash) && s == WithNode(old(t), old(s), node, hash)
    {
      InsertedOk(t, s, node, hash);
      var b := And(hash, t.mask);
      s := WithNode(t, s, node, hash);
      t := t.(memory := t.memory[node := Node(hash, t.buckets[b])]);
      t := t.(buckets := t.buckets[b := node]);
      n := n + 1;
    }

    /** Takes a node out, from place `i` of its bucket.  Its own link stays, so that an iteration
        standing there can go on. */
    method Remove(node: Address) returns (ghost i: nat)
      requires Valid() && node in s.contents
      modifies this
      ensures Valid() && t.mask == old(t).mask && node in t.memory && t.memory[node] == old(t).memory[node]
      ensures var b := And(old(s).contents[node], t.mask);
              && i < |old(s).chains[b]| && old(s).chains[b][i] == node
              && s == Shape(old(s).contents - {node}, old(s).chains[b := Without(old(s).chains[b], i)])
    {
      var b := And(t.memory[node].hash, t.mask);
      var prev;
      prev, i := Before(t, s, node, b);
      RemovedOk(t, s, b, i, prev, node);
      s := Shape(s.contents - {node}, s.chains[b := Without(s.chains[b], i)]);
      if prev == NULL {
        t := t.(buckets := t.buckets[b := t.memory[node].next]);
      } else {
        t := t.(memory := t.memory[prev := t.memory[prev].(next := t.memory[node].next)]);
      }
      n := n - 1;
      assert |old(s).contents.Keys - {node}| == |old(s).contents.Keys| - 1;
      assert s.contents.Keys == old(s).contents.Keys - {node};
    }

    /** Moves all nodes to a table of another size.  They keep their hashes. */
    method Resize(newMask: nat)
      requires Valid() && IsMask(newMask)
      modifies this
      ensures Valid() && t.mask == newMask && s.contents == old(s).contents
      ensures t.memory.Keys == old(t).memory.Keys
    {
      var into := Table(newMask, seq(newMask + 1, b => NULL), t.memory);
      ghost var sh := Shape(map[], seq(newMask + 1, b => []));
      NothingMoved(t, s, newMask);
      var i := 0;
      while i <= t.mask
        invariant t == old(t) && s == old(s) && n == old(n)
        invariant 0 <= i <= t.mask + 1 && TableOk(into, sh) && into.mask == newMask
        invariant Pending(t, s, into.memory, i) && Moved(t, s, i, [], sh.contents)
        invariant into.memory.Keys == t.memory.Keys
      {
        into, sh := MoveBucket(t, s, i, into, sh);
        i := i + 1;
      }
      AllMoved(t, s, sh.contents);
      t := into;
      s := sh;
    }

    method Expand()
      requires Valid() && n < TwoTo(WORD_BITS)
      modifies this
      ensures Valid() && s.contents == old(s).contents && n == old(n)
      ensures n / 2 <= t.mask && old(t).mask <= t.mask
    {
      var newMask := CalcMask(n);
      if newMask > t.mask {
        Resize(newMask);
      }
    }

    method Shrink()
      requires Valid() && n < TwoTo(WORD_BITS)
      modifies this
      ensures Valid() && s.contents == old(s).contents && n == old(n)
      ensures t.mask <= old(t).mask && (t.mask < n || t.mask <= 3)
      ensures n / 2 <= old(t).mask ==> n / 2 <= t.mask
    {
      var newMask := CalcMask(n);
      if newMask < t.mask {
        Resize(newMask);
      }
    }

    method Reserve(capacity: nat)
      requires Valid() && capacity < TwoTo(WORD_BITS)
      modifies this
      ensures Valid() && s.contents == old(s).contents && n == old(n)
      ensures capacity / 2 <= t.mask && old(t).mask <= t.mask
    {
      var newMask := CalcMask(capacity);
      if newMask > t.mask {
        Resize(newMask);
      }
    }

    /** Inserts a node and makes sure of one bucket for every two nodes. */
    method Insert(node: Address, hash: nat)
      requires Valid() && node !in s.contents && node != NULL && n + 1 < TwoTo(WORD_BITS)
      modifies this
      ensures Valid() && s.contents == old(s).contents[node := hash]
      ensures n / 2 <= t.mask && old(t).mask <= t.mask
    {
      InsertFast(node, hash);
      if n / 2 > t.mask {
        Expand();
      }
    }
  }

  /** What is left after a place does not change when the node there is taken out. */
  lemma RestKept(chains: seq<seq<Address>>, b: nat, i: nat)
    requires b < |chains| && i < |chains[b]|
    ensures var after := chains[b := Without(chains[b], i)];
            after[b][i..] + Flat(after[b + 1..]) == chains[b][i + 1..] + Flat(chains[b + 1..])
  {
    var after := chains[b := Without(chains[b], i)];
    assert after[b][i..] == chains[b][i + 1..] && after[b + 1..] == chains[b + 1..];
  }

  /** Takes out the node that an iteration stands at, and goes on from its link. */
  method RemoveAndStep(h: Hmap, node: Address, ghost b: nat, ghost i: nat)
    returns (at: Address, ghost b': nat, ghost i': nat)
    requires h.Valid() && b <= h.t.mask && i < |h.s.chains[b]| && node == h.s.chains[b][i]
    modifies h
    ensures h.Valid() && node in old(h.s).contents && h.s.contents == old(h.s).contents - {node}
    ensures at != NULL ==> b' <= h.t.mask && i' < |h.s.chains[b']| && at == h.s.chains[b'][i']
    ensures From(old(h.s).chains, node, b, i) == [node] + From(h.s.chains, at, b', i')
  {
    Bucket(h.t, h.s, b);
    PlaceInBucket(h.t, h.s, b, i);
    FromNext(h.s.chains, b, i);
    RestKept(h.s.chains, b, i);
    ghost var k := h.Remove(node);
    assert k == i;
    at, b', i' := StepOn(h.t, h.s, node, b, i);
  }

  /** The nodes met so far that were to be taken out. */
  ghost function Gone(met: seq<Address>, doomed: set<Address>): set<Address> {
    set x | x in met && x in doomed
  }

  lemma GoneNext(contents: Contents, met: seq<Address>, node: Address, doomed: set<Address>)
    ensures contents - Gone(met + [node], doomed)
            == contents - Gone(met, doomed) - (if node in doomed then {node} else {})
  {
  }

  /** The iteration stands at the place given, and has still to go through what is left there. */
  ghost predicate StandsAt(t: Table, s: Shape, at: Address, b: nat, i: nat, left: seq<Address>) {
    && TableOk(t, s) && (at != NULL ==> b <= t.mask && i < |s.chains[b]| && at == s.chains[b][i])
    && From(s.chains, at, b, i) == left
  }

  /** One turn: takes the node out if it is to go, and steps on. */
  method SweepOne(h: Hmap, node: Address, doomed: set<Address>, ghost b: nat, ghost i: nat, ghost left: seq<Address>)
    returns (at: Address, ghost b': nat, ghost i': nat)
    requires h.Valid() && node != NULL && StandsAt(h.t, h.s, node, b, i, left)
    modifies h
    ensures h.Valid() && left != [] && left[0] == node && StandsAt(h.t, h.s, at, b', i', left[1..])
    ensures h.s.contents == old(h.s).contents - (if node in doomed then {node} else {})
  {
    if node in doomed {
      at, b', i' := RemoveAndStep(h, node, b, i);
    } else {
      at, b', i' := Next(h.t, h.s, node, b, i);
      assert h.s.contents - {} == h.s.contents;
    }
  }

  /** Goes through the map, taking out the nodes of a set when it stands at them: every node is
      met all the same, once. */
  method Sweep(h: Hmap, doomed: set<Address>) returns (met: seq<Address>)
    requires h.Valid()
    modifies h
    ensures h.Valid() && h.s.contents == old(h.s).contents - doomed
    ensures Distinct(met) && forall x :: x in met <==> x in old(h.s).contents
  {
    met := [];
    ghost var all := Flat(h.s.chains);
    assert Gone(met, doomed) == {};
    var at;
    ghost var b: nat;
    ghost var i: nat := 0;
    at, b := First(h.t, h.s);
    ghost var left := all;
    while at != NULL
      invariant h.Valid() && StandsAt(h.t, h.s, at, b, i, left) && met + left == all
      invariant h.s.contents == old(h.s).contents - Gone(met, doomed)
      decreases |left|
    {
      GoneNext(old(h.s).contents, met, at, doomed);
      var node := at;
      at, b, i := SweepOne(h, node, doomed, b, i, left);
      HeadMet(met, left);
      met, left := met + [node], left[1..];
    }
    assert met == all;
    SweptAll(old(h.t), old(h.s), met, doomed);
  }

  lemma HeadMet(met: seq<Address>, left: seq<Address>)
    requires left != []
    ensures met + left == met + [left[0]] + left[1..]
  {
  }

  lemma SweptAll(t: Table, s: Shape, met: seq<Address>, doomed: set<Address>)
    requires TableOk(t, s) && met == Flat(s.chains)
    ensures s.contents - Gone(met, doomed) == s.contents - doomed
    ensures Distinct(met) && forall x :: x in met <==> x in s.contents
  {
    AllContents(t, s);
  }
}
