/**
  The sparse array of 65536 pointers, a trie of three levels in which every empty part is one
  shared, never written sentinel.  It refines a plain table of 65536 pointers; setting an
  element of one array leaves every other array alone although they share the sentinels; and
  stepping from the first element to the next visits exactly the non-null ones, in order.
*/
module PortArray {
  import opened Common

  const L1_SIZE := 32
  const L2_SIZE := 32
  const L3_SIZE := 64
  const SIZE := 65536

  /** A pointer, as a number. */
  type Pointer = nat
  const NULL: Pointer := 0

  function L1(idx: nat): nat {
    idx / 2048
  }

  function L2(idx: nat): nat {
    idx / 64 % 32
  }

  function L3(idx: nat): nat {
    idx % 64
  }

  function Combine(i: nat, j: nat, k: nat): nat {
    2048 * i + 64 * j + k
  }

  lemma CombineSplit(idx: nat)
    ensures Combine(L1(idx), L2(idx), L3(idx)) == idx
    ensures L2(idx) < L2_SIZE && L3(idx) < L3_SIZE && (idx < SIZE <==> L1(idx) < L1_SIZE)
  {
  }

  lemma SplitCombine(i: nat, j: nat, k: nat)
    requires j < L2_SIZE && k < L3_SIZE
    ensures L1(Combine(i, j, k)) == i && L2(Combine(i, j, k)) == j && L3(Combine(i, j, k)) == k
  {
    assert Combine(i, j, k) / 64 == 32 * i + j;
  }

  class Leaf {
    var cells: seq<Pointer>

    constructor (cells: seq<Pointer>)
      ensures this.cells == cells
    {
      this.cells := cells;
    }
  }

  class Middle {
    var leaves: seq<Leaf>

    constructor (leaves: seq<Leaf>)
      ensures this.leaves == leaves
    {
      this.leaves := leaves;
    }
  }

  /** The sentinels that all arrays share. */
  class Sentinels {
    const leaf: Leaf
    const middle: Middle

    ghost predicate Valid()
      reads leaf, middle
    {
      && |leaf.cells| == L3_SIZE && (forall k :: 0 <= k < L3_SIZE ==> leaf.cells[k] == NULL)
      && |middle.leaves| == L2_SIZE && (forall j :: 0 <= j < L2_SIZE ==> middle.leaves[j] == leaf)
    }

    constructor ()
      ensures Valid() && fresh(leaf) && fresh(middle)
    {
      var empty := new Leaf(seq(L3_SIZE, k => NULL));
      leaf := empty;
      middle := new Middle(seq(L2_SIZE, j => empty));
    }
  }

  class Array {
    const shared: Sentinels
    var l1: seq<Middle>
    /** The nodes that are this array's alone, each with its one place in the trie. */
    ghost var middles: map<Middle, nat>
    ghost var leaves: map<Leaf, (nat, nat)>
    /** The plain table this array stands for. */
    ghost var table: seq<Pointer>

    ghost predicate Valid()
      reads this, middles.Keys, leaves.Keys, shared.leaf, shared.middle
    {
      Shaped() && Holds(table)
    }

    /** Each node but the sentinels is in one place only, and is this array's. */
    ghost predicate Shaped()
      reads this`l1, this`middles, this`leaves, middles.Keys, leaves.Keys, shared.leaf, shared.middle
    {
      && shared.leaf !in leaves && shared.middle !in middles
      && shared.Valid() && |l1| == L1_SIZE
      && (forall i :: 0 <= i < L1_SIZE ==>
            (l1[i] == shared.middle || (l1[i] in middles && middles[l1[i]] == i)) && MiddleOk(i, l1[i]))
    }

    /** Every leaf below a node is the sentinel or stands at its own place. */
    ghost predicate MiddleOk(i: nat, m: Middle)
      reads this`leaves, m, leaves.Keys, shared.leaf
    {
      && |m.leaves| == L2_SIZE
      && (forall j :: 0 <= j < L2_SIZE ==>
            && (m.leaves[j] == shared.leaf || (m.leaves[j] in leaves && leaves[m.leaves[j]] == (i, j)))
            && |m.leaves[j].cells| == L3_SIZE)
    }

    /** The elements held at a place of the third level. */
    function Cells(i: nat, j: nat): (cells: seq<Pointer>)
      requires Shaped() && i < L1_SIZE && j < L2_SIZE
      reads this`l1, this`middles, this`leaves, middles.Keys, leaves.Keys, shared.leaf, shared.middle
      ensures |cells| == L3_SIZE
    {
      l1[i].leaves[j].cells
    }

    ghost predicate Holds(t: seq<Pointer>)
      requires Shaped()
      reads this`l1, this`middles, this`leaves, middles.Keys, leaves.Keys, shared.leaf, shared.middle
    {
      && |t| == SIZE
      && forall i, j, k :: 0 <= i < L1_SIZE && 0 <= j < L2_SIZE && 0 <= k < L3_SIZE ==>
           Cells(i, j)[k] == t[Combine(i, j, k)]
    }

    constructor (shared: Sentinels)
      requires shared.Valid()
      ensures Valid() && this.shared == shared && middles == map[] && leaves == map[]
      ensures table == seq(SIZE, n => NULL)
    {
      this.shared := shared;
      l1 := seq(L1_SIZE, i => shared.middle);
      middles, leaves, table := map[], map[], seq(SIZE, n => NULL);
    }

    /** The element with the given number. */
    method Get(idx: nat) returns (p: Pointer)
      requires Valid() && idx < SIZE
      ensures p == table[idx]
    {
      CombineSplit(idx);
      p := l1[L1(idx)].leaves[L2(idx)].cells[L3(idx)];
      assert p == Cells(L1(idx), L2(idx))[L3(idx)];
    }

    /** Gives the array a node of its own at a place of the second level. */
    method OwnMiddle(i: nat) returns (m: Middle)
      requires Shaped() && Holds(table) && i < L1_SIZE
      modifies this`l1, this`middles
      ensures Shaped() && Holds(table) && m == l1[i] && m in middles
      ensures fresh(middles.Keys - old(middles.Keys)) && old(middles.Keys) <= middles.Keys
    {
      m := l1[i];
      if m == shared.middle {
        m := new Middle(m.leaves);
        l1 := l1[i := m];
        middles := middles[m := i];
        assert forall n, o :: 0 <= n < L1_SIZE && 0 <= o < L2_SIZE ==> Cells(n, o) == old(Cells(n, o));
      }
    }

    /** Gives the array a node of its own at a place of the third level. */
    method OwnLeaf(i: nat, j: nat) returns (l: Leaf)
      requires Shaped() && Holds(table) && i < L1_SIZE && j < L2_SIZE && l1[i] in middles
      modifies this`leaves, l1[i]
      ensures Shaped() && Holds(table) && l == l1[i].leaves[j] && l in leaves
      ensures fresh(leaves.Keys - old(leaves.Keys)) && old(leaves.Keys) <= leaves.Keys
    {
      var m := l1[i];
      l := m.leaves[j];
      if l == shared.leaf {
        l := new Leaf(l.cells);
        m.leaves := m.leaves[j := l];
        leaves := leaves[l := (i, j)];
        assert forall n, o :: 0 <= n < L1_SIZE && 0 <= o < L2_SIZE ==> Cells(n, o) == old(Cells(n, o));
      }
    }

    /** Writes to a leaf that is this array's alone: one changed cell is one changed element. */
    method SetCell(i: nat, j: nat, k: nat, p: Pointer)
      requires Shaped() && Holds(table)
      requires i < L1_SIZE && j < L2_SIZE && k < L3_SIZE && l1[i].leaves[j] in leaves
      modifies l1[i].leaves[j]
      ensures Shaped() && Holds(table[Combine(i, j, k) := p])
    {
      var l := l1[i].leaves[j];
      l.cells := l.cells[k := p];
      assert Shaped();
      SplitCombine(i, j, k);
      forall n, o, q | 0 <= n < L1_SIZE && 0 <= o < L2_SIZE && 0 <= q < L3_SIZE
        ensures Cells(n, o)[q] == table[Combine(i, j, k) := p][Combine(n, o, q)]
      {
        SplitCombine(n, o, q);
        assert old(Cells(n, o))[q] == table[Combine(n, o, q)];
      }
    }

    /** Copies each sentinel on the way to a leaf. */
    method OwnWay(i: nat, j: nat)
      requires Valid() && i < L1_SIZE && j < L2_SIZE
      modifies this`l1, this`middles, this`leaves, middles.Keys
      ensures Valid() && l1[i].leaves[j] in leaves
      ensures fresh(middles.Keys - old(middles.Keys)) && fresh(leaves.Keys - old(leaves.Keys))
    {
      var _ := OwnMiddle(i);
      var _ := OwnLeaf(i, j);
    }

    /** Sets the element at a place of the trie, copying each sentinel on the way to it. */
    method SetAt(i: nat, j: nat, k: nat, p: Pointer)
      requires Valid() && i < L1_SIZE && j < L2_SIZE && k < L3_SIZE
      modifies this, middles.Keys, leaves.Keys
      ensures Valid() && table == old(table)[Combine(i, j, k) := p]
      ensures fresh(middles.Keys - old(middles.Keys)) && fresh(leaves.Keys - old(leaves.Keys))
    {
      OwnWay(i, j);
      SetCell(i, j, k, p);
      table := table[Combine(i, j, k) := p];
    }

    /** Sets one element and no other, never writing to a sentinel. */
    method Set(idx: nat, p: Pointer)
      requires Valid() && idx < SIZE
      modifies this, middles.Keys, leaves.Keys
      ensures Valid() && table == old(table)[idx := p]
      ensures fresh(middles.Keys - old(middles.Keys)) && fresh(leaves.Keys - old(leaves.Keys))
    {
      CombineSplit(idx);
      SetAt(L1(idx), L2(idx), L3(idx), p);
    }

    /** Makes every element null again. */
    method Clear()
      requires Valid()
      modifies this
      ensures Valid() && middles == map[] && leaves == map[] && table == seq(SIZE, n => NULL)
    {
      l1 := seq(L1_SIZE, i => shared.middle);
      middles, leaves, table := map[], map[], seq(SIZE, n => NULL);
    }

    lemma NoneInLeaf(i: nat, j: nat, k: nat, k': nat)
      requires Valid() && i < L1_SIZE && j < L2_SIZE && k <= k' <= L3_SIZE
      requires forall o :: k <= o < k' ==> Cells(i, j)[o] == NULL
      ensures NoneBetween(table, Combine(i, j, k), Combine(i, j, k'))
    {
      forall n | Combine(i, j, k) <= n < Combine(i, j, k') && n < SIZE ensures table[n] == NULL {
        var o := n - Combine(i, j, 0);
        assert n == Combine(i, j, o) && Cells(i, j)[o] == NULL;
      }
    }

    lemma NoneInEmptyMiddle(i: nat, j: nat, k: nat)
      requires Valid() && i < L1_SIZE && l1[i] == shared.middle
      ensures NoneBetween(table, Combine(i, j, k), Combine(i + 1, 0, 0))
    {
      forall n | Combine(i, j, k) <= n < Combine(i + 1, 0, 0) && n < SIZE ensures table[n] == NULL {
        CombineSplit(n);
        assert Cells(i, L2(n))[L3(n)] == NULL;
      }
    }

    /** The innermost loop of the search: along one leaf. */
    method ScanLeaf(i: nat, j: nat, k: nat) returns (k': nat)
      requires Valid() && i < L1_SIZE && j < L2_SIZE && k < L3_SIZE
      ensures k <= k' <= L3_SIZE && NoneBetween(table, Combine(i, j, k), Combine(i, j, k'))
      ensures k' < L3_SIZE ==> table[Combine(i, j, k')] != NULL
    {
      var l := l1[i].leaves[j];
      k' := k;
      if l != shared.leaf {
        while k' < L3_SIZE
          invariant k <= k' <= L3_SIZE
          invariant forall o :: k <= o < k' ==> Cells(i, j)[o] == NULL
        {
          if l.cells[k'] != NULL {
            break;
          }
          k' := k' + 1;
        }
      } else {
        k' := L3_SIZE;
      }
      NoneInLeaf(i, j, k, k');
    }

    /** The middle loop of the search: along the leaves of one node. */
    method ScanMiddle(i: nat, j: nat, k: nat) returns (j': nat, k': nat)
      requires Valid() && i < L1_SIZE && j < L2_SIZE && k < L3_SIZE
      ensures j <= j' <= L2_SIZE && (if j' == L2_SIZE then k' == 0 else k' < L3_SIZE)
      ensures Combine(i, j, k) <= Combine(i, j', k') && NoneBetween(table, Combine(i, j, k), Combine(i, j', k'))
      ensures j' < L2_SIZE ==> table[Combine(i, j', k')] != NULL
    {
      j', k' := j, k;
      if l1[i] == shared.middle {
        NoneInEmptyMiddle(i, j, k);
        j', k' := L2_SIZE, 0;
        return;
      }
      while j' < L2_SIZE
        invariant j <= j' <= L2_SIZE && k' < L3_SIZE && (j' == L2_SIZE ==> k' == 0)
        invariant Combine(i, j, k) <= Combine(i, j', k')
        invariant NoneBetween(table, Combine(i, j, k), Combine(i, j', k'))
      {
        var found := ScanLeaf(i, j', k');
        if found < L3_SIZE {
          k' := found;
          return;
        }
        j', k' := j' + 1, 0;
      }
    }

    /** The first non-null element from the given number on, found by skipping sentinels. */
    method Scan(idx: nat) returns (p: Pointer, at: nat)
      requires Valid() && idx < TWO32
      ensures FirstFrom(table, idx, p, at)
    {
      CombineSplit(idx);
      var i: nat, j: nat, k: nat := L1(idx), L2(idx), L3(idx);
      while i < L1_SIZE
        invariant j < L2_SIZE && k < L3_SIZE && idx <= Combine(i, j, k)
        invariant NoneBetween(table, idx, Combine(i, j, k))
      {
        var j', k' := ScanMiddle(i, j, k);
        if j' < L2_SIZE {
          at := Combine(i, j', k');
          p := l1[i].leaves[j'].cells[k'];
          assert p == Cells(i, j')[k'];
          return;
        }
        i, j, k := i + 1, 0, 0;
      }
      p, at := NULL, SIZE;
    }

    method First() returns (p: Pointer, at: nat)
      requires Valid()
      ensures FirstFrom(table, 0, p, at)
    {
      p, at := Scan(0);
    }

    /** The first non-null element after the given number.  The number after the greatest a word
        can hold is zero, so from there the search starts over. */
    method Next(idx: nat) returns (p: Pointer, at: nat)
      requires Valid() && idx < TWO32
      ensures FirstFrom(table, if idx < TWO32 - 1 then idx + 1 else 0, p, at)
    {
      p, at := Scan((idx + 1) % TWO32);
    }

    /** Goes through the array from the first element to the next until there are no more: the
        numbers met are the numbers of the non-null elements, each once, in order. */
    method Enumerate() returns (met: seq<nat>)
      requires Valid()
      ensures forall a, b :: 0 <= a < b < |met| ==> met[a] < met[b]
      ensures forall n: nat :: n in met <==> n < SIZE && table[n] != NULL
    {
      met := [];
      var p, at := First();
      while p != NULL
        invariant p == NULL <==> at == SIZE
        invariant at <= SIZE && (p != NULL ==> table[at] == p)
        invariant forall a, b :: 0 <= a < b < |met| ==> met[a] < met[b]
        invariant forall a :: 0 <= a < |met| ==> met[a] < at && table[met[a]] != NULL
        invariant forall n :: 0 <= n < at && table[n] != NULL ==> n in met
        decreases SIZE - at
      {
        met := met + [at];
        p, at := Next(at);
      }
    }
  }

  /** No element numbered from the first bound up to the second is non-null. */
  ghost predicate NoneBetween(table: seq<Pointer>, lo: nat, hi: nat) {
    forall n :: lo <= n < hi && n < |table| ==> table[n] == NULL
  }

  /** `p` is the first non-null element from `from` on and stands at `at`. */
  ghost predicate FirstFrom(table: seq<Pointer>, from: nat, p: Pointer, at: nat) {
    && (if p == NULL then at == |table| else from <= at < |table| && table[at] == p)
    && NoneBetween(table, from, at)
  }

  /** Two arrays that have the sentinels in common and no other node. */
  ghost predicate Apart(a: Array, b: Array)
    reads a, b
  {
    && a != b && a.shared == b.shared
    && a.middles.Keys !! b.middles.Keys && a.leaves.Keys !! b.leaves.Keys
  }

  /** Setting an element of one array changes no other array with which it shares sentinels. */
  method SetAmong(a: Array, others: set<Array>, idx: nat, p: Pointer)
    requires a.Valid() && idx < SIZE
    requires forall b :: b in others ==> b.Valid() && Apart(a, b)
    modifies a, a.middles.Keys, a.leaves.Keys
    ensures a.Valid() && a.table == old(a.table)[idx := p]
    ensures forall b :: b in others ==> b.Valid() && Apart(a, b) && b.table == old(b.table)
  {
    a.Set(idx, p);
  }
}
