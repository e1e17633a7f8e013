/**
  The circular doubly linked list.  A list is a ring of nodes, of which one is the head, and a
  ring stands for the sequence of its nodes read from any of them.  Each operation is proved to
  do to that sequence what it promises, and a ring that shares no node with those it works on
  is left alone.  Moving a stretch of nodes is proved within one ring and between two.
*/
module ListRing {

  /** The address of a node. */
  type Address = nat

  /** The next and prev fields of nodes. */
  datatype Links = Links(next: map<Address, Address>, prev: map<Address, Address>)

  ghost predicate Distinct(s: seq<Address>) {
    forall i, j :: 0 <= i < j < |s| ==> s[i] != s[j]
  }

  ghost predicate Edge(m: Links, a: Address, b: Address) {
    a in m.next && b in m.prev && m.next[a] == b && m.prev[b] == a
  }

  /** Each node but the last is linked to the one after it, both ways. */
  ghost predicate Path(m: Links, s: seq<Address>) {
    forall i, j :: 0 <= i && i + 1 == j < |s| ==> Edge(m, s[i], s[j])
  }

  /** The nodes of a ring, read from any one of them. */
  ghost predicate Ring(m: Links, s: seq<Address>) {
    s != [] && Distinct(s) && Path(m, s) && Edge(m, s[|s| - 1], s[0])
  }

  ghost function Nodes(s: seq<Address>): set<Address> {
    set a | a in s
  }

  ghost predicate Apart(p: seq<Address>, q: seq<Address>) {
    forall a :: a in p ==> a !in q
  }

  lemma DistinctParts(p: seq<Address>, q: seq<Address>)
    ensures Distinct(p + q) <==> Distinct(p) && Distinct(q) && Apart(p, q)
  {
    var s := p + q;
    if Distinct(s) {
      forall i, j | 0 <= i < j < |q| ensures q[i] != q[j] {
        assert s[|p| + i] == q[i] && s[|p| + j] == q[j];
      }
      forall i, j | 0 <= i < j < |p| ensures p[i] != p[j] {
        assert s[i] == p[i] && s[j] == p[j];
      }
      forall i, j | 0 <= i < |p| && 0 <= j < |q| ensures p[i] != q[j] {
        assert s[i] == p[i] && s[|p| + j] == q[j];
      }
    }
    if Distinct(p) && Distinct(q) && Apart(p, q) {
      forall i, j | 0 <= i < j < |s| ensures s[i] != s[j] {
        if i < |p| <= j {
          assert s[i] in p && s[j] == q[j - |p|];
        }
      }
    }
  }

  lemma PathJoin(m: Links, p: seq<Address>, q: seq<Address>)
    requires Path(m, p) && Path(m, q) && (p != [] && q != [] ==> Edge(m, p[|p| - 1], q[0]))
    ensures Path(m, p + q)
  {
    var s := p + q;
    forall i, j | 0 <= i && i + 1 == j < |s| ensures Edge(m, s[i], s[j]) {
      if i >= |p| {
        assert s[i] == q[i - |p|] && s[j] == q[j - |p|];
      } else if j == |p| {
        assert s[j] == q[0];
      }
    }
  }

  lemma PathPart(m: Links, p: seq<Address>, q: seq<Address>, r: seq<Address>)
    requires Path(m, p + q + r)
    ensures Path(m, q)
    ensures p != [] && q != [] ==> Edge(m, p[|p| - 1], q[0])
    ensures q != [] && r != [] ==> Edge(m, q[|q| - 1], r[0])
  {
    var s := p + q + r;
    forall i, j | 0 <= i && i + 1 == j < |q| ensures Edge(m, q[i], q[j]) {
      assert q[i] == s[|p| + i] && q[j] == s[|p| + j];
    }
    if p != [] && q != [] {
      assert s[|p| - 1] == p[|p| - 1] && s[|p|] == q[0];
    }
    if q != [] && r != [] {
      assert s[|p| + |q| - 1] == q[|q| - 1] && s[|p| + |q|] == r[0];
    }
  }

  /** A path stays one if no link along it is changed. */
  lemma PathKept(m: Links, m': Links, s: seq<Address>)
    requires Path(m, s)
    requires forall a :: a in s && a != s[|s| - 1] ==> a in m.next ==> a in m'.next && m'.next[a] == m.next[a]
    requires forall a :: a in s && a != s[0] ==> a in m.prev ==> a in m'.prev && m'.prev[a] == m.prev[a]
    requires Distinct(s)
    ensures Path(m', s)
  {
    forall i, j | 0 <= i && i + 1 == j < |s| ensures Edge(m', s[i], s[j]) {
      assert Edge(m, s[i], s[j]);
    }
  }

  /** A ring is made of paths joined end to end. */
  lemma RingOfTwo(m: Links, p: seq<Address>, q: seq<Address>)
    requires p != [] && q != [] && Distinct(p) && Distinct(q) && Apart(p, q)
    requires Path(m, p) && Path(m, q) && Edge(m, p[|p| - 1], q[0]) && Edge(m, q[|q| - 1], p[0])
    ensures Ring(m, p + q)
  {
    DistinctParts(p, q);
    PathJoin(m, p, q);
    assert (p + q)[|p + q| - 1] == q[|q| - 1] && (p + q)[0] == p[0];
  }

  lemma RingParts(m: Links, p: seq<Address>, q: seq<Address>)
    requires Ring(m, p + q) && p != [] && q != []
    ensures Distinct(p) && Distinct(q) && Apart(p, q) && Path(m, p) && Path(m, q)
    ensures Edge(m, p[|p| - 1], q[0]) && Edge(m, q[|q| - 1], p[0])
  {
    DistinctParts(p, q);
    assert [] + p + q == p + q && p + q + [] == p + q;
    PathPart(m, [], p, q);
    PathPart(m, p, q, []);
    assert (p + q)[|p + q| - 1] == q[|q| - 1] && (p + q)[0] == p[0];
  }

  /** A ring may be read from any of its nodes. */
  lemma RingTurned(m: Links, p: seq<Address>, q: seq<Address>)
    requires Ring(m, p + q)
    ensures Ring(m, q + p)
  {
    if p == [] || q == [] {
      assert q + p == p + q;
    } else {
      RingParts(m, p, q);
      RingOfTwo(m, q, p);
    }
  }

  function Linked(m: Links, a: Address, b: Address): Links {
    Links(m.next[a := b], m.prev[b := a])
  }

  /** A single node, its own ring. */
  function Alone(m: Links, a: Address): Links {
    Linked(m, a, a)
  }

  lemma AloneIsRing(m: Links, a: Address)
    ensures Ring(Alone(m, a), [a])
  {
  }

  /** Puts a node before another: the four assignments, in order. */
  function Insert(m: Links, before: Address, elem: Address): Links
    requires before in m.prev
  {
    var m1 := Links(m.next[elem := before], m.prev[elem := m.prev[before]]);
    var m2 := m1.(next := m1.next[m1.prev[before] := elem]);
    m2.(prev := m2.prev[before := elem])
  }

  /** The new node comes last in the ring read from the one it was put before. */
  lemma InsertExtends(m: Links, rest: seq<Address>, before: Address, elem: Address)
    requires Ring(m, [before] + rest) && elem !in [before] + rest
    ensures before in m.prev && Ring(Insert(m, before, elem), [before] + rest + [elem])
  {
    var s := [before] + rest;
    assert s[0] == before;
    var m' := Insert(m, before, elem);
    PathKept(m, m', s);
    RingOfTwo(m', s, [elem]);
  }

  /** Takes a node out. */
  function Remove(m: Links, elem: Address): Links
    requires elem in m.next && elem in m.prev
  {
    var m1 := m.(next := m.next[m.prev[elem] := m.next[elem]]);
    m1.(prev := m1.prev[m1.next[elem] := m1.prev[elem]])
  }

  /** The ring that is left lacks just that node. */
  lemma RemoveShortens(m: Links, rest: seq<Address>, elem: Address)
    requires Ring(m, rest + [elem]) && rest != []
    ensures elem in m.next && elem in m.prev && m.next[elem] == rest[0]
    ensures Ring(Remove(m, elem), rest)
  {
    RingParts(m, rest, [elem]);
    PathKept(m, Remove(m, elem), rest);
  }

  /** Taking out what was put in restores the ring. */
  lemma RemoveUndoesInsert(m: Links, rest: seq<Address>, before: Address, elem: Address)
    requires Ring(m, [before] + rest) && elem !in [before] + rest
    ensures before in m.prev && elem in Insert(m, before, elem).next && elem in Insert(m, before, elem).prev
    ensures Ring(Remove(Insert(m, before, elem), elem), [before] + rest)
  {
    InsertExtends(m, rest, before, elem);
    RemoveShortens(Insert(m, before, elem), [before] + rest, elem);
  }

  /** Moves the nodes from the first up to, not including, the last to just before another. */
  function Splice(m: Links, before: Address, first: Address, last: Address): Links
    requires before in m.prev && first in m.prev && last in m.prev && m.prev[last] in m.next
  {
    if first == last then m
    else
      var end := m.prev[last];
      var m1 := m.(next := m.next[m.prev[first] := m.next[end]]);
      var m2 := m1.(prev := m1.prev[m1.next[end] := m1.prev[first]]);
      var m3 := m2.(prev := m2.prev[first := m2.prev[before]]);
      var m4 := m3.(next := m3.next[end := before]);
      var m5 := m4.(next := m4.next[m4.prev[before] := first]);
      m5.(prev := m5.prev[before := end])
  }

  /** No link of a node outside the given set has changed. */
  ghost predicate SameOutside(m: Links, m': Links, touched: set<Address>) {
    && (forall a :: a in m.next && a !in touched ==> a in m'.next && m'.next[a] == m.next[a])
    && (forall a :: a in m.prev && a !in touched ==> a in m'.prev && m'.prev[a] == m.prev[a])
  }

  lemma InParts(p: seq<Address>, q: seq<Address>)
    ensures forall a :: a in p + q <==> a in p || a in q
  {
  }

  /** The six links that moving a stretch of nodes sets. */
  lemma SpliceLinks(m: Links, before: Address, first: Address, last: Address,
                    left: Address, end: Address, tail: Address)
    requires Edge(m, left, first) && Edge(m, end, last) && Edge(m, tail, before)
    requires first != last && before != last && before != first
    ensures Splice(m, before, first, last).next == m.next[left := last][end := before][tail := first]
    ensures Splice(m, before, first, last).prev == m.prev[last := left][first := tail][before := end]
  {
  }

  /** Between two rings: one gains at its end exactly the stretch that the other loses. */
  lemma SpliceBetween(m: Links, before: Address, rest: seq<Address>, last: Address, kept: seq<Address>,
                      moved: seq<Address>)
    requires Ring(m, [before] + rest) && Ring(m, [last] + kept + moved) && moved != []
    requires Apart([before] + rest, [last] + kept + moved)
    ensures before in m.prev && moved[0] in m.prev && last in m.prev && m.prev[last] in m.next
    ensures Ring(Splice(m, before, moved[0], last), [before] + rest + moved)
    ensures Ring(Splice(m, before, moved[0], last), [last] + kept)
    ensures SameOutside(m, Splice(m, before, moved[0], last), Nodes([before] + rest) + Nodes([last] + kept + moved))
  {
    var p, q := [before] + rest, [last] + kept;
    assert p[0] == before && q[0] == last;
    RingParts(m, q, moved);
    var left, end, tail := q[|q| - 1], moved[|moved| - 1], p[|p| - 1];
    InParts(q, moved);
    assert left in q && end in moved && tail in p && moved[0] in moved;
    SpliceLinks(m, before, moved[0], last, left, end, tail);
    var m' := Splice(m, before, moved[0], last);
    PathKept(m, m', p);
    PathKept(m, m', q);
    PathKept(m, m', moved);
    RingOfTwo(m', p, moved);
  }

  /** Within one ring: the stretch changes places with what follows it. */
  lemma SpliceWithin(m: Links, before: Address, kept: seq<Address>, moved: seq<Address>, after: seq<Address>)
    requires Ring(m, [before] + kept + moved + after) && moved != []
    ensures var last := if after == [] then before else after[0];
            && before in m.prev && moved[0] in m.prev && last in m.prev && m.prev[last] in m.next
            && Ring(Splice(m, before, moved[0], last), [before] + kept + after + moved)
            && SameOutside(m, Splice(m, before, moved[0], last), Nodes([before] + kept + moved + after))
  {
    var p := [before] + kept;
    assert p[0] == before;
    if after == [] {
      assert p + moved + after == p + moved && p + after + moved == p + moved;
      RingParts(m, p, moved);
      assert Splice(m, before, moved[0], before) == m;
    } else {
      SpliceSwaps(m, p, moved, after);
    }
  }

  lemma RingInThree(m: Links, p: seq<Address>, q: seq<Address>, r: seq<Address>)
    requires Ring(m, p + q + r) && p != [] && q != [] && r != []
    ensures Distinct(p) && Distinct(q) && Distinct(r) && Apart(p, q) && Apart(p, r) && Apart(q, r)
    ensures Path(m, p) && Path(m, q) && Path(m, r)
    ensures Edge(m, p[|p| - 1], q[0]) && Edge(m, q[|q| - 1], r[0]) && Edge(m, r[|r| - 1], p[0])
  {
    assert (p + q)[0] == p[0] && (p + q)[|p + q| - 1] == q[|q| - 1];
    RingParts(m, p + q, r);
    DistinctParts(p, q);
    InParts(p, q);
    assert [] + p + q == p + q && p + q + [] == p + q;
    PathPart(m, [], p, q);
    PathPart(m, p, q, []);
  }

  lemma RingOfThree(m: Links, p: seq<Address>, q: seq<Address>, r: seq<Address>)
    requires p != [] && q != [] && r != []
    requires Distinct(p) && Distinct(q) && Distinct(r) && Apart(p, q) && Apart(p, r) && Apart(q, r)
    requires Path(m, p) && Path(m, q) && Path(m, r)
    requires Edge(m, p[|p| - 1], q[0]) && Edge(m, q[|q| - 1], r[0]) && Edge(m, r[|r| - 1], p[0])
    ensures Ring(m, p + q + r)
  {
    DistinctParts(p, q);
    InParts(p, q);
    PathJoin(m, p, q);
    assert (p + q)[0] == p[0] && (p + q)[|p + q| - 1] == q[|q| - 1];
    RingOfTwo(m, p + q, r);
  }

  lemma SpliceSwaps(m: Links, p: seq<Address>, moved: seq<Address>, after: seq<Address>)
    requires Ring(m, p + moved + after) && p != [] && moved != [] && after != []
    ensures p[0] in m.prev && moved[0] in m.prev && after[0] in m.prev && m.prev[after[0]] in m.next
    ensures Ring(Splice(m, p[0], moved[0], after[0]), p + after + moved)
    ensures SameOutside(m, Splice(m, p[0], moved[0], after[0]), Nodes(p + moved + after))
  {
    RingInThree(m, p, moved, after);
    var left, end, tail := p[|p| - 1], moved[|moved| - 1], after[|after| - 1];
    assert left in p && end in moved && tail in after && moved[0] in moved && p[0] in p && after[0] in after;
    SpliceLinks(m, p[0], moved[0], after[0], left, end, tail);
    var m' := Splice(m, p[0], moved[0], after[0]);
    PathKept(m, m', p);
    PathKept(m, m', moved);
    PathKept(m, m', after);
    RingOfThree(m', p, after, moved);
  }

  lemma OtherRingsKept(m: Links, m': Links, touched: set<Address>, s: seq<Address>)
    requires SameOutside(m, m', touched) && Ring(m, s) && forall a :: a in s ==> a !in touched
    ensures Ring(m', s)
  {
    PathKept(m, m', s);
    assert s[0] in s && s[|s| - 1] in s;
  }

  /** The ring of a list read from its front, which is the head itself if it is empty. */
  lemma FrontRest(m: Links, list: Address, items: seq<Address>) returns (rest: seq<Address>)
    requires Ring(m, [list] + items)
    ensures list in m.next && Ring(m, [m.next[list]] + rest)
    ensures [m.next[list]] + rest == items + [list]
  {
    var s := [list] + items;
    assert s[0] == list && Edge(m, list, if items == [] then list else s[1]);
    RingTurned(m, [list], items);
    rest := (items + [list])[1..];
  }

  /** Such a ring with a node added at its end, read from the head again. */
  lemma FrontRead(m: Links, list: Address, items: seq<Address>, elem: Address)
    requires Ring(m, items + [list] + [elem])
    ensures Ring(m, [list] + ([elem] + items))
  {
    assert items + [list] + [elem] == items + ([list] + [elem]);
    RingTurned(m, items, [list] + [elem]);
    assert [list] + [elem] + items == [list] + ([elem] + items);
  }

  class Lists {
    var m: Links

    /** Makes a node a list of its own. */
    method Init(list: Address)
      modifies this
      ensures Ring(m, [list]) && SameOutside(old(m), m, {list})
    {
      AloneIsRing(m, list);
      m := m.(next := m.next[list := list]);
      m := m.(prev := m.prev[list := list]);
      assert m == Alone(old(m), list);
    }

    method InsertBefore(before: Address, elem: Address, ghost rest: seq<Address>)
      requires Ring(m, [before] + rest) && elem !in [before] + rest
      modifies this
      ensures Ring(m, [before] + rest + [elem])
      ensures SameOutside(old(m), m, Nodes([before] + rest + [elem]))
    {
      InsertExtends(m, rest, before, elem);
      assert ([before] + rest)[0] == before;
      m := m.(prev := m.prev[elem := m.prev[before]]);
      m := m.(next := m.next[elem := before]);
      m := m.(next := m.next[m.prev[before] := elem]);
      m := m.(prev := m.prev[before := elem]);
      assert m == Insert(old(m), before, elem);
    }

    method PushBack(list: Address, elem: Address, ghost items: seq<Address>)
      requires Ring(m, [list] + items) && elem !in [list] + items
      modifies this
      ensures Ring(m, [list] + (items + [elem]))
      ensures SameOutside(old(m), m, Nodes([list] + items + [elem]))
    {
      InsertBefore(list, elem, items);
      assert [list] + items + [elem] == [list] + (items + [elem]);
    }

    method PushFront(list: Address, elem: Address, ghost items: seq<Address>)
      requires Ring(m, [list] + items) && elem !in [list] + items
      modifies this
      ensures Ring(m, [list] + ([elem] + items))
      ensures SameOutside(old(m), m, Nodes([list] + items + [elem]))
    {
      ghost var rest := FrontRest(m, list, items);
      var front := m.next[list];
      InsertBefore(front, elem, rest);
      assert Nodes([front] + rest + [elem]) == Nodes([list] + items + [elem]) by {
        assert [front] + rest + [elem] == items + [list] + [elem];
      }
      FrontRead(m, list, items, elem);
    }

    /** Takes a node out of its list and gives the one after it. */
    method Take(elem: Address, ghost rest: seq<Address>) returns (after: Address)
      requires Ring(m, rest + [elem])
      modifies this
      ensures rest != [] ==> Ring(m, rest) && after == rest[0]
      ensures rest == [] ==> m == old(m) && after == elem
      ensures SameOutside(old(m), m, Nodes(rest + [elem]))
    {
      assert (rest + [elem])[|rest|] == elem;
      if rest != [] {
        RemoveShortens(m, rest, elem);
        RingParts(m, rest, [elem]);
      }
      m := m.(next := m.next[m.prev[elem] := m.next[elem]]);
      m := m.(prev := m.prev[m.next[elem] := m.prev[elem]]);
      assert m == Remove(old(m), elem);
      after := m.next[elem];
    }

    method PopFront(list: Address, ghost items: seq<Address>) returns (front: Address)
      requires Ring(m, [list] + items) && items != []
      modifies this
      ensures front == items[0] && Ring(m, [list] + items[1..])
      ensures SameOutside(old(m), m, Nodes([list] + items))
    {
      ghost var s := [list] + items;
      assert s[0] == list && s[1] == items[0];
      front := m.next[list];
      assert s == [list, front] + items[1..];
      RingTurned(m, [list, front], items[1..]);
      assert items[1..] + [list, front] == (items[1..] + [list]) + [front];
      var _ := Take(front, items[1..] + [list]);
      assert Nodes(items[1..] + [list] + [front]) == Nodes(s);
      RingTurned(m, items[1..], [list]);
    }

    /** Puts a node in the place of another. */
    method Replace(elem: Address, position: Address, ghost rest: seq<Address>)
      requires Ring(m, [position] + rest) && elem !in [position] + rest
      modifies this
      ensures Ring(m, [elem] + rest)
      ensures SameOutside(old(m), m, Nodes([position] + rest + [elem]))
    {
      assert ([position] + rest)[0] == position && elem != position;
      if rest != [] {
        RingParts(m, [position], rest);
      }
      m := m.(next := m.next[elem := m.next[position]]);
      m := m.(prev := m.prev[m.next[elem] := elem]);
      m := m.(prev := m.prev[elem := m.prev[position]]);
      m := m.(next := m.next[m.prev[elem] := elem]);
      if rest == [] {
        assert [elem] + rest == [elem];
      } else {
        PathKept(old(m), m, rest);
        RingOfTwo(m, [elem], rest);
      }
    }

    /** Moves a stretch of nodes: the six assignments, in order.  Where links run both ways they
        amount to six links set at once. */
    method SpliceBefore(before: Address, first: Address, last: Address)
      requires before in m.prev && first in m.prev && last in m.prev && m.prev[last] in m.next
      modifies this
      ensures m == Splice(old(m), before, first, last)
      ensures var left, end, tail := old(m.prev[first]), old(m.prev[last]), old(m.prev[before]);
              first != last && before != last && before != first
              && Edge(old(m), left, first) && Edge(old(m), end, last) && Edge(old(m), tail, before) ==>
                && m.next == old(m.next)[left := last][end := before][tail := first]
                && m.prev == old(m.prev)[last := left][first := tail][before := end]
    {
      if first == last {
        return;
      }
      var end := m.prev[last];
      if before != last && before != first && Edge(m, m.prev[first], first) && Edge(m, end, last)
         && Edge(m, m.prev[before], before) {
        SpliceLinks(m, before, first, last, m.prev[first], end, m.prev[before]);
      }
      m := m.(next := m.next[m.prev[first] := m.next[end]]);
      m := m.(prev := m.prev[m.next[end] := m.prev[first]]);
      m := m.(prev := m.prev[first := m.prev[before]]);
      m := m.(next := m.next[end := before]);
      m := m.(next := m.next[m.prev[before] := first]);
      m := m.(prev := m.prev[before := end]);
    }

    /** Moves a stretch from one list to just before a node of another. */
    method MoveBetween(before: Address, first: Address, last: Address,
                       ghost rest: seq<Address>, ghost kept: seq<Address>, ghost moved: seq<Address>)
      requires Ring(m, [before] + rest) && Ring(m, [last] + kept + moved) && moved != [] && first == moved[0]
      requires Apart([before] + rest, [last] + kept + moved)
      modifies this
      ensures Ring(m, [before] + rest + moved) && Ring(m, [last] + kept)
      ensures SameOutside(old(m), m, Nodes([before] + rest) + Nodes([last] + kept + moved))
    {
      SpliceBetween(m, before, rest, last, kept, moved);
      SpliceBefore(before, first, last);
    }

    /** Moves a stretch to just before another node of the same list. */
    method MoveWithin(before: Address, first: Address, last: Address,
                      ghost kept: seq<Address>, ghost moved: seq<Address>, ghost after: seq<Address>)
      requires Ring(m, [before] + kept + moved + after) && moved != [] && first == moved[0]
      requires last == if after == [] then before else after[0]
      modifies this
      ensures Ring(m, [before] + kept + after + moved)
      ensures SameOutside(old(m), m, Nodes([before] + kept + moved + after))
    {
      SpliceWithin(m, before, kept, moved, after);
      SpliceBefore(before, first, last);
    }

    /** Counts the nodes of a list other than its head. */
    method Size(list: Address, ghost items: seq<Address>) returns (count: nat)
      requires Ring(m, [list] + items)
      ensures count == |items|
    {
      ghost var s := [list] + items;
      assert s[0] == list;
      count := 0;
      assert Edge(m, s[0], if items == [] then list else s[1]);
      var e := m.next[list];
      while e != list
        invariant count <= |items| && e == if count < |items| then s[count + 1] else list
        decreases |items| - count
      {
        assert Edge(m, s[count + 1], if count + 2 < |s| then s[count + 2] else s[0]);
        count := count + 1;
        e := m.next[e];
      }
    }
  }
}
