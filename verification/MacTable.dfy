/**
  What a MAC learning table is for, apart from how it is stored: a bounded list of learned
  addresses in order of last use, and the promise that every change of an answer is
  announced by the tag that flows built on the old answer carry.
*/
module MacTable {
  import opened Common
  import opened Tag

  const MAC_MAX := 1024
  const LIFETIME := 60
  const FLOOD := 0xffff_fffb
  const TWO16 := 0x1_0000
  const TWO40 := 0x100_0000_0000

  /** A 48-bit Ethernet address and a VLAN. */
  datatype Key = Key(mac: nat, vlan: nat)

  datatype Row = Row(key: Key, port: int, tag: Tag, expires: int)

  /** Learned rows, least recently used first. */
  type Table = seq<Row>

  /** The low bit of the first octet marks group addresses. */
  predicate IsMulticast(key: Key) {
    key.mac / TWO40 % 2 == 1
  }

  /** The tag of flows that were flooded because the address is unknown. */
  function UnknownTag(seed: Key -> nat, key: Key): Tag {
    Deterministic(seed(key))
  }

  function Find(t: Table, key: Key): (r: Option<nat>)
    ensures r.Some? ==> r.value < |t| && t[r.value].key == key
    ensures r.None? ==> forall i :: 0 <= i < |t| ==> t[i].key != key
  {
    if t == [] then None
    else if t[|t| - 1].key == key then Some(|t| - 1)
    else Find(t[..|t| - 1], key)
  }

  function Without(t: Table, i: nat): Table
    requires i < |t|
  {
    t[..i] + t[i + 1..]
  }

  /** The table after a frame from `key` is seen on `port` at time `now`, and the tag of the
      flows to revalidate, empty if nothing was learned.  `newTag` is a randomly chosen tag. */
  function Learn(seed: Key -> nat, t: Table, key: Key, port: int, now: int, newTag: Tag): (Table, Tag)
  {
    if IsMulticast(key) then (t, {})
    else
      var i := Find(t, key);
      if i.Some? then
        var row := t[i.value].(expires := now + LIFETIME);
        if row.port == port then (Without(t, i.value) + [row], {})
        else (Without(t, i.value) + [row.(port := port, tag := newTag)], row.tag)
      else
        var room := if |t| >= MAC_MAX then t[1..] else t;
        (room + [Row(key, port, newTag, now + LIFETIME)], UnknownTag(seed, key))
  }

  /** Where to send a frame for `key`, and the tag a flow built on the answer must carry. */
  function Lookup(seed: Key -> nat, t: Table, key: Key): (int, Tag) {
    if IsMulticast(key) then (FLOOD, {})
    else
      var i := Find(t, key);
      if i.Some? then (t[i.value].port, t[i.value].tag) else (FLOOD, UnknownTag(seed, key))
  }

  /** How many rows expire from the front of the table. */
  function Expired(t: Table, now: int): (n: nat)
    ensures n <= |t| && (forall i :: 0 <= i < n ==> t[i].expires <= now)
    ensures n < |t| ==> t[n].expires > now
  {
    if t == [] || now < t[0].expires then 0 else 1 + Expired(t[1..], now)
  }

  /** `Ran` drops what has expired, with or without a set to put the tags in. */
  datatype Event =
    | Learned(key: Key, port: int, now: int, newTag: Tag)
    | Ran(now: int, told: bool)
    | Flushed

  function TagsOf(t: Table): seq<Tag> {
    seq(|t|, i requires 0 <= i < |t| => t[i].tag)
  }

  function Step(seed: Key -> nat, t: Table, e: Event): Table {
    match e
    case Learned(key, port, now, newTag) => Learn(seed, t, key, port, now, newTag).0
    case Ran(now, _) => t[Expired(t, now)..]
    case Flushed => []
  }

  /** The tags an event hands to its caller for revalidation. */
  function Announces(seed: Key -> nat, t: Table, e: Event): seq<Tag> {
    match e
    case Learned(key, port, now, newTag) => [Learn(seed, t, key, port, now, newTag).1]
    case Ran(now, told) => if told then TagsOf(t[..Expired(t, now)]) else []
    case Flushed => []
  }

  predicate Legal(e: Event) {
    e.Learned? ==> 0 <= e.port < TWO16 && TagOk(e.newTag)
  }

  function Run(seed: Key -> nat, t: Table, events: seq<Event>): Table {
    if events == [] then t
    else Step(seed, Run(seed, t, events[..|events| - 1]), events[|events| - 1])
  }

  function AllAnnounced(seed: Key -> nat, t: Table, events: seq<Event>): seq<Tag> {
    if events == [] then []
    else
      var init := events[..|events| - 1];
      AllAnnounced(seed, t, init) + Announces(seed, Run(seed, t, init), events[|events| - 1])
  }

  // ----- what every event keeps

  predicate TagOk(tag: Tag) {
    IsValid(tag) && InWord(tag)
  }

  predicate RowsOk(t: Table) {
    && (forall i :: 0 <= i < |t| ==> 0 <= t[i].port < TWO16 && !IsMulticast(t[i].key))
    && (forall i {:trigger TagOk(t[i].tag)} :: 0 <= i < |t| ==> TagOk(t[i].tag))
  }

  predicate UniqueKeys(t: Table) {
    forall i, j :: 0 <= i < j < |t| ==> t[i].key != t[j].key
  }

  predicate WellFormed(t: Table) {
    |t| <= MAC_MAX && RowsOk(t) && UniqueKeys(t)
  }

  lemma {:induction false} FindUnique(t: Table, key: Key, i: nat)
    requires UniqueKeys(t) && i < |t| && t[i].key == key
    ensures Find(t, key) == Some(i)
  {
    var r := Find(t, key);
    assert r.Some? && t[r.value].key == key;
  }

  /** The old rows that a learning event keeps, in order: all but the one it renews or drops. */
  function Kept(t: Table, key: Key): Table {
    var i := Find(t, key);
    if i.Some? then Without(t, i.value) else if |t| >= MAC_MAX then t[1..] else t
  }

  /** The row that a learning event puts last. */
  function NewRow(t: Table, e: Event): Row
    requires e.Learned?
  {
    var i := Find(t, e.key);
    if i.Some? && t[i.value].port == e.port then t[i.value].(expires := e.now + LIFETIME)
    else Row(e.key, e.port, e.newTag, e.now + LIFETIME)
  }

  lemma LearnShape(seed: Key -> nat, t: Table, e: Event)
    requires e.Learned? && !IsMulticast(e.key)
    ensures Step(seed, t, e) == Kept(t, e.key) + [NewRow(t, e)]
    ensures NewRow(t, e).key == e.key
  {
  }

  lemma KeptRows(t: Table, key: Key)
    requires |t| <= MAC_MAX && UniqueKeys(t)
    ensures |Kept(t, key)| < MAC_MAX && UniqueKeys(Kept(t, key))
    ensures forall r :: r in Kept(t, key) ==> r in t && r.key != key
  {
    var i := Find(t, key);
    var kept := Kept(t, key);
    var gap := if i.Some? then i.value else if |t| >= MAC_MAX then 0 else |t|;
    assert forall k :: 0 <= k < |kept| ==> kept[k] == t[if k < gap then k else k + 1];
  }

  lemma StepKeepsKeys(seed: Key -> nat, t: Table, e: Event)
    requires |t| <= MAC_MAX && UniqueKeys(t)
    ensures |Step(seed, t, e)| <= MAC_MAX && UniqueKeys(Step(seed, t, e))
  {
    if e.Learned? && !IsMulticast(e.key) {
      LearnShape(seed, t, e);
      KeptRows(t, e.key);
      var kept := Kept(t, e.key);
      assert forall k :: 0 <= k < |kept| ==> kept[k] in kept;
    }
  }

  lemma StepKeepsRows(seed: Key -> nat, t: Table, e: Event)
    requires WellFormed(t) && Legal(e)
    ensures RowsOk(Step(seed, t, e))
  {
    var u := Step(seed, t, e);
    if e.Learned? && !IsMulticast(e.key) {
      LearnShape(seed, t, e);
      KeptRows(t, e.key);
      var i := Find(t, e.key);
      assert i.Some? ==> TagOk(t[i.value].tag);
      forall k | 0 <= k < |u|
        ensures 0 <= u[k].port < TWO16 && !IsMulticast(u[k].key) && TagOk(u[k].tag)
      {
        if k < |u| - 1 {
          assert u[k] in Kept(t, e.key);
          var j :| 0 <= j < |t| && t[j] == u[k];
          assert TagOk(t[j].tag);
        }
      }
    } else if e.Ran? {
      forall k | 0 <= k < |u| ensures TagOk(u[k].tag) {
        assert TagOk(t[k + Expired(t, e.now)].tag);
      }
    }
  }

  lemma StepKeeps(seed: Key -> nat, t: Table, e: Event)
    requires WellFormed(t) && Legal(e)
    ensures WellFormed(Step(seed, t, e))
  {
    StepKeepsKeys(seed, t, e);
    StepKeepsRows(seed, t, e);
  }

  lemma {:induction false} RunKeeps(seed: Key -> nat, t: Table, events: seq<Event>)
    requires WellFormed(t) && forall e :: e in events ==> Legal(e)
    ensures WellFormed(Run(seed, t, events))
  {
    if events != [] {
      RunKeeps(seed, t, events[..|events| - 1]);
      StepKeeps(seed, Run(seed, t, events[..|events| - 1]), events[|events| - 1]);
    }
  }

  // ----- every change of an answer is announced

  /** Learning a new address into a full table silently drops the least recently used row. */
  predicate Evicts(t: Table, e: Event, key: Key) {
    && e.Learned? && !IsMulticast(e.key) && Find(t, e.key).None?
    && |t| >= MAC_MAX && t[0].key == key
  }

  lemma FindInOther(t: Table, u: Table, key: Key)
    requires UniqueKeys(t) && UniqueKeys(u)
    requires forall r: Row :: r.key == key ==> (r in t <==> r in u)
    ensures Find(t, key).Some? <==> Find(u, key).Some?
    ensures Find(t, key).Some? ==> u[Find(u, key).value] == t[Find(t, key).value]
  {
    if Find(t, key).Some? {
      assert t[Find(t, key).value] in u;
    }
    if Find(u, key).Some? {
      assert u[Find(u, key).value] in t;
    }
  }

  /** Learning one address touches no row of another, eviction apart. */
  lemma LearnKeepsOthers(seed: Key -> nat, t: Table, e: Event, r: Row)
    requires |t| <= MAC_MAX && UniqueKeys(t) && e.Learned? && r.key != e.key
    requires !Evicts(t, e, r.key)
    ensures r in t <==> r in Step(seed, t, e)
  {
    if !IsMulticast(e.key) {
      var i, kept := Find(t, e.key), Kept(t, e.key);
      LearnShape(seed, t, e);
      KeptRows(t, e.key);
      if r in t {
        var k :| 0 <= k < |t| && t[k] == r;
        var gap := if i.Some? then i.value else if |t| >= MAC_MAX then 0 else |t|;
        assert kept[if k < gap then k else k - 1] == r;
      }
    }
  }

  lemma ChangeIsAnnouncedByLearn(seed: Key -> nat, t: Table, e: Event, key: Key)
    requires WellFormed(t) && Legal(e) && e.Learned? && !Evicts(t, e, key)
    requires Lookup(seed, Step(seed, t, e), key) != Lookup(seed, t, key)
    ensures Lookup(seed, t, key).1 in Announces(seed, t, e)
  {
    var u := Step(seed, t, e);
    StepKeepsKeys(seed, t, e);
    if key == e.key {
      LearnShape(seed, t, e);
      FindUnique(u, key, |u| - 1);
    } else {
      forall r: Row | r.key == key ensures r in t <==> r in u {
        LearnKeepsOthers(seed, t, e, r);
      }
      FindInOther(t, u, key);
    }
  }

  /** Rows may go without their tags being handed out: the table is flushed, or is run without a
      set while the row of `key` has expired. */
  predicate Discards(t: Table, e: Event, key: Key) {
    && (e.Flushed? || (e.Ran? && !e.told))
    && Find(t, key).Some? && Find(t, key).value < (if e.Ran? then Expired(t, e.now) else |t|)
  }

  lemma ChangeIsAnnounced(seed: Key -> nat, t: Table, e: Event, key: Key)
    requires WellFormed(t) && Legal(e) && !Discards(t, e, key) && !Evicts(t, e, key)
    requires Lookup(seed, Step(seed, t, e), key) != Lookup(seed, t, key)
    ensures Lookup(seed, t, key).1 in Announces(seed, t, e)
  {
    StepKeepsKeys(seed, t, e);
    if e.Learned? {
      ChangeIsAnnouncedByLearn(seed, t, e, key);
    } else if e.Ran? {
      var n := Expired(t, e.now);
      var i := Find(t, key);
      if i.Some? && i.value < n {
        assert Announces(seed, t, e)[i.value] == t[i.value].tag;
      } else if i.Some? {
        FindUnique(t[n..], key, i.value - n);
      }
    }
  }

  /** No event of the run discards or evicts the row of `key`. */
  predicate KeepsTrack(seed: Key -> nat, t: Table, events: seq<Event>, key: Key) {
    events == [] ||
    var init := events[..|events| - 1];
    var e := events[|events| - 1];
    var u := Run(seed, t, init);
    KeepsTrack(seed, t, init, key) && !Discards(u, e, key) && !Evicts(u, e, key)
  }

  /** Over any run that neither discards nor evicts `key`, an answer can only have changed if the
      tag that came with it was announced. */
  lemma {:induction false} AnswersChangeWithNotice(
    seed: Key -> nat, t: Table, events: seq<Event>, key: Key)
    requires WellFormed(t) && (forall e :: e in events ==> Legal(e))
    requires KeepsTrack(seed, t, events, key)
    ensures Lookup(seed, Run(seed, t, events), key) == Lookup(seed, t, key)
            || Lookup(seed, t, key).1 in AllAnnounced(seed, t, events)
  {
    if events != [] {
      var init := events[..|events| - 1];
      var e := events[|events| - 1];
      AnswersChangeWithNotice(seed, t, init, key);
      RunKeeps(seed, t, init);
      if Lookup(seed, t, key).1 !in AllAnnounced(seed, t, init) {
        var u := Run(seed, t, init);
        if Lookup(seed, Step(seed, u, e), key) != Lookup(seed, u, key) {
          ChangeIsAnnounced(seed, u, e, key);
        }
      }
    }
  }

  lemma AnnouncedInWord(seed: Key -> nat, t: Table, e: Event)
    requires WellFormed(t) && Legal(e)
    ensures forall tag :: tag in Announces(seed, t, e) ==> InWord(tag)
  {
    forall tag | tag in Announces(seed, t, e) ensures InWord(tag) {
      if e.Ran? {
        var i :| 0 <= i < |Announces(seed, t, e)| && Announces(seed, t, e)[i] == tag;
        assert TagOk(t[i].tag);
      } else if !IsMulticast(e.key) && Find(t, e.key).Some? {
        assert TagOk(t[Find(t, e.key).value].tag);
      }
    }
  }

  lemma {:induction false} AllAnnouncedInWord(seed: Key -> nat, t: Table, events: seq<Event>)
    requires WellFormed(t) && (forall e :: e in events ==> Legal(e))
    ensures forall tag :: tag in AllAnnounced(seed, t, events) ==> InWord(tag)
  {
    if events != [] {
      var init := events[..|events| - 1];
      AllAnnouncedInWord(seed, t, init);
      RunKeeps(seed, t, init);
      AnnouncedInWord(seed, Run(seed, t, init), events[|events| - 1]);
    }
  }

  /** A flow carries the tag its lookup gave, perhaps among others.  If the lookup would now
      answer differently, the set of announced tags matches the flow. */
  lemma StaleFlowsAreCaught(seed: Key -> nat, t: Table, events: seq<Event>, key: Key, flow: Tag)
    requires WellFormed(t) && (forall e :: e in events ==> Legal(e))
    requires KeepsTrack(seed, t, events, key)
    requires Lookup(seed, t, key).1 <= flow
    requires Lookup(seed, Run(seed, t, events), key) != Lookup(seed, t, key)
    ensures Matches(AddAll(EMPTY, AllAnnounced(seed, t, events)), flow)
  {
    AnswersChangeWithNotice(seed, t, events, key);
    AllAnnouncedInWord(seed, t, events);
    var tag := Lookup(seed, t, key).1;
    var tags := AllAnnounced(seed, t, events);
    var k :| 0 <= k < |tags| && tags[k] == tag;
    assert IsValid(tag) by {
      DeterministicIsValid(seed(key));
      if Find(t, key).Some? {
        assert TagOk(t[Find(t, key).value].tag);
      }
    }
    ValidMeetsSuperset(tag, flow);
    NoFalseNegatives(tags, k, flow);
  }

  lemma ValidMeetsSuperset(tag: Tag, flow: Tag)
    requires IsValid(tag) && tag <= flow
    ensures Intersects(tag, flow)
  {
    ValidMeaning(tag);
    IntersectsMeaning(tag, flow);
  }

  /** The carve-out is needed: when learning evicts `key`, its answer turns to flooding, and the
      tag that came with the old answer is handed out only if it happens to be the newcomer's. */
  lemma EvictionIsSilent(seed: Key -> nat, t: Table, e: Event, key: Key)
    requires WellFormed(t) && Legal(e) && Evicts(t, e, key)
    ensures Lookup(seed, t, key).0 != FLOOD
    ensures Lookup(seed, Step(seed, t, e), key).0 == FLOOD
    ensures Announces(seed, t, e) == [UnknownTag(seed, e.key)]
    ensures Lookup(seed, t, key).1 in Announces(seed, t, e)
            <==> Lookup(seed, t, key).1 == UnknownTag(seed, e.key)
  {
    FindUnique(t, key, 0);
    GoneAfterEviction(seed, t, e, key);
  }

  lemma GoneAfterEviction(seed: Key -> nat, t: Table, e: Event, key: Key)
    requires UniqueKeys(t) && Evicts(t, e, key)
    ensures Find(Step(seed, t, e), key).None?
  {
    LearnShape(seed, t, e);
    var u := Step(seed, t, e);
    assert u == t[1..] + [NewRow(t, e)];
  }

  /** So is the other: a discarded row's answer turns to flooding, and nothing is handed out. */
  lemma DiscardIsSilent(seed: Key -> nat, t: Table, e: Event, key: Key)
    requires WellFormed(t) && Discards(t, e, key) && !IsMulticast(key)
    ensures Lookup(seed, t, key).0 != FLOOD
    ensures Lookup(seed, Step(seed, t, e), key).0 == FLOOD
    ensures Announces(seed, t, e) == []
  {
    var i := Find(t, key).value;
    assert forall j :: 0 <= j < |t| && j != i ==> t[j].key != key;
  }

  // ----- age

  /** Rows are in order of expiry, none later than a lifetime from `now`. */
  predicate InAgeOrder(t: Table, now: int) {
    && (forall i, j :: 0 <= i < j < |t| ==> t[i].expires <= t[j].expires)
    && (forall i :: 0 <= i < |t| ==> t[i].expires <= now + LIFETIME)
  }

  function Clock(e: Event, now: int): int {
    if e.Flushed? then now else e.now
  }

  /** The time of the last event, and that time never runs backwards from `start`. */
  function LastTime(events: seq<Event>, start: int): int {
    if events == [] then start
    else Clock(events[|events| - 1], LastTime(events[..|events| - 1], start))
  }

  predicate Monotone(events: seq<Event>, start: int) {
    events == [] ||
    (Monotone(events[..|events| - 1], start)
     && LastTime(events[..|events| - 1], start) <= LastTime(events, start))
  }

  lemma KeptInOrder(t: Table, key: Key, now: int)
    requires |t| <= MAC_MAX && InAgeOrder(t, now)
    ensures InAgeOrder(Kept(t, key), now)
  {
    var i, kept := Find(t, key), Kept(t, key);
    var gap := if i.Some? then i.value else if |t| >= MAC_MAX then 0 else |t|;
    assert forall k :: 0 <= k < |kept| ==> kept[k] == t[if k < gap then k else k + 1];
  }

  lemma SuffixInOrder(t: Table, n: nat, now: int)
    requires n <= |t| && InAgeOrder(t, now)
    ensures InAgeOrder(t[n..], now)
  {
  }

  lemma StepInOrder(seed: Key -> nat, t: Table, e: Event, before: int)
    requires |t| <= MAC_MAX && InAgeOrder(t, before) && before <= Clock(e, before)
    ensures InAgeOrder(Step(seed, t, e), Clock(e, before))
  {
    if e.Learned? && !IsMulticast(e.key) {
      LearnShape(seed, t, e);
      KeptInOrder(t, e.key, before);
    } else if e.Ran? {
      SuffixInOrder(t, Expired(t, e.now), before);
    }
  }

  lemma {:induction false} RunInAgeOrder(seed: Key -> nat, events: seq<Event>, start: int)
    requires Monotone(events, start) && forall e :: e in events ==> Legal(e)
    ensures InAgeOrder(Run(seed, [], events), LastTime(events, start))
  {
    if events != [] {
      var init := events[..|events| - 1];
      var e := events[|events| - 1];
      RunInAgeOrder(seed, init, start);
      RunKeeps(seed, [], init);
      StepInOrder(seed, Run(seed, [], init), e, LastTime(init, start));
    }
  }

  lemma ExpiryKeepsFresh(t: Table, now: int, last: int, r: Row)
    requires InAgeOrder(t, last)
    ensures r in t[Expired(t, now)..] <==> r in t && r.expires > now
  {
    var n := Expired(t, now);
    if r in t && r.expires > now {
      var k :| 0 <= k < |t| && t[k] == r;
      assert t[n..][k - n] == r;
    }
  }

  /** With a clock that never runs backwards, expiry removes exactly the expired rows. */
  lemma RunRemovesExactlyExpired(seed: Key -> nat, events: seq<Event>, start: int, now: int, told: bool, r: Row)
    requires Monotone(events, start) && forall e :: e in events ==> Legal(e)
    ensures var t := Run(seed, [], events);
            r in Step(seed, t, Ran(now, told)) <==> r in t && r.expires > now
  {
    RunInAgeOrder(seed, events, start);
    ExpiryKeepsFresh(Run(seed, [], events), now, LastTime(events, start), r);
  }

  /** The port on which a run last saw `key`. */
  function LastSeen(events: seq<Event>, key: Key): Option<int> {
    if events == [] then None
    else
      var e := events[|events| - 1];
      if e.Learned? && e.key == key && !IsMulticast(key) then Some(e.port)
      else LastSeen(events[..|events| - 1], key)
  }

  /** A known address is answered with the port on which it was last seen. */
  lemma {:induction false} LookupGivesLastSeen(seed: Key -> nat, events: seq<Event>, key: Key)
    requires forall e :: e in events ==> Legal(e)
    ensures var t := Run(seed, [], events);
            Find(t, key).Some? ==> Some(t[Find(t, key).value].port) == LastSeen(events, key)
  {
    if events != [] {
      var init := events[..|events| - 1];
      var e := events[|events| - 1];
      var t, u := Run(seed, [], init), Run(seed, [], events);
      LookupGivesLastSeen(seed, init, key);
      RunKeeps(seed, [], init);
      StepKeepsKeys(seed, t, e);
      var i := Find(u, key);
      if i.Some? {
        if e.Learned? && !IsMulticast(e.key) {
          LearnShape(seed, t, e);
          KeptRows(t, e.key);
          if key == e.key {
            FindUnique(u, key, |u| - 1);
          } else {
            assert u[i.value] in Kept(t, e.key);
            var j :| 0 <= j < |t| && t[j] == u[i.value];
            FindUnique(t, key, j);
          }
        } else if e.Ran? {
          FindUnique(t, key, i.value + Expired(t, e.now));
        }
      }
    }
  }
}
