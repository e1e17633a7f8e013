/**
  Tag sets on 32-bit words, as the program keeps them: four slots, a running total and a count.
  Every operation does to the words what module `Tag` does to the sets of their bits, so that
  there are no false negatives on words either.
*/
module TagWordSet {
  import opened Common
  import opened Tag
  import opened TagWord

  datatype Words = Words(total: Word, tags: seq<Word>, n: nat)

  predicate FourWords(s: Words) {
    |s.tags| == N_SLOTS && s.n < TWO32
  }

  const NO_WORDS := Words(0, [0, 0, 0, 0], 0)

  predicate WordMatches(s: Words, q: Word)
    requires FourWords(s)
  {
    && WordIntersects(s.total, q)
    && (WordIntersects(s.tags[0], q) || WordIntersects(s.tags[1], q)
        || WordIntersects(s.tags[2], q) || WordIntersects(s.tags[3], q))
  }

  predicate WordTakes(s: Words, tag: Word)
    requires FourWords(s)
  {
    tag != 0 && (!WordIsValid(tag) || !WordMatches(s, tag))
  }

  function WordPut(s: Words, tag: Word): (r: Words)
    requires FourWords(s)
    ensures FourWords(r)
  {
    Stored(s, Or(s.total, tag), Or(s.tags[s.n % N_SLOTS], tag))
  }

  function Or(a: Word, b: Word): Word {
    a | b
  }

  /** The set with a new total and a new word in the slot whose turn it is. */
  function Stored(s: Words, total: Word, t: Word): (r: Words)
    requires FourWords(s)
    ensures FourWords(r)
  {
    Words(total, Filed(s.tags, s.n % N_SLOTS, t), (s.n + 1) % TWO32)
  }

  /** The slots with one of them changed; a full slot is copied to slot 0. */
  function Filed(tags: seq<Word>, i: nat, t: Word): (r: seq<Word>)
    requires i < |tags|
    ensures |r| == |tags|
  {
    if t == ALL_ONES then tags[i := t][0 := t] else tags[i := t]
  }

  function WordAdd(s: Words, tag: Word): (r: Words)
    requires FourWords(s)
    ensures FourWords(r)
  {
    if WordTakes(s, tag) then WordPut(s, tag) else s
  }

  function WordAddAll(s: Words, tags: seq<Word>): (r: Words)
    requires FourWords(s)
    ensures FourWords(r)
  {
    if tags == [] then s else WordAdd(WordAddAll(s, tags[..|tags| - 1]), tags[|tags| - 1])
  }

  function BitsOfAll(ws: seq<Word>): (xs: seq<Tag>)
    ensures |xs| == |ws| && forall i :: 0 <= i < |ws| ==> xs[i] == Bits(ws[i])
  {
    seq(|ws|, i requires 0 <= i < |ws| => Bits(ws[i]))
  }

  /** The set of bit sets that a set of words stands for. */
  function Meaning(s: Words): (r: Contents)
    requires FourWords(s)
    ensures FourSlots(r)
  {
    Contents(Bits(s.total), BitsOfAll(s.tags), s.n)
  }

  lemma MatchesAgrees(s: Words, q: Word)
    requires FourWords(s)
    ensures WordMatches(s, q) <==> Matches(Meaning(s), Bits(q))
  {
    WordIntersectsAgrees(s.total, q);
    WordIntersectsAgrees(s.tags[0], q);
    WordIntersectsAgrees(s.tags[1], q);
    WordIntersectsAgrees(s.tags[2], q);
    WordIntersectsAgrees(s.tags[3], q);
  }

  lemma TakesAgrees(s: Words, tag: Word)
    requires FourWords(s)
    ensures WordTakes(s, tag) <==> Takes(Meaning(s), Bits(tag))
  {
    ZeroBits(tag);
    WordIsValidAgrees(tag);
    MatchesAgrees(s, tag);
  }

  /** Filling a slot up shows as all positions. */
  lemma FiledAgrees(ws: seq<Word>, i: nat, t: Word)
    requires i < |ws|
    ensures BitsOfAll(Filed(ws, i, t))
            == if Bits(t) == AllOnes() then BitsOfAll(ws)[i := Bits(t)][0 := Bits(t)]
               else BitsOfAll(ws)[i := Bits(t)]
  {
    AllOnesBits(t);
  }

  ghost predicate Joins(w: Word, a: Word, b: Word) {
    Bits(w) == Bits(a) + Bits(b)
  }

  lemma OrJoins(a: Word, b: Word)
    ensures Joins(Or(a, b), a, b)
  {
    OrBits(a, b);
  }

  /** Or-ing a word into a slot joins its bits. */
  lemma PutAgrees(s: Words, tag: Word)
    requires FourWords(s)
    ensures Meaning(WordPut(s, tag)) == Put(Meaning(s), Bits(tag))
  {
    OrJoins(s.total, tag);
    OrJoins(s.tags[s.n % N_SLOTS], tag);
    StoredAgrees(s, tag, Or(s.total, tag), Or(s.tags[s.n % N_SLOTS], tag));
  }

  lemma StoredAgrees(s: Words, tag: Word, total: Word, t: Word)
    requires FourWords(s) && Joins(total, s.total, tag) && Joins(t, s.tags[s.n % N_SLOTS], tag)
    ensures Meaning(Stored(s, total, t)) == Put(Meaning(s), Bits(tag))
  {
    FiledAgrees(s.tags, s.n % N_SLOTS, t);
  }

  lemma AddAgrees(s: Words, tag: Word)
    requires FourWords(s)
    ensures Meaning(WordAdd(s, tag)) == Add(Meaning(s), Bits(tag))
  {
    TakesAgrees(s, tag);
    PutAgrees(s, tag);
  }

  lemma {:induction false} AddAllAgrees(tags: seq<Word>)
    ensures Meaning(WordAddAll(NO_WORDS, tags)) == AddAll(EMPTY, BitsOfAll(tags))
  {
    if tags == [] {
      ZeroBits(0);
      assert BitsOfAll(NO_WORDS.tags) == EMPTY.tags;
    } else {
      var last := |tags| - 1;
      AddAllAgrees(tags[..last]);
      AddAgrees(WordAddAll(NO_WORDS, tags[..last]), tags[last]);
      assert BitsOfAll(tags)[..last] == BitsOfAll(tags[..last]);
    }
  }

  /** After any sequence of additions of words the set matches every word that meets some added
      one. */
  lemma NoFalseNegativesOnWords(tags: seq<Word>, k: nat, q: Word)
    requires k < |tags| && WordIntersects(tags[k], q)
    ensures WordMatches(WordAddAll(NO_WORDS, tags), q)
  {
    var xs := BitsOfAll(tags);
    WordIntersectsAgrees(tags[k], q);
    forall x | x in xs ensures InWord(x) {
      var i :| 0 <= i < |xs| && xs[i] == x;
      assert x == Bits(tags[i]);
    }
    NoFalseNegatives(xs, k, Bits(q));
    AddAllAgrees(tags);
    MatchesAgrees(WordAddAll(NO_WORDS, tags), q);
  }

  class WordTagSet {
    var total: Word
    const tags: array<Word>
    var n: nat

    ghost function View(): Words
      reads this, tags
    {
      Words(total, tags[..], n)
    }

    ghost predicate Valid()
      reads this, tags
    {
      FourWords(View())
    }

    constructor ()
      ensures Valid() && View() == NO_WORDS && fresh(tags)
    {
      total, n := 0, 0;
      tags := new Word[4](_ => 0);
      new;
      assert tags[..] == [0, 0, 0, 0];
    }

    method Test(q: Word) returns (r: bool)
      requires Valid()
      ensures r == WordMatches(View(), q)
    {
      r := WordIntersects(total, q)
           && (WordIntersects(tags[0], q) || WordIntersects(tags[1], q)
               || WordIntersects(tags[2], q) || WordIntersects(tags[3], q));
    }

    method Store(newTotal: Word, t: Word)
      requires Valid()
      modifies this, tags
      ensures Valid() && View() == Stored(old(View()), newTotal, t)
    {
      var i := n % N_SLOTS;
      n := (n + 1) % TWO32;
      tags[i] := t;
      if t == ALL_ONES {
        tags[0] := t;
      }
      total := newTotal;
      assert tags[..] == Filed(old(tags[..]), i, t);
    }

    method Join(tag: Word)
      requires Valid()
      modifies this, tags
      ensures Valid() && View() == WordPut(old(View()), tag)
    {
      Store(Or(total, tag), Or(tags[n % N_SLOTS], tag));
    }

    method Insert(tag: Word)
      requires Valid()
      modifies this, tags
      ensures Valid() && View() == WordAdd(old(View()), tag)
    {
      var covered := Test(tag);
      if tag != 0 && (!WordIsValid(tag) || !covered) {
        Join(tag);
      }
    }
  }
}
