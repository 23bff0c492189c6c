/**
 * The record store behind the app's `ModelContext`: the stories and sentences a
 * fetch returns, with insert (transitive through `Story.sentences`), delete
 * (cascading from a story to the sentences it owns) and save.  Fetch order is
 * modelled as insertion order.  Save's success or failure is an input.
 */
module Context {
  import opened Records

  /** No element occurs twice. */
  predicate NoDup<T(==)>(xs: seq<T>) {
    forall i, j :: 0 <= i < j < |xs| ==> xs[i] != xs[j]
  }

  /** No element of `xs` occurs in `ys`. */
  predicate Apart<T(==)>(xs: seq<T>, ys: seq<T>) {
    forall k :: 0 <= k < |xs| ==> xs[k] !in ys
  }

  /** A sequence without members is empty. */
  lemma EmptyWithoutMembers<T>(xs: seq<T>)
    ensures (forall x :: x !in xs) ==> xs == []
  {
    if xs != [] {
      assert xs[0] in xs;
    }
  }

  /** `xs` with every element of `gone` removed, order kept. */
  function Without<T(==)>(xs: seq<T>, gone: set<T>): (r: seq<T>)
    ensures forall x :: x in r ==> x in xs && x !in gone
    ensures forall x :: x in xs && x !in gone ==> x in r
    ensures |r| <= |xs|
    ensures NoDup(xs) ==> NoDup(r)
  {
    if xs == [] then []
    else if xs[0] in gone then Without(xs[1..], gone)
    else [xs[0]] + Without(xs[1..], gone)
  }

  /** Removing elements that are not there changes nothing. */
  lemma {:induction false} WithoutAbsent<T>(xs: seq<T>, gone: set<T>)
    requires forall x :: x in xs ==> x !in gone
    ensures Without(xs, gone) == xs
  {
    if xs != [] {
      assert xs[0] !in gone;
      WithoutAbsent(xs[1..], gone);
      assert [xs[0]] + xs[1..] == xs;
    }
  }

  /** Removing the first element of a duplicate-free sequence leaves its tail. */
  lemma WithoutHead<T>(xs: seq<T>)
    requires xs != [] && NoDup(xs)
    ensures Without(xs, {xs[0]}) == xs[1..]
  {
    forall x | x in xs[1..] ensures x !in {xs[0]} {
      var k :| 0 <= k < |xs[1..]| && xs[1..][k] == x;
      assert xs[k + 1] == x;
    }
    WithoutAbsent(xs[1..], {xs[0]});
  }

  /** `xs` followed by those elements of `ys` not yet present, each once, order kept. */
  function Adjoin<T(==)>(xs: seq<T>, ys: seq<T>): (r: seq<T>)
    ensures NoDup(xs) ==> NoDup(r)
    decreases |ys|
  {
    if ys == [] then xs
    else if ys[0] in xs then Adjoin(xs, ys[1..])
    else Adjoin(xs + [ys[0]], ys[1..])
  }

  /** What adjoining keeps and adds: `xs` as a prefix, then only elements of `ys`, and every element of `ys`. */
  lemma {:induction false} AdjoinContents<T>(xs: seq<T>, ys: seq<T>)
    ensures |xs| <= |Adjoin(xs, ys)| && Adjoin(xs, ys)[..|xs|] == xs
    ensures forall x :: x in Adjoin(xs, ys) ==> x in xs || x in ys
    ensures forall x :: x in ys ==> x in Adjoin(xs, ys)
    decreases |ys|
  {
    if ys != [] {
      var xs' := if ys[0] in xs then xs else xs + [ys[0]];
      AdjoinContents(xs', ys[1..]);
      var r := Adjoin(xs, ys);
      assert r == Adjoin(xs', ys[1..]);
      assert ys[0] in r[..|xs'|];
      assert ys == [ys[0]] + ys[1..];
    }
  }

  /** After moving the head of fresh, distinct `ys` onto `xs`, the tail is still fresh and distinct. */
  lemma FreshTail<T>(xs: seq<T>, ys: seq<T>)
    requires ys != [] && NoDup(ys) && Apart(ys, xs)
    ensures NoDup(ys[1..]) && Apart(ys[1..], xs + [ys[0]])
  {
    forall k | 0 <= k < |ys[1..]| ensures ys[1..][k] !in xs + [ys[0]] {
      assert ys[1..][k] == ys[k + 1] && ys[k + 1] !in xs;
      assert ys[0] != ys[k + 1];
    }
  }

  /** Adjoining new, distinct elements is plain concatenation. */
  lemma {:induction false} AdjoinFresh<T>(xs: seq<T>, ys: seq<T>)
    requires NoDup(ys)
    requires Apart(ys, xs)
    ensures Adjoin(xs, ys) == xs + ys
    decreases |ys|
  {
    if ys != [] {
      var xs' := xs + [ys[0]];
      assert ys[0] !in xs;
      assert Adjoin(xs, ys) == Adjoin(xs', ys[1..]);
      FreshTail(xs, ys);
      AdjoinFresh(xs', ys[1..]);
      assert xs' + ys[1..] == xs + ys;
    }
  }

  /** What the store holds, without identities and timestamps. */
  datatype StoreValue = StoreValue(stories: seq<StoryRecord>, sentences: seq<SentenceRecord>)

  const Empty := StoreValue([], [])

  class ModelContext {
    /** What `fetch(FetchDescriptor<Story>())` returns. */
    var stories: seq<Story>
    /** What `fetch(FetchDescriptor<Sentence>())` returns: owned and free-standing sentences. */
    var sentences: seq<Sentence>
    /** Whether there are changes not yet committed by `save`. */
    var hasChanges: bool

    /** Each record is held once. */
    ghost predicate Valid()
      reads this
    {
      NoDup(stories) && NoDup(sentences)
    }

    /** The stored records as values, each story with its sentences. */
    ghost function Value(): StoreValue
      reads this, stories
    {
      StoreValue(StoryValues(stories), SentenceValues(sentences))
    }

    constructor ()
      ensures Valid() && stories == [] && sentences == [] && !hasChanges
    {
      stories, sentences, hasChanges := [], [], false;
    }

    /** `insert(story)`: registers the story and, transitively, the sentences it owns. */
    method InsertStory(s: Story)
      requires Valid()
      modifies this
      ensures Valid() && hasChanges
      ensures stories == if s in old(stories) then old(stories) else old(stories) + [s]
      ensures sentences == Adjoin(old(sentences), s.sentences)
    {
      if s !in stories {
        stories := stories + [s];
      }
      sentences := Adjoin(sentences, s.sentences);
      hasChanges := true;
    }

    /** `insert(sentence)`: registers one sentence record. */
    method InsertSentence(x: Sentence)
      requires Valid()
      modifies this
      ensures Valid() && hasChanges
      ensures stories == old(stories)
      ensures sentences == Adjoin(old(sentences), [x])
    {
      sentences := Adjoin(sentences, [x]);
      hasChanges := true;
    }

    /** `delete(story)`: removes the story and, by the cascade rule, every sentence it owns. */
    method DeleteStory(s: Story)
      requires Valid()
      modifies this
      ensures Valid()
      ensures hasChanges == (old(hasChanges) || s in old(stories))
      ensures stories == Without(old(stories), {s})
      ensures sentences == if s in old(stories) then Without(old(sentences), set x | x in s.sentences)
                           else old(sentences)
    {
      if s in stories {
        sentences := Without(sentences, set x | x in s.sentences);
        hasChanges := true;
      }
      stories := Without(stories, {s});
    }

    /** `delete(sentence)`: removes one sentence record. */
    method DeleteSentence(x: Sentence)
      requires Valid()
      modifies this
      ensures Valid()
      ensures hasChanges == (old(hasChanges) || x in old(sentences))
      ensures stories == old(stories)
      ensures sentences == Without(old(sentences), {x})
    {
      if x in sentences {
        hasChanges := true;
      }
      sentences := Without(sentences, {x});
    }

    /** `save()`: commits pending changes, or throws (`ok` false) and keeps them pending. */
    method Save(fails: bool) returns (ok: bool)
      modifies this
      ensures ok == !fails
      ensures hasChanges == (old(hasChanges) && fails)
      ensures stories == old(stories) && sentences == old(sentences)
    {
      ok := !fails;
      if ok {
        hasChanges := false;
      }
    }
  }
}
