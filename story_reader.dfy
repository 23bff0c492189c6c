/**
 * Page navigation of `StoryReaderView`: the story looked up by id among the
 * queried stories, its sentences sorted by `order`, the sentence on the
 * current page, and the previous/next buttons with their disabled states.
 * The query result is a parameter.
 */
module StoryReader {
  import opened Optional
  import opened Records

  // ---------------------------------------------------------------------------
  // Derived values.

  /** `stories.first { $0.id == storyId }`. */
  function CurrentStory(stories: seq<Story>, storyId: string): (r: Option<Story>)
    ensures r.None? <==> forall k :: 0 <= k < |stories| ==> stories[k].id != storyId
    ensures r.Some? ==> r.value in stories && r.value.id == storyId
  {
    if stories == [] then None
    else if stories[0].id == storyId then Some(stories[0])
    else
      assert forall k :: 1 <= k < |stories| ==> stories[k] == stories[1..][k - 1];
      CurrentStory(stories[1..], storyId)
  }

  /** The result is the first match: every story before it has another id. */
  lemma {:induction false} CurrentStoryIsFirst(stories: seq<Story>, storyId: string)
    requires CurrentStory(stories, storyId).Some?
    ensures exists k :: 0 <= k < |stories| && stories[k] == CurrentStory(stories, storyId).value &&
                        forall j :: 0 <= j < k ==> stories[j].id != storyId
  {
    if stories[0].id != storyId {
      CurrentStoryIsFirst(stories[1..], storyId);
      var k :| 0 <= k < |stories[1..]| && stories[1..][k] == CurrentStory(stories[1..], storyId).value &&
               forall j :: 0 <= j < k ==> stories[1..][j].id != storyId;
      assert stories[k + 1] == CurrentStory(stories, storyId).value;
      forall j | 0 <= j < k + 1 ensures stories[j].id != storyId {
        if j > 0 {
          assert stories[j] == stories[1..][j - 1];
        }
      }
    }
  }

  /** Non-decreasing by `order`. */
  predicate SortedByOrder(xs: seq<Sentence>) {
    forall i, j :: 0 <= i < j < |xs| ==> xs[i].order <= xs[j].order
  }

  /** Inserts `x` into sorted `xs` after every sentence whose order is not above its own. */
  function InsertByOrder(xs: seq<Sentence>, x: Sentence): (r: seq<Sentence>)
    requires SortedByOrder(xs)
    ensures SortedByOrder(r)
    ensures multiset(r) == multiset(xs) + multiset{x}
    ensures |r| == |xs| + 1 && (r[0] == x || (xs != [] && r[0] == xs[0]))
  {
    if xs == [] then [x]
    else if x.order < xs[0].order then [x] + xs
    else
      var rest := InsertByOrder(xs[1..], x);
      assert xs == [xs[0]] + xs[1..];
      [xs[0]] + rest
  }

  /** `sentences.sorted { $0.order < $1.order }`: a permutation, non-decreasing by `order`. */
  function SortByOrder(xs: seq<Sentence>): (r: seq<Sentence>)
    ensures SortedByOrder(r)
    ensures multiset(r) == multiset(xs)
  {
    if xs == [] then []
    else
      var init := xs[..|xs| - 1];
      assert xs == init + [xs[|xs| - 1]];
      InsertByOrder(SortByOrder(init), xs[|xs| - 1])
  }

  /** No two sentences share an `order`. */
  predicate DistinctOrders(xs: seq<Sentence>) {
    forall i, j :: 0 <= i < j < |xs| ==> xs[i].order != xs[j].order
  }

  /**
   * With distinct `order` values there is only one way to sort: two
   * permutations of each other that are both sorted by order are equal, so the
   * reading sequence does not depend on the order the sentences were stored in.
   */
  lemma {:induction false} SortedPermutationUnique(a: seq<Sentence>, b: seq<Sentence>)
    requires multiset(a) == multiset(b)
    requires SortedByOrder(a) && SortedByOrder(b) && DistinctOrders(a)
    ensures a == b
    decreases |a|
  {
    assert |a| == |multiset(a)| == |b|;
    if a != [] {
      SameHead(a, b);
      TailOf(a);
      TailOf(b);
      SortedPermutationUnique(a[1..], b[1..]);
    }
  }

  /** Sorted permutations of each other with distinct orders start with the same sentence. */
  lemma SameHead(a: seq<Sentence>, b: seq<Sentence>)
    requires a != [] && |b| == |a| && multiset(a) == multiset(b)
    requires SortedByOrder(a) && SortedByOrder(b) && DistinctOrders(a)
    ensures a[0] == b[0]
  {
    assert a[0] in multiset(b) && b[0] in multiset(a);
    var j :| 0 <= j < |b| && b[j] == a[0];
    var i :| 0 <= i < |a| && a[i] == b[0];
    assert b[0].order <= b[j].order;
    assert a[0].order <= a[i].order;
  }

  /** The tail keeps sortedness and distinct orders, and its multiset drops the head. */
  lemma TailOf(a: seq<Sentence>)
    requires a != []
    ensures SortedByOrder(a) ==> SortedByOrder(a[1..])
    ensures DistinctOrders(a) ==> DistinctOrders(a[1..])
    ensures multiset(a[1..]) == multiset(a) - multiset{a[0]}
  {
    assert a == [a[0]] + a[1..];
  }

  /** `sortedSentences`: the current story's sentences by `order`, or none without a story. */
  function SortedSentences(stories: seq<Story>, storyId: string): (r: seq<Sentence>)
    reads stories
    ensures CurrentStory(stories, storyId).None? ==> r == []
    ensures CurrentStory(stories, storyId).Some? ==>
              multiset(r) == multiset(CurrentStory(stories, storyId).value.sentences)
    ensures SortedByOrder(r)
  {
    match CurrentStory(stories, storyId)
    case None => []
    case Some(story) => SortByOrder(story.sentences)
  }

  /**
   * `currentSentence`: the sentence at `index` when `index` is below the count,
   * and none otherwise.  A negative index below the count would trap in the
   * subscript, so it is excluded.
   */
  function CurrentSentence(sorted: seq<Sentence>, index: int): (r: Option<Sentence>)
    requires index < |sorted| ==> 0 <= index
    ensures r.Some? <==> index < |sorted|
    ensures r.Some? ==> r.value == sorted[index] && r.value in sorted
  {
    if index < |sorted| then Some(sorted[index]) else None
  }

  // ---------------------------------------------------------------------------
  // Paging.

  /**
   * `previousPage`: `max(0, currentPageIndex - 1)`, the least index that is
   * neither negative nor more than one page back.  It never moves forward from
   * a page, and moves back exactly one page from any later page.
   */
  function PreviousIndex(index: int): (r: int)
    ensures r >= 0 && r >= index - 1 && (r == 0 || r == index - 1)
    ensures 0 <= index ==> r <= index
    ensures index > 0 ==> r == index - 1
  {
    if index - 1 < 0 then 0 else index - 1
  }

  /**
   * `nextPage`: `min(sortedSentences.count - 1, currentPageIndex + 1)`, the
   * greatest index that is neither past the last sentence nor more than one
   * page on.  From a page of a non-empty story it stays on a page and moves on
   * exactly one page unless already on the last; on a story without sentences
   * it gives -1.
   */
  function NextIndex(index: int, count: nat): (r: int)
    ensures r <= count - 1 && r <= index + 1 && (r == count - 1 || r == index + 1)
    ensures 0 <= index < count ==> 0 <= r < count && index <= r
    ensures 0 <= index && index + 1 < count ==> r == index + 1
    ensures count == 0 && index >= -1 ==> r == -1
  {
    if count - 1 < index + 1 then count - 1 else index + 1
  }

  /**
   * `.disabled(currentPageIndex == 0)` on the previous button: disabled exactly
   * when a tap would leave the index where it is.
   */
  function PreviousDisabled(index: int): (r: bool)
    ensures r <==> PreviousIndex(index) == index
  {
    index == 0
  }

  /**
   * `.disabled(currentPageIndex >= sortedSentences.count - 1)` on the next
   * button: disabled exactly when a tap would not move the index forward, which
   * on a page of the story is the last page.
   */
  function NextDisabled(index: int, count: nat): (r: bool)
    ensures r <==> NextIndex(index, count) <= index
    ensures 0 <= index < count ==> (r <==> index == count - 1)
  {
    index >= count - 1
  }

  /** An index the reader can show: a page of the story, or 0 for a story without sentences. */
  predicate OnPage(index: int, count: nat) {
    0 <= index && (index < count || index == 0)
  }

  /**
   * The buttons are disabled exactly at the ends: previous on page 0, next on
   * the last page and on any story without sentences, and a tap on an enabled
   * button from a shown page leads to a shown page.
   */
  lemma ButtonsGuardPages(index: int, count: nat)
    requires OnPage(index, count)
    ensures PreviousDisabled(index) <==> PreviousIndex(index) == index
    ensures NextDisabled(index, count) <==> index + 1 >= count
    ensures count == 0 ==> PreviousDisabled(index) && NextDisabled(index, count)
    ensures !PreviousDisabled(index) ==> OnPage(PreviousIndex(index), count)
    ensures !NextDisabled(index, count) ==> OnPage(NextIndex(index, count), count)
  {
  }

  /** A tap on one of the two page buttons. */
  datatype Tap = Previous | Next

  /**
   * A tap as the interface delivers it: a disabled button does nothing.  From
   * a shown page the tap leads to a shown page, moves the index exactly when
   * the tapped button is enabled, and never in the wrong direction.
   */
  function Press(index: int, count: nat, tap: Tap): (r: int)
    ensures OnPage(index, count) ==> OnPage(r, count)
    ensures OnPage(index, count) ==>
              (r == index <==> (tap.Previous? && PreviousDisabled(index)) || (tap.Next? && NextDisabled(index, count)))
    ensures OnPage(index, count) && tap.Previous? ==> r <= index
    ensures OnPage(index, count) && tap.Next? ==> index <= r
  {
    match tap
    case Previous => if PreviousDisabled(index) then index else PreviousIndex(index)
    case Next => if NextDisabled(index, count) then index else NextIndex(index, count)
  }

  /** The index after a series of taps from `index`, with the sentence count fixed. */
  function Replay(index: int, count: nat, taps: seq<Tap>): int
    decreases |taps|
  {
    if taps == [] then index else Replay(Press(index, count, taps[0]), count, taps[1..])
  }

  /**
   * Starting from a shown page (the initial 0 included), any series of taps on
   * enabled buttons keeps the index on a shown page: never -1, never past the
   * last sentence.
   */
  lemma {:induction false} ReplayStaysOnPage(index: int, count: nat, taps: seq<Tap>)
    requires OnPage(index, count)
    ensures OnPage(Replay(index, count, taps), count)
    decreases |taps|
  {
    if taps != [] {
      ReplayStaysOnPage(Press(index, count, taps[0]), count, taps[1..]);
    }
  }

  /** On a shown page the guarded lookup is defined, and finds a sentence exactly when the story has one. */
  lemma ShownPageHasSentence(sorted: seq<Sentence>, index: int)
    requires OnPage(index, |sorted|)
    ensures index < |sorted| ==> 0 <= index
    ensures CurrentSentence(sorted, index).Some? <==> sorted != []
  {
  }

  /** The reader's state: the story it shows and the page it is on. */
  class Reader {
    const storyId: string
    var currentPageIndex: int

    /** A reader opens on the first page. */
    constructor (storyId: string)
      ensures this.storyId == storyId && currentPageIndex == 0
    {
      this.storyId := storyId;
      currentPageIndex := 0;
    }

    /** `currentSentence` over the queried stories. */
    function Sentence(stories: seq<Story>): (r: Option<Records.Sentence>)
      reads this, stories
      requires currentPageIndex < |SortedSentences(stories, storyId)| ==> 0 <= currentPageIndex
      ensures r.Some? <==> currentPageIndex < |SortedSentences(stories, storyId)|
      ensures r.Some? ==> r.value in CurrentStory(stories, storyId).value.sentences
      ensures r == CurrentSentence(SortedSentences(stories, storyId), currentPageIndex)
    {
      var sorted := SortedSentences(stories, storyId);
      var r := CurrentSentence(sorted, currentPageIndex);
      assert r.Some? ==> r.value in multiset(sorted);
      r
    }

    /** `previousPage`; stopping the speech synthesizer is not modelled. */
    method PreviousPage()
      modifies this
      ensures currentPageIndex == PreviousIndex(old(currentPageIndex))
    {
      currentPageIndex := PreviousIndex(currentPageIndex);
    }

    /** `nextPage`, with the count of the sentences of the queried story. */
    method NextPage(stories: seq<Story>)
      modifies this
      ensures currentPageIndex == NextIndex(old(currentPageIndex), |SortedSentences(stories, storyId)|)
    {
      currentPageIndex := NextIndex(currentPageIndex, |SortedSentences(stories, storyId)|);
    }
  }
}
