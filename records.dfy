/**
 * The two persisted entities of the content store: `Story` (Story.swift) and
 * `Sentence` (Sentence.swift).  Both are reference types; the store and the
 * reader refer to them by identity.  Their scalar fields are `const` here
 * because nothing in the modelled code writes them after `init`; the only field
 * that is changed in place is `Story.sentences`, which the seeding code appends
 * to.  Timestamps are readings of an external clock, passed in as `now`.
 */
module Records {
  import opened Optional

  /** A reading of the wall clock (`Date()`). */
  type Time = int

  class Sentence {
    const id: string
    const text: string
    /** The draggable vocabulary tokens, in order. */
    const words: seq<string>
    /** Character offsets into `text`; nothing ties them to `words` or to `|text|`. */
    const answerPositions: seq<int>
    /** Back-reference to the owning story's id; not an ownership edge. */
    const storyId: string
    /** Rank of the sentence within its story. */
    const order: int
    const imageUrl: Option<string>
    const createdAt: Time
    const updatedAt: Time

    /** `init`: every argument is stored unchanged, both timestamps come from the clock. */
    constructor (now: Time, id: string, text: string, words: seq<string>, answerPositions: seq<int>,
                 storyId: string, order: int, imageUrl: Option<string> := None)
      ensures this.id == id && this.text == text && this.storyId == storyId && this.order == order
      ensures this.words == words && this.answerPositions == answerPositions
      ensures this.imageUrl == imageUrl
      ensures createdAt == now && updatedAt == now
    {
      this.id := id;
      this.text := text;
      this.words := words;
      this.answerPositions := answerPositions;
      this.storyId := storyId;
      this.order := order;
      this.imageUrl := imageUrl;
      this.createdAt := now;
      this.updatedAt := now;
    }
  }

  class Story {
    const id: string
    const title: string
    const storyDescription: string
    /** Difficulty tier. */
    const level: int
    const coverImageUrl: Option<string>
    const isUnlocked: bool
    const createdAt: Time
    const updatedAt: Time
    /** The owned sentences; deleting the story deletes all of them (cascade). */
    var sentences: seq<Sentence>

    /** `init`: scalars stored unchanged, cover defaults to nil, unlocked defaults to true. */
    constructor (now: Time, id: string, title: string, storyDescription: string, level: int,
                 coverImageUrl: Option<string> := None, isUnlocked: bool := true)
      ensures this.id == id && this.title == title && this.storyDescription == storyDescription
      ensures this.level == level && this.coverImageUrl == coverImageUrl && this.isUnlocked == isUnlocked
      ensures createdAt == now && updatedAt == now
      ensures sentences == []
    {
      this.id := id;
      this.title := title;
      this.storyDescription := storyDescription;
      this.level := level;
      this.coverImageUrl := coverImageUrl;
      this.isUnlocked := isUnlocked;
      this.createdAt := now;
      this.updatedAt := now;
      sentences := [];
    }

    /** `story.sentences.append(sentence)`. */
    method AppendSentence(s: Sentence)
      modifies this
      ensures sentences == old(sentences) + [s]
    {
      sentences := sentences + [s];
    }
  }

  /** Every sentence in `xs` was created at clock reading `now`. */
  predicate SentencesStamped(xs: seq<Sentence>, now: Time) {
    forall k :: 0 <= k < |xs| ==> xs[k].createdAt == now && xs[k].updatedAt == now
  }

  /** Every story in `xs` was created at clock reading `now`. */
  predicate StoriesStamped(xs: seq<Story>, now: Time) {
    forall k :: 0 <= k < |xs| ==> xs[k].createdAt == now && xs[k].updatedAt == now
  }

  /** The sentences the stories in `ss` own, story by story, each in its list order. */
  ghost function Owned(ss: seq<Story>): seq<Sentence>
    reads ss
  {
    if ss == [] then [] else Owned(ss[..|ss| - 1]) + ss[|ss| - 1].sentences
  }

  /** A sentence is owned by `ss` exactly when some story in `ss` lists it. */
  lemma {:induction false} OwnedMembers(ss: seq<Story>)
    ensures forall k, x :: 0 <= k < |ss| && x in ss[k].sentences ==> x in Owned(ss)
    ensures forall x :: x in Owned(ss) ==> exists k :: 0 <= k < |ss| && x in ss[k].sentences
  {
    if ss != [] {
      var init := ss[..|ss| - 1];
      OwnedMembers(init);
      forall k, x | 0 <= k < |ss| && x in ss[k].sentences ensures x in Owned(ss) {
        if k < |init| {
          assert ss[k] == init[k];
        }
      }
      forall x | x in Owned(ss) ensures exists k :: 0 <= k < |ss| && x in ss[k].sentences {
        if x in Owned(init) {
          var k :| 0 <= k < |init| && x in init[k].sentences;
          assert ss[k] == init[k];
        } else {
          assert x in ss[|ss| - 1].sentences;
        }
      }
    }
  }

  // ---------------------------------------------------------------------------
  // Abstract values of the records (everything but identity and timestamps).

  datatype SentenceRecord = SentenceRecord(
    id: string, text: string, words: seq<string>, answerPositions: seq<int>,
    storyId: string, order: int, imageUrl: Option<string>)

  datatype StoryRecord = StoryRecord(
    id: string, title: string, storyDescription: string, level: int,
    coverImageUrl: Option<string>, isUnlocked: bool, sentences: seq<SentenceRecord>)

  function SentenceValue(s: Sentence): SentenceRecord {
    SentenceRecord(s.id, s.text, s.words, s.answerPositions, s.storyId, s.order, s.imageUrl)
  }

  function SentenceValues(ss: seq<Sentence>): (r: seq<SentenceRecord>)
    ensures |r| == |ss|
    ensures forall k :: 0 <= k < |ss| ==> r[k] == SentenceValue(ss[k])
  {
    if ss == [] then [] else [SentenceValue(ss[0])] + SentenceValues(ss[1..])
  }

  function StoryValue(s: Story): StoryRecord
    reads s
  {
    StoryRecord(s.id, s.title, s.storyDescription, s.level, s.coverImageUrl, s.isUnlocked,
                SentenceValues(s.sentences))
  }

  function StoryValues(ss: seq<Story>): (r: seq<StoryRecord>)
    reads ss
    ensures |r| == |ss|
    ensures forall k :: 0 <= k < |ss| ==> r[k] == StoryValue(ss[k])
  {
    if ss == [] then [] else [StoryValue(ss[0])] + StoryValues(ss[1..])
  }

  lemma {:induction false} SentenceValuesAppend(xs: seq<Sentence>, ys: seq<Sentence>)
    ensures SentenceValues(xs + ys) == SentenceValues(xs) + SentenceValues(ys)
  {
    var l, r := SentenceValues(xs + ys), SentenceValues(xs) + SentenceValues(ys);
    forall k | 0 <= k < |l| ensures l[k] == r[k] {
      if k < |xs| {
        assert (xs + ys)[k] == xs[k];
      } else {
        assert (xs + ys)[k] == ys[k - |xs|];
      }
    }
  }

  lemma {:induction false} StoryValuesAppend(ss: seq<Story>, ts: seq<Story>)
    ensures StoryValues(ss + ts) == StoryValues(ss) + StoryValues(ts)
  {
    if ss == [] {
      assert ss + ts == ts;
    } else {
      assert (ss + ts)[1..] == ss[1..] + ts;
      StoryValuesAppend(ss[1..], ts);
    }
  }
}
