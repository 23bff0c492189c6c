/**
 * DataManager.swift: the decoded shape of the bundled `stories.json`, the
 * loader that turns every failure into an empty list, and the seeding routine
 * `initializeLocalData`, which builds one Story per decoded story, gives it one
 * Sentence per decoded sentence, inserts it and saves.
 */
module DataManager {
  import opened Optional
  import opened Records
  import opened Context

  /** One decoded sentence; it carries no story id. */
  datatype SentenceData = SentenceData(
    id: string, text: string, words: seq<string>, answerPositions: seq<int>,
    order: int, imageUrl: Option<string>)

  /** One decoded story with its sentences in file order. */
  datatype StoryData = StoryData(
    id: string, title: string, storyDescription: string, level: int,
    coverImageUrl: Option<string>, isUnlocked: bool, sentences: seq<SentenceData>)

  /**
   * What reading the bundled asset can come to: the file is not in the bundle,
   * its bytes cannot be read, they do not decode as `[StoryData]`, or they do.
   */
  datatype Asset = Missing | Unreadable | Malformed | Decoded(stories: seq<StoryData>)

  /** `loadLocalStories`: the decoded list, and the empty list on every failure. */
  function LoadLocalStories(asset: Asset): (r: seq<StoryData>)
    ensures r == [] <==> !asset.Decoded? || asset.stories == []
    ensures asset.Decoded? ==> r == asset.stories
  {
    match asset
    case Missing => []
    case Unreadable => []
    case Malformed => []
    case Decoded(stories) => stories
  }

  // ---------------------------------------------------------------------------
  // What seeding produces, as values.

  /** The record made for decoded sentence `d` of the story with id `storyId`. */
  function SentenceFrom(d: SentenceData, storyId: string): SentenceRecord {
    SentenceRecord(d.id, d.text, d.words, d.answerPositions, storyId, d.order, d.imageUrl)
  }

  /** The record made for decoded story `d`, owning one record per decoded sentence. */
  function StoryFrom(d: StoryData): (r: StoryRecord)
    ensures |r.sentences| == |d.sentences|
    ensures forall k :: 0 <= k < |d.sentences| ==> r.sentences[k] == SentenceFrom(d.sentences[k], d.id)
  {
    StoryRecord(d.id, d.title, d.storyDescription, d.level, d.coverImageUrl, d.isUnlocked,
                seq(|d.sentences|, k requires 0 <= k < |d.sentences| => SentenceFrom(d.sentences[k], d.id)))
  }

  /** The story records seeded from `ds`, in input order. */
  function SeedStories(ds: seq<StoryData>): seq<StoryRecord> {
    seq(|ds|, i requires 0 <= i < |ds| => StoryFrom(ds[i]))
  }

  /** The sentence records seeded from `ds`: each story's sentences in turn. */
  function SeedSentences(ds: seq<StoryData>): seq<SentenceRecord> {
    if ds == [] then [] else SeedSentences(ds[..|ds| - 1]) + StoryFrom(ds[|ds| - 1]).sentences
  }

  /** The number of sentences over all decoded stories. */
  function TotalSentences(ds: seq<StoryData>): nat {
    if ds == [] then 0 else TotalSentences(ds[..|ds| - 1]) + |ds[|ds| - 1].sentences|
  }

  /** The store contents that exactly mirror the decoded stories. */
  function Mirror(ds: seq<StoryData>): StoreValue {
    StoreValue(SeedStories(ds), SeedSentences(ds))
  }

  /** The store contents after seeding `v` with `ds`: `v` kept, the mirror appended. */
  function Seeded(v: StoreValue, ds: seq<StoryData>): StoreValue {
    StoreValue(v.stories + SeedStories(ds), v.sentences + SeedSentences(ds))
  }

  /** One story record per decoded story, and as many sentence records as there are decoded sentences. */
  lemma {:induction false} MirrorCounts(ds: seq<StoryData>)
    ensures |Mirror(ds).stories| == |ds|
    ensures |Mirror(ds).sentences| == TotalSentences(ds)
  {
    if ds != [] {
      MirrorCounts(ds[..|ds| - 1]);
    }
  }

  /**
   * Sentence `k` of story `i` lands at position `TotalSentences(ds[..i]) + k` of
   * the seeded sentences, and its story id is that of story `i`.
   */
  lemma {:induction false} SeedSentenceAt(ds: seq<StoryData>, i: nat, k: nat)
    requires i < |ds| && k < |ds[i].sentences|
    ensures TotalSentences(ds[..i]) + k < |SeedSentences(ds)|
    ensures SeedSentences(ds)[TotalSentences(ds[..i]) + k] == SentenceFrom(ds[i].sentences[k], ds[i].id)
    ensures SeedSentences(ds)[TotalSentences(ds[..i]) + k].storyId == ds[i].id
    decreases |ds|
  {
    var init := ds[..|ds| - 1];
    MirrorCounts(init);
    if i == |ds| - 1 {
      assert init == ds[..i];
    } else {
      SeedSentenceAt(init, i, k);
      assert init[..i] == ds[..i];
    }
  }

  /** Every seeded sentence belongs to some decoded story, and carries that story's id. */
  lemma {:induction false} SeededSentenceHasParent(ds: seq<StoryData>, x: SentenceRecord)
    requires x in SeedSentences(ds)
    ensures exists i :: 0 <= i < |ds| && x.storyId == ds[i].id && x in StoryFrom(ds[i]).sentences
    decreases |ds|
  {
    var init := ds[..|ds| - 1];
    if x in SeedSentences(init) {
      SeededSentenceHasParent(init, x);
      var i :| 0 <= i < |init| && x.storyId == init[i].id && x in StoryFrom(init[i]).sentences;
      assert ds[i] == init[i];
    } else {
      var last := |ds| - 1;
      var k :| 0 <= k < |StoryFrom(ds[last]).sentences| && StoryFrom(ds[last]).sentences[k] == x;
      assert x.storyId == ds[last].id;
    }
  }

  /** Seeding one more story appends exactly its record and its sentences. */
  lemma SeedSnoc(ds: seq<StoryData>, i: nat)
    requires i < |ds|
    ensures SeedStories(ds[..i + 1]) == SeedStories(ds[..i]) + [StoryFrom(ds[i])]
    ensures SeedSentences(ds[..i + 1]) == SeedSentences(ds[..i]) + StoryFrom(ds[i]).sentences
  {
    assert ds[..i + 1][..i] == ds[..i];
  }

  /** Seeding one more decoded story appends its record and its sentence records to the seeded value. */
  lemma SeededSnoc(v: StoreValue, ds: seq<StoryData>, i: nat)
    requires i < |ds|
    ensures Seeded(v, ds[..i + 1]) ==
              StoreValue(Seeded(v, ds[..i]).stories + [StoryFrom(ds[i])],
                         Seeded(v, ds[..i]).sentences + StoryFrom(ds[i]).sentences)
  {
    SeedSnoc(ds, i);
    AppendAssoc(v.stories, SeedStories(ds[..i]), [StoryFrom(ds[i])]);
    AppendAssoc(v.sentences, SeedSentences(ds[..i]), StoryFrom(ds[i]).sentences);
  }

  /** Two runs of sentences stamped `now` make one. */
  lemma StampedAppend(xs: seq<Sentence>, ys: seq<Sentence>, now: Time)
    requires SentencesStamped(xs, now) && SentencesStamped(ys, now)
    ensures SentencesStamped(xs + ys, now)
  {
    forall k | 0 <= k < |xs + ys| ensures (xs + ys)[k].createdAt == now && (xs + ys)[k].updatedAt == now {
      if k >= |xs| {
        assert (xs + ys)[k] == ys[k - |xs|];
      }
    }
  }

  /** A run of stories stamped `now` followed by one more such story. */
  lemma StoriesStampedSnoc(xs: seq<Story>, story: Story, now: Time)
    requires StoriesStamped(xs, now) && story.createdAt == now && story.updatedAt == now
    ensures StoriesStamped(xs + [story], now)
  {
    forall k | 0 <= k < |xs| + 1 ensures (xs + [story])[k].createdAt == now && (xs + [story])[k].updatedAt == now {
      if k < |xs| {
        assert (xs + [story])[k] == xs[k];
      }
    }
  }

  /** Proof helper: concatenation regroups, to restate a pass's appends against the loop invariant. */
  lemma AppendAssoc<T>(a: seq<T>, b: seq<T>, c: seq<T>)
    ensures a + b + c == a + (b + c)
  {
  }

  /**
   * Proof helper: seeding nothing leaves the store value as it was, and seeding
   * an empty store gives the mirror.
   */
  lemma SeededIdentities(v: StoreValue, ds: seq<StoryData>)
    ensures Seeded(v, []) == v
    ensures Seeded(Empty, ds) == Mirror(ds)
  {
  }

  // ---------------------------------------------------------------------------
  // The seeding routine.

  /**
   * The body of the loop over one decoded story: a fresh Story with the copied
   * scalars, owning one fresh Sentence per decoded sentence, in order, each with
   * the parent's id as its `storyId`.
   */
  method MakeStory(d: StoryData, now: Time) returns (story: Story)
    ensures fresh(story) && StoryValue(story) == StoryFrom(d)
    ensures story.createdAt == now && story.updatedAt == now
    ensures NoDup(story.sentences) && SentencesStamped(story.sentences, now)
    ensures forall k :: 0 <= k < |story.sentences| ==> fresh(story.sentences[k])
  {
    story := new Story(now, d.id, d.title, d.storyDescription, d.level, d.coverImageUrl, d.isUnlocked);
    var j := 0;
    while j < |d.sentences|
      invariant 0 <= j <= |d.sentences| && |story.sentences| == j
      invariant forall k :: 0 <= k < j ==>
                  SentenceValue(story.sentences[k]) == SentenceFrom(d.sentences[k], d.id) &&
                  story.sentences[k].createdAt == now && story.sentences[k].updatedAt == now &&
                  fresh(story.sentences[k])
      invariant NoDup(story.sentences)
      modifies story
    {
      var sd := d.sentences[j];
      var sentence := new Sentence(now, sd.id, sd.text, sd.words, sd.answerPositions, d.id, sd.order, sd.imageUrl);
      story.AppendSentence(sentence);
      j := j + 1;
    }
    assert SentenceValues(story.sentences) == StoryFrom(d).sentences;
  }

  /**
   * `context.insert(story)` for a story not stored yet, whose distinct
   * sentences are not stored yet either: the story and its sentences are
   * appended, and so are their values.
   */
  method InsertNew(context: ModelContext, story: Story)
    requires context.Valid()
    requires story !in context.stories
    requires NoDup(story.sentences) && Apart(story.sentences, context.sentences)
    modifies context
    ensures context.Valid() && context.hasChanges
    ensures context.stories == old(context.stories) + [story]
    ensures context.sentences == old(context.sentences) + story.sentences
    ensures context.Value() == StoreValue(old(context.Value()).stories + [StoryValue(story)],
                                          old(context.Value()).sentences + SentenceValues(story.sentences))
  {
    AdjoinFresh(context.sentences, story.sentences);
    StoryValuesAppend(context.stories, [story]);
    SentenceValuesAppend(context.sentences, story.sentences);
    context.InsertStory(story);
  }

  /** One pass of the loop: build the Story for `d` and insert it after what is stored. */
  method InsertStoryFrom(context: ModelContext, d: StoryData, now: Time) returns (story: Story)
    requires context.Valid()
    modifies context
    ensures context.Valid() && context.hasChanges
    ensures context.stories == old(context.stories) + [story]
    ensures context.sentences == old(context.sentences) + story.sentences
    ensures fresh(story) && StoryValue(story) == StoryFrom(d)
    ensures story.createdAt == now && story.updatedAt == now
    ensures fresh(story.sentences) && SentencesStamped(story.sentences, now)
    ensures context.Value() == StoreValue(old(context.Value()).stories + [StoryFrom(d)],
                                          old(context.Value()).sentences + StoryFrom(d).sentences)
  {
    story := MakeStory(d, now);
    assert Apart(story.sentences, context.sentences);
    InsertNew(context, story);
  }

  /**
   * The invariant of the seeding loop after `i` passes: the store holds the
   * seeded value of the first `i` decoded stories; after the records `s0`/`x0`
   * held before the loop come the records `made`/`madeSentences` made so far,
   * which are stamped `now`, are none of the records in
   * `earlierStories`/`earlierSentences`, and are stories with the sentences
   * they own.
   */
  ghost predicate SeedingAfter(context: ModelContext, ds: seq<StoryData>, i: nat, now: Time,
                               v0: StoreValue, s0: seq<Story>, x0: seq<Sentence>,
                               made: seq<Story>, madeSentences: seq<Sentence>,
                               earlierStories: set<Story>, earlierSentences: set<Sentence>)
    reads context, context.stories, made
  {
    && i <= |ds| && context.Valid() && context.Value() == Seeded(v0, ds[..i])
    && context.stories == s0 + made && context.sentences == x0 + madeSentences
    && StoriesStamped(made, now) && SentencesStamped(madeSentences, now)
    && (forall x :: x in made ==> x !in earlierStories)
    && (forall x :: x in madeSentences ==> x !in earlierSentences)
    && madeSentences == Owned(made)
  }

  /** Before the first pass the invariant holds with nothing made. */
  lemma SeedingStart(context: ModelContext, ds: seq<StoryData>, now: Time,
                     earlierStories: set<Story>, earlierSentences: set<Sentence>)
    requires context.Valid()
    ensures SeedingAfter(context, ds, 0, now, context.Value(), context.stories, context.sentences, [], [],
                         earlierStories, earlierSentences)
  {
    assert ds[..0] == [];
    assert context.stories + [] == context.stories && context.sentences + [] == context.sentences;
  }

  /** After the last pass the invariant speaks of the whole decoded list. */
  lemma SeedingDone(context: ModelContext, ds: seq<StoryData>, now: Time,
                    v0: StoreValue, s0: seq<Story>, x0: seq<Sentence>,
                    made: seq<Story>, madeSentences: seq<Sentence>,
                    earlierStories: set<Story>, earlierSentences: set<Sentence>)
    requires SeedingAfter(context, ds, |ds|, now, v0, s0, x0, made, madeSentences, earlierStories, earlierSentences)
    ensures context.Valid() && context.Value() == Seeded(v0, ds)
    ensures context.stories == s0 + made && context.sentences == x0 + madeSentences
  {
    assert ds[..|ds|] == ds;
  }

  /** One pass of the loop: it inserts one more story and keeps the invariant. */
  method InsertNext(context: ModelContext, ds: seq<StoryData>, i: nat, now: Time,
                    ghost v0: StoreValue, ghost s0: seq<Story>, ghost x0: seq<Sentence>,
                    ghost made: seq<Story>, ghost madeSentences: seq<Sentence>,
                    ghost earlierStories: set<Story>, ghost earlierSentences: set<Sentence>)
    returns (story: Story)
    requires i < |ds|
    requires SeedingAfter(context, ds, i, now, v0, s0, x0, made, madeSentences, earlierStories, earlierSentences)
    modifies context
    ensures context.hasChanges
    ensures SeedingAfter(context, ds, i + 1, now, v0, s0, x0, made + [story], madeSentences + story.sentences,
                         earlierStories, earlierSentences)
  {
    story := InsertStoryFrom(context, ds[i], now);
    SeededSnoc(v0, ds, i);
    AppendAssoc(s0, made, [story]);
    AppendAssoc(x0, madeSentences, story.sentences);
    StampedAppend(madeSentences, story.sentences, now);
    StoriesStampedSnoc(made, story, now);
    assert (made + [story])[..|made|] == made;
  }

  /**
   * The loop of `initializeLocalData`: one new Story per decoded story, in
   * order, inserted after everything already stored.  Every record stored
   * before is kept in place; the records after them (`made`, `madeSentences`)
   * are stamped `now`, are none of the records the caller already had
   * (`earlierStories`, `earlierSentences`), and are the new stories with
   * exactly the sentences they own.
   */
  method InsertAll(context: ModelContext, ds: seq<StoryData>, now: Time,
                   ghost earlierStories: set<Story>, ghost earlierSentences: set<Sentence>)
    returns (ghost made: seq<Story>, ghost madeSentences: seq<Sentence>)
    requires context.Valid()
    modifies context
    ensures context.Valid()
    ensures context.Value() == Seeded(old(context.Value()), ds)
    ensures context.hasChanges == (old(context.hasChanges) || ds != [])
    ensures context.stories == old(context.stories) + made
    ensures context.sentences == old(context.sentences) + madeSentences
    ensures StoriesStamped(made, now) && SentencesStamped(madeSentences, now)
    ensures forall x :: x in made ==> x !in earlierStories
    ensures forall x :: x in madeSentences ==> x !in earlierSentences
    ensures madeSentences == Owned(made)
  {
    ghost var v0, h0 := context.Value(), context.hasChanges;
    ghost var s0, x0 := context.stories, context.sentences;
    made, madeSentences := [], [];
    SeedingStart(context, ds, now, earlierStories, earlierSentences);
    var i := 0;
    while i < |ds|
      invariant i <= |ds|
      invariant SeedingAfter(context, ds, i, now, v0, s0, x0, made, madeSentences, earlierStories, earlierSentences)
      invariant context.hasChanges == (h0 || i > 0)
    {
      var story := InsertNext(context, ds, i, now, v0, s0, x0, made, madeSentences, earlierStories, earlierSentences);
      made, madeSentences := made + [story], madeSentences + story.sentences;
      i := i + 1;
    }
    SeedingDone(context, ds, now, v0, s0, x0, made, madeSentences, earlierStories, earlierSentences);
  }

  /**
   * `initializeLocalData`: loads the asset; with nothing loaded it returns
   * without touching the store; otherwise it inserts one new Story per decoded
   * story (owning new Sentences, stamped `now`) after everything already
   * stored, never deleting or deduplicating, and then saves.  The ghost sets
   * name records the caller already had; none of the inserted records is one
   * of them.  The ghost results are the inserted stories and sentences: the
   * sentences are exactly the ones the stories own, as inserting a story
   * inserts its sentences.
   */
  method InitializeLocalData(context: ModelContext, asset: Asset, now: Time, saveFails: bool,
                             ghost earlierStories: set<Story>, ghost earlierSentences: set<Sentence>)
    returns (ghost made: seq<Story>, ghost madeSentences: seq<Sentence>)
    requires context.Valid()
    modifies context
    ensures context.Valid()
    ensures context.Value() == Seeded(old(context.Value()), LoadLocalStories(asset))
    ensures LoadLocalStories(asset) == [] ==> made == [] && context.hasChanges == old(context.hasChanges)
    ensures LoadLocalStories(asset) != [] ==> context.hasChanges == saveFails
    ensures context.stories == old(context.stories) + made
    ensures context.sentences == old(context.sentences) + madeSentences
    ensures madeSentences == Owned(made)
    ensures StoriesStamped(made, now) && SentencesStamped(madeSentences, now)
    ensures forall x :: x in made ==> x !in earlierStories
    ensures forall x :: x in madeSentences ==> x !in earlierSentences
  {
    var stories := LoadLocalStories(asset);
    if stories == [] {
      return [], [];
    }
    made, madeSentences := InsertAll(context, stories, now, earlierStories, earlierSentences);
    var _ := context.Save(saveFails);
  }
}
