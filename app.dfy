/**
 * The start-up reconcile of `HanziStepsApp`: `initializeDefaultData` fetches
 * every story and every sentence; when both lists are empty it seeds the store
 * from the bundled asset, and otherwise it deletes everything it fetched,
 * commits, and seeds again.  A throwing fetch or commit jumps to the catch,
 * which only logs.  Which calls throw is an input.
 */
module App {
  import opened Records
  import opened Context
  import opened DataManager

  /** Which of the throwing calls of one reconcile run throw. */
  datatype Faults = Faults(
    storyFetchFails: bool,     // `context.fetch(FetchDescriptor<Story>())`
    sentenceFetchFails: bool,  // `context.fetch(FetchDescriptor<Sentence>())`
    commitFails: bool,         // `context.save()` after the deletions
    seedSaveFails: bool)       // the `save()` inside `initializeLocalData`, caught there

  /** No fault at all. */
  const NoFaults := Faults(false, false, false, false)

  /** What the context holds and whether it has uncommitted changes. */
  datatype Snapshot = Snapshot(value: StoreValue, hasChanges: bool)

  /**
   * The outcome of one reconcile run from `s` with the decoded list `ds`:
   * a failed fetch leaves everything as it was; an empty store is seeded
   * (which with nothing decoded changes nothing); a non-empty store is emptied,
   * and after a successful commit reseeded, while a failed commit leaves the
   * deletions pending and skips the reseed.  So the store ends as it was,
   * empty, or the mirror of the decoded list, and changes stay pending only
   * when they were pending before or a save threw.
   */
  function Reconcile(s: Snapshot, ds: seq<StoryData>, f: Faults): (r: Snapshot)
    ensures r.value == s.value || r.value == Empty || r.value == Mirror(ds)
    ensures r.hasChanges ==> s.hasChanges || f.commitFails || f.seedSaveFails
  {
    if f.storyFetchFails || f.sentenceFetchFails then s
    else if s.value == Empty then
      if ds == [] then s else Snapshot(Mirror(ds), f.seedSaveFails)
    else if f.commitFails then Snapshot(Empty, true)
    else Snapshot(Mirror(ds), ds != [] && f.seedSaveFails)
  }

  // ---------------------------------------------------------------------------
  // The deletions.

  /**
   * One pass of the story loop: deletes the first fetched story, which is still
   * held, and by the cascade rule exactly the sentences it owns.
   */
  method DeleteFirstStory(context: ModelContext)
    requires context.Valid() && context.stories != []
    modifies context
    ensures context.Valid()
    ensures context.stories == old(context.stories)[1..]
    ensures context.sentences == Without(old(context.sentences), set x | x in old(context.stories)[0].sentences)
    ensures context.hasChanges
  {
    WithoutHead(context.stories);
    context.DeleteStory(context.stories[0]);
  }

  /**
   * `for story in existingStories { context.delete(story) }`, with the fetched
   * stories: every story goes, and with them exactly the sentences they own.
   */
  method DeleteStories(context: ModelContext, ss: seq<Story>)
    requires context.Valid() && context.stories == ss
    modifies context
    ensures context.Valid()
    ensures context.stories == []
    ensures forall x :: x in context.sentences ==> x in old(context.sentences)
    ensures forall k, x :: 0 <= k < |ss| && x in ss[k].sentences ==> x !in context.sentences
    ensures forall x :: x in old(context.sentences) && (forall k :: 0 <= k < |ss| ==> x !in ss[k].sentences) ==>
              x in context.sentences
    ensures context.sentences == old(context.sentences) || context.hasChanges
    ensures context.hasChanges == (old(context.hasChanges) || ss != [])
  {
    ghost var x0, h0 := context.sentences, context.hasChanges;
    var i := 0;
    while i < |ss|
      invariant 0 <= i <= |ss|
      invariant context.Valid()
      invariant context.stories == ss[i..]
      invariant forall x :: x in context.sentences ==> x in x0
      invariant forall k, x :: 0 <= k < i && x in ss[k].sentences ==> x !in context.sentences
      invariant forall x :: x in x0 && (forall k :: 0 <= k < i ==> x !in ss[k].sentences) ==> x in context.sentences
      invariant context.sentences == x0 || context.hasChanges
      invariant context.hasChanges == (h0 || i > 0)
    {
      assert ss[i..][0] == ss[i] && ss[i..][1..] == ss[i + 1..];
      DeleteFirstStory(context);
      i := i + 1;
    }
  }

  /** `for sentence in existingSentences { context.delete(sentence) }`, with the fetched sentences. */
  method DeleteSentences(context: ModelContext, xs: seq<Sentence>)
    requires context.Valid()
    requires forall x :: x in context.sentences ==> x in xs
    modifies context
    ensures context.Valid()
    ensures context.stories == old(context.stories)
    ensures context.sentences == []
    ensures context.hasChanges == (old(context.hasChanges) || old(context.sentences) != [])
  {
    ghost var x0, h0 := context.sentences, context.hasChanges;
    var j := 0;
    while j < |xs|
      invariant 0 <= j <= |xs|
      invariant context.Valid()
      invariant context.stories == old(context.stories)
      invariant forall x :: x in context.sentences ==> x in xs[j..]
      invariant (context.sentences == x0 && context.hasChanges == h0) || (x0 != [] && context.hasChanges)
      invariant context.hasChanges ==> h0 || x0 != []
    {
      if xs[j] !in context.sentences {
        WithoutAbsent(context.sentences, {xs[j]});
      }
      context.DeleteSentence(xs[j]);
      forall x | x in context.sentences ensures x in xs[j + 1..] {
        var k :| j <= k < |xs| && xs[k] == x;
        assert k != j;
      }
      j := j + 1;
    }
    assert xs[j..] == [];
    EmptyWithoutMembers(context.sentences);
  }

  // ---------------------------------------------------------------------------
  // The reconcile.

  /**
   * `initializeLocalData` on a store that holds nothing: the store becomes the
   * mirror of what is loaded, every record in it stamped `now` and none of the
   * records in `earlierStories`/`earlierSentences`, and the sentences it holds
   * are exactly those its stories own.
   */
  method SeedEmptyStore(context: ModelContext, asset: Asset, now: Time, saveFails: bool,
                        ghost earlierStories: set<Story>, ghost earlierSentences: set<Sentence>)
    requires context.Valid() && context.stories == [] && context.sentences == []
    modifies context
    ensures context.Valid()
    ensures context.Value() == Mirror(LoadLocalStories(asset))
    ensures context.hasChanges == if LoadLocalStories(asset) == [] then old(context.hasChanges) else saveFails
    ensures forall x :: x in context.stories ==> x !in earlierStories && x.createdAt == now && x.updatedAt == now
    ensures forall x :: x in context.sentences ==> x !in earlierSentences && x.createdAt == now && x.updatedAt == now
    ensures context.sentences == Owned(context.stories)
  {
    assert context.Value() == Empty;
    ghost var made, madeSentences := InitializeLocalData(context, asset, now, saveFails, earlierStories, earlierSentences);
    SeededIdentities(Empty, LoadLocalStories(asset));
    assert context.stories == made && context.sentences == madeSentences;
  }

  /**
   * `initializeDefaultData`: the new snapshot is `Reconcile` of the old one,
   * and no record is held twice.  When both fetches succeed, every record held
   * is new and stamped `now`, and the sentences held are exactly the ones the
   * held stories own.
   */
  method InitializeDefaultData(context: ModelContext, asset: Asset, now: Time, f: Faults)
    requires context.Valid()
    modifies context
    ensures context.Valid()
    ensures Snapshot(context.Value(), context.hasChanges) ==
              Reconcile(Snapshot(old(context.Value()), old(context.hasChanges)), LoadLocalStories(asset), f)
    ensures !f.storyFetchFails && !f.sentenceFetchFails ==>
              forall x :: x in context.stories ==>
                x !in old(context.stories) && x.createdAt == now && x.updatedAt == now
    ensures !f.storyFetchFails && !f.sentenceFetchFails ==>
              forall x :: x in context.sentences ==>
                x !in old(context.sentences) && x.createdAt == now && x.updatedAt == now
    ensures !f.storyFetchFails && !f.sentenceFetchFails ==> context.sentences == Owned(context.stories)
  {
    ghost var earlierStories := set x | x in context.stories;
    ghost var earlierSentences := set x | x in context.sentences;
    if f.storyFetchFails {
      return;
    }
    var existingStories := context.stories;
    if f.sentenceFetchFails {
      return;
    }
    var existingSentences := context.sentences;
    if existingStories == [] && existingSentences == [] {
      SeedEmptyStore(context, asset, now, f.seedSaveFails, earlierStories, earlierSentences);
    } else {
      assert context.Value() != Empty by {
        assert |context.Value().stories| == |existingStories|;
        assert |context.Value().sentences| == |existingSentences|;
      }
      DeleteStories(context, existingStories);
      DeleteSentences(context, existingSentences);
      var committed := context.Save(f.commitFails);
      if !committed {
        return;
      }
      SeedEmptyStore(context, asset, now, f.seedSaveFails, earlierStories, earlierSentences);
    }
  }

  // ---------------------------------------------------------------------------
  // Properties of the reconcile.

  /** Empty store, nothing decoded: the store stays empty, whatever throws. */
  lemma EmptyStaysEmpty(h: bool, f: Faults)
    ensures Reconcile(Snapshot(Empty, h), [], f) == Snapshot(Empty, h)
  {
  }

  /** A throwing fetch changes nothing: no deletion and no seeding. */
  lemma FetchFailureChangesNothing(s: Snapshot, ds: seq<StoryData>, f: Faults)
    requires f.storyFetchFails || f.sentenceFetchFails
    ensures Reconcile(s, ds, f) == s
  {
  }

  /** A throwing commit skips the reseed: the store is left empty with the deletions pending. */
  lemma CommitFailureSkipsReseed(s: Snapshot, ds: seq<StoryData>, f: Faults)
    requires !f.storyFetchFails && !f.sentenceFetchFails && f.commitFails
    requires s.value != Empty
    ensures Reconcile(s, ds, f) == Snapshot(Empty, true)
  {
  }

  /**
   * With both fetches and the commit succeeding the store ends as the exact
   * mirror of the decoded list, whatever it held before: one record per
   * decoded story and per decoded sentence, nothing left over.
   */
  lemma ReconcileMirrors(s: Snapshot, ds: seq<StoryData>, f: Faults)
    requires !f.storyFetchFails && !f.sentenceFetchFails && !f.commitFails
    ensures Reconcile(s, ds, f).value == Mirror(ds)
    ensures |Reconcile(s, ds, f).value.stories| == |ds|
    ensures |Reconcile(s, ds, f).value.sentences| == TotalSentences(ds)
  {
    MirrorCounts(ds);
  }

  /** A non-empty store with nothing decoded ends empty. */
  lemma NothingDecodedEmptiesStore(s: Snapshot, f: Faults)
    requires !f.storyFetchFails && !f.sentenceFetchFails
    requires s.value != Empty
    ensures Reconcile(s, [], f).value == Empty
  {
  }

  /** Running the reconcile twice holds the same records as running it once. */
  lemma ReconcileIdempotent(s: Snapshot, ds: seq<StoryData>, f: Faults)
    requires !f.storyFetchFails && !f.sentenceFetchFails && !f.commitFails
    ensures Reconcile(Reconcile(s, ds, f), ds, f).value == Reconcile(s, ds, f).value
  {
    ReconcileMirrors(s, ds, f);
    ReconcileMirrors(Reconcile(s, ds, f), ds, f);
  }

  /** An empty store is seeded without any deletion: it ends as the mirror. */
  lemma EmptyStoreSeeded(h: bool, ds: seq<StoryData>, f: Faults)
    requires !f.storyFetchFails && !f.sentenceFetchFails
    ensures Reconcile(Snapshot(Empty, h), ds, f).value == Mirror(ds)
  {
  }
}
