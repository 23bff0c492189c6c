# HanziSteps content store, reader paging and drop grid, in Dafny

HanziSteps is a SwiftUI app for reading graded Chinese stories. This project
models three parts of it and proves properties about them.

- **The content store and the start-up reconcile** (`records.dfy`,
  `context.dfy`, `data_manager.dfy`, `app.dfy`):
  - `Story` owns an ordered list of `Sentence`. Deleting a story cascades to
    its sentences.
  - `ModelContext` is a class. It holds the stories and sentences that a
    fetch returns, and whether it has uncommitted changes. Its operations are
    insert, delete (cascading from a story) and save.
  - `DataManager.InitializeLocalData` turns the decoded `StoryData` /
    `SentenceData` values into fresh records and inserts them in order.
  - `App.InitializeDefaultData` is the reconcile. If both fetches come back
    empty, it seeds. Otherwise it deletes every fetched story and sentence,
    commits, and seeds again.
  - Each operation is proved against a value-level specification (`Seeded`,
    `Mirror`, `Reconcile`). The properties are proved about those functions.
- **Page navigation of the story reader** (`story_reader.dfy`):
  - the story looked up by id;
  - its sentences sorted by `order`;
  - the guarded current-sentence lookup;
  - the clamped previous/next index updates and the two button-disabled
    predicates;
  - a replay of button taps, which shows the index always stays on a shown
    page.
- **The drop grid of the learning view** (`learning_view.dfy`):
  - `DropDelegate` writes the dragged word into one cell of the grid, or
    clears that cell;
  - `onAppear` lays out the grid and cards;
  - `setupPreviewData` inserts a test sentence into an empty store.

Modelling choices:

- **Inputs.**
  - The clock is a parameter `now`.
  - What the bundled asset decodes to is the `Asset` datatype: missing,
    unreadable, malformed, or a decoded list.
  - Whether each throwing call throws is a parameter: the `saveFails` flag,
    and the `Faults` record of the reconcile.
- **Fetch and query results.**
  - A fetch returns records in insertion order.
  - A `@Query` result is the context's list at the time of the call.
  - In `onAppear`, the query is read as it stood when the closure started. The
    sentence inserted by `setupPreviewData` is therefore not laid out in the
    same call.
- **Records.**
  - Scalar record fields are `const`, because nothing in the modelled code
    writes them after `init`.
  - `Story.sentences` is the one field that is changed in place.
  - A record's value (`SentenceRecord`, `StoryRecord`) is everything except
    identity and timestamps.
- **The context.** Its invariant is that no record is held twice. A failed
  save keeps the changes pending.
- **New records.** The seeding methods take two ghost sets: the stories and
  sentences the caller already holds. That a record is newly made is stated
  as "none of those earlier records", together with its clock stamps. The
  reconcile passes the records it holds on entry. That the sentences held are
  the very objects the held stories own is stated with `Owned`, the
  concatenation of the stories' `sentences` lists.

## Model

| member | source | states |
|---|---|---|
| Records.Sentence.constructor | HanziSteps/Sentence.swift:23-33 | every argument is stored unchanged, words and answer positions included with their length and order, with no check between them; `imageUrl` defaults to none; both timestamps are the clock reading |
| Records.Story.constructor | HanziSteps/Story.swift:22-33 | id, title, description, level, cover and unlocked flag are stored unchanged; the cover defaults to none and the unlocked flag to true; both timestamps are the clock reading; the story owns no sentences yet |
| Records.Story.AppendSentence | HanziSteps/DataManager.swift:73 | the sentence list grows by exactly the appended sentence at its end |
| Records.OwnedMembers | HanziSteps/Story.swift:22 | a sentence is among those a list of stories owns exactly when one of the stories lists it in its `sentences` |
| Context.ModelContext.InsertStory | HanziSteps/DataManager.swift:76 | the story is registered once, and so is every sentence it owns; records already held are not duplicated; changes are pending |
| Context.ModelContext.InsertSentence | HanziSteps/LearningView.swift:136 | the sentence is registered once; stories are untouched; changes are pending |
| Context.ModelContext.DeleteStory | HanziSteps/Story.swift:22 | the story is removed and, by the cascade rule, so is every sentence in its `sentences` list; nothing else is removed; changes are pending exactly when something was removed |
| Context.ModelContext.DeleteSentence | HanziSteps/HanziStepsApp.swift:66-68 | exactly that sentence is removed; stories are untouched; changes are pending exactly when it was there |
| Context.ModelContext.Save | HanziSteps/HanziStepsApp.swift:69 | it succeeds exactly when it does not throw; on success nothing is pending; on failure the pending changes are kept; contents are unchanged |
| DataManager.LoadLocalStories | HanziSteps/DataManager.swift:17-39 | a missing, unreadable or malformed asset gives the same empty list as an asset holding `[]`; a decoded asset gives its list unchanged |
| DataManager.StoryFrom | HanziSteps/DataManager.swift:52-72 | the record of a decoded story has one sentence record per decoded sentence, in the same order, each a verbatim copy whose story id is the parent's id |
| DataManager.MirrorCounts | HanziSteps/DataManager.swift:51-78 | seeding makes exactly one story record per decoded story, and as many sentence records as the sum of the stories' sentence counts |
| DataManager.SeedSentenceAt | HanziSteps/DataManager.swift:63-74 | sentence k of story i lands at position (sentences of stories before i) + k of the seeded sentence list, copied verbatim with the story's id |
| DataManager.SeededSentenceHasParent | HanziSteps/DataManager.swift:69 | every seeded sentence carries the id of a decoded story that lists it |
| DataManager.MakeStory | HanziSteps/DataManager.swift:52-74 | builds a fresh story with the copied scalars, owning one fresh, distinct sentence per decoded sentence, in order, each stamped with the clock reading |
| DataManager.InsertNew | HanziSteps/DataManager.swift:76 | inserting a new story with new sentences appends the story and its sentences, and appends their values to the store's value |
| DataManager.InsertStoryFrom | HanziSteps/DataManager.swift:51-77 | one pass of the loop appends exactly the record of the decoded story, and its sentence records, after everything stored; the new story and its sentences are fresh and stamped with the clock reading |
| DataManager.InsertNext | HanziSteps/DataManager.swift:51-77 | one pass keeps the loop's invariant: the store holds the seeded value of one more decoded story; the records held before the loop are still its prefix; the records made so far grow by one story and exactly the sentences it owns, all stamped with the clock reading and none of them an earlier record |
| DataManager.InsertAll | HanziSteps/DataManager.swift:50-77 | after the loop the store's value is the old value followed by the mirror of the input, so nothing is deleted or deduplicated; the old records stay, in place, as a prefix; the appended records are new, stamped with the clock reading, and the appended sentences are exactly those the appended stories own; changes are pending once anything was inserted |
| DataManager.InitializeLocalData | HanziSteps/DataManager.swift:41-85 | an empty load leaves the store and its pending flag untouched; otherwise the old records are kept as a prefix (nothing is deleted), and after them come new records, stamped with the clock reading, whose value is the mirror of the input and whose sentences are exactly those the new stories own; then it saves, and a failing save leaves the changes pending |
| App.DeleteFirstStory | HanziSteps/HanziStepsApp.swift:64 | deleting the next fetched story removes exactly that story from the front of the list and, by the cascade, exactly the sentences it owns; changes are pending |
| App.DeleteStories | HanziSteps/HanziStepsApp.swift:63-65 | deleting every fetched story empties the story list; the cascade removes every sentence owned by one of them and keeps every other sentence; changes are pending when a story was deleted |
| App.DeleteSentences | HanziSteps/HanziStepsApp.swift:66-68 | deleting every fetched sentence (some already removed by the cascade) empties the sentence list and leaves the stories alone |
| App.Reconcile | HanziSteps/HanziStepsApp.swift:44-79 | the store ends as it was, empty, or the mirror of the decoded list; changes stay pending only when they were pending before or a save threw |
| App.SeedEmptyStore | HanziSteps/HanziStepsApp.swift:55-74 | seeding a store that holds nothing makes it the mirror of the loaded list, every record in it new and stamped with the clock reading, and the sentences it holds exactly those its stories own |
| App.InitializeDefaultData | HanziSteps/HanziStepsApp.swift:44-79 | the new contents and pending flag are `Reconcile` of the old ones: a failed fetch changes nothing; an empty store is seeded; a non-empty one is emptied, and after a successful commit reseeded; when both fetches succeed, none of the stories and sentences held before is held after, every record held is stamped with the clock reading, and the sentences held are exactly those the held stories own; no record is held twice |
| App.FetchFailureChangesNothing | HanziSteps/HanziStepsApp.swift:51-53 | when either fetch throws, nothing is deleted and nothing is seeded |
| App.EmptyStaysEmpty | HanziSteps/HanziStepsApp.swift:55-57 | an empty store with nothing decoded stays empty, whatever throws |
| App.EmptyStoreSeeded | HanziSteps/HanziStepsApp.swift:55-58 | an empty store is seeded without deleting anything and ends as the mirror of the input |
| App.CommitFailureSkipsReseed | HanziSteps/HanziStepsApp.swift:69-78 | when the commit of the deletions throws, the reseed is skipped: the store is left empty with the deletions pending |
| App.ReconcileMirrors | HanziSteps/HanziStepsApp.swift:59-74 | with fetches and commit succeeding, the store ends as the exact mirror of the input, whatever it held: N stories and the sum of their sentence counts, no leftovers |
| App.NothingDecodedEmptiesStore | HanziSteps/HanziStepsApp.swift:63-73 | a non-empty store ends empty when nothing is decoded |
| App.ReconcileIdempotent | HanziSteps/HanziStepsApp.swift:59-74 | running the reconcile twice holds the same records as running it once |
| StoryReader.CurrentStory | HanziSteps/StoryReaderView.swift:42-44 | there is no result exactly when no story has the id; a result is a listed story with that id |
| StoryReader.CurrentStoryIsFirst | HanziSteps/StoryReaderView.swift:43 | the result is the first story with the id: every story before it has another id |
| StoryReader.InsertByOrder | HanziSteps/StoryReaderView.swift:47 | inserting into a list sorted by `order` keeps it sorted and adds exactly the one sentence |
| StoryReader.SortByOrder | HanziSteps/StoryReaderView.swift:47 | the result is a permutation of the sentences, non-decreasing by `order` |
| StoryReader.SortedPermutationUnique | HanziSteps/StoryReaderView.swift:47 | with distinct `order` values, any two sorted permutations are equal, so the reading sequence does not depend on insertion order |
| StoryReader.SortedSentences | HanziSteps/StoryReaderView.swift:46-48 | without a matching story the list is empty; otherwise it is a permutation of the story's sentences, sorted by `order` |
| StoryReader.CurrentSentence | HanziSteps/StoryReaderView.swift:50-53 | a sentence is present exactly when the index is below the count, and it is the one at that index |
| StoryReader.PreviousIndex | HanziSteps/StoryReaderView.swift:278 | the previous index is the least index that is neither negative nor more than one page back: never below 0, never forward, and one page back from any later page |
| StoryReader.NextIndex | HanziSteps/StoryReaderView.swift:289 | the next index is the greatest index that is neither past the last page nor more than one page on; from a page of a non-empty story it stays on a page; on a story without sentences it is -1 |
| StoryReader.PreviousDisabled | HanziSteps/StoryReaderView.swift:198 | the previous button is disabled exactly when a tap would leave the index where it is |
| StoryReader.NextDisabled | HanziSteps/StoryReaderView.swift:212 | the next button is disabled exactly when a tap would not move the index forward, which on a page of the story is the last page |
| StoryReader.Press | HanziSteps/StoryReaderView.swift:190-213 | a tap from a shown page leads to a shown page, moves the index exactly when the tapped button is enabled, and never in the wrong direction |
| StoryReader.ButtonsGuardPages | HanziSteps/StoryReaderView.swift:190-213 | previous is disabled exactly on page 0; next is disabled exactly when no later page exists, which includes every story without sentences; tapping an enabled button from a shown page leads to a shown page |
| StoryReader.ReplayStaysOnPage | HanziSteps/StoryReaderView.swift:187-213 | from a shown page, any series of taps on enabled buttons keeps the index on a shown page, so the -1 of an empty story is never reached |
| StoryReader.ShownPageHasSentence | HanziSteps/StoryReaderView.swift:50-53 | on a shown page the guarded lookup is defined, and it finds a sentence exactly when the story has one |
| StoryReader.Reader.constructor | HanziSteps/StoryReaderView.swift:35 | the reader opens on page 0 |
| StoryReader.Reader.Sentence | HanziSteps/StoryReaderView.swift:50-53 | the current sentence is present exactly when the index is below the sorted count, it is one of the current story's sentences, and it is the guarded lookup in the sorted sentences of the reader's story |
| StoryReader.Reader.PreviousPage | HanziSteps/StoryReaderView.swift:271-279 | the index becomes the previous index of the old one |
| StoryReader.Reader.NextPage | HanziSteps/StoryReaderView.swift:282-290 | the index becomes the next index of the old one, for the sorted sentence count of the queried story |
| Learning.Dropped | HanziSteps/LearningView.swift:17-29 | a drop, or an entering drag, puts the dragged word into the cell and changes no other cell and not the length; with nothing dragged the grid is unchanged |
| Learning.Exited | HanziSteps/LearningView.swift:31-35 | an exiting drag leaves the cell empty exactly when it held what is dragged or was empty, otherwise keeps it, and changes nothing else |
| Learning.EnterThenExitClears | HanziSteps/LearningView.swift:25-35 | a drag that enters and then leaves a cell leaves it empty, whatever it held, and the other cells as they were |
| Learning.TestAnswerMisplaced | HanziSteps/LearningView.swift:128-135 | as written, the second answer position of the preview sentence points at `多`, not at `葉`, so the positions do not anchor the words |
| Learning.TestSentenceAnchored | HanziSteps/LearningView.swift:128-135 | with the answer of `葉` at offset 5, each answer position anchors its word in the seven-character text |
| Learning.LearningView.constructor | HanziSteps/LearningView.swift:42-44 | nothing is dragged, and there are no cells and no cards |
| Learning.LearningView.StartDrag | HanziSteps/LearningView.swift:77-80 | dragging a card makes its word the dragged word; grid and cards are unchanged |
| Learning.LearningView.SetupPreviewData | HanziSteps/LearningView.swift:125-138 | exactly one test sentence, with the answer positions `[0, 4]` as written, is inserted and stamped with the clock reading, and only when no sentence is stored; stories are untouched; a failing save is ignored and leaves the insert pending |
| Learning.LearningView.OnAppear | HanziSteps/LearningView.swift:104-111 | the store changes as by `setupPreviewData`; with a first sentence, the cards are its words and the grid is one empty cell per character of its text; with none, grid and cards stay |
| Learning.DropDelegate.constructor | HanziSteps/LearningView.swift:64 | the delegate is bound to its cell index and to the view's state |
| Learning.DropDelegate.PerformDrop | HanziSteps/LearningView.swift:17-23 | the drop is accepted exactly when a word is dragged, and the grid is then the dropped grid; with nothing dragged the cell is not read; the dragged word and cards are unchanged |
| Learning.DropDelegate.DropEntered | HanziSteps/LearningView.swift:25-29 | the grid becomes the dropped grid, so only the cell changes; with nothing dragged the cell is not read; the dragged word and cards are unchanged |
| Learning.DropDelegate.DropExited | HanziSteps/LearningView.swift:31-35 | the grid becomes the exited grid, so the cell is cleared only when it equals the dragged word |

## Left out

- Decoding `stories.json` (JSON, `Codable`) and reading the bundle are not modelled. What they produce is the input `Asset`.
- Logging (`print`), text-to-speech (`speakSentence`, and the synthesizer stop in `previousPage`/`nextPage`), `calculateFontSize`, `goBack`/`dismiss` and all view layout are left out. None of them changes the modelled state.
- `syncRemoteData` (an empty stub), `Item.swift`, `Persistence.swift` and `ContentView.swift` are not part of this model.
- The `Task` that schedules the reconcile on the main actor is not modelled. Neither is the `fatalError` when the container cannot be created. The reconcile is modelled as one call with no concurrent access.
- The durable store is not modelled apart from the context. A save is a commit that succeeds or throws. The flag `hasChanges` says whether changes are still pending. SwiftData's autosave is not modelled.
- Context.ModelContext.DeleteSentence: when a deleted sentence is still listed in a story's `sentences`, that list is left as it was. SwiftData would nullify the relationship. In the reconcile every story is deleted first, so this never shows.
- Fetch order is insertion order. SwiftData does not promise an order for a fetch without a sort descriptor.
- `Date()` is read twice in each `init`. Both readings are modelled as the same `now`.
- StoryReader.SortByOrder is a stable insertion sort, as Swift's `sorted(by:)` is. The contract states a permutation that is non-decreasing by `order`, and not the relative order of sentences with equal `order`. Stability would keep them in the order of the story's `sentences` array. SwiftData does not keep the order of a to-many relationship in the store, so for tied sentences that input order is not defined either.
- `text.count` counts grapheme clusters. It is modelled as the number of characters of the string. The two agree on the single-character Chinese text used here.
- Swift's `Int` is 64 bits wide. The model uses unbounded integers, since `count - 1` and `index + 1` cannot overflow for a list held in memory.
- StoryReader.Reader.NextPage: the count is that of the queried story at the time of the tap. A query result that changes between taps is not modelled.
- StoryReader.CurrentSentence: it requires the index not to be negative when it is below the count. In the source, `nextPage` on a story without sentences sets the index to `min(-1, index + 1)` = -1 (StoryReaderView.swift:289). Then `sortedSentences[-1]` at StoryReaderView.swift:52 traps. The lookup for that index is not modelled. StoryReader.ReplayStaysOnPage shows that taps on enabled buttons never reach -1: the next button is disabled on such a story (StoryReaderView.swift:212). StoryReader.Reader.NextPage has no such guard. Called directly on an empty story, it sets the index to -1, and the model then cannot take the lookup.
- Freshness of seeded records is stated as "none of the records the caller held before", plus the clock stamps, and not with Dafny's `fresh`. A reconcile run sees only the records it fetched.

## Findings

| source | as written | input that shows it | evidently intended | confidence | as-written member | corrected member |
|---|---|---|---|---|---|---|
| HanziSteps/LearningView.swift:132 | the preview sentence `樹上有許多葉子` has answer positions `[0, 4]` for the words `["樹", "葉"]` | offset 4 of the text is `多`; `葉` is at offset 5 | answer positions `[0, 5]`, the character offsets where each word sits | medium, not executed (nothing in the modelled code reads `answerPositions` yet) | Learning.TestAnswerMisplaced | Learning.TestSentenceAnchored |
