/**
 * The drag-and-drop exercise of `LearningView`: a row of cells (`grid`), one
 * per character of the first sentence, a row of word cards, and the
 * `DropDelegate` of each cell, which writes the dragged word into its cell or
 * clears it.  On appearing, the view inserts a test sentence into an empty
 * store and lays out the grid and cards from the first stored sentence.
 */
module Learning {
  import opened Optional
  import opened Records
  import opened Context

  // ---------------------------------------------------------------------------
  // The drop callbacks on values.

  /** Only cell `index` may change: same length, every other cell as it was. */
  predicate OnlyCellChanged(before: seq<Option<string>>, after: seq<Option<string>>, index: int) {
    |after| == |before| && forall k :: 0 <= k < |before| && k != index ==> after[k] == before[k]
  }

  /**
   * The grid after `performDrop`/`dropEntered` on cell `index` with `dragged`:
   * a dragged word lands in the cell and nothing else changes; with nothing
   * dragged the grid is unchanged (and the cell is not looked at).
   */
  function Dropped(grid: seq<Option<string>>, index: int, dragged: Option<string>): (r: seq<Option<string>>)
    requires dragged.Some? ==> 0 <= index < |grid|
    ensures OnlyCellChanged(grid, r, index)
    ensures dragged.Some? ==> r[index] == dragged
    ensures dragged.None? ==> r == grid
  {
    if dragged.Some? then grid[index := dragged] else grid
  }

  /**
   * The grid after `dropExited` on cell `index` with `dragged`: the cell is
   * cleared exactly when it holds what is dragged (an empty cell with nothing
   * dragged stays empty), and nothing else changes.
   */
  function Exited(grid: seq<Option<string>>, index: int, dragged: Option<string>): (r: seq<Option<string>>)
    requires 0 <= index < |grid|
    ensures OnlyCellChanged(grid, r, index)
    ensures r[index] == None <==> grid[index] == dragged || grid[index] == None
    ensures r[index] != None ==> r[index] == grid[index]
    ensures grid[index] != dragged ==> r == grid
  {
    if grid[index] == dragged then grid[index := None] else grid
  }

  /**
   * A drag that enters and then leaves a cell clears it, whatever it held
   * before, and leaves the other cells alone.
   */
  lemma EnterThenExitClears(grid: seq<Option<string>>, index: int, word: string)
    requires 0 <= index < |grid|
    ensures Exited(Dropped(grid, index, Some(word)), index, Some(word)) == grid[index := None]
  {
  }

  // ---------------------------------------------------------------------------
  // The preview sentence.

  /**
   * Each word of `x` sits in its text at the matching answer position: one
   * position per word, and the text read from that position starts with the word.
   */
  predicate AnswersAnchored(x: SentenceRecord) {
    && |x.words| == |x.answerPositions|
    && forall k :: 0 <= k < |x.words| ==>
         && 0 <= x.answerPositions[k]
         && x.answerPositions[k] + |x.words[k]| <= |x.text|
         && x.text[x.answerPositions[k]..x.answerPositions[k] + |x.words[k]|] == x.words[k]
  }

  const TestSentenceId := "test_sentence_01"
  const TestSentenceText := "樹上有許多葉子"
  const TestSentenceWords := ["樹", "葉"]
  const TestStoryId := "test_story"
  const TestSentenceOrder := 1

  /** The preview sentence as `setupPreviewData` writes it, answer positions `[0, 4]`. */
  const TestSentenceAsWritten := SentenceRecord(TestSentenceId, TestSentenceText, TestSentenceWords,
                                                [0, 4], TestStoryId, TestSentenceOrder, None)

  /** As written, the second answer position points at `多`, not at the word `葉`. */
  lemma TestAnswerMisplaced()
    ensures |TestSentenceAsWritten.text| == 7
    ensures TestSentenceAsWritten.text[4] == '多' && TestSentenceAsWritten.text[5] == '葉'
    ensures !AnswersAnchored(TestSentenceAsWritten)
  {
    var x := TestSentenceAsWritten;
    assert x.text[4..5] == ['多'] && x.words[1] == ['葉'];
    assert x.text[x.answerPositions[1]..x.answerPositions[1] + |x.words[1]|] != x.words[1];
  }

  /**
   * The preview sentence with answer positions `[0, 5]`, the offsets where `樹`
   * and `葉` sit in the text.
   */
  const TestSentence := SentenceRecord(TestSentenceId, TestSentenceText, TestSentenceWords,
                                       [0, 5], TestStoryId, TestSentenceOrder, None)

  /** Corrected, every answer position anchors its word in the seven-character text. */
  lemma TestSentenceAnchored()
    ensures |TestSentence.text| == 7
    ensures AnswersAnchored(TestSentence)
  {
    assert TestSentence.text[0..1] == TestSentence.words[0];
    assert TestSentence.text[5..6] == TestSentence.words[1];
  }

  // ---------------------------------------------------------------------------
  // The view's state and the cell delegates.

  /** The `@State` of `LearningView`. */
  class LearningView {
    var draggedWord: Option<string>
    var grid: seq<Option<string>>
    var cards: seq<string>

    /** Nothing dragged, no cells, no cards. */
    constructor ()
      ensures draggedWord == None && grid == [] && cards == []
    {
      draggedWord, grid, cards := None, [], [];
    }

    /** `.onDrag` on a card: remembers the card's word as the dragged word. */
    method StartDrag(word: string)
      modifies this
      ensures draggedWord == Some(word)
      ensures grid == old(grid) && cards == old(cards)
    {
      draggedWord := Some(word);
    }

    /**
     * `setupPreviewData`: with no sentence stored, inserts the preview sentence
     * and saves, ignoring a failing save (`try?`); otherwise does nothing.
     */
    method SetupPreviewData(context: ModelContext, now: Time, saveFails: bool)
      requires context.Valid()
      modifies context
      ensures context.Valid()
      ensures context.stories == old(context.stories)
      ensures old(context.sentences) != [] ==>
                context.sentences == old(context.sentences) && context.hasChanges == old(context.hasChanges)
      ensures old(context.sentences) == [] ==>
                |context.sentences| == 1 && SentenceValue(context.sentences[0]) == TestSentenceAsWritten &&
                context.sentences[0].createdAt == now && context.sentences[0].updatedAt == now &&
                context.hasChanges == saveFails
    {
      if context.sentences == [] {
        var x := TestSentenceAsWritten;
        var test := new Sentence(now, x.id, x.text, x.words, x.answerPositions, x.storyId, x.order);
        context.InsertSentence(test);
        assert context.sentences == [test];
        var _ := context.Save(saveFails);
      }
    }

    /**
     * `.onAppear`: runs `setupPreviewData`, then lays out the first sentence of
     * the query as it stood when the closure started: its words as the cards
     * and one empty cell per character.  With no sentence, grid and cards stay.
     */
    method OnAppear(context: ModelContext, now: Time, saveFails: bool)
      requires context.Valid()
      modifies this, context
      ensures context.Valid()
      ensures context.stories == old(context.stories)
      ensures old(context.sentences) != [] ==>
                context.sentences == old(context.sentences) && context.hasChanges == old(context.hasChanges)
      ensures old(context.sentences) == [] ==>
                |context.sentences| == 1 && SentenceValue(context.sentences[0]) == TestSentenceAsWritten &&
                context.sentences[0].createdAt == now && context.sentences[0].updatedAt == now &&
                context.hasChanges == saveFails
      ensures draggedWord == old(draggedWord)
      ensures old(context.sentences) == [] ==> grid == old(grid) && cards == old(cards)
      ensures old(context.sentences) != [] ==>
                cards == old(context.sentences)[0].words &&
                |grid| == |old(context.sentences)[0].text| &&
                forall k :: 0 <= k < |grid| ==> grid[k] == None
    {
      var queried := context.sentences;
      SetupPreviewData(context, now, saveFails);
      if queried != [] {
        var sentence := queried[0];
        cards := sentence.words;
        grid := seq(|sentence.text|, _ => None);
      }
    }
  }

  /** `DropDelegate` of cell `index`, bound to the view's `grid` and `draggedWord`. */
  class DropDelegate {
    const index: int
    const view: LearningView

    constructor (index: int, view: LearningView)
      ensures this.index == index && this.view == view
    {
      this.index := index;
      this.view := view;
    }

    /** `performDrop`: accepts exactly when a word is dragged, and then puts it in the cell. */
    method PerformDrop() returns (accepted: bool)
      requires view.draggedWord.Some? ==> 0 <= index < |view.grid|
      modifies view
      ensures accepted == old(view.draggedWord).Some?
      ensures view.grid == Dropped(old(view.grid), index, old(view.draggedWord))
      ensures view.draggedWord == old(view.draggedWord) && view.cards == old(view.cards)
    {
      if view.draggedWord.Some? {
        view.grid := view.grid[index := view.draggedWord];
        return true;
      }
      return false;
    }

    /** `dropEntered`: puts the dragged word, if any, in the cell. */
    method DropEntered()
      requires view.draggedWord.Some? ==> 0 <= index < |view.grid|
      modifies view
      ensures view.grid == Dropped(old(view.grid), index, old(view.draggedWord))
      ensures view.draggedWord == old(view.draggedWord) && view.cards == old(view.cards)
    {
      if view.draggedWord.Some? {
        view.grid := view.grid[index := view.draggedWord];
      }
    }

    /** `dropExited`: clears the cell when it holds what is dragged. */
    method DropExited()
      requires 0 <= index < |view.grid|
      modifies view
      ensures view.grid == Exited(old(view.grid), index, old(view.draggedWord))
      ensures view.draggedWord == old(view.draggedWord) && view.cards == old(view.cards)
    {
      if view.grid[index] == view.draggedWord {
        view.grid := view.grid[index := None];
      }
    }
  }
}
