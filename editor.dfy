/**
  * The editing session as a value: the active mode, the repeat-count prefix,
  * the clipboard, the current buffer (seen as the log of calls made on it)
  * and the keys handed to the action registry.
  */
module Editor {
  import opened Wrappers
  import opened Saturating
  import opened Keys

  /** The clipboard register: the text a delete or yank returned, one string per selection. */
  type Clip = seq<string>

  /** The active mode. Command mode owns its in-progress command line. */
  datatype Mode = Normal | Insert | Command(line: string) | Find | Goto

  /** The word boundary a word motion goes to (`Idx::forward_word`, `Idx::backward_word`). */
  datatype WordBoundary = ForwardWord | BackwardWord

  /** One call the interpreter makes on the current buffer. */
  datatype BufferOp =
    | MoveCursorForward(n: nat)
    | MoveCursorBackward(n: nat)
    | MoveCursorUp(n: nat)
    | MoveCursorDown(n: nat)
    | ExtendCursorForward(n: nat)
    | ExtendCursorBackward(n: nat)
    | ExtendCursorUp(n: nat)
    | ExtendCursorDown(n: nat)
    | MoveToWord(boundary: WordBoundary)
    | ExtendToWord(boundary: WordBoundary)
    | MoveLine
    | ExtendLine
    | Collapse
    | SelectAll
    | ReverseSelections
    | Delete
    | Yank
    | Paste(text: Clip)
    | PasteExtend(text: Clip)
    | Undo(n: nat)
    | Redo(n: nat)
    | MaybeCommitUndoPoint
    | MoveCursorToLine(line: nat)

  /** Calls that collapse each selection before repositioning it. */
  predicate Collapses(op: BufferOp) {
    op.MoveCursorForward? || op.MoveCursorBackward? || op.MoveCursorUp? || op.MoveCursorDown? ||
    op.MoveToWord? || op.MoveLine?
  }

  /** Calls that keep each selection's anchor and grow it towards the new head. */
  predicate Extends(op: BufferOp) {
    op.ExtendCursorForward? || op.ExtendCursorBackward? || op.ExtendCursorUp? || op.ExtendCursorDown? ||
    op.ExtendToWord? || op.ExtendLine?
  }

  /**
    * The current buffer: the calls made on it so far, and `textUnder`, which
    * gives the text under its selections after any history of calls. The
    * model does not define `textUnder`; each buffer comes with its own.
    */
  datatype BufferState = BufferState(ops: seq<BufferOp>, textUnder: seq<BufferOp> -> Clip) {

    /** What `delete()` or `yank()` returns now. */
    function Selected(): Clip {
      textUnder(ops)
    }

    function Called(op: BufferOp): BufferState {
      this.(ops := ops + [op])
    }
  }

  /**
    * The session state the Normal-mode handler reads and writes. `buffer` is
    * `None` when no buffer is open; `fallbacks` lists, in order, the keys
    * whose action was looked up in the registry.
    */
  datatype Session = Session(
    mode: Mode,
    numPrefix: Option<Usize>,
    yanked: Clip,
    buffer: Option<BufferState>,
    fallbacks: seq<Key>)
}
