/**
  * `Normal::handle` and its two helpers, updating the session in place. Each
  * method is proved to do exactly what the matching function of NormalSpec
  * says.
  */
module NormalMode {
  import opened Wrappers
  import opened Keys
  import opened Prefix
  import opened Editor
  import opened State
  import NormalSpec

  /** `Normal::handle`: the buffer guard, digit accumulation and the undo bracket. */
  method Handle(state: State, key: Key)
    modifies state, state.buffer
    ensures state.buffer == old(state.buffer)
    ensures state.Value() == NormalSpec.Handle(old(state.Value()), key)
  {
    if state.buffer == null {
      match key {
        case Char(':') => state.SetMode(Command(""));
        case Ctrl('p') => state.SetMode(Find);
        case _ =>
      }
      return;
    }
    if IsDigit(key) {
      state.numPrefix := Some(PushDigit(state.numPrefix, DigitValue(key)));
    } else {
      ghost var s := state.Value();
      state.buffer.Call(MaybeCommitUndoPoint);
      assert state.Value() == NormalSpec.Call(s, MaybeCommitUndoPoint);
      var handled := HandleNotDigit(state, key);
      state.numPrefix := None;
      state.buffer.Call(MaybeCommitUndoPoint);
    }
  }

  /** `handle_not_digit`: undo and redo by the repeat count, else the command table. */
  method HandleNotDigit(state: State, key: Key) returns (handled: bool)
    requires state.buffer != null
    modifies state, state.buffer
    ensures state.buffer == old(state.buffer)
    ensures state.Value() == NormalSpec.NotDigit(old(state.Value()), key)
    ensures handled
  {
    var times := Times(state.numPrefix);
    match key {
      case Char('u') =>
        state.buffer.Call(Undo(times));
        handled := true;
      case Char('U') =>
        state.buffer.Call(Redo(times));
        handled := true;
      case _ =>
        handled := HandleNotDigitNotUndo(state, key);
    }
  }

  /** `handle_not_digit_not_undo`: the built-in command table, then the registry. */
  method HandleNotDigitNotUndo(state: State, key: Key) returns (handled: bool)
    requires state.buffer != null
    modifies state, state.buffer
    ensures state.buffer == old(state.buffer)
    ensures state.Value() == NormalSpec.Apply(old(state.Value()), NormalSpec.TableAction(key, old(state.numPrefix), old(state.yanked)))
    ensures handled
  {
    var times := Times(state.numPrefix);
    var buffer := state.buffer;
    match key {
      case Esc =>
      case Char(' ') => buffer.Call(Collapse);
      case Ctrl('p') => state.SetMode(Find);
      case Char('g') =>
        if state.numPrefix.Some? {
          buffer.Call(MoveCursorToLine(GotoLine(state.numPrefix.value)));
        } else {
          state.SetMode(Goto);
        }
      case Left => buffer.Call(MoveCursorBackward(times));
      case Right => buffer.Call(MoveCursorForward(times));
      case Up => buffer.Call(MoveCursorUp(times));
      case Down => buffer.Call(MoveCursorDown(times));
      case Char('h') => buffer.Call(MoveCursorBackward(times));
      case Char('H') => buffer.Call(ExtendCursorBackward(times));
      case Char('l') => buffer.Call(MoveCursorForward(times));
      case Char('L') => buffer.Call(ExtendCursorForward(times));
      case Char('j') => buffer.Call(MoveCursorDown(times));
      case Char('J') => buffer.Call(ExtendCursorDown(times));
      case Char('k') => buffer.Call(MoveCursorUp(times));
      case Char('K') => buffer.Call(ExtendCursorUp(times));
      case Char('d') =>
        state.yanked := buffer.Delete();
      case Char('c') =>
        state.yanked := buffer.Delete();
        state.SetMode(Insert);
      case Char('y') =>
        state.yanked := buffer.Yank();
      case Char('p') =>
        var yanked := state.yanked;
        buffer.Call(Paste(yanked));
      case Char('P') =>
        var yanked := state.yanked;
        buffer.Call(PasteExtend(yanked));
      case Char('w') => buffer.Call(MoveToWord(ForwardWord));
      case Char('W') => buffer.Call(ExtendToWord(ForwardWord));
      case Char('b') => buffer.Call(MoveToWord(BackwardWord));
      case Char('B') => buffer.Call(ExtendToWord(BackwardWord));
      case Char('x') => buffer.Call(MoveLine);
      case Char('X') => buffer.Call(ExtendLine);
      case Char('%') => buffer.Call(SelectAll);
      case Char('\'') => buffer.Call(ReverseSelections);
      case Alt(';') => buffer.Call(ReverseSelections);
      case _ => state.RunRegistryAction(key);
    }
    handled := true;
  }
}
