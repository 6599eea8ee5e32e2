# Normal-mode key interpreter of the breeze editor

This project models `Normal`, the mode that interprets keystrokes in the
breeze modal text editor (`libbrz/src/mode/normal.rs`), and proves properties
of that model.

The model handles one key at a time, against the editing session:

- the active mode (`Normal`, `Insert`, `Command`, `Find` or `Goto`);
- the pending repeat-count prefix, an optional 64-bit unsigned integer;
- the clipboard (`yanked`);
- the current buffer, if one is open;
- a record of the keys that fell through to the action registry.

The buffer is modelled as the log of the calls made on it. `delete()` and
`yank()` return the text under the selections. That text comes from a fixed
but unknown function of the log, so the model never says what the text is.
It only says where the text goes.

The model has two layers:

- **Specification** (`NormalSpec`, on values). `Handle` maps the session
  before a key to the session after it. The choice of command is an
  `Action` value. `NotDigitAction` and `TableAction` compute it from the
  key, the prefix and the clipboard, and `Apply` carries it out.
- **Implementation** (`State`, `NormalMode`). `State.State` and
  `State.Buffer` are classes whose fields the handler updates in place.
  The methods `NormalMode.Handle`, `HandleNotDigit` and
  `HandleNotDigitNotUndo` follow the three Rust functions branch by
  branch. Each is proved to leave the objects in the state the
  specification gives.

The lemmas then prove, about the specification:

- what each key does;
- how a run of digits builds the count;
- how the undo points bracket each command;
- what short key sequences such as `2 l d`, `y d p` and `d d d` produce.

Behaviour of the code worth noting:

- The repeat count `times` is the prefix, or 1 when no prefix is pending.
  A typed `0` gives `times` = 0, so `0 h` moves by 0 and `0 u` undoes 0
  steps.
- `d`, `c` and `y` ignore the count: `3 d` makes one `delete()` call,
  which is one undo step.
- `w`, `W`, `b` and `B` make one call whatever the count.
- `g` with count `n` moves to line `n - 1`, saturating at 0, so `0 g` and
  `1 g` both go to line 0.

## Model

| member | source | states |
|---|---|---|
| NormalSpec.Handle | libbrz/src/mode/normal.rs:14-49 | The buffer stays open or absent. With no buffer, only the mode can change: `:` gives Command, Ctrl-p gives Find, and any other key changes nothing. With a buffer, a digit sets the prefix to the clamped decimal extension `min(old*10+d, usize::MAX)` and changes nothing else. Any other key leaves the prefix cleared and the log bracketed: one commit, at most one other call with no commit, then one commit. |
| NormalSpec.NotDigitAction | libbrz/src/mode/normal.rs:61-75 | `u` becomes `undo(times)` and `U` becomes `redo(times)`, with `times` the prefix or 1. The registry is reached exactly for keys outside both tables. The clipboard is taken exactly for `d`/`c`/`y`. No chosen call is a commit. |
| NormalSpec.TableAction | libbrz/src/mode/normal.rs:77-181 | A key goes to the registry exactly when it is not one of the 30 table keys, and the registry action carries that key. The mode switches exactly for Ctrl-p, and for `g` with no prefix. The clipboard is taken exactly for `d`/`c`/`y`, by Delete or Yank. A buffer call is never a commit. |
| NormalSpec.Apply | libbrz/src/mode/normal.rs:133-150 | Carrying out an action keeps the prefix and makes at most one non-commit buffer call. The clipboard becomes the selected text exactly when the clipboard is taken, and is otherwise unchanged. Only a registry action extends the fallback record. The mode changes only by a switch, or by the Insert that follows `c`. |
| NormalSpec.CountedCommand | libbrz/src/mode/normal.rs:62-132 | `h`/Left, `l`/Right, `k`/Up, `j`/Down, `H`, `L`, `K`, `J`, `u` and `U` append exactly commit, the matching call with `times` = prefix or 1, then commit. The prefix is cleared and nothing else changes. |
| NormalSpec.FixedCommand | libbrz/src/mode/normal.rs:82-174 | Space, `w`, `W`, `b`, `B`, `x`, `X`, `%`, `'` and Alt-`;` append exactly commit, their one call without a count, then commit. Whatever the prefix was, it is cleared, and nothing else changes. |
| NormalSpec.MoveExtendPartition | libbrz/src/mode/normal.rs:97-168 | For the motion keys, lower-case letters and arrows map to a collapse-and-move call, and upper-case letters map to an extend call, in both directions of the equivalence. |
| NormalSpec.ClipboardOverwritten | libbrz/src/mode/normal.rs:133-142 | `d`, `c` and `y` set the clipboard to what `delete()`/`yank()` returns, the text selected after the first commit. The old clipboard is discarded. The log gains commit, Delete/Yank, commit. Only `c` changes the mode, to Insert. |
| NormalSpec.PasteKeepsClipboard | libbrz/src/mode/normal.rs:143-150 | `p`/`P` pass the current clipboard to `paste`/`paste_extend` between two commits. The clipboard and the mode are unchanged. |
| NormalSpec.GotoWithCount | libbrz/src/mode/normal.rs:88-92 | `g` after count `n` makes one call that moves to 0-based line `n - 1`, or line 0 when `n` is 0. The mode stays as it was and the prefix is cleared. |
| NormalSpec.GotoWithoutCount | libbrz/src/mode/normal.rs:93-95 | `g` without a count makes no buffer call besides the two commits and enters Goto mode. |
| NormalSpec.FindAndEscape | libbrz/src/mode/normal.rs:81-87 | With a buffer open, Ctrl-p makes only the two commits and enters Find. Esc makes only the two commits and only clears the prefix. |
| NormalSpec.RegistryFallback | libbrz/src/mode/normal.rs:175-178 | A key that is not a digit, not `u`/`U` and not a table key runs the registry action for that key. It makes only the two commits and clears the prefix. |
| Prefix.PushDigit | libbrz/src/mode/normal.rs:30-36 | Saturating multiply-by-10 then add equals the exact decimal extension clamped at `usize::MAX`, so the result never exceeds `usize::MAX`. |
| Prefix.PushDigitOnSaturated | libbrz/src/mode/normal.rs:30-36 | Clamping after every digit gives the same result as clamping once at the end. |
| Keys.DigitValue | libbrz/src/mode/normal.rs:29-35 | The value of a digit key is at most 9, and it is the value whose character is that key. |
| NormalProperties.DigitsAccumulate | libbrz/src/mode/normal.rs:29-37 | With a buffer open and no prefix, any non-empty run of digit keys leaves the prefix equal to the run's decimal value, clamped at `usize::MAX`. Nothing else changes. |
| NormalProperties.NoBufferIgnoresKeys | libbrz/src/mode/normal.rs:15-26 | With no buffer open, any sequence of keys without `:` and Ctrl-p, digits included, leaves the whole session unchanged. |
| NormalProperties.CountThenCommand | libbrz/src/mode/normal.rs:28-47 | Typing the decimal digits of `n` and then a counted key gives exactly one commit, one call with count `n`, and one commit. The prefix ends cleared. |
| NormalProperties.CountThenDelete | libbrz/src/mode/normal.rs:38-47 | Typing a count and then `d` makes a single `delete()` call between one pair of commits, which is one undo step. The prefix ends cleared. |
| NormalProperties.ThreeSeparateDeletes | libbrz/src/mode/normal.rs:38-47 | `d d d` makes three deletes, each between its own pair of commits, which is three undo steps. |
| NormalProperties.TwoRightThenDelete | libbrz/src/mode/normal.rs:28-47 | `2 l d` gives exactly one forward move by 2, then one delete. The clipboard becomes the text selected before the delete, and the mode is unchanged. |
| NormalProperties.PasteAfterYankThenDelete | libbrz/src/mode/normal.rs:133-146 | After `y d p`, the clipboard and the pasted text are the deleted text, not the yanked text. The full call log is given. |
| NormalMode.Handle | libbrz/src/mode/normal.rs:14-49 | The in-place handler leaves the state and buffer objects exactly as `NormalSpec.Handle` says, and keeps the same buffer object. |
| NormalMode.HandleNotDigit | libbrz/src/mode/normal.rs:61-75 | The in-place undo/redo dispatch leaves the objects as `Apply` of `NotDigitAction` says, and reports the key handled. |
| NormalMode.HandleNotDigitNotUndo | libbrz/src/mode/normal.rs:77-181 | The in-place command table leaves the objects as `Apply` of `TableAction` says, and reports the key handled. |
| State.State.SetMode | libbrz/src/mode/normal.rs:18-21 | `set_mode` replaces the mode and changes no other part of the session. |
| State.State.RunRegistryAction | libbrz/src/mode/normal.rs:175-178 | The registry fallback is recorded for its key, and no other part of the session changes. |
| State.Buffer.Delete | libbrz/src/mode/normal.rs:133-134 | `delete()` returns the selected text and logs one Delete call. |
| State.Buffer.Yank | libbrz/src/mode/normal.rs:140-141 | `yank()` returns the selected text and logs one Yank call. |
| State.Buffer.Call | libbrz/src/mode/normal.rs:39-46 | Every other buffer call is appended to the log and changes nothing else. |

## Left out

- The bodies of the buffer operations are not part of this model. This covers cursor motion, word boundaries, `set_line` clamping, deletion, pasting and the undo history. The model records each call in order, and `delete()`/`yank()` return a fixed but unknown function of the log. Whether a commit with nothing to commit is a no-op is up to the buffer, so the model counts every `maybe_commit_undo_point` call.
- The action registry and key mappings are not part of this model. This covers `action_by_key`, `ActionNotFound`, `actions()` and `key_mappings()`. A fallback is recorded as "the registry action for key k ran", and that action is assumed to change nothing else in the session.
- A registry action that opens, switches or closes buffers is not modelled. So the model uses the same buffer for the second commit.
- The key-handling bodies of the Insert, Command, Find and Goto modes are not part of this model. `Insert::new_normal()`, `Find::default()` and `Command::new()` are modelled as the plain modes `Insert`, `Find` and `Command("")`.
- The mode controller that routes keys to the active mode is not part of this model. The multi-key lemmas feed every key to the Normal handler whatever the session's mode field says. Every key sequence they use keeps the mode as it was, so from a session in Normal mode they follow what the controller would do.
- `name()` returns a constant string, and rendering, terminal input and file I/O have no counterpart here.
- Terminal keys other than characters, Ctrl/Alt characters, Esc and the arrows are folded into one `Special(name)` key. They all fall through to the registry.
- `usize` is taken to be 64 bits wide.
- The clipboard's type is modelled as a sequence of strings, one per selection.
- Repetition is proved for concrete key sequences such as `d d d` and `2 l d`, not for an arbitrary number of keystrokes.
