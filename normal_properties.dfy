/**
  * Properties of Normal mode over several keys in a row: keys are handed to
  * `Normal::handle` one at a time, each call running to completion before the
  * next. Every sequence used below keeps Normal mode active throughout.
  */
module NormalProperties {
  import opened Wrappers
  import opened Saturating
  import opened Keys
  import opened Prefix
  import opened Editor
  import opened NormalSpec

  /** The session after Normal mode has handled `keys` in order. */
  function Feed(s: Session, keys: seq<Key>): Session
    decreases |keys|
  {
    if keys == [] then s else Feed(Handle(s, keys[0]), keys[1..])
  }

  /** Handling `a` and then `b` is handling `a + b`. */
  lemma {:induction false} FeedAppend(s: Session, a: seq<Key>, b: seq<Key>)
    ensures Feed(s, a + b) == Feed(Feed(s, a), b)
    decreases |a|
  {
    if a == [] {
      assert a + b == b;
    } else {
      assert (a + b)[0] == a[0];
      assert (a + b)[1..] == a[1..] + b;
      FeedAppend(Handle(s, a[0]), a[1..], b);
    }
  }

  /**
    * With a buffer open and no prefix pending, a run of digit keys leaves the
    * prefix at the saturated decimal value of the run and changes nothing
    * else: no buffer call, no mode change, no clipboard change.
    */
  lemma {:induction false} DigitsAccumulate(s: Session, ds: seq<Key>)
    requires s.buffer.Some? && s.numPrefix.None?
    requires |ds| > 0 && AllDigits(ds)
    ensures Feed(s, ds) == s.(numPrefix := Some(Min(DecimalValue(ds), MAX)))
    decreases |ds|
  {
    var n := |ds|;
    var init, last := ds[..n - 1], ds[n - 1];
    assert ds == init + [last];
    assert init == [] ==> DecimalValue(ds) == DigitValue(last);
    FeedAppend(s, init, [last]);
    if init == [] {
      assert Feed(s, []) == s;
    } else {
      assert AllDigits(init) by {
        forall i | 0 <= i < |init| ensures IsDigit(init[i]) { assert init[i] == ds[i]; }
      }
      DigitsAccumulate(s, init);
      PushDigitOnSaturated(DecimalValue(init), DigitValue(last));
    }
    assert Feed(Feed(s, init), [last]) == Handle(Feed(s, init), last);
  }

  /** No buffer open: every key except `:` and Ctrl-p, digits included, leaves the session as it was. */
  lemma {:induction false} NoBufferIgnoresKeys(s: Session, keys: seq<Key>)
    requires s.buffer.None?
    requires forall i :: 0 <= i < |keys| ==> keys[i] != Char(':') && keys[i] != Ctrl('p')
    ensures Feed(s, keys) == s
    decreases |keys|
  {
    if keys != [] {
      assert Handle(s, keys[0]) == s;
      NoBufferIgnoresKeys(s, keys[1..]);
    }
  }

  /**
    * A count typed before a movement, extension, undo or redo key reaches the
    * buffer as a single call with that count, under one pair of commits.
    */
  lemma CountThenCommand(s: Session, n: Usize, key: Key)
    requires s.buffer.Some? && s.numPrefix.None?
    requires CountedCall(key, 0).Some?
    ensures Feed(s, DigitKeys(n) + [key]) == AfterOneCall(s, CountedCall(key, n).value)
  {
    var mid := s.(numPrefix := Some(n));
    DigitKeysValue(n);
    DigitsAccumulate(s, DigitKeys(n));
    FeedAppend(s, DigitKeys(n), [key]);
    assert Feed(mid, [key]) == Handle(mid, key);
    CountedCommand(mid, key);
  }

  /** A count typed before `d` is dropped: the buffer gets a single `delete()` call. */
  lemma CountThenDelete(s: Session, n: Usize)
    requires s.buffer.Some? && s.numPrefix.None?
    ensures var r := Feed(s, DigitKeys(n) + [Char('d')]);
      r.buffer.Some? &&
      r.buffer.value.ops == s.buffer.value.ops + [MaybeCommitUndoPoint, Delete, MaybeCommitUndoPoint] &&
      r.numPrefix.None?
  {
    var mid := s.(numPrefix := Some(n));
    DigitKeysValue(n);
    DigitsAccumulate(s, DigitKeys(n));
    FeedAppend(s, DigitKeys(n), [Char('d')]);
    assert Feed(mid, [Char('d')]) == Handle(mid, Char('d'));
    ClipboardOverwritten(mid, Char('d'));
  }

  /** Three keys are handled one after the other. */
  lemma FeedThree(s: Session, a: Key, b: Key, c: Key)
    ensures Feed(s, [a, b, c]) == Handle(Handle(Handle(s, a), b), c)
  {
    var s1 := Handle(s, a);
    var s2 := Handle(s1, b);
    assert [a, b, c][1..] == [b, c];
    assert [b, c][1..] == [c];
    assert Feed(s, [a, b, c]) == Feed(s1, [b, c]);
    assert Feed(s1, [b, c]) == Feed(s2, [c]);
    assert Feed(s2, [c]) == Feed(Handle(s2, c), []);
  }

  /**
    * `2 l d` from a single cursor: one forward move by 2, then one delete
    * whose text becomes the clipboard, each under its own pair of commits.
    */
  lemma TwoRightThenDelete(s: Session)
    requires s.buffer.Some? && s.numPrefix.None?
    ensures var b := s.buffer.value;
      var moved := b.ops + [MaybeCommitUndoPoint, MoveCursorForward(2), MaybeCommitUndoPoint];
      Feed(s, [Char('2'), Char('l'), Char('d')]) ==
        s.(yanked := b.textUnder(moved + [MaybeCommitUndoPoint]),
           buffer := Some(b.(ops := moved + [MaybeCommitUndoPoint, Delete, MaybeCommitUndoPoint])))
  {
    var b := s.buffer.value;
    var s1 := Handle(s, Char('2'));
    assert s1 == s.(numPrefix := Some(2));
    CountedCommand(s1, Char('l'));
    var s2 := Handle(s1, Char('l'));
    ClipboardOverwritten(s2, Char('d'));
    var moved := b.ops + [MaybeCommitUndoPoint, MoveCursorForward(2), MaybeCommitUndoPoint];
    assert moved + [MaybeCommitUndoPoint, Delete, MaybeCommitUndoPoint]
        == s2.buffer.value.ops + [MaybeCommitUndoPoint, Delete, MaybeCommitUndoPoint];
    assert moved + [MaybeCommitUndoPoint] == s2.buffer.value.Called(MaybeCommitUndoPoint).ops;
    FeedThree(s, Char('2'), Char('l'), Char('d'));
  }

  /** The call log of `y d p`, regrouped. */
  lemma YankDeletePasteLog(ops: seq<BufferOp>, deleted: Clip)
    ensures var c := MaybeCommitUndoPoint;
      ops + [c, Yank, c] + [c] == ops + [c, Yank, c, c] &&
      ops + [c, Yank, c] + [c, Delete, c] + [c, Paste(deleted), c]
        == ops + [c, Yank, c, c] + [Delete, c, c, Paste(deleted), c]
  {
    var c := MaybeCommitUndoPoint;
    assert [c, Yank, c] + [c, Delete, c] + [c, Paste(deleted), c]
        == [c, Yank, c, c] + [Delete, c, c, Paste(deleted), c];
  }

  /** After `y` then `d`, `p` pastes the deleted text, not the yanked one. */
  lemma PasteAfterYankThenDelete(s: Session)
    requires s.buffer.Some? && s.numPrefix.None?
    ensures var b := s.buffer.value;
      var beforeDelete := b.ops + [MaybeCommitUndoPoint, Yank, MaybeCommitUndoPoint, MaybeCommitUndoPoint];
      var deleted := b.textUnder(beforeDelete);
      var r := Feed(s, [Char('y'), Char('d'), Char('p')]);
      r.yanked == deleted && r.buffer.Some? &&
      r.buffer.value.ops == beforeDelete +
        [Delete, MaybeCommitUndoPoint, MaybeCommitUndoPoint, Paste(deleted), MaybeCommitUndoPoint]
  {
    var b := s.buffer.value;
    var c := MaybeCommitUndoPoint;
    var beforeDelete := b.ops + [c, Yank, c, c];
    var deleted := b.textUnder(beforeDelete);
    YankDeletePasteLog(b.ops, deleted);
    var s1 := Handle(s, Char('y'));
    assert s1.buffer.Some? && s1.numPrefix.None? && s1.buffer.value.textUnder == b.textUnder &&
           s1.buffer.value.ops == b.ops + [c, Yank, c] by {
      ClipboardOverwritten(s, Char('y'));
    }
    var s2 := Handle(s1, Char('d'));
    assert s2.buffer.Some? && s2.yanked == deleted &&
           s2.buffer.value.ops == s1.buffer.value.ops + [c, Delete, c] by {
      ClipboardOverwritten(s1, Char('d'));
    }
    var r := Handle(s2, Char('p'));
    assert r.yanked == deleted && r.buffer.Some? &&
           r.buffer.value.ops == s2.buffer.value.ops + [c, Paste(deleted), c] by {
      PasteKeepsClipboard(s2, Char('p'));
    }
    FeedThree(s, Char('y'), Char('d'), Char('p'));
  }

  /**
    * `d d d`, three separate keystrokes, makes three `delete()` calls, each
    * between its own pair of commits: three undo steps where `3 d` makes one
    * (CountThenDelete).
    */
  lemma ThreeSeparateDeletes(s: Session)
    requires s.buffer.Some? && s.numPrefix.None?
    ensures var c := MaybeCommitUndoPoint;
      var r := Feed(s, [Char('d'), Char('d'), Char('d')]);
      r.buffer.Some? && r.numPrefix.None? &&
      r.buffer.value.ops == s.buffer.value.ops + [c, Delete, c] + [c, Delete, c] + [c, Delete, c]
  {
    var c := MaybeCommitUndoPoint;
    var b := s.buffer.value;
    var s1 := Handle(s, Char('d'));
    assert s1.buffer.Some? && s1.numPrefix.None? && s1.buffer.value.ops == b.ops + [c, Delete, c] by {
      ClipboardOverwritten(s, Char('d'));
    }
    var s2 := Handle(s1, Char('d'));
    assert s2.buffer.Some? && s2.numPrefix.None? &&
           s2.buffer.value.ops == s1.buffer.value.ops + [c, Delete, c] by {
      ClipboardOverwritten(s1, Char('d'));
    }
    var s3 := Handle(s2, Char('d'));
    assert s3.buffer.Some? && s3.numPrefix.None? &&
           s3.buffer.value.ops == s2.buffer.value.ops + [c, Delete, c] by {
      ClipboardOverwritten(s2, Char('d'));
    }
    FeedThree(s, Char('d'), Char('d'), Char('d'));
  }
}
