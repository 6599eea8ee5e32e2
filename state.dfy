/**
  * The mutable session: the current buffer as an object whose calls are
  * logged, and the state object the Normal-mode handler updates in place.
  */
module State {
  import opened Wrappers
  import opened Saturating
  import opened Keys
  import opened Editor

  /** The current buffer, seen only through the calls made on it. */
  class Buffer {
    var ops: seq<BufferOp>
    const textUnder: seq<BufferOp> -> Clip

    ghost function Value(): BufferState
      reads this
    {
      BufferState(ops, textUnder)
    }

    constructor (textUnder: seq<BufferOp> -> Clip)
      ensures Value() == BufferState([], textUnder)
    {
      this.textUnder := textUnder;
      ops := [];
    }

    /** Any call that returns nothing: it is appended to the log. */
    method Call(op: BufferOp)
      modifies this
      ensures Value() == old(Value()).Called(op)
    {
      ops := ops + [op];
    }

    /** `delete()`: removes the selected text and returns it. */
    method Delete() returns (deleted: Clip)
      modifies this
      ensures deleted == old(Value()).Selected()
      ensures Value() == old(Value()).Called(BufferOp.Delete)
    {
      deleted := textUnder(ops);
      ops := ops + [BufferOp.Delete];
    }

    /** `yank()`: returns the selected text without removing it. */
    method Yank() returns (yanked: Clip)
      modifies this
      ensures yanked == old(Value()).Selected()
      ensures Value() == old(Value()).Called(BufferOp.Yank)
    {
      yanked := textUnder(ops);
      ops := ops + [BufferOp.Yank];
    }
  }

  /** The editing session owned by the mode controller. */
  class State {
    var mode: Mode
    var numPrefix: Option<Usize>
    var yanked: Clip
    var buffer: Buffer?
    var fallbacks: seq<Key>

    ghost function Value(): Session
      reads this, buffer
    {
      Session(mode, numPrefix, yanked, if buffer == null then None else Some(buffer.Value()), fallbacks)
    }

    /** A session in Normal mode, with nothing pending and an empty clipboard. */
    constructor (buffer: Buffer?)
      ensures this.buffer == buffer
      ensures mode == Normal && numPrefix == None && yanked == [] && fallbacks == []
    {
      mode := Normal;
      numPrefix := None;
      yanked := [];
      this.buffer := buffer;
      fallbacks := [];
    }

    /** `set_mode`: replaces the active mode, whatever it was. */
    method SetMode(m: Mode)
      modifies this
      ensures buffer == old(buffer)
      ensures Value() == old(Value()).(mode := m)
    {
      mode := m;
    }

    /** Runs the registry's action for `key` (or the not-found action), recorded as an event. */
    method RunRegistryAction(key: Key)
      modifies this
      ensures buffer == old(buffer)
      ensures Value() == old(Value()).(fallbacks := old(fallbacks) + [key])
    {
      fallbacks := fallbacks + [key];
    }
  }
}
