/**
  * The repeat-count accumulator: a digit key typed in Normal mode extends the
  * pending prefix by one decimal digit, saturating at `usize::MAX`.
  */
module Prefix {
  import opened Wrappers
  import opened Saturating
  import opened Keys

  /**
    * The prefix after digit `d` is typed: the old prefix (0 if none) times
    * ten plus `d`, with both steps saturating. The result is the decimal
    * extension of the old prefix, clamped at `MAX`.
    */
  function PushDigit(prefix: Option<Usize>, d: nat): (r: Usize)
    requires d <= 9
    ensures r == Min(prefix.UnwrapOr(0) * 10 + d, MAX)
  {
    SaturatingAdd(SaturatingMul(prefix.UnwrapOr(0), 10), d)
  }

  /** The repeat count a command uses: the prefix if one was typed, else 1. */
  function Times(prefix: Option<Usize>): Usize {
    prefix.UnwrapOr(1)
  }

  /** The 0-based line `g` jumps to under prefix `n`: one less, but never below 0. */
  function GotoLine(n: Usize): Usize {
    SaturatingSub(n, 1)
  }

  predicate AllDigits(keys: seq<Key>) {
    forall i :: 0 <= i < |keys| ==> IsDigit(keys[i])
  }

  /** The unbounded number that a sequence of digit keys spells in base 10. */
  function DecimalValue(keys: seq<Key>): nat
    requires AllDigits(keys)
  {
    if keys == [] then 0
    else DecimalValue(keys[..|keys| - 1]) * 10 + DigitValue(keys[|keys| - 1])
  }

  /** The shortest decimal spelling of `n` as digit keys. */
  function DigitKeys(n: nat): (keys: seq<Key>)
    ensures |keys| > 0 && AllDigits(keys)
    decreases n
  {
    var last := Char(('0' as int + n % 10) as char);
    if n < 10 then [last] else DigitKeys(n / 10) + [last]
  }

  /** Spelling `n` in digits and reading the digits back gives `n`. */
  lemma {:induction false} DigitKeysValue(n: nat)
    ensures DecimalValue(DigitKeys(n)) == n
    decreases n
  {
    var keys := DigitKeys(n);
    var last := Char(('0' as int + n % 10) as char);
    assert keys[|keys| - 1] == last;
    assert DigitValue(last) == n % 10;
    if n >= 10 {
      assert keys[..|keys| - 1] == DigitKeys(n / 10);
      DigitKeysValue(n / 10);
    } else {
      assert keys[..|keys| - 1] == [];
    }
  }

  /**
    * Saturation can be applied at every digit or only at the end: pushing a
    * digit onto the clamped value of `v` gives the clamped value of `v*10+d`.
    */
  lemma PushDigitOnSaturated(v: nat, d: nat)
    requires d <= 9
    ensures PushDigit(Some(Min(v, MAX)), d) == Min(v * 10 + d, MAX)
  {
    if v > MAX {
      assert Min(v, MAX) * 10 + d >= MAX;
      assert v * 10 + d >= MAX;
    }
  }
}
