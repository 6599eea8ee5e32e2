/** Key events as the terminal layer delivers them. */
module Keys {

  /**
    * A key press: a printable character, a character with Ctrl or Alt held,
    * Escape, an arrow key, or any other named key (Backspace, Home, a
    * function key, ...), which the Normal-mode table never claims.
    */
  datatype Key =
    | Char(c: char)
    | Ctrl(c: char)
    | Alt(c: char)
    | Esc
    | Left
    | Right
    | Up
    | Down
    | Special(name: string)

  /** The keys `'0'..='9'`, which always feed the repeat-count prefix. */
  predicate IsDigit(key: Key) {
    key.Char? && '0' <= key.c <= '9'
  }

  /** The number a digit key stands for: its distance from `'0'`. */
  function DigitValue(key: Key): (d: nat)
    requires IsDigit(key)
    ensures d <= 9
    ensures key == Char(('0' as int + d) as char)
  {
    key.c as int - '0' as int
  }
}
