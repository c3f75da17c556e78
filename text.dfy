/** Character classes used by the extraction patterns and maximal runs of them.
    Python's `\s`, `\d` and `\w` are taken in their ASCII sense. */
module Text {

  /** `\s`: space, tab, newline, carriage return, vertical tab, form feed. */
  predicate IsSpace(c: char) {
    c == ' ' || c == '\t' || c == '\n' || c == '\r' || c == '\U{B}' || c == '\U{C}'
  }

  /** `\d` */
  predicate IsDigit(c: char) {
    '0' <= c <= '9'
  }

  /** `\w`: letters, digits and the underscore. */
  predicate IsWord(c: char) {
    'a' <= c <= 'z' || 'A' <= c <= 'Z' || IsDigit(c) || c == '_'
  }

  /** The character classes the patterns repeat. */
  datatype CharClass = Space | Digit | Word | WordOrDash {
    predicate Has(c: char) {
      match this
      case Space => IsSpace(c)
      case Digit => IsDigit(c)
      case Word => IsWord(c)
      case WordOrDash => IsWord(c) || c == '-'
    }
  }

  /** Every character of class `a` is of class `b`. */
  predicate Within(a: CharClass, b: CharClass) {
    a == b || (a == Digit && b != Space) || (a == Word && b == WordOrDash)
  }

  lemma WithinHas(a: CharClass, b: CharClass, c: char)
    requires Within(a, b) && a.Has(c)
    ensures b.Has(c)
  {
  }

  /** No class but `Space` holds a whitespace character. */
  lemma NotSpace(a: CharClass, c: char)
    requires a != Space && a.Has(c)
    ensures !IsSpace(c)
  {
  }

  /** All of s[lo..hi] is of class `cls`. */
  predicate AllIn(cls: CharClass, s: string, lo: nat, hi: nat)
    requires lo <= hi <= |s|
  {
    forall k :: lo <= k < hi ==> cls.Has(s[k])
  }

  /** The literal `lit` occurs in `s` at position `i`. */
  predicate LitAt(s: string, i: nat, lit: string) {
    i + |lit| <= |s| && s[i..i + |lit|] == lit
  }

  /** The end of the maximal run of `cls` characters that starts at `i`: what a greedy
      `cls*` consumes from there. */
  function RunEnd(cls: CharClass, s: string, i: nat): (e: nat)
    requires i <= |s|
    ensures i <= e <= |s|
    ensures AllIn(cls, s, i, e)
    ensures e == |s| || !cls.Has(s[e])
    decreases |s| - i
  {
    if i < |s| && cls.Has(s[i]) then RunEnd(cls, s, i + 1) else i
  }

  /** Any run of `cls` from `i` ends no later than the maximal one. */
  lemma RunEndBound(cls: CharClass, s: string, i: nat, e: nat)
    requires i <= e <= |s| && AllIn(cls, s, i, e)
    ensures e <= RunEnd(cls, s, i)
  {
  }

  /** A run of `cls` from `i` that cannot be extended is the maximal one. */
  lemma RunEndUnique(cls: CharClass, s: string, i: nat, e: nat)
    requires i <= e <= |s| && AllIn(cls, s, i, e)
    requires e == |s| || !cls.Has(s[e])
    ensures e == RunEnd(cls, s, i)
  {
    RunEndBound(cls, s, i, e);
  }
}
