/** Decimal text: the digit strings that printf's `%d` writes and scanf's `%d`
    reads, for non-negative values. Signs are handled by the callers. */
module Decimal {

  /** 10 to the power w. */
  function Pow10(w: nat): (p: nat)
    ensures p >= 1
  {
    if w == 0 then 1 else 10 * Pow10(w - 1)
  }

  predicate IsDigit(ch: char) {
    '0' <= ch <= '9'
  }

  predicate AllDigits(s: string) {
    forall i :: 0 <= i < |s| ==> IsDigit(s[i])
  }

  /** The character of the digit d. */
  function DigitChar(d: nat): (ch: char)
    requires d < 10
    ensures IsDigit(ch)
  {
    (48 + d) as char
  }

  /** The digit a digit character stands for; the inverse of DigitChar. */
  function DigitValue(ch: char): (d: nat)
    requires IsDigit(ch)
    ensures d < 10 && DigitChar(d) == ch
  {
    ch as int - 48
  }

  /** The shortest decimal text of n ("0" for zero), most significant digit first. */
  function Show(n: nat): (s: string)
    ensures 1 <= |s| && AllDigits(s)
  {
    if n < 10 then [DigitChar(n)] else Show(n / 10) + [DigitChar(n % 10)]
  }

  /** The last w decimal digits of n, most significant first, zero-filled on the left. */
  function Fixed(n: nat, w: nat): (s: string)
    ensures |s| == w && AllDigits(s)
  {
    if w == 0 then [] else Fixed(n / 10, w - 1) + [DigitChar(n % 10)]
  }

  /** The number a string of digits denotes. */
  function Value(s: string): nat
    requires AllDigits(s)
  {
    if |s| == 0 then 0 else 10 * Value(s[..|s| - 1]) + DigitValue(s[|s| - 1])
  }

  /** n copies of '0'. */
  function Zeros(n: nat): (s: string)
    ensures |s| == n
    ensures forall i :: 0 <= i < n ==> s[i] == '0'
  {
    if n == 0 then [] else Zeros(n - 1) + ['0']
  }

  /** printf's `0` flag: left-fill s with '0' up to width w; longer text is kept whole. */
  function PadLeft(s: string, w: nat): (r: string)
    ensures |r| == if |s| < w then w else |s|
  {
    if |s| < w then Zeros(w - |s|) + s else s
  }

  /** Reading a fixed-width field back gives the number, when the number fits. */
  lemma {:induction false} ValueOfFixed(n: nat, w: nat)
    requires n < Pow10(w)
    ensures Value(Fixed(n, w)) == n
  {
    if w > 0 {
      var s := Fixed(n, w);
      assert s[..w - 1] == Fixed(n / 10, w - 1);
      ValueOfFixed(n / 10, w - 1);
    }
  }

  /** Reading the shortest text back gives the number. */
  lemma {:induction false} ValueOfShow(n: nat)
    ensures Value(Show(n)) == n
  {
    var s := Show(n);
    if n >= 10 {
      assert s[..|s| - 1] == Show(n / 10);
      ValueOfShow(n / 10);
    }
  }

  /** A number below 10^w needs at most w digits. */
  lemma {:induction false} ShowFits(n: nat, w: nat)
    requires 1 <= w && n < Pow10(w)
    ensures |Show(n)| <= w
  {
    if n >= 10 {
      ShowFits(n / 10, w - 1);
    }
  }

  /** The fixed-width field of zero is all zeros. */
  lemma {:induction false} FixedOfZero(w: nat)
    ensures Fixed(0, w) == Zeros(w)
  {
    if w > 0 {
      FixedOfZero(w - 1);
    }
  }

  /** Zero-padding the shortest text to width w is the fixed-width field, when n fits. */
  lemma {:induction false} PaddedShowIsFixed(n: nat, w: nat)
    requires 1 <= w && n < Pow10(w)
    ensures PadLeft(Show(n), w) == Fixed(n, w)
  {
    if n < 10 {
      FixedOfZero(w - 1);
      assert Fixed(n, w) == Zeros(w - 1) + [DigitChar(n)];
    } else {
      var head := Show(n / 10);
      var d := [DigitChar(n % 10)];
      ShowFits(n, w);
      PaddedShowIsFixed(n / 10, w - 1);
      assert Show(n) == head + d;
      if |head| + 1 < w {
        assert PadLeft(Show(n), w) == Zeros(w - 1 - |head|) + head + d;
        assert PadLeft(head, w - 1) == Zeros(w - 1 - |head|) + head;
      } else {
        assert PadLeft(head, w - 1) == head;
      }
    }
  }
}
