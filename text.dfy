/** String primitives the calendar relies on: JavaScript's `trim()`, the
    `\s` and `\d` classes of its regular expressions, `String(n)` for
    numbers and `padStart`, which dayjs uses to zero-pad date fields. */
module Text {

  /** JavaScript's WhiteSpace and LineTerminator code points: the set that
      both `String.prototype.trim` and the regular-expression class `\s`
      use. */
  const WhitespaceChars: seq<char> := [
    '\U{0020}', '\U{0009}', '\U{000A}', '\U{000B}', '\U{000C}', '\U{000D}',
    '\U{00A0}', '\U{1680}', '\U{2000}', '\U{2001}', '\U{2002}', '\U{2003}',
    '\U{2004}', '\U{2005}', '\U{2006}', '\U{2007}', '\U{2008}', '\U{2009}',
    '\U{200A}', '\U{2028}', '\U{2029}', '\U{202F}', '\U{205F}', '\U{3000}',
    '\U{FEFF}'
  ]

  predicate IsWhitespace(c: char) {
    Occurs(c, WhitespaceChars)
  }

  predicate Occurs(c: char, cs: seq<char>) {
    cs != [] && (cs[0] == c || Occurs(c, cs[1..]))
  }

  predicate AllWhitespace(s: string) {
    forall i :: 0 <= i < |s| ==> IsWhitespace(s[i])
  }

  /** The length of the longest all-whitespace prefix of `s`. */
  function LeadingWhitespace(s: string): (n: nat)
    ensures n <= |s|
    ensures forall i :: 0 <= i < n ==> IsWhitespace(s[i])
    ensures n < |s| ==> !IsWhitespace(s[n])
  {
    if s != [] && IsWhitespace(s[0]) then 1 + LeadingWhitespace(s[1..]) else 0
  }

  /** The length of the longest all-whitespace suffix of `s`. */
  function TrailingWhitespace(s: string): (n: nat)
    ensures n <= |s|
    ensures forall i :: |s| - n <= i < |s| ==> IsWhitespace(s[i])
    ensures n < |s| ==> !IsWhitespace(s[|s| - n - 1])
  {
    if s != [] && IsWhitespace(s[|s| - 1]) then 1 + TrailingWhitespace(s[..|s| - 1]) else 0
  }

  /** `s.trim()`: what is left of `s` once the whitespace on both sides is
      gone. It is the infix of `s` that starts at its first
      non-whitespace character, every character outside it is whitespace,
      it neither starts nor ends with whitespace, and it is empty exactly
      when `s` is all whitespace. */
  function Trim(s: string): (r: string)
    ensures var k := LeadingWhitespace(s);
      k + |r| <= |s| && r == s[k..k + |r|] &&
      forall i :: 0 <= i < |s| && !(k <= i < k + |r|) ==> IsWhitespace(s[i])
    ensures r == [] <==> AllWhitespace(s)
    ensures r != [] ==> !IsWhitespace(r[0]) && !IsWhitespace(r[|r| - 1])
  {
    var k := LeadingWhitespace(s);
    if k == |s| then [] else s[k..|s| - TrailingWhitespace(s)]
  }

  /** Trimming twice is trimming once. */
  lemma TrimIdempotent(s: string)
    ensures Trim(Trim(s)) == Trim(s)
  {
    var r := Trim(s);
    if r != [] {
      assert LeadingWhitespace(r) == 0;
      assert TrailingWhitespace(r) == 0;
    }
  }

  // ---------------------------------------------------------------------
  // Decimal digits

  predicate IsDigit(c: char) {
    '0' <= c <= '9'
  }

  predicate AllDigits(s: string) {
    forall i :: 0 <= i < |s| ==> IsDigit(s[i])
  }

  function DigitValue(c: char): nat
    requires IsDigit(c)
  {
    c as int - '0' as int
  }

  function DigitChar(n: nat): (c: char)
    requires n < 10
    ensures IsDigit(c) && DigitValue(c) == n
  {
    ('0' as int + n) as char
  }

  function Pow10(k: nat): (p: nat)
    ensures p >= 1
  {
    if k == 0 then 1 else 10 * Pow10(k - 1)
  }

  /** The value of a string of decimal digits, most significant first. */
  function Value(s: string): (v: nat)
    requires AllDigits(s)
    ensures v < Pow10(|s|)
  {
    if s == [] then 0 else Value(s[..|s| - 1]) * 10 + DigitValue(s[|s| - 1])
  }

  /** `String(n)` for a non-negative integer: no sign, no leading zero. */
  function NatToString(n: nat): (s: string)
    ensures 1 <= |s| && AllDigits(s)
    ensures |s| > 1 ==> s[0] != '0'
  {
    if n < 10 then [DigitChar(n)] else NatToString(n / 10) + [DigitChar(n % 10)]
  }

  /** `String(i)` for any integer. */
  function IntToString(i: int): (s: string)
    ensures i >= 0 ==> s == NatToString(i)
    ensures i < 0 ==> s == "-" + NatToString(-i)
  {
    if i < 0 then "-" + NatToString(-i) else NatToString(i)
  }

  /** The last `k` decimal digits of `n`, zero-filled. */
  function Fixed(n: nat, k: nat): (s: string)
    ensures |s| == k && AllDigits(s)
  {
    if k == 0 then [] else Fixed(n / 10, k - 1) + [DigitChar(n % 10)]
  }

  function Repeat(c: char, k: nat): (s: string)
    ensures |s| == k && forall i :: 0 <= i < k ==> s[i] == c
  {
    if k == 0 then [] else [c] + Repeat(c, k - 1)
  }

  /** `s.padStart(len, c)` for a one-character pad. */
  function PadStart(s: string, len: nat, c: char): (r: string)
    ensures |r| == if |s| >= len then |s| else len
    ensures r[|r| - |s|..] == s
    ensures forall i :: 0 <= i < |r| - |s| ==> r[i] == c
  {
    if |s| >= len then s else Repeat(c, len - |s|) + s
  }

  lemma {:induction false} ValueOfNatToString(n: nat)
    ensures Value(NatToString(n)) == n
    decreases n
  {
    var s := NatToString(n);
    if n >= 10 {
      ValueOfNatToString(n / 10);
      assert s[..|s| - 1] == NatToString(n / 10);
    }
  }

  /** Distinct numbers have distinct decimal strings. */
  lemma NatToStringInjective(m: nat, n: nat)
    requires NatToString(m) == NatToString(n)
    ensures m == n
  {
    ValueOfNatToString(m);
    ValueOfNatToString(n);
  }

  lemma {:induction false} ValueOfFixed(n: nat, k: nat)
    requires n < Pow10(k)
    ensures Value(Fixed(n, k)) == n
  {
    if k > 0 {
      var s := Fixed(n, k);
      assert s[..k - 1] == Fixed(n / 10, k - 1);
      ValueOfFixed(n / 10, k - 1);
    }
  }

  lemma {:induction false} FixedOfValue(s: string)
    requires AllDigits(s)
    ensures Fixed(Value(s), |s|) == s
  {
    if s != [] {
      var init, last := s[..|s| - 1], s[|s| - 1];
      var v, d := Value(s), DigitValue(last);
      assert v == Value(init) * 10 + d;
      LastDigit(Value(init), d);
      FixedOfValue(init);
      assert DigitChar(d) == last;
      assert Fixed(v, |s|) == Fixed(v / 10, |s| - 1) + [DigitChar(v % 10)];
      assert s == init + [last];
    }
  }

  /** Appending a digit to a number's decimal form. */
  lemma LastDigit(a: nat, d: nat)
    requires d < 10
    ensures (a * 10 + d) / 10 == a && (a * 10 + d) % 10 == d
  {
  }

  lemma {:induction false} FixedExtend(n: nat, k: nat)
    requires n < Pow10(k)
    ensures Fixed(n, k + 1) == ['0'] + Fixed(n, k)
  {
    if k > 0 {
      FixedExtend(n / 10, k - 1);
    }
  }

  lemma {:induction false} NatToStringIsFixed(n: nat)
    ensures NatToString(n) == Fixed(n, |NatToString(n)|)
    ensures n < Pow10(|NatToString(n)|)
    decreases n
  {
    if n >= 10 {
      NatToStringIsFixed(n / 10);
    }
  }

  lemma {:induction false} NatToStringLength(n: nat, k: nat)
    requires 1 <= k && n < Pow10(k)
    ensures |NatToString(n)| <= k
    decreases n
  {
    if n >= 10 {
      NatToStringLength(n / 10, k - 1);
    }
  }

  lemma {:induction false} FixedPadded(n: nat, l: nat, k: nat)
    requires l <= k && n < Pow10(l)
    ensures Fixed(n, k) == Repeat('0', k - l) + Fixed(n, l)
    decreases k - l
  {
    if l < k {
      FixedPadded(n, l, k - 1);
      PowMonotone(l, k - 1);
      FixedExtend(n, k - 1);
      var zeros, digits := Repeat('0', k - 1 - l), Fixed(n, l);
      calc {
        Fixed(n, k);
        ['0'] + Fixed(n, k - 1);
        ['0'] + (zeros + digits);
        { assert ['0'] + (zeros + digits) == (['0'] + zeros) + digits; }
        (['0'] + zeros) + digits;
        { assert Repeat('0', k - l) == ['0'] + zeros; }
        Repeat('0', k - l) + digits;
      }
    }
  }

  lemma {:induction false} PowMonotone(i: nat, j: nat)
    requires i <= j
    ensures Pow10(i) <= Pow10(j)
    decreases j
  {
    if i < j {
      PowMonotone(i, j - 1);
    }
  }

  /** Zero-padding `String(n)` to `k` places, as dayjs does, gives the
      fixed-width `k`-digit form whenever `n` has at most `k` digits. */
  lemma PadNatToString(n: nat, k: nat)
    requires 1 <= k && n < Pow10(k)
    ensures PadStart(NatToString(n), k, '0') == Fixed(n, k)
  {
    NatToStringIsFixed(n);
    NatToStringLength(n, k);
    var l := |NatToString(n)|;
    FixedPadded(n, l, k);
  }
}
