/** The string operations of the Python code: `str` of a non-negative integer, the
    two-character padding `("0" + str(n))[-2:]`, and the facts about concatenation
    that make the object keys decodable. */
module Text {

  predicate IsDigitChar(c: char) {
    '0' <= c <= '9'
  }

  predicate AllDigits(s: string) {
    forall i :: 0 <= i < |s| ==> IsDigitChar(s[i])
  }

  /** The decimal digit character for `d`. */
  function Digit(d: nat): (c: char)
    requires d < 10
    ensures IsDigitChar(c) && DigitValue(c) == d
  {
    ('0' as int + d) as char
  }

  function DigitValue(c: char): nat
    requires IsDigitChar(c)
  {
    c as int - '0' as int
  }

  /** Python's `str(n)` for `n >= 0`: the shortest decimal numeral of `n`. */
  function NatToString(n: nat): (s: string)
    ensures 1 <= |s|
    ensures AllDigits(s)
    ensures |s| == 1 <==> n < 10
    ensures s[0] == '0' ==> n == 0
  {
    if n < 10 then [Digit(n)] else NatToString(n / 10) + [Digit(n % 10)]
  }

  /** The value of a decimal numeral: the reference reading of `NatToString`. */
  function DecimalValue(s: string): nat
    requires AllDigits(s)
  {
    if s == [] then 0 else 10 * DecimalValue(s[..|s| - 1]) + DigitValue(s[|s| - 1])
  }

  /** Reading back what `str` printed gives the number again. */
  lemma {:induction false} DecimalRoundTrip(n: nat)
    ensures DecimalValue(NatToString(n)) == n
  {
    var s := NatToString(n);
    if n >= 10 {
      DecimalRoundTrip(n / 10);
      assert s[..|s| - 1] == NatToString(n / 10);
    }
  }

  /** Distinct numbers print differently. */
  lemma NatToStringInjective(a: nat, b: nat)
    requires NatToString(a) == NatToString(b)
    ensures a == b
  {
    DecimalRoundTrip(a);
    DecimalRoundTrip(b);
  }

  /** The last character `str(n)` prints is the units digit of `n`. */
  lemma LastDigit(n: nat)
    ensures NatToString(n)[|NatToString(n)| - 1] == Digit(n % 10)
  {
  }

  /** Python's slice `s[-k:]` for `k > 0`: the last `k` characters, or all of `s`
      when it is shorter. (For `k == 0` Python returns the whole string; no caller
      here uses that.) */
  function PyTail(s: string, k: nat): (r: string)
    requires 0 < k
    ensures |r| == if |s| < k then |s| else k
    ensures r == s[|s| - |r|..]
  {
    if |s| <= k then s else s[|s| - k..]
  }

  /** `("0" + str(n))[-2:]`, the padding of the extraction handler's file names. */
  function Pad2(n: nat): (r: string)
    ensures |r| == 2
  {
    PyTail("0" + NatToString(n), 2)
  }

  /** The padding always yields exactly two characters: the tens and the units
      digit of `n` (so it truncates numbers above 99 to their last two digits). */
  lemma Pad2Digits(n: nat)
    ensures Pad2(n) == [Digit(n / 10 % 10), Digit(n % 10)]
  {
    var s := NatToString(n);
    if n >= 10 {
      LastDigit(n / 10);
      assert s == NatToString(n / 10) + [Digit(n % 10)];
      var p := NatToString(n / 10);
      assert ("0" + s)[|"0" + s| - 2..] == [p[|p| - 1], Digit(n % 10)];
    }
  }

  /** For `0 <= n <= 99` the padding is the zero-padded decimal numeral of `n`. */
  lemma Pad2ZeroPadded(n: nat)
    requires n <= 99
    ensures Pad2(n) == (if n < 10 then "0" else "") + NatToString(n)
  {
    Pad2Digits(n);
    if n >= 10 {
      assert NatToString(n / 10) == [Digit(n / 10)];
    }
  }

  /** A two-digit numeral reads back as its tens and units. */
  lemma DecimalOfTwoDigits(tens: nat, units: nat)
    requires tens < 10 && units < 10
    ensures DecimalValue([Digit(tens), Digit(units)]) == 10 * tens + units
  {
    var s := [Digit(tens), Digit(units)];
    assert s[..1] == [Digit(tens)];
    assert [Digit(tens)][..0] == [];
    assert DecimalValue([Digit(tens)]) == 10 * DecimalValue([]) + DigitValue(Digit(tens));
    assert DecimalValue([Digit(tens)]) == tens;
    assert DecimalValue(s) == 10 * DecimalValue(s[..1]) + DigitValue(s[1]);
  }

  /** Reading the padding back gives `n` whenever `n <= 99`. */
  lemma Pad2RoundTrip(n: nat)
    requires n <= 99
    ensures |Pad2(n)| == 2 && AllDigits(Pad2(n))
    ensures DecimalValue(Pad2(n)) == n
  {
    Pad2Digits(n);
    var tens := n / 10;
    assert tens < 10 && tens % 10 == tens;
    DecimalOfTwoDigits(tens, n % 10);
  }

  /** Distinct numbers in 0..99 pad differently. */
  lemma Pad2Injective(a: nat, b: nat)
    requires a <= 99 && b <= 99
    requires Pad2(a) == Pad2(b)
    ensures a == b
  {
    Pad2RoundTrip(a);
    Pad2RoundTrip(b);
  }

  /** Concatenation regrouped to the right. */
  lemma Associative(a: string, b: string, c: string)
    ensures a + b + c == a + (b + c)
  {
  }

  /** Two concatenations with equally long heads agree on both parts. */
  lemma CancelHeads(a: string, x: string, b: string, y: string)
    requires |a| == |b|
    requires a + x == b + y
    ensures a == b && x == y
  {
    assert a == (a + x)[..|a|];
    assert b == (b + y)[..|b|];
    assert x == (a + x)[|a|..];
    assert y == (b + y)[|b|..];
  }

  /** Two concatenations with equally long tails agree on both parts. */
  lemma CancelTails(a: string, x: string, b: string, y: string)
    requires |x| == |y|
    requires a + x == b + y
    ensures a == b && x == y
  {
    CancelHeads(a, x, b, y);
  }

  /** The position of the first `c` in `s`, or `|s|` when there is none. */
  function FirstIndexOf(s: string, c: char): (k: nat)
    ensures k <= |s|
  {
    if s == [] then 0 else if s[0] == c then 0 else 1 + FirstIndexOf(s[1..], c)
  }

  /** A head free of `c` followed by `c` puts the first `c` right after the head. */
  lemma {:induction false} FirstIndexAfterHead(a: string, c: char, x: string)
    requires c !in a
    ensures FirstIndexOf(a + [c] + x, c) == |a|
  {
    if a != [] {
      assert (a + [c] + x)[1..] == a[1..] + [c] + x;
      FirstIndexAfterHead(a[1..], c, x);
    }
  }

  /** The number of characters after the last `c` in `s` (all of them when there is
      no `c`). */
  function CountAfterLast(s: string, c: char): (k: nat)
    ensures k <= |s|
  {
    if s == [] then 0 else if s[|s| - 1] == c then 0 else 1 + CountAfterLast(s[..|s| - 1], c)
  }

  /** `c` followed by a tail free of `c` puts the last `c` right before the tail. */
  lemma {:induction false} CountAfterLastBeforeTail(x: string, c: char, a: string)
    requires c !in a
    ensures CountAfterLast(x + [c] + a, c) == |a|
  {
    if a != [] {
      assert (x + [c] + a)[..|x + [c] + a| - 1] == x + [c] + a[..|a| - 1];
      CountAfterLastBeforeTail(x, c, a[..|a| - 1]);
    }
  }

  /** A separator that does not occur in the tails splits both strings at the same
      place. */
  lemma SplitAtLastSeparator(x: string, a: string, y: string, b: string, c: char)
    requires c !in a && c !in b
    requires x + [c] + a == y + [c] + b
    ensures x == y && a == b
  {
    CountAfterLastBeforeTail(x, c, a);
    CountAfterLastBeforeTail(y, c, b);
    CancelTails(x + [c], a, y + [c], b);
    CancelTails(x, [c], y, [c]);
  }

  /** A separator that does not occur in the heads splits both strings at the same
      place. */
  lemma SplitAtSeparator(a: string, x: string, b: string, y: string, c: char)
    requires c !in a && c !in b
    requires a + [c] + x == b + [c] + y
    ensures a == b && x == y
  {
    FirstIndexAfterHead(a, c, x);
    FirstIndexAfterHead(b, c, y);
    assert a + [c] + x == a + ([c] + x);
    assert b + [c] + y == b + ([c] + y);
    CancelHeads(a, [c] + x, b, [c] + y);
    assert x == ([c] + x)[1..];
    assert y == ([c] + y)[1..];
  }

  /** No separator character of an object key occurs in a numeral. */
  lemma NoSeparatorInNumeral(s: string, c: char)
    requires AllDigits(s)
    requires !IsDigitChar(c)
    ensures c !in s
  {
  }
}
