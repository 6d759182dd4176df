/** The JavaScript built-ins the core relies on, stated over exact integers and strings:
    `Math.round` and `Math.ceil` of a quotient, `String.prototype.split` on one character,
    `String.prototype.includes`, `parseInt` and `Array.prototype.slice(0, end)`. */
module JsBuiltins {
  import opened Collections

  /** `Math.round(num / den)` for exact rationals: the nearest integer, halves rounded up. */
  function RoundDiv(num: int, den: int): (r: int)
    requires den > 0
    ensures den * (2 * r - 1) <= 2 * num < den * (2 * r + 1)
  {
    (2 * num + den) / (2 * den)
  }

  /** `Math.ceil(num / den)`: the least integer not below the quotient. */
  function CeilDiv(num: int, den: int): (r: int)
    requires den > 0
    ensures den * (r - 1) < num <= den * r
  {
    (num + den - 1) / den
  }

  /** `Math.min(a, b)` and `Math.max(a, b)` on integers. */
  function Min(a: int, b: int): (r: int)
    ensures r <= a && r <= b && (r == a || r == b)
  {
    if a <= b then a else b
  }

  function Max(a: int, b: int): (r: int)
    ensures r >= a && r >= b && (r == a || r == b)
  {
    if a >= b then a else b
  }

  /** `sub` occurs in `s` starting at index `i`. */
  predicate OccursAt(s: string, sub: string, i: int)
  {
    0 <= i && i + |sub| <= |s| && s[i..i + |sub|] == sub
  }

  /** `s.includes(sub)`: `sub` occurs in `s` at some position `i`, that is, the slice of `s`
      of `sub`'s length starting at `i` is `sub`. */
  predicate Includes(s: string, sub: string)
    ensures Includes(s, sub) ==> |sub| <= |s|
  {
    exists i :: 0 <= i <= |s| && OccursAt(s, sub, i)
  }

  /** `s.split(sep)` for a one-character separator: the pieces between separators, empty ones
      included, so that there is always one more piece than there are separators. */
  function Split(s: string, sep: char): (r: seq<string>)
    ensures |r| >= 1
    ensures forall k :: 0 <= k < |r| ==> sep !in r[k]
    decreases |s|
  {
    match FindIndex(s, c => c == sep)
    case None => [s]
    case Some(i) => [s[..i]] + Split(s[i + 1..], sep)
  }

  /** `parts.join(sep)`, the inverse of `Split`. */
  function Join(parts: seq<string>, sep: char): string
    requires |parts| >= 1
  {
    if |parts| == 1 then parts[0] else parts[0] + [sep] + Join(parts[1..], sep)
  }

  lemma {:induction false} JoinSplit(s: string, sep: char)
    ensures Join(Split(s, sep), sep) == s
    decreases |s|
  {
    match FindIndex(s, c => c == sep)
    case None =>
    case Some(i) =>
      JoinSplit(s[i + 1..], sep);
      assert s == s[..i] + [sep] + s[i + 1..];
  }

  /** Without the separator there is a single piece, the whole string. */
  lemma SplitWithoutSeparator(s: string, sep: char)
    requires sep !in s
    ensures Split(s, sep) == [s]
  {
  }

  /** The piece before the first separator comes first. */
  lemma SplitAtFirst(a: string, sep: char, b: string)
    requires sep !in a
    ensures Split(a + [sep] + b, sep) == [a] + Split(b, sep)
  {
    var s := a + [sep] + b;
    var f := FindIndex(s, c => c == sep);
    assert s[|a|] == sep;
    assert forall k :: 0 <= k < |a| ==> s[k] == a[k];
    assert f == Some(|a|);
    assert s[..|a|] == a && s[|a| + 1..] == b;
  }

  /** A string holding the separator splits into at least two pieces. */
  lemma SplitWithSeparator(s: string, sep: char)
    requires sep in s
    ensures |Split(s, sep)| >= 2
  {
    var f := FindIndex(s, c => c == sep);
    assert exists k :: 0 <= k < |s| && s[k] == sep;
    assert f.Some?;
  }

  /** Including a one-character string is containing that character. */
  lemma IncludesChar(s: string, c: char)
    ensures Includes(s, [c]) <==> c in s
  {
    if c in s {
      var i :| 0 <= i < |s| && s[i] == c;
      assert OccursAt(s, [c], i);
    }
    if Includes(s, [c]) {
      var i :| 0 <= i <= |s| && OccursAt(s, [c], i);
      assert s[i] == s[i..i + 1][0];
    }
  }

  /** Every character of an included string occurs in the including one. */
  lemma IncludedChars(s: string, sub: string, c: char)
    requires Includes(s, sub) && c in sub
    ensures c in s
  {
    var i :| 0 <= i <= |s| && OccursAt(s, sub, i);
    var k :| 0 <= k < |sub| && sub[k] == c;
    assert s[i + k] == s[i..i + |sub|][k];
  }

  predicate IsDigit(c: char)
  {
    '0' <= c <= '9'
  }

  function DigitValue(c: char): nat
    requires IsDigit(c)
  {
    c as int - '0' as int
  }

  function DigitChar(d: nat): (c: char)
    requires d < 10
    ensures IsDigit(c) && DigitValue(c) == d
  {
    ('0' as int + d) as char
  }

  /** Length of the run of decimal digits at the start of `s`. */
  function DigitRun(s: string): (n: nat)
    ensures n <= |s|
    ensures forall k :: 0 <= k < n ==> IsDigit(s[k])
    ensures n < |s| ==> !IsDigit(s[n])
  {
    if s != [] && IsDigit(s[0]) then 1 + DigitRun(s[1..]) else 0
  }

  /** Decimal value of a string of digits, most significant first. */
  function DigitsValue(d: string): nat
    requires forall k :: 0 <= k < |d| ==> IsDigit(d[k])
  {
    if d == [] then 0 else 10 * DigitsValue(d[..|d| - 1]) + DigitValue(d[|d| - 1])
  }

  /** `parseInt(s)` with radix 10: an optional sign, then the longest run of digits; `None`
      stands for `NaN` (no digit after the sign). */
  function ParseInt(s: string): (r: Option<int>)
    ensures r.None? <==> DigitRun(if s != [] && (s[0] == '-' || s[0] == '+') then s[1..] else s) == 0
  {
    var negative := s != [] && s[0] == '-';
    var body := if s != [] && (s[0] == '-' || s[0] == '+') then s[1..] else s;
    var n := DigitRun(body);
    if n == 0 then None
    else
      var v: int := DigitsValue(body[..n]);
      Some(if negative then -v else v)
  }

  /** Decimal rendering of a natural number, as `String(n)`. */
  function NatToString(n: nat): (s: string)
    ensures |s| >= 1 && forall k :: 0 <= k < |s| ==> IsDigit(s[k])
  {
    if n < 10 then [DigitChar(n)] else NatToString(n / 10) + [DigitChar(n % 10)]
  }

  lemma {:induction false} DigitsValueOfNatToString(n: nat)
    ensures DigitsValue(NatToString(n)) == n
  {
    if n >= 10 {
      DigitsValueOfNatToString(n / 10);
      var s := NatToString(n);
      assert s[..|s| - 1] == NatToString(n / 10);
    }
  }

  /** `parseInt` reads back what `String` wrote, for either sign. */
  lemma ParseIntOfNatToString(n: nat)
    ensures ParseInt(NatToString(n)) == Some(n)
    ensures ParseInt("-" + NatToString(n)) == Some(-(n as int))
  {
    var s := NatToString(n);
    DigitsValueOfNatToString(n);
    DigitRunAllDigits(s);
    assert s[..|s|] == s;
    assert ("-" + s)[1..] == s;
  }

  lemma {:induction false} DigitRunAllDigits(s: string)
    requires forall k :: 0 <= k < |s| ==> IsDigit(s[k])
    ensures DigitRun(s) == |s|
  {
    if s != [] {
      DigitRunAllDigits(s[1..]);
    }
  }

  /** The end index that `Array.prototype.slice(0, end)` uses on a list of length `len`:
      a negative `end` counts from the back, and the result is clamped to `[0, len]`. */
  function SliceEnd(len: nat, end: int): (r: nat)
    ensures r <= len
    ensures 0 <= end ==> r == Min(end, len)
    ensures end < 0 ==> r == Max(len + end, 0)
  {
    if end < 0 then (if len + end < 0 then 0 else len + end)
    else if end < len then end else len
  }
}
