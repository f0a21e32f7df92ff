/** The pieces of Rust's standard string handling that the core relies on:
    `str::trim`, `str::find` for one character, `str::parse` for unsigned
    integers and the decimal `Display` of an unsigned integer. */
module Text {

  /** Unicode White_Space, the set `char::is_whitespace` (and so `str::trim`) uses. */
  predicate IsWhitespace(c: char) {
    || c == ' ' || c == '\t' || c == '\n' || c == '\U{000B}' || c == '\U{000C}' || c == '\r'
    || c == '\U{0085}' || c == '\U{00A0}' || c == '\U{1680}'
    || ('\U{2000}' <= c <= '\U{200A}')
    || c == '\U{2028}' || c == '\U{2029}' || c == '\U{202F}' || c == '\U{205F}' || c == '\U{3000}'
  }

  /** Every character of `s` from `lo` up to (not including) `hi` is whitespace. */
  predicate WhitespaceBetween(s: string, lo: nat, hi: nat)
    requires lo <= hi <= |s|
  {
    forall i :: lo <= i < hi ==> IsWhitespace(s[i])
  }

  predicate AllWhitespace(s: string) {
    WhitespaceBetween(s, 0, |s|)
  }

  /** Neither end of `s` is whitespace. */
  predicate IsTrimmed(s: string) {
    s == [] || (!IsWhitespace(s[0]) && !IsWhitespace(s[|s| - 1]))
  }

  /** Where `str::trim_start` cuts: the first index at or after `i` that is not whitespace. */
  function StartIndex(s: string, i: nat): (r: nat)
    requires i <= |s|
    ensures i <= r <= |s| && WhitespaceBetween(s, i, r)
    ensures r == |s| || !IsWhitespace(s[r])
    decreases |s| - i
  {
    if i < |s| && IsWhitespace(s[i]) then StartIndex(s, i + 1) else i
  }

  /** Where `str::trim_end` cuts in `s[lo..j]`: one past the last index before `j`
      (and not below `lo`) that is not whitespace. */
  function EndIndex(s: string, lo: nat, j: nat): (r: nat)
    requires lo <= j <= |s|
    ensures lo <= r <= j && WhitespaceBetween(s, r, j)
    ensures r == lo || !IsWhitespace(s[r - 1])
  {
    if j > lo && IsWhitespace(s[j - 1]) then EndIndex(s, lo, j - 1) else j
  }

  /** A trim of `s`: an infix of `s` with only whitespace around it and none at its ends. */
  ghost predicate IsTrimOf(r: string, s: string, lo: nat) {
    lo + |r| <= |s| && r == s[lo..lo + |r|] && IsTrimmed(r)
    && WhitespaceBetween(s, 0, lo) && WhitespaceBetween(s, lo + |r|, |s|)
  }

  /** `str::trim`: `trim_start` followed by `trim_end`. */
  function Trim(s: string): (r: string)
    ensures IsTrimOf(r, s, StartIndex(s, 0))
  {
    var lo := StartIndex(s, 0);
    var hi := EndIndex(s, lo, |s|);
    assert hi > lo ==> s[lo..hi][0] == s[lo] && s[lo..hi][hi - lo - 1] == s[hi - 1];
    s[lo..hi]
  }

  /** Any two trims of the same text are equal: the trim is determined by
      the text alone. */
  lemma TrimOfUnique(r1: string, lo1: nat, r2: string, lo2: nat, s: string)
    requires IsTrimOf(r1, s, lo1) && IsTrimOf(r2, s, lo2)
    ensures r1 == r2
  {
    if r1 != [] {
      assert s[lo1] == r1[0] && s[lo1 + |r1| - 1] == r1[|r1| - 1];
    }
    if r2 != [] {
      assert s[lo2] == r2[0] && s[lo2 + |r2| - 1] == r2[|r2| - 1];
    }
  }

  /** Text without whitespace at its ends is its own trim. */
  lemma TrimOfTrimmed(s: string)
    requires IsTrimmed(s)
    ensures Trim(s) == s
  {
    assert s[0..|s|] == s;
    TrimOfUnique(Trim(s), StartIndex(s, 0), s, 0, s);
  }

  /** Trimming twice is trimming once. */
  lemma TrimIdempotent(s: string)
    ensures Trim(Trim(s)) == Trim(s)
  {
    TrimOfTrimmed(Trim(s));
  }

  /** Whitespace added at either end never changes the trim. */
  lemma TrimIgnoresPadding(pre: string, s: string, post: string)
    requires AllWhitespace(pre) && AllWhitespace(post)
    ensures Trim(pre + s + post) == Trim(s)
  {
    var t := pre + s + post;
    var lo := StartIndex(s, 0);
    TrimOfPadded(pre, s, post, Trim(s), lo);
    TrimOfUnique(Trim(t), StartIndex(t, 0), Trim(s), |pre| + lo, t);
  }

  lemma TrimOfPadded(pre: string, s: string, post: string, r: string, lo: nat)
    requires AllWhitespace(pre) && AllWhitespace(post) && IsTrimOf(r, s, lo)
    ensures IsTrimOf(r, pre + s + post, |pre| + lo)
  {
    var t := pre + s + post;
    var lo' := |pre| + lo;
    assert t[lo'..lo' + |r|] == s[lo..lo + |r|];
    forall i | 0 <= i < |t| ensures t[i] == if i < |pre| then pre[i] else if i < |pre| + |s| then s[i - |pre|] else post[i - |pre| - |s|] {
    }
  }

  /** The index of the first occurrence of `c` in `s`, as `str::find` with a char pattern. */
  function Find(s: string, c: char): (r: Option<nat>)
    ensures r.None? <==> c !in s
    ensures r.Some? ==> r.value < |s| && s[r.value] == c && c !in s[..r.value]
  {
    if |s| == 0 then None
    else if s[0] == c then Some(0)
    else match Find(s[1..], c)
      case None => None
      case Some(i) => assert s[..i + 1] == [s[0]] + s[1..][..i]; Some(i + 1)
  }

  datatype Option<+T> = None | Some(value: T) {
    function GetOr(default: T): T {
      match this
      case Some(v) => v
      case None => default
    }
  }

  // ---- Decimal digits ------------------------------------------------------

  predicate IsDigit(c: char) { '0' <= c <= '9' }

  predicate AllDigits(s: string) {
    forall i :: 0 <= i < |s| ==> IsDigit(s[i])
  }

  function DigitChar(d: nat): (c: char)
    requires d < 10
    ensures IsDigit(c)
  {
    ('0' as int + d) as char
  }

  function DigitValue(c: char): (d: nat)
    requires IsDigit(c)
    ensures d < 10 && DigitChar(d) == c
    ensures forall e :: 0 <= e < 10 && DigitChar(e) == c ==> e == d
  {
    (c as int - '0' as int) as nat
  }

  /** The value of a string of decimal digits, most significant first. */
  function DigitsValue(s: string): nat
    requires AllDigits(s)
  {
    if s == [] then 0 else DigitsValue(s[..|s| - 1]) * 10 + DigitValue(s[|s| - 1])
  }

  /** The decimal form `Display` gives an unsigned integer: no sign, no leading zeros. */
  function NatToString(n: nat): (r: string)
    ensures |r| >= 1 && AllDigits(r)
    ensures |r| > 1 ==> r[0] != '0'
  {
    if n < 10 then [DigitChar(n)] else NatToString(n / 10) + [DigitChar(n % 10)]
  }

  /** Reading back the decimal form gives the number. */
  lemma {:induction false} DigitsOfNatToString(n: nat)
    ensures DigitsValue(NatToString(n)) == n
  {
    if n >= 10 {
      var s := NatToString(n);
      assert s == NatToString(n / 10) + [DigitChar(n % 10)];
      assert s[..|s| - 1] == NatToString(n / 10);
      assert DigitValue(s[|s| - 1]) == n % 10;
      DigitsOfNatToString(n / 10);
    }
  }

  lemma NatToStringInjective(a: nat, b: nat)
    requires NatToString(a) == NatToString(b)
    ensures a == b
  {
    DigitsOfNatToString(a);
    DigitsOfNatToString(b);
  }

  /** `str::parse` for an unsigned integer type whose largest value is `max`:
      an optional leading '+', then at least one ASCII digit and nothing else,
      with a value that fits. Anything else is an error (None). */
  function ParseUnsigned(s: string, max: nat): (r: Option<nat>)
    ensures r.Some? ==> r.value <= max
  {
    if s == [] then None
    else
      var digits := if s[0] == '+' then s[1..] else s;
      if digits == [] || !AllDigits(digits) then None
      else if DigitsValue(digits) <= max then Some(DigitsValue(digits))
      else None
  }

  /** The decimal form holds no whitespace at its ends. */
  lemma NatToStringTrimmed(n: nat)
    ensures IsTrimmed(NatToString(n)) && Trim(NatToString(n)) == NatToString(n)
  {
    TrimOfTrimmed(NatToString(n));
  }

  /** Parsing the `Display` form of a number that fits gives the number back. */
  lemma ParseDisplayRoundTrip(n: nat, max: nat)
    requires n <= max
    ensures ParseUnsigned(NatToString(n), max) == Some(n)
  {
    DigitsOfNatToString(n);
  }

  /** Text that is empty, signed with '-', or holds a non-digit never parses. */
  lemma ParseRejects(s: string, max: nat)
    requires s == [] || s[0] == '-' || s == "+" || (s[0] != '+' && !AllDigits(s))
    ensures ParseUnsigned(s, max) == None
  {
    if s != [] && s[0] == '-' {
      assert !IsDigit(s[0]);
    }
  }
}
