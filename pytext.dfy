/** The pieces of Python string behaviour the chat consumer relies on:
    `str.strip()`, `str.isspace()` on single characters, `f"{n}"` for an
    integer `n`, and `int(s)` for a string `s`. */
module PyText {
  import opened Options

  /** `c.isspace()`: the characters Python treats as whitespace (bidirectional
      class WS, B or S, or general category Zs). */
  predicate IsSpace(c: char) {
    var n := c as int;
    (0x09 <= n <= 0x0D) || (0x1C <= n <= 0x20) || n == 0x85 || n == 0xA0 ||
    n == 0x1680 || (0x2000 <= n <= 0x200A) || n == 0x2028 || n == 0x2029 ||
    n == 0x202F || n == 0x205F || n == 0x3000
  }

  predicate AllSpace(s: string) {
    forall i :: 0 <= i < |s| ==> IsSpace(s[i])
  }

  /** `s.lstrip()`: drops the leading whitespace, keeps a suffix of `s`. */
  function StripLeft(s: string): (r: string)
    ensures |r| <= |s| && r == s[|s| - |r|..]
    ensures AllSpace(s[..|s| - |r|])
    ensures r != [] ==> !IsSpace(r[0])
  {
    if |s| > 0 && IsSpace(s[0]) then
      var r := StripLeft(s[1..]);
      assert s[1..][..|s| - 1 - |r|] == s[1..|s| - |r|];
      r
    else s
  }

  /** `s.rstrip()`: drops the trailing whitespace, keeps a prefix of `s`. */
  function StripRight(s: string): (r: string)
    ensures |r| <= |s| && r == s[..|r|]
    ensures AllSpace(s[|r|..])
    ensures r != [] ==> !IsSpace(r[|r| - 1])
  {
    if |s| > 0 && IsSpace(s[|s| - 1]) then
      var r := StripRight(s[..|s| - 1]);
      assert s[..|s| - 1][|r|..] + [s[|s| - 1]] == s[|r|..];
      r
    else s
  }

  /** `r` is the slice of `s` starting at `i`, with only whitespace before
      and after it. */
  predicate Trims(s: string, i: int, r: string) {
    0 <= i <= |s| - |r| && r == s[i..i + |r|] && AllSpace(s[..i]) && AllSpace(s[i + |r|..])
  }

  /** `s.strip()`: the part of `s` between its leading and trailing whitespace.
      It is a slice of `s`, it is empty exactly when `s` is all whitespace,
      and otherwise it neither starts nor ends with whitespace. */
  function Strip(s: string): (r: string)
    ensures |r| <= |s|
    ensures exists i :: Trims(s, i, r)
    ensures r == [] <==> AllSpace(s)
    ensures r != [] ==> !IsSpace(r[0]) && !IsSpace(r[|r| - 1])
  {
    StripRightOfLeft(s);
    StripSlice(s);
    StripRight(StripLeft(s))
  }

  lemma {:induction false} StripRightOfLeft(s: string)
    ensures StripRight(StripLeft(s)) == [] <==> AllSpace(s)
    ensures StripRight(StripLeft(s)) != [] ==> !IsSpace(StripRight(StripLeft(s))[0])
  {
    var l := StripLeft(s);
    var r := StripRight(l);
    if r == [] {
      assert AllSpace(l[|r|..]) && l[|r|..] == l;
      assert s[..|s|] == s;
    } else {
      assert r[0] == l[0] == s[|s| - |l|];
      assert !IsSpace(s[|s| - |l|]);
    }
  }

  /** What `strip` keeps is the slice of `s` that starts where the leading
      whitespace ends; everything on either side of it is whitespace. */
  lemma {:induction false} StripSlice(s: string)
    ensures exists i :: Trims(s, i, StripRight(StripLeft(s)))
  {
    var l := StripLeft(s);
    var r := StripRight(l);
    var i := |s| - |l|;
    SuffixPrefix(s, l, r);
    assert AllSpace(s[..i]);
    assert Trims(s, i, r);
  }

  /** A prefix `r` of a suffix `l` of `s` is a slice of `s`. */
  lemma SuffixPrefix(s: string, l: string, r: string)
    requires |l| <= |s| && l == s[|s| - |l|..]
    requires |r| <= |l| && r == l[..|r|] && AllSpace(l[|r|..])
    ensures var i := |s| - |l|; r == s[i..i + |r|] && AllSpace(s[i + |r|..])
  {
    var i := |s| - |l|;
    assert l[|r|..] == s[i + |r|..];
  }

  /** Stripping a string that neither starts nor ends with whitespace leaves it alone. */
  lemma StripKeeps(s: string)
    requires |s| > 0 && !IsSpace(s[0]) && !IsSpace(s[|s| - 1])
    ensures Strip(s) == s
  {
    assert StripLeft(s) == s;
    assert StripRight(s) == s;
  }

  /** Whitespace-only input strips to the empty string. */
  lemma {:induction false} StripAllSpace(s: string)
    requires AllSpace(s)
    ensures StripLeft(s) == [] && Strip(s) == []
  {
    if |s| > 0 {
      assert AllSpace(s[1..]) by {
        forall i | 0 <= i < |s| - 1 ensures IsSpace(s[1..][i]) { assert s[1..][i] == s[i + 1]; }
      }
      StripAllSpace(s[1..]);
    }
  }

  // ---------------------------------------------------------------------------
  // Decimal integers
  // ---------------------------------------------------------------------------

  predicate IsDigit(c: char) { '0' <= c <= '9' }

  predicate AllDigits(s: string) {
    forall i :: 0 <= i < |s| ==> IsDigit(s[i])
  }

  function DigitChar(d: nat): (c: char)
    requires d < 10
    ensures IsDigit(c)
  {
    ('0' as int + d) as char
  }

  function DigitValue(c: char): (d: nat)
    requires IsDigit(c)
    ensures d < 10 && DigitChar(d) == c
  {
    c as int - '0' as int
  }

  /** The decimal digits of `n`, most significant first, without leading zeros. */
  function NatToString(n: nat): (r: string)
    ensures |r| >= 1 && AllDigits(r)
    ensures r[0] == '0' ==> n == 0
  {
    if n < 10 then [DigitChar(n)]
    else NatToString(n / 10) + [DigitChar(n % 10)]
  }

  /** The number written by a string of decimal digits (leading zeros allowed). */
  function DigitsValue(ds: string): nat
    requires AllDigits(ds)
  {
    if |ds| == 0 then 0
    else DigitsValue(ds[..|ds| - 1]) * 10 + DigitValue(ds[|ds| - 1])
  }

  /** `f"{n}"`: an optional minus sign followed by the digits of `|n|`. */
  function IntToString(n: int): (r: string)
    ensures |r| >= 1 && forall i :: 0 <= i < |r| ==> IsDigit(r[i]) || (i == 0 && r[i] == '-')
    ensures r[0] == '-' <==> n < 0
  {
    if n < 0 then "-" + NatToString(-n) else NatToString(n)
  }

  /** Python's default bound on the number of digits `int()` converts from a
      decimal string (`sys.get_int_max_str_digits()`); a longer digit string
      raises `ValueError`. */
  const MaxStrDigits := 4300

  function ParseDigits(ds: string): (r: Option<nat>)
    ensures r.Some? <==> 0 < |ds| <= MaxStrDigits && AllDigits(ds)
  {
    if 0 < |ds| <= MaxStrDigits && AllDigits(ds) then Some(DigitsValue(ds)) else None
  }

  /** `int(s)` for a string `s`: surrounding whitespace, then an optional sign,
      then one to 4300 ASCII digits; anything else is a `ValueError` (`None`).
      In particular a blank string is not a number, and a negative result
      was written with a minus sign. */
  function ParseInt(s: string): (r: Option<int>)
    ensures r.Some? ==> !AllSpace(s) && |Strip(s)| <= MaxStrDigits + (if Strip(s)[0] in "+-" then 1 else 0)
    ensures r.Some? && r.value < 0 ==> Strip(s)[0] == '-'
  {
    var t := Strip(s);
    if |t| > 0 && t[0] == '-' then
      match ParseDigits(t[1..])
      case Some(v) => Some(0 - v)
      case None => None
    else if |t| > 0 && t[0] == '+' then
      match ParseDigits(t[1..])
      case Some(v) => Some(v)
      case None => None
    else
      match ParseDigits(t)
      case Some(v) => Some(v)
      case None => None
  }

  lemma {:induction false} DigitsRoundTrip(n: nat)
    ensures DigitsValue(NatToString(n)) == n
  {
    if n >= 10 {
      var r := NatToString(n);
      assert r[..|r| - 1] == NatToString(n / 10);
      DigitsRoundTrip(n / 10);
    }
  }

  /** `int(f"{n}") == n`: formatting an integer and reading it back is
      lossless, for every integer of at most 4300 digits. */
  lemma ParseIntRoundTrip(n: int)
    requires |NatToString(if n < 0 then -n else n)| <= MaxStrDigits
    ensures ParseInt(IntToString(n)) == Some(n)
  {
    var s := IntToString(n);
    StripKeeps(s);
    if n < 0 {
      NegativeDigits(n);
    } else {
      DigitsRoundTrip(n);
    }
  }

  lemma NegativeDigits(n: int)
    requires n < 0
    ensures IntToString(n)[1..] == NatToString(-n)
    ensures DigitsValue(NatToString(-n)) == -n
  {
    assert IntToString(n) == "-" + NatToString(-n);
    DigitsRoundTrip(-n);
  }

  /** Distinct integers are written differently. */
  lemma IntToStringInjective(a: int, b: int)
    ensures IntToString(a) == IntToString(b) <==> a == b
  {
    if IntToString(a) == IntToString(b) {
      if a < 0 {
        assert b < 0;
        NegativeDigits(a);
        NegativeDigits(b);
      } else {
        DigitsRoundTrip(a);
        DigitsRoundTrip(b);
      }
    }
  }

  /** A number below 100 has at most two digits. */
  lemma SmallNatDigits(n: nat)
    requires n < 100
    ensures |NatToString(n)| <= 2
  {
    if n >= 10 {
      assert NatToString(n) == NatToString(n / 10) + [DigitChar(n % 10)];
    }
  }
}
