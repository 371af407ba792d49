/**
 * The string primitives the program leans on: `str.lower`, `str.strip`,
 * `str.startswith`, Python's ordering of `str` values, `int()` of a run of
 * digits, and the `{n:0Wd}` zero-padded decimal format.
 */
module Strings {
  import opened Prelude

  // ---------------------------------------------------------------- case

  /** True of the characters `str.lower` changes in the modelled range:
      ASCII `A`-`Z` and the Latin-1 capitals U+00C0..U+00DE except `×`. */
  predicate IsUpper(c: char)
  {
    ('A' <= c <= 'Z') || ('\U{C0}' <= c <= '\U{DE}' && c != '\U{D7}')
  }

  /** `str.lower` on one character (ASCII and Latin-1). */
  function LowerChar(c: char): (d: char)
    ensures !IsUpper(d)
    ensures IsUpper(c) ==> d as int == c as int + 32
    ensures !IsUpper(c) ==> d == c
  {
    if IsUpper(c) then (c as int + 32) as char else c
  }

  /** `str.lower` on a whole string: character by character, length kept. */
  function Lower(s: string): (r: string)
    ensures |r| == |s|
    ensures forall i :: 0 <= i < |s| ==> r[i] == LowerChar(s[i])
  {
    seq(|s|, i requires 0 <= i < |s| => LowerChar(s[i]))
  }

  /** Lowering twice is lowering once. */
  lemma LowerIdempotent(s: string)
    ensures Lower(Lower(s)) == Lower(s)
  {
    assert forall i :: 0 <= i < |s| ==> Lower(Lower(s))[i] == Lower(s)[i];
  }

  // ---------------------------------------------------------- whitespace

  /** Python's `str.isspace` on one character. */
  predicate IsSpace(c: char)
  {
    || ('\t' <= c <= '\r')
    || ('\U{1C}' <= c <= ' ')
    || c == '\U{85}' || c == '\U{A0}' || c == '\U{1680}'
    || ('\U{2000}' <= c <= '\U{200A}')
    || c == '\U{2028}' || c == '\U{2029}' || c == '\U{202F}'
    || c == '\U{205F}' || c == '\U{3000}'
  }

  /** Index of the first non-whitespace character (or |s| if there is none). */
  function FirstNonSpace(s: string): (i: nat)
    ensures i <= |s|
    ensures forall k :: 0 <= k < i ==> IsSpace(s[k])
    ensures i < |s| ==> !IsSpace(s[i])
  {
    if |s| == 0 || !IsSpace(s[0]) then 0 else 1 + FirstNonSpace(s[1..])
  }

  /** One past the last non-whitespace character (or 0 if there is none). */
  function EndNonSpace(s: string): (j: nat)
    ensures j <= |s|
    ensures forall k :: j <= k < |s| ==> IsSpace(s[k])
    ensures j > 0 ==> !IsSpace(s[j - 1])
  {
    if |s| == 0 || !IsSpace(s[|s| - 1]) then |s| else EndNonSpace(s[..|s| - 1])
  }

  /** `str.strip()`: the longest slice of `s` that neither starts nor ends
      with whitespace, obtained by removing whitespace only. */
  function Strip(s: string): (r: string)
    ensures FirstNonSpace(s) + |r| <= |s|
    ensures r == s[FirstNonSpace(s)..FirstNonSpace(s) + |r|]
    ensures forall k :: FirstNonSpace(s) + |r| <= k < |s| ==> IsSpace(s[k])
    ensures r == [] <==> forall k :: 0 <= k < |s| ==> IsSpace(s[k])
    ensures r != [] ==> !IsSpace(r[0]) && !IsSpace(r[|r| - 1])
  {
    var i := FirstNonSpace(s);
    if i == |s| then []
    else
      var j := EndNonSpace(s);
      s[i..j]
  }

  /** Whitespace characters are unchanged by lowering and lowering never
      produces whitespace, so stripping and lowering commute. */
  lemma {:induction false} StripLowerCommute(s: string)
    ensures Strip(Lower(s)) == Lower(Strip(s))
  {
    FirstNonSpaceLower(s);
    EndNonSpaceLower(s);
    var i := FirstNonSpace(s);
    var j := EndNonSpace(s);
    if i < |s| {
      LowerSlice(s, i, j);
    }
  }

  lemma LowerSlice(s: string, i: nat, j: nat)
    requires i <= j <= |s|
    ensures Lower(s)[i..j] == Lower(s[i..j])
  {
  }

  lemma SpaceUnderLower(c: char)
    ensures IsSpace(LowerChar(c)) <==> IsSpace(c)
  {
  }

  lemma {:induction false} FirstNonSpaceLower(s: string)
    ensures FirstNonSpace(Lower(s)) == FirstNonSpace(s)
    decreases |s|
  {
    if |s| > 0 {
      SpaceUnderLower(s[0]);
    }
    if |s| > 0 && IsSpace(s[0]) {
      assert Lower(s)[1..] == Lower(s[1..]);
      FirstNonSpaceLower(s[1..]);
    }
  }

  lemma {:induction false} EndNonSpaceLower(s: string)
    ensures EndNonSpace(Lower(s)) == EndNonSpace(s)
    decreases |s|
  {
    if |s| > 0 {
      SpaceUnderLower(s[|s| - 1]);
    }
    if |s| > 0 && IsSpace(s[|s| - 1]) {
      assert Lower(s)[..|s| - 1] == Lower(s[..|s| - 1]);
      EndNonSpaceLower(s[..|s| - 1]);
    }
  }

  /** A string that neither starts nor ends with whitespace is its own
      `strip()`, so stripping is idempotent. */
  lemma StripTrimmed(s: string)
    requires s == [] || (!IsSpace(s[0]) && !IsSpace(s[|s| - 1]))
    ensures Strip(s) == s
    ensures Strip(Strip(s)) == Strip(s)
  {
    if s != [] {
      assert FirstNonSpace(s) == 0;
      assert Strip(s) != [];
    }
  }

  /** `s.startswith(p)`. */
  predicate StartsWith(s: string, p: string)
  {
    |p| <= |s| && s[..|p|] == p
  }

  // ------------------------------------------------------------ ordering

  /** Python's `a <= b` on `str`: lexicographic by code point, a proper
      prefix sorting first. */
  predicate StrLe(a: string, b: string)
  {
    |a| == 0 || (|b| > 0 && (a[0] < b[0] || (a[0] == b[0] && StrLe(a[1..], b[1..]))))
  }

  lemma {:induction false} StrLeReflexive(a: string)
    ensures StrLe(a, a)
  {
    if |a| > 0 { StrLeReflexive(a[1..]); }
  }

  lemma {:induction false} StrLeAntisymmetric(a: string, b: string)
    requires StrLe(a, b) && StrLe(b, a)
    ensures a == b
  {
    if |a| > 0 {
      StrLeAntisymmetric(a[1..], b[1..]);
      assert a == [a[0]] + a[1..];
      assert b == [b[0]] + b[1..];
    }
  }

  lemma {:induction false} StrLeTransitive(a: string, b: string, c: string)
    requires StrLe(a, b) && StrLe(b, c)
    ensures StrLe(a, c)
  {
    if |a| > 0 && a[0] == b[0] && b[0] == c[0] {
      StrLeTransitive(a[1..], b[1..], c[1..]);
    }
  }

  lemma {:induction false} StrLeTotal(a: string, b: string)
    ensures StrLe(a, b) || StrLe(b, a)
  {
    if |a| > 0 && |b| > 0 && a[0] == b[0] {
      StrLeTotal(a[1..], b[1..]);
    }
  }

  // -------------------------------------------------------------- digits

  /** The zero of the only run of Unicode decimal digits (general category
      Nd, Unicode 15.0) that could hold `c`: the lowest run that does not
      end at or below `c`, or -1 above the last run. Each run holds the
      digits zero to nine at consecutive code points; `\d` in a pattern
      compiled without `re.ASCII` matches exactly these, and `int()` reads
      them by their digit value. */
  function DigitZero(c: char): int
  {
    var x := c as int;
    if x < 0x3A then 0x30
    else if x < 0x66A then 0x660
    else if x < 0x6FA then 0x6F0
    else if x < 0x7CA then 0x7C0
    else if x < 0x970 then 0x966
    else if x < 0x9F0 then 0x9E6
    else if x < 0xA70 then 0xA66
    else if x < 0xAF0 then 0xAE6
    else if x < 0xB70 then 0xB66
    else if x < 0xBF0 then 0xBE6
    else if x < 0xC70 then 0xC66
    else if x < 0xCF0 then 0xCE6
    else if x < 0xD70 then 0xD66
    else if x < 0xDF0 then 0xDE6
    else if x < 0xE5A then 0xE50
    else if x < 0xEDA then 0xED0
    else if x < 0xF2A then 0xF20
    else if x < 0x104A then 0x1040
    else if x < 0x109A then 0x1090
    else if x < 0x17EA then 0x17E0
    else if x < 0x181A then 0x1810
    else if x < 0x1950 then 0x1946
    else if x < 0x19DA then 0x19D0
    else if x < 0x1A8A then 0x1A80
    else if x < 0x1A9A then 0x1A90
    else if x < 0x1B5A then 0x1B50
    else if x < 0x1BBA then 0x1BB0
    else if x < 0x1C4A then 0x1C40
    else if x < 0x1C5A then 0x1C50
    else if x < 0xA62A then 0xA620
    else if x < 0xA8DA then 0xA8D0
    else if x < 0xA90A then 0xA900
    else if x < 0xA9DA then 0xA9D0
    else if x < 0xA9FA then 0xA9F0
    else if x < 0xAA5A then 0xAA50
    else if x < 0xABFA then 0xABF0
    else if x < 0xFF1A then 0xFF10
    else if x < 0x104AA then 0x104A0
    else if x < 0x10D3A then 0x10D30
    else if x < 0x11070 then 0x11066
    else if x < 0x110FA then 0x110F0
    else if x < 0x11140 then 0x11136
    else if x < 0x111DA then 0x111D0
    else if x < 0x112FA then 0x112F0
    else if x < 0x1145A then 0x11450
    else if x < 0x114DA then 0x114D0
    else if x < 0x1165A then 0x11650
    else if x < 0x116CA then 0x116C0
    else if x < 0x1173A then 0x11730
    else if x < 0x118EA then 0x118E0
    else if x < 0x1195A then 0x11950
    else if x < 0x11C5A then 0x11C50
    else if x < 0x11D5A then 0x11D50
    else if x < 0x11DAA then 0x11DA0
    else if x < 0x11F5A then 0x11F50
    else if x < 0x16A6A then 0x16A60
    else if x < 0x16ACA then 0x16AC0
    else if x < 0x16B5A then 0x16B50
    else if x < 0x1D7D8 then 0x1D7CE
    else if x < 0x1D7E2 then 0x1D7D8
    else if x < 0x1D7EC then 0x1D7E2
    else if x < 0x1D7F6 then 0x1D7EC
    else if x < 0x1D800 then 0x1D7F6
    else if x < 0x1E14A then 0x1E140
    else if x < 0x1E2FA then 0x1E2F0
    else if x < 0x1E4FA then 0x1E4F0
    else if x < 0x1E95A then 0x1E950
    else if x < 0x1FBFA then 0x1FBF0
    else -1
  }

  /** `str.isdecimal()` on one character. */
  predicate IsDigit(c: char)
  {
    DigitZero(c) <= c as int < DigitZero(c) + 10
  }

  predicate AllDigits(s: string)
  {
    forall i :: 0 <= i < |s| ==> IsDigit(s[i])
  }

  /** The value `int()` gives a single decimal digit: its distance from
      the zero of its run. */
  function DigitValue(c: char): (d: nat)
    requires IsDigit(c)
    ensures d < 10
    ensures '0' <= c <= '9' ==> d == c as int - '0' as int
  {
    c as int - DigitZero(c)
  }

  function DigitChar(d: nat): (c: char)
    requires d < 10
    ensures IsDigit(c) && DigitValue(c) == d
  {
    (d + '0' as int) as char
  }

  /** The value of a run of decimal digits, most significant first. */
  function DigitsValue(s: string): nat
    requires AllDigits(s)
    decreases |s|
  {
    if |s| == 0 then 0 else 10 * DigitsValue(s[..|s| - 1]) + DigitValue(s[|s| - 1])
  }

  /** `int(s)` for a captured run of digits: a value exactly when `s` is a
      non-empty string of decimal digits of any script, and no value (the
      `except` branch) otherwise. */
  function ParseDigits(s: string): (r: Option<nat>)
    ensures r.Some? <==> |s| > 0 && AllDigits(s)
  {
    if |s| > 0 && AllDigits(s) then Some(DigitsValue(s)) else None
  }

  /** The shortest decimal representation of `n`, as `str(n)`. */
  function Decimal(n: nat): (r: string)
    ensures 1 <= |r|
    ensures AllDigits(r)
    ensures |r| > 1 ==> r[0] != '0'
  {
    if n < 10 then [DigitChar(n)] else Decimal(n / 10) + [DigitChar(n % 10)]
  }

  /** `int(str(n)) == n`. */
  lemma {:induction false} DecimalRoundTrip(n: nat)
    ensures ParseDigits(Decimal(n)) == Some(n)
  {
    if n >= 10 {
      DecimalRoundTrip(n / 10);
      var s := Decimal(n);
      assert s[..|s| - 1] == Decimal(n / 10);
      assert DigitValue(s[|s| - 1]) == n % 10;
      assert DigitsValue(s) == 10 * (n / 10) + n % 10;
    }
  }

  /** Digits of other scripts read as their values: fullwidth `１２` and
      Arabic-Indic `٣٤` give 12 and 34, and a colon or a letter is no digit. */
  lemma ScriptDigits()
    ensures ParseDigits("\U{FF11}\U{FF12}") == Some(12)
    ensures ParseDigits("\U{0663}\U{0664}") == Some(34)
    ensures ParseDigits("1:") == None && ParseDigits("x") == None
  {
    assert DigitsValue("\U{FF11}") == 1;
    assert DigitsValue("\U{0663}") == 3;
    assert !IsDigit("1:"[1]);
  }

  function Zeros(k: nat): (r: string)
    ensures |r| == k && AllDigits(r)
    ensures forall i :: 0 <= i < k ==> r[i] == '0'
  {
    seq(k, i => '0')
  }

  /** Python's `f"{n:0{width}d}"` for a non-negative `n`: the decimal
      digits of `n`, left-padded with zeros to at least `width`. */
  function ZeroPad(n: nat, width: nat): (r: string)
    ensures |r| == Max(width, |Decimal(n)|)
    ensures AllDigits(r)
  {
    var d := Decimal(n);
    if |d| < width then Zeros(width - |d|) + d else d
  }

  lemma {:induction false} ZerosValue(k: nat)
    ensures DigitsValue(Zeros(k)) == 0
  {
    if k > 0 {
      assert Zeros(k)[..k - 1] == Zeros(k - 1);
      ZerosValue(k - 1);
    }
  }

  /** Leading zeros do not change the value of a digit string. */
  lemma {:induction false} LeadingZerosValue(k: nat, s: string)
    requires AllDigits(s)
    ensures AllDigits(Zeros(k) + s)
    ensures DigitsValue(Zeros(k) + s) == DigitsValue(s)
    decreases |s|
  {
    var t := Zeros(k) + s;
    assert AllDigits(t);
    if |s| == 0 {
      assert t == Zeros(k);
      ZerosValue(k);
    } else {
      var s' := s[..|s| - 1];
      assert t[..|t| - 1] == Zeros(k) + s';
      LeadingZerosValue(k, s');
    }
  }

  /** Reading a zero-padded number back yields the number: the padding is
      lossless whatever the width. */
  lemma ZeroPadRoundTrip(n: nat, width: nat)
    ensures ParseDigits(ZeroPad(n, width)) == Some(n)
  {
    DecimalRoundTrip(n);
    var d := Decimal(n);
    if |d| < width {
      LeadingZerosValue(width - |d|, d);
    }
  }

  /** Distinct numbers never share a zero-padded rendering. */
  lemma ZeroPadInjective(a: nat, b: nat, width: nat)
    requires ZeroPad(a, width) == ZeroPad(b, width)
    ensures a == b
  {
    ZeroPadRoundTrip(a, width);
    ZeroPadRoundTrip(b, width);
  }

  function Pow10(k: nat): (p: nat)
    ensures p >= 1
  {
    if k == 0 then 1 else 10 * Pow10(k - 1)
  }

  /** A number below 10^k needs at most k digits. */
  lemma {:induction false} DecimalLength(n: nat, k: nat)
    requires 1 <= k && n < Pow10(k)
    ensures |Decimal(n)| <= k
  {
    if n >= 10 {
      assert k >= 2;
      DecimalLength(n / 10, k - 1);
    }
  }

  /** Zero-padding to `width` a number below 10^width gives exactly
      `width` characters. */
  lemma ZeroPadExactWidth(n: nat, width: nat)
    requires 1 <= width && n < Pow10(width)
    ensures |ZeroPad(n, width)| == width
  {
    DecimalLength(n, width);
  }
}
