/** The string operations of JavaScript that the app relies on. */
module Text {
  import opened Wrappers

  predicate IsDigit(c: char) {
    '0' <= c <= '9'
  }

  function DigitChar(d: nat): (c: char)
    requires d < 10
    ensures IsDigit(c)
  {
    ('0' as int + d) as char
  }

  function DigitValue(c: char): (d: nat)
    requires IsDigit(c)
    ensures d < 10 && DigitChar(d) == c
  {
    c as int - '0' as int
  }

  predicate AllDigits(s: string) {
    forall i :: 0 <= i < |s| ==> IsDigit(s[i])
  }

  /** `n.toString()` for a non-negative integer: its decimal digits, without leading zeros. */
  function NatToString(n: nat): (s: string)
    ensures |s| >= 1 && AllDigits(s)
    ensures |s| > 1 ==> s[0] != '0'
    decreases n
  {
    if n < 10 then [DigitChar(n)] else NatToString(n / 10) + [DigitChar(n % 10)]
  }

  /** The number a string of decimal digits denotes. */
  function ParseDigits(s: string): nat
    requires AllDigits(s)
    decreases |s|
  {
    if s == [] then 0 else 10 * ParseDigits(s[..|s| - 1]) + DigitValue(s[|s| - 1])
  }

  /** Reading back the decimal text of `n` gives `n`. */
  lemma {:induction false} ParseNatToString(n: nat)
    ensures ParseDigits(NatToString(n)) == n
    decreases n
  {
    var s := NatToString(n);
    if n >= 10 {
      assert s[..|s| - 1] == NatToString(n / 10);
      ParseNatToString(n / 10);
    }
  }

  /** Distinct numbers have distinct decimal texts. */
  lemma NatToStringInjective(a: nat, b: nat)
    requires NatToString(a) == NatToString(b)
    ensures a == b
  {
    ParseNatToString(a);
    ParseNatToString(b);
  }

  /** Two strings that share a prefix are equal exactly when what follows it is equal. */
  lemma SamePrefixCancels(p: string, a: string, b: string)
    requires p + a == p + b
    ensures a == b
  {
    assert a == (p + a)[|p|..];
    assert b == (p + b)[|p|..];
  }

  /**
   * A digit string followed by a non-digit separator is read back unambiguously: the
   * separator's first occurrence splits the text into the same two parts.
   */
  lemma {:induction false} DigitsThenSeparator(a: string, b: string, c: string, d: string, sep: char)
    requires AllDigits(a) && AllDigits(c) && !IsDigit(sep)
    requires a + ([sep] + b) == c + ([sep] + d)
    ensures a == c && b == d
    decreases |a|
  {
    var x, y := a + ([sep] + b), c + ([sep] + d);
    if a == [] {
      assert x[1..] == b && y[1..] == d;
    } else {
      assert x[0] == a[0] && y[0] == c[0];
      assert x[1..] == a[1..] + ([sep] + b);
      assert y[1..] == c[1..] + ([sep] + d);
      DigitsThenSeparator(a[1..], b, c[1..], d, sep);
      assert a == [a[0]] + a[1..] && c == [c[0]] + c[1..];
    }
  }

  /** `s.toLowerCase()` restricted to the ASCII letters. */
  function LowerChar(c: char): char {
    if 'A' <= c <= 'Z' then (c as int + 32) as char else c
  }

  function ToLower(s: string): (r: string)
    ensures |r| == |s|
    ensures forall i :: 0 <= i < |s| ==> !('A' <= r[i] <= 'Z')
    ensures forall i :: 0 <= i < |s| && !('A' <= s[i] <= 'Z') ==> r[i] == s[i]
  {
    seq(|s|, i requires 0 <= i < |s| => LowerChar(s[i]))
  }

  /** `sub` occurs in `s` starting at position `i`. */
  predicate OccursAt(s: string, sub: string, i: nat) {
    i + |sub| <= |s| && s[i..i + |sub|] == sub
  }

  /** Moving the start of the text one character on moves every occurrence one place back. */
  lemma OccursShift(s: string, sub: string)
    requires s != []
    ensures forall i: nat :: 1 <= i ==> (OccursAt(s, sub, i) <==> OccursAt(s[1..], sub, i - 1))
  {
    forall i: nat | 1 <= i
      ensures OccursAt(s, sub, i) <==> OccursAt(s[1..], sub, i - 1)
    {
      if i + |sub| <= |s| {
        assert s[1..][i - 1..i - 1 + |sub|] == s[i..i + |sub|];
      }
    }
  }

  /** `s.includes(sub)`: `sub` occurs in `s` as a contiguous block. */
  function Includes(s: string, sub: string): (b: bool)
    ensures b <==> exists i: nat :: OccursAt(s, sub, i)
    decreases |s|
  {
    if |s| < |sub| then false
    else if s[..|sub|] == sub then (assert OccursAt(s, sub, 0); true)
    else
      var r := Includes(s[1..], sub);
      OccursShift(s, sub);
      assert !OccursAt(s, sub, 0);
      assert r ==> exists j: nat :: OccursAt(s[1..], sub, j) && OccursAt(s, sub, j + 1);
      r
  }

  /** The empty search text occurs in every string. */
  lemma IncludesEmpty(s: string)
    ensures Includes(s, [])
  {
    assert OccursAt(s, [], 0);
  }

  /** The characters `String.prototype.trim` removes: WhiteSpace and LineTerminator of ECMA-262. */
  predicate IsSpace(c: char) {
    || c == ' ' || c == '\t' || c == '\n' || c == '\r'
    || c == '\U{000B}' || c == '\U{000C}' || c == '\U{00A0}' || c == '\U{1680}'
    || ('\U{2000}' <= c <= '\U{200A}')
    || c == '\U{2028}' || c == '\U{2029}' || c == '\U{202F}' || c == '\U{205F}'
    || c == '\U{3000}' || c == '\U{FEFF}'
  }

  predicate IsBlank(s: string) {
    forall i :: 0 <= i < |s| ==> IsSpace(s[i])
  }

  /** The index of the first non-space character at or after `i`, or `|s|` when there is none. */
  function FirstNonSpace(s: string, i: nat): (k: nat)
    requires i <= |s|
    ensures i <= k <= |s|
    ensures forall j :: i <= j < k ==> IsSpace(s[j])
    ensures k < |s| ==> !IsSpace(s[k])
    decreases |s| - i
  {
    if i < |s| && IsSpace(s[i]) then FirstNonSpace(s, i + 1) else i
  }

  /** The end of `s[k..e]` once its trailing white space is dropped. */
  function EndOfCore(s: string, k: nat, e: nat): (r: nat)
    requires k <= e <= |s|
    ensures k <= r <= e
    ensures forall j :: r <= j < e ==> IsSpace(s[j])
    ensures r > k ==> !IsSpace(s[r - 1])
    decreases e
  {
    if e > k && IsSpace(s[e - 1]) then EndOfCore(s, k, e - 1) else e
  }

  /** `r` is the block of `s` starting at `k`, with only white space before and after it. */
  predicate IsCoreAt(s: string, r: string, k: nat) {
    && k + |r| <= |s| && s[k..k + |r|] == r
    && (forall j :: 0 <= j < k ==> IsSpace(s[j]))
    && (forall j :: k + |r| <= j < |s| ==> IsSpace(s[j]))
  }

  /** `s.trim()`: the block of `s` left after removing white space at both ends. */
  function Trim(s: string): (r: string)
    ensures exists k: nat :: IsCoreAt(s, r, k)
    ensures r == [] || (!IsSpace(r[0]) && !IsSpace(r[|r| - 1]))
  {
    var k := FirstNonSpace(s, 0);
    var e := EndOfCore(s, k, |s|);
    assert IsCoreAt(s, s[k..e], k);
    s[k..e]
  }

  /** The trimmed text is empty exactly when the string is all white space. */
  lemma TrimEmptyIffBlank(s: string)
    ensures Trim(s) == [] <==> IsBlank(s)
  {
    var k: nat :| IsCoreAt(s, Trim(s), k);
    if Trim(s) != [] {
      assert s[k] == Trim(s)[0];
    }
  }

  /** Trimming a trimmed string changes nothing. */
  lemma TrimIdempotent(s: string)
    ensures Trim(Trim(s)) == Trim(s)
  {
    var t := Trim(s);
    assert FirstNonSpace(t, 0) == 0;
    assert EndOfCore(t, 0, |t|) == |t|;
    assert t[0..|t|] == t;
  }

  /** `s.split(' ')[0]`: the text before the first space, or all of `s` when it has none. */
  function FirstWord(s: string): (w: string)
    ensures |w| <= |s| && w == s[..|w|]
    ensures ' ' !in w
    ensures |w| < |s| ==> s[|w|] == ' '
    decreases |s|
  {
    if s == [] || s[0] == ' ' then [] else [s[0]] + FirstWord(s[1..])
  }

  /** 10 to the power `n`. */
  function Pow10(n: nat): (p: nat)
    ensures p >= 1
  {
    if n == 0 then 1 else 10 * Pow10(n - 1)
  }

  /** The position of the first `c` or `d` in `s`, or `|s|` when there is none. */
  function IndexOf(s: string, c: char, d: char): (k: nat)
    ensures k <= |s|
    ensures k < |s| ==> s[k] == c || s[k] == d
    ensures forall j :: 0 <= j < k ==> s[j] != c && s[j] != d
    decreases |s|
  {
    if s == [] || s[0] == c || s[0] == d then 0 else 1 + IndexOf(s[1..], c, d)
  }

  /** A text with neither `c` nor `d` has no position for them. */
  lemma {:induction false} IndexOfAbsent(s: string, c: char, d: char)
    requires c !in s && d !in s
    ensures IndexOf(s, c, d) == |s|
    decreases |s|
  {
    if s != [] {
      assert s[0] in s;
      assert forall x :: x in s[1..] ==> x in s;
      IndexOfAbsent(s[1..], c, d);
    }
  }

  /** The exact value of the decimal `whole.fraction`. */
  function DecimalValue(whole: string, fraction: string): real
    requires AllDigits(whole) && AllDigits(fraction)
  {
    ParseDigits(whole) as real + ParseDigits(fraction) as real / Pow10(|fraction|) as real
  }

  /**
   * The digits before an optional fraction: one or more digits, or a dot and one or more
   * digits, or both; the value is the exact decimal.
   */
  function ParseMantissa(m: string): (r: Option<real>)
    ensures r.Some? ==> r.value >= 0.0
  {
    var dot := IndexOf(m, '.', '.');
    var whole := m[..dot];
    if !AllDigits(whole) then None
    else if dot == |m| then
      (if whole == [] then None else Some(ParseDigits(whole) as real))
    else
      var fraction := m[dot + 1..];
      if fraction == [] || !AllDigits(fraction) then None
      else Some(DecimalValue(whole, fraction))
  }

  /** The part after `e` or `E`: an optional sign and one or more digits. */
  function ParseExponent(x: string): (r: Option<int>)
    ensures r.Some? ==> x != []
  {
    if x != [] && (x[0] == '+' || x[0] == '-') then
      (if x[1..] == [] || !AllDigits(x[1..]) then None
       else Some(if x[0] == '-' then -(ParseDigits(x[1..]) as int) else ParseDigits(x[1..]) as int))
    else if x == [] || !AllDigits(x) then None
    else Some(ParseDigits(x))
  }

  /** `v` times ten to the power `e`. */
  function Scale(v: real, e: int): (r: real)
    ensures v >= 0.0 ==> r >= 0.0
  {
    if e >= 0 then v * Pow10(e) as real else v / Pow10(-e) as real
  }

  /**
   * The value of a number field's text under the HTML rules for a valid floating-point number:
   * an optional minus sign, a mantissa, and an optional exponent. Any other text, the empty text
   * included, has no value. The value is the exact decimal the text denotes.
   */
  function ParseFloatingPoint(s: string): (r: Option<real>)
    ensures s == [] ==> r.None?
    ensures r.Some? && r.value < 0.0 ==> s[0] == '-'
    ensures r.Some? && s[0] == '-' ==> r.value <= 0.0
  {
    var negative := s != [] && s[0] == '-';
    var body := if negative then s[1..] else s;
    var e := IndexOf(body, 'e', 'E');
    var mantissa := ParseMantissa(body[..e]);
    var exponent := if e == |body| then Some(0) else ParseExponent(body[e + 1..]);
    if mantissa.None? || exponent.None? then None
    else Some(if negative then -Scale(mantissa.value, exponent.value) else Scale(mantissa.value, exponent.value))
  }

  /** Without a sign or an exponent, a text's value is its mantissa's. */
  lemma PlainMantissa(s: string)
    requires s != [] && s[0] != '-' && 'e' !in s && 'E' !in s
    ensures ParseFloatingPoint(s) == ParseMantissa(s)
  {
    IndexOfAbsent(s, 'e', 'E');
    assert s[..|s|] == s;
    if ParseMantissa(s).Some? {
      assert Scale(ParseMantissa(s).value, 0) == ParseMantissa(s).value;
    }
  }

  /** A non-empty digit string reads as the whole number it denotes. */
  lemma ParseWholeText(s: string)
    requires s != [] && AllDigits(s)
    ensures ParseFloatingPoint(s) == Some(ParseDigits(s) as real)
  {
    DigitsLack(s, 'e');
    DigitsLack(s, 'E');
    DigitsLack(s, '.');
    assert s[0] != '-';
    PlainMantissa(s);
    IndexOfAbsent(s, '.', '.');
    assert s[..|s|] == s;
  }

  /** A digit string holds no character that is not a digit. */
  lemma DigitsLack(s: string, c: char)
    requires AllDigits(s) && !IsDigit(c)
    ensures c !in s
  {
  }

  /** Past a prefix free of `c` and `d`, the search goes on in what follows. */
  lemma {:induction false} IndexOfPast(a: string, b: string, c: char, d: char)
    requires c !in a && d !in a
    ensures IndexOf(a + b, c, d) == |a| + IndexOf(b, c, d)
    decreases |a|
  {
    if a != [] {
      assert a[0] in a;
      assert forall x :: x in a[1..] ==> x in a;
      assert (a + b)[0] == a[0] && a[0] != c && a[0] != d;
      assert (a + b)[1..] == a[1..] + b;
      IndexOfPast(a[1..], b, c, d);
    } else {
      assert a + b == b;
    }
  }

  /** The mantissa `whole.fraction` is the whole part plus the fraction over its power of ten. */
  lemma DecimalMantissa(whole: string, fraction: string)
    requires AllDigits(whole) && AllDigits(fraction) && fraction != []
    ensures ParseMantissa(whole + "." + fraction)
      == Some(DecimalValue(whole, fraction))
  {
    var s := whole + ("." + fraction);
    DigitsLack(whole, '.');
    IndexOfPast(whole, "." + fraction, '.', '.');
    var dot := IndexOf(s, '.', '.');
    assert dot == |whole| < |s|;
    assert s[..dot] == whole && s[dot + 1..] == fraction;
    assert AllDigits(s[..dot]);
    assert ParseMantissa(s) == Some(DecimalValue(whole, fraction));
    assert whole + "." + fraction == s;
  }

  /** A plain decimal `whole.fraction` reads as the whole part plus the fraction over its power of ten. */
  lemma ParseDecimalText(whole: string, fraction: string)
    requires AllDigits(whole) && AllDigits(fraction) && fraction != []
    ensures ParseFloatingPoint(whole + "." + fraction)
      == Some(DecimalValue(whole, fraction))
  {
    var s := whole + ("." + fraction);
    DigitsLack(whole, 'e');
    DigitsLack(whole, 'E');
    DigitsLack(fraction, 'e');
    DigitsLack(fraction, 'E');
    DigitsLack(whole, '-');
    assert s[0] != '-' by {
      if whole != [] { assert s[0] == whole[0]; } else { assert s[0] == '.'; }
    }
    assert whole + "." + fraction == s;
    PlainMantissa(s);
    DecimalMantissa(whole, fraction);
  }

  /** Without a sign, `mantissa` then `e` or `E` then an exponent text reads as the mantissa scaled. */
  lemma ExponentSplit(m: string, mark: char, x: string)
    requires mark == 'e' || mark == 'E'
    requires m != [] && m[0] != '-' && 'e' !in m && 'E' !in m
    ensures ParseFloatingPoint(m + [mark] + x) ==
      if ParseMantissa(m).None? || ParseExponent(x).None? then None
      else Some(Scale(ParseMantissa(m).value, ParseExponent(x).value))
  {
    var s := m + ([mark] + x);
    assert m + [mark] + x == s;
    IndexOfPast(m, [mark] + x, 'e', 'E');
    assert IndexOf(s, 'e', 'E') == |m|;
    assert s[..|m|] == m && s[|m| + 1..] == x;
  }

  /** A digit string is a mantissa worth the whole number it denotes. */
  lemma WholeMantissa(digits: string)
    requires digits != [] && AllDigits(digits)
    ensures ParseMantissa(digits) == Some(ParseDigits(digits) as real)
  {
    DigitsLack(digits, '.');
    IndexOfAbsent(digits, '.', '.');
    assert digits[..|digits|] == digits;
  }

  /** Scaling by a non-negative exponent multiplies by its power of ten. */
  lemma ScaleUp(v: real, n: nat)
    ensures Scale(v, n) == v * Pow10(n) as real
  {
  }

  /** Scaling by a negative exponent divides by its power of ten. */
  lemma ScaleDown(v: real, n: nat)
    requires n > 0
    ensures Scale(v, -(n as int)) == v / Pow10(n) as real
  {
  }

  /** `digits` `e` `exponent` reads as the whole number scaled up by ten to the exponent (see `ScaleUp`). */
  lemma ParseExponentText(digits: string, exponent: string)
    requires digits != [] && AllDigits(digits) && exponent != [] && AllDigits(exponent)
    ensures ParseFloatingPoint(digits + "e" + exponent) == Some(Scale(ParseDigits(digits) as real, ParseDigits(exponent)))
  {
    DigitsLack(digits, 'e');
    DigitsLack(digits, 'E');
    assert digits[0] != '-';
    WholeMantissa(digits);
    assert ParseExponent(exponent) == Some(ParseDigits(exponent) as int);
    assert digits + "e" + exponent == digits + ['e'] + exponent;
    ExponentSplit(digits, 'e', exponent);
  }

  /** `digits` `e-` `exponent` reads as the whole number scaled down by ten to the exponent (see `ScaleDown`). */
  lemma ParseNegativeExponentText(digits: string, exponent: string)
    requires digits != [] && AllDigits(digits) && exponent != [] && AllDigits(exponent)
    ensures ParseFloatingPoint(digits + "e-" + exponent) == Some(Scale(ParseDigits(digits) as real, -(ParseDigits(exponent) as int)))
  {
    DigitsLack(digits, 'e');
    DigitsLack(digits, 'E');
    assert digits[0] != '-';
    WholeMantissa(digits);
    NegativeExponent(exponent);
    var tail := "-" + exponent;
    assert |digits + "e-" + exponent| == |digits + ['e'] + tail|;
    forall i | 0 <= i < |digits + "e-" + exponent|
      ensures (digits + "e-" + exponent)[i] == (digits + ['e'] + tail)[i]
    {
      if i > |digits| {
        assert (digits + "e-" + exponent)[i] == ("e-" + exponent)[i - |digits|];
        assert (digits + ['e'] + tail)[i] == (['e'] + tail)[i - |digits|];
      }
    }
    assert digits + "e-" + exponent == digits + ['e'] + tail;
    ExponentSplit(digits, 'e', tail);
  }

  /** A minus sign before the exponent digits negates the exponent. */
  lemma NegativeExponent(exponent: string)
    requires exponent != [] && AllDigits(exponent)
    ensures ParseExponent("-" + exponent) == Some(-(ParseDigits(exponent) as int))
  {
    assert ("-" + exponent)[1..] == exponent;
  }

  /** A tenth written with an exponent reads as the same value as "0.1". */
  lemma TenthInExponentForm()
    ensures ParseFloatingPoint("1e-1") == Some(0.1)
  {
    ParseNegativeExponentText("1", "1");
    assert "1" + "e-" + "1" == "1e-1";
    assert ParseDigits("1") == 1;
    ScaleDown(1.0, 1);
  }

  /** A trailing dot with no fraction digit is outside the grammar. */
  lemma TrailingDotRefused(digits: string)
    requires AllDigits(digits)
    ensures ParseFloatingPoint(digits + ".").None?
  {
    var s := digits + ".";
    DigitsLack(digits, 'e');
    DigitsLack(digits, 'E');
    DigitsLack(digits, '.');
    assert s[0] != '-' by {
      if digits != [] { assert s[0] == digits[0]; } else { assert s[0] == '.'; }
    }
    PlainMantissa(s);
    IndexOfPast(digits, ".", '.', '.');
    assert s[|digits| + 1..] == [];
  }

  /** A leading plus sign is outside the grammar. */
  lemma PlusSignRefused(rest: string)
    requires 'e' !in rest && 'E' !in rest
    ensures ParseFloatingPoint("+" + rest).None?
  {
    var s := "+" + rest;
    assert 'e' !in s && 'E' !in s;
    PlainMantissa(s);
    var dot := IndexOf(s, '.', '.');
    assert dot >= 1;
    assert s[..dot][0] == '+';
  }

  /** An exponent mark with no digits after it is outside the grammar. */
  lemma BareExponentRefused(digits: string)
    requires digits != [] && AllDigits(digits)
    ensures ParseFloatingPoint(digits + "e").None?
  {
    DigitsLack(digits, 'e');
    DigitsLack(digits, 'E');
    assert digits[0] != '-';
    assert digits + "e" == digits + ['e'] + [];
    ExponentSplit(digits, 'e', []);
  }
}
