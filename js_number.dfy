/**
 * `parseInt(s, 10) || 0` and `n.toString()` on whole numbers.
 * Numbers are unbounded integers here; the double-precision rounding of very
 * long digit strings is not modelled.
 */
module JsNumber {
  import opened JsText

  predicate IsDigit(c: char) {
    '0' <= c <= '9'
  }

  predicate AllDigits(s: string) {
    forall i :: 0 <= i < |s| ==> IsDigit(s[i])
  }

  function DigitValue(c: char): (d: nat)
    requires IsDigit(c)
    ensures d < 10
  {
    (c as int) - ('0' as int)
  }

  function DigitChar(d: nat): (c: char)
    requires d < 10
    ensures IsDigit(c) && DigitValue(c) == d
  {
    ('0' as int + d) as char
  }

  /** The value of a run of decimal digits, most significant first. */
  function DigitsValue(ds: string): nat
    requires AllDigits(ds)
  {
    if ds == [] then 0 else 10 * DigitsValue(ds[..|ds| - 1]) + DigitValue(ds[|ds| - 1])
  }

  /** The longest prefix of `s` made of decimal digits: where `parseInt` stops reading. */
  function LeadingDigits(s: string): (d: string)
    ensures |d| <= |s| && d == s[..|d|] && AllDigits(d)
    ensures |d| == |s| || !IsDigit(s[|d|])
  {
    if s != [] && IsDigit(s[0]) then [s[0]] + LeadingDigits(s[1..]) else []
  }

  /** What `parseInt` reads after the sign: the text with one leading `+` or `-` removed. */
  function Unsigned(t: string): string {
    if t != [] && (t[0] == '-' || t[0] == '+') then t[1..] else t
  }

  /**
   * `parseInt(s, 10) || 0`: skip leading white space, read an optional sign and
   * the digits that follow; no digits gives NaN, which `|| 0` turns into 0.
   */
  function ParseIntOrZero(s: string): int {
    var t := TrimStart(s);
    var digits := LeadingDigits(Unsigned(t));
    if digits == [] then 0
    else if t[0] == '-' then -(DigitsValue(digits) as int)
    else DigitsValue(digits)
  }

  /** `n.toString()` for a non-negative whole number. */
  function DecimalString(n: nat): (s: string)
    ensures s != [] && AllDigits(s)
    ensures |s| > 1 ==> s[0] != '0'
  {
    if n < 10 then [DigitChar(n)] else DecimalString(n / 10) + [DigitChar(n % 10)]
  }

  /** A digit string is its own leading-digit run. */
  lemma {:induction false} LeadingDigitsOfDigits(s: string)
    requires AllDigits(s)
    ensures LeadingDigits(s) == s
  {
    if s != [] {
      LeadingDigitsOfDigits(s[1..]);
    }
  }

  /** The decimal rendering denotes the number it renders. */
  lemma {:induction false} DecimalStringValue(n: nat)
    ensures DigitsValue(DecimalString(n)) == n
  {
    var s := DecimalString(n);
    if n >= 10 {
      DecimalStringValue(n / 10);
      assert s[..|s| - 1] == DecimalString(n / 10);
    }
  }

  /** `parseInt(n.toString(), 10) || 0 == n`. */
  lemma DecimalRoundTrip(n: nat)
    ensures ParseIntOrZero(DecimalString(n)) == n
  {
    ParseDigits(DecimalString(n));
    DecimalStringValue(n);
  }

  /** A non-empty run of digits parses to its value. */
  lemma ParseDigits(s: string)
    requires s != [] && AllDigits(s)
    ensures ParseIntOrZero(s) == DigitsValue(s)
  {
    assert TrimStart(s) == s;
    assert Unsigned(s) == s;
    LeadingDigitsOfDigits(s);
  }

  /** Leading zeros do not change the value of a digit run. */
  lemma {:induction false} LeadingZeroValue(ds: string)
    requires AllDigits(ds)
    ensures AllDigits("0" + ds) && DigitsValue("0" + ds) == DigitsValue(ds)
  {
    if ds != [] {
      assert ("0" + ds)[..|ds|] == "0" + ds[..|ds| - 1];
      LeadingZeroValue(ds[..|ds| - 1]);
    }
  }

  /** Cutting text at a point where no digit follows leaves the leading digit run as it is. */
  lemma {:induction false} LeadingDigitsOfCut(s: string, k: nat)
    requires k <= |s| && (k == |s| || !IsDigit(s[k]))
    ensures LeadingDigits(s[..k]) == LeadingDigits(s)
  {
    if s != [] && k > 0 {
      assert s[..k][0] == s[0];
      assert s[..k][1..] == s[1..][..k - 1];
      LeadingDigitsOfCut(s[1..], k - 1);
    }
  }

  /** The leading digit run of a digit string followed by a non-digit is that digit string. */
  lemma LeadingDigitsOf(ds: string, rest: string)
    requires AllDigits(ds) && (rest == [] || !IsDigit(rest[0]))
    ensures LeadingDigits(ds + rest) == ds
  {
    var s := ds + rest;
    assert s[..|ds|] == ds;
    assert |ds| == |s| || s[|ds|] == rest[0];
    LeadingDigitsOfCut(s, |ds|);
    LeadingDigitsOfDigits(ds);
  }

  /**
   * How `parseInt(s, 10) || 0` reads text made of leading white space, an
   * optional sign, a digit run and anything that does not continue it: no
   * digits reads as 0, a minus negates the digits' value, and the rest is
   * ignored.
   */
  lemma ParseIntOrZeroReads(ws: string, sign: string, ds: string, rest: string)
    requires AllSpace(ws) && (sign == "" || sign == "+" || sign == "-") && AllDigits(ds)
    requires rest == [] || !IsDigit(rest[0])
    requires sign + ds + rest == [] || !IsSpace((sign + ds + rest)[0])
    requires sign == "" && ds == [] && rest != [] ==> rest[0] != '+' && rest[0] != '-'
    ensures ParseIntOrZero(ws + sign + ds + rest) ==
              if ds == [] then 0
              else if sign == "-" then -(DigitsValue(ds) as int)
              else DigitsValue(ds)
  {
    var t := sign + ds + rest;
    assert ws + sign + ds + rest == ws + t;
    TrimStartSkips(ws, t);
    SignRead(sign, ds, rest);
    LeadingDigitsOf(ds, rest);
  }

  /** After an optional sign `parseInt` reads the digits that follow, and only a `-` makes them negative. */
  lemma SignRead(sign: string, ds: string, rest: string)
    requires (sign == "" || sign == "+" || sign == "-") && AllDigits(ds)
    requires sign == "" && ds == [] && rest != [] ==> rest[0] != '+' && rest[0] != '-'
    ensures Unsigned(sign + ds + rest) == ds + rest
    ensures sign + ds + rest != [] ==> ((sign + ds + rest)[0] == '-' <==> sign == "-")
  {
    var t := sign + ds + rest;
    if sign != "" {
      assert t[0] == sign[0] && t[1..] == ds + rest;
    } else {
      assert t == ds + rest;
      if ds != [] {
        assert t[0] == ds[0] && IsDigit(t[0]);
      }
    }
  }

  /** `parseInt` reads the same number from a value and from the value trimmed. */
  lemma ParseIgnoresTrim(s: string)
    ensures ParseIntOrZero(Trim(s)) == ParseIntOrZero(s)
  {
    var t := TrimStart(s);
    var u := TrimEnd(t);
    assert Trim(s) == u;
    assert u == [] || u[0] == t[0];
    assert t[0..] == t;
    assert u == [] ==> t == [];
    assert TrimStart(u) == u;
    if u != [] {
      var body := Unsigned(t);
      var cut := if t[0] == '-' || t[0] == '+' then |u| - 1 else |u|;
      assert Unsigned(u) == body[..cut];
      assert cut == |body| || body[cut] == t[|u|];
      assert cut == |body| || IsSpace(body[cut]);
      LeadingDigitsOfCut(body, cut);
    }
  }
}
