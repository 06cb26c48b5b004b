/** `parseInt(s, 10)` as section 19.2.5 of ECMA-262 (ES2022) defines it, for
    radix 10: skip leading white space, read an optional sign, then take the
    longest run of decimal digits; with no digit the result is NaN (here
    `None`). The value of a negative zero is 0. */
module IntParsing {
  import opened Wrappers

  /** The StrWhiteSpaceChar code points: the WhiteSpace characters (tab,
      vertical tab, form feed, zero-width no-break space and every space
      separator) and the LineTerminator characters. */
  predicate IsStrWhiteSpace(c: char) {
    var n := c as int;
    // tab, line feed, vertical tab, form feed, carriage return, space
    (0x09 <= n <= 0x0D) || n == 0x20
    // no-break space and the other space separators, line and paragraph
    // separators, zero-width no-break space
    || (0xA0 <= n && (n == 0xA0 || n == 0x1680 || (0x2000 <= n <= 0x200A) || n == 0x2028 || n == 0x2029
                      || n == 0x202F || n == 0x205F || n == 0x3000 || n == 0xFEFF))
  }

  predicate IsDigit(c: char) {
    '0' <= c <= '9'
  }

  predicate AllDigits(s: string) {
    forall k :: 0 <= k < |s| ==> IsDigit(s[k])
  }

  function DigitValue(c: char): (d: nat)
    requires IsDigit(c)
    ensures d < 10 && c == (('0' as int) + d) as char
  {
    (c as int) - ('0' as int)
  }

  function DigitChar(d: nat): (c: char)
    requires d < 10
    ensures IsDigit(c) && DigitValue(c) == d
  {
    (('0' as int) + d) as char
  }

  /** The string without its leading white space. */
  function TrimStart(s: string): (r: string)
    ensures |r| <= |s| && r == s[|s| - |r|..]
    ensures forall k :: 0 <= k < |s| - |r| ==> IsStrWhiteSpace(s[k])
    ensures r == [] || !IsStrWhiteSpace(r[0])
  {
    if s != [] && IsStrWhiteSpace(s[0]) then TrimStart(s[1..]) else s
  }

  /** The longest prefix made of decimal digits. */
  function LeadingDigits(s: string): (r: string)
    ensures |r| <= |s| && r == s[..|r|]
    ensures AllDigits(r)
    ensures |r| == |s| || !IsDigit(s[|r|])
  {
    if s != [] && IsDigit(s[0]) then [s[0]] + LeadingDigits(s[1..]) else []
  }

  /** The value of a digit string, most significant digit first. */
  function DigitsValue(ds: string): nat
    requires AllDigits(ds)
  {
    if ds == [] then 0 else DigitsValue(ds[..|ds| - 1]) * 10 + DigitValue(ds[|ds| - 1])
  }

  /** The sign step: a leading minus makes the result negative. */
  predicate HasMinus(t: string) {
    t != [] && t[0] == '-'
  }

  function StripSign(t: string): string {
    if t != [] && (t[0] == '+' || t[0] == '-') then t[1..] else t
  }

  /** The steps after the white space is gone: the sign and the digit run.
      There is a number exactly when a digit follows the sign, and it is
      negative only after a minus sign. */
  function ParseTrimmed(t: string): (r: Option<int>)
    ensures r.None? <==> StripSign(t) == [] || !IsDigit(StripSign(t)[0])
    ensures r.Some? && r.value < 0 ==> HasMinus(t)
  {
    var z := LeadingDigits(StripSign(t));
    if z == [] then None
    else if HasMinus(t) then Some(-(DigitsValue(z) as int))
    else Some(DigitsValue(z))
  }

  /** NaN comes exactly from inputs with no digit after the white space and
      the sign; a negative result needs a minus sign after the white space. */
  function ParseInt(s: string): (r: Option<int>)
    ensures r.None? <==> var u := StripSign(TrimStart(s)); u == [] || !IsDigit(u[0])
    ensures r.Some? && r.value < 0 ==> HasMinus(TrimStart(s))
  {
    ParseTrimmed(TrimStart(s))
  }

  /** The shortest decimal rendering of a natural number. */
  function NatToDecimal(n: nat): (ds: string)
    ensures ds != [] && AllDigits(ds)
    ensures ds[0] != '0' || n == 0
  {
    if n < 10 then [DigitChar(n)] else NatToDecimal(n / 10) + [DigitChar(n % 10)]
  }

  /** The decimal rendering of an integer, with a minus sign when negative. */
  function IntToDecimal(n: int): string {
    if n < 0 then "-" + NatToDecimal(-n) else NatToDecimal(n)
  }

  // ----- Lemmas -----

  /** Reading the rendering of `n` back gives `n`. */
  lemma {:induction false} DecimalValue(n: nat)
    ensures DigitsValue(NatToDecimal(n)) == n
  {
    if n >= 10 {
      DecimalValue(n / 10);
      var ds := NatToDecimal(n);
      assert ds[..|ds| - 1] == NatToDecimal(n / 10);
    }
  }

  /** The digit run stops exactly where the digits stop. */
  lemma {:induction false} LeadingDigitsOf(ds: string, rest: string)
    requires AllDigits(ds)
    requires rest == [] || !IsDigit(rest[0])
    ensures LeadingDigits(ds + rest) == ds
  {
    if ds != [] {
      assert (ds + rest)[1..] == ds[1..] + rest;
      LeadingDigitsOf(ds[1..], rest);
    } else {
      assert ds + rest == rest;
    }
  }

  /** Leading white space does not change the result. */
  lemma {:induction false} TrimStartSkips(ws: string, s: string)
    requires forall k :: 0 <= k < |ws| ==> IsStrWhiteSpace(ws[k])
    ensures TrimStart(ws + s) == TrimStart(s)
  {
    if ws != [] {
      assert (ws + s)[1..] == ws[1..] + s;
      TrimStartSkips(ws[1..], s);
    } else {
      assert ws + s == s;
    }
  }

  lemma ParseIntSkipsWhiteSpace(ws: string, s: string)
    requires forall k :: 0 <= k < |ws| ==> IsStrWhiteSpace(ws[k])
    ensures ParseInt(ws + s) == ParseInt(s)
  {
    TrimStartSkips(ws, s);
  }

  /** A string that starts with a digit or a minus sign has nothing to trim. */
  lemma NothingToTrim(s: string)
    requires HasMinus(s) || (s != [] && IsDigit(s[0]))
    ensures ParseInt(s) == ParseTrimmed(s)
  {
  }

  /** After trimming, a digit run followed by a non-digit reads as its value. */
  lemma ParseTrimmedDigits(ds: string, rest: string)
    requires ds != [] && AllDigits(ds)
    requires rest == [] || !IsDigit(rest[0])
    ensures ParseTrimmed(ds + rest) == Some(DigitsValue(ds))
  {
    var s := ds + rest;
    assert s[0] == ds[0];
    assert StripSign(s) == s;
    LeadingDigitsOf(ds, rest);
  }

  /** After trimming, a minus sign and a digit run read as the negated value. */
  lemma ParseTrimmedNegative(ds: string, rest: string)
    requires ds != [] && AllDigits(ds)
    requires rest == [] || !IsDigit(rest[0])
    ensures ParseTrimmed("-" + ds + rest) == Some(-(DigitsValue(ds) as int))
  {
    var s := "-" + ds + rest;
    assert s[1..] == ds + rest;
    assert HasMinus(s);
    LeadingDigitsOf(ds, rest);
    var z := LeadingDigits(StripSign(s));
    assert z == ds;
  }

  /** A digit run followed by a non-digit parses to the run's value. */
  lemma ParseIntOfDigits(ds: string, rest: string)
    requires ds != [] && AllDigits(ds)
    requires rest == [] || !IsDigit(rest[0])
    ensures ParseInt(ds + rest) == Some(DigitsValue(ds))
  {
    var s := ds + rest;
    assert s[0] == ds[0];
    NothingToTrim(s);
    ParseTrimmedDigits(ds, rest);
  }

  /** After a minus sign, the same run parses to the negated value. */
  lemma ParseIntOfNegativeDigits(ds: string, rest: string)
    requires ds != [] && AllDigits(ds)
    requires rest == [] || !IsDigit(rest[0])
    ensures ParseInt("-" + ds + rest) == Some(-(DigitsValue(ds) as int))
  {
    var s := "-" + ds + rest;
    assert s[1..] == ds + rest;
    NothingToTrim(s);
    ParseTrimmedNegative(ds, rest);
  }

  lemma ParseIntOfNatDecimal(n: nat, rest: string)
    requires rest == [] || !IsDigit(rest[0])
    ensures ParseInt(NatToDecimal(n) + rest) == Some(n)
  {
    DecimalValue(n);
    ParseIntOfDigits(NatToDecimal(n), rest);
  }

  lemma ParseIntOfNegativeDecimal(n: nat, rest: string)
    requires rest == [] || !IsDigit(rest[0])
    ensures ParseInt("-" + NatToDecimal(n) + rest) == Some(-(n as int))
  {
    DecimalValue(n);
    ParseIntOfNegativeDigits(NatToDecimal(n), rest);
  }

  /** Round trip: the rendering of any integer, followed by anything that does
      not start with a digit, parses back to that integer. */
  lemma ParseIntOfDecimal(n: int, rest: string)
    requires rest == [] || !IsDigit(rest[0])
    ensures ParseInt(IntToDecimal(n) + rest) == Some(n)
  {
    if n < 0 {
      var m: nat := -n;
      assert IntToDecimal(n) == "-" + NatToDecimal(m);
      ParseIntOfNegativeDecimal(m, rest);
    } else {
      assert IntToDecimal(n) == NatToDecimal(n);
      ParseIntOfNatDecimal(n, rest);
    }
  }

  /** Negative zero parses to zero. */
  lemma ParseIntOfZero()
    ensures ParseInt("-0") == Some(0)
  {
    var s: string := "-0";
    NothingToTrim(s);
    assert StripSign(s) == "0";
    assert LeadingDigits("0") == "0";
    assert DigitsValue("0") == 0 by {
      assert "0"[..0] == [];
    }
  }

  /** A string whose first character is neither white space, a sign nor a
      digit parses to NaN. */
  lemma ParseIntOfNonDigit(s: string)
    requires s != [] && !IsStrWhiteSpace(s[0]) && !IsDigit(s[0]) && s[0] != '-' && s[0] != '+'
    ensures ParseInt(s) == None
  {
    assert TrimStart(s) == s;
    assert LeadingDigits(s) == [];
  }
}
