/**
 * The integer text conversions the page scripts rely on: `String(n)` for an
 * integer, ECMAScript `parseInt(s)` without a radix, `Number.prototype.
 * toLocaleString()` with comma grouping, and `replace(/,/g, '')`.
 * Numbers are unbounded integers here (see README, "Left out").
 */
module Numbers {
  import opened Text

  datatype Option<T> = None | Some(value: T)

  // ---------- digits in a radix ----------

  /** Value of `c` as a digit of radix up to 36 (`0-9`, then `a-z`/`A-Z`),
      or 36 when `c` is no digit at all. */
  function DigitValue(c: char): (v: nat)
    ensures v <= 36
    ensures v < 10 <==> IsDigit(c)
  {
    if '0' <= c <= '9' then (c as int - '0' as int)
    else if 'a' <= c <= 'z' then (c as int - 'a' as int) + 10
    else if 'A' <= c <= 'Z' then (c as int - 'A' as int) + 10
    else 36
  }

  predicate IsRadixDigit(c: char, radix: nat) {
    DigitValue(c) < radix
  }

  /** The longest prefix of `s` made of digits of the radix. */
  function DigitPrefix(s: string, radix: nat): (r: string)
  {
    if s == [] || !IsRadixDigit(s[0], radix) then []
    else [s[0]] + DigitPrefix(s[1..], radix)
  }

  /** `DigitPrefix` is the longest prefix of radix digits: a prefix, made
      of digits, and followed by a character that is not one. */
  lemma {:induction false} DigitPrefixSpec(s: string, radix: nat)
    ensures var r := DigitPrefix(s, radix);
            |r| <= |s| && r == s[..|r|]
            && (forall i :: 0 <= i < |r| ==> IsRadixDigit(r[i], radix))
            && (|r| < |s| ==> !IsRadixDigit(s[|r|], radix))
  {
    if s != [] && IsRadixDigit(s[0], radix) {
      DigitPrefixSpec(s[1..], radix);
      var r := DigitPrefix(s[1..], radix);
      assert s[1..][..|r|] == s[1..|r| + 1];
      assert ([s[0]] + r)[1..] == r;
    }
  }

  /** The number a string of radix digits denotes, most significant first. */
  function DigitsValue(ds: string, radix: nat): (v: nat)
  {
    if ds == [] then 0
    else DigitsValue(ds[..|ds| - 1], radix) * radix + DigitValue(ds[|ds| - 1])
  }

  // ---------- String(n) ----------

  function DigitChar(d: nat): (c: char)
    requires d < 10
    ensures IsDigit(c) && DigitValue(c) == d
  {
    (d + '0' as int) as char
  }

  /** Decimal notation of a natural number, without leading zeros. */
  function DecimalString(n: nat): (r: string)
    ensures |r| > 0 && AllDigits(r)
    ensures r[0] == '0' ==> n == 0 && r == "0"
  {
    if n < 10 then [DigitChar(n)]
    else DecimalString(n / 10) + [DigitChar(n % 10)]
  }

  /** `String(n)` for an integer value `n`. */
  function IntString(n: int): (r: string)
    ensures r != [] && (r[0] == '-' <==> n < 0)
    ensures n >= 0 ==> AllDigits(r)
  {
    if n < 0 then "-" + DecimalString(-n) else DecimalString(n)
  }

  /** Reading back the decimal notation gives the number. */
  lemma {:induction false} DecimalRoundTrip(n: nat)
    ensures DigitsValue(DecimalString(n), 10) == n
  {
    var r := DecimalString(n);
    if n >= 10 {
      assert r[..|r| - 1] == DecimalString(n / 10);
      DecimalRoundTrip(n / 10);
    }
  }

  /** The digit prefix of a string of decimal digits is the whole string. */
  lemma {:induction false} DigitPrefixOfDigits(ds: string)
    requires AllDigits(ds)
    ensures DigitPrefix(ds, 10) == ds
  {
    if ds != [] {
      DigitPrefixOfDigits(ds[1..]);
    }
  }

  // ---------- parseInt ----------

  /** The magnitude part of `parseInt`, after the sign: hexadecimal after a
      `0x` or `0X` prefix, decimal otherwise, up to the first character that
      is no digit. `None` when no digit is read. */
  function ParseMagnitude(u: string): (r: Option<nat>)
  {
    if |u| >= 2 && u[0] == '0' && (u[1] == 'x' || u[1] == 'X') then
      var ds := DigitPrefix(u[2..], 16);
      if ds == [] then None else Some(DigitsValue(ds, 16))
    else
      var ds := DigitPrefix(u, 10);
      if ds == [] then None else Some(DigitsValue(ds, 10))
  }

  /** The magnitude is missing exactly when no digit starts it. */
  lemma MagnitudeNone(u: string)
    ensures ParseMagnitude(u) == None <==>
      if |u| >= 2 && u[0] == '0' && (u[1] == 'x' || u[1] == 'X')
      then |u| == 2 || !IsRadixDigit(u[2], 16)
      else u == [] || !IsDigit(u[0])
  {
  }

  /** The length of the optional sign at the start of `t`. */
  function SignLength(t: string): (k: nat)
    ensures k <= |t|
  {
    if t != [] && (t[0] == '-' || t[0] == '+') then 1 else 0
  }

  /** ECMAScript `parseInt(s)` with no radix argument: skip the leading
      whitespace, take one optional sign, then read the magnitude. `None`
      stands for `NaN`, which it gives exactly when, after the whitespace,
      the sign and a hexadecimal prefix, no digit follows. */
  function ParseInt(s: string): (r: Option<int>)
    ensures r == None <==>
      var t := TrimStart(s);
      var u := if t != [] && (t[0] == '-' || t[0] == '+') then t[1..] else t;
      if |u| >= 2 && u[0] == '0' && (u[1] == 'x' || u[1] == 'X')
      then |u| == 2 || !IsRadixDigit(u[2], 16)
      else u == [] || !IsDigit(u[0])
  {
    var t := TrimStart(s);
    var k := SignLength(t);
    MagnitudeNone(t[k..]);
    match ParseMagnitude(t[k..])
    case None => None
    case Some(m) => Some(if k == 1 && t[0] == '-' then -(m as int) else m as int)
  }

  /** The magnitude of a decimal notation is the number it denotes. */
  lemma ParseMagnitudeDecimal(n: nat)
    ensures ParseMagnitude(DecimalString(n)) == Some(n)
  {
    var d := DecimalString(n);
    DigitPrefixOfDigits(d);
    DecimalRoundTrip(n);
  }

  /** `parseInt(String(n)) == n` for every integer. */
  lemma IntStringRoundTrip(n: int)
    ensures ParseInt(IntString(n)) == Some(n)
  {
    if n < 0 {
      var d := DecimalString(-n);
      ParseMagnitudeDecimal(-n);
      var s := "-" + d;
      assert TrimStart(s) == s;
      assert s[1..] == d;
    } else {
      var d := DecimalString(n);
      ParseMagnitudeDecimal(n);
      assert TrimStart(d) == d;
    }
  }

  // ---------- comma grouping ----------

  /** `replace(/,/g, '')`. */
  function StripCommas(s: string): (r: string)
    ensures forall i :: 0 <= i < |r| ==> r[i] != ','
    ensures (forall i :: 0 <= i < |s| ==> s[i] != ',') ==> r == s
  {
    if s == [] then []
    else if s[0] == ',' then StripCommas(s[1..])
    else [s[0]] + StripCommas(s[1..])
  }

  lemma {:induction false} StripCommasAppend(a: string, b: string)
    ensures StripCommas(a + b) == StripCommas(a) + StripCommas(b)
  {
    if a == [] {
      assert a + b == b;
    } else {
      assert (a + b)[1..] == a[1..] + b;
      StripCommasAppend(a[1..], b);
    }
  }

  /** Groups a digit string in threes from the right, separated by commas. */
  function Group(ds: string): (r: string)
    decreases |ds|
  {
    if |ds| <= 3 then ds
    else Group(ds[..|ds| - 3]) + "," + ds[|ds| - 3..]
  }

  /** Grouping keeps the first digit in front. */
  lemma {:induction false} GroupHead(ds: string)
    requires ds != []
    ensures Group(ds) != [] && Group(ds)[0] == ds[0]
    decreases |ds|
  {
    if |ds| > 3 {
      GroupHead(ds[..|ds| - 3]);
    }
  }

  /** Removing the separators undoes the grouping. */
  lemma {:induction false} StripGroup(ds: string)
    requires AllDigits(ds)
    ensures StripCommas(Group(ds)) == ds
    decreases |ds|
  {
    if |ds| > 3 {
      var hi, lo := ds[..|ds| - 3], ds[|ds| - 3..];
      StripGroup(hi);
      StripCommasAppend(Group(hi) + ",", lo);
      StripCommasAppend(Group(hi), ",");
      assert StripCommas(",") == [];
      assert StripCommas(lo) == lo;
      assert hi + lo == ds;
    }
  }

  /** `n.toLocaleString()` for an integer, with commas as the group
      separator. */
  function FormatGrouped(n: int): (r: string)
    ensures r != [] && (r[0] == '-' <==> n < 0)
  {
    if n < 0 then "-" + Group(DecimalString(-n))
    else
      GroupHead(DecimalString(n));
      Group(DecimalString(n))
  }

  /** Removing the separators from the grouped form gives `String(n)`. */
  lemma StripFormatGrouped(n: int)
    ensures StripCommas(FormatGrouped(n)) == IntString(n)
  {
    if n < 0 {
      StripGroup(DecimalString(-n));
      StripCommasAppend("-", Group(DecimalString(-n)));
    } else {
      StripGroup(DecimalString(n));
    }
  }

  /** `parseInt(format(n).replace(/,/g, '')) == n`: the grouped text
      reads back as the number it was made from. */
  lemma ParseFormatGrouped(n: int)
    ensures ParseInt(StripCommas(FormatGrouped(n))) == Some(n)
  {
    StripFormatGrouped(n);
    IntStringRoundTrip(n);
  }
}
