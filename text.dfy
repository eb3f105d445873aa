/**
 * Character classes and string helpers shared by every page script: the
 * whitespace that `String.prototype.trim` and the regular-expression class
 * `\s` remove or match, `trim` itself, the digit filter `replace(/\D/g, '')`,
 * the shared e-mail pattern `/^[^\s@]+@[^\s@]+\.[^\s@]+$/` and the character
 * classes of the registration password pattern.
 */
module Text {

  /** ECMAScript WhiteSpace and LineTerminator code points (the set that both
      `trim` and `\s` use): TAB, LF, VT, FF, CR, the Unicode space separators,
      NBSP, BOM, LINE and PARAGRAPH SEPARATOR. None of them is a digit or a
      character the patterns place, `@` or `.`. */
  predicate IsSpace(c: char)
    ensures IsSpace(c) ==> !('0' <= c <= '9') && c != '@' && c != '.'
  {
    || c == '\t' || c == '\n' || c == '\U{0B}' || c == '\U{0C}' || c == '\r'
    || c == ' ' || c == '\U{A0}' || c == '\U{1680}'
    || ('\U{2000}' <= c <= '\U{200A}')
    || c == '\U{2028}' || c == '\U{2029}' || c == '\U{202F}' || c == '\U{205F}'
    || c == '\U{3000}' || c == '\U{FEFF}'
  }

  predicate AllSpace(s: string) {
    forall i :: 0 <= i < |s| ==> IsSpace(s[i])
  }

  /** ASCII decimal digit: `\d` and the complement of `\D`. */
  predicate IsDigit(c: char) {
    '0' <= c <= '9'
  }

  predicate AllDigits(s: string) {
    forall i :: 0 <= i < |s| ==> IsDigit(s[i])
  }

  // ---------- trim ----------

  /** The first position at or after `i` that holds no whitespace (or the
      end of `s`). */
  function SkipSpaces(s: string, i: nat): (r: nat)
    requires i <= |s|
    ensures i <= r <= |s|
    decreases |s| - i
  {
    if i < |s| && IsSpace(s[i]) then SkipSpaces(s, i + 1) else i
  }

  /** The end of `s[lo..j]` once its trailing whitespace is dropped. */
  function SkipTrailingSpaces(s: string, lo: nat, j: nat): (r: nat)
    requires lo <= j <= |s|
    ensures lo <= r <= j
    decreases j
  {
    if j > lo && IsSpace(s[j - 1]) then SkipTrailingSpaces(s, lo, j - 1) else j
  }

  /** `SkipSpaces` passes over whitespace only, and stops at a character
      that is not whitespace. */
  lemma {:induction false} SkipSpacesSpec(s: string, i: nat)
    requires i <= |s|
    ensures forall k :: i <= k < SkipSpaces(s, i) ==> IsSpace(s[k])
    ensures SkipSpaces(s, i) < |s| ==> !IsSpace(s[SkipSpaces(s, i)])
    decreases |s| - i
  {
    if i < |s| && IsSpace(s[i]) {
      SkipSpacesSpec(s, i + 1);
    }
  }

  /** `SkipTrailingSpaces` passes back over whitespace only, and stops after
      a character that is not whitespace. */
  lemma {:induction false} SkipTrailingSpacesSpec(s: string, lo: nat, j: nat)
    requires lo <= j <= |s|
    ensures forall k :: SkipTrailingSpaces(s, lo, j) <= k < j ==> IsSpace(s[k])
    ensures SkipTrailingSpaces(s, lo, j) > lo ==> !IsSpace(s[SkipTrailingSpaces(s, lo, j) - 1])
    decreases j
  {
    if j > lo && IsSpace(s[j - 1]) {
      SkipTrailingSpacesSpec(s, lo, j - 1);
    }
  }

  /** Drops the leading whitespace (the skip at the start of `parseInt`):
      what it keeps is empty or starts with a character that is not
      whitespace. */
  function TrimStart(s: string): (r: string)
    ensures |r| <= |s|
    ensures r != [] ==> !IsSpace(r[0])
  {
    SkipSpacesSpec(s, 0);
    s[SkipSpaces(s, 0)..]
  }

  /** `TrimStart` removes exactly the leading whitespace: what it keeps is a
      suffix and everything before it is whitespace. */
  lemma TrimStartSpec(s: string)
    ensures var r := TrimStart(s);
            r == s[|s| - |r|..] && AllSpace(s[..|s| - |r|])
  {
    SkipSpacesSpec(s, 0);
  }

  /** `String.prototype.trim`: whitespace is dropped from both ends, so a
      non-empty result neither starts nor ends with whitespace. */
  function Trim(s: string): (r: string)
    ensures |r| <= |s|
    ensures r != [] ==> !IsSpace(r[0]) && !IsSpace(r[|r| - 1])
  {
    var i := SkipSpaces(s, 0);
    SkipSpacesSpec(s, 0);
    SkipTrailingSpacesSpec(s, i, |s|);
    s[i..SkipTrailingSpaces(s, i, |s|)]
  }

  /** The bounds of the slice `Trim` keeps: everything before and after it
      is whitespace. */
  lemma TrimBounds(s: string) returns (i: nat, j: nat)
    ensures i <= j <= |s| && Trim(s) == s[i..j]
    ensures forall k :: 0 <= k < i ==> IsSpace(s[k])
    ensures forall k :: j <= k < |s| ==> IsSpace(s[k])
  {
    i := SkipSpaces(s, 0);
    j := SkipTrailingSpaces(s, i, |s|);
    SkipSpacesSpec(s, 0);
    SkipTrailingSpacesSpec(s, i, |s|);
  }

  /** The trimmed string is the slice of the input between its leading and its
      trailing whitespace: everything cut off is whitespace, and the result
      neither starts nor ends with whitespace. */
  lemma TrimSlice(s: string)
    ensures exists i, j :: 0 <= i <= j <= |s| && Trim(s) == s[i..j]
              && AllSpace(s[..i]) && AllSpace(s[j..])
    ensures Trim(s) != [] ==> !IsSpace(Trim(s)[0]) && !IsSpace(Trim(s)[|Trim(s)| - 1])
  {
    var i, j := TrimBounds(s);
    assert AllSpace(s[..i]) && AllSpace(s[j..]);
  }

  /** A string trims to the empty string exactly when every character of it
      is whitespace, which is how the forms' `value.trim() === ''` tests
      reject blank input. */
  lemma TrimEmptyIff(s: string)
    ensures Trim(s) == "" <==> AllSpace(s)
  {
    var i, j := TrimBounds(s);
    if Trim(s) == "" {
      assert s == s[..i] + s[j..];
    } else {
      assert s[i] == Trim(s)[0];
    }
  }

  /** Trimming twice is the same as trimming once. */
  lemma TrimIdempotent(s: string)
    ensures Trim(Trim(s)) == Trim(s)
  {
    var r := Trim(s);
    if r != [] {
      assert SkipSpaces(r, 0) == 0;
      assert SkipTrailingSpaces(r, 0, |r|) == |r|;
    }
  }

  // ---------- digits ----------

  /** `replace(/\D/g, '')`: the digits of `s`, in order. */
  function DigitsOnly(s: string): (r: string)
    ensures AllDigits(r)
    ensures |r| <= |s|
  {
    if s == [] then []
    else if IsDigit(s[0]) then [s[0]] + DigitsOnly(s[1..])
    else DigitsOnly(s[1..])
  }

  /** The digit filter distributes over concatenation. */
  lemma {:induction false} DigitsOnlyAppend(a: string, b: string)
    ensures DigitsOnly(a + b) == DigitsOnly(a) + DigitsOnly(b)
  {
    if a == [] {
      assert a + b == b;
    } else {
      assert (a + b)[1..] == a[1..] + b;
      DigitsOnlyAppend(a[1..], b);
    }
  }

  /** A string of digits passes through the filter unchanged, and a
      string with no digit filters to the empty string. */
  lemma {:induction false} DigitsOnlyOfDigits(s: string)
    ensures AllDigits(s) ==> DigitsOnly(s) == s
    ensures (forall i :: 0 <= i < |s| ==> !IsDigit(s[i])) ==> DigitsOnly(s) == []
  {
    if s != [] {
      DigitsOnlyOfDigits(s[1..]);
    }
  }

  /** Filtering twice is the same as filtering once. */
  lemma DigitsOnlyIdempotent(s: string)
    ensures DigitsOnly(DigitsOnly(s)) == DigitsOnly(s)
  {
    DigitsOnlyOfDigits(DigitsOnly(s));
  }

  // ---------- the shared e-mail pattern ----------

  /** A character of the class `[^\s@]`. */
  predicate EmailChar(c: char) {
    !IsSpace(c) && c != '@'
  }

  /** One run `[^\s@]+` of the pattern. */
  predicate Segment(s: string) {
    |s| > 0 && forall i :: 0 <= i < |s| ==> EmailChar(s[i])
  }

  function Join(local: string, host: string, tld: string): (r: string) {
    local + "@" + host + "." + tld
  }

  /** The pattern `^[^\s@]+@[^\s@]+\.[^\s@]+$` read literally: three runs
      separated by `@` and `.`. The pattern has no `m` flag, so the anchors
      mean the start and the end of the string. */
  ghost predicate MatchesEmailPattern(s: string) {
    exists local, host, tld :: Segment(local) && Segment(host) && Segment(tld)
                               && s == Join(local, host, tld)
  }

  /** The structural e-mail check every form uses: no whitespace, exactly
      one `@`, a non-empty part before it, and a `.` in the part after it
      that is neither that part's first nor its last character. */
  predicate IsEmail(s: string)
    ensures IsEmail(s) ==> |s| >= 5 && '@' in s
  {
    && (forall i :: 0 <= i < |s| ==> !IsSpace(s[i]))
    && exists k :: 0 < k < |s| && s[k] == '@'
         && (forall j :: 0 <= j < |s| && j != k ==> s[j] != '@')
         && (exists i :: k + 1 < i < |s| - 1 && s[i] == '.')
  }

  /** Every string the structural check accepts matches the pattern. */
  lemma EmailToPattern(s: string)
    requires IsEmail(s)
    ensures MatchesEmailPattern(s)
  {
    var k :| 0 < k < |s| && s[k] == '@'
       && (forall j :: 0 <= j < |s| && j != k ==> s[j] != '@')
       && (exists i :: k + 1 < i < |s| - 1 && s[i] == '.');
    var i :| k + 1 < i < |s| - 1 && s[i] == '.';
    var local, host, tld := s[..k], s[k + 1..i], s[i + 1..];
    assert Segment(local) by {
      forall m | 0 <= m < |local| ensures EmailChar(local[m]) {
        assert local[m] == s[m];
      }
    }
    assert Segment(host) by {
      forall m | 0 <= m < |host| ensures EmailChar(host[m]) {
        assert host[m] == s[k + 1 + m];
      }
    }
    assert Segment(tld) by {
      forall m | 0 <= m < |tld| ensures EmailChar(tld[m]) {
        assert tld[m] == s[i + 1 + m];
      }
    }
    assert s == Join(local, host, tld);
  }

  /** Every string the pattern matches passes the structural check. */
  lemma PatternToEmail(s: string)
    requires MatchesEmailPattern(s)
    ensures IsEmail(s)
  {
    var local, host, tld :| Segment(local) && Segment(host) && Segment(tld)
                            && s == Join(local, host, tld);
    var k := |local|;
    var i := |local| + 1 + |host|;
    assert s[k] == '@' && s[i] == '.';
    forall j | 0 <= j < |s|
      ensures !IsSpace(s[j]) && (j != k ==> s[j] != '@')
    {
      if j < k {
        assert s[j] == local[j];
      } else if k < j < i {
        assert s[j] == host[j - k - 1];
      } else if i < j {
        assert s[j] == tld[j - i - 1];
      }
    }
    assert k + 1 < i < |s| - 1 && s[i] == '.';
  }

  /** The structural check accepts exactly the strings the regular
      expression matches. */
  lemma EmailMatchesPattern(s: string)
    ensures IsEmail(s) <==> MatchesEmailPattern(s)
  {
    if IsEmail(s) {
      EmailToPattern(s);
    }
    if MatchesEmailPattern(s) {
      PatternToEmail(s);
    }
  }

  /** A string with no `@`, or with no `.` strictly inside the part after
      its first `@`, is not an e-mail address. */
  lemma MissingAtOrDotIsNotEmail(s: string)
    ensures (forall j :: 0 <= j < |s| ==> s[j] != '@') ==> !IsEmail(s)
    ensures (forall k, i :: 0 <= k < i < |s| && s[k] == '@' && s[i] == '.' ==> i == k + 1 || i == |s| - 1)
            ==> !IsEmail(s)
  {
  }

  // ---------- the registration password's character classes ----------

  /** `(?=.*[a-z])`: some ASCII lower-case letter. */
  predicate HasLower(s: string) {
    exists i :: 0 <= i < |s| && 'a' <= s[i] <= 'z'
  }

  /** `(?=.*[A-Z])`: some ASCII upper-case letter. */
  predicate HasUpper(s: string) {
    exists i :: 0 <= i < |s| && 'A' <= s[i] <= 'Z'
  }

  /** `(?=.*\d)`: some ASCII digit. */
  predicate HasDigit(s: string) {
    exists i :: 0 <= i < |s| && IsDigit(s[i])
  }

  /** `/(?=.*[a-z])(?=.*[A-Z])(?=.*\d)/.test(s)` for a string without line
      terminators: the three classes occur somewhere, in any order. */
  predicate MixedClasses(s: string)
    ensures MixedClasses(s) ==> |s| >= 3
  {
    HasLower(s) && HasUpper(s) && HasDigit(s)
  }
}
