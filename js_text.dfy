/**
 * The JavaScript built-ins the parser and the record rely on, on strings of
 * Unicode characters: String.prototype.trim and toLowerCase, parseInt with
 * radix 10, the decimal rendering of an integral Number, and
 * String.prototype.split with a one-character separator together with the
 * template-literal join that builds multi-line text.
 */
module JsText {
  import opened Wrappers

  // ---------------------------------------------------------------------------
  // White space
  // ---------------------------------------------------------------------------

  /** WhiteSpace or LineTerminator (sections 12.2 and 12.3 of ECMA-262): the set
      that trim, parseInt and the regular-expression class \s all skip. */
  predicate IsWhiteSpace(c: char) {
    || c == '\t' || c == '\n' || c == '\U{000B}' || c == '\U{000C}' || c == '\r'
    || c == ' ' || c == '\U{00A0}' || c == '\U{1680}'
    || ('\U{2000}' <= c <= '\U{200A}')
    || c == '\U{2028}' || c == '\U{2029}' || c == '\U{202F}' || c == '\U{205F}'
    || c == '\U{3000}' || c == '\U{FEFF}'
  }

  /** String.prototype.trimStart: drops the leading white space and nothing else. */
  function TrimStart(s: string): (r: string)
    ensures |r| <= |s|
    ensures r == [] || !IsWhiteSpace(r[0])
    ensures forall i :: 0 <= i < |s| - |r| ==> IsWhiteSpace(s[i])
    decreases |s|
  {
    if |s| > 0 && IsWhiteSpace(s[0]) then TrimStart(s[1..]) else s
  }

  /** String.prototype.trimEnd: drops the trailing white space and nothing else. */
  function TrimEnd(s: string): (r: string)
    ensures |r| <= |s|
    ensures r == [] || !IsWhiteSpace(r[|r| - 1])
    ensures forall i :: |r| <= i < |s| ==> IsWhiteSpace(s[i])
    decreases |s|
  {
    if |s| > 0 && IsWhiteSpace(s[|s| - 1]) then TrimEnd(s[..|s| - 1]) else s
  }

  /** trimStart keeps a suffix of the text. */
  lemma {:induction false} TrimStartKeepsSuffix(s: string)
    ensures TrimStart(s) == s[|s| - |TrimStart(s)|..]
    decreases |s|
  {
    if |s| > 0 && IsWhiteSpace(s[0]) {
      TrimStartKeepsSuffix(s[1..]);
      assert s[1..][|s| - 1 - |TrimStart(s)|..] == s[|s| - |TrimStart(s)|..];
    }
  }

  /** trimEnd keeps a prefix of the text. */
  lemma {:induction false} TrimEndKeepsPrefix(s: string)
    ensures TrimEnd(s) == s[..|TrimEnd(s)|]
    decreases |s|
  {
    if |s| > 0 && IsWhiteSpace(s[|s| - 1]) {
      TrimEndKeepsPrefix(s[..|s| - 1]);
      assert s[..|s| - 1][..|TrimEnd(s)|] == s[..|TrimEnd(s)|];
    }
  }

  /** String.prototype.trim (section 22.1.3.32 of ECMA-262). */
  function Trim(s: string): (r: string)
    ensures |r| <= |s|
    ensures r == [] || (!IsWhiteSpace(r[0]) && !IsWhiteSpace(r[|r| - 1]))
  {
    TrimEndKeepsPrefix(TrimStart(s));
    TrimEnd(TrimStart(s))
  }

  /** A string that neither starts nor ends with white space is its own trim. */
  lemma TrimUnchanged(s: string)
    requires s == [] || (!IsWhiteSpace(s[0]) && !IsWhiteSpace(s[|s| - 1]))
    ensures Trim(s) == s
  {
  }

  // ---------------------------------------------------------------------------
  // Lower case
  // ---------------------------------------------------------------------------

  /** The simple lower-case mapping for Basic Latin, Latin-1 and basic Cyrillic
      capitals; every other character is its own lower case here. */
  function ToLowerChar(c: char): char {
    if 'A' <= c <= 'Z' || ('\U{00C0}' <= c <= '\U{00DE}' && c != '\U{00D7}') || ('\U{0410}' <= c <= '\U{042F}') then
      ((c as int) + 0x20) as char
    else if '\U{0400}' <= c <= '\U{040F}' then
      ((c as int) + 0x50) as char
    else
      c
  }

  /** String.prototype.toLowerCase, character by character. */
  function ToLower(s: string): (r: string)
    ensures |r| == |s|
  {
    seq(|s|, i requires 0 <= i < |s| => ToLowerChar(s[i]))
  }

  /** Lower-casing changes letters only: digits and white space stay where
      they were, so the period pattern sees the same runs before and after. */
  lemma ToLowerKeepsDigitsAndWhiteSpace(s: string)
    ensures forall i :: 0 <= i < |s| ==> (IsDigit(ToLower(s)[i]) <==> IsDigit(s[i]))
    ensures forall i :: 0 <= i < |s| ==> (IsWhiteSpace(ToLower(s)[i]) <==> IsWhiteSpace(s[i]))
  {
  }

  // ---------------------------------------------------------------------------
  // Decimal digits and numbers
  // ---------------------------------------------------------------------------

  predicate IsDigit(c: char) {
    '0' <= c <= '9'
  }

  predicate AllDigits(s: string) {
    forall i :: 0 <= i < |s| ==> IsDigit(s[i])
  }

  function DigitValue(c: char): nat
    requires IsDigit(c)
  {
    (c as int) - ('0' as int)
  }

  function DigitChar(d: nat): (c: char)
    requires d < 10
    ensures IsDigit(c) && DigitValue(c) == d
  {
    ((d as int) + ('0' as int)) as char
  }

  /** The value of a run of decimal digits, most significant first. */
  function DigitsValue(s: string): nat
    requires AllDigits(s)
    decreases |s|
  {
    if s == [] then 0 else DigitsValue(s[..|s| - 1]) * 10 + DigitValue(s[|s| - 1])
  }

  /** The end of the longest run of digits that starts at position i. */
  function DigitRunEnd(s: string, i: nat): (j: nat)
    requires i <= |s|
    ensures i <= j <= |s|
    decreases |s| - i
  {
    if i < |s| && IsDigit(s[i]) then DigitRunEnd(s, i + 1) else i
  }

  /** The run DigitRunEnd delimits is all digits, and it cannot be extended. */
  lemma {:induction false} DigitRunIsLongest(s: string, i: nat)
    requires i <= |s|
    ensures forall k :: i <= k < DigitRunEnd(s, i) ==> IsDigit(s[k])
    ensures DigitRunEnd(s, i) == |s| || !IsDigit(s[DigitRunEnd(s, i)])
    decreases |s| - i
  {
    if i < |s| && IsDigit(s[i]) {
      DigitRunIsLongest(s, i + 1);
    }
  }

  /** The end of the longest run of white space that starts at position i. */
  function WhiteSpaceRunEnd(s: string, i: nat): (j: nat)
    requires i <= |s|
    ensures i <= j <= |s|
    decreases |s| - i
  {
    if i < |s| && IsWhiteSpace(s[i]) then WhiteSpaceRunEnd(s, i + 1) else i
  }

  /** The run WhiteSpaceRunEnd delimits is all white space, and it cannot be
      extended. */
  lemma {:induction false} WhiteSpaceRunIsLongest(s: string, i: nat)
    requires i <= |s|
    ensures forall k :: i <= k < WhiteSpaceRunEnd(s, i) ==> IsWhiteSpace(s[k])
    ensures WhiteSpaceRunEnd(s, i) == |s| || !IsWhiteSpace(s[WhiteSpaceRunEnd(s, i)])
    decreases |s| - i
  {
    if i < |s| && IsWhiteSpace(s[i]) {
      WhiteSpaceRunIsLongest(s, i + 1);
    }
  }

  /** Text put in front moves the end of a digit run by its length and
      changes nothing else. */
  lemma {:induction false} DigitRunEndShift(lead: string, rest: string, i: nat)
    requires i <= |rest|
    ensures DigitRunEnd(lead + rest, |lead| + i) == |lead| + DigitRunEnd(rest, i)
    decreases |rest| - i
  {
    if i < |rest| {
      assert (lead + rest)[|lead| + i] == rest[i];
      if IsDigit(rest[i]) {
        DigitRunEndShift(lead, rest, i + 1);
      }
    }
  }

  /** Text put in front moves the end of a white-space run by its length and
      changes nothing else. */
  lemma {:induction false} WhiteSpaceRunEndShift(lead: string, rest: string, i: nat)
    requires i <= |rest|
    ensures WhiteSpaceRunEnd(lead + rest, |lead| + i) == |lead| + WhiteSpaceRunEnd(rest, i)
    decreases |rest| - i
  {
    if i < |rest| {
      assert (lead + rest)[|lead| + i] == rest[i];
      if IsWhiteSpace(rest[i]) {
        WhiteSpaceRunEndShift(lead, rest, i + 1);
      }
    }
  }

  /** The sign and digits parseInt reads once the leading white space is gone. */
  function SignedBody(t: string): string {
    if |t| > 0 && (t[0] == '-' || t[0] == '+') then t[1..] else t
  }

  /** parseInt(s, 10) (section 19.2.5 of ECMA-262): skip white space, take an
      optional sign, then the longest prefix of decimal digits; None stands for
      NaN, the result when that prefix is empty. */
  function ParseInt(s: string): (r: Option<int>)
    ensures r.None? <==> DigitRunEnd(SignedBody(TrimStart(s)), 0) == 0
  {
    var t := TrimStart(s);
    var body := SignedBody(t);
    var n := DigitRunEnd(body, 0);
    DigitRunIsLongest(body, 0);
    var magnitude: int := if n == 0 then 0 else DigitsValue(body[..n]);
    if n == 0 then None
    else if |t| > 0 && t[0] == '-' then Some(-magnitude)
    else Some(magnitude)
  }

  /** Number::toString for a non-negative integral Number, in decimal. */
  function NatToString(n: nat): (s: string)
    ensures |s| >= 1 && AllDigits(s)
    ensures DigitsValue(s) == n
    decreases n
  {
    if n < 10 then [DigitChar(n)]
    else
      var prefix := NatToString(n / 10);
      var s := prefix + [DigitChar(n % 10)];
      assert s[..|s| - 1] == prefix;
      s
  }

  /** Number::toString for an integral Number, in decimal. */
  function IntToString(i: int): string {
    if i < 0 then "-" + NatToString(-i) else NatToString(i)
  }

  /** parseInt reads back a rendered integer, and stops at the first character
      after it that is not a digit ("2024", "2024.0", "2024 год"). */
  lemma ParseIntOfIntToString(i: int, rest: string)
    requires rest == [] || !IsDigit(rest[0])
    ensures ParseInt(IntToString(i) + rest) == Some(i)
  {
    var magnitude: nat := if i < 0 then -i else i;
    var digits := NatToString(magnitude);
    var s := IntToString(i) + rest;
    SignedBodyOfIntToString(i, rest);
    DigitRunEndOfDigits(digits, rest, 0);
    assert (digits + rest)[..|digits|] == digits;
  }

  /** A rendered integer has no leading white space, and what follows its
      sign is its magnitude's digits. */
  lemma SignedBodyOfIntToString(i: int, rest: string)
    ensures var s := IntToString(i) + rest;
      && TrimStart(s) == s
      && SignedBody(s) == NatToString(if i < 0 then -i else i) + rest
      && (|s| > 0 && s[0] == '-' <==> i < 0)
  {
    if i < 0 {
      SignedBodyOfNegative(NatToString(-i), rest);
    } else {
      SignedBodyOfDigits(NatToString(i), rest);
    }
  }

  lemma SignedBodyOfNegative(digits: string, rest: string)
    ensures var s := "-" + digits + rest;
      && TrimStart(s) == s && SignedBody(s) == digits + rest && s[0] == '-'
  {
    var s := "-" + digits + rest;
    assert s[0] == '-';
    assert s[1..] == digits + rest;
  }

  lemma SignedBodyOfDigits(digits: string, rest: string)
    requires |digits| > 0 && IsDigit(digits[0])
    ensures var s := digits + rest;
      && TrimStart(s) == s && SignedBody(s) == s && s[0] != '-'
  {
    var s := digits + rest;
    assert s[0] == digits[0];
  }

  /** The digit run over a string of digits followed by a non-digit ends
      exactly where the digits end. */
  lemma {:induction false} DigitRunEndOfDigits(digits: string, rest: string, i: nat)
    requires AllDigits(digits) && i <= |digits|
    requires rest == [] || !IsDigit(rest[0])
    ensures DigitRunEnd(digits + rest, i) == |digits|
    decreases |digits| - i
  {
    var s := digits + rest;
    if i < |digits| {
      assert IsDigit(s[i]);
      DigitRunEndOfDigits(digits, rest, i + 1);
    } else {
      assert i == |s| || s[i] == rest[0];
    }
  }

  /** parseInt(IntToString(i)) == i: the rendering and parseInt are inverse. */
  lemma ParseIntRoundTrip(i: int)
    ensures ParseInt(IntToString(i)) == Some(i)
  {
    ParseIntOfIntToString(i, "");
    assert IntToString(i) + "" == IntToString(i);
  }

  // ---------------------------------------------------------------------------
  // Lines
  // ---------------------------------------------------------------------------

  /** String.prototype.split with a one-character separator: the pieces between
      separators, one more than there are separators. */
  function Split(s: string, sep: char): (parts: seq<string>)
    ensures |parts| >= 1
    ensures forall k :: 0 <= k < |parts| ==> sep !in parts[k]
    decreases |s|
  {
    if |s| == 0 then [""]
    else
      var rest := Split(s[1..], sep);
      if s[0] == sep then [""] + rest
      else [[s[0]] + rest[0]] + rest[1..]
  }

  /** The pieces written one after the other with the separator between them,
      as a template literal with line breaks does. */
  function Join(parts: seq<string>, sep: char): (r: string)
    ensures |parts| >= 2 ==> parts[0] + [sep] <= r
    ensures (forall k :: 0 <= k < |parts| ==> sep !in parts[k]) ==> (sep in r <==> |parts| >= 2)
    decreases |parts|
  {
    if |parts| == 0 then ""
    else if |parts| == 1 then parts[0]
    else parts[0] + [sep] + Join(parts[1..], sep)
  }

  lemma {:induction false} SplitWithoutSeparator(s: string, sep: char)
    requires sep !in s
    ensures Split(s, sep) == [s]
    decreases |s|
  {
    if |s| > 0 {
      SplitWithoutSeparator(s[1..], sep);
      assert [s[0]] + s[1..] == s;
    }
  }

  lemma {:induction false} SplitAtFirstSeparator(a: string, sep: char, b: string)
    requires sep !in a
    ensures Split(a + [sep] + b, sep) == [a] + Split(b, sep)
    decreases |a|
  {
    var s := a + [sep] + b;
    if |a| == 0 {
      assert s[1..] == b;
    } else {
      assert s[1..] == a[1..] + [sep] + b;
      SplitAtFirstSeparator(a[1..], sep, b);
      assert [a[0]] + a[1..] == a;
    }
  }

  /** Splitting joined pieces that hold no separator gives the pieces back. */
  lemma {:induction false} SplitJoin(parts: seq<string>, sep: char)
    requires |parts| >= 1
    requires forall k :: 0 <= k < |parts| ==> sep !in parts[k]
    ensures Split(Join(parts, sep), sep) == parts
    decreases |parts|
  {
    if |parts| == 1 {
      SplitWithoutSeparator(parts[0], sep);
    } else {
      SplitJoin(parts[1..], sep);
      SplitAtFirstSeparator(parts[0], sep, Join(parts[1..], sep));
      assert [parts[0]] + parts[1..] == parts;
    }
  }

  /** Joining the pieces of a split gives the string back. */
  lemma {:induction false} JoinSplit(s: string, sep: char)
    ensures Join(Split(s, sep), sep) == s
    decreases |s|
  {
    if |s| > 0 {
      var rest := Split(s[1..], sep);
      JoinSplit(s[1..], sep);
      if s[0] == sep {
        assert [""] + rest == Split(s, sep);
        assert ([""] + rest)[1..] == rest;
      } else {
        var parts := [[s[0]] + rest[0]] + rest[1..];
        assert parts[1..] == rest[1..];
        if |rest| == 1 {
          assert Join(parts, sep) == [s[0]] + rest[0];
        } else {
          assert Join(rest, sep) == rest[0] + [sep] + Join(rest[1..], sep);
        }
        assert [s[0]] + s[1..] == s;
      }
    }
  }
}
