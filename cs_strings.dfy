/** The .NET string operations the generator relies on, stated on `seq<char>`:
    ordinal comparison, ASCII lower-casing, `IndexOf`, `Replace`, `Split`, `Trim`,
    `int.ToString` and `int.TryParse`. */
module CsStrings {
  import opened Common

  predicate StartsWith(s: string, prefix: string) {
    |prefix| <= |s| && s[..|prefix|] == prefix
  }

  predicate EndsWith(s: string, suffix: string) {
    |suffix| <= |s| && s[|s| - |suffix|..] == suffix
  }

  predicate OccursAt(s: string, pat: string, i: int) {
    0 <= i && i + |pat| <= |s| && s[i..i + |pat|] == pat
  }

  predicate Contains(s: string, pat: string) {
    exists i :: 0 <= i <= |s| && OccursAt(s, pat, i)
  }

  // ---------------------------------------------------------------- case

  function LowerChar(c: char): char {
    if 'A' <= c <= 'Z' then (c as int + 32) as char else c
  }

  function UpperChar(c: char): char {
    if 'a' <= c <= 'z' then (c as int - 32) as char else c
  }

  /** `ToLower()` on the ASCII range; no character maps to an upper-case ASCII letter. */
  function ToLower(s: string): (r: string)
    ensures |r| == |s|
    ensures forall i :: 0 <= i < |r| ==> !('A' <= r[i] <= 'Z')
    ensures forall i :: 0 <= i < |r| ==> r[i] == LowerChar(s[i])
  {
    if s == [] then [] else [LowerChar(s[0])] + ToLower(s[1..])
  }

  lemma ToLowerIdempotent(s: string)
    ensures ToLower(ToLower(s)) == ToLower(s)
  {
    assert forall i :: 0 <= i < |s| ==> LowerChar(LowerChar(s[i])) == LowerChar(s[i]);
  }

  /** A string without upper-case ASCII letters is its own lower-case form. */
  lemma ToLowerOfLower(s: string)
    requires forall i :: 0 <= i < |s| ==> !('A' <= s[i] <= 'Z')
    ensures ToLower(s) == s
  {
  }

  /** Ordinal, case-insensitive equality as `a.ToLower().Equals(b)` computes it for an
      all-lower-case `b`. */
  predicate EqualsLower(a: string, lowerB: string) {
    ToLower(a) == lowerB
  }

  // ---------------------------------------------------------------- IndexOf

  /** `s.IndexOf(pat)`: the first position at which `pat` occurs, or -1. */
  function IndexOf(s: string, pat: string): (r: int)
    ensures -1 <= r <= |s|
    ensures r == -1 <==> !Contains(s, pat)
    ensures r >= 0 ==> OccursAt(s, pat, r) && forall j :: 0 <= j < r ==> !OccursAt(s, pat, j)
    decreases |s|
  {
    if |pat| > |s| then
      assert forall j :: !OccursAt(s, pat, j);
      -1
    else if s[..|pat|] == pat then
      assert OccursAt(s, pat, 0);
      0
    else
      var k := IndexOf(s[1..], pat);
      ShiftOccurs(s, pat);
      assert !OccursAt(s, pat, 0);
      if k == -1 then
        assert forall j :: 0 <= j <= |s| ==> !OccursAt(s, pat, j);
        -1
      else
        k + 1
  }

  lemma ShiftOccursAt(s: string, pat: string, j: int)
    requires |s| > 0 && 0 <= j
    ensures OccursAt(s, pat, j + 1) <==> OccursAt(s[1..], pat, j)
  {
    if j + 1 + |pat| <= |s| {
      assert s[j + 1..j + 1 + |pat|] == s[1..][j..j + |pat|];
    }
  }

  lemma ShiftOccurs(s: string, pat: string)
    requires |s| > 0
    ensures forall j {:trigger OccursAt(s[1..], pat, j)} :: 0 <= j ==> (OccursAt(s, pat, j + 1) <==> OccursAt(s[1..], pat, j))
    ensures forall j {:trigger OccursAt(s, pat, j)} :: 1 <= j ==> (OccursAt(s, pat, j) <==> OccursAt(s[1..], pat, j - 1))
  {
    forall j | 0 <= j
      ensures OccursAt(s, pat, j + 1) <==> OccursAt(s[1..], pat, j)
    {
      ShiftOccursAt(s, pat, j);
    }
    forall j | 1 <= j
      ensures OccursAt(s, pat, j) <==> OccursAt(s[1..], pat, j - 1)
    {
      ShiftOccursAt(s, pat, j - 1);
    }
  }

  // ---------------------------------------------------------------- Replace

  /** `s.Replace(pat, rep)` for a non-empty `pat`: every non-overlapping occurrence of `pat`,
      scanning left to right, is replaced by `rep`. */
  function Replace(s: string, pat: string, rep: string): (r: string)
    requires pat != ""
    decreases |s|
  {
    if |s| < |pat| then s
    else if s[..|pat|] == pat then rep + Replace(s[|pat|..], pat, rep)
    else [s[0]] + Replace(s[1..], pat, rep)
  }

  /** A string that does not contain the pattern is left unchanged. */
  lemma {:induction false} ReplaceAbsent(s: string, pat: string, rep: string)
    requires pat != "" && !Contains(s, pat)
    ensures Replace(s, pat, rep) == s
    decreases |s|
  {
    if |s| >= |pat| {
      assert !OccursAt(s, pat, 0);
      ShiftOccurs(s, pat);
      assert !Contains(s[1..], pat) by {
        forall j | 0 <= j <= |s[1..]| ensures !OccursAt(s[1..], pat, j) {
          assert !OccursAt(s, pat, j + 1);
        }
      }
      ReplaceAbsent(s[1..], pat, rep);
      assert s == [s[0]] + s[1..];
    }
  }

  /** Replacing a pattern by itself changes nothing. */
  lemma {:induction false} ReplaceSelf(s: string, pat: string)
    requires pat != ""
    ensures Replace(s, pat, pat) == s
    decreases |s|
  {
    if |s| >= |pat| {
      if s[..|pat|] == pat {
        ReplaceSelf(s[|pat|..], pat);
        assert s == s[..|pat|] + s[|pat|..];
      } else {
        ReplaceSelf(s[1..], pat);
        assert s == [s[0]] + s[1..];
      }
    }
  }

  /** After replacing every occurrence of a single character by a string that does not
      contain it, the character no longer occurs. */
  lemma {:induction false} ReplaceCharRemoves(s: string, c: char, rep: string)
    requires c !in rep
    ensures c !in Replace(s, [c], rep)
    decreases |s|
  {
    if |s| >= 1 {
      ReplaceCharRemoves(s[1..], c, rep);
    }
  }

  /** Replacing a character leaves every other character of the input in place and only adds
      characters of the replacement. */
  lemma {:induction false} ReplaceCharOnly(s: string, c: char, rep: string, d: char)
    requires d in Replace(s, [c], rep)
    ensures (d in s && d != c) || d in rep
    decreases |s|
  {
    if |s| >= 1 {
      if s[..1] == [c] {
        if d !in rep { ReplaceCharOnly(s[1..], c, rep, d); }
      } else if d != s[0] {
        ReplaceCharOnly(s[1..], c, rep, d);
      }
    }
  }

  // ---------------------------------------------------------------- Split / Join

  /** `s.Split(c)`: all fields between separators, empty ones included. */
  function Split(s: string, c: char): (r: seq<string>)
    ensures |r| >= 1
    ensures forall i :: 0 <= i < |r| ==> c !in r[i]
    decreases |s|
  {
    if s == [] then [""]
    else
      var rest := Split(s[1..], c);
      if s[0] == c then [""] + rest else [[s[0]] + rest[0]] + rest[1..]
  }

  function Join(fields: seq<string>, c: char): string
    requires |fields| >= 1
  {
    if |fields| == 1 then fields[0] else fields[0] + [c] + Join(fields[1..], c)
  }

  /** Splitting inverts joining fields that do not contain the separator. */
  lemma {:induction false} SplitJoin(fields: seq<string>, c: char)
    requires |fields| >= 1
    requires forall i :: 0 <= i < |fields| ==> c !in fields[i]
    ensures Split(Join(fields, c), c) == fields
    decreases |fields|, |fields[0]|
  {
    if |fields[0]| == 0 {
      if |fields| > 1 {
        SplitJoin(fields[1..], c);
        assert Join(fields, c) == [c] + Join(fields[1..], c);
        assert Join(fields, c)[1..] == Join(fields[1..], c);
        assert fields == [""] + fields[1..];
      }
    } else {
      var f0 := fields[0];
      var tail := [f0[1..]] + fields[1..];
      SplitJoin(tail, c);
      assert tail[1..] == fields[1..];
      var j := Join(fields, c);
      assert Join(tail, c) == j[1..] by {
        if |fields| == 1 {
        } else {
          assert Join(tail, c) == f0[1..] + [c] + Join(fields[1..], c);
        }
      }
      assert j[0] == f0[0];
      assert [j[0]] + Split(j[1..], c)[0] == f0;
    }
  }

  // ---------------------------------------------------------------- Trim

  /** `char.IsWhiteSpace` on the characters the model handles: the ASCII control spaces,
      space, next-line and no-break space. */
  predicate IsWhiteSpace(c: char) {
    c == ' ' || '\t' <= c <= '\r' || c == '\U{0085}' || c == '\U{00A0}'
  }

  function TrimStart(s: string): (r: string)
    ensures |r| <= |s| && r == s[|s| - |r|..]
    ensures r == [] || !IsWhiteSpace(r[0])
    ensures forall i :: 0 <= i < |s| - |r| ==> IsWhiteSpace(s[i])
  {
    if s != [] && IsWhiteSpace(s[0]) then TrimStart(s[1..]) else s
  }

  function TrimEnd(s: string): (r: string)
    ensures |r| <= |s| && r == s[..|r|]
    ensures r == [] || !IsWhiteSpace(r[|r| - 1])
    ensures forall i :: |r| <= i < |s| ==> IsWhiteSpace(s[i])
  {
    if s != [] && IsWhiteSpace(s[|s| - 1]) then TrimEnd(s[..|s| - 1]) else s
  }

  /** `s.Trim()`: `s` without its leading and trailing white space. */
  function Trim(s: string): (r: string)
    ensures r == [] || (!IsWhiteSpace(r[0]) && !IsWhiteSpace(r[|r| - 1]))
  {
    TrimEnd(TrimStart(s))
  }

  /** A string without surrounding white space is its own trim. */
  lemma TrimNoop(s: string)
    requires s == [] || (!IsWhiteSpace(s[0]) && !IsWhiteSpace(s[|s| - 1]))
    ensures Trim(s) == s
  {
  }

  // ---------------------------------------------------------------- integers

  function DigitChar(d: nat): char
    requires d < 10
  {
    ('0' as int + d) as char
  }

  predicate IsDigit(c: char) {
    '0' <= c <= '9'
  }

  function DigitValue(c: char): (d: nat)
    requires IsDigit(c)
    ensures d < 10 && DigitChar(d) == c
  {
    c as int - '0' as int
  }

  /** The decimal digits of `n`, most significant first, without leading zeros. */
  function NatToDigits(n: nat): (r: string)
    ensures |r| >= 1 && forall i :: 0 <= i < |r| ==> IsDigit(r[i])
    decreases n
  {
    if n < 10 then [DigitChar(n)] else NatToDigits(n / 10) + [DigitChar(n % 10)]
  }

  function DigitsToNat(s: string): nat
    requires forall i :: 0 <= i < |s| ==> IsDigit(s[i])
  {
    if s == [] then 0 else 10 * DigitsToNat(s[..|s| - 1]) + DigitValue(s[|s| - 1])
  }

  lemma {:induction false} DigitsRoundTrip(n: nat)
    ensures DigitsToNat(NatToDigits(n)) == n
    decreases n
  {
    if n >= 10 {
      DigitsRoundTrip(n / 10);
      var s := NatToDigits(n);
      assert s[..|s| - 1] == NatToDigits(n / 10);
    }
  }

  /** `n.ToString()` for an integer, in the invariant culture. */
  function IntToString(n: int): (r: string)
    ensures |r| >= 1 && (r[0] == '-' || IsDigit(r[0]))
  {
    if n < 0 then "-" + NatToDigits(-n) else NatToDigits(n)
  }

  /** The white space `NumberStyles.Integer` allows around a number: tab to carriage return
      and space. */
  predicate IsNumberSpace(c: char) {
    c == ' ' || '\t' <= c <= '\r'
  }

  function StripNumberSpace(s: string): (r: string)
    ensures |r| <= |s|
    decreases |s|
  {
    if s != [] && IsNumberSpace(s[0]) then StripNumberSpace(s[1..])
    else if s != [] && IsNumberSpace(s[|s| - 1]) then StripNumberSpace(s[..|s| - 1])
    else s
  }

  /** The digits of an integer's text: white space and an optional sign stripped. */
  function DigitsPart(s: string): string {
    var t := StripNumberSpace(s);
    if t != [] && (t[0] == '-' || t[0] == '+') then t[1..] else t
  }

  /** The syntax `NumberStyles.Integer` accepts: optional surrounding white space, an
      optional sign and one or more decimal digits. */
  predicate IntegerSyntax(s: string) {
    var body := DigitsPart(s);
    body != [] && forall i :: 0 <= i < |body| ==> IsDigit(body[i])
  }

  /** `int.TryParse(s, out v)`: integer syntax and a value that fits in 32 bits; `None` where
      TryParse returns false. */
  function TryParseInt32(s: string): (r: Option<int>)
    ensures r.Some? ==> IsInt32(r.value) && IntegerSyntax(s)
  {
    if !IntegerSyntax(s) then None
    else
      var t := StripNumberSpace(s);
      var n: int := DigitsToNat(DigitsPart(s));
      var v := if t[0] == '-' then -n else n;
      if IsInt32(v) then Some(v) else None
  }

  const FormatException := "System.FormatException"
  const OverflowException := "System.OverflowException"

  /** `int.Parse(s)`: what `int.TryParse` accepts, with the failure as an exception: text
      that is not an integer throws FormatException, an integer outside 32 bits
      OverflowException. */
  function ParseInt32(s: string): (r: Result<int>)
    ensures r.Ok? <==> TryParseInt32(s).Some?
    ensures r.Ok? ==> r.value == TryParseInt32(s).value
    ensures r.Err? ==> (r.exception == FormatException <==> !IntegerSyntax(s))
    ensures r.Err? ==> (r.exception == OverflowException <==> IntegerSyntax(s))
  {
    if !IntegerSyntax(s) then Err(FormatException)
    else match TryParseInt32(s)
      case Some(n) => Ok(n)
      case None => Err(OverflowException)
  }

  /** Parsing the text of a 32-bit integer gives that integer back. */
  lemma IntToStringParses(n: int)
    requires IsInt32(n)
    ensures TryParseInt32(IntToString(n)) == Some(n)
  {
    var s := IntToString(n);
    DigitsRoundTrip(if n < 0 then -n else n);
    assert StripNumberSpace(s) == s;
    if n < 0 {
      assert s[1..] == NatToDigits(-n);
    }
  }

  predicate AllDigits(s: string) {
    forall i :: 0 <= i < |s| ==> IsDigit(s[i])
  }

  /** Reads back the text `IntToString` prints. */
  function DecodeInt(s: string): int {
    if s != [] && s[0] == '-' && AllDigits(s[1..]) then -(DigitsToNat(s[1..]) as int)
    else if AllDigits(s) then DigitsToNat(s)
    else 0
  }

  lemma IntToStringDecodes(n: int)
    ensures DecodeInt(IntToString(n)) == n
  {
    var s := IntToString(n);
    if n < 0 {
      var digits := NatToDigits(-n);
      assert s == "-" + digits;
      assert s[1..] == digits;
      DigitsRoundTrip(-n);
    } else {
      var digits := NatToDigits(n);
      assert s == digits && AllDigits(digits);
      DigitsRoundTrip(n);
    }
  }

  /** Different integers print differently. */
  lemma IntToStringInjective(a: int, b: int)
    requires IntToString(a) == IntToString(b)
    ensures a == b
  {
    IntToStringDecodes(a);
    IntToStringDecodes(b);
  }
}
