/** `RegressionAssertionGenerator`: the assertion text that pins down a recorded return value
    in a generated test. */
module RegressionAssertions {
  import opened Common
  import opened CsStrings

  const Comment: string := "\r\n\t\t\t//Regression assertion (captures the current behavior of the code)\r\n"

  /** The value types whose recorded value is written into an `Assert.AreEqual`:
      bool, byte, short, int, long, float, double and char. */
  predicate IsAssertedPrimitive(t: TypeName) {
    t in {"System.Boolean", "System.Byte", "System.Int16", "System.Int32", "System.Int64",
          "System.Single", "System.Double", "System.Char"}
  }

  function FailureMessage(i: int): string {
    ",\"Regression Failure? [" + IntToString(i) + "]\");\r\n"
  }

  /** The escaping applied to a recorded string before it is put between quotes:
      backslashes first, then line feeds, carriage returns and double quotes. */
  function EscapeForLiteral(s: string): string {
    Replace(Replace(Replace(Replace(s, "\\", "\\\\"), "\n", "\\n"), "\r", "\\r"), "\"", "\\\"")
  }

  /** `GenerateRegressionAssertion`: nothing for null; otherwise the comment line followed by
      an equality assertion for a string or an asserted primitive, or a not-null assertion
      for any other value. */
  function GenerateRegressionAssertion(v: Value, newValueName: string, i: int): (r: string)
    ensures r == "" <==> v.Null?
    ensures !v.Null? ==> StartsWith(r, Comment)
    ensures v.Object? ==> r == Comment + "\t\t\tAssert.IsNotNull(" + newValueName + ");\r\n"
  {
    match v
    case Null => ""
    case Str(s) =>
      Comment + "\t\t\tAssert.AreEqual(" + "\"" + EscapeForLiteral(s) + "\", " + newValueName + FailureMessage(i)
    case Primitive(t, text) =>
      if IsAssertedPrimitive(t) then Comment + ComputeAssertion(text, newValueName, i)
      else Comment + "\t\t\tAssert.IsNotNull(" + newValueName + ");\r\n"
    case Object(_, _, _) =>
      Comment + "\t\t\tAssert.IsNotNull(" + newValueName + ");\r\n"
  }

  const AreEqualOpen := "\t\t\tAssert.AreEqual("

  /** `ComputeAssertion`: the lower-cased `ToString()` of the value as the expected value. */
  function ComputeAssertion(text: string, newValueName: string, i: int): string {
    AreEqualOpen + ToLower(text) + ", " + newValueName + FailureMessage(i)
  }

  // ------------------------------------------------------------ escaping, char by char

  function MapChars(s: string, f: char -> string): string {
    if s == [] then [] else f(s[0]) + MapChars(s[1..], f)
  }

  lemma {:induction false} MapCharsAppend(a: string, b: string, f: char -> string)
    ensures MapChars(a + b, f) == MapChars(a, f) + MapChars(b, f)
    decreases |a|
  {
    if a != [] {
      assert (a + b)[1..] == a[1..] + b;
      MapCharsAppend(a[1..], b, f);
    } else {
      assert a + b == b;
    }
  }

  /** Replacing a one-character pattern is a character-by-character map. */
  lemma {:induction false} ReplaceCharIsMap(s: string, c: char, rep: string, f: char -> string)
    requires forall x :: f(x) == if x == c then rep else [x]
    ensures Replace(s, [c], rep) == MapChars(s, f)
    decreases |s|
  {
    if s != [] {
      ReplaceCharIsMap(s[1..], c, rep, f);
    }
  }

  lemma {:induction false} MapCharsCompose(s: string, f: char -> string, g: char -> string, h: char -> string)
    requires forall x :: h(x) == MapChars(f(x), g)
    ensures MapChars(MapChars(s, f), g) == MapChars(s, h)
    decreases |s|
  {
    if s != [] {
      MapCharsAppend(f(s[0]), MapChars(s[1..], f), g);
      MapCharsCompose(s[1..], f, g, h);
    }
  }

  lemma MapCharsShort(a: char, b: char, f: char -> string)
    ensures MapChars([a], f) == f(a)
    ensures MapChars([a, b], f) == f(a) + f(b)
  {
    assert [a][1..] == [];
    assert MapChars([a], f) == f(a) + MapChars([], f);
    assert f(a) + [] == f(a);
    assert [a, b][1..] == [b];
    assert MapChars([a, b], f) == f(a) + MapChars([b], f);
  }

  /** The escape of one character. */
  function EscapeChar(x: char): string {
    if x == '\\' then "\\\\"
    else if x == '\n' then "\\n"
    else if x == '\r' then "\\r"
    else if x == '"' then "\\\""
    else [x]
  }

  function Esc1(x: char): string {
    if x == '\\' then "\\\\" else [x]
  }

  function Esc2(x: char): string {
    if x == '\n' then "\\n" else [x]
  }

  function Esc3(x: char): string {
    if x == '\r' then "\\r" else [x]
  }

  function Esc4(x: char): string {
    if x == '"' then "\\\"" else [x]
  }

  function Esc12(x: char): string {
    if x == '\\' then "\\\\" else if x == '\n' then "\\n" else [x]
  }

  function Esc123(x: char): string {
    if x == '\\' then "\\\\" else if x == '\n' then "\\n" else if x == '\r' then "\\r" else [x]
  }

  /** Each replacement after the first maps the output of the steps before it. */
  lemma ComposeStep2()
    ensures forall x :: Esc12(x) == MapChars(Esc1(x), Esc2)
  {
    forall x ensures Esc12(x) == MapChars(Esc1(x), Esc2) {
      MapCharsShort(x, x, Esc2);
      MapCharsShort('\\', '\\', Esc2);
    }
  }

  lemma ComposeStep3()
    ensures forall x :: Esc123(x) == MapChars(Esc12(x), Esc3)
  {
    forall x ensures Esc123(x) == MapChars(Esc12(x), Esc3) {
      MapCharsShort(x, x, Esc3);
      MapCharsShort('\\', '\\', Esc3);
      MapCharsShort('\\', 'n', Esc3);
    }
  }

  lemma ComposeStep4()
    ensures forall x :: EscapeChar(x) == MapChars(Esc123(x), Esc4)
  {
    forall x ensures EscapeChar(x) == MapChars(Esc123(x), Esc4) {
      MapCharsShort(x, x, Esc4);
      MapCharsShort('\\', '\\', Esc4);
      MapCharsShort('\\', 'n', Esc4);
      MapCharsShort('\\', 'r', Esc4);
    }
  }

  /** The chain of four replacements escapes each character on its own. */
  lemma EscapeIsCharwise(s: string)
    ensures EscapeForLiteral(s) == MapChars(s, EscapeChar)
  {
    ComposeStep2();
    ComposeStep3();
    ComposeStep4();
    ReplaceCharIsMap(s, '\\', "\\\\", Esc1);
    var s1 := MapChars(s, Esc1);
    ReplaceCharIsMap(s1, '\n', "\\n", Esc2);
    MapCharsCompose(s, Esc1, Esc2, Esc12);
    var s2 := MapChars(s, Esc12);
    ReplaceCharIsMap(s2, '\r', "\\r", Esc3);
    MapCharsCompose(s, Esc12, Esc3, Esc123);
    var s3 := MapChars(s, Esc123);
    ReplaceCharIsMap(s3, '"', "\\\"", Esc4);
    MapCharsCompose(s, Esc123, Esc4, EscapeChar);
  }

  /** Reading a C# string literal body back: `\\`, `\n`, `\r` and `\"` denote one character
      each. */
  function Unescape(s: string): string
    decreases |s|
  {
    if s == [] then []
    else if s[0] == '\\' && |s| >= 2 && s[1] in "\\nr\"" then
      [if s[1] == 'n' then '\n' else if s[1] == 'r' then '\r' else s[1]] + Unescape(s[2..])
    else [s[0]] + Unescape(s[1..])
  }

  /** Reading back one escaped character. */
  lemma UnescapeStep(x: char, rest: string)
    ensures Unescape(EscapeChar(x) + rest) == [x] + Unescape(rest)
  {
    var e := EscapeChar(x) + rest;
    if EscapeChar(x) == [x] {
      assert e[1..] == rest;
    } else {
      assert e[2..] == rest;
    }
  }

  lemma {:induction false} UnescapeMapChars(s: string)
    ensures Unescape(MapChars(s, EscapeChar)) == s
    decreases |s|
  {
    if s != [] {
      UnescapeMapChars(s[1..]);
      UnescapeStep(s[0], MapChars(s[1..], EscapeChar));
      assert s == [s[0]] + s[1..];
    }
  }

  lemma {:induction false} MapCharsNoBreaks(s: string)
    ensures '\n' !in MapChars(s, EscapeChar) && '\r' !in MapChars(s, EscapeChar)
    decreases |s|
  {
    if s != [] {
      MapCharsNoBreaks(s[1..]);
    }
  }

  /** A recorded string becomes a literal with no raw line break from which the original
      string is read back. */
  lemma StringAssertionRoundTrip(s: string, newValueName: string, i: int)
    ensures var lit := EscapeForLiteral(s);
      && GenerateRegressionAssertion(Str(s), newValueName, i)
         == Comment + "\t\t\tAssert.AreEqual(" + "\"" + lit + "\", " + newValueName + FailureMessage(i)
      && Unescape(lit) == s
      && '\n' !in lit && '\r' !in lit
  {
    EscapeIsCharwise(s);
    UnescapeMapChars(s);
    MapCharsNoBreaks(s);
  }

  /** An asserted primitive is compared with its text, upper-case letters lowered (so that
      `True` is written `true`), and the failure message carries an index that reads back
      as the retrieval count. */
  lemma PrimitiveAssertionShape(t: TypeName, text: string, newValueName: string, i: int)
    requires IsAssertedPrimitive(t)
    ensures var r := GenerateRegressionAssertion(Primitive(t, text), newValueName, i);
      var head := Comment + AreEqualOpen;
      && |r| >= |head| + |text| && r[..|head|] == head
      && (forall k :: 0 <= k < |text| ==> r[|head| + k] == LowerChar(text[k]) && !('A' <= r[|head| + k] <= 'Z'))
      && r[|head| + |text|..] == ", " + newValueName + FailureMessage(i)
    ensures IsInt32(i) ==> TryParseInt32(IntToString(i)) == Some(i)
  {
    var lowered := ToLower(text);
    var tail := ", " + newValueName + FailureMessage(i);
    assert ComputeAssertion(text, newValueName, i) == AreEqualOpen + lowered + tail;
    AppendAssoc(Comment, AreEqualOpen, lowered);
    AppendAssoc(Comment, AreEqualOpen + lowered, tail);
    ThreeParts(Comment + AreEqualOpen, lowered, tail);
    if IsInt32(i) {
      IntToStringParses(i);
    }
  }

  /** Where the three parts of a concatenation sit. */
  lemma ThreeParts(head: string, mid: string, tail: string)
    ensures var r := head + mid + tail;
      && |r| == |head| + |mid| + |tail| && r[..|head|] == head
      && (forall k :: 0 <= k < |mid| ==> r[|head| + k] == mid[k])
      && r[|head| + |mid|..] == tail
  {
  }

  /** Any other value type is treated like an object: a not-null assertion that depends on
      neither the value's type and text nor the retrieval count. */
  lemma OtherPrimitiveShape(t: TypeName, text: string, newValueName: string, i: int,
                            t2: TypeName, text2: string, i2: int, id: nat)
    requires !IsAssertedPrimitive(t) && !IsAssertedPrimitive(t2)
    ensures GenerateRegressionAssertion(Primitive(t, text), newValueName, i)
      == GenerateRegressionAssertion(Primitive(t2, text2), newValueName, i2)
      == GenerateRegressionAssertion(Object(t, id, text), newValueName, i)
  {
  }
}
