/** What the two contract assertion generators share: the comment lines, the `Assert.IsTrue`
    wrapper, the rewriting of `output`, the longest-first order of invariant fields, the
    field-by-field rewriting loop, and the `StringBuilder` they append to. */
module ContractText {
  import opened Common
  import opened CsStrings

  const PostconditionComment := "\r\n\t\t\t//Contract assertion generated from postcondition\r\n"
  const InvariantComment := "\r\n\t\t\t//Contract assertion generated from invariant\r\n"
  const StaticInvariantComment := "\r\n\t\t\t//Contract assertion generated from static invariant\r\n"

  function Assertion(expression: string): string {
    "\t\t\tAssert.IsTrue(" + expression + ");"
  }

  /** `ComputePostconditionExpression`: every `output` becomes the result variable. */
  function PostconditionExpression(expression: string, methodCallResult: string): string {
    Replace(expression, "output", methodCallResult)
  }

  /** An expression that does not mention `output` is asserted as written, `output` alone
      becomes the variable, and naming the variable `output` changes nothing. */
  lemma PostconditionExpressionCases(expression: string, methodCallResult: string)
    ensures !Contains(expression, "output") ==> PostconditionExpression(expression, methodCallResult) == expression
    ensures PostconditionExpression("output", methodCallResult) == methodCallResult
    ensures PostconditionExpression(expression, "output") == expression
  {
    if !Contains(expression, "output") {
      ReplaceAbsent(expression, "output", methodCallResult);
    }
    ReplaceSelf(expression, "output");
    assert "output"[..|"output"|] == "output" && "output"[|"output"|..] == "";
    assert methodCallResult + "" == methodCallResult;
  }

  // ------------------------------------------------------------ longest-first order

  predicate NonIncreasingLength(s: seq<string>) {
    forall i, j :: 0 <= i < j < |s| ==> |s[i]| >= |s[j]|
  }

  /** Places `x` after every element at least as long as it. */
  function InsertByLength(s: seq<string>, x: string): seq<string> {
    if s == [] then [x]
    else if |s[0]| >= |x| then [s[0]] + InsertByLength(s[1..], x)
    else [x] + s
  }

  /** `OrderByDescending(_ => _.Length)`: a stable sort, longest first. */
  function OrderByDescendingLength(s: seq<string>): seq<string> {
    if s == [] then []
    else InsertByLength(OrderByDescendingLength(s[..|s| - 1]), s[|s| - 1])
  }

  lemma {:induction false} InsertByLengthElements(s: seq<string>, x: string)
    ensures multiset(InsertByLength(s, x)) == multiset(s) + multiset{x}
    ensures forall y :: y in InsertByLength(s, x) ==> y in s || y == x
    decreases |s|
  {
    if s != [] && |s[0]| >= |x| {
      InsertByLengthElements(s[1..], x);
      assert s == [s[0]] + s[1..];
    }
    var r := InsertByLength(s, x);
    forall y | y in r ensures y in s || y == x {
      assert y in multiset(r);
    }
  }

  lemma {:induction false} InsertByLengthSorted(s: seq<string>, x: string)
    requires NonIncreasingLength(s)
    ensures NonIncreasingLength(InsertByLength(s, x))
    decreases |s|
  {
    if s != [] && |s[0]| >= |x| {
      var t := InsertByLength(s[1..], x);
      InsertByLengthSorted(s[1..], x);
      InsertByLengthElements(s[1..], x);
      var r := [s[0]] + t;
      forall j | 0 <= j < |t| ensures |s[0]| >= |t[j]| {
        assert t[j] in t;
        if t[j] != x {
          var k :| 0 <= k < |s[1..]| && s[1..][k] == t[j];
          assert s[k + 1] == t[j];
        }
      }
      assert InsertByLength(s, x) == r;
      forall i, j | 0 <= i < j < |r| ensures |r[i]| >= |r[j]| {
        if i > 0 {
          assert r[i] == t[i - 1] && r[j] == t[j - 1];
        }
      }
    }
  }

  /** The order is longest first and a permutation of the fields. */
  lemma {:induction false} OrderByDescendingLengthSorted(s: seq<string>)
    ensures NonIncreasingLength(OrderByDescendingLength(s))
    ensures multiset(OrderByDescendingLength(s)) == multiset(s)
    decreases |s|
  {
    if s != [] {
      var n := |s| - 1;
      OrderByDescendingLengthSorted(s[..n]);
      InsertByLengthSorted(OrderByDescendingLength(s[..n]), s[n]);
      InsertByLengthElements(OrderByDescendingLength(s[..n]), s[n]);
      assert s == s[..n] + [s[n]];
    }
  }

  // ------------------------------------------------------------ rewriting fields

  /** The `foreach` of `Compute*InvariantExpression`: each field in turn is replaced by what
      `rep` makes of it; `rep` may throw, and `Replace` throws on an empty field name. */
  function RewriteFields(expression: string, fields: seq<string>, rep: string -> Result<string>): Result<string> {
    if fields == [] then Ok(expression)
    else match RewriteFields(expression, fields[..|fields| - 1], rep)
      case Err(e) => Err(e)
      case Ok(e1) =>
        var f := fields[|fields| - 1];
        (match rep(f)
         case Err(e) => Err(e)
         case Ok(r) => if f == "" then Err("System.ArgumentException") else Ok(Replace(e1, f, r)))
  }

  /** The rewriting succeeds iff every field is non-empty and has a replacement. */
  lemma {:induction false} RewriteFieldsSucceeds(expression: string, fields: seq<string>, rep: string -> Result<string>)
    ensures RewriteFields(expression, fields, rep).Ok? <==>
      forall i :: 0 <= i < |fields| ==> fields[i] != "" && rep(fields[i]).Ok?
    decreases |fields|
  {
    if fields != [] {
      var n := |fields| - 1;
      RewriteFieldsSucceeds(expression, fields[..n], rep);
      assert forall i :: 0 <= i < n ==> fields[..n][i] == fields[i];
    }
  }

  /** Fields that the expression does not mention leave it as it is. */
  lemma {:induction false} RewriteUnmentioned(expression: string, fields: seq<string>, rep: string -> Result<string>)
    requires forall i :: 0 <= i < |fields| ==> fields[i] != "" && rep(fields[i]).Ok? && !Contains(expression, fields[i])
    ensures RewriteFields(expression, fields, rep) == Ok(expression)
    decreases |fields|
  {
    if fields != [] {
      var n := |fields| - 1;
      RewriteUnmentioned(expression, fields[..n], rep);
      ReplaceAbsent(expression, fields[n], rep(fields[n]).value);
    }
  }

  lemma {:induction false} RewriteStaysFailed(expression: string, fields: seq<string>, k: nat, rep: string -> Result<string>)
    requires k <= |fields| && RewriteFields(expression, fields[..k], rep).Err?
    ensures RewriteFields(expression, fields, rep) == RewriteFields(expression, fields[..k], rep)
    decreases |fields| - k
  {
    if k < |fields| {
      PrefixStep(fields, k);
      RewriteStaysFailed(expression, fields, k + 1, rep);
    } else {
      TakeAll(fields);
    }
  }

  method RewriteLoop(expression: string, fields: seq<string>, rep: string -> Result<string>) returns (r: Result<string>)
    ensures r == RewriteFields(expression, fields, rep)
  {
    var e := expression;
    var i := 0;
    while i < |fields|
      invariant 0 <= i <= |fields|
      invariant RewriteFields(expression, fields[..i], rep) == Ok(e)
    {
      PrefixStep(fields, i);
      var fieldName := fields[i];
      var replacement := rep(fieldName);
      if replacement.Err? || fieldName == "" {
        RewriteStaysFailed(expression, fields, i + 1, rep);
        return if replacement.Err? then Err(replacement.exception) else Err("System.ArgumentException");
      }
      e := Replace(e, fieldName, replacement.value);
      i := i + 1;
    }
    TakeAll(fields);
    r := Ok(e);
  }

  // ------------------------------------------------------------ the StringBuilder

  class CodeBuilder {
    var text: string

    constructor ()
      ensures text == ""
    {
      text := "";
    }

    method Append(s: string)
      modifies this
      ensures text == old(text) + s
    {
      text := text + s;
    }
  }
}
