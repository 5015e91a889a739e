/** `MethodCall`: the transformer that calls a reflected method. It fixes the slot layout
    `[receiver, return value, arguments…]`, checks the method's `[Precondition]`, invokes the
    method (twice, to detect a non-deterministic return value), records the return value for
    the regression assertion of the generated test, and checks the basic contracts of the
    result tuple. Reflection, the expression evaluator and `Util.ViolatesContracts` /
    `Util.GuidelineViolation` are the function-typed fields of `Oracles`. */
module MethodCalls {
  import opened Common
  import opened CsStrings
  import opened Transformers
  import opened Contracts
  import opened Plans
  import RegressionAssertions

  const ArgumentException := "System.ArgumentException"
  const NullReference := "System.NullReferenceException"
  const ArgumentOutOfRange := "System.ArgumentOutOfRangeException"

  /** What reflection guarantees of a `MethodInfo`: one non-empty name per parameter. */
  predicate WellFormedSig(m: MethodSig) {
    |m.paramNames| == |m.paramTypes| && forall i :: 0 <= i < |m.paramNames| ==> m.paramNames[i] != ""
  }

  // ------------------------------------------------------------ slot layout

  /** `TupleIndexOfIthInputParam` as written: the guard `i < 0 && i > resultTypes.Length - 2`
      never holds, so no index is rejected. */
  function TupleIndexAsWritten(m: MethodSig, i: int): Result<int> {
    var len := |TupleTypes(MethodCallDesc(m))|;
    if i < 0 && i > len - 2 then Err(ArgumentException)
    else if i == 0 then Ok(0)
    else Ok(i + 1)
  }

  /** Input `|params|+1` does not exist, yet it is mapped to slot `|params|+2`, one past the
      end of the tuple; input -1 is mapped to the receiver's slot. */
  lemma TupleIndexAsWrittenOutOfRange(m: MethodSig)
    ensures var len := |TupleTypes(MethodCallDesc(m))|;
      len - 1 == |ParameterTypes(MethodCallDesc(m))| && TupleIndexAsWritten(m, len - 1) == Ok(len)
    ensures TupleIndexAsWritten(m, -1) == Ok(0)
  {
  }

  /** `TupleIndexOfIthInputParam` with the intended guard `i < 0 || i > len - 2`: input 0 is
      the receiver in slot 0, input i > 0 skips the return-value slot; an index that is not
      an input is rejected. */
  function TupleIndexOfIthInputParam(m: MethodSig, i: int): (r: Result<nat>)
    ensures r.Ok? <==> 0 <= i < |ParameterTypes(MethodCallDesc(m))|
    ensures r.Ok? ==> (r.value < |TupleTypes(MethodCallDesc(m))|
      && TupleTypes(MethodCallDesc(m))[r.value] == ParameterTypes(MethodCallDesc(m))[i])
    ensures r.Ok? ==> r.value != 1 && (r.value == 0 <==> i == 0)
  {
    var len := |TupleTypes(MethodCallDesc(m))|;
    if i < 0 || i > len - 2 then Err(ArgumentException)
    else if i == 0 then Ok(0)
    else Ok(i + 1)
  }

  // ------------------------------------------------------------ the precondition

  /** The loop of `PreconditionViolated`: each parameter the attribute lists has its name
      replaced by its argument's `ToString()`, which throws on null. */
  function SubstituteListed(expression: string, names: seq<string>, listed: seq<string>, args: seq<Value>): Result<string>
    requires |names| == |args| && forall i :: 0 <= i < |names| ==> names[i] != ""
  {
    if names == [] then Ok(expression)
    else
      var n := |names| - 1;
      match SubstituteListed(expression, names[..n], listed, args[..n])
      case Err(e) => Err(e)
      case Ok(e1) =>
        if names[n] !in listed then Ok(e1)
        else (match ToStringOf(args[n])
              case Err(x) => Err(x)
              case Ok(s) => Ok(Replace(e1, names[n], s)))
  }

  /** The substitution throws exactly when a listed parameter's argument is null; parameters
      the attribute does not list are never looked at. */
  lemma {:induction false} SubstituteListedFails(expression: string, names: seq<string>, listed: seq<string>, args: seq<Value>)
    requires |names| == |args| && forall i :: 0 <= i < |names| ==> names[i] != ""
    ensures var r := SubstituteListed(expression, names, listed, args);
      (r.Err? <==> exists i :: 0 <= i < |names| && names[i] in listed && args[i].Null?)
      && (r.Err? ==> r.exception == NullReference)
    decreases |names|
  {
    if names != [] {
      var n := |names| - 1;
      SubstituteListedFails(expression, names[..n], listed, args[..n]);
      assert forall i :: 0 <= i < n ==> names[..n][i] == names[i] && args[..n][i] == args[i];
    }
  }

  /** An attribute that lists no parameter is evaluated as written. */
  lemma {:induction false} SubstituteNoneListed(expression: string, names: seq<string>, args: seq<Value>)
    requires |names| == |args| && forall i :: 0 <= i < |names| ==> names[i] != ""
    ensures SubstituteListed(expression, names, [], args) == Ok(expression)
    decreases |names|
  {
    if names != [] {
      var n := |names| - 1;
      SubstituteNoneListed(expression, names[..n], args[..n]);
    }
  }

  lemma {:induction false} SubstituteStaysFailed(expression: string, names: seq<string>, listed: seq<string>, args: seq<Value>, k: nat)
    requires |names| == |args| && forall i :: 0 <= i < |names| ==> names[i] != ""
    requires k <= |names| && SubstituteListed(expression, names[..k], listed, args[..k]).Err?
    ensures SubstituteListed(expression, names, listed, args) == SubstituteListed(expression, names[..k], listed, args[..k])
    decreases |names| - k
  {
    if k < |names| {
      PrefixStep(names, k); PrefixStep(args, k);
      SubstituteStaysFailed(expression, names, listed, args, k + 1);
    } else {
      assert names[..k] == names && args[..k] == args;
    }
  }

  /** `MethodCall.PreconditionViolated` as written: the attribute is read without a null
      check, so a method without `[Precondition]` throws. */
  function MethodPreconditionAsWritten(pre: Option<Precondition>, m: MethodSig, args: seq<Value>, eval: Evaluator): Result<bool>
    requires WellFormedSig(m) && |args| == |m.paramTypes|
  {
    if pre.None? then Err(NullReference) else MethodPreconditionViolated(pre, m, args, eval)
  }

  /** Every method without a precondition attribute throws from the check as written. */
  lemma PreconditionAsWrittenNeedsAttribute(m: MethodSig, args: seq<Value>, eval: Evaluator)
    requires WellFormedSig(m) && |args| == |m.paramTypes|
    ensures MethodPreconditionAsWritten(None, m, args, eval) == Err(NullReference)
  {
  }

  /** The precondition check as intended: no attribute, no violation; otherwise the listed
      parameters are substituted and the call is ruled out iff the expression is false. An
      evaluator exception escapes. */
  function MethodPreconditionViolated(pre: Option<Precondition>, m: MethodSig, args: seq<Value>, eval: Evaluator): (r: Result<bool>)
    requires WellFormedSig(m) && |args| == |m.paramTypes|
    ensures pre.None? ==> r == Ok(false)
    ensures r.Err? && !(exists i :: 0 <= i < |args| && args[i].Null?) ==>
      pre.Some? && exists e :: eval(e, map[]) == Err(r.exception)
  {
    if pre.None? then Ok(false)
    else
      SubstituteListedFails(pre.value.expression, m.paramNames, pre.value.parameters, args);
      match SubstituteListed(pre.value.expression, m.paramNames, pre.value.parameters, args)
      case Err(e) => Err(e)
      case Ok(expression) =>
        match eval(expression, map[])
        case Ok(b) => Ok(!b)
        case Err(e) => Err(e)
  }

  /** A precondition that lists no parameter is evaluated as written, whatever the
      arguments. */
  lemma PreconditionListingNothing(expression: string, m: MethodSig, args: seq<Value>, eval: Evaluator)
    requires WellFormedSig(m) && |args| == |m.paramTypes|
    ensures MethodPreconditionViolated(Some(Precondition(expression, [])), m, args, eval)
      == (match eval(expression, map[]) case Ok(b) => Ok(!b) case Err(e) => Err(e))
  {
    SubstituteNoneListed(expression, m.paramNames, args);
  }

  // ------------------------------------------------------------ execution

  /** The reflection and checking oracles one execution consults. */
  datatype Oracles = Oracles(
    invoke: (Value, seq<Value>) -> Result<Value>,
    reinvoke: (Value, seq<Value>) -> Result<Value>,
    guideline: TypeName -> bool,
    report: Value -> ContractReport,
    eval: Evaluator)

  /** What an execution changes: the transformer's counters and recorded return values, the
      shared violation bookkeeping and the execution log. */
  datatype CallState = CallState(timesExecuted: nat, returnValues: seq<Value>, violations: ViolationState, log: seq<string>)

  /** What `Plan.RepOk` and `CheckParams` demand of the inputs: one chooser for the receiver
      and one per parameter, each selecting an existing slot, and no null for a primitive
      parameter. */
  predicate InputsOk(m: MethodSig, results: seq<seq<Value>>, parameterMap: seq<Chooser>) {
    && |parameterMap| == |m.paramTypes| + 1
    && (forall i :: 0 <= i < |parameterMap| ==> ChooserInRange(results, parameterMap[i]))
    && (forall i :: 1 <= i < |parameterMap| && IsPrimitiveType(m.paramTypes[i - 1]) ==> !Chosen(results, parameterMap[i]).Null?)
  }

  /** The arguments: input i + 1 of the parameter map for parameter i. */
  function Arguments(results: seq<seq<Value>>, parameterMap: seq<Chooser>): (r: seq<Value>)
    requires |parameterMap| >= 1 && forall i :: 0 <= i < |parameterMap| ==> ChooserInRange(results, parameterMap[i])
    ensures |r| == |parameterMap| - 1 && forall i :: 0 <= i < |r| ==> r[i] == Chosen(results, parameterMap[i + 1])
  {
    seq(|parameterMap| - 1, i requires 0 <= i < |parameterMap| - 1 => Chosen(results, parameterMap[i + 1]))
  }

  /** The return-value types that are logged and compared between the two runs: string,
      bool, byte, short, int, long, float, double and char. */
  predicate IsComparedValue(v: Value) {
    v.Str? || (v.Primitive? && RegressionAssertions.IsAssertedPrimitive(v.primType))
  }

  /** `Execute2`'s verdict on the second run: it must return without an exception and with a
      non-null value, equal to the first run's for the compared types. */
  function SecondRunAgrees(first: Value, second: Result<Value>): (r: bool)
    ensures second == Ok(first) && !first.Null? ==> r
    ensures r ==> second.Ok? && !second.value.Null?
  {
    match second
    case Err(_) => false
    case Ok(v) => !v.Null? && (IsComparedValue(v) ==> v == first)
  }

  /** The entry appended to `ReturnValue` after a successful first run. */
  function RecordedValue(returnValue: Value, second: Result<Value>): (r: Value)
    ensures r.Null? || r == returnValue
    ensures r == returnValue <==> returnValue.Null? || SecondRunAgrees(returnValue, second)
  {
    if !returnValue.Null? && SecondRunAgrees(returnValue, second) then returnValue else Null
  }

  function ExecLine(m: MethodSig, k: int): string {
    "execute method " + m.name + "[" + IntToString(k) + "]"
  }

  function ReturnLine(k: int, rest: string): string {
    "return value [" + IntToString(k) + "]" + rest
  }

  /** How a compared value is written to the log: its text with line breaks escaped. */
  function LoggedText(v: Value): string
    requires !v.Null?
  {
    Replace(Replace(ToStringOf(v).value, "\n", "\\n"), "\r", "\\r")
  }

  function SecondRunLines(m: MethodSig, k: int, second: Result<Value>): seq<string> {
    [ExecLine(m, k) + " the second time"]
    + match second
      case Err(_) => [ReturnLine(k, ": invocationOk is false the sceond time --- shouldn't happen?")]
      case Ok(v) =>
        if v.Null? then [ReturnLine(k, ": no return value the second time -- shouldn't happen?")]
        else if IsComparedValue(v) then [ReturnLine(k, " the second time: " + LoggedText(v))]
        else [ReturnLine(k, " the second time: not primitive or string")]
  }

  /** The log lines about a successful first run and, for a non-null value, the second. */
  function ReturnValueLines(m: MethodSig, k: int, returnValue: Value, second: Result<Value>): seq<string> {
    if returnValue.Null? then [ReturnLine(k, ": no return value")]
    else
      [if IsComparedValue(returnValue) then ReturnLine(k, ": " + LoggedText(returnValue))
       else ReturnLine(k, ": not string or primitive")]
      + SecondRunLines(m, k, second)
  }

  /** `MethodCall.Execute` (with the intended precondition check): count the execution,
      gather the receiver and arguments, stop on a violated precondition, let the
      `Util.Assert` failure escape for a null argument under `forbidNull`, log and invoke,
      record the return value, and check the basic contracts of the result tuple. */
  function ExecuteSpec(m: MethodSig, pre: Option<Precondition>, st: CallState, results: seq<seq<Value>>,
                       parameterMap: seq<Chooser>, o: Oracles, forbidNull: bool): (r: (CallState, ExecReturn))
    requires WellFormedSig(m) && InputsOk(m, results, parameterMap)
    ensures WellShaped(r.1)
    ensures r.1.Returned? && r.1.ret.Some? ==>
              |r.1.ret.value| >= 2 && r.1.ret.value[0] == Chosen(results, parameterMap[0])
              && r.1.ret.value[2..] == Arguments(results, parameterMap)
  {
    var k := st.timesExecuted;
    var st1 := st.(timesExecuted := k + 1);
    var receiver := Chosen(results, parameterMap[0]);
    var args := Arguments(results, parameterMap);
    match MethodPreconditionViolated(pre, m, args, o.eval)
    case Err(e) => (st1, Threw(e))
    case Ok(violated) =>
      if violated then (st1, Returned(false, None, true, None, false))
      else if NullForbidden(forbidNull, args) then (st1, Threw(AssertFailure))
      else InvokeSpec(m, k, st1.(log := st1.log + [ExecLine(m, k)]), receiver, args, o)
  }

  /** The part of `Execute` after the precondition: invoke, record the return value, and
      check the basic contracts of the tuple. `k` is the run's number. */
  function InvokeSpec(m: MethodSig, k: int, st: CallState, receiver: Value, args: seq<Value>, o: Oracles): (CallState, ExecReturn)
    requires ParamsChecked(m.paramTypes, args)
  {
    match o.invoke(receiver, args)
    case Err(e) =>
      (st.(violations := if o.guideline(e) then GuidelineStep(st.violations, MethodCallDesc(m), e) else st.violations,
           log := st.log + [ReturnLine(k, ": invocationOk is false.")],
           returnValues := st.returnValues + [Null]),
       Returned(false, None, false, Some(e), false))
    case Ok(rv) =>
      ReturnedSpec(m, k, st, MethodTuple(m, receiver, rv, args), o.reinvoke(receiver, args), o.report)
  }

  /** A returning invocation: log and record the value (`tuple[1]`), then check the basic
      contracts of the tuple. */
  function ReturnedSpec(m: MethodSig, k: int, st: CallState, tuple: seq<Value>, second: Result<Value>,
                        report: Value -> ContractReport): (CallState, ExecReturn)
    requires |tuple| >= 2
  {
    var rv := tuple[1];
    var (vs, cv) := CheckFold(st.violations, MethodCallDesc(m), tuple, report);
    (CallState(st.timesExecuted, st.returnValues + [RecordedValue(rv, second)], vs,
               st.log + ReturnValueLines(m, k, rv, second) + (if cv then ["contract violation."] else [])),
     Returned(!cv, Some(tuple), false, None, cv))
  }

  /** Every execution counts one more run; exactly the runs that get past the precondition
      and the null assertion append one entry to `ReturnValue`, and nothing recorded earlier
      changes. */
  lemma ExecuteBookkeeping(m: MethodSig, pre: Option<Precondition>, st: CallState, results: seq<seq<Value>>,
                           parameterMap: seq<Chooser>, o: Oracles, forbidNull: bool)
    requires WellFormedSig(m) && InputsOk(m, results, parameterMap)
    ensures var (st', _) := ExecuteSpec(m, pre, st, results, parameterMap, o, forbidNull);
      var args := Arguments(results, parameterMap);
      var reached := MethodPreconditionViolated(pre, m, args, o.eval) == Ok(false) && !NullForbidden(forbidNull, args);
      && st'.timesExecuted == st.timesExecuted + 1
      && st'.returnValues[..|st.returnValues|] == st.returnValues
      && |st'.returnValues| == |st.returnValues| + (if reached then 1 else 0)
  {
  }

  /** A violated precondition returns false with no result, no exception and no contract
      violation, without invoking the method: the outcome is the same whatever the
      invocation oracles would do, and only the execution count changes. */
  lemma PreconditionViolationSkipsInvocation(m: MethodSig, pre: Option<Precondition>, st: CallState, results: seq<seq<Value>>,
                                             parameterMap: seq<Chooser>, o: Oracles, o2: Oracles, forbidNull: bool)
    requires WellFormedSig(m) && InputsOk(m, results, parameterMap)
    requires MethodPreconditionViolated(pre, m, Arguments(results, parameterMap), o.eval) == Ok(true)
    requires o2.eval == o.eval
    ensures ExecuteSpec(m, pre, st, results, parameterMap, o, forbidNull)
      == (st.(timesExecuted := st.timesExecuted + 1), Returned(false, None, true, None, false))
    ensures ExecuteSpec(m, pre, st, results, parameterMap, o2, forbidNull)
      == ExecuteSpec(m, pre, st, results, parameterMap, o, forbidNull)
  {
  }

  /** Under `forbidNull`, a null argument that gets past the precondition makes the
      `Util.Assert` failure escape: the run is counted, but the method is not invoked, nothing
      is logged and no entry is recorded, whatever the invocation oracles would do. */
  lemma NullArgumentEscapes(m: MethodSig, pre: Option<Precondition>, st: CallState, results: seq<seq<Value>>,
                            parameterMap: seq<Chooser>, o: Oracles, o2: Oracles)
    requires WellFormedSig(m) && InputsOk(m, results, parameterMap)
    requires MethodPreconditionViolated(pre, m, Arguments(results, parameterMap), o.eval) == Ok(false)
    requires exists i :: 1 <= i < |parameterMap| && Chosen(results, parameterMap[i]).Null?
    requires o2.eval == o.eval
    ensures ExecuteSpec(m, pre, st, results, parameterMap, o, true)
      == (st.(timesExecuted := st.timesExecuted + 1), Threw(AssertFailure))
    ensures ToOutcome(ExecuteSpec(m, pre, st, results, parameterMap, o, true).1) == Escaped(AssertFailure)
    ensures ExecuteSpec(m, pre, st, results, parameterMap, o2, true)
      == ExecuteSpec(m, pre, st, results, parameterMap, o, true)
  {
    var i :| 1 <= i < |parameterMap| && Chosen(results, parameterMap[i]).Null?;
    var args := Arguments(results, parameterMap);
    assert args[i - 1] == Null;
  }

  /** A run past the precondition whose invocation throws: the exception is reported, no
      result, and a null entry is recorded. */
  lemma InvocationThrowsOutcome(m: MethodSig, pre: Option<Precondition>, st: CallState, results: seq<seq<Value>>,
                                parameterMap: seq<Chooser>, o: Oracles, forbidNull: bool)
    requires WellFormedSig(m) && InputsOk(m, results, parameterMap)
    requires MethodPreconditionViolated(pre, m, Arguments(results, parameterMap), o.eval) == Ok(false)
    requires !NullForbidden(forbidNull, Arguments(results, parameterMap))
    requires o.invoke(Chosen(results, parameterMap[0]), Arguments(results, parameterMap)).Err?
    ensures var e := o.invoke(Chosen(results, parameterMap[0]), Arguments(results, parameterMap)).exception;
      var (st', r) := ExecuteSpec(m, pre, st, results, parameterMap, o, forbidNull);
      ToOutcome(r) == Failed(false, Some(e), false) && st'.returnValues == st.returnValues + [Null]
  {
  }

  /** How `Plan.Execute` sees a run whose invocation returns: normal with the tuple
      `[receiver, return value, arguments…]` iff no element of it violates the basic
      contracts, a contract violation otherwise; and the value recorded for the regression
      assertion is the one returned when the second run agrees, null otherwise. */
  lemma InvocationReturnsOutcome(m: MethodSig, pre: Option<Precondition>, st: CallState, results: seq<seq<Value>>,
                                 parameterMap: seq<Chooser>, o: Oracles, forbidNull: bool)
    requires WellFormedSig(m) && InputsOk(m, results, parameterMap)
    requires MethodPreconditionViolated(pre, m, Arguments(results, parameterMap), o.eval) == Ok(false)
    requires !NullForbidden(forbidNull, Arguments(results, parameterMap))
    requires o.invoke(Chosen(results, parameterMap[0]), Arguments(results, parameterMap)).Ok?
    ensures var receiver := Chosen(results, parameterMap[0]);
      var args := Arguments(results, parameterMap);
      var rv := o.invoke(receiver, args).value;
      var tuple := MethodTuple(m, receiver, rv, args);
      var (st', r) := ExecuteSpec(m, pre, st, results, parameterMap, o, forbidNull);
      && ToOutcome(r) == (if CountViolating(tuple, o.report) == 0 then Normal(tuple) else Failed(false, None, true))
      && st'.returnValues == st.returnValues + [RecordedValue(rv, o.reinvoke(receiver, args))]
  {
    var receiver := Chosen(results, parameterMap[0]);
    var args := Arguments(results, parameterMap);
    var rv := o.invoke(receiver, args).value;
    var tuple := MethodTuple(m, receiver, rv, args);
    var k := st.timesExecuted;
    var second := o.reinvoke(receiver, args);
    var st3 := st.(timesExecuted := k + 1, log := st.log + [ExecLine(m, k)] + ReturnValueLines(m, k, rv, second),
                   returnValues := st.returnValues + [RecordedValue(rv, second)]);
    CheckFoldCounts(st3.violations, MethodCallDesc(m), tuple, o.report);
  }

  // ------------------------------------------------------------ return-value retrieval

  /** The assertion `ToCSharpCode` appends, as written: guarded by `timesExecuted`, it reads
      `ReturnValue[timesReturnValRetrieved]`, which throws past the end of the list. */
  function AssertionStepAsWritten(timesExecuted: nat, returnValues: seq<Value>, retrieved: nat,
                                  newValueName: string, contractAssertion: string): (Result<string>, nat)
  {
    if retrieved >= timesExecuted then (Ok(""), retrieved)
    else if retrieved >= |returnValues| then (Err(ArgumentOutOfRange), retrieved)
    else (Ok(if contractAssertion == "" then RegressionAssertions.GenerateRegressionAssertion(returnValues[retrieved], newValueName, retrieved)
             else contractAssertion), retrieved + 1)
  }

  /** A static `int M(int x)` with `[Precondition("x > 0", "x")]`, executed once with its
      precondition false, is counted as executed but records no return value; printing the
      plan then reads past the end of `ReturnValue`. */
  lemma RetrievalPastRecordedValues(vs: ViolationState)
    ensures var m := MethodSig("C", "M", "System.Int32", ["System.Int32"], ["x"], true);
      var o := Oracles((r, a) => Ok(Null), (r, a) => Ok(Null), e => false, v => ContractReport(false, false, false, false),
                       (e, vars) => Ok(false));
      var results := [[Null, Primitive("System.Int32", "0")]];
      var (st, _) := ExecuteSpec(m, Some(Precondition("x > 0", ["x"])), CallState(0, [], vs, []), results,
                                 [Chooser(0, 0), Chooser(0, 1)], o, false);
      st.timesExecuted == 1 && st.returnValues == []
      && AssertionStepAsWritten(st.timesExecuted, st.returnValues, 0, "v", "").0 == Err(ArgumentOutOfRange)
  {
    var m := MethodSig("C", "M", "System.Int32", ["System.Int32"], ["x"], true);
    var results := [[Null, Primitive("System.Int32", "0")]];
    var args := Arguments(results, [Chooser(0, 0), Chooser(0, 1)]);
    assert args == [Primitive("System.Int32", "0")];
    assert m.paramNames[..0] == [] && args[..0] == [];
    assert SubstituteListed("x > 0", m.paramNames, ["x"], args).Ok?;
  }

  /** The assertion step with the guard the comment beside it intends, `timesReturnValRetrieved
      >= ReturnValue.Count`: it never reads past the recorded values, and each retrieval
      consumes exactly the next recorded value. */
  function AssertionStep(returnValues: seq<Value>, retrieved: nat, newValueName: string, contractAssertion: string): (r: (string, nat))
    ensures retrieved >= |returnValues| ==> r == ("", retrieved)
    ensures retrieved < |returnValues| ==> (r.1 == retrieved + 1
      && (contractAssertion == "" ==>
            r.0 == RegressionAssertions.GenerateRegressionAssertion(returnValues[retrieved], newValueName, retrieved))
      && (contractAssertion != "" ==> r.0 == contractAssertion))
  {
    if retrieved >= |returnValues| then ("", retrieved)
    else (if contractAssertion == "" then RegressionAssertions.GenerateRegressionAssertion(returnValues[retrieved], newValueName, retrieved)
          else contractAssertion, retrieved + 1)
  }

  /** Wherever the bookkeeping invariant holds, the guard as written and the intended guard
      agree, so the correction changes only the runs that skipped the method. */
  lemma AssertionStepAgrees(timesExecuted: nat, returnValues: seq<Value>, retrieved: nat, newValueName: string, contractAssertion: string)
    requires |returnValues| == timesExecuted
    ensures var (a, n) := AssertionStep(returnValues, retrieved, newValueName, contractAssertion);
      AssertionStepAsWritten(timesExecuted, returnValues, retrieved, newValueName, contractAssertion) == (Ok(a), n)
  {
  }

  /** The bookkeeping of recorded return values: never more retrieved than recorded, never
      more recorded than executed. */
  predicate Bookkeeping(timesExecuted: nat, returnValues: seq<Value>, retrieved: nat) {
    retrieved <= |returnValues| <= timesExecuted
  }

  /** Execution and retrieval both preserve the bookkeeping invariant. */
  lemma BookkeepingPreserved(m: MethodSig, pre: Option<Precondition>, st: CallState, retrieved: nat, results: seq<seq<Value>>,
                             parameterMap: seq<Chooser>, o: Oracles, forbidNull: bool, newValueName: string, contractAssertion: string)
    requires WellFormedSig(m) && InputsOk(m, results, parameterMap)
    requires Bookkeeping(st.timesExecuted, st.returnValues, retrieved)
    ensures var (st', _) := ExecuteSpec(m, pre, st, results, parameterMap, o, forbidNull);
      Bookkeeping(st'.timesExecuted, st'.returnValues, retrieved)
    ensures Bookkeeping(st.timesExecuted, st.returnValues, AssertionStep(st.returnValues, retrieved, newValueName, contractAssertion).1)
  {
    ExecuteBookkeeping(m, pre, st, results, parameterMap, o, forbidNull);
  }

  // ------------------------------------------------------------ the transformer object

  /** The slot arrays of a method call before the `GetHashCode` rule: the layout
      `[declaringType, returnType, paramTypes…]` with only the receiver and return slots
      possibly active. */
  method SlotLayout(sig: MethodSig) returns (types: array<TypeName>, active: array<bool>)
    ensures fresh(types) && fresh(active)
    ensures types[..] == TupleTypes(MethodCallDesc(sig))
    ensures active[..] == [!sig.isStatic, sig.returnType != VoidType] + Repeat(false, |sig.paramTypes|)
  {
    var n := |sig.paramTypes|;
    types := new TypeName[n + 2];
    active := new bool[n + 2];
    types[0] := sig.declaringType;
    active[0] := !sig.isStatic;
    types[1] := sig.returnType;
    active[1] := sig.returnType != VoidType;
    var i := 0;
    while i < n
      invariant 0 <= i <= n
      invariant types[0] == sig.declaringType && types[1] == sig.returnType
      invariant active[0] == !sig.isStatic && active[1] == (sig.returnType != VoidType)
      invariant forall j :: 2 <= j < i + 2 ==> types[j] == sig.paramTypes[j - 2] && !active[j]
    {
      types[i + 2] := sig.paramTypes[i];
      active[i + 2] := false;
      i := i + 1;
    }
    ghost var layout := [sig.declaringType, sig.returnType] + sig.paramTypes;
    assert forall j :: 0 <= j < n + 2 ==> types[j] == layout[j];
    assert types[..] == layout;
    ghost var flags := [!sig.isStatic, sig.returnType != VoidType] + Repeat(false, n);
    forall j | 0 <= j < n + 2
      ensures active[j] == flags[j]
    {
      if j >= 2 {
        assert flags[j] == Repeat(false, n)[j - 2];
      }
    }
    assert active[..] == flags;
  }

  /** Switches every slot off, as the source does for `GetHashCode`. */
  method ClearFlags(active: array<bool>)
    modifies active
    ensures active[..] == Repeat(false, active.Length)
  {
    var k := 0;
    while k < active.Length
      invariant 0 <= k <= active.Length
      invariant forall j :: 0 <= j < k ==> !active[j]
    {
      active[k] := false;
      k := k + 1;
    }
  }

  class MethodCall {
    const sig: MethodSig
    /** The method's `[Precondition]` attribute, if any. */
    const precondition: Option<Precondition>
    const resultTypes: array<TypeName>
    const defaultActiveResultTypes: array<bool>
    var timesExecuted: nat
    /** `ReturnValue`: one entry per run that reached the invocation. */
    var returnValues: seq<Value>
    var timesReturnValRetrieved: nat

    function Desc(): Desc {
      MethodCallDesc(sig)
    }

    function State(log: ExecutionLog, violations: Violations): CallState
      reads this, log, violations
    {
      CallState(timesExecuted, returnValues, violations.state, log.lines)
    }

    /** The slot layout: `[declaringType, returnType, paramTypes…]`, the receiver slot active
        iff the method is an instance method, the return slot iff it is not void, no
        parameter slot, and no slot at all for `GetHashCode`. */
    constructor (sig: MethodSig, precondition: Option<Precondition>)
      ensures this.sig == sig && this.precondition == precondition
      ensures resultTypes[..] == TupleTypes(MethodCallDesc(sig))
      ensures defaultActiveResultTypes[..] == DefaultActive(MethodCallDesc(sig))
      ensures fresh(resultTypes) && fresh(defaultActiveResultTypes)
      ensures timesExecuted == 0 && returnValues == [] && timesReturnValRetrieved == 0
    {
      var types, active := SlotLayout(sig);
      if sig.name == "GetHashCode" {
        ClearFlags(active);
      }
      this.sig := sig;
      this.precondition := precondition;
      resultTypes := types;
      defaultActiveResultTypes := active;
      timesExecuted := 0;
      returnValues := [];
      timesReturnValRetrieved := 0;
    }

    /** `ParameterTypes`: a fresh array `[declaringType, paramTypes…]`. */
    method ParameterTypes() returns (r: array<TypeName>)
      ensures fresh(r) && r[..] == Transformers.ParameterTypes(MethodCallDesc(sig))
    {
      var n := |sig.paramTypes|;
      r := new TypeName[n + 1];
      r[0] := sig.declaringType;
      var i := 0;
      while i < n
        invariant 0 <= i <= n
        invariant r[0] == sig.declaringType
        invariant forall j :: 0 <= j < i ==> r[j + 1] == sig.paramTypes[j]
      {
        r[i + 1] := sig.paramTypes[i];
        i := i + 1;
      }
      assert r[..] == [sig.declaringType] + sig.paramTypes;
    }

    /** `PreconditionViolated` (with the intended null check on the attribute). */
    method PreconditionViolated(args: seq<Value>, eval: Evaluator) returns (r: Result<bool>)
      requires WellFormedSig(sig) && |args| == |sig.paramTypes|
      ensures r == MethodPreconditionViolated(precondition, sig, args, eval)
    {
      if precondition.None? {
        return Ok(false);
      }
      var names := sig.paramNames;
      var listed := precondition.value.parameters;
      var computedExpression := precondition.value.expression;
      var index := 0;
      while index < |names|
        invariant 0 <= index <= |names|
        invariant SubstituteListed(precondition.value.expression, names[..index], listed, args[..index]) == Ok(computedExpression)
      {
        PrefixStep(names, index); PrefixStep(args, index);
        if names[index] in listed {
          var argument := ToStringOf(args[index]);
          if argument.Err? {
            SubstituteStaysFailed(precondition.value.expression, names, listed, args, index + 1);
            return Err(argument.exception);
          }
          computedExpression := Replace(computedExpression, names[index], argument.value);
        }
        index := index + 1;
      }
      assert names[..index] == names && args[..index] == args;
      match eval(computedExpression, map[]) {
        case Ok(b) => r := Ok(!b);
        case Err(e) => r := Err(e);
      }
    }

    /** `Execute2`: the second run, logged; true iff it agrees with the first. */
    method Execute2(retValOldRun: Value, objects: seq<Value>, receiver: Value, log: ExecutionLog, o: Oracles) returns (agrees: bool)
      modifies log
      ensures agrees == SecondRunAgrees(retValOldRun, o.reinvoke(receiver, objects))
      ensures log.lines == old(log.lines) + SecondRunLines(sig, timesExecuted - 1, o.reinvoke(receiver, objects))
    {
      var k := timesExecuted - 1;
      ghost var lines0 := log.lines;
      log.WriteLine(ExecLine(sig, k) + " the second time");
      var call := o.reinvoke(receiver, objects);
      agrees := ReportSecondRun(k, call, retValOldRun, log, lines0);
    }

    /** The half of `Execute2` after the second invocation: logs and judges its outcome. */
    method ReportSecondRun(k: int, call: Result<Value>, retValOldRun: Value, log: ExecutionLog, ghost lines0: seq<string>)
        returns (agrees: bool)
      requires log.lines == lines0 + [ExecLine(sig, k) + " the second time"]
      modifies log
      ensures agrees == SecondRunAgrees(retValOldRun, call)
      ensures log.lines == lines0 + SecondRunLines(sig, k, call)
    {
      ghost var first := ExecLine(sig, k) + " the second time";
      if call.Err? {
        log.WriteLine(ReturnLine(k, ": invocationOk is false the sceond time --- shouldn't happen?"));
        Regroup(lines0, first, [ReturnLine(k, ": invocationOk is false the sceond time --- shouldn't happen?")]);
        return false;
      }
      var returnValue := call.value;
      if !returnValue.Null? {
        if IsComparedValue(returnValue) {
          log.WriteLine(ReturnLine(k, " the second time: " + LoggedText(returnValue)));
          Regroup(lines0, first, [ReturnLine(k, " the second time: " + LoggedText(returnValue))]);
          return returnValue == retValOldRun;
        }
        log.WriteLine(ReturnLine(k, " the second time: not primitive or string"));
        Regroup(lines0, first, [ReturnLine(k, " the second time: not primitive or string")]);
        return true;
      }
      log.WriteLine(ReturnLine(k, ": no return value the second time -- shouldn't happen?"));
      Regroup(lines0, first, [ReturnLine(k, ": no return value the second time -- shouldn't happen?")]);
      return false;
    }

    /** `Execute`, step by step as the source does it. */
    method Execute(results: seq<seq<Value>>, parameterMap: seq<Chooser>, log: ExecutionLog, violations: Violations,
                   o: Oracles, forbidNull: bool) returns (r: ExecReturn)
      requires WellFormedSig(sig) && InputsOk(sig, results, parameterMap)
      modifies this, log, violations
      ensures (State(log, violations), r) == ExecuteSpec(sig, precondition, old(State(log, violations)), results, parameterMap, o, forbidNull)
    {
      ghost var st := State(log, violations);
      timesExecuted := timesExecuted + 1;
      var n := |sig.paramTypes|;
      var objects := new Value[n];
      var receiver := Chosen(results, parameterMap[0]);
      var i := 0;
      while i < n
        modifies objects
        invariant 0 <= i <= n
        invariant forall j :: 0 <= j < i ==> objects[j] == Chosen(results, parameterMap[j + 1])
      {
        objects[i] := Chosen(results, parameterMap[i + 1]);
        i := i + 1;
      }
      var args := objects[..];
      assert args == Arguments(results, parameterMap);
      var violated := PreconditionViolated(args, o.eval);
      if violated.Err? {
        return Threw(violated.exception);
      }
      if violated.value {
        return Returned(false, None, true, None, false);
      }
      if forbidNull {
        var ok := AssertNoNull(args);
        if !ok {
          return Threw(AssertFailure);
        }
      }
      var k := timesExecuted - 1;
      log.WriteLine(ExecLine(sig, k));
      r := Invoke(k, receiver, args, log, violations, o);
    }

    /** The invocation part of `Execute`. */
    method Invoke(k: int, receiver: Value, args: seq<Value>, log: ExecutionLog, violations: Violations, o: Oracles)
      returns (r: ExecReturn)
      requires ParamsChecked(sig.paramTypes, args) && k == timesExecuted - 1
      modifies this, log, violations
      ensures (State(log, violations), r) == InvokeSpec(sig, k, old(State(log, violations)), receiver, args, o)
      ensures timesExecuted == old(timesExecuted)
    {
      var call := o.invoke(receiver, args);
      if call.Err? {
        if o.guideline(call.exception) {
          violations.RecordGuidelineViolation(Desc(), call.exception);
        }
        log.WriteLine(ReturnLine(k, ": invocationOk is false."));
        returnValues := returnValues + [Null];
        return Returned(false, None, false, Some(call.exception), false);
      }
      var tuple := MethodTuple(sig, receiver, call.value, args);
      r := RecordReturn(k, tuple, receiver, args, log, violations, o);
    }

    /** The returning path of `Invoke`: `tuple[1]` is the value the first run returned. */
    method RecordReturn(k: int, tuple: seq<Value>, receiver: Value, args: seq<Value>, log: ExecutionLog,
                        violations: Violations, o: Oracles) returns (r: ExecReturn)
      requires |tuple| >= 2 && k == timesExecuted - 1
      modifies this, log, violations
      ensures (State(log, violations), r) == ReturnedSpec(sig, k, old(State(log, violations)), tuple, o.reinvoke(receiver, args), o.report)
    {
      var returnValue := tuple[1];
      ghost var second := o.reinvoke(receiver, args);
      RecordReturnValue(k, returnValue, receiver, args, log, o);
      var contractViolated := violations.CheckContracts(Desc(), tuple, o.report);
      if contractViolated {
        log.WriteLine("contract violation.");
      }
      r := Returned(!contractViolated, Some(tuple), false, None, contractViolated);
      assert timesExecuted == old(timesExecuted);
      ghost var spec := ReturnedSpec(sig, k, old(State(log, violations)), tuple, second, o.report);
      assert spec.1 == r;
      assert spec.0.timesExecuted == timesExecuted;
      assert spec.0.returnValues == returnValues;
      assert spec.0.violations == violations.state;
      assert spec.0.log == log.lines;
    }

    /** The first part of the returning path: log the value the first run returned, run the
        call a second time for a non-null one, and record the value. */
    method RecordReturnValue(k: int, returnValue: Value, receiver: Value, args: seq<Value>, log: ExecutionLog, o: Oracles)
      requires k == timesExecuted - 1
      modifies this, log
      ensures log.lines == old(log.lines) + ReturnValueLines(sig, k, returnValue, o.reinvoke(receiver, args))
      ensures returnValues == old(returnValues) + [RecordedValue(returnValue, o.reinvoke(receiver, args))]
      ensures timesExecuted == old(timesExecuted) && timesReturnValRetrieved == old(timesReturnValRetrieved)
    {
      if !returnValue.Null? {
        var agrees := LogPresentValue(k, returnValue, receiver, args, log, o);
        returnValues := returnValues + [if agrees then returnValue else Null];
      } else {
        log.WriteLine(ReturnLine(k, ": no return value"));
        assert ReturnValueLines(sig, k, returnValue, o.reinvoke(receiver, args)) == [ReturnLine(k, ": no return value")];
        returnValues := returnValues + [Null];
      }
    }

    /** The logging half of `RecordReturnValue` for a non-null value: log the value, run the
        method again, and say whether the second run agrees. */
    method LogPresentValue(k: int, returnValue: Value, receiver: Value, args: seq<Value>, log: ExecutionLog, o: Oracles)
        returns (agrees: bool)
      requires k == timesExecuted - 1 && !returnValue.Null?
      modifies log
      ensures agrees == SecondRunAgrees(returnValue, o.reinvoke(receiver, args))
      ensures log.lines == old(log.lines) + ReturnValueLines(sig, k, returnValue, o.reinvoke(receiver, args))
    {
      var line := if IsComparedValue(returnValue) then ReturnLine(k, ": " + LoggedText(returnValue))
                  else ReturnLine(k, ": not string or primitive");
      log.WriteLine(line);
      agrees := Execute2(returnValue, args, receiver, log, o);
      Regroup(old(log.lines), line, SecondRunLines(sig, k, o.reinvoke(receiver, args)));
      assert ReturnValueLines(sig, k, returnValue, o.reinvoke(receiver, args))
          == [line] + SecondRunLines(sig, k, o.reinvoke(receiver, args));
    }

    /** `ToCSharpCode`'s assertion part (with the intended guard): the call text, then the
        contract assertion or the regression assertion for the next recorded value. The
        call text itself comes from reflection-driven printing and is an input. */
    method ToCSharpCode(callText: string, newValueName: string, contractAssertion: string) returns (code: string)
      modifies this
      ensures var (a, n) := AssertionStep(old(returnValues), old(timesReturnValRetrieved), newValueName, contractAssertion);
        code == callText + a && timesReturnValRetrieved == n
      ensures timesExecuted == old(timesExecuted) && returnValues == old(returnValues)
    {
      code := callText;
      if timesReturnValRetrieved >= |returnValues| {
        return;
      }
      var tempval := returnValues[timesReturnValRetrieved];
      var assertion := contractAssertion;
      if assertion == "" {
        assertion := RegressionAssertions.GenerateRegressionAssertion(tempval, newValueName, timesReturnValRetrieved);
      }
      code := code + assertion;
      timesReturnValRetrieved := timesReturnValRetrieved + 1;
    }
  }

  /** The static `cachedTransformers` dictionary of `MethodCall.Get`. */
  class MethodCallCache {
    var cached: map<MethodSig, MethodCall>

    /** Every entry is the transformer of its own key. */
    predicate Valid()
      reads this
    {
      forall s :: s in cached ==> cached[s].sig == s
    }

    constructor ()
      ensures cached == map[] && Valid()
    {
      cached := map[];
    }

    /** `Get`: the cached transformer for a method, created on first use. */
    method Get(sig: MethodSig, precondition: Option<Precondition>) returns (t: MethodCall)
      requires Valid()
      modifies this
      ensures Valid() && t.sig == sig
      ensures sig in old(cached) ==> t == old(cached)[sig] && cached == old(cached)
      ensures sig !in old(cached) ==> fresh(t) && t.sig == sig && cached == old(cached)[sig := t]
    {
      if sig in cached {
        return cached[sig];
      }
      t := new MethodCall(sig, precondition);
      cached := cached[sig := t];
    }

    /** Two lookups of the same method yield the same object. */
    method GetTwice(sig: MethodSig, precondition: Option<Precondition>) returns (t1: MethodCall, t2: MethodCall)
      requires Valid()
      modifies this
      ensures t1 == t2 && t1.sig == sig
    {
      t1 := Get(sig, precondition);
      t2 := Get(sig, precondition);
    }
  }
}
