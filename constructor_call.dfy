/** `ConstructorCallTransformer`: the transformer that creates an object with a reflected
    constructor. Its result tuple is `[new object, arguments…]`; when Randoop contracts are
    in use it first checks the constructor's `[Precondition]`, then invokes the constructor,
    checks the basic contracts of the tuple and validates the contract attributes of the new
    object. Reflection, the expression evaluator and `Util.ViolatesContracts` /
    `Util.GuidelineViolation` are the function-typed fields of `CtorOracles`. */
module ConstructorCalls {
  import opened Common
  import opened Transformers
  import opened Contracts
  import opened Plans
  import RandoopContractAssertions
  import CsStrings

  const ArgumentException := "System.ArgumentException"
  const IndexOutOfRange := "System.IndexOutOfRangeException"

  /** The reflected constructor together with what the contracts read of it: the same
      parameters, named as C# demands. */
  predicate WellFormedCtor(c: CtorSig, info: MemberInfo) {
    |c.paramNames| == |c.paramTypes| && info.paramNames == c.paramNames && WellFormedParams(info)
  }

  // ------------------------------------------------------------ slot layout

  /** `TupleIndexOfIthInputParam` as written: the guard `i < 0 && i > resultTypes.Length - 1`
      never holds, so every index is shifted past the new object. */
  function TupleIndexAsWritten(c: CtorSig, i: int): Result<int> {
    var len := |TupleTypes(ConstructorCallDesc(c))|;
    if i < 0 && i > len - 1 then Err(ArgumentException) else Ok(i + 1)
  }

  /** Input `|params|` does not exist, yet it is mapped to slot `|params| + 1`, one past the
      end of the tuple; input -1 is mapped to the new object's slot. */
  lemma TupleIndexAsWrittenOutOfRange(c: CtorSig)
    ensures var len := |TupleTypes(ConstructorCallDesc(c))|;
      TupleIndexAsWritten(c, len - 1) == Ok(len)
      && len - 1 == |ParameterTypes(ConstructorCallDesc(c))|
    ensures TupleIndexAsWritten(c, -1) == Ok(0)
  {
  }

  /** `TupleIndexOfIthInputParam` with the intended guard `i < 0 || i > resultTypes.Length - 2`:
      parameter i lives in slot i + 1, behind the new object; an index that is not a
      parameter is rejected. */
  function TupleIndexOfIthInputParam(c: CtorSig, i: int): (r: Result<nat>)
    ensures r.Ok? <==> 0 <= i < |ParameterTypes(ConstructorCallDesc(c))|
    ensures r.Ok? ==> (r.value == i + 1 && r.value < |TupleTypes(ConstructorCallDesc(c))|
      && TupleTypes(ConstructorCallDesc(c))[r.value] == ParameterTypes(ConstructorCallDesc(c))[i])
  {
    var len := |TupleTypes(ConstructorCallDesc(c))|;
    if i < 0 || i > len - 2 then Err(ArgumentException) else Ok(i + 1)
  }

  /** On every actual parameter the written and the intended mapping agree. */
  lemma TupleIndexAgreesOnParameters(c: CtorSig, i: int)
    requires 0 <= i < |c.paramTypes|
    ensures TupleIndexAsWritten(c, i) == Ok(TupleIndexOfIthInputParam(c, i).value)
  {
  }

  // ------------------------------------------------------------ execution

  /** The reflection and checking oracles one execution consults; `readNew(v)` reads fields
      and getters of the object `v`, `readStatic` the static ones. */
  datatype CtorOracles = CtorOracles(
    invoke: seq<Value> -> Result<Value>,
    guideline: TypeName -> bool,
    report: Value -> ContractReport,
    eval: Evaluator,
    readNew: Value -> Reader,
    readStatic: Reader)

  /** What an execution changes: the execution count, the shared violation bookkeeping and
      the execution log. */
  datatype CtorState = CtorState(timesExecuted: nat, violations: ViolationState, log: seq<string>)

  /** What `Plan.RepOk` and `CheckParams` demand of the inputs: one chooser per parameter,
      each selecting an existing slot, and no null for a primitive parameter. */
  predicate InputsOk(c: CtorSig, results: seq<seq<Value>>, parameterMap: seq<Chooser>) {
    && |parameterMap| == |c.paramTypes|
    && (forall i :: 0 <= i < |parameterMap| ==> ChooserInRange(results, parameterMap[i]))
    && (forall i :: 0 <= i < |parameterMap| && IsPrimitiveType(c.paramTypes[i]) ==> !Chosen(results, parameterMap[i]).Null?)
  }

  /** The loop of `Execute` that fills the `objects` array from the parameter map. */
  method GatherArguments(results: seq<seq<Value>>, parameterMap: seq<Chooser>) returns (args: seq<Value>)
    requires forall i :: 0 <= i < |parameterMap| ==> ChooserInRange(results, parameterMap[i])
    ensures args == ChosenValues(results, parameterMap)
  {
    var n := |parameterMap|;
    var objects := new Value[n];
    var i := 0;
    while i < n
      modifies objects
      invariant 0 <= i <= n
      invariant forall j :: 0 <= j < i ==> objects[j] == Chosen(results, parameterMap[j])
    {
      objects[i] := Chosen(results, parameterMap[i]);
      i := i + 1;
    }
    args := objects[..];
    assert args == ChosenValues(results, parameterMap);
  }

  /** What `Execute` makes of the contracts manager's answer: an invalid contract
      (`InvalidRandoopContractException`) counts as not violated, and any other exception of
      the check escapes. */
  function Verdict(violated: Result<bool>): (r: Result<bool>)
    ensures r == Ok(true) <==> violated == Ok(true)
    ensures r.Err? <==> violated.Err? && violated.exception != InvalidContractException
  {
    match violated
    case Err(e) => if e == InvalidContractException then Ok(false) else Err(e)
    case Ok(b) => Ok(b)
  }

  /** The precondition check: made only with Randoop contracts, and judged by `Verdict` on the
      corrected `PreconditionViolated` of the contracts manager. */
  function PreconditionCheck(info: MemberInfo, args: seq<Value>, eval: Evaluator, useRandoopContracts: bool): (r: Result<bool>)
    requires WellFormedParams(info) && |args| == |info.paramNames|
    ensures !useRandoopContracts ==> r == Ok(false)
    ensures r == Ok(true) <==> useRandoopContracts && PreconditionViolated(info, args, eval) == Ok(true)
    ensures r.Err? <==> (useRandoopContracts && PreconditionViolated(info, args, eval).Err?
                         && PreconditionViolated(info, args, eval).exception != InvalidContractException)
  {
    if !useRandoopContracts then Ok(false)
    else Verdict(PreconditionViolated(info, args, eval))
  }

  /** With the contracts manager as written, a one-parameter constructor whose argument's text
      is not the parameter's name is never ruled out: the manager throws
      `InvalidRandoopContractException`, which `Execute` swallows, so the constructor runs. The
      corrected check rules it out iff the substituted expression evaluates to false, e.g.
      `C(-1)` with `[Precondition("x > 0", "x")]` when `-1 > 0` is false. */
  lemma PreconditionAsWrittenInvokes(info: MemberInfo, arg: Value, text: string, rest: string, eval: Evaluator)
    requires WellFormedParams(info) && |info.paramNames| == 1
    requires info.precondition.Some? && info.precondition.value.expression == info.paramNames[0] + rest
    requires !CsStrings.Contains(rest, info.paramNames[0])
    requires ArgumentStrings([arg]) == Ok([text]) && text != info.paramNames[0]
    ensures Verdict(PreconditionViolatedAsWritten(info, [arg], eval)) == Ok(false)
    ensures PreconditionCheck(info, [arg], eval, true) == Ok(true) <==> eval(text + rest, map[]) == Ok(false)
  {
    assert ArgumentStrings([arg]).value[0] !in info.paramNames;
    PreconditionSubstitutesValues(eval, info, arg, text, rest);
  }

  function ExecLine(c: CtorSig): string {
    "execute constructor " + c.declaringType
  }

  /** `ConstructorCallTransformer.Execute`: gather the arguments, stop on a violated
      precondition without counting the run, let the `Util.Assert` failure escape for a null
      argument under `forbidNull`, log and count, invoke; on success check the
      basic contracts of `[new object, arguments…]` and validate the contract attributes of
      the new object. The third component is the `contractStates` out-parameter, `None`
      where the source leaves it at `new ContractState()`. */
  function ExecuteSpec(c: CtorSig, info: MemberInfo, st: CtorState, results: seq<seq<Value>>, parameterMap: seq<Chooser>,
                       o: CtorOracles, forbidNull: bool, useRandoopContracts: bool): (r: (CtorState, ExecReturn, Option<ContractState>))
    requires WellFormedCtor(c, info) && InputsOk(c, results, parameterMap)
    ensures WellShaped(r.1)
    ensures r.2.Some? <==> r.1.Returned? && r.1.ret.Some?
    ensures r.1.Returned? && r.1.ret.Some? ==> |r.1.ret.value| >= 1 && r.1.ret.value[1..] == ChosenValues(results, parameterMap)
  {
    var args := ChosenValues(results, parameterMap);
    match PreconditionCheck(info, args, o.eval, useRandoopContracts)
    case Err(e) => (st, Threw(e), None)
    case Ok(violated) =>
      if violated then (st, Returned(false, None, true, None, false), None)
      else ProceedSpec(c, info, st, args, o, forbidNull)
  }

  /** The part of `Execute` after a precondition that holds: the null assertion, then the
      run is logged, counted and invoked. */
  function ProceedSpec(c: CtorSig, info: MemberInfo, st: CtorState, args: seq<Value>, o: CtorOracles, forbidNull: bool): (CtorState, ExecReturn, Option<ContractState>)
    requires ParamsChecked(c.paramTypes, args)
  {
    if NullForbidden(forbidNull, args) then (st, Threw(AssertFailure), None)
    else InvokeSpec(c, info, st.(timesExecuted := st.timesExecuted + 1, log := st.log + [ExecLine(c)]), args, o)
  }

  /** The part of `Execute` from the invocation on. */
  function InvokeSpec(c: CtorSig, info: MemberInfo, st: CtorState, args: seq<Value>, o: CtorOracles): (CtorState, ExecReturn, Option<ContractState>)
    requires ParamsChecked(c.paramTypes, args)
  {
    match o.invoke(args)
    case Err(e) =>
      (st.(violations := if o.guideline(e) then GuidelineStep(st.violations, ConstructorCallDesc(c), e) else st.violations,
           log := st.log + ["execution failure."]),
       Returned(false, None, false, Some(e), false), None)
    case Ok(newObject) => CreatedSpec(c, info, st, ConstructorTuple(c, newObject, args), o)
  }

  /** A constructor that returned: the basic contracts of the tuple, then the contract
      attributes of the new object (`tuple[0]`), whose exception escapes. */
  function CreatedSpec(c: CtorSig, info: MemberInfo, st: CtorState, tuple: seq<Value>, o: CtorOracles): (CtorState, ExecReturn, Option<ContractState>)
    requires |tuple| >= 1
  {
    var (vs, cv) := CheckFold(st.violations, ConstructorCallDesc(c), tuple, o.report);
    match ConstructorContractStates(info, tuple[0], o.readNew(tuple[0]), o.readStatic, o.eval)
    case Err(e) => (st.(violations := vs), Threw(e), None)
    case Ok(states) =>
      (CtorState(st.timesExecuted, vs, st.log + (if cv then ["contract violation."] else [])),
       Returned(!cv, Some(tuple), false, None, cv), Some(states))
  }

  /** A violated precondition returns false with no result, no exception and no contract
      violation, without counting the run, logging or invoking: the outcome does not depend
      on the invocation oracle. */
  lemma PreconditionViolationSkipsInvocation(c: CtorSig, info: MemberInfo, st: CtorState, results: seq<seq<Value>>, parameterMap: seq<Chooser>,
                                             o: CtorOracles, o2: CtorOracles, forbidNull: bool)
    requires WellFormedCtor(c, info) && InputsOk(c, results, parameterMap)
    requires PreconditionViolated(info, ChosenValues(results, parameterMap), o.eval) == Ok(true)
    requires o2.eval == o.eval
    ensures ExecuteSpec(c, info, st, results, parameterMap, o, forbidNull, true) == (st, Returned(false, None, true, None, false), None)
    ensures ExecuteSpec(c, info, st, results, parameterMap, o2, forbidNull, true) == ExecuteSpec(c, info, st, results, parameterMap, o, forbidNull, true)
  {
  }

  /** An invalid precondition is ignored: execution proceeds exactly as without Randoop
      contracts. */
  lemma InvalidPreconditionIgnored(c: CtorSig, info: MemberInfo, st: CtorState, results: seq<seq<Value>>, parameterMap: seq<Chooser>,
                                   o: CtorOracles, forbidNull: bool)
    requires WellFormedCtor(c, info) && InputsOk(c, results, parameterMap)
    requires PreconditionViolated(info, ChosenValues(results, parameterMap), o.eval) == Err(InvalidContractException)
    ensures ExecuteSpec(c, info, st, results, parameterMap, o, forbidNull, true) == ExecuteSpec(c, info, st, results, parameterMap, o, forbidNull, false)
  {
  }

  /** Without Randoop contracts no precondition is ever reported violated, and every run that
      gets past the null assertion is counted. */
  lemma NoContractsNoPrecondition(c: CtorSig, info: MemberInfo, st: CtorState, results: seq<seq<Value>>, parameterMap: seq<Chooser>,
                                  o: CtorOracles, forbidNull: bool)
    requires WellFormedCtor(c, info) && InputsOk(c, results, parameterMap)
    ensures var (st', r, _) := ExecuteSpec(c, info, st, results, parameterMap, o, forbidNull, false);
      && (r.Returned? ==> !r.preconditionViolated)
      && (st'.timesExecuted == st.timesExecuted + 1 <==> !NullForbidden(forbidNull, ChosenValues(results, parameterMap)))
  {
  }

  /** Under `forbidNull`, a null argument that gets past the precondition makes the
      `Util.Assert` failure escape before the run is logged or counted: nothing changes and
      the constructor is not invoked. */
  lemma NullArgumentEscapes(c: CtorSig, info: MemberInfo, st: CtorState, results: seq<seq<Value>>, parameterMap: seq<Chooser>,
                            o: CtorOracles, o2: CtorOracles, useRandoopContracts: bool)
    requires WellFormedCtor(c, info) && InputsOk(c, results, parameterMap)
    requires PreconditionCheck(info, ChosenValues(results, parameterMap), o.eval, useRandoopContracts) == Ok(false)
    requires exists i :: 0 <= i < |parameterMap| && Chosen(results, parameterMap[i]).Null?
    requires o2.eval == o.eval
    ensures ExecuteSpec(c, info, st, results, parameterMap, o, true, useRandoopContracts) == (st, Threw(AssertFailure), None)
    ensures ExecuteSpec(c, info, st, results, parameterMap, o2, true, useRandoopContracts)
      == ExecuteSpec(c, info, st, results, parameterMap, o, true, useRandoopContracts)
  {
    var i :| 0 <= i < |parameterMap| && Chosen(results, parameterMap[i]).Null?;
    assert ChosenValues(results, parameterMap)[i] == Null;
  }

  /** A run whose constructor throws: the exception is reported with no result and the run is
      counted; the pair (constructor, exception type) is recorded iff it is a guideline
      violation. */
  lemma InvocationThrowsOutcome(c: CtorSig, info: MemberInfo, st: CtorState, results: seq<seq<Value>>, parameterMap: seq<Chooser>,
                                o: CtorOracles, forbidNull: bool, useRandoopContracts: bool)
    requires WellFormedCtor(c, info) && InputsOk(c, results, parameterMap)
    requires PreconditionCheck(info, ChosenValues(results, parameterMap), o.eval, useRandoopContracts) == Ok(false)
    requires !NullForbidden(forbidNull, ChosenValues(results, parameterMap))
    requires o.invoke(ChosenValues(results, parameterMap)).Err?
    ensures var e := o.invoke(ChosenValues(results, parameterMap)).exception;
      var (st', r, states) := ExecuteSpec(c, info, st, results, parameterMap, o, forbidNull, useRandoopContracts);
      && ToOutcome(r) == Failed(false, Some(e), false) && states.None?
      && st'.timesExecuted == st.timesExecuted + 1
      && st'.log == st.log + [ExecLine(c), "execution failure."]
      && ((ConstructorCallDesc(c), e) in st'.violations.exnViolating <==>
          (ConstructorCallDesc(c), e) in st.violations.exnViolating || o.guideline(e))
  {
  }

  /** A run whose constructor returns and whose contract attributes validate: the tuple is
      `[new object, arguments…]`, the plan is normal iff no non-null element violates the
      basic contracts, and the contract states are those of the new object. */
  lemma InvocationReturnsOutcome(c: CtorSig, info: MemberInfo, st: CtorState, results: seq<seq<Value>>, parameterMap: seq<Chooser>,
                                 o: CtorOracles, forbidNull: bool, useRandoopContracts: bool)
    requires WellFormedCtor(c, info) && InputsOk(c, results, parameterMap)
    requires PreconditionCheck(info, ChosenValues(results, parameterMap), o.eval, useRandoopContracts) == Ok(false)
    requires !NullForbidden(forbidNull, ChosenValues(results, parameterMap))
    requires o.invoke(ChosenValues(results, parameterMap)).Ok?
    requires var v := o.invoke(ChosenValues(results, parameterMap)).value;
      ConstructorContractStates(info, v, o.readNew(v), o.readStatic, o.eval).Ok?
    ensures var args := ChosenValues(results, parameterMap);
      var v := o.invoke(args).value;
      var tuple := [v] + args;
      var (st', r, states) := ExecuteSpec(c, info, st, results, parameterMap, o, forbidNull, useRandoopContracts);
      && ToOutcome(r) == (if CountViolating(tuple, o.report) == 0 then Normal(tuple) else Failed(false, None, true))
      && states == Some(ConstructorContractStates(info, v, o.readNew(v), o.readStatic, o.eval).value)
      && st'.timesExecuted == st.timesExecuted + 1
      && st'.violations.numDistinctContractViolPlans == st.violations.numDistinctContractViolPlans + CountViolating(tuple, o.report)
  {
    var args := ChosenValues(results, parameterMap);
    var v := o.invoke(args).value;
    var st1 := st.(timesExecuted := st.timesExecuted + 1, log := st.log + [ExecLine(c)]);
    CheckFoldCounts(st1.violations, ConstructorCallDesc(c), ConstructorTuple(c, v, args), o.report);
  }

  // ------------------------------------------------------------ the generated statement

  /** The argument list of the `new` expression: each argument cast to its parameter's type,
      printed by `codeString` (`SourceCodePrinting.ToCodeString`), separated by `" , "`;
      `ParameterTypes[i]` throws past the last parameter. */
  function ArgumentList(paramTypes: seq<TypeName>, arguments: seq<string>, codeString: TypeName -> string): Result<string> {
    if arguments == [] then Ok("")
    else
      var i := |arguments| - 1;
      match ArgumentList(paramTypes, arguments[..i], codeString)
      case Err(e) => Err(e)
      case Ok(prefix) =>
        if i >= |paramTypes| then Err(IndexOutOfRange)
        else Ok(prefix + (if i > 0 then " , " else "") + "(" + codeString(paramTypes[i]) + ")" + arguments[i])
  }

  /** One cast argument. */
  function Cast(t: TypeName, argument: string, codeString: TypeName -> string): string {
    "(" + codeString(t) + ")" + argument
  }

  /** The cast arguments joined by `" , "`, read from the front. */
  function CastJoined(paramTypes: seq<TypeName>, arguments: seq<string>, codeString: TypeName -> string): string
    requires |arguments| <= |paramTypes|
  {
    if arguments == [] then ""
    else if |arguments| == 1 then Cast(paramTypes[0], arguments[0], codeString)
    else Cast(paramTypes[0], arguments[0], codeString) + " , " + CastJoined(paramTypes[1..], arguments[1..], codeString)
  }

  lemma {:induction false} CastJoinedSnoc(paramTypes: seq<TypeName>, arguments: seq<string>, codeString: TypeName -> string)
    requires 1 <= |arguments| <= |paramTypes|
    ensures var i := |arguments| - 1;
      CastJoined(paramTypes, arguments, codeString)
        == CastJoined(paramTypes, arguments[..i], codeString) + (if i > 0 then " , " else "") + Cast(paramTypes[i], arguments[i], codeString)
    decreases |arguments|
  {
    if |arguments| > 2 {
      var i := |arguments| - 1;
      CastJoinedSnoc(paramTypes[1..], arguments[1..], codeString);
      assert arguments[1..][..i - 1] == arguments[..i][1..];
    } else if |arguments| == 2 {
      assert arguments[..1][1..] == [];
    }
  }

  /** The argument list exists iff there are no more arguments than parameters, and then it
      is every argument cast to its parameter's type, in order, joined by `" , "`. */
  lemma {:induction false} ArgumentListJoins(paramTypes: seq<TypeName>, arguments: seq<string>, codeString: TypeName -> string)
    ensures ArgumentList(paramTypes, arguments, codeString).Ok? <==> |arguments| <= |paramTypes|
    ensures |arguments| <= |paramTypes| ==>
      ArgumentList(paramTypes, arguments, codeString).value == CastJoined(paramTypes, arguments, codeString)
    ensures |arguments| > |paramTypes| ==> ArgumentList(paramTypes, arguments, codeString).exception == IndexOutOfRange
    decreases |arguments|
  {
    if arguments != [] {
      var i := |arguments| - 1;
      ArgumentListJoins(paramTypes, arguments[..i], codeString);
      if |arguments| <= |paramTypes| {
        CastJoinedSnoc(paramTypes, arguments, codeString);
      }
    }
  }

  /** `T name = new T(args);` followed by the contract assertion, if Randoop contracts are in
      use; the declaring type is printed by `codeString`. An exception of the assertion
      generator escapes. */
  function StatementText(c: CtorSig, info: MemberInfo, arguments: seq<string>, newValueName: string,
                         useRandoopContracts: bool, contractStates: ContractState, codeString: TypeName -> string): Result<string>
  {
    match ArgumentList(c.paramTypes, arguments, codeString)
    case Err(e) => Err(e)
    case Ok(list) =>
      var retType := codeString(c.declaringType);
      var call := retType + " " + newValueName + " = " + "new " + retType + "(" + list + ");";
      if !useRandoopContracts then Ok(call)
      else match RandoopContractAssertions.AssertionText(info, newValueName, newValueName, contractStates)
        case Err(e) => Err(e)
        case Ok(a) => Ok(call + a)
  }

  /** `new C(T, U)` with arguments `a`, `b` printed into `v`. */
  lemma StatementExample(info: MemberInfo, states: ContractState, cs: TypeName -> string)
    ensures StatementText(CtorSig("C", ["T", "U"], ["x", "y"]), info, ["a", "b"], "v", false, states, cs)
      == Ok(cs("C") + " v = new " + cs("C") + "((" + cs("T") + ")a , (" + cs("U") + ")b);")
  {
    var ts := ["T", "U"];
    var args := ["a", "b"];
    ArgumentListJoins(ts, args, cs);
    assert ts[1..] == ["U"] && args[1..] == ["b"];
    var list := Cast("T", "a", cs) + " , " + Cast("U", "b", cs);
    assert CastJoined(ts, args, cs) == list;
    var c := CtorSig("C", ts, ["x", "y"]);
    assert ArgumentList(c.paramTypes, args, cs) == Ok(list);
    var r := cs("C");
    var t := "(" + cs("T") + ")a , (" + cs("U") + ")b";
    assert list == t;
    assert r + " " + "v" + " = " + "new " + r + "(" + t + ");" == r + " v = new " + r + "((" + cs("T") + ")a , (" + cs("U") + ")b);";
  }

  // ------------------------------------------------------------ the transformer object

  class ConstructorCall {
    const ctor: CtorSig
    /** What the contracts read of the constructor. */
    const info: MemberInfo
    const resultTypes: array<TypeName>
    const defaultActiveResultTypes: array<bool>
    var timesExecuted: nat

    function Desc(): Desc {
      ConstructorCallDesc(ctor)
    }

    function State(log: ExecutionLog, violations: Violations): CtorState
      reads this, log, violations
    {
      CtorState(timesExecuted, violations.state, log.lines)
    }

    /** The slot layout `[declaringType, paramTypes…]`: the new object's slot active, every
        parameter slot inactive. */
    constructor (ctor: CtorSig, info: MemberInfo)
      ensures this.ctor == ctor && this.info == info
      ensures resultTypes[..] == TupleTypes(ConstructorCallDesc(ctor))
      ensures defaultActiveResultTypes[..] == DefaultActive(ConstructorCallDesc(ctor))
      ensures fresh(resultTypes) && fresh(defaultActiveResultTypes)
      ensures timesExecuted == 0
    {
      var n := |ctor.paramTypes|;
      var types := new TypeName[n + 1];
      var active := new bool[n + 1];
      types[0] := ctor.declaringType;
      active[0] := true;
      var i := 0;
      while i < n
        invariant 0 <= i <= n
        invariant types[0] == ctor.declaringType && active[0]
        invariant forall j :: 1 <= j < i + 1 ==> types[j] == ctor.paramTypes[j - 1] && !active[j]
      {
        types[i + 1] := ctor.paramTypes[i];
        active[i + 1] := false;
        i := i + 1;
      }
      assert types[..] == [ctor.declaringType] + ctor.paramTypes;
      ghost var flags := [true] + Repeat(false, n);
      forall j | 0 <= j < n + 1
        ensures active[j] == flags[j]
      {
        if j >= 1 {
          assert flags[j] == Repeat(false, n)[j - 1];
        }
      }
      assert active[..] == flags;
      this.ctor := ctor;
      this.info := info;
      resultTypes := types;
      defaultActiveResultTypes := active;
      timesExecuted := 0;
    }

    /** `ParameterTypes`: a fresh array of the constructor's parameter types, in order. */
    method ParameterTypes() returns (r: array<TypeName>)
      ensures fresh(r) && r[..] == Transformers.ParameterTypes(ConstructorCallDesc(ctor))
    {
      var n := |ctor.paramTypes|;
      r := new TypeName[n];
      var i := 0;
      while i < n
        invariant 0 <= i <= n
        invariant forall j :: 0 <= j < i ==> r[j] == ctor.paramTypes[j]
      {
        r[i] := ctor.paramTypes[i];
        i := i + 1;
      }
      assert r[..] == ctor.paramTypes;
    }

    /** `Execute`, step by step as the source does it. */
    method Execute(results: seq<seq<Value>>, parameterMap: seq<Chooser>, log: ExecutionLog, violations: Violations,
                   o: CtorOracles, forbidNull: bool, useRandoopContracts: bool)
      returns (r: ExecReturn, contractStates: Option<ContractState>)
      requires WellFormedCtor(ctor, info) && InputsOk(ctor, results, parameterMap)
      modifies this, log, violations
      ensures (State(log, violations), r, contractStates)
        == ExecuteSpec(ctor, info, old(State(log, violations)), results, parameterMap, o, forbidNull, useRandoopContracts)
    {
      contractStates := None;
      var args := GatherArguments(results, parameterMap);
      var check := CheckPrecondition(args, o.eval, useRandoopContracts);
      if check.Err? {
        return Threw(check.exception), None;
      }
      if check.value {
        return Returned(false, None, true, None, false), None;
      }
      r, contractStates := Proceed(args, log, violations, o, forbidNull);
    }

    /** The part of `Execute` after a precondition that holds: assert that no argument is
        null when that is forbidden, then log, count and invoke. */
    method Proceed(args: seq<Value>, log: ExecutionLog, violations: Violations, o: CtorOracles, forbidNull: bool)
      returns (r: ExecReturn, contractStates: Option<ContractState>)
      requires ParamsChecked(ctor.paramTypes, args)
      modifies this, log, violations
      ensures (State(log, violations), r, contractStates) == ProceedSpec(ctor, info, old(State(log, violations)), args, o, forbidNull)
    {
      if forbidNull {
        var ok := AssertNoNull(args);
        if !ok {
          return Threw(AssertFailure), None;
        }
      }
      r, contractStates := CountAndInvoke(args, log, violations, o);
    }

    /** The precondition step of `Execute`, with the corrected contracts manager: an invalid
        contract leaves `preconditionViolated` false, any other exception of the check escapes. */
    method CheckPrecondition(args: seq<Value>, eval: Evaluator, useRandoopContracts: bool) returns (check: Result<bool>)
      requires WellFormedParams(info) && |args| == |info.paramNames|
      ensures check == PreconditionCheck(info, args, eval, useRandoopContracts)
    {
      var preconditionViolated := false;
      if useRandoopContracts {
        var violated := PreconditionViolated(info, args, eval);
        if violated.Err? && violated.exception != InvalidContractException {
          return Err(violated.exception);
        }
        if violated.Ok? {
          preconditionViolated := violated.value;
        }
      }
      return Ok(preconditionViolated);
    }

    /** The part of `Execute` after the precondition check: log the call, count it, invoke. */
    method CountAndInvoke(args: seq<Value>, log: ExecutionLog, violations: Violations, o: CtorOracles)
      returns (r: ExecReturn, contractStates: Option<ContractState>)
      requires ParamsChecked(ctor.paramTypes, args)
      modifies this, log, violations
      ensures (State(log, violations), r, contractStates)
        == InvokeSpec(ctor, info, old(State(log, violations)).(timesExecuted := old(timesExecuted) + 1,
                                                               log := old(log.lines) + [ExecLine(ctor)]), args, o)
    {
      ghost var st := State(log, violations);
      log.WriteLine(ExecLine(ctor));
      timesExecuted := timesExecuted + 1;
      assert State(log, violations) == st.(timesExecuted := st.timesExecuted + 1, log := st.log + [ExecLine(ctor)]);
      r, contractStates := Invoke(args, log, violations, o);
    }

    /** The invocation part of `Execute`. */
    method Invoke(args: seq<Value>, log: ExecutionLog, violations: Violations, o: CtorOracles)
      returns (r: ExecReturn, contractStates: Option<ContractState>)
      requires ParamsChecked(ctor.paramTypes, args)
      modifies log, violations
      ensures (State(log, violations), r, contractStates) == InvokeSpec(ctor, info, old(State(log, violations)), args, o)
    {
      var call := o.invoke(args);
      if call.Err? {
        if o.guideline(call.exception) {
          violations.RecordGuidelineViolation(Desc(), call.exception);
        }
        log.WriteLine("execution failure.");
        return Returned(false, None, false, Some(call.exception), false), None;
      }
      var newObject := call.value;
      var tuple := ConstructorTuple(ctor, newObject, args);
      var contractViolated := violations.CheckContracts(Desc(), tuple, o.report);
      var states := ConstructorContractStates(info, newObject, o.readNew(newObject), o.readStatic, o.eval);
      if states.Err? {
        return Threw(states.exception), None;
      }
      if contractViolated {
        log.WriteLine("contract violation.");
      }
      r := Returned(!contractViolated, Some(tuple), false, None, contractViolated);
      contractStates := Some(states.value);
      ghost var spec := CreatedSpec(ctor, info, old(State(log, violations)), tuple, o);
      assert spec.0.violations == violations.state;
      assert spec.0.log == log.lines;
      assert spec.1 == r && spec.2 == contractStates;
    }

    /** `ToCSharpCode`: the constructor call with each argument cast to its parameter type,
        then the contract assertion when Randoop contracts are in use; `codeString` is
        `SourceCodePrinting.ToCodeString`. */
    method ToCSharpCode(arguments: seq<string>, newValueName: string, useRandoopContracts: bool, contractStates: ContractState,
                        codeString: TypeName -> string)
      returns (code: Result<string>)
      ensures code == StatementText(ctor, info, arguments, newValueName, useRandoopContracts, contractStates, codeString)
    {
      var retType := codeString(ctor.declaringType);
      var text := retType + " " + newValueName + " = " + "new " + retType + "(";
      ghost var head := text;
      var i := 0;
      while i < |arguments|
        invariant 0 <= i <= |arguments|
        invariant ArgumentList(ctor.paramTypes, arguments[..i], codeString).Ok?
        invariant text == head + ArgumentList(ctor.paramTypes, arguments[..i], codeString).value
      {
        PrefixStep(arguments, i);
        if i >= |ctor.paramTypes| {
          ArgumentListJoins(ctor.paramTypes, arguments, codeString);
          return Err(IndexOutOfRange);
        }
        if i > 0 {
          text := text + " , ";
        }
        text := text + "(" + codeString(ctor.paramTypes[i]) + ")" + arguments[i];
        i := i + 1;
      }
      TakeAll(arguments);
      text := text + ");";
      if !useRandoopContracts {
        return Ok(text);
      }
      var assertion := RandoopContractAssertions.ComputeForConstructor(info, newValueName, contractStates);
      if assertion.Err? {
        return Err(assertion.exception);
      }
      code := Ok(text + assertion.value);
    }
  }

  /** The static `cachedTransformers` dictionary of `ConstructorCallTransformer.Get`. */
  class ConstructorCallCache {
    var cached: map<CtorSig, ConstructorCall>

    /** Every entry is the transformer of its own key. */
    predicate Valid()
      reads this
    {
      forall c :: c in cached ==> cached[c].ctor == c
    }

    constructor ()
      ensures cached == map[] && Valid()
    {
      cached := map[];
    }

    /** `Get`: the cached transformer for a constructor, created on first use. */
    method Get(ctor: CtorSig, info: MemberInfo) returns (t: ConstructorCall)
      requires Valid()
      modifies this
      ensures Valid() && t.ctor == ctor
      ensures ctor in old(cached) ==> t == old(cached)[ctor] && cached == old(cached)
      ensures ctor !in old(cached) ==> fresh(t) && t.info == info && cached == old(cached)[ctor := t]
    {
      if ctor in cached {
        return cached[ctor];
      }
      t := new ConstructorCall(ctor, info);
      cached := cached[ctor := t];
    }
  }
}
