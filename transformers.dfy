/** The abstract `Transformer` that every plan node carries: what identifies each kind of
    transformer, the layout of its input parameters and result-tuple slots, the parameter
    choosers that wire parent results to inputs, and the shared bookkeeping of guideline and
    basic-contract violations that `MethodCall` and `ConstructorCallTransformer` update. */
module Transformers {
  import opened Common

  /** A reflected method: what `MethodInfo` tells the generator. */
  datatype MethodSig = MethodSig(
    declaringType: TypeName,
    name: string,
    returnType: TypeName,
    paramTypes: seq<TypeName>,
    paramNames: seq<string>,
    isStatic: bool)

  /** A reflected constructor. */
  datatype CtorSig = CtorSig(declaringType: TypeName, paramTypes: seq<TypeName>, paramNames: seq<string>)

  /** The identity of a transformer; two transformers are `Equals` iff their descriptors are
      equal (a method, a constructor, an array base type and length, a dummy type). */
  datatype Desc =
    | MethodCallDesc(sig: MethodSig)
    | ConstructorCallDesc(ctor: CtorSig)
    | ArrayBuilderDesc(baseType: TypeName, length: nat)
    | DummyDesc(ftype: TypeName)
    | PrimitiveValueDesc(vtype: TypeName, value: Value)

  /** `Plan.ParameterChooser`: input i of a plan's transformer is slot `resultIndex` of the
      result tuple of parent `planIndex`. */
  datatype Chooser = Chooser(planIndex: int, resultIndex: int)

  /** `Type.MakeArrayType(1)` of a base type. */
  function ArrayTypeOf(baseType: TypeName): TypeName {
    baseType + "[]"
  }

  function Repeat<T>(x: T, n: nat): (r: seq<T>)
    ensures |r| == n && forall i :: 0 <= i < n ==> r[i] == x
  {
    if n == 0 then [] else Repeat(x, n - 1) + [x]
  }

  /** The types of the result tuple of each kind of transformer. */
  function TupleTypes(d: Desc): seq<TypeName> {
    match d
    case MethodCallDesc(m) => [m.declaringType, m.returnType] + m.paramTypes
    case ConstructorCallDesc(c) => [c.declaringType] + c.paramTypes
    case ArrayBuilderDesc(b, _) => [ArrayTypeOf(b)]
    case DummyDesc(t) => [t]
    case PrimitiveValueDesc(t, _) => [t]
  }

  /** The types of the inputs of each kind of transformer. */
  function ParameterTypes(d: Desc): seq<TypeName> {
    match d
    case MethodCallDesc(m) => [m.declaringType] + m.paramTypes
    case ConstructorCallDesc(c) => c.paramTypes
    case ArrayBuilderDesc(b, n) => Repeat(b, n)
    case DummyDesc(_) => []
    case PrimitiveValueDesc(_, _) => []
  }

  /** Which result slots are active (usable as inputs of later plans) by default. */
  function DefaultActive(d: Desc): seq<bool> {
    match d
    case MethodCallDesc(m) =>
      if m.name == "GetHashCode" then Repeat(false, |m.paramTypes| + 2)
      else [!m.isStatic, m.returnType != VoidType] + Repeat(false, |m.paramTypes|)
    case ConstructorCallDesc(c) => [true] + Repeat(false, |c.paramTypes|)
    case _ => [true]
  }

  /** Every transformer has one default-activity flag per result slot. */
  lemma DefaultActiveMatchesTuple(d: Desc)
    ensures |DefaultActive(d)| == |TupleTypes(d)|
  {
  }

  function MemberName(d: Desc): string {
    match d
    case MethodCallDesc(m) => m.name
    case ConstructorCallDesc(c) => c.declaringType
    case _ => "n/a"
  }

  // ------------------------------------------------------------ input selection

  predicate ChooserInRange(results: seq<seq<Value>>, c: Chooser) {
    0 <= c.planIndex < |results| && 0 <= c.resultIndex < |results[c.planIndex]|
  }

  /** `results[c.planIndex].tuple[c.resultIndex]`. */
  function Chosen(results: seq<seq<Value>>, c: Chooser): Value
    requires ChooserInRange(results, c)
  {
    results[c.planIndex][c.resultIndex]
  }

  /** The values a parameter map selects, one per input: a constructor's arguments or an
      array's elements. */
  function ChosenValues(results: seq<seq<Value>>, parameterMap: seq<Chooser>): (r: seq<Value>)
    requires forall i :: 0 <= i < |parameterMap| ==> ChooserInRange(results, parameterMap[i])
    ensures |r| == |parameterMap| && forall i :: 0 <= i < |r| ==> r[i] == Chosen(results, parameterMap[i])
  {
    seq(|parameterMap|, i requires 0 <= i < |parameterMap| => Chosen(results, parameterMap[i]))
  }

  // ------------------------------------------------------------ execution outcome

  /** What a plan's execution leaves in its out-parameters: a result tuple on success, or the
      three failure indications with a null result; or an exception that escapes the
      transformer (and with it every enclosing `Execute`). */
  datatype Outcome =
    | Normal(tuple: seq<Value>)
    | Failed(preconditionViolated: bool, exception: Option<TypeName>, contractViolated: bool)
    | Escaped(escaped: TypeName)

  /** What a transformer's `Execute` hands back: its boolean result and out-parameters, or an
      exception it lets escape. */
  datatype ExecReturn =
    | Returned(retval: bool, ret: Option<seq<Value>>, preconditionViolated: bool,
               exceptionThrown: Option<TypeName>, contractViolated: bool)
    | Threw(thrown: TypeName)

  /** The convention every transformer's `Execute` keeps for its out-parameters: it returns
      true exactly when it hands back a tuple with no contract violated; a violated
      precondition comes with nothing else; an exception thrown by the invocation comes
      with no tuple. */
  predicate WellShaped(e: ExecReturn) {
    e.Returned? ==>
      (e.retval <==> e.ret.Some? && !e.contractViolated)
      && (e.preconditionViolated ==> e.ret.None? && e.exceptionThrown.None? && !e.contractViolated)
      && (e.exceptionThrown.Some? ==> e.ret.None? && !e.preconditionViolated)
  }

  /** What escapes when `Util.Assert` finds its condition false. `Util.cs` is not part of
      this model, so the exception is named here only to tell this failure apart. */
  const AssertFailure: TypeName := "Util.Assert"

  /** `forbidNull` and a null argument: the `Util.Assert(o != null)` of the transformers. */
  predicate NullForbidden(forbidNull: bool, args: seq<Value>) {
    forbidNull && Null in args
  }

  /** The `foreach (object o in objects) Util.Assert(o != null)` loop of the transformers:
      passes exactly when no object is null. */
  method AssertNoNull(objects: seq<Value>) returns (ok: bool)
    ensures ok <==> Null !in objects
  {
    var i := 0;
    while i < |objects|
      invariant 0 <= i <= |objects|
      invariant Null !in objects[..i]
    {
      if objects[i].Null? {
        return false;
      }
      i := i + 1;
    }
    assert objects[..i] == objects;
    return true;
  }

  /** How `Plan.ExecuteHelper` reads a transformer's return: the tuple when it returned true,
      otherwise the failure indications. */
  function ToOutcome(e: ExecReturn): (r: Outcome)
    ensures r.Normal? <==> e.Returned? && e.retval && e.ret.Some?
    ensures r.Normal? ==> r.tuple == e.ret.value
    ensures r.Escaped? <==> e.Threw?
    ensures r.Failed? ==> r == Failed(e.preconditionViolated, e.exceptionThrown, e.contractViolated)
  {
    match e
    case Threw(x) => Escaped(x)
    case Returned(ok, ret, pv, ex, cv) => if ok && ret.Some? then Normal(ret.value) else Failed(pv, ex, cv)
  }

  // ------------------------------------------------------------ the execution log

  /** The `executionLog` writer the transformers report to, line by line. */
  class ExecutionLog {
    var lines: seq<string>

    constructor ()
      ensures lines == []
    {
      lines := [];
    }

    method WriteLine(s: string)
      modifies this
      ensures lines == old(lines) + [s]
    {
      lines := lines + [s];
    }
  }

  // ------------------------------------------------------------ violation bookkeeping

  /** What `Util.ViolatesContracts` reports about one object. */
  datatype ContractReport = ContractReport(violates: bool, toStr: bool, hashCode: bool, equalsV: bool)

  /** The violation dictionaries of the transformers together with the two static counters
      of `PlanManager` they update. */
  datatype ViolationState = ViolationState(
    exnViolating: set<(Desc, TypeName)>,
    toStrViolating: set<Desc>,
    hashCodeViolating: set<Desc>,
    equalsViolating: set<Desc>,
    numDistinctContractViolPlans: int,
    numContractViolatingPlans: int)

  /** A guideline-violating exception of type `exn` thrown by `member`. */
  function GuidelineStep(st: ViolationState, member: Desc, exn: TypeName): (r: ViolationState)
    ensures r.numDistinctContractViolPlans == st.numDistinctContractViolPlans + 1
    ensures (member, exn) in r.exnViolating
    ensures r.numContractViolatingPlans == st.numContractViolatingPlans + (if (member, exn) in st.exnViolating then 0 else 1)
  {
    var counted := (member, exn) in st.exnViolating;
    st.(numDistinctContractViolPlans := st.numDistinctContractViolPlans + 1,
        exnViolating := st.exnViolating + {(member, exn)},
        numContractViolatingPlans := st.numContractViolatingPlans + (if counted then 0 else 1))
  }

  /** The same (member, exception type) pair seen twice is counted once as contract-violating
      but twice as distinct. */
  lemma GuidelineCountedOnce(st: ViolationState, member: Desc, exn: TypeName)
    ensures var r := GuidelineStep(GuidelineStep(st, member, exn), member, exn);
      r.numContractViolatingPlans <= st.numContractViolatingPlans + 1
      && r.numDistinctContractViolPlans == st.numDistinctContractViolPlans + 2
  {
  }

  /** How many of the three basic-contract kinds `member` is already recorded for. */
  function KindsRecorded(st: ViolationState, member: Desc): nat {
    (if member in st.toStrViolating then 1 else 0)
    + (if member in st.hashCodeViolating then 1 else 0)
    + (if member in st.equalsViolating then 1 else 0)
  }

  /** One element of a result tuple passing through the basic-contract check. */
  function ContractStep(st: ViolationState, member: Desc, v: Value, report: Value -> ContractReport): (ViolationState, bool) {
    if v.Null? || !report(v).violates then (st, false)
    else
      var k := report(v);
      var isNew := (k.toStr && member !in st.toStrViolating)
        || (k.hashCode && member !in st.hashCodeViolating)
        || (k.equalsV && member !in st.equalsViolating);
      (st.(toStrViolating := if k.toStr then st.toStrViolating + {member} else st.toStrViolating,
           hashCodeViolating := if k.hashCode then st.hashCodeViolating + {member} else st.hashCodeViolating,
           equalsViolating := if k.equalsV then st.equalsViolating + {member} else st.equalsViolating,
           numDistinctContractViolPlans := st.numDistinctContractViolPlans + 1,
           numContractViolatingPlans := st.numContractViolatingPlans + (if isNew then 1 else 0)),
       true)
  }

  /** The basic-contract check over a whole result tuple, element by element. */
  function CheckFold(st: ViolationState, member: Desc, tuple: seq<Value>, report: Value -> ContractReport): (ViolationState, bool) {
    if tuple == [] then (st, false)
    else
      var (s1, b1) := CheckFold(st, member, tuple[..|tuple| - 1], report);
      var (s2, b2) := ContractStep(s1, member, tuple[|tuple| - 1], report);
      (s2, b1 || b2)
  }

  /** Non-null elements that `Util.ViolatesContracts` flags. */
  function CountViolating(tuple: seq<Value>, report: Value -> ContractReport): nat {
    if tuple == [] then 0
    else
      var last := tuple[|tuple| - 1];
      CountViolating(tuple[..|tuple| - 1], report) + (if !last.Null? && report(last).violates then 1 else 0)
  }

  /** The check reports a violation iff some non-null element violates; every violating
      element adds one to `numDistinctContractViolPlans`; `numContractViolatingPlans` grows
      only as often as the member is recorded for a new kind, so at most three times per
      member over the whole run. */
  lemma {:induction false} CheckFoldCounts(st: ViolationState, member: Desc, tuple: seq<Value>, report: Value -> ContractReport)
    ensures var (r, violated) := CheckFold(st, member, tuple, report);
      && (violated <==> CountViolating(tuple, report) > 0)
      && r.numDistinctContractViolPlans == st.numDistinctContractViolPlans + CountViolating(tuple, report)
      && r.numContractViolatingPlans - st.numContractViolatingPlans <= KindsRecorded(r, member) - KindsRecorded(st, member)
      && r.exnViolating == st.exnViolating
    decreases |tuple|
  {
    if tuple != [] {
      CheckFoldCounts(st, member, tuple[..|tuple| - 1], report);
    }
  }

  /** The transformers' shared violation dictionaries and the static counters of
      `PlanManager`, updated in place. */
  class Violations {
    var state: ViolationState

    constructor ()
      ensures state == ViolationState({}, {}, {}, {}, 0, 0)
    {
      state := ViolationState({}, {}, {}, {}, 0, 0);
    }

    method RecordGuidelineViolation(member: Desc, exn: TypeName)
      modifies this
      ensures state == GuidelineStep(old(state), member, exn)
    {
      state := state.(numDistinctContractViolPlans := state.numDistinctContractViolPlans + 1);
      if (member, exn) !in state.exnViolating {
        state := state.(numContractViolatingPlans := state.numContractViolatingPlans + 1,
                        exnViolating := state.exnViolating + {(member, exn)});
      }
    }

    /** `CheckContracts`: every non-null element of the result tuple is checked in turn. */
    method CheckContracts(member: Desc, tuple: seq<Value>, report: Value -> ContractReport) returns (violated: bool)
      modifies this
      ensures (state, violated) == CheckFold(old(state), member, tuple, report)
    {
      violated := false;
      var i := 0;
      while i < |tuple|
        invariant 0 <= i <= |tuple|
        invariant (state, violated) == CheckFold(old(state), member, tuple[..i], report)
      {
        PrefixStep(tuple, i);
        var v := tuple[i];
        if !v.Null? && report(v).violates {
          var k := report(v);
          var isNew := false;
          if k.toStr {
            if member !in state.toStrViolating { isNew := true; }
            state := state.(toStrViolating := state.toStrViolating + {member});
          }
          if k.hashCode {
            if member !in state.hashCodeViolating { isNew := true; }
            state := state.(hashCodeViolating := state.hashCodeViolating + {member});
          }
          if k.equalsV {
            if member !in state.equalsViolating { isNew := true; }
            state := state.(equalsViolating := state.equalsViolating + {member});
          }
          state := state.(numDistinctContractViolPlans := state.numDistinctContractViolPlans + 1);
          if isNew {
            state := state.(numContractViolatingPlans := state.numContractViolatingPlans + 1);
          }
          violated := true;
        }
        i := i + 1;
      }
      TakeAll(tuple);
    }
  }
}
