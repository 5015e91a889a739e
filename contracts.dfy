/** `RandoopContractsManager` and the contract attributes it reads: which of a member's
    postcondition, class invariant and static invariant are missing, invalid or usable, and
    whether a precondition rules out a call. Reflection is a `TypeInfo` value plus a `Reader`
    for field and getter values; `ExpressionEvaluator` is an `Evaluator` function. */
module Contracts {
  import opened Common
  import opened CsStrings
  import ContractText

  /** `ContractStateEnum`. */
  datatype ContractStateEnum = Missing | Invalid | OkState | NotApplicable

  /** `ContractState`: one state per kind of contract. */
  datatype ContractState = ContractState(
    postconditionState: ContractStateEnum,
    invariantState: ContractStateEnum,
    staticInvariantState: ContractStateEnum)

  /** The `[Postcondition]` attribute: an expression over `output`. */
  datatype Postcondition = Postcondition(expression: string)

  /** The `[Precondition]` attribute: an expression and the parameters it mentions. */
  datatype Precondition = Precondition(expression: string, parameters: seq<string>)

  /** The `[Invariant]` and `[StaticInvariant]` attributes: an expression and the fields it
      mentions. */
  datatype ClassContract = ClassContract(expression: string, fields: seq<string>)

  /** What reflection tells about a declaring type: its full name, its public fields and its
      public methods (each mapped to whether it is static) and its two class attributes.
      `GetField` and `GetMethod` see only public members. */
  datatype TypeInfo = TypeInfo(
    name: TypeName,
    fields: map<string, bool>,
    methods: map<string, bool>,
    invariantAttr: Option<ClassContract>,
    staticInvariantAttr: Option<ClassContract>)

  /** A method or constructor as the contracts see it. */
  datatype MemberInfo = MemberInfo(
    declaringType: TypeInfo,
    isStatic: bool,
    returnsVoid: bool,
    paramNames: seq<string>,
    postcondition: Option<Postcondition>,
    precondition: Option<Precondition>)

  /** C# forbids empty and repeated parameter names. */
  predicate WellFormedParams(m: MemberInfo) {
    && (forall i :: 0 <= i < |m.paramNames| ==> m.paramNames[i] != "")
    && (forall i, j :: 0 <= i < j < |m.paramNames| ==> m.paramNames[i] != m.paramNames[j])
  }

  /** `ExpressionEvaluator.Evaluate<bool>` with a table of variables: a boolean, or the
      exception the evaluator throws. */
  type Evaluator = (string, map<string, Value>) -> Result<bool>

  /** The value of a public field, or of a call of a parameterless getter, named by the field
      or getter name; the receiver (or its absence, for static members) is part of the
      reader. */
  type Reader = string -> Result<Value>

  const InvalidContractException := "Randoop.RandoopContracts.InvalidRandoopContractException"

  // ------------------------------------------------------------ getter names

  /** `"Get" + char.ToUpper(field[0]) + field.Substring(1)`; an empty name has no first
      character to read. */
  function ComputeGetterName(field: string): (r: Result<string>)
    ensures r.Err? <==> field == ""
    ensures r.Ok? ==> (|r.value| == |field| + 3 && r.value[..3] == "Get"
                       && r.value[3] == UpperChar(field[0]) && r.value[4..] == field[1..])
  {
    if field == "" then Err("System.IndexOutOfRangeException")
    else Ok("Get" + [UpperChar(field[0])] + field[1..])
  }

  /** Different field names that start with a lower-case letter (or with anything but a
      letter) never share a getter. */
  lemma GetterNamesDistinct(f: string, g: string)
    requires f != "" && g != "" && f != g
    requires UpperChar(f[0]) == UpperChar(g[0]) ==> f[0] == g[0]
    ensures ComputeGetterName(f).value != ComputeGetterName(g).value
  {
    var a, b := ComputeGetterName(f).value, ComputeGetterName(g).value;
    assert f == [f[0]] + f[1..] && g == [g[0]] + g[1..];
    if f[0] != g[0] {
      assert a[3] != b[3];
    } else {
      assert a[4..] != b[4..];
    }
  }

  // ------------------------------------------------------------ evaluation states

  /** Every validator reports Missing without the attribute, Invalid when the evaluator
      throws, and Ok otherwise, whatever boolean the expression has. */
  function Evaluated(expression: string, vars: map<string, Value>, eval: Evaluator): (r: ContractStateEnum)
    ensures r == OkState <==> eval(expression, vars).Ok?
    ensures r == Invalid <==> eval(expression, vars).Err?
  {
    if eval(expression, vars).Ok? then OkState else Invalid
  }

  /** `ValidatePostcondition`: the expression sees the returned value as `output`. */
  function ValidatePostcondition(post: Option<Postcondition>, returnedValue: Value, eval: Evaluator): (r: ContractStateEnum)
    ensures r == Missing <==> post.None?
    ensures r != NotApplicable
    ensures post.Some? ==> r == Evaluated(post.value.expression, map["output" := returnedValue], eval)
  {
    match post
    case None => Missing
    case Some(p) => Evaluated(p.expression, map["output" := returnedValue], eval)
  }

  /** How one field named in an invariant resolves. */
  datatype Binding = Bound(v: Value) | Unresolvable | Raised(exception: string)

  /** A public field of that name (for a static invariant: a static one), else a public getter
      `GetX` (for a static invariant: a static one), else nothing. */
  function ResolveField(t: TypeInfo, name: string, staticOnly: bool, read: Reader): (r: Binding)
    ensures name in t.fields && !(staticOnly && !t.fields[name]) ==>
      r == (if read(name).Ok? then Bound(read(name).value) else Raised(read(name).exception))
    ensures name in t.fields && staticOnly && !t.fields[name] ==> r == Unresolvable
    ensures name !in t.fields && name == "" ==> r.Raised?
    ensures r.Unresolvable? && name !in t.fields ==>
      var g := ComputeGetterName(name).value; g !in t.methods || (staticOnly && !t.methods[g])
  {
    if name in t.fields then
      if staticOnly && !t.fields[name] then Unresolvable
      else match read(name)
        case Ok(v) => Bound(v)
        case Err(e) => Raised(e)
    else match ComputeGetterName(name)
      case Err(e) => Raised(e)
      case Ok(g) =>
        if g !in t.methods || (staticOnly && !t.methods[g]) then Unresolvable
        else match read(g)
          case Ok(v) => Bound(v)
          case Err(e) => Raised(e)
  }

  /** The `variables` dictionary after the fields of the invariant were visited in order:
      complete, abandoned at the first unresolvable field (the state is Invalid), or
      abandoned by an exception (a read that throws, or `Add` of a repeated name). */
  datatype Collected = Vars(vars: map<string, Value>) | Unresolved | Thrown(exception: string)

  function CollectVariables(t: TypeInfo, fields: seq<string>, staticOnly: bool, read: Reader): Collected {
    if fields == [] then Vars(map[])
    else match CollectVariables(t, fields[..|fields| - 1], staticOnly, read)
      case Vars(m) =>
        var f := fields[|fields| - 1];
        (match ResolveField(t, f, staticOnly, read)
         case Unresolvable => Unresolved
         case Raised(e) => Thrown(e)
         case Bound(v) => if f in m then Thrown("System.ArgumentException") else Vars(m[f := v]))
      case other => other
  }

  /** A complete dictionary binds exactly the named fields, each resolved and bound to the
      value read for it. */
  lemma {:induction false} CollectVariablesBinds(t: TypeInfo, fields: seq<string>, staticOnly: bool, read: Reader)
    ensures CollectVariables(t, fields, staticOnly, read).Vars? ==>
      var m := CollectVariables(t, fields, staticOnly, read).vars;
      && m.Keys == (set f | f in fields)
      && forall i :: 0 <= i < |fields| ==>
           && ResolveField(t, fields[i], staticOnly, read).Bound?
           && fields[i] in m && m[fields[i]] == ResolveField(t, fields[i], staticOnly, read).v
    decreases |fields|
  {
    if fields != [] {
      var init := fields[..|fields| - 1];
      CollectVariablesBinds(t, init, staticOnly, read);
      SnocSplit(fields);
      assert forall i :: 0 <= i < |init| ==> init[i] == fields[i];
    }
  }

  predicate NoRepeats(fields: seq<string>) {
    forall i, j :: 0 <= i < j < |fields| ==> fields[i] != fields[j]
  }

  ghost predicate AllResolve(t: TypeInfo, fields: seq<string>, staticOnly: bool, read: Reader) {
    forall i :: 0 <= i < |fields| ==> ResolveField(t, fields[i], staticOnly, read).Bound?
  }

  /** A complete dictionary comes from fields that are named once each. */
  lemma {:induction false} CollectVariablesRepeatFree(t: TypeInfo, fields: seq<string>, staticOnly: bool, read: Reader)
    ensures CollectVariables(t, fields, staticOnly, read).Vars? ==> NoRepeats(fields)
    decreases |fields|
  {
    if fields != [] && CollectVariables(t, fields, staticOnly, read).Vars? {
      var init := fields[..|fields| - 1];
      CollectVariablesRepeatFree(t, init, staticOnly, read);
      CollectVariablesBinds(t, init, staticOnly, read);
      SnocSplit(fields);
      var c := CollectVariables(t, init, staticOnly, read);
      assert c.Vars? && fields[|init|] !in c.vars;
      forall i, j | 0 <= i < j < |fields| ensures fields[i] != fields[j] {
        assert fields[i] == init[i];
        if j < |init| {
          assert fields[j] == init[j];
        } else {
          assert init[i] in c.vars;
        }
      }
    }
  }

  /** The dictionary is complete iff every field resolves and no field is named twice. */
  lemma {:induction false} CollectVariablesComplete(t: TypeInfo, fields: seq<string>, staticOnly: bool, read: Reader)
    ensures CollectVariables(t, fields, staticOnly, read).Vars? <==>
      AllResolve(t, fields, staticOnly, read) && NoRepeats(fields)
    decreases |fields|
  {
    if CollectVariables(t, fields, staticOnly, read).Vars? {
      CollectVariablesBinds(t, fields, staticOnly, read);
      CollectVariablesRepeatFree(t, fields, staticOnly, read);
    } else if fields != [] {
      var init := fields[..|fields| - 1];
      CollectVariablesComplete(t, init, staticOnly, read);
      CollectVariablesBinds(t, init, staticOnly, read);
      SnocSplit(fields);
      assert forall i :: 0 <= i < |init| ==> init[i] == fields[i];
      if AllResolve(t, fields, staticOnly, read) && NoRepeats(fields) {
        assert false;
      }
    }
  }

  /** `ValidateInvariant` (`staticOnly` false) and `ValidateStaticInvariant` (`staticOnly`
      true). */
  function ValidateClassContract(t: TypeInfo, c: Option<ClassContract>, staticOnly: bool, read: Reader, eval: Evaluator): (r: Result<ContractStateEnum>)
    ensures r == Ok(Missing) <==> c.None?
    ensures r.Ok? ==> r.value != NotApplicable
  {
    match c
    case None => Ok(Missing)
    case Some(k) =>
      match CollectVariables(t, k.fields, staticOnly, read)
      case Unresolved => Ok(Invalid)
      case Thrown(e) => Err(e)
      case Vars(m) => Ok(Evaluated(k.expression, m, eval))
  }

  /** The loop of `ValidateInvariant`/`ValidateStaticInvariant` that builds `variables`. */
  method CollectVariablesLoop(t: TypeInfo, fields: seq<string>, staticOnly: bool, read: Reader) returns (r: Collected)
    ensures r == CollectVariables(t, fields, staticOnly, read)
  {
    var variables: map<string, Value> := map[];
    var i := 0;
    while i < |fields|
      invariant 0 <= i <= |fields|
      invariant CollectVariables(t, fields[..i], staticOnly, read) == Vars(variables)
    {
      PrefixStep(fields, i);
      var fieldName := fields[i];
      var b := ResolveField(t, fieldName, staticOnly, read);
      match b {
        case Unresolvable =>
          ExtendAbandoned(t, fields, i + 1, staticOnly, read);
          return Unresolved;
        case Raised(e) =>
          ExtendAbandoned(t, fields, i + 1, staticOnly, read);
          return Thrown(e);
        case Bound(v) =>
          if fieldName in variables {
            ExtendAbandoned(t, fields, i + 1, staticOnly, read);
            return Thrown("System.ArgumentException");
          }
          variables := variables[fieldName := v];
      }
      i := i + 1;
    }
    TakeAll(fields);
    r := Vars(variables);
  }

  /** Once abandoned, the dictionary stays abandoned for the rest of the fields. */
  lemma {:induction false} ExtendAbandoned(t: TypeInfo, fields: seq<string>, k: nat, staticOnly: bool, read: Reader)
    requires k <= |fields|
    requires !CollectVariables(t, fields[..k], staticOnly, read).Vars?
    ensures CollectVariables(t, fields, staticOnly, read) == CollectVariables(t, fields[..k], staticOnly, read)
    decreases |fields| - k
  {
    if k < |fields| {
      PrefixStep(fields, k);
      ExtendAbandoned(t, fields, k + 1, staticOnly, read);
    } else {
      TakeAll(fields);
    }
  }

  method ValidateInvariant(t: TypeInfo, read: Reader, eval: Evaluator) returns (r: Result<ContractStateEnum>)
    ensures r == ValidateClassContract(t, t.invariantAttr, false, read, eval)
  {
    if t.invariantAttr.None? {
      return Ok(Missing);
    }
    var c := CollectVariablesLoop(t, t.invariantAttr.value.fields, false, read);
    match c {
      case Unresolved => r := Ok(Invalid);
      case Thrown(e) => r := Err(e);
      case Vars(m) => r := Ok(Evaluated(t.invariantAttr.value.expression, m, eval));
    }
  }

  method ValidateStaticInvariant(t: TypeInfo, read: Reader, eval: Evaluator) returns (r: Result<ContractStateEnum>)
    ensures r == ValidateClassContract(t, t.staticInvariantAttr, true, read, eval)
  {
    if t.staticInvariantAttr.None? {
      return Ok(Missing);
    }
    var c := CollectVariablesLoop(t, t.staticInvariantAttr.value.fields, true, read);
    match c {
      case Unresolved => r := Ok(Invalid);
      case Thrown(e) => r := Err(e);
      case Vars(m) => r := Ok(Evaluated(t.staticInvariantAttr.value.expression, m, eval));
    }
  }

  // ------------------------------------------------------------ ValidateAssertionContracts

  /** The method overload: a four-way case analysis on static/void, validating the
      postcondition, then the invariant on the receiver, then the static invariant. An
      exception from a validator escapes. */
  function MethodContractStates(m: MemberInfo, returnedValue: Value, readReceiver: Reader, readStatic: Reader, eval: Evaluator): Result<ContractState> {
    var t := m.declaringType;
    if !m.isStatic && !m.returnsVoid then
      var post := ValidatePostcondition(m.postcondition, returnedValue, eval);
      match ValidateClassContract(t, t.invariantAttr, false, readReceiver, eval)
      case Err(e) => Err(e)
      case Ok(inv) =>
        match ValidateClassContract(t, t.staticInvariantAttr, true, readStatic, eval)
        case Err(e) => Err(e)
        case Ok(st) => Ok(ContractState(post, inv, st))
    else if !m.isStatic && m.returnsVoid then
      match ValidateClassContract(t, t.invariantAttr, false, readReceiver, eval)
      case Err(e) => Err(e)
      case Ok(inv) =>
        match ValidateClassContract(t, t.staticInvariantAttr, true, readStatic, eval)
        case Err(e) => Err(e)
        case Ok(st) => Ok(ContractState(NotApplicable, inv, st))
    else if m.isStatic && !m.returnsVoid then
      var post := ValidatePostcondition(m.postcondition, returnedValue, eval);
      match ValidateClassContract(t, t.staticInvariantAttr, true, readStatic, eval)
      case Err(e) => Err(e)
      case Ok(st) => Ok(ContractState(post, NotApplicable, st))
    else
      match ValidateClassContract(t, t.staticInvariantAttr, true, readStatic, eval)
      case Err(e) => Err(e)
      case Ok(st) => Ok(ContractState(NotApplicable, NotApplicable, st))
  }

  /** The case analysis amounts to: the postcondition is not applicable exactly to void
      methods, the invariant exactly to static methods, and the static invariant is always
      validated; every validated state is the validator's own answer. */
  lemma MethodStatesByKind(m: MemberInfo, returnedValue: Value, readReceiver: Reader, readStatic: Reader, eval: Evaluator)
    ensures var r := MethodContractStates(m, returnedValue, readReceiver, readStatic, eval);
      var t := m.declaringType;
      r.Ok? ==>
        && (r.value.postconditionState == NotApplicable <==> m.returnsVoid)
        && (r.value.invariantState == NotApplicable <==> m.isStatic)
        && r.value.staticInvariantState != NotApplicable
        && (!m.returnsVoid ==> r.value.postconditionState == ValidatePostcondition(m.postcondition, returnedValue, eval))
        && (!m.isStatic ==> Ok(r.value.invariantState) == ValidateClassContract(t, t.invariantAttr, false, readReceiver, eval))
        && Ok(r.value.staticInvariantState) == ValidateClassContract(t, t.staticInvariantAttr, true, readStatic, eval)
  {
  }

  /** The constructor overload: all three contracts, the invariant read on the new object. */
  function ConstructorContractStates(c: MemberInfo, newObject: Value, readNew: Reader, readStatic: Reader, eval: Evaluator): (r: Result<ContractState>)
    ensures r.Ok? ==> (r.value.postconditionState != NotApplicable
                       && r.value.invariantState != NotApplicable && r.value.staticInvariantState != NotApplicable)
  {
    var t := c.declaringType;
    var post := ValidatePostcondition(c.postcondition, newObject, eval);
    match ValidateClassContract(t, t.invariantAttr, false, readNew, eval)
    case Err(e) => Err(e)
    case Ok(inv) =>
      match ValidateClassContract(t, t.staticInvariantAttr, true, readStatic, eval)
      case Err(e) => Err(e)
      case Ok(st) => Ok(ContractState(post, inv, st))
  }

  // ------------------------------------------------------------ the unit tests' classes

  /** `[Invariant("privateField + PublicField > 0", "privateField", "PublicField")]`: the
      private field is not visible and has no getter, so the invariant is Invalid; the
      `[StaticInvariant("privateStaticField == 0", ...)]` likewise. */
  lemma PrivateFieldsAreInvalid(read: Reader, eval: Evaluator)
    ensures var t := TypeInfo("AccessingPrivates", map["PublicField" := false], map["Method" := false],
                              Some(ClassContract("privateField + PublicField > 0", ["privateField", "PublicField"])),
                              Some(ClassContract("privateStaticField == 0", ["privateStaticField"])));
      ValidateClassContract(t, t.invariantAttr, false, read, eval) == Ok(Invalid)
      && ValidateClassContract(t, t.staticInvariantAttr, true, read, eval) == Ok(Invalid)
  {
    var t := TypeInfo("AccessingPrivates", map["PublicField" := false], map["Method" := false],
                      Some(ClassContract("privateField + PublicField > 0", ["privateField", "PublicField"])),
                      Some(ClassContract("privateStaticField == 0", ["privateStaticField"])));
    assert ComputeGetterName("privateField").value == "GetPrivateField";
    assert ComputeGetterName("privateStaticField").value == "GetPrivateStaticField";
    assert ResolveField(t, "privateField", false, read) == Unresolvable;
    assert ResolveField(t, "privateStaticField", true, read) == Unresolvable;
    var fs := ["privateField", "PublicField"];
    assert fs[..1] == ["privateField"] && fs[..1][..0] == [];
    assert CollectVariables(t, fs[..1], false, read) == Unresolved;
    assert CollectVariables(t, fs, false, read) == Unresolved;
    var ss := ["privateStaticField"];
    assert ss[..0] == [];
    assert CollectVariables(t, ss, true, read) == Unresolved;
  }

  /** `[StaticInvariant("PublicField + PublicStaticField > 0", ...)]`: an instance field in a
      static invariant is Invalid. */
  lemma InstanceFieldInStaticInvariantIsInvalid(read: Reader, eval: Evaluator)
    ensures var t := TypeInfo("AccessingInstanceFields", map["PublicField" := false, "PublicStaticField" := true],
                              map["Method" := false], None,
                              Some(ClassContract("PublicField + PublicStaticField > 0", ["PublicField", "PublicStaticField"])));
      ValidateClassContract(t, t.staticInvariantAttr, true, read, eval) == Ok(Invalid)
  {
    var t := TypeInfo("AccessingInstanceFields", map["PublicField" := false, "PublicStaticField" := true],
                      map["Method" := false], None,
                      Some(ClassContract("PublicField + PublicStaticField > 0", ["PublicField", "PublicStaticField"])));
    var fs := ["PublicField", "PublicStaticField"];
    assert fs[..1] == ["PublicField"] && fs[..1][..0] == [];
    assert ResolveField(t, "PublicField", true, read) == Unresolvable;
    assert CollectVariables(t, fs[..1], true, read) == Unresolved;
    assert CollectVariables(t, fs, true, read) == Unresolved;
  }

  // ------------------------------------------------------------ PreconditionViolated

  /** `arguments.Select(_ => _.ToString()).ToList()`: a null argument throws. */
  function ArgumentStrings(args: seq<Value>): (r: Result<seq<string>>)
    ensures r.Err? <==> exists i :: 0 <= i < |args| && args[i].Null?
    ensures r.Ok? ==> |r.value| == |args| && forall i :: 0 <= i < |args| ==> Ok(r.value[i]) == ToStringOf(args[i])
  {
    if args == [] then Ok([])
    else match (ToStringOf(args[0]), ArgumentStrings(args[1..]))
      case (Ok(s), Ok(rest)) =>
        assert forall i :: 1 <= i < |args| ==> args[i] == args[1..][i - 1];
        Ok([s] + rest)
      case (Err(e), _) => Err(e)
      case (_, Err(e)) =>
        assert forall i :: 0 <= i < |args| - 1 ==> args[1..][i] == args[i + 1];
        Err(e)
  }

  /** `RandoopContractsManager.PreconditionViolated` as written: every argument's text must be
      the NAME of a parameter (anything else throws), and that name is then replaced by
      itself, so the evaluator sees the attribute's expression unchanged. */
  function PreconditionViolatedAsWritten(m: MemberInfo, args: seq<Value>, eval: Evaluator): Result<bool> {
    match ArgumentStrings(args)
    case Err(e) => Err(e)
    case Ok(strs) =>
      if m.precondition.None? then Ok(false)
      else if exists i :: 0 <= i < |strs| && strs[i] !in m.paramNames then Err(InvalidContractException)
      else match eval(m.precondition.value.expression, map[])
        case Ok(b) => Ok(!b)
        case Err(_) => Err(InvalidContractException)
  }

  /** The rewriting loop as written: `SingleOrDefault` finds the parameter whose name equals
      the argument's text, and replaces that name with that same text. */
  method PreconditionLoopAsWritten(m: MemberInfo, args: seq<Value>, eval: Evaluator) returns (r: Result<bool>)
    requires WellFormedParams(m)
    ensures r == PreconditionViolatedAsWritten(m, args, eval)
  {
    var ordered := ArgumentStrings(args);
    if ordered.Err? {
      return Err(ordered.exception);
    }
    var orderedArguments := ordered.value;
    if m.precondition.None? {
      return Ok(false);
    }
    var computedExpression := m.precondition.value.expression;
    var index := 0;
    while index < |orderedArguments|
      invariant 0 <= index <= |orderedArguments|
      invariant computedExpression == m.precondition.value.expression
      invariant forall i :: 0 <= i < index ==> orderedArguments[i] in m.paramNames
    {
      if orderedArguments[index] !in m.paramNames {
        return Err(InvalidContractException);
      }
      var parameterName := orderedArguments[index];
      ReplaceSelf(computedExpression, parameterName);
      computedExpression := Replace(computedExpression, parameterName, orderedArguments[index]);
      index := index + 1;
    }
    match eval(computedExpression, map[]) {
      case Ok(b) => r := Ok(!b);
      case Err(_) => r := Err(InvalidContractException);
    }
  }

  /** A one-parameter method `M(int x)` with `[Precondition("x > 0", "x")]` called with 5: the
      check as written throws instead of evaluating `5 > 0`. */
  lemma PreconditionAsWrittenRejectsValues(eval: Evaluator)
    ensures var m := MemberInfo(TypeInfo("C", map[], map[], None, None), false, true, ["x"], None,
                                Some(Precondition("x > 0", ["x"])));
      PreconditionViolatedAsWritten(m, [Primitive("System.Int32", "5")], eval) == Err(InvalidContractException)
  {
    var strs := ArgumentStrings([Primitive("System.Int32", "5")]).value;
    assert strs[0] == "5" && "5" !in ["x"];
  }

  /** The position of a name in a parameter list. */
  function IndexOfName(names: seq<string>, n: string): (i: nat)
    requires n in names
    ensures i < |names| && names[i] == n
  {
    if names[0] == n then 0 else 1 + IndexOfName(names[1..], n)
  }

  /** The parameter names, longest first, as `OrderByDescending(_ => _.Length)` orders them. */
  function LongestFirst(names: seq<string>): (r: seq<string>)
    ensures multiset(r) == multiset(names) && ContractText.NonIncreasingLength(r)
  {
    ContractText.OrderByDescendingLengthSorted(names);
    ContractText.OrderByDescendingLength(names)
  }

  /** The names of `order`, in turn, each replaced by its own parameter's argument text. */
  function SubstituteInOrder(expression: string, order: seq<string>, names: seq<string>, strs: seq<string>): string
    requires |names| == |strs|
    requires forall k :: 0 <= k < |order| ==> order[k] in names && order[k] != ""
  {
    if order == [] then expression
    else
      var n := |order| - 1;
      Replace(SubstituteInOrder(expression, order[..n], names, strs), order[n], strs[IndexOfName(names, order[n])])
  }

  /** Each parameter name replaced by its argument's text, longest name first, so that a name
      inside a longer one is not replaced within the longer one. */
  function SubstituteArguments(expression: string, names: seq<string>, strs: seq<string>): string
    requires |names| == |strs|
    requires forall i :: 0 <= i < |names| ==> names[i] != ""
  {
    var order := LongestFirst(names);
    assert forall k :: 0 <= k < |order| ==> order[k] in multiset(names);
    SubstituteInOrder(expression, order, names, strs)
  }

  /** An expression that mentions none of the names is left as it is. */
  lemma {:induction false} SubstituteInOrderNothing(expression: string, order: seq<string>, names: seq<string>, strs: seq<string>)
    requires |names| == |strs|
    requires forall k :: 0 <= k < |order| ==> order[k] in names && order[k] != "" && !Contains(expression, order[k])
    ensures SubstituteInOrder(expression, order, names, strs) == expression
    decreases |order|
  {
    if order != [] {
      var n := |order| - 1;
      SubstituteInOrderNothing(expression, order[..n], names, strs);
      ReplaceAbsent(expression, order[n], strs[IndexOfName(names, order[n])]);
    }
  }

  /** An expression that mentions no parameter is evaluated as it is. */
  lemma SubstituteNothing(expression: string, names: seq<string>, strs: seq<string>)
    requires |names| == |strs|
    requires forall i :: 0 <= i < |names| ==> names[i] != "" && !Contains(expression, names[i])
    ensures SubstituteArguments(expression, names, strs) == expression
  {
    var order := LongestFirst(names);
    assert forall k :: 0 <= k < |order| ==> order[k] in multiset(names);
    SubstituteInOrderNothing(expression, order, names, strs);
  }

  /** `PreconditionViolated` as intended: no precondition means no violation; otherwise every
      parameter's name is replaced by its argument's text, longest name first, and the call is
      ruled out iff the expression is false. A throwing evaluator still makes the contract invalid. */
  function PreconditionViolated(m: MemberInfo, args: seq<Value>, eval: Evaluator): (r: Result<bool>)
    requires WellFormedParams(m) && |args| == |m.paramNames|
    ensures r.Err? ==> (exists i :: 0 <= i < |args| && args[i].Null?) || r.exception == InvalidContractException
    ensures m.precondition.None? && ArgumentStrings(args).Ok? ==> r == Ok(false)
  {
    match ArgumentStrings(args)
    case Err(e) => Err(e)
    case Ok(strs) =>
      if m.precondition.None? then Ok(false)
      else match eval(SubstituteArguments(m.precondition.value.expression, m.paramNames, strs), map[])
        case Ok(b) => Ok(!b)
        case Err(_) => Err(InvalidContractException)
  }

  /** The intended check on a one-parameter member whose precondition starts with the
      parameter's name (and does not mention it again) evaluates the argument's text followed
      by the rest: `M(5)` with `[Precondition("x > 0", "x")]` evaluates `5 > 0`. */
  lemma PreconditionSubstitutesValues(eval: Evaluator, m: MemberInfo, arg: Value, text: string, rest: string)
    requires WellFormedParams(m) && |m.paramNames| == 1
    requires m.precondition.Some? && m.precondition.value.expression == m.paramNames[0] + rest
    requires !Contains(rest, m.paramNames[0])
    requires ArgumentStrings([arg]) == Ok([text])
    ensures PreconditionViolated(m, [arg], eval)
         == if eval(text + rest, map[]).Ok? then Ok(!eval(text + rest, map[]).value) else Err(InvalidContractException)
  {
    var x := m.paramNames[0];
    assert m.paramNames == [x] && m.paramNames[..0] == [];
    assert ContractText.OrderByDescendingLength(m.paramNames) == ContractText.InsertByLength([], x) == [x];
    assert [x][..0] == [] && IndexOfName(m.paramNames, x) == 0;
    assert SubstituteInOrder(x + rest, [x], m.paramNames, [text]) == Replace(x + rest, x, text);
    assert SubstituteArguments(m.precondition.value.expression, m.paramNames, [text])
        == Replace(x + rest, x, text);
    ReplaceLeading(x, rest, text);
  }

  /** The two replacements of `xs > x`, longest name first. */
  lemma ReplaceLongestFirst()
    ensures Replace(Replace("xs > x", "xs", "3"), "x", "5") == "3 > 5"
  {
    var r1 := Replace("xs > x", "xs", "3");
    assert "xs > x"[..2] == "xs" && "xs > x"[2..] == " > x";
    assert " > x"[..2] != "xs" && "> x"[..2] != "xs" && " x"[..2] != "xs";
    assert " > x"[1..] == "> x" && "> x"[1..] == " x" && " x"[1..] == "x";
    assert r1 == "3 > x";
    assert "3 > x"[..1] != "x" && " > x"[..1] != "x" && "> x"[..1] != "x" && " x"[..1] != "x" && "x"[..1] == "x";
    assert "3 > x"[1..] == " > x" && "x"[1..] == "";
  }

  /** The same replacements in declaration order. */
  lemma ReplaceDeclarationOrder()
    ensures Replace(Replace("xs > x", "x", "5"), "xs", "3") == "5s > 5"
  {
    assert "xs > x"[..1] == "x" && "xs > x"[1..] == "s > x";
    assert "s > x"[..1] != "x" && " > x"[..1] != "x" && "> x"[..1] != "x" && " x"[..1] != "x" && "x"[..1] == "x";
    assert "s > x"[1..] == " > x" && " > x"[1..] == "> x" && "> x"[1..] == " x" && " x"[1..] == "x" && "x"[1..] == "";
    assert Replace("xs > x", "x", "5") == "5s > 5";
    assert "5s > 5"[..2] != "xs" && "s > 5"[..2] != "xs" && " > 5"[..2] != "xs" && "> 5"[..2] != "xs" && " 5"[..2] != "xs";
    assert "5s > 5"[1..] == "s > 5" && "s > 5"[1..] == " > 5" && " > 5"[1..] == "> 5" && "> 5"[1..] == " 5" && " 5"[1..] == "5";
  }

  /** `x` and `xs` are ordered `xs`, `x`. */
  lemma LongestFirstOfXXs()
    ensures LongestFirst(["x", "xs"]) == ["xs", "x"]
  {
    var names := ["x", "xs"];
    assert names[..1] == ["x"] && names[..1][..0] == [];
    assert ContractText.OrderByDescendingLength(names[..1]) == ["x"];
    assert ContractText.OrderByDescendingLength(names) == ContractText.InsertByLength(["x"], "xs") == ["xs", "x"];
  }

  /** The texts of the arguments 5 and 3. */
  lemma ArgumentStringsOf53()
    ensures ArgumentStrings([Primitive("System.Int32", "5"), Primitive("System.Int32", "3")]) == Ok(["5", "3"])
  {
    var args := [Primitive("System.Int32", "5"), Primitive("System.Int32", "3")];
    assert args[1..] == [Primitive("System.Int32", "3")] && args[1..][1..] == [];
    assert ArgumentStrings(args[1..][1..]) == Ok([]);
    assert ToStringOf(args[1..][0]) == Ok("3") && ToStringOf(args[0]) == Ok("5");
    assert ArgumentStrings(args[1..]) == Ok(["3"] + []);
    assert ["3"] + [] == ["3"] && ["5"] + ["3"] == ["5", "3"];
  }

  /** `xs > x` with `x` = 5 and `xs` = 3, in either order of replacement. */
  lemma SubstituteXXs()
    ensures SubstituteArguments("xs > x", ["x", "xs"], ["5", "3"]) == "3 > 5"
    ensures SubstituteInOrder("xs > x", ["x", "xs"], ["x", "xs"], ["5", "3"]) == "5s > 5"
  {
    var names := ["x", "xs"];
    var strs := ["5", "3"];
    LongestFirstOfXXs();
    var order := ["xs", "x"];
    assert order[..1] == ["xs"] && order[..1][..0] == [];
    assert names[..1] == ["x"] && names[..1][..0] == [];
    assert IndexOfName(names, "xs") == 1 && IndexOfName(names, "x") == 0;
    ReplaceLongestFirst();
    ReplaceDeclarationOrder();
  }

  /** Two parameters `x` and `xs` with `[Precondition("xs > x")]`, called with 5 and 3: the
      longer name is replaced first, so the evaluator sees `3 > 5`; replacing in declaration
      order would have turned the `x` of `xs` into `5` and produced `5s > 5`. */
  lemma PreconditionLongestNameFirst(eval: Evaluator, t: TypeInfo, isStatic: bool)
    ensures var m := MemberInfo(t, isStatic, true, ["x", "xs"], None, Some(Precondition("xs > x", [])));
      PreconditionViolated(m, [Primitive("System.Int32", "5"), Primitive("System.Int32", "3")], eval)
        == if eval("3 > 5", map[]).Ok? then Ok(!eval("3 > 5", map[]).value) else Err(InvalidContractException)
    ensures SubstituteInOrder("xs > x", ["x", "xs"], ["x", "xs"], ["5", "3"]) == "5s > 5"
  {
    ArgumentStringsOf53();
    SubstituteXXs();
  }

  /** Replacing a pattern at the start of a string that does not contain it again. */
  lemma ReplaceLeading(pat: string, rest: string, rep: string)
    requires pat != "" && !Contains(rest, pat)
    ensures Replace(pat + rest, pat, rep) == rep + rest
  {
    assert (pat + rest)[..|pat|] == pat && (pat + rest)[|pat|..] == rest;
    ReplaceAbsent(rest, pat, rep);
  }
}
