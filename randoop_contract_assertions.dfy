/** `RandoopContractAssertionGenerator`: the `Assert.IsTrue` lines a test gets from the
    contracts that `RandoopContractsManager` found usable, and the comment lines for those it
    found invalid. */
module RandoopContractAssertions {
  import opened Common
  import opened CsStrings
  import opened Contracts
  import opened ContractText

  const InvalidPostconditionComment := "\r\n\t\t\t//Specified postcondition was invalid so no assertion was generated\r\n"
  const InvalidInvariantComment := "\r\n\t\t\t//Specified invariant was invalid so no assertion was generated\r\n"
  const InvalidStaticInvariantComment := "\r\n\t\t\t//Specified static invariant was invalid so no assertion was generated\r\n"

  /** What this generator throws for a field with neither a public field nor a getter. */
  const GeneratorException := "Randoop.InvalidRandoopContractException"

  const NullReference := "System.NullReferenceException"

  /** A field named in an invariant, as the test refers to it: `q.field` for a public field,
      else `q.GetField()` for a public getter (static or not), else an exception. */
  function QualifiedMember(t: TypeInfo, qualifier: string, f: string): (r: Result<string>)
    ensures f in t.fields ==> r == Ok(qualifier + "." + f)
  {
    if f in t.fields then Ok(qualifier + "." + f)
    else match ComputeGetterName(f)
      case Err(e) => Err(e)
      case Ok(g) => if g in t.methods then Ok(qualifier + "." + g + "()") else Err(GeneratorException)
  }

  /** `ComputeInvariantExpression`: the fields longest first, qualified by the receiver. */
  function InvariantExpression(expression: string, fields: seq<string>, receiver: string, t: TypeInfo): Result<string> {
    RewriteFields(expression, OrderByDescendingLength(fields), f => QualifiedMember(t, receiver, f))
  }

  /** `ComputeStaticInvariantExpression`: the fields in declaration order (the sorted list it
      computes is not used), qualified by the type's name. */
  function StaticInvariantExpression(expression: string, fields: seq<string>, t: TypeInfo): Result<string> {
    RewriteFields(expression, fields, f => QualifiedMember(t, t.name, f))
  }

  /** `AppendPostcondition`: a comment and an assertion for Ok, a comment for Invalid,
      nothing otherwise. */
  function PostconditionSection(state: ContractStateEnum, methodCallResult: string, post: Option<Postcondition>): (r: Result<string>)
    ensures state in {Missing, NotApplicable} ==> r == Ok("")
    ensures state == Invalid ==> r == Ok(InvalidPostconditionComment)
    ensures state == OkState && post.Some? ==>
      r == Ok(PostconditionComment + Assertion(PostconditionExpression(post.value.expression, methodCallResult)))
  {
    match state
    case OkState =>
      if post.None? then Err(NullReference)
      else Ok(PostconditionComment + Assertion(PostconditionExpression(post.value.expression, methodCallResult)))
    case Invalid => Ok(InvalidPostconditionComment)
    case _ => Ok("")
  }

  function InvariantSection(state: ContractStateEnum, receiver: string, t: TypeInfo): (r: Result<string>)
    ensures state in {Missing, NotApplicable} ==> r == Ok("")
    ensures state == Invalid ==> r == Ok(InvalidInvariantComment)
  {
    match state
    case OkState =>
      if t.invariantAttr.None? then Err(NullReference)
      else
        var c := t.invariantAttr.value;
        (match InvariantExpression(c.expression, c.fields, receiver, t)
         case Err(e) => Err(e)
         case Ok(e) => Ok(InvariantComment + Assertion(e)))
    case Invalid => Ok(InvalidInvariantComment)
    case _ => Ok("")
  }

  function StaticInvariantSection(state: ContractStateEnum, t: TypeInfo): (r: Result<string>)
    ensures state in {Missing, NotApplicable} ==> r == Ok("")
    ensures state == Invalid ==> r == Ok(InvalidStaticInvariantComment)
  {
    match state
    case OkState =>
      if t.staticInvariantAttr.None? then Err(NullReference)
      else
        var c := t.staticInvariantAttr.value;
        (match StaticInvariantExpression(c.expression, c.fields, t)
         case Err(e) => Err(e)
         case Ok(e) => Ok(StaticInvariantComment + Assertion(e)))
    case Invalid => Ok(InvalidStaticInvariantComment)
    case _ => Ok("")
  }

  /** The three sections in their fixed order; the first exception escapes. */
  function AssertionText(m: MemberInfo, methodCallResult: string, methodCallReceiver: string, states: ContractState): (r: Result<string>)
    ensures r.Ok? ==>
      var (p, i, s) := (PostconditionSection(states.postconditionState, methodCallResult, m.postcondition),
                        InvariantSection(states.invariantState, methodCallReceiver, m.declaringType),
                        StaticInvariantSection(states.staticInvariantState, m.declaringType));
      p.Ok? && i.Ok? && s.Ok? && r.value == p.value + i.value + s.value
  {
    match PostconditionSection(states.postconditionState, methodCallResult, m.postcondition)
    case Err(e) => Err(e)
    case Ok(p) =>
      match InvariantSection(states.invariantState, methodCallReceiver, m.declaringType)
      case Err(e) => Err(e)
      case Ok(i) =>
        match StaticInvariantSection(states.staticInvariantState, m.declaringType)
        case Err(e) => Err(e)
        case Ok(s) => Ok(p + i + s)
  }

  // ------------------------------------------------------------ the appending methods

  method AppendPostcondition(state: ContractStateEnum, methodCallResult: string, post: Option<Postcondition>, code: CodeBuilder)
    returns (err: Option<string>)
    modifies code
    ensures var s := PostconditionSection(state, methodCallResult, post);
      (s.Ok? ==> err.None? && code.text == old(code.text) + s.value) && (s.Err? ==> err == Some(s.exception))
  {
    err := None;
    if state == OkState {
      code.Append(PostconditionComment);
      if post.None? {
        return Some(NullReference);
      }
      var expression := PostconditionExpression(post.value.expression, methodCallResult);
      code.Append(Assertion(expression));
    }
    if state == Invalid {
      code.Append(InvalidPostconditionComment);
    }
  }

  method AppendInvariant(state: ContractStateEnum, methodCallReceiver: string, t: TypeInfo, code: CodeBuilder)
    returns (err: Option<string>)
    modifies code
    ensures var s := InvariantSection(state, methodCallReceiver, t);
      (s.Ok? ==> err.None? && code.text == old(code.text) + s.value) && (s.Err? ==> err == Some(s.exception))
  {
    err := None;
    if state == OkState {
      code.Append(InvariantComment);
      if t.invariantAttr.None? {
        return Some(NullReference);
      }
      var c := t.invariantAttr.value;
      var expression := RewriteLoop(c.expression, OrderByDescendingLength(c.fields), f => QualifiedMember(t, methodCallReceiver, f));
      if expression.Err? {
        return Some(expression.exception);
      }
      code.Append(Assertion(expression.value));
    }
    if state == Invalid {
      code.Append(InvalidInvariantComment);
    }
  }

  method AppendStaticInvariant(t: TypeInfo, state: ContractStateEnum, code: CodeBuilder)
    returns (err: Option<string>)
    modifies code
    ensures var s := StaticInvariantSection(state, t);
      (s.Ok? ==> err.None? && code.text == old(code.text) + s.value) && (s.Err? ==> err == Some(s.exception))
  {
    err := None;
    if state == OkState {
      code.Append(StaticInvariantComment);
      if t.staticInvariantAttr.None? {
        return Some(NullReference);
      }
      var c := t.staticInvariantAttr.value;
      var expression := RewriteLoop(c.expression, c.fields, f => QualifiedMember(t, t.name, f));
      if expression.Err? {
        return Some(expression.exception);
      }
      code.Append(Assertion(expression.value));
    }
    if state == Invalid {
      code.Append(InvalidStaticInvariantComment);
    }
  }

  /** `Compute` for a method: postcondition, invariant, static invariant, in this order. */
  method Compute(m: MemberInfo, methodCallResult: string, methodCallReceiver: string, contractStates: ContractState)
    returns (r: Result<string>)
    ensures r == AssertionText(m, methodCallResult, methodCallReceiver, contractStates)
  {
    ghost var p := PostconditionSection(contractStates.postconditionState, methodCallResult, m.postcondition);
    ghost var i := InvariantSection(contractStates.invariantState, methodCallReceiver, m.declaringType);
    ghost var s := StaticInvariantSection(contractStates.staticInvariantState, m.declaringType);
    var code := new CodeBuilder();
    var err := AppendPostcondition(contractStates.postconditionState, methodCallResult, m.postcondition, code);
    if err.Some? {
      return Err(err.value);
    }
    assert code.text == p.value;
    err := AppendInvariant(contractStates.invariantState, methodCallReceiver, m.declaringType, code);
    if err.Some? {
      return Err(err.value);
    }
    assert code.text == p.value + i.value;
    err := AppendStaticInvariant(m.declaringType, contractStates.staticInvariantState, code);
    if err.Some? {
      return Err(err.value);
    }
    assert code.text == p.value + i.value + s.value;
    r := Ok(code.text);
  }

  /** `Compute` for a constructor: the new object is both the result and the receiver. */
  method ComputeForConstructor(c: MemberInfo, newValueName: string, contractStates: ContractState)
    returns (r: Result<string>)
    ensures r == AssertionText(c, newValueName, newValueName, contractStates)
  {
    r := Compute(c, newValueName, newValueName, contractStates);
  }

  // ------------------------------------------------------------ properties

  /** Missing and not-applicable contracts produce no text at all. */
  lemma NothingForAbsentContracts(m: MemberInfo, methodCallResult: string, methodCallReceiver: string, states: ContractState)
    requires states.postconditionState in {Missing, NotApplicable}
    requires states.invariantState in {Missing, NotApplicable}
    requires states.staticInvariantState in {Missing, NotApplicable}
    ensures AssertionText(m, methodCallResult, methodCallReceiver, states) == Ok("")
  {
  }

  /** Reflection never reports a member with an empty name. */
  predicate WellFormedType(t: TypeInfo) {
    "" !in t.fields && "" !in t.methods
  }

  /** A field the manager could bind can be named in the test. */
  lemma BoundIsQualified(t: TypeInfo, f: string, staticOnly: bool, read: Reader, q: string)
    requires WellFormedType(t)
    requires ResolveField(t, f, staticOnly, read).Bound?
    ensures f != "" && QualifiedMember(t, q, f).Ok?
  {
  }

  /** Every field of an invariant that the manager validated has a replacement. */
  lemma ValidatedFieldsRewrite(t: TypeInfo, c: ClassContract, staticOnly: bool, read: Reader, fields: seq<string>, q: string)
    requires WellFormedType(t)
    requires CollectVariables(t, c.fields, staticOnly, read).Vars?
    requires multiset(fields) == multiset(c.fields)
    ensures RewriteFields(c.expression, fields, f => QualifiedMember(t, q, f)).Ok?
  {
    CollectVariablesBinds(t, c.fields, staticOnly, read);
    var rep := f => QualifiedMember(t, q, f);
    forall i | 0 <= i < |fields| ensures fields[i] != "" && rep(fields[i]).Ok? {
      assert fields[i] in multiset(c.fields);
      var k :| 0 <= k < |c.fields| && c.fields[k] == fields[i];
      BoundIsQualified(t, c.fields[k], staticOnly, read, q);
    }
    RewriteFieldsSucceeds(c.expression, fields, rep);
  }

  /** The generator never throws on the states `ValidateAssertionContracts` computed for the
      same method: every Ok contract exists and every field it names can be written in the
      test. */
  lemma ValidatedContractsGenerate(m: MemberInfo, returnedValue: Value, readReceiver: Reader, readStatic: Reader, eval: Evaluator,
                                   states: ContractState, methodCallResult: string, methodCallReceiver: string)
    requires WellFormedType(m.declaringType)
    requires MethodContractStates(m, returnedValue, readReceiver, readStatic, eval) == Ok(states)
    ensures AssertionText(m, methodCallResult, methodCallReceiver, states).Ok?
  {
    var t := m.declaringType;
    MethodStatesByKind(m, returnedValue, readReceiver, readStatic, eval);
    if states.invariantState == OkState {
      var c := t.invariantAttr.value;
      OrderByDescendingLengthSorted(c.fields);
      ValidatedFieldsRewrite(t, c, false, readReceiver, OrderByDescendingLength(c.fields), methodCallReceiver);
    }
    if states.staticInvariantState == OkState {
      var c := t.staticInvariantAttr.value;
      ValidatedFieldsRewrite(t, c, true, readStatic, c.fields, t.name);
    }
  }

  /** The same for a constructor and the states computed on its new object. */
  lemma ValidatedConstructorContractsGenerate(c: MemberInfo, newObject: Value, readNew: Reader, readStatic: Reader, eval: Evaluator,
                                              states: ContractState, newValueName: string)
    requires WellFormedType(c.declaringType)
    requires ConstructorContractStates(c, newObject, readNew, readStatic, eval) == Ok(states)
    ensures AssertionText(c, newValueName, newValueName, states).Ok?
  {
    var t := c.declaringType;
    if states.invariantState == OkState {
      var k := t.invariantAttr.value;
      OrderByDescendingLengthSorted(k.fields);
      ValidatedFieldsRewrite(t, k, false, readNew, OrderByDescendingLength(k.fields), newValueName);
    }
    if states.staticInvariantState == OkState {
      var k := t.staticInvariantAttr.value;
      ValidatedFieldsRewrite(t, k, true, readStatic, k.fields, t.name);
    }
  }
}
