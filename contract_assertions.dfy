/** `ContractAssertionGenerator`: the older generator, driven by three "can generate" flags
    instead of validated states, which qualifies every invariant field as a field. */
module ContractAssertions {
  import opened Common
  import opened CsStrings
  import opened Contracts
  import opened ContractText

  /** `ContractAssertion`: which of the three contracts may produce an assertion. */
  datatype ContractAssertion = ContractAssertion(fromPostcondition: bool, fromInvariant: bool, fromStaticInvariant: bool)

  const NullReference := "System.NullReferenceException"

  /** `ComputeInvariantExpression`: the fields longest first, each `receiver.field`, whether
      or not such a field exists. */
  function InvariantExpression(expression: string, fields: seq<string>, receiver: string): Result<string> {
    RewriteFields(expression, OrderByDescendingLength(fields), f => Ok(receiver + "." + f))
  }

  /** `ComputeStaticInvariantExpression`: the fields in declaration order, each `Type.field`. */
  function StaticInvariantExpression(expression: string, fields: seq<string>, t: TypeInfo): Result<string> {
    RewriteFields(expression, fields, f => Ok(t.name + "." + f))
  }

  function PostconditionSection(canGenerate: bool, methodCallResult: string, post: Option<Postcondition>): (r: Result<string>)
    ensures !canGenerate ==> r == Ok("")
    ensures canGenerate && post.Some? ==>
      r == Ok(PostconditionComment + Assertion(PostconditionExpression(post.value.expression, methodCallResult)))
  {
    if !canGenerate then Ok("")
    else if post.None? then Err(NullReference)
    else Ok(PostconditionComment + Assertion(PostconditionExpression(post.value.expression, methodCallResult)))
  }

  function InvariantSection(canGenerate: bool, methodCallReceiver: string, t: TypeInfo): (r: Result<string>)
    ensures !canGenerate ==> r == Ok("")
  {
    if !canGenerate then Ok("")
    else if t.invariantAttr.None? then Err(NullReference)
    else match InvariantExpression(t.invariantAttr.value.expression, t.invariantAttr.value.fields, methodCallReceiver)
      case Err(e) => Err(e)
      case Ok(e) => Ok(InvariantComment + Assertion(e))
  }

  function StaticInvariantSection(canGenerate: bool, t: TypeInfo): (r: Result<string>)
    ensures !canGenerate ==> r == Ok("")
  {
    if !canGenerate then Ok("")
    else if t.staticInvariantAttr.None? then Err(NullReference)
    else match StaticInvariantExpression(t.staticInvariantAttr.value.expression, t.staticInvariantAttr.value.fields, t)
      case Err(e) => Err(e)
      case Ok(e) => Ok(StaticInvariantComment + Assertion(e))
  }

  /** Sections joined in order; the first exception escapes. */
  function Join3(p: Result<string>, i: Result<string>, s: Result<string>): Result<string> {
    if p.Err? then p else if i.Err? then i else if s.Err? then s else Ok(p.value + i.value + s.value)
  }

  /** `Compute` for a method: the four-way case analysis on static/void. */
  function MethodAssertionText(m: MemberInfo, methodCallResult: string, methodCallReceiver: string, flags: ContractAssertion): Result<string> {
    var t := m.declaringType;
    if !m.isStatic && !m.returnsVoid then
      Join3(PostconditionSection(flags.fromPostcondition, methodCallResult, m.postcondition),
            InvariantSection(flags.fromInvariant, methodCallReceiver, t),
            StaticInvariantSection(flags.fromStaticInvariant, t))
    else if !m.isStatic && m.returnsVoid then
      Join3(InvariantSection(flags.fromInvariant, methodCallReceiver, t),
            StaticInvariantSection(flags.fromStaticInvariant, t), Ok(""))
    else if m.isStatic && !m.returnsVoid then
      Join3(PostconditionSection(flags.fromPostcondition, methodCallResult, m.postcondition),
            StaticInvariantSection(flags.fromStaticInvariant, t), Ok(""))
    else
      Join3(StaticInvariantSection(flags.fromStaticInvariant, t), Ok(""), Ok(""))
  }

  /** `Compute` for a constructor: all three sections, the new object as result and receiver. */
  function ConstructorAssertionText(c: MemberInfo, newValueName: string, flags: ContractAssertion): Result<string> {
    Join3(PostconditionSection(flags.fromPostcondition, newValueName, c.postcondition),
          InvariantSection(flags.fromInvariant, newValueName, c.declaringType),
          StaticInvariantSection(flags.fromStaticInvariant, c.declaringType))
  }

  /** The case analysis amounts to: a postcondition section only for non-void methods, an
      invariant section only for instance methods, a static-invariant section always. */
  lemma MethodSectionsByKind(m: MemberInfo, methodCallResult: string, methodCallReceiver: string, flags: ContractAssertion)
    ensures MethodAssertionText(m, methodCallResult, methodCallReceiver, flags)
      == Join3(PostconditionSection(flags.fromPostcondition && !m.returnsVoid, methodCallResult, m.postcondition),
               InvariantSection(flags.fromInvariant && !m.isStatic, methodCallReceiver, m.declaringType),
               StaticInvariantSection(flags.fromStaticInvariant, m.declaringType))
  {
    var t := m.declaringType;
    var i := InvariantSection(flags.fromInvariant, methodCallReceiver, t);
    var s := StaticInvariantSection(flags.fromStaticInvariant, t);
    if i.Ok? && s.Ok? {
      assert i.value + s.value + "" == "" + i.value + s.value;
    }
    if s.Ok? {
      assert s.value + "" + "" == "" + "" + s.value;
      var p := PostconditionSection(flags.fromPostcondition, methodCallResult, m.postcondition);
      if p.Ok? {
        assert p.value + s.value + "" == p.value + "" + s.value;
      }
    }
  }

  /** All three flags false: no text. */
  lemma NoFlagsNoText(m: MemberInfo, methodCallResult: string, methodCallReceiver: string)
    ensures MethodAssertionText(m, methodCallResult, methodCallReceiver, ContractAssertion(false, false, false)) == Ok("")
    ensures ConstructorAssertionText(m, methodCallResult, ContractAssertion(false, false, false)) == Ok("")
  {
    assert "" + "" + "" == "";
  }

  /** Invariant fields are never looked up, so the rewriting fails only on an empty field
      name. */
  lemma InvariantRewriteTotal(expression: string, fields: seq<string>, receiver: string)
    requires forall i :: 0 <= i < |fields| ==> fields[i] != ""
    ensures InvariantExpression(expression, fields, receiver).Ok?
  {
    var sorted := OrderByDescendingLength(fields);
    OrderByDescendingLengthSorted(fields);
    forall i | 0 <= i < |sorted| ensures sorted[i] != "" {
      assert sorted[i] in multiset(fields);
    }
    RewriteFieldsSucceeds(expression, sorted, f => Ok(receiver + "." + f));
  }

  // ------------------------------------------------------------ the appending methods

  method AppendPostcondition(canGenerate: bool, methodCallResult: string, post: Option<Postcondition>, code: CodeBuilder)
    returns (err: Option<string>)
    modifies code
    ensures var s := PostconditionSection(canGenerate, methodCallResult, post);
      (s.Ok? ==> err.None? && code.text == old(code.text) + s.value) && (s.Err? ==> err == Some(s.exception))
  {
    err := None;
    if canGenerate {
      code.Append(PostconditionComment);
      if post.None? {
        return Some(NullReference);
      }
      var expression := PostconditionExpression(post.value.expression, methodCallResult);
      code.Append(Assertion(expression));
    }
  }

  method AppendInvariant(t: TypeInfo, canGenerate: bool, methodCallReceiver: string, code: CodeBuilder)
    returns (err: Option<string>)
    modifies code
    ensures var s := InvariantSection(canGenerate, methodCallReceiver, t);
      (s.Ok? ==> err.None? && code.text == old(code.text) + s.value) && (s.Err? ==> err == Some(s.exception))
  {
    err := None;
    if canGenerate {
      code.Append(InvariantComment);
      if t.invariantAttr.None? {
        return Some(NullReference);
      }
      var c := t.invariantAttr.value;
      var expression := RewriteLoop(c.expression, OrderByDescendingLength(c.fields), f => Ok(methodCallReceiver + "." + f));
      if expression.Err? {
        return Some(expression.exception);
      }
      code.Append(Assertion(expression.value));
    }
  }

  method AppendStaticInvariant(t: TypeInfo, canGenerate: bool, code: CodeBuilder)
    returns (err: Option<string>)
    modifies code
    ensures var s := StaticInvariantSection(canGenerate, t);
      (s.Ok? ==> err.None? && code.text == old(code.text) + s.value) && (s.Err? ==> err == Some(s.exception))
  {
    err := None;
    if canGenerate {
      code.Append(StaticInvariantComment);
      if t.staticInvariantAttr.None? {
        return Some(NullReference);
      }
      var c := t.staticInvariantAttr.value;
      var expression := RewriteLoop(c.expression, c.fields, f => Ok(t.name + "." + f));
      if expression.Err? {
        return Some(expression.exception);
      }
      code.Append(Assertion(expression.value));
    }
  }

  /** `Compute` for a method: the sections its static/void kind calls for, appended in
      order to one builder. */
  method Compute(m: MemberInfo, methodCallResult: string, methodCallReceiver: string, flags: ContractAssertion) returns (r: Result<string>)
    ensures r == MethodAssertionText(m, methodCallResult, methodCallReceiver, flags)
  {
    var t := m.declaringType;
    ghost var p := PostconditionSection(flags.fromPostcondition, methodCallResult, m.postcondition);
    ghost var i := InvariantSection(flags.fromInvariant, methodCallReceiver, t);
    ghost var s := StaticInvariantSection(flags.fromStaticInvariant, t);
    var code := new CodeBuilder();
    var err: Option<string> := None;
    if !m.isStatic && !m.returnsVoid {
      err := AppendPostcondition(flags.fromPostcondition, methodCallResult, m.postcondition, code);
      if err.Some? {
        return Err(err.value);
      }
      assert code.text == p.value;
      err := AppendInvariant(t, flags.fromInvariant, methodCallReceiver, code);
      if err.Some? {
        return Err(err.value);
      }
      assert code.text == p.value + i.value;
      err := AppendStaticInvariant(t, flags.fromStaticInvariant, code);
    } else if !m.isStatic && m.returnsVoid {
      err := AppendInvariant(t, flags.fromInvariant, methodCallReceiver, code);
      if err.Some? {
        return Err(err.value);
      }
      assert code.text == i.value;
      err := AppendStaticInvariant(t, flags.fromStaticInvariant, code);
      if err.None? {
        assert code.text == i.value + s.value + "";
      }
    } else if m.isStatic && !m.returnsVoid {
      err := AppendPostcondition(flags.fromPostcondition, methodCallResult, m.postcondition, code);
      if err.Some? {
        return Err(err.value);
      }
      assert code.text == p.value;
      err := AppendStaticInvariant(t, flags.fromStaticInvariant, code);
      if err.None? {
        assert code.text == p.value + s.value + "";
      }
    } else {
      err := AppendStaticInvariant(t, flags.fromStaticInvariant, code);
      if err.None? {
        assert code.text == s.value + "" + "";
      }
    }
    if err.Some? {
      return Err(err.value);
    }
    r := Ok(code.text);
  }

  /** `Compute` for a constructor, appending the three sections to one builder. */
  method ComputeForConstructor(c: MemberInfo, newValueName: string, flags: ContractAssertion) returns (r: Result<string>)
    ensures r == ConstructorAssertionText(c, newValueName, flags)
  {
    ghost var p := PostconditionSection(flags.fromPostcondition, newValueName, c.postcondition);
    ghost var i := InvariantSection(flags.fromInvariant, newValueName, c.declaringType);
    ghost var s := StaticInvariantSection(flags.fromStaticInvariant, c.declaringType);
    var code := new CodeBuilder();
    var err := AppendPostcondition(flags.fromPostcondition, newValueName, c.postcondition, code);
    if err.Some? {
      return Err(err.value);
    }
    assert code.text == p.value;
    err := AppendInvariant(c.declaringType, flags.fromInvariant, newValueName, code);
    if err.Some? {
      return Err(err.value);
    }
    assert code.text == p.value + i.value;
    err := AppendStaticInvariant(c.declaringType, flags.fromStaticInvariant, code);
    if err.Some? {
      return Err(err.value);
    }
    r := Ok(code.text);
  }
}
