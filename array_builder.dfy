/** `ArrayOrArrayListBuilderTransformer` and `ArrayBuilderTransformer`: the transformer that
    builds a one-dimensional array of a base type and a length from values chosen from
    parent plans. It has `length` inputs, all of the base type, and one result slot, the
    array. `Array.CreateInstance` is an input of `Execute`. */
module ArrayBuilders {
  import opened Common
  import opened Transformers

  const NotImplemented := "System.NotImplementedException"

  // ------------------------------------------------------------ execution

  /** What `Plan.RepOk` demands of the inputs: one chooser per element, each selecting an
      existing slot. */
  predicate InputsOk(length: nat, results: seq<seq<Value>>, parameterMap: seq<Chooser>) {
    && |parameterMap| == length
    && (forall i :: 0 <= i < |parameterMap| ==> ChooserInRange(results, parameterMap[i]))
  }

  function CreateLine(baseType: TypeName): string {
    "create array (constructor): type " + ArrayTypeOf(baseType)
  }

  /** `Execute`, given what `Array.CreateInstance` did and the chosen elements: a failed
      creation is reported as the plan's exception with no result and nothing logged; a null
      element under `forbidNull` makes the `Util.Assert` failure escape, nothing logged;
      otherwise the one-element tuple holding the array, and a log line naming the array
      type. */
  function ExecuteSpec(baseType: TypeName, log: seq<string>, creation: Result<Value>, elements: seq<Value>,
                       forbidNull: bool): (seq<string>, ExecReturn)
  {
    match creation
    case Err(e) => (log, Returned(false, None, false, Some(e), false))
    case Ok(created) =>
      if NullForbidden(forbidNull, elements) then (log, Threw(AssertFailure))
      else (log + [CreateLine(baseType)], Returned(true, Some(SingleTuple(created)), false, None, false))
  }

  /** How `Plan.Execute` sees an array builder: failed with the creation's exception when
      the array cannot be created; the `Util.Assert` failure escaping when an element is null
      under `forbidNull`; normal with the array as the only slot otherwise. It never reports
      a precondition or contract violation, and only appends, at most one log line. */
  lemma ExecuteOutcome(baseType: TypeName, log: seq<string>, created: Result<Value>, elements: seq<Value>, forbidNull: bool)
    ensures var (log', r) := ExecuteSpec(baseType, log, created, elements, forbidNull);
      && ToOutcome(r) == (if created.Err? then Failed(false, Some(created.exception), false)
                          else if forbidNull && Null in elements then Escaped(AssertFailure)
                          else Normal([created.value]))
      && (r.Returned? ==> !r.preconditionViolated && !r.contractViolated)
      && log'[..|log|] == log && |log'| <= |log| + 1
  {
  }

  // ------------------------------------------------------------ the generated statement

  /** The initialiser list, built as the loop does: `" , "` between consecutive arguments. */
  function ElementList(arguments: seq<string>): string {
    if arguments == [] then ""
    else
      var i := |arguments| - 1;
      ElementList(arguments[..i]) + (if i > 0 then " , " else "") + arguments[i]
  }

  /** The list of two non-empty argument lists is the two lists with `" , "` between them;
      a single argument is listed as it is. */
  lemma {:induction false} ElementListAppend(a: seq<string>, b: seq<string>)
    requires a != [] && b != []
    ensures ElementList(a + b) == ElementList(a) + " , " + ElementList(b)
    decreases |b|
  {
    var i := |b| - 1;
    assert (a + b)[..|a + b| - 1] == a + b[..i];
    if i > 0 {
      ElementListAppend(a, b[..i]);
    } else {
      assert b[..i] == [];
    }
  }

  lemma ElementListSingle(x: string)
    ensures ElementList([x]) == x
  {
    assert [x][..0] == [];
  }

  /** `T[] name =  new T[] {a0 , a1};`. */
  function ArrayStatement(baseType: TypeName, newValueName: string, arguments: seq<string>): string {
    var retType := baseType + "[]";
    retType + " " + newValueName + " =  new " + retType + " {" + ElementList(arguments) + "};"
  }

  // ------------------------------------------------------------ the transformer object

  class ArrayBuilder {
    const baseType: TypeName
    const length: nat

    /** `ArrayOrArrayListBuilderTransformer(arrayBaseType, arrayLength)`: a non-negative
        length, both fields fixed for the builder's lifetime. */
    constructor (arrayBaseType: TypeName, arrayLength: int)
      requires arrayLength >= 0
      ensures baseType == arrayBaseType && length == arrayLength
    {
      baseType := arrayBaseType;
      length := arrayLength;
    }

    function Desc(): (d: Desc)
      ensures d == ArrayBuilderDesc(baseType, length)
      ensures TupleTypes(d) == [ArrayTypeOf(baseType)] && DefaultActive(d) == [true] && MemberName(d) == "n/a"
    {
      ArrayBuilderDesc(baseType, length)
    }

    /** `Equals`: the same base type and length. */
    predicate Equals(other: ArrayBuilder) {
      baseType == other.baseType && length == other.length
    }

    /** `GetHashCode`: the base type's hash plus the length, in 32-bit arithmetic. */
    function GetHashCode(typeHash: TypeName -> int): int {
      Wrap32(typeHash(baseType) + length)
    }

    /** `TupleIndexOfIthInputParam`: the inputs are not slots of the tuple. */
    function TupleIndexOfIthInputParam(i: int): (r: Result<nat>)
      ensures r.Err? && r.exception == NotImplemented
    {
      Err(NotImplemented)
    }

    /** `ParameterTypes`: a fresh array of `length` copies of the base type. */
    method ParameterTypes() returns (r: array<TypeName>)
      ensures fresh(r) && r[..] == Transformers.ParameterTypes(Desc())
    {
      r := new TypeName[length];
      var i := 0;
      while i < length
        invariant 0 <= i <= length
        invariant forall j :: 0 <= j < i ==> r[j] == baseType
      {
        r[i] := baseType;
        i := i + 1;
      }
      assert r[..] == Repeat(baseType, length);
    }

    /** `Execute`: create the array, set element i to the value chosen by chooser i (asserting
        first, under `forbidNull`, that it is not null), and return it as the only slot of
        the tuple. `contents` is the array's storage (empty when creation failed). */
    method Execute(results: seq<seq<Value>>, parameterMap: seq<Chooser>, log: ExecutionLog,
                   createInstance: (TypeName, nat) -> Result<Value>, forbidNull: bool)
      returns (r: ExecReturn, contents: array<Value>)
      requires InputsOk(length, results, parameterMap)
      modifies log
      ensures (log.lines, r)
        == ExecuteSpec(baseType, old(log.lines), createInstance(baseType, length), ChosenValues(results, parameterMap), forbidNull)
      ensures fresh(contents)
      ensures r.Returned? && r.ret.Some? ==> contents[..] == ChosenValues(results, parameterMap)
    {
      var created := createInstance(baseType, length);
      if created.Err? {
        contents := new Value[0];
        return Returned(false, None, false, Some(created.exception), false), contents;
      }
      contents := new Value[length];
      var i := 0;
      while i < length
        modifies contents
        invariant 0 <= i <= length
        invariant forall j :: 0 <= j < i ==> contents[j] == Chosen(results, parameterMap[j])
        invariant forbidNull ==> forall j :: 0 <= j < i ==> !Chosen(results, parameterMap[j]).Null?
      {
        var pair := parameterMap[i];
        if forbidNull && Chosen(results, pair).Null? {
          assert ChosenValues(results, parameterMap)[i] == Null;
          return Threw(AssertFailure), contents;
        }
        contents[i] := Chosen(results, pair);
        i := i + 1;
      }
      assert contents[..] == ChosenValues(results, parameterMap);
      log.WriteLine(CreateLine(baseType));
      r := Returned(true, Some(SingleTuple(created.value)), false, None, false);
    }

    /** `ToCSharpCode`: an array initialiser with exactly one argument per element; any other
        number of arguments fails the `Util.Assert` on the count. */
    method ToCSharpCode(arguments: seq<string>, newValueName: string) returns (r: Result<string>)
      ensures r.Err? <==> |arguments| != length
      ensures r.Err? ==> r.exception == AssertFailure
      ensures r.Ok? ==> r.value == ArrayStatement(baseType, newValueName, arguments)
    {
      if |arguments| != length {
        return Err(AssertFailure);
      }
      var retType := baseType + "[]";
      var code := retType + " " + newValueName + " =  new " + retType + " {";
      ghost var head := code;
      var i := 0;
      while i < |arguments|
        invariant 0 <= i <= |arguments|
        invariant code == head + ElementList(arguments[..i])
      {
        PrefixStep(arguments, i);
        if i > 0 {
          ElementListAppend(arguments[..i], [arguments[i]]);
          ElementListSingle(arguments[i]);
          assert arguments[..i + 1] == arguments[..i] + [arguments[i]];
          code := code + " , ";
        }
        code := code + arguments[i];
        i := i + 1;
      }
      TakeAll(arguments);
      r := Ok(code + "};");
    }
  }

  /** Two builders are equal iff their descriptors are, and equal builders hash equally. */
  lemma EqualsIffSameDesc(a: ArrayBuilder, b: ArrayBuilder, typeHash: TypeName -> int)
    ensures a.Equals(b) <==> a.Desc() == b.Desc()
    ensures a.Equals(b) ==> a.GetHashCode(typeHash) == b.GetHashCode(typeHash)
  {
  }

  /** The static `cachedTransformers` dictionary of `ArrayBuilderTransformer.Get`, keyed by
      `BaseTypeAndLengthPair`. */
  class ArrayBuilderCache {
    var cached: map<(TypeName, nat), ArrayBuilder>

    /** Every entry is the builder of its own key. */
    predicate Valid()
      reads this
    {
      forall k :: k in cached ==> cached[k].baseType == k.0 && cached[k].length == k.1
    }

    constructor ()
      ensures cached == map[] && Valid()
    {
      cached := map[];
    }

    /** `Get`: one builder per (base type, length) pair, created on first use. A negative
        length fails the constructor's `Util.Assert` before anything is cached. */
    method Get(arrayBaseType: TypeName, arrayLength: int) returns (r: Result<ArrayBuilder>)
      requires Valid()
      modifies this
      ensures Valid()
      ensures r.Err? <==> arrayLength < 0
      ensures r.Err? ==> r.exception == AssertFailure && cached == old(cached)
      ensures r.Ok? ==> r.value.baseType == arrayBaseType && r.value.length == arrayLength
      ensures arrayLength >= 0 && (arrayBaseType, arrayLength) in old(cached) ==>
        r.Ok? && r.value == old(cached)[(arrayBaseType, arrayLength)] && cached == old(cached)
      ensures arrayLength >= 0 && (arrayBaseType, arrayLength) !in old(cached) ==>
        r.Ok? && fresh(r.value) && cached == old(cached)[(arrayBaseType, arrayLength) := r.value]
    {
      if arrayLength < 0 {
        return Err(AssertFailure);
      }
      var p := (arrayBaseType, arrayLength);
      if p in cached {
        return Ok(cached[p]);
      }
      var t := new ArrayBuilder(arrayBaseType, arrayLength);
      cached := cached[p := t];
      r := Ok(t);
    }
  }
}
