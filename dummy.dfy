/** `DummyTransformer`: a transformer that changes no state and stands for a plan that
    yields a value of a given type. It has no inputs and one active result slot. */
module Dummies {
  import opened Common
  import opened Transformers

  const NotImplemented := "System.NotImplementedException"
  const DummyLine := "execute dummy action "

  /** `Execute`: whatever the inputs, true with the tuple `[null]`, no exception and no
      precondition or contract violation. */
  function ExecuteSpec(log: seq<string>): (seq<string>, ExecReturn) {
    (log + [DummyLine], Returned(true, Some([Null]), false, None, false))
  }

  /** How `Plan.Execute` sees it: always normal, with a single null slot. */
  lemma ExecuteAlwaysNormal(log: seq<string>)
    ensures var (log', r) := ExecuteSpec(log);
      ToOutcome(r) == Normal([Null]) && log' == log + [DummyLine]
  {
  }

  class DummyTransformer {
    const ftype: TypeName

    constructor (t: TypeName)
      ensures ftype == t
    {
      ftype := t;
    }

    function Desc(): (d: Desc)
      ensures d == DummyDesc(ftype)
      ensures TupleTypes(d) == [ftype] && DefaultActive(d) == [true] && ParameterTypes(d) == [] && MemberName(d) == "n/a"
    {
      DummyDesc(ftype)
    }

    /** `Equals`: the same type. */
    predicate Equals(other: DummyTransformer) {
      ftype == other.ftype
    }

    /** `GetHashCode`: the type's hash. */
    function GetHashCode(typeHash: TypeName -> int): int {
      typeHash(ftype)
    }

    /** `TupleIndexOfIthInputParam` and `ToCSharpCode` are not supported. */
    function TupleIndexOfIthInputParam(i: int): (r: Result<nat>)
      ensures r.Err? && r.exception == NotImplemented
    {
      Err(NotImplemented)
    }

    function ToCSharpCode(arguments: seq<string>, newValueName: string): (r: Result<string>)
      ensures r.Err? && r.exception == NotImplemented
    {
      Err(NotImplemented)
    }

    method Execute(results: seq<seq<Value>>, parameterMap: seq<Chooser>, log: ExecutionLog) returns (r: ExecReturn)
      modifies log
      ensures (log.lines, r) == ExecuteSpec(old(log.lines))
    {
      log.WriteLine(DummyLine);
      r := Returned(true, Some([Null]), false, None, false);
    }
  }

  /** Two dummies are equal iff their descriptors are, and equal dummies hash equally. */
  lemma EqualsIffSameDesc(a: DummyTransformer, b: DummyTransformer, typeHash: TypeName -> int)
    ensures a.Equals(b) <==> a.Desc() == b.Desc()
    ensures a.Equals(b) ==> a.GetHashCode(typeHash) == b.GetHashCode(typeHash)
  {
  }

  /** The static `cachedTransformers` dictionary of `DummyTransformer.Get`. */
  class DummyCache {
    var cached: map<TypeName, DummyTransformer>

    predicate Valid()
      reads this
    {
      forall t :: t in cached ==> cached[t].ftype == t
    }

    constructor ()
      ensures cached == map[] && Valid()
    {
      cached := map[];
    }

    /** `Get`: one dummy per type, created on first use. */
    method Get(t: TypeName) returns (d: DummyTransformer)
      requires Valid()
      modifies this
      ensures Valid() && d.ftype == t
      ensures t in old(cached) ==> d == old(cached)[t] && cached == old(cached)
      ensures t !in old(cached) ==> fresh(d) && cached == old(cached)[t := d]
    {
      if t in cached {
        return cached[t];
      }
      d := new DummyTransformer(t);
      cached := cached[t := d];
    }
  }
}
