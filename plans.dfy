/** `Plan` (Test.cs): an immutable node of the plan DAG — a transformer, the parent plans
    executed before it and the choosers wiring parent results to its inputs — with its
    unique id, subtree size, shared active-slot flags and execution count; and the layouts
    of `ResultTuple`. */
module Plans {
  import opened Common
  import opened Transformers
  import opened Contracts

  /** `Plan.UniqueIdCounter`, the static source of plan ids. */
  class IdCounter {
    var next: int

    constructor (start: int)
      ensures next == start
    {
      next := start;
    }
  }

  /** Executing a transformer on its parents' result tuples (reflection is not part of this
      model). */
  type Runner = (Desc, seq<seq<Value>>, seq<Chooser>) -> Outcome

  /** The `contractStates` out-parameter of the same execution; `None` stands for
      `new ContractState()`. */
  type StatesRunner = (Desc, seq<seq<Value>>, seq<Chooser>) -> Option<ContractState>

  /** The value a plan denotes: its transformer, the shapes of its parents and its choosers.
      Object identity and ids play no part in it. */
  datatype Shape = Shape(transformer: Desc, parents: seq<Shape>, choosers: seq<Chooser>)

  function SumTreeNodes(ps: seq<Plan>): int {
    if ps == [] then 0 else SumTreeNodes(ps[..|ps| - 1]) + ps[|ps| - 1].treeNodes
  }

  /** `treeNodes = 1; foreach (Plan p in parentPlans) treeNodes += p.treeNodes;` in
      unchecked 32-bit arithmetic. */
  method CountTreeNodes(parents: seq<Plan>) returns (n: int)
    ensures n == Wrap32(1 + SumTreeNodes(parents))
  {
    n := 1;
    var i := 0;
    while i < |parents|
      invariant 0 <= i <= |parents|
      invariant n == Wrap32(1 + SumTreeNodes(parents[..i]))
    {
      PrefixStep(parents, i);
      Wrap32Add(1 + SumTreeNodes(parents[..i]), parents[i].treeNodes);
      n := Wrap32(n + parents[i].treeNodes);
      i := i + 1;
    }
    TakeAll(parents);
  }

  ghost function MaxDepth(ps: seq<Plan>): (r: nat)
    ensures forall i :: 0 <= i < |ps| ==> ps[i].depth <= r
  {
    if ps == [] then 0
    else
      var m := MaxDepth(ps[..|ps| - 1]);
      if ps[|ps| - 1].depth > m then ps[|ps| - 1].depth else m
  }

  /** Hash of a parameter chooser: `planIndex.GetHashCode() + resultIndex.GetHashCode()`. */
  function ChooserHash(c: Chooser): int {
    Wrap32(c.planIndex + c.resultIndex)
  }

  function FoldChoosers(acc: int, cs: seq<Chooser>): (r: int)
    ensures IsInt32(acc) ==> IsInt32(r)
    decreases |cs|
  {
    if cs == [] then acc else FoldChoosers(Wrap32(37 * acc + ChooserHash(cs[0])), cs[1..])
  }

  class Plan {
    const uniqueId: int
    const transformer: Desc
    const parentPlans: seq<Plan>
    const parameterChoosers: seq<Chooser>
    /** A C# `int`: the parents' counts are added with wrap-around. */
    const treeNodes: int
    /** The transformer's `DefaultActiveTupleTypes` array itself, not a copy. */
    const activeTupleElements: array<bool>
    var numTimesExecuted: int
    /** The exception the plan's last execution threw, once the plan manager records it. */
    var exceptionThrown: Option<TypeName>
    /** `CanGenerateContractAssertion`: the contract states that the last transformer run
        by `Execute` reported; `None` stands for `new ContractState()`. */
    var canGenerateContractAssertion: Option<ContractState>
    ghost const depth: nat

    /** Parents are strictly lower in the DAG, `treeNodes` is one more than the parents' sum
        in 32-bit arithmetic, and there is one active flag per result slot. */
    ghost predicate Valid()
      decreases depth
    {
      && treeNodes == Wrap32(1 + SumTreeNodes(parentPlans))
      && activeTupleElements.Length == |TupleTypes(transformer)|
      && forall i :: 0 <= i < |parentPlans| ==> parentPlans[i].depth < depth && parentPlans[i].Valid()
    }

    /** No `treeNodes` sum in the DAG below this plan went past `int.MaxValue`. */
    ghost predicate SizesFit()
      requires Valid()
      decreases depth
    {
      && 1 + SumTreeNodes(parentPlans) < TwoTo31
      && forall i :: 0 <= i < |parentPlans| ==> parentPlans[i].SizesFit()
    }

    /** `defaultActive` is the transformer's own flag array: one flag per result slot, whatever
        other plans of the same transformer have switched off in it. */
    constructor (t: Desc, parents: seq<Plan>, choosers: seq<Chooser>, defaultActive: array<bool>, counter: IdCounter)
      requires forall i :: 0 <= i < |parents| ==> parents[i].Valid()
      requires defaultActive.Length == |TupleTypes(t)|
      modifies counter
      ensures Valid()
      ensures uniqueId == old(counter.next) && counter.next == old(counter.next) + 1
      ensures transformer == t && parentPlans == parents && parameterChoosers == choosers
      ensures activeTupleElements == defaultActive
      ensures treeNodes == Wrap32(1 + SumTreeNodes(parents))
      ensures numTimesExecuted == 0 && exceptionThrown == None && canGenerateContractAssertion == None
    {
      uniqueId := counter.next;
      transformer := t;
      parentPlans := parents;
      parameterChoosers := choosers;
      activeTupleElements := defaultActive;
      var n := CountTreeNodes(parents);
      treeNodes := n;
      depth := MaxDepth(parents) + 1;
      numTimesExecuted := 0;
      exceptionThrown := None;
      canGenerateContractAssertion := None;
      new;
      counter.next := counter.next + 1;
    }

    /** `Plan.Constant`: a plan with no parents and no choosers whose transformer yields a
        constant value; `defaultActive` is that transformer's one flag. */
    static method Constant(t: TypeName, v: Value, defaultActive: array<bool>, counter: IdCounter) returns (p: Plan)
      requires defaultActive.Length == 1
      modifies counter
      ensures p.Valid() && fresh(p)
      ensures p.transformer == PrimitiveValueDesc(t, v) && p.parentPlans == [] && p.parameterChoosers == []
      ensures p.treeNodes == 1 && p.activeTupleElements == defaultActive
      ensures p.uniqueId == old(counter.next) && counter.next == old(counter.next) + 1
    {
      p := new Plan(PrimitiveValueDesc(t, v), [], [], defaultActive, counter);
    }

    /** `IsActiveTupleElement`: flag `i`, or the `Util.Assert` failure for an index out of
        range. */
    function IsActiveTupleElement(i: int): (r: Result<bool>)
      reads activeTupleElements
      ensures r.Ok? <==> 0 <= i < activeTupleElements.Length
      ensures r.Err? ==> r.exception == AssertFailure
      ensures r.Ok? ==> r.value == activeTupleElements[i]
    {
      if 0 <= i < activeTupleElements.Length then Ok(activeTupleElements[i]) else Err(AssertFailure)
    }

    /** `SetActiveTupleElement`: only flag `i` changes, and the slot of a constructor's new
        object cannot be switched; either violation is the `Util.Assert` failure, and then
        nothing changes. */
    method SetActiveTupleElement(i: int, value: bool) returns (failure: Option<TypeName>)
      modifies activeTupleElements
      ensures failure.None? <==> 0 <= i < activeTupleElements.Length && (transformer.ConstructorCallDesc? ==> i != 0)
      ensures failure.Some? ==> failure.value == AssertFailure && activeTupleElements[..] == old(activeTupleElements[..])
      ensures failure.None? ==> activeTupleElements[..] == old(activeTupleElements[..])[i := value]
      ensures failure.None? ==> IsActiveTupleElement(i) == Ok(value)
    {
      if !(0 <= i < activeTupleElements.Length) || (transformer.ConstructorCallDesc? && i == 0) {
        return Some(AssertFailure);
      }
      activeTupleElements[i] := value;
      return None;
    }

    /** `Weight`: `1 / (1 + treeNodes)`, on the reals. */
    function Weight(): (r: real)
      requires treeNodes != -1
      ensures treeNodes >= 0 ==> 0.0 < r <= 1.0
      ensures treeNodes < -1 ==> r < 0.0
    {
      var d := 1.0 + treeNodes as real;
      ReciprocalSign(d);
      1.0 / d
    }

    // ------------------------------------------------------------ equality and hashing

    /** `Plan.Equals`: the same object, or equal transformers, pairwise equal parents and
        equal choosers. */
    predicate Equals(o: Plan)
      requires Valid() && o.Valid()
      ensures this == o ==> Equals(o)
      decreases depth
    {
      || this == o
      || (&& transformer == o.transformer
          && |parentPlans| == |o.parentPlans|
          && (forall i :: 0 <= i < |parentPlans| ==> parentPlans[i].Equals(o.parentPlans[i]))
          && parameterChoosers == o.parameterChoosers)
    }

    ghost function ShapeOf(): Shape
      requires Valid()
      decreases depth
    {
      Shape(transformer, seq(|parentPlans|, i requires 0 <= i < |parentPlans| => parentPlans[i].ShapeOf()), parameterChoosers)
    }

    /** `ComputeHashCode`: start from 7, fold in the transformer's hash, each parent's hash
        and, only when there is a parent, each chooser's hash, multiplying by 37 in 32-bit
        arithmetic each time; the result is a C# `int`. */
    function HashCode(th: Desc -> int): (r: int)
      requires Valid()
      ensures IsInt32(r)
      decreases depth, 1
    {
      var afterParents := HashParents(th, Wrap32(37 * 7 + th(transformer)), 0);
      if |parentPlans| > 0 then FoldChoosers(afterParents, parameterChoosers) else afterParents
    }

    function HashParents(th: Desc -> int, acc: int, i: nat): (r: int)
      requires Valid() && i <= |parentPlans|
      ensures IsInt32(acc) ==> IsInt32(r)
      decreases depth, 0, |parentPlans| - i
    {
      if i == |parentPlans| then acc
      else HashParents(th, Wrap32(37 * acc + parentPlans[i].HashCode(th)), i + 1)
    }

    // ------------------------------------------------------------ consistency

    /** `RepOk`: every chooser points at an existing parent and at an existing slot of that
        parent's result tuple, and the slot's type is the transformer's parameter type at the
        chooser's position; so there are no more choosers than parameters. */
    predicate RepOk()
      ensures RepOk() ==> |parameterChoosers| <= |ParameterTypes(transformer)|
    {
      var ok := forall i :: 0 <= i < |parameterChoosers| ==> ChooserOk(i);
      assert ok && |parameterChoosers| > 0 ==> ChooserOk(|parameterChoosers| - 1);
      ok
    }

    predicate ChooserOk(i: int)
      requires 0 <= i < |parameterChoosers|
    {
      var c := parameterChoosers[i];
      && 0 <= c.planIndex < |parentPlans|
      && 0 <= c.resultIndex < |TupleTypes(parentPlans[c.planIndex].transformer)|
      && i < |ParameterTypes(transformer)|
      && TupleTypes(parentPlans[c.planIndex].transformer)[c.resultIndex] == ParameterTypes(transformer)[i]
    }

    // ------------------------------------------------------------ execution

    /** What executing this plan yields: the parents in order, stopping at the first that
        fails, then this plan's own transformer on the parents' result tuples. */
    function Run(run: Runner): Outcome
      requires Valid()
      decreases depth, 1
    {
      RunFrom(run, 0, [])
    }

    function RunFrom(run: Runner, i: nat, results: seq<seq<Value>>): Outcome
      requires Valid() && i <= |parentPlans|
      decreases depth, 0, |parentPlans| - i
    {
      if i == |parentPlans| then run(transformer, results, parameterChoosers)
      else
        match parentPlans[i].Run(run)
        case Normal(t) => RunFrom(run, i + 1, results + [t])
        case failed => failed
    }

    /** The contract states an execution leaves in its `contractStates` out-parameter: those
        of the last transformer that ran, that is of the first failing parent's execution, or
        of this plan's own transformer when every parent succeeded. */
    function LastStates(run: Runner, states: StatesRunner): Option<ContractState>
      requires Valid()
      decreases depth, 1
    {
      LastStatesFrom(run, states, 0, [])
    }

    function LastStatesFrom(run: Runner, states: StatesRunner, i: nat, results: seq<seq<Value>>): Option<ContractState>
      requires Valid() && i <= |parentPlans|
      decreases depth, 0, |parentPlans| - i
    {
      if i == |parentPlans| then states(transformer, results, parameterChoosers)
      else
        match parentPlans[i].Run(run)
        case Normal(t) => LastStatesFrom(run, states, i + 1, results + [t])
        case _ => parentPlans[i].LastStates(run, states)
    }

    method ExecuteHelper(run: Runner, states: StatesRunner) returns (r: Outcome, contractStates: Option<ContractState>)
      requires Valid()
      ensures r == Run(run) && contractStates == LastStates(run, states)
      decreases depth
    {
      var results: seq<seq<Value>> := [];
      var i := 0;
      while i < |parentPlans|
        invariant 0 <= i <= |parentPlans|
        invariant |results| == i
        invariant Run(run) == RunFrom(run, i, results)
        invariant LastStates(run, states) == LastStatesFrom(run, states, i, results)
      {
        var pr, cs := parentPlans[i].ExecuteHelper(run, states);
        if !pr.Normal? {
          return pr, cs;
        }
        results := results + [pr.tuple];
        i := i + 1;
      }
      r := run(transformer, results, parameterChoosers);
      contractStates := states(transformer, results, parameterChoosers);
    }

    /** `Execute` counts the execution, runs the plan as `ExecuteHelper` does and keeps the
        contract states of the last transformer run in `CanGenerateContractAssertion`. */
    method Execute(run: Runner, states: StatesRunner) returns (r: Outcome)
      requires Valid()
      modifies this
      ensures numTimesExecuted == old(numTimesExecuted) + 1 && exceptionThrown == old(exceptionThrown)
      ensures r == Run(run)
      ensures canGenerateContractAssertion == LastStates(run, states)
    {
      numTimesExecuted := numTimesExecuted + 1;
      r, canGenerateContractAssertion := ExecuteHelper(run, states);
    }
  }

  // ------------------------------------------------------------ lemmas

  lemma {:induction false} SumAtLeastEach(ps: seq<Plan>, k: int)
    requires forall i :: 0 <= i < |ps| ==> ps[i].treeNodes >= 1
    requires 0 <= k < |ps|
    ensures SumTreeNodes(ps) >= ps[k].treeNodes
    ensures SumTreeNodes(ps) >= |ps|
  {
    if k < |ps| - 1 {
      SumAtLeastEach(ps[..|ps| - 1], k);
    } else if |ps| > 1 {
      SumAtLeastEach(ps[..|ps| - 1], 0);
    }
  }

  /** A plan counts itself: unless a sum below it wrapped, its size is exactly 1 plus its
      parents' sizes, at least 1 plus the number of parents, and exceeds every parent's. */
  lemma {:induction false} TreeNodesBounds(p: Plan)
    requires p.Valid() && p.SizesFit()
    ensures p.treeNodes == 1 + SumTreeNodes(p.parentPlans)
    ensures p.treeNodes >= 1 + |p.parentPlans|
    ensures forall i :: 0 <= i < |p.parentPlans| ==> p.treeNodes > p.parentPlans[i].treeNodes
    decreases p.depth
  {
    forall i | 0 <= i < |p.parentPlans| ensures p.parentPlans[i].treeNodes >= 1 {
      TreeNodesBounds(p.parentPlans[i]);
    }
    if |p.parentPlans| > 0 {
      SumAtLeastEach(p.parentPlans, 0);
    }
    assert IsInt32(1 + SumTreeNodes(p.parentPlans));
    forall i | 0 <= i < |p.parentPlans| ensures p.treeNodes > p.parentPlans[i].treeNodes {
      SumAtLeastEach(p.parentPlans, i);
    }
  }

  /** The sum of the parents' sizes, added as the constructor does, wraps once it passes
      `int.MaxValue`: parents of 2^30 and 2^30 - 1 nodes give a plan of -2^31 nodes. */
  lemma TreeNodesWrap(a: int, b: int)
    requires a == 0x4000_0000 && b == 0x3FFF_FFFF
    ensures Wrap32(1 + (a + b)) == -TwoTo31
  {
  }

  /** Unless a sum below it wrapped, a plan weighs at most 1/2, and less than each of its
      parents. */
  lemma WeightBounds(p: Plan)
    requires p.Valid() && p.SizesFit()
    ensures p.treeNodes >= 1 && 0.0 < p.Weight() <= 0.5
    ensures forall i :: 0 <= i < |p.parentPlans| ==> p.parentPlans[i].treeNodes >= 1 && p.Weight() < p.parentPlans[i].Weight()
  {
    TreeNodesBounds(p);
    WeightIs(p);
    AtMostHalf(p.treeNodes);
    forall i | 0 <= i < |p.parentPlans|
      ensures p.parentPlans[i].treeNodes >= 1 && p.Weight() < p.parentPlans[i].Weight()
    {
      ParentWeighsMore(p, i);
    }
  }

  /** One parent of a plan whose counts fit: it weighs more than the plan. */
  lemma ParentWeighsMore(p: Plan, i: int)
    requires p.Valid() && p.SizesFit() && 0 <= i < |p.parentPlans|
    ensures p.treeNodes >= 1 && p.parentPlans[i].treeNodes >= 1 && p.Weight() < p.parentPlans[i].Weight()
  {
    var q := p.parentPlans[i];
    CountsBelowParent(p, i);
    WeightIs(p);
    WeightIs(q);
    ReciprocalOfCounts(p.treeNodes, q.treeNodes);
  }

  /** A parent's count is at least 1 and smaller than the plan's. */
  lemma CountsBelowParent(p: Plan, i: int)
    requires p.Valid() && p.SizesFit() && 0 <= i < |p.parentPlans|
    ensures 1 <= p.parentPlans[i].treeNodes < p.treeNodes
  {
    TreeNodesBounds(p);
    var q := p.parentPlans[i];
    assert q.Valid() && q.SizesFit();
    TreeNodesBounds(q);
  }

  lemma AtMostHalf(a: int)
    requires a >= 1
    ensures 0.0 < 1.0 / (1.0 + a as real) <= 0.5
  {
    ReciprocalLess(1.0 + a as real, 2.0);
    assert 1.0 / 2.0 == 0.5;
  }

  lemma ReciprocalOfCounts(a: int, b: int)
    requires 1 <= b < a
    ensures 1.0 / (1.0 + a as real) < 1.0 / (1.0 + b as real)
  {
    ReciprocalLess(1.0 + a as real, 1.0 + b as real);
  }

  lemma WeightIs(p: Plan)
    requires p.treeNodes != -1
    ensures p.Weight() == 1.0 / (1.0 + p.treeNodes as real)
  {
  }

  /** The reciprocal of a real at least 1 lies in (0, 1]; that of a negative real is
      negative. */
  lemma ReciprocalSign(a: real)
    requires a != 0.0
    ensures a >= 1.0 ==> 0.0 < 1.0 / a <= 1.0
    ensures a < 0.0 ==> 1.0 / a < 0.0
  {
    if a >= 1.0 {
      ReciprocalLess(a, 1.0);
    } else if a < 0.0 {
      var x := 1.0 / a;
      assert x * a == 1.0;
    }
  }

  /** Of two positive reals, the larger has the smaller reciprocal. */
  lemma ReciprocalLess(a: real, b: real)
    requires 0.0 < b <= a
    ensures 0.0 < 1.0 / a <= 1.0 / b
    ensures b < a ==> 1.0 / a < 1.0 / b
  {
    var x, y := 1.0 / a, 1.0 / b;
    assert x * a == 1.0 && y * b == 1.0;
    assert x > 0.0;
    assert x * b <= x * a;
    assert b < a ==> x * b < x * a;
  }

  /** The result tuples of the parents of `p` from the `i`-th on, when they all execute
      normally. */
  ghost function TuplesFrom(p: Plan, run: Runner, i: nat): seq<seq<Value>>
    requires p.Valid() && i <= |p.parentPlans|
    requires forall j :: i <= j < |p.parentPlans| ==> p.parentPlans[j].Run(run).Normal?
    decreases |p.parentPlans| - i
  {
    if i == |p.parentPlans| then [] else [p.parentPlans[i].Run(run).tuple] + TuplesFrom(p, run, i + 1)
  }

  /** When every remaining parent executes normally, the outcome and the contract states
      that `Execute` keeps come from one and the same run of the plan's own transformer, on
      the parents' tuples in order. */
  lemma {:induction false} NormalParentsRunOwnTransformer(p: Plan, run: Runner, states: StatesRunner, i: nat, results: seq<seq<Value>>)
    requires p.Valid() && i <= |p.parentPlans|
    requires forall j :: i <= j < |p.parentPlans| ==> p.parentPlans[j].Run(run).Normal?
    ensures var all := results + TuplesFrom(p, run, i);
      && p.RunFrom(run, i, results) == run(p.transformer, all, p.parameterChoosers)
      && p.LastStatesFrom(run, states, i, results) == states(p.transformer, all, p.parameterChoosers)
    decreases |p.parentPlans| - i
  {
    if i == |p.parentPlans| {
      AppendNil(results);
    } else {
      var t := p.parentPlans[i].Run(run).tuple;
      NormalParentsRunOwnTransformer(p, run, states, i + 1, results + [t]);
      AppendAssoc(results, [t], TuplesFrom(p, run, i + 1));
    }
  }

  /** Plan equality is structural: two plans are `Equals` iff they have the same shape. */
  lemma {:induction false} EqualsIffSameShape(a: Plan, b: Plan)
    requires a.Valid() && b.Valid()
    ensures a.Equals(b) <==> a.ShapeOf() == b.ShapeOf()
    decreases a.depth
  {
    var sa, sb := a.ShapeOf(), b.ShapeOf();
    if a != b && |a.parentPlans| == |b.parentPlans| {
      forall i | 0 <= i < |a.parentPlans|
        ensures a.parentPlans[i].Equals(b.parentPlans[i]) <==> sa.parents[i] == sb.parents[i]
      {
        EqualsIffSameShape(a.parentPlans[i], b.parentPlans[i]);
      }
      if sa == sb {
        assert a.Equals(b);
      }
      if a.Equals(b) {
        assert sa.parents == sb.parents;
      }
    }
  }

  /** `Equals` is an equivalence relation. */
  lemma PlanEqualsEquivalence(a: Plan, b: Plan, c: Plan)
    requires a.Valid() && b.Valid() && c.Valid()
    ensures a.Equals(a)
    ensures a.Equals(b) ==> b.Equals(a)
    ensures a.Equals(b) && b.Equals(c) ==> a.Equals(c)
  {
    EqualsIffSameShape(a, a);
    EqualsIffSameShape(a, b);
    EqualsIffSameShape(b, a);
    EqualsIffSameShape(b, c);
    EqualsIffSameShape(a, c);
  }

  lemma {:induction false} HashParentsEqual(a: Plan, b: Plan, th: Desc -> int, acc: int, i: nat)
    requires a.Valid() && b.Valid() && |a.parentPlans| == |b.parentPlans| && i <= |a.parentPlans|
    requires forall j :: 0 <= j < |a.parentPlans| ==> a.parentPlans[j].HashCode(th) == b.parentPlans[j].HashCode(th)
    ensures a.HashParents(th, acc, i) == b.HashParents(th, acc, i)
    decreases |a.parentPlans| - i
  {
    if i < |a.parentPlans| {
      var h := a.parentPlans[i].HashCode(th);
      assert b.parentPlans[i].HashCode(th) == h;
      var next := Wrap32(37 * acc + h);
      HashParentsEqual(a, b, th, next, i + 1);
      assert a.HashParents(th, acc, i) == a.HashParents(th, next, i + 1);
      assert b.HashParents(th, acc, i) == b.HashParents(th, next, i + 1);
    }
  }

  /** Equal plans have equal hash codes, whatever hash the transformers have. */
  lemma {:induction false} EqualPlansEqualHashes(a: Plan, b: Plan, th: Desc -> int)
    requires a.Valid() && b.Valid() && a.Equals(b)
    ensures a.HashCode(th) == b.HashCode(th)
    decreases a.depth
  {
    if a != b {
      forall j | 0 <= j < |a.parentPlans|
        ensures a.parentPlans[j].HashCode(th) == b.parentPlans[j].HashCode(th)
      {
        EqualPlansEqualHashes(a.parentPlans[j], b.parentPlans[j], th);
      }
      assert |a.parentPlans| == |b.parentPlans|;
      HashParentsEqual(a, b, th, Wrap32(37 * 7 + th(a.transformer)), 0);
    }
  }

  /** A plan whose choosers pass `RepOk` can select every input from result tuples laid out
      as its parents' transformers declare. */
  lemma RepOkSelectsInputs(p: Plan, results: seq<seq<Value>>)
    requires p.RepOk()
    requires |results| == |p.parentPlans|
    requires forall j :: 0 <= j < |results| ==> |results[j]| == |TupleTypes(p.parentPlans[j].transformer)|
    ensures |p.parameterChoosers| <= |ParameterTypes(p.transformer)|
    ensures forall i :: 0 <= i < |p.parameterChoosers| ==> ChooserInRange(results, p.parameterChoosers[i])
  {
    if |p.parameterChoosers| > 0 {
      assert p.ChooserOk(|p.parameterChoosers| - 1);
    }
    forall i | 0 <= i < |p.parameterChoosers| ensures ChooserInRange(results, p.parameterChoosers[i]) {
      assert p.ChooserOk(i);
    }
  }

  /** Creating plans one after another gives them strictly increasing ids. */
  method CreateInOrder(t1: Desc, t2: Desc, a1: array<bool>, a2: array<bool>, counter: IdCounter) returns (p: Plan, q: Plan)
    requires a1.Length == |TupleTypes(t1)| && a2.Length == |TupleTypes(t2)|
    modifies counter
    ensures p.uniqueId < q.uniqueId && counter.next == q.uniqueId + 1
  {
    p := new Plan(t1, [], [], a1, counter);
    q := new Plan(t2, [p], [], a2, counter);
  }

  // ------------------------------------------------------------ result tuples

  /** `ResultTuple(Type, results)`: the one-element tuple of `results`, or the `Util.Assert`
      failure when `results` does not hold exactly one value. */
  function TypeResultTuple(results: seq<Value>): (r: Result<seq<Value>>)
    ensures r.Err? <==> |results| != 1
    ensures r.Err? ==> r.exception == AssertFailure
    ensures r.Ok? ==> r.value == results && |r.value| == 1
  {
    if |results| == 1 then Ok(SingleTuple(results[0])) else Err(AssertFailure)
  }

  /** `CheckParams`: an argument of a primitive parameter type is never null. */
  predicate ParamsChecked(paramTypes: seq<TypeName>, args: seq<Value>) {
    |args| <= |paramTypes|
    && forall i :: 0 <= i < |args| ==> IsPrimitiveType(paramTypes[i]) ==> !args[i].Null?
  }

  /** The tuple of a constructor call: the new object, then the arguments. */
  function ConstructorTuple(c: CtorSig, newObject: Value, args: seq<Value>): (r: seq<Value>)
    requires ParamsChecked(c.paramTypes, args)
    ensures |r| == |args| + 1 && r[0] == newObject && r[1..] == args
  {
    [newObject] + args
  }

  /** The tuple of a method call: the receiver, the return value, then the arguments. */
  function MethodTuple(m: MethodSig, receiver: Value, returnValue: Value, args: seq<Value>): (r: seq<Value>)
    requires ParamsChecked(m.paramTypes, args)
    ensures |r| == |args| + 2 && r[0] == receiver && r[1] == returnValue && r[2..] == args
  {
    [receiver, returnValue] + args
  }

  /** A full argument list fills exactly the slots `TupleTypes` declares. */
  lemma TupleLayoutsMatchTypes(m: MethodSig, c: CtorSig, recv: Value, rv: Value, newObj: Value, margs: seq<Value>, cargs: seq<Value>)
    requires ParamsChecked(m.paramTypes, margs) && |margs| == |m.paramTypes|
    requires ParamsChecked(c.paramTypes, cargs) && |cargs| == |c.paramTypes|
    ensures |MethodTuple(m, recv, rv, margs)| == |TupleTypes(MethodCallDesc(m))|
    ensures |ConstructorTuple(c, newObj, cargs)| == |TupleTypes(ConstructorCallDesc(c))|
  {
  }
}
