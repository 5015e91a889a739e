/** The two equivalence relations the reducers partition failing tests by: `EquivalenceClass`
    (same exception, same last action) and `SequenceBasedEquivalenceClass` (one test's call
    sequence signature contains the other's). A test file is given by the parts of
    `TestCase` the relations read; TestCase.cs itself is not part of this model. */
module Equivalence {
  import opened Common
  import opened CsStrings

  const ArgumentNull := "System.ArgumentNullException"
  const ArgumentOutOfRange := "System.ArgumentOutOfRangeException"

  /** The word that ends the call part of a plan line in a test file's plan comments. */
  const TransformerWord := "transformer"

  /** `TestCase.ExceptionDescription`: the exception a test reports, by its type's full name. */
  datatype ExceptionDescription = ExceptionDescription(exceptionName: TypeName)

  /** `ExceptionDescription.GetDescription(typeof(T))`. */
  function GetDescription(t: TypeName): ExceptionDescription {
    ExceptionDescription(t)
  }

  /** The fields of a parsed test file that reduction reads. */
  datatype TestCase = TestCase(
    exception: ExceptionDescription,
    lastAction: string,
    numTestLines: nat,
    testPlanCollection: seq<string>)

  /** `string.GetHashCode` and `ExceptionDescription.GetHashCode`: they vary from run to run,
      so they are parameters. A C# `int` is a 32-bit two's-complement word here. */
  datatype Hashes = Hashes(ofString: string -> bv32, ofException: ExceptionDescription -> bv32)

  /** `lastAction.GetHashCode() + 3 ^ exception.GetHashCode()`: C# binds `+` tighter than `^`,
      and the unchecked addition wraps around. Both classes hash this way. */
  function CombinedHash(h: Hashes, tc: TestCase): bv32 {
    (h.ofString(tc.lastAction) + 3) ^ h.ofException(tc.exception)
  }

  // ------------------------------------------------------------------ EquivalenceClass

  datatype EquivalenceClass = EquivalenceClass(representative: TestCase)

  /** The constructor: a null test case throws ArgumentNullException. */
  function NewEquivalenceClass(testCase: Option<TestCase>): (r: Result<EquivalenceClass>)
    ensures r.Ok? <==> testCase.Some?
    ensures r.Ok? ==> r.value.representative == testCase.value
    ensures r.Err? ==> r.exception == ArgumentNull
  {
    if testCase.None? then Err(ArgumentNull) else Ok(EquivalenceClass(testCase.value))
  }

  /** What `EquivalenceClass.Equals` compares: the exception and the last action. */
  function ClassKey(tc: TestCase): (ExceptionDescription, string) {
    (tc.exception, tc.lastAction)
  }

  /** `Equals(object obj)`; `obj` is None when it is null or not an EquivalenceClass. */
  function ClassEquals(c: EquivalenceClass, obj: Option<EquivalenceClass>): (r: bool)
    ensures r <==> obj.Some? && c.representative.exception == obj.value.representative.exception
                     && c.representative.lastAction == obj.value.representative.lastAction
  {
    match obj
    case None => false
    case Some(other) =>
      if c.representative.exception != other.representative.exception then false
      else c.representative.lastAction == other.representative.lastAction
  }

  function ClassHash(h: Hashes, c: EquivalenceClass): bv32 {
    CombinedHash(h, c.representative)
  }

  /** `Equals` is an equivalence relation on classes, and it compares exactly the key
      (exception, last action): the dictionary of the reducer relies on it. */
  lemma ClassEqualsIsEquivalence(a: EquivalenceClass, b: EquivalenceClass, c: EquivalenceClass)
    ensures ClassEquals(a, Some(a))
    ensures ClassEquals(a, Some(b)) <==> ClassEquals(b, Some(a))
    ensures ClassEquals(a, Some(b)) && ClassEquals(b, Some(c)) ==> ClassEquals(a, Some(c))
    ensures ClassEquals(a, Some(b)) <==> ClassKey(a.representative) == ClassKey(b.representative)
  {
  }

  /** Equal classes hash equally, whatever the string and exception hashes are. */
  lemma ClassEqualsHashes(h: Hashes, a: EquivalenceClass, b: EquivalenceClass)
    ensures ClassEquals(a, Some(b)) ==> ClassHash(h, a) == ClassHash(h, b)
  {
  }

  // ------------------------------------------------------- SequenceBasedEquivalenceClass

  datatype SequenceClass = SequenceClass(representative: TestCase)

  /** The constructor of SequenceBasedEquivalenceClass: a null test case throws. */
  function NewSequenceClass(testCase: Option<TestCase>): (r: Result<SequenceClass>)
    ensures r.Ok? <==> testCase.Some?
    ensures r.Ok? ==> r.value.representative == testCase.value
    ensures r.Err? ==> r.exception == ArgumentNull
  {
    if testCase.None? then Err(ArgumentNull) else Ok(SequenceClass(testCase.value))
  }

  /** `planline.Substring(0, planline.IndexOf("transformer"))`: the text before the first
      "transformer"; without one, `IndexOf` gives -1 and `Substring` throws. */
  function PlanLinePrefix(line: string): (r: Result<string>)
    ensures r.Err? <==> !Contains(line, TransformerWord)
    ensures r.Err? ==> r.exception == ArgumentOutOfRange
    ensures r.Ok? ==> StartsWith(line, r.value + TransformerWord)
    ensures r.Ok? ==> !Contains(r.value, TransformerWord)
  {
    var at := IndexOf(line, TransformerWord);
    if at < 0 then Err(ArgumentOutOfRange)
    else
      var prefix := line[..at];
      assert line[..at + |TransformerWord|] == prefix + TransformerWord;
      forall j | 0 <= j <= |prefix|
        ensures !OccursAt(prefix, TransformerWord, j)
      {
        if j + |TransformerWord| <= |prefix| {
          assert prefix[j..j + |TransformerWord|] == line[j..j + |TransformerWord|];
          assert !OccursAt(line, TransformerWord, j);
        }
      }
      Ok(prefix)
  }

  /** What `getSequence` computes: the prefixes of the plan lines, concatenated in order; the
      first line without "transformer" makes it throw. */
  function Signature(testplans: seq<string>): Result<string>
  {
    if |testplans| == 0 then Ok("")
    else
      match Signature(testplans[..|testplans| - 1])
      case Err(e) => Err(e)
      case Ok(front) =>
        match PlanLinePrefix(testplans[|testplans| - 1])
        case Err(e) => Err(e)
        case Ok(p) => Ok(front + p)
  }

  /** `getSequence` throws exactly when some plan line lacks "transformer", and then with
      ArgumentOutOfRangeException. */
  lemma {:induction false} SignatureFails(testplans: seq<string>)
    ensures Signature(testplans).Err? <==> exists i :: 0 <= i < |testplans| && !Contains(testplans[i], TransformerWord)
    ensures Signature(testplans).Err? ==> Signature(testplans).exception == ArgumentOutOfRange
  {
    if |testplans| > 0 {
      var front := testplans[..|testplans| - 1];
      SignatureFails(front);
      if Signature(front).Err? {
        var i :| 0 <= i < |front| && !Contains(front[i], TransformerWord);
        assert testplans[i] == front[i];
      } else if Signature(testplans).Ok? {
        forall i | 0 <= i < |testplans|
          ensures Contains(testplans[i], TransformerWord)
        {
          if i < |front| {
            assert testplans[i] == front[i];
          }
        }
      }
    }
  }

  /** One more plan line adds its prefix at the end. */
  lemma SignatureSnoc(xs: seq<string>, x: string)
    ensures Signature(xs + [x]).Ok? <==> Signature(xs).Ok? && PlanLinePrefix(x).Ok?
    ensures Signature(xs + [x]).Ok? ==> Signature(xs + [x]).value == Signature(xs).value + PlanLinePrefix(x).value
  {
    SnocFront(xs, x);
  }

  /** The signature of a concatenation of plan collections is the concatenation of their
      signatures: each line contributes its own prefix, independently of the others. */
  lemma {:induction false} SignatureAppend(a: seq<string>, b: seq<string>)
    requires Signature(a).Ok? && Signature(b).Ok?
    ensures Signature(a + b) == Ok(Signature(a).value + Signature(b).value)
    decreases |b|
  {
    if |b| == 0 {
      AppendNil(a);
      AppendNil(Signature(a).value);
    } else {
      var bFront, x := b[..|b| - 1], b[|b| - 1];
      SnocSplit(b);
      SignatureSnoc(bFront, x);
      SignatureAppend(a, bFront);
      AppendStep(a, bFront, x);
    }
  }

  lemma AppendStep(a: seq<string>, bFront: seq<string>, x: string)
    requires Signature(a).Ok? && Signature(bFront).Ok? && PlanLinePrefix(x).Ok?
    requires Signature(a + bFront) == Ok(Signature(a).value + Signature(bFront).value)
    ensures Signature(a + (bFront + [x])) == Ok(Signature(a).value + Signature(bFront + [x]).value)
  {
    var ab := a + bFront;
    AppendAssoc(a, bFront, [x]);
    SignatureSnoc(ab, x);
    SignatureSnoc(bFront, x);
    AppendAssoc(Signature(a).value, Signature(bFront).value, PlanLinePrefix(x).value);
  }

  /** `getSequence` as the source writes it: a loop that appends each line's prefix. */
  method GetSequence(testplans: seq<string>) returns (r: Result<string>)
    ensures r == Signature(testplans)
  {
    var testSequence := "";
    var i := 0;
    while i < |testplans|
      invariant 0 <= i <= |testplans|
      invariant Signature(testplans[..i]) == Ok(testSequence)
    {
      PrefixStep(testplans, i);
      var test := PlanLinePrefix(testplans[i]);
      if test.Err? {
        SignatureFails(testplans);
        SignatureFails(testplans[..i + 1]);
        assert !Contains(testplans[..i + 1][i], TransformerWord);
        return Err(test.exception);
      }
      testSequence := testSequence + test.value;
      i := i + 1;
    }
    TakeAll(testplans);
    return Ok(testSequence);
  }

  /** Containment in either direction, the relation `Equals` decides on two signatures. */
  predicate Overlaps(s1: string, s2: string) {
    Contains(s1, s2) || Contains(s2, s1)
  }

  /** `Equals(object obj)` of SequenceBasedEquivalenceClass: false for null or another type;
      otherwise both signatures are computed, which can throw, and compared by containment. */
  function SequenceEquals(c: SequenceClass, obj: Option<SequenceClass>): (r: Result<bool>)
    ensures obj.None? ==> r == Ok(false)
    ensures obj.Some? ==> (r.Err? <==> Signature(c.representative.testPlanCollection).Err?
                                       || Signature(obj.value.representative.testPlanCollection).Err?)
    ensures r == Ok(true) <==> obj.Some? && Signature(c.representative.testPlanCollection).Ok?
                                && Signature(obj.value.representative.testPlanCollection).Ok?
                                && Overlaps(Signature(c.representative.testPlanCollection).value,
                                            Signature(obj.value.representative.testPlanCollection).value)
  {
    match obj
    case None => Ok(false)
    case Some(other) =>
      match Signature(c.representative.testPlanCollection)
      case Err(e) => Err(e)
      case Ok(testPlans) =>
        match Signature(other.representative.testPlanCollection)
        case Err(e) => Err(e)
        case Ok(testPlans2) =>
          if Contains(testPlans, testPlans2) then Ok(true)
          else Ok(Contains(testPlans2, testPlans))
  }

  function SequenceHash(h: Hashes, c: SequenceClass): bv32 {
    CombinedHash(h, c.representative)
  }

  lemma ContainsItself(s: string)
    ensures Contains(s, s)
  {
    assert OccursAt(s, s, 0);
  }

  /** The containment relation is reflexive (on tests whose signature can be computed) and
      symmetric, exceptions included. */
  lemma SequenceEqualsReflexiveSymmetric(a: SequenceClass, b: SequenceClass)
    ensures Signature(a.representative.testPlanCollection).Ok? ==> SequenceEquals(a, Some(a)) == Ok(true)
    ensures SequenceEquals(a, Some(b)) == SequenceEquals(b, Some(a))
  {
    if Signature(a.representative.testPlanCollection).Ok? {
      ContainsItself(Signature(a.representative.testPlanCollection).value);
    }
    SignatureFails(a.representative.testPlanCollection);
    SignatureFails(b.representative.testPlanCollection);
  }

  /** Containment is not transitive: "a" lies within "ab", and "ab" contains "b", but neither
      of "a" and "b" contains the other. So which class a test joins depends on the order in
      which the reducer meets the tests. */
  lemma OverlapsNotTransitive()
    ensures Overlaps("a", "ab") && Overlaps("ab", "b") && !Overlaps("a", "b")
  {
    assert OccursAt("ab", "a", 0);
    assert OccursAt("ab", "b", 1);
    forall i ensures !OccursAt("a", "b", i) && !OccursAt("b", "a", i) {
      if 0 <= i && i + 1 <= 1 {
        assert "a"[i..i + 1] == "a" && "b"[i..i + 1] == "b";
      }
    }
  }

  /** The hash reads only the exception and the last action: two tests whose signatures
      overlap but that end differently fall, as a rule, into different buckets and so into
      different classes, while the relation alone would join them. */
  lemma SequenceHashIgnoresPlans(h: Hashes, a: SequenceClass, b: SequenceClass)
    requires ClassKey(a.representative) == ClassKey(b.representative)
    ensures SequenceHash(h, a) == SequenceHash(h, b)
  {
  }
}
