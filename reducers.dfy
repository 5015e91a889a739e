/** `Reducer.Reduce` and `SequenceBasedReducer.Reduce`: walk the test files in order, keep one
    representative per equivalence class, and demote every other parseable file by renaming it
    to `<name>.reduced`. The two dictionaries of the source (class to test case, class to file)
    always share their keys, so they are one sequence of partitions here, in insertion order,
    which is also the order in which `Values` lists them. */
module Reducers {
  import opened Common
  import opened CsStrings
  import opened Equivalence

  type FileName = string

  const ReducedSuffix := ".reduced"

  /** `FileInfo.MoveTo(from, to)`. */
  datatype Move = Move(from: FileName, to: FileName)

  /** Renaming a demoted test. */
  function Demote(f: FileName): (m: Move)
    ensures m.from == f && EndsWith(m.to, ReducedSuffix) && StartsWith(m.to, f)
  {
    assert (f + ReducedSuffix)[..|f|] == f;
    Move(f, f + ReducedSuffix)
  }

  /** `new TestCase(file)`: None when the file does not hold a well-formed test, that is when
      the constructor throws (TestCase.cs is not part of this model). */
  type Parser = FileName -> Option<TestCase>

  ghost predicate Parses(parse: Parser, tests: seq<FileName>, j: int) {
    0 <= j < |tests| && parse(tests[j]).Some?
  }

  ghost function TestAt(parse: Parser, tests: seq<FileName>, j: int): TestCase
    requires Parses(parse, tests, j)
  {
    parse(tests[j]).value
  }

  /** Every parseable file among the first `i` is either a representative or demoted, never
      both; unparseable files are neither; each move renames a demoted file. */
  ghost predicate Accounted(parse: Parser, tests: seq<FileName>, i: int, chosen: seq<nat>,
                            demoted: seq<nat>, moves: seq<Move>)
  {
    && (forall k :: 0 <= k < |chosen| ==> chosen[k] < i && Parses(parse, tests, chosen[k]))
    && |moves| == |demoted|
    && (forall m :: 0 <= m < |demoted| ==>
          demoted[m] < i && Parses(parse, tests, demoted[m]) && moves[m] == Demote(tests[demoted[m]]))
    && (forall j :: 0 <= j < i && j < |tests| ==> (Parses(parse, tests, j) <==> j in chosen || j in demoted))
    && (forall k, m :: 0 <= k < |chosen| && 0 <= m < |demoted| ==> chosen[k] != demoted[m])
  }

  /** A file that opens a new class becomes a representative. */
  lemma AccountNew(parse: Parser, tests: seq<FileName>, i: int, chosen: seq<nat>, demoted: seq<nat>, moves: seq<Move>)
    requires 0 <= i < |tests| && parse(tests[i]).Some?
    requires Accounted(parse, tests, i, chosen, demoted, moves)
    ensures Accounted(parse, tests, i + 1, chosen + [i], demoted, moves)
  {
    var chosen' := chosen + [i];
    forall j | 0 <= j < i + 1
      ensures Parses(parse, tests, j) <==> j in chosen' || j in demoted
    {
      if j < i {
        assert j in chosen' <==> j in chosen;
      } else {
        assert chosen'[|chosen|] == i;
      }
    }
  }

  /** A file that beats the representative at slot `k` takes its place; the old one is renamed. */
  lemma AccountReplace(parse: Parser, tests: seq<FileName>, i: int, k: int, chosen: seq<nat>, demoted: seq<nat>,
                       moves: seq<Move>)
    requires 0 <= i < |tests| && parse(tests[i]).Some?
    requires 0 <= k < |chosen| && forall l :: 0 <= l < |chosen| && l != k ==> chosen[l] != chosen[k]
    requires Accounted(parse, tests, i, chosen, demoted, moves)
    ensures Accounted(parse, tests, i + 1, chosen[k := i], demoted + [chosen[k]], moves + [Demote(tests[chosen[k]])])
  {
    var chosen', demoted' := chosen[k := i], demoted + [chosen[k]];
    forall j | 0 <= j < i + 1
      ensures Parses(parse, tests, j) <==> j in chosen' || j in demoted'
    {
      if j == i {
        assert chosen'[k] == i;
      } else if j in chosen {
        var l :| 0 <= l < |chosen| && chosen[l] == j;
        if l == k {
          assert demoted'[|demoted|] == j;
        } else {
          assert chosen'[l] == j;
        }
      } else if j in demoted {
        var m :| 0 <= m < |demoted| && demoted[m] == j;
        assert demoted'[m] == j;
      } else {
        assert forall l :: 0 <= l < |chosen| && l != k ==> chosen'[l] == chosen[l];
        assert forall m :: 0 <= m < |demoted| ==> demoted'[m] == demoted[m];
      }
    }
  }

  /** A file that does not beat its class's representative is renamed. */
  lemma AccountDemote(parse: Parser, tests: seq<FileName>, i: int, chosen: seq<nat>, demoted: seq<nat>, moves: seq<Move>)
    requires 0 <= i < |tests| && parse(tests[i]).Some?
    requires Accounted(parse, tests, i, chosen, demoted, moves)
    ensures Accounted(parse, tests, i + 1, chosen, demoted + [i], moves + [Demote(tests[i])])
  {
    var demoted' := demoted + [i];
    forall j | 0 <= j < i + 1
      ensures Parses(parse, tests, j) <==> j in chosen || j in demoted'
    {
      if j == i {
        assert demoted'[|demoted|] == i;
      } else if j in demoted {
        var m :| 0 <= m < |demoted| && demoted[m] == j;
        assert demoted'[m] == j;
      }
    }
  }

  // ------------------------------------------------------------------ Reducer

  datatype Partition = Partition(key: EquivalenceClass, representative: TestCase, file: FileName)

  function Files(parts: seq<Partition>): (r: seq<FileName>)
    ensures |r| == |parts| && forall k :: 0 <= k < |parts| ==> r[k] == parts[k].file
  {
    seq(|parts|, k requires 0 <= k < |parts| => parts[k].file)
  }

  /** The dictionary lookup: hash codes are compared first and `Equals(storedKey, key)` is
      called only on equal ones; keys are tried from the most recently added, as the .NET
      Dictionary chains them. Since equal classes hash equally, the lookup finds a key exactly
      when some stored key is equal. */
  function FindClass(h: Hashes, parts: seq<Partition>, p: EquivalenceClass): (r: Option<nat>)
    ensures r.Some? ==> r.value < |parts| && ClassEquals(parts[r.value].key, Some(p))
    ensures r.None? <==> forall k :: 0 <= k < |parts| ==> !ClassEquals(parts[k].key, Some(p))
  {
    if |parts| == 0 then None
    else
      var last := |parts| - 1;
      if ClassHash(h, parts[last].key) == ClassHash(h, p) && ClassEquals(parts[last].key, Some(p)) then
        Some(last)
      else
        ClassEqualsHashes(h, parts[last].key, p);
        FindClass(h, parts[..last], p)
  }

  /** Each partition holds the test at its position in `tests`, keyed by a class equal to it. */
  ghost predicate PartitionsAt(parse: Parser, tests: seq<FileName>, parts: seq<Partition>, chosen: seq<nat>) {
    && |parts| == |chosen|
    && forall k :: 0 <= k < |chosen| ==>
         (&& chosen[k] < |tests| && Parses(parse, tests, chosen[k])
          && parts[k].representative == TestAt(parse, tests, chosen[k])
          && parts[k].file == tests[chosen[k]]
          && ClassKey(parts[k].key.representative) == ClassKey(parts[k].representative))
  }

  /** One partition per class. */
  ghost predicate DistinctClasses(parts: seq<Partition>) {
    forall k, l :: 0 <= k < l < |parts| ==> ClassKey(parts[k].representative) != ClassKey(parts[l].representative)
  }

  /** Every class met among the first `i` files has its partition. */
  ghost predicate Covered(parse: Parser, tests: seq<FileName>, i: int, parts: seq<Partition>) {
    forall j :: 0 <= j < i && Parses(parse, tests, j) ==>
      exists k :: 0 <= k < |parts| && ClassKey(parts[k].representative) == ClassKey(TestAt(parse, tests, j))
  }

  /** Among the first `i` files, each representative has the fewest lines of its class, and
      no earlier file of its class has as few. */
  ghost predicate Fewest(parse: Parser, tests: seq<FileName>, i: int, parts: seq<Partition>, chosen: seq<nat>)
    requires |parts| == |chosen|
  {
    forall k, j ::
      (0 <= k < |parts| && 0 <= j < i && Parses(parse, tests, j)
       && ClassKey(TestAt(parse, tests, j)) == ClassKey(parts[k].representative)) ==>
      (&& parts[k].representative.numTestLines <= TestAt(parse, tests, j).numTestLines
       && (j < chosen[k] ==> parts[k].representative.numTestLines < TestAt(parse, tests, j).numTestLines))
  }

  ghost predicate ClassesKept(parse: Parser, tests: seq<FileName>, i: int, parts: seq<Partition>,
                              chosen: seq<nat>)
  {
    && PartitionsAt(parse, tests, parts, chosen)
    && DistinctClasses(parts)
    && Covered(parse, tests, i, parts)
    && Fewest(parse, tests, i, parts, chosen)
  }

  lemma SkipStep(parse: Parser, tests: seq<FileName>, i: int, parts: seq<Partition>, chosen: seq<nat>,
                 demoted: seq<nat>, moves: seq<Move>)
    requires 0 <= i < |tests| && parse(tests[i]).None?
    requires ClassesKept(parse, tests, i, parts, chosen) && Accounted(parse, tests, i, chosen, demoted, moves)
    ensures ClassesKept(parse, tests, i + 1, parts, chosen) && Accounted(parse, tests, i + 1, chosen, demoted, moves)
  {
  }

  lemma NewClassStep(parse: Parser, tests: seq<FileName>, i: int, parts: seq<Partition>, chosen: seq<nat>,
                     demoted: seq<nat>, moves: seq<Move>, parts': seq<Partition>)
    requires 0 <= i < |tests| && parse(tests[i]).Some?
    requires forall k :: 0 <= k < |parts| ==>
               ClassKey(parts[k].key.representative) != ClassKey(parse(tests[i]).value)
    requires ClassesKept(parse, tests, i, parts, chosen) && Accounted(parse, tests, i, chosen, demoted, moves)
    requires parts' == parts + [Partition(EquivalenceClass(parse(tests[i]).value), parse(tests[i]).value, tests[i])]
    ensures ClassesKept(parse, tests, i + 1, parts', chosen + [i])
    ensures Accounted(parse, tests, i + 1, chosen + [i], demoted, moves)
  {
    NewClassCovered(parse, tests, i, parts, chosen);
    NewClassFewest(parse, tests, i, parts, chosen);
    AccountNew(parse, tests, i, chosen, demoted, moves);
    NewClassShape(parse, tests, i, parts, chosen, parts');
  }

  lemma NewClassShape(parse: Parser, tests: seq<FileName>, i: int, parts: seq<Partition>, chosen: seq<nat>,
                      parts': seq<Partition>)
    requires 0 <= i < |tests| && parse(tests[i]).Some?
    requires forall k :: 0 <= k < |parts| ==>
               ClassKey(parts[k].key.representative) != ClassKey(parse(tests[i]).value)
    requires PartitionsAt(parse, tests, parts, chosen) && DistinctClasses(parts)
    requires parts' == parts + [Partition(EquivalenceClass(parse(tests[i]).value), parse(tests[i]).value, tests[i])]
    ensures PartitionsAt(parse, tests, parts', chosen + [i]) && DistinctClasses(parts')
  {
  }

  lemma NewClassCovered(parse: Parser, tests: seq<FileName>, i: int, parts: seq<Partition>, chosen: seq<nat>)
    requires 0 <= i < |tests| && parse(tests[i]).Some?
    requires Covered(parse, tests, i, parts)
    ensures var tc := parse(tests[i]).value;
            Covered(parse, tests, i + 1, parts + [Partition(EquivalenceClass(tc), tc, tests[i])])
  {
    var tc := parse(tests[i]).value;
    var parts' := parts + [Partition(EquivalenceClass(tc), tc, tests[i])];
    forall j | 0 <= j < i + 1 && Parses(parse, tests, j)
      ensures exists k :: 0 <= k < |parts'| && ClassKey(parts'[k].representative) == ClassKey(TestAt(parse, tests, j))
    {
      if j == i {
        assert ClassKey(parts'[|parts|].representative) == ClassKey(TestAt(parse, tests, j));
      } else {
        var k :| 0 <= k < |parts| && ClassKey(parts[k].representative) == ClassKey(TestAt(parse, tests, j));
        assert parts'[k] == parts[k];
      }
    }
  }

  lemma NewClassFewest(parse: Parser, tests: seq<FileName>, i: int, parts: seq<Partition>, chosen: seq<nat>)
    requires 0 <= i < |tests| && parse(tests[i]).Some?
    requires forall k :: 0 <= k < |parts| ==> ClassKey(parts[k].representative) != ClassKey(parse(tests[i]).value)
    requires |parts| == |chosen| && Covered(parse, tests, i, parts) && Fewest(parse, tests, i, parts, chosen)
    ensures var tc := parse(tests[i]).value;
            Fewest(parse, tests, i + 1, parts + [Partition(EquivalenceClass(tc), tc, tests[i])], chosen + [i])
  {
    var tc := parse(tests[i]).value;
    var parts' := parts + [Partition(EquivalenceClass(tc), tc, tests[i])];
    var chosen' := chosen + [i];
    forall k, j | 0 <= k < |parts'| && 0 <= j < i + 1 && Parses(parse, tests, j)
                  && ClassKey(TestAt(parse, tests, j)) == ClassKey(parts'[k].representative)
      ensures parts'[k].representative.numTestLines <= TestAt(parse, tests, j).numTestLines
      ensures j < chosen'[k] ==> parts'[k].representative.numTestLines < TestAt(parse, tests, j).numTestLines
    {
      if k == |parts| {
        if j < i {
          // an earlier file of the new class would have a partition already
          assert false;
        }
      } else {
        assert parts'[k] == parts[k] && chosen'[k] == chosen[k];
      }
    }
  }

  lemma ReplaceStep(parse: Parser, tests: seq<FileName>, i: int, k: int, parts: seq<Partition>, chosen: seq<nat>,
                    demoted: seq<nat>, moves: seq<Move>)
    requires 0 <= i < |tests| && parse(tests[i]).Some?
    requires 0 <= k < |parts| && ClassKey(parts[k].key.representative) == ClassKey(parse(tests[i]).value)
    requires parse(tests[i]).value.numTestLines < parts[k].representative.numTestLines
    requires ClassesKept(parse, tests, i, parts, chosen) && Accounted(parse, tests, i, chosen, demoted, moves)
    ensures ClassesKept(parse, tests, i + 1, parts[k := Partition(parts[k].key, parse(tests[i]).value, tests[i])], chosen[k := i])
    ensures Accounted(parse, tests, i + 1, chosen[k := i], demoted + [chosen[k]], moves + [Demote(parts[k].file)])
  {
    ReplaceShape(parse, tests, i, k, parts, chosen);
    ReplaceCovered(parse, tests, i, k, parts);
    ReplaceFewest(parse, tests, i, k, parts, chosen);
    AccountReplace(parse, tests, i, k, chosen, demoted, moves);
  }

  lemma ReplaceShape(parse: Parser, tests: seq<FileName>, i: int, k: int, parts: seq<Partition>, chosen: seq<nat>)
    requires 0 <= i < |tests| && parse(tests[i]).Some?
    requires 0 <= k < |parts| && ClassKey(parts[k].key.representative) == ClassKey(parse(tests[i]).value)
    requires PartitionsAt(parse, tests, parts, chosen) && DistinctClasses(parts)
    ensures PartitionsAt(parse, tests, parts[k := Partition(parts[k].key, parse(tests[i]).value, tests[i])], chosen[k := i])
    ensures DistinctClasses(parts[k := Partition(parts[k].key, parse(tests[i]).value, tests[i])])
    // the representative to be demoted is at no other partition: that one would be of the same class
    ensures forall l :: 0 <= l < |chosen| && l != k ==> chosen[l] != chosen[k]
    ensures parts[k].file == tests[chosen[k]]
  {
  }

  lemma ReplaceCovered(parse: Parser, tests: seq<FileName>, i: int, k: int, parts: seq<Partition>)
    requires 0 <= i < |tests| && parse(tests[i]).Some?
    requires 0 <= k < |parts| && ClassKey(parts[k].representative) == ClassKey(parse(tests[i]).value)
    requires Covered(parse, tests, i, parts)
    ensures Covered(parse, tests, i + 1, parts[k := Partition(parts[k].key, parse(tests[i]).value, tests[i])])
  {
    var parts' := parts[k := Partition(parts[k].key, parse(tests[i]).value, tests[i])];
    forall j | 0 <= j < i + 1 && Parses(parse, tests, j)
      ensures exists l :: 0 <= l < |parts'| && ClassKey(parts'[l].representative) == ClassKey(TestAt(parse, tests, j))
    {
      if j == i {
        assert ClassKey(parts'[k].representative) == ClassKey(TestAt(parse, tests, j));
      } else {
        var l :| 0 <= l < |parts| && ClassKey(parts[l].representative) == ClassKey(TestAt(parse, tests, j));
        assert ClassKey(parts'[l].representative) == ClassKey(parts[l].representative);
      }
    }
  }

  lemma ReplaceFewest(parse: Parser, tests: seq<FileName>, i: int, k: int, parts: seq<Partition>, chosen: seq<nat>)
    requires 0 <= i < |tests| && parse(tests[i]).Some?
    requires 0 <= k < |parts| && ClassKey(parts[k].representative) == ClassKey(parse(tests[i]).value)
    requires parse(tests[i]).value.numTestLines < parts[k].representative.numTestLines
    requires PartitionsAt(parse, tests, parts, chosen) && DistinctClasses(parts) && Fewest(parse, tests, i, parts, chosen)
    ensures Fewest(parse, tests, i + 1, parts[k := Partition(parts[k].key, parse(tests[i]).value, tests[i])], chosen[k := i])
  {
    var tc := parse(tests[i]).value;
    var parts' := parts[k := Partition(parts[k].key, tc, tests[i])];
    var chosen' := chosen[k := i];
    forall l, j | 0 <= l < |parts'| && 0 <= j < i + 1 && Parses(parse, tests, j)
                  && ClassKey(TestAt(parse, tests, j)) == ClassKey(parts'[l].representative)
      ensures parts'[l].representative.numTestLines <= TestAt(parse, tests, j).numTestLines
      ensures j < chosen'[l] ==> parts'[l].representative.numTestLines < TestAt(parse, tests, j).numTestLines
    {
      if l == k {
        if j < i {
          assert parts[k].representative.numTestLines <= TestAt(parse, tests, j).numTestLines;
        }
      } else if j == i {
        assert false;
      }
    }
  }

  lemma DemoteStep(parse: Parser, tests: seq<FileName>, i: int, k: int, parts: seq<Partition>, chosen: seq<nat>,
                   demoted: seq<nat>, moves: seq<Move>)
    requires 0 <= i < |tests| && parse(tests[i]).Some?
    requires 0 <= k < |parts| && ClassKey(parts[k].key.representative) == ClassKey(parse(tests[i]).value)
    requires parts[k].representative.numTestLines <= parse(tests[i]).value.numTestLines
    requires ClassesKept(parse, tests, i, parts, chosen) && Accounted(parse, tests, i, chosen, demoted, moves)
    ensures ClassesKept(parse, tests, i + 1, parts, chosen)
    ensures Accounted(parse, tests, i + 1, chosen, demoted + [i], moves + [Demote(tests[i])])
  {
    assert Covered(parse, tests, i + 1, parts) by {
      forall j | 0 <= j < i + 1 && Parses(parse, tests, j)
        ensures exists l :: 0 <= l < |parts| && ClassKey(parts[l].representative) == ClassKey(TestAt(parse, tests, j))
      {
        if j == i {
          assert ClassKey(parts[k].representative) == ClassKey(TestAt(parse, tests, j));
        }
      }
    }
    assert Fewest(parse, tests, i + 1, parts, chosen) by {
      forall l, j | 0 <= l < |parts| && 0 <= j < i + 1 && Parses(parse, tests, j)
                    && ClassKey(TestAt(parse, tests, j)) == ClassKey(parts[l].representative)
        ensures parts[l].representative.numTestLines <= TestAt(parse, tests, j).numTestLines
        ensures j < chosen[l] ==> parts[l].representative.numTestLines < TestAt(parse, tests, j).numTestLines
      {
        if j == i && l != k {
          assert false;
        }
      }
    }
    AccountDemote(parse, tests, i, chosen, demoted, moves);
  }

  // ------------------------------------------------------------------ the result

  /** The representatives are of pairwise distinct classes. */
  ghost predicate OnePerClass(parse: Parser, tests: seq<FileName>, chosen: seq<nat>)
    requires forall k :: 0 <= k < |chosen| ==> Parses(parse, tests, chosen[k])
  {
    forall k, l :: 0 <= k < l < |chosen| ==>
      ClassKey(TestAt(parse, tests, chosen[k])) != ClassKey(TestAt(parse, tests, chosen[l]))
  }

  /** Every parseable file's class has a representative. */
  ghost predicate EveryClassKept(parse: Parser, tests: seq<FileName>, chosen: seq<nat>)
    requires forall k :: 0 <= k < |chosen| ==> Parses(parse, tests, chosen[k])
  {
    forall j :: Parses(parse, tests, j) ==>
      exists k :: 0 <= k < |chosen| && ClassKey(TestAt(parse, tests, chosen[k])) == ClassKey(TestAt(parse, tests, j))
  }

  /** Each representative has the fewest lines of its class, and strictly fewer than every
      earlier file of its class. */
  ghost predicate FewestLines(parse: Parser, tests: seq<FileName>, chosen: seq<nat>)
    requires forall k :: 0 <= k < |chosen| ==> Parses(parse, tests, chosen[k])
  {
    forall k, j ::
      (0 <= k < |chosen| && Parses(parse, tests, j)
       && ClassKey(TestAt(parse, tests, j)) == ClassKey(TestAt(parse, tests, chosen[k]))) ==>
      (&& TestAt(parse, tests, chosen[k]).numTestLines <= TestAt(parse, tests, j).numTestLines
       && (j < chosen[k] ==> TestAt(parse, tests, chosen[k]).numTestLines < TestAt(parse, tests, j).numTestLines))
  }

  /** Once every file is processed, the invariants speak of the returned files. */
  lemma KeptAtEnd(parse: Parser, tests: seq<FileName>, parts: seq<Partition>, chosen: seq<nat>)
    requires ClassesKept(parse, tests, |tests|, parts, chosen)
    ensures forall k :: 0 <= k < |chosen| ==> Parses(parse, tests, chosen[k])
    ensures OnePerClass(parse, tests, chosen) && EveryClassKept(parse, tests, chosen)
    ensures FewestLines(parse, tests, chosen)
  {
    assert PartitionsAt(parse, tests, parts, chosen);
    assert OnePerClass(parse, tests, chosen) by {
      forall k, l | 0 <= k < l < |chosen|
        ensures ClassKey(TestAt(parse, tests, chosen[k])) != ClassKey(TestAt(parse, tests, chosen[l]))
      {
        assert parts[k].representative == TestAt(parse, tests, chosen[k]);
        assert parts[l].representative == TestAt(parse, tests, chosen[l]);
      }
    }
    assert EveryClassKept(parse, tests, chosen) by {
      forall j | Parses(parse, tests, j)
        ensures exists k :: 0 <= k < |chosen| && ClassKey(TestAt(parse, tests, chosen[k])) == ClassKey(TestAt(parse, tests, j))
      {
        var k :| 0 <= k < |parts| && ClassKey(parts[k].representative) == ClassKey(TestAt(parse, tests, j));
        assert ClassKey(TestAt(parse, tests, chosen[k])) == ClassKey(TestAt(parse, tests, j));
      }
    }
    assert FewestLines(parse, tests, chosen) by {
      forall k, j | 0 <= k < |chosen| && Parses(parse, tests, j)
                    && ClassKey(TestAt(parse, tests, j)) == ClassKey(TestAt(parse, tests, chosen[k]))
        ensures TestAt(parse, tests, chosen[k]).numTestLines <= TestAt(parse, tests, j).numTestLines
        ensures j < chosen[k] ==> TestAt(parse, tests, chosen[k]).numTestLines < TestAt(parse, tests, j).numTestLines
      {
        assert parts[k].representative == TestAt(parse, tests, chosen[k]);
      }
    }
  }

  /** One pass of the loop of `Reducer.Reduce`: the file at position `i` is skipped, opens a
      new class, replaces its class's representative, or is demoted. */
  method Admit(h: Hashes, tests: seq<FileName>, parse: Parser, i: int, parts: seq<Partition>, moves: seq<Move>,
               ghost chosen: seq<nat>, ghost demoted: seq<nat>)
    returns (parts': seq<Partition>, moves': seq<Move>, ghost chosen': seq<nat>, ghost demoted': seq<nat>)
    requires 0 <= i < |tests| && |parts| <= i
    requires ClassesKept(parse, tests, i, parts, chosen) && Accounted(parse, tests, i, chosen, demoted, moves)
    ensures |parts'| <= i + 1
    ensures ClassesKept(parse, tests, i + 1, parts', chosen') && Accounted(parse, tests, i + 1, chosen', demoted', moves')
  {
    var file := tests[i];
    match parse(file) {
      case None =>
        SkipStep(parse, tests, i, parts, chosen, demoted, moves);
        parts', moves', chosen', demoted' := parts, moves, chosen, demoted;
      case Some(testCase) =>
        var partition := EquivalenceClass(testCase);
        var found := FindClass(h, parts, partition);
        if found.None? {
          NewClassStep(parse, tests, i, parts, chosen, demoted, moves, parts + [Partition(partition, testCase, file)]);
          parts', moves', chosen', demoted' := parts + [Partition(partition, testCase, file)], moves, chosen + [i], demoted;
        } else {
          parts', moves', chosen', demoted' := AdmitMember(tests, parse, i, found.value, parts, moves, chosen, demoted);
        }
    }
  }

  /** The file at position `i` belongs to the class of partition `k`: fewer lines make it the
      new representative and demote the old one; otherwise it is demoted itself. */
  method AdmitMember(tests: seq<FileName>, parse: Parser, i: int, k: nat, parts: seq<Partition>, moves: seq<Move>,
                     ghost chosen: seq<nat>, ghost demoted: seq<nat>)
    returns (parts': seq<Partition>, moves': seq<Move>, ghost chosen': seq<nat>, ghost demoted': seq<nat>)
    requires 0 <= i < |tests| && parse(tests[i]).Some?
    requires k < |parts| && ClassKey(parts[k].key.representative) == ClassKey(parse(tests[i]).value)
    requires ClassesKept(parse, tests, i, parts, chosen) && Accounted(parse, tests, i, chosen, demoted, moves)
    ensures |parts'| == |parts|
    ensures ClassesKept(parse, tests, i + 1, parts', chosen') && Accounted(parse, tests, i + 1, chosen', demoted', moves')
  {
    var testCase := parse(tests[i]).value;
    if testCase.numTestLines < parts[k].representative.numTestLines {
      ReplaceStep(parse, tests, i, k, parts, chosen, demoted, moves);
      moves' := moves + [Demote(parts[k].file)];
      demoted' := demoted + [chosen[k]];
      parts' := parts[k := Partition(parts[k].key, testCase, tests[i])];
      chosen' := chosen[k := i];
    } else {
      DemoteStep(parse, tests, i, k, parts, chosen, demoted, moves);
      parts', moves', chosen', demoted' := parts, moves + [Demote(tests[i])], chosen, demoted + [i];
    }
  }

  /** `Reducer.Reduce`. The ghost `chosen` gives, for each returned file, its position in
      `tests`; `demoted` gives the position of each renamed file, in the order of the moves. */
  method Reduce(h: Hashes, tests: seq<FileName>, parse: Parser)
    returns (result: seq<FileName>, moves: seq<Move>, ghost chosen: seq<nat>, ghost demoted: seq<nat>)
    ensures |result| == |chosen| <= |tests|
    ensures forall k :: 0 <= k < |chosen| ==> chosen[k] < |tests| && result[k] == tests[chosen[k]]
    ensures Accounted(parse, tests, |tests|, chosen, demoted, moves)
    ensures OnePerClass(parse, tests, chosen) && EveryClassKept(parse, tests, chosen)
    ensures FewestLines(parse, tests, chosen)
  {
    var parts;
    parts, moves, chosen, demoted := AdmitAll(h, tests, parse);
    KeptAtEnd(parse, tests, parts, chosen);
    result := Files(parts);
  }

  /** The loop of `Reducer.Reduce` over every file. */
  method AdmitAll(h: Hashes, tests: seq<FileName>, parse: Parser)
    returns (parts: seq<Partition>, moves: seq<Move>, ghost chosen: seq<nat>, ghost demoted: seq<nat>)
    ensures |parts| <= |tests|
    ensures ClassesKept(parse, tests, |tests|, parts, chosen)
    ensures Accounted(parse, tests, |tests|, chosen, demoted, moves)
  {
    parts, moves, chosen, demoted := [], [], [], [];
    var i := 0;
    while i < |tests|
      invariant 0 <= i <= |tests|
      invariant |parts| <= i
      invariant ClassesKept(parse, tests, i, parts, chosen)
      invariant Accounted(parse, tests, i, chosen, demoted, moves)
    {
      parts, moves, chosen, demoted := Admit(h, tests, parse, i, parts, moves, chosen, demoted);
      i := i + 1;
    }
  }
}
