/** `SequenceBasedReducer.Reduce`: the same walk as `Reducer.Reduce`, over classes that join a
    test to a stored one when their hash codes agree and one call-sequence signature contains
    the other, keeping the test with the MOST lines of each class. Containment is not
    transitive, so a class is named by the test that opened it: the dictionary key stays the
    first member's class, because assigning to an existing key replaces only the value, and
    every later test is compared with that first member. */
module SequenceReducers {
  import opened Common
  import opened CsStrings
  import opened Equivalence
  import opened Reducers

  datatype SeqPartition = SeqPartition(key: SequenceClass, representative: TestCase, file: FileName)

  function SeqFiles(parts: seq<SeqPartition>): (r: seq<FileName>)
    ensures |r| == |parts| && forall k :: 0 <= k < |parts| ==> r[k] == parts[k].file
  {
    seq(|parts|, k requires 0 <= k < |parts| => parts[k].file)
  }

  /** `getSequence` throws on the plan lines of this test. */
  predicate BadPlans(tc: TestCase) {
    Signature(tc.testPlanCollection).Err?
  }

  /** The dictionary takes the stored `key` for `p`: equal hash codes, and `key.Equals(p)`. */
  predicate Matches(h: Hashes, key: SequenceClass, p: SequenceClass) {
    SequenceHash(h, key) == SequenceHash(h, p) && SequenceEquals(key, Some(p)) == Ok(true)
  }

  /** The dictionary lookup, most recently added key first; `Equals` runs only on keys with the
      same hash code, and an exception it throws ends the lookup. */
  function FindSequenceClass(h: Hashes, parts: seq<SeqPartition>, p: SequenceClass): (r: Result<Option<nat>>)
    ensures r.Ok? && r.value.Some? ==> r.value.value < |parts| && Matches(h, parts[r.value.value].key, p)
    ensures r == Ok(None) ==> forall k :: 0 <= k < |parts| ==> !Matches(h, parts[k].key, p)
    ensures r.Err? ==> r.exception == ArgumentOutOfRange
    ensures r.Err? ==> exists k :: 0 <= k < |parts| && SequenceHash(h, parts[k].key) == SequenceHash(h, p)
                                   && (BadPlans(parts[k].key.representative) || BadPlans(p.representative))
    ensures BadPlans(p.representative) ==>
              (r.Err? <==> exists k :: 0 <= k < |parts| && SequenceHash(h, parts[k].key) == SequenceHash(h, p))
  {
    if |parts| == 0 then Ok(None)
    else
      var last := |parts| - 1;
      var rest := FindSequenceClass(h, parts[..last], p);
      SignatureFails(parts[last].key.representative.testPlanCollection);
      SignatureFails(p.representative.testPlanCollection);
      if SequenceHash(h, parts[last].key) != SequenceHash(h, p) then
        NoMatchExtends(h, parts, parts[..last], p, rest);
        rest
      else
        match SequenceEquals(parts[last].key, Some(p))
        case Err(e) => Err(e)
        case Ok(equal) =>
          if equal then Ok(Some(last))
          else
            NoMatchExtends(h, parts, parts[..last], p, rest);
            rest
  }

  /** A lookup past the last key that finds nothing in the earlier keys finds nothing at all. */
  lemma NoMatchExtends(h: Hashes, parts: seq<SeqPartition>, front: seq<SeqPartition>, p: SequenceClass,
                       rest: Result<Option<nat>>)
    requires |parts| > 0 && front == parts[..|parts| - 1] && !Matches(h, parts[|parts| - 1].key, p)
    requires rest == Ok(None) ==> forall k :: 0 <= k < |front| ==> !Matches(h, front[k].key, p)
    ensures rest == Ok(None) ==> forall k :: 0 <= k < |parts| ==> !Matches(h, parts[k].key, p)
  {
    if rest == Ok(None) {
      forall k | 0 <= k < |parts| ensures !Matches(h, parts[k].key, p) {
        if k < |front| {
          assert front[k] == parts[k];
        }
      }
    }
  }

  /** Each partition: the key is the class of the test at `keyIdx[k]`, the representative the
      test at `chosen[k]`, no earlier than the key. */
  ghost predicate SeqPartitionsAt(parse: Parser, tests: seq<FileName>, parts: seq<SeqPartition>, keyIdx: seq<nat>,
                                  chosen: seq<nat>) {
    && |parts| == |keyIdx| == |chosen|
    && forall k :: 0 <= k < |parts| ==>
         (&& keyIdx[k] <= chosen[k] < |tests|
          && Parses(parse, tests, keyIdx[k]) && Parses(parse, tests, chosen[k])
          && parts[k].key == SequenceClass(TestAt(parse, tests, keyIdx[k]))
          && parts[k].representative == TestAt(parse, tests, chosen[k])
          && parts[k].file == tests[chosen[k]])
  }

  /** No stored key takes a later one: a class is opened only when no key takes the test. */
  ghost predicate KeysApart(h: Hashes, parts: seq<SeqPartition>) {
    forall k, l :: 0 <= k < l < |parts| ==> !Matches(h, parts[k].key, parts[l].key)
  }

  /** `joined[j]` is the partition the `j`th file joined (-1: it did not parse); it joined
      by opening it or because its key takes it; keys and representatives joined their own. */
  ghost predicate Joined(h: Hashes, parse: Parser, tests: seq<FileName>, i: int, parts: seq<SeqPartition>,
                           keyIdx: seq<nat>, chosen: seq<nat>, joined: seq<int>)
    requires |parts| == |keyIdx| == |chosen|
  {
    && |joined| == i <= |tests|
    && (forall j :: 0 <= j < i ==> -1 <= joined[j] < |parts| && (joined[j] == -1 <==> !Parses(parse, tests, j)))
    && (forall j :: 0 <= j < i && 0 <= joined[j] < |parts| ==>
          && keyIdx[joined[j]] <= j
          && (keyIdx[joined[j]] == j || Matches(h, parts[joined[j]].key, SequenceClass(TestAt(parse, tests, j)))))
    && (forall k :: 0 <= k < |parts| ==>
          keyIdx[k] < i && chosen[k] < i && joined[keyIdx[k]] == k && joined[chosen[k]] == k)
  }

  /** Each representative has the most lines of the files that joined its partition, strictly
      more than any earlier one. */
  ghost predicate Most(parse: Parser, tests: seq<FileName>, i: int, parts: seq<SeqPartition>, chosen: seq<nat>,
                       joined: seq<int>)
    requires |parts| == |chosen| && |joined| == i <= |tests|
  {
    forall j :: 0 <= j < i && 0 <= joined[j] < |parts| && Parses(parse, tests, j) ==>
      (&& parts[joined[j]].representative.numTestLines >= TestAt(parse, tests, j).numTestLines
       && (j < chosen[joined[j]] ==>
             parts[joined[j]].representative.numTestLines > TestAt(parse, tests, j).numTestLines))
  }

  ghost predicate SeqKept(h: Hashes, parse: Parser, tests: seq<FileName>, i: int, parts: seq<SeqPartition>,
                          keyIdx: seq<nat>, chosen: seq<nat>, joined: seq<int>)
  {
    && SeqPartitionsAt(parse, tests, parts, keyIdx, chosen)
    && KeysApart(h, parts)
    && Joined(h, parse, tests, i, parts, keyIdx, chosen, joined)
    && Most(parse, tests, i, parts, chosen, joined)
  }

  lemma SeqSkipStep(h: Hashes, parse: Parser, tests: seq<FileName>, i: int, parts: seq<SeqPartition>,
                    keyIdx: seq<nat>, chosen: seq<nat>, joined: seq<int>, demoted: seq<nat>, moves: seq<Move>)
    requires 0 <= i < |tests| && parse(tests[i]).None?
    requires SeqKept(h, parse, tests, i, parts, keyIdx, chosen, joined)
    requires Accounted(parse, tests, i, chosen, demoted, moves)
    ensures SeqKept(h, parse, tests, i + 1, parts, keyIdx, chosen, joined + [-1])
    ensures Accounted(parse, tests, i + 1, chosen, demoted, moves)
  {
    SkipJoined(h, parse, tests, i, parts, keyIdx, chosen, joined);
    SkipMost(parse, tests, i, parts, chosen, joined);
  }

  lemma SkipJoined(h: Hashes, parse: Parser, tests: seq<FileName>, i: int, parts: seq<SeqPartition>,
                   keyIdx: seq<nat>, chosen: seq<nat>, joined: seq<int>)
    requires 0 <= i < |tests| && parse(tests[i]).None?
    requires |parts| == |keyIdx| == |chosen|
    requires Joined(h, parse, tests, i, parts, keyIdx, chosen, joined)
    ensures Joined(h, parse, tests, i + 1, parts, keyIdx, chosen, joined + [-1])
  {
    var joined' := joined + [-1];
    forall j | 0 <= j < i + 1
      ensures -1 <= joined'[j] < |parts| && (joined'[j] == -1 <==> !Parses(parse, tests, j))
    {
      if j < i {
        assert joined'[j] == joined[j];
      }
    }
    forall j | 0 <= j < i + 1 && 0 <= joined'[j] < |parts|
      ensures && keyIdx[joined'[j]] <= j
              && (keyIdx[joined'[j]] == j || Matches(h, parts[joined'[j]].key, SequenceClass(TestAt(parse, tests, j))))
    {
      assert j < i && joined'[j] == joined[j];
    }
    forall k | 0 <= k < |parts|
      ensures keyIdx[k] < i + 1 && chosen[k] < i + 1 && joined'[keyIdx[k]] == k && joined'[chosen[k]] == k
    {
      assert joined'[keyIdx[k]] == joined[keyIdx[k]] && joined'[chosen[k]] == joined[chosen[k]];
    }
  }

  lemma SkipMost(parse: Parser, tests: seq<FileName>, i: int, parts: seq<SeqPartition>, chosen: seq<nat>,
                 joined: seq<int>)
    requires 0 <= i < |tests| && parse(tests[i]).None?
    requires |parts| == |chosen| && |joined| == i
    requires Most(parse, tests, i, parts, chosen, joined)
    ensures Most(parse, tests, i + 1, parts, chosen, joined + [-1])
  {
    var joined' := joined + [-1];
    forall j | 0 <= j < i + 1 && 0 <= joined'[j] < |parts| && Parses(parse, tests, j)
      ensures parts[joined'[j]].representative.numTestLines >= TestAt(parse, tests, j).numTestLines
      ensures j < chosen[joined'[j]] ==>
                parts[joined'[j]].representative.numTestLines > TestAt(parse, tests, j).numTestLines
    {
      assert j < i && joined'[j] == joined[j];
    }
  }

  lemma SeqNewStep(h: Hashes, parse: Parser, tests: seq<FileName>, i: int, parts: seq<SeqPartition>,
                   keyIdx: seq<nat>, chosen: seq<nat>, joined: seq<int>, parts': seq<SeqPartition>)
    requires 0 <= i < |tests| && parse(tests[i]).Some?
    requires forall k :: 0 <= k < |parts| ==> !Matches(h, parts[k].key, SequenceClass(parse(tests[i]).value))
    requires SeqKept(h, parse, tests, i, parts, keyIdx, chosen, joined)
    requires parts' == parts + [SeqPartition(SequenceClass(parse(tests[i]).value), parse(tests[i]).value, tests[i])]
    ensures SeqKept(h, parse, tests, i + 1, parts', keyIdx + [i], chosen + [i], joined + [|parts|])
  {
    var tc := parse(tests[i]).value;
    SeqNewShape(parse, tests, i, parts, keyIdx, chosen, parts');
    NewKeyApart(h, parts, SeqPartition(SequenceClass(tc), tc, tests[i]));
    SeqNewJoined(h, parse, tests, i, parts, keyIdx, chosen, joined, parts');
    SeqNewMost(parse, tests, i, parts, chosen, joined, parts');
  }

  lemma SeqNewShape(parse: Parser, tests: seq<FileName>, i: int, parts: seq<SeqPartition>, keyIdx: seq<nat>,
                    chosen: seq<nat>, parts': seq<SeqPartition>)
    requires 0 <= i < |tests| && parse(tests[i]).Some?
    requires SeqPartitionsAt(parse, tests, parts, keyIdx, chosen)
    requires parts' == parts + [SeqPartition(SequenceClass(parse(tests[i]).value), parse(tests[i]).value, tests[i])]
    ensures SeqPartitionsAt(parse, tests, parts', keyIdx + [i], chosen + [i])
  {
    var keyIdx', chosen' := keyIdx + [i], chosen + [i];
    forall k | 0 <= k < |parts'|
      ensures && keyIdx'[k] <= chosen'[k] < |tests|
              && Parses(parse, tests, keyIdx'[k]) && Parses(parse, tests, chosen'[k])
              && parts'[k].key == SequenceClass(TestAt(parse, tests, keyIdx'[k]))
              && parts'[k].representative == TestAt(parse, tests, chosen'[k])
              && parts'[k].file == tests[chosen'[k]]
    {
      if k < |parts| {
        assert parts'[k] == parts[k] && keyIdx'[k] == keyIdx[k] && chosen'[k] == chosen[k];
      }
    }
  }

  /** A partition whose key no stored key takes keeps the keys apart. */
  lemma NewKeyApart(h: Hashes, parts: seq<SeqPartition>, p: SeqPartition)
    requires KeysApart(h, parts)
    requires forall k :: 0 <= k < |parts| ==> !Matches(h, parts[k].key, p.key)
    ensures KeysApart(h, parts + [p])
  {
    var parts' := parts + [p];
    forall k, l | 0 <= k < l < |parts'| ensures !Matches(h, parts'[k].key, parts'[l].key) {
      assert parts'[k] == parts[k];
      if l < |parts| {
        assert parts'[l] == parts[l];
      }
    }
  }

  lemma SeqNewJoined(h: Hashes, parse: Parser, tests: seq<FileName>, i: int, parts: seq<SeqPartition>,
                     keyIdx: seq<nat>, chosen: seq<nat>, joined: seq<int>, parts': seq<SeqPartition>)
    requires 0 <= i < |tests| && parse(tests[i]).Some?
    requires |parts| == |keyIdx| == |chosen|
    requires Joined(h, parse, tests, i, parts, keyIdx, chosen, joined)
    requires parts' == parts + [SeqPartition(SequenceClass(parse(tests[i]).value), parse(tests[i]).value, tests[i])]
    ensures Joined(h, parse, tests, i + 1, parts', keyIdx + [i], chosen + [i], joined + [|parts|])
  {
    var keyIdx', chosen', joined' := keyIdx + [i], chosen + [i], joined + [|parts|];
    assert forall j :: 0 <= j < i ==> joined'[j] == joined[j];
    assert forall k :: 0 <= k < |parts| ==> parts'[k] == parts[k] && keyIdx'[k] == keyIdx[k] && chosen'[k] == chosen[k];
  }

  lemma SeqNewMost(parse: Parser, tests: seq<FileName>, i: int, parts: seq<SeqPartition>, chosen: seq<nat>,
                   joined: seq<int>, parts': seq<SeqPartition>)
    requires 0 <= i < |tests| && parse(tests[i]).Some?
    requires |parts| == |chosen| && |joined| == i
    requires forall j :: 0 <= j < i ==> joined[j] < |parts|
    requires Most(parse, tests, i, parts, chosen, joined)
    requires parts' == parts + [SeqPartition(SequenceClass(parse(tests[i]).value), parse(tests[i]).value, tests[i])]
    ensures Most(parse, tests, i + 1, parts', chosen + [i], joined + [|parts|])
  {
    var chosen', joined' := chosen + [i], joined + [|parts|];
    forall j | 0 <= j < i + 1 && 0 <= joined'[j] < |parts'| && Parses(parse, tests, j)
      ensures parts'[joined'[j]].representative.numTestLines >= TestAt(parse, tests, j).numTestLines
      ensures j < chosen'[joined'[j]] ==>
                parts'[joined'[j]].representative.numTestLines > TestAt(parse, tests, j).numTestLines
    {
      if j < i {
        assert joined'[j] == joined[j];
        assert parts'[joined[j]] == parts[joined[j]] && chosen'[joined[j]] == chosen[joined[j]];
      } else {
        assert parts'[|parts|].representative == TestAt(parse, tests, i) && chosen'[|parts|] == i;
      }
    }
  }

  lemma SeqReplaceStep(h: Hashes, parse: Parser, tests: seq<FileName>, i: int, k: int, parts: seq<SeqPartition>,
                       keyIdx: seq<nat>, chosen: seq<nat>, joined: seq<int>)
    requires 0 <= i < |tests| && parse(tests[i]).Some?
    requires 0 <= k < |parts| && Matches(h, parts[k].key, SequenceClass(parse(tests[i]).value))
    requires parse(tests[i]).value.numTestLines > parts[k].representative.numTestLines
    requires SeqKept(h, parse, tests, i, parts, keyIdx, chosen, joined)
    ensures SeqKept(h, parse, tests, i + 1, parts[k := SeqPartition(parts[k].key, parse(tests[i]).value, tests[i])],
                    keyIdx, chosen[k := i], joined + [k])
    ensures forall l :: 0 <= l < |chosen| && l != k ==> chosen[l] != chosen[k]
    ensures parts[k].file == tests[chosen[k]]
  {
    var parts' := parts[k := SeqPartition(parts[k].key, parse(tests[i]).value, tests[i])];
    SeqReplaceShape(h, parse, tests, i, k, parts, keyIdx, chosen, joined);
    SameKeysApart(h, parts, parts');
    SeqJoinJoined(h, parse, tests, i, k, parts, keyIdx, chosen, joined, parts', chosen[k := i]);
    SeqReplaceMost(parse, tests, i, k, parts, chosen, joined);
  }

  lemma SeqReplaceShape(h: Hashes, parse: Parser, tests: seq<FileName>, i: int, k: int, parts: seq<SeqPartition>,
                        keyIdx: seq<nat>, chosen: seq<nat>, joined: seq<int>)
    requires 0 <= i < |tests| && parse(tests[i]).Some? && 0 <= k < |parts|
    requires SeqPartitionsAt(parse, tests, parts, keyIdx, chosen)
    requires Joined(h, parse, tests, i, parts, keyIdx, chosen, joined)
    ensures SeqPartitionsAt(parse, tests, parts[k := SeqPartition(parts[k].key, parse(tests[i]).value, tests[i])],
                            keyIdx, chosen[k := i])
    ensures forall l :: 0 <= l < |chosen| && l != k ==> chosen[l] != chosen[k]
    ensures parts[k].file == tests[chosen[k]]
  {
  }

  /** Replacing representatives keeps the keys, so keeps them apart. */
  lemma SameKeysApart(h: Hashes, parts: seq<SeqPartition>, parts': seq<SeqPartition>)
    requires KeysApart(h, parts)
    requires |parts'| == |parts| && forall l :: 0 <= l < |parts| ==> parts'[l].key == parts[l].key
    ensures KeysApart(h, parts')
  {
  }

  /** The `i`th file joins partition `k`, whose key takes it. */
  lemma SeqJoinJoined(h: Hashes, parse: Parser, tests: seq<FileName>, i: int, k: int, parts: seq<SeqPartition>,
                      keyIdx: seq<nat>, chosen: seq<nat>, joined: seq<int>, parts': seq<SeqPartition>,
                      chosen': seq<nat>)
    requires 0 <= i < |tests| && parse(tests[i]).Some?
    requires |parts| == |keyIdx| == |chosen| && 0 <= k < |parts|
    requires Matches(h, parts[k].key, SequenceClass(parse(tests[i]).value))
    requires Joined(h, parse, tests, i, parts, keyIdx, chosen, joined)
    requires |parts'| == |parts| && forall l :: 0 <= l < |parts| ==> parts'[l].key == parts[l].key
    requires chosen' == chosen || chosen' == chosen[k := i]
    ensures Joined(h, parse, tests, i + 1, parts', keyIdx, chosen', joined + [k])
  {
    var joined' := joined + [k];
    assert forall j :: 0 <= j < i ==> joined'[j] == joined[j];
  }

  lemma SeqReplaceMost(parse: Parser, tests: seq<FileName>, i: int, k: int, parts: seq<SeqPartition>,
                       chosen: seq<nat>, joined: seq<int>)
    requires 0 <= i < |tests| && parse(tests[i]).Some?
    requires |parts| == |chosen| && |joined| == i && 0 <= k < |parts|
    requires parse(tests[i]).value.numTestLines > parts[k].representative.numTestLines
    requires Most(parse, tests, i, parts, chosen, joined)
    ensures Most(parse, tests, i + 1, parts[k := SeqPartition(parts[k].key, parse(tests[i]).value, tests[i])],
                 chosen[k := i], joined + [k])
  {
    var parts' := parts[k := SeqPartition(parts[k].key, parse(tests[i]).value, tests[i])];
    var chosen', joined' := chosen[k := i], joined + [k];
    forall j | 0 <= j < i + 1 && 0 <= joined'[j] < |parts'| && Parses(parse, tests, j)
      ensures parts'[joined'[j]].representative.numTestLines >= TestAt(parse, tests, j).numTestLines
      ensures j < chosen'[joined'[j]] ==>
                parts'[joined'[j]].representative.numTestLines > TestAt(parse, tests, j).numTestLines
    {
      if j < i {
        assert joined'[j] == joined[j];
      }
    }
  }

  lemma SeqDemoteStep(h: Hashes, parse: Parser, tests: seq<FileName>, i: int, k: int, parts: seq<SeqPartition>,
                      keyIdx: seq<nat>, chosen: seq<nat>, joined: seq<int>)
    requires 0 <= i < |tests| && parse(tests[i]).Some?
    requires 0 <= k < |parts| && Matches(h, parts[k].key, SequenceClass(parse(tests[i]).value))
    requires parse(tests[i]).value.numTestLines <= parts[k].representative.numTestLines
    requires SeqKept(h, parse, tests, i, parts, keyIdx, chosen, joined)
    ensures SeqKept(h, parse, tests, i + 1, parts, keyIdx, chosen, joined + [k])
  {
    SeqJoinJoined(h, parse, tests, i, k, parts, keyIdx, chosen, joined, parts, chosen);
    SeqDemoteMost(parse, tests, i, k, parts, chosen, joined);
  }

  lemma SeqDemoteMost(parse: Parser, tests: seq<FileName>, i: int, k: int, parts: seq<SeqPartition>,
                      chosen: seq<nat>, joined: seq<int>)
    requires 0 <= i < |tests| && parse(tests[i]).Some?
    requires |parts| == |chosen| && |joined| == i && 0 <= k < |parts|
    requires forall l :: 0 <= l < |chosen| ==> chosen[l] < i
    requires parse(tests[i]).value.numTestLines <= parts[k].representative.numTestLines
    requires Most(parse, tests, i, parts, chosen, joined)
    ensures Most(parse, tests, i + 1, parts, chosen, joined + [k])
  {
    var joined' := joined + [k];
    assert forall j :: 0 <= j < i ==> joined'[j] == joined[j];
  }

  /** A test of the lookup's partition `k`: more lines make it the representative and demote
      the old one; otherwise it is demoted itself. */
  method SeqAdmitMember(h: Hashes, tests: seq<FileName>, parse: Parser, i: int, k: nat, parts: seq<SeqPartition>,
                        moves: seq<Move>, ghost keyIdx: seq<nat>, ghost chosen: seq<nat>, ghost demoted: seq<nat>,
                        ghost joined: seq<int>)
    returns (parts': seq<SeqPartition>, moves': seq<Move>, ghost chosen': seq<nat>, ghost demoted': seq<nat>,
             ghost joined': seq<int>)
    requires 0 <= i < |tests| && parse(tests[i]).Some?
    requires k < |parts| && Matches(h, parts[k].key, SequenceClass(parse(tests[i]).value))
    requires SeqKept(h, parse, tests, i, parts, keyIdx, chosen, joined)
    requires Accounted(parse, tests, i, chosen, demoted, moves)
    ensures |parts'| == |parts|
    ensures SeqKept(h, parse, tests, i + 1, parts', keyIdx, chosen', joined')
    ensures Accounted(parse, tests, i + 1, chosen', demoted', moves')
  {
    var testCase := parse(tests[i]).value;
    if testCase.numTestLines > parts[k].representative.numTestLines {
      SeqReplaceStep(h, parse, tests, i, k, parts, keyIdx, chosen, joined);
      AccountReplace(parse, tests, i, k, chosen, demoted, moves);
      moves' := moves + [Demote(parts[k].file)];
      demoted' := demoted + [chosen[k]];
      parts' := parts[k := SeqPartition(parts[k].key, testCase, tests[i])];
      chosen' := chosen[k := i];
    } else {
      SeqDemoteStep(h, parse, tests, i, k, parts, keyIdx, chosen, joined);
      AccountDemote(parse, tests, i, chosen, demoted, moves);
      parts', moves', chosen', demoted' := parts, moves + [Demote(tests[i])], chosen, demoted + [i];
    }
    joined' := joined + [k];
  }

  /** A lookup throws only on the plans of a parsed file: the `i`th or a key's. */
  lemma ThrowingTest(h: Hashes, parse: Parser, tests: seq<FileName>, i: int, parts: seq<SeqPartition>,
                     keyIdx: seq<nat>, chosen: seq<nat>)
    requires 0 <= i < |tests| && parse(tests[i]).Some?
    requires SeqPartitionsAt(parse, tests, parts, keyIdx, chosen)
    requires FindSequenceClass(h, parts, SequenceClass(parse(tests[i]).value)).Err?
    ensures exists j :: Parses(parse, tests, j) && BadPlans(TestAt(parse, tests, j))
  {
    var partition := SequenceClass(parse(tests[i]).value);
    var k :| 0 <= k < |parts| && SequenceHash(h, parts[k].key) == SequenceHash(h, partition)
             && (BadPlans(parts[k].key.representative) || BadPlans(partition.representative));
    if BadPlans(partition.representative) {
      assert Parses(parse, tests, i) && TestAt(parse, tests, i) == partition.representative;
    } else {
      assert Parses(parse, tests, keyIdx[k]) && parts[k].key.representative == TestAt(parse, tests, keyIdx[k]);
    }
  }

  /** One pass of the loop: the file at position `i` is skipped, makes the lookup throw, opens
      a partition, or joins one. */
  method SeqAdmit(h: Hashes, tests: seq<FileName>, parse: Parser, i: int, parts: seq<SeqPartition>, moves: seq<Move>,
                  ghost keyIdx: seq<nat>, ghost chosen: seq<nat>, ghost demoted: seq<nat>, ghost joined: seq<int>)
    returns (thrown: Option<string>, parts': seq<SeqPartition>, moves': seq<Move>, ghost keyIdx': seq<nat>,
             ghost chosen': seq<nat>, ghost demoted': seq<nat>, ghost joined': seq<int>)
    requires 0 <= i < |tests| && |parts| <= i
    requires SeqKept(h, parse, tests, i, parts, keyIdx, chosen, joined)
    requires Accounted(parse, tests, i, chosen, demoted, moves)
    ensures thrown.Some? ==> thrown.value == ArgumentOutOfRange
    ensures thrown.Some? ==> exists j :: Parses(parse, tests, j) && BadPlans(TestAt(parse, tests, j))
    ensures thrown.None? ==> |parts'| <= i + 1
    ensures thrown.None? ==> SeqKept(h, parse, tests, i + 1, parts', keyIdx', chosen', joined')
    ensures thrown.None? ==> Accounted(parse, tests, i + 1, chosen', demoted', moves')
  {
    thrown, parts', moves', keyIdx', chosen', demoted', joined' := None, parts, moves, keyIdx, chosen, demoted, joined;
    var file := tests[i];
    match parse(file) {
      case None =>
        SeqSkipStep(h, parse, tests, i, parts, keyIdx, chosen, joined, demoted, moves);
        joined' := joined + [-1];
      case Some(testCase) =>
        thrown, parts', moves', keyIdx', chosen', demoted', joined' :=
          SeqAdmitParsed(h, tests, parse, i, testCase, parts, moves, keyIdx, chosen, demoted, joined);
    }
  }

  /** The file at position `i` parses to `testCase`: the lookup throws, or the file opens a
      partition or joins one. */
  method SeqAdmitParsed(h: Hashes, tests: seq<FileName>, parse: Parser, i: int, testCase: TestCase,
                        parts: seq<SeqPartition>, moves: seq<Move>, ghost keyIdx: seq<nat>, ghost chosen: seq<nat>,
                        ghost demoted: seq<nat>, ghost joined: seq<int>)
    returns (thrown: Option<string>, parts': seq<SeqPartition>, moves': seq<Move>, ghost keyIdx': seq<nat>,
             ghost chosen': seq<nat>, ghost demoted': seq<nat>, ghost joined': seq<int>)
    requires 0 <= i < |tests| && |parts| <= i && parse(tests[i]) == Some(testCase)
    requires SeqKept(h, parse, tests, i, parts, keyIdx, chosen, joined)
    requires Accounted(parse, tests, i, chosen, demoted, moves)
    ensures thrown.Some? ==> thrown.value == ArgumentOutOfRange
    ensures thrown.Some? ==> exists j :: Parses(parse, tests, j) && BadPlans(TestAt(parse, tests, j))
    ensures thrown.None? ==> |parts'| <= i + 1
    ensures thrown.None? ==> SeqKept(h, parse, tests, i + 1, parts', keyIdx', chosen', joined')
    ensures thrown.None? ==> Accounted(parse, tests, i + 1, chosen', demoted', moves')
  {
    thrown, parts', moves', keyIdx', chosen', demoted', joined' := None, parts, moves, keyIdx, chosen, demoted, joined;
    var partition := SequenceClass(testCase);
    var found := FindSequenceClass(h, parts, partition);
    match found {
      case Err(e) =>
        ThrowingTest(h, parse, tests, i, parts, keyIdx, chosen);
        thrown := Some(e);
      case Ok(None) =>
        SeqNewStep(h, parse, tests, i, parts, keyIdx, chosen, joined, parts + [SeqPartition(partition, testCase, tests[i])]);
        AccountNew(parse, tests, i, chosen, demoted, moves);
        parts' := parts + [SeqPartition(partition, testCase, tests[i])];
        keyIdx', chosen', joined' := keyIdx + [i], chosen + [i], joined + [|parts|];
      case Ok(Some(k)) =>
        parts', moves', chosen', demoted', joined' :=
          SeqAdmitMember(h, tests, parse, i, k, parts, moves, keyIdx, chosen, demoted, joined);
    }
  }

  /** The loop's invariant once every file is read, in the terms of `SequenceBasedReduce`. */
  lemma SeqKeptAtEnd(h: Hashes, parse: Parser, tests: seq<FileName>, parts: seq<SeqPartition>, keyIdx: seq<nat>,
                     chosen: seq<nat>, joined: seq<int>)
    requires |parts| <= |tests|
    requires SeqKept(h, parse, tests, |tests|, parts, keyIdx, chosen, joined)
    ensures |SeqFiles(parts)| == |chosen| == |keyIdx| <= |tests|
    ensures forall k :: 0 <= k < |chosen| ==>
              keyIdx[k] <= chosen[k] < |tests| && SeqFiles(parts)[k] == tests[chosen[k]]
              && Parses(parse, tests, keyIdx[k]) && Parses(parse, tests, chosen[k])
    // a class is opened only by a test that no earlier class's first member takes
    ensures forall k, l :: 0 <= k < l < |keyIdx| ==>
              !Matches(h, SequenceClass(TestAt(parse, tests, keyIdx[k])), SequenceClass(TestAt(parse, tests, keyIdx[l])))
    ensures |joined| == |tests|
    ensures forall j :: 0 <= j < |tests| ==>
              -1 <= joined[j] < |chosen| && (joined[j] == -1 <==> !Parses(parse, tests, j))
    // every later member was taken by the class's first member
    ensures forall j :: 0 <= j < |tests| && 0 <= joined[j] < |keyIdx| ==>
              && keyIdx[joined[j]] <= j
              && (keyIdx[joined[j]] == j
                  || Matches(h, SequenceClass(TestAt(parse, tests, keyIdx[joined[j]])), SequenceClass(TestAt(parse, tests, j))))
    ensures forall k :: 0 <= k < |chosen| ==> joined[keyIdx[k]] == k && joined[chosen[k]] == k
    // the representative has the most lines of its class, strictly more than any earlier member
    ensures forall j :: 0 <= j < |tests| && 0 <= joined[j] < |chosen| && Parses(parse, tests, j) ==>
              && TestAt(parse, tests, chosen[joined[j]]).numTestLines >= TestAt(parse, tests, j).numTestLines
              && (j < chosen[joined[j]] ==>
                    TestAt(parse, tests, chosen[joined[j]]).numTestLines > TestAt(parse, tests, j).numTestLines)
  {
  }

  /** `SequenceBasedReducer.Reduce`. When a lookup throws, the exception leaves the method and
      the files renamed so far stay renamed. `keyIdx[k]` is the position of the test that
      opened the `k`th class, `chosen[k]` that of its returned representative, `joined[j]`
      the class the `j`th file joined (-1 when it did not parse). */
  method SequenceBasedReduce(h: Hashes, tests: seq<FileName>, parse: Parser)
    returns (result: Result<seq<FileName>>, moves: seq<Move>, ghost keyIdx: seq<nat>, ghost chosen: seq<nat>,
             ghost demoted: seq<nat>, ghost joined: seq<int>)
    ensures result.Err? ==> result.exception == ArgumentOutOfRange
    ensures result.Err? ==> exists j :: Parses(parse, tests, j) && BadPlans(TestAt(parse, tests, j))
    ensures result.Ok? ==> |result.value| == |chosen| == |keyIdx| <= |tests|
    ensures result.Ok? ==> forall k :: 0 <= k < |chosen| ==>
              keyIdx[k] <= chosen[k] < |tests| && result.value[k] == tests[chosen[k]]
              && Parses(parse, tests, keyIdx[k]) && Parses(parse, tests, chosen[k])
    ensures result.Ok? ==> Accounted(parse, tests, |tests|, chosen, demoted, moves)
    // a class is opened only by a test that no earlier class's first member takes
    ensures result.Ok? ==> forall k, l :: 0 <= k < l < |keyIdx| ==>
              !Matches(h, SequenceClass(TestAt(parse, tests, keyIdx[k])), SequenceClass(TestAt(parse, tests, keyIdx[l])))
    ensures result.Ok? ==> |joined| == |tests|
    ensures result.Ok? ==> forall j :: 0 <= j < |tests| ==>
              -1 <= joined[j] < |chosen| && (joined[j] == -1 <==> !Parses(parse, tests, j))
    // every later member was taken by the class's first member
    ensures result.Ok? ==> forall j :: 0 <= j < |tests| && 0 <= joined[j] < |keyIdx| ==>
              && keyIdx[joined[j]] <= j
              && (keyIdx[joined[j]] == j
                  || Matches(h, SequenceClass(TestAt(parse, tests, keyIdx[joined[j]])), SequenceClass(TestAt(parse, tests, j))))
    ensures result.Ok? ==> forall k :: 0 <= k < |chosen| ==> joined[keyIdx[k]] == k && joined[chosen[k]] == k
    // the representative has the most lines of its class, strictly more than any earlier member
    ensures result.Ok? ==> forall j :: 0 <= j < |tests| && 0 <= joined[j] < |chosen| && Parses(parse, tests, j) ==>
              && TestAt(parse, tests, chosen[joined[j]]).numTestLines >= TestAt(parse, tests, j).numTestLines
              && (j < chosen[joined[j]] ==>
                    TestAt(parse, tests, chosen[joined[j]]).numTestLines > TestAt(parse, tests, j).numTestLines)
  {
    var thrown, parts;
    thrown, parts, moves, keyIdx, chosen, demoted, joined := SeqAdmitAll(h, tests, parse);
    if thrown.Some? {
      return Err(thrown.value), moves, keyIdx, chosen, demoted, joined;
    }
    SeqKeptAtEnd(h, parse, tests, parts, keyIdx, chosen, joined);
    result := Ok(SeqFiles(parts));
  }

  /** The loop of `SequenceBasedReducer.Reduce`, up to the end of the files or the first
      lookup that throws. */
  method SeqAdmitAll(h: Hashes, tests: seq<FileName>, parse: Parser)
    returns (thrown: Option<string>, parts: seq<SeqPartition>, moves: seq<Move>, ghost keyIdx: seq<nat>,
             ghost chosen: seq<nat>, ghost demoted: seq<nat>, ghost joined: seq<int>)
    ensures thrown.Some? ==> thrown.value == ArgumentOutOfRange
    ensures thrown.Some? ==> exists j :: Parses(parse, tests, j) && BadPlans(TestAt(parse, tests, j))
    ensures thrown.None? ==> |parts| <= |tests|
    ensures thrown.None? ==> SeqKept(h, parse, tests, |tests|, parts, keyIdx, chosen, joined)
    ensures thrown.None? ==> Accounted(parse, tests, |tests|, chosen, demoted, moves)
  {
    thrown, parts := None, [];
    moves, keyIdx, chosen, demoted, joined := [], [], [], [], [];
    var i := 0;
    while i < |tests|
      invariant 0 <= i <= |tests| && thrown.None?
      invariant |parts| <= i
      invariant SeqKept(h, parse, tests, i, parts, keyIdx, chosen, joined)
      invariant Accounted(parse, tests, i, chosen, demoted, moves)
    {
      thrown, parts, moves, keyIdx, chosen, demoted, joined :=
        SeqAdmit(h, tests, parse, i, parts, moves, keyIdx, chosen, demoted, joined);
      if thrown.Some? {
        return;
      }
      i := i + 1;
    }
  }
}
