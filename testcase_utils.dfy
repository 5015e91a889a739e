/** `TestCaseUtils`: minimising a failing test file line by line against an external run that
    tells whether the failure still reproduces, grouping tests by the exception they report,
    and dropping error-revealing tests whose failure does not reproduce. Parsing a file and
    running a test are parameters; a parse failure is `TestCaseParseException`. */
module TestCaseUtils {
  import opened Common
  import opened Equivalence
  import opened Reducers

  const ParseException := "Common.TestCase+TestCaseParseException"
  const NonMinSuffix := ".nonmin"
  const AccessViolation := "System.AccessViolationException"
  const NullReference := "System.NullReferenceException"

  /** `TestCase.WriteToFile(path)` with the given test lines. */
  datatype Write = Write(path: FileName, lines: seq<string>)

  /** The test lines of a test file, or None when `new TestCase(file)` throws. */
  type LineParser = FileName -> Option<seq<string>>

  /** `RunExternal().behaviorReproduced` for the test file with the given test lines. */
  type Oracle = seq<string> -> bool

  // ------------------------------------------------------------------ Minimize

  /** The number of deleted positions. */
  function Count(del: seq<bool>): (n: nat)
    ensures n <= |del|
    ensures n == 0 <==> forall q :: 0 <= q < |del| ==> !del[q]
  {
    if |del| == 0 then 0 else (if del[0] then 1 else 0) + Count(del[1..])
  }

  /** The lines of `xs` whose position is not deleted, in their order. */
  function Keep(xs: seq<string>, del: seq<bool>): (r: seq<string>)
    requires |xs| == |del|
    ensures |r| == |xs| - Count(del)
    ensures Count(del) == 0 ==> r == xs
    ensures forall x :: x in r ==> x in xs
  {
    if |xs| == 0 then []
    else (if del[0] then [] else [xs[0]]) + Keep(xs[1..], del[1..])
  }

  /** Which lines of `lines[q..]` the countdown deletes. Positions after `q` are handled
      first; the line at `q` goes when the test without it, with the later positions as
      already decided, still reproduces. */
  function Deleted(lines: seq<string>, reproduces: Oracle, q: nat): (d: seq<bool>)
    requires q <= |lines|
    ensures |d| == |lines| - q
    decreases |lines| - q
  {
    if q == |lines| then []
    else
      var later := Deleted(lines, reproduces, q + 1);
      [reproduces(lines[..q] + Keep(lines[q + 1..], later))] + later
  }

  /** The test lines `Minimize` leaves. */
  function Minimized(lines: seq<string>, reproduces: Oracle): seq<string> {
    Keep(lines, Deleted(lines, reproduces, 0))
  }

  lemma {:induction false} DeletedDrop(lines: seq<string>, reproduces: Oracle, q: nat)
    requires q <= |lines|
    ensures Deleted(lines, reproduces, 0)[q..] == Deleted(lines, reproduces, q)
  {
    if q > 0 {
      DeletedDrop(lines, reproduces, q - 1);
      assert Deleted(lines, reproduces, 0)[q..] == Deleted(lines, reproduces, 0)[q - 1..][1..];
    }
  }

  /** Each position's decision, read off the whole deletion mask. */
  lemma DeletedAt(lines: seq<string>, reproduces: Oracle)
    ensures var d := Deleted(lines, reproduces, 0);
            forall q :: 0 <= q < |lines| ==> (d[q] <==> reproduces(lines[..q] + Keep(lines[q + 1..], d[q + 1..])))
  {
    var d := Deleted(lines, reproduces, 0);
    forall q | 0 <= q < |lines|
      ensures d[q] <==> reproduces(lines[..q] + Keep(lines[q + 1..], d[q + 1..]))
    {
      DeletedDrop(lines, reproduces, q);
      DeletedDrop(lines, reproduces, q + 1);
      assert d[q] == d[q..][0];
    }
  }

  /** Undeleted leading positions stay in front. */
  lemma {:induction false} KeepUndeletedPrefix(xs: seq<string>, del: seq<bool>, q: nat)
    requires |xs| == |del| && q <= |xs|
    requires forall p :: 0 <= p < q ==> !del[p]
    ensures Keep(xs, del) == xs[..q] + Keep(xs[q..], del[q..])
  {
    if q == 0 {
      SliceWhole(xs);
      SliceWhole(del);
    } else {
      assert Keep(xs, del) == [xs[0]] + Keep(xs[1..], del[1..]);
      assert forall p :: 0 <= p < q - 1 ==> !del[1..][p] by {
        forall p | 0 <= p < q - 1 ensures !del[1..][p] { assert del[1..][p] == del[p + 1]; }
      }
      KeepUndeletedPrefix(xs[1..], del[1..], q - 1);
      SliceAfterHead(xs, q);
      SliceAfterHead(del, q);
      var tail := Keep(xs[q..], del[q..]);
      assert Keep(xs[1..], del[1..]) == xs[1..][..q - 1] + tail;
      ConsAppend(xs[0], xs[1..][..q - 1], tail);
    }
  }

  lemma SliceWhole<T>(xs: seq<T>)
    ensures xs[..0] + xs[0..] == xs && xs[0..] == xs
  {
  }

  lemma SplitAt<T>(xs: seq<T>, i: nat)
    requires i < |xs|
    ensures xs[..i + 1] == xs[..i] + [xs[i]]
  {
  }

  lemma ConsAppend<T>(x: T, front: seq<T>, back: seq<T>)
    ensures [x] + (front + back) == ([x] + front) + back
  {
  }

  lemma SliceAfterHead<T>(xs: seq<T>, q: nat)
    requires 0 < q <= |xs|
    ensures xs[..q] == [xs[0]] + xs[1..][..q - 1] && xs[1..][q - 1..] == xs[q..]
  {
  }

  lemma {:induction false} FirstDeleted(del: seq<bool>) returns (q: nat)
    requires Count(del) > 0
    ensures q < |del| && del[q] && forall p :: 0 <= p < q ==> !del[p]
  {
    if del[0] {
      q := 0;
    } else {
      var q' := FirstDeleted(del[1..]);
      q := q' + 1;
    }
  }

  /** When any line went, the final test is the last one the external run checked, so it
      still reproduces. */
  lemma MinimizedReproduces(lines: seq<string>, reproduces: Oracle)
    requires Count(Deleted(lines, reproduces, 0)) > 0
    ensures reproduces(Minimized(lines, reproduces))
  {
    var d := Deleted(lines, reproduces, 0);
    var q := FirstDeleted(d);
    KeepUndeletedPrefix(lines, d, q);
    DeletedDrop(lines, reproduces, q);
    DeletedDrop(lines, reproduces, q + 1);
    assert lines[q..][1..] == lines[q + 1..] && d[q..][1..] == d[q + 1..];
    assert Keep(lines[q..], d[q..]) == Keep(lines[q + 1..], d[q + 1..]);
  }

  /** One step of the countdown: the line at `linePos` is removed and put back unless the
      test without it reproduces. */
  lemma CountdownStep(lines: seq<string>, reproduces: Oracle, linePos: nat, rest: seq<string>)
    requires linePos < |lines|
    requires rest == Keep(lines[linePos + 1..], Deleted(lines, reproduces, linePos + 1))
    ensures var d := Deleted(lines, reproduces, linePos);
            && (d[0] <==> reproduces(lines[..linePos] + rest))
            && Keep(lines[linePos..], d) == (if d[0] then rest else [lines[linePos]] + rest)
            && Count(d) == Count(Deleted(lines, reproduces, linePos + 1)) + (if d[0] then 1 else 0)
  {
    assert lines[linePos..][1..] == lines[linePos + 1..];
  }

  /** `RemoveLine(linePos)` and `AddLine(linePos, oldLine)` undo each other. */
  lemma RemoveRestore<T>(current: seq<T>, prefix: seq<T>, line: T, rest: seq<T>)
    requires current == prefix + [line] + rest
    ensures current[|prefix|] == line
    ensures current[..|prefix|] + current[|prefix| + 1..] == prefix + rest
    ensures (prefix + rest)[..|prefix|] + [line] + (prefix + rest)[|prefix|..] == current
  {
    assert current[..|prefix|] == prefix && current[|prefix| + 1..] == rest;
    assert (prefix + rest)[..|prefix|] == prefix && (prefix + rest)[|prefix|..] == rest;
  }

  /** What one pass of the countdown leaves, for either answer of the external run. */
  lemma TryRemoveOutcome(lines: seq<string>, reproduces: Oracle, linePos: nat, current: seq<string>)
    requires linePos < |lines|
    requires current == lines[..linePos + 1] + Keep(lines[linePos + 1..], Deleted(lines, reproduces, linePos + 1))
    ensures var removed := current[..linePos] + current[linePos + 1..];
            var d := Deleted(lines, reproduces, linePos);
            && |removed| >= linePos
            && (d[0] <==> reproduces(removed))
            && (d[0] ==> removed == lines[..linePos] + Keep(lines[linePos..], d))
            && (!d[0] ==> removed[..linePos] + [current[linePos]] + removed[linePos..] == lines[..linePos] + Keep(lines[linePos..], d))
            && Count(d) == Count(Deleted(lines, reproduces, linePos + 1)) + (if d[0] then 1 else 0)
  {
    var rest := Keep(lines[linePos + 1..], Deleted(lines, reproduces, linePos + 1));
    var prefix, line := lines[..linePos], lines[linePos];
    CountdownStep(lines, reproduces, linePos, rest);
    assert lines[..linePos + 1] == prefix + [line] by { SplitAt(lines, linePos); }
    RemoveRestore(current, prefix, line, rest);
    Regroup(prefix, line, rest);
  }

  /** One pass of the countdown: remove the line at `linePos`, and put it back at the same
      position unless the test without it still reproduces. */
  method TryRemoveLine(lines: seq<string>, reproduces: Oracle, linePos: nat, current: seq<string>, linesRemoved: nat)
    returns (current': seq<string>, linesRemoved': nat)
    requires linePos < |lines|
    requires current == lines[..linePos + 1] + Keep(lines[linePos + 1..], Deleted(lines, reproduces, linePos + 1))
    requires linesRemoved == Count(Deleted(lines, reproduces, linePos + 1))
    ensures current' == lines[..linePos] + Keep(lines[linePos..], Deleted(lines, reproduces, linePos))
    ensures linesRemoved' == Count(Deleted(lines, reproduces, linePos))
  {
    TryRemoveOutcome(lines, reproduces, linePos, current);
    var oldLine := current[linePos];
    current' := current[..linePos] + current[linePos + 1..];
    if !reproduces(current') {
      current' := current'[..linePos] + [oldLine] + current'[linePos..];
      linesRemoved' := linesRemoved;
    } else {
      linesRemoved' := linesRemoved + 1;
    }
  }

  lemma CountdownStart(lines: seq<string>, reproduces: Oracle, next: nat)
    requires next == |lines|
    ensures lines == lines[..next] + Keep(lines[next..], Deleted(lines, reproduces, next))
    ensures Count(Deleted(lines, reproduces, next)) == 0
  {
    TakeAll(lines);
  }

  lemma CountdownDone(lines: seq<string>, reproduces: Oracle, current: seq<string>, next: nat)
    requires next == 0
    requires current == lines[..next] + Keep(lines[next..], Deleted(lines, reproduces, next))
    ensures current == Minimized(lines, reproduces)
  {
    assert lines[0..] == lines;
  }

  /** `Minimize(FileInfo)`: saves the original as `<path>.nonmin`, tries removing each line
      from the last to the first, and writes the result back. */
  method Minimize(testPath: FileName, parseLines: LineParser, reproduces: Oracle)
    returns (r: Result<nat>, writes: seq<Write>)
    ensures r.Err? <==> parseLines(testPath).None?
    ensures r.Err? ==> r.exception == ParseException && writes == []
    ensures r.Ok? ==> writes == [Write(testPath + NonMinSuffix, parseLines(testPath).value),
                                 Write(testPath, Minimized(parseLines(testPath).value, reproduces))]
    ensures r.Ok? ==> r.value == Count(Deleted(parseLines(testPath).value, reproduces, 0))
                               == |parseLines(testPath).value| - |Minimized(parseLines(testPath).value, reproduces)|
  {
    if parseLines(testPath).None? {
      return Err(ParseException), [];
    }
    var lines := parseLines(testPath).value;
    writes := [Write(testPath + NonMinSuffix, lines)];
    var current, linesRemoved := Countdown(lines, reproduces);
    writes := writes + [Write(testPath, current)];
    r := Ok(linesRemoved);
  }

  /** The countdown loop of `Minimize`, from the last line position to the first. */
  method Countdown(lines: seq<string>, reproduces: Oracle) returns (current: seq<string>, linesRemoved: nat)
    ensures current == Minimized(lines, reproduces)
    ensures linesRemoved == Count(Deleted(lines, reproduces, 0)) == |lines| - |current|
  {
    current := lines;
    linesRemoved := 0;
    var linePos := |lines| - 1;
    CountdownStart(lines, reproduces, linePos + 1);
    while linePos >= 0
      invariant -1 <= linePos < |lines|
      invariant current == lines[..linePos + 1] + Keep(lines[linePos + 1..], Deleted(lines, reproduces, linePos + 1))
      invariant linesRemoved == Count(Deleted(lines, reproduces, linePos + 1))
    {
      current, linesRemoved := TryRemoveLine(lines, reproduces, linePos, current, linesRemoved);
      linePos := linePos - 1;
    }
    CountdownDone(lines, reproduces, current, linePos + 1);
  }

  /** What minimising each of `paths` writes, in order. */
  function MinimizeWrites(paths: seq<FileName>, parseLines: LineParser, reproduces: FileName -> Oracle): seq<Write>
    requires forall p :: p in paths ==> parseLines(p).Some?
  {
    if |paths| == 0 then []
    else
      var p := paths[|paths| - 1];
      MinimizeWrites(paths[..|paths| - 1], parseLines, reproduces)
        + [Write(p + NonMinSuffix, parseLines(p).value), Write(p, Minimized(parseLines(p).value, reproduces(p)))]
  }

  /** `Minimize(Collection<FileInfo>)`: minimises each test in turn; the counts are only
      logged, and a file that does not parse stops the walk with its exception. */
  method MinimizeAll(testPaths: seq<FileName>, parseLines: LineParser, reproduces: FileName -> Oracle)
    returns (thrown: Option<string>, writes: seq<Write>)
    ensures thrown.None? <==> forall p :: p in testPaths ==> parseLines(p).Some?
    ensures thrown.None? ==> writes == MinimizeWrites(testPaths, parseLines, reproduces)
    ensures thrown.Some? ==> thrown.value == ParseException
    ensures thrown.Some? ==> exists k :: 0 <= k < |testPaths| && parseLines(testPaths[k]).None?
                                         && (forall p :: p in testPaths[..k] ==> parseLines(p).Some?)
                                         && writes == MinimizeWrites(testPaths[..k], parseLines, reproduces)
  {
    writes := [];
    var i := 0;
    while i < |testPaths|
      invariant 0 <= i <= |testPaths|
      invariant forall p :: p in testPaths[..i] ==> parseLines(p).Some?
      invariant writes == MinimizeWrites(testPaths[..i], parseLines, reproduces)
    {
      var r, w := Minimize(testPaths[i], parseLines, reproduces(testPaths[i]));
      if r.Err? {
        assert testPaths[i] in testPaths;
        return Some(r.exception), writes;
      }
      PrefixStep(testPaths, i);
      writes := writes + w;
      i := i + 1;
    }
    TakeAll(testPaths);
    thrown := None;
  }

  // ------------------------------------------------------------------ RemoveNonReproducibleErrors

  /** `IsErrorRevealing`: the test reports an access violation or a null dereference. (The
      source checks NullReferenceException twice; the second check changes nothing.) */
  predicate IsErrorRevealing(tc: TestCase) {
    || GetDescription(AccessViolation) == tc.exception
    || GetDescription(NullReference) == tc.exception
    || GetDescription(NullReference) == tc.exception
  }

  /** The outcome for one test: error-revealing tests are run, and kept iff they reproduce;
      the others are kept without running. */
  predicate Revealing(parse: Parser, f: FileName) {
    parse(f).Some? && IsErrorRevealing(parse(f).value)
  }

  predicate Retained(parse: Parser, reproduced: FileName -> bool, f: FileName) {
    parse(f).Some? && (!IsErrorRevealing(parse(f).value) || reproduced(f))
  }

  datatype Screening = Screening(kept: seq<FileName>, deleted: seq<FileName>, ran: seq<FileName>)

  /** The kept, deleted and run files of a walk over `tests`, every one of which parses. */
  function Screen(tests: seq<FileName>, parse: Parser, reproduced: FileName -> bool): (s: Screening)
    requires forall f :: f in tests ==> parse(f).Some?
    ensures multiset(s.kept) + multiset(s.deleted) == multiset(tests)
    ensures forall f :: f in s.kept <==> f in tests && Retained(parse, reproduced, f)
    ensures forall f :: f in s.deleted <==> f in tests && !Retained(parse, reproduced, f)
    ensures forall f :: f in s.ran <==> f in tests && Revealing(parse, f)
  {
    if |tests| == 0 then Screening([], [], [])
    else
      var f := tests[|tests| - 1];
      assert tests == tests[..|tests| - 1] + [f];
      var s := Screen(tests[..|tests| - 1], parse, reproduced);
      if !IsErrorRevealing(parse(f).value) then Screening(s.kept + [f], s.deleted, s.ran)
      else if reproduced(f) then Screening(s.kept + [f], s.deleted, s.ran + [f])
      else Screening(s.kept, s.deleted + [f], s.ran + [f])
  }

  /** `Screen` over one more test that parses. */
  lemma ScreenStep(tests: seq<FileName>, parse: Parser, reproduced: FileName -> bool, i: nat)
    requires i < |tests| && parse(tests[i]).Some?
    requires forall f :: f in tests[..i] ==> parse(f).Some?
    ensures forall f :: f in tests[..i + 1] ==> parse(f).Some?
    ensures var s := Screen(tests[..i], parse, reproduced);
      var f := tests[i];
      Screen(tests[..i + 1], parse, reproduced)
        == if !IsErrorRevealing(parse(f).value) then Screening(s.kept + [f], s.deleted, s.ran)
           else if reproduced(f) then Screening(s.kept + [f], s.deleted, s.ran + [f])
           else Screening(s.kept, s.deleted + [f], s.ran + [f])
  {
    PrefixStep(tests, i);
    assert tests[..i + 1] == tests[..i] + [tests[i]];
  }

  /** `RemoveNonReproducibleErrors`: returns the kept tests and deletes the others; `ran`
      lists the tests run externally. A file that does not parse ends the walk with its
      exception, after the deletions made so far. */
  method RemoveNonReproducibleErrors(tests: seq<FileName>, parse: Parser, reproduced: FileName -> bool)
    returns (r: Result<seq<FileName>>, deleted: seq<FileName>, ran: seq<FileName>)
    ensures r.Err? <==> exists f :: f in tests && parse(f).None?
    ensures r.Ok? ==> Screen(tests, parse, reproduced) == Screening(r.value, deleted, ran)
    ensures r.Err? ==> r.exception == ParseException
    ensures r.Err? ==> exists k :: 0 <= k < |tests| && parse(tests[k]).None?
                                   && (forall f :: f in tests[..k] ==> parse(f).Some?)
                                   && deleted == Screen(tests[..k], parse, reproduced).deleted
                                   && ran == Screen(tests[..k], parse, reproduced).ran
  {
    var reproducibleTests: seq<FileName> := [];
    deleted, ran := [], [];
    var i := 0;
    while i < |tests|
      invariant 0 <= i <= |tests|
      invariant forall f :: f in tests[..i] ==> parse(f).Some?
      invariant Screen(tests[..i], parse, reproduced) == Screening(reproducibleTests, deleted, ran)
    {
      var test := tests[i];
      match parse(test) {
        case None =>
          assert test in tests;
          return Err(ParseException), deleted, ran;
        case Some(testCase) =>
          ScreenStep(tests, parse, reproduced, i);
          if !IsErrorRevealing(testCase) {
            reproducibleTests := reproducibleTests + [test];
          } else {
            ran := ran + [test];
            if reproduced(test) {
              reproducibleTests := reproducibleTests + [test];
            } else {
              deleted := deleted + [test];
            }
          }
      }
      i := i + 1;
    }
    TakeAll(tests);
    r := Ok(reproducibleTests);
  }

  // ------------------------------------------------------------------ ClassifyTestsByMessage

  /** The tests of `tests` that parse and report `e`, in order. */
  function Members(tests: seq<FileName>, parse: Parser, e: ExceptionDescription): (r: seq<FileName>)
    ensures forall f :: f in r <==> f in tests && parse(f).Some? && parse(f).value.exception == e
    ensures |r| <= |tests|
  {
    if |tests| == 0 then []
    else
      var f := tests[|tests| - 1];
      assert tests == tests[..|tests| - 1] + [f];
      var r := Members(tests[..|tests| - 1], parse, e);
      if parse(f).Some? && parse(f).value.exception == e then r + [f] else r
  }

  /** The dictionary `ClassifyTestsByMessage` returns: one group per reported exception,
      each holding its tests in order; every test that parses is in exactly its exception's
      group, and a test that does not parse is in none. */
  function Classify(tests: seq<FileName>, parse: Parser): (groups: map<ExceptionDescription, seq<FileName>>)
    ensures forall e :: e in groups <==> exists f :: f in tests && parse(f).Some? && parse(f).value.exception == e
    ensures forall e :: e in groups ==> groups[e] == Members(tests, parse, e)
  {
    if |tests| == 0 then map[]
    else
      var f := tests[|tests| - 1];
      assert tests == tests[..|tests| - 1] + [f];
      var groups := Classify(tests[..|tests| - 1], parse);
      match parse(f)
      case None => groups
      case Some(tc) =>
        assert forall e :: Members(tests, parse, e)
                           == Members(tests[..|tests| - 1], parse, e) + (if e == tc.exception then [f] else []);
        var earlier := Members(tests[..|tests| - 1], parse, tc.exception);
        assert tc.exception !in groups ==> earlier == [] by {
          if |earlier| > 0 {
            assert earlier[0] in earlier;
          }
        }
        groups[tc.exception := (if tc.exception in groups then groups[tc.exception] else []) + [f]]
  }

  /** Each test that parses sits in exactly one group, its exception's. */
  lemma ClassifiedOnce(tests: seq<FileName>, parse: Parser, f: FileName)
    requires f in tests
    ensures parse(f).Some? ==> (&& parse(f).value.exception in Classify(tests, parse)
                                && f in Classify(tests, parse)[parse(f).value.exception])
    ensures forall e :: e in Classify(tests, parse) && f in Classify(tests, parse)[e] ==>
              parse(f).Some? && e == parse(f).value.exception
  {
  }

  /** `ClassifyTestsByMessage`: a test that does not parse is skipped. */
  method ClassifyTestsByMessage(tests: seq<FileName>, parse: Parser) returns (testsByMessage: map<ExceptionDescription, seq<FileName>>)
    ensures testsByMessage == Classify(tests, parse)
  {
    testsByMessage := map[];
    var i := 0;
    while i < |tests|
      invariant 0 <= i <= |tests|
      invariant testsByMessage == Classify(tests[..i], parse)
    {
      var t := tests[i];
      PrefixStep(tests, i);
      match parse(t) {
        case None =>
        case Some(tc) =>
          var l: seq<FileName>;
          if tc.exception !in testsByMessage {
            l := [];
          } else {
            l := testsByMessage[tc.exception];
          }
          testsByMessage := testsByMessage[tc.exception := l + [t]];
      }
      i := i + 1;
    }
    TakeAll(tests);
  }
}
