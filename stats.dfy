/** `StatsManager`: the per-round statistics file. While generating, each selection of an
    action is written as one `#`-delimited line through a three-state protocol
    (`Selected`, `CreatedNew`, `ExecutionResult`); afterwards the lines of all rounds are
    parsed back into per-action counters and reported in order of how often each action
    was selected. The file is modelled as its completed lines and the text written after
    the last line break. */
module Stats {
  import opened Common
  import opened CsStrings

  const InternalError := "Common.RandoopBareExceptions.InternalError"
  const ArgumentNull := "System.ArgumentNullException"

  /** The one result `ExecutionResult` accepts outside the `CreatedNewPlan` state. */
  const PreconditionViolation := "precondition violation"

  datatype StatKind = Start | Selected | CreatedNewPlan

  datatype CreationResult = Redundant | NoInputs | New

  /** `CreationResult.ToString()`. */
  function CreationName(cr: CreationResult): (r: string)
    ensures '#' !in r && r != [] && !IsWhiteSpace(r[0]) && !IsWhiteSpace(r[|r| - 1])
  {
    match cr
    case Redundant => "Redundant"
    case NoInputs => "NoInputs"
    case New => "New"
  }

  // ------------------------------------------------------------ the write protocol

  /** The writer's state and what it has written so far. */
  datatype StatsFile = StatsFile(state: StatKind, lines: seq<string>, pending: string)

  /** A line is open exactly when an action has been selected. */
  predicate Valid(f: StatsFile) {
    f.state == Start ==> f.pending == ""
  }

  /** `Selected(t)`: legal only for a non-null name in `Start`; writes `t#`. */
  function SelectedSpec(f: StatsFile, t: Option<string>): Result<StatsFile> {
    if t.None? || f.state != Start then Err(InternalError)
    else Ok(f.(state := Selected, pending := f.pending + t.value + "#"))
  }

  /** `CreatedNew(cr)`: legal only in `Selected`. `NoInputs` and `Redundant` end the line and
      go back to `Start`; `New` writes `New#` and waits for the execution result. */
  function CreatedNewSpec(f: StatsFile, cr: CreationResult): Result<StatsFile> {
    if f.state != Selected then Err(InternalError)
    else if cr == New then Ok(f.(state := CreatedNewPlan, pending := f.pending + CreationName(cr) + "#"))
    else Ok(StatsFile(Start, f.lines + [f.pending + CreationName(cr)], ""))
  }

  /** `ExecutionResult(result)`: legal in `CreatedNewPlan`, and in any state for the result
      "precondition violation"; ends the line and goes back to `Start`. */
  function ExecutionResultSpec(f: StatsFile, result: Option<string>): Result<StatsFile> {
    if result.None? then Err(ArgumentNull)
    else if f.state != CreatedNewPlan && result.value != PreconditionViolation then Err(InternalError)
    else Ok(StatsFile(Start, f.lines + [f.pending + result.value], ""))
  }

  /** Legality of each call, both ways: the call succeeds exactly in the states named, and
      every refused call is refused with InternalError (or ArgumentNullException for a null
      result) before anything is written. */
  lemma Legality(f: StatsFile, t: Option<string>, cr: CreationResult, result: Option<string>)
    ensures SelectedSpec(f, t).Ok? <==> t.Some? && f.state == Start
    ensures SelectedSpec(f, t).Err? ==> SelectedSpec(f, t).exception == InternalError
    ensures CreatedNewSpec(f, cr).Ok? <==> f.state == Selected
    ensures CreatedNewSpec(f, cr).Err? ==> CreatedNewSpec(f, cr).exception == InternalError
    ensures ExecutionResultSpec(f, result).Ok? <==>
      result.Some? && (f.state == CreatedNewPlan || result.value == PreconditionViolation)
    ensures ExecutionResultSpec(f, result).Err? ==>
      ExecutionResultSpec(f, result).exception == (if result.None? then ArgumentNull else InternalError)
  {
  }

  /** Every legal call keeps the file well formed, never rewrites a completed line and
      completes at most one line; the calls that return to `Start` complete exactly one. */
  lemma CallsPreserveValid(f: StatsFile, t: Option<string>, cr: CreationResult, result: Option<string>)
    requires Valid(f)
    ensures SelectedSpec(f, t).Ok? ==> var g := SelectedSpec(f, t).value;
      Valid(g) && g.lines == f.lines && g.state == Selected
    ensures CreatedNewSpec(f, cr).Ok? ==> var g := CreatedNewSpec(f, cr).value;
      Valid(g) && g.lines[..|f.lines|] == f.lines
      && |g.lines| == |f.lines| + (if cr == New then 0 else 1)
      && (g.state == Start <==> cr != New)
    ensures ExecutionResultSpec(f, result).Ok? ==> var g := ExecutionResultSpec(f, result).value;
      Valid(g) && g.state == Start && g.lines[..|f.lines|] == f.lines && |g.lines| == |f.lines| + 1
  {
  }

  /** The line a legal sequence of calls writes for one selection. */
  function StatsLine(action: string, cr: CreationResult, result: Option<string>): string {
    action + "#" + CreationName(cr) + (if result.Some? then "#" + result.value else "")
  }

  /** Starting in `Start`, `Selected(t)` then `CreatedNew(cr)` (then `ExecutionResult(res)`
      when `cr` is `New`) is legal and appends exactly `StatsLine` to the file. */
  lemma {:induction false} LegalSequenceWritesLine(f: StatsFile, t: string, cr: CreationResult, res: string)
    requires Valid(f) && f.state == Start
    ensures SelectedSpec(f, Some(t)).Ok?
    ensures var f1 := SelectedSpec(f, Some(t)).value;
      && CreatedNewSpec(f1, cr).Ok?
      && var f2 := CreatedNewSpec(f1, cr).value;
      if cr == New then
        && ExecutionResultSpec(f2, Some(res)).Ok?
        && ExecutionResultSpec(f2, Some(res)).value == StatsFile(Start, f.lines + [StatsLine(t, New, Some(res))], "")
      else
        f2 == StatsFile(Start, f.lines + [StatsLine(t, cr, None)], "")
  {
    var f1 := SelectedSpec(f, Some(t)).value;
    assert f1.pending == t + "#";
    var f2 := CreatedNewSpec(f1, cr).value;
    if cr == New {
      assert f2.pending == t + "#" + "New" + "#";
      assert f2.pending + res == StatsLine(t, New, Some(res));
    } else {
      assert f1.pending + CreationName(cr) == StatsLine(t, cr, None);
    }
  }

  /** A "precondition violation" reported with no open line completes a line of its own,
      and one reported right after `Selected(t)` completes the line `t#precondition
      violation`. */
  lemma PreconditionViolationLines(f: StatsFile, t: string)
    requires Valid(f) && f.state == Start
    ensures ExecutionResultSpec(f, Some(PreconditionViolation)) == Ok(StatsFile(Start, f.lines + [PreconditionViolation], ""))
    ensures var f1 := SelectedSpec(f, Some(t)).value;
      ExecutionResultSpec(f1, Some(PreconditionViolation)) == Ok(StatsFile(Start, f.lines + [t + "#" + PreconditionViolation], ""))
  {
    var f1 := SelectedSpec(f, Some(t)).value;
    PendingLine(f.pending, t, "#", PreconditionViolation);
  }

  lemma PendingLine<T>(empty: seq<T>, t: seq<T>, sep: seq<T>, r: seq<T>)
    requires empty == []
    ensures empty + r == r && empty + t + sep + r == t + sep + r
  {
  }

  /** The writer object: its state, the completed lines of the stats file and the text
      written since the last line break. */
  class StatsManager {
    var state: StatKind
    var lines: seq<string>
    var pending: string

    function File(): StatsFile
      reads this
    {
      StatsFile(state, lines, pending)
    }

    constructor ()
      ensures File() == StatsFile(Start, [], "") && Valid(File())
    {
      state := Start;
      lines := [];
      pending := "";
    }

    /** `writer.Write(s)`. */
    method Write(s: string)
      modifies this
      ensures File() == old(File()).(pending := old(pending) + s)
    {
      pending := pending + s;
    }

    /** `writer.WriteLine(s)`. */
    method WriteLine(s: string)
      modifies this
      ensures File() == old(File()).(lines := old(lines) + [old(pending) + s], pending := "")
    {
      lines := lines + [pending + s];
      pending := "";
    }

    method Selected(t: Option<string>) returns (thrown: Option<string>)
      modifies this
      ensures Applied(SelectedSpec(old(File()), t), old(File()), File(), thrown)
    {
      if t.None? || state != Start {
        return Some(InternalError);
      }
      Write(t.value);
      Write("#");
      state := StatKind.Selected;
      thrown := None;
    }

    method CreatedNew(cr: CreationResult) returns (thrown: Option<string>)
      modifies this
      ensures Applied(CreatedNewSpec(old(File()), cr), old(File()), File(), thrown)
    {
      if state != StatKind.Selected {
        return Some(InternalError);
      }
      if cr == NoInputs {
        WriteLine(CreationName(cr));
        state := Start;
      } else if cr == Redundant {
        WriteLine(CreationName(cr));
        state := Start;
      } else {
        Write(CreationName(cr));
        Write("#");
        state := CreatedNewPlan;
      }
      thrown := None;
    }

    method ExecutionResult(result: Option<string>) returns (thrown: Option<string>)
      modifies this
      ensures Applied(ExecutionResultSpec(old(File()), result), old(File()), File(), thrown)
    {
      if result.None? {
        return Some(ArgumentNull);
      }
      if state != CreatedNewPlan && result.value != PreconditionViolation {
        return Some(InternalError);
      }
      WriteLine(result.value);
      state := Start;
      thrown := None;
    }
  }

  /** A call's effect: the new file when the call is legal; otherwise the exception, with
      the file as it was. */
  predicate Applied(r: Result<StatsFile>, before: StatsFile, after: StatsFile, thrown: Option<string>) {
    match r
    case Ok(g) => thrown == None && after == g
    case Err(e) => thrown == Some(e) && after == before
  }

  // ------------------------------------------------------------ parsing the lines back

  /** `OneActionStats`: the counters of one action. */
  datatype OneActionStats = OneActionStats(
    action: string,
    timesSelected: nat,
    timesRedundant: nat,
    timesNoInputs: nat,
    timesNew: nat,
    results: map<string, nat>)

  /** Every selection of the action ended in exactly one creation result. */
  predicate Conserved(s: OneActionStats) {
    s.timesSelected == s.timesNoInputs + s.timesRedundant + s.timesNew
  }

  /** The dictionary maps each action to its own counters, and they are conserved. */
  predicate TableOk(stats: map<string, OneActionStats>) {
    forall a :: a in stats ==> stats[a].action == a && Conserved(stats[a])
  }

  /** The entry for `action`, or fresh zero counters. */
  function Lookup(stats: map<string, OneActionStats>, action: string): OneActionStats {
    if action in stats then stats[action] else OneActionStats(action, 0, 0, 0, 0, map[])
  }

  /** `results[key] = old count + 1`, with a missing key counting as 0. */
  function Bump(results: map<string, nat>, key: string): (r: map<string, nat>)
    ensures r.Keys == results.Keys + {key}
    ensures r[key] == (if key in results then results[key] else 0) + 1
    ensures forall k :: k in results && k != key ==> r[k] == results[k]
  {
    results[key := (if key in results then results[key] else 0) + 1]
  }

  /** `ParseAndAdd(line, stats)`: the new dictionary, and the exception if the creation
      field is none of the three names. The entry of the action is created and its
      `timesSelected` incremented before that check, as in the source; the exception then
      abandons the dictionary. */
  function ParseAndAdd(stats: map<string, OneActionStats>, line: string): (map<string, OneActionStats>, Option<string>) {
    AddFields(stats, Split(Trim(line), '#'))
  }

  /** What `ParseAndAdd` does with the `#` fields of the trimmed line. */
  function AddFields(stats: map<string, OneActionStats>, elements: seq<string>): (map<string, OneActionStats>, Option<string>) {
    if |elements| < 2 then (stats, None)
    else AddCreation(stats, Trim(elements[0]), elements)
  }

  /** The entry of `action` counts one more selection, then the creation field decides. */
  function AddCreation(stats: map<string, OneActionStats>, action: string, elements: seq<string>)
    : (map<string, OneActionStats>, Option<string>)
    requires |elements| >= 2
  {
    var s := Lookup(stats, action);
    var s1 := s.(timesSelected := s.timesSelected + 1);
    var creation := elements[1];
    if creation == "NoInputs" then (stats[action := s1.(timesNoInputs := s.timesNoInputs + 1)], None)
    else if creation == "Redundant" then (stats[action := s1.(timesRedundant := s.timesRedundant + 1)], None)
    else if creation != "New" then (stats[action := s1], Some(InternalError))
    else
      var s2 := s1.(timesNew := s.timesNew + 1);
      if |elements| < 3 then (stats[action := s2], None)
      else (stats[action := s2.(results := Bump(s.results, elements[2]))], None)
  }

  /** A line with fewer than two `#` fields is ignored, and any other line that parses
      counts one more selection of one action and exactly one creation result, so the
      counters stay conserved and no other action changes. */
  lemma AddFieldsConserves(stats: map<string, OneActionStats>, elements: seq<string>)
    requires TableOk(stats)
    ensures var (stats', err) := AddFields(stats, elements);
      && (err.None? ==> TableOk(stats'))
      && (|elements| < 2 ==> stats' == stats && err.None?)
      && (|elements| >= 2 ==>
        var action := Trim(elements[0]);
        && stats'.Keys == stats.Keys + {action}
        && stats'[action].timesSelected == Lookup(stats, action).timesSelected + 1
        && forall a :: a in stats && a != action ==> stats'[a] == stats[a])
  {
    if |elements| >= 2 {
      AddCreationConserves(stats, Trim(elements[0]), elements);
    }
  }

  lemma AddCreationConserves(stats: map<string, OneActionStats>, action: string, elements: seq<string>)
    requires TableOk(stats) && |elements| >= 2
    ensures var (stats', err) := AddCreation(stats, action, elements);
      && (err.None? ==> TableOk(stats'))
      && stats'.Keys == stats.Keys + {action}
      && stats'[action].timesSelected == Lookup(stats, action).timesSelected + 1
      && forall a :: a in stats && a != action ==> stats'[a] == stats[a]
  {
    var s := Lookup(stats, action);
    assert s.action == action && Conserved(s);
    var (stats', err) := AddCreation(stats, action, elements);
    assert stats' == stats[action := stats'[action]];
    assert err.None? ==> Conserved(stats'[action]) && stats'[action].action == action;
  }

  lemma ParseAndAddConserves(stats: map<string, OneActionStats>, line: string)
    requires TableOk(stats)
    ensures var (stats', err) := ParseAndAdd(stats, line);
      && (err.None? ==> TableOk(stats'))
      && (|Split(Trim(line), '#')| < 2 ==> stats' == stats && err.None?)
  {
    AddFieldsConserves(stats, Split(Trim(line), '#'));
  }

  /** `ReadStats`: the lines in order, stopping at the first exception. */
  function ReadAll(stats: map<string, OneActionStats>, lines: seq<string>): (map<string, OneActionStats>, Option<string>)
    decreases |lines|
  {
    if lines == [] then (stats, None)
    else
      var (stats1, err) := ParseAndAdd(stats, lines[0]);
      if err.Some? then (stats1, err) else ReadAll(stats1, lines[1..])
  }

  /** Reading a whole file keeps the counters of every action conserved. */
  lemma {:induction false} ReadAllConserves(stats: map<string, OneActionStats>, lines: seq<string>)
    requires TableOk(stats)
    ensures ReadAll(stats, lines).1.None? ==> TableOk(ReadAll(stats, lines).0)
    decreases |lines|
  {
    if lines != [] {
      ParseAndAddConserves(stats, lines[0]);
      var (stats1, err) := ParseAndAdd(stats, lines[0]);
      if err.None? {
        ReadAllConserves(stats1, lines[1..]);
      }
    }
  }

  /** The counters as a legal write sequence of `StatsLine(action, cr, result)` means them. */
  function Record(stats: map<string, OneActionStats>, action: string, cr: CreationResult, result: Option<string>): map<string, OneActionStats> {
    var s := Lookup(stats, action);
    var s1 := s.(timesSelected := s.timesSelected + 1);
    stats[action :=
      match cr
      case NoInputs => s1.(timesNoInputs := s.timesNoInputs + 1)
      case Redundant => s1.(timesRedundant := s.timesRedundant + 1)
      case New =>
        s1.(timesNew := s.timesNew + 1, results := if result.Some? then Bump(s.results, result.value) else s.results)]
  }

  /** A name the line format can carry: no `#` and no white space at either end. */
  predicate PlainName(s: string) {
    '#' !in s && (s == [] || (!IsWhiteSpace(s[0]) && !IsWhiteSpace(s[|s| - 1])))
  }

  /** A result the line format can carry: no `#` and no white space at the end. */
  predicate PlainResult(s: string) {
    '#' !in s && (s == [] || !IsWhiteSpace(s[|s| - 1]))
  }

  lemma StatsLineFields(action: string, cr: CreationResult, result: Option<string>)
    requires '#' !in action && (result.Some? ==> '#' !in result.value)
    ensures Split(StatsLine(action, cr, result), '#') ==
      [action, CreationName(cr)] + (if result.Some? then [result.value] else [])
  {
    var fields := [action, CreationName(cr)] + (if result.Some? then [result.value] else []);
    if result.Some? {
      var rest := [CreationName(cr), result.value];
      assert fields[1..] == rest && rest[1..] == [result.value];
      assert Join(rest, '#') == CreationName(cr) + ['#'] + result.value;
      assert Join(fields, '#') == action + ['#'] + Join(rest, '#');
    } else {
      assert fields[1..] == [CreationName(cr)];
    }
    assert Join(fields, '#') == StatsLine(action, cr, result);
    SplitJoin(fields, '#');
  }

  lemma StatsLineTrimmed(action: string, cr: CreationResult, result: Option<string>)
    requires PlainName(action) && (result.Some? ==> PlainResult(result.value))
    ensures Trim(StatsLine(action, cr, result)) == StatsLine(action, cr, result)
  {
    var line := StatsLine(action, cr, result);
    var name := CreationName(cr);
    assert line[0] == if action == [] then '#' else action[0];
    if result.Some? {
      var tail := "#" + result.value;
      assert line == action + "#" + name + tail;
      assert line[|line| - 1] == tail[|tail| - 1];
    } else {
      assert line == (action + "#") + name;
      assert line[|line| - 1] == name[|name| - 1];
    }
    TrimNoop(line);
  }

  /** The fields of such a line add exactly what the calls that wrote it describe. */
  lemma AddFieldsOfStatsLine(stats: map<string, OneActionStats>, action: string, cr: CreationResult, result: Option<string>)
    requires Trim(action) == action
    ensures AddFields(stats, [action, CreationName(cr)] + (if result.Some? then [result.value] else [])) ==
      (Record(stats, action, cr, result), None)
  {
    var fields := [action, CreationName(cr)] + (if result.Some? then [result.value] else []);
    FieldsShape(action, CreationName(cr), if result.Some? then [result.value] else []);
    assert AddFields(stats, fields) == AddCreation(stats, action, fields);
    AddCreationRecords(stats, action, cr, result, fields);
  }

  lemma FieldsShape<T>(a: T, b: T, tail: seq<T>)
    ensures var f := [a, b] + tail; |f| == 2 + |tail| && f[0] == a && f[1] == b && f[2..] == tail
  {
  }

  lemma AddCreationRecords(stats: map<string, OneActionStats>, action: string, cr: CreationResult,
                           result: Option<string>, fields: seq<string>)
    requires |fields| >= 2 && fields[1] == CreationName(cr)
    requires |fields| >= 3 <==> result.Some?
    requires result.Some? ==> fields[2] == result.value
    ensures AddCreation(stats, action, fields) == (Record(stats, action, cr, result), None)
  {
    var s := Lookup(stats, action);
    var s1 := s.(timesSelected := s.timesSelected + 1);
    match cr
    case NoInputs =>
    case Redundant =>
      assert fields[1] != "NoInputs" by { assert fields[1][0] != "NoInputs"[0]; }
    case New =>
      assert fields[1] != "NoInputs" && fields[1] != "Redundant" by {
        assert |fields[1]| == 3 && |"NoInputs"| == 8 && |"Redundant"| == 9;
      }
  }

  /** Round trip: the line a legal write sequence produces for an action with a plain name
      parses back as that action, with the same creation result and execution result. */
  lemma ParseStatsLine(stats: map<string, OneActionStats>, action: string, cr: CreationResult, result: Option<string>)
    requires PlainName(action) && (result.Some? ==> PlainResult(result.value))
    ensures ParseAndAdd(stats, StatsLine(action, cr, result)) == (Record(stats, action, cr, result), None)
  {
    var line := StatsLine(action, cr, result);
    var fields := [action, CreationName(cr)] + (if result.Some? then [result.value] else []);
    calc {
      ParseAndAdd(stats, line);
      AddFields(stats, Split(Trim(line), '#'));
      { StatsLineTrimmed(action, cr, result); }
      AddFields(stats, Split(line, '#'));
      { StatsLineFields(action, cr, result); }
      AddFields(stats, fields);
      { TrimNoop(action); AddFieldsOfStatsLine(stats, action, cr, result); }
      (Record(stats, action, cr, result), None);
    }
  }

  /** Write then read: after `Selected`, `CreatedNew` (and `ExecutionResult` for a new
      plan) the last line of the file parses back to exactly the counters the calls
      describe. */
  lemma WriteThenParse(f: StatsFile, stats: map<string, OneActionStats>, t: string, cr: CreationResult, res: string)
    requires Valid(f) && f.state == Start && PlainName(t) && PlainResult(res)
    ensures var f2 := CreatedNewSpec(SelectedSpec(f, Some(t)).value, cr).value;
      var g := if cr == New then ExecutionResultSpec(f2, Some(res)).value else f2;
      && g.lines[..|f.lines|] == f.lines && |g.lines| == |f.lines| + 1
      && ParseAndAdd(stats, g.lines[|f.lines|]) == (Record(stats, t, cr, if cr == New then Some(res) else None), None)
  {
    LegalSequenceWritesLine(f, t, cr, res);
    ParseStatsLine(stats, t, cr, if cr == New then Some(res) else None);
  }

  /** A line without `#` is ignored by the parser. */
  lemma {:induction false} LineWithoutSeparatorIgnored(stats: map<string, OneActionStats>, line: string)
    requires PlainName(line)
    ensures ParseAndAdd(stats, line) == (stats, None)
  {
    calc {
      ParseAndAdd(stats, line);
      AddFields(stats, Split(Trim(line), '#'));
      { TrimNoop(line); }
      AddFields(stats, Split(line, '#'));
      { SplitJoin([line], '#'); }
      AddFields(stats, [line]);
    }
  }

  /** A line whose second field is none of the three creation names makes the parser throw. */
  lemma {:induction false} UnknownCreationThrows(stats: map<string, OneActionStats>, t: string, c: string)
    requires PlainName(t) && PlainResult(c) && c != [] && c !in {"NoInputs", "Redundant", "New"}
    ensures ParseAndAdd(stats, t + "#" + c).1 == Some(InternalError)
  {
    var line := t + "#" + c;
    var fields := [t, c];
    assert fields[1..] == [c];
    assert line == Join(fields, '#');
    assert line[0] == if t == [] then '#' else t[0];
    assert line[|line| - 1] == c[|c| - 1];
    calc {
      ParseAndAdd(stats, line);
      AddFields(stats, Split(Trim(line), '#'));
      { TrimNoop(line); }
      AddFields(stats, Split(line, '#'));
      { SplitJoin(fields, '#'); }
      AddFields(stats, fields);
    }
  }

  /** So the line "precondition violation" written with no open line is ignored, and the one
      written right after `Selected(t)` makes the parser throw. */
  lemma PreconditionViolationParses(stats: map<string, OneActionStats>, t: string)
    requires PlainName(t)
    ensures ParseAndAdd(stats, PreconditionViolation) == (stats, None)
    ensures ParseAndAdd(stats, t + "#" + PreconditionViolation).1 == Some(InternalError)
  {
    var pv := PreconditionViolation;
    assert pv[0] == 'p' && pv[|pv| - 1] == 'n';
    assert PlainName(pv);
    LineWithoutSeparatorIgnored(stats, pv);
    assert pv != "NoInputs" && pv != "Redundant" && pv != "New" by {
      assert pv[0] != "NoInputs"[0] && pv[0] != "Redundant"[0] && pv[0] != "New"[0];
    }
    UnknownCreationThrows(stats, t, pv);
  }

  /** The parser as `ReadStats` drives it, over the dictionary it fills. */
  class StatsTable {
    var stats: map<string, OneActionStats>

    constructor ()
      ensures stats == map[]
    {
      stats := map[];
    }

    /** `ReadStats`: parse the file's lines in order; the first exception ends the read. */
    method ReadStats(fileLines: seq<string>) returns (thrown: Option<string>)
      modifies this
      ensures (stats, thrown) == ReadAll(old(stats), fileLines)
    {
      var i := 0;
      while i < |fileLines|
        invariant 0 <= i <= |fileLines|
        invariant ReadAll(old(stats), fileLines) == ReadAll(stats, fileLines[i..])
      {
        assert fileLines[i..][1..] == fileLines[i + 1..];
        var (stats1, err) := ParseAndAdd(stats, fileLines[i]);
        stats := stats1;
        if err.Some? {
          return err;
        }
        i := i + 1;
      }
      thrown := None;
    }
  }

  // ------------------------------------------------------------ the report order

  predicate NonIncreasing(r: seq<OneActionStats>) {
    forall i, j :: 0 <= i < j < |r| ==> r[i].timesSelected >= r[j].timesSelected
  }

  /** Insert `x` after every entry selected at least as often. */
  function Insert(r: seq<OneActionStats>, x: OneActionStats): (r': seq<OneActionStats>)
    requires NonIncreasing(r)
    ensures NonIncreasing(r') && |r'| == |r| + 1
    ensures forall y :: y in r' <==> y in r || y == x
    ensures multiset(r') == multiset(r) + multiset{x}
  {
    if r == [] then [x]
    else if r[0].timesSelected >= x.timesSelected then
      var rest := Insert(r[1..], x);
      InsertBehind(r, x, rest);
      [r[0]] + rest
    else
      InsertInFront(r, x);
      [x] + r
  }

  /** `x` goes behind a first entry selected at least as often. */
  lemma InsertBehind(r: seq<OneActionStats>, x: OneActionStats, rest: seq<OneActionStats>)
    requires |r| > 0 && NonIncreasing(r) && r[0].timesSelected >= x.timesSelected
    requires NonIncreasing(rest) && |rest| == |r|
    requires forall y :: y in rest <==> y in r[1..] || y == x
    requires multiset(rest) == multiset(r[1..]) + multiset{x}
    ensures NonIncreasing([r[0]] + rest)
    ensures forall y :: y in [r[0]] + rest <==> y in r || y == x
    ensures multiset([r[0]] + rest) == multiset(r) + multiset{x}
  {
    assert r == [r[0]] + r[1..];
    var r' := [r[0]] + rest;
    forall i, j | 0 <= i < j < |r'| ensures r'[i].timesSelected >= r'[j].timesSelected {
      if i == 0 {
        assert r'[j] == rest[j - 1] && rest[j - 1] in rest;
        if rest[j - 1] != x {
          var m :| 1 <= m < |r| && r[m] == rest[j - 1];
        }
      }
    }
  }

  /** `x` goes in front when the first entry is selected less often. */
  lemma InsertInFront(r: seq<OneActionStats>, x: OneActionStats)
    requires |r| > 0 && NonIncreasing(r) && r[0].timesSelected < x.timesSelected
    ensures NonIncreasing([x] + r)
  {
    var r' := [x] + r;
    forall i, j | 0 <= i < j < |r'| ensures r'[i].timesSelected >= r'[j].timesSelected {
      if i == 0 {
        assert r'[j] == r[j - 1];
      }
    }
  }

  /** `SortByTimesActionsSelected`: every entry of the dictionary once, most selected first.
      `List.Sort` is not stable, so the order of entries selected equally often is left
      open; this model settles it by insertion. */
  method SortByTimesActionsSelected(stats: map<string, OneActionStats>) returns (r: seq<OneActionStats>)
    ensures NonIncreasing(r)
    ensures |r| == |stats|
    ensures forall x :: x in r <==> x in stats.Values
  {
    var remaining := stats.Keys;
    r := [];
    while remaining != {}
      invariant remaining <= stats.Keys
      invariant NonIncreasing(r)
      invariant |r| + |remaining| == |stats.Keys|
      invariant forall x :: x in r <==> exists a :: a in stats.Keys - remaining && stats[a] == x
      decreases remaining
    {
      var a :| a in remaining;
      assert stats.Keys - (remaining - {a}) == (stats.Keys - remaining) + {a};
      r := Insert(r, stats[a]);
      remaining := remaining - {a};
    }
    assert stats.Keys - remaining == stats.Keys;
  }
}
