/** The `Randoop` wrapper process: it reads the command line, then runs the input generator
    as a child process round after round until the time limit is spent, each round with a
    budget of at most the restart time. Each child's outcome (exit code, standard error text,
    running time) and the execution log it leaves are given by the environment; durations are
    `TimeSpan` ticks. Enviroment.cs, which holds the sentinel messages, is not part of this
    model, so the two sentinels are parameters. */
module Supervisor {
  import opened Common
  import opened CsStrings

  const TicksPerSecond: int := 10_000_000
  const DefaultTotalTimeLimit: int := 100
  const DefaultRestartTimeSeconds: int := 100
  const GraceSeconds: int := 30
  const ArgumentOutOfRangeException := "System.ArgumentOutOfRangeException"

  /** `new TimeSpan(0, 0, seconds)`. */
  function Seconds(seconds: int): int {
    seconds * TicksPerSecond
  }

  // ------------------------------------------------------------------ time arithmetic

  /** `TotalSeconds` rounded to the nearest whole second, ties to the even one, as
      `Convert.ToInt32(double)` rounds. */
  function RoundSeconds(ticks: int): (s: int)
    ensures 2 * (ticks - s * TicksPerSecond) <= TicksPerSecond
    ensures 2 * (s * TicksPerSecond - ticks) <= TicksPerSecond
    ensures 2 * (ticks - s * TicksPerSecond) == TicksPerSecond ==> s % 2 == 0
    ensures 2 * (s * TicksPerSecond - ticks) == TicksPerSecond ==> s % 2 == 0
  {
    var q := ticks / TicksPerSecond;
    var r := ticks % TicksPerSecond;
    if 2 * r < TicksPerSecond then q
    else if 2 * r > TicksPerSecond then q + 1
    else if q % 2 == 0 then q
    else q + 1
  }

  /** `Convert.ToInt32(t.TotalSeconds)`: throws OverflowException when the rounded value
      does not fit in an `int`. */
  function RoundedSeconds(ticks: int): (r: Result<int>)
    ensures r.Ok? <==> IsInt32(RoundSeconds(ticks))
    ensures r.Ok? ==> r.value == RoundSeconds(ticks)
    ensures r.Err? ==> r.exception == OverflowException
  {
    var s := RoundSeconds(ticks);
    if IsInt32(s) then Ok(s) else Err(OverflowException)
  }

  /** Rounding never reverses the order of two durations. */
  lemma RoundMonotone(a: int, b: int)
    requires a <= b
    ensures RoundSeconds(a) <= RoundSeconds(b)
  {
    var sa, sb := RoundSeconds(a), RoundSeconds(b);
    if a < b {
      assert 2 * (sa - sb) * TicksPerSecond < 2 * TicksPerSecond;
    }
  }

  /** So a rounded comparison that holds also holds exactly. */
  lemma RoundedLessIsLess(a: int, b: int)
    requires RoundSeconds(a) < RoundSeconds(b)
    ensures a < b
  {
    if b <= a {
      RoundMonotone(b, a);
    }
  }

  /** A whole number of seconds rounds to itself. */
  lemma RoundWholeSeconds(n: int)
    ensures RoundSeconds(Seconds(n)) == n
  {
    var s := RoundSeconds(Seconds(n));
    assert 2 * (s - n) * TicksPerSecond <= TicksPerSecond && 2 * (n - s) * TicksPerSecond <= TicksPerSecond;
  }

  /** `CalculateNextTimeLimit`: the time left, or the per-round budget when less is left. */
  function CalculateNextTimeLimit(timeLimit: int, totalTime: int, timePerInvocation: int): (r: int)
    ensures r <= timePerInvocation && r <= timeLimit - totalTime
    ensures r == timePerInvocation || r == timeLimit - totalTime
  {
    if timeLimit - totalTime < timePerInvocation then timeLimit - totalTime else timePerInvocation
  }

  /** `(Convert.ToInt32(budget.TotalSeconds) + 30) * 1000` in unchecked `int` arithmetic. */
  function WaitTimeAsWritten(budgetTicks: int): (r: Result<int>)
    ensures r.Ok? ==> IsInt32(r.value)
    ensures r.Ok? <==> RoundedSeconds(budgetTicks).Ok?
  {
    match RoundedSeconds(budgetTicks)
    case Err(e) => Err(e)
    case Ok(s) => Ok(Wrap32(Wrap32(s + GraceSeconds) * 1000))
  }

  /** A budget of 2147454 seconds (about 24.9 days) gives a negative wait, which
      `WaitForExit` refuses with ArgumentOutOfRangeException. */
  lemma WaitTimeWraps()
    ensures WaitTimeAsWritten(Seconds(2147454)) == Ok(-2147483296)
  {
    RoundWholeSeconds(2147454);
  }

  /** The wait the comment promises: the budget plus 30 seconds, in milliseconds, computed
      without wrap-around. */
  function WaitTime(budgetTicks: int): (r: Result<int>)
    ensures r.Ok? <==> RoundedSeconds(budgetTicks).Ok?
    ensures r.Ok? ==> r.value == (RoundSeconds(budgetTicks) + GraceSeconds) * 1000
    ensures r.Ok? && budgetTicks >= 0 ==> r.value >= GraceSeconds * 1000
  {
    match RoundedSeconds(budgetTicks)
    case Err(e) => Err(e)
    case Ok(s) =>
      assert budgetTicks >= 0 ==> s >= 0 by {
        if budgetTicks >= 0 {
          RoundMonotone(0, budgetTicks);
        }
      }
      Ok((s + GraceSeconds) * 1000)
  }

  /** The two agree for every budget below 2147454 seconds. */
  lemma WaitTimeAgreesBelowBound(budgetTicks: int)
    requires RoundedSeconds(budgetTicks).Ok?
    requires 0 <= RoundSeconds(budgetTicks) <= 2147453
    ensures WaitTimeAsWritten(budgetTicks) == WaitTime(budgetTicks)
  {
  }

  // ------------------------------------------------------------------ exit classification

  /** `Enviroment.RandoopBareInternalErrorMessage` and
      `Enviroment.RandoopBareInvalidUserParametersErrorMessage`. */
  datatype Sentinels = Sentinels(internalError: string, invalidUserParameters: string)

  /** What a child process did: its exit code, its standard error text, and `ExitTime -
      StartTime`. */
  datatype ChildOutcome = ChildOutcome(exitCode: int, stderr: string, durationTicks: int)

  /** The value `DoInputGenerationRound` returns: the child's exit code when it failed with
      one of the two sentinels on standard error, else 0 — any other crash lets generation
      go on. */
  function RoundResult(sentinels: Sentinels, outcome: ChildOutcome): (r: int)
    ensures r != 0 <==> outcome.exitCode != 0 && (Contains(outcome.stderr, sentinels.internalError)
                                                 || Contains(outcome.stderr, sentinels.invalidUserParameters))
    ensures r != 0 ==> r == outcome.exitCode
  {
    if outcome.exitCode != 0 && Contains(outcome.stderr, sentinels.internalError) then outcome.exitCode
    else if outcome.exitCode != 0 && Contains(outcome.stderr, sentinels.invalidUserParameters) then outcome.exitCode
    else 0
  }

  // ------------------------------------------------------------------ execution log

  const LastPlanIdPrefix := "LASTPLANID:"
  const ExecuteMethod := "execute method "
  const EndExecuteMethod := "end execute method"
  const ExecuteConstructor := "execute constructor "
  const EndExecuteConstructor := "end execute constructor"

  predicate IsPlanIdLine(line: string) {
    StartsWith(line, LastPlanIdPrefix)
  }

  /** `int.Parse(line.Substring("LASTPLANID:".Length).Trim())`: the substring throws on a
      line shorter than the prefix, the parse on text that is not a 32-bit integer. */
  function PlanIdValue(line: string): (r: Result<int>)
    ensures |line| < |LastPlanIdPrefix| ==> r == Err(ArgumentOutOfRangeException)
    ensures IsPlanIdLine(line) ==> r == ParseInt32(Trim(line[|LastPlanIdPrefix|..]))
  {
    if |line| < |LastPlanIdPrefix| then Err(ArgumentOutOfRangeException)
    else ParseInt32(Trim(line[|LastPlanIdPrefix|..]))
  }

  /** The line the generator writes for plan id `n` reads back as `n`. */
  lemma PlanIdLineRoundTrip(n: int)
    requires IsInt32(n)
    ensures IsPlanIdLine(LastPlanIdPrefix + IntToString(n))
    ensures PlanIdValue(LastPlanIdPrefix + IntToString(n)) == Ok(n)
  {
    var line := LastPlanIdPrefix + IntToString(n);
    assert line[..|LastPlanIdPrefix|] == LastPlanIdPrefix;
    assert line[|LastPlanIdPrefix|..] == IntToString(n);
    var s := IntToString(n);
    assert IsDigit(s[|s| - 1]) by {
      if n < 0 {
        assert s[|s| - 1] == NatToDigits(-n)[|NatToDigits(-n)| - 1];
      }
    }
    TrimNoop(s);
    IntToStringParses(n);
  }

  /** A `LASTPLANID:` line fails only as `int.Parse` does: FormatException for text that is
      not an integer, OverflowException for one outside 32 bits. */
  lemma PlanIdLineFailures(line: string)
    requires IsPlanIdLine(line)
    ensures var text := Trim(line[|LastPlanIdPrefix|..]);
      && (PlanIdValue(line) == Err(FormatException) <==> !IntegerSyntax(text))
      && (PlanIdValue(line) == Err(OverflowException) <==> IntegerSyntax(text) && TryParseInt32(text).None?)
      && (PlanIdValue(line).Ok? <==> TryParseInt32(text).Some?)
  {
  }

  /** The plan id the log records: the value on its last `LASTPLANID:` line, 0 when there is
      none; the first `LASTPLANID:` line whose value does not parse throws. */
  function LastPlanId(lines: seq<string>): Result<int> {
    ScanPlanIds(lines, PlanIdValue)
  }

  /** The scan over the log's lines with `value` reading a `LASTPLANID:` line; what it
      throws is what `value` threw on one of them. */
  function ScanPlanIds(lines: seq<string>, value: string -> Result<int>): (r: Result<int>)
    ensures r.Err? ==> exists i :: 0 <= i < |lines| && IsPlanIdLine(lines[i]) && value(lines[i]) == r
  {
    if |lines| == 0 then Ok(0)
    else
      var last := |lines| - 1;
      match ScanPlanIds(lines[..last], value)
      case Err(e) =>
        var i :| 0 <= i < last && IsPlanIdLine(lines[..last][i]) && value(lines[..last][i]) == Err(e);
        assert lines[..last][i] == lines[i];
        Err(e)
      case Ok(v) =>
        if !IsPlanIdLine(lines[last]) then Ok(v)
        else match value(lines[last])
          case Err(e) => Err(e)
          case Ok(n) => Ok(n)
  }

  /** The log fails exactly when one of its `LASTPLANID:` lines does not parse. */
  lemma {:induction false} ScanFails(lines: seq<string>, value: string -> Result<int>)
    ensures ScanPlanIds(lines, value).Err? <==> exists i :: 0 <= i < |lines| && IsPlanIdLine(lines[i]) && value(lines[i]).Err?
  {
    if |lines| > 0 {
      var last := |lines| - 1;
      ScanFails(lines[..last], value);
      assert forall i :: 0 <= i < last ==> lines[..last][i] == lines[i];
    }
  }

  /** Whatever the log throws is what `int.Parse` or `Substring` throws. */
  lemma LastPlanIdFailures(lines: seq<string>)
    ensures var r := LastPlanId(lines);
      r.Err? ==> r.exception == FormatException || r.exception == OverflowException
  {
    var r := LastPlanId(lines);
    if r.Err? {
      var i :| 0 <= i < |lines| && IsPlanIdLine(lines[i]) && PlanIdValue(lines[i]) == r;
      PlanIdLineFailures(lines[i]);
    }
  }

  /** One more line of the log extends the scan of the lines before it. */
  lemma ScanStep(lines: seq<string>, i: nat, value: string -> Result<int>)
    requires i < |lines| && ScanPlanIds(lines[..i], value).Ok?
    ensures ScanPlanIds(lines[..i + 1], value)
            == if IsPlanIdLine(lines[i]) then value(lines[i]) else ScanPlanIds(lines[..i], value)
  {
    PrefixStep(lines, i);
  }

  /** Once the scan has thrown, the lines after it do not change what it threw. */
  lemma {:induction false} ScanErrStays(lines: seq<string>, k: nat, value: string -> Result<int>)
    requires k <= |lines| && ScanPlanIds(lines[..k], value).Err?
    ensures ScanPlanIds(lines, value) == ScanPlanIds(lines[..k], value)
    decreases |lines| - k
  {
    if k < |lines| {
      PrefixStep(lines, k);
      assert ScanPlanIds(lines[..k + 1], value) == ScanPlanIds(lines[..k], value);
      ScanErrStays(lines, k + 1, value);
    } else {
      TakeAll(lines);
    }
  }

  /** Otherwise the plan id is the value on the last `LASTPLANID:` line, or 0 without one. */
  lemma {:induction false} ScanFindsLast(lines: seq<string>, value: string -> Result<int>)
    requires ScanPlanIds(lines, value).Ok?
    ensures || (ScanPlanIds(lines, value).value == 0 && forall i :: 0 <= i < |lines| ==> !IsPlanIdLine(lines[i]))
            || exists i :: (&& 0 <= i < |lines| && IsPlanIdLine(lines[i])
                            && value(lines[i]) == Ok(ScanPlanIds(lines, value).value)
                            && forall j :: i < j < |lines| ==> !IsPlanIdLine(lines[j]))
  {
    if |lines| > 0 {
      var last := |lines| - 1;
      var front := lines[..last];
      assert ScanPlanIds(front, value).Ok?;
      if IsPlanIdLine(lines[last]) {
        assert value(lines[last]) == Ok(ScanPlanIds(lines, value).value);
      } else {
        assert ScanPlanIds(lines, value) == ScanPlanIds(front, value);
        ScanFindsLast(front, value);
        assert forall i :: 0 <= i < last ==> front[i] == lines[i];
      }
    }
  }

  /** `AddMethodToOmit`: a log line that starts a method or constructor call and does not
      end it names the member that was running when the child died. */
  function MemberToOmit(line: string): (r: Option<string>)
    ensures r.Some? ==> || (StartsWith(line, ExecuteMethod) && !EndsWith(line, EndExecuteMethod))
                        || (StartsWith(line, ExecuteConstructor) && !EndsWith(line, EndExecuteConstructor))
    ensures (|| (StartsWith(line, ExecuteMethod) && !EndsWith(line, EndExecuteMethod))
             || (StartsWith(line, ExecuteConstructor) && !EndsWith(line, EndExecuteConstructor))) ==> r.Some?
  {
    if StartsWith(line, ExecuteMethod) && !EndsWith(line, EndExecuteMethod) then
      Some(Trim(line[|ExecuteMethod|..]))
    else if StartsWith(line, ExecuteConstructor) && !EndsWith(line, EndExecuteConstructor) then
      Some(Trim(line[|ExecuteConstructor|..]))
    else None
  }

  /** The member a dangling `execute method` line names is read back unchanged. */
  lemma MemberToOmitRoundTrip(name: string)
    requires name != [] && !IsWhiteSpace(name[0]) && !IsWhiteSpace(name[|name| - 1])
    requires !EndsWith(ExecuteMethod + name, EndExecuteMethod)
    ensures MemberToOmit(ExecuteMethod + name) == Some(name)
  {
    var line := ExecuteMethod + name;
    assert line[..|ExecuteMethod|] == ExecuteMethod;
    assert line[|ExecuteMethod|..] == name;
    TrimNoop(name);
  }

  /** A call that finished leaves nothing to omit. */
  lemma FinishedCallOmitsNothing(name: string)
    ensures MemberToOmit(ExecuteMethod + name + EndExecuteMethod) == None
  {
    var line := ExecuteMethod + name + EndExecuteMethod;
    assert line[|line| - |EndExecuteMethod|..] == EndExecuteMethod;
    assert !StartsWith(line, ExecuteConstructor) by {
      assert line[8] == 'm';
    }
  }

  /** `AnalyzeLastExecution`: reads the execution log line by line; every `LASTPLANID:` line
      sets the plan id, and the final line, when it is not one, may name a member to omit,
      which is written to a new forbid file. `log` is None when there is no log file. */
  method AnalyzeLastExecution(log: Option<seq<string>>) returns (lastPlanId: int, thrown: Option<string>, omitted: Option<string>)
    ensures log.None? ==> lastPlanId == 0 && thrown.None? && omitted.None?
    ensures log.Some? ==> (thrown.None? <==> LastPlanId(log.value).Ok?)
    ensures log.Some? && thrown.None? ==> lastPlanId == LastPlanId(log.value).value
    ensures log.Some? && thrown.Some? ==> LastPlanId(log.value) == Err(thrown.value) && omitted.None?
    ensures log.Some? && thrown.None? ==>
              omitted == (if |log.value| > 0 && !IsPlanIdLine(log.value[|log.value| - 1])
                          then MemberToOmit(log.value[|log.value| - 1]) else None)
  {
    if log.None? {
      return 0, None, None;
    }
    lastPlanId, thrown, omitted := ReadLog(log.value);
  }

  /** The member to omit once `i` lines are read: named only by a last line that is not a
      plan-id line. */
  function OmittedAt(lines: seq<string>, i: nat): Option<string>
    requires i <= |lines|
  {
    if 0 < i == |lines| && !IsPlanIdLine(lines[i - 1]) then MemberToOmit(lines[i - 1]) else None
  }

  /** The reading loop over an existing log. */
  method ReadLog(lines: seq<string>) returns (lastPlanId: int, thrown: Option<string>, omitted: Option<string>)
    ensures thrown.None? <==> LastPlanId(lines).Ok?
    ensures thrown.None? ==> lastPlanId == LastPlanId(lines).value
    ensures thrown.Some? ==> LastPlanId(lines) == Err(thrown.value) && omitted.None?
    ensures thrown.None? ==> omitted == OmittedAt(lines, |lines|)
  {
    lastPlanId, thrown, omitted := 0, None, None;
    var i := 0;
    while i < |lines|
      invariant 0 <= i <= |lines|
      invariant ScanPlanIds(lines[..i], PlanIdValue) == Ok(lastPlanId)
      invariant omitted == OmittedAt(lines, i)
    {
      var next, failure, member := ReadLogLine(lines, i, lastPlanId);
      if failure.Some? {
        return 0, failure, None;
      }
      lastPlanId, omitted := next, member;
      i := i + 1;
    }
    TakeAll(lines);
    assert LastPlanId(lines) == Ok(lastPlanId);
  }

  /** One pass of the reading loop over line `i`: a `LASTPLANID:` line sets the plan id, or
      throws; any other line, when it is the last, may name a member to omit. */
  method ReadLogLine(lines: seq<string>, i: nat, lastPlanId: int) returns (next: int, failure: Option<string>, omitted: Option<string>)
    requires i < |lines| && ScanPlanIds(lines[..i], PlanIdValue) == Ok(lastPlanId)
    ensures failure.Some? ==> LastPlanId(lines) == Err(failure.value)
    ensures failure.None? ==> ScanPlanIds(lines[..i + 1], PlanIdValue) == Ok(next)
    ensures failure.None? ==> omitted == OmittedAt(lines, i + 1)
  {
    var line := lines[i];
    omitted := None;
    if IsPlanIdLine(line) {
      var parsed := PlanIdValue(line);
      ScanStep(lines, i, PlanIdValue);
      if parsed.Err? {
        ScanErrStays(lines, i + 1, PlanIdValue);
        return 0, Some(parsed.exception), None;
      }
      return parsed.value, None, None;
    }
    ScanStep(lines, i, PlanIdValue);
    if i == |lines| - 1 {
      omitted := MemberToOmit(line);
    }
    return lastPlanId, None, omitted;
  }

  // ------------------------------------------------------------------ rounds

  /** One round as the wrapper runs it. */
  datatype Round = Round(number: nat, budgetTicks: int, waitMilliseconds: int, lastPlanId: int,
                         omitted: Option<string>, outcome: ChildOutcome, result: int)

  /** The total child running time of the rounds so far. */
  function Elapsed(rounds: seq<Round>): int {
    if |rounds| == 0 then 0 else Elapsed(rounds[..|rounds| - 1]) + rounds[|rounds| - 1].outcome.durationTicks
  }

  /** `DoInputGenerationRound`: the budget, the last run's log, the child's outcome, and the
      result. `log(n)` is the execution log before round `n`; `spawn(n, budget)` is what the
      child of round `n` does. */
  method DoInputGenerationRound(timeLimitTicks: int, restartTimeSeconds: int, round: nat, totalTime: int,
                                sentinels: Sentinels, log: nat -> Option<seq<string>>,
                                spawn: (nat, int) -> ChildOutcome)
    returns (r: Result<Round>)
    ensures r.Ok? ==> && r.value.number == round
                      && r.value.budgetTicks == CalculateNextTimeLimit(timeLimitTicks, totalTime, Seconds(restartTimeSeconds))
                      && r.value.outcome == spawn(round, r.value.budgetTicks)
                      && Ok(r.value.waitMilliseconds) == WaitTime(r.value.budgetTicks)
                      && r.value.result == RoundResult(sentinels, r.value.outcome)
    ensures r.Ok? ==> log(round).Some? ==> Ok(r.value.lastPlanId) == LastPlanId(log(round).value)
    ensures r.Ok? ==> log(round).None? ==> r.value.lastPlanId == 0 && r.value.omitted.None?
    ensures r.Err? ==> || (log(round).Some? && LastPlanId(log(round).value).Err?)
                       || RoundedSeconds(CalculateNextTimeLimit(timeLimitTicks, totalTime, Seconds(restartTimeSeconds))).Err?
  {
    var timeForNextInvocation := CalculateNextTimeLimit(timeLimitTicks, totalTime, Seconds(restartTimeSeconds));
    var lastPlanId, thrown, omitted := AnalyzeLastExecution(log(round));
    if thrown.Some? {
      return Err(thrown.value);
    }
    var waitTime := WaitTime(timeForNextInvocation);
    if waitTime.Err? {
      return Err(waitTime.exception);
    }
    var outcome := spawn(round, timeForNextInvocation);
    r := Ok(Round(round, timeForNextInvocation, waitTime.value, lastPlanId, omitted, outcome,
                  RoundResult(sentinels, outcome)));
  }

  /** Round `r`, following the rounds `before`, was started with less time used than the
      limit, in rounded seconds, and with the budget and the child the wrapper gave it. */
  ghost predicate RoundStarted(timeLimitSeconds: int, restartTimeSeconds: int, sentinels: Sentinels,
                               spawn: (nat, int) -> ChildOutcome, before: seq<Round>, r: Round)
  {
    && r.number == |before| + 1
    && RoundSeconds(Elapsed(before)) < timeLimitSeconds
    && r.budgetTicks == CalculateNextTimeLimit(Seconds(timeLimitSeconds), Elapsed(before), Seconds(restartTimeSeconds))
    && 0 < r.budgetTicks <= Seconds(restartTimeSeconds)
    && r.outcome == spawn(|before| + 1, r.budgetTicks)
    && r.result == RoundResult(sentinels, r.outcome)
  }

  /** Every recorded round was started as `RoundStarted` says. */
  ghost predicate RoundsFollow(timeLimitSeconds: int, restartTimeSeconds: int, sentinels: Sentinels,
                               spawn: (nat, int) -> ChildOutcome, rounds: seq<Round>)
  {
    forall k :: 0 <= k < |rounds| ==>
      RoundStarted(timeLimitSeconds, restartTimeSeconds, sentinels, spawn, rounds[..k], rounds[k])
  }

  lemma RoundsFollowExtend(timeLimitSeconds: int, restartTimeSeconds: int, sentinels: Sentinels,
                           spawn: (nat, int) -> ChildOutcome, rounds: seq<Round>, r: Round)
    requires RoundsFollow(timeLimitSeconds, restartTimeSeconds, sentinels, spawn, rounds)
    requires RoundStarted(timeLimitSeconds, restartTimeSeconds, sentinels, spawn, rounds, r)
    ensures RoundsFollow(timeLimitSeconds, restartTimeSeconds, sentinels, spawn, rounds + [r])
  {
    var all := rounds + [r];
    forall k | 0 <= k < |all|
      ensures RoundStarted(timeLimitSeconds, restartTimeSeconds, sentinels, spawn, all[..k], all[k])
    {
      if k < |rounds| {
        assert all[..k] == rounds[..k] && all[k] == rounds[k];
      } else {
        assert all[..k] == rounds && all[k] == r;
      }
    }
  }

  /** `GenerateTests`' loop: rounds go on while the rounded time used is below the rounded
      limit and every round returned 0. The arguments have passed `CommandLineArguments`, so
      both times are positive; every child runs for some positive time. An exception in a
      round leaves the loop (the wrapper then exits with 1). */
  method GenerateTests(timeLimitSeconds: int, restartTimeSeconds: int, sentinels: Sentinels,
                       log: nat -> Option<seq<string>>, spawn: (nat, int) -> ChildOutcome)
    returns (rounds: seq<Round>, totalTime: int, thrown: Option<string>)
    requires 0 < timeLimitSeconds && IsInt32(timeLimitSeconds)
    requires 0 < restartTimeSeconds && IsInt32(restartTimeSeconds)
    requires forall n: nat, budget: int :: spawn(n, budget).durationTicks > 0
    ensures totalTime == Elapsed(rounds)
    ensures RoundsFollow(timeLimitSeconds, restartTimeSeconds, sentinels, spawn, rounds)
    ensures forall k :: 0 <= k < |rounds| - 1 ==> rounds[k].result == 0
    ensures thrown.None? ==> (|| (|rounds| > 0 && rounds[|rounds| - 1].result != 0)
                              || RoundSeconds(totalTime) >= timeLimitSeconds)
  {
    totalTime := 0;
    var round := 0;
    rounds := [];
    thrown := None;
    var timeLimit := Seconds(timeLimitSeconds);
    RoundWholeSeconds(timeLimitSeconds);
    while true
      invariant round == |rounds| && totalTime == Elapsed(rounds)
      invariant RoundsFollow(timeLimitSeconds, restartTimeSeconds, sentinels, spawn, rounds)
      invariant forall k :: 0 <= k < |rounds| ==> rounds[k].result == 0
      decreases timeLimit - totalTime
    {
      var elapsed := RoundedSeconds(totalTime);
      if elapsed.Err? {
        thrown := Some(elapsed.exception);
        return;
      }
      if !(elapsed.value < RoundSeconds(timeLimit)) {
        break;
      }
      RoundedLessIsLess(totalTime, timeLimit);
      round := round + 1;
      var r := DoInputGenerationRound(timeLimit, restartTimeSeconds, round, totalTime, sentinels, log, spawn);
      if r.Err? {
        thrown := Some(r.exception);
        return;
      }
      RoundsFollowExtend(timeLimitSeconds, restartTimeSeconds, sentinels, spawn, rounds, r.value);
      rounds := rounds + [r.value];
      assert rounds[..|rounds| - 1] == rounds[..round - 1];
      totalTime := totalTime + r.value.outcome.durationTicks;
      if r.value.result != 0 {
        break;
      }
    }
  }

  // ------------------------------------------------------------------ the command word

  const HelpWords: set<string> := {"/?", "-?", "--?", "/help", "-help", "--help"}

  /** `IsHelpCommand`: one of the six help words, in any letter case. */
  predicate IsHelpCommand(p: string) {
    ToLower(p) in HelpWords
  }

  lemma IsHelpCommandIgnoresCase(p: string)
    ensures IsHelpCommand(p) <==> IsHelpCommand(ToLower(p))
  {
    ToLowerIdempotent(p);
  }

  /** `ContainsHelp`: some argument is `/?` in any letter case. */
  function ContainsHelp(args: seq<string>): (r: bool)
    ensures r <==> exists i :: 0 <= i < |args| && ToLower(args[i]) == "/?"
  {
    if |args| == 0 then false
    else if ToLower(args[0]) == "/?" then true
    else
      assert forall i :: 1 <= i < |args| ==> args[1..][i - 1] == args[i];
      ContainsHelp(args[1..])
  }

  /** What `Main` does with its arguments. */
  datatype Command =
    | Usage             // usage on standard error, exit code 1
    | Help              // usage to the log, exit code 0
    | About
    | MethodTransformer
    | Minimize
    | Reduce
    | Reduce2
    | Reproduce
    | Stats(resultsFile: string)
    | Generate

  function Dispatch(args: seq<string>): (c: Command)
    ensures c == Usage <==> |args| == 0 || IsHelpCommand(args[0])
    ensures c == Help ==> ContainsHelp(args)
    ensures c == Generate ==> !ContainsHelp(args) && !IsHelpCommand(args[0])
  {
    if |args| == 0 || IsHelpCommand(args[0]) then Usage
    else if ContainsHelp(args) then Help
    else if args[0] == "/about" then About
    else if args[0] == "methodtransformer" then MethodTransformer
    else if args[0] == "minimize" then Minimize
    else if args[0] == "reduce" then Reduce
    else if args[0] == "reduce2" then Reduce2
    else if args[0] == "reproduce" then Reproduce
    else if StartsWith(args[0], "stats:") then Stats(args[0][|"stats:"|..])
    else Generate
  }

  /** `/?` first is a usage error, `/?` anywhere later a help request. */
  lemma HelpPosition(rest: seq<string>, first: string)
    requires !IsHelpCommand(first)
    ensures Dispatch(["/?"] + rest) == Usage
    ensures Dispatch([first] + rest + ["/?"]) == Help
  {
    assert ToLower("/?") == "/?";
    var args := [first] + rest + ["/?"];
    assert ToLower(args[|args| - 1]) == "/?";
  }
}
