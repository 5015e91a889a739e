/** `CommandLineArguments`: the wrapper's view of what the user typed. Flags are compared
    case-insensitively against their lower-case spelling, value options are found by a
    lower-case prefix and keep the rest of the argument as typed, and construction checks
    that an assembly was named and that `/timelimit:` and `/restart:` carry positive
    integers, reporting the first problem as an error message. */
module CommandLine {
  import opened Common
  import opened CsStrings

  const ArgumentException := "System.ArgumentException"

  const NoAssembly := "No assembly specified."
  const InvalidTimeLimit := "Invalid time limit: "
  const InvalidRestartTime := "Invalid restart time: "
  const NegativeTimeLimitGiven := "Negative time limit given ("

  const TimeLimitPrefix := "/timelimit:"
  const RestartPrefix := "/restart:"
  const RandomSeedPrefix := "/randomseed:"
  const OutputDirPrefix := "/outputdir:"
  const ConfigFilesPrefix := "/configfiles:"
  const DirectoryStrategyFlag := "/directorystrategy"
  const DirectoryStrategyPrefix := "/directorystrategy:"

  // ------------------------------------------------------------------ assemblies

  /** `IsDllName`: the lower-cased argument ends in `.dll` or `.exe`. */
  predicate IsDllName(s: string) {
    EndsWith(ToLower(s), ".dll") || EndsWith(ToLower(s), ".exe")
  }

  /** `AssemblyNames`: the arguments that name assemblies, in the order given. */
  function AssemblyNames(args: seq<string>): (r: seq<string>)
    ensures |r| <= |args|
    ensures forall s :: s in r <==> s in args && IsDllName(s)
  {
    if args == [] then []
    else
      var last := |args| - 1;
      AssemblyNames(args[..last]) + (if IsDllName(args[last]) then [args[last]] else [])
  }

  /** Filtering commutes with concatenation, so the assemblies keep the order of the
      arguments that name them. */
  lemma {:induction false} AssemblyNamesAppend(a: seq<string>, b: seq<string>)
    ensures AssemblyNames(a + b) == AssemblyNames(a) + AssemblyNames(b)
    decreases |b|
  {
    if b == [] {
      assert a + b == a;
    } else {
      var last := |b| - 1;
      assert (a + b)[..|a + b| - 1] == a + b[..last];
      AssemblyNamesAppend(a, b[..last]);
    }
  }

  // ------------------------------------------------------------------ flags and options

  /** A boolean flag: some argument equals `flag` once lower-cased (see `FlagMeans`). */
  function Flag(args: seq<string>, flag: string): bool {
    if args == [] then false
    else ToLower(args[0]) == flag || Flag(args[1..], flag)
  }

  /** A flag is set exactly when one of the arguments spells it, in any case. */
  lemma {:induction false} FlagMeans(args: seq<string>, flag: string)
    ensures Flag(args, flag) <==> exists i :: 0 <= i < |args| && ToLower(args[i]) == flag
  {
    if args != [] {
      FlagMeans(args[1..], flag);
      assert forall i :: 0 < i < |args| ==> args[i] == args[1..][i - 1];
      if Flag(args[1..], flag) {
        var i :| 0 <= i < |args[1..]| && ToLower(args[1..][i]) == flag;
        assert ToLower(args[i + 1]) == flag;
      }
    }
  }

  /** The position of the first argument whose lower-cased form starts with `prefix`. */
  function FirstWithPrefix(args: seq<string>, prefix: string): (r: Option<nat>)
    ensures r.Some? ==> && r.value < |args| && StartsWith(ToLower(args[r.value]), prefix)
                        && forall j :: 0 <= j < r.value ==> !StartsWith(ToLower(args[j]), prefix)
    ensures r.None? ==> forall j :: 0 <= j < |args| ==> !StartsWith(ToLower(args[j]), prefix)
  {
    if args == [] then None
    else if StartsWith(ToLower(args[0]), prefix) then Some(0)
    else match FirstWithPrefix(args[1..], prefix)
      case None => None
      case Some(k) => Some(k + 1)
  }

  /** A value option (`RandomSeed`, `OutputDir`, `ConfigFilesDir`): the first matching
      argument with the option's prefix cut off, as the user typed it; null without one. */
  function ValueOption(args: seq<string>, prefix: string): Option<string> {
    match FirstWithPrefix(args, prefix)
    case None => None
    case Some(i) => Some(args[i][|prefix|..])
  }

  /** The whole first matching argument (`TimeLimitString`, `RestartString`). */
  function WholeOption(args: seq<string>, prefix: string): Option<string> {
    match FirstWithPrefix(args, prefix)
    case None => None
    case Some(i) => Some(args[i])
  }

  /** Whatever case the option name is typed in, the value after it comes back unchanged,
      unless an earlier argument already carries the option. */
  lemma ValueOptionRoundTrip(before: seq<string>, name: string, value: string, after: seq<string>, prefix: string)
    requires ToLower(name) == prefix
    requires forall j :: 0 <= j < |before| ==> !StartsWith(ToLower(before[j]), prefix)
    ensures ValueOption(before + [name + value] + after, prefix) == Some(value)
    ensures WholeOption(before + [name + value] + after, prefix) == Some(name + value)
  {
    var args := before + [name + value] + after;
    assert args[|before|] == name + value;
    assert ToLower(name + value)[..|prefix|] == prefix;
    assert StartsWith(ToLower(args[|before|]), prefix);
    assert forall j :: 0 <= j < |before| ==> args[j] == before[j];
  }

  /** `DirectoryStrategy` as written: it looks for an argument equal to
      `/directorystrategy` and returns it with the length of `/outputdir:` cut off. */
  function DirectoryStrategyAsWritten(args: seq<string>): (r: Option<string>)
    ensures r.Some? ==> |r.value| == 7 && ToLower(r.value) == "trategy"
  {
    match FirstEqual(args, DirectoryStrategyFlag)
    case None => None
    case Some(i) =>
      var s := args[i];
      assert ToLower(s)[|OutputDirPrefix|..] == "trategy";
      Some(s[|OutputDirPrefix|..])
  }

  /** The position of the first argument equal to `flag` once lower-cased. */
  function FirstEqual(args: seq<string>, flag: string): (r: Option<nat>)
    ensures r.Some? ==> r.value < |args| && ToLower(args[r.value]) == flag
    ensures r.None? <==> !Flag(args, flag)
  {
    if args == [] then None
    else if ToLower(args[0]) == flag then Some(0)
    else match FirstEqual(args[1..], flag)
      case None => (assert forall i :: 0 < i < |args| ==> args[i] == args[1..][i - 1]; None)
      case Some(k) => Some(k + 1)
  }

  /** Any spelling of `/directorystrategy` comes back with its first eleven characters
      cut off. */
  lemma DirectoryStrategyCutsFlag(s: string)
    requires ToLower(s) == DirectoryStrategyFlag
    ensures DirectoryStrategyAsWritten([s]) == Some(s[|OutputDirPrefix|..])
  {
    assert FirstEqual([s], DirectoryStrategyFlag) == Some(0);
  }

  lemma FlagSpelling(s: string)
    requires s == "/directorystrategy"
    ensures ToLower(s) == DirectoryStrategyFlag && s[|OutputDirPrefix|..] == "trategy"
  {
    assert s[|OutputDirPrefix|..] == "trategy";
    assert ToLower(s) == DirectoryStrategyFlag by { ToLowerOfLower(s); }
  }

  /** So no argument can pass a strategy name through it: `/directorystrategy` yields
      "trategy", which names no strategy, */
  lemma DirectoryStrategyTruncates(s: string)
    requires s == "/directorystrategy"
    ensures DirectoryStrategyAsWritten([s]) == Some("trategy")
  {
    FlagSpelling(s);
    DirectoryStrategyCutsFlag(s);
  }

  /** and `/directorystrategy:<name>`, the form a value option takes, is not recognised. */
  lemma DirectoryStrategyIgnoresValue(s: string)
    requires s == "/directorystrategy:Single"
    ensures DirectoryStrategyAsWritten([s]) == None
  {
    assert |ToLower(s)| == 25;
    assert !Flag([s], DirectoryStrategyFlag);
  }

  /** `DirectoryStrategy` as evidently intended: a value option `/directorystrategy:<name>`. */
  function DirectoryStrategy(args: seq<string>): Option<string> {
    ValueOption(args, DirectoryStrategyPrefix)
  }

  /** The corrected option hands the strategy name back as typed. */
  lemma DirectoryStrategyRoundTrip(name: string, strategy: string)
    requires ToLower(name) == DirectoryStrategyPrefix
    ensures DirectoryStrategy([name + strategy]) == Some(strategy)
  {
    ValueOptionRoundTrip([], name, strategy, [], DirectoryStrategyPrefix);
    assert [] + [name + strategy] + [] == [name + strategy];
  }

  // ------------------------------------------------------------------ validation

  /** The state construction leaves behind: both limits and the error message (null when
      every check passes). */
  datatype Validated = Validated(timeLimitSeconds: int, restartTimeSeconds: int, error: Option<string>)

  /** `parse` below stands for `int.TryParse` (`CsStrings.TryParseInt32`); the statements
      about validation hold for any parser. */

  /** What `int.TryParse` stores in its out-parameter: the value, or 0 when parsing fails. */
  function ParsedOrZero(s: string, parse: string -> Option<int>): int {
    match parse(s)
    case None => 0
    case Some(n) => n
  }

  function NegativeTimeLimitMessage(t: int): string {
    NegativeTimeLimitGiven + IntToString(t) + "). Will use default time limit of " + IntToString(t) + " seconds."
  }

  /** A `/timelimit:` or `/restart:` argument is acceptable: absent, or a positive integer. */
  predicate LimitOk(option: Option<string>, prefix: string, parse: string -> Option<int>)
    requires option.Some? ==> |prefix| <= |option.value|
  {
    option.Some? ==> parse(option.value[|prefix|..]).Some? && parse(option.value[|prefix|..]).value > 0
  }

  /** The constructor's checks in order: a negative default throws; then a missing assembly,
      then the time limit, then the restart time, each ending construction with its
      message and leaving the later fields as they were. */
  function Validation(args: seq<string>, defaultTimeLimit: int, defaultRestartTimeSeconds: int,
                      parse: string -> Option<int>): Result<Validated> {
    if defaultTimeLimit < 0 then Err(ArgumentException)
    else if !exists i :: 0 <= i < |args| && IsDllName(args[i]) then Ok(Validated(-1, -1, Some(NoAssembly)))
    else
      var t := WholeOption(args, TimeLimitPrefix);
      var time := if t.Some? then ParsedOrZero(t.value[|TimeLimitPrefix|..], parse) else defaultTimeLimit;
      if t.Some? && parse(t.value[|TimeLimitPrefix|..]).None? then
        Ok(Validated(time, -1, Some(InvalidTimeLimit + t.value)))
      else if t.Some? && time <= 0 then Ok(Validated(time, -1, Some(InvalidTimeLimit + t.value)))
      else
        var rs := WholeOption(args, RestartPrefix);
        var restart := if rs.Some? then ParsedOrZero(rs.value[|RestartPrefix|..], parse) else defaultRestartTimeSeconds;
        if rs.Some? && parse(rs.value[|RestartPrefix|..]).None? then
          Ok(Validated(time, restart, Some(InvalidRestartTime + rs.value)))
        else if rs.Some? && restart <= 0 then Ok(Validated(time, restart, Some(InvalidTimeLimit + rs.value)))
        else if time < 0 then Ok(Validated(time, restart, Some(NegativeTimeLimitMessage(time))))
        else Ok(Validated(time, restart, None))
  }

  /** Construction throws exactly for a negative default. */
  lemma ValidationThrows(args: seq<string>, defaultTimeLimit: int, defaultRestartTimeSeconds: int,
                         parse: string -> Option<int>)
    ensures Validation(args, defaultTimeLimit, defaultRestartTimeSeconds, parse).Err?
            <==> defaultTimeLimit < 0
    ensures Validation(args, defaultTimeLimit, defaultRestartTimeSeconds, parse).Err? ==>
            Validation(args, defaultTimeLimit, defaultRestartTimeSeconds, parse).exception == ArgumentException
  {
  }

  /** Otherwise the error is null exactly when an assembly is named and both limits are
      acceptable, */
  lemma ValidationAccepts(args: seq<string>, defaultTimeLimit: int, defaultRestartTimeSeconds: int,
                          parse: string -> Option<int>)
    requires defaultTimeLimit >= 0
    ensures var v := Validation(args, defaultTimeLimit, defaultRestartTimeSeconds, parse).value;
            v.error.None? <==>
              && AssemblyNames(args) != []
              && LimitOk(WholeOption(args, TimeLimitPrefix), TimeLimitPrefix, parse)
              && LimitOk(WholeOption(args, RestartPrefix), RestartPrefix, parse)
  {
    AssemblyNamed(args);
  }

  /** and then the time limit is the given one or the default, never negative, and the
      restart time likewise. */
  lemma ValidationLimits(args: seq<string>, defaultTimeLimit: int, defaultRestartTimeSeconds: int,
                         parse: string -> Option<int>)
    requires defaultTimeLimit >= 0
    ensures var v := Validation(args, defaultTimeLimit, defaultRestartTimeSeconds, parse).value;
            v.error.None? ==>
              && v.timeLimitSeconds >= 0
              && (WholeOption(args, TimeLimitPrefix).None? ==> v.timeLimitSeconds == defaultTimeLimit)
              && (WholeOption(args, TimeLimitPrefix).Some? ==> v.timeLimitSeconds > 0)
              && (WholeOption(args, RestartPrefix).None? ==> v.restartTimeSeconds == defaultRestartTimeSeconds)
              && (WholeOption(args, RestartPrefix).Some? ==> v.restartTimeSeconds > 0)
  {
  }

  /** Some argument names an assembly exactly when the assembly list is not empty. */
  lemma AssemblyNamed(args: seq<string>)
    ensures AssemblyNames(args) != [] <==> exists i :: 0 <= i < |args| && IsDllName(args[i])
  {
    if AssemblyNames(args) != [] {
      assert AssemblyNames(args)[0] in AssemblyNames(args);
    } else {
      assert forall i :: 0 <= i < |args| ==> !IsDllName(args[i]) by {
        forall i | 0 <= i < |args| ensures !IsDllName(args[i]) {
          assert args[i] in args;
        }
      }
    }
  }

  /** Once an assembly is named, every error is about a limit and quotes the offending
      argument: the time limit is positive or the non-negative default by the time the
      "Negative time limit given" check runs, so that check never fires. A restart time
      that parses but is not positive is reported as an invalid time limit. */
  lemma LimitErrorsOnly(args: seq<string>, defaultTimeLimit: int, defaultRestartTimeSeconds: int,
                        parse: string -> Option<int>)
    requires defaultTimeLimit >= 0
    requires exists i :: 0 <= i < |args| && IsDllName(args[i])
    ensures var v := Validation(args, defaultTimeLimit, defaultRestartTimeSeconds, parse).value;
            var t := WholeOption(args, TimeLimitPrefix);
            var rs := WholeOption(args, RestartPrefix);
            v.error.Some? ==> || (t.Some? && v.error.value == InvalidTimeLimit + t.value)
                              || (rs.Some? && v.error.value == InvalidRestartTime + rs.value)
                              || (rs.Some? && v.error.value == InvalidTimeLimit + rs.value)
  {
  }

  /** "No assembly specified." is reported exactly when no argument names an assembly, and
      it leaves both limits at their initial -1. */
  lemma NoAssemblyReported(args: seq<string>, defaultTimeLimit: int, defaultRestartTimeSeconds: int,
                           parse: string -> Option<int>)
    requires defaultTimeLimit >= 0
    ensures var v := Validation(args, defaultTimeLimit, defaultRestartTimeSeconds, parse).value;
            (v.error == Some(NoAssembly) <==> AssemblyNames(args) == [])
    ensures var v := Validation(args, defaultTimeLimit, defaultRestartTimeSeconds, parse).value;
            v.error == Some(NoAssembly) ==> v.timeLimitSeconds == -1 && v.restartTimeSeconds == -1
  {
    if AssemblyNames(args) == [] {
      forall i | 0 <= i < |args| ensures !IsDllName(args[i]) {
        assert args[i] in args;
      }
    } else {
      assert AssemblyNames(args)[0] in AssemblyNames(args);
      LimitErrorsOnly(args, defaultTimeLimit, defaultRestartTimeSeconds, parse);
      var v := Validation(args, defaultTimeLimit, defaultRestartTimeSeconds, parse).value;
      assert v.error.Some? ==> v.error.value[0] == 'I';
    }
  }

  /** In particular the "Negative time limit given" message is never produced. */
  lemma NegativeTimeLimitUnreachable(args: seq<string>, defaultTimeLimit: int, defaultRestartTimeSeconds: int,
                                     parse: string -> Option<int>)
    requires defaultTimeLimit >= 0
    ensures var v := Validation(args, defaultTimeLimit, defaultRestartTimeSeconds, parse).value;
            v.error.Some? ==> !StartsWith(v.error.value, NegativeTimeLimitGiven)
  {
    var v := Validation(args, defaultTimeLimit, defaultRestartTimeSeconds, parse).value;
    if v.error.Some? {
      var e := v.error.value;
      if exists i :: 0 <= i < |args| && IsDllName(args[i]) {
        LimitErrorsOnly(args, defaultTimeLimit, defaultRestartTimeSeconds, parse);
        var t, rs := WholeOption(args, TimeLimitPrefix), WholeOption(args, RestartPrefix);
        if t.Some? && e == InvalidTimeLimit + t.value {
          DifferentHead(InvalidTimeLimit, t.value, NegativeTimeLimitGiven, 0);
        } else if rs.Some? && e == InvalidRestartTime + rs.value {
          DifferentHead(InvalidRestartTime, rs.value, NegativeTimeLimitGiven, 0);
        } else {
          assert rs.Some? && e == InvalidTimeLimit + rs.value;
          DifferentHead(InvalidTimeLimit, rs.value, NegativeTimeLimitGiven, 0);
        }
      } else {
        assert e == NoAssembly + "";
        DifferentHead(NoAssembly, "", NegativeTimeLimitGiven, 1);
      }
    }
  }

  /** A text that differs from a prefix at some position of both does not start with it. */
  lemma DifferentHead(head: string, rest: string, prefix: string, k: nat)
    requires k < |head| && k < |prefix| && head[k] != prefix[k]
    ensures !StartsWith(head + rest, prefix)
  {
    assert (head + rest)[k] == head[k];
  }

  /** A time limit given as the text of a positive integer is the time limit construction
      stores, and with no `/restart:` the restart time is the default. */
  lemma TimeLimitStored(args: seq<string>, n: int, defaultTimeLimit: int, defaultRestartTimeSeconds: int,
                          parse: string -> Option<int>)
    requires exists i :: 0 <= i < |args| && IsDllName(args[i])
    requires WholeOption(args, TimeLimitPrefix) == Some(TimeLimitPrefix + IntToString(n))
    requires WholeOption(args, RestartPrefix).None?
    requires parse(IntToString(n)) == Some(n)
    requires 0 < n && defaultTimeLimit >= 0 && defaultRestartTimeSeconds > 0
    ensures Validation(args, defaultTimeLimit, defaultRestartTimeSeconds, parse)
            == Ok(Validated(n, defaultRestartTimeSeconds, None))
  {
    assert (TimeLimitPrefix + IntToString(n))[|TimeLimitPrefix|..] == IntToString(n);
  }

  /** An argument that is a `/timelimit:` option is not a `/restart:` option. */
  lemma TimeLimitIsNotRestart(option: string)
    requires StartsWith(ToLower(option), TimeLimitPrefix)
    ensures !StartsWith(ToLower(option), RestartPrefix)
  {
    assert ToLower(option)[1] == TimeLimitPrefix[1];
  }

  /** So `[assembly, "/timelimit:<n>"]` round-trips n. */
  lemma TimeLimitRoundTrip(assembly: string, n: int, defaultTimeLimit: int, defaultRestartTimeSeconds: int)
    requires IsDllName(assembly) && !StartsWith(ToLower(assembly), TimeLimitPrefix)
    requires !StartsWith(ToLower(assembly), RestartPrefix)
    requires 0 < n < TwoTo31 && defaultTimeLimit >= 0 && defaultRestartTimeSeconds > 0
    ensures Validation([assembly, TimeLimitPrefix + IntToString(n)], defaultTimeLimit, defaultRestartTimeSeconds,
                       TryParseInt32)
            == Ok(Validated(n, defaultRestartTimeSeconds, None))
  {
    var args := [assembly, TimeLimitPrefix + IntToString(n)];
    TimeLimitArguments(assembly, IntToString(n));
    IntToStringParses(n);
    TimeLimitStored(args, n, defaultTimeLimit, defaultRestartTimeSeconds, TryParseInt32);
  }

  /** What the options lookups find in `[assembly, "/timelimit:<text>"]`. */
  lemma TimeLimitArguments(assembly: string, text: string)
    requires IsDllName(assembly) && !StartsWith(ToLower(assembly), TimeLimitPrefix)
    requires !StartsWith(ToLower(assembly), RestartPrefix)
    ensures var args := [assembly, TimeLimitPrefix + text];
            && (exists i :: 0 <= i < |args| && IsDllName(args[i]))
            && WholeOption(args, TimeLimitPrefix) == Some(TimeLimitPrefix + text)
            && WholeOption(args, RestartPrefix).None?
  {
    TimeLimitPrefixIsLower(TimeLimitPrefix);
    OptionAfter(assembly, TimeLimitPrefix, text, TimeLimitPrefix);
    TimeLimitOptionIsNotRestart(text);
    NoMatchInPair(assembly, TimeLimitPrefix + text, RestartPrefix);
    assert IsDllName([assembly, TimeLimitPrefix + text][0]);
  }

  lemma OptionAfter(assembly: string, name: string, text: string, prefix: string)
    requires ToLower(name) == prefix && !StartsWith(ToLower(assembly), prefix)
    ensures WholeOption([assembly, name + text], prefix) == Some(name + text)
  {
    ValueOptionRoundTrip([assembly], name, text, [], prefix);
    assert [assembly] + [name + text] + [] == [assembly, name + text];
  }

  lemma TimeLimitOptionIsNotRestart(text: string)
    ensures !StartsWith(ToLower(TimeLimitPrefix + text), RestartPrefix)
  {
    var option := TimeLimitPrefix + text;
    TimeLimitPrefixIsLower(TimeLimitPrefix);
    assert StartsWith(ToLower(option), TimeLimitPrefix);
    TimeLimitIsNotRestart(option);
  }

  lemma TimeLimitPrefixIsLower(s: string)
    requires s == TimeLimitPrefix
    ensures ToLower(s) == s
  {
    ToLowerOfLower(s);
  }

  lemma NoMatchInPair(a: string, b: string, prefix: string)
    requires !StartsWith(ToLower(a), prefix) && !StartsWith(ToLower(b), prefix)
    ensures WholeOption([a, b], prefix).None?
  {
    assert [a, b][1..] == [b];
  }

  // ------------------------------------------------------------------ the object

  /** The parsed arguments. `args` is a private copy that never changes; the two limits are
      assigned during construction. */
  class CommandLineArguments {
    const args: seq<string>
    var timeLimitSeconds: int
    var restartTimeSeconds: int

    /** The copy of the arguments and the fields' initial values. */
    constructor Copy(args: seq<string>)
      ensures this.args == args && timeLimitSeconds == -1 && restartTimeSeconds == -1
    {
      this.args := args;
      timeLimitSeconds, restartTimeSeconds := -1, -1;
    }

    /** `new CommandLineArguments(args, defaultTimeLimit, defaultRestartTimeSeconds, out
        error)`: copies the arguments and checks them step by step, stopping at the first
        problem. A negative default throws ArgumentException. */
    static method New(args: seq<string>, defaultTimeLimit: int, defaultRestartTimeSeconds: int)
      returns (r: Result<CommandLineArguments>, error: Option<string>)
      ensures r.Err? <==> defaultTimeLimit < 0
      ensures r.Err? ==> r.exception == ArgumentException && error.None?
      ensures r.Ok? ==> && fresh(r.value) && r.value.args == args
                        && Validation(args, defaultTimeLimit, defaultRestartTimeSeconds, TryParseInt32)
                           == Ok(Validated(r.value.timeLimitSeconds, r.value.restartTimeSeconds, error))
    {
      var c := new CommandLineArguments.Copy(args);
      if defaultTimeLimit < 0 {
        return Err(ArgumentException), None;
      }
      r := Ok(c);
      var atLeastOneDll := false;
      var i := 0;
      while i < |args|
        invariant 0 <= i <= |args|
        invariant atLeastOneDll <==> exists j :: 0 <= j < i && IsDllName(args[j])
      {
        if IsDllName(args[i]) {
          atLeastOneDll := true;
        }
        i := i + 1;
      }
      if !atLeastOneDll {
        return r, Some(NoAssembly);
      }
      var timeLimitString := c.TimeLimitString();
      if timeLimitString.Some? {
        var parsed := TryParseInt32(timeLimitString.value[|TimeLimitPrefix|..]);
        c.timeLimitSeconds := ParsedOrZero(timeLimitString.value[|TimeLimitPrefix|..], TryParseInt32);
        if parsed.None? {
          return r, Some(InvalidTimeLimit + timeLimitString.value);
        }
        if c.timeLimitSeconds <= 0 {
          return r, Some(InvalidTimeLimit + timeLimitString.value);
        }
      } else {
        c.timeLimitSeconds := defaultTimeLimit;
      }
      var restartString := c.RestartString();
      if restartString.Some? {
        var parsed := TryParseInt32(restartString.value[|RestartPrefix|..]);
        c.restartTimeSeconds := ParsedOrZero(restartString.value[|RestartPrefix|..], TryParseInt32);
        if parsed.None? {
          return r, Some(InvalidRestartTime + restartString.value);
        }
        if c.restartTimeSeconds <= 0 {
          return r, Some(InvalidTimeLimit + restartString.value);
        }
      } else {
        c.restartTimeSeconds := defaultRestartTimeSeconds;
      }
      var timeLimit := c.timeLimitSeconds;
      if timeLimit < 0 {
        return r, Some(NegativeTimeLimitMessage(timeLimit));
      }
      error := None;
    }

    function TimeLimitString(): Option<string> {
      WholeOption(args, TimeLimitPrefix)
    }

    function RestartString(): Option<string> {
      WholeOption(args, RestartPrefix)
    }

    function RandomSeed(): Option<string> {
      ValueOption(args, RandomSeedPrefix)
    }

    function OutputDir(): Option<string> {
      ValueOption(args, OutputDirPrefix)
    }

    function ConfigFilesDir(): Option<string> {
      ValueOption(args, ConfigFilesPrefix)
    }

    predicate UseRandoopContracts() { Flag(args, "/randoopcontracts") }
    predicate TrueRandom() { Flag(args, "/truerandom") }
    predicate NoExplorer() { Flag(args, "/noexplorer") }
    predicate KeepStatLogs() { Flag(args, "/keepstatlogs") }
    predicate Verbose() { Flag(args, "/verbose") }
    predicate PageHeap() { Flag(args, "/pageheap") }
    predicate OutputNormal() { Flag(args, "/outputnormal") }
    predicate AllowNull() { Flag(args, "/allownull") }
    predicate NoStatic() { Flag(args, "/nostatic") }
    predicate ExploreInternal() { Flag(args, "/internal") }
    predicate DontExecute() { Flag(args, "/dontexecute") }
    predicate Fair() { Flag(args, "/fairexploration") }

    /** The `/dhandler` flag is switched off in this release. */
    predicate UseDHandler() { false }
  }
}
