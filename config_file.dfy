/** `ConfigFileCreator.CreateConfigFile`: the configuration handed to each generator
    round. The user's options are mapped onto configuration fields, the round number shifts
    the random seed, and every seed-value and filter file is taken from the user's
    configuration directory when that directory and that file exist, and from the
    installation defaults otherwise. The file system, the default paths and path
    normalisation are parameters. */
module ConfigFile {
  import opened Common
  import opened CsStrings
  import opened CommandLine
  import Supervisor

  datatype RandomSource = SystemRandom | Crypto

  /** `executionmode`: whatever the configuration starts with, or `DontExecute`. */
  datatype ExecutionMode = InitialMode | DontExecute

  datatype DirectoryStrategy = Single | ClassifyingByBehavior | ClassifyingByClass

  /** One `simpleTypeValues` entry: a primitive type and the seed files for it. */
  datatype SimpleTypeValues = SimpleTypeValues(simpleType: TypeName, fileNames: seq<string>)

  /** The file system and installation paths the creator consults: `Directory.Exists`,
      `File.Exists`, the default file for each configuration file name, and
      `new FileInfo(path).FullName`. */
  datatype Environment = Environment(dirExists: string -> bool, fileExists: string -> bool,
                                     defaultFile: string -> string, fullPath: string -> string)

  const StatsSuffix := ".stats.txt"

  /** The seed-value files, in the order they are added, with the type each one seeds. */
  const SeedTable: seq<(TypeName, string)> := [
    ("System.SByte", "seed_sbyte.txt"), ("System.Byte", "seed_byte.txt"),
    ("System.Int16", "seed_short.txt"), ("System.UInt16", "seed_ushort.txt"),
    ("System.Int32", "seed_int.txt"), ("System.UInt32", "seed_uint.txt"),
    ("System.Int64", "seed_long.txt"), ("System.UInt64", "seed_ulong.txt"),
    ("System.Char", "seed_char.txt"), ("System.Single", "seed_float.txt"),
    ("System.Double", "seed_double.txt"), ("System.Boolean", "seed_bool.txt"),
    ("System.Decimal", "seed_decimal.txt"), ("System.String", "seed_string.txt")]

  const RequireTypes := "require_types.txt"
  const RequireMembers := "require_members.txt"
  const RequireFields := "require_fields.txt"
  const ForbidTypes := "forbid_types.txt"
  const ForbidMembers := "forbid_members.txt"
  const ForbidFields := "forbid_fields.txt"

  /** The filter files, in the order of the configuration's six filter lists. */
  const FilterTable := [RequireTypes, RequireMembers, RequireFields, ForbidTypes, ForbidMembers, ForbidFields]

  /** `Enum.TryParse` into `DirectoryStrategy`: a value that names no strategy (null
      included) leaves the enum's zero value, `Single`. */
  function ParseStrategy(s: Option<string>): (r: DirectoryStrategy)
    ensures r != Single ==> s == Some(StrategyName(r))
  {
    if s == Some("ClassifyingByBehavior") then ClassifyingByBehavior
    else if s == Some("ClassifyingByClass") then ClassifyingByClass
    else Single
  }

  /** With the getter as written, the strategy the user asks for never arrives: whatever
      the arguments, the configuration gets `Single`. */
  lemma StrategyAsWrittenIsAlwaysSingle(args: seq<string>)
    ensures ParseStrategy(DirectoryStrategyAsWritten(args)) == Single
  {
    var s := DirectoryStrategyAsWritten(args);
    if s.Some? {
      assert |s.value| != |"ClassifyingByBehavior"| && |s.value| != |"ClassifyingByClass"|;
    }
  }

  /** The corrected getter passes a strategy name through. */
  lemma StrategyReachesConfiguration(name: string, strategy: DirectoryStrategy)
    requires ToLower(name) == DirectoryStrategyPrefix
    ensures ParseStrategy(CommandLine.DirectoryStrategy([name + StrategyName(strategy)])) == strategy
  {
    DirectoryStrategyRoundTrip(name, StrategyName(strategy));
  }

  /** Every strategy parses back from its own name. */
  lemma ParseStrategyName(d: DirectoryStrategy)
    ensures ParseStrategy(Some(StrategyName(d))) == d
  {
  }

  function StrategyName(d: DirectoryStrategy): string {
    match d
    case Single => "Single"
    case ClassifyingByBehavior => "ClassifyingByBehavior"
    case ClassifyingByClass => "ClassifyingByClass"
  }

  /** The user's configuration directory: named with `/configfiles:` and existing. */
  function UserConfigDir(args: seq<string>, env: Environment): (r: Option<string>)
    ensures r.Some? <==> ValueOption(args, ConfigFilesPrefix).Some? && env.dirExists(ValueOption(args, ConfigFilesPrefix).value)
    ensures r.Some? ==> r == ValueOption(args, ConfigFilesPrefix)
  {
    var dir := ValueOption(args, ConfigFilesPrefix);
    if dir.Some? && env.dirExists(dir.value) then dir else None
  }

  /** The file used for configuration file `name`: the user's copy when there is a user
      directory holding it, the installation default otherwise. */
  function ConfigFileFor(userDir: Option<string>, name: string, env: Environment): string {
    if userDir.Some? && env.fileExists(userDir.value + "\\" + name) then userDir.value + "\\" + name
    else env.defaultFile(name)
  }

  /** `CreateSimpleValueTypeXmlElement`. */
  function SeedEntry(t: TypeName, configFile: string, env: Environment): SimpleTypeValues {
    SimpleTypeValues(t, [env.fullPath(configFile)])
  }

  /** The single-entry list for filter file `i` of the table. */
  function FilterFile(userDir: Option<string>, i: nat, env: Environment): (r: seq<string>)
    requires i < |FilterTable|
    ensures |r| == 1
  {
    [env.fullPath(ConfigFileFor(userDir, FilterTable[i], env))]
  }

  /** The seed-value entries, one per row of the table. */
  function SeedValues(userDir: Option<string>, env: Environment): seq<SimpleTypeValues> {
    seq(|SeedTable|, i requires 0 <= i < |SeedTable| => SeedEntry(SeedTable[i].0, ConfigFileFor(userDir, SeedTable[i].1, env), env))
  }

  /** Exactly fourteen seed entries, in the fixed order from sbyte to string, one per
      type and each with a single file: the user's file for that type when the user
      directory holds it, the default otherwise. */
  lemma SeedValuesShape(userDir: Option<string>, env: Environment)
    ensures var s := SeedValues(userDir, env);
            && |s| == 14
            && s[0].simpleType == "System.SByte" && s[13].simpleType == "System.String"
            && (forall i, j :: 0 <= i < j < |s| ==> s[i].simpleType != s[j].simpleType)
            && forall i :: 0 <= i < |s| ==>
                 && |s[i].fileNames| == 1
                 && (userDir.Some? && env.fileExists(userDir.value + "\\" + SeedTable[i].1) ==>
                       s[i].fileNames[0] == env.fullPath(userDir.value + "\\" + SeedTable[i].1))
                 && (!(userDir.Some? && env.fileExists(userDir.value + "\\" + SeedTable[i].1)) ==>
                       s[i].fileNames[0] == env.fullPath(env.defaultFile(SeedTable[i].1)))
  {
    var s := SeedValues(userDir, env);
    forall i, j | 0 <= i < j < |s| ensures s[i].simpleType != s[j].simpleType {
      SeedTypesDistinct(i, j);
    }
  }

  lemma SeedTypesDistinct(i: int, j: int)
    requires 0 <= i < j < |SeedTable|
    ensures SeedTable[i].0 != SeedTable[j].0
  {
    var names := seq(|SeedTable|, k requires 0 <= k < |SeedTable| => SeedTable[k].0);
    assert names == ["System.SByte", "System.Byte", "System.Int16", "System.UInt16",
                     "System.Int32", "System.UInt32", "System.Int64", "System.UInt64",
                     "System.Char", "System.Single", "System.Double", "System.Boolean",
                     "System.Decimal", "System.String"];
    assert names[i] == SeedTable[i].0 && names[j] == SeedTable[j].0;
  }

  /** Without a usable user directory every configuration file is the default. */
  lemma NoUserDirUsesDefaults(args: seq<string>, env: Environment, name: string)
    requires ValueOption(args, ConfigFilesPrefix).None? || !env.dirExists(ValueOption(args, ConfigFilesPrefix).value)
    ensures ConfigFileFor(UserConfigDir(args, env), name, env) == env.defaultFile(name)
  {
  }

  /** The seed of round `round` (counted from 1) is the user's seed moved on by the rounds
      before it, with C# `int` wrap-around. */
  function RoundSeed(round: int, randomSeed: int): (r: int)
    ensures IsInt32(r)
    ensures (r - (randomSeed + round - 1)) % TwoTo32 == 0
  {
    Wrap32(round - 1 + randomSeed)
  }

  /** So the first round uses the user's seed, and each round the next seed. */
  lemma RoundSeedsAdvance(round: int, randomSeed: int)
    requires IsInt32(randomSeed) && IsInt32(round)
    ensures RoundSeed(1, randomSeed) == randomSeed
    ensures (RoundSeed(round + 1, randomSeed) - RoundSeed(round, randomSeed) - 1) % TwoTo32 == 0
  {
    var a, b := RoundSeed(round, randomSeed), RoundSeed(round + 1, randomSeed);
    var ka := (a - (randomSeed + round - 1)) / TwoTo32;
    var kb := (b - (randomSeed + round)) / TwoTo32;
    assert a == randomSeed + round - 1 + ka * TwoTo32;
    assert b == randomSeed + round + kb * TwoTo32;
    assert b - a - 1 == (kb - ka) * TwoTo32;
  }

  /** The statistics file: a fresh name in the output directory with suffix `.stats.txt`. */
  function StatsFileName(outputDirBase: string, randomName: string): (r: string)
    ensures |r| == |outputDirBase| + 1 + |randomName| + |StatsSuffix|
    ensures StartsWith(r, outputDirBase + "\\") && EndsWith(r, StatsSuffix)
    ensures r[|outputDirBase| + 1..|r| - |StatsSuffix|] == randomName
  {
    var r := outputDirBase + "\\" + randomName + StatsSuffix;
    assert r[..|outputDirBase| + 1] == outputDirBase + "\\";
    assert r[|r| - |StatsSuffix|..] == StatsSuffix;
    r
  }

  /** The configuration object; the collections start empty. */
  class RandoopConfiguration {
    var statsFile: string
    var useRandoopContracts: bool
    var directoryStrategy: DirectoryStrategy
    var outputNormalInputs: bool
    var outputDir: string
    var planStartId: int
    var timeLimit: int
    var randomSeed: int
    var useInternal: bool
    var useStatic: bool
    var forbidNull: bool
    var fairOpt: bool
    var randomSource: RandomSource
    var assemblies: seq<string>
    var executionLog: string
    var executionMode: ExecutionMode
    var simpleTypeValues: seq<SimpleTypeValues>
    var requireTypesFiles: seq<string>
    var requireMembersFiles: seq<string>
    var requireFieldsFiles: seq<string>
    var forbidTypesFiles: seq<string>
    var forbidMembersFiles: seq<string>
    var forbidFieldsFiles: seq<string>

    constructor ()
      ensures executionMode == InitialMode
      ensures assemblies == [] && simpleTypeValues == []
      ensures requireTypesFiles == [] && requireMembersFiles == [] && requireFieldsFiles == []
      ensures forbidTypesFiles == [] && forbidMembersFiles == [] && forbidFieldsFiles == []
    {
      executionMode := InitialMode;
      assemblies, simpleTypeValues := [], [];
      requireTypesFiles, requireMembersFiles, requireFieldsFiles := [], [], [];
      forbidTypesFiles, forbidMembersFiles, forbidFieldsFiles := [], [], [];
    }
  }

  /** `CreateConfigFile(args, outputDirBase, lastPlanId, timeForNextInvocation, round,
      executionLogFileName, randomseed)`, with the random file name of the statistics file
      given as `randomName`. Converting the budget to whole seconds overflows for budgets
      beyond 32 bits, and then no configuration is returned. */
  method CreateConfigFile(args: CommandLineArguments, outputDirBase: string, lastPlanId: int,
                          timeForNextInvocationTicks: int, round: int, executionLogFileName: string,
                          randomseed: int, randomName: string, env: Environment)
    returns (r: Result<RandoopConfiguration>)
    ensures r.Err? <==> Supervisor.RoundedSeconds(timeForNextInvocationTicks).Err?
    ensures r.Err? ==> r.exception == OverflowException
    ensures r.Ok? ==> var config := r.value;
      && fresh(config)
      && config.statsFile == StatsFileName(outputDirBase, randomName)
      && config.outputDir == outputDirBase
      && config.planStartId == lastPlanId
      && Ok(config.timeLimit) == Supervisor.RoundedSeconds(timeForNextInvocationTicks)
      && config.randomSeed == RoundSeed(round, randomseed)
      && config.executionLog == executionLogFileName
    ensures r.Ok? ==> OptionsApplied(r.value, OptionsOf(args, env), env)
  {
    var seconds := Supervisor.RoundedSeconds(timeForNextInvocationTicks);
    if seconds.Err? {
      return Err(seconds.exception);
    }
    var config := NewConfiguration(OptionsOf(args, env), StatsFileName(outputDirBase, randomName), outputDirBase,
                                   lastPlanId, seconds.value, RoundSeed(round, randomseed), executionLogFileName, env);
    return Ok(config);
  }

  /** What the configuration takes from the command line. */
  datatype Options = Options(strategy: DirectoryStrategy, useRandoopContracts: bool, outputNormal: bool,
                             exploreInternal: bool, noStatic: bool, allowNull: bool, fair: bool,
                             trueRandom: bool, dontExecute: bool, assemblyNames: seq<string>,
                             userDir: Option<string>)

  function OptionsOf(args: CommandLineArguments, env: Environment): Options {
    Options(ParseStrategy(CommandLine.DirectoryStrategy(args.args)), args.UseRandoopContracts(), args.OutputNormal(),
            args.ExploreInternal(), args.NoStatic(), args.AllowNull(), args.Fair(),
            args.TrueRandom(), args.DontExecute(), AssemblyNames(args.args),
            UserConfigDir(args.args, env))
  }

  /** The fields that describe this round rather than the user's options. */
  predicate RunFields(config: RandoopConfiguration, statsFile: string, outputDir: string, planStartId: int,
                      timeLimit: int, randomSeed: int, executionLog: string)
    reads config`statsFile, config`outputDir, config`planStartId, config`timeLimit,
          config`randomSeed, config`executionLog
  {
    && config.statsFile == statsFile && config.outputDir == outputDir
    && config.planStartId == planStartId && config.timeLimit == timeLimit
    && config.randomSeed == randomSeed && config.executionLog == executionLog
  }

  /** The fields set from the options: `usestatic` and `forbidnull` negate their flags, the
      random source is `Crypto` exactly under `/truerandom`, the execution mode changes only
      under `/dontexecute`, every assembly is listed by its full path, and the configuration
      files come from the user directory where they exist there. */
  predicate OptionsApplied(config: RandoopConfiguration, o: Options, env: Environment)
    reads config`directoryStrategy, config`useRandoopContracts, config`outputNormalInputs, config`useInternal,
          config`useStatic, config`forbidNull, config`fairOpt, config`randomSource, config`executionMode,
          config`assemblies, config`simpleTypeValues, config`requireTypesFiles, config`requireMembersFiles,
          config`requireFieldsFiles, config`forbidTypesFiles, config`forbidMembersFiles, config`forbidFieldsFiles
  {
    && config.directoryStrategy == o.strategy
    && FlagsCopied(config, o)
    && config.assemblies == seq(|o.assemblyNames|, i requires 0 <= i < |o.assemblyNames| =>
                                  env.fullPath(o.assemblyNames[i]))
    && FilesCopied(config, o.userDir, env)
  }

  /** Read back through the command line: each option lands in its field, negated where
      the configuration names the opposite, and the configuration carries exactly fourteen
      seed entries, one file in each filter list, and one full path per assembly argument. */
  lemma ConfigurationFollowsArguments(config: RandoopConfiguration, args: CommandLineArguments, env: Environment)
    requires OptionsApplied(config, OptionsOf(args, env), env)
    ensures config.directoryStrategy == ParseStrategy(CommandLine.DirectoryStrategy(args.args))
    ensures config.useStatic <==> !args.NoStatic()
    ensures config.forbidNull <==> !args.AllowNull()
    ensures config.randomSource == Crypto <==> args.TrueRandom()
    ensures config.executionMode == DontExecute <==> args.DontExecute()
    ensures |config.assemblies| <= |args.args|
    ensures forall a :: a in config.assemblies <==> exists n :: n in args.args && IsDllName(n) && a == env.fullPath(n)
    ensures |config.simpleTypeValues| == 14 && |config.requireTypesFiles| == 1 && |config.forbidFieldsFiles| == 1
  {
    AssembliesFollowArguments(config.assemblies, args, env);
    SeedValuesShape(OptionsOf(args, env).userDir, env);
  }

  /** The assembly list holds the full path of every `.dll` argument and nothing else. */
  lemma AssembliesFollowArguments(assemblies: seq<string>, args: CommandLineArguments, env: Environment)
    requires var names := AssemblyNames(args.args);
      assemblies == seq(|names|, i requires 0 <= i < |names| => env.fullPath(names[i]))
    ensures |assemblies| <= |args.args|
    ensures forall a :: a in assemblies <==> exists n :: n in args.args && IsDllName(n) && a == env.fullPath(n)
  {
    var names := AssemblyNames(args.args);
    forall a ensures a in assemblies <==> exists n :: n in args.args && IsDllName(n) && a == env.fullPath(n) {
      if a in assemblies {
        var i :| 0 <= i < |assemblies| && assemblies[i] == a;
        assert names[i] in names;
      }
      if exists n :: n in args.args && IsDllName(n) && a == env.fullPath(n) {
        var n :| n in args.args && IsDllName(n) && a == env.fullPath(n);
        assert n in names;
        var i :| 0 <= i < |names| && names[i] == n;
        assert assemblies[i] == a;
      }
    }
  }

  /** A fresh configuration holding this round's fields and the user's options. */
  method NewConfiguration(o: Options, statsFile: string, outputDir: string, planStartId: int,
                          timeLimit: int, randomSeed: int, executionLog: string, env: Environment)
    returns (config: RandoopConfiguration)
    ensures fresh(config)
    ensures RunFields(config, statsFile, outputDir, planStartId, timeLimit, randomSeed, executionLog)
    ensures OptionsApplied(config, o, env)
  {
    config := new RandoopConfiguration();
    SetRunFields(config, statsFile, outputDir, planStartId, timeLimit, randomSeed, executionLog);
    ApplyOptions(config, o, env);
  }

  /** The fields that describe this round. */
  method SetRunFields(config: RandoopConfiguration, statsFile: string, outputDir: string, planStartId: int,
                      timeLimit: int, randomSeed: int, executionLog: string)
    modifies config`statsFile, config`outputDir, config`planStartId, config`timeLimit,
             config`randomSeed, config`executionLog
    ensures RunFields(config, statsFile, outputDir, planStartId, timeLimit, randomSeed, executionLog)
  {
    config.statsFile, config.outputDir, config.planStartId := statsFile, outputDir, planStartId;
    config.timeLimit, config.randomSeed, config.executionLog := timeLimit, randomSeed, executionLog;
  }

  method ApplyOptions(config: RandoopConfiguration, o: Options, env: Environment)
    requires config.executionMode == InitialMode && config.assemblies == [] && config.simpleTypeValues == []
    requires config.requireTypesFiles == [] && config.requireMembersFiles == [] && config.requireFieldsFiles == []
    requires config.forbidTypesFiles == [] && config.forbidMembersFiles == [] && config.forbidFieldsFiles == []
    modifies config`directoryStrategy, config`useRandoopContracts, config`outputNormalInputs, config`useInternal,
             config`useStatic, config`forbidNull, config`fairOpt, config`randomSource, config`executionMode,
             config`assemblies, config`simpleTypeValues, config`requireTypesFiles, config`requireMembersFiles,
             config`requireFieldsFiles, config`forbidTypesFiles, config`forbidMembersFiles, config`forbidFieldsFiles
    ensures OptionsApplied(config, o, env)
  {
    config.directoryStrategy := o.strategy;
    CopyFlags(config, o);
    AddAssemblies(config, o.assemblyNames, env);
    AddConfigFiles(config, o.userDir, env);
  }

  /** The fields that copy a command-line flag. */
  predicate FlagsCopied(config: RandoopConfiguration, o: Options)
    reads config`useRandoopContracts, config`outputNormalInputs, config`useInternal, config`useStatic,
          config`forbidNull, config`fairOpt, config`randomSource, config`executionMode
  {
    && config.useRandoopContracts == o.useRandoopContracts
    && config.outputNormalInputs == o.outputNormal
    && config.useInternal == o.exploreInternal
    && config.useStatic == !o.noStatic
    && config.forbidNull == !o.allowNull
    && config.fairOpt == o.fair
    && config.randomSource == (if o.trueRandom then Crypto else SystemRandom)
    && config.executionMode == (if o.dontExecute then DontExecute else InitialMode)
  }

  /** The fields that name configuration files: the seed values and the six filter files. */
  predicate FilesCopied(config: RandoopConfiguration, userDir: Option<string>, env: Environment)
    reads config`simpleTypeValues, config`requireTypesFiles, config`requireMembersFiles,
          config`requireFieldsFiles, config`forbidTypesFiles, config`forbidMembersFiles, config`forbidFieldsFiles
  {
    && config.simpleTypeValues == SeedValues(userDir, env)
    && config.requireTypesFiles == FilterFile(userDir, 0, env)
    && config.requireMembersFiles == FilterFile(userDir, 1, env)
    && config.requireFieldsFiles == FilterFile(userDir, 2, env)
    && config.forbidTypesFiles == FilterFile(userDir, 3, env)
    && config.forbidMembersFiles == FilterFile(userDir, 4, env)
    && config.forbidFieldsFiles == FilterFile(userDir, 5, env)
  }

  /** The flag fields, set from the command line. */
  method CopyFlags(config: RandoopConfiguration, o: Options)
    requires config.executionMode == InitialMode
    modifies config`useRandoopContracts, config`outputNormalInputs, config`useInternal, config`useStatic,
             config`forbidNull, config`fairOpt, config`randomSource, config`executionMode
    ensures FlagsCopied(config, o)
  {
    config.useRandoopContracts := o.useRandoopContracts;
    config.outputNormalInputs := o.outputNormal;
    config.useInternal := o.exploreInternal;
    config.useStatic := !o.noStatic;
    config.forbidNull := !o.allowNull;
    config.fairOpt := o.fair;
    config.randomSource := if o.trueRandom then Crypto else SystemRandom;
    if o.dontExecute {
      config.executionMode := DontExecute;
    }
  }

  /** The seed-value and filter files. */
  method AddConfigFiles(config: RandoopConfiguration, userDir: Option<string>, env: Environment)
    requires config.simpleTypeValues == []
    requires config.requireTypesFiles == [] && config.requireMembersFiles == [] && config.requireFieldsFiles == []
    requires config.forbidTypesFiles == [] && config.forbidMembersFiles == [] && config.forbidFieldsFiles == []
    modifies config`simpleTypeValues, config`requireTypesFiles, config`requireMembersFiles,
             config`requireFieldsFiles, config`forbidTypesFiles, config`forbidMembersFiles, config`forbidFieldsFiles
    ensures FilesCopied(config, userDir, env)
  {
    AddSeedValues(config, userDir, env);
    AddFilterFiles(config, userDir, env);
  }

  /** The fourteen `simpleTypeValues.Add` calls, sbyte to string. */
  method AddSeedValues(config: RandoopConfiguration, userDir: Option<string>, env: Environment)
    requires config.simpleTypeValues == []
    modifies config`simpleTypeValues
    ensures config.simpleTypeValues == SeedValues(userDir, env)
  {
    AddSeedRows0To4(config, userDir, env);
    AddSeedRows5To9(config, userDir, env);
    AddSeedRows10To13(config, userDir, env);
    assert SeedValues(userDir, env)[..14] == SeedValues(userDir, env);
  }

  /** sbyte, byte, short, ushort, int. */
  method AddSeedRows0To4(config: RandoopConfiguration, userDir: Option<string>, env: Environment)
    requires config.simpleTypeValues == []
    modifies config`simpleTypeValues
    ensures config.simpleTypeValues == SeedValues(userDir, env)[..5]
  {
    AddSeed(config, "System.SByte", "seed_sbyte.txt", userDir, env, 0);
    AddSeed(config, "System.Byte", "seed_byte.txt", userDir, env, 1);
    AddSeed(config, "System.Int16", "seed_short.txt", userDir, env, 2);
    AddSeed(config, "System.UInt16", "seed_ushort.txt", userDir, env, 3);
    AddSeed(config, "System.Int32", "seed_int.txt", userDir, env, 4);
  }

  /** uint, long, ulong, char, float. */
  method AddSeedRows5To9(config: RandoopConfiguration, userDir: Option<string>, env: Environment)
    requires config.simpleTypeValues == SeedValues(userDir, env)[..5]
    modifies config`simpleTypeValues
    ensures config.simpleTypeValues == SeedValues(userDir, env)[..10]
  {
    AddSeed(config, "System.UInt32", "seed_uint.txt", userDir, env, 5);
    AddSeed(config, "System.Int64", "seed_long.txt", userDir, env, 6);
    AddSeed(config, "System.UInt64", "seed_ulong.txt", userDir, env, 7);
    AddSeed(config, "System.Char", "seed_char.txt", userDir, env, 8);
    AddSeed(config, "System.Single", "seed_float.txt", userDir, env, 9);
  }

  /** double, bool, decimal, string. */
  method AddSeedRows10To13(config: RandoopConfiguration, userDir: Option<string>, env: Environment)
    requires config.simpleTypeValues == SeedValues(userDir, env)[..10]
    modifies config`simpleTypeValues
    ensures config.simpleTypeValues == SeedValues(userDir, env)[..14]
  {
    AddSeed(config, "System.Double", "seed_double.txt", userDir, env, 10);
    AddSeed(config, "System.Boolean", "seed_bool.txt", userDir, env, 11);
    AddSeed(config, "System.Decimal", "seed_decimal.txt", userDir, env, 12);
    AddSeed(config, "System.String", "seed_string.txt", userDir, env, 13);
  }

  /** One block: pick the file for type `t` and add its entry, which is row `row` of the
      table. */
  method AddSeed(config: RandoopConfiguration, t: TypeName, name: string, userDir: Option<string>,
                 env: Environment, ghost row: nat)
    requires row < |SeedTable| && SeedTable[row] == (t, name)
    requires config.simpleTypeValues == SeedValues(userDir, env)[..row]
    modifies config`simpleTypeValues
    ensures config.simpleTypeValues == SeedValues(userDir, env)[..row + 1]
  {
    var configFile := ConfigFileFor(userDir, name, env);
    config.simpleTypeValues := config.simpleTypeValues + [SeedEntry(t, configFile, env)];
    assert SeedValues(userDir, env)[..row + 1] == SeedValues(userDir, env)[..row] + [SeedValues(userDir, env)[row]];
  }

  /** `config.assemblies.Add(new FileName(new FileInfo(s).FullName))` for each assembly. */
  method AddAssemblies(config: RandoopConfiguration, assemblyNames: seq<string>, env: Environment)
    requires config.assemblies == []
    modifies config`assemblies
    ensures config.assemblies == seq(|assemblyNames|, k requires 0 <= k < |assemblyNames| => env.fullPath(assemblyNames[k]))
  {
    var i := 0;
    while i < |assemblyNames|
      invariant 0 <= i <= |assemblyNames|
      invariant config.assemblies == seq(i, k requires 0 <= k < i => env.fullPath(assemblyNames[k]))
    {
      config.assemblies := config.assemblies + [env.fullPath(assemblyNames[i])];
      i := i + 1;
    }
  }

  /** The six filter files, one per list. */
  method AddFilterFiles(config: RandoopConfiguration, userDir: Option<string>, env: Environment)
    requires config.requireTypesFiles == [] && config.requireMembersFiles == [] && config.requireFieldsFiles == []
    requires config.forbidTypesFiles == [] && config.forbidMembersFiles == [] && config.forbidFieldsFiles == []
    modifies config`requireTypesFiles, config`requireMembersFiles, config`requireFieldsFiles
    modifies config`forbidTypesFiles, config`forbidMembersFiles, config`forbidFieldsFiles
    ensures config.requireTypesFiles == FilterFile(userDir, 0, env)
    ensures config.requireMembersFiles == FilterFile(userDir, 1, env)
    ensures config.requireFieldsFiles == FilterFile(userDir, 2, env)
    ensures config.forbidTypesFiles == FilterFile(userDir, 3, env)
    ensures config.forbidMembersFiles == FilterFile(userDir, 4, env)
    ensures config.forbidFieldsFiles == FilterFile(userDir, 5, env)
  {
    config.requireTypesFiles := config.requireTypesFiles + FilterFile(userDir, 0, env);
    config.requireMembersFiles := config.requireMembersFiles + FilterFile(userDir, 1, env);
    config.requireFieldsFiles := config.requireFieldsFiles + FilterFile(userDir, 2, env);
    config.forbidTypesFiles := config.forbidTypesFiles + FilterFile(userDir, 3, env);
    config.forbidMembersFiles := config.forbidMembersFiles + FilterFile(userDir, 4, env);
    config.forbidFieldsFiles := config.forbidFieldsFiles + FilterFile(userDir, 5, env);
  }
}
