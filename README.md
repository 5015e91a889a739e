# Randoop.NET core, modelled in Dafny

Randoop.NET generates unit tests for .NET assemblies by feedback-directed random testing. It
builds *plans*, small programs that are a DAG of transformer applications, executes them, and
keeps those that produce new objects as building blocks. It writes each plan as a C# test, and
files the test by its behaviour. A supervisor runs the generator in rounds, each in a child
process with a time budget, and restarts it where the previous round stopped. Afterwards,
reducers keep one representative test per failure class, and a minimiser deletes test lines that
are not needed to reproduce a failure.

This project models that engine and proves properties of the model. The modules are:

- `Plans` (`Test.cs`): the plan DAG and its parts.
  - Plans are created with increasing unique ids.
  - Equality is structural, and the hash agrees with it.
  - `RepOk` holds.
  - Active-slot flags are shared with the transformer.
  - Execution runs the parents first.
  - Result tuples have fixed layouts.
- The transformers: `Transformers`, `MethodCalls`, `ConstructorCalls`, `ArrayBuilders` and `Dummies` (`Actions/*.cs`). The model covers:
  - each transformer's slot layout and default activity;
  - its identity cache;
  - its execution order: precondition, then invocation, then the basic-contract check;
  - counting guideline violations once per (member, exception type) pair;
  - the C# statement it prints.
- `PlanManagers` (`TestManager.cs`): how a new plan is classified as redundant, new, faulted, contract-violating or precondition-violating. It also covers what each outcome does to the counters, the two plan databases, the slot flags, the test writer and the statistics.
- `Stats` (`StatsManager.cs`): the three-state protocol that writes `#`-separated statistics lines, and the parser that adds them up.
- The Randoop contracts and assertion text:
  - `Contracts`: the [Postcondition]/[Invariant]/[StaticInvariant]/[Precondition] case analysis;
  - `ContractText`, `ContractAssertions`, `RandoopContractAssertions`: the assertion text generators;
  - `RegressionAssertions`: the regression assertions and their string escaping.
- Reduction:
  - `Equivalence`: the two equivalence classes;
  - `Reducers` and `SequenceReducers`: the two reducers;
  - `TestCaseUtils`: the delta-debugging minimiser, the grouping by message and the reproducibility filter.
- `Supervisor` (`Main.cs`): the round loop and its time arithmetic, the classification of a round's exit, the reading of the execution log, and the help/usage dispatch.
- `CommandLine` (`CommandLineArguments.cs`): argument validation and the option getters.
- `ConfigFile` (`ConfigFileCreator.cs`): the mapping of the options onto the generator's configuration, including the fallback from user configuration files to defaults.
- `FileSystemModel` and `TestFileWriters` (`TestFileWriter.cs`): the three test writers over an abstract file system.
- `Common` and `CsStrings`: the .NET behaviour the rest relies on.
  - The `String` operations used (`Replace`, `Split`, `Trim`, `IndexOf`, ASCII `ToLower`).
  - `int.TryParse` and `int.ToString`.
  - 32-bit wrap-around.

Code that works by changing state is modelled as classes with `modifies` clauses:
- the plans' counters and flags;
- the transformer caches;
- the plan manager;
- the statistics writer;
- the configuration;
- the file writers.

Each of their methods is proved against a specification function, and lemmas state what the functions promise. Pure code is modelled as functions with lemmas.

Calls into code the model cannot see are parameters of the model. These are:
- reflection, `ExpressionEvaluator`, `Util.ViolatesContracts`/`Util.GuidelineViolation`;
- running a test externally and parsing test files;
- the child processes, the clock, and `Path.GetRandomFileName`.

## Model

| member | source | states |
|---|---|---|
| Plans.Plan.constructor | randoop-NET-src/RandoopImpl/Test.cs:321-344 | the new plan takes the counter's value as its id and advances it by one; it keeps the transformer's own flag array, which has one flag per result slot; `treeNodes` is 1 plus the parents' sum with `int` wrap-around; nothing has executed yet and no contract states are recorded |
| Plans.CountTreeNodes | randoop-NET-src/RandoopImpl/Test.cs:341-343 | the `treeNodes` loop yields 1 plus the sum of the parents' counts, wrapped to 32 bits |
| Plans.CreateInOrder | randoop-NET-src/RandoopImpl/Test.cs:321-324 | of two plans created one after the other, the first has the smaller id, and the counter ends one past the second |
| Plans.Plan.SetActiveTupleElement | randoop-NET-src/RandoopImpl/Test.cs:136-141 | succeeds iff the index is in range and, for a constructor-call plan, not 0; otherwise the `Util.Assert` failure with every flag unchanged; on success only flag i of the shared array changes, and `IsActiveTupleElement(i)` then reads the new value |
| Plans.Plan.IsActiveTupleElement | randoop-NET-src/RandoopImpl/Test.cs:130-134 | the flag of slot i iff i is in range; otherwise the `Util.Assert` failure |
| Plans.TreeNodesBounds | randoop-NET-src/RandoopImpl/Test.cs:341-343 | while no count in the DAG has wrapped (`SizesFit`), `treeNodes` is exactly 1 plus the parents' sum, at least 1 plus the number of parents, and greater than every parent's |
| Plans.TreeNodesWrap | randoop-NET-src/RandoopImpl/Test.cs:341-343 | the `int` sum does wrap: two parents with 2^30 and 2^30-1 nodes give the plan -2^31 nodes |
| Plans.SumAtLeastEach | randoop-NET-src/RandoopImpl/Test.cs:341-343 | the parents' sum of `treeNodes` is at least each parent's count and at least the number of parents |
| Plans.WeightBounds | randoop-NET-src/RandoopImpl/Test.cs:516-519 | while no count has wrapped, `Weight` = 1/(1+treeNodes) lies in (0, 1/2] and is strictly smaller than every parent's weight |
| Plans.Plan.Weight | randoop-NET-src/RandoopImpl/Test.cs:516-519 | 1/(1+treeNodes) lies in (0, 1] for a non-negative count and is negative for a wrapped count below -1 |
| Plans.EqualsIffSameShape | randoop-NET-src/RandoopImpl/Test.cs:196-218 | two plans are `Equals` iff they have equal transformers, equally long and pairwise equal parent lists, and equal chooser lists (chooser equality compares planIndex and resultIndex, lines 261-267) |
| Plans.Plan.Equals | randoop-NET-src/RandoopImpl/Test.cs:196-218 | every plan equals itself; `EqualsIffSameShape` gives the full characterisation |
| Plans.PlanEqualsEquivalence | randoop-NET-src/RandoopImpl/Test.cs:196-218 | plan equality is reflexive, symmetric and transitive |
| Plans.HashParentsEqual | randoop-NET-src/RandoopImpl/Test.cs:236-237 | folding the parents' hashes ×37 gives equal results for two plans with as many parents, pairwise hashing alike |
| Plans.Plan.HashCode | randoop-NET-src/RandoopImpl/Test.cs:232-244 | the hash is a 32-bit `int` whatever the hashes of the transformer and parents |
| Plans.EqualPlansEqualHashes | randoop-NET-src/RandoopImpl/Test.cs:232-244 | equal plans have equal `ComputeHashCode` values: 7, then ×37 with the transformer hash, each parent hash, and the chooser hashes (planIndex+resultIndex, lines 269-272) only when there is a parent, all with 32-bit wrap-around |
| Plans.RepOkSelectsInputs | randoop-NET-src/RandoopImpl/Test.cs:176-187 | when `RepOk` holds, every chooser picks an existing element of an existing parent's result tuple, and there are no more choosers than the transformer has parameters |
| Plans.Plan.RepOk | randoop-NET-src/RandoopImpl/Test.cs:176-187 | a plan that passes `RepOk` has no more choosers than its transformer has parameters |
| Plans.Plan.ExecuteHelper | randoop-NET-src/RandoopImpl/Test.cs:358-389 | runs the parents left to right, stops with no result at the first failing parent, and only then runs its own transformer; the outcome is the reference `Run`, and the contract states are those of the last transformer that ran, `LastStates` |
| Plans.Plan.Execute | randoop-NET-src/RandoopImpl/Test.cs:392-424 | increments `numTimesExecuted` once, has the same outcome as `ExecuteHelper`'s reference, leaves the recorded exception alone, and stores in `CanGenerateContractAssertion` the contract states of the last transformer that ran |
| Plans.NormalParentsRunOwnTransformer | randoop-NET-src/RandoopImpl/Test.cs:358-389 | when every parent runs normally, the outcome and the contract states come from one run of the plan's own transformer on the parents' tuples, in order (also lines 392-424) |
| Common.SingleTuple | randoop-NET-src/RandoopImpl/Test.cs:544-548 | a receiver or array-builder tuple holds exactly the one value (the constructor `ResultTuple(Type, results)` is `TypeResultTuple`) |
| Plans.TypeResultTuple | randoop-NET-src/RandoopImpl/Test.cs:587-591 | the tuple is `results` iff it holds exactly one value; any other length is the `Util.Assert` failure |
| Plans.ConstructorTuple | randoop-NET-src/RandoopImpl/Test.cs:550-558 | a constructor tuple is `[newObject, args…]`, of length n+1, and primitive parameters must not receive null (lines 571-585) |
| Plans.MethodTuple | randoop-NET-src/RandoopImpl/Test.cs:560-569 | a method tuple is `[receiver, returnValue, args…]`, of length n+2, with the same null check on primitive parameters |
| Plans.TupleLayoutsMatchTypes | randoop-NET-src/RandoopImpl/Test.cs:550-569 | with one argument per parameter, the tuples are exactly as long as the transformers' `TupleTypes` |
| Plans.Plan.Constant | randoop-NET-src/RandoopImpl/Test.cs:346-350 | a constant plan has the primitive-value transformer for the value, no parents, no choosers, `treeNodes` 1, the given flag array, and takes the next id |
| Transformers.DefaultActiveMatchesTuple | randoop-NET-src/RandoopImpl/Actions/MethodCall.cs:111-150 | every transformer has exactly one default-activity flag per result-tuple slot |
| Transformers.ToOutcome | randoop-NET-src/RandoopImpl/Test.cs:379-386 | a transformer's return counts as a normal result iff it returned true with a tuple; an escaping exception stays an escape; otherwise the failure carries the precondition, exception and contract indications |
| Transformers.GuidelineStep | randoop-NET-src/RandoopImpl/Actions/MethodCall.cs:464-482 | a guideline-violating exception always adds one to `numDistinctContractViolPlans`, records (member, exception type), and adds one to `numContractViolatingPlans` only the first time that pair is seen |
| Transformers.GuidelineCountedOnce | randoop-NET-src/RandoopImpl/Actions/MethodCall.cs:470-477 | the same guideline violation reported twice counts two distinct plans but at most one new violating plan |
| Transformers.CheckFoldCounts | randoop-NET-src/RandoopImpl/Actions/MethodCall.cs:569-617 | the basic-contract check reports a violation iff some non-null tuple element violates; each violating element adds one to `numDistinctContractViolPlans`; `numContractViolatingPlans` grows no more than the member gains new violation kinds, so at most three times per member; the exception dictionary is untouched |
| Transformers.Violations.RecordGuidelineViolation | randoop-NET-src/RandoopImpl/Actions/MethodCall.cs:464-482 | the violation state becomes `GuidelineStep` of the old one |
| Transformers.Violations.CheckContracts | randoop-NET-src/RandoopImpl/Actions/MethodCall.cs:569-617 | walks the tuple and ends in the state and verdict of `CheckFold`, the element-by-element reference |
| Transformers.ExecutionLog.WriteLine | randoop-NET-src/RandoopImpl/Actions/MethodCall.cs:485-486 | appends exactly one line to the execution log |
| Transformers.AssertNoNull | randoop-NET-src/RandoopImpl/Actions/MethodCall.cs:437-439 | the null assertion over the arguments passes iff none of them is null (also ConstructorCall.cs lines 210-212) |
| MethodCalls.TupleIndexAsWrittenOutOfRange | randoop-NET-src/RandoopImpl/Actions/MethodCall.cs:63-68 | as written, the guard never rejects: input `|params|+1`, which does not exist, maps one past the end of the tuple, and input -1 maps to the receiver slot |
| MethodCalls.TupleIndexOfIthInputParam | randoop-NET-src/RandoopImpl/Actions/MethodCall.cs:63-68 | with the intended guard, an index is accepted iff it is an input; input 0 maps to slot 0, other inputs skip the return-value slot, and the slot's type is the input's parameter type |
| MethodCalls.SubstituteListedFails | randoop-NET-src/RandoopImpl/Actions/MethodCall.cs:552-564 | substituting the listed parameters throws `NullReferenceException` exactly when some listed parameter's argument is null; unlisted parameters are never read |
| MethodCalls.SubstituteNoneListed | randoop-NET-src/RandoopImpl/Actions/MethodCall.cs:552-564 | a precondition that lists no parameter is left as written |
| MethodCalls.SubstituteStaysFailed | randoop-NET-src/RandoopImpl/Actions/MethodCall.cs:552-564 | once a substitution has thrown, the later parameters do not change the outcome |
| MethodCalls.PreconditionAsWrittenNeedsAttribute | randoop-NET-src/RandoopImpl/Actions/MethodCall.cs:552-556 | as written, a method without a `[Precondition]` attribute makes the check throw `NullReferenceException` |
| MethodCalls.MethodPreconditionViolated | randoop-NET-src/RandoopImpl/Actions/MethodCall.cs:552-567 | with the intended null check, no attribute means no violation; an error with all arguments non-null can only come from the evaluator |
| MethodCalls.PreconditionListingNothing | randoop-NET-src/RandoopImpl/Actions/MethodCall.cs:552-567 | an attribute listing no parameter is violated iff its expression evaluates to false, and an evaluator exception escapes |
| MethodCalls.Arguments | randoop-NET-src/RandoopImpl/Actions/MethodCall.cs:417-423 | parameter i's argument is the value chosen by input i+1 of the parameter map |
| MethodCalls.SecondRunAgrees | randoop-NET-src/RandoopImpl/Actions/MethodCall.cs:619-728 | the second run agrees when it returns the first run's non-null value, and agreement needs a non-null value returned without exception |
| MethodCalls.RecordedValue | randoop-NET-src/RandoopImpl/Actions/MethodCall.cs:498-531 | the recorded value is either null or the returned value, and it is the returned value iff that is null or the second run agrees |
| MethodCalls.ExecuteBookkeeping | randoop-NET-src/RandoopImpl/Actions/MethodCall.cs:408-550 | each execution counts one run; exactly the runs past the precondition and the null assertion append one entry to `ReturnValue`; earlier entries stay |
| MethodCalls.PreconditionViolationSkipsInvocation | randoop-NET-src/RandoopImpl/Actions/MethodCall.cs:425-436 | a violated precondition returns false with no result, no exception and no contract violation, counts the run, and never invokes the method |
| MethodCalls.NullArgumentEscapes | randoop-NET-src/RandoopImpl/Actions/MethodCall.cs:437-439 | under `forbidNull`, a null argument past a satisfied precondition makes the `Util.Assert` failure escape: the run is counted, nothing is logged or recorded, and the method is never invoked |
| MethodCalls.InvocationThrowsOutcome | randoop-NET-src/RandoopImpl/Actions/MethodCall.cs:462-492 | with no null argument forbidden, an invocation that throws reports that exception with no result and records a null return value |
| MethodCalls.InvocationReturnsOutcome | randoop-NET-src/RandoopImpl/Actions/MethodCall.cs:494-546 | with no null argument forbidden, a returning invocation yields the tuple `[receiver, return value, args…]` iff no element violates the basic contracts, a contract violation otherwise, and records the value the second run confirms |
| MethodCalls.RetrievalPastRecordedValues | randoop-NET-src/RandoopImpl/Actions/MethodCall.cs:286-312 | a concrete run whose precondition fails leaves one counted execution and no recorded value, so the assertion step as written reads past the end of `ReturnValue` |
| MethodCalls.AssertionStep | randoop-NET-src/RandoopImpl/Actions/MethodCall.cs:286-312 | with the guard the comment intends, nothing is appended once every recorded value is used; otherwise the contract assertion or the regression assertion for the next value is appended and exactly one value is consumed |
| MethodCalls.AssertionStepAgrees | randoop-NET-src/RandoopImpl/Actions/MethodCall.cs:286-312 | whenever every run recorded a value, the guard as written and the intended guard give the same text and count |
| MethodCalls.BookkeepingPreserved | randoop-NET-src/RandoopImpl/Actions/MethodCall.cs:408-550 | executing and retrieving both keep retrieved ≤ recorded ≤ executed (also lines 286-312) |
| MethodCalls.MethodCall.constructor | randoop-NET-src/RandoopImpl/Actions/MethodCall.cs:111-150 | the result types are `[declaringType, returnType, params…]`; the receiver slot is active iff the method is an instance method, the return slot iff it is not void, no parameter slot is, and `GetHashCode` has no active slot; all counters start at zero |
| MethodCalls.SlotLayout | randoop-NET-src/RandoopImpl/Actions/MethodCall.cs:111-143 | the layout `[declaringType, returnType, params…]`, with the receiver slot active iff the method is an instance method and the return slot iff it returns a value |
| MethodCalls.ClearFlags | randoop-NET-src/RandoopImpl/Actions/MethodCall.cs:145-149 | every slot is switched off |
| MethodCalls.MethodCall.ParameterTypes | randoop-NET-src/RandoopImpl/Actions/MethodCall.cs:70-81 | a fresh array `[declaringType, params…]` |
| MethodCalls.MethodCall.PreconditionViolated | randoop-NET-src/RandoopImpl/Actions/MethodCall.cs:552-567 | the substitution loop computes `MethodPreconditionViolated` |
| MethodCalls.MethodCall.Execute2 | randoop-NET-src/RandoopImpl/Actions/MethodCall.cs:619-728 | the verdict is `SecondRunAgrees`, and exactly the second-run log lines are appended |
| MethodCalls.MethodCall.ReportSecondRun | randoop-NET-src/RandoopImpl/Actions/MethodCall.cs:656-728 | judges the second run by `SecondRunAgrees` and appends exactly its return-value lines |
| MethodCalls.MethodCall.Execute | randoop-NET-src/RandoopImpl/Actions/MethodCall.cs:408-550 | with the corrected precondition check, the step-by-step execution ends in the state and return value of `ExecuteSpec` |
| MethodCalls.ExecuteSpec | randoop-NET-src/RandoopImpl/Actions/MethodCall.cs:408-550 | the return keeps the out-parameter convention (`WellShaped`: true iff a tuple without contract violation; a violated precondition alone; an exception with no tuple), and a returned tuple is `[receiver, value, args…]` |
| MethodCalls.MethodCall.Invoke | randoop-NET-src/RandoopImpl/Actions/MethodCall.cs:447-546 | the invocation part ends as `InvokeSpec` says and leaves the execution count alone |
| MethodCalls.MethodCall.RecordReturn | randoop-NET-src/RandoopImpl/Actions/MethodCall.cs:494-546 | the returning path ends as `ReturnedSpec` says |
| MethodCalls.MethodCall.RecordReturnValue | randoop-NET-src/RandoopImpl/Actions/MethodCall.cs:497-533 | appends the return-value log lines and records the value only when a second run agrees, null otherwise |
| MethodCalls.MethodCall.LogPresentValue | randoop-NET-src/RandoopImpl/Actions/MethodCall.cs:499-523 | for a non-null value: logs it and reports whether the second run agrees |
| MethodCalls.MethodCall.ToCSharpCode | randoop-NET-src/RandoopImpl/Actions/MethodCall.cs:286-318 | appends the assertion `AssertionStep` chooses and consumes its value; the runs and recorded values are unchanged |
| MethodCalls.MethodCallCache.Get | randoop-NET-src/RandoopImpl/Actions/MethodCall.cs:45-52 | returns the cached transformer of a known method; otherwise it creates, caches and returns a fresh one; every entry is the transformer of its own key |
| MethodCalls.MethodCallCache.GetTwice | randoop-NET-src/RandoopImpl/Actions/MethodCall.cs:45-52 | two lookups of the same method return the same object |
| ConstructorCalls.TupleIndexAsWrittenOutOfRange | randoop-NET-src/RandoopImpl/Actions/ConstructorCall.cs:55-59 | as written, the guard never rejects: input `|params|`, which does not exist, maps one past the end of the tuple, and input -1 maps to the new object's slot |
| ConstructorCalls.TupleIndexOfIthInputParam | randoop-NET-src/RandoopImpl/Actions/ConstructorCall.cs:55-59 | with the intended guard, an index is accepted iff it is a parameter, and parameter i lives in slot i+1, whose type is the parameter's |
| ConstructorCalls.TupleIndexAgreesOnParameters | randoop-NET-src/RandoopImpl/Actions/ConstructorCall.cs:55-59 | on every real parameter the mapping as written and the intended one agree |
| Transformers.ChosenValues | randoop-NET-src/RandoopImpl/Actions/ConstructorCall.cs:184-190 | parameter i's argument (and, for an array builder, element i of the array, ArrayConstructor.cs:134-142) is the value chosen by input i of the parameter map |
| ConstructorCalls.PreconditionCheck | randoop-NET-src/RandoopImpl/Actions/ConstructorCall.cs:192-208 | with the corrected contracts-manager check `Contracts.PreconditionViolated`: the precondition is checked only with Randoop contracts; it counts as violated iff the manager says so; an `InvalidRandoopContractException` counts as not violated; any other exception escapes |
| ConstructorCalls.Verdict | randoop-NET-src/RandoopImpl/Actions/ConstructorCall.cs:195-199 | the manager's answer counts as violated iff it is `true`; only an exception other than `InvalidRandoopContractException` escapes |
| ConstructorCalls.PreconditionAsWrittenInvokes | randoop-NET-src/RandoopImpl/Actions/ConstructorCall.cs:192-208 | with the manager as written, a one-parameter constructor whose argument's text is not the parameter's name is never ruled out (the manager throws `InvalidRandoopContractException`, which is swallowed); the corrected check rules it out iff the substituted expression is false |
| ConstructorCalls.PreconditionViolationSkipsInvocation | randoop-NET-src/RandoopImpl/Actions/ConstructorCall.cs:201-207 | with the corrected contracts-manager check: a violated precondition returns false with no result, no exception and no contract violation, without counting the run, logging or invoking |
| ConstructorCalls.NullArgumentEscapes | randoop-NET-src/RandoopImpl/Actions/ConstructorCall.cs:210-212 | under `forbidNull`, a null argument past a satisfied precondition makes the `Util.Assert` failure escape before the run is counted or logged, and the constructor is never invoked |
| ConstructorCalls.InvalidPreconditionIgnored | randoop-NET-src/RandoopImpl/Actions/ConstructorCall.cs:195-199 | an invalid precondition makes execution proceed exactly as without Randoop contracts |
| ConstructorCalls.NoContractsNoPrecondition | randoop-NET-src/RandoopImpl/Actions/ConstructorCall.cs:192-223 | without Randoop contracts no precondition is reported violated, and a run is counted iff no null argument is forbidden |
| ConstructorCalls.InvocationThrowsOutcome | randoop-NET-src/RandoopImpl/Actions/ConstructorCall.cs:219-255 | with no null argument forbidden, a constructor that throws reports that exception with no result, counts the run, logs the call and "execution failure.", and records (constructor, exception type) iff it is a guideline violation |
| ConstructorCalls.InvocationReturnsOutcome | randoop-NET-src/RandoopImpl/Actions/ConstructorCall.cs:256-311 | with no null argument forbidden, a constructor that returns yields `[new object, args…]`, which is normal iff no non-null element violates the basic contracts; the contract states are the new object's; one distinct violating plan is counted per violating element |
| ConstructorCalls.CastJoinedSnoc | randoop-NET-src/RandoopImpl/Actions/ConstructorCall.cs:141-150 | the cast argument list grows at its end by " , " and the next cast argument |
| ConstructorCalls.ArgumentListJoins | randoop-NET-src/RandoopImpl/Actions/ConstructorCall.cs:141-150 | the argument list exists iff there are no more arguments than parameters; it is then every argument cast to its parameter type, joined by " , "; otherwise `ParameterTypes[i]` throws `IndexOutOfRangeException` |
| ConstructorCalls.StatementExample | randoop-NET-src/RandoopImpl/Actions/ConstructorCall.cs:131-162 | `new C(T, U)` with arguments a and b prints as `C v = new C((T)a , (U)b);`, each type as `SourceCodePrinting.ToCodeString` prints it |
| ConstructorCalls.ConstructorCall.constructor | randoop-NET-src/RandoopImpl/Actions/ConstructorCall.cs:107-129 | the result types are `[declaringType, params…]`; the new object's slot is active and no parameter slot is; nothing has executed yet |
| ConstructorCalls.ConstructorCall.ParameterTypes | randoop-NET-src/RandoopImpl/Actions/ConstructorCall.cs:75-85 | a fresh array of the parameter types, in order |
| ConstructorCalls.ConstructorCall.Execute | randoop-NET-src/RandoopImpl/Actions/ConstructorCall.cs:174-321 | with the corrected contracts-manager check, the step-by-step execution ends in the state, return value and contract states of `ExecuteSpec` |
| ConstructorCalls.ConstructorCall.Proceed | randoop-NET-src/RandoopImpl/Actions/ConstructorCall.cs:210-321 | past a precondition that holds: a forbidden null argument makes the `Util.Assert` failure escape with nothing changed; otherwise the run is logged, counted and invoked as `ProceedSpec` says |
| ConstructorCalls.ExecuteSpec | randoop-NET-src/RandoopImpl/Actions/ConstructorCall.cs:174-321 | with the corrected contracts-manager check: the return keeps the out-parameter convention `WellShaped`; contract states exist iff a tuple is returned; a returned tuple is `[new object, args…]` |
| ConstructorCalls.GatherArguments | randoop-NET-src/RandoopImpl/Actions/ConstructorCall.cs:184-190 | the `objects` array holds, slot by slot, the result each parameter chooser picks |
| ConstructorCalls.ConstructorCall.CheckPrecondition | randoop-NET-src/RandoopImpl/Actions/ConstructorCall.cs:192-208 | with the corrected contracts-manager check: no violation without Randoop contracts; an invalid contract counts as not violated; any other exception of the check escapes |
| ConstructorCalls.ConstructorCall.CountAndInvoke | randoop-NET-src/RandoopImpl/Actions/ConstructorCall.cs:219-321 | the call is logged and counted once, and the run then ends as `InvokeSpec` says |
| ConstructorCalls.ConstructorCall.Invoke | randoop-NET-src/RandoopImpl/Actions/ConstructorCall.cs:214-311 | the invocation part ends as `InvokeSpec` says |
| ConstructorCalls.ConstructorCall.ToCSharpCode | randoop-NET-src/RandoopImpl/Actions/ConstructorCall.cs:131-162 | the printed statement is `StatementText`: the declaring type (twice) and every cast printed by `SourceCodePrinting.ToCodeString`, which is the `codeString` parameter |
| ConstructorCalls.ConstructorCallCache.Get | randoop-NET-src/RandoopImpl/Actions/ConstructorCall.cs:38-45 | returns the cached transformer of a known constructor; otherwise it creates, caches and returns a fresh one; every entry is its own key's transformer |
| ArrayBuilders.ExecuteOutcome | randoop-NET-src/RandoopImpl/Actions/ArrayConstructor.cs:114-148 | an array builder's execution is normal with the array as its only slot iff the array could be created and no null element is forbidden; a failed creation reports its exception; a forbidden null element makes the `Util.Assert` failure escape; it never reports a precondition or contract violation; it only appends, at most one log line |
| ArrayBuilders.ElementListAppend | randoop-NET-src/RandoopImpl/Actions/ArrayConstructor.cs:99-103 | the initialiser list of two non-empty argument lists is the two lists joined by " , " |
| ArrayBuilders.ElementListSingle | randoop-NET-src/RandoopImpl/Actions/ArrayConstructor.cs:99-103 | one argument is listed as it is |
| ArrayBuilders.ArrayBuilder.constructor | randoop-NET-src/RandoopImpl/Actions/CollectionCreator.cs:46-51 | a builder keeps the base type and the non-negative length it was created with |
| ArrayBuilders.ArrayBuilder.Desc | randoop-NET-src/RandoopImpl/Actions/ArrayConstructor.cs:43-66 | one result slot, the array type, active by default; member name "n/a" |
| ArrayBuilders.ArrayBuilder.TupleIndexOfIthInputParam | randoop-NET-src/RandoopImpl/Actions/ArrayConstructor.cs:52-55 | always throws `NotImplementedException` |
| ArrayBuilders.ArrayBuilder.ParameterTypes | randoop-NET-src/RandoopImpl/Actions/CollectionCreator.cs:35-44 | a fresh array of `length` copies of the base type |
| ArrayBuilders.ArrayBuilder.Execute | randoop-NET-src/RandoopImpl/Actions/ArrayConstructor.cs:114-148 | the log and the returned outcome are those of `ExecuteSpec`; on success the array's contents are the chosen elements; under `forbidNull` a null element makes the `Util.Assert` failure escape |
| ArrayBuilders.ArrayBuilder.ToCSharpCode | randoop-NET-src/RandoopImpl/Actions/ArrayConstructor.cs:91-106 | `T[] v =  new T[] {a0 , a1…};` iff there is one argument per element; any other count is the `Util.Assert` failure |
| ArrayBuilders.EqualsIffSameDesc | randoop-NET-src/RandoopImpl/Actions/ArrayConstructor.cs:68-79 | two builders are equal iff they build the same array type of the same length, and equal builders hash equally |
| ArrayBuilders.ArrayBuilderCache.Get | randoop-NET-src/RandoopImpl/Actions/ArrayConstructor.cs:29-40 | a negative length is the `Util.Assert` failure of the builder's constructor and caches nothing; otherwise one builder per (base type, length) pair: a cached one is returned unchanged, or a fresh one is cached and returned |
| Dummies.ExecuteAlwaysNormal | randoop-NET-src/RandoopImpl/Actions/DummyAction.cs:114-124 | a dummy's execution is always normal with the single slot `null`, and logs one line |
| Dummies.DummyTransformer.constructor | randoop-NET-src/RandoopImpl/Actions/DummyAction.cs:109-112 | the dummy keeps its type |
| Dummies.DummyTransformer.Desc | randoop-NET-src/RandoopImpl/Actions/DummyAction.cs:47-77 | one result slot of the dummy's type, active by default; no parameters; member name "n/a" |
| Dummies.DummyTransformer.TupleIndexOfIthInputParam | randoop-NET-src/RandoopImpl/Actions/DummyAction.cs:56-59 | always throws `NotImplementedException` |
| Dummies.DummyTransformer.ToCSharpCode | randoop-NET-src/RandoopImpl/Actions/DummyAction.cs:142-145 | always throws `NotImplementedException` |
| Dummies.DummyTransformer.Execute | randoop-NET-src/RandoopImpl/Actions/DummyAction.cs:114-124 | the log and the returned outcome are those of `ExecuteSpec`, whatever the inputs |
| Dummies.EqualsIffSameDesc | randoop-NET-src/RandoopImpl/Actions/DummyAction.cs:94-107 | two dummies are equal iff they stand for the same type, and equal dummies hash equally |
| Dummies.DummyCache.Get | randoop-NET-src/RandoopImpl/Actions/DummyAction.cs:34-45 | one dummy per type: a cached one is returned unchanged, otherwise a fresh one is cached and returned |
| PlanManagers.Deactivated | randoop-NET-src/RandoopImpl/TestManager.cs:191-209 | the active flags keep their number |
| PlanManagers.DeactivatedProperties | randoop-NET-src/RandoopImpl/TestManager.cs:191-209 | after a normal run no active slot holds null under `forbidnull`, only slot 0 may stay active under `forbidparamobj`, no slot is switched on, doing it twice changes nothing, and with neither option nothing changes |
| PlanManagers.PlanDataBase.constructor | randoop-NET-src/RandoopImpl/TestManager.cs:58-60 | a database starts empty |
| PlanManagers.PlanDataBase.AddPlan | randoop-NET-src/RandoopImpl/TestManager.cs:119 | the plan is appended with its result tuple, if any, and the database then contains it (also lines 171-175, 211) |
| PlanManagers.ContainsAfterAdd | randoop-NET-src/RandoopImpl/TestManager.cs:85-94 | after a plan is stored, every plan equal to it is found redundant |
| PlanManagers.AddKeepsNoEqualPlans | randoop-NET-src/RandoopImpl/TestManager.cs:85-211 | storing a plan that neither database contains keeps every stored plan distinct, within and across the two databases |
| PlanManagers.PlanManager.constructor | randoop-NET-src/RandoopImpl/TestManager.cs:55-62 | empty databases, zero counters, no test written, and the plan id counter set to `planstartid` |
| PlanManagers.PlanManager.AddMaybeExecutingIfNeeded | randoop-NET-src/RandoopImpl/TestManager.cs:83-215 | a redundant plan is only counted and reported Redundant; a new plan is counted and written as a test first; without execution it is stored as a builder and reported normal; with execution it runs once, after its log names it, and is filed by its outcome |
| PlanManagers.PlanManager.AddNew | randoop-NET-src/RandoopImpl/TestManager.cs:95-215 | a new plan is counted and written as a test first; then it is stored unexecuted or executed and filed |
| PlanManagers.PlanManager.StoreUnexecuted | randoop-NET-src/RandoopImpl/TestManager.cs:117-121 | without execution the plan becomes a builder and its run is reported normal |
| PlanManagers.PlanManager.ExecuteNew | randoop-NET-src/RandoopImpl/TestManager.cs:122-213 | the plan is named in its own execution log, executed once and filed by its outcome |
| PlanManagers.PlanManager.RecordFailure | randoop-NET-src/RandoopImpl/TestManager.cs:144-177 | a failed plan is filed as `Filed` says: precondition and exception results reported, the exception recorded and the test moved, and the plan stored as a builder under `monkey`, as an exception plan when it threw, or not at all |
| PlanManagers.PlanManager.DeactivateSlots | randoop-NET-src/RandoopImpl/TestManager.cs:191-209 | the flags become `Deactivated` of the old flags when either option is set, and are unchanged otherwise |
| PlanManagers.PlanManager.DeactivateNulls | randoop-NET-src/RandoopImpl/TestManager.cs:192-199 | a slot stays active iff it was active and its value is not null |
| PlanManagers.PlanManager.DeactivateParams | randoop-NET-src/RandoopImpl/TestManager.cs:203-209 | every slot but the first is switched off and the first is unchanged |
| PlanManagers.PlanManager.RecordNormal | randoop-NET-src/RandoopImpl/TestManager.cs:178-212 | a normal plan is reported normal, its test moved to the normal-termination place or removed, its flags deactivated and it is stored with its result tuple |
| PlanManagers.ReportSnoc | randoop-NET-src/RandoopImpl/TestManager.cs:146-180 | each reported result completes one more line of the statistics file |
| PlanManagers.UnreportedOutcomesLeaveLineOpen | randoop-NET-src/RandoopImpl/TestManager.cs:144-177 | a failure with only a contract violation reports nothing, so the statistics line stays open and the next `Selected` throws InternalError |
| PlanManagers.ReportedOutcomesCloseLine | randoop-NET-src/RandoopImpl/TestManager.cs:144-180 | every other outcome closes the statistics line, with two lines when a precondition violation and an exception are both reported |
| PlanManagers.PreconditionWordingDiffers | randoop-NET-src/RandoopImpl/TestManager.cs:148 | "precondition violated" is not the result the statistics protocol accepts outside a selection, so it throws there |
| Stats.CreationName | randoop-NET-src/RandoopCommon/StatsManager.cs:28 | the name of a creation result holds no `#`, is not empty and has no white space at either end |
| Stats.Legality | randoop-NET-src/RandoopCommon/StatsManager.cs:45-113 | `Selected` succeeds iff the name is non-null and the state is Start; `CreatedNew` iff the state is Selected; `ExecutionResult` iff the result is non-null and the state is CreatedNewPlan or the result is "precondition violation"; every refusal is InternalError, or ArgumentNullException for a null result |
| Stats.CallsPreserveValid | randoop-NET-src/RandoopCommon/StatsManager.cs:45-113 | every legal call keeps the file well formed, never rewrites a completed line and completes at most one line; the calls that return to Start complete exactly one |
| Stats.LegalSequenceWritesLine | randoop-NET-src/RandoopCommon/StatsManager.cs:45-113 | from Start, `Selected(t)`, `CreatedNew(cr)` and, for a new plan, `ExecutionResult(res)` are legal and append exactly the line `t#cr[#res]` |
| Stats.PreconditionViolationLines | randoop-NET-src/RandoopCommon/StatsManager.cs:98-113 | "precondition violation" with no open line completes a line of its own; right after `Selected(t)` it completes `t#precondition violation` |
| Stats.StatsManager.constructor | randoop-NET-src/RandoopCommon/StatsManager.cs:38-42 | an empty file in state Start |
| Stats.StatsManager.Selected | randoop-NET-src/RandoopCommon/StatsManager.cs:45-59 | the file and state change as `SelectedSpec`, or the exception is reported with nothing written |
| Stats.StatsManager.CreatedNew | randoop-NET-src/RandoopCommon/StatsManager.cs:62-95 | the file and state change as `CreatedNewSpec`, or the exception is reported with nothing written |
| Stats.StatsManager.ExecutionResult | randoop-NET-src/RandoopCommon/StatsManager.cs:98-113 | the file and state change as `ExecutionResultSpec`, or the exception is reported with nothing written |
| Stats.Bump | randoop-NET-src/RandoopCommon/StatsManager.cs:254-259 | the result's count goes up by one, a missing key counting as zero; no other count changes |
| Stats.AddFieldsConserves | randoop-NET-src/RandoopCommon/StatsManager.cs:205-260 | a line with fewer than two fields is ignored; any other adds one selection to exactly one action and, when it parses, keeps each action's selections equal to the sum of its creation results |
| Stats.ParseAndAddConserves | randoop-NET-src/RandoopCommon/StatsManager.cs:205-260 | parsing a line keeps the counters conserved, and ignores a line with fewer than two fields |
| Stats.ReadAllConserves | randoop-NET-src/RandoopCommon/StatsManager.cs:178-203 | reading a whole file keeps the counters of every action conserved |
| Stats.StatsLineFields | randoop-NET-src/RandoopCommon/StatsManager.cs:207 | the fields of a written line are the action, the creation result and the execution result |
| Stats.StatsLineTrimmed | randoop-NET-src/RandoopCommon/StatsManager.cs:207 | trimming a written line with plain names changes nothing |
| Stats.AddFieldsOfStatsLine | randoop-NET-src/RandoopCommon/StatsManager.cs:213-259 | the fields of such a line add exactly what the calls that wrote it describe |
| Stats.ParseStatsLine | randoop-NET-src/RandoopCommon/StatsManager.cs:205-260 | round trip: a written line parses back as its action, creation result and execution result |
| Stats.WriteThenParse | randoop-NET-src/RandoopCommon/StatsManager.cs:45-260 | after a legal write sequence, the new last line of the file parses back to exactly the counters the calls describe |
| Stats.LineWithoutSeparatorIgnored | randoop-NET-src/RandoopCommon/StatsManager.cs:207-212 | a line without `#` is ignored |
| Stats.UnknownCreationThrows | randoop-NET-src/RandoopCommon/StatsManager.cs:241-242 | a second field that is none of the three creation names throws InternalError |
| Stats.PreconditionViolationParses | randoop-NET-src/RandoopCommon/StatsManager.cs:205-242 | the line "precondition violation" alone is ignored, and `t#precondition violation` makes the parser throw |
| Stats.StatsTable.ReadStats | randoop-NET-src/RandoopCommon/StatsManager.cs:178-203 | the lines are parsed in order and the first exception ends the read |
| Stats.Insert | randoop-NET-src/RandoopCommon/StatsManager.cs:157-167 | inserting after every entry selected at least as often keeps the list most-selected first and adds exactly the entry |
| Stats.SortByTimesActionsSelected | randoop-NET-src/RandoopCommon/StatsManager.cs:169-176 | every entry of the dictionary exactly once, most selected first |
| Contracts.ComputeGetterName | randoop-NET-src/RandoopImpl/RandoopContracts/RandoopContractsManager.cs:199-202 | the getter of a field is "Get", the field's first character upper-cased, then the rest of the field; an empty field name throws |
| Contracts.GetterNamesDistinct | randoop-NET-src/RandoopImpl/RandoopContracts/RandoopContractsManager.cs:199-202 | distinct field names whose first characters do not collide under upper-casing have distinct getters |
| Contracts.Evaluated | randoop-NET-src/RandoopImpl/RandoopContracts/RandoopContractsManager.cs:69-78 | a validated contract is Ok iff the evaluator returns a boolean, whatever its value, and Invalid iff it throws |
| Contracts.ValidatePostcondition | randoop-NET-src/RandoopImpl/RandoopContracts/RandoopContractsManager.cs:54-79 | Missing iff the postcondition attribute is absent, never NotApplicable; otherwise the expression is evaluated with `output` bound to the returned value |
| Contracts.ResolveField | randoop-NET-src/RandoopImpl/RandoopContracts/RandoopContractsManager.cs:89-107 | a public field (a static one, for a static invariant) is read; otherwise a public getter `GetX` (a static one, for a static invariant); an empty name throws; when neither exists the field is unresolvable |
| Contracts.CollectVariablesComplete | randoop-NET-src/RandoopImpl/RandoopContracts/RandoopContractsManager.cs:88-108 | the variables are complete iff every field resolves and no field is named twice |
| Contracts.CollectVariablesBinds | randoop-NET-src/RandoopImpl/RandoopContracts/RandoopContractsManager.cs:88-108 | complete variables bind exactly the named fields, each to the value read for it |
| Contracts.CollectVariablesRepeatFree | randoop-NET-src/RandoopImpl/RandoopContracts/RandoopContractsManager.cs:88-108 | complete variables come from fields named once each (`Add` throws on a repeated name) |
| Contracts.ExtendAbandoned | randoop-NET-src/RandoopImpl/RandoopContracts/RandoopContractsManager.cs:89-108 | once the loop returns or throws, later fields change nothing |
| Contracts.ValidateClassContract | randoop-NET-src/RandoopImpl/RandoopContracts/RandoopContractsManager.cs:81-177 | Missing iff the attribute is absent, never NotApplicable |
| Contracts.CollectVariablesLoop | randoop-NET-src/RandoopImpl/RandoopContracts/RandoopContractsManager.cs:88-108 | the field loop computes `CollectVariables` |
| Contracts.ValidateInvariant | randoop-NET-src/RandoopImpl/RandoopContracts/RandoopContractsManager.cs:81-122 | computes the class invariant's state on the receiver |
| Contracts.ValidateStaticInvariant | randoop-NET-src/RandoopImpl/RandoopContracts/RandoopContractsManager.cs:124-177 | computes the static invariant's state, with instance fields and getters rejected |
| Contracts.MethodStatesByKind | randoop-NET-src/RandoopImpl/RandoopContracts/RandoopContractsManager.cs:12-40 | the postcondition is NotApplicable exactly for void methods and the invariant exactly for static methods; the static invariant is always validated; every validated state is its validator's answer |
| Contracts.ConstructorContractStates | randoop-NET-src/RandoopImpl/RandoopContracts/RandoopContractsManager.cs:42-52 | a constructor has all three contracts validated, none NotApplicable |
| Contracts.PrivateFieldsAreInvalid | randoop-NET-src/RandoopImplTest/RandoopContracts/TestData.cs:31-40 | an invariant over a private field, and a static invariant over a private static field, are Invalid |
| Contracts.InstanceFieldInStaticInvariantIsInvalid | randoop-NET-src/RandoopImplTest/RandoopContracts/TestData.cs:42-49 | a static invariant naming an instance field is Invalid |
| Contracts.ArgumentStrings | randoop-NET-src/RandoopImpl/RandoopContracts/RandoopContractsManager.cs:206 | converting the arguments to text throws iff some argument is null; otherwise it is each argument's `ToString`, in order |
| Contracts.PreconditionLoopAsWritten | randoop-NET-src/RandoopImpl/RandoopContracts/RandoopContractsManager.cs:204-236 | the rewriting loop as written computes `PreconditionViolatedAsWritten` |
| Contracts.PreconditionAsWrittenRejectsValues | randoop-NET-src/RandoopImpl/RandoopContracts/RandoopContractsManager.cs:217-223 | as written, `[Precondition("x > 0", "x")]` on `M(int x)` called with 5 throws `InvalidRandoopContractException` instead of evaluating `5 > 0` |
| Contracts.SubstituteNothing | randoop-NET-src/RandoopImpl/RandoopContracts/RandoopContractsManager.cs:225 | an expression that mentions no parameter is evaluated as written |
| Contracts.PreconditionViolated | randoop-NET-src/RandoopImpl/RandoopContracts/RandoopContractsManager.cs:204-270 | as intended: no precondition means no violation; otherwise the parameter names are replaced by their arguments' texts, longest name first, and an error is either a null argument or `InvalidRandoopContractException` |
| Contracts.LongestFirst | randoop-NET-src/RandoopImpl/RandoopContracts/RandoopContractsManager.cs:206 | the names in the order `OrderByDescending(_ => _.Length)` gives: a permutation, longest first |
| Contracts.SubstituteInOrderNothing | randoop-NET-src/RandoopImpl/RandoopContracts/RandoopContractsManager.cs:215-226 | replacing names the expression does not contain leaves it unchanged, in any order |
| Contracts.PreconditionLongestNameFirst | randoop-NET-src/RandoopImpl/RandoopContracts/RandoopContractsManager.cs:204-236 | as intended, `xs > x` with x = 5 and xs = 3 is evaluated as `3 > 5`; replacing in declaration order would give `5s > 5` |
| Contracts.PreconditionSubstitutesValues | randoop-NET-src/RandoopImpl/RandoopContracts/RandoopContractsManager.cs:204-236 | as intended, a one-parameter precondition that starts with the parameter's name evaluates the argument's text followed by the rest (`M(5)` with `[Precondition("x > 0", "x")]` evaluates `5 > 0`): violated iff that is false, invalid iff the evaluator throws |
| ContractText.PostconditionExpressionCases | randoop-NET-src/RandoopImpl/ContractAssertionGenerator.cs:83-86 | an expression that does not mention `output` is asserted as written; `output` alone becomes the result variable; a result variable named `output` changes nothing |
| ContractText.InsertByLengthElements | randoop-NET-src/RandoopImpl/ContractAssertionGenerator.cs:90 | inserting a field keeps every field and adds exactly the new one |
| ContractText.InsertByLengthSorted | randoop-NET-src/RandoopImpl/ContractAssertionGenerator.cs:90 | inserting into a longest-first list keeps it longest first |
| ContractText.OrderByDescendingLengthSorted | randoop-NET-src/RandoopImpl/ContractAssertionGenerator.cs:90 | the invariant's fields are visited longest first, and the order is a permutation of the fields |
| ContractText.RewriteFieldsSucceeds | randoop-NET-src/RandoopImpl/ContractAssertionGenerator.cs:91-94 | the field-by-field rewriting succeeds iff every field is non-empty and has a replacement |
| ContractText.RewriteUnmentioned | randoop-NET-src/RandoopImpl/ContractAssertionGenerator.cs:91-94 | fields the expression does not mention leave it unchanged |
| ContractText.RewriteStaysFailed | randoop-NET-src/RandoopImpl/RandoopContractAssertionGenerator.cs:92-106 | once a replacement throws, the remaining fields change nothing |
| ContractText.RewriteLoop | randoop-NET-src/RandoopImpl/RandoopContractAssertionGenerator.cs:92-108 | the `foreach` over the fields computes `RewriteFields` |
| ContractAssertions.PostconditionSection | randoop-NET-src/RandoopImpl/ContractAssertionGenerator.cs:48-56 | without the flag the section is empty; with it and a postcondition, the postcondition comment and `Assert.IsTrue` of the expression with `output` replaced |
| ContractAssertions.InvariantSection | randoop-NET-src/RandoopImpl/ContractAssertionGenerator.cs:58-66 | without the flag the section is empty |
| ContractAssertions.StaticInvariantSection | randoop-NET-src/RandoopImpl/ContractAssertionGenerator.cs:68-76 | without the flag the section is empty |
| ContractAssertions.MethodSectionsByKind | randoop-NET-src/RandoopImpl/ContractAssertionGenerator.cs:16-46 | the four-way case analysis amounts to: a postcondition section only for non-void methods, an invariant section only for instance methods, a static-invariant section always, in that order |
| ContractAssertions.NoFlagsNoText | randoop-NET-src/RandoopImpl/ContractAssertionGenerator.cs:16-46 | with all three flags off, neither a method nor a constructor gets any text |
| ContractAssertions.InvariantRewriteTotal | randoop-NET-src/RandoopImpl/ContractAssertionGenerator.cs:88-97 | invariant fields are not looked up, so the rewriting succeeds whenever no field name is empty |
| ContractAssertions.AppendPostcondition | randoop-NET-src/RandoopImpl/ContractAssertionGenerator.cs:48-56 | appends exactly the postcondition section, or reports its exception |
| ContractAssertions.AppendInvariant | randoop-NET-src/RandoopImpl/ContractAssertionGenerator.cs:58-66 | appends exactly the invariant section, or reports its exception |
| ContractAssertions.AppendStaticInvariant | randoop-NET-src/RandoopImpl/ContractAssertionGenerator.cs:68-76 | appends exactly the static-invariant section, or reports its exception |
| ContractAssertions.Compute | randoop-NET-src/RandoopImpl/ContractAssertionGenerator.cs:16-46 | the builder's text is `MethodAssertionText` |
| ContractAssertions.ComputeForConstructor | randoop-NET-src/RandoopImpl/ContractAssertionGenerator.cs:130-142 | the builder's text is all three sections, with the new object as result and receiver |
| RandoopContractAssertions.QualifiedMember | randoop-NET-src/RandoopImpl/RandoopContractAssertionGenerator.cs:94-105 | a public field is written `q.field`; otherwise a getter is written `q.GetField()`; otherwise the generator throws |
| RandoopContractAssertions.PostconditionSection | randoop-NET-src/RandoopImpl/RandoopContractAssertionGenerator.cs:34-47 | Missing and NotApplicable give nothing, Invalid gives the invalid-postcondition comment, Ok gives the comment and `Assert.IsTrue` of the expression with `output` replaced |
| RandoopContractAssertions.InvariantSection | randoop-NET-src/RandoopImpl/RandoopContractAssertionGenerator.cs:49-62 | Missing and NotApplicable give nothing; Invalid gives the invalid-invariant comment |
| RandoopContractAssertions.StaticInvariantSection | randoop-NET-src/RandoopImpl/RandoopContractAssertionGenerator.cs:64-77 | Missing and NotApplicable give nothing; Invalid gives the invalid-static-invariant comment |
| RandoopContractAssertions.AssertionText | randoop-NET-src/RandoopImpl/RandoopContractAssertionGenerator.cs:19-32 | the text is the postcondition, invariant and static-invariant sections concatenated in that order |
| RandoopContractAssertions.AppendPostcondition | randoop-NET-src/RandoopImpl/RandoopContractAssertionGenerator.cs:34-47 | appends exactly the postcondition section, or reports its exception |
| RandoopContractAssertions.AppendInvariant | randoop-NET-src/RandoopImpl/RandoopContractAssertionGenerator.cs:49-62 | appends exactly the invariant section, or reports its exception |
| RandoopContractAssertions.AppendStaticInvariant | randoop-NET-src/RandoopImpl/RandoopContractAssertionGenerator.cs:64-77 | appends exactly the static-invariant section, or reports its exception |
| RandoopContractAssertions.Compute | randoop-NET-src/RandoopImpl/RandoopContractAssertionGenerator.cs:19-32 | the builder's text is `AssertionText` |
| RandoopContractAssertions.ComputeForConstructor | randoop-NET-src/RandoopImpl/RandoopContractAssertionGenerator.cs:135-147 | the new object is both the result and the receiver |
| RandoopContractAssertions.NothingForAbsentContracts | randoop-NET-src/RandoopImpl/RandoopContractAssertionGenerator.cs:19-77 | when every contract is Missing or NotApplicable the text is empty |
| RandoopContractAssertions.BoundIsQualified | randoop-NET-src/RandoopImpl/RandoopContractAssertionGenerator.cs:94-105 | a field that the contracts manager could read can be named in the test |
| RandoopContractAssertions.ValidatedFieldsRewrite | randoop-NET-src/RandoopImpl/RandoopContractAssertionGenerator.cs:89-131 | every field of an invariant the manager validated has a replacement, in any order |
| RandoopContractAssertions.ValidatedContractsGenerate | randoop-NET-src/RandoopImpl/RandoopContractAssertionGenerator.cs:19-32 | on the states the contracts manager computed for the same method, the generator never throws |
| RandoopContractAssertions.ValidatedConstructorContractsGenerate | randoop-NET-src/RandoopImpl/RandoopContractAssertionGenerator.cs:135-147 | the same for a constructor and the states computed on its new object |
| RegressionAssertions.GenerateRegressionAssertion | randoop-NET-src/RandoopImpl/RegressionAssertionGenerator.cs:9-46 | the text is empty iff the value is null; otherwise it starts with the regression comment; a value that is neither a string nor a primitive gets `Assert.IsNotNull` of the variable |
| RegressionAssertions.MapCharsAppend | randoop-NET-src/RandoopImpl/RegressionAssertionGenerator.cs:18-19 | escaping character by character distributes over concatenation |
| RegressionAssertions.ReplaceCharIsMap | randoop-NET-src/RandoopImpl/RegressionAssertionGenerator.cs:18-19 | replacing a one-character pattern is a character-by-character map |
| RegressionAssertions.MapCharsCompose | randoop-NET-src/RandoopImpl/RegressionAssertionGenerator.cs:18-19 | two character maps in a row are one character map |
| RegressionAssertions.ComposeStep2 | randoop-NET-src/RandoopImpl/RegressionAssertionGenerator.cs:18-19 | replacing line feeds after backslashes escapes each of the two per character |
| RegressionAssertions.ComposeStep3 | randoop-NET-src/RandoopImpl/RegressionAssertionGenerator.cs:18-19 | replacing carriage returns next escapes each of the three per character |
| RegressionAssertions.ComposeStep4 | randoop-NET-src/RandoopImpl/RegressionAssertionGenerator.cs:18-19 | replacing double quotes last gives the one-character escape of all four |
| RegressionAssertions.UnescapeStep | randoop-NET-src/RandoopImpl/RegressionAssertionGenerator.cs:18-19 | an escaped character followed by any text reads back as that character |
| RegressionAssertions.EscapeIsCharwise | randoop-NET-src/RandoopImpl/RegressionAssertionGenerator.cs:18-19 | the chain of four replacements, backslash first, escapes each character on its own |
| RegressionAssertions.UnescapeMapChars | randoop-NET-src/RandoopImpl/RegressionAssertionGenerator.cs:18-20 | reading the escaped text back as a C# literal body gives the original string |
| RegressionAssertions.MapCharsNoBreaks | randoop-NET-src/RandoopImpl/RegressionAssertionGenerator.cs:18 | the escaped text has no raw line feed or carriage return |
| RegressionAssertions.StringAssertionRoundTrip | randoop-NET-src/RandoopImpl/RegressionAssertionGenerator.cs:16-23 | a recorded string becomes `Assert.AreEqual("lit", v, "Regression Failure? [i]")` whose literal reads back as the string and holds no raw line break |
| RegressionAssertions.PrimitiveAssertionShape | randoop-NET-src/RandoopImpl/RegressionAssertionGenerator.cs:27-32 | bool, byte, short, int, long, float, double and char are compared with their text, upper-case letters lowered, and the failure message carries an index that reads back as the retrieval count |
| RegressionAssertions.OtherPrimitiveShape | randoop-NET-src/RandoopImpl/RegressionAssertionGenerator.cs:33-36 | any other value type is treated like an object: a not-null assertion independent of the value's type, text and retrieval count |
| Equivalence.NewEquivalenceClass | randoop-NET-src/RandoopCommon/EquivalenceClass.cs:9-12 | a class is built iff the test case is not null, and its representative is that test case; null throws ArgumentNullException |
| Equivalence.ClassEquals | randoop-NET-src/RandoopCommon/EquivalenceClass.cs:14-33 | two classes are equal iff the other is a class and both report the same exception and end with the same action |
| Equivalence.ClassEqualsIsEquivalence | randoop-NET-src/RandoopCommon/EquivalenceClass.cs:14-33 | equality is reflexive, symmetric and transitive, and holds exactly when exception and last action agree |
| Equivalence.ClassEqualsHashes | randoop-NET-src/RandoopCommon/EquivalenceClass.cs:35-38 | equal classes hash equally, whatever the string and exception hashes are |
| Equivalence.NewSequenceClass | randoop-NET-src/RandoopCommon/SequenceBasedEquivalenceClass.cs:10-13 | a class is built iff the test case is not null; null throws ArgumentNullException |
| Equivalence.PlanLinePrefix | randoop-NET-src/RandoopCommon/SequenceBasedEquivalenceClass.cs:40 | the prefix is the text before the first "transformer"; without one the line throws ArgumentOutOfRangeException |
| Equivalence.SignatureFails | randoop-NET-src/RandoopCommon/SequenceBasedEquivalenceClass.cs:34-45 | the signature throws iff some plan line lacks "transformer", and then with ArgumentOutOfRangeException |
| Equivalence.SignatureSnoc | randoop-NET-src/RandoopCommon/SequenceBasedEquivalenceClass.cs:38-42 | one more plan line adds its prefix at the end |
| Equivalence.SignatureAppend | randoop-NET-src/RandoopCommon/SequenceBasedEquivalenceClass.cs:34-45 | the signature of two plan collections in a row is the concatenation of their signatures |
| Equivalence.GetSequence | randoop-NET-src/RandoopCommon/SequenceBasedEquivalenceClass.cs:34-45 | the loop computes `Signature` |
| Equivalence.SequenceEquals | randoop-NET-src/RandoopCommon/SequenceBasedEquivalenceClass.cs:15-27 | false for a non-class; throws iff either signature cannot be computed; true iff either signature contains the other |
| Equivalence.SequenceEqualsReflexiveSymmetric | randoop-NET-src/RandoopCommon/SequenceBasedEquivalenceClass.cs:15-27 | the relation is reflexive on tests whose signature can be computed, and symmetric, exceptions included |
| Equivalence.OverlapsNotTransitive | randoop-NET-src/RandoopCommon/SequenceBasedEquivalenceClass.cs:22-25 | containment in either direction is not transitive |
| Equivalence.SequenceHashIgnoresPlans | randoop-NET-src/RandoopCommon/SequenceBasedEquivalenceClass.cs:29-32 | the hash reads only the exception and the last action |
| Reducers.Demote | randoop-NET-src/RandoopCommon/Reducer.cs:45-55 | a demoted file is renamed to its own name followed by ".reduced" |
| Reducers.AccountNew | randoop-NET-src/RandoopCommon/Reducer.cs:34-38 | a file that opens a new class becomes its representative |
| Reducers.AccountReplace | randoop-NET-src/RandoopCommon/Reducer.cs:42-49 | a file with fewer lines takes its class's place and the old representative is renamed |
| Reducers.AccountDemote | randoop-NET-src/RandoopCommon/Reducer.cs:52-56 | a file that does not beat its class's representative is renamed |
| Reducers.Files | randoop-NET-src/RandoopCommon/Reducer.cs:59-61 | the returned files are the representatives' files, in the order their classes were opened |
| Reducers.FindClass | randoop-NET-src/RandoopCommon/Reducer.cs:34 | the dictionary finds a stored class iff some stored class is equal to the new one, and what it finds is equal (also `EquivalenceClass.cs` lines 14-38) |
| Reducers.SkipStep | randoop-NET-src/RandoopCommon/Reducer.cs:19-28 | a file that does not hold a test is skipped and changes nothing |
| Reducers.NewClassStep | randoop-NET-src/RandoopCommon/Reducer.cs:34-38 | opening a class keeps one partition per class, every class met covered, and every representative the shortest of its class |
| Reducers.NewClassShape | randoop-NET-src/RandoopCommon/Reducer.cs:34-38 | the new partition holds the file just read, keyed by its class, and classes stay distinct |
| Reducers.NewClassCovered | randoop-NET-src/RandoopCommon/Reducer.cs:34-38 | the file just read is covered by its new partition |
| Reducers.NewClassFewest | randoop-NET-src/RandoopCommon/Reducer.cs:34-38 | the first file of a class is the shortest of it so far |
| Reducers.ReplaceStep | randoop-NET-src/RandoopCommon/Reducer.cs:42-49 | replacing a representative keeps every class kept and every file accounted for |
| Reducers.ReplaceShape | randoop-NET-src/RandoopCommon/Reducer.cs:42-49 | the replaced partition keeps its key and now holds the file just read; the old representative is at no other partition |
| Reducers.ReplaceCovered | randoop-NET-src/RandoopCommon/Reducer.cs:42-49 | replacing keeps every class covered |
| Reducers.ReplaceFewest | randoop-NET-src/RandoopCommon/Reducer.cs:42-49 | a strictly shorter file becomes the shortest of its class |
| Reducers.DemoteStep | randoop-NET-src/RandoopCommon/Reducer.cs:52-56 | demoting a file at least as long as its representative keeps every class kept |
| Reducers.KeptAtEnd | randoop-NET-src/RandoopCommon/Reducer.cs:16-61 | at the end, representatives are of distinct classes, every parseable file's class has one, and each is the shortest of its class and strictly shorter than every earlier member |
| Reducers.Admit | randoop-NET-src/RandoopCommon/Reducer.cs:16-57 | one pass of the loop keeps the reduction's invariants |
| Reducers.AdmitMember | randoop-NET-src/RandoopCommon/Reducer.cs:39-56 | a member of a known class either replaces its representative or is demoted, and the invariants hold |
| Reducers.Reduce | randoop-NET-src/RandoopCommon/Reducer.cs:10-62 | one file per class of the parseable files, each the first file with the fewest lines of its class; every class of a parseable file is kept; every other parseable file is renamed to ".reduced"; files that do not parse are untouched |
| SequenceReducers.SeqFiles | randoop-NET-src/RandoopCommon/SequenceBasedReducer.cs:58-60 | the returned files are the representatives' files, in the order their classes were opened |
| SequenceReducers.FindSequenceClass | randoop-NET-src/RandoopCommon/SequenceBasedReducer.cs:34 | the dictionary finds a stored key of the same hash whose signature overlaps; it finds nothing iff no key matches; it throws ArgumentOutOfRangeException only when a key of the same hash exists and a signature cannot be computed, and always then when the new test's cannot (also `SequenceBasedEquivalenceClass.cs` lines 15-32) |
| SequenceReducers.SeqSkipStep | randoop-NET-src/RandoopCommon/SequenceBasedReducer.cs:19-28 | a file that does not hold a test is skipped and changes nothing |
| SequenceReducers.SeqNewStep | randoop-NET-src/RandoopCommon/SequenceBasedReducer.cs:34-38 | a test that no stored key takes opens a class whose key it stays |
| SequenceReducers.SeqReplaceStep | randoop-NET-src/RandoopCommon/SequenceBasedReducer.cs:42-48 | a test with more lines takes its class's place and the old representative is at no other partition |
| SequenceReducers.SeqReplaceShape | randoop-NET-src/RandoopCommon/SequenceBasedReducer.cs:42-48 | the replaced partition keeps its key and now holds the file just read |
| SequenceReducers.SameKeysApart | randoop-NET-src/RandoopCommon/SequenceBasedReducer.cs:45-47 | assigning to an existing key replaces only the value, so the keys stay apart |
| SequenceReducers.SeqJoinJoined | randoop-NET-src/RandoopCommon/SequenceBasedReducer.cs:34-55 | a test joins the partition whose key takes it |
| SequenceReducers.SeqReplaceMost | randoop-NET-src/RandoopCommon/SequenceBasedReducer.cs:42-48 | a strictly longer test becomes the longest of its class |
| SequenceReducers.SeqDemoteStep | randoop-NET-src/RandoopCommon/SequenceBasedReducer.cs:51-55 | demoting a test no longer than the representative keeps the invariants |
| SequenceReducers.SeqDemoteMost | randoop-NET-src/RandoopCommon/SequenceBasedReducer.cs:51-55 | the representative stays the longest of its class |
| SequenceReducers.SeqAdmitMember | randoop-NET-src/RandoopCommon/SequenceBasedReducer.cs:39-55 | a member either replaces its representative or is demoted, and the invariants hold |
| SequenceReducers.SeqAdmit | randoop-NET-src/RandoopCommon/SequenceBasedReducer.cs:16-56 | one pass of the loop keeps the invariants, or throws ArgumentOutOfRangeException because some test's signature cannot be computed |
| SequenceReducers.SeqKeptAtEnd | randoop-NET-src/RandoopCommon/SequenceBasedReducer.cs:16-60 | at the end: each class was opened by a test no earlier class's first member takes; every later member was taken by that first member; each representative has the most lines of its class, strictly more than any earlier member |
| SequenceReducers.SequenceBasedReduce | randoop-NET-src/RandoopCommon/SequenceBasedReducer.cs:10-61 | one file per class, each the first with the most lines, every other member renamed to ".reduced"; an exception from a lookup is ArgumentOutOfRangeException from a test whose signature cannot be computed |
| TestCaseUtils.Count | randoop-NET-src/RandoopCommon/testcaseutils.cs:103-118 | the number of removed lines is at most the number of lines, and zero iff no line was removed |
| TestCaseUtils.Keep | randoop-NET-src/RandoopCommon/testcaseutils.cs:107-121 | the lines left are the original lines minus the removed ones, in their order, none new |
| TestCaseUtils.DeletedDrop | randoop-NET-src/RandoopCommon/testcaseutils.cs:107-119 | the decisions on the positions from q on do not depend on the positions before q |
| TestCaseUtils.DeletedAt | randoop-NET-src/RandoopCommon/testcaseutils.cs:107-119 | a line is removed iff the test without it, with every later line as already decided and every earlier line still present, reproduces the behaviour |
| TestCaseUtils.KeepUndeletedPrefix | randoop-NET-src/RandoopCommon/testcaseutils.cs:107-121 | lines before the first removed one stay in front |
| TestCaseUtils.FirstDeleted | randoop-NET-src/RandoopCommon/testcaseutils.cs:107-119 | when some line was removed there is a first one |
| TestCaseUtils.MinimizedReproduces | randoop-NET-src/RandoopCommon/testcaseutils.cs:107-121 | when any line was removed, the minimised test is the last one the external run accepted, so it still reproduces |
| TestCaseUtils.CountdownStep | randoop-NET-src/RandoopCommon/testcaseutils.cs:109-118 | one step: the line at `linePos` goes iff the test without it reproduces, and the count goes up by one exactly then |
| TestCaseUtils.RemoveRestore | randoop-NET-src/RandoopCommon/testcaseutils.cs:109-113 | removing a line and adding it back at the same position restores the test |
| TestCaseUtils.TryRemoveLine | randoop-NET-src/RandoopCommon/testcaseutils.cs:109-118 | one pass of the countdown decides the line at `linePos` as `Deleted` says and counts it |
| TestCaseUtils.CountdownStart | randoop-NET-src/RandoopCommon/testcaseutils.cs:107 | before the loop nothing is removed |
| TestCaseUtils.CountdownDone | randoop-NET-src/RandoopCommon/testcaseutils.cs:107-119 | after the loop the lines are the minimised test |
| TestCaseUtils.Minimize | randoop-NET-src/RandoopCommon/testcaseutils.cs:97-123 | a test that does not parse throws TestCaseParseException and writes nothing; otherwise the original is written to `.nonmin` first, then the minimised test to the file, and the count is the number of lines removed |
| TestCaseUtils.Countdown | randoop-NET-src/RandoopCommon/testcaseutils.cs:107-119 | visiting the positions from last to first leaves exactly the minimised test, and counts the lines removed |
| TestCaseUtils.MinimizeAll | randoop-NET-src/RandoopCommon/testcaseutils.cs:87-95 | each test is minimised in turn; the first test that does not parse stops the walk with TestCaseParseException after the writes for the tests before it |
| TestCaseUtils.Screen | randoop-NET-src/RandoopCommon/testcaseutils.cs:124-153 | every test is kept or deleted, not both; a test is kept iff it is not error-revealing (an access violation or a null dereference) or it reproduces; exactly the error-revealing tests are run (also lines 192-209) |
| TestCaseUtils.RemoveNonReproducibleErrors | randoop-NET-src/RandoopCommon/testcaseutils.cs:124-153 | returns the kept tests and deletes the others, as `Screen` says; a test that does not parse ends the walk with its exception after the deletions made so far |
| TestCaseUtils.Members | randoop-NET-src/RandoopCommon/testcaseutils.cs:175-187 | the group of an exception is the parseable tests reporting it, in order |
| TestCaseUtils.Classify | randoop-NET-src/RandoopCommon/testcaseutils.cs:155-190 | one group per reported exception; each group is its members in order; unparseable tests are in no group |
| TestCaseUtils.ClassifiedOnce | randoop-NET-src/RandoopCommon/testcaseutils.cs:155-190 | each parseable test is in exactly one group, its exception's |
| TestCaseUtils.ClassifyTestsByMessage | randoop-NET-src/RandoopCommon/testcaseutils.cs:155-190 | the dictionary built by the loop is `Classify` |
| Supervisor.RoundSeconds | randoop-NET-src/Randoop/Main.cs:245 | a duration's `TotalSeconds` rounded to the nearest whole second, ties to the even one, as `Convert.ToInt32(double)` rounds |
| Supervisor.RoundedSeconds | randoop-NET-src/Randoop/Main.cs:245 | the rounded seconds, or OverflowException when they do not fit in an `int` (also line 363) |
| Supervisor.RoundMonotone | randoop-NET-src/Randoop/Main.cs:245 | rounding never reverses the order of two durations |
| Supervisor.RoundedLessIsLess | randoop-NET-src/Randoop/Main.cs:245 | a rounded comparison that holds also holds exactly |
| Supervisor.RoundWholeSeconds | randoop-NET-src/Randoop/Main.cs:245 | a whole number of seconds rounds to itself |
| Supervisor.CalculateNextTimeLimit | randoop-NET-src/Randoop/Main.cs:484-494 | the budget is the time left, or the per-round budget when less is left: never more than either |
| Supervisor.WaitTimeAsWritten | randoop-NET-src/Randoop/Main.cs:362-363 | as written, the wait is computed in wrapping `int` arithmetic, and exists iff the budget's seconds fit in an `int` |
| Supervisor.WaitTimeWraps | randoop-NET-src/Randoop/Main.cs:362-369 | as written, a budget of 2147454 seconds gives the negative wait -2147483296, which `WaitForExit` refuses |
| Supervisor.WaitTime | randoop-NET-src/Randoop/Main.cs:362-363 | as intended, the wait is the rounded budget plus 30 seconds, in milliseconds, at least 30000 for a non-negative budget |
| Supervisor.WaitTimeAgreesBelowBound | randoop-NET-src/Randoop/Main.cs:362-363 | the wait as written and as intended agree for every budget below 2147454 seconds |
| Supervisor.RoundResult | randoop-NET-src/Randoop/Main.cs:387-408 | a round returns non-zero iff the child exited with a non-zero code and its standard error holds one of the two sentinel messages, and then it returns that exit code |
| Supervisor.PlanIdLineRoundTrip | randoop-NET-src/Randoop/Main.cs:508-510 | the line `LASTPLANID:n` written for a plan id reads back as n |
| Supervisor.PlanIdValue | randoop-NET-src/Randoop/Main.cs:510 | a `LASTPLANID:` line is read by `int.Parse` of its trimmed rest; a line shorter than the prefix makes `Substring` throw `ArgumentOutOfRangeException` |
| Supervisor.PlanIdLineFailures | randoop-NET-src/Randoop/Main.cs:510 | a plan-id line throws `FormatException` iff its value is not an optionally signed run of digits, `OverflowException` iff it is but does not fit in an `int`, and parses otherwise |
| Supervisor.LastPlanIdFailures | randoop-NET-src/Randoop/Main.cs:501-512 | reading the log throws only `FormatException` or `OverflowException` |
| CsStrings.ParseInt32 | randoop-NET-src/Randoop/Main.cs:510 | `int.Parse` succeeds exactly when `int.TryParse` does, with the same value; otherwise `FormatException` iff the text is not an integer and `OverflowException` iff it is one outside the `int` range |
| Supervisor.ScanPlanIds | randoop-NET-src/Randoop/Main.cs:506-512 | an exception reading the plan ids is the one a `LASTPLANID:` line of the log threw |
| Supervisor.ScanFails | randoop-NET-src/Randoop/Main.cs:506-512 | the log fails exactly when one of its `LASTPLANID:` lines does not parse |
| Supervisor.ScanStep | randoop-NET-src/Randoop/Main.cs:506-512 | each line read extends the scan of the lines before it |
| Supervisor.ScanErrStays | randoop-NET-src/Randoop/Main.cs:506-512 | once a line has thrown, the lines after it do not change the result |
| Supervisor.ScanFindsLast | randoop-NET-src/Randoop/Main.cs:501-512 | otherwise the plan id is the value on the last `LASTPLANID:` line, or 0 without one |
| Supervisor.MemberToOmit | randoop-NET-src/Randoop/Main.cs:631-648 | a member is named iff the line starts a method or constructor call and does not end it |
| Supervisor.MemberToOmitRoundTrip | randoop-NET-src/Randoop/Main.cs:633-636 | the member a dangling `execute method` line names is read back unchanged |
| Supervisor.FinishedCallOmitsNothing | randoop-NET-src/Randoop/Main.cs:633 | a call that finished leaves nothing to omit |
| Supervisor.AnalyzeLastExecution | randoop-NET-src/Randoop/Main.cs:496-521 | without a log the plan id is 0 and nothing is omitted; otherwise it throws iff some `LASTPLANID:` line does not parse, with that line's exception and nothing omitted; the plan id is the last one, and only a final line that is not a plan-id line may name a member to omit |
| Supervisor.ReadLog | randoop-NET-src/Randoop/Main.cs:504-518 | the reading loop over an existing log: it throws iff `LastPlanId` fails, with that exception and nothing omitted; otherwise the plan id is `LastPlanId` and the member to omit is the one a last non-plan-id line names |
| Supervisor.ReadLogLine | randoop-NET-src/Randoop/Main.cs:506-516 | one line of the log: a `LASTPLANID:` line that does not parse makes the whole log fail with its exception; otherwise the scan moves past the line, and only a last line that is not a plan-id line names a member to omit |
| Supervisor.DoInputGenerationRound | randoop-NET-src/Randoop/Main.cs:316-409 | the round's budget is `CalculateNextTimeLimit`, its child gets that budget, the wait is the corrected `WaitTime`, the result is `RoundResult`, and the plan id comes from the log; it throws only from the log or the rounding |
| Supervisor.RoundsFollowExtend | randoop-NET-src/Randoop/Main.cs:245-255 | a round started with rounded time used below the limit and given its budget extends the recorded rounds |
| Supervisor.GenerateTests | randoop-NET-src/Randoop/Main.cs:239-255 | the total time is the sum of the rounds' running times; every round but the last returned 0; without an exception the loop stops because the last round failed with a sentinel or the rounded time used reached the limit |
| Supervisor.IsHelpCommandIgnoresCase | randoop-NET-src/Randoop/Main.cs:616-629 | the help words are recognised in any letter case |
| Supervisor.ContainsHelp | randoop-NET-src/Randoop/Main.cs:169-175 | true iff some argument is `/?` in any letter case |
| Supervisor.Dispatch | randoop-NET-src/Randoop/Main.cs:54-140 | usage iff there are no arguments or the first is a help word; help only when some argument is `/?`; generation only when neither |
| Supervisor.HelpPosition | randoop-NET-src/Randoop/Main.cs:59-69 | `/?` first is a usage error, `/?` later a help request |
| CommandLine.AssemblyNames | randoop-NET-src/Randoop/CommandLineArguments.cs:39-56 | the assemblies are exactly the arguments ending in `.dll` or `.exe` in any letter case, never more than the arguments |
| CommandLine.AssemblyNamesAppend | randoop-NET-src/Randoop/CommandLineArguments.cs:44-56 | the assemblies keep the order of the arguments that name them |
| CommandLine.FlagMeans | randoop-NET-src/Randoop/CommandLineArguments.cs:58-123 | a flag is set iff some argument equals its lower-case spelling once lower-cased (also lines 171-213, 276-297) |
| CommandLine.FirstWithPrefix | randoop-NET-src/Randoop/CommandLineArguments.cs:125-168 | the option found is the first argument whose lower-cased form starts with the prefix, and none exists when no argument does |
| CommandLine.ValueOptionRoundTrip | randoop-NET-src/Randoop/CommandLineArguments.cs:125-135 | whatever letter case the option name is typed in, the value after it comes back as typed, unless an earlier argument carries the option (also lines 148-168, 242-251, 261-270) |
| CommandLine.DirectoryStrategyAsWritten | randoop-NET-src/Randoop/CommandLineArguments.cs:137-146 | as written, any strategy found is seven characters that lower-case to `trategy` |
| CommandLine.FirstEqual | randoop-NET-src/Randoop/CommandLineArguments.cs:137-146 | the argument found equals the flag once lower-cased, and none is found iff the flag is not set |
| CommandLine.DirectoryStrategyCutsFlag | randoop-NET-src/Randoop/CommandLineArguments.cs:142-143 | as written, any spelling of `/directorystrategy` comes back with the length of `/outputdir:` cut off |
| CommandLine.DirectoryStrategyTruncates | randoop-NET-src/Randoop/CommandLineArguments.cs:142-143 | as written, `/directorystrategy` yields `trategy` |
| CommandLine.DirectoryStrategyIgnoresValue | randoop-NET-src/Randoop/CommandLineArguments.cs:142 | as written, `/directorystrategy:Single` is not recognised at all |
| CommandLine.DirectoryStrategyRoundTrip | randoop-NET-src/Randoop/CommandLineArguments.cs:137-146 | as intended, `/directorystrategy:<name>` hands the name back as typed |
| CommandLine.ValidationThrows | randoop-NET-src/Randoop/CommandLineArguments.cs:299-305 | construction throws ArgumentException exactly when the default time limit is negative |
| CommandLine.ValidationAccepts | randoop-NET-src/Randoop/CommandLineArguments.cs:299-365 | with a non-negative default, the error stays null exactly when an assembly is named and both limits are absent or positive integers |
| CommandLine.ValidationLimits | randoop-NET-src/Randoop/CommandLineArguments.cs:318-363 | when the error is null, each limit is the given positive one or its default, and the time limit is never negative |
| CommandLine.LimitErrorsOnly | randoop-NET-src/Randoop/CommandLineArguments.cs:317-354 | once an assembly is named, every error is an invalid time limit or restart time quoting the offending argument |
| CommandLine.NoAssemblyReported | randoop-NET-src/Randoop/CommandLineArguments.cs:306-316 | "No assembly specified." is reported iff no argument names an assembly, and it leaves both limits at -1 |
| CommandLine.NegativeTimeLimitUnreachable | randoop-NET-src/Randoop/CommandLineArguments.cs:356-361 | the "Negative time limit given" message is never produced |
| CommandLine.TimeLimitStored | randoop-NET-src/Randoop/CommandLineArguments.cs:319-337 | a `/timelimit:` given as a positive integer is the stored time limit, and without `/restart:` the restart time is the default |
| CommandLine.TimeLimitIsNotRestart | randoop-NET-src/Randoop/CommandLineArguments.cs:242-270 | an argument that is a `/timelimit:` option is not a `/restart:` option |
| CommandLine.TimeLimitRoundTrip | randoop-NET-src/Randoop/CommandLineArguments.cs:299-365 | `[assembly, "/timelimit:<n>"]` with `int.TryParse` stores n and the default restart time without error |
| CommandLine.CommandLineArguments.Copy | randoop-NET-src/Randoop/CommandLineArguments.cs:301-302 | the private copy of the arguments, with both limits at -1 |
| CommandLine.CommandLineArguments.New | randoop-NET-src/Randoop/CommandLineArguments.cs:299-365 | a fresh object holding the arguments, throwing iff the default time limit is negative, whose limits and error are those of the step-by-step validation |
| ConfigFile.ParseStrategy | randoop-NET-src/Randoop/ConfigFileCreator.cs:43-44 | a strategy other than the zero value `Single` is chosen only when the argument names exactly that strategy |
| ConfigFile.StrategyAsWrittenIsAlwaysSingle | randoop-NET-src/Randoop/ConfigFileCreator.cs:43-44 | with the command-line getter as written, the configuration's strategy is `Single` whatever the arguments |
| ConfigFile.StrategyReachesConfiguration | randoop-NET-src/Randoop/ConfigFileCreator.cs:43-44 | with the corrected getter, `/directorystrategy:<name>` reaches the configuration as that strategy |
| ConfigFile.ParseStrategyName | randoop-NET-src/Randoop/ConfigFileCreator.cs:43 | every strategy parses back from its own name |
| ConfigFile.UserConfigDir | randoop-NET-src/Randoop/ConfigFileCreator.cs:70-83 | the user's directory is used iff `/configfiles:` names a directory that exists, and then it is the one named |
| ConfigFile.FilterFile | randoop-NET-src/Randoop/ConfigFileCreator.cs:172-207 | each filter list gets exactly one file (also lines 272-294) |
| ConfigFile.SeedValuesShape | randoop-NET-src/Randoop/ConfigFileCreator.cs:85-171 | exactly fourteen seed entries, sbyte first and string last, one per type with no type twice, each with one file: the full path of the user's file for that type where the user directory holds it, of the default otherwise (also lines 210-270, 302-310) |
| ConfigFile.NoUserDirUsesDefaults | randoop-NET-src/Randoop/ConfigFileCreator.cs:70-83 | without a usable user directory every configuration file is the installation default (also lines 210-294) |
| ConfigFile.RoundSeed | randoop-NET-src/Randoop/ConfigFileCreator.cs:49 | the round's seed is an `int` congruent to the user's seed plus the rounds before it, modulo 2^32 |
| ConfigFile.RoundSeedsAdvance | randoop-NET-src/Randoop/ConfigFileCreator.cs:49 | round 1 uses the user's seed and each round the next seed, with `int` wrap-around |
| ConfigFile.StatsFileName | randoop-NET-src/Randoop/ConfigFileCreator.cs:39-40 | the statistics file is the random name inside the output directory, with suffix `.stats.txt` |
| ConfigFile.CreateConfigFile | randoop-NET-src/Randoop/ConfigFileCreator.cs:28-300 | a fresh configuration, or OverflowException iff the budget's rounded seconds do not fit in an `int`; it holds the statistics file, output directory, first plan id, rounded time limit, round seed and execution log of this round, and the options taken from the command line, with the corrected `DirectoryStrategy` getter |
| ConfigFile.ConfigurationFollowsArguments | randoop-NET-src/Randoop/ConfigFileCreator.cs:42-67 | read back through the command line: strategy as parsed, `usestatic` iff not `/nostatic`, `forbidnull` iff not `/allownull`, `Crypto` iff `/truerandom`, `DontExecute` iff `/dontexecute`, one full path per assembly argument, fourteen seed entries and one file per filter list (also lines 85-294) |
| ConfigFile.RandoopConfiguration.constructor | randoop-NET-src/Randoop/ConfigFileCreator.cs:37 | a configuration whose execution mode is the initial one and whose lists are all empty |
| ConfigFile.NewConfiguration | randoop-NET-src/Randoop/ConfigFileCreator.cs:37-294 | a fresh configuration holding the round's fields and the options applied |
| ConfigFile.SetRunFields | randoop-NET-src/Randoop/ConfigFileCreator.cs:39-65 | the statistics file, output directory, first plan id, time limit, seed and execution log are this round's |
| ConfigFile.AssembliesFollowArguments | randoop-NET-src/Randoop/ConfigFileCreator.cs:61-64 | the assembly list holds the full path of every `.dll` argument and nothing else |
| ConfigFile.ApplyOptions | randoop-NET-src/Randoop/ConfigFileCreator.cs:42-294 | the options are applied to an empty configuration |
| ConfigFile.CopyFlags | randoop-NET-src/Randoop/ConfigFileCreator.cs:42-67 | the flag fields copy, or negate, the command-line flags |
| ConfigFile.AddConfigFiles | randoop-NET-src/Randoop/ConfigFileCreator.cs:85-294 | the seed-value and filter files are those the user directory and the defaults give |
| ConfigFile.AddSeedValues | randoop-NET-src/Randoop/ConfigFileCreator.cs:85-171 | the fourteen seed entries in table order (also lines 210-270) |
| ConfigFile.AddSeed | randoop-NET-src/Randoop/ConfigFileCreator.cs:87-93 | one block adds the next row of the seed table |
| ConfigFile.AddAssemblies | randoop-NET-src/Randoop/ConfigFileCreator.cs:61-64 | the assemblies are the full paths of the assembly arguments, in order |
| ConfigFile.AddFilterFiles | randoop-NET-src/Randoop/ConfigFileCreator.cs:172-207 | each of the six filter lists holds its one file (also lines 272-294) |
| FileSystemModel.LastComponent | randoop-NET-src/RandoopImpl/TestFileWriter.cs:219-253 | `DirectoryInfo.Name` is a suffix of the path holding no separator |
| FileSystemModel.NameOfChild | randoop-NET-src/RandoopImpl/TestFileWriter.cs:219-260 | a directory made as `outputDir\name` has `name` as its `Name` when the name holds no separator |
| FileSystemModel.SubdirectoryNamesSound | randoop-NET-src/RandoopImpl/TestFileWriter.cs:126 | every name `GetDirectories` lists is that of a directory directly inside the one searched |
| FileSystemModel.SubdirectoryListed | randoop-NET-src/RandoopImpl/TestFileWriter.cs:126 | every directory directly inside the one searched is listed |
| FileSystemModel.FileSystem.CreateDirectory | randoop-NET-src/RandoopImpl/TestFileWriter.cs:65 | creating a directory adds it, and creating an existing one changes nothing (also lines 119, 138, 187, 260) |
| FileSystemModel.FileSystem.DeleteFile | randoop-NET-src/RandoopImpl/TestFileWriter.cs:77 | deleting a file removes it, and deleting a missing one changes nothing (also lines 91, 158) |
| FileSystemModel.FileSystem.WriteFile | randoop-NET-src/RandoopImpl/TestFileWriter.cs:47 | writing a file sets its text and changes no other file |
| FileSystemModel.FileSystem.CopyFile | randoop-NET-src/RandoopImpl/TestFileWriter.cs:76 | the copy succeeds iff the source exists and the target does not, and then the target gets the source's text; a failed copy changes nothing |
| TestFileWriters.TestFileNameShape | randoop-NET-src/RandoopImpl/TestFileWriter.cs:72-145 | a test file lies directly inside its directory and is named class name + test case id + `.cs`, when the class name holds no separator |
| TestFileWriters.TestFileNamesDistinct | randoop-NET-src/RandoopImpl/TestFileWriter.cs:72-97 | two plans of one class with different ids never share a test file |
| TestFileWriters.MovedFileIsNotTempFile | randoop-NET-src/RandoopImpl/TestFileWriter.cs:155-222 | a test moved to another directory never overwrites its own provisional file |
| TestFileWriters.Written | randoop-NET-src/RandoopImpl/TestFileWriter.cs:32-48 | after writing, the file holds the plan's test code; a conversion that throws leaves every file as it was; no other file changes |
| TestFileWriters.WritePlanToFile | randoop-NET-src/RandoopImpl/TestFileWriter.cs:32-48 | the plan's test code is written to the file, and nothing is written when the conversion throws |
| TestFileWriters.MovedFilesEffect | randoop-NET-src/RandoopImpl/TestFileWriter.cs:154-224 | a move out of the temporary directory leaves no provisional file, puts the code in the target and touches no other file |
| TestFileWriters.MoveFromTemp | randoop-NET-src/RandoopImpl/TestFileWriter.cs:154-224 | the code is written to the target directory, then the provisional file is deleted |
| TestFileWriters.Replaced | randoop-NET-src/RandoopImpl/TestFileWriter.cs:75-79 | after the in-place rewrite the file holds the new code, or is gone when the conversion throws; no other file changes |
| TestFileWriters.SingleDirectoryTestFileWriter.constructor | randoop-NET-src/RandoopImpl/TestFileWriter.cs:60-68 | the output directory exists afterwards |
| TestFileWriters.SingleDirectoryTestFileWriter.Move | randoop-NET-src/RandoopImpl/TestFileWriter.cs:70-80 | the move completes iff the test file exists and its `.saved` copy does not; then the file is replaced by the failing version and the copy is gone; otherwise File.Copy throws and nothing changed |
| TestFileWriters.SingleDirectoryTestFileWriter.MoveNormalTermination | randoop-NET-src/RandoopImpl/TestFileWriter.cs:82-85 | a normally terminating test stays where it is |
| TestFileWriters.SingleDirectoryTestFileWriter.Remove | randoop-NET-src/RandoopImpl/TestFileWriter.cs:87-92 | the test file is deleted and nothing else |
| TestFileWriters.SingleDirectoryTestFileWriter.WriteTest | randoop-NET-src/RandoopImpl/TestFileWriter.cs:94-99 | the test is written to the output directory |
| TestFileWriters.MaxIndexIsMax | randoop-NET-src/RandoopImpl/TestFileWriter.cs:125-131 | the largest parsed index is 0 or one of the indices, and no index exceeds it |
| TestFileWriters.MaxIndexUnique | randoop-NET-src/RandoopImpl/TestFileWriter.cs:125-131 | the search loop's result does not depend on the order the directories are listed in |
| TestFileWriters.NextDirIsFresh | randoop-NET-src/RandoopImpl/TestFileWriter.cs:132-137 | the new normaltermination directory does not exist yet unless an existing one carries index `int.MaxValue` |
| TestFileWriters.ExceptionDirName | randoop-NET-src/RandoopImpl/TestFileWriter.cs:175-183 | a failing test goes to `AssertionViolations` iff the message starts with the assertion-violation text (or the type is so named), and otherwise to the directory named after the exception's type |
| TestFileWriters.ClassifyingByBehaviorTestFileWriter.constructor | randoop-NET-src/RandoopImpl/TestFileWriter.cs:112-120 | no tests written, no current directory, and the temporary directory exists |
| TestFileWriters.ClassifyingByBehaviorTestFileWriter.MaxExistingIndex | randoop-NET-src/RandoopImpl/TestFileWriter.cs:125-131 | the largest index among the normaltermination directories, or none iff `int.Parse` throws on one of them |
| TestFileWriters.ClassifyingByBehaviorTestFileWriter.NewSubDir | randoop-NET-src/RandoopImpl/TestFileWriter.cs:122-139 | the new current directory is normaltermination<largest index + 1>, created; it throws when an index does not parse or the directory already exists |
| TestFileWriters.ClassifyingByBehaviorTestFileWriter.OpenSubDir | randoop-NET-src/RandoopImpl/TestFileWriter.cs:132-138 | the directory becomes current and exists afterwards; it throws when it existed before |
| TestFileWriters.ClassifyingByBehaviorTestFileWriter.WriteTest | randoop-NET-src/RandoopImpl/TestFileWriter.cs:142-147 | the test is written to the temporary directory |
| TestFileWriters.ClassifyingByBehaviorTestFileWriter.MoveNormalTermination | randoop-NET-src/RandoopImpl/TestFileWriter.cs:149-160 | every thousandth move opens a new directory first; a completed move counts one more test and moves it from the temporary directory into the current one; a failed one changes no file; no directory holds more than 1000 moved tests |
| TestFileWriters.ClassifyingByBehaviorTestFileWriter.MakeExceptionDirIfNotExists | randoop-NET-src/RandoopImpl/TestFileWriter.cs:173-188 | the exception's directory, which exists afterwards |
| TestFileWriters.ClassifyingByBehaviorTestFileWriter.Move | randoop-NET-src/RandoopImpl/TestFileWriter.cs:162-171 | a failing test is moved from the temporary directory into its exception's directory |
| TestFileWriters.ClassifyingByBehaviorTestFileWriter.Remove | randoop-NET-src/RandoopImpl/TestFileWriter.cs:190-195 | the provisional test is deleted and nothing else |
| TestFileWriters.TheNamed | randoop-NET-src/RandoopImpl/TestFileWriter.cs:219-229 | `Single` returns a known directory with the class's name |
| TestFileWriters.CountNamedAppend | randoop-NET-src/RandoopImpl/TestFileWriter.cs:253-261 | remembering one more directory counts its name once more |
| TestFileWriters.ClassifyingByClassTestFileWriter.constructor | randoop-NET-src/RandoopImpl/TestFileWriter.cs:204-215 | no known class directories, and the output and temporary directories exist |
| TestFileWriters.ClassifyingByClassTestFileWriter.CreateNewDirectory | randoop-NET-src/RandoopImpl/TestFileWriter.cs:256-263 | `outputDir\className` is created and remembered |
| TestFileWriters.ClassifyingByClassTestFileWriter.DirectoryFor | randoop-NET-src/RandoopImpl/TestFileWriter.cs:219-263 | a new directory for an unknown class, the known one for a known class, and a throw iff two known directories carry the name |
| TestFileWriters.ClassifyingByClassTestFileWriter.DirectoryForKeepsOnePerClass | randoop-NET-src/RandoopImpl/TestFileWriter.cs:219-263 | with no separator in the class name, every class keeps exactly one directory, `outputDir\className` |
| TestFileWriters.NewClassDirectory | randoop-NET-src/RandoopImpl/TestFileWriter.cs:219-263 | a class seen for the first time gets the directory `outputDir\className`, counted once, and the known directories keep distinct names |
| TestFileWriters.KnownClassDirectory | randoop-NET-src/RandoopImpl/TestFileWriter.cs:219-254 | a class seen before finds the directory `outputDir\className`, which exists |
| TestFileWriters.ClassifyingByClassTestFileWriter.MoveToClassDirectory | randoop-NET-src/RandoopImpl/TestFileWriter.cs:219-234 | for a class name without a separator the test moves from the temporary directory into its class's directory and the class keeps one directory |
| TestFileWriters.ClassifyingByClassTestFileWriter.Move | randoop-NET-src/RandoopImpl/TestFileWriter.cs:217-225 | a failing test moves into its class's directory |
| TestFileWriters.ClassifyingByClassTestFileWriter.MoveNormalTermination | randoop-NET-src/RandoopImpl/TestFileWriter.cs:227-235 | a normally terminating test moves into its class's directory |
| TestFileWriters.ClassifyingByClassTestFileWriter.Remove | randoop-NET-src/RandoopImpl/TestFileWriter.cs:237-242 | the provisional test is deleted and nothing else |
| TestFileWriters.ClassifyingByClassTestFileWriter.WriteTest | randoop-NET-src/RandoopImpl/TestFileWriter.cs:244-249 | the test is written to the temporary directory |

## Left out

- Reflection (`MethodInfo.Invoke`, `ConstructorInfo.Invoke`, `Array.CreateInstance`, `GetCustomAttribute`, `GetField`/`GetMethod`), `ExpressionEvaluator`, `Util.ViolatesContracts` and `Util.GuidelineViolation` are function-typed parameters: their behaviour belongs to the .NET runtime and to code not part of this model.
- `PlanDataBase.cs`, `TestCase.cs`, `CodeGenerator` and `RandoopConfiguration.cs` are not part of this model. The plan databases are sequences of entries, a test case is the text `ToTestCase` yields, and the configuration class holds only the fields `CreateConfigFile` sets.
- `Enviroment.cs` is not part of this model: the default configuration files and the two stderr sentinel messages are parameters.
- Object hashes (`GetHashCode` of types, methods and values) are parameters. The model proves only that equal objects hash equally.
- Floating point is left out: `executionTimeAccum`, `AverageExecutionTime`, and `ToString` formatting of `float`/`double`. `Weight` is stated on exact reals, and `Convert.ToInt32(double)` rounds the exact number of seconds half to even, ignoring the rounding error of the `double`.
- The clock, child processes, `WaitForExit`/`Kill`, standard-error reading, PageHeap/DHandler, opening Explorer and the HTML summary are not modelled as actions. Each round's exit code, stderr text and running time are inputs.
- `Path.GetRandomFileName` is an input: the random file name of the statistics file.
- Logging (`Logger.*`) is left out. Execution-log lines are modelled only where they are read back: the `LASTPLANID:` line and the `execute method`/`execute constructor` lines.
- The transformers' own execution-log lines are not in the plan manager's model of the log, because the plan manager sees the transformer only through an abstract run.
- The `methodtransformer`, `minimize`, `reduce`, `reduce2`, `reproduce` and `stats:` handlers of `Main` are modelled only as far as `Dispatch` chooses them. What they do is `CollectFilesEndingWith`, `ReproduceBehavior`, `PrintStats` and file renaming over real directories, which this model does not enumerate.
- `CalculateOutputDirBase`, deleting the temporary directory at the end of `GenerateTests`, and writing the forbid file created for an omitted member are left out: they are file-system plumbing around the modelled logic. The member to omit is computed and handed to the next round.
- `OneActionStats.ToString` and the report text of `ComputeStats` are left out; the statistics themselves and their order are modelled.
- Stats.SortByTimesActionsSelected: promises non-increasing `timesSelected` and the same entries, not an order among ties, because `List.Sort` is not stable.
- `MethodCall`'s `contractExnViolatingClasses`/`contractExnViolatingMethods` sets are not modelled: nothing in the modelled code reads them.
- `CheckRep` of the configuration is left out: its checks are in `RandoopConfiguration.cs`, not part of this model.
- ConfigFile.CreateConfigFile: the two branches of the source (user directory and defaults) are one rule per file, "the user's file when the user directory holds it, else the default"; the order in which the source assigns the fields is not stated.
- ConfigFile.ParseStrategy: recognises only the exact names `ClassifyingByBehavior` and `ClassifyingByClass`; `Enum.TryParse` also accepts numeric and white-space-padded forms, which the model maps to `Single`. The corrected getter delivers the text after `/directorystrategy:`, so these forms could reach it.
- `int.Parse` and `int.TryParse` are modelled on the decimal digits with an optional sign and the 32-bit range. Culture-specific number formats, and white space around the digits beyond what `Trim` strips, are left out. In `newSubDir` the model records only that `int.Parse` throws, not whether it is `FormatException` or `OverflowException`; the log reader distinguishes the two (`CsStrings.ParseInt32`).
- String comparison is ordinal and `ToLower` covers ASCII letters only; culture-sensitive case mapping is left out.
- `Directory.Create` is modelled as adding one directory; creating missing parent directories is left out. `GetDirectories("normaltermination*")` is matched case-sensitively, while Windows matches case-insensitively.
- `numNormalTerminationPlansWritten` is a `nat`; the 32-bit wrap-around after 2^31 moves is left out.
- Failures of file writes and other I/O exceptions are left out: a write always succeeds unless the source itself throws first.
- TestFileWriters.ClassifyingByClassTestFileWriter.Move: when the class name contains a path separator, the contract states only that a failure is the ambiguous-directory exception, because `DirectoryInfo.Name` then differs from the class name and the directory found depends on the others already known.
- TestFileWriters.ClassifyingByClassTestFileWriter.MoveNormalTermination: the same weakening as `Move`, for the same reason.
- TestFileWriters.ClassifyingByClassTestFileWriter.MoveToClassDirectory: the same weakening as `Move`, for the same reason.
- `Util.cs` is not part of this model. A failing `Util.Assert` is modelled as an escaping exception named `Util.Assert` (`Transformers.AssertFailure`), since its real type lives in that file. The asserts whose failure path the model excludes by a `requires` instead are listed below, each under its member.
- ArrayBuilders.ArrayBuilder.constructor: requires a non-negative length instead of modelling the `Util.Assert` failure of CollectionCreator.cs:48, because a Dafny constructor cannot end in an escaping exception; the failure is modelled in its caller `ArrayBuilderCache.Get`, which returns `Util.Assert` for a negative length. The `arrayBaseType != null` half of that assert has no counterpart, since a type is a name here.
- PlanManagers.PlanManager.AddMaybeExecutingIfNeeded: requires `OutcomeAccepted` for the outcome of an executed plan, so the failure paths of the `Util.Assert`s at TestManager.cs:167, 194 and 205 and of the slot-0 assert of `SetActiveTupleElement` (Test.cs:139) are not modelled. The outcome comes from the `Runner` parameter, and the statistics, test writer and databases the source has already changed when such an assert fails would have to be stated for each of them. For the modelled transformers, `WellShaped` shows that a failed run has a cause, and the tuple layouts in their `ExecuteSpec` contracts give one value per result slot.
- PlanManagers.PlanManager.AddNew: requires `OutcomeAccepted` when executing, with the same consequence as `AddMaybeExecutingIfNeeded`.
- PlanManagers.PlanManager.ExecuteNew: requires `OutcomeAccepted`, with the same consequence as `AddMaybeExecutingIfNeeded`.
- PlanManagers.PlanManager.RecordFailure: requires that a failure has a cause (a violated precondition, an exception, a contract violation or an exception recorded earlier), so the failure path of the `Util.Assert` at TestManager.cs:167 is not modelled.
- PlanManagers.PlanManager.RecordNormal: requires `OutcomeAccepted`, so the failure paths of the tuple-length asserts at TestManager.cs:194 and 205 and of the slot-0 assert at Test.cs:139 are not modelled.
- PlanManagers.PlanManager.DeactivateSlots: requires `OutcomeAccepted`, so the failure paths of the tuple-length asserts at TestManager.cs:194 and 205 are not modelled.
- PlanManagers.PlanManager.DeactivateNulls: requires `OutcomeAccepted`, so the failure paths of the tuple-length assert at TestManager.cs:194 and of the slot-0 assert at Test.cs:139 (a null new object in a constructor-call tuple) are not modelled.
- Plans.ConstructorTuple: requires `ParamsChecked`, so the failure path of the `Util.Assert` in `CheckParams` (Test.cs:579), a null argument for a primitive parameter, is not modelled. Without `forbidNull` a chooser can pick a null slot for such a parameter, and reflection then passes a zero value, so the source does reach that assert; the model leaves that run out.
- Plans.MethodTuple: the same `CheckParams` requires as `ConstructorTuple` (Test.cs:579).
- MethodCalls.InvocationReturnsOutcome: its `InputsOk` includes `ParamsChecked`, so a returning run with a null primitive argument, where the source's `CheckParams` assert fails (Test.cs:579), is not modelled.
- MethodCalls.ExecuteSpec: its `InputsOk` includes `ParamsChecked`, so the `CheckParams` assert failure (Test.cs:579) is not modelled.
- MethodCalls.MethodCall.Execute: the same `ParamsChecked` requires as `ExecuteSpec` (Test.cs:579).
- MethodCalls.MethodCall.Invoke: requires `ParamsChecked`, so the `CheckParams` assert failure after a returning call (Test.cs:579) is not modelled.
- ConstructorCalls.InvocationReturnsOutcome: its `InputsOk` includes `ParamsChecked`, so the `CheckParams` assert failure (Test.cs:579) is not modelled.
- ConstructorCalls.ExecuteSpec: its `InputsOk` includes `ParamsChecked`, so the `CheckParams` assert failure (Test.cs:579) is not modelled.
- ConstructorCalls.ConstructorCall.Execute: the same `ParamsChecked` requires as `ExecuteSpec` (Test.cs:579).
- ConstructorCalls.ConstructorCall.Proceed: requires `ParamsChecked`, so the `CheckParams` assert failure (Test.cs:579) is not modelled.
- ConstructorCalls.ConstructorCall.CountAndInvoke: requires `ParamsChecked`, so the `CheckParams` assert failure (Test.cs:579) is not modelled.
- ConstructorCalls.ConstructorCall.Invoke: requires `ParamsChecked`, so the `CheckParams` assert failure (Test.cs:579) is not modelled.
- Reducers.Reduce: does not state the order of the returned files. The source returns `Dictionary.Values`, whose order .NET does not specify; in practice it is the order in which the classes were first seen, which is also the order of the model's partitions.
- ConstructorCalls.PreconditionCheck: uses the corrected contracts-manager check `Contracts.PreconditionViolated`; with the manager as written, any argument whose text is not a parameter name makes the check throw `InvalidRandoopContractException`, which the source swallows, so the constructor runs (`ConstructorCalls.PreconditionAsWrittenInvokes`, see Findings).
- ConstructorCalls.ConstructorCall.CheckPrecondition: the same corrected check as `PreconditionCheck`.
- ConstructorCalls.PreconditionViolationSkipsInvocation: stated for the corrected check; as written, a precondition naming a parameter is never found violated for an argument whose text is not that name.
- ConstructorCalls.ExecuteSpec: uses the corrected check `PreconditionCheck`, so as written some constructors it rules out are invoked.
- ConstructorCalls.ConstructorCall.Execute: uses the corrected check, as `ExecuteSpec` does.
- MethodCalls.MethodCall.ToCSharpCode: uses the corrected assertion guard `AssertionStep`, which compares with the number of recorded return values; the guard as written compares with `timesExecuted` and reads past the recorded values after a precondition-violating run (`RetrievalPastRecordedValues`, see Findings).
- MethodCalls.MethodCall.Execute: uses the corrected precondition check `MethodPreconditionViolated`, which treats a method without a `[Precondition]` attribute as not violated; the as-written check, which throws `NullReferenceException` there, is `PreconditionAsWrittenNeedsAttribute` (see Findings).
- ConfigFile.CreateConfigFile: reads the strategy through the corrected `DirectoryStrategy` getter; with the getter as written the strategy is always `Single` (`StrategyAsWrittenIsAlwaysSingle`, see Findings).
- Supervisor.DoInputGenerationRound: waits for the child with the corrected `WaitTime`, without `int` wrap-around; as written the wait wraps negative from a budget of 2147454 seconds (`WaitTimeWraps`, see Findings).
- Plans.TreeNodesBounds: states its bounds only while no `treeNodes` count in the plan DAG has wrapped (`SizesFit`); the constructor itself models the wrap-around (`Wrap32`), and `TreeNodesWrap` shows a wrapped count.
- Plans.WeightBounds: the same no-wrap hypothesis as `TreeNodesBounds`.
- Plans.Plan.Weight: requires `treeNodes != -1`; a wrapped count of -1 makes the source divide by zero in `double` and return positive infinity, which exact reals cannot hold.
- Plans.Plan.constructor: requires only that the transformer's flag array has one flag per result slot, not that its contents are the transformer's defaults. The array is shared by every plan of that transformer, and `SetActiveTupleElement` on any of them changes it, so the contents at construction depend on what was done before.
- Supervisor.GenerateTests: requires every child round to take a positive time, so the round loop provably ends; the source relies on the clock for this.
- `CsStrings.Trim` strips the ASCII control spaces, space, next-line and no-break space; the other Unicode white-space characters `char.IsWhiteSpace` accepts are left out.
- `StartsWith`, `EndsWith` and `IndexOf` with a string argument are culture-sensitive in .NET; the model compares ordinally. The two differ only on texts holding characters the culture ignores or equates, such as zero-width characters.
- The progress dots `Console.Write(".")` that the plan manager prints are console output and are left out.
- The IDE extension, the test-framework converters, `RandoopBare/main.cs` and its `RandomExplorer`, logging setup and the exception declarations are outside the modelled engine.

## Findings

| source | as written | input that shows it | evidently intended | confidence | as-written member | corrected member |
|---|---|---|---|---|---|---|
| randoop-NET-src/RandoopImpl/Actions/MethodCall.cs:63-68 | the guard `i < 0 && i > len - 2` can never hold, so no index is rejected | for a method with n parameters, input n+1 maps to slot n+2, one past the end of the tuple, and input -1 maps to slot 0 | `i < 0 \|\| i > len - 2`: only real inputs are mapped | high, not executed | MethodCalls.TupleIndexAsWrittenOutOfRange | MethodCalls.TupleIndexOfIthInputParam |
| randoop-NET-src/RandoopImpl/Actions/ConstructorCall.cs:55-59 | the same impossible guard `i < 0 && i > len - 1` | for a constructor with n parameters, input n maps to slot n+1, past the end of the tuple | `i < 0 \|\| i > len - 2` | high, not executed | ConstructorCalls.TupleIndexAsWrittenOutOfRange | ConstructorCalls.TupleIndexOfIthInputParam |
| randoop-NET-src/RandoopImpl/Actions/MethodCall.cs:286-299 | the assertion guard compares with `timesExecuted`, which a precondition-violating run increments without appending to `ReturnValue` | static `int M(int x)` with `[Precondition("x > 0", "x")]` run once with x = 0; printing the plan reads `ReturnValue[0]` of an empty list | the commented-out guard `timesReturnValRetrieved >= ReturnValue.Count` | medium, not executed | MethodCalls.RetrievalPastRecordedValues | MethodCalls.AssertionStep |
| randoop-NET-src/RandoopImpl/Actions/MethodCall.cs:552-556 | the `[Precondition]` attribute is read without a null check | any method without a `[Precondition]` attribute: `precondition.Expression` throws NullReferenceException | no attribute means no violation, as in the contracts manager | medium, not executed | MethodCalls.PreconditionAsWrittenNeedsAttribute | MethodCalls.MethodPreconditionViolated |
| randoop-NET-src/RandoopImpl/RandoopContracts/RandoopContractsManager.cs:217-223 | each argument's text is looked up among the parameter NAMES and replaced by itself | `M(int x)` with `[Precondition("x > 0", "x")]` called with 5: "5" names no parameter, so InvalidRandoopContractException | replace each parameter's name with its argument's text, longest name first as the `OrderByDescending` suggests, then evaluate `5 > 0` | high, not executed | Contracts.PreconditionAsWrittenRejectsValues | Contracts.PreconditionSubstitutesValues |
| randoop-NET-src/Randoop/CommandLineArguments.cs:137-146 | `DirectoryStrategy` tests `Equals("/directorystrategy")` and cuts `"/outputdir:".Length` characters | `/directorystrategy` yields "trategy" and `/directorystrategy:Single` is not recognised, so the configuration always gets `Single` | a value option `/directorystrategy:<name>` like the other getters | high, not executed | ConfigFile.StrategyAsWrittenIsAlwaysSingle | ConfigFile.StrategyReachesConfiguration |
| randoop-NET-src/Randoop/Main.cs:363 | `(Convert.ToInt32(seconds) + 30) * 1000` is computed in `int` arithmetic | a round budget of 2147454 seconds (`/restart:2147454` with a larger time limit) gives the wait -2147483296, which `WaitForExit` refuses | the budget plus 30 seconds, in milliseconds, without wrap-around | medium, not executed | Supervisor.WaitTimeWraps | Supervisor.WaitTime |
