/** `PlanManager` (TestManager.cs): the decision machine that takes each candidate plan the
    explorer builds, rejects it as redundant when a structurally equal plan is already
    stored, and otherwise writes it as a provisional test, executes it and files it by its
    outcome — into the builder database, the exception database or neither — while
    driving the statistics protocol and the test writer. `PlanDataBase` is modelled as a
    list of stored plans with their result tuples; the writer as the list of calls made
    to it. */
module PlanManagers {
  import opened Common
  import opened CsStrings
  import opened Transformers
  import opened Plans
  import Stats

  const AccessViolation := "System.AccessViolationException"
  const NormalResult := "normal"
  /** What the manager reports for a precondition violation (the statistics protocol
      special-cases "precondition violation" instead). */
  const PreconditionViolated := "precondition violated"

  datatype ExecutionMode = DontExecute | Reflection

  /** The fields of `RandoopConfiguration` the manager reads. */
  datatype ManagerConfig = ManagerConfig(
    executionmode: ExecutionMode,
    forbidnull: bool,
    forbidparamobj: bool,
    monkey: bool,
    outputnormalinputs: bool,
    executionLog: string,
    planstartid: int)

  /** A call made to the test writer, naming the plan by its id. */
  datatype WriterCall =
    | WriteTest(planId: int)
    | Move(planId: int, exception: TypeName)
    | MoveNormalTermination(planId: int)
    | Remove(planId: int)

  /** How `AddMaybeExecutingIfNeeded` ends: normally, by `Environment.Exit`, or with an
      exception escaping to the caller. */
  datatype AddStatus = Done | Exited(code: int) | Threw(exception: TypeName)

  /** The execution log of the n-th new plan. */
  function LogFileName(executionLog: string, n: int): string {
    executionLog + IntToString(n) + ".log"
  }

  function LastPlanIdLine(id: int): string {
    "LASTPLANID:" + IntToString(id)
  }

  // ------------------------------------------------------------ active slots after a normal run

  /** The active flags after a normal execution: with `forbidnull` every slot holding null is
      switched off, with `forbidparamobj` every slot but the first; nothing is switched on. */
  function Deactivated(flags: seq<bool>, tuple: seq<Value>, forbidnull: bool, forbidparamobj: bool): (r: seq<bool>)
    requires |tuple| == |flags|
    ensures |r| == |flags|
  {
    seq(|flags|, i requires 0 <= i < |flags| => flags[i] && !(forbidnull && tuple[i].Null?) && !(forbidparamobj && i >= 1))
  }

  /** What the deactivation guarantees later selection: no active slot holds null under
      `forbidnull`, only slot 0 can stay active under `forbidparamobj`, active slots were
      active before, and repeating it changes nothing. */
  lemma DeactivatedProperties(flags: seq<bool>, tuple: seq<Value>, forbidnull: bool, forbidparamobj: bool)
    requires |tuple| == |flags|
    ensures var r := Deactivated(flags, tuple, forbidnull, forbidparamobj);
      && (forall i :: 0 <= i < |r| && r[i] ==> flags[i])
      && (forbidnull ==> forall i :: 0 <= i < |r| && r[i] ==> !tuple[i].Null?)
      && (forbidparamobj ==> forall i :: 1 <= i < |r| ==> !r[i])
      && Deactivated(r, tuple, forbidnull, forbidparamobj) == r
      && (!forbidnull && !forbidparamobj ==> r == flags)
  {
  }

  // ------------------------------------------------------------ the plan databases

  datatype Entry = Entry(plan: Plan, result: Option<seq<Value>>)

  ghost predicate AllValid(es: seq<Entry>) {
    forall i :: 0 <= i < |es| ==> es[i].plan.Valid()
  }

  /** `PlanDataBase`: the plans stored so far, with the result tuple each was stored with. */
  class PlanDataBase {
    var entries: seq<Entry>

    ghost predicate Valid()
      reads this
    {
      AllValid(entries)
    }

    constructor ()
      ensures entries == [] && Valid()
    {
      entries := [];
    }

    /** `Containsplan`: some stored plan is structurally equal to `p`. */
    predicate Containsplan(p: Plan)
      requires Valid() && p.Valid()
      reads this
    {
      exists i :: 0 <= i < |entries| && entries[i].plan.Equals(p)
    }

    /** `AddPlan(plan)` (no result) and `AddPlan(plan, execResult)`. */
    method AddPlan(p: Plan, result: Option<seq<Value>>)
      requires Valid() && p.Valid()
      modifies this
      ensures entries == old(entries) + [Entry(p, result)] && Valid()
      ensures Containsplan(p)
    {
      entries := entries + [Entry(p, result)];
      assert entries[|entries| - 1].plan.Equals(p) by {
        PlanEqualsEquivalence(p, p, p);
      }
    }
  }

  /** After a plan is stored, the database contains it and every plan equal to it. */
  lemma ContainsAfterAdd(es: seq<Entry>, p: Plan, q: Plan, result: Option<seq<Value>>)
    requires AllValid(es) && p.Valid() && q.Valid() && p.Equals(q)
    ensures var es' := es + [Entry(p, result)];
      AllValid(es') && exists i :: 0 <= i < |es'| && es'[i].plan.Equals(q)
  {
    var es' := es + [Entry(p, result)];
    assert es'[|es|].plan.Equals(q);
  }

  /** No two stored plans, in one database or across the two, are structurally equal. */
  ghost predicate NoEqualPlans(a: seq<Entry>, b: seq<Entry>) {
    && AllValid(a) && AllValid(b)
    && (forall i, j :: 0 <= i < j < |a| ==> !a[i].plan.Equals(a[j].plan))
    && (forall i, j :: 0 <= i < j < |b| ==> !b[i].plan.Equals(b[j].plan))
    && (forall i, j :: 0 <= i < |a| && 0 <= j < |b| ==> !a[i].plan.Equals(b[j].plan))
  }

  /** Storing a plan that neither database contains keeps every stored plan distinct. */
  lemma AddKeepsNoEqualPlans(a: seq<Entry>, b: seq<Entry>, p: Plan, result: Option<seq<Value>>)
    requires NoEqualPlans(a, b) && p.Valid()
    requires forall i :: 0 <= i < |a| ==> !a[i].plan.Equals(p)
    requires forall j :: 0 <= j < |b| ==> !b[j].plan.Equals(p)
    ensures NoEqualPlans(a + [Entry(p, result)], b)
    ensures NoEqualPlans(a, b + [Entry(p, result)])
  {
    forall j | 0 <= j < |b|
      ensures !p.Equals(b[j].plan)
    {
      PlanEqualsEquivalence(p, b[j].plan, p);
    }
    AddToFirstKeepsNoEqualPlans(a, b, p, result);
    AddToSecondKeepsNoEqualPlans(a, b, p, result);
  }

  lemma AddToFirstKeepsNoEqualPlans(a: seq<Entry>, b: seq<Entry>, p: Plan, result: Option<seq<Value>>)
    requires NoEqualPlans(a, b) && p.Valid()
    requires forall i :: 0 <= i < |a| ==> !a[i].plan.Equals(p)
    requires forall j :: 0 <= j < |b| ==> !p.Equals(b[j].plan)
    ensures NoEqualPlans(a + [Entry(p, result)], b)
  {
    var a' := a + [Entry(p, result)];
    assert forall i :: 0 <= i < |a| ==> a'[i] == a[i];
  }

  lemma AddToSecondKeepsNoEqualPlans(a: seq<Entry>, b: seq<Entry>, p: Plan, result: Option<seq<Value>>)
    requires NoEqualPlans(a, b) && p.Valid()
    requires forall i :: 0 <= i < |a| ==> !a[i].plan.Equals(p)
    requires forall j :: 0 <= j < |b| ==> !b[j].plan.Equals(p)
    ensures NoEqualPlans(a, b + [Entry(p, result)])
  {
    var b' := b + [Entry(p, result)];
    assert forall j :: 0 <= j < |b| ==> b'[j] == b[j];
  }

  // ------------------------------------------------------------ the manager

  class PlanManager {
    const config: ManagerConfig
    /** `addCounter`: the new (non-redundant) plans seen. */
    var addCounter: int
    var redundantAdds: int
    const builderPlans: PlanDataBase
    const exceptionPlans: PlanDataBase
    /** The calls made to the test writer, oldest first. */
    var writerCalls: seq<WriterCall>
    /** The execution logs written, by file name. */
    var executionLogs: map<string, seq<string>>

    ghost predicate Valid()
      reads this, builderPlans, exceptionPlans
    {
      && builderPlans != exceptionPlans
      && builderPlans.Valid() && exceptionPlans.Valid()
      && NoEqualPlans(builderPlans.entries, exceptionPlans.entries)
    }

    /** `PlanManager(config)`: empty databases, zero counters, and the plan id counter set to
        `planstartid`. */
    constructor (c: ManagerConfig, counter: IdCounter)
      modifies counter
      ensures config == c && counter.next == c.planstartid
      ensures addCounter == 0 && redundantAdds == 0 && writerCalls == [] && executionLogs == map[]
      ensures fresh(builderPlans) && fresh(exceptionPlans)
      ensures builderPlans.entries == [] && exceptionPlans.entries == [] && Valid()
    {
      config := c;
      addCounter := 0;
      redundantAdds := 0;
      builderPlans := new PlanDataBase();
      exceptionPlans := new PlanDataBase();
      writerCalls := [];
      executionLogs := map[];
      new;
      counter.next := c.planstartid;
    }

    /** `plan` is redundant: a structurally equal plan is already stored. */
    predicate IsRedundant(plan: Plan)
      requires Valid() && plan.Valid()
      reads this, builderPlans, exceptionPlans
    {
      builderPlans.Containsplan(plan) || exceptionPlans.Containsplan(plan)
    }

    /** What the source asserts about an execution's outcome: a failure has a cause, the
        result tuple fits the plan's active flags when they are to be edited, and a
        constructor's new object is never null. */
    predicate OutcomeAccepted(plan: Plan, o: Outcome)
      reads plan
    {
      && (o.Failed? ==> o.preconditionViolated || o.exception.Some? || o.contractViolated || plan.exceptionThrown.Some?)
      && (o.Normal? && (config.forbidnull || config.forbidparamobj) ==> plan.activeTupleElements.Length == |o.tuple|)
      && (o.Normal? && config.forbidnull && plan.transformer.ConstructorCallDesc? && |o.tuple| > 0 ==> !o.tuple[0].Null?)
    }

    /** `AddMaybeExecutingIfNeeded`. */
    method AddMaybeExecutingIfNeeded(plan: Plan, stats: Stats.StatsManager, run: Runner, states: StatesRunner) returns (status: AddStatus)
      requires Valid() && plan.Valid() && stats.state == Stats.StatKind.Selected
      requires !IsRedundant(plan) && config.executionmode == Reflection ==> OutcomeAccepted(plan, plan.Run(run))
      modifies this, builderPlans, exceptionPlans, stats, plan, plan.activeTupleElements
      ensures Valid()
      // a redundant plan is only counted
      ensures old(IsRedundant(plan)) ==>
        && status == Done
        && redundantAdds == old(redundantAdds) + 1 && addCounter == old(addCounter)
        && stats.File() == Stats.CreatedNewSpec(old(stats.File()), Stats.Redundant).value
        && writerCalls == old(writerCalls) && executionLogs == old(executionLogs)
        && builderPlans.entries == old(builderPlans.entries) && exceptionPlans.entries == old(exceptionPlans.entries)
        && plan.numTimesExecuted == old(plan.numTimesExecuted)
        && plan.activeTupleElements[..] == old(plan.activeTupleElements[..])
      // a new plan is counted and written as a test before anything else happens to it
      ensures !old(IsRedundant(plan)) ==>
        && addCounter == old(addCounter) + 1 && redundantAdds == old(redundantAdds)
        && |writerCalls| > |old(writerCalls)|
        && writerCalls[..|old(writerCalls)| + 1] == old(writerCalls) + [WriteTest(plan.uniqueId)]
      // without execution it is stored as a builder and reported normal
      ensures !old(IsRedundant(plan)) && config.executionmode == DontExecute ==>
        && status == Done
        && builderPlans.entries == old(builderPlans.entries) + [Entry(plan, None)]
        && exceptionPlans.entries == old(exceptionPlans.entries)
        && stats.File() == Report(Stats.CreatedNewSpec(old(stats.File()), Stats.New).value, [NormalResult])
        && writerCalls == old(writerCalls) + [WriteTest(plan.uniqueId)]
        && executionLogs == old(executionLogs)
        && plan.numTimesExecuted == old(plan.numTimesExecuted)
        && plan.activeTupleElements[..] == old(plan.activeTupleElements[..])
      // otherwise it is executed once, after its execution log names it
      ensures !old(IsRedundant(plan)) && config.executionmode == Reflection ==>
        && plan.numTimesExecuted == old(plan.numTimesExecuted) + 1
        && executionLogs == old(executionLogs)[LogFileName(config.executionLog, addCounter) := [LastPlanIdLine(plan.uniqueId)]]
        && Filed(config, plan, plan.Run(run), status,
                 Stats.CreatedNewSpec(old(stats.File()), Stats.New).value, stats.File(),
                 old(writerCalls) + [WriteTest(plan.uniqueId)], writerCalls,
                 old(builderPlans.entries), builderPlans.entries, old(exceptionPlans.entries), exceptionPlans.entries,
                 old(plan.activeTupleElements[..]), plan.activeTupleElements[..], old(plan.exceptionThrown), plan.exceptionThrown)
    {
      if builderPlans.Containsplan(plan) || exceptionPlans.Containsplan(plan) {
        redundantAdds := redundantAdds + 1;
        var _ := stats.CreatedNew(Stats.Redundant);
        return Done;
      }
      status := AddNew(plan, stats, run, states);
    }

    /** `AddMaybeExecutingIfNeeded` for a plan that is not redundant: count it and write it
        as a test; store it as a builder, or execute it and file it by its outcome. */
    method AddNew(plan: Plan, stats: Stats.StatsManager, run: Runner, states: StatesRunner) returns (status: AddStatus)
      requires Valid() && plan.Valid() && stats.state == Stats.StatKind.Selected
      requires !IsRedundant(plan)
      requires config.executionmode == Reflection ==> OutcomeAccepted(plan, plan.Run(run))
      modifies this, builderPlans, exceptionPlans, stats, plan, plan.activeTupleElements
      ensures Valid()
      ensures addCounter == old(addCounter) + 1 && redundantAdds == old(redundantAdds)
      ensures |writerCalls| > |old(writerCalls)|
      ensures writerCalls[..|old(writerCalls)| + 1] == old(writerCalls) + [WriteTest(plan.uniqueId)]
      ensures config.executionmode == DontExecute ==>
        && status == Done
        && builderPlans.entries == old(builderPlans.entries) + [Entry(plan, None)]
        && exceptionPlans.entries == old(exceptionPlans.entries)
        && stats.File() == Report(Stats.CreatedNewSpec(old(stats.File()), Stats.New).value, [NormalResult])
        && writerCalls == old(writerCalls) + [WriteTest(plan.uniqueId)]
        && executionLogs == old(executionLogs)
        && plan.numTimesExecuted == old(plan.numTimesExecuted)
        && plan.activeTupleElements[..] == old(plan.activeTupleElements[..])
      ensures config.executionmode == Reflection ==>
        && plan.numTimesExecuted == old(plan.numTimesExecuted) + 1
        && executionLogs == old(executionLogs)[LogFileName(config.executionLog, addCounter) := [LastPlanIdLine(plan.uniqueId)]]
        && Filed(config, plan, plan.Run(run), status,
                 Stats.CreatedNewSpec(old(stats.File()), Stats.New).value, stats.File(),
                 old(writerCalls) + [WriteTest(plan.uniqueId)], writerCalls,
                 old(builderPlans.entries), builderPlans.entries, old(exceptionPlans.entries), exceptionPlans.entries,
                 old(plan.activeTupleElements[..]), plan.activeTupleElements[..], old(plan.exceptionThrown), plan.exceptionThrown)
    {
      addCounter := addCounter + 1;
      var _ := stats.CreatedNew(Stats.New);
      writerCalls := writerCalls + [WriteTest(plan.uniqueId)];
      if config.executionmode == DontExecute {
        StoreUnexecuted(plan, stats);
        return Done;
      }
      ghost var calls := writerCalls;
      status := ExecuteNew(plan, stats, run, states);
      FiledKeepsCalls(config, plan, plan.Run(run), status, Stats.CreatedNewSpec(old(stats.File()), Stats.New).value,
                      stats.File(), calls, writerCalls, old(builderPlans.entries), builderPlans.entries,
                      old(exceptionPlans.entries), exceptionPlans.entries, old(plan.activeTupleElements[..]),
                      plan.activeTupleElements[..], old(plan.exceptionThrown), plan.exceptionThrown);
    }

    /** The branch without execution: the plan becomes a builder and its run is reported normal. */
    method StoreUnexecuted(plan: Plan, stats: Stats.StatsManager)
      requires Valid() && plan.Valid() && stats.state == Stats.StatKind.CreatedNewPlan
      requires !IsRedundant(plan)
      modifies builderPlans, stats
      ensures Valid()
      ensures builderPlans.entries == old(builderPlans.entries) + [Entry(plan, None)]
      ensures stats.File() == Report(old(stats.File()), [NormalResult])
    {
      builderPlans.AddPlan(plan, None);
      AddKeepsNoEqualPlans(old(builderPlans.entries), exceptionPlans.entries, plan, None);
      var _ := stats.ExecutionResult(Some(NormalResult));
    }

    /** The executing branch: name the plan in its execution log, run it once, file it. */
    method ExecuteNew(plan: Plan, stats: Stats.StatsManager, run: Runner, states: StatesRunner) returns (status: AddStatus)
      requires Valid() && plan.Valid() && stats.state == Stats.StatKind.CreatedNewPlan
      requires !IsRedundant(plan) && OutcomeAccepted(plan, plan.Run(run))
      modifies this`executionLogs, this`writerCalls, builderPlans, exceptionPlans, stats, plan, plan.activeTupleElements
      ensures Valid()
      ensures plan.numTimesExecuted == old(plan.numTimesExecuted) + 1
      ensures executionLogs == old(executionLogs)[LogFileName(config.executionLog, addCounter) := [LastPlanIdLine(plan.uniqueId)]]
      ensures Filed(config, plan, plan.Run(run), status, old(stats.File()), stats.File(), old(writerCalls), writerCalls,
                    old(builderPlans.entries), builderPlans.entries, old(exceptionPlans.entries), exceptionPlans.entries,
                    old(plan.activeTupleElements[..]), plan.activeTupleElements[..], old(plan.exceptionThrown), plan.exceptionThrown)
    {
      executionLogs := executionLogs[LogFileName(config.executionLog, addCounter) := [LastPlanIdLine(plan.uniqueId)]];
      var outcome := plan.Execute(run, states);
      match outcome
      case Escaped(e) =>
        status := AddStatus.Threw(e);
      case Failed(pv, exc, cv) =>
        status := RecordFailure(plan, pv, exc, cv, stats);
      case Normal(tuple) =>
        status := RecordNormal(plan, tuple, stats);
    }

    /** The `!execSucceeded` branch. */
    method RecordFailure(plan: Plan, pv: bool, exc: Option<TypeName>, cv: bool, stats: Stats.StatsManager) returns (status: AddStatus)
      requires Valid() && plan.Valid() && stats.state == Stats.StatKind.CreatedNewPlan
      requires !IsRedundant(plan)
      requires pv || exc.Some? || cv || plan.exceptionThrown.Some?
      modifies this`writerCalls, builderPlans, exceptionPlans, stats, plan`exceptionThrown
      ensures Valid()
      ensures Filed(config, plan, Failed(pv, exc, cv), status, old(stats.File()), stats.File(), old(writerCalls), writerCalls,
                    old(builderPlans.entries), builderPlans.entries, old(exceptionPlans.entries), exceptionPlans.entries,
                    plan.activeTupleElements[..], plan.activeTupleElements[..], old(plan.exceptionThrown), plan.exceptionThrown)
    {
      ghost var reported: seq<string> := [];
      if pv {
        var _ := stats.ExecutionResult(Some(PreconditionViolated));
        reported := [PreconditionViolated];
        assert stats.File() == Report(old(stats.File()), reported);
      }
      if exc.Some? {
        var thrown := stats.ExecutionResult(Some(exc.value));
        if thrown.Some? {
          assert stats.File() == Report(old(stats.File()), [PreconditionViolated]);
          return AddStatus.Threw(thrown.value);
        }
        ReportSnoc(old(stats.File()), reported, exc.value);
        reported := reported + [exc.value];
        plan.exceptionThrown := exc;
        writerCalls := writerCalls + [Move(plan.uniqueId, exc.value)];
        if exc.value == AccessViolation {
          return Exited(1);
        }
      }
      if config.monkey {
        builderPlans.AddPlan(plan, None);
        AddKeepsNoEqualPlans(old(builderPlans.entries), exceptionPlans.entries, plan, None);
      } else if exc.Some? {
        exceptionPlans.AddPlan(plan, None);
        AddKeepsNoEqualPlans(builderPlans.entries, old(exceptionPlans.entries), plan, None);
      }
      status := Done;
    }

    /** The `forbidnull` and `forbidparamobj` loops over the plan's active flags. */
    method DeactivateSlots(plan: Plan, tuple: seq<Value>)
      requires OutcomeAccepted(plan, Normal(tuple))
      modifies plan.activeTupleElements
      ensures plan.activeTupleElements[..] ==
        if config.forbidnull || config.forbidparamobj
        then Deactivated(old(plan.activeTupleElements[..]), tuple, config.forbidnull, config.forbidparamobj)
        else old(plan.activeTupleElements[..])
    {
      ghost var before := plan.activeTupleElements[..];
      if config.forbidnull {
        DeactivateNulls(plan, tuple);
      }
      ghost var afterNull := plan.activeTupleElements[..];
      if config.forbidparamobj {
        DeactivateParams(plan);
      }
      if config.forbidnull || config.forbidparamobj {
        assert forall j :: 0 <= j < |before| ==>
          plan.activeTupleElements[j] == Deactivated(before, tuple, config.forbidnull, config.forbidparamobj)[j];
      }
    }

    /** `forbidnull`: switch off every slot whose value is null. */
    method DeactivateNulls(plan: Plan, tuple: seq<Value>)
      requires config.forbidnull && OutcomeAccepted(plan, Normal(tuple))
      modifies plan.activeTupleElements
      ensures forall j :: 0 <= j < |tuple| ==>
        plan.activeTupleElements[j] == (old(plan.activeTupleElements[j]) && !tuple[j].Null?)
    {
      var flags := plan.activeTupleElements;
      var i := 0;
      while i < flags.Length
        modifies flags
        invariant 0 <= i <= flags.Length
        invariant forall j :: 0 <= j < i ==> flags[j] == (old(flags[j]) && !tuple[j].Null?)
        invariant forall j :: i <= j < flags.Length ==> flags[j] == old(flags[j])
      {
        if tuple[i].Null? {
          var _ := plan.SetActiveTupleElement(i, false);
        }
        i := i + 1;
      }
    }

    /** `forbidparamobj`: switch off every slot but the first. */
    method DeactivateParams(plan: Plan)
      requires config.forbidparamobj
      modifies plan.activeTupleElements
      ensures plan.activeTupleElements.Length > 0 ==> plan.activeTupleElements[0] == old(plan.activeTupleElements[0])
      ensures forall j :: 1 <= j < plan.activeTupleElements.Length ==> !plan.activeTupleElements[j]
    {
      var flags := plan.activeTupleElements;
      var i := 1;
      while i < flags.Length
        modifies flags
        invariant 1 <= i
        invariant flags.Length > 0 ==> flags[0] == old(flags[0])
        invariant forall j :: 1 <= j < i && j < flags.Length ==> !flags[j]
      {
        var _ := plan.SetActiveTupleElement(i, false);
        i := i + 1;
      }
    }

    /** The `execSucceeded` branch. */
    method RecordNormal(plan: Plan, tuple: seq<Value>, stats: Stats.StatsManager) returns (status: AddStatus)
      requires Valid() && plan.Valid() && stats.state == Stats.StatKind.CreatedNewPlan
      requires !IsRedundant(plan)
      requires OutcomeAccepted(plan, Normal(tuple))
      modifies this`writerCalls, builderPlans, stats, plan.activeTupleElements
      ensures Valid()
      ensures Filed(config, plan, Normal(tuple), status, old(stats.File()), stats.File(), old(writerCalls), writerCalls,
                    old(builderPlans.entries), builderPlans.entries, exceptionPlans.entries, exceptionPlans.entries,
                    old(plan.activeTupleElements[..]), plan.activeTupleElements[..], plan.exceptionThrown, plan.exceptionThrown)
    {
      var _ := stats.ExecutionResult(Some(NormalResult));
      if config.outputnormalinputs {
        writerCalls := writerCalls + [MoveNormalTermination(plan.uniqueId)];
      } else {
        writerCalls := writerCalls + [Remove(plan.uniqueId)];
      }
      DeactivateSlots(plan, tuple);
      builderPlans.AddPlan(plan, Some(tuple));
      AddKeepsNoEqualPlans(old(builderPlans.entries), exceptionPlans.entries, plan, Some(tuple));
      status := Done;
    }
  }

  /** The statistics file after `ExecutionResult(r)` for each result in turn, each call
      completing the open line (or a line of its own). */
  function Report(f: Stats.StatsFile, results: seq<string>): Stats.StatsFile
    decreases |results|
  {
    if results == [] then f
    else Report(Stats.StatsFile(Stats.StatKind.Start, f.lines + [f.pending + results[0]], ""), results[1..])
  }

  /** Reporting one more result completes one more line. */
  lemma {:induction false} ReportSnoc(f: Stats.StatsFile, results: seq<string>, r: string)
    ensures var g := Report(f, results);
      Report(f, results + [r]) == Stats.StatsFile(Stats.StatKind.Start, g.lines + [g.pending + r], "")
    decreases |results|
  {
    if results != [] {
      var f1 := Stats.StatsFile(Stats.StatKind.Start, f.lines + [f.pending + results[0]], "");
      assert (results + [r])[1..] == results[1..] + [r];
      ReportSnoc(f1, results[1..], r);
    }
  }

  /** How an executed new plan is filed, given its outcome. The `0` arguments are the
      statistics file, writer calls, databases, active flags and recorded exception once
      the plan has been reported `New` and written as a test; the `1` arguments the same
      when `AddMaybeExecutingIfNeeded` ends. */
  ghost predicate Filed(config: ManagerConfig, plan: Plan, o: Outcome, status: AddStatus,
                        stats0: Stats.StatsFile, stats1: Stats.StatsFile,
                        calls0: seq<WriterCall>, calls1: seq<WriterCall>,
                        builders0: seq<Entry>, builders1: seq<Entry>,
                        exceptions0: seq<Entry>, exceptions1: seq<Entry>,
                        flags0: seq<bool>, flags1: seq<bool>,
                        thrown0: Option<TypeName>, thrown1: Option<TypeName>)
  {
    match o
    // an exception escaping the execution leaves everything as it was, the statistics
    // line included
    case Escaped(e) =>
      && status == AddStatus.Threw(e) && stats1 == stats0 && calls1 == calls0
      && builders1 == builders0 && exceptions1 == exceptions0 && flags1 == flags0 && thrown1 == thrown0
    case Failed(pv, exc, cv) =>
      && flags1 == flags0
      && if pv && exc.Some? && exc.value != Stats.PreconditionViolation then
        // the second `ExecutionResult` of the line is refused
        && status == AddStatus.Threw(Stats.InternalError) && stats1 == Report(stats0, [PreconditionViolated])
        && calls1 == calls0 && builders1 == builders0 && exceptions1 == exceptions0 && thrown1 == thrown0
      else
        && stats1 == Report(stats0, (if pv then [PreconditionViolated] else []) + (if exc.Some? then [exc.value] else []))
        && calls1 == calls0 + (if exc.Some? then [Move(plan.uniqueId, exc.value)] else [])
        && thrown1 == (if exc.Some? then exc else thrown0)
        && if exc == Some(AccessViolation) then
          status == Exited(1) && builders1 == builders0 && exceptions1 == exceptions0
        else
          && status == Done
          && builders1 == builders0 + (if config.monkey then [Entry(plan, None)] else [])
          && exceptions1 == exceptions0 + (if !config.monkey && exc.Some? then [Entry(plan, None)] else [])
    case Normal(t) =>
      && status == Done && stats1 == Report(stats0, [NormalResult])
      && calls1 == calls0 + [if config.outputnormalinputs then MoveNormalTermination(plan.uniqueId) else Remove(plan.uniqueId)]
      && (if (config.forbidnull || config.forbidparamobj) && |t| == |flags0|
          then flags1 == Deactivated(flags0, t, config.forbidnull, config.forbidparamobj)
          else flags1 == flags0)
      && builders1 == builders0 + [Entry(plan, Some(t))] && exceptions1 == exceptions0 && thrown1 == thrown0
  }

  /** Filing a plan only ever appends writer calls. */
  lemma FiledKeepsCalls(config: ManagerConfig, plan: Plan, o: Outcome, status: AddStatus,
                        stats0: Stats.StatsFile, stats1: Stats.StatsFile,
                        calls0: seq<WriterCall>, calls1: seq<WriterCall>,
                        builders0: seq<Entry>, builders1: seq<Entry>,
                        exceptions0: seq<Entry>, exceptions1: seq<Entry>,
                        flags0: seq<bool>, flags1: seq<bool>,
                        thrown0: Option<TypeName>, thrown1: Option<TypeName>)
    requires Filed(config, plan, o, status, stats0, stats1, calls0, calls1, builders0, builders1,
                   exceptions0, exceptions1, flags0, flags1, thrown0, thrown1)
    ensures |calls1| >= |calls0| && calls1[..|calls0|] == calls0
  {
  }

  /** A failure with only a contract violation, and an exception escaping the execution,
      report no execution result: the statistics line of the plan stays open, so the next
      `Selected` is refused. */
  lemma UnreportedOutcomesLeaveLineOpen(config: ManagerConfig, plan: Plan, o: Outcome, status: AddStatus,
                                        stats0: Stats.StatsFile, stats1: Stats.StatsFile,
                                        calls0: seq<WriterCall>, calls1: seq<WriterCall>,
                                        builders0: seq<Entry>, builders1: seq<Entry>,
                                        exceptions0: seq<Entry>, exceptions1: seq<Entry>,
                                        flags0: seq<bool>, flags1: seq<bool>,
                                        thrown0: Option<TypeName>, thrown1: Option<TypeName>, t: string)
    requires stats0.state == Stats.StatKind.CreatedNewPlan
    requires o == Failed(false, None, true) || o.Escaped?
    requires Filed(config, plan, o, status, stats0, stats1, calls0, calls1, builders0, builders1,
                   exceptions0, exceptions1, flags0, flags1, thrown0, thrown1)
    ensures stats1 == stats0 && Stats.SelectedSpec(stats1, Some(t)) == Err(Stats.InternalError)
  {
  }

  /** Every other outcome closes the line: the file is back in `Start` (unless the second
      result of a line is refused), with one or two more completed lines. */
  lemma ReportedOutcomesCloseLine(config: ManagerConfig, plan: Plan, o: Outcome, status: AddStatus,
                                  stats0: Stats.StatsFile, stats1: Stats.StatsFile,
                                  calls0: seq<WriterCall>, calls1: seq<WriterCall>,
                                  builders0: seq<Entry>, builders1: seq<Entry>,
                                  exceptions0: seq<Entry>, exceptions1: seq<Entry>,
                                  flags0: seq<bool>, flags1: seq<bool>,
                                  thrown0: Option<TypeName>, thrown1: Option<TypeName>)
    requires o.Normal? || (o.Failed? && (o.preconditionViolated || o.exception.Some?))
    requires Filed(config, plan, o, status, stats0, stats1, calls0, calls1, builders0, builders1,
                   exceptions0, exceptions1, flags0, flags1, thrown0, thrown1)
    ensures stats1.state == Stats.StatKind.Start && stats1.pending == ""
    ensures |stats1.lines| == |stats0.lines| + (if o.Failed? && o.preconditionViolated && o.exception.Some? && status.Done? then 2 else 1)
  {
    ReportSnoc(stats0, [], PreconditionViolated);
    assert [] + [PreconditionViolated] == [PreconditionViolated];
    if o.Normal? {
      ReportSnoc(stats0, [], NormalResult);
      assert [] + [NormalResult] == [NormalResult];
    } else if o.exception.Some? {
      ReportSnoc(stats0, [], o.exception.value);
      if o.preconditionViolated {
        ReportSnoc(stats0, [PreconditionViolated], o.exception.value);
        assert [PreconditionViolated] + [o.exception.value] == [PreconditionViolated, o.exception.value];
      } else {
        assert [] + [o.exception.value] == [o.exception.value];
      }
    } else {
      assert [PreconditionViolated] + [] == [PreconditionViolated];
    }
  }

  /** The manager reports "precondition violated", which is not the result the statistics
      protocol accepts outside a selection, so it is legal only while a line is open. */
  lemma PreconditionWordingDiffers(f: Stats.StatsFile)
    requires f.state != Stats.StatKind.CreatedNewPlan
    ensures PreconditionViolated != Stats.PreconditionViolation
    ensures Stats.ExecutionResultSpec(f, Some(PreconditionViolated)) == Err(Stats.InternalError)
  {
    assert PreconditionViolated[|PreconditionViolated| - 1] != Stats.PreconditionViolation[|Stats.PreconditionViolation| - 1];
  }
}
