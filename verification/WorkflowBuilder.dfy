/** The fluent workflow builder: the mutable builder, the state each of its calls produces, and the
    compiled workflow. */
module WorkflowBuilder {
  import opened Options
  import opened Graphs
  import opened Workflows
  import opened Kahn

  datatype AgentTask = AgentTask(agent: string, task: string, metadata: Option<Record>)

  /** One builder call. */
  datatype Block =
    | Sequential(tasks: seq<AgentTask>)
    | Parallel(tasks: seq<AgentTask>)
    | Handoff(tasks: seq<AgentTask>)
    | Conditional(router: Router, tasks: seq<AgentTask>)
    | Aggregate(task: AgentTask)
  {
    function Size(): nat {
      if Aggregate? then 1 else |tasks|
    }

    /** Each step of the block depends on the one before it, rather than on the previous block. */
    predicate IsChain() {
      Sequential? || Handoff?
    }
  }

  function Digit(d: nat): char
    requires d < 10
  {
    "0123456789"[d]
  }

  /** A number as JavaScript prints it. */
  function Decimal(n: nat): (s: string)
    ensures s != [] && (|s| == 1 <==> n < 10)
  {
    if n < 10 then [Digit(n)] else Decimal(n / 10) + [Digit(n % 10)]
  }

  lemma {:induction false} DecimalInjective(m: nat, n: nat)
    requires Decimal(m) == Decimal(n)
    ensures m == n
  {
    var s := Decimal(m);
    assert s[|s| - 1] == Digit(m % 10) == Digit(n % 10);
    if 10 <= m {
      assert Decimal(m / 10) == s[..|s| - 1] == Decimal(n / 10);
      DecimalInjective(m / 10, n / 10);
    }
  }

  function StepId(n: nat): string {
    "step-" + Decimal(n)
  }

  function GroupId(n: nat): string {
    "parallel-" + Decimal(n)
  }

  lemma {:induction false} StepIdInjective(m: nat, n: nat)
    requires StepId(m) == StepId(n)
    ensures m == n
  {
    assert Decimal(m) == StepId(m)[5..] == StepId(n)[5..] == Decimal(n);
    DecimalInjective(m, n);
  }

  /** The ids numbered from `lo` up to but not including `hi`. */
  function IdRange(lo: nat, hi: nat): (ids: seq<string>)
    requires lo <= hi
    ensures |ids| == hi - lo
  {
    if lo == hi then [] else IdRange(lo, hi - 1) + [StepId(hi - 1)]
  }

  lemma {:induction false} IdRangeAt(lo: nat, hi: nat, k: nat)
    requires lo <= hi && k < hi - lo
    ensures IdRange(lo, hi)[k] == StepId(lo + k)
  {
    if k < hi - 1 - lo {
      IdRangeAt(lo, hi - 1, k);
    }
  }

  datatype BuilderState = BuilderState(
    steps: seq<Step>,
    parallelGroups: map<string, seq<string>>,
    stepCounter: nat,
    lastStepIds: seq<string>
  )

  /** The last step ids as a dependency list, or no list where there are none. */
  function DepsOnLast(lastStepIds: seq<string>): Option<seq<string>> {
    if |lastStepIds| > 0 then Some(lastStepIds) else None
  }

  function PreserveHistory(metadata: Option<Record>): Option<Record> {
    var own: Record := if metadata.Some? then metadata.value else map[];
    Some(own + map["preserveHistory" := Bool(true)])
  }

  /** The `i`-th step of a block that starts when the counter stands at `c`. */
  function BlockStep(b: Block, c: nat, lastStepIds: seq<string>, i: nat): Step
    requires i < b.Size()
  {
    var t := if b.Aggregate? then b.task else b.tasks[i];
    var onLast := DepsOnLast(lastStepIds);
    var onChain := if i == 0 then onLast else Some([StepId(c + i - 1)]);
    match b
    case Sequential(_) => Step(StepId(c + i), t.agent, t.task, SequentialStep, None, onChain, None, t.metadata)
    case Parallel(_) => Step(StepId(c + i), t.agent, t.task, ParallelStep, Some(GroupId(c)), onLast, None, t.metadata)
    case Handoff(_) => Step(StepId(c + i), t.agent, t.task, HandoffStep, None, onChain, None, PreserveHistory(t.metadata))
    case Conditional(router, _) => Step(StepId(c + i), t.agent, t.task, ConditionalStep, None, onLast, Some(router), t.metadata)
    case Aggregate(_) => Step(StepId(c + i), t.agent, t.task, AggregateStep, None, onLast, None, t.metadata)
  }

  /** The first `n` steps of the block. */
  function BlockSteps(b: Block, c: nat, lastStepIds: seq<string>, n: nat): (steps: seq<Step>)
    requires n <= b.Size()
    ensures |steps| == n
  {
    if n == 0 then []
    else BlockSteps(b, c, lastStepIds, n - 1) + [BlockStep(b, c, lastStepIds, n - 1)]
  }

  lemma {:induction false} BlockStepAt(b: Block, c: nat, lastStepIds: seq<string>, n: nat, i: nat)
    requires i < n <= b.Size()
    ensures BlockSteps(b, c, lastStepIds, n)[i] == BlockStep(b, c, lastStepIds, i)
  {
    if i < n - 1 {
      BlockStepAt(b, c, lastStepIds, n - 1, i);
    }
  }

  /** The ids the next call will depend on. */
  function Finals(b: Block, c: nat): seq<string> {
    if b.IsChain() && b.Size() > 0 then [StepId(c + b.Size() - 1)] else IdRange(c, c + b.Size())
  }

  /** The state after one builder call. */
  function Apply(st: BuilderState, b: Block): BuilderState {
    BuilderState(
      st.steps + BlockSteps(b, st.stepCounter, st.lastStepIds, b.Size()),
      if b.Parallel?
      then st.parallelGroups[GroupId(st.stepCounter) := IdRange(st.stepCounter, st.stepCounter + b.Size())]
      else st.parallelGroups,
      st.stepCounter + b.Size(),
      Finals(b, st.stepCounter)
    )
  }

  datatype CompiledWorkflow = CompiledWorkflow(
    name: string,
    steps: seq<Step>,
    parallelGroups: map<string, seq<string>>,
    entrySteps: seq<string>,
    exitSteps: seq<string>
  )

  datatype BuildResult =
    | Built(workflow: CompiledWorkflow)
    | EmptyWorkflow
    | MissingDependency(step: string, dep: string)
    | CircularDependencies

  /** The ids of the steps that list no dependency, in step order. */
  function EntryIds(steps: seq<Step>): seq<string> {
    if steps == [] then []
    else
      var last := steps[|steps| - 1];
      EntryIds(steps[..|steps| - 1]) + if last.Deps() == [] then [last.id] else []
  }

  function AllDeps(steps: seq<Step>): (deps: set<string>)
    ensures forall d :: d in deps <==> exists s :: s in steps && d in s.Deps()
  {
    if steps == [] then {}
    else
      var front, last := steps[..|steps| - 1], steps[|steps| - 1];
      assert steps == front + [last];
      AllDeps(front) + (set d | d in last.Deps())
  }

  /** The ids of the steps that `deps` does not contain, in step order. */
  function IdsOutside(steps: seq<Step>, deps: set<string>): seq<string> {
    if steps == [] then []
    else
      var last := steps[|steps| - 1];
      IdsOutside(steps[..|steps| - 1], deps) + if last.id !in deps then [last.id] else []
  }

  class Builder {
    const name: string
    var steps: seq<Step>
    var parallelGroups: map<string, seq<string>>
    var stepCounter: nat
    var lastStepIds: seq<string>

    function State(): BuilderState
      reads this
    {
      BuilderState(steps, parallelGroups, stepCounter, lastStepIds)
    }

    constructor (name: string)
      ensures State() == BuilderState([], map[], 0, [])
    {
      this.name := name;
      steps, parallelGroups, stepCounter, lastStepIds := [], map[], 0, [];
    }

    method NextStepId() returns (id: string)
      modifies `stepCounter
      ensures id == StepId(old(stepCounter)) && stepCounter == old(stepCounter) + 1
    {
      id := "step-" + Decimal(stepCounter);
      stepCounter := stepCounter + 1;
    }

    method Sequential(tasks: seq<AgentTask>)
      modifies this
      ensures State() == Apply(old(State()), Block.Sequential(tasks))
    {
      hide StepId, GroupId;
      var stepIds := [];
      ghost var b, c := Block.Sequential(tasks), stepCounter;
      ghost var steps0, last := steps, lastStepIds;
      for i := 0 to |tasks|
        invariant stepCounter == c + i && stepIds == IdRange(c, c + i)
        invariant lastStepIds == last && parallelGroups == old(parallelGroups)
        invariant steps == steps0 + BlockSteps(b, c, last, i)
      {
        var stepId := NextStepId();
        var dependsOn := if i == 0 then DepsOnLast(lastStepIds) else Some([stepIds[i - 1]]);
        var step := Step(stepId, tasks[i].agent, tasks[i].task, SequentialStep, None, dependsOn, None, tasks[i].metadata);
        assert step == BlockStep(b, c, last, i);
        assert steps0 + BlockSteps(b, c, last, i + 1) == steps + [step];
        steps := steps + [step];
        stepIds := stepIds + [stepId];
      }
      lastStepIds := if |stepIds| > 0 then [stepIds[|stepIds| - 1]] else [];
    }

    method Parallel(tasks: seq<AgentTask>)
      modifies this
      ensures State() == Apply(old(State()), Block.Parallel(tasks))
    {
      hide StepId, GroupId;
      var groupId := GroupId(stepCounter);
      var stepIds := [];
      ghost var b, c := Block.Parallel(tasks), stepCounter;
      ghost var steps0, last := steps, lastStepIds;
      for i := 0 to |tasks|
        invariant stepCounter == c + i && stepIds == IdRange(c, c + i)
        invariant lastStepIds == last && parallelGroups == old(parallelGroups)
        invariant steps == steps0 + BlockSteps(b, c, last, i)
      {
        var stepId := NextStepId();
        var dependsOn := DepsOnLast(lastStepIds);
        var step := Step(stepId, tasks[i].agent, tasks[i].task, ParallelStep, Some(groupId), dependsOn, None, tasks[i].metadata);
        assert step == BlockStep(b, c, last, i);
        assert steps0 + BlockSteps(b, c, last, i + 1) == steps + [step];
        steps := steps + [step];
        stepIds := stepIds + [stepId];
      }
      parallelGroups := parallelGroups[groupId := stepIds];
      lastStepIds := stepIds;
    }

    method Handoff(tasks: seq<AgentTask>)
      modifies this
      ensures State() == Apply(old(State()), Block.Handoff(tasks))
    {
      hide StepId, GroupId;
      var stepIds := [];
      ghost var b, c := Block.Handoff(tasks), stepCounter;
      ghost var steps0, last := steps, lastStepIds;
      for i := 0 to |tasks|
        invariant stepCounter == c + i && stepIds == IdRange(c, c + i)
        invariant lastStepIds == last && parallelGroups == old(parallelGroups)
        invariant steps == steps0 + BlockSteps(b, c, last, i)
      {
        var stepId := NextStepId();
        var dependsOn := if i == 0 then DepsOnLast(lastStepIds) else Some([stepIds[i - 1]]);
        var step := Step(stepId, tasks[i].agent, tasks[i].task, HandoffStep, None, dependsOn, None, PreserveHistory(tasks[i].metadata));
        assert step == BlockStep(b, c, last, i);
        assert steps0 + BlockSteps(b, c, last, i + 1) == steps + [step];
        steps := steps + [step];
        stepIds := stepIds + [stepId];
      }
      lastStepIds := if |stepIds| > 0 then [stepIds[|stepIds| - 1]] else [];
    }

    method Conditional(router: Router, branches: seq<AgentTask>)
      modifies this
      ensures State() == Apply(old(State()), Block.Conditional(router, branches))
    {
      hide StepId, GroupId;
      var stepIds := [];
      ghost var b, c := Block.Conditional(router, branches), stepCounter;
      ghost var steps0, last := steps, lastStepIds;
      for i := 0 to |branches|
        invariant stepCounter == c + i && stepIds == IdRange(c, c + i)
        invariant lastStepIds == last && parallelGroups == old(parallelGroups)
        invariant steps == steps0 + BlockSteps(b, c, last, i)
      {
        var stepId := NextStepId();
        var dependsOn := DepsOnLast(lastStepIds);
        var step := Step(stepId, branches[i].agent, branches[i].task, ConditionalStep, None, dependsOn, Some(router), branches[i].metadata);
        assert step == BlockStep(b, c, last, i);
        assert steps0 + BlockSteps(b, c, last, i + 1) == steps + [step];
        steps := steps + [step];
        stepIds := stepIds + [stepId];
      }
      lastStepIds := stepIds;
    }

    method Aggregate(agent: string, task: string, metadata: Option<Record>)
      modifies this
      ensures State() == Apply(old(State()), Block.Aggregate(AgentTask(agent, task, metadata)))
    {
      ghost var b, c := Block.Aggregate(AgentTask(agent, task, metadata)), stepCounter;
      ghost var steps0, last := steps, lastStepIds;
      var stepId := NextStepId();
      var dependsOn := DepsOnLast(lastStepIds);
      steps := steps + [Step(stepId, agent, task, AggregateStep, None, dependsOn, None, metadata)];
      assert BlockSteps(b, c, last, 1) == [BlockStep(b, c, last, 0)];
      assert IdRange(c, c + 1) == [StepId(c)];
      lastStepIds := [stepId];
    }

    /** Compile, or say which check failed. */
    method Build() returns (r: BuildResult)
      ensures r.EmptyWorkflow? <==> steps == []
      ensures r.MissingDependency? ==> DependsDirectly(steps, r.step, r.dep) && r.dep !in NodeIds(steps)
      ensures r.MissingDependency? <==> !DepsExist(steps)
      ensures r.CircularDependencies? <==> steps != [] && DepsExist(steps) && !(DistinctIds(steps) && !Cyclic(Edges(steps)))
      ensures r.Built? ==> r.workflow == CompiledWorkflow(name, steps, parallelGroups, EntryIds(steps), IdsOutside(steps, AllDeps(steps)))
    {
      if |steps| == 0 {
        return EmptyWorkflow;
      }
      var entrySteps := EntrySteps(steps);
      var exitSteps := ExitSteps(steps);
      var missing := FindMissing(steps);
      if missing.Some? {
        return MissingDependency(missing.value.0, missing.value.1);
      }
      var acyclic := DetectCycles(steps);
      if !acyclic {
        return CircularDependencies;
      }
      return Built(CompiledWorkflow(name, steps, parallelGroups, entrySteps, exitSteps));
    }
  }

  method EntrySteps(steps: seq<Step>) returns (entrySteps: seq<string>)
    ensures entrySteps == EntryIds(steps)
  {
    entrySteps := [];
    for i := 0 to |steps|
      invariant entrySteps == EntryIds(steps[..i])
    {
      assert steps[..i + 1][..i] == steps[..i];
      if steps[i].dependsOn.None? || |steps[i].dependsOn.value| == 0 {
        entrySteps := entrySteps + [steps[i].id];
      }
    }
    assert steps[..|steps|] == steps;
  }

  method ExitSteps(steps: seq<Step>) returns (exitSteps: seq<string>)
    ensures exitSteps == IdsOutside(steps, AllDeps(steps))
  {
    var allDeps := {};
    for i := 0 to |steps|
      invariant allDeps == AllDeps(steps[..i])
    {
      assert steps[..i + 1][..i] == steps[..i];
      allDeps := allDeps + (set d | d in steps[i].Deps());
    }
    exitSteps := [];
    for i := 0 to |steps|
      invariant exitSteps == IdsOutside(steps[..i], allDeps)
    {
      assert steps[..i + 1][..i] == steps[..i];
      if steps[i].id !in allDeps {
        exitSteps := exitSteps + [steps[i].id];
      }
    }
    assert steps[..|steps|] == steps;
  }

  /** The first listed dependency that names no step, with the step that lists it. */
  method FindMissing(steps: seq<Step>) returns (missing: Option<(string, string)>)
    ensures missing.None? <==> DepsExist(steps)
    ensures missing.Some? ==> DependsDirectly(steps, missing.value.0, missing.value.1) && missing.value.1 !in NodeIds(steps)
  {
    var stepIds := set i | 0 <= i < |steps| :: steps[i].id;
    assert stepIds == Elems(NodeIds(steps));
    for i := 0 to |steps|
      invariant DepsIn(steps[..i], stepIds)
    {
      var deps := steps[i].Deps();
      for k := 0 to |deps|
        invariant forall d :: d in deps[..k] ==> d in stepIds
      {
        if deps[k] !in stepIds {
          MissingDepIsMissing(steps, steps[i], deps[k]);
          return Some((steps[i].id, deps[k]));
        }
      }
      assert deps[..|deps|] == deps;
      assert steps[..i + 1] == steps[..i] + [steps[i]];
    }
    assert steps[..|steps|] == steps;
    DepsInExist(steps);
    return None;
  }

  ghost predicate DepsIn(steps: seq<Step>, ids: set<string>) {
    forall s, d :: s in steps && d in s.Deps() ==> d in ids
  }

  lemma {:induction false} MissingDepIsMissing(steps: seq<Step>, s: Step, d: string)
    requires s in steps && d in s.Deps() && d !in NodeIds(steps)
    ensures DependsDirectly(steps, s.id, d) && !DepsExist(steps)
  {
    EdgesAreDependencies(steps, s.id, d);
    assert Edge(d, s.id).src !in NodeIds(steps);
  }

  lemma {:induction false} DepsInExist(steps: seq<Step>)
    requires DepsIn(steps, Elems(NodeIds(steps)))
    ensures DepsExist(steps)
  {
    forall e | e in Edges(steps)
      ensures e.src in NodeIds(steps)
    {
      assert e == Edge(e.src, e.dst);
      EdgesAreDependencies(steps, e.dst, e.src);
      var s :| s in steps && s.id == e.dst && e.src in s.Deps();
      assert e.src in Elems(NodeIds(steps));
    }
  }

  lemma NothingTabulated(steps: seq<Step>)
    ensures Tabulates(map[], map[], Edges(steps[..0])) && NodeIds(steps[..0]) == []
  {
  }

  /** The ids, in-degrees and adjacency lists of the steps. */
  method GatherSteps(steps: seq<Step>)
    returns (order: seq<string>, inDegree: map<string, int>, adjacency: map<string, seq<string>>)
    ensures order == NodeIds(steps) && inDegree.Keys == Elems(order)
    ensures Tabulates(inDegree, adjacency, Edges(steps))
  {
    hide Tabulates;
    order, inDegree, adjacency := [], map[], map[];
    NothingTabulated(steps);
    for i := 0 to |steps|
      invariant order == NodeIds(steps[..i]) && inDegree.Keys == Elems(order)
      invariant Tabulates(inDegree, adjacency, Edges(steps[..i]))
    {
      assert steps[..i + 1] == steps[..i] + [steps[i]];
      order, inDegree, adjacency := EnterStep(steps[i], order, inDegree, adjacency, steps[..i]);
    }
    assert steps[..|steps|] == steps;
  }

  lemma DegreesTabulated(order: seq<string>, inDegree: map<string, int>, adjacency: map<string, seq<string>>, es: seq<Edge>)
    requires Tabulates(inDegree, adjacency, es) && inDegree.Keys == Elems(order)
    ensures forall v :: v in order ==> v in inDegree && inDegree[v] == InDegree(es, v, {})
  {
  }

  /** `acyclic` is false where the original throws. */
  method DetectCycles(steps: seq<Step>) returns (acyclic: bool)
    ensures acyclic <==> DistinctIds(steps) && DepsExist(steps) && !Cyclic(Edges(steps))
  {
    hide Tabulates, Cyclic, Order, Sources, DistinctIds, NodeIds, Edges, NoDup, InDegree;
    var order, inDegree, adjacency := GatherSteps(steps);
    DegreesTabulated(order, inDegree, adjacency, Edges(steps));
    NodeIdsNoDup(steps);
    EdgeTargetsAreNodes(steps);
    var queue := ZeroDegrees(order, inDegree, Edges(steps));
    var processed := DrainQueue(NodeIds(steps), Edges(steps), inDegree, adjacency, queue);
    acyclic := |processed| == |steps|;
    OrderIsExact(NodeIds(steps), Edges(steps));
    DistinctIdsByCount(steps);
  }

  /** The body of the loop that gathers in-degrees and adjacency lists. */
  method EnterStep(step: Step, order0: seq<string>, inDegree0: map<string, int>,
                   adjacency0: map<string, seq<string>>, ghost before: seq<Step>)
    returns (order: seq<string>, inDegree: map<string, int>, adjacency: map<string, seq<string>>)
    requires order0 == NodeIds(before) && inDegree0.Keys == Elems(order0)
    requires Tabulates(inDegree0, adjacency0, Edges(before))
    ensures order == NodeIds(before + [step]) && inDegree.Keys == Elems(order)
    ensures Tabulates(inDegree, adjacency, Edges(before + [step]))
  {
    hide Tabulates;
    order, inDegree, adjacency := order0, inDegree0, adjacency0;
    assert (before + [step])[..|before|] == before;
    if step.id !in inDegree {
      EdgeTargetsAreNodes(before);
      TabulatesNewVertex(inDegree, adjacency, Edges(before), step.id);
      inDegree := inDegree[step.id := 0];
      order := order + [step.id];
    }
    if step.id !in adjacency {
      TabulatesNewList(inDegree, adjacency, Edges(before), step.id);
      adjacency := adjacency[step.id := []];
    }
    inDegree, adjacency := AddDependencies(step.id, step.Deps(), inDegree, adjacency, Edges(before));
  }

  // ---- What a call builds ----

  /** The kind of a call's steps. */
  predicate KindFits(b: Block, t: StepKind) {
    match b
    case Sequential(_) => t == SequentialStep
    case Parallel(_) => t == ParallelStep
    case Handoff(_) => t == HandoffStep
    case Conditional(_, _) => t == ConditionalStep
    case Aggregate(_) => t == AggregateStep
  }

  /** What a hand-off makes of a task's metadata: one more key, and all others as they were. */
  ghost predicate KeepsHistory(before: Option<Record>, after: Option<Record>) {
    && after.Some? && "preserveHistory" in after.value && after.value["preserveHistory"] == Bool(true)
    && forall key :: key != "preserveHistory" ==>
         (key in after.value <==> before.Some? && key in before.value)
         && (key in after.value ==> after.value[key] == before.value[key])
  }

  /** A call adds one step for each task, in order, behind the steps there are. Each carries its task's
      agent, text and metadata; of a chain, each step after the first depends on just the one before
      it, and all others on what the call before ended with. */
  lemma {:induction false} CallBuilds(st: BuilderState, b: Block, i: nat)
    requires i < b.Size()
    ensures var st' := Apply(st, b);
      && |st'.steps| == |st.steps| + b.Size() && st'.steps[..|st.steps|] == st.steps
      && st'.stepCounter == st.stepCounter + b.Size()
    ensures var s, t := Apply(st, b).steps[|st.steps| + i], if b.Aggregate? then b.task else b.tasks[i];
      && s.id == "step-" + Decimal(st.stepCounter + i) && s.agent == t.agent && s.task == t.task && KindFits(b, s.kind)
      && s.group == (if b.Parallel? then Some("parallel-" + Decimal(st.stepCounter)) else None)
      && s.condition == (if b.Conditional? then Some(b.router) else None)
      && (if b.Handoff? then KeepsHistory(t.metadata, s.metadata) else s.metadata == t.metadata)
      && s.dependsOn ==
           (if (b.Sequential? || b.Handoff?) && i > 0 then Some(["step-" + Decimal(st.stepCounter + i - 1)])
            else if st.lastStepIds == [] then None else Some(st.lastStepIds))
  {
    hide Decimal;
    BlockStepAt(b, st.stepCounter, st.lastStepIds, b.Size(), i);
  }

  /** The next call depends on all the steps of this one, or on the last of a chain. */
  lemma {:induction false} CallEndsWith(st: BuilderState, b: Block, i: nat)
    requires i < b.Size()
    ensures var last := Apply(st, b).lastStepIds;
      if b.Sequential? || b.Handoff? then last == ["step-" + Decimal(st.stepCounter + b.Size() - 1)]
      else |last| == b.Size() && last[i] == "step-" + Decimal(st.stepCounter + i)
    ensures b.Parallel? ==>
      var groups, group := Apply(st, b).parallelGroups, "parallel-" + Decimal(st.stepCounter);
      && groups.Keys == st.parallelGroups.Keys + {group}
      && (forall g :: g in st.parallelGroups && g != group ==> groups[g] == st.parallelGroups[g])
      && |groups[group]| == b.Size() && groups[group][i] == "step-" + Decimal(st.stepCounter + i)
  {
    hide Decimal;
    IdRangeAt(st.stepCounter, st.stepCounter + b.Size(), i);
  }

  /** The number that digits stand for. */
  function NumberOf(digits: string): int {
    if digits == [] then 0
    else 10 * NumberOf(digits[..|digits| - 1]) + (digits[|digits| - 1] as int - '0' as int)
  }

  /** A number is printed in digits that stand for it. */
  lemma {:induction false} DecimalIsNumber(n: nat)
    ensures NumberOf(Decimal(n)) == n && forall i :: 0 <= i < |Decimal(n)| ==> '0' <= Decimal(n)[i] <= '9'
  {
    var s := Decimal(n);
    if n < 10 {
      assert s[..0] == [];
    } else {
      DecimalIsNumber(n / 10);
      assert s[..|s| - 1] == Decimal(n / 10);
    }
  }
}
