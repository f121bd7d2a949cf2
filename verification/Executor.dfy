/** The recursive executor: sub-tasks and escalations share one depth counter, one set of metrics and
    the statuses of the agents. */
module Executor {
  import opened Options
  import opened AgentRegistry

  datatype Task = Task(id: string, target: string, priority: int)

  datatype ResultStatus = Success | Failure | Partial | Escalated

  datatype TaskResult = TaskResult(requestId: string, executor: string, status: ResultStatus)

  // ---- What the outside world answers ----

  /** Resolving a target can find an agent or none, or throw: a target taken from a model's JSON need
      not be a string. */
  datatype Resolution = ResolutionThrows | NoAgent | Found(agent: string)

  datatype Work =
    | TransportReturns(result: TaskResult)
    | TransportThrows
    | ModelReturns(tokens: int, subTasks: seq<Task>)
    | ModelThrows

  datatype Escalation = CircuitBroken | EscalateTo(agent: string) | NoTarget

  /** The answers that one call gets, if it asks. */
  datatype Answers = Answers(resolution: Resolution, pastDeadline: bool, work: Work, escalation: Escalation)

  /** Answers for every call of a run. A call is named by the way to it from the first one: the index
      of each sub-task, or `ESCALATION`. */
  type Oracle = seq<int> -> Answers

  const ESCALATION := -1

  datatype Config = Config(maxDepth: int, enableSubTasks: bool, enableEscalation: bool)

  // ---- The tree of calls ----

  datatype Metrics = Metrics(total: nat, successful: nat, failed: nat, escalated: nat, tokens: int)

  const NOTHING := Metrics(0, 0, 0, 0, 0)
  const ONE_SUCCESS := Metrics(1, 1, 0, 0, 0)
  const ONE_FAILURE := Metrics(1, 0, 1, 0, 0)
  const ONE_ESCALATION := Metrics(1, 0, 0, 1, 0)
  const ONE_TASK := Metrics(1, 0, 0, 0, 0)

  function Plus(a: Metrics, b: Metrics): Metrics {
    Metrics(a.total + b.total, a.successful + b.successful, a.failed + b.failed, a.escalated + b.escalated, a.tokens + b.tokens)
  }

  datatype Reply = Thrown | Returned(result: TaskResult)

  /** A call: the way to it, its depth, the agent that it marked busy, what it counts for, its sub-tasks in order, the
      result that it recorded itself, and the call that it escalated to. */
  datatype Call = Call(
    path: seq<int>,
    depth: int,
    agent: Option<string>,
    own: Metrics,
    subCalls: seq<Call>,
    recorded: Option<TaskResult>,
    escalatedTo: Option<Call>,
    reply: Reply
  )

  function Failed(path: seq<int>, depth: int, agent: Option<string>, r: TaskResult): Call {
    Call(path, depth, agent, ONE_FAILURE, [], None, None, Returned(r))
  }

  function EscalatedTask(task: Task, target: string): Task {
    Task(task.id, target, if task.priority + 1 < 5 then task.priority + 1 else 5)
  }

  predicate MayRecurse(cfg: Config, depth: int, subTasks: seq<Task>) {
    subTasks != [] && cfg.enableSubTasks && depth < cfg.maxDepth
  }

  /** The calls that executing a task at a depth makes. */
  function CallOf(cfg: Config, o: Oracle, path: seq<int>, task: Task, depth: int): (c: Call)
    decreases if depth > cfg.maxDepth then 0 else cfg.maxDepth + 1 - depth, 2, 0
  {
    if depth > cfg.maxDepth then Failed(path, depth, None, TaskResult(task.id, "system", Failure))
    else
      var answers := o(path);
      match answers.resolution
      case ResolutionThrows => Call(path, depth, None, ONE_TASK, [], None, None, Thrown)
      case NoAgent => Failed(path, depth, None, TaskResult(task.id, "unknown", Failure))
      case Found(agent) =>
        if answers.pastDeadline then Failed(path, depth, Some(agent), TaskResult(task.id, agent, Failure))
        else WorkOf(cfg, o, path, task, depth, agent)
  }

  /** The call once its agent is marked busy. */
  function WorkOf(cfg: Config, o: Oracle, path: seq<int>, task: Task, depth: int, agent: string): (c: Call)
    requires depth <= cfg.maxDepth
    decreases cfg.maxDepth + 1 - depth, 1, 0
  {
    match o(path).work
    case TransportReturns(r) =>
      Call(path, depth, Some(agent), if r.status == Success then ONE_SUCCESS else ONE_FAILURE, [], Some(r), None, Returned(r))
    case TransportThrows => Recovered(cfg, o, path, task, depth, agent, 0, [])
    case ModelThrows => Recovered(cfg, o, path, task, depth, agent, 0, [])
    case ModelReturns(tokens, subTasks) =>
      var subCalls := if MayRecurse(cfg, depth, subTasks) then SubCalls(cfg, o, path, subTasks, 0, depth) else [];
      if subCalls != [] && subCalls[|subCalls| - 1].reply.Thrown?
      then Recovered(cfg, o, path, task, depth, agent, tokens, subCalls)
      else
        var r := TaskResult(task.id, agent, Success);
        Call(path, depth, Some(agent), ONE_SUCCESS.(tokens := tokens), subCalls, Some(r), None, Returned(r))
  }

  /** The sub-tasks from the `i`-th on, up to the first that throws. */
  function SubCalls(cfg: Config, o: Oracle, path: seq<int>, tasks: seq<Task>, i: nat, depth: int): (cs: seq<Call>)
    requires i <= |tasks| && depth < cfg.maxDepth
    decreases cfg.maxDepth + 1 - depth, 0, |tasks| - i
  {
    if i == |tasks| then []
    else
      var c := CallOf(cfg, o, path + [i], tasks[i], depth + 1);
      if c.reply.Thrown? then [c] else [c] + SubCalls(cfg, o, path, tasks, i + 1, depth)
  }

  /** What a call does after a failure: escalate, or give up. */
  function Recovered(cfg: Config, o: Oracle, path: seq<int>, task: Task, depth: int, agent: string, tokens: int,
                     subCalls: seq<Call>): (c: Call)
    requires depth <= cfg.maxDepth
    decreases cfg.maxDepth + 1 - depth, 0, 0
  {
    var escalation := o(path).escalation;
    if cfg.enableEscalation && escalation.CircuitBroken? then
      var r := TaskResult(task.id, agent, Escalated);
      Call(path, depth, Some(agent), ONE_ESCALATION.(tokens := tokens), subCalls, Some(r), None, Returned(r))
    else if cfg.enableEscalation && escalation.EscalateTo? then
      var next := CallOf(cfg, o, path + [ESCALATION], EscalatedTask(task, escalation.agent), depth + 1);
      Call(path, depth, Some(agent), ONE_ESCALATION.(tokens := tokens), subCalls, None, Some(next), next.reply)
    else
      var r := TaskResult(task.id, agent, Failure);
      Call(path, depth, Some(agent), ONE_FAILURE.(tokens := tokens), subCalls, Some(r), None, Returned(r))
  }

  // ---- What a tree of calls does to the executor ----

  function Sum(c: Call): Metrics {
    Plus(Plus(c.own, SumAll(c.subCalls)), if c.escalatedTo.Some? then Sum(c.escalatedTo.value) else NOTHING)
  }

  function SumAll(cs: seq<Call>): Metrics {
    if cs == [] then NOTHING else Plus(Sum(cs[0]), SumAll(cs[1..]))
  }

  function SetStatus(statuses: map<string, AgentStatus>, agent: Option<string>, status: AgentStatus): map<string, AgentStatus> {
    if agent.Some? && agent.value in statuses then statuses[agent.value := status] else statuses
  }

  /** Statuses after a call: its agent is busy during the sub-tasks, and released before it escalates. */
  function After(statuses: map<string, AgentStatus>, c: Call): map<string, AgentStatus>
    decreases c, 0
  {
    var released := SetStatus(AfterAll(SetStatus(statuses, c.agent, Busy), c.subCalls), c.agent, Idle);
    if c.escalatedTo.Some? then After(released, c.escalatedTo.value) else released
  }

  function AfterAll(statuses: map<string, AgentStatus>, cs: seq<Call>): map<string, AgentStatus>
    decreases cs
  {
    if cs == [] then statuses else AfterAll(After(statuses, cs[0]), cs[1..])
  }

  /** The results that a call records, in order. */
  function Records(c: Call): seq<TaskResult> {
    RecordsAll(c.subCalls)
    + (if c.recorded.Some? then [c.recorded.value] else [])
    + (if c.escalatedTo.Some? then Records(c.escalatedTo.value) else [])
  }

  function RecordsAll(cs: seq<Call>): seq<TaskResult> {
    if cs == [] then [] else Records(cs[0]) + RecordsAll(cs[1..])
  }

  /** Pushing onto the history: past 1000 results, the last 500 are kept. */
  function Push(history: seq<TaskResult>, r: TaskResult): seq<TaskResult> {
    var all := history + [r];
    if |all| > 1000 then all[|all| - 500..] else all
  }

  function PushAll(history: seq<TaskResult>, rs: seq<TaskResult>): seq<TaskResult>
    decreases |rs|
  {
    if rs == [] then history else PushAll(Push(history, rs[0]), rs[1..])
  }

  /** Metrics, statuses and history together. */
  datatype State = State(metrics: Metrics, statuses: map<string, AgentStatus>, history: seq<TaskResult>)

  function Effect(s: State, c: Call): State {
    State(Plus(s.metrics, Sum(c)), After(s.statuses, c), PushAll(s.history, Records(c)))
  }

  function EffectAll(s: State, cs: seq<Call>): State {
    State(Plus(s.metrics, SumAll(cs)), AfterAll(s.statuses, cs), PushAll(s.history, RecordsAll(cs)))
  }

  // The effect of a call as the steps of the method: up to its sub-tasks, its release, and the rest.

  function Opened(s: State, agent: Option<string>, tokens: int): State {
    State(Plus(s.metrics, ONE_TASK.(tokens := tokens)), SetStatus(s.statuses, agent, Busy), s.history)
  }

  function Released(s: State, agent: Option<string>): State {
    s.(statuses := SetStatus(s.statuses, agent, Idle))
  }

  function Outcome(own: Metrics): Metrics {
    Metrics(0, own.successful, own.failed, own.escalated, 0)
  }

  function Finished(s: State, c: Call): State {
    var s' := State(Plus(s.metrics, Outcome(c.own)), s.statuses, if c.recorded.Some? then Push(s.history, c.recorded.value) else s.history);
    if c.escalatedTo.Some? then Effect(s', c.escalatedTo.value) else s'
  }

  lemma {:induction false} EffectInSteps(s: State, c: Call)
    requires c.own.total == 1
    ensures Effect(s, c) == Finished(Released(EffectAll(Opened(s, c.agent, c.own.tokens), c.subCalls), c.agent), c)
  {
    hide Push, SetStatus, RecordsAll, SumAll, AfterAll;
    var subs := RecordsAll(c.subCalls);
    var own := if c.recorded.Some? then [c.recorded.value] else [];
    var next := if c.escalatedTo.Some? then Records(c.escalatedTo.value) else [];
    PushAllConcat(s.history, subs + own, next);
    PushAllConcat(s.history, subs, own);
    PushAllOne(PushAll(s.history, subs), own);
    PushAllOne(PushAll(s.history, subs + own), []);
  }

  lemma {:induction false} PushAllOne(history: seq<TaskResult>, rs: seq<TaskResult>)
    requires |rs| <= 1
    ensures PushAll(history, rs) == if rs == [] then history else Push(history, rs[0])
  {
    hide Push;
  }

  lemma {:induction false} PushAllConcat(history: seq<TaskResult>, a: seq<TaskResult>, b: seq<TaskResult>)
    ensures PushAll(history, a + b) == PushAll(PushAll(history, a), b)
    decreases |a|
  {
    hide Push;
    if a == [] {
      assert a + b == b;
    } else {
      assert (a + b)[1..] == a[1..] + b;
      PushAllConcat(Push(history, a[0]), a[1..], b);
    }
  }

  lemma {:induction false} EffectAllCons(s: State, c: Call, cs: seq<Call>)
    ensures EffectAll(s, [c] + cs) == EffectAll(Effect(s, c), cs)
  {
    hide Push, Sum, After, Records;
    assert ([c] + cs)[1..] == cs;
    PushAllConcat(s.history, Records(c), RecordsAll(cs));
  }

  // ---- The executor object ----

  class AgentExecutor {
    const cfg: Config
    var metrics: Metrics
    var statuses: map<string, AgentStatus>
    var taskHistory: seq<TaskResult>

    ghost function Now(): State
      reads this
    {
      State(metrics, statuses, taskHistory)
    }

    constructor (cfg: Config, statuses: map<string, AgentStatus>)
      ensures this.cfg == cfg && Now() == State(NOTHING, statuses, [])
    {
      this.cfg := cfg;
      metrics := NOTHING;
      this.statuses := statuses;
      taskHistory := [];
    }

    /** The agent's status, where the registry knows the agent. */
    method UpdateStatus(agent: string, status: AgentStatus)
      modifies `statuses
      ensures statuses == SetStatus(old(statuses), Some(agent), status)
    {
      if agent in statuses {
        statuses := statuses[agent := status];
      }
    }

    method RecordResult(r: TaskResult)
      modifies `taskHistory
      ensures taskHistory == Push(old(taskHistory), r)
    {
      taskHistory := taskHistory + [r];
      if |taskHistory| > 1000 {
        taskHistory := taskHistory[|taskHistory| - 500..];
      }
    }

    method SuccessResult(requestId: string, agent: string) returns (r: TaskResult)
      modifies `metrics
      ensures r == TaskResult(requestId, agent, Success) && metrics == Plus(old(metrics), Outcome(ONE_SUCCESS))
    {
      metrics := metrics.(successful := metrics.successful + 1);
      r := TaskResult(requestId, agent, Success);
    }

    method FailResult(requestId: string, agent: string) returns (r: TaskResult)
      modifies `metrics
      ensures r == TaskResult(requestId, agent, Failure) && metrics == Plus(old(metrics), Outcome(ONE_FAILURE))
    {
      metrics := metrics.(failed := metrics.failed + 1);
      r := TaskResult(requestId, agent, Failure);
    }

    /** Execute a task at a depth: what it does is what the tree of its calls says. */
    method ExecuteInternal(o: Oracle, path: seq<int>, task: Task, depth: int) returns (reply: Reply)
      modifies this
      ensures var c := CallOf(cfg, o, path, task, depth); reply == c.reply && Now() == Effect(old(Now()), c)
      decreases if depth > cfg.maxDepth then 0 else cfg.maxDepth + 1 - depth, 2, 0
    {
      hide Effect, EffectAll, SetStatus, Push, WorkOf;
      ghost var c := CallOf(cfg, o, path, task, depth);
      ghost var before := Now();
      CallCountsOne(cfg, o, path, task, depth);
      EffectInSteps(before, c);
      EffectAllNone(Opened(before, c.agent, 0));
      metrics := metrics.(total := metrics.total + 1);
      if depth > cfg.maxDepth {
        var r := FailResult(task.id, "system");
        NoAgentMarked(before.statuses);
        return Returned(r);
      }
      match o(path).resolution
      case ResolutionThrows =>
        NoAgentMarked(before.statuses);
        reply := Thrown;
      case NoAgent =>
        var r := FailResult(task.id, "unknown");
        NoAgentMarked(before.statuses);
        reply := Returned(r);
      case Found(agent) =>
        UpdateStatus(agent, Busy);
        if o(path).pastDeadline {
          UpdateStatus(agent, Idle);
          var r := FailResult(task.id, agent);
          return Returned(r);
        }
        reply := DoWork(o, path, task, depth, agent, before);
    }

    /** The rest of a call, its agent being busy. */
    method DoWork(o: Oracle, path: seq<int>, task: Task, depth: int, agent: string, ghost before: State) returns (reply: Reply)
      requires depth <= cfg.maxDepth && Now() == Opened(before, Some(agent), 0)
      modifies this
      ensures var c := WorkOf(cfg, o, path, task, depth, agent); reply == c.reply && Now() == Effect(before, c)
      decreases cfg.maxDepth + 1 - depth, 1, 0
    {
      hide Effect, EffectAll, SetStatus, Push, CallOf, SubCalls, Recovered;
      ghost var c := WorkOf(cfg, o, path, task, depth, agent);
      WorkCountsOne(cfg, o, path, task, depth, agent);
      EffectInSteps(before, c);
      EffectAllNone(Opened(before, Some(agent), 0));
      RecoveredParts(cfg, o, path, task, depth, agent);
      match o(path).work
      case TransportReturns(r) =>
        UpdateStatus(agent, Idle);
        RecordResult(r);
        if r.status == Success {
          metrics := metrics.(successful := metrics.successful + 1);
        } else {
          metrics := metrics.(failed := metrics.failed + 1);
        }
        reply := Returned(r);
      case TransportThrows =>
        UpdateStatus(agent, Idle);
        reply := Recover(o, path, task, depth, agent, 0, []);
      case ModelThrows =>
        UpdateStatus(agent, Idle);
        reply := Recover(o, path, task, depth, agent, 0, []);
      case ModelReturns(tokens, subTasks) =>
        metrics := metrics.(tokens := metrics.tokens + tokens);
        ghost var subCalls := if MayRecurse(cfg, depth, subTasks) then SubCalls(cfg, o, path, subTasks, 0, depth) else [];
        EffectAllNone(Opened(before, Some(agent), tokens));
        assert Now() == Opened(before, Some(agent), tokens);
        var threw := false;
        if MayRecurse(cfg, depth, subTasks) {
          threw := ExecuteSubTasks(o, path, subTasks, depth);
        }
        assert Now() == EffectAll(Opened(before, Some(agent), tokens), subCalls);
        UpdateStatus(agent, Idle);
        assert Now() == Released(EffectAll(Opened(before, Some(agent), tokens), subCalls), Some(agent));
        if threw {
          reply := Recover(o, path, task, depth, agent, tokens, subCalls);
        } else {
          var r := SuccessResult(task.id, agent);
          RecordResult(r);
          reply := Returned(r);
        }
    }

    /** The sub-tasks in order, up to the first that throws. */
    method ExecuteSubTasks(o: Oracle, path: seq<int>, subTasks: seq<Task>, depth: int) returns (threw: bool)
      requires depth < cfg.maxDepth
      modifies this
      ensures var cs := SubCalls(cfg, o, path, subTasks, 0, depth);
        && Now() == EffectAll(old(Now()), cs)
        && threw == (cs != [] && cs[|cs| - 1].reply.Thrown?)
      decreases cfg.maxDepth + 1 - depth, 0, |subTasks| + 1
    {
      hide Effect, EffectAll, CallOf;
      ghost var all := SubCalls(cfg, o, path, subTasks, 0, depth);
      for i := 0 to |subTasks|
        invariant EffectAll(Now(), SubCalls(cfg, o, path, subTasks, i, depth)) == EffectAll(old(Now()), all)
        invariant EndsThrown(SubCalls(cfg, o, path, subTasks, i, depth)) == EndsThrown(all)
      {
        ghost var s := Now();
        ghost var c := CallOf(cfg, o, path + [i], subTasks[i], depth + 1);
        var reply := ExecuteInternal(o, path + [i], subTasks[i], depth + 1);
        if reply.Thrown? {
          EffectAllCons(s, c, []);
          EffectAllNone(Now());
          assert [c] + [] == [c];
          return true;
        }
        EffectAllCons(s, c, SubCalls(cfg, o, path, subTasks, i + 1, depth));
        EndsThrownCons(c, SubCalls(cfg, o, path, subTasks, i + 1, depth));
      }
      EffectAllNone(Now());
      threw := false;
    }

    /** After a failure: escalate, or give up. */
    method Recover(o: Oracle, path: seq<int>, task: Task, depth: int, agent: string, ghost tokens: int, ghost subCalls: seq<Call>)
      returns (reply: Reply)
      requires depth <= cfg.maxDepth
      modifies this
      ensures var c := Recovered(cfg, o, path, task, depth, agent, tokens, subCalls);
        reply == c.reply && Now() == Finished(old(Now()), c)
      decreases cfg.maxDepth + 1 - depth, 0, 1
    {
      hide Effect, Push, CallOf;
      if cfg.enableEscalation {
        reply := HandleEscalation(o, path, task, depth, agent, tokens, subCalls);
      } else {
        var r := FailResult(task.id, agent);
        RecordResult(r);
        reply := Returned(r);
      }
    }

    method HandleEscalation(o: Oracle, path: seq<int>, task: Task, depth: int, agent: string, ghost tokens: int, ghost subCalls: seq<Call>)
      returns (reply: Reply)
      requires depth <= cfg.maxDepth && cfg.enableEscalation
      modifies this
      ensures var c := Recovered(cfg, o, path, task, depth, agent, tokens, subCalls);
        reply == c.reply && Now() == Finished(old(Now()), c)
      decreases cfg.maxDepth + 1 - depth, 0, 0
    {
      hide Effect, Push, CallOf;
      match o(path).escalation
      case CircuitBroken =>
        metrics := metrics.(escalated := metrics.escalated + 1);
        var r := TaskResult(task.id, agent, Escalated);
        RecordResult(r);
        reply := Returned(r);
      case EscalateTo(target) =>
        metrics := metrics.(escalated := metrics.escalated + 1);
        reply := ExecuteInternal(o, path + [ESCALATION], EscalatedTask(task, target), depth + 1);
      case NoTarget =>
        var r := FailResult(task.id, agent);
        RecordResult(r);
        reply := Returned(r);
    }
  }

  lemma {:induction false} RecoveredParts(cfg: Config, o: Oracle, path: seq<int>, task: Task, depth: int, agent: string)
    requires depth <= cfg.maxDepth
    ensures forall tokens, subCalls :: var c := Recovered(cfg, o, path, task, depth, agent, tokens, subCalls);
      c.agent == Some(agent) && c.own.tokens == tokens && c.subCalls == subCalls
  {
    hide CallOf;
  }

  predicate EndsThrown(cs: seq<Call>) {
    cs != [] && cs[|cs| - 1].reply.Thrown?
  }

  lemma EndsThrownCons(c: Call, cs: seq<Call>)
    requires !c.reply.Thrown?
    ensures EndsThrown([c] + cs) == EndsThrown(cs)
  {
  }

  lemma EffectAllNone(s: State)
    ensures EffectAll(s, []) == s
  {
  }

  lemma NoAgentMarked(statuses: map<string, AgentStatus>)
    ensures SetStatus(statuses, None, Busy) == statuses && SetStatus(statuses, None, Idle) == statuses
  {
  }

  lemma {:induction false} CallCountsOne(cfg: Config, o: Oracle, path: seq<int>, task: Task, depth: int)
    ensures CallOf(cfg, o, path, task, depth).own.total == 1
  {
    hide WorkOf;
    if depth <= cfg.maxDepth && o(path).resolution.Found? {
      WorkCountsOne(cfg, o, path, task, depth, o(path).resolution.agent);
    }
  }

  lemma {:induction false} WorkCountsOne(cfg: Config, o: Oracle, path: seq<int>, task: Task, depth: int, agent: string)
    requires depth <= cfg.maxDepth
    ensures WorkOf(cfg, o, path, task, depth, agent).own.total == 1
  {
    hide CallOf, SubCalls;
  }
}
