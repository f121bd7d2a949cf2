/** What one call does, by the answers that it gets: which sub-tasks it executes, and how it ends. */
module ExecutorCalls {
  import opened Options
  import opened Executor

  /** The model is asked, and answers with sub-tasks. */
  predicate ModelAsks(cfg: Config, o: Oracle, path: seq<int>, depth: int, agent: string, tokens: int, subTasks: seq<Task>) {
    && depth <= cfg.maxDepth
    && o(path).resolution == Found(agent) && !o(path).pastDeadline && o(path).work == ModelReturns(tokens, subTasks)
  }

  /** Executing a sub-task, one level deeper. */
  function SubCall(cfg: Config, o: Oracle, path: seq<int>, subTasks: seq<Task>, i: nat, depth: int): Call
    requires i < |subTasks|
  {
    CallOf(cfg, o, path + [i], subTasks[i], depth + 1)
  }

  ghost predicate NoneThrows(cfg: Config, o: Oracle, path: seq<int>, subTasks: seq<Task>, k: nat, i: int, depth: int)
    requires i <= |subTasks|
  {
    forall j :: k <= j < i ==> !SubCall(cfg, o, path, subTasks, j, depth).reply.Thrown?
  }

  /** Each sub-task that the model asks for is executed, in order and one level deeper, unless an
      earlier one throws; none is when sub-tasks are disabled or the limit is reached. */
  lemma {:induction false} SubTasksAreExecuted(cfg: Config, o: Oracle, path: seq<int>, task: Task, depth: int,
                                               agent: string, tokens: int, subTasks: seq<Task>)
    requires ModelAsks(cfg, o, path, depth, agent, tokens, subTasks)
    ensures var subCalls := CallOf(cfg, o, path, task, depth).subCalls;
      if cfg.enableSubTasks && depth < cfg.maxDepth then
        && |subCalls| <= |subTasks|
        && (forall i :: 0 <= i < |subCalls| ==> subCalls[i] == SubCall(cfg, o, path, subTasks, i, depth))
        && (forall i :: 0 <= i < |subTasks| ==> (i < |subCalls| <==> NoneThrows(cfg, o, path, subTasks, 0, i, depth)))
      else subCalls == []
  {
    hide SubCalls, Recovered, SubCall, NoneThrows;
    RecoveredParts(cfg, o, path, task, depth, agent);
    WorkIs(cfg, o, path, task, depth, agent);
    if cfg.enableSubTasks && depth < cfg.maxDepth {
      SubCallsFrom(cfg, o, path, subTasks, 0, depth);
      ExecutedExactly(cfg, o, path, subTasks, depth);
      if subTasks == [] {
        NoSubTasks(cfg, o, path, depth);
      }
    }
  }

  lemma NoSubTasks(cfg: Config, o: Oracle, path: seq<int>, depth: int)
    requires depth < cfg.maxDepth
    ensures SubCalls(cfg, o, path, [], 0, depth) == []
  {
  }

  /** The calls from the `k`-th on: none but the last throws, and if it does not, there is one for each
      sub-task. */
  lemma {:induction false} SubCallsFrom(cfg: Config, o: Oracle, path: seq<int>, subTasks: seq<Task>, k: nat, depth: int)
    requires k <= |subTasks| && depth < cfg.maxDepth
    ensures var cs := SubCalls(cfg, o, path, subTasks, k, depth);
      && k + |cs| <= |subTasks|
      && (forall i :: 0 <= i < |cs| ==> cs[i] == SubCall(cfg, o, path, subTasks, k + i, depth))
      && NoneThrows(cfg, o, path, subTasks, k, k + |cs| - 1, depth)
      && (k + |cs| < |subTasks| ==> cs != [] && cs[|cs| - 1].reply.Thrown?)
    decreases |subTasks| - k
  {
    hide CallOf;
    if k < |subTasks| {
      SubCallsFrom(cfg, o, path, subTasks, k + 1, depth);
    }
  }

  lemma {:induction false} ExecutedExactly(cfg: Config, o: Oracle, path: seq<int>, subTasks: seq<Task>, depth: int)
    requires depth < cfg.maxDepth
    ensures forall i :: 0 <= i < |subTasks| ==>
      (i < |SubCalls(cfg, o, path, subTasks, 0, depth)| <==> NoneThrows(cfg, o, path, subTasks, 0, i, depth))
  {
    hide SubCalls, SubCall;
    SubCallsFrom(cfg, o, path, subTasks, 0, depth);
    var n := |SubCalls(cfg, o, path, subTasks, 0, depth)|;
    forall i | 0 <= i < |subTasks|
      ensures i < n <==> NoneThrows(cfg, o, path, subTasks, 0, i, depth)
    {
      if n <= i {
        assert SubCall(cfg, o, path, subTasks, n - 1, depth).reply.Thrown?;
      }
    }
  }

  // ---- How a call ends ----

  /** What a call without sub-tasks and without escalation comes to. */
  ghost predicate EndsWith(c: Call, counted: Metrics, result: TaskResult, recorded: bool) {
    && c.own == counted && c.reply == Returned(result) && c.escalatedTo.None?
    && c.recorded == (if recorded then Some(result) else None)
  }

  /** A call that never comes to its work: past the limit, its target unknown, or too late. It fails
      without being recorded; where resolving throws, so does the call. */
  lemma NeverWorks(cfg: Config, o: Oracle, path: seq<int>, task: Task, depth: int)
    ensures var c, a := CallOf(cfg, o, path, task, depth), o(path);
      && (depth > cfg.maxDepth ==>
            c.agent == None && c.subCalls == [] && EndsWith(c, Metrics(1, 0, 1, 0, 0), TaskResult(task.id, "system", Failure), false))
      && (depth <= cfg.maxDepth && a.resolution.ResolutionThrows? ==>
            && c.agent == None && c.subCalls == [] && c.own == Metrics(1, 0, 0, 0, 0)
            && c.recorded == None && c.escalatedTo == None && c.reply.Thrown?)
      && (depth <= cfg.maxDepth && a.resolution.NoAgent? ==>
            c.agent == None && c.subCalls == [] && EndsWith(c, Metrics(1, 0, 1, 0, 0), TaskResult(task.id, "unknown", Failure), false))
      && (depth <= cfg.maxDepth && a.resolution.Found? && a.pastDeadline ==>
            && c.agent == Some(a.resolution.agent) && c.subCalls == []
            && EndsWith(c, Metrics(1, 0, 1, 0, 0), TaskResult(task.id, a.resolution.agent, Failure), false))
  {
    hide WorkOf;
  }

  /** The work fails: the transport or the model throws, or a sub-task that is executed does. */
  ghost predicate Fails(cfg: Config, o: Oracle, path: seq<int>, depth: int) {
    match o(path).work
    case TransportReturns(_) => false
    case TransportThrows => true
    case ModelThrows => true
    case ModelReturns(_, subTasks) =>
      cfg.enableSubTasks && depth < cfg.maxDepth
      && exists i: nat :: i < |subTasks| && SubCall(cfg, o, path, subTasks, i, depth).reply.Thrown?
  }

  /** Work that does not fail: a transport's result is the reply, and counts by its status; a model's
      answer is a success of the agent. Both are recorded. */
  lemma {:induction false} WorkDone(cfg: Config, o: Oracle, path: seq<int>, task: Task, depth: int, agent: string)
    requires depth <= cfg.maxDepth && o(path).resolution == Found(agent) && !o(path).pastDeadline
    requires !Fails(cfg, o, path, depth)
    ensures var c := CallOf(cfg, o, path, task, depth);
      && c.agent == Some(agent)
      && match o(path).work
         case TransportReturns(r) =>
           c.subCalls == [] && EndsWith(c, if r.status == Success then Metrics(1, 1, 0, 0, 0) else Metrics(1, 0, 1, 0, 0), r, true)
         case ModelReturns(tokens, _) =>
           EndsWith(c, Metrics(1, 1, 0, 0, tokens), TaskResult(task.id, agent, Success), true)
         case _ => false
  {
    hide SubCalls, Recovered, SubCall, NoneThrows;
    if o(path).work.ModelReturns? && cfg.enableSubTasks && depth < cfg.maxDepth {
      var subTasks := o(path).work.subTasks;
      SubCallsFrom(cfg, o, path, subTasks, 0, depth);
    }
  }

  function TokensOf(work: Work): int {
    if work.ModelReturns? then work.tokens else 0
  }

  /** Work that fails: with escalation enabled, an open circuit ends the task as escalated, and a
      target gets the same task, one level deeper and one priority higher up to 5, and answers in
      the agent's place; otherwise the agent has failed. */
  lemma {:induction false} WorkFailed(cfg: Config, o: Oracle, path: seq<int>, task: Task, depth: int, agent: string)
    requires depth <= cfg.maxDepth && o(path).resolution == Found(agent) && !o(path).pastDeadline
    requires Fails(cfg, o, path, depth)
    ensures var c, t := CallOf(cfg, o, path, task, depth), TokensOf(o(path).work);
      && c.agent == Some(agent)
      && (o(path).work.ModelReturns? || c.subCalls == [])
      && if !cfg.enableEscalation || o(path).escalation.NoTarget? then
           EndsWith(c, Metrics(1, 0, 1, 0, t), TaskResult(task.id, agent, Failure), true)
         else match o(path).escalation
           case CircuitBroken => EndsWith(c, Metrics(1, 0, 0, 1, t), TaskResult(task.id, agent, Escalated), true)
           case EscalateTo(target) =>
             && c.own == Metrics(1, 0, 0, 1, t) && c.recorded == None
             && c.escalatedTo == Some(CallOf(cfg, o, path + [-1], Task(task.id, target, if task.priority < 5 then task.priority + 1 else 5), depth + 1))
             && c.reply == c.escalatedTo.value.reply
  {
    hide SubCalls, CallOf, SubCall;
    WorkIs(cfg, o, path, task, depth, agent);
    if o(path).work.ModelReturns? {
      LastThrew(cfg, o, path, o(path).work.subTasks, depth);
    }
  }

  lemma WorkIs(cfg: Config, o: Oracle, path: seq<int>, task: Task, depth: int, agent: string)
    requires depth <= cfg.maxDepth && o(path).resolution == Found(agent) && !o(path).pastDeadline
    ensures CallOf(cfg, o, path, task, depth) == WorkOf(cfg, o, path, task, depth, agent)
  {
    hide WorkOf;
  }

  /** Where some sub-task throws, the first that does is the last one executed. */
  lemma {:induction false} LastThrew(cfg: Config, o: Oracle, path: seq<int>, subTasks: seq<Task>, depth: int)
    requires depth < cfg.maxDepth
    requires exists i: nat :: i < |subTasks| && SubCall(cfg, o, path, subTasks, i, depth).reply.Thrown?
    ensures EndsThrown(SubCalls(cfg, o, path, subTasks, 0, depth))
  {
    hide SubCalls, SubCall;
    SubCallsFrom(cfg, o, path, subTasks, 0, depth);
    var cs := SubCalls(cfg, o, path, subTasks, 0, depth);
    var i: nat :| i < |subTasks| && SubCall(cfg, o, path, subTasks, i, depth).reply.Thrown?;
    assert |cs| == |subTasks| ==> i == |cs| - 1;
  }
}
