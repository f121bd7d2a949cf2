/** Laws of the executor over every tree of calls: counts add up, depth is bounded, agents are let go. */
module ExecutorLaws {
  import opened Options
  import opened AgentRegistry
  import opened Executor

  // ---- What every call looks like ----

  /** Resolving the target threw: the task was counted, and nothing else was. */
  predicate Threw(c: Call) {
    c.agent.None? && c.reply.Thrown?
  }

  predicate IsSuccess(r: Option<TaskResult>) {
    r.Some? && r.value.status == Success
  }

  /** Each call counts itself once and its outcome once, and records each success. */
  predicate Accounted(c: Call) {
    && c.own.total == 1
    && c.own.successful + c.own.failed + c.own.escalated == (if Threw(c) then 0 else 1)
    && c.own.successful == (if IsSuccess(c.recorded) then 1 else 0)
  }

  /** Sub-tasks and escalations are one level deeper, and a call past the limit makes none. */
  predicate Levelled(cfg: Config, c: Call) {
    && (c.depth > cfg.maxDepth ==> c.subCalls == [] && c.escalatedTo.None? && c.agent.None?)
    && (c.subCalls != [] ==> c.depth < cfg.maxDepth)
    && (forall i :: 0 <= i < |c.subCalls| ==> c.subCalls[i].depth == c.depth + 1)
    && (c.escalatedTo.Some? ==> c.escalatedTo.value.depth == c.depth + 1)
  }

  predicate TreeOk(cfg: Config, c: Call) {
    && Accounted(c) && Levelled(cfg, c)
    && TreesOk(cfg, c.subCalls)
    && (c.escalatedTo.Some? ==> TreeOk(cfg, c.escalatedTo.value))
  }

  predicate TreesOk(cfg: Config, cs: seq<Call>) {
    cs == [] || (TreeOk(cfg, cs[0]) && TreesOk(cfg, cs[1..]))
  }

  lemma {:induction false} CallOfOk(cfg: Config, o: Oracle, path: seq<int>, task: Task, depth: int)
    ensures var c := CallOf(cfg, o, path, task, depth); TreeOk(cfg, c) && c.depth == depth
    decreases if depth > cfg.maxDepth then 0 else cfg.maxDepth + 1 - depth, 2, 0
  {
    hide WorkOf;
    if depth <= cfg.maxDepth && o(path).resolution.Found? && !o(path).pastDeadline {
      WorkOfOk(cfg, o, path, task, depth, o(path).resolution.agent);
    }
  }

  lemma {:induction false} WorkOfOk(cfg: Config, o: Oracle, path: seq<int>, task: Task, depth: int, agent: string)
    requires depth <= cfg.maxDepth
    ensures var c := WorkOf(cfg, o, path, task, depth, agent); TreeOk(cfg, c) && c.depth == depth
    decreases cfg.maxDepth + 1 - depth, 1, 0
  {
    hide Recovered, SubCalls, CallOf;
    RecoveredOk(cfg, o, path, task, depth, agent, 0, []);
    match o(path).work {
      case ModelReturns(tokens, subTasks) =>
        if MayRecurse(cfg, depth, subTasks) {
          SubCallsOk(cfg, o, path, subTasks, 0, depth);
          RecoveredOk(cfg, o, path, task, depth, agent, tokens, SubCalls(cfg, o, path, subTasks, 0, depth));
        }
      case _ =>
    }
  }

  lemma {:induction false} SubCallsOk(cfg: Config, o: Oracle, path: seq<int>, tasks: seq<Task>, i: nat, depth: int)
    requires i <= |tasks| && depth < cfg.maxDepth
    ensures var cs := SubCalls(cfg, o, path, tasks, i, depth);
      TreesOk(cfg, cs) && forall j :: 0 <= j < |cs| ==> cs[j].depth == depth + 1
    decreases cfg.maxDepth + 1 - depth, 0, |tasks| - i
  {
    hide CallOf, TreeOk;
    if i < |tasks| {
      CallOfOk(cfg, o, path + [i], tasks[i], depth + 1);
      SubCallsOk(cfg, o, path, tasks, i + 1, depth);
      var c, more := CallOf(cfg, o, path + [i], tasks[i], depth + 1), SubCalls(cfg, o, path, tasks, i + 1, depth);
      assert ([c] + more)[1..] == more;
      assert [c][1..] == [];
    }
  }

  lemma {:induction false} RecoveredOk(cfg: Config, o: Oracle, path: seq<int>, task: Task, depth: int, agent: string, tokens: int, subCalls: seq<Call>)
    requires depth <= cfg.maxDepth && TreesOk(cfg, subCalls) && (subCalls != [] ==> depth < cfg.maxDepth)
    requires forall j :: 0 <= j < |subCalls| ==> subCalls[j].depth == depth + 1
    ensures var c := Recovered(cfg, o, path, task, depth, agent, tokens, subCalls); TreeOk(cfg, c) && c.depth == depth
    decreases cfg.maxDepth + 1 - depth, 0, 0
  {
    hide CallOf, TreesOk;
    if cfg.enableEscalation && o(path).escalation.EscalateTo? {
      CallOfOk(cfg, o, path + [ESCALATION], EscalatedTask(task, o(path).escalation.agent), depth + 1);
    }
  }

  // ---- Where the answers come from ----

  /** The ways to the calls of a tree that resolved a target. */
  function Paths(cfg: Config, c: Call): set<seq<int>> {
    (if c.depth <= cfg.maxDepth then {c.path} else {}) + PathsAll(cfg, c.subCalls)
    + if c.escalatedTo.Some? then Paths(cfg, c.escalatedTo.value) else {}
  }

  function PathsAll(cfg: Config, cs: seq<Call>): set<seq<int>> {
    if cs == [] then {} else Paths(cfg, cs[0]) + PathsAll(cfg, cs[1..])
  }

  predicate Throwing(o: Oracle, path: seq<int>) {
    o(path).resolution.ResolutionThrows?
  }

  function AgentFound(r: Resolution): Option<string> {
    if r.Found? then Some(r.agent) else None
  }

  /** Each call's agent, or its throwing, is what the oracle answered. */
  predicate Answered(cfg: Config, o: Oracle, c: Call) {
    && (if c.depth > cfg.maxDepth then c.agent.None? && !Threw(c)
        else Threw(c) == Throwing(o, c.path) && c.agent == AgentFound(o(c.path).resolution))
    && AllAnswered(cfg, o, c.subCalls)
    && (c.escalatedTo.Some? ==> Answered(cfg, o, c.escalatedTo.value))
  }

  predicate AllAnswered(cfg: Config, o: Oracle, cs: seq<Call>) {
    cs == [] || (Answered(cfg, o, cs[0]) && AllAnswered(cfg, o, cs[1..]))
  }

  lemma {:induction false} CallOfAnswered(cfg: Config, o: Oracle, path: seq<int>, task: Task, depth: int)
    ensures var c := CallOf(cfg, o, path, task, depth);
      Answered(cfg, o, c) && c.path == path && c.depth == depth
    decreases if depth > cfg.maxDepth then 0 else cfg.maxDepth + 1 - depth, 2, 0
  {
    hide WorkOf;
    if depth <= cfg.maxDepth && o(path).resolution.Found? && !o(path).pastDeadline {
      WorkOfAnswered(cfg, o, path, task, depth, o(path).resolution.agent);
    }
  }

  lemma {:induction false} WorkOfAnswered(cfg: Config, o: Oracle, path: seq<int>, task: Task, depth: int, agent: string)
    requires depth <= cfg.maxDepth && o(path).resolution == Found(agent)
    ensures var c := WorkOf(cfg, o, path, task, depth, agent);
      Answered(cfg, o, c) && c.path == path && c.depth == depth
    decreases cfg.maxDepth + 1 - depth, 1, 0
  {
    hide Recovered, SubCalls, CallOf;
    RecoveredAnswered(cfg, o, path, task, depth, agent, 0, []);
    match o(path).work {
      case ModelReturns(tokens, subTasks) =>
        if MayRecurse(cfg, depth, subTasks) {
          SubCallsAnswered(cfg, o, path, subTasks, 0, depth);
          RecoveredAnswered(cfg, o, path, task, depth, agent, tokens, SubCalls(cfg, o, path, subTasks, 0, depth));
        }
      case _ =>
    }
  }

  lemma {:induction false} SubCallsAnswered(cfg: Config, o: Oracle, path: seq<int>, tasks: seq<Task>, i: nat, depth: int)
    requires i <= |tasks| && depth < cfg.maxDepth
    ensures AllAnswered(cfg, o, SubCalls(cfg, o, path, tasks, i, depth))
    decreases cfg.maxDepth + 1 - depth, 0, |tasks| - i
  {
    hide CallOf, Answered;
    if i == |tasks| {
    } else {
      CallOfAnswered(cfg, o, path + [i], tasks[i], depth + 1);
      SubCallsAnswered(cfg, o, path, tasks, i + 1, depth);
      var c, more := CallOf(cfg, o, path + [i], tasks[i], depth + 1), SubCalls(cfg, o, path, tasks, i + 1, depth);
      assert ([c] + more)[1..] == more;
      assert [c][1..] == [];
    }
  }

  lemma {:induction false} RecoveredAnswered(cfg: Config, o: Oracle, path: seq<int>, task: Task, depth: int, agent: string, tokens: int, subCalls: seq<Call>)
    requires depth <= cfg.maxDepth && AllAnswered(cfg, o, subCalls) && o(path).resolution == Found(agent)
    ensures var c := Recovered(cfg, o, path, task, depth, agent, tokens, subCalls);
      Answered(cfg, o, c) && c.path == path && c.depth == depth
    decreases cfg.maxDepth + 1 - depth, 0, 0
  {
    hide CallOf, AllAnswered;
    if cfg.enableEscalation && o(path).escalation.EscalateTo? {
      CallOfAnswered(cfg, o, path + [ESCALATION], EscalatedTask(task, o(path).escalation.agent), depth + 1);
    }
  }

  // ---- Counting ----

  function Calls(c: Call): nat {
    1 + CallsAll(c.subCalls) + if c.escalatedTo.Some? then Calls(c.escalatedTo.value) else 0
  }

  function CallsAll(cs: seq<Call>): nat {
    if cs == [] then 0 else Calls(cs[0]) + CallsAll(cs[1..])
  }

  function Throws(c: Call): nat {
    (if Threw(c) then 1 else 0) + ThrowsAll(c.subCalls) + if c.escalatedTo.Some? then Throws(c.escalatedTo.value) else 0
  }

  function ThrowsAll(cs: seq<Call>): nat {
    if cs == [] then 0 else Throws(cs[0]) + ThrowsAll(cs[1..])
  }

  predicate Adds(s: Metrics, calls: nat, throws: nat) {
    s.total == calls && s.total == s.successful + s.failed + s.escalated + throws
  }

  lemma AddsPlus(a: Metrics, x: nat, y: nat, b: Metrics, u: nat, v: nat)
    requires Adds(a, x, y) && Adds(b, u, v)
    ensures Adds(Plus(a, b), x + u, y + v)
  {
  }

  /** What a call and its sub-tasks count for, and the call it escalated to. */
  lemma {:induction false} TreeUnfolds(c: Call)
    ensures var here := Plus(c.own, SumAll(c.subCalls));
      var calls := 1 + CallsAll(c.subCalls);
      var throws := (if Threw(c) then 1 else 0) + ThrowsAll(c.subCalls);
      if c.escalatedTo.Some? then
        var next := c.escalatedTo.value;
        Sum(c) == Plus(here, Sum(next)) && Calls(c) == calls + Calls(next) && Throws(c) == throws + Throws(next)
      else
        Sum(c) == Plus(here, NOTHING) && Calls(c) == calls && Throws(c) == throws
  {
    hide SumAll, CallsAll, ThrowsAll, Plus, Threw;
  }

  lemma {:induction false} TreeParts(cfg: Config, c: Call)
    requires TreeOk(cfg, c)
    ensures Adds(c.own, 1, if Threw(c) then 1 else 0) && TreesOk(cfg, c.subCalls)
    ensures c.escalatedTo.Some? ==> TreeOk(cfg, c.escalatedTo.value)
  {
    hide TreesOk, Levelled, Threw;
  }

  lemma {:induction false} TreeAdds(cfg: Config, c: Call)
    requires TreeOk(cfg, c)
    ensures Adds(Sum(c), Calls(c), Throws(c))
    decreases c, 0
  {
    hide *;
    TreeParts(cfg, c);
    TreeUnfolds(c);
    var own := if Threw(c) then 1 else 0;
    var here := Plus(c.own, SumAll(c.subCalls));
    TreesAdd(cfg, c.subCalls);
    AddsPlus(c.own, 1, own, SumAll(c.subCalls), CallsAll(c.subCalls), ThrowsAll(c.subCalls));
    NothingAdds();
    if c.escalatedTo.Some? {
      var next := c.escalatedTo.value;
      TreeAdds(cfg, next);
      AddsPlus(here, 1 + CallsAll(c.subCalls), own + ThrowsAll(c.subCalls), Sum(next), Calls(next), Throws(next));
    } else {
      AddsPlus(here, 1 + CallsAll(c.subCalls), own + ThrowsAll(c.subCalls), NOTHING, 0, 0);
    }
  }

  lemma {:induction false} TreesAdd(cfg: Config, cs: seq<Call>)
    requires TreesOk(cfg, cs)
    ensures Adds(SumAll(cs), CallsAll(cs), ThrowsAll(cs))
    decreases cs
  {
    hide TreeOk, Sum, Calls, Throws, Plus, Adds;
    if cs == [] {
      NothingAdds();
    } else {
      TreeAdds(cfg, cs[0]);
      TreesAdd(cfg, cs[1..]);
      AddsPlus(Sum(cs[0]), Calls(cs[0]), Throws(cs[0]), SumAll(cs[1..]), CallsAll(cs[1..]), ThrowsAll(cs[1..]));
    }
  }

  lemma NothingAdds()
    ensures Adds(NOTHING, 0, 0)
  {
  }

  /** No call of the tree threw exactly when the oracle throws at none of its paths. */
  lemma {:induction false} TreeThrows(cfg: Config, o: Oracle, c: Call)
    requires Answered(cfg, o, c)
    ensures Throws(c) == 0 <==> forall p :: p in Paths(cfg, c) ==> !Throwing(o, p)
    decreases c, 0
  {
    hide AllAnswered, ThrowsAll, PathsAll, Threw, Throwing;
    TreesThrow(cfg, o, c.subCalls);
    if c.escalatedTo.Some? {
      TreeThrows(cfg, o, c.escalatedTo.value);
    }
  }

  lemma {:induction false} TreesThrow(cfg: Config, o: Oracle, cs: seq<Call>)
    requires AllAnswered(cfg, o, cs)
    ensures ThrowsAll(cs) == 0 <==> forall p :: p in PathsAll(cfg, cs) ==> !Throwing(o, p)
    decreases cs
  {
    hide Answered, Throws, Paths, Throwing;
    if cs == [] {
    } else {
      TreeThrows(cfg, o, cs[0]);
      TreesThrow(cfg, o, cs[1..]);
    }
  }

  /** Over any tree of calls, tasks are counted once each, and each is one success, one failure or one
      escalation, exactly when resolving throws at none of the paths that the tree visits. */
  lemma {:induction false} Conservation(cfg: Config, o: Oracle, path: seq<int>, task: Task, depth: int)
    ensures var c := CallOf(cfg, o, path, task, depth); var s := Sum(c);
      && s.total == Calls(c)
      && (s.total == s.successful + s.failed + s.escalated <==> forall p :: p in Paths(cfg, c) ==> !Throwing(o, p))
  {
    hide CallOf, TreeOk, Sum, Calls, Throws, Paths, Answered, Throwing;
    CallOfOk(cfg, o, path, task, depth);
    CallOfAnswered(cfg, o, path, task, depth);
    TreeThrows(cfg, o, CallOf(cfg, o, path, task, depth));
    TreeAdds(cfg, CallOf(cfg, o, path, task, depth));
  }

  /** The executor's own counters, over any sequence of tasks started at depth 0. */
  ghost predicate Balanced(m: Metrics) {
    m.total == m.successful + m.failed + m.escalated
  }

  lemma {:induction false} CallsKeepBalance(s: State, cfg: Config, o: Oracle, path: seq<int>, task: Task)
    requires Balanced(s.metrics)
    ensures var c := CallOf(cfg, o, path, task, 0);
      Balanced(Effect(s, c).metrics) <==> forall p :: p in Paths(cfg, c) ==> !Throwing(o, p)
    ensures (forall p :: !Throwing(o, p)) ==> Balanced(Effect(s, CallOf(cfg, o, path, task, 0)).metrics)
  {
    hide CallOf, Sum, Calls, Throws, After, Records, PushAll, Paths, Throwing;
    Conservation(cfg, o, path, task, 0);
  }

  /** A model that asks for one sub-task, whose target cannot be resolved. */
  function Unresolvable(sub: Task): Oracle {
    path =>
      if path == [] then Answers(Found("a"), false, ModelReturns(0, [sub]), NoTarget)
      else Answers(ResolutionThrows, false, ModelThrows, NoTarget)
  }

  /** The condition is needed: the sub-task is counted, with no outcome. */
  lemma {:induction false} ThrowingTargetIsLost(cfg: Config, task: Task, sub: Task)
    requires cfg.maxDepth > 0 && cfg.enableSubTasks && !cfg.enableEscalation
    ensures LostTask(Sum(CallOf(cfg, Unresolvable(sub), [], task, 0)))
  {
    hide Sum, SumAll, Recovered;
    var o := Unresolvable(sub);
    var inner := Call([0], 1, None, ONE_TASK, [], None, None, Thrown);
    assert [] + [0] == [0];
    assert CallOf(cfg, o, [] + [0], sub, 1) == inner;
    assert SubCalls(cfg, o, [], [sub], 0, 0) == [inner];
    assert WorkOf(cfg, o, [], task, 0, "a") == Recovered(cfg, o, [], task, 0, "a", 0, [inner]);
    GivenUp(cfg, o, task, inner);
  }

  lemma {:induction false} GivenUp(cfg: Config, o: Oracle, task: Task, inner: Call)
    requires cfg.maxDepth > 0 && !cfg.enableEscalation
    requires inner == Call([0], 1, None, ONE_TASK, [], None, None, Thrown)
    ensures LostTask(Sum(Recovered(cfg, o, [], task, 0, "a", 0, [inner])))
  {
    hide CallOf, Sum, SumAll, Calls, Throws, CallsAll, ThrowsAll, Plus;
    var c := Recovered(cfg, o, [], task, 0, "a", 0, [inner]);
    assert c.own == ONE_FAILURE && c.subCalls == [inner] && c.escalatedTo.None?;
    LeafSum(inner);
    TreeUnfolds(c);
    FailureAndTask(c.own, SumAll(c.subCalls));
    PlusNothing(Plus(c.own, SumAll(c.subCalls)), NOTHING);
  }

  lemma {:induction false} LeafSum(inner: Call)
    requires inner.own == ONE_TASK && inner.subCalls == [] && inner.escalatedTo.None?
    ensures SumAll([inner]) == ONE_TASK
  {
    hide Calls, Throws, CallsAll, ThrowsAll, Plus, Sum;
    TreeUnfolds(inner);
    assert SumAll([]) == NOTHING;
    assert [inner][1..] == [];
    assert SumAll([inner]) == Plus(Sum(inner), NOTHING);
    PlusNothing(Sum(inner), NOTHING);
    PlusNothing(inner.own, NOTHING);
    PlusNothing(Plus(inner.own, NOTHING), NOTHING);
  }

  lemma PlusNothing(a: Metrics, nothing: Metrics)
    requires nothing == NOTHING
    ensures Plus(a, nothing) == a
  {
  }

  lemma FailureAndTask(a: Metrics, b: Metrics)
    requires a.total == 1 && b.total == 1 && a.failed == 1 && b.failed == 0
    requires a.successful == b.successful == a.escalated == b.escalated == 0
    ensures LostTask(Plus(a, b))
  {
  }

  /** Two tasks, and the outcome of one. */
  predicate LostTask(s: Metrics) {
    s.total == 2 && s.failed == 1 && s.successful == 0 && s.escalated == 0
  }

  // ---- Depth ----

  predicate WithinDepth(c: Call, limit: int) {
    c.depth <= limit && AllWithinDepth(c.subCalls, limit)
    && (c.escalatedTo.Some? ==> WithinDepth(c.escalatedTo.value, limit))
  }

  predicate AllWithinDepth(cs: seq<Call>, limit: int) {
    cs == [] || (WithinDepth(cs[0], limit) && AllWithinDepth(cs[1..], limit))
  }

  lemma {:induction false} TreeWithinDepth(cfg: Config, c: Call)
    requires TreeOk(cfg, c) && c.depth <= cfg.maxDepth + 1
    ensures WithinDepth(c, cfg.maxDepth + 1)
    decreases c, 0
  {
    hide Accounted, TreesOk, AllWithinDepth;
    TreesWithinDepth(cfg, c.subCalls);
    if c.escalatedTo.Some? {
      TreeWithinDepth(cfg, c.escalatedTo.value);
    }
  }

  lemma {:induction false} TreesWithinDepth(cfg: Config, cs: seq<Call>)
    requires TreesOk(cfg, cs) && forall i :: 0 <= i < |cs| ==> cs[i].depth <= cfg.maxDepth + 1
    ensures AllWithinDepth(cs, cfg.maxDepth + 1)
    decreases cs
  {
    hide TreeOk, WithinDepth;
    if cs == [] {
    } else {
      TreeWithinDepth(cfg, cs[0]);
      TreesWithinDepth(cfg, cs[1..]);
    }
  }

  /** Recursion never passes one level below the limit. */
  lemma {:induction false} DepthIsBounded(cfg: Config, o: Oracle, path: seq<int>, task: Task, depth: int)
    requires depth <= cfg.maxDepth + 1
    ensures WithinDepth(CallOf(cfg, o, path, task, depth), cfg.maxDepth + 1)
  {
    hide CallOf, TreeOk, WithinDepth;
    CallOfOk(cfg, o, path, task, depth);
    TreeWithinDepth(cfg, CallOf(cfg, o, path, task, depth));
  }

  /** No call makes more than `b` sub-calls. */
  predicate Branches(c: Call, b: nat) {
    |c.subCalls| <= b && AllBranch(c.subCalls, b) && (c.escalatedTo.Some? ==> Branches(c.escalatedTo.value, b))
  }

  predicate AllBranch(cs: seq<Call>, b: nat) {
    cs == [] || (Branches(cs[0], b) && AllBranch(cs[1..], b))
  }

  /** The calls of a full tree of `levels` levels in which each call makes `b` sub-calls and escalates. */
  function Bound(b: nat, levels: nat): nat {
    if levels == 0 then 0 else 1 + (b + 1) * Bound(b, levels - 1)
  }

  lemma {:induction false} TreeCalls(cfg: Config, c: Call, b: nat)
    requires TreeOk(cfg, c) && Branches(c, b) && c.depth <= cfg.maxDepth + 1
    ensures Calls(c) <= Bound(b, cfg.maxDepth + 2 - c.depth)
    decreases c, 0
  {
    hide Accounted, TreesOk, AllBranch, CallsAll, Bound;
    var levels := cfg.maxDepth + 2 - c.depth;
    if c.depth > cfg.maxDepth {
      NoCalls();
      BoundUnfolds(b, levels);
    } else {
      var below := Bound(b, levels - 1);
      TreesCalls(cfg, c.subCalls, b, c.depth + 1);
      if c.escalatedTo.Some? {
        TreeCalls(cfg, c.escalatedTo.value, b);
      }
      BoundUnfolds(b, levels);
      Spread(|c.subCalls|, b, below);
    }
  }

  lemma NoCalls()
    ensures CallsAll([]) == 0
  {
  }

  lemma BoundUnfolds(b: nat, levels: nat)
    requires levels > 0
    ensures Bound(b, levels) == 1 + (b + 1) * Bound(b, levels - 1)
    ensures Bound(b, levels) >= 1
  {
  }

  lemma {:induction false} Spread(n: nat, b: nat, below: nat)
    requires n <= b
    ensures n * below + below <= (b + 1) * below
  {
    assert (b + 1 - n - 1) * below >= 0;
  }

  lemma {:induction false} TreesCalls(cfg: Config, cs: seq<Call>, b: nat, depth: int)
    requires TreesOk(cfg, cs) && AllBranch(cs, b) && depth <= cfg.maxDepth + 1
    requires forall i :: 0 <= i < |cs| ==> cs[i].depth == depth
    ensures CallsAll(cs) <= |cs| * Bound(b, cfg.maxDepth + 2 - depth)
    decreases cs
  {
    hide TreeOk, Branches, Bound, Calls;
    if cs == [] {
    } else {
      TreeCalls(cfg, cs[0], b);
      TreesCalls(cfg, cs[1..], b, depth);
      var below := Bound(b, cfg.maxDepth + 2 - depth);
      assert |cs| * below == below + |cs[1..]| * below;
    }
  }

  /** A task makes finitely many calls: at most those of a full tree down to the limit. */
  lemma {:induction false} CallsAreBounded(cfg: Config, o: Oracle, path: seq<int>, task: Task, depth: int, b: nat)
    requires depth <= cfg.maxDepth + 1 && Branches(CallOf(cfg, o, path, task, depth), b)
    ensures Calls(CallOf(cfg, o, path, task, depth)) <= Bound(b, cfg.maxDepth + 2 - depth)
  {
    hide CallOf, TreeOk, Bound, Branches, Calls;
    CallOfOk(cfg, o, path, task, depth);
    TreeCalls(cfg, CallOf(cfg, o, path, task, depth), b);
  }

  // ---- Statuses ----

  /** The agents that a tree of calls marks busy. */
  function Agents(c: Call): set<string> {
    (if c.agent.Some? then {c.agent.value} else {}) + AgentsAll(c.subCalls)
    + if c.escalatedTo.Some? then Agents(c.escalatedTo.value) else {}
  }

  function AgentsAll(cs: seq<Call>): set<string> {
    if cs == [] then {} else Agents(cs[0]) + AgentsAll(cs[1..])
  }

  /** The agents are idle, and nothing else changed. */
  ghost predicate LetGo(before: map<string, AgentStatus>, after: map<string, AgentStatus>, agents: set<string>) {
    && after.Keys == before.Keys
    && forall a :: a in before ==> after[a] == (if a in agents then Idle else before[a])
  }

  lemma {:induction false} CallLetsGo(statuses: map<string, AgentStatus>, c: Call)
    ensures LetGo(statuses, After(statuses, c), Agents(c))
    decreases c, 0
  {
    hide AfterAll, AgentsAll;
    var busy := SetStatus(statuses, c.agent, Busy);
    CallsLetGo(busy, c.subCalls);
    var released := SetStatus(AfterAll(busy, c.subCalls), c.agent, Idle);
    if c.escalatedTo.Some? {
      CallLetsGo(released, c.escalatedTo.value);
    }
  }

  lemma {:induction false} CallsLetGo(statuses: map<string, AgentStatus>, cs: seq<Call>)
    ensures LetGo(statuses, AfterAll(statuses, cs), AgentsAll(cs))
    decreases cs
  {
    hide After, Agents;
    if cs == [] {
    } else {
      CallLetsGo(statuses, cs[0]);
      CallsLetGo(After(statuses, cs[0]), cs[1..]);
    }
  }

  /** When a task returns, or throws, every agent that its calls marked busy is idle, and no other
      agent's status changed. */
  lemma {:induction false} AgentsAreLetGo(s: State, cfg: Config, o: Oracle, path: seq<int>, task: Task, depth: int)
    ensures var c := CallOf(cfg, o, path, task, depth); LetGo(s.statuses, Effect(s, c).statuses, Agents(c))
  {
    hide CallOf, Sum, After, Records, PushAll, Agents, LetGo;
    CallLetsGo(s.statuses, CallOf(cfg, o, path, task, depth));
  }

  /** The agents of a tree are those that the oracle finds at its paths. */
  lemma {:induction false} TreeAgents(cfg: Config, o: Oracle, c: Call, a: string)
    requires Answered(cfg, o, c)
    ensures a in Agents(c) <==> exists p :: p in Paths(cfg, c) && o(p).resolution == Found(a)
    decreases c, 0
  {
    hide AllAnswered, AgentsAll, PathsAll, Threw, Throwing;
    TreesAgents(cfg, o, c.subCalls, a);
    if c.escalatedTo.Some? {
      TreeAgents(cfg, o, c.escalatedTo.value, a);
    }
  }

  lemma {:induction false} TreesAgents(cfg: Config, o: Oracle, cs: seq<Call>, a: string)
    requires AllAnswered(cfg, o, cs)
    ensures a in AgentsAll(cs) <==> exists p :: p in PathsAll(cfg, cs) && o(p).resolution == Found(a)
    decreases cs
  {
    hide Answered, Agents, Paths;
    if cs == [] {
    } else {
      TreeAgents(cfg, o, cs[0], a);
      TreesAgents(cfg, o, cs[1..], a);
    }
  }

  /** Statuses while a call combines the results of its sub-tasks. */
  function During(statuses: map<string, AgentStatus>, c: Call): map<string, AgentStatus> {
    AfterAll(SetStatus(statuses, c.agent, Busy), c.subCalls)
  }

  /** While a call combines the results of its sub-tasks, its agent is still marked busy exactly when
      resolving finds that agent at no path below it: a call that came back to it has already let it go. */
  lemma {:induction false} ParentStaysBusy(statuses: map<string, AgentStatus>, cfg: Config, o: Oracle, path: seq<int>, task: Task, depth: int, agent: string)
    requires depth <= cfg.maxDepth && o(path).resolution == Found(agent) && agent in statuses
    ensures var c := CallOf(cfg, o, path, task, depth);
      && agent in During(statuses, c)
      && (During(statuses, c)[agent] == Busy <==> forall p :: p in PathsAll(cfg, c.subCalls) ==> o(p).resolution != Found(agent))
  {
    hide CallOf, AfterAll, AgentsAll, PathsAll, AllAnswered;
    var c := CallOf(cfg, o, path, task, depth);
    CallOfAnswered(cfg, o, path, task, depth);
    TreesAgents(cfg, o, c.subCalls, agent);
    CallsLetGo(SetStatus(statuses, c.agent, Busy), c.subCalls);
  }

  /** A model that asks for one sub-task, which resolves to the same agent and asks for nothing. */
  function SameAgent(sub: Task): Oracle {
    path => Answers(Found("a"), false, ModelReturns(0, if path == [] then [sub] else []), NoTarget)
  }

  /** The agent is idle while it combines that sub-task's result. */
  lemma {:induction false} ParentIsIdle(statuses: map<string, AgentStatus>, cfg: Config, task: Task, sub: Task)
    requires cfg.maxDepth > 0 && cfg.enableSubTasks && "a" in statuses
    ensures var during := During(statuses, CallOf(cfg, SameAgent(sub), [], task, 0)); "a" in during && during["a"] == Idle
  {
    var o := SameAgent(sub);
    var inner := Call([0], 1, Some("a"), ONE_SUCCESS.(tokens := 0), [], Some(TaskResult(sub.id, "a", Success)), None, Returned(TaskResult(sub.id, "a", Success)));
    assert [] + [0] == [0];
    assert CallOf(cfg, o, [] + [0], sub, 1) == inner;
    assert SubCalls(cfg, o, [], [sub], 0, 0) == [inner];
    var c := CallOf(cfg, o, [], task, 0);
    assert o([]) == Answers(Found("a"), false, ModelReturns(0, [sub]), NoTarget);
    assert c == WorkOf(cfg, o, [], task, 0, "a");
    assert MayRecurse(cfg, 0, [sub]);
    assert c.subCalls == [inner] && c.agent == Some("a");
    hide CallOf;
    var busy := SetStatus(statuses, c.agent, Busy);
    assert [inner][1..] == [];
    assert AfterAll(busy, [inner]) == After(busy, inner);
    assert After(busy, inner) == SetStatus(AfterAll(SetStatus(busy, Some("a"), Busy), []), Some("a"), Idle);
  }

  // ---- History ----

  function Successes(rs: seq<TaskResult>): nat {
    if rs == [] then 0 else (if rs[0].status == Success then 1 else 0) + Successes(rs[1..])
  }

  lemma {:induction false} SuccessesConcat(a: seq<TaskResult>, b: seq<TaskResult>)
    ensures Successes(a + b) == Successes(a) + Successes(b)
  {
    if a == [] {
      assert a + b == b;
    } else {
      assert (a + b)[1..] == a[1..] + b;
      SuccessesConcat(a[1..], b);
    }
  }

  lemma {:induction false} TreeRecords(cfg: Config, c: Call)
    requires TreeOk(cfg, c)
    ensures Successes(Records(c)) == Sum(c).successful
    decreases c, 0
  {
    hide Levelled, TreesOk, RecordsAll, SumAll, Threw;
    TreesRecord(cfg, c.subCalls);
    var subs := RecordsAll(c.subCalls);
    var own := if c.recorded.Some? then [c.recorded.value] else [];
    var next := if c.escalatedTo.Some? then Records(c.escalatedTo.value) else [];
    if c.escalatedTo.Some? {
      TreeRecords(cfg, c.escalatedTo.value);
    }
    SuccessesConcat(subs + own, next);
    SuccessesConcat(subs, own);
  }

  lemma {:induction false} TreesRecord(cfg: Config, cs: seq<Call>)
    requires TreesOk(cfg, cs)
    ensures Successes(RecordsAll(cs)) == SumAll(cs).successful
    decreases cs
  {
    hide TreeOk, Records, Sum;
    if cs == [] {
    } else {
      TreeRecords(cfg, cs[0]);
      TreesRecord(cfg, cs[1..]);
      SuccessesConcat(Records(cs[0]), RecordsAll(cs[1..]));
    }
  }

  /** Every success that is counted is recorded, and no other. */
  lemma {:induction false} SuccessesAreRecorded(cfg: Config, o: Oracle, path: seq<int>, task: Task, depth: int)
    ensures var c := CallOf(cfg, o, path, task, depth); Successes(Records(c)) == Sum(c).successful
  {
    hide CallOf, TreeOk, Records, Sum;
    CallOfOk(cfg, o, path, task, depth);
    TreeRecords(cfg, CallOf(cfg, o, path, task, depth));
  }

  /** The history is the latest part of all that was recorded: all of it, or between 500 and 1000. */
  predicate IsLatest(history: seq<TaskResult>, all: seq<TaskResult>) {
    && |history| <= |all| && history == all[|all| - |history|..]
    && |history| <= 1000 && (|history| == |all| || |history| >= 500)
  }

  lemma {:induction false} PushIsLatest(history: seq<TaskResult>, all: seq<TaskResult>, r: TaskResult)
    requires IsLatest(history, all)
    ensures IsLatest(Push(history, r), all + [r])
  {
    var longer := history + [r];
    assert longer == (all + [r])[|all| - |history|..];
  }

  lemma {:induction false} HistoryIsLatest(history: seq<TaskResult>, all: seq<TaskResult>, rs: seq<TaskResult>)
    requires IsLatest(history, all)
    ensures IsLatest(PushAll(history, rs), all + rs)
    decreases |rs|
  {
    hide Push, IsLatest;
    if rs == [] {
      assert all + rs == all;
    } else {
      PushIsLatest(history, all, rs[0]);
      HistoryIsLatest(Push(history, rs[0]), all + [rs[0]], rs[1..]);
      assert all + [rs[0]] + rs[1..] == all + rs;
    }
  }
}
