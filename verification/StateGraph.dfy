/** State graphs: which nodes can be reached at all, found without running anything, and what runs do. */
module StateGraph {
  import opened Options
  import opened Graphs
  import opened Workflows

  /** A node's executor, or nothing where it throws. */
  datatype Node = Node(caption: string, executor: Record -> Option<Record>)

  datatype Choice = ConditionThrows | Default | Choose(target: string)

  datatype GraphEdge = GraphEdge(source: string, target: string, condition: Option<Record -> Choice>)

  const CONDITIONAL := "__conditional__"

  datatype Config = Config(entryNode: string, exitNodes: seq<string>, maxIterations: int)

  /** The nodes with their ids in the order they were added, and the edges. */
  datatype Graph = Graph(nodes: map<string, Node>, ids: seq<string>, edges: seq<GraphEdge>)

  ghost predicate WellBuilt(g: Graph) {
    && (forall id :: id in g.ids <==> id in g.nodes)
    && (forall e :: e in g.edges && e.condition.Some? ==> e.target == CONDITIONAL)
  }

  // ---- Where an edge can lead ----

  function EdgesTo(source: string, targets: seq<string>): (es: seq<Edge>)
    ensures forall e :: e in es <==> e.src == source && e.dst in targets
  {
    if targets == [] then [] else [Edge(source, targets[0])] + EdgesTo(source, targets[1..])
  }

  /** A conditional edge can lead anywhere. */
  function Leads(g: Graph, e: GraphEdge): seq<string> {
    if e.target == CONDITIONAL then g.ids else [e.target]
  }

  /** Every step that the edges allow. */
  function Possible(g: Graph, edges: seq<GraphEdge>): (es: seq<Edge>)
    ensures forall e :: e in es <==> exists d :: d in edges && d.source == e.src && e.dst in Leads(g, d)
  {
    if edges == [] then []
    else
      var n := |edges| - 1;
      var es := Possible(g, edges[..n]) + EdgesTo(edges[n].source, Leads(g, edges[n]));
      assert forall d :: d in edges <==> d in edges[..n] || d == edges[n];
      es
  }

  ghost predicate Reachable(g: Graph, start: string, id: string) {
    id == start || Reaches(Possible(g, g.edges), start, id)
  }

  /** All edge ends are nodes, but for the mark of a conditional edge. */
  ghost predicate EdgesOk(g: Graph) {
    forall e :: e in g.edges ==> EndsOk(g, e)
  }

  predicate EndsOk(g: Graph, e: GraphEdge) {
    e.source in g.nodes && (e.target != CONDITIONAL ==> e.target in g.nodes)
  }

  ghost predicate CompilesOk(cfg: Config, g: Graph) {
    cfg.entryNode in g.nodes && (forall x :: x in cfg.exitNodes ==> x in g.nodes) && EdgesOk(g)
  }

  // ---- Running ----

  datatype Error = NodeMissing(id: string) | ExecutorThrew(id: string) | ConditionThrew(id: string) | BadTarget(target: string)

  datatype Next = Fails(error: Error) | Stop | Go(target: string)

  /** The first condition that chooses a target, then the first edge without a condition. */
  function NextOf(g: Graph, id: string, state: Record, edges: seq<GraphEdge>): Next {
    if edges == [] then DefaultOf(id, g.edges)
    else if edges[0].source == id && edges[0].condition.Some? then
      match edges[0].condition.value(state)
      case ConditionThrows => Fails(ConditionThrew(id))
      case Default => NextOf(g, id, state, edges[1..])
      case Choose(target) => if target in g.nodes then Go(target) else Fails(BadTarget(target))
    else NextOf(g, id, state, edges[1..])
  }

  function DefaultOf(id: string, edges: seq<GraphEdge>): Next {
    if edges == [] then Stop
    else if edges[0].source == id && edges[0].condition.None? then
      if edges[0].target == CONDITIONAL then Stop else Go(edges[0].target)
    else DefaultOf(id, edges[1..])
  }

  datatype Ending =
    | Threw(error: Error, trace: seq<string>)
    | Finished(state: Record, trace: seq<string>, exitNode: string)

  function After(id: string, e: Ending): Ending {
    match e
    case Threw(error, trace) => Threw(error, [id] + trace)
    case Finished(state, trace, exitNode) => Finished(state, [id] + trace, exitNode)
  }

  /** The rest of a run at a node after `n` iterations. */
  function RunFrom(cfg: Config, g: Graph, id: string, state: Record, n: nat): Ending
    decreases cfg.maxIterations - n
  {
    if n >= cfg.maxIterations then Finished(state, [], id)
    else if id !in g.nodes then Threw(NodeMissing(id), [])
    else
      match g.nodes[id].executor(state)
      case None => Threw(ExecutorThrew(id), [id])
      case Some(state') =>
        if id in cfg.exitNodes then Finished(state', [id], id)
        else
          match NextOf(g, id, state', g.edges)
          case Fails(error) => Threw(error, [id])
          case Stop => Finished(state', [id], id)
          case Go(target) => After(id, RunFrom(cfg, g, target, state', n + 1))
  }

  // ---- The objects ----

  class StateGraphBuilder {
    const cfg: Config
    var nodes: map<string, Node>
    var ids: seq<string>
    var edges: seq<GraphEdge>

    ghost function Built(): Graph
      reads this
    {
      Graph(nodes, ids, edges)
    }

    ghost predicate Valid()
      reads this
    {
      WellBuilt(Built())
    }

    constructor (cfg: Config)
      ensures Valid() && this.cfg == cfg && Built() == Graph(map[], [], [])
    {
      this.cfg := cfg;
      nodes, ids, edges := map[], [], [];
    }

    method AddNode(id: string, caption: string, executor: Record -> Option<Record>) returns (ok: bool)
      requires Valid()
      modifies this
      ensures Valid() && ok == (id !in old(nodes))
      ensures ok ==> nodes == old(nodes)[id := Node(caption, executor)] && ids == old(ids) + [id]
      ensures !ok ==> nodes == old(nodes) && ids == old(ids)
      ensures edges == old(edges)
    {
      ok := id !in nodes;
      if ok {
        nodes := nodes[id := Node(caption, executor)];
        ids := ids + [id];
      }
    }

    method AddEdge(source: string, target: string)
      requires Valid()
      modifies this
      ensures Valid() && edges == old(edges) + [GraphEdge(source, target, None)]
      ensures nodes == old(nodes) && ids == old(ids)
    {
      edges := edges + [GraphEdge(source, target, None)];
    }

    method AddConditionalEdge(source: string, condition: Record -> Choice)
      requires Valid()
      modifies this
      ensures Valid() && edges == old(edges) + [GraphEdge(source, CONDITIONAL, Some(condition))]
      ensures nodes == old(nodes) && ids == old(ids)
    {
      edges := edges + [GraphEdge(source, CONDITIONAL, Some(condition))];
    }

    /** The ids of the nodes that no run can visit; `ok` is false where compiling throws. */
    method Compile() returns (ok: bool, unreachable: seq<string>)
      requires Valid()
      ensures ok == CompilesOk(cfg, Built())
      ensures ok ==> forall id :: id in unreachable <==> id in nodes && !Reachable(Built(), cfg.entryNode, id)
    {
      hide Reachable, EdgesOk, WellBuilt;
      unreachable := [];
      ok := Validate();
      if !ok {
        return;
      }
      var reachable := FindReachableNodes(cfg.entryNode);
      BuiltIds();
      for i := 0 to |ids|
        invariant forall id :: id in unreachable <==> id in ids[..i] && id !in reachable
      {
        if ids[i] !in reachable {
          unreachable := unreachable + [ids[i]];
        }
      }
      assert ids[..|ids|] == ids;
    }

    lemma BuiltIds()
      requires Valid()
      ensures forall id :: id in ids <==> id in nodes
    {
    }

    /** The checks of compiling: the entry, the exits and the ends of the edges are nodes. */
    method Validate() returns (ok: bool)
      ensures ok == CompilesOk(cfg, Built())
    {
      if cfg.entryNode !in nodes {
        return false;
      }
      for i := 0 to |cfg.exitNodes|
        invariant forall x :: x in cfg.exitNodes[..i] ==> x in nodes
      {
        if cfg.exitNodes[i] !in nodes {
          return false;
        }
      }
      for i := 0 to |edges|
        invariant forall k :: 0 <= k < i ==> EndsOk(Built(), edges[k])
      {
        if edges[i].source !in nodes || (edges[i].target != CONDITIONAL && edges[i].target !in nodes) {
          assert edges[i] in edges && !EndsOk(Built(), edges[i]);
          return false;
        }
      }
      ok := true;
    }

    /** Breadth first, over every step that an edge allows. */
    method FindReachableNodes(start: string) returns (visited: set<string>)
      requires Valid() && start in nodes && EdgesOk(Built())
      ensures forall id :: id in visited <==> Reachable(Built(), start, id)
    {
      hide Possible, EdgesOk, Reaches;
      ghost var g := Built();
      ghost var es := Possible(g, g.edges);
      visited := {};
      var queue := [start];
      while queue != []
        invariant visited <= nodes.Keys && forall id :: id in queue ==> id in nodes
        invariant forall id :: id in visited || id in queue ==> Reachable(g, start, id)
        invariant start in visited || start in queue
        invariant Closed(es, visited, queue)
        decreases nodes.Keys - visited, |queue|
      {
        var current := queue[0];
        ghost var before := queue;
        queue := queue[1..];
        assert forall id :: id in before <==> id == current || id in queue;
        if current in visited {
          continue;
        }
        visited := visited + {current};
        var steps := Successors(current);
        forall id | id in steps
          ensures Reachable(g, start, id) && id in nodes
        {
          StepIsReachable(g, start, current, id);
        }
        queue := queue + steps;
      }
      AllFound(g, start, visited);
    }

    /** Where the edges of a node can lead, in order. */
    method Successors(current: string) returns (steps: seq<string>)
      requires Valid()
      ensures forall id :: id in steps <==> Edge(current, id) in Possible(Built(), edges)
    {
      steps := [];
      for i := 0 to |edges|
        invariant forall id :: id in steps <==> exists e :: e in edges[..i] && e.source == current && id in Leads(Built(), e)
      {
        assert forall e :: e in edges[..i + 1] <==> e in edges[..i] || e == edges[i];
        if edges[i].source == current {
          if edges[i].target != CONDITIONAL {
            steps := steps + [edges[i].target];
          } else {
            steps := steps + ids;
          }
        }
      }
      assert edges[..|edges|] == edges;
    }
  }

  class CompiledGraph {
    const cfg: Config
    const g: Graph

    constructor (cfg: Config, g: Graph)
      ensures this.cfg == cfg && this.g == g
    {
      this.cfg := cfg;
      this.g := g;
    }

    method Run(initialState: Record) returns (ending: Ending)
      ensures ending == RunFrom(cfg, g, cfg.entryNode, initialState, 0)
    {
      hide NextOf;
      var current, state, trace := cfg.entryNode, initialState, [];
      var iterations := 0;
      NothingBefore(RunFrom(cfg, g, current, state, 0));
      while iterations < cfg.maxIterations
        invariant iterations == |trace|
        invariant Traced(trace, RunFrom(cfg, g, current, state, iterations)) == RunFrom(cfg, g, cfg.entryNode, initialState, 0)
        decreases cfg.maxIterations - iterations
      {
        iterations := iterations + 1;
        if current !in g.nodes {
          assert trace + [] == trace;
          return Threw(NodeMissing(current), trace);
        }
        trace := trace + [current];
        var result := g.nodes[current].executor(state);
        if result.None? {
          return Threw(ExecutorThrew(current), trace);
        }
        state := result.value;
        if current in cfg.exitNodes {
          return Finished(state, trace, current);
        }
        var next := ResolveNextNode(current, state);
        if next.Fails? {
          return Threw(next.error, trace);
        }
        if next.Stop? {
          return Finished(state, trace, current);
        }
        TracedAfter(trace[..|trace| - 1], current, RunFrom(cfg, g, next.target, state, iterations));
        current := next.target;
      }
      assert trace + [] == trace;
      ending := Finished(state, trace, current);
    }

    method ResolveNextNode(id: string, state: Record) returns (next: Next)
      ensures next == NextOf(g, id, state, g.edges)
    {
      for i := 0 to |g.edges|
        invariant NextOf(g, id, state, g.edges[i..]) == NextOf(g, id, state, g.edges)
      {
        assert g.edges[i..][0] == g.edges[i] && g.edges[i..][1..] == g.edges[i + 1..];
        if g.edges[i].source == id && g.edges[i].condition.Some? {
          var choice := g.edges[i].condition.value(state);
          if choice.ConditionThrows? {
            return Fails(ConditionThrew(id));
          }
          if choice.Choose? {
            return if choice.target in g.nodes then Go(choice.target) else Fails(BadTarget(choice.target));
          }
        }
      }
      assert g.edges[|g.edges|..] == [];
      next := Unconditional(id);
    }

    method Unconditional(id: string) returns (next: Next)
      ensures next == DefaultOf(id, g.edges)
    {
      for i := 0 to |g.edges|
        invariant DefaultOf(id, g.edges[i..]) == DefaultOf(id, g.edges)
      {
        assert g.edges[i..][0] == g.edges[i] && g.edges[i..][1..] == g.edges[i + 1..];
        if g.edges[i].source == id && g.edges[i].condition.None? {
          return if g.edges[i].target == CONDITIONAL then Stop else Go(g.edges[i].target);
        }
      }
      assert g.edges[|g.edges|..] == [];
      next := Stop;
    }
  }

  /** An ending with what was visited before it. */
  function Traced(before: seq<string>, e: Ending): Ending {
    match e
    case Threw(error, trace) => Threw(error, before + trace)
    case Finished(state, trace, exitNode) => Finished(state, before + trace, exitNode)
  }

  lemma {:induction false} NothingBefore(e: Ending)
    ensures Traced([], e) == e
  {
    assert [] + e.trace == e.trace;
  }

  lemma {:induction false} TracedAfter(before: seq<string>, id: string, e: Ending)
    ensures Traced(before, After(id, e)) == Traced(before + [id], e)
  {
    assert before + ([id] + e.trace) == before + [id] + e.trace;
  }

  // ---- The search is exact ----

  /** Every step from a visited node leads to one that is visited or waits. */
  ghost predicate Closed(es: seq<Edge>, visited: set<string>, queue: seq<string>) {
    forall e :: e in es && e.src in visited ==> e.dst in visited || e.dst in queue
  }

  lemma {:induction false} StepIsReachable(g: Graph, start: string, a: string, b: string)
    requires WellBuilt(g) && EdgesOk(g) && Reachable(g, start, a) && Edge(a, b) in Possible(g, g.edges)
    ensures Reachable(g, start, b) && b in g.nodes
  {
    hide Reaches;
    ReachesEdge(Possible(g, g.edges), a, b);
    if a != start {
      ReachesTrans(Possible(g, g.edges), start, a, b);
    }
    var d :| d in g.edges && d.source == a && b in Leads(g, d);
  }

  lemma {:induction false} AllFound(g: Graph, start: string, visited: set<string>)
    requires start in visited && Closed(Possible(g, g.edges), visited, [])
    ensures forall id :: Reachable(g, start, id) ==> id in visited
  {
    hide Possible;
    var es := Possible(g, g.edges);
    forall id | Reachable(g, start, id)
      ensures id in visited
    {
      if id != start {
        var p :| IsWalk(es, p) && 2 <= |p| && p[0] == start && p[|p| - 1] == id;
        WalkStaysIn(es, p, visited, |p| - 1);
      }
    }
  }

  lemma {:induction false} WalkStaysIn(es: seq<Edge>, p: seq<string>, visited: set<string>, k: nat)
    requires IsWalk(es, p) && k < |p| && p[0] in visited && Closed(es, visited, [])
    ensures p[k] in visited
  {
    if k == 0 {
    } else {
      WalkStaysIn(es, p, visited, k - 1);
      assert Edge(p[k - 1], p[k - 1 + 1]) in es;
    }
  }

  /** The edges as they were added, without regard to conditions. */
  function PlainEdges(edges: seq<GraphEdge>): (es: seq<Edge>)
    ensures |es| == |edges| && forall i :: 0 <= i < |es| ==> es[i] == Edge(edges[i].source, edges[i].target)
  {
    seq(|edges|, i requires 0 <= i < |edges| => Edge(edges[i].source, edges[i].target))
  }

  lemma {:induction false} WalkInBoth(a: seq<Edge>, b: seq<Edge>, u: string, v: string)
    requires Reaches(a, u, v) && forall e :: e in a ==> e in b
    ensures Reaches(b, u, v)
  {
    var p :| IsWalk(a, p) && 2 <= |p| && p[0] == u && p[|p| - 1] == v;
    assert IsWalk(b, p);
  }

  /** Without conditional edges, what can be reached is what the edges themselves reach. */
  lemma {:induction false} PlainReachability(g: Graph, start: string, id: string)
    requires forall e :: e in g.edges ==> e.target != CONDITIONAL
    ensures Reachable(g, start, id) <==> id == start || Reaches(PlainEdges(g.edges), start, id)
  {
    hide Reaches;
    var es, plain := Possible(g, g.edges), PlainEdges(g.edges);
    forall e | e in plain
      ensures e in es
    {
      var i :| 0 <= i < |plain| && plain[i] == e;
      assert g.edges[i] in g.edges && e.dst in Leads(g, g.edges[i]);
    }
    forall e | e in es
      ensures e in plain
    {
      var d :| d in g.edges && d.source == e.src && e.dst in Leads(g, d);
      var i :| 0 <= i < |g.edges| && g.edges[i] == d;
      assert plain[i] == e;
    }
    if Reaches(es, start, id) {
      WalkInBoth(es, plain, start, id);
    }
    if Reaches(plain, start, id) {
      WalkInBoth(plain, es, start, id);
    }
  }

  // ---- Runs stay reachable ----

  lemma {:induction false} NextIsPossible(g: Graph, id: string, state: Record, edges: seq<GraphEdge>)
    requires WellBuilt(g) && (forall e :: e in edges ==> e in g.edges) && NextOf(g, id, state, edges).Go?
    ensures Edge(id, NextOf(g, id, state, edges).target) in Possible(g, g.edges)
  {
    hide Possible;
    var es := Possible(g, g.edges);
    if edges == [] {
      DefaultIsPossible(g, id, g.edges);
    } else {
      assert edges[0] in edges && forall e :: e in edges[1..] ==> e in edges;
      if edges[0].source == id && edges[0].condition.Some? && edges[0].condition.value(state).Choose? {
        var target := edges[0].condition.value(state).target;
        assert target in Leads(g, edges[0]);
      } else {
        NextIsPossible(g, id, state, edges[1..]);
      }
    }
  }

  lemma {:induction false} DefaultIsPossible(g: Graph, id: string, edges: seq<GraphEdge>)
    requires (forall e :: e in edges ==> e in g.edges) && DefaultOf(id, edges).Go?
    ensures Edge(id, DefaultOf(id, edges).target) in Possible(g, g.edges)
  {
    hide Possible;
    assert edges[0] in edges && forall e :: e in edges[1..] ==> e in edges;
    if edges[0].source == id && edges[0].condition.None? && edges[0].target != CONDITIONAL {
      assert edges[0].target in Leads(g, edges[0]);
    } else {
      DefaultIsPossible(g, id, edges[1..]);
    }
  }

  /** What a run may do from a reachable node. */
  ghost predicate StaysReachable(g: Graph, start: string, e: Ending) {
    && (forall id :: id in e.trace ==> Reachable(g, start, id) && id in g.nodes)
    && (e.Finished? ==> Reachable(g, start, e.exitNode) && e.exitNode in g.nodes)
    && !(e.Threw? && e.error.NodeMissing?)
  }

  lemma {:induction false} AfterStaysReachable(g: Graph, start: string, id: string, e: Ending)
    requires StaysReachable(g, start, e) && Reachable(g, start, id) && id in g.nodes
    ensures StaysReachable(g, start, After(id, e))
  {
    hide Reachable;
  }

  lemma {:induction false} RunStaysReachable(cfg: Config, g: Graph, start: string, id: string, state: Record, n: nat)
    requires WellBuilt(g) && EdgesOk(g) && Reachable(g, start, id) && id in g.nodes
    ensures StaysReachable(g, start, RunFrom(cfg, g, id, state, n))
    decreases cfg.maxIterations - n
  {
    hide Reachable, NextOf, EdgesOk, Possible, WellBuilt;
    if n < cfg.maxIterations && g.nodes[id].executor(state).Some? && id !in cfg.exitNodes {
      var state' := g.nodes[id].executor(state).value;
      NoMissing(g, id, state', g.edges);
      match NextOf(g, id, state', g.edges) {
        case Go(target) =>
          NextIsPossible(g, id, state', g.edges);
          StepIsReachable(g, start, id, target);
          RunStaysReachable(cfg, g, start, target, state', n + 1);
          AfterStaysReachable(g, start, id, RunFrom(cfg, g, target, state', n + 1));
        case _ =>
      }
    }
  }

  lemma {:induction false} NoMissing(g: Graph, id: string, state: Record, edges: seq<GraphEdge>)
    ensures NextOf(g, id, state, edges).Fails? ==> !NextOf(g, id, state, edges).error.NodeMissing?
  {
    if edges == [] {
      NoMissingDefault(id, g.edges);
    } else {
      NoMissing(g, id, state, edges[1..]);
    }
  }

  lemma {:induction false} NoMissingDefault(id: string, edges: seq<GraphEdge>)
    ensures !DefaultOf(id, edges).Fails?
  {
    if edges == [] {
    } else {
      NoMissingDefault(id, edges[1..]);
    }
  }

  /** No run of a graph that compiles, from any state and with any conditions and executors, visits a
      node that compiling found unreachable, nor ends at one, nor misses a node. */
  lemma {:induction false} RunsAreReachable(cfg: Config, g: Graph, state: Record)
    requires WellBuilt(g) && CompilesOk(cfg, g)
    ensures StaysReachable(g, cfg.entryNode, RunFrom(cfg, g, cfg.entryNode, state, 0))
  {
    hide EdgesOk;
    RunStaysReachable(cfg, g, cfg.entryNode, cfg.entryNode, state, 0);
  }

  lemma {:induction false} RunIsBounded(cfg: Config, g: Graph, id: string, state: Record, n: nat)
    requires n <= cfg.maxIterations
    ensures n + |RunFrom(cfg, g, id, state, n).trace| <= cfg.maxIterations
    decreases cfg.maxIterations - n
  {
    hide NextOf;
    if n < cfg.maxIterations && id in g.nodes && g.nodes[id].executor(state).Some? && id !in cfg.exitNodes {
      var state' := g.nodes[id].executor(state).value;
      match NextOf(g, id, state', g.edges) {
        case Go(target) => RunIsBounded(cfg, g, target, state', n + 1);
        case _ =>
      }
    }
  }

  /** The trace is a walk along possible steps from the entry. */
  lemma {:induction false} TraceIsWalk(cfg: Config, g: Graph, id: string, state: Record, n: nat)
    requires WellBuilt(g)
    ensures var t := RunFrom(cfg, g, id, state, n).trace;
      IsWalk(Possible(g, g.edges), t) && (t != [] ==> t[0] == id)
    decreases cfg.maxIterations - n
  {
    hide NextOf, WellBuilt, Possible;
    if n < cfg.maxIterations && id in g.nodes && g.nodes[id].executor(state).Some? && id !in cfg.exitNodes {
      var state' := g.nodes[id].executor(state).value;
      match NextOf(g, id, state', g.edges) {
        case Go(target) =>
          NextIsPossible(g, id, state', g.edges);
          TraceIsWalk(cfg, g, target, state', n + 1);
        case _ =>
      }
    }
  }

  /** The exit node of a finished run: the last node executed, if that is an exit node or nothing comes
      next; and otherwise the next one, where the iterations are used up and it is not executed any more. */
  lemma {:induction false} ExitIsLast(cfg: Config, g: Graph, id: string, state: Record, n: nat)
    requires RunFrom(cfg, g, id, state, n).Finished?
    ensures var e := RunFrom(cfg, g, id, state, n);
      if e.trace == [] then e.exitNode == id && e.state == state && n >= cfg.maxIterations
      else
        var last := e.trace[|e.trace| - 1];
        if last in cfg.exitNodes then e.exitNode == last
        else
          match NextOf(g, last, e.state, g.edges)
          case Fails(_) => false
          case Stop => e.exitNode == last
          case Go(target) => e.exitNode == target && n + |e.trace| == cfg.maxIterations
    decreases cfg.maxIterations - n
  {
    hide NextOf;
    if n < cfg.maxIterations && id in g.nodes && g.nodes[id].executor(state).Some? && id !in cfg.exitNodes {
      var state' := g.nodes[id].executor(state).value;
      match NextOf(g, id, state', g.edges) {
        case Go(target) => ExitIsLast(cfg, g, target, state', n + 1);
        case _ =>
      }
    }
  }

  /** With one iteration, a graph of two nodes executes the first and exits at the second. */
  lemma {:induction false} ExitNotExecuted(state: Record, first: Node, second: Node)
    requires first.executor(state).Some?
    ensures var cfg := Config("first", [], 1);
      var g := Graph(map["first" := first, "second" := second], ["first", "second"], [GraphEdge("first", "second", None)]);
      && WellBuilt(g) && CompilesOk(cfg, g)
      && RunFrom(cfg, g, "first", state, 0) == Finished(first.executor(state).value, ["first"], "second")
  {
    var cfg := Config("first", [], 1);
    var edges := [GraphEdge("first", "second", None)];
    var g := Graph(map["first" := first, "second" := second], ["first", "second"], edges);
    var state' := first.executor(state).value;
    assert edges[1..] == [];
    assert DefaultOf("first", edges) == Go("second");
    assert NextOf(g, "first", state', edges) == NextOf(g, "first", state', []);
  }

  // ---- Which way a run goes ----

  /** The condition of the edge decides where to go from the node. */
  predicate Decides(e: GraphEdge, id: string, state: Record) {
    e.source == id && e.condition.Some? && !e.condition.value(state).Default?
  }

  /** Where it says to go; only to a node of the graph. */
  function Decision(g: Graph, e: GraphEdge, id: string, state: Record): Next
    requires Decides(e, id, state)
  {
    var choice := e.condition.value(state);
    if choice.ConditionThrows? then Fails(ConditionThrew(id))
    else if choice.target in g.nodes then Go(choice.target)
    else Fails(BadTarget(choice.target))
  }

  /** A plain edge of the node. */
  predicate IsPlainFrom(e: GraphEdge, id: string) {
    e.source == id && e.condition.None?
  }

  lemma {:induction false} ConditionDecides(g: Graph, id: string, state: Record, edges: seq<GraphEdge>, i: nat)
    requires i < |edges| && Decides(edges[i], id, state) && forall j :: 0 <= j < i ==> !Decides(edges[j], id, state)
    ensures NextOf(g, id, state, edges) == Decision(g, edges[i], id, state)
    decreases i
  {
    if i == 0 {
    } else {
      assert !Decides(edges[0], id, state);
      assert edges[1..][i - 1] == edges[i] && forall j :: 0 <= j < i - 1 ==> edges[1..][j] == edges[j + 1];
      ConditionDecides(g, id, state, edges[1..], i - 1);
    }
  }

  lemma {:induction false} NoConditionDecides(g: Graph, id: string, state: Record, edges: seq<GraphEdge>)
    requires forall e :: e in edges ==> !Decides(e, id, state)
    ensures NextOf(g, id, state, edges) == DefaultOf(id, g.edges)
  {
    if edges == [] {
    } else {
      assert edges[0] in edges && forall e :: e in edges[1..] ==> e in edges;
      NoConditionDecides(g, id, state, edges[1..]);
    }
  }

  lemma {:induction false} FirstPlainEdge(id: string, edges: seq<GraphEdge>, i: nat)
    requires i <= |edges| && (i < |edges| ==> IsPlainFrom(edges[i], id)) && forall j :: 0 <= j < i ==> !IsPlainFrom(edges[j], id)
    ensures DefaultOf(id, edges) ==
      if i == |edges| || edges[i].target == CONDITIONAL then Stop else Go(edges[i].target)
    decreases i
  {
    if i == 0 {
    } else {
      assert !IsPlainFrom(edges[0], id);
      assert forall j :: 0 <= j < i - 1 ==> edges[1..][j] == edges[j + 1];
      assert i < |edges| ==> edges[1..][i - 1] == edges[i];
      FirstPlainEdge(id, edges[1..], i - 1);
    }
  }

  /** Wherever it stands among the edges, the first condition that makes a choice, or throws, decides; only if none
      does, the first plain edge is taken; and without one, the run stops. */
  lemma {:induction false} NextDecided(g: Graph, id: string, state: Record)
    ensures forall i :: 0 <= i < |g.edges| && Decides(g.edges[i], id, state) && (forall j :: 0 <= j < i ==> !Decides(g.edges[j], id, state)) ==>
      NextOf(g, id, state, g.edges) == Decision(g, g.edges[i], id, state)
    ensures (forall e :: e in g.edges ==> !Decides(e, id, state)) ==>
      forall i :: 0 <= i < |g.edges| && IsPlainFrom(g.edges[i], id) && (forall j :: 0 <= j < i ==> !IsPlainFrom(g.edges[j], id)) ==>
        NextOf(g, id, state, g.edges) == if g.edges[i].target == CONDITIONAL then Stop else Go(g.edges[i].target)
    ensures (forall e :: e in g.edges ==> !Decides(e, id, state) && !IsPlainFrom(e, id)) ==> NextOf(g, id, state, g.edges) == Stop
  {
    hide NextOf, DefaultOf, IsPlainFrom, Decision;
    forall i | 0 <= i < |g.edges| && Decides(g.edges[i], id, state) && (forall j :: 0 <= j < i ==> !Decides(g.edges[j], id, state))
      ensures NextOf(g, id, state, g.edges) == Decision(g, g.edges[i], id, state)
    {
      ConditionDecides(g, id, state, g.edges, i);
    }
    if forall e :: e in g.edges ==> !Decides(e, id, state) {
      NoConditionDecides(g, id, state, g.edges);
      forall i | 0 <= i < |g.edges| && IsPlainFrom(g.edges[i], id) && (forall j :: 0 <= j < i ==> !IsPlainFrom(g.edges[j], id))
        ensures NextOf(g, id, state, g.edges) == if g.edges[i].target == CONDITIONAL then Stop else Go(g.edges[i].target)
      {
        FirstPlainEdge(id, g.edges, i);
      }
      if forall e :: e in g.edges ==> !IsPlainFrom(e, id) {
        FirstPlainEdge(id, g.edges, |g.edges|);
      }
    }
  }

  /** Each node of the trace is executed on the state that the one before it left, and is the one that
      was chosen next in that state; only the last may be an exit node. */
  ghost predicate Followed(cfg: Config, g: Graph, trace: seq<string>, state: Record)
    decreases |trace|
  {
    trace != [] ==>
      && trace[0] in g.nodes
      && (|trace| > 1 ==>
            var state' := g.nodes[trace[0]].executor(state);
            && state'.Some? && trace[0] !in cfg.exitNodes
            && NextOf(g, trace[0], state'.value, g.edges) == Go(trace[1])
            && Followed(cfg, g, trace[1..], state'.value))
  }

  /** The state after the nodes, or nothing where one of them throws. */
  function StateAlong(g: Graph, trace: seq<string>, state: Record): Option<Record>
    decreases |trace|
  {
    if trace == [] then Some(state)
    else if trace[0] !in g.nodes then None
    else
      match g.nodes[trace[0]].executor(state)
      case None => None
      case Some(state') => StateAlong(g, trace[1..], state')
  }

  /** A run executes one node after the other as chosen, hands each the state of the one before, and
      returns the last state; it throws where the last node does, where its choice does, or where
      the choice is no node. */
  lemma {:induction false} RunFollows(cfg: Config, g: Graph, id: string, state: Record, n: nat)
    ensures var e := RunFrom(cfg, g, id, state, n);
      && Followed(cfg, g, e.trace, state)
      && (e.trace != [] ==> e.trace[0] == id)
      && match e
         case Finished(final, trace, _) => StateAlong(g, trace, state) == Some(final)
         case Threw(ExecutorThrew(x), trace) => trace != [] && trace[|trace| - 1] == x && StateAlong(g, trace, state) == None
         case Threw(NodeMissing(x), _) => x !in g.nodes
         case Threw(error, trace) =>
           trace != [] && StateAlong(g, trace, state).Some?
             && NextOf(g, trace[|trace| - 1], StateAlong(g, trace, state).value, g.edges) == Fails(error)
    decreases cfg.maxIterations - n
  {
    hide NextOf;
    if n < cfg.maxIterations && id in g.nodes && g.nodes[id].executor(state).Some? {
      var state' := g.nodes[id].executor(state).value;
      OneAlong(g, id, state);
      NoMissing(g, id, state', g.edges);
      OnlyConditionsFail(g, id, state', g.edges);
      if id !in cfg.exitNodes && NextOf(g, id, state', g.edges).Go? {
        var target := NextOf(g, id, state', g.edges).target;
        RunFollows(cfg, g, target, state', n + 1);
        var rest := RunFrom(cfg, g, target, state', n + 1).trace;
        assert ([id] + rest)[1..] == rest;
      }
    }
  }

  lemma {:induction false} OneAlong(g: Graph, id: string, state: Record)
    requires id in g.nodes
    ensures StateAlong(g, [id], state) == g.nodes[id].executor(state)
  {
    assert [id][1..] == [];
  }

  lemma {:induction false} OnlyConditionsFail(g: Graph, id: string, state: Record, edges: seq<GraphEdge>)
    ensures var next := NextOf(g, id, state, edges); next.Fails? ==> next.error.ConditionThrew? || next.error.BadTarget?
  {
    if edges == [] {
      NoMissingDefault(id, g.edges);
    } else {
      OnlyConditionsFail(g, id, state, edges[1..]);
    }
  }
}
