/** The values that the workflow builder hands to the durable executor. */
module Workflows {
  import opened Options
  import opened Graphs

  datatype Json =
    | Null
    | Bool(b: bool)
    | Num(n: int)
    | Str(s: string)
    | Arr(items: seq<Json>)
    | Obj(fields: map<string, Json>)

  /** A JavaScript record of JSON values; spreading one over another is map `+`. */
  type Record = map<string, Json>

  type Router = Record -> string

  datatype StepKind = SequentialStep | ParallelStep | HandoffStep | ConditionalStep | AggregateStep

  datatype Step = Step(
    id: string,
    agent: string,
    task: string,
    kind: StepKind,
    group: Option<string>,
    dependsOn: Option<seq<string>>,
    condition: Option<Router>,
    metadata: Option<Record>
  ) {
    /** The listed dependencies, or none. */
    function Deps(): seq<string> {
      match dependsOn
      case None => []
      case Some(deps) => deps
    }
  }

  /** The step ids in order of first occurrence: the key order of the in-degree map. */
  function NodeIds(steps: seq<Step>): (ids: seq<string>)
    ensures forall x :: x in ids <==> exists s :: s in steps && s.id == x
    ensures |ids| <= |steps|
  {
    if steps == [] then []
    else
      var last := steps[|steps| - 1];
      var front := NodeIds(steps[..|steps| - 1]);
      assert steps == steps[..|steps| - 1] + [last];
      if last.id in front then front else front + [last.id]
  }

  function EdgesInto(id: string, deps: seq<string>): (es: seq<Edge>)
    ensures |es| == |deps| && forall k :: 0 <= k < |es| ==> es[k] == Edge(deps[k], id)
  {
    if deps == [] then []
    else EdgesInto(id, deps[..|deps| - 1]) + [Edge(deps[|deps| - 1], id)]
  }

  /** One edge for each listed dependency, in the order in which the steps list them. */
  function Edges(steps: seq<Step>): seq<Edge> {
    if steps == [] then []
    else
      var last := steps[|steps| - 1];
      Edges(steps[..|steps| - 1]) + EdgesInto(last.id, last.Deps())
  }

  /** `x` lists `y` among its dependencies. */
  ghost predicate DependsDirectly(steps: seq<Step>, x: string, y: string) {
    exists s :: s in steps && s.id == x && y in s.Deps()
  }

  ghost predicate DependsTransitively(steps: seq<Step>, x: string, y: string) {
    Reaches(Edges(steps), y, x)
  }

  ghost predicate DistinctIds(steps: seq<Step>) {
    forall i, j :: 0 <= i < j < |steps| ==> steps[i].id != steps[j].id
  }

  ghost predicate DepsExist(steps: seq<Step>) {
    forall e :: e in Edges(steps) ==> e.src in NodeIds(steps)
  }

  lemma {:induction false} EdgesIntoMembers(id: string, deps: seq<string>, x: string, y: string)
    ensures Edge(y, x) in EdgesInto(id, deps) <==> id == x && y in deps
  {
    var into := EdgesInto(id, deps);
    if id == x && y in deps {
      var k :| 0 <= k < |deps| && deps[k] == y;
      assert into[k] == Edge(y, x);
    }
  }

  lemma {:induction false} EdgesAreDependencies(steps: seq<Step>, x: string, y: string)
    ensures Edge(y, x) in Edges(steps) <==> DependsDirectly(steps, x, y)
  {
    if steps == [] {
    } else {
      var front, last := steps[..|steps| - 1], steps[|steps| - 1];
      EdgesAreDependencies(front, x, y);
      EdgesIntoMembers(last.id, last.Deps(), x, y);
      assert steps == front + [last];
      assert Edge(y, x) in Edges(steps)
        <==> Edge(y, x) in Edges(front) || Edge(y, x) in EdgesInto(last.id, last.Deps());
    }
  }

  lemma {:induction false} EdgeTargetsAreNodes(steps: seq<Step>)
    ensures forall e :: e in Edges(steps) ==> e.dst in NodeIds(steps)
  {
    forall e | e in Edges(steps)
      ensures e.dst in NodeIds(steps)
    {
      EdgesAreDependencies(steps, e.dst, e.src);
    }
  }

  lemma {:induction false} NodeIdsNoDup(steps: seq<Step>)
    ensures NoDup(NodeIds(steps))
  {
    if steps == [] {
    } else {
      NodeIdsNoDup(steps[..|steps| - 1]);
    }
  }

  lemma {:induction false} DistinctIdsSnoc(front: seq<Step>, last: Step)
    ensures DistinctIds(front + [last])
      <==> DistinctIds(front) && last.id !in NodeIds(front)
  {
    var steps := front + [last];
    if DistinctIds(steps) {
      forall i, j | 0 <= i < j < |front|
        ensures front[i].id != front[j].id
      {
        assert steps[i] == front[i] && steps[j] == front[j];
      }
      forall s | s in front
        ensures s.id != last.id
      {
        var k :| 0 <= k < |front| && front[k] == s;
        assert steps[k] == s && steps[|front|] == last;
      }
    }
    if DistinctIds(front) && last.id !in NodeIds(front) {
      assert forall k :: 0 <= k < |front| ==> front[k] in front && steps[k] == front[k];
    }
  }

  /** The ids number as many as the steps exactly when no two steps share an id. */
  lemma {:induction false} DistinctIdsByCount(steps: seq<Step>)
    ensures |NodeIds(steps)| == |steps| <==> DistinctIds(steps)
  {
    if steps == [] {
    } else {
      var front, last := steps[..|steps| - 1], steps[|steps| - 1];
      assert steps == front + [last];
      DistinctIdsByCount(front);
      DistinctIdsSnoc(front, last);
    }
  }
}
