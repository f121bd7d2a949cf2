/** Kahn's algorithm: the specification of the queue loop that the builder's cycle check and the
    durable executor's ordering both run, and what its output means for the graph. */
module Kahn {
  import opened Options
  import opened Graphs
  import opened Workflows

  /** How many edges enter `v` from vertices outside `done`. */
  function InDegree(es: seq<Edge>, v: string, done: set<string>): nat {
    if es == [] then 0
    else
      var last := es[|es| - 1];
      InDegree(es[..|es| - 1], v, done) + if last.dst == v && last.src !in done then 1 else 0
  }

  /** The targets of the edges that leave `u`, in edge order: the adjacency list of `u`. */
  function Adjacent(es: seq<Edge>, u: string): seq<string> {
    if es == [] then []
    else
      var last := es[|es| - 1];
      Adjacent(es[..|es| - 1], u) + if last.src == u then [last.dst] else []
  }

  datatype Frontier = Frontier(deg: map<string, int>, queue: seq<string>)

  /** Decrement each neighbour in turn, queueing those that reach zero. */
  function Relax(neighbors: seq<string>, f: Frontier): Frontier {
    if neighbors == [] then f
    else Relax(neighbors[1..], RelaxOne(neighbors[0], f))
  }

  function RelaxOne(n: string, f: Frontier): Frontier {
    var newDeg := (if n in f.deg then f.deg[n] else 1) - 1;
    Frontier(f.deg[n := newDeg], if newDeg == 0 then f.queue + [n] else f.queue)
  }

  /** The state between two passes of the queue loop, `out` being the vertices dequeued so far. */
  ghost predicate Inv(ns: seq<string>, es: seq<Edge>, f: Frontier, out: seq<string>) {
    && (forall e :: e in es ==> e.dst in ns)
    && f.deg.Keys == Elems(ns)
    && NoDup(out + f.queue)
    && (forall v :: v in out + f.queue ==> v in ns)
    && (forall v :: v in ns ==> f.deg[v] == InDegree(es, v, Elems(out)))
    && (forall v :: v in ns ==> (v in out + f.queue <==> f.deg[v] == 0))
    && Forward(es, out)
  }

  /** The same in the middle of relaxing the last vertex of `out`, `rest` being the neighbours
      still to be decremented. */
  ghost predicate Mid(ns: seq<string>, es: seq<Edge>, f: Frontier, out: seq<string>, rest: seq<string>) {
    && f.deg.Keys == Elems(ns)
    && NoDup(out + f.queue)
    && (forall v :: v in out + f.queue ==> v in ns)
    && (forall v :: v in rest ==> v in ns)
    && (forall v :: v in ns ==> f.deg[v] == InDegree(es, v, Elems(out)) + multiset(rest)[v])
    && (forall v :: v in ns ==> (v in out + f.queue <==> f.deg[v] == 0))
  }

  lemma {:induction false} InDegreeZero(es: seq<Edge>, v: string, done: set<string>)
    ensures InDegree(es, v, done) == 0 <==> forall e :: e in es && e.dst == v ==> e.src in done
  {
    if es == [] {
    } else {
      var front, last := es[..|es| - 1], es[|es| - 1];
      assert es == front + [last];
      InDegreeZero(front, v, done);
    }
  }

  lemma {:induction false} InDegreeDone(es: seq<Edge>, v: string, done: set<string>, u: string)
    requires u !in done
    ensures InDegree(es, v, done) == InDegree(es, v, done + {u}) + multiset(Adjacent(es, u))[v]
  {
    if es == [] {
    } else {
      var front, last := es[..|es| - 1], es[|es| - 1];
      InDegreeDone(front, v, done, u);
    }
  }

  lemma {:induction false} AdjacentAreTargets(es: seq<Edge>, u: string)
    ensures forall v :: v in Adjacent(es, u) ==> Edge(u, v) in es
  {
    if es == [] {
    } else {
      var front, last := es[..|es| - 1], es[|es| - 1];
      assert es == front + [last];
      AdjacentAreTargets(front, u);
    }
  }

  /** Dequeuing the head of the queue starts a relaxation of its neighbours. */
  lemma {:induction false} Dequeue(ns: seq<string>, es: seq<Edge>, f: Frontier, out: seq<string>)
    requires Inv(ns, es, f, out) && f.queue != []
    ensures Mid(ns, es, f.(queue := f.queue[1..]), out + [f.queue[0]], Adjacent(es, f.queue[0]))
    ensures Forward(es, out + [f.queue[0]])
  {
    var u := f.queue[0];
    var out' := out + [u];
    assert out' + f.queue[1..] == out + f.queue;
    assert (out + f.queue)[|out|] == u;
    assert u in out + f.queue;
    forall k | 0 <= k < |out|
      ensures out[k] != u
    {
      assert (out + f.queue)[k] == out[k];
    }
    assert Elems(out') == Elems(out) + {u};
    forall v | v in ns
      ensures f.deg[v] == InDegree(es, v, Elems(out')) + multiset(Adjacent(es, u))[v]
    {
      InDegreeDone(es, v, Elems(out), u);
    }
    AdjacentAreTargets(es, u);
    DequeuedForward(ns, es, f, out);
  }

  lemma {:induction false} DequeuedForward(ns: seq<string>, es: seq<Edge>, f: Frontier, out: seq<string>)
    requires Inv(ns, es, f, out) && f.queue != []
    ensures Forward(es, out + [f.queue[0]])
  {
    hide InDegree;
    var u := f.queue[0];
    var out' := out + [u];
    assert (out + f.queue)[|out|] == u;
    assert u in out + f.queue;
    InDegreeZero(es, u, Elems(out));
    forall e, k | e in es && 0 <= k < |out'| && e.dst == out'[k]
      ensures e.src in out'[..k]
    {
      if k == |out| {
        assert out'[..k] == out;
      } else {
        assert out'[..k] == out[..k];
      }
    }
  }

  lemma {:induction false} RelaxOneKeepsMid(ns: seq<string>, es: seq<Edge>, f: Frontier, out: seq<string>, rest: seq<string>)
    requires Mid(ns, es, f, out, rest) && rest != []
    ensures Mid(ns, es, RelaxOne(rest[0], f), out, rest[1..])
  {
    var n := rest[0];
    assert rest == [n] + rest[1..];
    assert multiset(rest)[n] == multiset(rest[1..])[n] + 1;
    assert f.deg[n] > 0;
    assert n !in out + f.queue;
    var f' := RelaxOne(n, f);
    if f'.deg[n] == 0 {
      assert out + f'.queue == (out + f.queue) + [n];
    }
  }

  lemma {:induction false} RelaxKeepsMid(ns: seq<string>, es: seq<Edge>, f: Frontier, out: seq<string>, rest: seq<string>)
    requires Mid(ns, es, f, out, rest)
    ensures Mid(ns, es, Relax(rest, f), out, [])
    decreases |rest|
  {
    if rest == [] {
    } else {
      RelaxOneKeepsMid(ns, es, f, out, rest);
      RelaxKeepsMid(ns, es, RelaxOne(rest[0], f), out, rest[1..]);
    }
  }

  /** One pass of the queue loop. */
  function Pass(es: seq<Edge>, f: Frontier): Frontier
    requires f.queue != []
  {
    Relax(Adjacent(es, f.queue[0]), f.(queue := f.queue[1..]))
  }

  lemma {:induction false} PassKeepsInv(ns: seq<string>, es: seq<Edge>, f: Frontier, out: seq<string>)
    requires Inv(ns, es, f, out) && f.queue != []
    ensures Inv(ns, es, Pass(es, f), out + [f.queue[0]])
    ensures |out| < |Elems(ns)|
  {
    var u := f.queue[0];
    Dequeue(ns, es, f, out);
    RelaxKeepsMid(ns, es, f.(queue := f.queue[1..]), out + [u], Adjacent(es, u));
    MidIsInv(ns, es, Pass(es, f), out + [u]);
    NoDupLength(out + f.queue, Elems(ns));
  }

  lemma MidIsInv(ns: seq<string>, es: seq<Edge>, f: Frontier, out: seq<string>)
    requires Mid(ns, es, f, out, []) && Forward(es, out)
    requires forall e :: e in es ==> e.dst in ns
    ensures Inv(ns, es, f, out)
  {
  }

  /** What the queue loop dequeues from here on, after `out`. */
  ghost function Drain(ns: seq<string>, es: seq<Edge>, f: Frontier, out: seq<string>): seq<string>
    requires Inv(ns, es, f, out)
    decreases |Elems(ns)| - |out|
  {
    if f.queue == [] then out
    else
      PassKeepsInv(ns, es, f, out);
      Drain(ns, es, Pass(es, f), out + [f.queue[0]])
  }

  /** The state in which the queue loop starts. */
  ghost function Initial(ns: seq<string>, es: seq<Edge>): (f: Frontier)
  {
    Frontier(map v | v in Elems(ns) :: InDegree(es, v, {}), Sources(ns, es))
  }

  function Sources(ns: seq<string>, es: seq<Edge>): seq<string> {
    if ns == [] then []
    else
      var last := ns[|ns| - 1];
      Sources(ns[..|ns| - 1], es) + if InDegree(es, last, {}) == 0 then [last] else []
  }

  lemma {:induction false} SourcesAreUnblocked(ns: seq<string>, es: seq<Edge>)
    requires NoDup(ns)
    ensures NoDup(Sources(ns, es))
    ensures forall v :: v in Sources(ns, es) <==> v in ns && InDegree(es, v, {}) == 0
  {
    if ns == [] {
    } else {
      var front, last := ns[..|ns| - 1], ns[|ns| - 1];
      assert ns == front + [last];
      SourcesAreUnblocked(front, es);
    }
  }

  lemma {:induction false} InitialInv(ns: seq<string>, es: seq<Edge>)
    requires NoDup(ns) && forall e :: e in es ==> e.dst in ns
    ensures Inv(ns, es, Initial(ns, es), [])
  {
    SourcesAreUnblocked(ns, es);
    var q := Sources(ns, es);
    assert [] + q == q;
    assert Elems<string>([]) == {};
  }

  /** The whole run: the ids in the order in which the loop dequeues them. */
  ghost function Order(ns: seq<string>, es: seq<Edge>): seq<string>
    requires NoDup(ns) && forall e :: e in es ==> e.dst in ns
  {
    InitialInv(ns, es);
    Drain(ns, es, Initial(ns, es), [])
  }

  /** When the queue is empty, what was dequeued is a forward order, and a vertex is missing from
      it exactly when it has a missing predecessor. */
  lemma {:induction false} DrainFinal(ns: seq<string>, es: seq<Edge>, f: Frontier, out: seq<string>)
    requires Inv(ns, es, f, out)
    ensures var r := Drain(ns, es, f, out);
      && NoDup(r)
      && (forall v :: v in r ==> v in ns)
      && Forward(es, r)
      && (forall v {:trigger Blocks(es, r, v)} :: v in ns && v !in r ==> Blocks(es, r, v))
    decreases |Elems(ns)| - |out|
  {
    if f.queue == [] {
      assert out + f.queue == out;
      forall v | v in ns && v !in out
        ensures Blocks(es, out, v)
      {
        InDegreeZero(es, v, Elems(out));
        var e :| e in es && e.dst == v && e.src !in Elems(out);
        assert e == Edge(e.src, v);
      }
    } else {
      PassKeepsInv(ns, es, f, out);
      DrainFinal(ns, es, Pass(es, f), out + [f.queue[0]]);
    }
  }

  lemma {:induction false} OrderFinal(ns: seq<string>, es: seq<Edge>)
    requires NoDup(ns) && forall e :: e in es ==> e.dst in ns
    ensures var r := Order(ns, es);
      && NoDup(r)
      && (forall v :: v in r ==> v in ns)
      && Forward(es, r)
      && (forall v {:trigger Blocks(es, r, v)} :: v in ns && v !in r ==> Blocks(es, r, v))
  {
    InitialInv(ns, es);
    DrainFinal(ns, es, Initial(ns, es), []);
  }

  /** Kahn's algorithm dequeues every vertex exactly when every edge starts at a vertex and the
      graph has no cycle. */
  lemma {:induction false} OrderIsExact(ns: seq<string>, es: seq<Edge>)
    requires NoDup(ns) && forall e :: e in es ==> e.dst in ns
    ensures |Order(ns, es)| == |ns| <==> (forall e :: e in es ==> e.src in ns) && !Cyclic(es)
    ensures |Order(ns, es)| == |ns| <==> Elems(Order(ns, es)) == Elems(ns)
    ensures |Order(ns, es)| <= |ns|
  {
    OrderFinal(ns, es);
    var r := Order(ns, es);
    NoDupCardinality(ns);
    NoDupCardinality(r);
    assert Elems(r) <= Elems(ns);
    SameSizeSubset(Elems(r), Elems(ns));
    NoDupLength(r, Elems(ns));
    if Elems(r) == Elems(ns) {
      ForwardCoverIsAcyclic(ns, es, r);
    } else if (forall e :: e in es ==> e.src in ns) {
      BlockedIsCyclic(ns, es, r);
    }
  }

  ghost predicate Blocks(es: seq<Edge>, r: seq<string>, v: string) {
    exists u :: u !in r && Edge(u, v) in es
  }

  lemma {:induction false} BlockedIsCyclic(ns: seq<string>, es: seq<Edge>, r: seq<string>)
    requires forall e :: e in es ==> e.src in ns
    requires forall v {:trigger Blocks(es, r, v)} :: v in ns && v !in r ==> Blocks(es, r, v)
    requires !(Elems(ns) <= Elems(r))
    ensures Cyclic(es)
  {
    var blocked := Elems(ns) - Elems(r);
    forall v | v in blocked
      ensures HasPredecessorIn(es, blocked, v)
    {
      assert Blocks(es, r, v);
      var u :| u !in r && Edge(u, v) in es;
      assert Edge(u, v).src in ns;
    }
    var v :| v in Elems(ns) && v !in Elems(r);
    assert v in blocked;
    ClosedUnderPredecessorsIsCyclic(es, blocked);
  }

  lemma {:induction false} SameSizeSubset(a: set<string>, b: set<string>)
    requires a <= b
    ensures |a| == |b| <==> a == b
  {
    assert b == a + (b - a);
  }

  lemma {:induction false} ForwardCoverIsAcyclic(ns: seq<string>, es: seq<Edge>, r: seq<string>)
    requires NoDup(r) && Forward(es, r) && Elems(r) == Elems(ns)
    requires forall e :: e in es ==> e.dst in ns
    ensures (forall e :: e in es ==> e.src in ns) && !Cyclic(es)
  {
    forall e | e in es
      ensures e.src in ns
    {
      assert e.dst in Elems(r);
      var k :| 0 <= k < |r| && r[k] == e.dst;
      assert e.src in r[..k];
      assert e.src in Elems(r);
    }
    forall u
      ensures !Reaches(es, u, u)
    {
      if Reaches(es, u, u) {
        var p :| IsWalk(es, p) && 2 <= |p| && p[0] == u && p[|p| - 1] == u;
        assert Edge(p[|p| - 2], p[|p| - 1]) in es;
        assert u in Elems(r);
        var k :| 0 <= k < |r| && r[k] == u;
        ReachesGoesForward(es, r, u, k);
        assert false;
      }
    }
  }

  // ---- The loops that both copies of the algorithm share ----

  /** The mutable maps agree with the edges gathered so far. */
  ghost predicate Tabulates(inDegree: map<string, int>, adjacency: map<string, seq<string>>, es: seq<Edge>) {
    && (forall v :: v in inDegree ==> inDegree[v] == InDegree(es, v, {}))
    && (forall u :: GetOrEmpty(adjacency, u) == Adjacent(es, u))
  }

  /** The list of `u`, or an empty one. */
  function GetOrEmpty(adjacency: map<string, seq<string>>, u: string): seq<string> {
    if u in adjacency then adjacency[u] else []
  }

  lemma {:induction false} NoEdgesInto(es: seq<Edge>, v: string)
    requires forall e :: e in es ==> e.dst != v
    ensures InDegree(es, v, {}) == 0
  {
    InDegreeZero(es, v, {});
  }

  /** Entering one more edge in both maps. */
  lemma {:induction false} TabulatesSnoc(inDegree: map<string, int>, adjacency: map<string, seq<string>>, es: seq<Edge>, e: Edge)
    requires Tabulates(inDegree, adjacency, es) && e.dst in inDegree
    ensures Tabulates(
              inDegree[e.dst := inDegree[e.dst] + 1],
              adjacency[e.src := GetOrEmpty(adjacency, e.src) + [e.dst]],
              es + [e])
  {
    hide InDegree, Adjacent;
    var after := es + [e];
    var inDegree' := inDegree[e.dst := inDegree[e.dst] + 1];
    var adjacency' := adjacency[e.src := GetOrEmpty(adjacency, e.src) + [e.dst]];
    forall v | v in inDegree'
      ensures inDegree'[v] == InDegree(after, v, {})
    {
      assert v in inDegree;
      OneMoreEdge(es, e, v);
    }
    forall u
      ensures GetOrEmpty(adjacency', u) == Adjacent(after, u)
    {
      assert GetOrEmpty(adjacency, u) == Adjacent(es, u);
      OneMoreEdge(es, e, u);
      assert Adjacent(es, u) + [] == Adjacent(es, u);
    }
  }

  lemma {:induction false} OneMoreEdge(es: seq<Edge>, e: Edge, v: string)
    ensures InDegree(es + [e], v, {}) == InDegree(es, v, {}) + if e.dst == v then 1 else 0
    ensures Adjacent(es + [e], v) == Adjacent(es, v) + if e.src == v then [e.dst] else []
  {
    var after := es + [e];
    assert after[..|after| - 1] == es && after[|after| - 1] == e;
  }

  /** Entering a vertex that no edge so far enters. */
  lemma {:induction false} TabulatesNewVertex(inDegree: map<string, int>, adjacency: map<string, seq<string>>, es: seq<Edge>, v: string)
    requires Tabulates(inDegree, adjacency, es)
    requires forall e :: e in es ==> e.dst != v
    ensures Tabulates(inDegree[v := 0], adjacency, es)
  {
    NoEdgesInto(es, v);
  }

  lemma {:induction false} TabulatesNewList(inDegree: map<string, int>, adjacency: map<string, seq<string>>, es: seq<Edge>, u: string)
    requires Tabulates(inDegree, adjacency, es) && u !in adjacency
    ensures Tabulates(inDegree, adjacency[u := []], es)
  {
    var adjacency' := adjacency[u := []];
    forall w
      ensures GetOrEmpty(adjacency', w) == Adjacent(es, w)
    {
      assert GetOrEmpty(adjacency, w) == Adjacent(es, w);
    }
  }

  /** The inner loop over a step's dependencies. */
  method AddDependencies(id: string, deps: seq<string>, inDegree0: map<string, int>,
                         adjacency0: map<string, seq<string>>, ghost es: seq<Edge>)
    returns (inDegree: map<string, int>, adjacency: map<string, seq<string>>)
    requires id in inDegree0 && Tabulates(inDegree0, adjacency0, es)
    ensures inDegree.Keys == inDegree0.Keys
    ensures Tabulates(inDegree, adjacency, es + EdgesInto(id, deps))
  {
    hide Tabulates;
    inDegree, adjacency := inDegree0, adjacency0;
    assert es + EdgesInto(id, deps[..0]) == es;
    for k := 0 to |deps|
      invariant inDegree.Keys == inDegree0.Keys
      invariant Tabulates(inDegree, adjacency, es + EdgesInto(id, deps[..k]))
    {
      var dep := deps[k];
      ghost var before := es + EdgesInto(id, deps[..k]);
      assert es + EdgesInto(id, deps[..k + 1]) == before + [Edge(dep, id)] by {
        assert deps[..k + 1][..k] == deps[..k];
      }
      TabulatesSnoc(inDegree, adjacency, before, Edge(dep, id));
      ghost var adjacency' := adjacency[dep := GetOrEmpty(adjacency, dep) + [id]];
      if dep !in adjacency {
        adjacency := adjacency[dep := []];
      }
      adjacency := adjacency[dep := adjacency[dep] + [id]];
      assert adjacency == adjacency';
      inDegree := inDegree[id := (if id in inDegree then inDegree[id] else 0) + 1];
    }
    assert deps[..|deps|] == deps;
  }

  /** The vertices of in-degree zero, in the order of the table. */
  method ZeroDegrees(order: seq<string>, inDegree: map<string, int>, ghost es: seq<Edge>) returns (queue: seq<string>)
    requires forall v :: v in order ==> v in inDegree && inDegree[v] == InDegree(es, v, {})
    ensures queue == Sources(order, es)
  {
    queue := [];
    for k := 0 to |order|
      invariant queue == Sources(order[..k], es)
    {
      assert order[..k + 1][..k] == order[..k];
      if inDegree[order[k]] == 0 {
        queue := queue + [order[k]];
      }
    }
    assert order[..|order|] == order;
  }

  /** The inner loop over the neighbours of a dequeued vertex. */
  method RelaxNeighbors(neighbors: seq<string>, inDegree0: map<string, int>, queue0: seq<string>)
    returns (inDegree: map<string, int>, queue: seq<string>)
    ensures Frontier(inDegree, queue) == Relax(neighbors, Frontier(inDegree0, queue0))
  {
    inDegree, queue := inDegree0, queue0;
    for k := 0 to |neighbors|
      invariant Relax(neighbors[k..], Frontier(inDegree, queue)) == Relax(neighbors, Frontier(inDegree0, queue0))
    {
      var neighbor := neighbors[k];
      var newDeg := (if neighbor in inDegree then inDegree[neighbor] else 1) - 1;
      inDegree := inDegree[neighbor := newDeg];
      if newDeg == 0 {
        queue := queue + [neighbor];
      }
      assert neighbors[k..][1..] == neighbors[k + 1..];
    }
  }

  /** The queue loop itself. */
  method DrainQueue(ghost ns: seq<string>, ghost es: seq<Edge>, inDegree0: map<string, int>,
                    adjacency: map<string, seq<string>>, queue0: seq<string>)
    returns (out: seq<string>)
    requires NoDup(ns) && forall e :: e in es ==> e.dst in ns
    requires inDegree0.Keys == Elems(ns) && Tabulates(inDegree0, adjacency, es)
    requires queue0 == Sources(ns, es)
    ensures out == Order(ns, es)
  {
    var inDegree, queue := inDegree0, queue0;
    out := [];
    InitialInv(ns, es);
    assert Frontier(inDegree, queue) == Initial(ns, es);
    while queue != []
      invariant Inv(ns, es, Frontier(inDegree, queue), out)
      invariant Drain(ns, es, Frontier(inDegree, queue), out) == Order(ns, es)
      decreases |Elems(ns)| - |out|
    {
      PassKeepsInv(ns, es, Frontier(inDegree, queue), out);
      var node := queue[0];
      queue := queue[1..];
      out := out + [node];
      inDegree, queue := RelaxNeighbors(GetOrEmpty(adjacency, node), inDegree, queue);
    }
  }
}
