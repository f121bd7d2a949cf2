/** The queue of Kahn's algorithm is first in, first out. On a graph whose edges lead from each layer to the
    next, it therefore settles on one order: layer by layer, and by number within a layer. */
module KahnLevels {
  import opened Graphs
  import opened Workflows
  import opened Kahn

  datatype Rank = Rank(level: nat, num: nat)

  predicate Before(a: Rank, b: Rank) {
    a.level < b.level || (a.level == b.level && a.num < b.num)
  }

  /** The sequence goes by level, and by number within a level. */
  ghost predicate Ranked(rank: string -> Rank, s: seq<string>) {
    forall i, j :: 0 <= i < j < |s| ==> Before(rank(s[i]), rank(s[j]))
  }

  ghost predicate ByNumber(rank: string -> Rank, s: seq<string>) {
    forall i, j :: 0 <= i < j < |s| ==> rank(s[i]).num <= rank(s[j]).num
  }

  ghost predicate Numbered(rank: string -> Rank, s: seq<string>) {
    forall i, j :: 0 <= i < j < |s| ==> rank(s[i]).num < rank(s[j]).num
  }

  ghost predicate HasSource(es: seq<Edge>, v: string) {
    exists u :: Edge(u, v) in es
  }

  /** Of two edges between the same two levels, the one from the earlier source has the earlier target, or
      its target is one of the later source too. */
  ghost predicate InStep(rank: string -> Rank, es: seq<Edge>, e: Edge, f: Edge) {
    rank(e.src).level == rank(f.src).level && rank(e.src).num < rank(f.src).num ==>
      rank(e.dst).num < rank(f.dst).num || Edge(f.src, e.dst) in es
  }

  /** Edges lead to the next level, only level 0 has no edges into it, numbers go up along the vertices and
      along each adjacency list, and edges between two levels keep step. */
  ghost predicate Layered(rank: string -> Rank, ns: seq<string>, es: seq<Edge>) {
    && (forall e :: e in es ==> rank(e.dst).level == rank(e.src).level + 1)
    && (forall v :: v in ns && rank(v).level > 0 ==> HasSource(es, v))
    && Numbered(rank, ns)
    && (forall u :: ByNumber(rank, Adjacent(es, u)))
    && (forall e, f :: e in es && f in es ==> InStep(rank, es, e, f))
  }

  lemma {:induction false} ByNumberTail(rank: string -> Rank, s: seq<string>)
    requires s != [] && ByNumber(rank, s)
    ensures ByNumber(rank, s[1..]) && forall x :: x in s[1..] ==> rank(s[0]).num <= rank(x).num
  {
    forall x | x in s[1..]
      ensures rank(s[0]).num <= rank(x).num
    {
      var k :| 0 <= k < |s[1..]| && s[1..][k] == x;
      assert s[k + 1] == x;
    }
  }

  lemma {:induction false} ByNumberCons(rank: string -> Rank, x: string, s: seq<string>)
    requires ByNumber(rank, s) && forall y :: y in s ==> rank(x).num <= rank(y).num
    ensures ByNumber(rank, [x] + s)
  {
    var r := [x] + s;
    assert forall k :: 0 < k < |r| ==> r[k] == s[k - 1] && r[k] in s;
  }

  /** Relaxing appends to the queue, in the order of the neighbours. */
  lemma {:induction false} RelaxAppends(rank: string -> Rank, neighbors: seq<string>, f: Frontier) returns (add: seq<string>)
    requires ByNumber(rank, neighbors)
    ensures Relax(neighbors, f).queue == f.queue + add && ByNumber(rank, add)
    ensures forall x :: x in add ==> x in neighbors
    decreases |neighbors|
  {
    hide ByNumber, RelaxOne;
    if neighbors == [] {
      add := [];
      assert f.queue + add == f.queue;
      NothingByNumber(rank);
    } else {
      var n, f' := neighbors[0], RelaxOne(neighbors[0], f);
      ByNumberTail(rank, neighbors);
      add := RelaxAppends(rank, neighbors[1..], f');
      RelaxOneQueue(n, f);
      if f'.queue != f.queue {
        assert f.queue + [n] + add == f.queue + ([n] + add);
        ByNumberCons(rank, n, add);
        add := [n] + add;
      }
    }
  }

  lemma RelaxOneQueue(n: string, f: Frontier)
    ensures RelaxOne(n, f).queue == f.queue || RelaxOne(n, f).queue == f.queue + [n]
  {
  }

  lemma NothingByNumber(rank: string -> Rank)
    ensures ByNumber(rank, [])
  {
  }

  /** A vertex in the queue waits for no other. */
  lemma {:induction false} NothingAwaited(ns: seq<string>, es: seq<Edge>, f: Frontier, out: seq<string>, w: string)
    requires Inv(ns, es, f, out) && f.queue != [] && w in f.queue
    ensures Edge(f.queue[0], w) !in es
    ensures forall x :: Edge(x, w) in es ==> x in out
  {
    hide InDegree, Forward;
    var u, s := f.queue[0], out + f.queue;
    assert w in s && w in ns;
    InDegreeZero(es, w, Elems(out));
    forall k | 0 <= k < |out|
      ensures out[k] != u
    {
      assert s[k] == out[k] && s[|out|] == u;
    }
    forall x | Edge(x, w) in es
      ensures x in out
    {
      assert Edge(x, w).dst == w;
    }
  }

  /** What was queued before comes before what a vertex appends. */
  lemma {:induction false} QueuedBefore(rank: string -> Rank, ns: seq<string>, es: seq<Edge>, f: Frontier, out: seq<string>, w: string, v: string)
    requires Inv(ns, es, f, out) && f.queue != [] && Layered(rank, ns, es) && Ranked(rank, out + f.queue)
    requires w in f.queue[1..] && Edge(f.queue[0], v) in es
    ensures Before(rank(w), rank(v))
  {
    hide Adjacent, ByNumber, Numbered, Inv;
    var u, s := f.queue[0], out + f.queue;
    NothingAwaited(ns, es, f, out, w);
    QueueAmong(ns, es, f, out, w);
    if rank(w).level > 0 {
      var x :| Edge(x, w) in es;
      var k :| 0 <= k < |out| && out[k] == x;
      assert s[k] == x && s[|out|] == u;
      assert Before(rank(x), rank(u));
      assert InStep(rank, es, Edge(x, w), Edge(u, v));
    }
  }

  lemma QueueAmong(ns: seq<string>, es: seq<Edge>, f: Frontier, out: seq<string>, w: string)
    requires Inv(ns, es, f, out) && w in f.queue
    ensures w in ns
  {
    assert w in out + f.queue;
  }

  lemma InvQueue(ns: seq<string>, es: seq<Edge>, f: Frontier, out: seq<string>)
    requires Inv(ns, es, f, out)
    ensures NoDup(out + f.queue) && forall v :: v in out + f.queue ==> v in ns
  {
  }

  lemma {:induction false} RankedConcat(rank: string -> Rank, a: seq<string>, b: seq<string>)
    requires Ranked(rank, a) && Ranked(rank, b)
    requires forall i, j :: 0 <= i < |a| && 0 <= j < |b| ==> Before(rank(a[i]), rank(b[j]))
    ensures Ranked(rank, a + b)
  {
    hide Before;
  }

  lemma {:induction false} PassKeepsRanked(rank: string -> Rank, ns: seq<string>, es: seq<Edge>, f: Frontier, out: seq<string>)
    requires Inv(ns, es, f, out) && f.queue != [] && Layered(rank, ns, es) && Ranked(rank, out + f.queue)
    ensures Ranked(rank, out + [f.queue[0]] + Pass(es, f).queue)
  {
    hide Adjacent, Relax, Inv, Ranked, Before, Layered, ByNumber, NoDup;
    var u, s := f.queue[0], out + f.queue;
    AdjacentByNumber(rank, ns, es, u);
    var add := RelaxAppends(rank, Adjacent(es, u), f.(queue := f.queue[1..]));
    AdjacentAreTargets(es, u);
    PassKeepsInv(ns, es, f, out);
    InvQueue(ns, es, Pass(es, f), out + [u]);
    assert out + [u] + Pass(es, f).queue == s + add;
    NewRanked(rank, ns, es, u, add, s);
    forall i, j | 0 <= i < |s| && 0 <= j < |add|
      ensures Before(rank(s[i]), rank(add[j]))
    {
      assert add[j] in add;
      OldBeforeNew(rank, ns, es, f, out, i, add[j]);
    }
    RankedConcat(rank, s, add);
  }

  lemma AdjacentByNumber(rank: string -> Rank, ns: seq<string>, es: seq<Edge>, u: string)
    requires Layered(rank, ns, es)
    ensures ByNumber(rank, Adjacent(es, u))
  {
  }

  lemma {:induction false} OldBeforeNew(rank: string -> Rank, ns: seq<string>, es: seq<Edge>, f: Frontier, out: seq<string>, i: nat, v: string)
    requires Inv(ns, es, f, out) && f.queue != [] && Layered(rank, ns, es) && Ranked(rank, out + f.queue)
    requires i < |out + f.queue| && Edge(f.queue[0], v) in es
    ensures Before(rank((out + f.queue)[i]), rank(v))
  {
    hide Inv, InStep, ByNumber, Numbered;
    var u, s := f.queue[0], out + f.queue;
    assert s[|out|] == u;
    assert rank(Edge(u, v).dst).level == rank(u).level + 1;
    if i < |out| {
      assert Before(rank(s[i]), rank(s[|out|]));
    } else if i > |out| {
      assert f.queue[1..][i - |out| - 1] == s[i];
      QueuedBefore(rank, ns, es, f, out, s[i], v);
    }
  }

  /** What one vertex appends is in order: all of one level, with different numbers. */
  lemma {:induction false} NewRanked(rank: string -> Rank, ns: seq<string>, es: seq<Edge>, u: string, add: seq<string>, s: seq<string>)
    requires Layered(rank, ns, es) && ByNumber(rank, add) && NoDup(s + add)
    requires forall v :: v in s + add ==> v in ns
    requires forall v :: v in add ==> Edge(u, v) in es
    ensures Ranked(rank, add)
  {
    hide Adjacent, InStep;
    forall i, j | 0 <= i < j < |add|
      ensures Before(rank(add[i]), rank(add[j]))
    {
      assert add[i] in add && add[j] in add;
      assert rank(Edge(u, add[i]).dst).level == rank(Edge(u, add[j]).dst).level;
      assert (s + add)[|s| + i] == add[i] && (s + add)[|s| + j] == add[j];
      DifferentNumbers(rank, ns, add[i], add[j]);
    }
  }

  lemma {:induction false} DifferentNumbers(rank: string -> Rank, ns: seq<string>, v: string, w: string)
    requires Numbered(rank, ns) && v in ns && w in ns && v != w
    ensures rank(v).num != rank(w).num
  {
    var a :| 0 <= a < |ns| && ns[a] == v;
    var b :| 0 <= b < |ns| && ns[b] == w;
  }

  lemma {:induction false} DrainRanked(rank: string -> Rank, ns: seq<string>, es: seq<Edge>, f: Frontier, out: seq<string>)
    requires Inv(ns, es, f, out) && Layered(rank, ns, es) && Ranked(rank, out + f.queue)
    ensures Ranked(rank, Drain(ns, es, f, out))
    decreases |Elems(ns)| - |out|
  {
    hide Inv, Layered, Ranked, Pass;
    if f.queue == [] {
      assert out + f.queue == out;
    } else {
      PassKeepsInv(ns, es, f, out);
      PassKeepsRanked(rank, ns, es, f, out);
      DrainRanked(rank, ns, es, Pass(es, f), out + [f.queue[0]]);
    }
  }

  lemma {:induction false} SourcesNumbered(rank: string -> Rank, ns: seq<string>, es: seq<Edge>)
    requires Numbered(rank, ns)
    ensures Numbered(rank, Sources(ns, es)) && forall v :: v in Sources(ns, es) ==> v in ns
  {
    hide InDegree;
    if ns == [] {
    } else {
      var front, last := ns[..|ns| - 1], ns[|ns| - 1];
      SourcesNumbered(rank, front, es);
      var found := Sources(front, es);
      forall i | 0 <= i < |found|
        ensures rank(found[i]).num < rank(last).num
      {
        assert found[i] in front;
        var k :| 0 <= k < |front| && front[k] == found[i];
        assert ns[k] == found[i];
      }
    }
  }

  lemma {:induction false} UnblockedHasNoSource(es: seq<Edge>, v: string)
    requires InDegree(es, v, {}) == 0
    ensures !HasSource(es, v)
  {
    hide InDegree;
    InDegreeZero(es, v, {});
    forall u
      ensures Edge(u, v) !in es
    {
      assert Edge(u, v).dst == v && Edge(u, v).src == u;
    }
  }

  lemma {:induction false} SourcesRanked(rank: string -> Rank, ns: seq<string>, es: seq<Edge>)
    requires NoDup(ns) && Layered(rank, ns, es)
    ensures Ranked(rank, Sources(ns, es))
  {
    hide InDegree, Adjacent, InStep, ByNumber, HasSource;
    var q := Sources(ns, es);
    SourcesAreUnblocked(ns, es);
    SourcesNumbered(rank, ns, es);
    forall i | 0 <= i < |q|
      ensures rank(q[i]).level == 0
    {
      assert q[i] in q;
      UnblockedHasNoSource(es, q[i]);
    }
  }

  /** The order that Kahn's algorithm settles on for a layered graph. */
  lemma {:induction false} OrderRanked(rank: string -> Rank, ns: seq<string>, es: seq<Edge>)
    requires NoDup(ns) && (forall e :: e in es ==> e.dst in ns) && Layered(rank, ns, es)
    ensures Ranked(rank, Order(ns, es))
  {
    hide Ranked, Layered, InDegree, Inv;
    InitialInv(ns, es);
    SourcesRanked(rank, ns, es);
    assert [] + Sources(ns, es) == Sources(ns, es);
    DrainRanked(rank, ns, es, Initial(ns, es), []);
  }
}
