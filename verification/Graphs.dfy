/** Directed graphs over string ids, given as a list of edges, and small facts about
    sequences without repetition that the workflow proofs share. */
module Graphs {

  /** An edge says that `dst` depends on `src`. */
  datatype Edge = Edge(src: string, dst: string)

  ghost predicate NoDup<T>(s: seq<T>) {
    forall i, j :: 0 <= i < j < |s| ==> s[i] != s[j]
  }

  ghost function Elems<T>(s: seq<T>): set<T> {
    set x | x in s
  }

  /** `p` follows edges from its first vertex to its last one. */
  ghost predicate IsWalk(es: seq<Edge>, p: seq<string>) {
    forall i :: 0 <= i < |p| - 1 ==> Edge(p[i], p[i + 1]) in es
  }

  /** There is a walk of at least one edge from `u` to `v`. */
  ghost predicate Reaches(es: seq<Edge>, u: string, v: string) {
    exists p :: IsWalk(es, p) && 2 <= |p| && p[0] == u && p[|p| - 1] == v
  }

  ghost predicate Cyclic(es: seq<Edge>) {
    exists u :: Reaches(es, u, u)
  }

  /** A sequence without repetition is no longer than any set it draws from. */
  lemma {:induction false} NoDupLength<T>(s: seq<T>, domain: set<T>)
    requires NoDup(s) && forall x :: x in s ==> x in domain
    ensures |s| <= |domain|
  {
    if s == [] {
    } else {
      var last := s[|s| - 1];
      NoDupLength(s[..|s| - 1], domain - {last});
    }
  }

  lemma {:induction false} NoDupCardinality<T>(s: seq<T>)
    requires NoDup(s)
    ensures |Elems(s)| == |s|
  {
    if s == [] {
    } else {
      var front, last := s[..|s| - 1], s[|s| - 1];
      NoDupCardinality(front);
      assert s == front + [last];
      assert Elems(s) == Elems(front) + {last};
    }
  }

  /** Pigeonhole: a sequence longer than the set it draws from repeats an element. */
  lemma {:induction false} Pigeonhole<T>(s: seq<T>, domain: set<T>) returns (i: nat, j: nat)
    requires forall x :: x in s ==> x in domain
    requires |domain| < |s|
    ensures i < j < |s| && s[i] == s[j]
  {
    if NoDup(s) {
      NoDupLength(s, domain);
      assert false;
    }
    i, j :| 0 <= i < j < |s| && s[i] == s[j];
  }

  lemma {:induction false} ReachesEdge(es: seq<Edge>, u: string, v: string)
    requires Edge(u, v) in es
    ensures Reaches(es, u, v)
  {
    var p := [u, v];
    assert IsWalk(es, p);
  }

  lemma {:induction false} ReachesTrans(es: seq<Edge>, u: string, v: string, w: string)
    requires Reaches(es, u, v) && Reaches(es, v, w)
    ensures Reaches(es, u, w)
  {
    var p :| IsWalk(es, p) && 2 <= |p| && p[0] == u && p[|p| - 1] == v;
    var q :| IsWalk(es, q) && 2 <= |q| && q[0] == v && q[|q| - 1] == w;
    var r := p + q[1..];
    forall i | 0 <= i < |r| - 1
      ensures Edge(r[i], r[i + 1]) in es
    {
      if i < |p| - 1 {
        assert r[i] == p[i] && r[i + 1] == p[i + 1];
      } else {
        var k := i - (|p| - 1);
        assert r[i] == q[k] && r[i + 1] == q[k + 1];
      }
    }
    assert IsWalk(es, r) && r[0] == u && r[|r| - 1] == w;
  }

  /** Every edge leads forward in `order`; then so does every walk. */
  ghost predicate Forward(es: seq<Edge>, order: seq<string>) {
    forall e, k :: e in es && 0 <= k < |order| && e.dst == order[k] ==> e.src in order[..k]
  }

  /** A walk that ends inside a forward order lies in it, strictly before its end. */
  lemma {:induction false} WalkGoesForward(es: seq<Edge>, order: seq<string>, p: seq<string>, k: nat)
    requires Forward(es, order) && IsWalk(es, p) && 2 <= |p|
    requires k < |order| && p[|p| - 1] == order[k]
    ensures p[0] in order[..k]
    decreases |p|
  {
    var n := |p|;
    assert Edge(p[n - 2], p[n - 1]) in es;
    var j :| 0 <= j < k && order[j] == p[n - 2];
    if n > 2 {
      WalkGoesForward(es, order, p[..n - 1], j);
      assert order[..j] <= order[..k];
    }
  }

  lemma {:induction false} ReachesGoesForward(es: seq<Edge>, order: seq<string>, u: string, k: nat)
    requires Forward(es, order) && k < |order| && Reaches(es, u, order[k])
    ensures u in order[..k]
  {
    var p :| IsWalk(es, p) && 2 <= |p| && p[0] == u && p[|p| - 1] == order[k];
    WalkGoesForward(es, order, p, k);
  }

  lemma {:induction false} SubWalk(es: seq<Edge>, p: seq<string>, lo: nat, hi: nat)
    requires IsWalk(es, p) && lo <= hi <= |p|
    ensures IsWalk(es, p[lo..hi])
  {
    forall k | 0 <= k < hi - lo - 1
      ensures Edge(p[lo..hi][k], p[lo..hi][k + 1]) in es
    {
      assert Edge(p[lo + k], p[lo + k + 1]) in es;
    }
  }

  ghost predicate HasPredecessorIn(es: seq<Edge>, domain: set<string>, v: string) {
    exists u :: u in domain && Edge(u, v) in es
  }

  /** A set in which every vertex has a predecessor contains a cycle. */
  lemma {:induction false} ClosedUnderPredecessorsIsCyclic(es: seq<Edge>, blocked: set<string>)
    requires blocked != {}
    requires forall v {:trigger HasPredecessorIn(es, blocked, v)} :: v in blocked ==> HasPredecessorIn(es, blocked, v)
    ensures Cyclic(es)
  {
    var v :| v in blocked;
    var p := BackwardWalk(es, blocked, v, |blocked| + 1);
    var i, j := Pigeonhole(p, blocked);
    SubWalk(es, p, i, j + 1);
    assert Reaches(es, p[i], p[i]) by {
      var q := p[i..j + 1];
      assert q[0] == p[i] && q[|q| - 1] == p[j];
    }
  }

  lemma {:induction false} BackwardWalk(es: seq<Edge>, blocked: set<string>, v: string, n: nat)
    returns (p: seq<string>)
    requires v in blocked && 1 <= n
    requires forall v {:trigger HasPredecessorIn(es, blocked, v)} :: v in blocked ==> HasPredecessorIn(es, blocked, v)
    ensures |p| == n && IsWalk(es, p) && p[n - 1] == v
    ensures forall x :: x in p ==> x in blocked
    decreases n
  {
    if n == 1 {
      p := [v];
    } else {
      assert HasPredecessorIn(es, blocked, v);
      var u :| u in blocked && Edge(u, v) in es;
      var q := BackwardWalk(es, blocked, u, n - 1);
      p := q + [v];
    }
  }
}
