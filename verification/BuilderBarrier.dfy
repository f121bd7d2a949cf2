/** What a chain of builder calls compiles to: blocks in sequence, each a barrier for the next. */
module BuilderBarrier {
  import opened Options
  import opened Graphs
  import opened Workflows
  import opened Kahn
  import opened WorkflowBuilder

  /** The builder after the given calls. */
  function Run(blocks: seq<Block>): (st: BuilderState)
    ensures st.stepCounter == |st.steps|
  {
    if blocks == [] then BuilderState([], map[], 0, [])
    else Apply(Run(blocks[..|blocks| - 1]), blocks[|blocks| - 1])
  }

  /** The number of the first step of block `i`. */
  function Start(blocks: seq<Block>, i: nat): nat
    requires i <= |blocks|
  {
    Run(blocks[..i]).stepCounter
  }

  /** What the steps of block `i` find in `lastStepIds`. */
  function LastBefore(blocks: seq<Block>, i: nat): seq<string>
    requires i <= |blocks|
  {
    if i == 0 then [] else Finals(blocks[i - 1], Start(blocks, i - 1))
  }

  /** `id` is that of the `t`-th step of block `i`. */
  function IdAt(blocks: seq<Block>, i: nat, t: nat): string
    requires i < |blocks|
  {
    StepId(Start(blocks, i) + t)
  }

  lemma {:induction false} StartSucc(blocks: seq<Block>, i: nat)
    requires i < |blocks|
    ensures Start(blocks, i + 1) == Start(blocks, i) + blocks[i].Size()
    ensures Run(blocks[..i + 1]).lastStepIds == LastBefore(blocks, i + 1)
  {
    assert blocks[..i + 1][..i] == blocks[..i];
  }

  lemma {:induction false} StartMonotone(blocks: seq<Block>, i: nat, j: nat)
    requires i <= j <= |blocks|
    ensures Start(blocks, i) <= Start(blocks, j)
    decreases j - i
  {
    if i < j {
      StartSucc(blocks, i);
      StartMonotone(blocks, i + 1, j);
    }
  }

  lemma {:induction false} LastOfRun(blocks: seq<Block>, i: nat)
    requires i <= |blocks|
    ensures Run(blocks[..i]).lastStepIds == LastBefore(blocks, i)
  {
    if i > 0 {
      StartSucc(blocks, i - 1);
    }
  }

  /** The steps of the compiled workflow, block by block. */
  lemma {:induction false} StepAt(blocks: seq<Block>, i: nat, t: nat)
    requires i < |blocks| && t < blocks[i].Size()
    ensures Start(blocks, i) + t < |Run(blocks).steps|
    ensures Run(blocks).steps[Start(blocks, i) + t] == BlockStep(blocks[i], Start(blocks, i), LastBefore(blocks, i), t)
  {
    hide BlockStep, StepId;
    var n := |blocks| - 1;
    var front := blocks[..n];
    if i == n {
      LastOfRun(blocks, n);
      BlockStepAt(blocks[n], Start(blocks, n), LastBefore(blocks, n), blocks[n].Size(), t);
    } else {
      assert front[..i] == blocks[..i];
      if i > 0 {
        assert front[..i - 1] == blocks[..i - 1];
      }
      StepAt(front, i, t);
    }
  }

  /** Every step belongs to some block. */
  lemma {:induction false} Locate(blocks: seq<Block>, k: nat) returns (i: nat, t: nat)
    requires k < |Run(blocks).steps|
    ensures i < |blocks| && t < blocks[i].Size() && k == Start(blocks, i) + t
  {
    var n := |blocks| - 1;
    assert blocks[..|blocks|] == blocks;
    StartSucc(blocks, n);
    if Start(blocks, n) <= k {
      i, t := n, k - Start(blocks, n);
    } else {
      i, t := Locate(blocks[..n], k);
      assert blocks[..n][..i] == blocks[..i];
    }
  }

  lemma {:induction false} TotalSteps(blocks: seq<Block>)
    ensures Start(blocks, |blocks|) == |Run(blocks).steps|
  {
    assert blocks[..|blocks|] == blocks;
  }

  lemma {:induction false} StepIds(blocks: seq<Block>, k: nat)
    requires k < |Run(blocks).steps|
    ensures Run(blocks).steps[k].id == StepId(k)
  {
    hide StepId, Run, Start, LastBefore;
    var i, t := Locate(blocks, k);
    StepAt(blocks, i, t);
  }

  // ---- Edges ----

  lemma {:induction false} EdgeAt(blocks: seq<Block>, i: nat, t: nat, y: string)
    requires i < |blocks| && t < blocks[i].Size()
    requires y in BlockStep(blocks[i], Start(blocks, i), LastBefore(blocks, i), t).Deps()
    ensures Edge(y, IdAt(blocks, i, t)) in Edges(Run(blocks).steps)
  {
    hide StepId;
    var k := Start(blocks, i) + t;
    StepAt(blocks, i, t);
    StepIds(blocks, k);
    assert Run(blocks).steps[k] in Run(blocks).steps;
    EdgesAreDependencies(Run(blocks).steps, IdAt(blocks, i, t), y);
  }

  /** Every edge comes from a step's own list. */
  lemma {:induction false} EdgeFrom(blocks: seq<Block>, e: Edge) returns (i: nat, t: nat)
    requires e in Edges(Run(blocks).steps)
    ensures i < |blocks| && t < blocks[i].Size()
    ensures e.dst == IdAt(blocks, i, t)
    ensures e.src in BlockStep(blocks[i], Start(blocks, i), LastBefore(blocks, i), t).Deps()
  {
    hide StepId, Run, Start, LastBefore, BlockStep, Edges;
    var steps := Run(blocks).steps;
    assert e == Edge(e.src, e.dst);
    EdgesAreDependencies(steps, e.dst, e.src);
    var s :| s in steps && s.id == e.dst && e.src in s.Deps();
    var k :| 0 <= k < |steps| && steps[k] == s;
    i, t := Locate(blocks, k);
    StepAt(blocks, i, t);
    StepIds(blocks, k);
  }

  /** What a step of a block lists. */
  lemma {:induction false} DepsOfBlockStep(b: Block, c: nat, last: seq<string>, t: nat)
    requires t < b.Size()
    ensures BlockStep(b, c, last, t).Deps() == if b.IsChain() && t > 0 then [StepId(c + t - 1)] else last
  {
    hide StepId, GroupId, PreserveHistory;
  }

  lemma {:induction false} FinalsMembers(b: Block, c: nat, id: string)
    ensures id in Finals(b, c) <==> exists t: nat :: FinalAt(b, t) && id == StepId(c + t)
  {
    hide StepId;
    if b.IsChain() && b.Size() > 0 {
      assert FinalAt(b, b.Size() - 1);
    } else {
      var ids := IdRange(c, c + b.Size());
      if id in ids {
        var t: nat :| t < |ids| && ids[t] == id;
        IdRangeAt(c, c + b.Size(), t);
        assert FinalAt(b, t);
      }
      if t: nat :| FinalAt(b, t) && id == StepId(c + t) {
        IdRangeAt(c, c + b.Size(), t);
        assert ids[t] == id;
      }
    }
  }

  /** The `t`-th step of the block is one of those that the next call will depend on. */
  predicate FinalAt(b: Block, t: nat) {
    t < b.Size() && (b.IsChain() ==> t == b.Size() - 1)
  }

  ghost predicate IsFinalId(blocks: seq<Block>, i: nat, f: nat, id: string)
    requires i < |blocks|
  {
    FinalAt(blocks[i], f) && id == IdAt(blocks, i, f)
  }

  lemma NothingBeforeFirst(blocks: seq<Block>)
    ensures LastBefore(blocks, 0) == []
  {
  }

  lemma {:induction false} LastBeforeMembers(blocks: seq<Block>, i: nat, id: string)
    requires i < |blocks|
    ensures id in LastBefore(blocks, i + 1) <==> exists f: nat :: IsFinalId(blocks, i, f, id)
  {
    hide StepId, Run, Finals, Start;
    var b, c := blocks[i], Start(blocks, i);
    FinalsMembers(b, c, id);
    if f: nat :| FinalAt(b, f) && id == StepId(c + f) {
      assert IsFinalId(blocks, i, f, id);
    }
    if f: nat :| IsFinalId(blocks, i, f, id) {
      assert FinalAt(b, f) && id == StepId(c + f);
    }
  }

  /** An edge joins two neighbours of a chain, or a final step of a block to a step of the next. */
  ghost predicate Joins(blocks: seq<Block>, i: nat, t: nat, j: nat, u: nat)
    requires i < |blocks| && j < |blocks|
  {
    && t < blocks[i].Size() && u < blocks[j].Size()
    && if blocks[j].IsChain() && u > 0 then i == j && t == u - 1 else i == j - 1 && FinalAt(blocks[i], t)
  }

  lemma {:induction false} EdgeJoins(blocks: seq<Block>, e: Edge) returns (i: nat, t: nat, j: nat, u: nat)
    requires e in Edges(Run(blocks).steps)
    ensures i < |blocks| && j < |blocks| && Joins(blocks, i, t, j, u)
    ensures e == Edge(IdAt(blocks, i, t), IdAt(blocks, j, u))
  {
    hide StepId, Run, Finals, Start, LastBefore, BlockStep, Edges;
    j, u := EdgeFrom(blocks, e);
    DepsOfBlockStep(blocks[j], Start(blocks, j), LastBefore(blocks, j), u);
    if blocks[j].IsChain() && u > 0 {
      i, t := j, u - 1;
    } else {
      NothingBeforeFirst(blocks);
      LastBeforeMembers(blocks, j - 1, e.src);
      var f: nat :| IsFinalId(blocks, j - 1, f, e.src);
      i, t := j - 1, f;
    }
  }

  lemma {:induction false} JoinsEdge(blocks: seq<Block>, i: nat, t: nat, j: nat, u: nat)
    requires i < |blocks| && j < |blocks| && Joins(blocks, i, t, j, u)
    ensures Edge(IdAt(blocks, i, t), IdAt(blocks, j, u)) in Edges(Run(blocks).steps)
  {
    hide StepId, Run, Finals, Start, LastBefore, BlockStep, Edges;
    DepsOfBlockStep(blocks[j], Start(blocks, j), LastBefore(blocks, j), u);
    if !(blocks[j].IsChain() && u > 0) {
      assert IsFinalId(blocks, j - 1, t, IdAt(blocks, i, t));
      LastBeforeMembers(blocks, j - 1, IdAt(blocks, i, t));
    }
    EdgeAt(blocks, j, u, IdAt(blocks, i, t));
  }

  /** A step number determines its block and its place in it. */
  lemma {:induction false} SamePlace(blocks: seq<Block>, i: nat, t: nat, j: nat, u: nat)
    requires i < |blocks| && t < blocks[i].Size() && j < |blocks| && u < blocks[j].Size()
    requires IdAt(blocks, i, t) == IdAt(blocks, j, u)
    ensures i == j && t == u
  {
    hide Run, StepId;
    StepIdInjective(Start(blocks, i) + t, Start(blocks, j) + u);
    StartSucc(blocks, i);
    StartSucc(blocks, j);
    if i < j {
      StartMonotone(blocks, i + 1, j);
    } else if j < i {
      StartMonotone(blocks, j + 1, i);
    }
  }

  // ---- The barrier ----

  /** A final step of a block reaches every step of the next. */
  lemma {:induction false} FinalReaches(blocks: seq<Block>, i: nat, f: nat, u: nat)
    requires i + 1 < |blocks| && FinalAt(blocks[i], f) && u < blocks[i + 1].Size()
    ensures Reaches(Edges(Run(blocks).steps), IdAt(blocks, i, f), IdAt(blocks, i + 1, u))
    decreases u
  {
    hide StepId, Edges, Run, Start;
    var es := Edges(Run(blocks).steps);
    if blocks[i + 1].IsChain() && u > 0 {
      FinalReaches(blocks, i, f, u - 1);
      JoinsEdge(blocks, i + 1, u - 1, i + 1, u);
      ReachesEdge(es, IdAt(blocks, i + 1, u - 1), IdAt(blocks, i + 1, u));
      ReachesTrans(es, IdAt(blocks, i, f), IdAt(blocks, i + 1, u - 1), IdAt(blocks, i + 1, u));
    } else {
      JoinsEdge(blocks, i, f, i + 1, u);
      ReachesEdge(es, IdAt(blocks, i, f), IdAt(blocks, i + 1, u));
    }
  }

  /** From any step of a block some final step of the block is, or is reached. */
  lemma {:induction false} ReachesFinal(blocks: seq<Block>, i: nat, t: nat) returns (f: nat)
    requires i < |blocks| && t < blocks[i].Size()
    ensures FinalAt(blocks[i], f)
    ensures f == t || Reaches(Edges(Run(blocks).steps), IdAt(blocks, i, t), IdAt(blocks, i, f))
    decreases blocks[i].Size() - t
  {
    hide StepId, Edges, Run, Start;
    var es := Edges(Run(blocks).steps);
    if blocks[i].IsChain() && t + 1 < blocks[i].Size() {
      f := ReachesFinal(blocks, i, t + 1);
      JoinsEdge(blocks, i, t, i, t + 1);
      ReachesEdge(es, IdAt(blocks, i, t), IdAt(blocks, i, t + 1));
      if f != t + 1 {
        ReachesTrans(es, IdAt(blocks, i, t), IdAt(blocks, i, t + 1), IdAt(blocks, i, f));
      }
    } else {
      f := t;
    }
  }

  lemma {:induction false} NextBlockReached(blocks: seq<Block>, i: nat, t: nat, u: nat)
    requires i + 1 < |blocks| && t < blocks[i].Size() && u < blocks[i + 1].Size()
    ensures Reaches(Edges(Run(blocks).steps), IdAt(blocks, i, t), IdAt(blocks, i + 1, u))
  {
    hide StepId, Edges, Run, Start;
    var es := Edges(Run(blocks).steps);
    var f := ReachesFinal(blocks, i, t);
    FinalReaches(blocks, i, f, u);
    if f != t {
      ReachesTrans(es, IdAt(blocks, i, t), IdAt(blocks, i, f), IdAt(blocks, i + 1, u));
    }
  }

  ghost predicate NoEmptyBetween(blocks: seq<Block>, i: nat, j: nat)
    requires j <= |blocks|
  {
    forall m :: i < m < j ==> blocks[m].Size() > 0
  }

  lemma {:induction false} BarrierHolds(blocks: seq<Block>, i: nat, t: nat, j: nat, u: nat)
    requires i < j < |blocks| && t < blocks[i].Size() && u < blocks[j].Size()
    requires NoEmptyBetween(blocks, i, j)
    ensures DependsTransitively(Run(blocks).steps, IdAt(blocks, j, u), IdAt(blocks, i, t))
    decreases j
  {
    hide StepId, BlockStep, Edges, Run;
    if j == i + 1 {
      NextBlockReached(blocks, i, t, u);
    } else {
      BarrierHolds(blocks, i, t, j - 1, 0);
      NextBlockReached(blocks, j - 1, 0, u);
      ReachesTrans(Edges(Run(blocks).steps), IdAt(blocks, i, t), IdAt(blocks, j - 1, 0), IdAt(blocks, j, u));
    }
  }

  /** The id of a step numbered `lo` or later. */
  ghost predicate NumberedFrom(lo: nat, id: string) {
    exists d: nat :: lo <= d && id == StepId(d)
  }

  /** After an empty block no step refers back across it. */
  lemma {:induction false} EdgeStaysAfterEmpty(blocks: seq<Block>, m: nat, e: Edge)
    requires m < |blocks| && blocks[m].Size() == 0
    requires e in Edges(Run(blocks).steps) && NumberedFrom(Start(blocks, m), e.dst)
    ensures NumberedFrom(Start(blocks, m), e.src)
  {
    hide Edges, Run, Start, StepId;
    var i, t, j, u := EdgeJoins(blocks, e);
    var d: nat :| Start(blocks, m) <= d && e.dst == StepId(d);
    StepIdInjective(d, Start(blocks, j) + u);
    BlockAfterEmpty(blocks, m, j, u);
    assert m <= i;
    StartMonotone(blocks, m, i);
  }

  lemma {:induction false} BlockAfterEmpty(blocks: seq<Block>, m: nat, j: nat, u: nat)
    requires m < |blocks| && blocks[m].Size() == 0
    requires j < |blocks| && u < blocks[j].Size() && Start(blocks, m) <= Start(blocks, j) + u
    ensures m < j
  {
    hide Run, Start;
    StartSucc(blocks, j);
    if j < m {
      StartMonotone(blocks, j + 1, m);
    }
  }

  lemma {:induction false} WalkStaysAfterEmpty(blocks: seq<Block>, m: nat, p: seq<string>)
    requires m < |blocks| && blocks[m].Size() == 0
    requires IsWalk(Edges(Run(blocks).steps), p) && p != [] && NumberedFrom(Start(blocks, m), p[|p| - 1])
    ensures NumberedFrom(Start(blocks, m), p[0])
    decreases |p|
  {
    hide BlockStep, Edges, Run, StepId, NumberedFrom;
    var n := |p|;
    if n > 1 {
      EdgeStaysAfterEmpty(blocks, m, Edge(p[n - 2], p[n - 1]));
      SubWalk(Edges(Run(blocks).steps), p, 0, n - 1);
      assert p[0..n - 1] == p[..n - 1];
      WalkStaysAfterEmpty(blocks, m, p[..n - 1]);
    }
  }

  /** A step of a later block depends on a step of an earlier one, directly or through others,
      exactly when no call in between was given an empty list. */
  lemma {:induction false} Barrier(blocks: seq<Block>, i: nat, t: nat, j: nat, u: nat)
    requires i < j < |blocks| && t < blocks[i].Size() && u < blocks[j].Size()
    ensures DependsTransitively(Run(blocks).steps, IdAt(blocks, j, u), IdAt(blocks, i, t))
      <==> NoEmptyBetween(blocks, i, j)
  {
    hide Edges, Run, Start, StepId, IsWalk;
    if NoEmptyBetween(blocks, i, j) {
      BarrierHolds(blocks, i, t, j, u);
    } else if DependsTransitively(Run(blocks).steps, IdAt(blocks, j, u), IdAt(blocks, i, t)) {
      var m :| i < m < j && blocks[m].Size() == 0;
      var es := Edges(Run(blocks).steps);
      var p :| IsWalk(es, p) && 2 <= |p| && p[0] == IdAt(blocks, i, t) && p[|p| - 1] == IdAt(blocks, j, u);
      StartMonotone(blocks, m, j);
      assert NumberedFrom(Start(blocks, m), p[|p| - 1]);
      WalkStaysAfterEmpty(blocks, m, p);
      var d: nat :| Start(blocks, m) <= d && p[0] == StepId(d);
      StepIdInjective(d, Start(blocks, i) + t);
      BlockAfterEmpty(blocks, m, i, t);
      assert false;
    }
  }

  // ---- Compilation never fails ----

  lemma {:induction false} EdgesGoForward(blocks: seq<Block>, e: Edge) returns (d: nat, k: nat)
    requires e in Edges(Run(blocks).steps)
    ensures d < k < |Run(blocks).steps| && e == Edge(StepId(d), StepId(k))
  {
    hide Edges, Run, Start, StepId;
    var i, t, j, u := EdgeJoins(blocks, e);
    d, k := Start(blocks, i) + t, Start(blocks, j) + u;
    StepAt(blocks, j, u);
    StartSucc(blocks, i);
  }

  lemma {:induction false} NodesOfRun(blocks: seq<Block>, id: string)
    ensures id in NodeIds(Run(blocks).steps) <==> exists k: nat :: k < |Run(blocks).steps| && id == StepId(k)
  {
    hide Run, StepId;
    var steps := Run(blocks).steps;
    if id in NodeIds(steps) {
      var s :| s in steps && s.id == id;
      var k :| 0 <= k < |steps| && steps[k] == s;
      StepIds(blocks, k);
    }
    if k: nat :| k < |steps| && id == StepId(k) {
      StepIds(blocks, k);
      assert steps[k] in steps;
    }
  }

  /** Any chain of builder calls passes every check of `build`, so `build` throws exactly when
      the calls added no step at all. */
  lemma {:induction false} RunIsValid(blocks: seq<Block>)
    ensures DistinctIds(Run(blocks).steps) && DepsExist(Run(blocks).steps) && !Cyclic(Edges(Run(blocks).steps))
  {
    hide Run, StepId, Edges;
    var steps := Run(blocks).steps;
    var es, n := Edges(steps), |steps|;
    forall i, j | 0 <= i < j < n
      ensures steps[i].id != steps[j].id
    {
      StepIds(blocks, i);
      StepIds(blocks, j);
      if StepId(i) == StepId(j) { StepIdInjective(i, j); }
    }
    var order := IdRange(0, n);
    forall id
      ensures id in order <==> id in NodeIds(steps)
    {
      NodesOfRun(blocks, id);
      if id in order {
        var k :| 0 <= k < n && order[k] == id;
        IdRangeAt(0, n, k);
      }
      if k: nat :| k < n && id == StepId(k) {
        IdRangeAt(0, n, k);
        assert order[k] == id;
      }
    }
    IdRangeForward(blocks);
    EdgeTargetsAreNodes(steps);
    assert Elems(order) == Elems(NodeIds(steps));
    ForwardCoverIsAcyclic(NodeIds(steps), es, order);
  }

  lemma {:induction false} IdRangeForward(blocks: seq<Block>)
    ensures Forward(Edges(Run(blocks).steps), IdRange(0, |Run(blocks).steps|))
    ensures NoDup(IdRange(0, |Run(blocks).steps|))
  {
    hide Run, StepId, Edges;
    var n := |Run(blocks).steps|;
    var order := IdRange(0, n);
    forall e, k | e in Edges(Run(blocks).steps) && 0 <= k < n && e.dst == order[k]
      ensures e.src in order[..k]
    {
      var d, k' := EdgesGoForward(blocks, e);
      IdRangeAt(0, n, k);
      StepIdInjective(k, k');
      IdRangeAt(0, n, d);
      assert order[..k][d] == e.src;
    }
    forall i, j | 0 <= i < j < n
      ensures order[i] != order[j]
    {
      IdRangeAt(0, n, i);
      IdRangeAt(0, n, j);
      if order[i] == order[j] { StepIdInjective(i, j); }
    }
  }

  // ---- Exit steps ----

  lemma {:induction false} InAllDeps(steps: seq<Step>, y: string)
    ensures y in AllDeps(steps) <==> exists e :: e in Edges(steps) && e.src == y
  {
    if y in AllDeps(steps) {
      var s :| s in steps && y in s.Deps();
      EdgesAreDependencies(steps, s.id, y);
      assert Edge(y, s.id).src == y;
    }
    if e :| e in Edges(steps) && e.src == y {
      assert e == Edge(y, e.dst);
      EdgesAreDependencies(steps, e.dst, y);
    }
  }

  lemma {:induction false} ListedOnlyIf(blocks: seq<Block>, i: nat, t: nat, e: Edge)
    requires i < |blocks| && t < blocks[i].Size()
    requires e in Edges(Run(blocks).steps) && e.src == IdAt(blocks, i, t)
    ensures !FinalAt(blocks[i], t) || (i + 1 < |blocks| && blocks[i + 1].Size() > 0)
  {
    hide Run, StepId, Edges, IdAt;
    var i', t', j, u := EdgeJoins(blocks, e);
    SamePlace(blocks, i, t, i', t');
  }

  /** A step is listed by another exactly when its chain goes on, or it is a final step of its
      block and the next call added a step. */
  lemma {:induction false} ListedExactly(blocks: seq<Block>, i: nat, t: nat)
    requires i < |blocks| && t < blocks[i].Size()
    ensures IdAt(blocks, i, t) in AllDeps(Run(blocks).steps)
      <==> !FinalAt(blocks[i], t) || (i + 1 < |blocks| && blocks[i + 1].Size() > 0)
  {
    hide Run, StepId, Edges, AllDeps, IdAt;
    var y := IdAt(blocks, i, t);
    InAllDeps(Run(blocks).steps, y);
    if !FinalAt(blocks[i], t) {
      JoinsEdge(blocks, i, t, i, t + 1);
    } else if i + 1 < |blocks| && blocks[i + 1].Size() > 0 {
      JoinsEdge(blocks, i, t, i + 1, 0);
    } else if e :| e in Edges(Run(blocks).steps) && e.src == y {
      ListedOnlyIf(blocks, i, t, e);
    }
  }

  /** Calls with empty lists, if any, came before the first step. */
  ghost predicate NoGap(blocks: seq<Block>) {
    forall m :: 0 <= m < |blocks| && blocks[m].Size() == 0 ==> Start(blocks, m) == 0
  }

  lemma {:induction false} OutsideFrom(steps: seq<Step>, deps: set<string>, lo: nat)
    requires lo <= |steps|
    requires forall k :: 0 <= k < |steps| ==> steps[k].id == StepId(k) && (StepId(k) !in deps <==> lo <= k)
    ensures IdsOutside(steps, deps) == IdRange(lo, |steps|)
  {
    hide StepId;
    if lo < |steps| {
      var front := steps[..|steps| - 1];
      assert forall k :: 0 <= k < |front| ==> front[k] == steps[k];
      OutsideFrom(front, deps, lo);
    } else {
      OutsideNone(steps, deps);
    }
  }

  lemma {:induction false} OutsideNone(steps: seq<Step>, deps: set<string>)
    requires forall k :: 0 <= k < |steps| ==> steps[k].id in deps
    ensures IdsOutside(steps, deps) == []
  {
    if steps == [] {
    } else {
      OutsideNone(steps[..|steps| - 1], deps);
    }
  }

  lemma {:induction false} OutsideMember(steps: seq<Step>, deps: set<string>, k: nat)
    requires k < |steps| && steps[k].id !in deps
    ensures steps[k].id in IdsOutside(steps, deps)
  {
    if k < |steps| - 1 {
      OutsideMember(steps[..|steps| - 1], deps, k);
    }
  }

  /** `exitSteps` are exactly the final steps of the last call, in order, if and only if no call
      that added nothing followed one that added a step. */
  lemma {:induction false} ExitStepsAreFinals(blocks: seq<Block>)
    ensures IdsOutside(Run(blocks).steps, AllDeps(Run(blocks).steps)) == Run(blocks).lastStepIds <==> NoGap(blocks)
  {
    hide StepId, Edges, BlockStep;
    if blocks == [] {
    } else if NoGap(blocks) {
      ExitStepsNoGap(blocks);
    } else {
      ExitStepsGap(blocks);
    }
  }

  /** The number of the first step that the next call will depend on. */
  function FirstFinal(blocks: seq<Block>): nat
    requires blocks != []
  {
    var n := |blocks| - 1;
    if blocks[n].IsChain() && blocks[n].Size() > 0 then |Run(blocks).steps| - 1 else Start(blocks, n)
  }

  lemma {:induction false} LastStepIdsOfRun(blocks: seq<Block>)
    requires blocks != []
    ensures FirstFinal(blocks) <= |Run(blocks).steps|
    ensures Run(blocks).lastStepIds == IdRange(FirstFinal(blocks), |Run(blocks).steps|)
    ensures Start(blocks, |blocks| - 1) <= FirstFinal(blocks)
  {
    hide Run, StepId;
    var n := |blocks| - 1;
    TotalSteps(blocks);
    StartSucc(blocks, n);
    LastOfRun(blocks, n + 1);
    assert blocks[..n + 1] == blocks;
    if blocks[n].IsChain() && blocks[n].Size() > 0 {
      var lo := FirstFinal(blocks);
      assert IdRange(lo, lo) == [];
      assert IdRange(lo, lo + 1) == [StepId(lo)];
    }
  }

  lemma {:induction false} UnlistedFromFirstFinal(blocks: seq<Block>, k: nat)
    requires blocks != [] && NoGap(blocks) && k < |Run(blocks).steps|
    ensures StepId(k) !in AllDeps(Run(blocks).steps) <==> FirstFinal(blocks) <= k
  {
    hide Run, Start, StepId, Edges, AllDeps;
    var n := |blocks| - 1;
    var i, t := Locate(blocks, k);
    ListedExactly(blocks, i, t);
    StartSucc(blocks, i);
    TotalSteps(blocks);
    if i < n {
      StartSucc(blocks, i + 1);
      StartMonotone(blocks, i + 1, n);
      LastStepIdsOfRun(blocks);
    }
  }

  lemma {:induction false} ExitStepsNoGap(blocks: seq<Block>)
    requires NoGap(blocks) && blocks != []
    ensures IdsOutside(Run(blocks).steps, AllDeps(Run(blocks).steps)) == Run(blocks).lastStepIds
  {
    hide Run, Start, StepId, AllDeps, FirstFinal;
    var steps := Run(blocks).steps;
    LastStepIdsOfRun(blocks);
    forall k | 0 <= k < |steps|
      ensures steps[k].id == StepId(k) && (StepId(k) !in AllDeps(steps) <==> FirstFinal(blocks) <= k)
    {
      StepIds(blocks, k);
      UnlistedFromFirstFinal(blocks, k);
    }
    OutsideFrom(steps, AllDeps(steps), FirstFinal(blocks));
  }

  /** The last step before a gap ends its block, and the block after it is empty. */
  lemma {:induction false} StepBeforeGap(blocks: seq<Block>, m: nat) returns (i: nat, t: nat)
    requires m < |blocks| && blocks[m].Size() == 0 && Start(blocks, m) > 0
    ensures i < m && t < blocks[i].Size() && Start(blocks, i) + t == Start(blocks, m) - 1
    ensures FinalAt(blocks[i], t) && blocks[i + 1].Size() == 0
  {
    hide Run, Start;
    var k := Start(blocks, m) - 1;
    TotalSteps(blocks);
    StartMonotone(blocks, m, |blocks|);
    i, t := Locate(blocks, k);
    if m <= i {
      StartMonotone(blocks, m, i);
    }
    StartSucc(blocks, i);
    StartMonotone(blocks, i + 1, m);
    if i + 1 < m {
      StartSucc(blocks, i + 1);
      StartMonotone(blocks, i + 2, m);
    }
  }

  lemma {:induction false} ExitStepsGap(blocks: seq<Block>)
    requires !NoGap(blocks)
    ensures IdsOutside(Run(blocks).steps, AllDeps(Run(blocks).steps)) != Run(blocks).lastStepIds
  {
    hide Run, Start, StepId, AllDeps, FirstFinal;
    var steps := Run(blocks).steps;
    var m :| 0 <= m < |blocks| && blocks[m].Size() == 0 && Start(blocks, m) > 0;
    var i, t := StepBeforeGap(blocks, m);
    var k := Start(blocks, i) + t;
    TotalSteps(blocks);
    StartMonotone(blocks, m, |blocks|);
    ListedExactly(blocks, i, t);
    StepIds(blocks, k);
    OutsideMember(steps, AllDeps(steps), k);
    LastStepIdsOfRun(blocks);
    StartMonotone(blocks, m, |blocks| - 1);
    NotInRange(FirstFinal(blocks), |steps|, k);
  }

  lemma {:induction false} NotInRange(lo: nat, hi: nat, k: nat)
    requires k < lo <= hi
    ensures StepId(k) !in IdRange(lo, hi)
  {
    hide StepId;
    forall d | 0 <= d < hi - lo
      ensures IdRange(lo, hi)[d] != StepId(k)
    {
      IdRangeAt(lo, hi, d);
      if StepId(lo + d) == StepId(k) { StepIdInjective(lo + d, k); }
    }
  }
}
