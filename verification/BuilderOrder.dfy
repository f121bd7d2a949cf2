/** In which order a chain of builder calls is executed: layer by layer, each run of calls that added steps
    starting anew. From it follow when calls run in call order, and which steps are the entry steps. */
module BuilderOrder {
  import opened Options
  import opened Graphs
  import opened Workflows
  import opened Kahn
  import opened KahnLevels
  import opened WorkflowBuilder
  import opened BuilderBarrier
  import opened Durable

  // ---- Layers ----

  /** A chain is a layer for each step, and any other call that adds steps is one layer. */
  function Layers(b: Block): nat {
    if b.IsChain() then b.Size() else if b.Size() > 0 then 1 else 0
  }

  /** The layers before call `i`, back to the last call that added nothing. */
  function LayersBefore(blocks: seq<Block>, i: nat): nat
    requires i <= |blocks|
  {
    if i == 0 || blocks[i - 1].Size() == 0 then 0 else LayersBefore(blocks, i - 1) + Layers(blocks[i - 1])
  }

  /** The layer of the `t`-th step of call `i`. */
  function Depth(blocks: seq<Block>, i: nat, t: nat): nat
    requires i < |blocks|
  {
    LayersBefore(blocks, i) + if blocks[i].IsChain() then t else 0
  }

  ghost predicate IsPlace(blocks: seq<Block>, i: nat, t: nat, id: string) {
    i < |blocks| && t < blocks[i].Size() && id == IdAt(blocks, i, t)
  }

  ghost function Level(blocks: seq<Block>, id: string): nat {
    if exists i: nat, t: nat :: IsPlace(blocks, i, t, id) then
      var i: nat, t: nat :| IsPlace(blocks, i, t, id);
      Depth(blocks, i, t)
    else 0
  }

  ghost function Number(id: string): nat {
    if exists k: nat :: id == StepId(k) then
      var k: nat :| id == StepId(k);
      k
    else 0
  }

  ghost function Ranks(blocks: seq<Block>): string -> Rank {
    id => Rank(Level(blocks, id), Number(id))
  }

  lemma {:induction false} NumberOfStep(k: nat)
    ensures Number(StepId(k)) == k
  {
    hide StepId;
    var n: nat :| StepId(k) == StepId(n) && Number(StepId(k)) == n;
    StepIdInjective(k, n);
  }

  lemma {:induction false} RankAt(blocks: seq<Block>, i: nat, t: nat)
    requires i < |blocks| && t < blocks[i].Size()
    ensures Ranks(blocks)(IdAt(blocks, i, t)) == Rank(Depth(blocks, i, t), Start(blocks, i) + t)
  {
    hide StepId, Run, Start, Depth;
    var id := IdAt(blocks, i, t);
    NumberOfStep(Start(blocks, i) + t);
    assert IsPlace(blocks, i, t, id);
    forall i': nat, t': nat | IsPlace(blocks, i', t', id)
      ensures Depth(blocks, i', t') == Depth(blocks, i, t)
    {
      SamePlace(blocks, i, t, i', t');
    }
  }

  lemma {:induction false} RankOfNumber(blocks: seq<Block>, k: nat)
    ensures Ranks(blocks)(StepId(k)).num == k
  {
    hide StepId;
    NumberOfStep(k);
  }

  // ---- The graph is layered ----

  lemma {:induction false} JoinsNextLayer(blocks: seq<Block>, i: nat, t: nat, j: nat, u: nat)
    requires i < |blocks| && j < |blocks| && Joins(blocks, i, t, j, u)
    ensures Depth(blocks, j, u) == Depth(blocks, i, t) + 1
    ensures Start(blocks, i) + t < Start(blocks, j) + u
  {
    hide Run;
    StartSucc(blocks, i);
  }

  lemma {:induction false} EdgesGoDown(blocks: seq<Block>, e: Edge)
    requires e in Edges(Run(blocks).steps)
    ensures Ranks(blocks)(e.dst).level == Ranks(blocks)(e.src).level + 1
  {
    hide Run, StepId, Edges, Start, Ranks, Depth;
    var i, t, j, u := EdgeJoins(blocks, e);
    JoinsNextLayer(blocks, i, t, j, u);
    RankAt(blocks, i, t);
    RankAt(blocks, j, u);
  }

  lemma {:induction false} DeepIsJoined(blocks: seq<Block>, j: nat, u: nat) returns (i: nat, t: nat)
    requires j < |blocks| && u < blocks[j].Size() && Depth(blocks, j, u) > 0
    ensures i < |blocks| && Joins(blocks, i, t, j, u)
  {
    if blocks[j].IsChain() && u > 0 {
      i, t := j, u - 1;
    } else {
      i, t := j - 1, blocks[j - 1].Size() - 1;
    }
  }

  lemma {:induction false} DeepHasSource(blocks: seq<Block>, v: string)
    requires v in NodeIds(Run(blocks).steps) && Ranks(blocks)(v).level > 0
    ensures HasSource(Edges(Run(blocks).steps), v)
  {
    hide Run, StepId, Edges, Start, Ranks, Depth;
    NodesOfRun(blocks, v);
    var k: nat :| k < |Run(blocks).steps| && v == StepId(k);
    var j, u := Locate(blocks, k);
    assert v == IdAt(blocks, j, u);
    RankAt(blocks, j, u);
    var i, t := DeepIsJoined(blocks, j, u);
    JoinsEdge(blocks, i, t, j, u);
  }

  lemma {:induction false} IdRangeUpTo(lo: nat, hi: nat, k: nat)
    requires lo <= hi <= k
    ensures StepId(k) !in IdRange(lo, hi)
  {
    hide StepId;
    forall d | 0 <= d < hi - lo
      ensures IdRange(lo, hi)[d] != StepId(k)
    {
      IdRangeAt(lo, hi, d);
      if StepId(lo + d) == StepId(k) { StepIdInjective(lo + d, k); }
    }
  }

  lemma {:induction false} NodeIdsInOrder(steps: seq<Step>)
    requires forall k :: 0 <= k < |steps| ==> steps[k].id == StepId(k)
    ensures NodeIds(steps) == IdRange(0, |steps|)
  {
    hide StepId;
    if steps == [] {
    } else {
      var n := |steps| - 1;
      NodeIdsInOrder(steps[..n]);
      IdRangeUpTo(0, n, n);
    }
  }

  lemma {:induction false} NodeIdsOfRun(blocks: seq<Block>)
    ensures NodeIds(Run(blocks).steps) == IdRange(0, |Run(blocks).steps|)
    ensures Numbered(Ranks(blocks), NodeIds(Run(blocks).steps))
  {
    hide Run, StepId, Ranks;
    var steps := Run(blocks).steps;
    forall k | 0 <= k < |steps|
      ensures steps[k].id == StepId(k)
    {
      StepIds(blocks, k);
    }
    NodeIdsInOrder(steps);
    forall k | 0 <= k < |steps|
      ensures Ranks(blocks)(IdRange(0, |steps|)[k]).num == k
    {
      IdRangeAt(0, |steps|, k);
      RankOfNumber(blocks, k);
    }
  }

  // Adjacency lists

  lemma {:induction false} AdjacentConcat(a: seq<Edge>, b: seq<Edge>, u: string)
    ensures Adjacent(a + b, u) == Adjacent(a, u) + Adjacent(b, u)
    decreases |b|
  {
    if b == [] {
      assert a + b == a;
    } else {
      var n := |b| - 1;
      assert (a + b)[..|a| + n] == a + b[..n] && (a + b)[|a| + n] == b[n];
      AdjacentConcat(a, b[..n], u);
    }
  }

  lemma {:induction false} AdjacentInto(id: string, deps: seq<string>, u: string)
    ensures forall v :: v in Adjacent(EdgesInto(id, deps), u) ==> v == id
  {
    AdjacentAreTargets(EdgesInto(id, deps), u);
    forall v | v in Adjacent(EdgesInto(id, deps), u)
      ensures v == id
    {
      EdgesIntoMembers(id, deps, v, u);
    }
  }

  lemma {:induction false} ByNumberSnoc(rank: string -> Rank, a: seq<string>, b: seq<string>, n: nat)
    requires ByNumber(rank, a) && (forall v :: v in a ==> rank(v).num < n) && forall v :: v in b ==> rank(v).num == n
    ensures ByNumber(rank, a + b) && forall v :: v in a + b ==> rank(v).num < n + 1
  {
    var s := a + b;
    forall i, j | 0 <= i < j < |s|
      ensures rank(s[i]).num <= rank(s[j]).num
    {
      if j >= |a| {
        assert s[j] == b[j - |a|] && s[j] in b;
        if i < |a| { assert s[i] == a[i] && s[i] in a; } else { assert s[i] == b[i - |a|] && s[i] in b; }
      }
    }
  }

  lemma {:induction false} AdjacentNumbered(rank: string -> Rank, steps: seq<Step>, u: string)
    requires forall k :: 0 <= k < |steps| ==> rank(steps[k].id).num == k
    ensures ByNumber(rank, Adjacent(Edges(steps), u))
    ensures forall v :: v in Adjacent(Edges(steps), u) ==> rank(v).num < |steps|
  {
    hide Adjacent, ByNumber, EdgesInto;
    if steps == [] {
      NothingAdjacent(rank, u);
    } else {
      var front, last := steps[..|steps| - 1], steps[|steps| - 1];
      AdjacentNumbered(rank, front, u);
      AdjacentInto(last.id, last.Deps(), u);
      AdjacentConcat(Edges(front), EdgesInto(last.id, last.Deps()), u);
      ByNumberSnoc(rank, Adjacent(Edges(front), u), Adjacent(EdgesInto(last.id, last.Deps()), u), |front|);
    }
  }

  lemma NothingAdjacent(rank: string -> Rank, u: string)
    ensures Adjacent(Edges([]), u) == [] && ByNumber(rank, [])
  {
  }

  lemma {:induction false} AdjacentOfRun(blocks: seq<Block>, u: string)
    ensures ByNumber(Ranks(blocks), Adjacent(Edges(Run(blocks).steps), u))
  {
    hide Run, StepId, Ranks, Adjacent, Edges, ByNumber;
    var steps := Run(blocks).steps;
    forall k | 0 <= k < |steps|
      ensures Ranks(blocks)(steps[k].id).num == k
    {
      StepIds(blocks, k);
      RankOfNumber(blocks, k);
    }
    AdjacentNumbered(Ranks(blocks), steps, u);
  }

  // Edges keep step

  /** Of two edges from one layer, the one from the earlier step leads to an earlier step, or to one that the
      later step is joined to as well. */
  lemma {:induction false} JoinsInStep(blocks: seq<Block>, i: nat, t: nat, j: nat, u: nat, i': nat, t': nat, j': nat, u': nat)
    requires i < |blocks| && j < |blocks| && Joins(blocks, i, t, j, u)
    requires i' < |blocks| && j' < |blocks| && Joins(blocks, i', t', j', u')
    requires Depth(blocks, i, t) == Depth(blocks, i', t') && Start(blocks, i) + t < Start(blocks, i') + t'
    ensures Start(blocks, j) + u < Start(blocks, j') + u' || Joins(blocks, i', t', j, u)
  {
    hide Run, Start, LayersBefore;
    if i == i' {
      assert !blocks[i].IsChain() && FinalAt(blocks[i'], t');
    } else {
      EarlierCall(blocks, i, t, i', t');
      StartSucc(blocks, j);
      if j < j' {
        StartMonotone(blocks, j + 1, j');
      } else {
        NoChainNext(blocks, i, t, i', t');
      }
    }
  }

  lemma {:induction false} EarlierCall(blocks: seq<Block>, i: nat, t: nat, i': nat, t': nat)
    requires i < |blocks| && t < blocks[i].Size() && i' < |blocks| && t' < blocks[i'].Size() && i != i'
    requires Start(blocks, i) + t < Start(blocks, i') + t'
    ensures i < i'
  {
    hide Run, Start;
    if i' < i {
      StartSucc(blocks, i');
      StartMonotone(blocks, i' + 1, i);
    }
  }

  /** The next call, if it is a chain, is not in the layer of a last step. */
  lemma {:induction false} NoChainNext(blocks: seq<Block>, i: nat, t: nat, i': nat, t': nat)
    requires i < |blocks| && FinalAt(blocks[i], t) && i' < |blocks|
    ensures i' == i + 1 ==> Depth(blocks, i', t') > Depth(blocks, i, t)
  {
  }

  lemma {:induction false} EdgesInStep(blocks: seq<Block>, e: Edge, f: Edge)
    requires e in Edges(Run(blocks).steps) && f in Edges(Run(blocks).steps)
    ensures InStep(Ranks(blocks), Edges(Run(blocks).steps), e, f)
  {
    hide Run, StepId, Edges, Start, Ranks, Depth, Joins;
    var i, t, j, u := EdgeJoins(blocks, e);
    var i', t', j', u' := EdgeJoins(blocks, f);
    JoinsBounds(blocks, i, t, j, u);
    JoinsBounds(blocks, i', t', j', u');
    RankAt(blocks, i, t);
    RankAt(blocks, j, u);
    RankAt(blocks, i', t');
    RankAt(blocks, j', u');
    if Depth(blocks, i, t) == Depth(blocks, i', t') && Start(blocks, i) + t < Start(blocks, i') + t' {
      JoinsInStep(blocks, i, t, j, u, i', t', j', u');
      if Joins(blocks, i', t', j, u) {
        JoinsEdge(blocks, i', t', j, u);
      }
    }
  }

  lemma JoinsBounds(blocks: seq<Block>, i: nat, t: nat, j: nat, u: nat)
    requires i < |blocks| && j < |blocks| && Joins(blocks, i, t, j, u)
    ensures t < blocks[i].Size() && u < blocks[j].Size()
  {
  }

  lemma {:induction false} RunIsLayered(blocks: seq<Block>)
    ensures Layered(Ranks(blocks), NodeIds(Run(blocks).steps), Edges(Run(blocks).steps))
  {
    hide Run, Edges, Ranks, NodeIds, Adjacent, Numbered, ByNumber, HasSource, InStep;
    var ns, es := NodeIds(Run(blocks).steps), Edges(Run(blocks).steps);
    forall e | e in es
      ensures Ranks(blocks)(e.dst).level == Ranks(blocks)(e.src).level + 1
    {
      EdgesGoDown(blocks, e);
    }
    forall v | v in ns && Ranks(blocks)(v).level > 0
      ensures HasSource(es, v)
    {
      DeepHasSource(blocks, v);
    }
    NodeIdsOfRun(blocks);
    forall u
      ensures ByNumber(Ranks(blocks), Adjacent(es, u))
    {
      AdjacentOfRun(blocks, u);
    }
    forall e, f | e in es && f in es
      ensures InStep(Ranks(blocks), es, e, f)
    {
      EdgesInStep(blocks, e, f);
    }
  }

  // ---- The order of execution ----

  ghost predicate Precedes(order: seq<string>, x: string, y: string) {
    exists a, b :: 0 <= a < b < |order| && order[a] == x && order[b] == y
  }

  lemma {:induction false} OrderOfRun(blocks: seq<Block>)
    ensures Ranked(Ranks(blocks), OrderIds(Run(blocks).steps))
    ensures Elems(OrderIds(Run(blocks).steps)) == Elems(NodeIds(Run(blocks).steps))
  {
    hide Run, Edges, Ranks, NodeIds, Order, Ranked, Layered;
    var steps := Run(blocks).steps;
    NodeIdsNoDup(steps);
    EdgeTargetsAreNodes(steps);
    RunIsValid(blocks);
    RunIsLayered(blocks);
    OrderRanked(Ranks(blocks), NodeIds(steps), Edges(steps));
    OrderIsExact(NodeIds(steps), Edges(steps));
  }

  /** In a ranked order, what precedes is what comes first by rank. */
  lemma {:induction false} PrecedesByRank(rank: string -> Rank, order: seq<string>, x: string, y: string)
    requires Ranked(rank, order) && x in order && y in order && x != y
    ensures Precedes(order, x, y) <==> Before(rank(x), rank(y))
    ensures Before(rank(x), rank(y)) || Before(rank(y), rank(x))
  {
    var a :| 0 <= a < |order| && order[a] == x;
    var b :| 0 <= b < |order| && order[b] == y;
    if a < b {
      assert Before(rank(order[a]), rank(order[b]));
    } else {
      assert Before(rank(order[b]), rank(order[a]));
    }
  }

  lemma {:induction false} PlaceInOrder(blocks: seq<Block>, i: nat, t: nat)
    requires i < |blocks| && t < blocks[i].Size()
    ensures IdAt(blocks, i, t) in OrderIds(Run(blocks).steps)
  {
    hide Run, StepId, OrderIds, Start;
    OrderOfRun(blocks);
    StepAt(blocks, i, t);
    NodesOfRun(blocks, IdAt(blocks, i, t));
    assert IdAt(blocks, i, t) in Elems(NodeIds(Run(blocks).steps));
  }

  /** Of two steps of different calls, that of the earlier call is executed first exactly when its layer is
      no later. */
  lemma {:induction false} OrderIsByLayer(blocks: seq<Block>, i: nat, t: nat, j: nat, u: nat)
    requires i < j < |blocks| && t < blocks[i].Size() && u < blocks[j].Size()
    ensures Precedes(OrderIds(Run(blocks).steps), IdAt(blocks, i, t), IdAt(blocks, j, u))
       <==> Depth(blocks, i, t) <= Depth(blocks, j, u)
    ensures Precedes(OrderIds(Run(blocks).steps), IdAt(blocks, j, u), IdAt(blocks, i, t))
       <==> Depth(blocks, j, u) < Depth(blocks, i, t)
  {
    hide Run, StepId, OrderIds, Start, Ranks, Depth, Precedes, Ranked, Before, IdAt;
    var order, x, y := OrderIds(Run(blocks).steps), IdAt(blocks, i, t), IdAt(blocks, j, u);
    OrderOfRun(blocks);
    PlaceInOrder(blocks, i, t);
    PlaceInOrder(blocks, j, u);
    RanksCompare(blocks, i, t, j, u);
    PrecedesByRank(Ranks(blocks), order, x, y);
    PrecedesByRank(Ranks(blocks), order, y, x);
  }

  /** A step of an earlier call has the lower number, so its rank is lower unless its layer is later. */
  lemma {:induction false} RanksCompare(blocks: seq<Block>, i: nat, t: nat, j: nat, u: nat)
    requires i < j < |blocks| && t < blocks[i].Size() && u < blocks[j].Size()
    ensures var x, y := IdAt(blocks, i, t), IdAt(blocks, j, u);
      && x != y
      && (Before(Ranks(blocks)(x), Ranks(blocks)(y)) <==> Depth(blocks, i, t) <= Depth(blocks, j, u))
      && (Before(Ranks(blocks)(y), Ranks(blocks)(x)) <==> Depth(blocks, j, u) < Depth(blocks, i, t))
  {
    hide Run, StepId, Start, Ranks, Depth, IdAt;
    RankAt(blocks, i, t);
    RankAt(blocks, j, u);
    StartSucc(blocks, i);
    StartMonotone(blocks, i + 1, j);
  }

  lemma {:induction false} LayersGrow(blocks: seq<Block>, i: nat, j: nat)
    requires i < j <= |blocks| && blocks[i].Size() > 0 && NoEmptyBetween(blocks, i, j)
    ensures LayersBefore(blocks, i) + Layers(blocks[i]) <= LayersBefore(blocks, j)
    decreases j
  {
    if j > i + 1 {
      LayersGrow(blocks, i, j - 1);
    }
  }

  ghost predicate AllPrecede(blocks: seq<Block>, i: nat, j: nat)
    requires i < |blocks| && j < |blocks|
  {
    forall t: nat, u: nat :: t < blocks[i].Size() && u < blocks[j].Size() ==>
      Precedes(OrderIds(Run(blocks).steps), IdAt(blocks, i, t), IdAt(blocks, j, u))
  }

  /** All steps of a call are executed before all of a later one exactly when the last layer of the earlier
      is no later than the first layer of the later; and so whenever no empty call stands between. */
  lemma {:induction false} BlocksRunInCallOrder(blocks: seq<Block>, i: nat, j: nat)
    requires i < j < |blocks| && blocks[i].Size() > 0 && blocks[j].Size() > 0
    ensures AllPrecede(blocks, i, j) <==> LayersBefore(blocks, i) + Layers(blocks[i]) <= LayersBefore(blocks, j) + 1
    ensures NoEmptyBetween(blocks, i, j) ==> AllPrecede(blocks, i, j)
  {
    hide Run, OrderIds, Precedes, IdAt, LayersBefore;
    forall t: nat, u: nat | t < blocks[i].Size() && u < blocks[j].Size()
      ensures Precedes(OrderIds(Run(blocks).steps), IdAt(blocks, i, t), IdAt(blocks, j, u))
         <==> Depth(blocks, i, t) <= Depth(blocks, j, u)
    {
      OrderIsByLayer(blocks, i, t, j, u);
    }
    var last := blocks[i].Size() - 1;
    assert AllPrecede(blocks, i, j) ==> Depth(blocks, i, last) <= Depth(blocks, j, 0);
    if NoEmptyBetween(blocks, i, j) {
      LayersGrow(blocks, i, j);
    }
  }

  /** A sequence of two tasks, an empty call and a sequence of one task: the third step runs before the
      second. */
  lemma {:induction false} EmptyCallBreaksOrder(a: AgentTask, b: AgentTask, c: AgentTask)
    ensures var blocks := [Sequential([a, b]), Sequential([]), Sequential([c])];
      Precedes(OrderIds(Run(blocks).steps), IdAt(blocks, 2, 0), IdAt(blocks, 0, 1))
  {
    hide Run, OrderIds, IdAt, Precedes;
    var blocks := [Sequential([a, b]), Sequential([]), Sequential([c])];
    OrderIsByLayer(blocks, 0, 1, 2, 0);
  }

  // ---- Entry steps ----

  lemma {:induction false} EntryMember(steps: seq<Step>, id: string)
    ensures id in EntryIds(steps) <==> exists s :: s in steps && s.id == id && s.Deps() == []
  {
    if steps == [] {
    } else {
      var front, last := steps[..|steps| - 1], steps[|steps| - 1];
      assert steps == front + [last];
      EntryMember(front, id);
    }
  }

  lemma {:induction false} FirstLayerListsNothing(blocks: seq<Block>, i: nat, t: nat)
    requires i < |blocks| && t < blocks[i].Size()
    ensures BlockStep(blocks[i], Start(blocks, i), LastBefore(blocks, i), t).Deps() == [] <==> Depth(blocks, i, t) == 0
  {
    hide Run, StepId, Start, BlockStep, IdRange;
    DepsOfBlockStep(blocks[i], Start(blocks, i), LastBefore(blocks, i), t);
    if i > 0 {
      FinalsSize(blocks[i - 1], Start(blocks, i - 1));
    }
  }

  lemma FinalsSize(b: Block, c: nat)
    ensures Finals(b, c) == [] <==> b.Size() == 0
  {
  }

  /** The entry steps are just those of a first layer: the first step of a chain, and all steps of another
      call, that come first or after a call that added nothing. */
  lemma {:induction false} EntryStepsAreFirstLayers(blocks: seq<Block>, i: nat, t: nat)
    requires i < |blocks| && t < blocks[i].Size()
    ensures IdAt(blocks, i, t) in EntryIds(Run(blocks).steps) <==> Depth(blocks, i, t) == 0
  {
    hide Run, StepId, Start, BlockStep, Depth, LastBefore, EntryIds;
    var steps, k := Run(blocks).steps, Start(blocks, i) + t;
    var id := IdAt(blocks, i, t);
    EntryMember(steps, id);
    StepAt(blocks, i, t);
    StepIds(blocks, k);
    FirstLayerListsNothing(blocks, i, t);
    if s :| s in steps && s.id == id && s.Deps() == [] {
      var m :| 0 <= m < |steps| && steps[m] == s;
      StepIds(blocks, m);
      StepIdInjective(m, k);
    }
  }

  /** No call that added nothing stands between two that added steps. */
  ghost predicate Unbroken(blocks: seq<Block>) {
    forall m :: 0 <= m < |blocks| && blocks[m].Size() == 0 ==>
      Start(blocks, m) == 0 || Start(blocks, m) == |Run(blocks).steps|
  }

  /** All entry steps belong to the first call that added steps, exactly when no call that added nothing
      stands between two that did. */
  lemma {:induction false} EntryStepsAreFirst(blocks: seq<Block>)
    ensures Unbroken(blocks) <==>
      forall i: nat, t: nat :: i < |blocks| && t < blocks[i].Size() && IdAt(blocks, i, t) in EntryIds(Run(blocks).steps) ==>
        Start(blocks, i) == 0
  {
    hide Run, Start, IdAt, EntryIds, Depth;
    TotalSteps(blocks);
    if Unbroken(blocks) {
      forall i: nat, t: nat | i < |blocks| && t < blocks[i].Size() && IdAt(blocks, i, t) in EntryIds(Run(blocks).steps)
        ensures Start(blocks, i) == 0
      {
        EntryStepsAreFirstLayers(blocks, i, t);
        FirstLayerStarts(blocks, i, t);
      }
    } else {
      var m :| 0 <= m < |blocks| && blocks[m].Size() == 0 && Start(blocks, m) != 0 && Start(blocks, m) != |Run(blocks).steps|;
      var i := StepAfterGap(blocks, m);
      EntryStepsAreFirstLayers(blocks, i, 0);
    }
  }

  lemma {:induction false} FirstLayerStarts(blocks: seq<Block>, i: nat, t: nat)
    requires Unbroken(blocks) && i < |blocks| && t < blocks[i].Size() && Depth(blocks, i, t) == 0
    ensures Start(blocks, i) == 0
  {
    hide Run, Start;
    StartOfFirst(blocks);
    if i > 0 && blocks[i - 1].Size() == 0 {
      StartSucc(blocks, i - 1);
      StartSucc(blocks, i);
      StartMonotone(blocks, i + 1, |blocks|);
      TotalSteps(blocks);
    }
  }

  lemma StartOfFirst(blocks: seq<Block>)
    ensures Start(blocks, 0) == 0
  {
  }

  /** The first call that adds a step after a call that added none. */
  lemma {:induction false} StepAfterGap(blocks: seq<Block>, m: nat) returns (i: nat)
    requires m < |blocks| && blocks[m].Size() == 0 && Start(blocks, m) != |Run(blocks).steps|
    ensures m < i < |blocks| && blocks[i].Size() > 0 && Depth(blocks, i, 0) == 0 && Start(blocks, i) == Start(blocks, m)
    decreases |blocks| - m
  {
    hide Run, Start;
    TotalSteps(blocks);
    StartSucc(blocks, m);
    if m + 1 < |blocks| && blocks[m + 1].Size() == 0 {
      i := StepAfterGap(blocks, m + 1);
    } else {
      i := m + 1;
    }
  }

  /** For steps with different ids, the entry steps are the queue that Kahn's algorithm starts with. */
  lemma {:induction false} EntriesAreSources(steps: seq<Step>, k: nat)
    requires k <= |steps| && DistinctIds(steps)
    ensures EntryIds(steps[..k]) == Sources(NodeIds(steps[..k]), Edges(steps))
    decreases k
  {
    hide Edges, InDegree;
    if k == 0 {
    } else {
      var front, last := steps[..k - 1], steps[k - 1];
      assert steps[..k][..k - 1] == front;
      EntriesAreSources(steps, k - 1);
      NewId(steps, k - 1);
      NodeIdsSnoc(steps[..k]);
      assert (NodeIds(front) + [last.id])[..|NodeIds(front)|] == NodeIds(front);
      UnlistedIsSource(steps, k - 1);
    }
  }

  lemma NodeIdsSnoc(steps: seq<Step>)
    requires steps != []
    ensures var last := steps[|steps| - 1];
      var front := NodeIds(steps[..|steps| - 1]);
      NodeIds(steps) == if last.id in front then front else front + [last.id]
  {
  }

  lemma {:induction false} NewId(steps: seq<Step>, k: nat)
    requires k < |steps| && DistinctIds(steps)
    ensures steps[k].id !in NodeIds(steps[..k])
  {
  }

  lemma {:induction false} UnlistedIsSource(steps: seq<Step>, k: nat)
    requires k < |steps| && DistinctIds(steps)
    ensures InDegree(Edges(steps), steps[k].id, {}) == 0 <==> steps[k].Deps() == []
  {
    hide Edges, InDegree;
    var es, s := Edges(steps), steps[k];
    InDegreeZero(es, s.id, {});
    assert s in steps;
    if s.Deps() != [] {
      EdgesAreDependencies(steps, s.id, s.Deps()[0]);
      assert Edge(s.Deps()[0], s.id) in es;
    }
    forall e | e in es && e.dst == s.id
      ensures e.src in s.Deps()
    {
      assert e == Edge(e.src, s.id);
      EdgesAreDependencies(steps, s.id, e.src);
      var x :| x in steps && x.id == s.id && e.src in x.Deps();
      var m :| 0 <= m < |steps| && steps[m] == x;
    }
  }
}
