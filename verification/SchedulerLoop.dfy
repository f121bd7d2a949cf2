/** The scheduler object: the methods that carry out the steps, and the loop that reduces batches
    until no pair is active. */
module SchedulerLoop {
  import opened Options
  import opened InteractionNet
  import opened NetScheduler
  import opened NetTermination
  import opened NetClaims

  // ---- Moves of the scheduler ----

  /** A step of the system, a rebuilding of the cache, or a claim that comes to nothing. */
  datatype Move = Act(action: Action) | Rescan | Miss(left: Id, right: Id)

  ghost predicate CanMove(s: Sys, m: Move) {
    match m
    case Act(a) => Enabled(s, a)
    case Rescan => true
    case Miss(left, right) => !Claimable(s.net, left, right)
  }

  ghost function Moved(s: Sys, m: Move, hasExecutor: bool): Sys
    requires CanMove(s, m)
  {
    match m
    case Act(a) => Do(s, a, hasExecutor)
    case Rescan => s.(net := Refreshed(s.net))
    case Miss(left, right) => s.(net := s.net.(cache := DropPair(s.net.cache, left, right)))
  }

  ghost predicate Moves(s: Sys, moves: seq<Move>, hasExecutor: bool, s': Sys)
    decreases |moves|
  {
    if moves == [] then s' == s
    else CanMove(s, moves[0]) && Moves(Moved(s, moves[0], hasExecutor), moves[1..], hasExecutor, s')
  }

  lemma {:induction false} MovesConcat(s: Sys, a: seq<Move>, hasExecutor: bool, s': Sys, b: seq<Move>, s'': Sys)
    requires Moves(s, a, hasExecutor, s') && Moves(s', b, hasExecutor, s'')
    ensures Moves(s, a + b, hasExecutor, s'')
    decreases |a|
  {
    hide Moved, CanMove;
    if a == [] {
      assert a + b == b;
    } else {
      assert (a + b)[1..] == a[1..] + b;
      MovesConcat(Moved(s, a[0], hasExecutor), a[1..], hasExecutor, s', b, s'');
    }
  }

  lemma {:induction false} OneMove(s: Sys, m: Move, hasExecutor: bool)
    requires CanMove(s, m)
    ensures Moves(s, [m], hasExecutor, Moved(s, m, hasExecutor))
  {
    hide Moved, CanMove;
    assert [m][1..] == [];
  }

  lemma NoMove(s: Sys, hasExecutor: bool)
    ensures Moves(s, [], hasExecutor, s)
  {
  }

  /** One move after others. */
  lemma {:induction false} MovesSnoc(s: Sys, moves: seq<Move>, hasExecutor: bool, s': Sys, m: Move)
    requires Moves(s, moves, hasExecutor, s') && CanMove(s', m)
    ensures Moves(s, moves + [m], hasExecutor, Moved(s', m, hasExecutor))
  {
    hide Moves, Moved, CanMove;
    OneMove(s', m, hasExecutor);
    MovesConcat(s, moves, hasExecutor, s', [m], Moved(s', m, hasExecutor));
  }

  // ---- What all moves keep ----

  ghost predicate OnlyCacheDiffers(s: Sys, s': Sys) {
    s' == s.(net := s.net.(cache := s'.net.cache)) && CacheOk(s'.net)
  }

  /** The claim laws, the stranded nodes, and what is left to spend on claims and wires. */
  ghost predicate Kept(s: Sys, s': Sys) {
    && ClaimInv(s') && StrandedBy(s, s')
    && |s'.log| + Potential(s') <= |s.log| + Potential(s) && Room(s') <= Room(s)
  }

  lemma {:induction false} KeptChain(s: Sys, t: Sys, s': Sys)
    requires Kept(s, t) && Kept(t, s')
    ensures Kept(s, s')
  {
    hide ClaimInv, StrandedBy, Potential, Room;
    StrandedByChain(s, t, s');
  }

  lemma {:induction false} CacheOnly(s: Sys, s': Sys)
    requires OnlyCacheDiffers(s, s') && ClaimInv(s)
    ensures Kept(s, s')
  {
    hide CacheOk;
    assert Bounded(s') && Disjoint(s');
    assert Waiting(s', false) == Waiting(s, false) && Waiting(s', true) == Waiting(s, true);
    assert forall id :: Spent(s, id) ==> Spent(s', id);
    assert s'.log[|s.log|..] == [];
  }

  lemma {:induction false} MoveKeeps(s: Sys, m: Move, hasExecutor: bool)
    requires ClaimInv(s) && CanMove(s, m)
    ensures Kept(s, Moved(s, m, hasExecutor))
  {
    hide Do, ClaimInv, StrandedBy, Potential, Room, Enabled, Refreshed, CacheOk;
    ClaimInvCacheOk(s);
    match m
    case Act(a) =>
      StepKeepsClaimInv(s, a, hasExecutor);
      StepStrands(s, a, hasExecutor);
      StepSpends(s, a, hasExecutor);
    case Rescan =>
      RescanDiffers(s);
      CacheOnly(s, Moved(s, m, hasExecutor));
    case Miss(left, right) =>
      MissDiffers(s, left, right);
      CacheOnly(s, Moved(s, m, hasExecutor));
  }

  lemma {:induction false} RescanDiffers(s: Sys)
    requires CacheOk(s.net)
    ensures OnlyCacheDiffers(s, s.(net := Refreshed(s.net)))
  {
    RefreshedOk(s.net);
  }

  lemma {:induction false} MissDiffers(s: Sys, left: Id, right: Id)
    requires CacheOk(s.net) && !Claimable(s.net, left, right)
    ensures OnlyCacheDiffers(s, s.(net := s.net.(cache := DropPair(s.net.cache, left, right))))
  {
    hide CacheOk;
    ClaimedOk(s.net, left, right, "");
  }

  /** Whatever the scheduler does, no node is claimed twice, just the partners of tasks executed alone are
      stranded, and claims are made only as long as the potential lasts. */
  lemma {:induction false} MovesKeep(s: Sys, moves: seq<Move>, hasExecutor: bool, s': Sys)
    requires ClaimInv(s) && Moves(s, moves, hasExecutor, s')
    ensures Kept(s, s')
    decreases |moves|
  {
    hide Moved, CanMove, Kept;
    if moves == [] {
      NoMoveKeeps(s);
    } else {
      var t := Moved(s, moves[0], hasExecutor);
      MoveKeeps(s, moves[0], hasExecutor);
      KeptClaimInv(s, t);
      MovesKeep(t, moves[1..], hasExecutor, s');
      KeptChain(s, t, s');
    }
  }

  lemma {:induction false} NoMoveKeeps(s: Sys)
    requires ClaimInv(s)
    ensures Kept(s, s)
  {
    hide ClaimInv;
    assert s.log[|s.log|..] == [];
  }

  lemma KeptClaimInv(s: Sys, s': Sys)
    requires Kept(s, s')
    ensures ClaimInv(s')
  {
  }

  /** Without pairs of a task and another node to claim, nothing is stranded. */
  lemma {:induction false} MovesUnmixed(s: Sys, moves: seq<Move>, hasExecutor: bool, s': Sys)
    requires ClaimInv(s) && Unmixed(s, hasExecutor) && Moves(s, moves, hasExecutor, s')
    ensures forall id :: Stranded(s', id) <==> Stranded(s, id)
    decreases |moves|
  {
    hide Do, Enabled, ClaimInv, Kept, Stranded, Refreshed, CacheOk, Unmixed;
    if moves == [] {
    } else {
      var t := Moved(s, moves[0], hasExecutor);
      MoveKeeps(s, moves[0], hasExecutor);
      KeptClaimInv(s, t);
      ClaimInvCacheOk(s);
      match moves[0] {
        case Act(a) => UnmixedStrandsNone(s, a, hasExecutor);
        case Rescan =>
          RescanDiffers(s);
          OtherCacheUnmixed(s, t, hasExecutor);
        case Miss(left, right) =>
          MissDiffers(s, left, right);
          OtherCacheUnmixed(s, t, hasExecutor);
      }
      MovesUnmixed(t, moves[1..], hasExecutor, s');
    }
  }

  lemma OtherCacheUnmixed(s: Sys, s': Sys, hasExecutor: bool)
    requires s' == s.(net := s.net.(cache := s'.net.cache)) && Unmixed(s, hasExecutor)
    ensures Unmixed(s', hasExecutor) && forall id :: Stranded(s', id) <==> Stranded(s, id)
  {
  }

  /** Nothing is under way, some pair is active, and every active pair is of a task and another node. */
  ghost predicate AllMixed(s: Sys) {
    && s.pending == []
    && (exists w :: w in s.net.wires && IsActive(s.net.nodes, w))
    && (forall w :: w in s.net.wires && IsActive(s.net.nodes, w) ==> MixedWire(s.net.nodes, w))
  }

  /** All active pairs are still mixed, or a partner has been stranded. */
  ghost predicate MixedOrStranded(s: Sys) {
    AllMixed(s) || exists id :: Stranded(s, id)
  }

  lemma {:induction false} MixedClaim(s: Sys, left: Id, right: Id, worker: string)
    requires ClaimInv(s) && AllMixed(s) && Claimable(Refreshed(s.net), left, right)
    ensures exists id :: Stranded(DoClaim(s, left, right, worker, true), id)
  {
    hide ClaimInv, DoClaim, Stranded, CacheOk, FindPair, Refreshed;
    ClaimInvCacheOk(s);
    var w := ClaimedWire(s, left, right);
    ClaimableIsIdle(s, left, right);
    assert IsActive(s.net.nodes, w) && MixedWire(s.net.nodes, w);
    ClaimStrands(s, left, right, worker, true);
    var partner := if s.net.nodes[left].payload.TaskPayload? then right else left;
    assert Stranded(DoClaim(s, left, right, worker, true), partner);
  }

  lemma {:induction false} MixedCollect(s: Sys, id: Id)
    requires AllMixed(s) && Enabled(s, Collect(id))
    ensures AllMixed(Do(s, Collect(id), true))
  {
    hide HasIdleDeps, DropWiresOf;
    var w :| w in s.net.wires && IsActive(s.net.nodes, w);
    var s' := Do(s, Collect(id), true);
    assert w in s'.net.wires && IsActive(s'.net.nodes, w);
  }

  lemma {:induction false} MoveMixed(s: Sys, m: Move)
    requires ClaimInv(s) && MixedOrStranded(s) && CanMove(s, m)
    ensures MixedOrStranded(Moved(s, m, true))
  {
    hide ClaimInv, DoClaim, Stranded, Kept, Refreshed, StrandedBy, CacheOk;
    var s' := Moved(s, m, true);
    if id :| Stranded(s, id) {
      MoveKeeps(s, m, true);
      KeptStranded(s, s');
      assert Stranded(s', id);
    } else {
      match m
      case Act(Claim(left, right, worker)) => MixedClaim(s, left, right, worker);
      case Act(Collect(id)) => MixedCollect(s, id);
      case Act(_) =>
      case Rescan =>
        ClaimInvCacheOk(s);
        RescanDiffers(s);
        SameNetMixed(s, s');
      case Miss(left, right) =>
        ClaimInvCacheOk(s);
        MissDiffers(s, left, right);
        SameNetMixed(s, s');
    }
  }

  lemma SameNetMixed(s: Sys, s': Sys)
    requires AllMixed(s) && s' == s.(net := s.net.(cache := s'.net.cache))
    ensures AllMixed(s')
  {
  }

  lemma {:induction false} MovesMixed(s: Sys, moves: seq<Move>, s': Sys)
    requires ClaimInv(s) && MixedOrStranded(s) && Moves(s, moves, true, s')
    ensures MixedOrStranded(s')
    decreases |moves|
  {
    hide Moved, CanMove, ClaimInv, Kept, MixedOrStranded;
    if moves == [] {
    } else {
      MoveMixed(s, moves[0]);
      MoveKeeps(s, moves[0], true);
      KeptClaimInv(s, Moved(s, moves[0], true));
      MovesMixed(Moved(s, moves[0], true), moves[1..], s');
    }
  }

  // ---- Ready pairs ----

  ghost predicate ByPriority(pairs: seq<ActivePair>) {
    forall i, j :: 0 <= i < j < |pairs| ==> pairs[i].priority >= pairs[j].priority
  }

  /** The pairs of one priority, in order. */
  ghost function OfPriority(pairs: seq<ActivePair>, k: int): seq<ActivePair> {
    if pairs == [] then []
    else
      var n := |pairs| - 1;
      OfPriority(pairs[..n], k) + if pairs[n].priority == k then [pairs[n]] else []
  }

  lemma {:induction false} OfPrioritySnoc(pairs: seq<ActivePair>, p: ActivePair)
    ensures forall k :: OfPriority(pairs + [p], k) == OfPriority(pairs, k) + OfPriority([p], k)
  {
    assert (pairs + [p])[..|pairs|] == pairs && [p][..0] == [];
  }

  /** Insert a pair behind all pairs of at least its priority. */
  function InsertPair(sorted: seq<ActivePair>, p: ActivePair): (r: seq<ActivePair>)
    ensures multiset(r) == multiset(sorted) + multiset{p}
    ensures forall k :: OfPriority(r, k) == OfPriority(sorted, k) + OfPriority([p], k)
  {
    if sorted == [] then [p]
    else
      var last, front := sorted[|sorted| - 1], sorted[..|sorted| - 1];
      assert sorted == front + [last];
      OfPrioritySnoc(sorted, p);
      OfPrioritySnoc(front, last);
      OfPrioritySnoc(InsertPair(front, p), last);
      if last.priority >= p.priority then sorted + [p] else InsertPair(front, p) + [last]
  }

  lemma {:induction false} InsertPairSorted(sorted: seq<ActivePair>, p: ActivePair)
    requires ByPriority(sorted)
    ensures ByPriority(InsertPair(sorted, p))
  {
    hide OfPriority;
    if sorted == [] {
    } else {
      var last, front := sorted[|sorted| - 1], sorted[..|sorted| - 1];
      InsertPairSorted(front, p);
      var r := InsertPair(front, p);
      if last.priority < p.priority {
        forall q | q in r
          ensures q.priority >= last.priority
        {
          assert q in multiset(r);
        }
      }
    }
  }

  /** The stable sort of `getReadyPairs`: highest priority first. */
  method SortPairs(pairs: seq<ActivePair>) returns (sorted: seq<ActivePair>)
    ensures ByPriority(sorted) && multiset(sorted) == multiset(pairs)
    ensures forall k :: OfPriority(sorted, k) == OfPriority(pairs, k)
  {
    sorted := [];
    for i := 0 to |pairs|
      invariant ByPriority(sorted) && multiset(sorted) == multiset(pairs[..i])
      invariant forall k :: OfPriority(sorted, k) == OfPriority(pairs[..i], k)
    {
      assert pairs[..i + 1] == pairs[..i] + [pairs[i]];
      OfPrioritySnoc(pairs[..i], pairs[i]);
      InsertPairSorted(sorted, pairs[i]);
      sorted := InsertPair(sorted, pairs[i]);
    }
    assert pairs[..|pairs|] == pairs;
  }

  // ---- The scheduler ----

  class Scheduler {
    const net: InteractionNet
    const hasExecutor: bool
    const maxConcurrency: nat
    const gcThreshold: nat
    var pending: seq<Pending>
    var reductionsSinceGC: nat
    ghost var log: seq<ClaimRecord>

    ghost function State(): Sys
      reads this, net
    {
      Sys(net.State(), pending, log)
    }

    constructor (net: InteractionNet, hasExecutor: bool, maxConcurrency: nat, gcThreshold: nat)
      ensures this.net == net && State() == Sys(net.State(), [], []) && reductionsSinceGC == 0
      ensures this.hasExecutor == hasExecutor && this.maxConcurrency == maxConcurrency && this.gcThreshold == gcThreshold
    {
      this.net, this.hasExecutor, this.maxConcurrency, this.gcThreshold := net, hasExecutor, maxConcurrency, gcThreshold;
      pending, reductionsSinceGC, log := [], 0, [];
    }

    /** The rule for an eraser, with its loop over the two auxiliary ports. */
    method ReduceConstructorEraser(con: Id, era: Id, eraPayload: Payload, wire: Wire) returns (result: ReductionResult)
      modifies net`idCounter
      ensures Reduction(result, net.idCounter) == Erase(old(net.State()), con, era, eraPayload, wire, old(net.idCounter))
    {
      hide PropagateTo;
      result := ReductionResult([con, era], [], [], [wire.id]);
      if Propagates(eraPayload) {
        for i := 0 to 2
          invariant net.nodes == old(net.nodes) && net.wires == old(net.wires)
          invariant var none := Reduction(ReductionResult([con, era], [], [], [wire.id]), old(net.idCounter));
            Reduction(result, net.idCounter) ==
              if i == 0 then none
              else if i == 1 then PropagateTo(old(net.State()), con, 1, none)
              else PropagateTo(old(net.State()), con, 2, PropagateTo(old(net.State()), con, 1, none))
        {
          result := PropagateToPort(con, i + 1, result, old(net.State()));
        }
      }
    }

    /** One pass of that loop. */
    method PropagateToPort(con: Id, index: nat, result0: ReductionResult, ghost at: Net) returns (result: ReductionResult)
      requires at.nodes == net.nodes && at.wires == net.wires
      modifies net`idCounter
      ensures Reduction(result, net.idCounter) == PropagateTo(at, con, index, Reduction(result0, old(net.idCounter)))
    {
      result := result0;
      var connected := net.GetConnectedNode(con, index);
      if connected.Some? && net.nodes[connected.value].status == Idle {
        var id := net.NextId("e");
        var eraser := MakeNode(Eraser, EraserPayload(PROPAGATED, true), 5, net.idCounter);
        var w := net.NextId("w");
        result := result.(add := result.add + [eraser],
                          addWires := result.addWires + [Wire(w, Port(eraser.id, 0), Port(connected.value, 0))]);
      }
    }

    /** The synchronous part of `reducePair`: claim the pair and compute its rule. */
    method ReducePair(left: Id, right: Id, worker: string) returns (claimed: bool)
      requires CacheOk(net.State())
      modifies this, net
      ensures claimed <==> Claimable(old(net.State()), left, right)
      ensures claimed ==> State() == DoClaim(old(State()), left, right, worker, hasExecutor)
      ensures !claimed ==> State() == Moved(old(State()), Miss(left, right), hasExecutor)
      ensures reductionsSinceGC == old(reductionsSinceGC)
      ensures net.activePairCache == DropPair(old(net.activePairCache), left, right)
      ensures |log| == |old(log)| + if claimed then 1 else 0
    {
      hide CacheOk, StartRule, Select;
      ghost var s := State();
      var pair := net.ClaimPair(left, right, worker);
      if pair.None? {
        return false;
      }
      assert Refreshed(s.net) == s.net by { ClaimableIsCached(s.net, left, right); }
      assert net.State() == Claimed(s.net, left, right, worker);
      var rule := Select(net.nodes[left].payload, net.nodes[right].payload);
      var start := Begin(rule, pair.value);
      match start {
        case Throws =>
          net.nodes := Settle(Settle(net.nodes, left, NO_EXECUTOR), right, NO_EXECUTOR);
          log := log + [ClaimRecord(left, right, [])];
        case Starts(tasks, reduction) =>
          pending := pending + [Pending(tasks, reduction.result)];
          log := log + [ClaimRecord(left, right, tasks)];
      }
      return true;
    }

    /** `applyReductionRule`, up to its first `await`. */
    method Begin(rule: Rule, pair: ActivePair) returns (start: Start)
      requires pair.left in net.nodes && pair.right in net.nodes
      modifies net`idCounter
      ensures start == StartRule(rule, old(net.State()), pair, hasExecutor)
      ensures net.idCounter == CounterAfter(start, old(net.idCounter))
    {
      hide Erase;
      var left, right, w := net.nodes[pair.left], net.nodes[pair.right], pair.wire;
      var conLeft := left.kind == Constructor;
      match rule
      case ConstructorEraser =>
        var r := if conLeft then (pair.left, pair.right, right.payload) else (pair.right, pair.left, left.payload);
        var result := ReduceConstructorEraser(r.0, r.1, r.2, w);
        start := Starts([], Reduction(result, net.idCounter));
      case DuplicatorEraser =>
        var r := if conLeft then (pair.left, pair.right, right.payload) else (pair.right, pair.left, left.payload);
        var result := ReduceConstructorEraser(r.0, r.1, r.2, w);
        start := Starts([], Reduction(result, net.idCounter));
      case _ =>
        start := StartRule(rule, Net(net.nodes, net.wires, net.activePairCache, net.idCounter), pair, hasExecutor);
        net.idCounter := CounterAfter(start, net.idCounter);
    }

    /** A task of a reduction under way resolves or rejects. */
    method FinishTask(p: nat, t: nat, outcome: TaskEnd)
      requires p < |pending| && t < |pending[p].tasks|
      modifies this`pending, net`nodes
      ensures State() == Do(old(State()), Finish(p, t, outcome), hasExecutor)
    {
      var pend := pending[p];
      net.nodes := Settle(net.nodes, pend.tasks[t], outcome);
      pending := pending[p := pend.(tasks := Without(pend.tasks, t))];
    }

    /** The result of a reduction under way is applied to the net. */
    method ApplyPending(p: nat)
      requires p < |pending| && pending[p].tasks == []
      modifies this`pending, net
      ensures State() == Do(old(State()), Apply(p), hasExecutor)
    {
      net.ApplyReduction(pending[p].result);
      pending := Without(pending, p);
    }

    /** Let everything under way run to its end, in any order, tasks resolving or rejecting as they please. */
    method AwaitPending() returns (ghost moves: seq<Move>)
      modifies this`pending, net
      ensures Moves(old(State()), moves, hasExecutor, State()) && pending == []
      ensures |net.activePairCache| <= |old(net.activePairCache)|
    {
      hide Moves, Moved, CanMove;
      moves := [];
      NoMove(State(), hasExecutor);
      while pending != []
        invariant Moves(old(State()), moves, hasExecutor, State()) && log == old(log)
        invariant |net.activePairCache| <= |old(net.activePairCache)|
        decreases Weight(pending)
      {
        ghost var s := State();
        ghost var a: Action;
        var p: nat :| p < |pending|;
        if pending[p].tasks != [] {
          var t: nat :| t < |pending[p].tasks|;
          var outcome: TaskEnd := *;
          a := Finish(p, t, outcome);
          FinishTask(p, t, outcome);
          WeightAt(s.pending, p);
          WeightAt(pending, p);
          assert Without(pending, p) == Without(s.pending, p);
        } else {
          a := Apply(p);
          ApplyPending(p);
          WeightAt(s.pending, p);
        }
        ActMoves(s, a, hasExecutor);
        MovesSnoc(old(State()), moves, hasExecutor, s, Act(a));
        moves := moves + [Act(a)];
      }
    }

    /** Collect the dead nodes that no idle or active node is wired to: just these, with their wires. */
    method Gc() returns (ghost moves: seq<Move>)
      requires CacheOk(net.State())
      modifies net
      ensures Moves(old(State()), moves, hasExecutor, State())
      ensures |net.activePairCache| <= |old(net.activePairCache)|
      ensures var garbage := Garbage(old(net.State()));
        && net.nodes == old(net.nodes) - garbage
        && forall w :: w in net.wires <==> w in old(net.wires) && w.from.nodeId !in garbage && w.to.nodeId !in garbage
    {
      hide Moves, Moved, CanMove, HasIdleDeps, CacheOk, WithoutNodes, Garbage, Dead, Removed;
      ghost var before := net.State();
      ghost var garbage := Garbage(before);
      var todo := net.nodes.Keys;
      moves := [];
      NoMove(State(), hasExecutor);
      NothingCollected(before);
      while todo != {}
        invariant CacheOk(net.State()) && todo <= before.nodes.Keys
        invariant |net.activePairCache| <= |before.cache|
        invariant Moves(old(State()), moves, hasExecutor, State())
        invariant WithoutNodes(before, garbage - todo, net.State())
        decreases |todo|
      {
        var id :| id in todo;
        ghost var s, gone := State(), garbage - todo;
        SameDeps(before, gone, s.net, id);
        IsGarbage(before, id);
        todo := todo - {id};
        var collected := CollectIfDead(id);
        if collected {
          CollectMoves(old(State()), moves, hasExecutor, s, id);
          moves := moves + [Act(Collect(id))];
          OneMoreCollected(before, gone, s.net, id);
          assert garbage - todo == gone + {id};
        } else {
          assert garbage - todo == gone;
        }
      }
      assert garbage - {} == garbage;
      AllCollected(before, net.State());
    }

    /** One pass of the loop of `Gc`. */
    method CollectIfDead(id: Id) returns (collected: bool)
      requires CacheOk(net.State())
      modifies net
      ensures CacheOk(net.State())
      ensures collected <==> Dead(old(net.State()), id) && !HasIdleDeps(old(net.State()), id)
      ensures net.State() == if collected then Removed(old(net.State()), id) else old(net.State())
      ensures |net.activePairCache| <= |old(net.activePairCache)|
    {
      hide HasIdleDeps, CacheOk;
      collected := false;
      if Dead(Net(net.nodes, net.wires, net.activePairCache, net.idCounter), id) {
        var held := HeldByIdle(id);
        if !held {
          var _ := net.RemoveNode(id);
          collected := true;
        }
      }
    }

    method HeldByIdle(id: Id) returns (held: bool)
      ensures held <==> HasIdleDeps(net.State(), id)
    {
      held := false;
      ghost var n := net.State();
      for i := 0 to |net.wires|
        invariant net.State() == n
        invariant held <==> exists w :: w in n.wires[..i] && KeepsAlive(n, w, id)
      {
        assert n.wires[..i + 1] == n.wires[..i] + [n.wires[i]];
        if KeepsAlive(Net(net.nodes, net.wires, net.activePairCache, net.idCounter), net.wires[i], id) {
          held := true;
        }
      }
      assert n.wires[..|n.wires|] == n.wires;
    }

    /** Try each pair of the batch in turn, and then wait for all that were claimed. */
    method ReduceBatch(batch: seq<ActivePair>) returns (ghost moves: seq<Move>)
      requires ClaimInv(State()) && pending == []
      modifies this, net
      ensures Moves(old(State()), moves, hasExecutor, State()) && pending == []
      ensures |batch| <= |moves| && forall i :: 0 <= i < |batch| ==> Tries(moves[i], batch[i])
      ensures reductionsSinceGC == if old(reductionsSinceGC) + |batch| >= gcThreshold then 0 else old(reductionsSinceGC) + |batch|
      ensures |batch| > 0 && batch[0] in old(net.activePairCache) ==> |net.activePairCache| < |old(net.activePairCache)|
      ensures |batch| > 0 && Claimable(old(net.State()), batch[0].left, batch[0].right) ==> |log| > |old(log)|
    {
      hide ClaimInv, Kept, Moves, Moved, CanMove, DoClaim, Claimable, DropPair;
      moves := [];
      NoMove(State(), hasExecutor);
      for i := 0 to |batch|
        invariant Moves(old(State()), moves, hasExecutor, State()) && reductionsSinceGC == old(reductionsSinceGC)
        invariant |moves| == i && forall k :: 0 <= k < i ==> Tries(moves[k], batch[k])
        invariant |net.activePairCache| <= |old(net.activePairCache)| && |log| >= |old(log)|
        invariant i > 0 && batch[0] in old(net.activePairCache) ==> |net.activePairCache| < |old(net.activePairCache)|
        invariant i > 0 && Claimable(old(net.State()), batch[0].left, batch[0].right) ==> |log| > |old(log)|
        invariant i == 0 ==> State() == old(State())
      {
        ghost var s := State();
        MovesKeep(old(State()), moves, hasExecutor, s);
        KeptClaimInv(old(State()), s);
        ClaimInvCacheOk(s);
        var claimed := ReducePair(batch[i].left, batch[i].right, "w");
        ghost var m := if claimed then Act(Claim(batch[i].left, batch[i].right, "w")) else Miss(batch[i].left, batch[i].right);
        if claimed {
          ClaimableIsCached(s.net, batch[i].left, batch[i].right);
          ActMoves(s, m.action, hasExecutor);
        } else {
          MissMoves(s, m.left, m.right);
        }
        MovesSnoc(old(State()), moves, hasExecutor, s, m);
        moves := moves + [m];
      }
      ghost var claims, s := moves, State();
      ghost var rest := AwaitPending();
      MovesConcat(old(State()), claims, hasExecutor, s, rest, State());
      moves := claims + rest;
      reductionsSinceGC := reductionsSinceGC + |batch|;
      if reductionsSinceGC >= gcThreshold {
        s := State();
        MovesKeep(old(State()), moves, hasExecutor, s);
        KeptClaimInv(old(State()), s);
        ClaimInvCacheOk(s);
        rest := Gc();
        MovesConcat(old(State()), moves, hasExecutor, s, rest, State());
        moves := moves + rest;
        reductionsSinceGC := 0;
      }
    }

    /** Reduce batch after batch, by moves of the system alone. The loop leaves early only in normal form
        with no node `reducing`; and given more iterations than its budget, it leaves early exactly when
        no partner of a task has been stranded, before or during the call. None is stranded during the
        call if no pair of a task and another node can come up; and if there are only such pairs to begin
        with, all iterations are used up. */
    method RunToCompletion(maxIterations: nat) returns (iterations: nat, ghost moves: seq<Move>)
      requires ClaimInv(State()) && pending == []
      modifies this, net
      ensures Moves(old(State()), moves, hasExecutor, State()) && pending == [] && iterations <= maxIterations
      ensures iterations < maxIterations ==>
        && (forall w :: w in net.wires ==> !IsActive(net.nodes, w))
        && (forall id :: id in net.nodes ==> net.nodes[id].status != Reducing)
      ensures (exists id :: Stranded(old(State()), id)) ==> iterations == maxIterations
      ensures maxConcurrency > 0 && maxIterations > Budget(old(State())) ==>
        (iterations < maxIterations <==> forall id :: !Stranded(State(), id))
      ensures StrandedBy(old(State()), State())
      ensures Unmixed(old(State()), hasExecutor) ==> forall id :: Stranded(State(), id) <==> Stranded(old(State()), id)
      ensures hasExecutor && AllMixed(old(State())) ==> iterations == maxIterations
    {
      hide ClaimInv, Kept, Stranded, Moves, Moved, CanMove, OfPriority, Budget, Refreshed, CacheOk, Unmixed, AllMixed;
      iterations := 0;
      moves := [];
      NoMove(State(), hasExecutor);
      while iterations < maxIterations
        invariant Moves(old(State()), moves, hasExecutor, State()) && pending == [] && iterations <= maxIterations
        invariant maxConcurrency > 0 && (forall id :: !Stranded(State(), id)) ==> iterations + Budget(State()) <= Budget(old(State()))
      {
        ghost var top := State();
        MovesKeep(old(State()), moves, hasExecutor, top);
        KeptClaimInv(old(State()), top);
        var done, more := OneIteration();
        MovesConcat(old(State()), moves, hasExecutor, top, more, State());
        moves := moves + more;
        MovesKeep(top, more, hasExecutor, State());
        KeptStranded(top, State());
        if done {
          NoneStranded(State());
          NothingActive(State());
          break;
        }
        iterations := iterations + 1;
      }
      MovesKeep(old(State()), moves, hasExecutor, State());
      KeptStranded(old(State()), State());
      if Unmixed(old(State()), hasExecutor) {
        MovesUnmixed(old(State()), moves, hasExecutor, State());
      }
      if hasExecutor && AllMixed(old(State())) {
        MovesMixed(old(State()), moves, State());
      }
    }

    /** One pass of that loop. Unless it finds the net done, or waits for nodes that nothing will settle, it
        spends some of the budget. */
    method OneIteration() returns (done: bool, ghost moves: seq<Move>)
      requires ClaimInv(State()) && pending == []
      modifies this, net
      ensures Moves(old(State()), moves, hasExecutor, State()) && pending == []
      ensures done ==>
        && (forall w :: w in net.wires ==> !IsActive(net.nodes, w))
        && (forall id :: id in net.nodes ==> net.nodes[id].status != Reducing)
      ensures !done && maxConcurrency > 0 ==> Budget(State()) < Budget(old(State())) || exists id :: Stranded(State(), id)
    {
      hide ClaimInv, Kept, Stranded, Moves, Moved, CanMove, OfPriority, Budget, Refreshed, CacheOk, Claimable;
      ghost var top := State();
      done := false;
      ClaimInvCacheOk(top);
      var pairs := net.FindActivePairs();
      RefreshedOk(top.net);
      RescanMoves(top, hasExecutor);
      OneMove(top, Rescan, hasExecutor);
      moves := [Rescan];
      ghost var s := State();
      MovesKeep(top, moves, hasExecutor, s);
      KeptClaimInv(top, s);
      if |pairs| == 0 {
        done := forall id :: id in net.nodes ==> net.nodes[id].status != Reducing;
        if !done {
          ghost var id :| id in net.nodes && net.nodes[id].status == Reducing;
          ReducingIsStranded(s, id);
        }
      } else {
        var sorted := SortPairs(pairs);
        var n := if maxConcurrency < |sorted| then maxConcurrency else |sorted|;
        assert |sorted| == |pairs| by { assert |multiset(sorted)| == |multiset(pairs)|; }
        assert sorted[0] in pairs by { assert sorted[0] in multiset(sorted); }
        ghost var more := ReduceBatch(sorted[..n]);
        MovesConcat(top, moves, hasExecutor, s, more, State());
        moves := moves + more;
        if maxConcurrency > 0 {
          MovesKeep(top, [Rescan], hasExecutor, s);
          MovesKeep(s, more, hasExecutor, State());
          IterationSpends(top, s, State(), sorted[0]);
        }
      }
    }
  }

  /** Each of `claims` claims leaves at most `room` stale pairs to drop from the cache. */
  function AllTries(claims: nat, room: nat): nat {
    claims * (room + 1)
  }

  /** More iterations than this are enough to reach the end, if the end can be reached at all. */
  ghost function Budget(s: Sys): nat {
    AllTries(Potential(s), Room(s)) + |s.net.cache|
  }

  lemma {:induction false} IterationSpends(top: Sys, s: Sys, s': Sys, first: ActivePair)
    requires CacheOk(top.net) && s == top.(net := Refreshed(top.net)) && Kept(top, s) && Kept(s, s')
    requires first in s.net.cache && |s'.net.cache| < |s.net.cache|
    requires Claimable(s.net, first.left, first.right) ==> |s'.log| > |s.log|
    ensures Budget(s') < Budget(top)
  {
    hide AllTries, ClaimInv, CacheOk, Claimable, Potential, Room, Scan;
    LogGrows(s, s');
    RescanSpends(top, s);
    if top.net.cache == [] {
      FreshlyScanned(top.net, first);
    }
    BudgetFalls(Potential(top), Potential(s'), Room(top), Room(s'), |top.net.cache|, |s.net.cache|, |s'.net.cache|);
  }

  /** Either the cache shrank, or it was empty, and a claim was made after a scan of at most `room` wires. */
  lemma {:induction false} BudgetFalls(claims: nat, claims': nat, room: nat, room': nat, cache: nat, scanned: nat, cache': nat)
    requires claims' <= claims && room' <= room && cache' < scanned
    requires cache == scanned || (claims' < claims && scanned <= room)
    ensures AllTries(claims', room') + cache' < AllTries(claims, room) + cache
  {
    hide AllTries;
    if cache == scanned {
      FewerTries(claims', claims, room', room);
    } else {
      FewerTries(claims', claims', room', room);
      OneMoreClaim(claims', room);
      FewerTries(claims' + 1, claims, room, room);
    }
  }

  lemma {:induction false} RescanSpends(s: Sys, s': Sys)
    requires s' == s.(net := Refreshed(s.net))
    ensures Potential(s') == Potential(s) && Room(s') == Room(s) && s'.log == s.log && |s.net.wires| <= Room(s)
  {
    hide Refreshed, IdleIds, AddedIds, CountLive, Weight, WiresComing;
    assert s'.net.nodes == s.net.nodes && s'.net.wires == s.net.wires by { RefreshedParts(s.net); }
    assert Waiting(s', false) == Waiting(s, false) && Waiting(s', true) == Waiting(s, true);
  }

  lemma RefreshedParts(net: Net)
    ensures Refreshed(net).nodes == net.nodes && Refreshed(net).wires == net.wires
  {
  }

  lemma LogGrows(s: Sys, s': Sys)
    requires StrandedBy(s, s')
    ensures |s.log| <= |s'.log|
  {
  }

  lemma FewerTries(a: nat, a': nat, b: nat, b': nat)
    requires a <= a' && b <= b'
    ensures AllTries(a, b) <= AllTries(a', b')
  {
    assert a * (b + 1) <= a' * (b + 1);
    assert a' * (b + 1) <= a' * (b' + 1);
  }

  lemma OneMoreClaim(a: nat, b: nat)
    ensures AllTries(a + 1, b) == AllTries(a, b) + b + 1
  {
  }

  /** A pair just found by a scan can be claimed. */
  lemma {:induction false} FreshlyScanned(net: Net, p: ActivePair)
    requires net.cache == [] && p in Refreshed(net).cache
    ensures Claimable(Refreshed(net), p.left, p.right)
    ensures |Refreshed(net).cache| <= |net.wires|
  {
    hide Scan, FindPair;
    ScanIsExact(net.nodes, net.wires);
    assert Grounded(net.nodes, net.wires, p);
    CachedIsFound(Refreshed(net).cache, p);
  }

  lemma KeptStranded(s: Sys, s': Sys)
    requires Kept(s, s')
    ensures StrandedBy(s, s') && forall id :: Stranded(s, id) ==> Stranded(s', id)
  {
  }

  /** With nothing under way, a node that is `reducing` is stranded. */
  lemma {:induction false} ReducingIsStranded(s: Sys, id: Id)
    requires ClaimInv(s) && s.pending == [] && id in s.net.nodes && s.net.nodes[id].status == Reducing
    ensures Stranded(s, id)
  {
    NodeDrawn(s, id);
  }

  /** The move claims the pair, or finds that it no longer can be. */
  predicate Tries(m: Move, p: ActivePair) {
    m == Act(Claim(p.left, p.right, "w")) || m == Miss(p.left, p.right)
  }

  lemma {:induction false} ActMoves(s: Sys, a: Action, hasExecutor: bool)
    requires Enabled(s, a)
    ensures CanMove(s, Act(a)) && Moved(s, Act(a), hasExecutor) == Do(s, a, hasExecutor)
  {
    hide Do, Enabled;
  }

  lemma {:induction false} CollectMoves(s: Sys, moves: seq<Move>, hasExecutor: bool, s': Sys, id: Id)
    requires Moves(s, moves, hasExecutor, s') && Dead(s'.net, id) && !HasIdleDeps(s'.net, id)
    ensures Moves(s, moves + [Act(Collect(id))], hasExecutor, s'.(net := Removed(s'.net, id)))
  {
    hide Moves, Moved, CanMove, Removed, HasIdleDeps;
    ActMoves(s', Collect(id), hasExecutor);
    MovesSnoc(s, moves, hasExecutor, s', Act(Collect(id)));
  }

  lemma MissMoves(s: Sys, left: Id, right: Id)
    requires !Claimable(s.net, left, right)
    ensures CanMove(s, Miss(left, right))
  {
  }

  lemma {:induction false} RescanMoves(s: Sys, hasExecutor: bool)
    ensures CanMove(s, Rescan) && Moved(s, Rescan, hasExecutor) == s.(net := Refreshed(s.net))
  {
    hide Refreshed;
  }

  // ---- Garbage ----

  /** The dead nodes that no idle or active node is wired to. */
  function Garbage(net: Net): set<Id> {
    set id | id in net.nodes && Dead(net, id) && !HasIdleDeps(net, id)
  }

  /** `net` lacks the nodes `gone` of `before` and the wires that touch them. */
  ghost predicate WithoutNodes(before: Net, gone: set<Id>, net: Net) {
    && net.nodes == before.nodes - gone
    && forall w :: w in net.wires <==> w in before.wires && w.from.nodeId !in gone && w.to.nodeId !in gone
  }

  lemma {:induction false} IsGarbage(net: Net, id: Id)
    ensures id in Garbage(net) <==> Dead(net, id) && !HasIdleDeps(net, id)
    ensures Garbage(net) <= net.nodes.Keys
  {
    hide HasIdleDeps;
  }

  lemma {:induction false} AllCollected(before: Net, net: Net)
    requires WithoutNodes(before, Garbage(before), net)
    ensures net.nodes == before.nodes - Garbage(before)
    ensures forall w :: w in net.wires <==> w in before.wires && w.from.nodeId !in Garbage(before) && w.to.nodeId !in Garbage(before)
  {
    hide Garbage;
  }

  lemma {:induction false} NothingCollected(net: Net)
    ensures WithoutNodes(net, Garbage(net) - net.nodes.Keys, net)
  {
    assert Garbage(net) - net.nodes.Keys == {};
  }

  /** Collecting garbage makes no other node garbage, and keeps none from being it. */
  lemma {:induction false} SameDeps(before: Net, gone: set<Id>, net: Net, id: Id)
    requires WithoutNodes(before, gone, net) && gone <= Garbage(before) && id in before.nodes && id !in gone
    ensures Dead(net, id) <==> Dead(before, id)
    ensures HasIdleDeps(net, id) <==> HasIdleDeps(before, id)
  {
    forall w | w in before.wires && KeepsAlive(before, w, id)
      ensures w in net.wires && KeepsAlive(net, w, id)
    {
      assert OtherEnd(w, id) !in Garbage(before);
    }
    forall w | w in net.wires && KeepsAlive(net, w, id)
      ensures w in before.wires && KeepsAlive(before, w, id)
    {
    }
  }

  lemma OneMoreCollected(before: Net, gone: set<Id>, net: Net, id: Id)
    requires WithoutNodes(before, gone, net) && Dead(net, id)
    ensures WithoutNodes(before, gone + {id}, Removed(net, id))
  {
  }

  function CounterAfter(start: Start, counter: nat): nat {
    match start
    case Throws => counter
    case Starts(_, reduction) => reduction.counter
  }

  lemma ClaimableIsCached(net: Net, left: Id, right: Id)
    requires Claimable(net, left, right)
    ensures Refreshed(net) == net
  {
  }

  lemma ClaimInvCacheOk(s: Sys)
    requires ClaimInv(s)
    ensures CacheOk(s.net)
  {
  }

  lemma NothingActive(s: Sys)
    requires forall w :: w in s.net.wires ==> !IsActive(s.net.nodes, w)
    ensures !AllMixed(s)
  {
  }

  lemma NoneStranded(s: Sys)
    requires forall id :: id in s.net.nodes ==> s.net.nodes[id].status != Reducing
    ensures forall id :: !Stranded(s, id)
  {
  }
}
