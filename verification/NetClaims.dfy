/** Over whole runs of the scheduler: nodes are claimed once, tasks are executed once, and the
    partner of an executed task is never released. */
module NetClaims {
  import opened Options
  import opened InteractionNet
  import opened NetScheduler
  import opened NetTermination

  /** The id can never again be that of an idle node. */
  ghost predicate Spent(s: Sys, id: Id) {
    && Drawn(id, s.net.idCounter)
    && (id in s.net.nodes ==> s.net.nodes[id].status != Idle)
    && (forall p :: p in s.pending ==> id !in IdsAdded(p))
  }

  /** Whatever a reduction under way will settle or remove has been claimed for it. */
  ghost predicate PendingSpent(s: Sys) {
    forall p, id :: p in s.pending && (id in p.tasks || id in p.result.remove) ==> Spent(s, id)
  }

  ghost predicate LogSpent(s: Sys) {
    forall r :: r in s.log ==> Spent(s, r.left) && Spent(s, r.right)
  }

  /** No two claims share a node. */
  ghost predicate ClaimedOnce(s: Sys) {
    forall i, j :: 0 <= i < j < |s.log| ==> {s.log[i].left, s.log[i].right} !! {s.log[j].left, s.log[j].right}
  }

  /** A claim executes at most its own two nodes, and both only if both are tasks. */
  ghost predicate ExecutesOwn(s: Sys) {
    forall r :: r in s.log ==> r.executes == [] || r.executes == [r.left] || r.executes == [r.right] || r.executes == [r.left, r.right]
  }

  ghost predicate ClaimInv(s: Sys) {
    Inv(s) && PendingSpent(s) && LogSpent(s) && ClaimedOnce(s) && ExecutesOwn(s)
  }

  /** A set of ids of which none becomes idle, and none is about to be added. */
  ghost predicate NoneRevived(s: Sys, s': Sys) {
    && s.net.idCounter <= s'.net.idCounter
    && (forall id :: Spent(s, id) && id in s'.net.nodes ==> s'.net.nodes[id].status != Idle)
    && (forall p, id :: p in s'.pending && id in IdsAdded(p) ==> !Spent(s, id))
  }

  lemma SpentStays(s: Sys, s': Sys, id: Id)
    requires NoneRevived(s, s') && Spent(s, id)
    ensures Spent(s', id)
  {
  }

  // ---- Each step ----

  lemma {:induction false} ClaimRevivesNone(s: Sys, left: Id, right: Id, worker: string, hasExecutor: bool)
    requires Inv(s) && Claimable(Refreshed(s.net), left, right)
    ensures NoneRevived(s, DoClaim(s, left, right, worker, hasExecutor))
    ensures Spent(DoClaim(s, left, right, worker, hasExecutor), left)
    ensures Spent(DoClaim(s, left, right, worker, hasExecutor), right)
  {
    hide DoClaim, Gain, FindPair, CacheOk, AllErasing;
    var s' := DoClaim(s, left, right, worker, hasExecutor);
    var gain := Gain(s, left, right, worker, hasExecutor);
    ClaimFacts(s, left, right, worker, hasExecutor);
    ClaimStatuses(s, left, right, worker, hasExecutor);
    forall p, id | p in s'.pending && id in IdsAdded(p)
      ensures !Spent(s, id) && id !in s.net.nodes
    {
      if p !in s.pending {
        assert p.result == gain;
        assert !Drawn(id, s.net.idCounter);
      }
    }
  }

  lemma {:induction false} ClaimStatuses(s: Sys, left: Id, right: Id, worker: string, hasExecutor: bool)
    requires Claimable(Refreshed(s.net), left, right)
    ensures var s' := DoClaim(s, left, right, worker, hasExecutor);
      && s'.net.nodes.Keys == s.net.nodes.Keys
      && s'.net.nodes[left].status != Idle && s'.net.nodes[right].status != Idle
      && (forall id :: id in s.net.nodes && id != left && id != right ==> s'.net.nodes[id] == s.net.nodes[id])
      && s'.log == s.log + [s'.log[|s.log|]]
      && s'.log[|s.log|].left == left && s'.log[|s.log|].right == right
  {
    hide StartRule, Select, FindPair, DropPair;
  }

  lemma {:induction false} FinishRevivesNone(s: Sys, p: nat, t: nat, outcome: TaskEnd, hasExecutor: bool)
    requires Inv(s) && Enabled(s, Finish(p, t, outcome))
    ensures NoneRevived(s, Do(s, Finish(p, t, outcome), hasExecutor))
  {
    hide Settle, Inv;
    var s' := Do(s, Finish(p, t, outcome), hasExecutor);
    SettleNoNewIdle(s.net.nodes, s.pending[p].tasks[t], outcome);
    forall q, id | q in s'.pending && id in IdsAdded(q)
      ensures !Spent(s, id)
    {
      var k :| 0 <= k < |s'.pending| && s'.pending[k] == q;
      assert s.pending[k] in s.pending && s.pending[k].result == q.result;
      assert id in IdsAdded(s.pending[k]);
    }
  }

  lemma {:induction false} ApplyRevivesNone(s: Sys, p: nat, hasExecutor: bool)
    requires Inv(s) && Enabled(s, Apply(p))
    ensures NoneRevived(s, Do(s, Apply(p), hasExecutor))
  {
    hide Inv, AddWires, DropWires;
    var s' := Do(s, Apply(p), hasExecutor);
    assert s.pending[p] in s.pending;
    WithoutAmong(s.pending, p);
    forall id | Spent(s, id) && id in s'.net.nodes
      ensures s'.net.nodes[id].status != Idle
    {
      assert id !in IdsAdded(s.pending[p]);
      forall n | n in s.pending[p].result.add
        ensures n.id != id
      {
        assert n.id in IdsAdded(s.pending[p]);
      }
    }
  }

  lemma {:induction false} StepRevivesNone(s: Sys, a: Action, hasExecutor: bool)
    requires Inv(s) && Enabled(s, a)
    ensures NoneRevived(s, Do(s, a, hasExecutor))
  {
    hide DoClaim, Inv, NoneRevived;
    match a
    case Claim(left, right, worker) =>
      ClaimRevivesNone(s, left, right, worker, hasExecutor);
    case Finish(p, t, outcome) => FinishRevivesNone(s, p, t, outcome, hasExecutor);
    case Apply(p) => ApplyRevivesNone(s, p, hasExecutor);
    case Collect(id) => CollectRevivesNone(s, id, hasExecutor);
  }

  lemma {:induction false} CollectRevivesNone(s: Sys, id: Id, hasExecutor: bool)
    requires Enabled(s, Collect(id))
    ensures NoneRevived(s, Do(s, Collect(id), hasExecutor))
  {
    hide HasIdleDeps, DropWiresOf;
  }

  /** What a claim may execute and remove. */
  lemma {:induction false} ClaimTakesOwn(s: Sys, left: Id, right: Id, worker: string, hasExecutor: bool)
    requires Claimable(Refreshed(s.net), left, right)
    ensures var s' := DoClaim(s, left, right, worker, hasExecutor);
      var r := s'.log[|s.log|];
      && s'.log == s.log + [r] && r.left == left && r.right == right
      && (r.executes == [] || r.executes == [left] || r.executes == [right] || r.executes == [left, right])
      && (s'.pending == s.pending
          || (|s'.pending| == |s.pending| + 1 && s'.pending == s.pending + [s'.pending[|s.pending|]]
              && s'.pending[|s.pending|].tasks == r.executes
              && forall id :: id in s'.pending[|s.pending|].result.remove ==> id == left || id == right))
  {
    hide Select, FindPair, DropPair, Claimed, Settle;
    var net := Refreshed(s.net);
    ClaimedShape(net, left, right, worker);
    var claimed := Claimed(net, left, right, worker);
    var pair := FindPair(net.cache, left, right).value;
    StartTakesOwn(Select(claimed.nodes[left].payload, claimed.nodes[right].payload), claimed, pair, hasExecutor);
    hide StartRule;
  }

  lemma {:induction false} StartTakesOwn(rule: Rule, net: Net, pair: ActivePair, hasExecutor: bool)
    requires pair.left in net.nodes && pair.right in net.nodes
    ensures var start := StartRule(rule, net, pair, hasExecutor);
      start.Starts? ==>
        && (start.tasks == [] || start.tasks == [pair.left] || start.tasks == [pair.right] || start.tasks == [pair.left, pair.right])
        && forall id :: id in start.reduction.result.remove ==> id == pair.left || id == pair.right
  {
    hide NextToErase, MakeNode;
  }

  lemma {:induction false} ClaimKeepsClaimInv(s: Sys, left: Id, right: Id, worker: string, hasExecutor: bool)
    requires ClaimInv(s) && Claimable(Refreshed(s.net), left, right)
    ensures ClaimInv(DoClaim(s, left, right, worker, hasExecutor))
  {
    hide DoClaim, Inv, FindPair, Spent, NoneRevived;
    var s' := DoClaim(s, left, right, worker, hasExecutor);
    ClaimKeepsInv(s, left, right, worker, hasExecutor);
    ClaimRevivesNone(s, left, right, worker, hasExecutor);
    ClaimTakesOwn(s, left, right, worker, hasExecutor);
    forall id | Spent(s, id)
      ensures Spent(s', id)
    {
      SpentStays(s, s', id);
    }
    IdleNotSpent(s, left);
    IdleNotSpent(s, right);
    forall i, j | 0 <= i < j < |s'.log|
      ensures {s'.log[i].left, s'.log[i].right} !! {s'.log[j].left, s'.log[j].right}
    {
      assert s'.log[i] == s.log[i] && s.log[i] in s.log;
      if j < |s.log| {
        assert s'.log[j] == s.log[j];
      }
    }
  }

  lemma IdleNotSpent(s: Sys, id: Id)
    requires IdleIn(s.net.nodes, id)
    ensures !Spent(s, id)
  {
  }

  lemma {:induction false} OtherKeepsPendingSpent(s: Sys, a: Action, hasExecutor: bool)
    requires Inv(s) && PendingSpent(s) && Enabled(s, a) && !a.Claim?
    ensures PendingSpent(Do(s, a, hasExecutor))
  {
    hide Do, Enabled, Inv, Spent, NoneRevived;
    var s' := Do(s, a, hasExecutor);
    StepRevivesNone(s, a, hasExecutor);
    forall p, id | p in s'.pending && (id in p.tasks || id in p.result.remove)
      ensures Spent(s', id)
    {
      FromOldPending(s, a, hasExecutor, p, id);
      var q :| q in s.pending && (id in q.tasks || id in q.result.remove);
      SpentStays(s, s', id);
    }
  }

  /** The claims made so far and the ids of reductions under way only shrink in the other steps. */
  lemma {:induction false} OtherKeepsClaimInv(s: Sys, a: Action, hasExecutor: bool)
    requires ClaimInv(s) && Enabled(s, a) && !a.Claim?
    ensures ClaimInv(Do(s, a, hasExecutor))
  {
    hide Do, Enabled, Inv, Spent, NoneRevived, PendingSpent, ClaimedOnce, ExecutesOwn;
    var s' := Do(s, a, hasExecutor);
    OtherKeepsLog(s, a, hasExecutor);
    SameLogLaws(s, s');
    StepDecreases(s, a, hasExecutor);
    StepRevivesNone(s, a, hasExecutor);
    OtherKeepsPendingSpent(s, a, hasExecutor);
    forall r | r in s'.log
      ensures Spent(s', r.left) && Spent(s', r.right)
    {
      SpentStays(s, s', r.left);
      SpentStays(s, s', r.right);
    }
  }

  lemma SameLogLaws(s: Sys, s': Sys)
    requires s'.log == s.log
    ensures ClaimedOnce(s') == ClaimedOnce(s) && ExecutesOwn(s') == ExecutesOwn(s)
  {
  }

  lemma ClaimInvInv(s: Sys)
    requires ClaimInv(s)
    ensures Inv(s)
  {
  }

  lemma {:induction false} OtherKeepsLog(s: Sys, a: Action, hasExecutor: bool)
    requires Enabled(s, a) && !a.Claim?
    ensures Do(s, a, hasExecutor).log == s.log
  {
    hide Applied, Removed, Settle, HasIdleDeps;
  }

  lemma {:induction false} FromOldPending(s: Sys, a: Action, hasExecutor: bool, p: Pending, id: Id)
    requires Enabled(s, a) && !a.Claim? && p in Do(s, a, hasExecutor).pending
    requires id in p.tasks || id in p.result.remove
    ensures exists q :: q in s.pending && (id in q.tasks || id in q.result.remove)
  {
    hide Applied, Removed, Settle, HasIdleDeps;
    var s' := Do(s, a, hasExecutor);
    match a
    case Finish(k, t, _) =>
      var i :| 0 <= i < |s'.pending| && s'.pending[i] == p;
      assert s.pending[i] in s.pending;
      WithoutAmong(s.pending[k].tasks, t);
    case Apply(k) => WithoutAmong(s.pending, k);
    case Collect(_) =>
  }

  // ---- Which tasks a claim executes ----

  /** The tasks that claiming two nodes executes. */
  function TasksOf(left: Id, l: Payload, right: Id, r: Payload, hasExecutor: bool): seq<Id> {
    if !hasExecutor then []
    else (if l.TaskPayload? then [left] else []) + (if r.TaskPayload? then [right] else [])
  }

  lemma {:induction false} StartExecutes(net: Net, pair: ActivePair, hasExecutor: bool)
    requires pair.left in net.nodes && pair.right in net.nodes
    ensures var l, r := net.nodes[pair.left].payload, net.nodes[pair.right].payload;
      var start := StartRule(Select(l, r), net, pair, hasExecutor);
      TasksOf(pair.left, l, pair.right, r, hasExecutor) == if start.Starts? then start.tasks else []
  {
    hide Select, Erase, Commute, CrossConnect;
    SelectIsSelected(net.nodes[pair.left].payload, net.nodes[pair.right].payload);
    assert [pair.left] + [pair.right] == [pair.left, pair.right];
    assert [pair.left] + [] == [pair.left];
  }

  lemma {:induction false} ClaimExecutes(s: Sys, left: Id, right: Id, worker: string, hasExecutor: bool)
    requires Claimable(Refreshed(s.net), left, right)
    ensures DoClaim(s, left, right, worker, hasExecutor).log
         == s.log + [ClaimRecord(left, right, TasksOf(left, s.net.nodes[left].payload, right, s.net.nodes[right].payload, hasExecutor))]
  {
    hide StartRule, Select, FindPair, DropPair, Claimed, Settle, TasksOf;
    var net := Refreshed(s.net);
    ClaimedShape(net, left, right, worker);
    StartExecutes(Claimed(net, left, right, worker), FindPair(net.cache, left, right).value, hasExecutor);
  }

  // ---- Wires from a node to itself ----

  predicate SelfWire(w: Wire) {
    JoinsPrincipals(w) && w.from.nodeId == w.to.nodeId
  }

  predicate IdleTask(nodes: map<Id, Node>, id: Id) {
    IdleIn(nodes, id) && nodes[id].payload.TaskPayload?
  }

  /** Some idle task's principal port is wired to itself. */
  predicate SelfWiredTask(net: Net) {
    exists w :: w in net.wires && SelfWire(w) && IdleTask(net.nodes, w.from.nodeId)
  }

  /** No idle task's principal port is wired to itself, and nothing under way can change that. */
  ghost predicate NoTaskToItself(s: Sys) {
    && !SelfWiredTask(s.net)
    && (forall p, w :: p in s.pending && w in p.result.addWires ==> !SelfWire(w))
    && (forall p, n :: p in s.pending && n in p.result.add ==> !n.payload.TaskPayload?)
  }

  ghost predicate NoSelfWires(wires: seq<Wire>) {
    forall w :: w in wires ==> !SelfWire(w)
  }

  lemma ConnectNoSelfWires(left: Id, right: Id, wire: Wire, c: nat)
    ensures NoSelfWires(CrossConnect(left, right, wire, c).result.addWires)
  {
  }

  lemma CommuteNoSelfWires(con: Id, conNode: Node, dup: Id, dupNode: Node, wire: Wire, c: nat)
    ensures NoSelfWires(Commute(con, conNode, dup, dupNode, wire, c).result.addWires)
  {
  }

  lemma {:induction false} PropagateNoSelfWires(net: Net, con: Id, index: nat, r: Reduction)
    requires forall id :: id in net.nodes ==> Drawn(id, net.idCounter)
    requires net.idCounter <= r.counter && NoSelfWires(r.result.addWires)
    ensures var r' := PropagateTo(net, con, index, r); net.idCounter <= r'.counter && NoSelfWires(r'.result.addWires)
  {
    hide NextToErase;
    match NextToErase(net, con, index)
    case None =>
    case Some(id) => NextIsThere(net, con, index);
  }

  lemma NextIsThere(net: Net, con: Id, index: nat)
    ensures var next := NextToErase(net, con, index); next.Some? ==> next.value in net.nodes
  {
  }

  lemma {:induction false} EraseNoSelfWires(net: Net, con: Id, era: Id, eraPayload: Payload, wire: Wire)
    requires forall id :: id in net.nodes ==> Drawn(id, net.idCounter)
    ensures NoSelfWires(Erase(net, con, era, eraPayload, wire, net.idCounter).result.addWires)
  {
    hide PropagateTo;
    var none := Reduction(ReductionResult([con, era], [], [], [wire.id]), net.idCounter);
    PropagateNoSelfWires(net, con, 1, none);
    PropagateNoSelfWires(net, con, 2, PropagateTo(net, con, 1, none));
  }

  /** Rules never wire a principal port to itself. */
  lemma {:induction false} StartAddsNoSelfWire(rule: Rule, net: Net, pair: ActivePair, hasExecutor: bool)
    requires pair.left in net.nodes && pair.right in net.nodes
    requires forall id :: id in net.nodes ==> Drawn(id, net.idCounter)
    ensures var start := StartRule(rule, net, pair, hasExecutor);
      start.Starts? ==> forall w :: w in start.reduction.result.addWires ==> !SelfWire(w)
  {
    hide CrossConnect, Commute, Erase, SelfWire;
    var left, right, w, c := net.nodes[pair.left], net.nodes[pair.right], pair.wire, net.idCounter;
    ConnectNoSelfWires(pair.left, pair.right, w, c);
    CommuteNoSelfWires(pair.left, left, pair.right, right, w, c);
    CommuteNoSelfWires(pair.right, right, pair.left, left, w, c);
    EraseNoSelfWires(net, pair.left, pair.right, right.payload, w);
    EraseNoSelfWires(net, pair.right, pair.left, left.payload, w);
  }

  /** The rules that pairs select never add a task, and those that tasks take part in add nothing. */
  lemma {:induction false} StartAddsNoTask(net: Net, pair: ActivePair, hasExecutor: bool)
    requires pair.left in net.nodes && pair.right in net.nodes
    ensures var start := StartRule(Select(net.nodes[pair.left].payload, net.nodes[pair.right].payload), net, pair, hasExecutor);
      start.Starts? ==>
        && (forall n :: n in start.reduction.result.add ==> !n.payload.TaskPayload?)
        && (net.nodes[pair.left].payload.TaskPayload? || net.nodes[pair.right].payload.TaskPayload? ==> start.reduction.result.add == [])
  {
    hide Select, NextToErase;
    SelectIsSelected(net.nodes[pair.left].payload, net.nodes[pair.right].payload);
  }

  lemma {:induction false} ClaimKeepsNoTaskToItself(s: Sys, left: Id, right: Id, worker: string, hasExecutor: bool)
    requires Inv(s) && NoTaskToItself(s) && Claimable(Refreshed(s.net), left, right)
    ensures NoTaskToItself(DoClaim(s, left, right, worker, hasExecutor))
    ensures left == right ==> !IdleTask(s.net.nodes, left)
  {
    hide StartRule, Select, FindPair, DropPair, Claimed, Settle, CacheOk, Disjoint, Tame;
    var w := ClaimedWire(s, left, right);
    assert left == right ==> SelfWire(w);
    hide SelfWire;
    var net := Refreshed(s.net);
    ClaimStatuses(s, left, right, worker, hasExecutor);
    ClaimedShape(net, left, right, worker);
    var claimed := Claimed(net, left, right, worker);
    var pair := FindPair(net.cache, left, right).value;
    StartAddsNoSelfWire(Select(claimed.nodes[left].payload, claimed.nodes[right].payload), claimed, pair, hasExecutor);
    StartAddsNoTask(claimed, pair, hasExecutor);
  }

  lemma {:induction false} ApplyKeepsNoTaskToItself(s: Sys, p: nat, hasExecutor: bool)
    requires NoTaskToItself(s) && Enabled(s, Apply(p))
    ensures NoTaskToItself(Do(s, Apply(p), hasExecutor))
  {
    hide SelfWire;
    assert s.pending[p] in s.pending;
    WithoutAmong(s.pending, p);
    hide Without;
  }

  lemma {:induction false} FinishKeepsNoTaskToItself(s: Sys, p: nat, t: nat, outcome: TaskEnd, hasExecutor: bool)
    requires NoTaskToItself(s) && Enabled(s, Finish(p, t, outcome))
    ensures NoTaskToItself(Do(s, Finish(p, t, outcome), hasExecutor))
  {
    hide Settle, SelfWire, Without;
    var s' := Do(s, Finish(p, t, outcome), hasExecutor);
    SettleNoNewIdle(s.net.nodes, s.pending[p].tasks[t], outcome);
    forall q | q in s'.pending
      ensures forall w :: w in q.result.addWires ==> !SelfWire(w)
      ensures forall n :: n in q.result.add ==> !n.payload.TaskPayload?
    {
      var k :| 0 <= k < |s'.pending| && s'.pending[k] == q;
      assert s.pending[k] in s.pending && s.pending[k].result == q.result;
    }
  }

  lemma {:induction false} StepKeepsNoTaskToItself(s: Sys, a: Action, hasExecutor: bool)
    requires Inv(s) && NoTaskToItself(s) && Enabled(s, a)
    ensures NoTaskToItself(Do(s, a, hasExecutor))
  {
    hide DoClaim, Inv, Settle, HasIdleDeps, SelfWire;
    match a
    case Claim(left, right, worker) => ClaimKeepsNoTaskToItself(s, left, right, worker, hasExecutor);
    case Finish(p, t, outcome) => FinishKeepsNoTaskToItself(s, p, t, outcome, hasExecutor);
    case Apply(p) => ApplyKeepsNoTaskToItself(s, p, hasExecutor);
    case Collect(id) => DropWiresOfAmong(s.net.wires, id);
  }

  // ---- Executions ----

  /** The tasks handed to the executor so far, in order. */
  function Executed(log: seq<ClaimRecord>): seq<Id> {
    if log == [] then [] else Executed(log[..|log| - 1]) + log[|log| - 1].executes
  }

  ghost predicate NoRepeat(ids: seq<Id>) {
    forall i, j :: 0 <= i < j < |ids| ==> ids[i] != ids[j]
  }

  lemma {:induction false} ExecutedWereClaimed(log: seq<ClaimRecord>, id: Id)
    requires forall r :: r in log ==> r.executes == [] || r.executes == [r.left] || r.executes == [r.right] || r.executes == [r.left, r.right]
    requires id in Executed(log)
    ensures exists k :: 0 <= k < |log| && (log[k].left == id || log[k].right == id)
  {
    var n := |log| - 1;
    if id in Executed(log[..n]) {
      ExecutedWereClaimed(log[..n], id);
      var k :| 0 <= k < n && (log[..n][k].left == id || log[..n][k].right == id);
      assert log[k] == log[..n][k];
    } else {
      assert id in log[n].executes && log[n] in log;
    }
  }

  /** A claim that pairs a node with itself executes nothing. */
  ghost predicate SelfPairsIdle(log: seq<ClaimRecord>) {
    forall r :: r in log && r.left == r.right ==> r.executes == []
  }

  /** Claims that share no node, and execute nothing where they pair a node with itself, execute no
      task twice. */
  lemma {:induction false} ExecutedOnce(s: Sys, log: seq<ClaimRecord>)
    requires ClaimedOnce(s) && ExecutesOwn(s) && log <= s.log
    requires SelfPairsIdle(s.log)
    ensures NoRepeat(Executed(log))
  {
    if log == [] {
    } else {
      var n := |log| - 1;
      ExecutedOnce(s, log[..n]);
      var last := log[n];
      assert last == s.log[n] && last in s.log;
      forall id | id in last.executes
        ensures id !in Executed(log[..n])
      {
        forall k | 0 <= k < n
          ensures log[..n][k].left != id && log[..n][k].right != id
        {
          assert log[..n][k] == s.log[k] && log[n] == s.log[n];
          assert {s.log[k].left, s.log[k].right} !! {s.log[n].left, s.log[n].right};
        }
        if id in Executed(log[..n]) {
          ExecutedWereClaimed(log[..n], id);
          assert false;
        }
      }
      assert NoRepeat(last.executes);
      NoRepeatConcat(Executed(log[..n]), last.executes);
    }
  }

  lemma {:induction false} NoRepeatConcat(a: seq<Id>, b: seq<Id>)
    requires NoRepeat(a) && NoRepeat(b) && forall id :: id in b ==> id !in a
    ensures NoRepeat(a + b)
  {
    forall i, j | 0 <= i < j < |a + b|
      ensures (a + b)[i] != (a + b)[j]
    {
      if i < |a| <= j {
        assert a[i] in a && b[j - |a|] in b;
      }
    }
  }

  // ---- Runs ----

  ghost predicate Run(s: Sys, actions: seq<Action>, hasExecutor: bool, s': Sys)
    decreases |actions|
  {
    if actions == [] then s' == s
    else Enabled(s, actions[0]) && Run(Do(s, actions[0], hasExecutor), actions[1..], hasExecutor, s')
  }

  lemma {:induction false} StepKeepsClaimInv(s: Sys, a: Action, hasExecutor: bool)
    requires ClaimInv(s) && Enabled(s, a)
    ensures ClaimInv(Do(s, a, hasExecutor))
  {
    hide ClaimInv;
    if a.Claim? {
      ClaimKeepsClaimInv(s, a.left, a.right, a.worker, hasExecutor);
    } else {
      OtherKeepsClaimInv(s, a, hasExecutor);
    }
  }

  /** Over any run from a net with nothing under way, no node is claimed twice. */
  lemma {:induction false} RunKeepsClaimInv(s: Sys, actions: seq<Action>, hasExecutor: bool, s': Sys)
    requires ClaimInv(s) && Run(s, actions, hasExecutor, s')
    ensures ClaimInv(s')
    decreases |actions|
  {
    hide ClaimInv, Do, Enabled;
    if actions == [] {
    } else {
      StepKeepsClaimInv(s, actions[0], hasExecutor);
      RunKeepsClaimInv(Do(s, actions[0], hasExecutor), actions[1..], hasExecutor, s');
    }
  }

  lemma {:induction false} StepKeepsSelfPairsIdle(s: Sys, a: Action, hasExecutor: bool)
    requires Inv(s) && Enabled(s, a) && SelfPairsIdle(s.log) && (!hasExecutor || NoTaskToItself(s))
    ensures SelfPairsIdle(Do(s, a, hasExecutor).log)
  {
    hide DoClaim, Inv, NoTaskToItself, Applied, Removed, Settle, HasIdleDeps;
    if a.Claim? {
      ClaimExecutes(s, a.left, a.right, a.worker, hasExecutor);
      if hasExecutor {
        ClaimKeepsNoTaskToItself(s, a.left, a.right, a.worker, hasExecutor);
      }
    }
  }

  lemma {:induction false} RunKeepsSelfPairsIdle(s: Sys, actions: seq<Action>, hasExecutor: bool, s': Sys)
    requires Inv(s) && Run(s, actions, hasExecutor, s') && SelfPairsIdle(s.log) && (!hasExecutor || NoTaskToItself(s))
    ensures SelfPairsIdle(s'.log)
    decreases |actions|
  {
    hide Inv, Do, Enabled, NoTaskToItself, SelfPairsIdle;
    if actions == [] {
    } else {
      StepDecreases(s, actions[0], hasExecutor);
      StepKeepsSelfPairsIdle(s, actions[0], hasExecutor);
      if hasExecutor {
        StepKeepsNoTaskToItself(s, actions[0], hasExecutor);
      }
      RunKeepsSelfPairsIdle(Do(s, actions[0], hasExecutor), actions[1..], hasExecutor, s');
    }
  }

  /** A system before its first claim. */
  ghost predicate Fresh(s: Sys) {
    && s.pending == [] && s.log == [] && s.net.cache == []
    && (forall id :: id in s.net.nodes ==> Drawn(id, s.net.idCounter))
    && (forall w :: w in s.net.wires ==> Drawn(w.from.nodeId, s.net.idCounter) && Drawn(w.to.nodeId, s.net.idCounter))
  }

  lemma {:induction false} FreshIsOk(s: Sys)
    requires Fresh(s)
    ensures ClaimInv(s)
  {
    EmptyCacheOk(s.net);
  }

  /** A task whose principal port is wired to itself can be claimed, and is then executed twice. */
  lemma {:induction false} SelfWiredTaskRunsTwice(s: Sys, w: Wire, worker: string)
    requires Fresh(s) && w in s.net.wires && SelfWire(w) && IdleTask(s.net.nodes, w.from.nodeId)
    ensures var a := Claim(w.from.nodeId, w.from.nodeId, worker);
      Enabled(s, a) && Executed(Do(s, a, true).log) == [w.from.nodeId, w.from.nodeId]
  {
    hide DoClaim, Scan, FindPair;
    var id := w.from.nodeId;
    assert IsActive(s.net.nodes, w) && w.to.nodeId == id;
    hide SelfWire;
    FreshIsClaimable(s, w);
    ClaimExecutes(s, id, id, worker, true);
    var log := Do(s, Claim(id, id, worker), true).log;
    assert log == [ClaimRecord(id, id, [id] + [id])];
    assert log[..0] == [];
    assert Executed([]) == [];
    assert [id] + [id] == [id, id];
  }

  lemma {:induction false} FreshIsClaimable(s: Sys, w: Wire)
    requires Fresh(s) && w in s.net.wires && IsActive(s.net.nodes, w)
    ensures Claimable(Refreshed(s.net), w.from.nodeId, w.to.nodeId)
  {
    hide Scan, FindPair;
    ScanIsExact(s.net.nodes, s.net.wires);
    var cache := Scan(s.net.nodes, s.net.wires);
    assert Covered(cache, w);
    var p :| p in cache && p.left == w.from.nodeId && p.right == w.to.nodeId;
    CachedIsFound(cache, p);
  }

  /** Over every run from a net before its first claim, no two claims share a node. */
  lemma {:induction false} ClaimedOnceOverRuns(s: Sys, actions: seq<Action>, hasExecutor: bool, s': Sys)
    requires Fresh(s) && Run(s, actions, hasExecutor, s')
    ensures ClaimedOnce(s')
  {
    hide Run;
    FreshIsOk(s);
    RunKeepsClaimInv(s, actions, hasExecutor, s');
  }

  lemma {:induction false} RunExecutesOnce(s: Sys, actions: seq<Action>, hasExecutor: bool, s': Sys)
    requires Fresh(s) && Run(s, actions, hasExecutor, s') && (!hasExecutor || !SelfWiredTask(s.net))
    ensures NoRepeat(Executed(s'.log))
  {
    hide Run, SelfWiredTask;
    FreshIsOk(s);
    RunKeepsClaimInv(s, actions, hasExecutor, s');
    RunKeepsSelfPairsIdle(s, actions, hasExecutor, s');
    ExecutedOnce(s', s'.log);
  }

  /** No run from a net before its first claim executes a task twice, exactly when there is no executor
      or no idle task's principal port is wired to itself. */
  lemma {:induction false} TasksRunOnce(s: Sys, hasExecutor: bool)
    requires Fresh(s)
    ensures (forall actions, s' :: Run(s, actions, hasExecutor, s') ==> NoRepeat(Executed(s'.log)))
       <==> (!hasExecutor || !SelfWiredTask(s.net))
  {
    hide Fresh, Executed, SelfWire, IdleTask, Do, Enabled;
    if !hasExecutor || !SelfWiredTask(s.net) {
      forall actions, s' | Run(s, actions, hasExecutor, s')
        ensures NoRepeat(Executed(s'.log))
      {
        RunExecutesOnce(s, actions, hasExecutor, s');
      }
    } else {
      var w :| w in s.net.wires && SelfWire(w) && IdleTask(s.net.nodes, w.from.nodeId);
      SelfWiredTaskRunsTwice(s, w, "");
      var a := Claim(w.from.nodeId, w.from.nodeId, "");
      assert [a][1..] == [];
      assert Run(s, [a], true, Do(s, a, true));
      var twice := [w.from.nodeId, w.from.nodeId];
      assert twice[0] == twice[1] && !NoRepeat(twice);
    }
  }

  // ---- The partner of an executed task ----

  /** No reduction under way will settle, remove or replace the node. */
  ghost predicate Unheld(pending: seq<Pending>, id: Id) {
    forall p :: p in pending ==> id !in p.tasks && id !in p.result.remove && id !in IdsAdded(p)
  }

  /** The node is claimed, and no reduction under way will settle, remove or replace it. */
  ghost predicate Stranded(s: Sys, id: Id) {
    && id in s.net.nodes && s.net.nodes[id].status == Reducing && Drawn(id, s.net.idCounter)
    && Unheld(s.pending, id)
  }

  /** The claim executed just one of its nodes, and this is the other. */
  predicate Strands(r: ClaimRecord, id: Id) {
    |r.executes| == 1 && (id == r.left || id == r.right) && id !in r.executes
  }

  /** A started rule settles or removes both nodes of its pair, but for the partner of a task that is
      executed alone. */
  lemma {:induction false} StartCovers(net: Net, pair: ActivePair, hasExecutor: bool)
    requires pair.left in net.nodes && pair.right in net.nodes
    ensures var start := StartRule(Select(net.nodes[pair.left].payload, net.nodes[pair.right].payload), net, pair, hasExecutor);
      start.Starts? ==> forall id :: id == pair.left || id == pair.right ==>
        ((id in start.tasks || id in start.reduction.result.remove) <==> !Strands(ClaimRecord(pair.left, pair.right, start.tasks), id))
  {
    hide Select, PropagateTo;
    SelectIsSelected(net.nodes[pair.left].payload, net.nodes[pair.right].payload);
    PropagationRemoves(net, pair.left, pair.right, net.nodes[pair.right].payload, pair.wire);
    PropagationRemoves(net, pair.right, pair.left, net.nodes[pair.left].payload, pair.wire);
    hide Erase;
  }

  lemma PropagationRemoves(net: Net, con: Id, era: Id, eraPayload: Payload, wire: Wire)
    ensures Erase(net, con, era, eraPayload, wire, net.idCounter).result.remove == [con, era]
  {
  }

  /** What a claim makes of its own nodes. */
  lemma {:induction false} ClaimCovers(s: Sys, left: Id, right: Id, worker: string, hasExecutor: bool, id: Id)
    requires Claimable(Refreshed(s.net), left, right) && (id == left || id == right)
    ensures var s' := DoClaim(s, left, right, worker, hasExecutor);
      && |s'.log| == |s.log| + 1 && id in s'.net.nodes
      && (if s'.pending == s.pending then s'.net.nodes[id].status == Completed && s'.log[|s.log|].executes == []
          else
            && |s'.pending| == |s.pending| + 1 && s'.pending[..|s.pending|] == s.pending
            && s'.net.nodes[id].status == Reducing
            && var p := s'.pending[|s.pending|];
               (id in p.tasks || id in p.result.remove) <==> !Strands(s'.log[|s.log|], id))
  {
    hide StartRule, Select, FindPair, DropPair, Strands, Erase;
    var net := Refreshed(s.net);
    ClaimedShape(net, left, right, worker);
    var claimed := Claimed(net, left, right, worker);
    StartCovers(claimed, FindPair(net.cache, left, right).value, hasExecutor);
    assert claimed.nodes[id].status == Reducing;
    hide Claimed;
  }

  lemma {:induction false} ClaimStrandsOwn(s: Sys, left: Id, right: Id, worker: string, hasExecutor: bool, id: Id)
    requires ClaimInv(s) && Claimable(Refreshed(s.net), left, right) && (id == left || id == right)
    ensures var s' := DoClaim(s, left, right, worker, hasExecutor);
      !Stranded(s, id) && |s'.log| == |s.log| + 1 && (Stranded(s', id) <==> Strands(s'.log[|s.log|], id))
  {
    hide DoClaim, Inv, FindPair, Spent, Strands, Drawn, ClaimedOnce, ExecutesOwn, LogSpent, Claimable;
    var s' := DoClaim(s, left, right, worker, hasExecutor);
    ClaimCovers(s, left, right, worker, hasExecutor, id);
    NothingExecuted(s'.log[|s.log|], id);
    ClaimableIsIdle(s, left, right);
    ClaimKeepsInv(s, left, right, worker, hasExecutor);
    NodeDrawn(s', id);
    IdleNotSpent(s, id);
    if s'.pending != s.pending {
      var p := s'.pending[|s.pending|];
      assert p in s'.pending;
      assert s'.pending == s.pending + [p];
    }
  }

  lemma NothingExecuted(r: ClaimRecord, id: Id)
    ensures r.executes == [] ==> !Strands(r, id)
  {
  }

  lemma ClaimableIsIdle(s: Sys, left: Id, right: Id)
    requires Claimable(Refreshed(s.net), left, right)
    ensures IdleIn(s.net.nodes, left) && IdleIn(s.net.nodes, right)
  {
  }

  lemma {:induction false} ClaimStrandsNoOther(s: Sys, left: Id, right: Id, worker: string, hasExecutor: bool, id: Id)
    requires Inv(s) && Claimable(Refreshed(s.net), left, right) && id != left && id != right
    ensures Stranded(DoClaim(s, left, right, worker, hasExecutor), id) <==> Stranded(s, id)
  {
    hide DoClaim, Inv, FindPair, Drawn, Spent;
    var s' := DoClaim(s, left, right, worker, hasExecutor);
    ClaimKeepsInv(s, left, right, worker, hasExecutor);
    ClaimStatuses(s, left, right, worker, hasExecutor);
    ClaimTakesOwn(s, left, right, worker, hasExecutor);
    if id in s.net.nodes {
      NodeDrawn(s, id);
      NodeDrawn(s', id);
    }
    if s'.pending != s.pending {
      assert s'.pending[|s.pending|] in s'.pending;
      assert forall p :: p in s.pending ==> p in s'.pending;
    }
  }

  /** A claim strands the partner of a task that it executes alone, and nothing else: it strands a node
      exactly when there is an executor and just one of the two nodes is a task. */
  lemma {:induction false} ClaimStrands(s: Sys, left: Id, right: Id, worker: string, hasExecutor: bool)
    requires ClaimInv(s) && Claimable(Refreshed(s.net), left, right)
    ensures var s' := DoClaim(s, left, right, worker, hasExecutor);
      var task := s.net.nodes[left].payload.TaskPayload?;
      forall id :: Stranded(s', id) && !Stranded(s, id) <==>
        hasExecutor && task != s.net.nodes[right].payload.TaskPayload? && id == if task then right else left
    ensures var s' := DoClaim(s, left, right, worker, hasExecutor);
      |s'.log| == |s.log| + 1 && forall id :: Stranded(s', id) <==> Stranded(s, id) || Strands(s'.log[|s.log|], id)
  {
    hide ClaimInv, Inv, DoClaim, Stranded;
    ClaimInvInv(s);
    var s' := DoClaim(s, left, right, worker, hasExecutor);
    ClaimExecutes(s, left, right, worker, hasExecutor);
    forall id
      ensures Stranded(s', id) <==> Stranded(s, id) || Strands(s'.log[|s.log|], id)
      ensures Strands(s'.log[|s.log|], id) ==> !Stranded(s, id)
    {
      if id == left || id == right {
        ClaimStrandsOwn(s, left, right, worker, hasExecutor, id);
      } else {
        ClaimStrandsNoOther(s, left, right, worker, hasExecutor, id);
      }
    }
  }

  /** Just one of the two ends of the wire is a task. */
  predicate MixedWire(nodes: map<Id, Node>, w: Wire) {
    && w.from.nodeId in nodes && w.to.nodeId in nodes
    && nodes[w.from.nodeId].payload.TaskPayload? != nodes[w.to.nodeId].payload.TaskPayload?
  }

  /** In any net before its first claim, an active wire between a task and another node can be claimed, and
      with an executor that strands the other node. */
  lemma {:induction false} MixedWireStrands(s: Sys, w: Wire, worker: string)
    requires Fresh(s) && w in s.net.wires && IsActive(s.net.nodes, w) && MixedWire(s.net.nodes, w)
    ensures var a := Claim(w.from.nodeId, w.to.nodeId, worker);
      var partner := if s.net.nodes[w.from.nodeId].payload.TaskPayload? then w.to.nodeId else w.from.nodeId;
      Enabled(s, a) && Stranded(Do(s, a, true), partner)
  {
    hide DoClaim, ClaimInv, Stranded;
    FreshIsOk(s);
    FreshIsClaimable(s, w);
    ClaimStrands(s, w.from.nodeId, w.to.nodeId, worker, true);
  }

  lemma NodeDrawn(s: Sys, id: Id)
    requires Inv(s) && id in s.net.nodes
    ensures Drawn(id, s.net.idCounter)
    ensures forall p :: p in s.pending ==> id !in IdsAdded(p)
  {
  }

  /** What finishing a task does to each reduction under way. */
  lemma {:induction false} FinishPending(s: Sys, p: nat, t: nat, outcome: TaskEnd, hasExecutor: bool, k: nat)
    requires Enabled(s, Finish(p, t, outcome)) && k < |s.pending|
    ensures var s' := Do(s, Finish(p, t, outcome), hasExecutor);
      && |s'.pending| == |s.pending| && s'.pending[k].result == s.pending[k].result
      && IdsAdded(s'.pending[k]) == IdsAdded(s.pending[k])
      && (forall x :: x in s'.pending[k].tasks ==> x in s.pending[k].tasks)
      && (forall x :: x in s.pending[k].tasks && x != s.pending[p].tasks[t] ==> x in s'.pending[k].tasks)
  {
    hide Settle;
    var s' := Do(s, Finish(p, t, outcome), hasExecutor);
    WithoutAmong(s.pending[p].tasks, t);
    KeepsOthers(s.pending[p].tasks, t);
    SameAdded(s.pending[k], s'.pending[k]);
    hide Without;
  }

  lemma {:induction false} FinishHolds(s: Sys, p: nat, t: nat, outcome: TaskEnd, hasExecutor: bool, id: Id)
    requires Enabled(s, Finish(p, t, outcome))
    ensures var s' := Do(s, Finish(p, t, outcome), hasExecutor);
      && (Unheld(s.pending, id) ==> Unheld(s'.pending, id) && id != s.pending[p].tasks[t])
      && (Unheld(s'.pending, id) && id != s.pending[p].tasks[t] ==> Unheld(s.pending, id))
  {
    hide Do, IdsAdded;
    var s' := Do(s, Finish(p, t, outcome), hasExecutor);
    FinishPending(s, p, t, outcome, hasExecutor, p);
    assert s.pending[p] in s.pending;
    if Unheld(s.pending, id) {
      forall q | q in s'.pending
        ensures id !in q.tasks && id !in q.result.remove && id !in IdsAdded(q)
      {
        var k :| 0 <= k < |s'.pending| && s'.pending[k] == q;
        FinishPending(s, p, t, outcome, hasExecutor, k);
        assert s.pending[k] in s.pending;
      }
    }
    if Unheld(s'.pending, id) && id != s.pending[p].tasks[t] {
      forall q | q in s.pending
        ensures id !in q.tasks && id !in q.result.remove && id !in IdsAdded(q)
      {
        var k :| 0 <= k < |s.pending| && s.pending[k] == q;
        FinishPending(s, p, t, outcome, hasExecutor, k);
        assert s'.pending[k] in s'.pending;
      }
    }
  }

  lemma {:induction false} FinishStrandsNone(s: Sys, p: nat, t: nat, outcome: TaskEnd, hasExecutor: bool, id: Id)
    requires Enabled(s, Finish(p, t, outcome))
    ensures Stranded(Do(s, Finish(p, t, outcome), hasExecutor), id) <==> Stranded(s, id)
  {
    hide Settle, Unheld, Without;
    FinishHolds(s, p, t, outcome, hasExecutor, id);
    SettleNoNewIdle(s.net.nodes, s.pending[p].tasks[t], outcome);
  }

  lemma {:induction false} KeepsOthers<T>(xs: seq<T>, k: nat)
    requires k < |xs|
    ensures forall x :: x in xs && x != xs[k] ==> x in Without(xs, k)
  {
    assert xs == xs[..k] + [xs[k]] + xs[k + 1..];
  }

  lemma {:induction false} ApplyStrandsNone(s: Sys, p: nat, hasExecutor: bool, id: Id)
    requires Inv(s) && Enabled(s, Apply(p))
    ensures Stranded(Do(s, Apply(p), hasExecutor), id) <==> Stranded(s, id)
  {
    hide Inv, AddWires, DropWires, Drawn, IdsAdded;
    var s' := Do(s, Apply(p), hasExecutor);
    var pend := s.pending[p];
    assert pend in s.pending;
    WithoutAmong(s.pending, p);
    KeepsOthers(s.pending, p);
    hide Without;
    NoneOfAdded(s, pend, id);
    if id in s.net.nodes {
      NodeDrawn(s, id);
    }
  }

  lemma NoneOfAdded(s: Sys, p: Pending, id: Id)
    requires Inv(s) && p in s.pending
    ensures id !in IdsAdded(p) ==> forall n :: n in p.result.add ==> n.id != id
    ensures id in IdsAdded(p) ==> forall n :: n in p.result.add ==> n.status == Idle
  {
  }

  /** Nothing but claims strands a node, and nothing releases one. */
  lemma {:induction false} OtherStrandsNone(s: Sys, a: Action, hasExecutor: bool)
    requires Inv(s) && Enabled(s, a) && !a.Claim?
    ensures forall id :: Stranded(Do(s, a, hasExecutor), id) <==> Stranded(s, id)
  {
    forall id
      ensures Stranded(Do(s, a, hasExecutor), id) <==> Stranded(s, id)
    {
      match a
      case Finish(p, t, outcome) => FinishStrandsNone(s, p, t, outcome, hasExecutor, id);
      case Apply(p) => ApplyStrandsNone(s, p, hasExecutor, id);
      case Collect(k) => CollectStrandsNone(s, k, hasExecutor, id);
    }
  }

  lemma {:induction false} CollectStrandsNone(s: Sys, k: Id, hasExecutor: bool, id: Id)
    requires Enabled(s, Collect(k))
    ensures Stranded(Do(s, Collect(k), hasExecutor), id) <==> Stranded(s, id)
  {
    hide HasIdleDeps, DropWiresOf;
  }

  /** The nodes that are stranded are those that were, and the partners of tasks executed alone since. */
  ghost predicate StrandedBy(s: Sys, s': Sys) {
    && |s.log| <= |s'.log| && s'.log[..|s.log|] == s.log
    && forall id :: Stranded(s', id) <==> Stranded(s, id) || exists r :: r in s'.log[|s.log|..] && Strands(r, id)
  }

  lemma {:induction false} StrandedByChain(s: Sys, t: Sys, s': Sys)
    requires StrandedBy(s, t) && StrandedBy(t, s')
    ensures StrandedBy(s, s')
  {
    hide Stranded, Strands;
    assert s'.log[|s.log|..] == t.log[|s.log|..] + s'.log[|t.log|..];
  }

  lemma {:induction false} StepStrands(s: Sys, a: Action, hasExecutor: bool)
    requires ClaimInv(s) && Enabled(s, a)
    ensures StrandedBy(s, Do(s, a, hasExecutor))
  {
    hide ClaimInv, Inv, DoClaim, Stranded, Strands, Applied, Removed, Settle, HasIdleDeps;
    ClaimInvInv(s);
    var s' := Do(s, a, hasExecutor);
    if a.Claim? {
      ClaimExecutes(s, a.left, a.right, a.worker, hasExecutor);
      ClaimStrands(s, a.left, a.right, a.worker, hasExecutor);
      assert s'.log[|s.log|..] == [s'.log[|s.log|]];
    } else {
      OtherStrandsNone(s, a, hasExecutor);
      OtherKeepsLog(s, a, hasExecutor);
    }
  }

  /** Over every run, just the partners of tasks that were executed alone are stranded. */
  lemma {:induction false} RunStrands(s: Sys, actions: seq<Action>, hasExecutor: bool, s': Sys)
    requires ClaimInv(s) && Run(s, actions, hasExecutor, s')
    ensures StrandedBy(s, s')
    decreases |actions|
  {
    hide ClaimInv, Do, Enabled, Stranded, Strands;
    if actions == [] {
      assert s.log[|s.log|..] == [];
    } else {
      StepKeepsClaimInv(s, actions[0], hasExecutor);
      StepStrands(s, actions[0], hasExecutor);
      RunStrands(Do(s, actions[0], hasExecutor), actions[1..], hasExecutor, s');
      StrandedByChain(s, Do(s, actions[0], hasExecutor), s');
    }
  }

  /** All idle nodes, and all about to be added, are tasks; or none of them is. */
  ghost predicate Uniform(s: Sys, tasks: bool) {
    && (forall id :: IdleIn(s.net.nodes, id) ==> s.net.nodes[id].payload.TaskPayload? == tasks)
    && (forall p, n :: p in s.pending && n in p.result.add ==> n.payload.TaskPayload? == tasks)
  }

  lemma {:induction false} ClaimKeepsUniform(s: Sys, left: Id, right: Id, worker: string, hasExecutor: bool, tasks: bool)
    requires Uniform(s, tasks) && Claimable(Refreshed(s.net), left, right)
    ensures Uniform(DoClaim(s, left, right, worker, hasExecutor), tasks)
  {
    hide StartRule, Select, FindPair, DropPair, Claimed, Settle;
    var net := Refreshed(s.net);
    ClaimStatuses(s, left, right, worker, hasExecutor);
    ClaimedShape(net, left, right, worker);
    StartAddsNoTask(Claimed(net, left, right, worker), FindPair(net.cache, left, right).value, hasExecutor);
  }

  lemma {:induction false} FinishKeepsUniform(s: Sys, p: nat, t: nat, outcome: TaskEnd, hasExecutor: bool, tasks: bool)
    requires Uniform(s, tasks) && Enabled(s, Finish(p, t, outcome))
    ensures Uniform(Do(s, Finish(p, t, outcome), hasExecutor), tasks)
  {
    hide Settle, Without;
    var s' := Do(s, Finish(p, t, outcome), hasExecutor);
    SettleNoNewIdle(s.net.nodes, s.pending[p].tasks[t], outcome);
    forall q | q in s'.pending
      ensures forall n :: n in q.result.add ==> n.payload.TaskPayload? == tasks
    {
      var k :| 0 <= k < |s'.pending| && s'.pending[k] == q;
      assert s.pending[k] in s.pending && s.pending[k].result == q.result;
    }
  }

  lemma {:induction false} ApplyKeepsUniform(s: Sys, p: nat, hasExecutor: bool, tasks: bool)
    requires Uniform(s, tasks) && Enabled(s, Apply(p))
    ensures Uniform(Do(s, Apply(p), hasExecutor), tasks)
  {
    assert s.pending[p] in s.pending;
    WithoutAmong(s.pending, p);
    hide Without, AddWires, DropWires;
  }

  lemma {:induction false} StepKeepsUniform(s: Sys, a: Action, hasExecutor: bool, tasks: bool)
    requires Uniform(s, tasks) && Enabled(s, a)
    ensures Uniform(Do(s, a, hasExecutor), tasks)
  {
    hide DoClaim, Settle, HasIdleDeps, DropWiresOf;
    match a
    case Claim(left, right, worker) => ClaimKeepsUniform(s, left, right, worker, hasExecutor, tasks);
    case Finish(p, t, outcome) => FinishKeepsUniform(s, p, t, outcome, hasExecutor, tasks);
    case Apply(p) => ApplyKeepsUniform(s, p, hasExecutor, tasks);
    case Collect(_) =>
  }

  /** No claim can pair a task that will be executed with a node of another kind. */
  ghost predicate Unmixed(s: Sys, hasExecutor: bool) {
    !hasExecutor || Uniform(s, true) || Uniform(s, false)
  }

  lemma {:induction false} UnmixedStrandsNone(s: Sys, a: Action, hasExecutor: bool)
    requires ClaimInv(s) && Unmixed(s, hasExecutor) && Enabled(s, a)
    ensures Unmixed(Do(s, a, hasExecutor), hasExecutor)
    ensures forall id :: Stranded(Do(s, a, hasExecutor), id) <==> Stranded(s, id)
  {
    hide ClaimInv, Inv;
    ClaimInvInv(s);
    assert a.Claim? && hasExecutor ==> s.net.nodes[a.left].payload.TaskPayload? == s.net.nodes[a.right].payload.TaskPayload?;
    hide DoClaim, Stranded, Uniform;
    if Uniform(s, true) { StepKeepsUniform(s, a, hasExecutor, true); }
    if Uniform(s, false) { StepKeepsUniform(s, a, hasExecutor, false); }
    if a.Claim? {
      ClaimStrands(s, a.left, a.right, a.worker, hasExecutor);
    } else {
      OtherStrandsNone(s, a, hasExecutor);
    }
  }

  /** Every run makes at most as many claims as the potential it starts with. */
  lemma {:induction false} ClaimsAreBounded(s: Sys, actions: seq<Action>, hasExecutor: bool, s': Sys)
    requires ClaimInv(s) && Run(s, actions, hasExecutor, s')
    ensures |s'.log| + Potential(s') <= |s.log| + Potential(s)
    decreases |actions|
  {
    hide ClaimInv, Do, Enabled, Potential;
    if actions == [] {
    } else {
      StepKeepsClaimInv(s, actions[0], hasExecutor);
      StepSpends(s, actions[0], hasExecutor);
      ClaimsAreBounded(Do(s, actions[0], hasExecutor), actions[1..], hasExecutor, s');
    }
  }

  lemma {:induction false} StepSpends(s: Sys, a: Action, hasExecutor: bool)
    requires ClaimInv(s) && Enabled(s, a)
    ensures var s' := Do(s, a, hasExecutor);
      |s'.log| + Potential(s') <= |s.log| + Potential(s) && Room(s') <= Room(s)
  {
    hide Inv, DoClaim, Potential, Room;
    StepDecreases(s, a, hasExecutor);
    if a.Claim? {
      ClaimTakesOwn(s, a.left, a.right, a.worker, hasExecutor);
      ClaimRoom(s, a.left, a.right, a.worker, hasExecutor);
    } else {
      OtherKeepsLog(s, a, hasExecutor);
      OtherRoom(s, a, hasExecutor);
    }
  }

  lemma {:induction false} StrandedForever(s: Sys, id: Id, actions: seq<Action>, hasExecutor: bool, s': Sys)
    requires ClaimInv(s) && Stranded(s, id) && Run(s, actions, hasExecutor, s')
    ensures id in s'.net.nodes && s'.net.nodes[id].status == Reducing
  {
    hide ClaimInv, Run;
    RunStrands(s, actions, hasExecutor, s');
    assert Stranded(s', id);
  }
}
