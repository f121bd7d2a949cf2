/** Strong normalisation of the net, and how often a node can be claimed. */
module NetTermination {
  import opened Options
  import opened InteractionNet
  import opened NetScheduler

  // ---- The measure ----

  predicate IsErasing(n: Node) {
    n.payload.EraserPayload?
  }

  /** The ids of the nodes that reductions under way are going to add. */
  function AddedIds(pending: seq<Pending>, erasing: bool): set<Id> {
    set p, n | p in pending && n in p.result.add && IsErasing(n) == erasing :: n.id
  }

  function IdleIds(nodes: map<Id, Node>, erasing: bool): set<Id> {
    set id | id in nodes && nodes[id].status == Idle && IsErasing(nodes[id]) == erasing
  }

  /** The idle nodes that are erasers, or that are not, in the net or about to join it. */
  function Waiting(s: Sys, erasing: bool): set<Id> {
    IdleIds(s.net.nodes, erasing) + AddedIds(s.pending, erasing)
  }

  predicate Counts(w: Wire, live: set<Id>) {
    JoinsPrincipals(w) && w.from.nodeId in live && w.to.nodeId in live
  }

  function CountLive(wires: seq<Wire>, live: set<Id>): nat {
    if wires == [] then 0
    else CountLive(wires[..|wires| - 1], live) + if Counts(wires[|wires| - 1], live) then 1 else 0
  }

  function Weight(pending: seq<Pending>): nat {
    if pending == [] then 0
    else Weight(pending[..|pending| - 1]) + 1 + |pending[|pending| - 1].tasks|
  }

  /** Principal wires between idle non-erasers, idle non-erasers and idle erasers come first; the
      rest counts what is left to do for reductions already claimed, and nodes to collect. */
  datatype Measure = Measure(wires: nat, others: nat, erasers: nat, work: nat, nodes: nat)

  function MeasureOf(s: Sys): Measure {
    Measure(CountLive(s.net.wires, Waiting(s, false)), |Waiting(s, false)|, |Waiting(s, true)|,
            Weight(s.pending), |s.net.nodes|)
  }

  /** The reductions that are still possible, not those under way, decide the first three places. */
  predicate LessInFirstThree(m: Measure, n: Measure) {
    || m.wires < n.wires
    || (m.wires == n.wires && (m.others < n.others || (m.others == n.others && m.erasers < n.erasers)))
  }

  predicate NoMoreInFirstThree(m: Measure, n: Measure) {
    LessInFirstThree(m, n) || (m.wires == n.wires && m.others == n.others && m.erasers == n.erasers)
  }

  predicate NoMoreInEach(m: Measure, n: Measure) {
    m.wires <= n.wires && m.others <= n.others && m.erasers <= n.erasers
  }

  /** A number that every claim lowers: five for each counted wire, two for each other idle node and
      one for each idle eraser. */
  function Potential(s: Sys): nat {
    var m := MeasureOf(s);
    5 * m.wires + 2 * m.others + m.erasers
  }

  predicate Less(m: Measure, n: Measure) {
    || LessInFirstThree(m, n)
    || (NoMoreInFirstThree(m, n) && (m.work < n.work || (m.work == n.work && m.nodes < n.nodes)))
  }

  // ---- The invariant ----

  predicate Drawn(id: Id, counter: nat) {
    id.Numbered? ==> id.n <= counter
  }

  /** Numbered ids have been drawn from the counter. */
  ghost predicate Bounded(s: Sys) {
    && (forall id :: id in s.net.nodes ==> Drawn(id, s.net.idCounter))
    && (forall w :: w in s.net.wires ==> Drawn(w.from.nodeId, s.net.idCounter) && Drawn(w.to.nodeId, s.net.idCounter))
    && (forall p, n :: p in s.pending && n in p.result.add ==> Drawn(n.id, s.net.idCounter))
    && (forall p, w :: p in s.pending && w in p.result.addWires ==> Drawn(w.from.nodeId, s.net.idCounter) && Drawn(w.to.nodeId, s.net.idCounter))
  }

  function IdsAdded(p: Pending): set<Id> {
    set n | n in p.result.add :: n.id
  }

  /** Nodes about to be added are new to the net and to each other's reductions. */
  ghost predicate Disjoint(s: Sys) {
    && (forall p, n :: p in s.pending && n in p.result.add ==> n.id !in s.net.nodes && n.status == Idle)
    && (forall i, j :: 0 <= i < |s.pending| && 0 <= j < |s.pending| && i != j ==> IdsAdded(s.pending[i]) !! IdsAdded(s.pending[j]))
  }

  /** No wire about to be added will join two idle non-erasers by their principal ports. */
  ghost predicate Tame(s: Sys) {
    forall p, w :: p in s.pending && w in p.result.addWires ==> !Counts(w, Waiting(s, false))
  }

  ghost predicate Inv(s: Sys) {
    CacheOk(s.net) && Bounded(s) && Disjoint(s) && Tame(s)
  }

  // ---- Counting wires ----

  lemma {:induction false} CountLiveMono(wires: seq<Wire>, live: set<Id>, live': set<Id>)
    requires forall w :: w in wires && Counts(w, live') ==> Counts(w, live)
    ensures CountLive(wires, live') <= CountLive(wires, live)
    ensures (exists w :: w in wires && Counts(w, live) && !Counts(w, live')) ==> CountLive(wires, live') < CountLive(wires, live)
  {
    if wires == [] {
    } else {
      var front, last := wires[..|wires| - 1], wires[|wires| - 1];
      assert wires == front + [last];
      CountLiveMono(front, live, live');
    }
  }

  lemma {:induction false} CountLiveSplit(a: seq<Wire>, b: seq<Wire>, live: set<Id>)
    ensures CountLive(a + b, live) == CountLive(a, live) + CountLive(b, live)
  {
    if b == [] {
      assert a + b == a;
    } else {
      assert (a + b)[..|a + b| - 1] == a + b[..|b| - 1];
      CountLiveSplit(a, b[..|b| - 1], live);
    }
  }

  lemma {:induction false} CountDropWires(wires: seq<Wire>, ids: set<Id>, live: set<Id>)
    ensures CountLive(DropWires(wires, ids), live) <= CountLive(wires, live)
    decreases |wires|
  {
    hide Counts;
    if wires == [] {
    } else {
      CountDropWires(wires[1..], ids, live);
      assert wires == [wires[0]] + wires[1..];
      CountLiveSplit([wires[0]], wires[1..], live);
      CountLiveSplit(if wires[0].id in ids then [] else [wires[0]], DropWires(wires[1..], ids), live);
    }
  }

  lemma {:induction false} CountDropWiresOf(wires: seq<Wire>, id: Id, live: set<Id>)
    ensures CountLive(DropWiresOf(wires, id), live) <= CountLive(wires, live)
  {
    hide Touches, CountLive, DropWiresOf;
    if wires == [] {
      NothingDropped(id);
    } else {
      var front, last := wires[..|wires| - 1], wires[|wires| - 1];
      CountDropWiresOf(front, id, live);
      DropLast(wires, id);
      assert wires == front + [last];
      CountLiveSplit(front, [last], live);
      if Touches(last, id) {
        assert DropWiresOf(front, id) + [] == DropWiresOf(front, id);
      } else {
        CountLiveSplit(DropWiresOf(front, id), [last], live);
      }
    }
  }

  lemma NothingDropped(id: Id)
    ensures DropWiresOf([], id) == []
  {
  }

  lemma DropLast(wires: seq<Wire>, id: Id)
    requires wires != []
    ensures var last := wires[|wires| - 1];
      DropWiresOf(wires, id) == DropWiresOf(wires[..|wires| - 1], id) + if Touches(last, id) then [] else [last]
  {
  }

  lemma {:induction false} CountSetWire(wires: seq<Wire>, w: Wire, live: set<Id>)
    requires !Counts(w, live)
    ensures CountLive(SetWire(wires, w), live) <= CountLive(wires, live)
    decreases |wires|
  {
    assert CountLive([w], live) == 0 by { assert [w][..0] == []; }
    if wires == [] {
    } else {
      assert wires == [wires[0]] + wires[1..];
      CountLiveSplit([wires[0]], wires[1..], live);
      if wires[0].id == w.id {
        CountDropWires(wires[1..], {w.id}, live);
        CountLiveSplit([w], DropWires(wires[1..], {w.id}), live);
      } else {
        CountSetWire(wires[1..], w, live);
        CountLiveSplit([wires[0]], SetWire(wires[1..], w), live);
      }
    }
  }

  lemma {:induction false} CountAddWires(wires: seq<Wire>, add: seq<Wire>, live: set<Id>)
    requires forall w :: w in add ==> !Counts(w, live)
    ensures CountLive(AddWires(wires, add), live) <= CountLive(wires, live)
  {
    if add == [] {
    } else {
      var front, last := add[..|add| - 1], add[|add| - 1];
      assert add == front + [last];
      CountAddWires(wires, front, live);
      CountSetWire(AddWires(wires, front), last, live);
    }
  }

  // ---- What a claim commits to ----

  /** The id is that of an eraser the result adds, and of nothing else it adds. */
  ghost predicate AddsEraser(r: ReductionResult, id: Id) {
    && (exists n :: n in r.add && n.id == id)
    && (forall n :: n in r.add && n.id == id ==> IsErasing(n))
  }

  /** The part of a rule's result that the measure and the invariant depend on. */
  ghost predicate WellStarted(counter: nat, r: Reduction) {
    && counter <= r.counter
    && (forall n :: n in r.result.add ==> n.status == Idle && n.id.Numbered? && counter < n.id.n <= r.counter)
    && (forall w :: w in r.result.addWires ==>
          && Drawn(w.from.nodeId, r.counter) && Drawn(w.to.nodeId, r.counter)
          && (!JoinsPrincipals(w) || AddsEraser(r.result, w.from.nodeId)))
  }

  ghost predicate AllErasing(r: ReductionResult) {
    forall n :: n in r.add ==> IsErasing(n)
  }

  lemma CommuteOk(con: Id, conNode: Node, dup: Id, dupNode: Node, wire: Wire, c: nat)
    ensures WellStarted(c, Commute(con, conNode, dup, dupNode, wire, c))
  {
  }

  lemma CrossConnectOk(left: Id, right: Id, wire: Wire, c: nat)
    requires Drawn(left, c) && Drawn(right, c)
    ensures WellStarted(c, CrossConnect(left, right, wire, c)) && AllErasing(CrossConnect(left, right, wire, c).result)
  {
  }

  lemma {:induction false} PropagateOk(net: Net, con: Id, index: nat, r: Reduction)
    requires forall id :: id in net.nodes ==> Drawn(id, net.idCounter)
    requires WellStarted(net.idCounter, r) && AllErasing(r.result)
    ensures WellStarted(net.idCounter, PropagateTo(net, con, index, r)) && AllErasing(PropagateTo(net, con, index, r).result)
  {
    var r' := PropagateTo(net, con, index, r);
    if r' != r {
      var id := NextToErase(net, con, index).value;
      var eraser := MakeNode(Eraser, EraserPayload(PROPAGATED, true), 5, r.counter + 1);
      assert r'.result.add == r.result.add + [eraser];
      forall w | w in r'.result.addWires
        ensures Drawn(w.from.nodeId, r'.counter) && Drawn(w.to.nodeId, r'.counter)
        ensures !JoinsPrincipals(w) || AddsEraser(r'.result, w.from.nodeId)
      {
        if w in r.result.addWires {
          if JoinsPrincipals(w) {
            var n :| n in r.result.add && n.id == w.from.nodeId;
            assert n in r'.result.add;
          }
        } else {
          assert eraser in r'.result.add && w.from.nodeId == eraser.id;
        }
      }
    }
  }

  lemma {:induction false} EraseOk(net: Net, con: Id, era: Id, eraPayload: Payload, wire: Wire)
    requires forall id :: id in net.nodes ==> Drawn(id, net.idCounter)
    ensures WellStarted(net.idCounter, Erase(net, con, era, eraPayload, wire, net.idCounter))
    ensures AllErasing(Erase(net, con, era, eraPayload, wire, net.idCounter).result)
  {
    hide PropagateTo;
    var none := Reduction(ReductionResult([con, era], [], [], [wire.id]), net.idCounter);
    PropagateOk(net, con, 1, none);
    PropagateOk(net, con, 2, PropagateTo(net, con, 1, none));
  }

  /** The rule that adds nodes other than erasers is only selected by two non-erasers, and the rule
      selected by two erasers adds nothing. */
  lemma {:induction false} StartRuleOk(net: Net, pair: ActivePair, hasExecutor: bool)
    requires forall id :: id in net.nodes ==> Drawn(id, net.idCounter)
    requires pair.left in net.nodes && pair.right in net.nodes
    ensures var left, right := net.nodes[pair.left], net.nodes[pair.right];
      var start := StartRule(Select(left.payload, right.payload), net, pair, hasExecutor);
      start.Starts? ==>
        && WellStarted(net.idCounter, start.reduction)
        && (AllErasing(start.reduction.result) || (!IsErasing(left) && !IsErasing(right)))
        && (IsErasing(left) && IsErasing(right) ==> start.reduction.result.add == [])
  {
    hide Select, WellStarted, AllErasing, Commute, CrossConnect, Erase;
    var left, right, w := net.nodes[pair.left], net.nodes[pair.right], pair.wire;
    SelectIsSelected(left.payload, right.payload);
    CommuteOk(pair.left, left, pair.right, right, w, net.idCounter);
    CommuteOk(pair.right, right, pair.left, left, w, net.idCounter);
    CrossConnectOk(pair.left, pair.right, w, net.idCounter);
    EraseOk(net, pair.left, pair.right, right.payload, w);
    EraseOk(net, pair.right, pair.left, left.payload, w);
    NothingOk(net.idCounter, pair.left, pair.right, w);
  }

  /** How much a selected rule adds: four nodes for a constructor and a duplicator, two erasers for an
      eraser and another, and nothing otherwise; and at most four wires. */
  lemma {:induction false} StartRuleSmall(net: Net, pair: ActivePair, hasExecutor: bool)
    requires pair.left in net.nodes && pair.right in net.nodes
    ensures var left, right := net.nodes[pair.left], net.nodes[pair.right];
      var start := StartRule(Select(left.payload, right.payload), net, pair, hasExecutor);
      start.Starts? ==>
        var result := start.reduction.result;
        && |result.addWires| <= 4 && |result.add| <= 4
        && (AllErasing(result) ==> |result.add| <= 2)
        && (AllErasing(result) && result.add != [] ==> IsErasing(left) != IsErasing(right))
        && (!AllErasing(result) ==> left.payload != right.payload)
  {
    hide Select, AllErasing, PropagateTo, CrossConnect, Commute;
    var left, right, w, c := net.nodes[pair.left], net.nodes[pair.right], pair.wire, net.idCounter;
    SelectIsSelected(left.payload, right.payload);
    SmallResults(net, pair.left, pair.right, left, right, w, c);
    SmallErase(net, pair.left, pair.right, right.payload, w, c);
    SmallErase(net, pair.right, pair.left, left.payload, w, c);
  }

  lemma SmallResults(net: Net, l: Id, r: Id, left: Node, right: Node, w: Wire, c: nat)
    ensures |CrossConnect(l, r, w, c).result.addWires| == 2 && CrossConnect(l, r, w, c).result.add == []
    ensures |Commute(l, left, r, right, w, c).result.addWires| == 4 && |Commute(l, left, r, right, w, c).result.add| == 4
    ensures |Commute(r, right, l, left, w, c).result.addWires| == 4 && |Commute(r, right, l, left, w, c).result.add| == 4
    ensures AllErasing(ReductionResult([], [], [], [w.id])) && AllErasing(NOTHING) && AllErasing(CrossConnect(l, r, w, c).result)
    ensures AllErasing(Annihilate(l, r, w, c).result)
    ensures IsErasing(left) || IsErasing(right)
         || (!AllErasing(Commute(l, left, r, right, w, c).result) && !AllErasing(Commute(r, right, l, left, w, c).result))
  {
    assert Commute(l, left, r, right, w, c).result.add[0] in Commute(l, left, r, right, w, c).result.add;
    assert Commute(r, right, l, left, w, c).result.add[0] in Commute(r, right, l, left, w, c).result.add;
  }

  lemma SmallPropagation(net: Net, con: Id, index: nat, r: Reduction)
    ensures var r' := PropagateTo(net, con, index, r);
      && |r'.result.add| <= |r.result.add| + 1 && |r'.result.addWires| <= |r.result.addWires| + 1
      && (AllErasing(r.result) ==> AllErasing(r'.result))
  {
  }

  lemma {:induction false} SmallErase(net: Net, con: Id, era: Id, eraPayload: Payload, w: Wire, c: nat)
    ensures var r := Erase(net, con, era, eraPayload, w, c).result;
      AllErasing(r) && |r.add| <= 2 && |r.addWires| <= 2 && (r.add != [] ==> eraPayload.EraserPayload?)
  {
    hide PropagateTo;
    var none := Reduction(ReductionResult([con, era], [], [], [w.id]), c);
    SmallPropagation(net, con, 1, none);
    SmallPropagation(net, con, 2, PropagateTo(net, con, 1, none));
  }

  lemma NothingOk(c: nat, left: Id, right: Id, w: Wire)
    ensures WellStarted(c, Reduction(NOTHING, c)) && AllErasing(NOTHING)
    ensures var r := ReductionResult([], [], [], [w.id]); WellStarted(c, Reduction(r, c)) && AllErasing(r)
    ensures WellStarted(c, Annihilate(left, right, w, c)) && AllErasing(Annihilate(left, right, w, c).result)
  {
  }

  // ---- Fewer idle nodes ----

  /** The same ids, and none that was not idle is idle. */
  ghost predicate NoNewIdle(nodes: map<Id, Node>, nodes': map<Id, Node>) {
    && nodes'.Keys == nodes.Keys
    && forall id :: id in nodes ==>
         nodes'[id].payload == nodes[id].payload && (nodes'[id].status == Idle ==> nodes[id].status == Idle)
  }

  lemma {:induction false} CacheOkNoNewIdle(net: Net, nodes': map<Id, Node>)
    requires CacheOk(net) && NoNewIdle(net.nodes, nodes')
    ensures CacheOk(net.(nodes := nodes'))
  {
    var net' := net.(nodes := nodes');
    forall w | net'.cache != [] && w in net'.wires && IsActive(net'.nodes, w)
      ensures Covered(net'.cache, w)
    {
      assert IsActive(net.nodes, w);
    }
    forall p | p in net'.cache
      ensures Grounded(net'.nodes, net'.wires, p)
    {
      assert Grounded(net.nodes, net.wires, p);
    }
  }

  lemma SettleNoNewIdle(nodes: map<Id, Node>, id: Id, outcome: TaskEnd)
    ensures NoNewIdle(nodes, Settle(nodes, id, outcome))
    ensures forall k :: k in nodes && k != id ==> Settle(nodes, id, outcome)[k] == nodes[k]
    ensures id in nodes ==> Settle(nodes, id, outcome)[id].status == Completed
  {
  }

  /** Fewer waiting ids and no more counted wires. */
  lemma {:induction false} FewerWaiting(s: Sys, s': Sys)
    requires Waiting(s', false) <= Waiting(s, false) && Waiting(s', true) <= Waiting(s, true)
    requires CountLive(s'.net.wires, Waiting(s, false)) <= CountLive(s.net.wires, Waiting(s, false))
    ensures NoMoreInFirstThree(MeasureOf(s'), MeasureOf(s)) && NoMoreInEach(MeasureOf(s'), MeasureOf(s))
  {
    hide Waiting, Weight;
    CountLiveMono(s'.net.wires, Waiting(s, false), Waiting(s', false));
    SubsetSize(Waiting(s', false), Waiting(s, false));
    SubsetSize(Waiting(s', true), Waiting(s, true));
  }

  lemma {:induction false} SubsetSize<T>(a: set<T>, b: set<T>)
    requires a <= b
    ensures |a| <= |b| && (a != b ==> |a| < |b|)
  {
    assert b == a + (b - a);
  }

  // ---- Claim ----

  /** The idle ids a rule's result will add. */
  function Adds(r: ReductionResult, erasing: bool): set<Id> {
    set n | n in r.add && IsErasing(n) == erasing :: n.id
  }

  lemma {:induction false} ClaimedIdle(net: Net, left: Id, right: Id, worker: string, erasing: bool)
    requires Claimable(net, left, right)
    ensures IdleIds(Claimed(net, left, right, worker).nodes, erasing) == IdleIds(net.nodes, erasing) - {left, right}
    ensures NoNewIdle(net.nodes, Claimed(net, left, right, worker).nodes)
  {
    hide FindPair, DropPair;
    var nodes' := Claimed(net, left, right, worker).nodes;
    assert nodes'.Keys == net.nodes.Keys;
    assert nodes'[left].status == Reducing && nodes'[right].status == Reducing;
    hide WithStatus;
  }

  lemma {:induction false} AddedIdsSnoc(pending: seq<Pending>, p: Pending, erasing: bool)
    ensures AddedIds(pending + [p], erasing) == AddedIds(pending, erasing) + Adds(p.result, erasing)
  {
    forall id | id in AddedIds(pending, erasing) + Adds(p.result, erasing)
      ensures id in AddedIds(pending + [p], erasing)
    {
      if id in Adds(p.result, erasing) {
        assert p in pending + [p];
      } else {
        var q, n :| q in pending && n in q.result.add && IsErasing(n) == erasing && n.id == id;
        assert q in pending + [p];
      }
    }
  }

  lemma NotAdded(s: Sys, id: Id, erasing: bool)
    requires Disjoint(s) && id in s.net.nodes
    ensures id !in AddedIds(s.pending, erasing)
  {
  }

  lemma WaitingDrawn(s: Sys, id: Id, erasing: bool)
    requires Bounded(s) && id in Waiting(s, erasing)
    ensures Drawn(id, s.net.idCounter)
  {
  }

  /** What the rule adds is all that is gained by a claim, and both ends of the pair are lost. */
  ghost function Gain(s: Sys, left: Id, right: Id, worker: string, hasExecutor: bool): ReductionResult
    requires Claimable(Refreshed(s.net), left, right)
  {
    var net := Refreshed(s.net);
    var claimed := Claimed(net, left, right, worker);
    var pair := FindPair(net.cache, left, right).value;
    var start := StartRule(Select(claimed.nodes[left].payload, claimed.nodes[right].payload), claimed, pair, hasExecutor);
    if start.Starts? then start.reduction.result else NOTHING
  }

  lemma {:induction false} ClaimWaiting(s: Sys, left: Id, right: Id, worker: string, hasExecutor: bool, erasing: bool)
    requires Disjoint(s) && Claimable(Refreshed(s.net), left, right)
    ensures Waiting(DoClaim(s, left, right, worker, hasExecutor), erasing)
         == (Waiting(s, erasing) - {left, right}) + Adds(Gain(s, left, right, worker, hasExecutor), erasing)
  {
    hide StartRule, Select, FindPair, DropPair, Claimed, Settle, Adds, AddedIds, Disjoint;
    var net := Refreshed(s.net);
    var claimed := Claimed(net, left, right, worker);
    ClaimedIdle(net, left, right, worker, erasing);
    NotAdded(s, left, erasing);
    NotAdded(s, right, erasing);
    var pair := FindPair(net.cache, left, right).value;
    var start := StartRule(Select(claimed.nodes[left].payload, claimed.nodes[right].payload), claimed, pair, hasExecutor);
    match start
    case Throws =>
      NothingAdds(erasing);
      SettledIdle(claimed.nodes, left, right, erasing);
    case Starts(tasks, r) =>
      AddedIdsSnoc(s.pending, Pending(tasks, r.result), erasing);
  }

  lemma NothingAdds(erasing: bool)
    ensures Adds(NOTHING, erasing) == {}
  {
  }

  lemma SettledIdle(nodes: map<Id, Node>, left: Id, right: Id, erasing: bool)
    requires left !in IdleIds(nodes, erasing) && right !in IdleIds(nodes, erasing)
    ensures IdleIds(Settle(Settle(nodes, left, NO_EXECUTOR), right, NO_EXECUTOR), erasing) == IdleIds(nodes, erasing)
  {
  }

  /** What a claim does to everything but the nodes. */
  lemma {:induction false} ClaimFacts(s: Sys, left: Id, right: Id, worker: string, hasExecutor: bool)
    requires CacheOk(s.net) && Bounded(s) && Claimable(Refreshed(s.net), left, right)
    ensures var s' := DoClaim(s, left, right, worker, hasExecutor);
      var gain := Gain(s, left, right, worker, hasExecutor);
      && s'.net.wires == s.net.wires && s'.net.nodes.Keys == s.net.nodes.Keys
      && WellStarted(s.net.idCounter, Reduction(gain, s'.net.idCounter))
      && (s'.pending == s.pending || exists tasks :: s'.pending == s.pending + [Pending(tasks, gain)])
      && (s'.pending == s.pending ==> gain == NOTHING)
      && (AllErasing(gain) || (left in IdleIds(s.net.nodes, false) && right in IdleIds(s.net.nodes, false)))
      && (left in IdleIds(s.net.nodes, true) && right in IdleIds(s.net.nodes, true) ==> gain.add == [])
      && CacheOk(s'.net)
  {
    hide StartRule, Select, FindPair, DropPair, WellStarted, AllErasing, Grounded, CacheOk, Claimed, Settle;
    var net := Refreshed(s.net);
    RefreshedOk(s.net);
    ClaimedOk(net, left, right, worker);
    var claimed := Claimed(net, left, right, worker);
    ClaimedIdle(net, left, right, worker, false);
    ClaimedShape(net, left, right, worker);
    var pair := FindPair(net.cache, left, right).value;
    StartRuleOk(claimed, pair, hasExecutor);
    NothingOk(s.net.idCounter, left, right, Wire(left, Port(left, 0), Port(left, 0)));
    var s' := DoClaim(s, left, right, worker, hasExecutor);
    var start := StartRule(Select(claimed.nodes[left].payload, claimed.nodes[right].payload), claimed, pair, hasExecutor);
    match start
    case Throws =>
      SettleNoNewIdle(claimed.nodes, left, NO_EXECUTOR);
      CacheOkNoNewIdle(claimed, Settle(claimed.nodes, left, NO_EXECUTOR));
      SettleNoNewIdle(Settle(claimed.nodes, left, NO_EXECUTOR), right, NO_EXECUTOR);
      CacheOkNoNewIdle(claimed.(nodes := Settle(claimed.nodes, left, NO_EXECUTOR)), s'.net.nodes);
    case Starts(tasks, r) =>
      CacheOkCounter(claimed, r.counter);
      assert s'.pending == s.pending + [Pending(tasks, r.result)];
  }

  lemma {:induction false} ClaimedShape(net: Net, left: Id, right: Id, worker: string)
    requires Claimable(net, left, right)
    ensures var c := Claimed(net, left, right, worker);
      && c.wires == net.wires && c.idCounter == net.idCounter && c.nodes.Keys == net.nodes.Keys
      && c.nodes[left].payload == net.nodes[left].payload && c.nodes[right].payload == net.nodes[right].payload
    ensures FindPair(net.cache, left, right).value.left == left && FindPair(net.cache, left, right).value.right == right
  {
    hide FindPair, DropPair;
  }

  lemma CacheOkCounter(net: Net, counter: nat)
    requires CacheOk(net)
    ensures CacheOk(net.(idCounter := counter))
  {
  }

  /** The claimed pair is joined by a wire of the net. */
  lemma {:induction false} ClaimedWire(s: Sys, left: Id, right: Id) returns (w: Wire)
    requires CacheOk(s.net) && Claimable(Refreshed(s.net), left, right)
    ensures w in s.net.wires && JoinsPrincipals(w) && w.from.nodeId == left && w.to.nodeId == right
  {
    RefreshedOk(s.net);
    var pair := FindPair(Refreshed(s.net).cache, left, right).value;
    assert Grounded(s.net.nodes, s.net.wires, pair);
    w := pair.wire;
  }

  lemma AddsFresh(counter: nat, r: Reduction, id: Id, erasing: bool)
    requires WellStarted(counter, r) && id in Adds(r.result, erasing)
    ensures !Drawn(id, counter) && Drawn(id, r.counter)
  {
  }

  lemma ErasingAddsNoOther(r: ReductionResult)
    requires AllErasing(r)
    ensures Adds(r, false) == {}
  {
  }

  /** A wire already in the net is not counted after a claim unless it was before. */
  lemma {:induction false} OldWiresAfterClaim(s: Sys, w: Wire, left: Id, right: Id, counter: nat, gain: ReductionResult, live': set<Id>)
    requires Drawn(w.from.nodeId, s.net.idCounter) && Drawn(w.to.nodeId, s.net.idCounter)
    requires WellStarted(s.net.idCounter, Reduction(gain, counter))
    requires live' == (Waiting(s, false) - {left, right}) + Adds(gain, false)
    ensures Counts(w, live') ==> Counts(w, Waiting(s, false)) && w.from.nodeId !in {left, right}
  {
    hide WellStarted, Waiting, Adds, Drawn;
    if w.from.nodeId in Adds(gain, false) { AddsFresh(s.net.idCounter, Reduction(gain, counter), w.from.nodeId, false); }
    if w.to.nodeId in Adds(gain, false) { AddsFresh(s.net.idCounter, Reduction(gain, counter), w.to.nodeId, false); }
  }

  /** A claim counts no new wire, and no longer the claimed one if its rule adds other nodes than erasers. */
  lemma {:induction false} ClaimWires(s: Sys, left: Id, right: Id, worker: string, hasExecutor: bool)
    requires Inv(s) && Claimable(Refreshed(s.net), left, right)
    ensures var s' := DoClaim(s, left, right, worker, hasExecutor);
      && MeasureOf(s').wires <= MeasureOf(s).wires
      && (!AllErasing(Gain(s, left, right, worker, hasExecutor)) ==> MeasureOf(s').wires < MeasureOf(s).wires)
  {
    hide DoClaim, Gain, Waiting, Weight, WellStarted, AllErasing, CacheOk, Adds, FindPair;
    var s' := DoClaim(s, left, right, worker, hasExecutor);
    var gain := Gain(s, left, right, worker, hasExecutor);
    ClaimFacts(s, left, right, worker, hasExecutor);
    ClaimWaiting(s, left, right, worker, hasExecutor, false);
    var live, live' := Waiting(s, false), Waiting(s', false);
    forall w | w in s.net.wires
      ensures Counts(w, live') ==> Counts(w, live) && w.from.nodeId !in {left, right}
    {
      OldWiresAfterClaim(s, w, left, right, s'.net.idCounter, gain, live');
    }
    CountLiveMono(s.net.wires, live, live');
    if !AllErasing(gain) {
      IdleIsWaiting(s, left);
      IdleIsWaiting(s, right);
      var w := ClaimedWire(s, left, right);
      assert Counts(w, live) && !Counts(w, live');
    }
  }

  /** Every claim strictly decreases the first three places of the measure. */
  lemma {:induction false} ClaimDecreases(s: Sys, left: Id, right: Id, worker: string, hasExecutor: bool)
    requires Inv(s) && Claimable(Refreshed(s.net), left, right)
    ensures LessInFirstThree(MeasureOf(DoClaim(s, left, right, worker, hasExecutor)), MeasureOf(s))
  {
    hide DoClaim, Gain, Waiting, Weight, WellStarted, AllErasing, CacheOk, Adds, FindPair, Inv, CountLive;
    var s' := DoClaim(s, left, right, worker, hasExecutor);
    var gain := Gain(s, left, right, worker, hasExecutor);
    ClaimWires(s, left, right, worker, hasExecutor);
    if AllErasing(gain) {
      InvParts(s);
      ClaimFacts(s, left, right, worker, hasExecutor);
      ClaimWaiting(s, left, right, worker, hasExecutor, false);
      ClaimWaiting(s, left, right, worker, hasExecutor, true);
      IdleIsWaiting(s, left);
      IdleIsWaiting(s, right);
      ErasingAddsNoOther(gain);
      LossAndGain(Waiting(s, false), left, right, Adds(gain, false));
      LossAndGain(Waiting(s, true), left, right, Adds(gain, true));
      NothingToAdd(gain);
    }
  }

  lemma InvParts(s: Sys)
    requires Inv(s)
    ensures CacheOk(s.net) && Bounded(s) && Disjoint(s)
  {
  }

  // ---- How much a claim spends ----

  /** Each added node is counted once. */
  lemma {:induction false} AddsSize(add: seq<Node>)
    ensures var r := ReductionResult([], add, [], []); |Adds(r, false)| + |Adds(r, true)| <= |add|
  {
    if add == [] {
      NothingToAdd(ReductionResult([], add, [], []));
    } else {
      var front, last := add[..|add| - 1], add[|add| - 1];
      assert add == front + [last];
      var r, r0 := ReductionResult([], add, [], []), ReductionResult([], front, [], []);
      AddsSize(front);
      assert Adds(r, IsErasing(last)) == Adds(r0, IsErasing(last)) + {last.id};
      assert Adds(r, !IsErasing(last)) == Adds(r0, !IsErasing(last));
    }
  }

  lemma AddsByNodes(r: ReductionResult, erasing: bool)
    ensures Adds(r, erasing) == Adds(ReductionResult([], r.add, [], []), erasing)
  {
  }

  /** Sizes after two elements are lost and others gained. */
  lemma {:induction false} LossAndGain(a: set<Id>, left: Id, right: Id, gained: set<Id>)
    ensures |(a - {left, right}) + gained| <= |a - {left, right}| + |gained|
    ensures left in a || right in a ==> |a - {left, right}| <= |a| - 1
    ensures left in a && right in a && left != right ==> |a - {left, right}| == |a| - 2
    ensures |a - {left, right}| <= |a|
  {
    if left in a && right in a && left != right {
      assert a - {left, right} == a - {left} - {right};
    } else if left in a || right in a {
      assert a - {left, right} == a - {left} || a - {left, right} == a - {right};
    } else {
      assert a - {left, right} == a;
    }
  }

  lemma {:induction false} GainSmall(s: Sys, left: Id, right: Id, worker: string, hasExecutor: bool)
    requires Claimable(Refreshed(s.net), left, right)
    ensures var gain := Gain(s, left, right, worker, hasExecutor);
      && |gain.addWires| <= 4 && |gain.add| <= 4
      && (AllErasing(gain) ==> |gain.add| <= 2)
      && (AllErasing(gain) && gain.add != [] ==> IsErasing(s.net.nodes[left]) != IsErasing(s.net.nodes[right]))
      && (!AllErasing(gain) ==> left != right)
  {
    hide StartRule, Select, FindPair, DropPair, Claimed, AllErasing;
    var net := Refreshed(s.net);
    ClaimedShape(net, left, right, worker);
    StartRuleSmall(Claimed(net, left, right, worker), FindPair(net.cache, left, right).value, hasExecutor);
    NothingOk(0, left, right, Wire(left, Port(left, 0), Port(left, 0)));
  }

  /** Every claim lowers the potential. */
  lemma {:induction false} ClaimSpends(s: Sys, left: Id, right: Id, worker: string, hasExecutor: bool)
    requires Inv(s) && Claimable(Refreshed(s.net), left, right)
    ensures Potential(DoClaim(s, left, right, worker, hasExecutor)) < Potential(s)
  {
    hide DoClaim, Gain, Waiting, Weight, WellStarted, AllErasing, CacheOk, Adds, FindPair, Inv, CountLive;
    var s' := DoClaim(s, left, right, worker, hasExecutor);
    var gain := Gain(s, left, right, worker, hasExecutor);
    InvParts(s);
    ClaimFacts(s, left, right, worker, hasExecutor);
    ClaimWires(s, left, right, worker, hasExecutor);
    GainSmall(s, left, right, worker, hasExecutor);
    ClaimWaiting(s, left, right, worker, hasExecutor, false);
    ClaimWaiting(s, left, right, worker, hasExecutor, true);
    IdleIsWaiting(s, left);
    IdleIsWaiting(s, right);
    LossAndGain(Waiting(s, false), left, right, Adds(gain, false));
    LossAndGain(Waiting(s, true), left, right, Adds(gain, true));
    AddsSize(gain.add);
    NothingToAdd(gain);
    AddsByNodes(gain, false);
    AddsByNodes(gain, true);
    if AllErasing(gain) {
      ErasingAddsNoOther(gain);
    }
  }

  lemma IdleIsWaiting(s: Sys, id: Id)
    requires IdleIn(s.net.nodes, id)
    ensures id in Waiting(s, false) || id in Waiting(s, true)
    ensures id !in Waiting(s, false) ==> id in IdleIds(s.net.nodes, true)
    ensures id in IdleIds(s.net.nodes, false) ==> id in Waiting(s, false)
    ensures id in IdleIds(s.net.nodes, true) ==> id in Waiting(s, true)
  {
  }

  lemma NothingToAdd(r: ReductionResult)
    ensures r.add == [] ==> Adds(r, false) == {} && Adds(r, true) == {}
  {
  }

  /** The net has the same ids and wires, and its counter did not go back. */
  ghost predicate SameShape(net: Net, net': Net) {
    net'.wires == net.wires && net'.nodes.Keys == net.nodes.Keys && net.idCounter <= net'.idCounter
  }

  lemma SamePendingKeeps(s: Sys, s': Sys)
    requires Bounded(s) && Disjoint(s) && SameShape(s.net, s'.net) && s'.pending == s.pending
    ensures Bounded(s') && Disjoint(s')
  {
  }

  lemma BoundedPush(s: Sys, s': Sys, p: Pending)
    requires Bounded(s) && SameShape(s.net, s'.net) && s'.pending == s.pending + [p]
    requires WellStarted(s.net.idCounter, Reduction(p.result, s'.net.idCounter))
    ensures Bounded(s')
  {
  }

  lemma {:induction false} DisjointPush(s: Sys, s': Sys, p: Pending)
    requires Bounded(s) && Disjoint(s) && SameShape(s.net, s'.net) && s'.pending == s.pending + [p]
    requires WellStarted(s.net.idCounter, Reduction(p.result, s'.net.idCounter))
    ensures Disjoint(s')
  {
    forall q, n | q in s'.pending && n in q.result.add
      ensures n.id !in s'.net.nodes && n.status == Idle
    {
      if q !in s.pending {
        assert q == p && !Drawn(n.id, s.net.idCounter);
      }
    }
    forall i, j | 0 <= i < |s'.pending| && 0 <= j < |s'.pending| && i != j
      ensures IdsAdded(s'.pending[i]) !! IdsAdded(s'.pending[j])
    {
      if i < |s.pending| && j < |s.pending| {
        assert s'.pending[i] == s.pending[i] && s'.pending[j] == s.pending[j];
      } else if i < |s.pending| {
        OldAndNewDisjoint(s, s.pending[i], p, s'.net.idCounter);
      } else {
        OldAndNewDisjoint(s, s.pending[j], p, s'.net.idCounter);
      }
    }
  }

  lemma {:induction false} OldAndNewDisjoint(s: Sys, q: Pending, p: Pending, counter: nat)
    requires Bounded(s) && q in s.pending && WellStarted(s.net.idCounter, Reduction(p.result, counter))
    ensures IdsAdded(q) !! IdsAdded(p)
  {
    forall id | id in IdsAdded(q)
      ensures id !in IdsAdded(p)
    {
      assert Drawn(id, s.net.idCounter);
    }
  }

  /** Wires of reductions under way stay uncounted, and so are those of the new one. */
  lemma {:induction false} TameAfterClaim(s: Sys, s': Sys, left: Id, right: Id, gain: ReductionResult, p: Pending, w: Wire)
    requires Bounded(s) && Tame(s)
    requires WellStarted(s.net.idCounter, Reduction(gain, s'.net.idCounter))
    requires Waiting(s', false) == (Waiting(s, false) - {left, right}) + Adds(gain, false)
    requires w in p.result.addWires && (p in s.pending || p.result == gain)
    ensures !Counts(w, Waiting(s', false))
  {
    if p in s.pending {
      OldWiresAfterClaim(s, w, left, right, s'.net.idCounter, gain, Waiting(s', false));
    } else if JoinsPrincipals(w) {
      var e := w.from.nodeId;
      var n :| n in gain.add && n.id == e;
      assert !Drawn(e, s.net.idCounter);
      if e in Waiting(s, false) { WaitingDrawn(s, e, false); }
      assert e !in Adds(gain, false);
    }
  }

  lemma {:induction false} ClaimKeepsInv(s: Sys, left: Id, right: Id, worker: string, hasExecutor: bool)
    requires Inv(s) && Claimable(Refreshed(s.net), left, right)
    ensures Inv(DoClaim(s, left, right, worker, hasExecutor))
  {
    hide DoClaim, Gain, Waiting, AllErasing, CacheOk, Adds, FindPair, Drawn, Counts, Bounded, Disjoint, IdsAdded;
    var s' := DoClaim(s, left, right, worker, hasExecutor);
    var gain := Gain(s, left, right, worker, hasExecutor);
    ClaimFacts(s, left, right, worker, hasExecutor);
    ClaimWaiting(s, left, right, worker, hasExecutor, false);
    if s'.pending == s.pending {
      SamePendingKeeps(s, s');
    } else {
      var tasks :| s'.pending == s.pending + [Pending(tasks, gain)];
      BoundedPush(s, s', Pending(tasks, gain));
      DisjointPush(s, s', Pending(tasks, gain));
    }
    forall p, w | p in s'.pending && w in p.result.addWires
      ensures !Counts(w, Waiting(s', false))
    {
      TameAfterClaim(s, s', left, right, gain, p, w);
    }
  }

  // ---- Finish, Apply, Collect ----

  lemma {:induction false} WeightSplit(a: seq<Pending>, b: seq<Pending>)
    ensures Weight(a + b) == Weight(a) + Weight(b)
  {
    if b == [] {
      assert a + b == a;
    } else {
      assert (a + b)[..|a + b| - 1] == a + b[..|b| - 1];
      WeightSplit(a, b[..|b| - 1]);
    }
  }

  lemma {:induction false} WeightOf(p: Pending)
    ensures Weight([p]) == 1 + |p.tasks|
  {
    assert [p][..0] == [];
  }

  lemma {:induction false} WeightAt(pending: seq<Pending>, k: nat)
    requires k < |pending|
    ensures Weight(pending) == Weight(Without(pending, k)) + 1 + |pending[k].tasks|
  {
    hide Weight;
    assert pending == pending[..k] + ([pending[k]] + pending[k + 1..]);
    WeightSplit(pending[..k], [pending[k]] + pending[k + 1..]);
    WeightSplit([pending[k]], pending[k + 1..]);
    WeightOf(pending[k]);
    WeightSplit(pending[..k], pending[k + 1..]);
  }

  /** The pending reductions of `s'` are among those of `s`, by result. */
  ghost predicate ResultsAmong(s: Sys, s': Sys) {
    forall p' :: p' in s'.pending ==> exists p :: p in s.pending && p.result == p'.result
  }

  lemma {:induction false} AddedAmong(s: Sys, s': Sys, erasing: bool)
    requires ResultsAmong(s, s')
    ensures AddedIds(s'.pending, erasing) <= AddedIds(s.pending, erasing)
  {
    forall id | id in AddedIds(s'.pending, erasing)
      ensures id in AddedIds(s.pending, erasing)
    {
      var p', n :| p' in s'.pending && n in p'.result.add && IsErasing(n) == erasing && n.id == id;
      var p :| p in s.pending && p.result == p'.result;
    }
  }

  lemma {:induction false} TameAmong(s: Sys, s': Sys)
    requires Tame(s) && ResultsAmong(s, s') && Waiting(s', false) <= Waiting(s, false)
    ensures Tame(s')
  {
    forall p', w | p' in s'.pending && w in p'.result.addWires
      ensures !Counts(w, Waiting(s', false))
    {
      var p :| p in s.pending && p.result == p'.result;
      assert !Counts(w, Waiting(s, false));
    }
  }

  lemma NoNewIdleIds(nodes: map<Id, Node>, nodes': map<Id, Node>, erasing: bool)
    requires NoNewIdle(nodes, nodes')
    ensures IdleIds(nodes', erasing) <= IdleIds(nodes, erasing)
  {
  }

  lemma {:induction false} FinishStep(s: Sys, p: nat, t: nat, outcome: TaskEnd, hasExecutor: bool)
    requires Inv(s) && Enabled(s, Finish(p, t, outcome))
    ensures Inv(Do(s, Finish(p, t, outcome), hasExecutor))
    ensures Less(MeasureOf(Do(s, Finish(p, t, outcome), hasExecutor)), MeasureOf(s))
    ensures NoMoreInEach(MeasureOf(Do(s, Finish(p, t, outcome), hasExecutor)), MeasureOf(s))
  {
    hide CacheOk, Bounded, Disjoint, Tame, IdleIds, AddedIds, CountLive, Weight, Settle;
    var s' := Do(s, Finish(p, t, outcome), hasExecutor);
    var pend := s.pending[p];
    SettleNoNewIdle(s.net.nodes, pend.tasks[t], outcome);
    CacheOkNoNewIdle(s.net, s'.net.nodes);
    assert ResultsAmong(s, s') by {
      forall q | q in s'.pending
        ensures exists r :: r in s.pending && r.result == q.result
      {
        var k :| 0 <= k < |s'.pending| && s'.pending[k] == q;
        assert s.pending[k] in s.pending && s.pending[k].result == q.result;
      }
    }
    AddedAmong(s, s', false);
    AddedAmong(s, s', true);
    NoNewIdleIds(s.net.nodes, s'.net.nodes, false);
    NoNewIdleIds(s.net.nodes, s'.net.nodes, true);
    FewerWaiting(s, s');
    WeightAt(s.pending, p);
    WeightAt(s'.pending, p);
    assert Without(s'.pending, p) == Without(s.pending, p);
    assert s'.net.nodes.Keys == s.net.nodes.Keys;
    FinishKeepsBounded(s, s');
    FinishKeepsDisjoint(s, s');
    TameAmong(s, s');
  }

  /** The pending reductions of `s'` have the same results, one by one. */
  ghost predicate SameResults(s: Sys, s': Sys) {
    |s'.pending| == |s.pending| && forall k :: 0 <= k < |s.pending| ==> s'.pending[k].result == s.pending[k].result
  }

  lemma {:induction false} FinishKeepsBounded(s: Sys, s': Sys)
    requires Bounded(s) && SameShape(s.net, s'.net) && ResultsAmong(s, s')
    ensures Bounded(s')
  {
    hide SameResults;
    forall q, n | q in s'.pending && n in q.result.add
      ensures Drawn(n.id, s'.net.idCounter)
    {
      var r :| r in s.pending && r.result == q.result;
      assert n in r.result.add;
    }
    forall q, w | q in s'.pending && w in q.result.addWires
      ensures Drawn(w.from.nodeId, s'.net.idCounter) && Drawn(w.to.nodeId, s'.net.idCounter)
    {
      var r :| r in s.pending && r.result == q.result;
      assert w in r.result.addWires;
    }
  }

  lemma {:induction false} FinishKeepsDisjoint(s: Sys, s': Sys)
    requires Disjoint(s) && SameShape(s.net, s'.net) && SameResults(s, s') && ResultsAmong(s, s')
    ensures Disjoint(s')
  {
    forall q, n | q in s'.pending && n in q.result.add
      ensures n.id !in s'.net.nodes && n.status == Idle
    {
      var r :| r in s.pending && r.result == q.result;
      assert n in r.result.add;
    }
    forall i, j | 0 <= i < |s'.pending| && 0 <= j < |s'.pending| && i != j
      ensures IdsAdded(s'.pending[i]) !! IdsAdded(s'.pending[j])
    {
      SameAdded(s.pending[i], s'.pending[i]);
      SameAdded(s.pending[j], s'.pending[j]);
    }
  }

  lemma SameAdded(p: Pending, p': Pending)
    requires p.result == p'.result
    ensures IdsAdded(p) == IdsAdded(p')
  {
  }

  lemma AppliedIdle(net: Net, r: ReductionResult, erasing: bool)
    ensures IdleIds(Applied(net, r).nodes, erasing) <= IdleIds(net.nodes, erasing) + Adds(r, erasing)
  {
  }

  lemma WithoutAmong<T>(s: seq<T>, k: nat)
    requires k < |s|
    ensures forall x :: x in Without(s, k) ==> x in s
    ensures forall i :: 0 <= i < |Without(s, k)| ==> Without(s, k)[i] == s[if i < k then i else i + 1]
  {
  }

  lemma {:induction false} ApplyStep(s: Sys, p: nat, hasExecutor: bool)
    requires Inv(s) && Enabled(s, Apply(p))
    ensures Inv(Do(s, Apply(p), hasExecutor))
    ensures Less(MeasureOf(Do(s, Apply(p), hasExecutor)), MeasureOf(s))
    ensures NoMoreInEach(MeasureOf(Do(s, Apply(p), hasExecutor)), MeasureOf(s))
  {
    hide CacheOk, Bounded, Disjoint, Tame, IdleIds, AddedIds, CountLive, Weight, Applied, Without, Adds;
    var s' := Do(s, Apply(p), hasExecutor);
    var r := s.pending[p].result;
    EmptyCacheOk(s'.net) by { AppliedShape(s.net, r); }
    WithoutAmong(s.pending, p);
    assert ResultsAmong(s, s');
    AddedAmong(s, s', false);
    AddedAmong(s, s', true);
    AppliedIdle(s.net, r, false);
    AppliedIdle(s.net, r, true);
    AddsWaiting(s, p, false);
    AddsWaiting(s, p, true);
    AppliedCount(s, p);
    FewerWaiting(s, s');
    WeightAt(s.pending, p);
    ApplyKeepsBounded(s, s', p);
    ApplyKeepsDisjoint(s, s', p);
    TameAmong(s, s');
  }

  lemma AppliedShape(net: Net, r: ReductionResult)
    ensures Applied(net, r).cache == [] && Applied(net, r).idCounter == net.idCounter
  {
  }

  lemma {:induction false} AddsWaiting(s: Sys, p: nat, erasing: bool)
    requires p < |s.pending|
    ensures Adds(s.pending[p].result, erasing) <= Waiting(s, erasing)
  {
    assert s.pending[p] in s.pending;
  }

  lemma {:induction false} AppliedCount(s: Sys, p: nat)
    requires Tame(s) && p < |s.pending|
    ensures CountLive(Applied(s.net, s.pending[p].result).wires, Waiting(s, false)) <= CountLive(s.net.wires, Waiting(s, false))
  {
    hide Waiting, Counts;
    var r := s.pending[p].result;
    assert s.pending[p] in s.pending;
    CountDropWires(s.net.wires, SetOf(r.removeWires), Waiting(s, false));
    CountAddWires(DropWires(s.net.wires, SetOf(r.removeWires)), r.addWires, Waiting(s, false));
  }

  lemma {:induction false} ApplyKeepsBounded(s: Sys, s': Sys, p: nat)
    requires Bounded(s) && p < |s.pending|
    requires s'.net == Applied(s.net, s.pending[p].result) && s'.pending == Without(s.pending, p)
    ensures Bounded(s')
  {
    hide Drawn;
    assert s.pending[p] in s.pending;
    WithoutAmong(s.pending, p);
    hide Without;
  }

  /** The id of a node that another reduction under way adds is not among those this one adds. */
  lemma {:induction false} AddsOthers(s: Sys, p: nat, k: nat, n: Node)
    requires Disjoint(s) && p < |s.pending| && k < |s.pending| && k != p && n in s.pending[k].result.add
    ensures n.status == Idle && n.id !in s.net.nodes && forall m :: m in s.pending[p].result.add ==> m.id != n.id
  {
    assert s.pending[k] in s.pending;
    assert IdsAdded(s.pending[k]) !! IdsAdded(s.pending[p]);
    assert n.id in IdsAdded(s.pending[k]);
    forall m | m in s.pending[p].result.add
      ensures m.id != n.id
    {
      assert m.id in IdsAdded(s.pending[p]);
    }
  }

  lemma AppliedIds(net: Net, r: ReductionResult, id: Id)
    ensures id in Applied(net, r).nodes ==> id in net.nodes || exists m :: m in r.add && m.id == id
  {
  }

  lemma {:induction false} ApplyKeepsDisjoint(s: Sys, s': Sys, p: nat)
    requires Disjoint(s) && p < |s.pending|
    requires s'.net == Applied(s.net, s.pending[p].result) && s'.pending == Without(s.pending, p)
    ensures Disjoint(s')
  {
    hide Applied, IdsAdded;
    WithoutAmong(s.pending, p);
    hide Without;
    forall q, n | q in s'.pending && n in q.result.add
      ensures n.id !in s'.net.nodes && n.status == Idle
    {
      var k :| 0 <= k < |s'.pending| && s'.pending[k] == q;
      AddsOthers(s, p, if k < p then k else k + 1, n);
      AppliedIds(s.net, s.pending[p].result, n.id);
    }
    forall i, j | 0 <= i < |s'.pending| && 0 <= j < |s'.pending| && i != j
      ensures IdsAdded(s'.pending[i]) !! IdsAdded(s'.pending[j])
    {
      AddsApart(s, if i < p then i else i + 1, if j < p then j else j + 1);
    }
  }

  lemma AddsApart(s: Sys, i: nat, j: nat)
    requires Disjoint(s) && i < |s.pending| && j < |s.pending| && i != j
    ensures IdsAdded(s.pending[i]) !! IdsAdded(s.pending[j])
  {
  }

  lemma {:induction false} CollectStep(s: Sys, id: Id, hasExecutor: bool)
    requires Inv(s) && Enabled(s, Collect(id))
    ensures Inv(Do(s, Collect(id), hasExecutor))
    ensures Less(MeasureOf(Do(s, Collect(id), hasExecutor)), MeasureOf(s))
    ensures NoMoreInEach(MeasureOf(Do(s, Collect(id), hasExecutor)), MeasureOf(s))
  {
    hide CacheOk, CountLive, Weight, DropWiresOf, AddedIds, IdleIds, HasIdleDeps, Bounded, Disjoint, Tame;
    var s' := Do(s, Collect(id), hasExecutor);
    EmptyCacheOk(s'.net);
    CollectedIdle(s.net, id, false);
    CollectedIdle(s.net, id, true);
    CountDropWiresOf(s.net.wires, id, Waiting(s, false));
    FewerWaiting(s, s');
    assert s'.net.nodes.Keys == s.net.nodes.Keys - {id};
    CollectKeeps(s, s', id);
  }

  lemma {:induction false} CollectedIdle(net: Net, id: Id, erasing: bool)
    requires Dead(net, id)
    ensures IdleIds(Removed(net, id).nodes, erasing) == IdleIds(net.nodes, erasing)
  {
    hide DropWiresOf;
  }

  lemma {:induction false} CollectKeeps(s: Sys, s': Sys, id: Id)
    requires Bounded(s) && Disjoint(s) && Tame(s)
    requires s' == s.(net := Removed(s.net, id)) && Waiting(s', false) == Waiting(s, false)
    ensures Bounded(s') && Disjoint(s') && Tame(s')
  {
    hide Waiting, Drawn, Counts;
    DropWiresOfAmong(s.net.wires, id);
  }

  lemma DropWiresOfAmong(wires: seq<Wire>, id: Id)
    ensures forall w :: w in DropWiresOf(wires, id) ==> w in wires
  {
  }

  // ---- How many wires there can be ----

  function WiresComing(pending: seq<Pending>): nat {
    if pending == [] then 0
    else WiresComing(pending[..|pending| - 1]) + |pending[|pending| - 1].result.addWires|
  }

  /** No step raises this number, and there are never more wires than it says. */
  function Room(s: Sys): nat {
    |s.net.wires| + WiresComing(s.pending) + 4 * Potential(s)
  }

  lemma {:induction false} WiresComingSplit(a: seq<Pending>, b: seq<Pending>)
    ensures WiresComing(a + b) == WiresComing(a) + WiresComing(b)
  {
    if b == [] {
      assert a + b == a;
    } else {
      assert (a + b)[..|a + b| - 1] == a + b[..|b| - 1];
      WiresComingSplit(a, b[..|b| - 1]);
    }
  }

  lemma {:induction false} WiresComingOne(p: Pending)
    ensures WiresComing([p]) == |p.result.addWires|
  {
    assert [p][..0] == [];
  }

  lemma {:induction false} WiresComingAt(pending: seq<Pending>, k: nat)
    requires k < |pending|
    ensures WiresComing(pending) == WiresComing(Without(pending, k)) + |pending[k].result.addWires|
  {
    hide WiresComing;
    assert pending == pending[..k] + ([pending[k]] + pending[k + 1..]);
    WiresComingSplit(pending[..k], [pending[k]] + pending[k + 1..]);
    WiresComingSplit([pending[k]], pending[k + 1..]);
    WiresComingOne(pending[k]);
    WiresComingSplit(pending[..k], pending[k + 1..]);
  }

  lemma {:induction false} ClaimRoom(s: Sys, left: Id, right: Id, worker: string, hasExecutor: bool)
    requires Inv(s) && Claimable(Refreshed(s.net), left, right)
    ensures Room(DoClaim(s, left, right, worker, hasExecutor)) <= Room(s)
  {
    hide DoClaim, Gain, Inv, Potential, WiresComing, WellStarted, AllErasing, CacheOk, FindPair;
    var s' := DoClaim(s, left, right, worker, hasExecutor);
    var gain := Gain(s, left, right, worker, hasExecutor);
    InvParts(s);
    ClaimFacts(s, left, right, worker, hasExecutor);
    GainSmall(s, left, right, worker, hasExecutor);
    ClaimSpends(s, left, right, worker, hasExecutor);
    if s'.pending != s.pending {
      var tasks :| s'.pending == s.pending + [Pending(tasks, gain)];
      WiresComingSplit(s.pending, [Pending(tasks, gain)]);
      WiresComingOne(Pending(tasks, gain));
    }
  }

  lemma {:induction false} OtherRoom(s: Sys, a: Action, hasExecutor: bool)
    requires Inv(s) && Enabled(s, a) && !a.Claim?
    ensures Room(Do(s, a, hasExecutor)) <= Room(s)
  {
    hide Inv, Potential, WiresComing, HasIdleDeps, Settle, AddNodes;
    StepDecreases(s, a, hasExecutor);
    match a
    case Finish(p, t, outcome) =>
      var s' := Do(s, a, hasExecutor);
      WiresComingAt(s.pending, p);
      WiresComingAt(s'.pending, p);
      assert Without(s'.pending, p) == Without(s.pending, p);
    case Apply(p) =>
      var r := s.pending[p].result;
      WiresComingAt(s.pending, p);
      AddWiresSize(DropWires(s.net.wires, SetOf(r.removeWires)), r.addWires);
    case Collect(id) =>
  }

  // ---- Termination ----

  /** Every step keeps the invariant and decreases the measure; a claim decreases its first three
      places. */
  lemma {:induction false} StepDecreases(s: Sys, a: Action, hasExecutor: bool)
    requires Inv(s) && Enabled(s, a)
    ensures Inv(Do(s, a, hasExecutor))
    ensures Less(MeasureOf(Do(s, a, hasExecutor)), MeasureOf(s))
    ensures a.Claim? ==> LessInFirstThree(MeasureOf(Do(s, a, hasExecutor)), MeasureOf(s))
    ensures if a.Claim? then Potential(Do(s, a, hasExecutor)) < Potential(s) else Potential(Do(s, a, hasExecutor)) <= Potential(s)
  {
    hide Inv, MeasureOf, DoClaim;
    match a
    case Claim(left, right, worker) =>
      ClaimKeepsInv(s, left, right, worker, hasExecutor);
      ClaimDecreases(s, left, right, worker, hasExecutor);
      ClaimSpends(s, left, right, worker, hasExecutor);
    case Finish(p, t, outcome) => FinishStep(s, p, t, outcome, hasExecutor);
    case Apply(p) => ApplyStep(s, p, hasExecutor);
    case Collect(id) => CollectStep(s, id, hasExecutor);
  }

  ghost predicate Follows(states: nat -> Sys, actions: nat -> Action, hasExecutor: bool, i: nat) {
    Enabled(states(i), actions(i)) && states(i + 1) == Do(states(i), actions(i), hasExecutor)
  }

  /** Strong normalisation: no schedule of claims, task completions, applications and collections
      goes on for ever. */
  lemma {:induction false} NoEndlessSchedule(states: nat -> Sys, actions: nat -> Action, hasExecutor: bool, i: nat)
    requires Inv(states(i))
    ensures exists j :: i <= j && !Follows(states, actions, hasExecutor, j)
    decreases MeasureOf(states(i)).wires, MeasureOf(states(i)).others, MeasureOf(states(i)).erasers,
              MeasureOf(states(i)).work, MeasureOf(states(i)).nodes
  {
    if Follows(states, actions, hasExecutor, i) {
      StepDecreases(states(i), actions(i), hasExecutor);
      NoEndlessSchedule(states, actions, hasExecutor, i + 1);
    }
  }
}
