/** The interaction net: nodes with three ports, wires between ports, and the lazily rebuilt cache
    of active pairs. */
module InteractionNet {
  import opened Options

  /** Ids drawn from the net's own counter, and ids that its user chose. */
  datatype Id = Named(name: string) | Numbered(prefix: string, n: nat)

  datatype Kind = Constructor | Duplicator | Eraser

  datatype Status = Idle | Active | Reducing | Completed | Cancelled

  datatype Payload =
    | TaskPayload(description: string, agentId: string)
    | ConstructorPayload(mergeStrategy: string, arity: int)
    | DuplicatorPayload(targets: seq<string>, fanoutMode: string)
    | EraserPayload(reason: string, propagate: bool)

  datatype Node = Node(
    id: Id,
    kind: Kind,
    status: Status,
    priority: int,
    payload: Payload,
    claimedBy: Option<string>,
    result: Option<string>,
    error: Option<string>
  )

  /** Port 0 is the principal port, 1 and 2 are auxiliary. */
  datatype Port = Port(nodeId: Id, index: nat)

  datatype Wire = Wire(id: Id, from: Port, to: Port)

  datatype ActivePair = ActivePair(left: Id, right: Id, wire: Wire, priority: int)

  /** What a reduction rule asks of the net. */
  datatype ReductionResult = ReductionResult(
    remove: seq<Id>,
    add: seq<Node>,
    addWires: seq<Wire>,
    removeWires: seq<Id>
  )

  datatype Net = Net(nodes: map<Id, Node>, wires: seq<Wire>, cache: seq<ActivePair>, idCounter: nat)

  // ---- Wires, in insertion order ----

  function SetWire(wires: seq<Wire>, w: Wire): (r: seq<Wire>)
    ensures forall v :: v in r <==> v == w || (v in wires && v.id != w.id)
    ensures |r| <= |wires| + 1
  {
    if wires == [] then [w]
    else
      assert wires == [wires[0]] + wires[1..];
      if wires[0].id == w.id then [w] + DropWires(wires[1..], {w.id})
      else [wires[0]] + SetWire(wires[1..], w)
  }

  function DropWires(wires: seq<Wire>, ids: set<Id>): (r: seq<Wire>)
    ensures forall v :: v in r <==> v in wires && v.id !in ids
    ensures |r| <= |wires|
  {
    if wires == [] then []
    else
      assert wires == [wires[0]] + wires[1..];
      (if wires[0].id in ids then [] else [wires[0]]) + DropWires(wires[1..], ids)
  }

  function Touches(w: Wire, id: Id): bool {
    w.from.nodeId == id || w.to.nodeId == id
  }

  function DropWiresOf(wires: seq<Wire>, id: Id): (r: seq<Wire>)
    ensures forall v :: v in r <==> v in wires && !Touches(v, id)
    ensures |r| <= |wires|
  {
    if wires == [] then []
    else
      var front, last := wires[..|wires| - 1], wires[|wires| - 1];
      assert wires == front + [last];
      DropWiresOf(front, id) + if Touches(last, id) then [] else [last]
  }

  /** The wire has an end at the port. */
  predicate AtPort(w: Wire, nodeId: Id, index: nat) {
    || (w.from.nodeId == nodeId && w.from.index == index)
    || (w.to.nodeId == nodeId && w.to.index == index)
  }

  function OtherEnd(w: Wire, nodeId: Id): Id {
    if w.from.nodeId == nodeId then w.to.nodeId else w.from.nodeId
  }

  function FirstAtPort(wires: seq<Wire>, nodeId: Id, index: nat): (r: Option<Wire>)
    ensures r.None? <==> forall w :: w in wires ==> !AtPort(w, nodeId, index)
    ensures r.Some? ==> r.value in wires && AtPort(r.value, nodeId, index)
  {
    if wires == [] then None
    else
      assert wires == [wires[0]] + wires[1..];
      if AtPort(wires[0], nodeId, index) then Some(wires[0]) else FirstAtPort(wires[1..], nodeId, index)
  }

  /** `getConnectedNode`, by id: the far end of the oldest wire at the port, if that node exists. */
  function Connected(net: Net, nodeId: Id, index: nat): Option<Id> {
    match FirstAtPort(net.wires, nodeId, index)
    case None => None
    case Some(w) =>
      var other := OtherEnd(w, nodeId);
      if other in net.nodes then Some(other) else None
  }

  // ---- Active pairs ----

  predicate JoinsPrincipals(w: Wire) {
    w.from.index == 0 && w.to.index == 0
  }

  predicate IdleIn(nodes: map<Id, Node>, id: Id) {
    id in nodes && nodes[id].status == Idle
  }

  /** The wire makes its two ends an active pair. */
  predicate IsActive(nodes: map<Id, Node>, w: Wire) {
    JoinsPrincipals(w) && IdleIn(nodes, w.from.nodeId) && IdleIn(nodes, w.to.nodeId)
  }

  function Max(a: int, b: int): int {
    if a < b then b else a
  }

  function PairOf(nodes: map<Id, Node>, w: Wire): ActivePair
    requires IsActive(nodes, w)
  {
    ActivePair(w.from.nodeId, w.to.nodeId, w, Max(nodes[w.from.nodeId].priority, nodes[w.to.nodeId].priority))
  }

  predicate SamePair(p: ActivePair, q: ActivePair) {
    p.left == q.left && p.right == q.right
  }

  function SetPair(cache: seq<ActivePair>, p: ActivePair): (r: seq<ActivePair>)
    ensures forall q :: q in r <==> q == p || (q in cache && !SamePair(q, p))
    ensures |r| <= |cache| + 1
  {
    if cache == [] then [p]
    else
      assert cache == [cache[0]] + cache[1..];
      if SamePair(cache[0], p) then [p] + DropPair(cache[1..], p.left, p.right)
      else [cache[0]] + SetPair(cache[1..], p)
  }

  function DropPair(cache: seq<ActivePair>, left: Id, right: Id): (r: seq<ActivePair>)
    ensures forall q :: q in r <==> q in cache && !(q.left == left && q.right == right)
    ensures |r| <= |cache|
    ensures (exists q :: q in cache && q.left == left && q.right == right) ==> |r| < |cache|
  {
    if cache == [] then []
    else
      assert cache == [cache[0]] + cache[1..];
      (if cache[0].left == left && cache[0].right == right then [] else [cache[0]]) + DropPair(cache[1..], left, right)
  }

  function FindPair(cache: seq<ActivePair>, left: Id, right: Id): (r: Option<ActivePair>)
    ensures r.None? <==> forall q :: q in cache ==> !(q.left == left && q.right == right)
    ensures r.Some? ==> r.value in cache && r.value.left == left && r.value.right == right
  {
    if cache == [] then None
    else
      assert cache == [cache[0]] + cache[1..];
      if cache[0].left == left && cache[0].right == right then Some(cache[0]) else FindPair(cache[1..], left, right)
  }

  /** The pairs that a scan of the wires finds. */
  function Scan(nodes: map<Id, Node>, wires: seq<Wire>): (r: seq<ActivePair>)
    ensures |r| <= |wires|
  {
    if wires == [] then []
    else
      var last := wires[|wires| - 1];
      var found := Scan(nodes, wires[..|wires| - 1]);
      if IsActive(nodes, last) then SetPair(found, PairOf(nodes, last)) else found
  }

  /** `w` is represented in the cache. */
  ghost predicate Covered(cache: seq<ActivePair>, w: Wire) {
    exists p :: p in cache && p.left == w.from.nodeId && p.right == w.to.nodeId
  }

  /** A cached pair comes from a wire of the net between two of its nodes. */
  ghost predicate Grounded(nodes: map<Id, Node>, wires: seq<Wire>, p: ActivePair) {
    && p.wire in wires && JoinsPrincipals(p.wire)
    && p.left == p.wire.from.nodeId && p.right == p.wire.to.nodeId
    && p.left in nodes && p.right in nodes
  }

  /** A cache that is not empty omits no active pair, and everything in it is grounded. */
  ghost predicate CacheOk(net: Net) {
    && (net.cache != [] ==> forall w :: w in net.wires && IsActive(net.nodes, w) ==> Covered(net.cache, w))
    && (forall p :: p in net.cache ==> Grounded(net.nodes, net.wires, p))
  }

  lemma {:induction false} ScanIsExact(nodes: map<Id, Node>, wires: seq<Wire>)
    ensures forall w :: w in wires && IsActive(nodes, w) ==> Covered(Scan(nodes, wires), w)
    ensures forall p :: p in Scan(nodes, wires) ==> Grounded(nodes, wires, p) && IsActive(nodes, p.wire)
  {
    if wires == [] {
    } else {
      var front, last := wires[..|wires| - 1], wires[|wires| - 1];
      assert wires == front + [last];
      ScanIsExact(nodes, front);
      var found := Scan(nodes, front);
      var all := Scan(nodes, wires);
      forall w | w in wires && IsActive(nodes, w)
        ensures Covered(all, w)
      {
        if IsActive(nodes, last) {
          var p := PairOf(nodes, last);
          assert p in all;
          if w != last {
            var q :| q in found && q.left == w.from.nodeId && q.right == w.to.nodeId;
            assert q in all || SamePair(q, p);
          }
        }
      }
    }
  }

  // ---- Operations on the net ----

  /** The net once `findActivePairs` has returned: it returns the cache. */
  function Refreshed(net: Net): Net {
    if net.cache != [] then net else net.(cache := Scan(net.nodes, net.wires))
  }

  function WithStatus(nodes: map<Id, Node>, id: Id, status: Status, worker: Option<string>): map<Id, Node>
    requires id in nodes
  {
    nodes[id := nodes[id].(status := status, claimedBy := worker)]
  }

  predicate Claimable(net: Net, left: Id, right: Id) {
    FindPair(net.cache, left, right).Some? && IdleIn(net.nodes, left) && IdleIn(net.nodes, right)
  }

  /** The net after `claimPair`. */
  function Claimed(net: Net, left: Id, right: Id, worker: string): Net {
    if Claimable(net, left, right) then
      var nodes := WithStatus(net.nodes, left, Reducing, Some(worker));
      net.(nodes := WithStatus(nodes, right, Reducing, Some(worker)), cache := DropPair(net.cache, left, right))
    else net.(cache := DropPair(net.cache, left, right))
  }

  function AddNodes(nodes: map<Id, Node>, add: seq<Node>): (r: map<Id, Node>)
    ensures forall id :: id in r <==> id in nodes || exists n :: n in add && n.id == id
    ensures forall id :: id in r ==> (id in nodes && r[id] == nodes[id]) || (exists n :: n in add && n.id == id && r[id] == n)
  {
    if add == [] then nodes
    else
      var front, last := add[..|add| - 1], add[|add| - 1];
      assert add == front + [last];
      AddNodes(nodes, front)[last.id := last]
  }

  function AddWires(wires: seq<Wire>, add: seq<Wire>): (r: seq<Wire>)
    ensures forall w :: w in r ==> w in wires || w in add
  {
    if add == [] then wires
    else
      assert add == add[..|add| - 1] + [add[|add| - 1]];
      SetWire(AddWires(wires, add[..|add| - 1]), add[|add| - 1])
  }

  lemma {:induction false} AddWiresSize(wires: seq<Wire>, add: seq<Wire>)
    ensures |AddWires(wires, add)| <= |wires| + |add|
  {
    if add == [] {
    } else {
      AddWiresSize(wires, add[..|add| - 1]);
    }
  }

  function SetOf(ids: seq<Id>): set<Id> {
    set id | id in ids
  }

  /** The net after `applyReduction`: wires of removed nodes stay where they are. */
  function Applied(net: Net, r: ReductionResult): Net {
    Net(AddNodes(net.nodes - SetOf(r.remove), r.add),
        AddWires(DropWires(net.wires, SetOf(r.removeWires)), r.addWires),
        [], net.idCounter)
  }

  function Removed(net: Net, id: Id): Net {
    if id in net.nodes then Net(net.nodes - {id}, DropWiresOf(net.wires, id), [], net.idCounter) else net
  }

  lemma {:induction false} RefreshedOk(net: Net)
    requires CacheOk(net)
    ensures CacheOk(Refreshed(net))
    ensures Refreshed(net).cache == [] ==> forall w :: w in net.wires ==> !IsActive(net.nodes, w)
  {
    ScanIsExact(net.nodes, net.wires);
    if Refreshed(net).cache == [] {
      forall w | w in net.wires
        ensures !IsActive(net.nodes, w)
      {
        assert !Covered([], w);
      }
    }
  }

  /** Claiming only takes nodes out of `idle`. */
  lemma {:induction false} ClaimedStaysInactive(net: Net, left: Id, right: Id, worker: string, w: Wire)
    ensures var net' := Claimed(net, left, right, worker);
      && net'.nodes.Keys == net.nodes.Keys && net'.wires == net.wires
      && (IsActive(net'.nodes, w) ==> IsActive(net.nodes, w))
      && (IsActive(net'.nodes, w) && Claimable(net, left, right) ==> !(w.from.nodeId == left && w.to.nodeId == right))
  {
    hide FindPair, DropPair;
  }

  /** What stays active stays covered. */
  lemma {:induction false} ClaimedOk(net: Net, left: Id, right: Id, worker: string)
    requires CacheOk(net)
    ensures CacheOk(Claimed(net, left, right, worker))
  {
    hide FindPair, DropPair, IsActive, WithStatus, IdleIn;
    var net' := Claimed(net, left, right, worker);
    DropPairKeeps(net.cache, left, right);
    forall w | net'.cache != [] && w in net'.wires && IsActive(net'.nodes, w)
      ensures Covered(net'.cache, w)
    {
      ClaimedStaysInactive(net, left, right, worker, w);
      assert Covered(net.cache, w);
      var p :| p in net.cache && p.left == w.from.nodeId && p.right == w.to.nodeId;
      if p.left == left && p.right == right {
        assert FindPair(net.cache, left, right).Some? by { CachedIsFound(net.cache, p); }
        CachedButNotClaimable(net, left, right, w);
        assert false;
      }
      assert p in net'.cache;
    }
    forall p | p in net'.cache
      ensures Grounded(net'.nodes, net'.wires, p)
    {
      ClaimedStaysInactive(net, left, right, worker, p.wire);
      assert Grounded(net.nodes, net.wires, p);
    }
  }

  lemma CachedButNotClaimable(net: Net, left: Id, right: Id, w: Wire)
    requires !Claimable(net, left, right) && FindPair(net.cache, left, right).Some?
    requires w.from.nodeId == left && w.to.nodeId == right
    ensures !IsActive(net.nodes, w)
  {
  }

  lemma CachedIsFound(cache: seq<ActivePair>, p: ActivePair)
    requires p in cache
    ensures FindPair(cache, p.left, p.right).Some?
  {
  }

  lemma {:induction false} DropPairKeeps(cache: seq<ActivePair>, left: Id, right: Id)
    ensures DropPair(cache, left, right) != [] ==> cache != []
  {
    if DropPair(cache, left, right) != [] {
      assert DropPair(cache, left, right)[0] in cache;
    }
  }

  lemma EmptyCacheOk(net: Net)
    requires net.cache == []
    ensures CacheOk(net)
  {
  }

  method KeepUntouched(wires: seq<Wire>, id: Id) returns (kept: seq<Wire>)
    ensures kept == DropWiresOf(wires, id)
  {
    kept := [];
    for i := 0 to |wires|
      invariant kept == DropWiresOf(wires[..i], id)
    {
      assert wires[..i + 1][..i] == wires[..i];
      if !Touches(wires[i], id) {
        kept := kept + [wires[i]];
      }
    }
    assert wires[..|wires|] == wires;
  }

  class InteractionNet {
    var nodes: map<Id, Node>
    var wires: seq<Wire>
    var activePairCache: seq<ActivePair>
    var idCounter: nat

    function State(): Net
      reads this
    {
      Net(nodes, wires, activePairCache, idCounter)
    }

    constructor ()
      ensures State() == Net(map[], [], [], 0)
    {
      nodes, wires, activePairCache, idCounter := map[], [], [], 0;
    }

    method NextId(prefix: string) returns (id: Id)
      modifies `idCounter
      ensures id == Numbered(prefix, idCounter) && idCounter == old(idCounter) + 1
    {
      idCounter := idCounter + 1;
      id := Numbered(prefix, idCounter);
    }

    method AddNode(node: Node)
      modifies this
      ensures State() == old(State()).(nodes := old(nodes)[node.id := node], cache := [])
      ensures CacheOk(State())
    {
      nodes := nodes[node.id := node];
      activePairCache := [];
    }

    method RemoveNode(id: Id) returns (node: Option<Node>)
      requires CacheOk(State())
      modifies this
      ensures State() == Removed(old(State()), id) && CacheOk(State())
      ensures node == if id in old(nodes) then Some(old(nodes)[id]) else None
    {
      if id !in nodes {
        return None;
      }
      node := Some(nodes[id]);
      wires := KeepUntouched(wires, id);
      nodes := nodes - {id};
      activePairCache := [];
    }

    method Connect(from: Port, to: Port) returns (wire: Wire)
      modifies this
      ensures wire == Wire(Numbered("w", old(idCounter) + 1), from, to)
      ensures State() == Net(old(nodes), SetWire(old(wires), wire), [], old(idCounter) + 1)
      ensures CacheOk(State())
    {
      var id := NextId("w");
      wire := Wire(id, from, to);
      wires := SetWire(wires, wire);
      activePairCache := [];
    }

    method RemoveWire(id: Id) returns (existed: bool)
      requires CacheOk(State())
      modifies this
      ensures existed <==> exists w :: w in old(wires) && w.id == id
      ensures State() == if existed then old(State()).(wires := DropWires(old(wires), {id}), cache := []) else old(State())
      ensures CacheOk(State())
    {
      existed := false;
      for i := 0 to |wires|
        invariant existed <==> exists w :: w in wires[..i] && w.id == id
      {
        assert wires[..i + 1] == wires[..i] + [wires[i]];
        if wires[i].id == id {
          existed := true;
        }
      }
      assert wires[..|wires|] == wires;
      if existed {
        wires := DropWires(wires, {id});
        activePairCache := [];
      }
    }

    method FindActivePairs() returns (pairs: seq<ActivePair>)
      requires CacheOk(State())
      modifies `activePairCache
      ensures State() == Refreshed(old(State())) && CacheOk(State())
      ensures pairs == activePairCache
      ensures forall w :: w in wires && IsActive(nodes, w) ==> Covered(pairs, w)
    {
      ghost var net := State();
      if |activePairCache| > 0 {
        return activePairCache;
      }
      for i := 0 to |wires|
        invariant activePairCache == Scan(nodes, wires[..i])
      {
        assert wires[..i + 1][..i] == wires[..i];
        if IsActive(nodes, wires[i]) {
          activePairCache := SetPair(activePairCache, PairOf(nodes, wires[i]));
        }
      }
      assert wires[..|wires|] == wires;
      ScanIsExact(nodes, wires);
      RefreshedOk(net);
      pairs := activePairCache;
    }

    method ClaimPair(left: Id, right: Id, worker: string) returns (pair: Option<ActivePair>)
      requires CacheOk(State())
      modifies this
      ensures State() == Claimed(old(State()), left, right, worker) && CacheOk(State())
      ensures pair.Some? <==> Claimable(old(State()), left, right)
      ensures pair.Some? ==> pair == FindPair(old(activePairCache), left, right)
    {
      ClaimedOk(State(), left, right, worker);
      pair := FindPair(activePairCache, left, right);
      if pair.None? {
        DropAbsent(activePairCache, left, right);
        return;
      }
      if nodes[left].status != Idle || nodes[right].status != Idle {
        activePairCache := DropPair(activePairCache, left, right);
        pair := None;
        return;
      }
      nodes := nodes[left := nodes[left].(status := Reducing, claimedBy := Some(worker))];
      nodes := nodes[right := nodes[right].(status := Reducing, claimedBy := Some(worker))];
      activePairCache := DropPair(activePairCache, left, right);
    }

    method ApplyReduction(r: ReductionResult)
      modifies this
      ensures State() == Applied(old(State()), r) && CacheOk(State())
    {
      nodes := nodes - SetOf(r.remove);
      wires := DropWires(wires, SetOf(r.removeWires));
      ghost var nodes0, wires0 := nodes, wires;
      for i := 0 to |r.add|
        invariant nodes == AddNodes(nodes0, r.add[..i]) && wires == wires0 && idCounter == old(idCounter)
      {
        assert r.add[..i + 1][..i] == r.add[..i];
        nodes := nodes[r.add[i].id := r.add[i]];
      }
      assert r.add[..|r.add|] == r.add;
      for i := 0 to |r.addWires|
        invariant wires == AddWires(wires0, r.addWires[..i]) && nodes == AddNodes(nodes0, r.add) && idCounter == old(idCounter)
      {
        assert r.addWires[..i + 1][..i] == r.addWires[..i];
        wires := SetWire(wires, r.addWires[i]);
      }
      assert r.addWires[..|r.addWires|] == r.addWires;
      activePairCache := [];
    }

    /** True only when no pair is active. It is true exactly when, besides, no stale pair is left
        in the cache. */
    method IsNormalForm() returns (normal: bool)
      requires CacheOk(State())
      modifies `activePairCache
      ensures State() == Refreshed(old(State())) && CacheOk(State())
      ensures normal <==> old(activePairCache) == [] && forall w :: w in wires ==> !IsActive(nodes, w)
    {
      ghost var net := State();
      var pairs := FindActivePairs();
      normal := |pairs| == 0;
      RefreshedOk(net);
      if !normal && net.cache == [] {
        ScanIsExact(nodes, wires);
        assert pairs[0] in pairs && IsActive(nodes, pairs[0].wire);
      }
    }

    method GetConnectedNode(nodeId: Id, index: nat) returns (r: Option<Id>)
      ensures r == Connected(State(), nodeId, index)
    {
      for i := 0 to |wires|
        invariant FirstAtPort(wires, nodeId, index) == FirstAtPort(wires[i..], nodeId, index)
      {
        assert wires[i..][1..] == wires[i + 1..];
        if AtPort(wires[i], nodeId, index) {
          var other := OtherEnd(wires[i], nodeId);
          return if other in nodes then Some(other) else None;
        }
      }
      return None;
    }
  }

  lemma {:induction false} DropAbsent(cache: seq<ActivePair>, left: Id, right: Id)
    requires forall q :: q in cache ==> !(q.left == left && q.right == right)
    ensures DropPair(cache, left, right) == cache
    decreases |cache|
  {
    if cache == [] {
    } else {
      assert cache == [cache[0]] + cache[1..];
      DropAbsent(cache[1..], left, right);
    }
  }
}
