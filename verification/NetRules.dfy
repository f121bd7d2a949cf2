/** What each rule makes of the net: the nodes and wires after a pair is claimed and its result applied. */
module NetRules {
  import opened Options
  import opened InteractionNet
  import opened NetScheduler
  import opened NetTermination

  /** The pair is claimed, and what its rule asks of the net is done at once. */
  ghost predicate Reduces(s: Sys, left: Id, right: Id, worker: string, hasExecutor: bool, s': Sys)
    requires Claimable(Refreshed(s.net), left, right)
  {
    var claimed := Do(s, Claim(left, right, worker), hasExecutor);
    && claimed.pending != [] && claimed.pending[..|claimed.pending| - 1] == s.pending
    && Enabled(claimed, Apply(|claimed.pending| - 1))
    && s' == Do(claimed, Apply(|claimed.pending| - 1), hasExecutor)
  }

  /** The pair and its wire are gone, just `nodes` and `wires` are new, and the rest is as it was. A
      wire whose id is given to a new one is replaced by it. */
  ghost predicate Rewrites(net: Net, net': Net, left: Id, right: Id, pairWire: Wire, nodes: seq<Node>, wires: seq<Wire>) {
    && (forall id :: id in net'.nodes <==> (id in net.nodes && id != left && id != right) || exists n :: n in nodes && n.id == id)
    && (forall n :: n in nodes ==> n.id !in net.nodes && n.id in net'.nodes && net'.nodes[n.id] == n)
    && (forall id :: id in net.nodes && id in net'.nodes ==> net'.nodes[id] == net.nodes[id])
    && (forall w :: w in net'.wires <==>
          w in wires || (w in net.wires && w.id != pairWire.id && forall v :: v in wires ==> v.id != w.id))
  }

  ghost predicate JoinsPair(net: Net, w: Wire, left: Id, right: Id) {
    w in net.wires && JoinsPrincipals(w) && w.from.nodeId == left && w.to.nodeId == right
  }

  // ---- Applying a result ----

  ghost predicate DistinctNodes(nodes: seq<Node>) {
    forall i, j :: 0 <= i < j < |nodes| ==> nodes[i].id != nodes[j].id
  }

  ghost predicate DistinctWires(wires: seq<Wire>) {
    forall i, j :: 0 <= i < j < |wires| ==> wires[i].id != wires[j].id
  }

  lemma {:induction false} AddNodesOf(nodes: map<Id, Node>, add: seq<Node>)
    requires DistinctNodes(add)
    ensures forall n :: n in add ==> n.id in AddNodes(nodes, add) && AddNodes(nodes, add)[n.id] == n
  {
    forall n | n in add
      ensures n.id in AddNodes(nodes, add) && AddNodes(nodes, add)[n.id] == n
    {
      AddNodesAt(nodes, add, n);
    }
  }

  lemma {:induction false} AddNodesAt(nodes: map<Id, Node>, add: seq<Node>, n: Node)
    requires DistinctNodes(add) && n in add
    ensures n.id in AddNodes(nodes, add) && AddNodes(nodes, add)[n.id] == n
    decreases |add|
  {
    var front, last := add[..|add| - 1], add[|add| - 1];
    assert add == front + [last];
    if n != last {
      AddNodesAt(nodes, front, n);
    }
  }

  lemma {:induction false} AddWiresOf(wires: seq<Wire>, add: seq<Wire>, w: Wire)
    requires DistinctWires(add)
    ensures w in AddWires(wires, add) <==> w in add || (w in wires && forall v :: v in add ==> v.id != w.id)
    decreases |add|
  {
    if add == [] {
    } else {
      var front, last := add[..|add| - 1], add[|add| - 1];
      assert add == front + [last];
      AddWiresOf(wires, front, w);
    }
  }

  /** The result of the rule, for a claimed pair that runs no task. */
  lemma {:induction false} ClaimThenApply(s: Sys, left: Id, right: Id, worker: string, hasExecutor: bool, s': Sys, w: Wire, r: Reduction)
    requires Claimable(Refreshed(s.net), left, right) && Reduces(s, left, right, worker, hasExecutor, s')
    requires FindPair(Refreshed(s.net).cache, left, right).value.wire == w
    requires var claimed := Claimed(Refreshed(s.net), left, right, worker);
      StartRule(Select(claimed.nodes[left].payload, claimed.nodes[right].payload), claimed,
                FindPair(Refreshed(s.net).cache, left, right).value, hasExecutor) == Starts([], r)
    ensures s'.net == Applied(Claimed(Refreshed(s.net), left, right, worker).(idCounter := r.counter), r.result)
  {
    hide StartRule, Select, FindPair, Claimed, Applied;
  }

  lemma {:induction false} AppliedRewrites(net: Net, left: Id, right: Id, worker: string, w: Wire, r: Reduction)
    requires Claimable(net, left, right)
    requires forall id :: id in net.nodes ==> Drawn(id, net.idCounter)
    requires r.result.remove == [left, right] || r.result.remove == [right, left]
    requires r.result.removeWires == [w.id]
    requires DistinctNodes(r.result.add) && DistinctWires(r.result.addWires)
    requires forall n :: n in r.result.add ==> !Drawn(n.id, net.idCounter)
    ensures Rewrites(net, Applied(Claimed(net, left, right, worker).(idCounter := r.counter), r.result), left, right, w,
                     r.result.add, r.result.addWires)
  {
    hide Claimable, FindPair, DropPair, Claimed, AddNodes, AddWires, DropWires;
    var net' := Applied(Claimed(net, left, right, worker).(idCounter := r.counter), r.result);
    var kept := Claimed(net, left, right, worker).nodes - SetOf(r.result.remove);
    ClaimedNodes(net, left, right, worker);
    assert SetOf(r.result.remove) == {left, right} && SetOf(r.result.removeWires) == {w.id};
    AddNodesOf(kept, r.result.add);
    forall v
      ensures v in net'.wires <==>
        v in r.result.addWires || (v in net.wires && v.id != w.id && forall u :: u in r.result.addWires ==> u.id != v.id)
    {
      AddWiresOf(DropWires(net.wires, {w.id}), r.result.addWires, v);
    }
  }

  lemma {:induction false} ClaimedNodes(net: Net, left: Id, right: Id, worker: string)
    requires Claimable(net, left, right)
    ensures var c := Claimed(net, left, right, worker);
      && c.wires == net.wires && c.idCounter == net.idCounter && c.nodes.Keys == net.nodes.Keys
      && (forall id :: id in net.nodes && id != left && id != right ==> c.nodes[id] == net.nodes[id])
      && c.nodes[left] == net.nodes[left].(status := Reducing, claimedBy := Some(worker))
      && c.nodes[right] == net.nodes[right].(status := Reducing, claimedBy := Some(worker))
  {
    hide FindPair, DropPair;
  }

  // ---- What a claim starts ----

  ghost function Started(s: Sys, left: Id, right: Id, worker: string, hasExecutor: bool): Start
    requires Claimable(Refreshed(s.net), left, right)
  {
    var claimed := Claimed(Refreshed(s.net), left, right, worker);
    StartRule(Select(claimed.nodes[left].payload, claimed.nodes[right].payload), claimed,
              FindPair(Refreshed(s.net).cache, left, right).value, hasExecutor)
  }

  lemma {:induction false} PairWire(s: Sys, left: Id, right: Id) returns (pair: ActivePair)
    requires Inv(s) && Claimable(Refreshed(s.net), left, right)
    ensures FindPair(Refreshed(s.net).cache, left, right) == Some(pair)
    ensures pair.left == left && pair.right == right && JoinsPair(s.net, pair.wire, left, right)
  {
    RefreshedOk(s.net);
    pair := FindPair(Refreshed(s.net).cache, left, right).value;
    assert Grounded(s.net.nodes, s.net.wires, pair);
  }

  lemma ClaimableThere(net: Net, left: Id, right: Id)
    requires Claimable(Refreshed(net), left, right)
    ensures left in net.nodes && right in net.nodes
  {
  }

  lemma InvDrawn(s: Sys)
    requires Inv(s)
    ensures forall id :: id in s.net.nodes ==> Drawn(id, s.net.idCounter)
    ensures forall w :: w in s.net.wires ==> Drawn(w.from.nodeId, s.net.idCounter) && Drawn(w.to.nodeId, s.net.idCounter)
  {
  }

  lemma SameButCache(net: Net)
    ensures Refreshed(net) == net.(cache := Refreshed(net).cache)
  {
  }

  lemma RefreshedRewrites(net: Net, net': Net, left: Id, right: Id, w: Wire, nodes: seq<Node>, wires: seq<Wire>)
    requires Rewrites(Refreshed(net), net', left, right, w, nodes, wires)
    ensures Rewrites(net, net', left, right, w, nodes, wires)
  {
  }

  /** A rule that runs no task rewrites the net by its result. */
  lemma {:induction false} ReductionRewrites(s: Sys, left: Id, right: Id, worker: string, hasExecutor: bool, s': Sys, pair: ActivePair, r: Reduction)
    requires Inv(s) && Claimable(Refreshed(s.net), left, right) && Reduces(s, left, right, worker, hasExecutor, s')
    requires FindPair(Refreshed(s.net).cache, left, right) == Some(pair)
    requires Started(s, left, right, worker, hasExecutor) == Starts([], r)
    requires r.result.remove == [left, right] || r.result.remove == [right, left]
    requires r.result.removeWires == [pair.wire.id]
    requires DistinctNodes(r.result.add) && DistinctWires(r.result.addWires)
    requires forall n :: n in r.result.add ==> !Drawn(n.id, s.net.idCounter)
    ensures Rewrites(s.net, s'.net, left, right, pair.wire, r.result.add, r.result.addWires)
  {
    hide Reduces, Rewrites, Claimable, FindPair, Inv, Select, StartRule, Claimed, Applied, Drawn, Refreshed, DistinctNodes, DistinctWires;
    InvDrawn(s);
    SameButCache(s.net);
    ClaimThenApply(s, left, right, worker, hasExecutor, s', pair.wire, r);
    AppliedRewrites(Refreshed(s.net), left, right, worker, pair.wire, r);
    RefreshedRewrites(s.net, s'.net, left, right, pair.wire, r.result.add, r.result.addWires);
  }

  /** The rule is computed over the claimed net. */
  lemma {:induction false} StartedOver(s: Sys, left: Id, right: Id, worker: string, hasExecutor: bool, pair: ActivePair)
    requires Claimable(Refreshed(s.net), left, right) && FindPair(Refreshed(s.net).cache, left, right) == Some(pair)
    ensures var claimed := Claimed(Refreshed(s.net), left, right, worker);
      && Started(s, left, right, worker, hasExecutor)
           == StartRule(Selected(s.net.nodes[left].payload, s.net.nodes[right].payload), claimed, pair, hasExecutor)
      && claimed.idCounter == s.net.idCounter && claimed.wires == s.net.wires && claimed.nodes.Keys == s.net.nodes.Keys
      && (forall id :: id in s.net.nodes && id != left && id != right ==> claimed.nodes[id] == s.net.nodes[id])
      && claimed.nodes[left] == s.net.nodes[left].(status := Reducing, claimedBy := Some(worker))
      && claimed.nodes[right] == s.net.nodes[right].(status := Reducing, claimedBy := Some(worker))
  {
    hide StartRule, Select, FindPair;
    ClaimedNodes(Refreshed(s.net), left, right, worker);
    SelectIsSelected(s.net.nodes[left].payload, s.net.nodes[right].payload);
  }

  /** A pair without a task is reduced without waiting. */
  lemma {:induction false} ReducesAtOnce(s: Sys, left: Id, right: Id, worker: string, hasExecutor: bool) returns (s': Sys)
    requires Inv(s) && Claimable(Refreshed(s.net), left, right)
    requires !s.net.nodes[left].payload.TaskPayload? && !s.net.nodes[right].payload.TaskPayload?
    ensures Reduces(s, left, right, worker, hasExecutor, s')
  {
    hide Inv, FindPair, Claimed, Refreshed, Claimable, Select, JoinsPair, CrossConnect, Commute, Erase, Annihilate, Applied;
    var pair := PairWire(s, left, right);
    StartedOver(s, left, right, worker, hasExecutor, pair);
    var claimed := Do(s, Claim(left, right, worker), hasExecutor);
    assert claimed.pending[..|claimed.pending| - 1] == s.pending;
    s' := Do(claimed, Apply(|claimed.pending| - 1), hasExecutor);
  }

  // ---- Annihilation ----

  /** Two constructors or two duplicators leave a wire between their first auxiliary ports and one
      between their second; two erasers leave nothing. */
  lemma {:induction false} Annihilates(s: Sys, left: Id, right: Id, worker: string, hasExecutor: bool, s': Sys) returns (w: Wire)
    requires Inv(s) && Claimable(Refreshed(s.net), left, right) && Reduces(s, left, right, worker, hasExecutor, s')
    requires var l, r := s.net.nodes[left].payload, s.net.nodes[right].payload;
      || (l.ConstructorPayload? && r.ConstructorPayload?) || (l.DuplicatorPayload? && r.DuplicatorPayload?)
      || (l.EraserPayload? && r.EraserPayload?)
    ensures JoinsPair(s.net, w, left, right)
    ensures var c := s.net.idCounter;
      Rewrites(s.net, s'.net, left, right, w, [],
        if s.net.nodes[left].payload.EraserPayload? then []
        else [Wire(Numbered("w", c + 1), Port(left, 1), Port(right, 1)), Wire(Numbered("w", c + 2), Port(left, 2), Port(right, 2))])
  {
    hide Reduces, Rewrites, Claimable, FindPair, Inv, JoinsPair, Started, Claimed, Refreshed;
    var pair := PairWire(s, left, right);
    w := pair.wire;
    StartedOver(s, left, right, worker, hasExecutor, pair);
    ReductionRewrites(s, left, right, worker, hasExecutor, s', pair, Started(s, left, right, worker, hasExecutor).reduction);
  }

  // ---- Commutation ----

  function NewNode(prefix: string, n: nat, kind: Kind, payload: Payload, priority: int): Node {
    Node(Numbered(prefix, n), kind, Idle, priority, payload, None, None, None)
  }

  /** Which end of the pair a rule takes for the constructor goes by the kinds alone. */
  ghost function Ends(net: Net, left: Id, right: Id): (Id, Id)
    requires left in net.nodes
  {
    if net.nodes[left].kind == Constructor then (left, right) else (right, left)
  }

  /** The first two nodes are copies of the constructor, the other two of the duplicator. Each copy of
      the constructor has one copy of the duplicator at each auxiliary port, and these have the
      first constructor at the principal port and the second at the first auxiliary one. */
  ghost predicate CrossWired(net: Net, c1: Id, c2: Id, d1: Id, d2: Id) {
    && Connected(net, c1, 1) == Some(d1) && Connected(net, c1, 2) == Some(d2)
    && Connected(net, c2, 1) == Some(d1) && Connected(net, c2, 2) == Some(d2)
    && Connected(net, d1, 0) == Some(c1) && Connected(net, d1, 1) == Some(c2)
    && Connected(net, d2, 0) == Some(c1) && Connected(net, d2, 1) == Some(c2)
  }

  function Copies(con: Node, dup: Node, c: nat): seq<Node> {
    [NewNode("c", c + 1, Constructor, con.payload, con.priority), NewNode("c", c + 2, Constructor, con.payload, con.priority),
     NewNode("d", c + 3, Duplicator, dup.payload, dup.priority), NewNode("d", c + 4, Duplicator, dup.payload, dup.priority)]
  }

  function CrossWires(c: nat): seq<Wire> {
    var c1, c2, d1, d2 := Numbered("c", c + 1), Numbered("c", c + 2), Numbered("d", c + 3), Numbered("d", c + 4);
    [Wire(Numbered("w", c + 5), Port(c1, 1), Port(d1, 0)), Wire(Numbered("w", c + 6), Port(c1, 2), Port(d2, 0)),
     Wire(Numbered("w", c + 7), Port(c2, 1), Port(d1, 1)), Wire(Numbered("w", c + 8), Port(c2, 2), Port(d2, 1))]
  }

  /** A constructor and a duplicator pass through each other: two idle copies of each are the only new
      nodes, wired crosswise. */
  lemma {:induction false} Commutes(s: Sys, left: Id, right: Id, worker: string, hasExecutor: bool, s': Sys) returns (w: Wire)
    requires Inv(s) && Claimable(Refreshed(s.net), left, right) && Reduces(s, left, right, worker, hasExecutor, s')
    requires var l, r := s.net.nodes[left].payload, s.net.nodes[right].payload;
      (l.ConstructorPayload? && r.DuplicatorPayload?) || (l.DuplicatorPayload? && r.ConstructorPayload?)
    ensures JoinsPair(s.net, w, left, right)
    ensures var c, ends := s.net.idCounter, Ends(s.net, left, right);
      && Rewrites(s.net, s'.net, left, right, w, Copies(s.net.nodes[ends.0], s.net.nodes[ends.1], c), CrossWires(c))
      && CrossWired(s'.net, Numbered("c", c + 1), Numbered("c", c + 2), Numbered("d", c + 3), Numbered("d", c + 4))
  {
    hide Reduces, Rewrites, Claimable, FindPair, Inv, JoinsPair, Started, Claimed, Refreshed, CrossWired, CrossWires, Copies, Commute;
    var pair := PairWire(s, left, right);
    w := pair.wire;
    ClaimableThere(s.net, left, right);
    var c, ends := s.net.idCounter, Ends(s.net, left, right);
    StartedOver(s, left, right, worker, hasExecutor, pair);
    var claimed := Claimed(Refreshed(s.net), left, right, worker);
    CommuteMakes(ends.0, claimed.nodes[ends.0], ends.1, claimed.nodes[ends.1], w, c);
    SameCopies(s.net, claimed, ends.0, ends.1, c);
    ReductionRewrites(s, left, right, worker, hasExecutor, s', pair, Started(s, left, right, worker, hasExecutor).reduction);
    InvDrawn(s);
    WiredCrosswise(s.net, s'.net, left, right, w, s.net.nodes[ends.0], s.net.nodes[ends.1], c);
  }

  lemma CommuteMakes(con: Id, conNode: Node, dup: Id, dupNode: Node, wire: Wire, c: nat)
    ensures var r := Commute(con, conNode, dup, dupNode, wire, c).result;
      && r.add == Copies(conNode, dupNode, c) && r.addWires == CrossWires(c)
      && r.remove == [con, dup] && r.removeWires == [wire.id]
    ensures DistinctNodes(Copies(conNode, dupNode, c)) && DistinctWires(CrossWires(c))
    ensures forall n :: n in Copies(conNode, dupNode, c) ==> !Drawn(n.id, c)
  {
  }

  lemma SameCopies(net: Net, claimed: Net, con: Id, dup: Id, c: nat)
    requires con in net.nodes && dup in net.nodes && con in claimed.nodes && dup in claimed.nodes
    requires claimed.nodes[con].payload == net.nodes[con].payload && claimed.nodes[con].priority == net.nodes[con].priority
    requires claimed.nodes[dup].payload == net.nodes[dup].payload && claimed.nodes[dup].priority == net.nodes[dup].priority
    ensures Copies(claimed.nodes[con], claimed.nodes[dup], c) == Copies(net.nodes[con], net.nodes[dup], c)
  {
  }

  lemma {:induction false} WiredCrosswise(net: Net, net': Net, left: Id, right: Id, w: Wire, con: Node, dup: Node, c: nat)
    requires forall v :: v in net.wires ==> Drawn(v.from.nodeId, c) && Drawn(v.to.nodeId, c)
    requires Rewrites(net, net', left, right, w, Copies(con, dup, c), CrossWires(c))
    ensures CrossWired(net', Numbered("c", c + 1), Numbered("c", c + 2), Numbered("d", c + 3), Numbered("d", c + 4))
  {
    hide Rewrites, Connected, FirstAtPort, Drawn, Copies, CrossWires;
    CopiesThere(net, net', left, right, w, con, dup, c);
    for k := 0 to 4
      invariant forall j :: 0 <= j < k ==> var v := CrossWires(c)[j];
        Connected(net', v.from.nodeId, v.from.index) == Some(v.to.nodeId) && Connected(net', v.to.nodeId, v.to.index) == Some(v.from.nodeId)
    {
      EachEnd(c, k);
      var v := CrossWires(c)[k];
      NewPort(net, net', left, right, w, Copies(con, dup, c), CrossWires(c), c, v.from.nodeId, v.from.index, k);
      NewPort(net, net', left, right, w, Copies(con, dup, c), CrossWires(c), c, v.to.nodeId, v.to.index, k);
    }
    CrosswiseEnds(net', c);
  }

  lemma CrosswiseEnds(net: Net, c: nat)
    requires forall j :: 0 <= j < |CrossWires(c)| ==> var v := CrossWires(c)[j];
      Connected(net, v.from.nodeId, v.from.index) == Some(v.to.nodeId) && Connected(net, v.to.nodeId, v.to.index) == Some(v.from.nodeId)
    ensures CrossWired(net, Numbered("c", c + 1), Numbered("c", c + 2), Numbered("d", c + 3), Numbered("d", c + 4))
  {
    hide Connected;
    var ws := CrossWires(c);
    assert ws[0] == CrossWires(c)[0] && ws[1] == CrossWires(c)[1] && ws[2] == CrossWires(c)[2] && ws[3] == CrossWires(c)[3];
  }

  /** No other of the four wires is at either end of one. */
  lemma EachEnd(c: nat, k: nat)
    requires k < 4
    ensures |CrossWires(c)| == 4
    ensures var v := CrossWires(c)[k];
      && !Drawn(v.from.nodeId, c) && !Drawn(v.to.nodeId, c) && v.from.nodeId != v.to.nodeId
      && forall j :: 0 <= j < 4 && j != k ==>
           !AtPort(CrossWires(c)[j], v.from.nodeId, v.from.index) && !AtPort(CrossWires(c)[j], v.to.nodeId, v.to.index)
  {
  }

  lemma {:induction false} CopiesThere(net: Net, net': Net, left: Id, right: Id, w: Wire, con: Node, dup: Node, c: nat)
    requires Rewrites(net, net', left, right, w, Copies(con, dup, c), CrossWires(c))
    ensures |CrossWires(c)| == 4
    ensures forall j :: 0 <= j < 4 ==> CrossWires(c)[j].from.nodeId in net'.nodes && CrossWires(c)[j].to.nodeId in net'.nodes
  {
    hide CrossWires;
    var nodes := Copies(con, dup, c);
    CrossEnds(c);
    assert nodes[0] in nodes && nodes[1] in nodes && nodes[2] in nodes && nodes[3] in nodes;
  }

  lemma CrossEnds(c: nat)
    ensures |CrossWires(c)| == 4
    ensures forall j :: 0 <= j < 4 ==> var v := CrossWires(c)[j];
      && (v.from.nodeId == Numbered("c", c + 1) || v.from.nodeId == Numbered("c", c + 2))
      && (v.to.nodeId == Numbered("d", c + 3) || v.to.nodeId == Numbered("d", c + 4))
  {
  }

  /** A port of a new node has the one new wire there, and leads to its other end. */
  lemma {:induction false} NewPort(net: Net, net': Net, left: Id, right: Id, w: Wire, nodes: seq<Node>, wires: seq<Wire>,
                                   c: nat, id: Id, index: nat, k: nat)
    requires Rewrites(net, net', left, right, w, nodes, wires)
    requires forall u :: u in net.wires ==> Drawn(u.from.nodeId, c) && Drawn(u.to.nodeId, c)
    requires k < |wires| && !Drawn(id, c) && AtPort(wires[k], id, index) && OtherEnd(wires[k], id) in net'.nodes
    requires forall j :: 0 <= j < |wires| && j != k ==> !AtPort(wires[j], id, index)
    ensures Connected(net', id, index) == Some(OtherEnd(wires[k], id))
  {
    assert wires[k] in net'.wires;
    var first := FirstAtPort(net'.wires, id, index);
    assert first.Some?;
    assert first.value in wires;
  }

  // ---- Erasure ----

  /** The idle node that the rule finds at an auxiliary port, once the pair itself is claimed. */
  ghost function FoundIdle(net: Net, left: Id, right: Id, con: Id, index: nat): seq<Id> {
    match Connected(net, con, index)
    case None => []
    case Some(id) => if net.nodes[id].status == Idle && id != left && id != right then [id] else []
  }

  ghost function ToErase(net: Net, left: Id, right: Id, con: Id): seq<Id> {
    FoundIdle(net, left, right, con, 1) + FoundIdle(net, left, right, con, 2)
  }

  function EraserId(c: nat, k: nat): Id {
    Numbered("e", c + 2 * k + 1)
  }

  function NewErasers(c: nat, targets: seq<Id>): seq<Node> {
    seq(|targets|, k requires 0 <= k => NewNode("e", c + 2 * k + 1, Eraser, EraserPayload(PROPAGATED, true), 5))
  }

  function EraserWires(c: nat, targets: seq<Id>): seq<Wire> {
    seq(|targets|, k requires 0 <= k < |targets| => Wire(Numbered("w", c + 2 * k + 2), Port(EraserId(c, k), 0), Port(targets[k], 0)))
  }

  ghost predicate ErasesOther(l: Payload, r: Payload) {
    || (l.EraserPayload? && (r.ConstructorPayload? || r.DuplicatorPayload?))
    || (r.EraserPayload? && (l.ConstructorPayload? || l.DuplicatorPayload?))
  }

  /** The end taken for the eraser says that it propagates. */
  ghost predicate ToldToPropagate(net: Net, left: Id, right: Id)
    requires left in net.nodes && right in net.nodes
  {
    var p := net.nodes[Ends(net, left, right).1].payload;
    p.EraserPayload? && p.propagate
  }

  ghost function Erased(net: Net, left: Id, right: Id): seq<Id>
    requires left in net.nodes && right in net.nodes
  {
    if ToldToPropagate(net, left, right) then ToErase(net, left, right, Ends(net, left, right).0) else []
  }

  /** Each idle node at an auxiliary port gets a new eraser at its principal port, if the eraser
      propagates; nothing else is new. */
  lemma {:induction false} Erases(s: Sys, left: Id, right: Id, worker: string, hasExecutor: bool, s': Sys) returns (w: Wire)
    requires Inv(s) && Claimable(Refreshed(s.net), left, right) && Reduces(s, left, right, worker, hasExecutor, s')
    requires ErasesOther(s.net.nodes[left].payload, s.net.nodes[right].payload)
    ensures JoinsPair(s.net, w, left, right)
    ensures var c, targets := s.net.idCounter, Erased(s.net, left, right);
      && Rewrites(s.net, s'.net, left, right, w, NewErasers(c, targets), EraserWires(c, targets))
      && forall k :: 0 <= k < |targets| ==> Connected(s'.net, EraserId(c, k), 0) == Some(targets[k])
  {
    hide Reduces, Rewrites, Claimable, FindPair, Inv, JoinsPair, Started, Claimed, Refreshed, Erase, Erased, NewErasers, EraserWires, Connected;
    var pair := PairWire(s, left, right);
    w := pair.wire;
    ClaimableThere(s.net, left, right);
    var c, ends, targets := s.net.idCounter, Ends(s.net, left, right), Erased(s.net, left, right);
    StartedOver(s, left, right, worker, hasExecutor, pair);
    var claimed := Claimed(Refreshed(s.net), left, right, worker);
    EraseStarts(s.net, claimed, left, right, pair, hasExecutor);
    EraseMakes(s.net, claimed, left, right, pair.wire);
    NewApart(c, targets);
    ReductionRewrites(s, left, right, worker, hasExecutor, s', pair, Started(s, left, right, worker, hasExecutor).reduction);
    InvDrawn(s);
    ErasedStay(s.net, s'.net, left, right, w, NewErasers(c, targets), EraserWires(c, targets));
    forall k | 0 <= k < |targets|
      ensures Connected(s'.net, EraserId(c, k), 0) == Some(targets[k])
    {
      EraserPort(c, targets, k);
      NewPort(s.net, s'.net, left, right, w, NewErasers(c, targets), EraserWires(c, targets), c, EraserId(c, k), 0, k);
    }
  }

  /** What the claimed net is to the one before. */
  ghost predicate ClaimedFrom(net: Net, claimed: Net, left: Id, right: Id) {
    && left in net.nodes && right in net.nodes
    && claimed.idCounter == net.idCounter && claimed.wires == net.wires && claimed.nodes.Keys == net.nodes.Keys
    && (forall id :: id in net.nodes && id != left && id != right ==> claimed.nodes[id] == net.nodes[id])
    && claimed.nodes[left].kind == net.nodes[left].kind && claimed.nodes[right].kind == net.nodes[right].kind
    && claimed.nodes[left].payload == net.nodes[left].payload && claimed.nodes[right].payload == net.nodes[right].payload
    && claimed.nodes[left].status != Idle && claimed.nodes[right].status != Idle
  }

  lemma EraseStarts(net: Net, claimed: Net, left: Id, right: Id, pair: ActivePair, hasExecutor: bool)
    requires ClaimedFrom(net, claimed, left, right) && pair.left == left && pair.right == right
    requires ErasesOther(net.nodes[left].payload, net.nodes[right].payload)
    ensures var ends := Ends(net, left, right);
      StartRule(Selected(net.nodes[left].payload, net.nodes[right].payload), claimed, pair, hasExecutor)
        == Starts([], Erase(claimed, ends.0, ends.1, net.nodes[ends.1].payload, pair.wire, net.idCounter))
  {
    hide Erase;
  }

  lemma {:induction false} EraseMakes(net: Net, claimed: Net, left: Id, right: Id, w: Wire)
    requires ClaimedFrom(net, claimed, left, right)
    ensures var c, targets, ends := net.idCounter, Erased(net, left, right), Ends(net, left, right);
      var r := Erase(claimed, ends.0, ends.1, net.nodes[ends.1].payload, w, c).result;
      && r.remove == [ends.0, ends.1] && r.removeWires == [w.id]
      && r.add == NewErasers(c, targets) && r.addWires == EraserWires(c, targets)
  {
    hide NextToErase, FoundIdle;
    var con := Ends(net, left, right).0;
    FoundByBoth(net, claimed, left, right, con, 1);
    FoundByBoth(net, claimed, left, right, con, 2);
  }

  lemma {:induction false} FoundByBoth(net: Net, claimed: Net, left: Id, right: Id, con: Id, index: nat)
    requires ClaimedFrom(net, claimed, left, right)
    ensures var found := FoundIdle(net, left, right, con, index);
      match NextToErase(claimed, con, index)
      case None => found == []
      case Some(id) => found == [id]
  {
    hide FirstAtPort;
  }

  lemma NewApart(c: nat, targets: seq<Id>)
    ensures DistinctNodes(NewErasers(c, targets)) && DistinctWires(EraserWires(c, targets))
    ensures forall n :: n in NewErasers(c, targets) ==> !Drawn(n.id, c)
  {
  }

  lemma {:induction false} ErasedStay(net: Net, net': Net, left: Id, right: Id, w: Wire, nodes: seq<Node>, wires: seq<Wire>)
    requires left in net.nodes && right in net.nodes && Rewrites(net, net', left, right, w, nodes, wires)
    ensures forall id :: id in Erased(net, left, right) ==> id in net.nodes && id in net'.nodes
  {
    hide FirstAtPort;
  }

  lemma EraserPort(c: nat, targets: seq<Id>, k: nat)
    requires k < |targets|
    requires forall id :: id in targets ==> Drawn(id, c)
    ensures var wires, id := EraserWires(c, targets), EraserId(c, k);
      && |wires| == |targets| && !Drawn(id, c) && AtPort(wires[k], id, 0) && OtherEnd(wires[k], id) == targets[k]
      && forall j :: 0 <= j < |wires| && j != k ==> !AtPort(wires[j], id, 0)
  {
  }

  ghost predicate KindFits(n: Node) {
    && (n.payload.ConstructorPayload? <==> n.kind == Constructor)
    && (n.payload.DuplicatorPayload? <==> n.kind == Duplicator)
  }

  /** Some new idle eraser is wired to the node. */
  ghost predicate NewlyErasing(net: Net, net': Net, id: Id) {
    exists e :: e in net'.nodes && e !in net.nodes
      && net'.nodes[e].kind == Eraser && net'.nodes[e].status == Idle && Connected(net', e, 0) == Some(id)
  }

  /** The eraser of a pair goes on to the idle nodes at the auxiliary ports of the other node exactly
      when it propagates, unless the other node is a duplicator on the left of the pair's wire:
      then the rule takes the duplicator for the eraser. */
  lemma {:induction false} PropagatesUnlessMistaken(s: Sys, left: Id, right: Id, worker: string, hasExecutor: bool, s': Sys,
                                                    index: nat, id: Id)
    requires Inv(s) && Claimable(Refreshed(s.net), left, right) && Reduces(s, left, right, worker, hasExecutor, s')
    requires ErasesOther(s.net.nodes[left].payload, s.net.nodes[right].payload)
    requires KindFits(s.net.nodes[left]) && KindFits(s.net.nodes[right])
    requires var other := if s.net.nodes[left].payload.EraserPayload? then right else left;
      && (index == 1 || index == 2) && Connected(s.net, other, index) == Some(id)
      && s.net.nodes[id].status == Idle && id != left && id != right
    ensures var eraser := if s.net.nodes[left].payload.EraserPayload? then left else right;
      NewlyErasing(s.net, s'.net, id) <==> s.net.nodes[eraser].payload.propagate && !s.net.nodes[left].payload.DuplicatorPayload?
  {
    hide Reduces, Claimable, Inv, JoinsPair, Refreshed, EraserWires, Connected, Rewrites;
    var w := Erases(s, left, right, worker, hasExecutor, s');
    ClaimableThere(s.net, left, right);
    var c, targets := s.net.idCounter, Erased(s.net, left, right);
    NewNodesAre(s.net, s'.net, left, right, w, NewErasers(c, targets), EraserWires(c, targets));
    if ToldToPropagate(s.net, left, right) {
      assert id in targets;
      var k :| 0 <= k < |targets| && targets[k] == id;
      assert NewErasers(c, targets)[k].id == EraserId(c, k);
      assert NewErasers(c, targets)[k] in NewErasers(c, targets);
    }
  }

  lemma NewNodesAre(net: Net, net': Net, left: Id, right: Id, w: Wire, nodes: seq<Node>, wires: seq<Wire>)
    requires Rewrites(net, net', left, right, w, nodes, wires)
    ensures forall id :: id in net'.nodes && id !in net.nodes ==> exists n :: n in nodes && n.id == id
    ensures forall n :: n in nodes ==> n.id in net'.nodes && n.id !in net.nodes && net'.nodes[n.id] == n
  {
  }

  // ---- Tasks ----

  /** With an executor, a pair with a task starts its tasks, both of two. The net keeps its nodes and,
      unless both are tasks, the wire of the pair. */
  lemma {:induction false} TasksStart(s: Sys, left: Id, right: Id, worker: string) returns (w: Wire)
    requires Inv(s) && Claimable(Refreshed(s.net), left, right)
    requires s.net.nodes[left].payload.TaskPayload? || s.net.nodes[right].payload.TaskPayload?
    ensures JoinsPair(s.net, w, left, right)
    ensures var l, r := s.net.nodes[left].payload.TaskPayload?, s.net.nodes[right].payload.TaskPayload?;
      var s' := Do(s, Claim(left, right, worker), true);
      && s'.pending == s.pending + [Pending((if l then [left] else []) + (if r then [right] else []),
                                            ReductionResult([], [], [], if l && r then [w.id] else []))]
      && s'.net.wires == s.net.wires && s'.net.idCounter == s.net.idCounter && s'.net.nodes.Keys == s.net.nodes.Keys
      && s'.net.nodes[left] == s.net.nodes[left].(status := Reducing, claimedBy := Some(worker))
      && s'.net.nodes[right] == s.net.nodes[right].(status := Reducing, claimedBy := Some(worker))
  {
    hide Inv, FindPair, Claimed, Refreshed, Claimable, Select, JoinsPair;
    var pair := PairWire(s, left, right);
    w := pair.wire;
    StartedOver(s, left, right, worker, true, pair);
    assert [left] + [right] == [left, right] && [left] + [] == [left] && [] + [right] == [right];
  }

  /** Without one, the tasks fail at once, and both nodes of the pair are completed with that error. */
  lemma {:induction false} NoExecutorFails(s: Sys, left: Id, right: Id, worker: string)
    requires Inv(s) && Claimable(Refreshed(s.net), left, right)
    requires s.net.nodes[left].payload.TaskPayload? || s.net.nodes[right].payload.TaskPayload?
    ensures var s' := Do(s, Claim(left, right, worker), false);
      && s'.pending == s.pending && s'.net.wires == s.net.wires && s'.net.nodes.Keys == s.net.nodes.Keys
      && (forall id :: id in s.net.nodes && id != left && id != right ==> s'.net.nodes[id] == s.net.nodes[id])
      && (forall id :: id == left || id == right ==>
            s'.net.nodes[id] == s.net.nodes[id].(status := Completed, claimedBy := Some(worker), error := Some("No task executor configured")))
  {
    hide Inv, FindPair, Claimed, Refreshed, Claimable, Select, JoinsPair;
    var pair := PairWire(s, left, right);
    StartedOver(s, left, right, worker, false, pair);
    ClaimableThere(s.net, left, right);
    var claimed := Claimed(Refreshed(s.net), left, right, worker);
    assert Do(s, Claim(left, right, worker), false).net.nodes == Settle(Settle(claimed.nodes, left, NO_EXECUTOR), right, NO_EXECUTOR);
  }

  /** A task that ends is completed, with its result or its error, and is no longer waited for. */
  lemma FinishRecords(s: Sys, p: nat, t: nat, outcome: TaskEnd, hasExecutor: bool)
    requires Enabled(s, Finish(p, t, outcome))
    ensures var s', task := Do(s, Finish(p, t, outcome), hasExecutor), s.pending[p].tasks[t];
      && s'.net.wires == s.net.wires && s'.net.nodes.Keys == s.net.nodes.Keys
      && (forall id :: id in s.net.nodes && id != task ==> s'.net.nodes[id] == s.net.nodes[id])
      && (task in s.net.nodes ==>
            match outcome
            case Resolved(value) => s'.net.nodes[task] == s.net.nodes[task].(status := Completed, result := Some(value))
            case Rejected(message) => s'.net.nodes[task] == s.net.nodes[task].(status := Completed, error := Some(message)))
      && |s'.pending| == |s.pending| && s'.pending[p].result == s.pending[p].result
      && multiset(s'.pending[p].tasks) + multiset{task} == multiset(s.pending[p].tasks)
      && (forall q :: 0 <= q < |s.pending| && q != p ==> s'.pending[q] == s.pending[q])
  {
    var tasks := s.pending[p].tasks;
    assert tasks == tasks[..t] + [tasks[t]] + tasks[t + 1..];
  }

  // ---- The order of wires, and what is found by it ----

  /** A wire with a new id goes behind all others. */
  lemma {:induction false} SetWireAppends(wires: seq<Wire>, w: Wire)
    requires forall v :: v in wires ==> v.id != w.id
    ensures SetWire(wires, w) == wires + [w]
  {
    if wires == [] {
    } else {
      assert wires[0] in wires && forall v :: v in wires[1..] ==> v in wires;
      SetWireAppends(wires[1..], w);
      assert [wires[0]] + (wires[1..] + [w]) == wires + [w];
    }
  }

  /** A wire with an id that is there takes the place of the other. */
  lemma {:induction false} SetWireReplaces(before: seq<Wire>, v: Wire, after: seq<Wire>, w: Wire)
    requires v.id == w.id && (forall u :: u in before ==> u.id != w.id) && (forall u :: u in after ==> u.id != w.id)
    ensures SetWire(before + ([v] + after), w) == before + ([w] + after)
    decreases |before|
  {
    hide DropWires;
    var wires := before + ([v] + after);
    if before == [] {
      assert wires == [v] + after && wires[1..] == after;
      NoneDropped(after, {w.id});
      assert [] + ([w] + after) == [w] + after;
    } else {
      assert before[0] in before && forall u :: u in before[1..] ==> u in before;
      assert wires[0] == before[0] && wires[1..] == before[1..] + ([v] + after);
      SetWireReplaces(before[1..], v, after, w);
      assert [before[0]] + (before[1..] + ([w] + after)) == before + ([w] + after);
    }
  }

  lemma {:induction false} NoneDropped(wires: seq<Wire>, ids: set<Id>)
    requires forall v :: v in wires ==> v.id !in ids
    ensures DropWires(wires, ids) == wires
  {
    if wires == [] {
    } else {
      assert wires[0] in wires && forall v :: v in wires[1..] ==> v in wires;
      NoneDropped(wires[1..], ids);
    }
  }

  /** Dropping wires keeps the others in order. */
  lemma {:induction false} DropsInOrder(before: seq<Wire>, after: seq<Wire>, ids: set<Id>)
    ensures DropWires(before + after, ids) == DropWires(before, ids) + DropWires(after, ids)
    decreases |before|
  {
    var wires := before + after;
    if before == [] {
      assert wires == after;
    } else {
      assert wires[0] == before[0] && wires[1..] == before[1..] + after;
      DropsInOrder(before[1..], after, ids);
      var first := if before[0].id in ids then [] else [before[0]];
      assert first + (DropWires(before[1..], ids) + DropWires(after, ids)) == first + DropWires(before[1..], ids) + DropWires(after, ids);
    }
  }

  /** The node found at a port is at the far end of the oldest wire there. */
  lemma {:induction false} OldestWireFound(net: Net, id: Id, index: nat, before: seq<Wire>, w: Wire, after: seq<Wire>)
    requires net.wires == before + [w] + after
    requires (w.from == Port(id, index) || w.to == Port(id, index))
    requires forall v :: v in before ==> v.from != Port(id, index) && v.to != Port(id, index)
    ensures var other := if w.from.nodeId == id then w.to.nodeId else w.from.nodeId;
      Connected(net, id, index) == if other in net.nodes then Some(other) else None
  {
    hide FirstAtPort;
    OldestIsFirst(before, w, after, id, index);
  }

  lemma {:induction false} OldestIsFirst(before: seq<Wire>, w: Wire, after: seq<Wire>, id: Id, index: nat)
    requires (w.from == Port(id, index) || w.to == Port(id, index))
    requires forall v :: v in before ==> v.from != Port(id, index) && v.to != Port(id, index)
    ensures FirstAtPort(before + [w] + after, id, index) == Some(w)
    decreases |before|
  {
    var wires := before + [w] + after;
    if before == [] {
      assert wires[0] == w;
    } else {
      assert before[0] in before && forall v :: v in before[1..] ==> v in before;
      assert wires[0] == before[0] && wires[1..] == before[1..] + [w] + after;
      assert wires[0].from != Port(id, index) && wires[0].to != Port(id, index);
      assert !AtPort(wires[0], id, index);
      OldestIsFirst(before[1..], w, after, id, index);
    }
  }

  /** A pair that a scan finds has the priority of the more urgent of its two nodes. */
  lemma {:induction false} PairPriority(nodes: map<Id, Node>, wires: seq<Wire>)
    ensures forall p :: p in Scan(nodes, wires) ==>
      && p.left in nodes && p.right in nodes
      && (p.priority == nodes[p.left].priority || p.priority == nodes[p.right].priority)
      && p.priority >= nodes[p.left].priority && p.priority >= nodes[p.right].priority
  {
    if wires == [] {
    } else {
      PairPriority(nodes, wires[..|wires| - 1]);
    }
  }

  // ---- Garbage ----

  ghost predicate Lives(net: Net, id: Id) {
    id in net.nodes && (net.nodes[id].status == Idle || net.nodes[id].status == Active)
  }

  /** A node may be collected exactly when it is over and no wire joins one of its ports to a node that
      is idle or active. */
  lemma {:induction false} CollectedExactly(s: Sys, id: Id)
    ensures Enabled(s, Collect(id)) <==>
      && id in s.net.nodes && (s.net.nodes[id].status == Completed || s.net.nodes[id].status == Cancelled)
      && forall w :: w in s.net.wires ==>
           && (w.from.nodeId == id && w.from.index <= 2 ==> !Lives(s.net, w.to.nodeId))
           && (w.to.nodeId == id && w.to.index <= 2 ==> !Lives(s.net, w.from.nodeId))
  {
    if id in s.net.nodes && !Lives(s.net, id) {
      forall w | w in s.net.wires
        ensures KeepsAlive(s.net, w, id) <==>
          (w.from.nodeId == id && w.from.index <= 2 && Lives(s.net, w.to.nodeId))
          || (w.to.nodeId == id && w.to.index <= 2 && Lives(s.net, w.from.nodeId))
      {
      }
    }
  }

  /** Collecting takes the node and all its wires, and nothing else. */
  lemma CollectTakes(s: Sys, id: Id, hasExecutor: bool)
    requires Enabled(s, Collect(id))
    ensures var s' := Do(s, Collect(id), hasExecutor);
      && s'.net.nodes == s.net.nodes - {id} && s'.pending == s.pending && s'.net.idCounter == s.net.idCounter
      && forall w :: w in s'.net.wires <==> w in s.net.wires && w.from.nodeId != id && w.to.nodeId != id
  {
    hide HasIdleDeps;
  }
}
