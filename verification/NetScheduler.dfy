/** The scheduler: which rule an active pair selects, what each rule asks of the net, and the steps
    between which reductions interleave. */
module NetScheduler {
  import opened Options
  import opened InteractionNet

  // ---- Rule selection ----

  function KindName(p: Payload): string {
    match p
    case TaskPayload(_, _) => "task"
    case ConstructorPayload(_, _) => "constructor"
    case DuplicatorPayload(_, _) => "duplicator"
    case EraserPayload(_, _) => "eraser"
  }

  /** `s` sorts before `t`. */
  predicate Precedes(s: string, t: string)
    decreases |s|
  {
    t != [] && (s == [] || s[0] < t[0] || (s[0] == t[0] && Precedes(s[1..], t[1..])))
  }

  /** `getRuleKey`: the two kinds in alphabetical order. */
  function RuleKey(left: string, right: string): string {
    if Precedes(right, left) then right + "-" + left else left + "-" + right
  }

  datatype Rule =
    | TaskTask
    | TaskConstructor
    | TaskDuplicator
    | TaskEraser
    | ConstructorConstructor
    | ConstructorDuplicator
    | ConstructorEraser
    | DuplicatorDuplicator
    | DuplicatorEraser
    | EraserEraser
    | ExecuteLeft
    | ExecuteRight
    | UnknownRule

  /** The named cases of the `switch` on the rule key. */
  function Switch(key: string): Option<Rule> {
    if key == "task-task" then Some(TaskTask)
    else if key == "task-constructor" then Some(TaskConstructor)
    else if key == "task-duplicator" then Some(TaskDuplicator)
    else if key == "task-eraser" then Some(TaskEraser)
    else if key == "constructor-constructor" then Some(ConstructorConstructor)
    else if key == "constructor-duplicator" then Some(ConstructorDuplicator)
    else if key == "constructor-eraser" then Some(ConstructorEraser)
    else if key == "duplicator-duplicator" then Some(DuplicatorDuplicator)
    else if key == "duplicator-eraser" then Some(DuplicatorEraser)
    else if key == "eraser-eraser" then Some(EraserEraser)
    else None
  }

  /** The rule that a pair selects: a named case, or the default. */
  function Select(left: Payload, right: Payload): Rule {
    match Switch(RuleKey(KindName(left), KindName(right)))
    case Some(rule) => rule
    case None =>
      if left.TaskPayload? then ExecuteLeft
      else if right.TaskPayload? then ExecuteRight
      else UnknownRule
  }

  /** The rule that a pair in fact selects: sorted keys never begin with `task-` unless both sides
      are tasks, so three of the cases are dead and those pairs execute their task instead. */
  function Selected(left: Payload, right: Payload): Rule {
    match (left, right)
    case (TaskPayload(_, _), TaskPayload(_, _)) => TaskTask
    case (TaskPayload(_, _), _) => ExecuteLeft
    case (_, TaskPayload(_, _)) => ExecuteRight
    case (ConstructorPayload(_, _), ConstructorPayload(_, _)) => ConstructorConstructor
    case (DuplicatorPayload(_, _), DuplicatorPayload(_, _)) => DuplicatorDuplicator
    case (EraserPayload(_, _), EraserPayload(_, _)) => EraserEraser
    case (ConstructorPayload(_, _), DuplicatorPayload(_, _)) => ConstructorDuplicator
    case (DuplicatorPayload(_, _), ConstructorPayload(_, _)) => ConstructorDuplicator
    case (ConstructorPayload(_, _), EraserPayload(_, _)) => ConstructorEraser
    case (EraserPayload(_, _), ConstructorPayload(_, _)) => ConstructorEraser
    case _ => DuplicatorEraser
  }

  lemma Sorted(s: string, t: string)
    requires s != [] && t != [] && s[0] < t[0]
    ensures RuleKey(s, t) == s + "-" + t == RuleKey(t, s)
  {
  }

  lemma {:induction false} NotBeforeItself(s: string)
    ensures !Precedes(s, s)
  {
    if s == [] {
    } else {
      NotBeforeItself(s[1..]);
    }
  }

  lemma {:induction false} SameKey(s: string)
    ensures RuleKey(s, s) == s + "-" + s
  {
    NotBeforeItself(s);
  }

  lemma {:induction false} TaskKeys()
    ensures RuleKey("task", "task") == "task-task"
    ensures RuleKey("task", "constructor") == "constructor-task" == RuleKey("constructor", "task")
    ensures RuleKey("task", "duplicator") == "duplicator-task" == RuleKey("duplicator", "task")
    ensures RuleKey("task", "eraser") == "eraser-task" == RuleKey("eraser", "task")
  {
    hide Precedes, RuleKey;
    SameKey("task");
    Sorted("constructor", "task");
    Sorted("duplicator", "task");
    Sorted("eraser", "task");
  }

  lemma {:induction false} OtherKeys()
    ensures RuleKey("constructor", "constructor") == "constructor-constructor"
    ensures RuleKey("duplicator", "duplicator") == "duplicator-duplicator"
    ensures RuleKey("eraser", "eraser") == "eraser-eraser"
    ensures RuleKey("constructor", "duplicator") == "constructor-duplicator" == RuleKey("duplicator", "constructor")
    ensures RuleKey("constructor", "eraser") == "constructor-eraser" == RuleKey("eraser", "constructor")
    ensures RuleKey("duplicator", "eraser") == "duplicator-eraser" == RuleKey("eraser", "duplicator")
  {
    hide Precedes, RuleKey;
    SameKey("constructor");
    SameKey("duplicator");
    SameKey("eraser");
    Sorted("constructor", "duplicator");
    Sorted("constructor", "eraser");
    Sorted("duplicator", "eraser");
  }

  lemma SwitchOnTask()
    ensures Switch("task-task") == Some(TaskTask)
    ensures Switch("constructor-task").None? && Switch("duplicator-task").None? && Switch("eraser-task").None?
  {
  }

  lemma SwitchOnSame()
    ensures Switch("constructor-constructor") == Some(ConstructorConstructor)
    ensures Switch("duplicator-duplicator") == Some(DuplicatorDuplicator)
    ensures Switch("eraser-eraser") == Some(EraserEraser)
  {
  }

  lemma SwitchOnMixed()
    ensures Switch("constructor-duplicator") == Some(ConstructorDuplicator)
    ensures Switch("constructor-eraser") == Some(ConstructorEraser)
    ensures Switch("duplicator-eraser") == Some(DuplicatorEraser)
  {
  }

  /** No pair reaches a case for a task and another node. */
  lemma {:induction false} SelectIsSelected(left: Payload, right: Payload)
    ensures Select(left, right) == Selected(left, right)
  {
    hide Precedes, RuleKey, Switch;
    TaskKeys();
    OtherKeys();
    SwitchOnTask();
    SwitchOnSame();
    SwitchOnMixed();
  }

  // ---- Reduction rules ----

  /** What a rule returns, and where it leaves the net's id counter. */
  datatype Reduction = Reduction(result: ReductionResult, counter: nat)

  function Prefix(kind: Kind): string {
    match kind
    case Constructor => "c"
    case Duplicator => "d"
    case Eraser => "e"
  }

  /** `makeNode`, drawing the number `n`. */
  function MakeNode(kind: Kind, payload: Payload, priority: int, n: nat): Node {
    Node(Numbered(Prefix(kind), n), kind, Idle, priority, payload, None, None, None)
  }

  function WireAt(n: nat, a: Id, i: nat, b: Id, j: nat): Wire {
    Wire(Numbered("w", n), Port(a, i), Port(b, j))
  }

  /** Two constructors, or two duplicators, leave their auxiliary ports joined to each other. */
  function CrossConnect(left: Id, right: Id, wire: Wire, c: nat): Reduction {
    Reduction(
      ReductionResult([left, right], [], [WireAt(c + 1, left, 1, right, 1), WireAt(c + 2, left, 2, right, 2)], [wire.id]),
      c + 2)
  }

  /** A constructor and a duplicator each pass through the other: two new nodes of each. */
  function Commute(con: Id, conNode: Node, dup: Id, dupNode: Node, wire: Wire, c: nat): Reduction {
    var con1 := MakeNode(Constructor, conNode.payload, conNode.priority, c + 1);
    var con2 := MakeNode(Constructor, conNode.payload, conNode.priority, c + 2);
    var dup1 := MakeNode(Duplicator, dupNode.payload, dupNode.priority, c + 3);
    var dup2 := MakeNode(Duplicator, dupNode.payload, dupNode.priority, c + 4);
    Reduction(
      ReductionResult([con, dup], [con1, con2, dup1, dup2],
        [WireAt(c + 5, con1.id, 1, dup1.id, 0), WireAt(c + 6, con1.id, 2, dup2.id, 0),
         WireAt(c + 7, con2.id, 1, dup1.id, 1), WireAt(c + 8, con2.id, 2, dup2.id, 1)],
        [wire.id]),
      c + 8)
  }

  /** The node that an eraser arriving at auxiliary port `index` of `con` goes on to erase. */
  function NextToErase(net: Net, con: Id, index: nat): Option<Id> {
    match Connected(net, con, index)
    case None => None
    case Some(id) => if net.nodes[id].status == Idle then Some(id) else None
  }

  const PROPAGATED := "Propagated"

  /** One pass of the propagation loop. */
  function PropagateTo(net: Net, con: Id, index: nat, r: Reduction): Reduction {
    match NextToErase(net, con, index)
    case None => r
    case Some(id) =>
      var eraser := MakeNode(Eraser, EraserPayload(PROPAGATED, true), 5, r.counter + 1);
      Reduction(
        r.result.(add := r.result.add + [eraser],
                  addWires := r.result.addWires + [WireAt(r.counter + 2, eraser.id, 0, id, 0)]),
        r.counter + 2)
  }

  function Propagates(p: Payload): bool {
    p.EraserPayload? && p.propagate
  }

  /** The eraser rule. Which side counts as the eraser is decided by `kind` alone: whichever is not
      a constructor, and the right one if neither is. */
  function Erase(net: Net, con: Id, era: Id, eraPayload: Payload, wire: Wire, c: nat): Reduction {
    var none := Reduction(ReductionResult([con, era], [], [], [wire.id]), c);
    if Propagates(eraPayload) then PropagateTo(net, con, 2, PropagateTo(net, con, 1, none)) else none
  }

  function Annihilate(left: Id, right: Id, wire: Wire, c: nat): Reduction {
    Reduction(ReductionResult([left, right], [], [], [wire.id]), c)
  }

  const NOTHING := ReductionResult([], [], [], [])

  /** What the claimed pair does: throw, or run some tasks and then apply a result. */
  datatype Start = Throws | Starts(tasks: seq<Id>, reduction: Reduction)

  function StartRule(rule: Rule, net: Net, pair: ActivePair, hasExecutor: bool): Start
    requires pair.left in net.nodes && pair.right in net.nodes
  {
    var left, right, w, c := net.nodes[pair.left], net.nodes[pair.right], pair.wire, net.idCounter;
    var conLeft := left.kind == Constructor;
    match rule
    case TaskTask =>
      if hasExecutor then Starts([pair.left, pair.right], Reduction(ReductionResult([], [], [], [w.id]), c)) else Throws
    case ExecuteLeft => if hasExecutor then Starts([pair.left], Reduction(NOTHING, c)) else Throws
    case ExecuteRight => if hasExecutor then Starts([pair.right], Reduction(NOTHING, c)) else Throws
    case ConstructorConstructor => Starts([], CrossConnect(pair.left, pair.right, w, c))
    case DuplicatorDuplicator => Starts([], CrossConnect(pair.left, pair.right, w, c))
    case ConstructorDuplicator =>
      Starts([], if conLeft then Commute(pair.left, left, pair.right, right, w, c) else Commute(pair.right, right, pair.left, left, w, c))
    case ConstructorEraser =>
      Starts([], if conLeft then Erase(net, pair.left, pair.right, right.payload, w, c) else Erase(net, pair.right, pair.left, left.payload, w, c))
    case DuplicatorEraser =>
      Starts([], if conLeft then Erase(net, pair.left, pair.right, right.payload, w, c) else Erase(net, pair.right, pair.left, left.payload, w, c))
    case EraserEraser => Starts([], Annihilate(pair.left, pair.right, w, c))
    case _ => Throws
  }

  // ---- The scheduler's steps ----

  /** A reduction under way: tasks still executing, then a result to apply. */
  datatype Pending = Pending(tasks: seq<Id>, result: ReductionResult)

  datatype ClaimRecord = ClaimRecord(left: Id, right: Id, executes: seq<Id>)

  /** The net, the reductions under way, and a record of all claims so far. */
  datatype Sys = Sys(net: Net, pending: seq<Pending>, log: seq<ClaimRecord>)

  datatype TaskEnd = Resolved(value: string) | Rejected(message: string)

  datatype Action =
    | Claim(left: Id, right: Id, worker: string)
    | Finish(p: nat, t: nat, outcome: TaskEnd)
    | Apply(p: nat)
    | Collect(id: Id)

  function Settle(nodes: map<Id, Node>, id: Id, outcome: TaskEnd): map<Id, Node> {
    if id !in nodes then nodes
    else
      match outcome
      case Resolved(v) => nodes[id := nodes[id].(status := Completed, result := Some(v))]
      case Rejected(m) => nodes[id := nodes[id].(status := Completed, error := Some(m))]
  }

  function Without<T>(s: seq<T>, k: nat): seq<T>
    requires k < |s|
  {
    s[..k] + s[k + 1..]
  }

  /** Some idle or active node is wired to this one. */
  predicate HasIdleDeps(net: Net, id: Id) {
    exists w :: w in net.wires && KeepsAlive(net, w, id)
  }

  predicate KeepsAlive(net: Net, w: Wire, id: Id) {
    && (AtPort(w, id, 0) || AtPort(w, id, 1) || AtPort(w, id, 2))
    && var other := OtherEnd(w, id);
       other in net.nodes && (net.nodes[other].status == Idle || net.nodes[other].status == Active)
  }

  predicate Dead(net: Net, id: Id) {
    id in net.nodes && (net.nodes[id].status == Completed || net.nodes[id].status == Cancelled)
  }

  predicate Enabled(s: Sys, a: Action) {
    match a
    case Claim(left, right, _) => Claimable(Refreshed(s.net), left, right)
    case Finish(p, t, _) => p < |s.pending| && t < |s.pending[p].tasks|
    case Apply(p) => p < |s.pending| && s.pending[p].tasks == []
    case Collect(id) => Dead(s.net, id) && !HasIdleDeps(s.net, id)
  }

  const NO_EXECUTOR := Rejected("No task executor configured")

  /** A claim, up to the first `await`: the pair is claimed and its rule computed on the spot. */
  function DoClaim(s: Sys, left: Id, right: Id, worker: string, hasExecutor: bool): Sys
    requires Claimable(Refreshed(s.net), left, right)
  {
    var net := Refreshed(s.net);
    var pair := FindPair(net.cache, left, right).value;
    var claimed := Claimed(net, left, right, worker);
    var rule := Select(claimed.nodes[left].payload, claimed.nodes[right].payload);
    match StartRule(rule, claimed, pair, hasExecutor)
    case Throws =>
      var nodes := Settle(Settle(claimed.nodes, left, NO_EXECUTOR), right, NO_EXECUTOR);
      Sys(claimed.(nodes := nodes), s.pending, s.log + [ClaimRecord(left, right, [])])
    case Starts(tasks, reduction) =>
      Sys(claimed.(idCounter := reduction.counter), s.pending + [Pending(tasks, reduction.result)],
          s.log + [ClaimRecord(left, right, tasks)])
  }

  function Do(s: Sys, a: Action, hasExecutor: bool): Sys
    requires Enabled(s, a)
  {
    match a
    case Claim(left, right, worker) => DoClaim(s, left, right, worker, hasExecutor)
    case Finish(p, t, outcome) =>
      var pend := s.pending[p];
      s.(net := s.net.(nodes := Settle(s.net.nodes, pend.tasks[t], outcome)),
         pending := s.pending[p := pend.(tasks := Without(pend.tasks, t))])
    case Apply(p) =>
      s.(net := Applied(s.net, s.pending[p].result), pending := Without(s.pending, p))
    case Collect(id) =>
      s.(net := Removed(s.net, id))
  }
}
