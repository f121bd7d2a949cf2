/** Escalations with a timed circuit breaker: how often an agent may escalate within a window, and why
    forgetting old records changes no answer. */
module Escalation {
  import opened Options
  import opened AgentRegistry

  datatype Record = Record(count: nat, lastEscalation: int, reasons: seq<string>)

  type Records = map<string, Record>

  /** The breaker's threshold and its window in milliseconds. */
  datatype Config = Config(threshold: int, window: int)

  datatype Answer = Answer(target: Option<string>, circuitBroken: bool)

  // ---- Tier gates ----

  datatype Gate = Gate(minPriority: int, allowedSourceTiers: set<string>)

  function GateOf(tier: string): Option<Gate> {
    if tier == "master" then Some(Gate(4, {"manager", "forge", "sentinel"}))
    else if tier == "sentinel" then Some(Gate(4, {"master", "forge"}))
    else None
  }

  predicate PassesGate(agents: Agents, from: string, priority: int, gate: Option<Gate>) {
    gate.None? || priority >= gate.value.minPriority
    || (from in agents && agents[from].tier in gate.value.allowedSourceTiers)
  }

  /** The first agent of the chain, if its gate lets the escalation pass. */
  function TargetOf(agents: Agents, from: string, priority: int): Option<string> {
    var chain := EscalationChain(agents, from);
    if from !in agents || chain == [] || chain[0] !in agents then None
    else if PassesGate(agents, from, priority, GateOf(agents[chain[0]].tier)) then Some(chain[0])
    else None
  }

  // ---- The breaker ----

  predicate Stale(cfg: Config, r: Record, now: int) {
    now - r.lastEscalation > cfg.window
  }

  predicate Broken(cfg: Config, records: Records, id: string, now: int) {
    id in records && !Stale(cfg, records[id], now) && records[id].count >= cfg.threshold
  }

  const NEW_RECORD := Record(0, 0, [])

  /** The record that an escalation starts from: what there is, but the count and reasons of a stale
      record are dropped. */
  function Refreshed(cfg: Config, records: Records, id: string, now: int): Record {
    var r := if id in records then records[id] else NEW_RECORD;
    if Stale(cfg, r, now) then Record(0, r.lastEscalation, []) else r
  }

  /** The records and the answer after an escalation, `target` being where it may go. */
  function Escalated(cfg: Config, records: Records, from: string, reason: string, target: Option<string>, now: int): (Records, Answer) {
    var r := Refreshed(cfg, records, from, now);
    if Broken(cfg, records[from := r], from, now) then (records[from := r], Answer(None, true))
    else
      var r' := Record(r.count + 1, now, r.reasons + [reason]);
      (records[from := r'], if r'.count >= cfg.threshold then Answer(None, true) else Answer(target, false))
  }

  function Pruned(cfg: Config, records: Records, now: int): Records {
    map id | id in records && !Stale(cfg, records[id], now) :: records[id]
  }

  // ---- What an escalation answers ----

  /** The agent's target: registered, another agent, and open to it by priority or by tier. */
  ghost predicate MayGoTo(agents: Agents, from: string, priority: int, target: string) {
    && from in agents && agents[from].escalationTarget == Some(target) && target in agents && target != from
    && (agents[target].tier == "master" ==> priority >= 4 || agents[from].tier in ["manager", "forge", "sentinel"])
    && (agents[target].tier == "sentinel" ==> priority >= 4 || agents[from].tier in ["master", "forge"])
  }

  lemma {:induction false} ChainHead(agents: Agents, from: string)
    requires from in agents
    ensures var chain := EscalationChain(agents, from);
      if chain == [] then forall t :: agents[from].escalationTarget == Some(t) ==> t !in agents || t == from
      else agents[from].escalationTarget == Some(chain[0]) && chain[0] in agents && chain[0] != from
  {
    hide EscalationChain;
    ChainIsSound(agents, from);
    var chain := EscalationChain(agents, from);
    if chain != [] {
      assert chain[0] in chain;
    }
  }

  /** An escalation goes to the agent's own target, or nowhere. */
  lemma {:induction false} TargetIsFirst(agents: Agents, from: string, priority: int)
    ensures forall t :: TargetOf(agents, from, priority) == Some(t) <==> MayGoTo(agents, from, priority, t)
  {
    hide EscalationChain;
    if from in agents {
      ChainHead(agents, from);
    }
  }

  /** The escalations of the agent that still count: none, if the last is longer ago than the window. */
  function Recent(cfg: Config, records: Records, id: string, now: int): nat {
    if id in records && now <= records[id].lastEscalation + cfg.window then records[id].count else 0
  }

  function RecentReasons(cfg: Config, records: Records, id: string, now: int): seq<string> {
    if id in records && now <= records[id].lastEscalation + cfg.window then records[id].reasons else []
  }

  /** The answer breaks the circuit exactly when this escalation reaches the threshold, and otherwise
      names the target, if the agent may go there. Only this agent's record changes: it counts one
      escalation more, unless the circuit was open already. */
  lemma {:induction false} EscalationAnswers(cfg: Config, records: Records, agents: Agents, from: string, reason: string, priority: int, now: int)
    ensures var (records', answer) := Escalated(cfg, records, from, reason, TargetOf(agents, from, priority), now);
      var had := Recent(cfg, records, from, now);
      && (answer.circuitBroken <==> had + 1 >= cfg.threshold)
      && (forall t :: answer.target == Some(t) <==> had + 1 < cfg.threshold && MayGoTo(agents, from, priority, t))
      && records'.Keys == records.Keys + {from}
      && (forall id :: id in records && id != from ==> records'[id] == records[id])
      && (had < cfg.threshold ==>
            && records'[from].count == had + 1 && records'[from].lastEscalation == now
            && records'[from].reasons == RecentReasons(cfg, records, from, now) + [reason])
      && (had >= cfg.threshold > 0 ==> from in records && records' == records)
  {
    hide TargetOf, MayGoTo;
    TargetIsFirst(agents, from, priority);
  }

  class EscalationManager {
    const cfg: Config
    var records: Records

    constructor (cfg: Config)
      ensures this.cfg == cfg && records == map[]
    {
      this.cfg := cfg;
      records := map[];
    }

    method Escalate(registry: Registry, from: string, reason: string, priority: int, now: int) returns (answer: Answer)
      modifies this
      ensures var after := Escalated(cfg, old(records), from, reason, TargetOf(registry.agents, from, priority), now);
        records == after.0 && answer == after.1
    {
      if from !in records {
        records := records[from := NEW_RECORD];
      }
      if now - records[from].lastEscalation > cfg.window {
        records := records[from := records[from].(count := 0, reasons := [])];
      }
      assert records == old(records)[from := Refreshed(cfg, old(records), from, now)];
      var broken := IsCircuitBroken(from, now);
      if broken {
        return Answer(None, true);
      }
      records := records[from := Record(records[from].count + 1, now, records[from].reasons + [reason])];
      if records[from].count >= cfg.threshold {
        return Answer(None, true);
      }
      if from !in registry.agents {
        return Answer(None, false);
      }
      var chain := registry.GetEscalationChain(from);
      ChainIsRegistered(registry.agents, from, Some(from), {});
      if |chain| == 0 {
        return Answer(None, false);
      }
      var gate := GateOf(registry.agents[chain[0]].tier);
      answer := Answer(if PassesGate(registry.agents, from, priority, gate) then Some(chain[0]) else None, false);
    }

    method IsCircuitBroken(id: string, now: int) returns (broken: bool)
      ensures broken == Broken(cfg, records, id, now)
    {
      if id !in records {
        return false;
      }
      if now - records[id].lastEscalation > cfg.window {
        return false;
      }
      broken := records[id].count >= cfg.threshold;
    }

    /** Forget the records outside the window. */
    method Prune(now: int)
      modifies this
      ensures records == Pruned(cfg, old(records), now)
    {
      var ids, stale := records.Keys, {};
      while ids != {}
        invariant ids <= records.Keys && records == old(records)
        invariant forall id :: id in stale <==> id in records && id !in ids && Stale(cfg, records[id], now)
        decreases |ids|
      {
        var id :| id in ids;
        ids := ids - {id};
        if now - records[id].lastEscalation > cfg.window {
          stale := stale + {id};
        }
      }
      records := records - stale;
    }
  }

  // ---- Runs ----

  datatype Event =
    | Escalate(from: string, reason: string, target: Option<string>, now: int)
    | Query(id: string, now: int)
    | Prune(now: int)

  datatype Reply = Escalation(answer: Answer) | IsBroken(broken: bool) | Done

  function Do(cfg: Config, records: Records, e: Event): (Records, Reply) {
    match e
    case Escalate(from, reason, target, now) =>
      var (records', answer) := Escalated(cfg, records, from, reason, target, now);
      (records', Escalation(answer))
    case Query(id, now) => (records, IsBroken(Broken(cfg, records, id, now)))
    case Prune(now) => (Pruned(cfg, records, now), Done)
  }

  /** The event is an escalation by the agent that is given a target. */
  predicate Targeted(cfg: Config, records: Records, e: Event, id: string) {
    e.Escalate? && e.from == id && Do(cfg, records, e).1.answer.target.Some?
  }

  function CountTargeted(cfg: Config, records: Records, events: seq<Event>, id: string): nat
    decreases |events|
  {
    if events == [] then 0
    else (if Targeted(cfg, records, events[0], id) then 1 else 0) + CountTargeted(cfg, Do(cfg, records, events[0]).0, events[1..], id)
  }

  /** All events are within a window that starts at `t`. */
  predicate InWindow(cfg: Config, t: int, events: seq<Event>) {
    forall i :: 0 <= i < |events| ==> t <= events[i].now <= t + cfg.window
  }

  function Limit(cfg: Config): nat {
    if cfg.threshold > 1 then cfg.threshold - 1 else 0
  }

  /** `n` escalations have been given a target since `t`. */
  predicate Counted(records: Records, id: string, n: nat, t: int) {
    n > 0 ==> id in records && records[id].count >= n && records[id].lastEscalation >= t
  }

  lemma CountedStep(cfg: Config, records: Records, e: Event, id: string, n: nat, t: int)
    requires Counted(records, id, n, t) && n <= Limit(cfg) && t <= e.now <= t + cfg.window
    ensures var n' := n + if Targeted(cfg, records, e, id) then 1 else 0;
      Counted(Do(cfg, records, e).0, id, n', t) && n' <= Limit(cfg)
  {
  }

  lemma {:induction false} WindowBoundFrom(cfg: Config, records: Records, events: seq<Event>, id: string, n: nat, t: int)
    requires Counted(records, id, n, t) && n <= Limit(cfg) && InWindow(cfg, t, events)
    ensures n + CountTargeted(cfg, records, events, id) <= Limit(cfg)
    decreases |events|
  {
    hide Counted, Targeted, Do;
    if events == [] {
    } else {
      CountedStep(cfg, records, events[0], id, n, t);
      var more := if Targeted(cfg, records, events[0], id) then 1 else 0;
      WindowBoundFrom(cfg, Do(cfg, records, events[0]).0, events[1..], id, n + more, t);
    }
  }

  /** From any state, whatever else happens, at most `threshold - 1` escalations by one agent are given
      a target within any window. */
  lemma {:induction false} WindowBound(cfg: Config, records: Records, events: seq<Event>, id: string, t: int)
    requires InWindow(cfg, t, events)
    ensures CountTargeted(cfg, records, events, id) <= Limit(cfg)
  {
    WindowBoundFrom(cfg, records, events, id, 0, t);
  }

  /** Escalations of one agent, one after the other, that could all go to a target. */
  predicate AllBy(events: seq<Event>, id: string) {
    forall i :: 0 <= i < |events| ==> events[i].Escalate? && events[i].from == id && events[i].target.Some?
  }

  lemma {:induction false} BoundIsReachedFrom(cfg: Config, records: Records, events: seq<Event>, id: string, t: int)
    requires AllBy(events, id) && InWindow(cfg, t, events) && cfg.threshold > 0
    requires id in records && t <= records[id].lastEscalation
    requires forall i :: 0 <= i < |events| ==> records[id].lastEscalation <= events[i].now
    requires forall i, j :: 0 <= i < j < |events| ==> events[i].now <= events[j].now
    ensures CountTargeted(cfg, records, events, id) ==
      (if records[id].count + |events| < cfg.threshold then |events|
       else if records[id].count < cfg.threshold then cfg.threshold - 1 - records[id].count
       else 0)
    decreases |events|
  {
    if events == [] {
    } else {
      BoundIsReachedFrom(cfg, Do(cfg, records, events[0]).0, events[1..], id, t);
    }
  }

  /** The bound is exact: of an agent's escalations in a window, after a time without any, just the
      first `threshold - 1` are given a target. */
  lemma {:induction false} BoundIsReached(cfg: Config, records: Records, events: seq<Event>, id: string)
    requires AllBy(events, id) && events != [] && InWindow(cfg, events[0].now, events) && cfg.threshold > 0
    requires forall i, j :: 0 <= i < j < |events| ==> events[i].now <= events[j].now
    requires id in records ==> Stale(cfg, records[id], events[0].now)
    ensures CountTargeted(cfg, records, events, id) == if |events| < cfg.threshold then |events| else cfg.threshold - 1
  {
    var (records', _) := Do(cfg, records, events[0]);
    assert records'[id].count == 1 && records'[id].lastEscalation == events[0].now;
    BoundIsReachedFrom(cfg, records', events[1..], id, events[0].now);
  }

  // ---- Pruning ----

  predicate TimesFrom(t: int, events: seq<Event>)
    decreases |events|
  {
    events == [] || (t <= events[0].now && TimesFrom(events[0].now, events[1..]))
  }

  /** The events without the prunings. */
  function Unpruned(events: seq<Event>): seq<Event> {
    if events == [] then []
    else (if events[0].Prune? then [] else [events[0]]) + Unpruned(events[1..])
  }

  /** The answers of a run, prunings giving none. */
  function Answers(cfg: Config, records: Records, events: seq<Event>): seq<Reply>
    decreases |events|
  {
    if events == [] then []
    else
      var (records', reply) := Do(cfg, records, events[0]);
      (if events[0].Prune? then [] else [reply]) + Answers(cfg, records', events[1..])
  }

  predicate PastTimes(records: Records) {
    forall id :: id in records ==> records[id].lastEscalation >= 0
  }

  /** `fewer` lacks only records that are stale at `now`, a time at which a new record is stale too. */
  predicate ForgetsStale(cfg: Config, records: Records, fewer: Records, now: int) {
    && (forall id :: id in fewer ==> id in records && records[id] == fewer[id])
    && (forall id :: id in records && id !in fewer ==> Stale(cfg, records[id], now) && now > cfg.window)
  }

  lemma SameAnswer(cfg: Config, records: Records, fewer: Records, e: Event, t: int)
    requires ForgetsStale(cfg, records, fewer, t) && PastTimes(records) && 0 <= t <= e.now && !e.Prune?
    ensures Do(cfg, records, e).1 == Do(cfg, fewer, e).1
    ensures ForgetsStale(cfg, Do(cfg, records, e).0, Do(cfg, fewer, e).0, e.now) && PastTimes(Do(cfg, records, e).0)
  {
  }

  lemma PruneForgetsStale(cfg: Config, records: Records, fewer: Records, t: int, now: int)
    requires ForgetsStale(cfg, records, fewer, t) && PastTimes(records) && t <= now
    ensures ForgetsStale(cfg, records, Pruned(cfg, fewer, now), now)
  {
  }

  lemma {:induction false} PruningFrom(cfg: Config, records: Records, fewer: Records, events: seq<Event>, t: int)
    requires ForgetsStale(cfg, records, fewer, t) && PastTimes(records) && 0 <= t && TimesFrom(t, events)
    ensures Answers(cfg, fewer, events) == Answers(cfg, records, Unpruned(events))
    decreases |events|
  {
    hide ForgetsStale, PastTimes;
    if events == [] {
    } else {
      var e, rest := events[0], Unpruned(events[1..]);
      if e.Prune? {
        PruneForgetsStale(cfg, records, fewer, t, e.now);
        PruningFrom(cfg, records, Pruned(cfg, fewer, e.now), events[1..], e.now);
        assert Unpruned(events) == rest;
      } else {
        hide Do;
        SameAnswer(cfg, records, fewer, e, t);
        PruningFrom(cfg, Do(cfg, records, e).0, Do(cfg, fewer, e).0, events[1..], e.now);
        assert Unpruned(events) == [e] + rest;
        assert ([e] + rest)[1..] == rest;
      }
    }
  }

  /** Over any run with a clock that does not go back, pruning at any moments changes no answer. */
  lemma {:induction false} PruningIsInvisible(cfg: Config, records: Records, events: seq<Event>, t: int)
    requires PastTimes(records) && 0 <= t && TimesFrom(t, events)
    ensures Answers(cfg, records, events) == Answers(cfg, records, Unpruned(events))
  {
    PruningFrom(cfg, records, records, events, t);
  }
}
