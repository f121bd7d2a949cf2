/** Crash recovery: however attempts at a workflow are disturbed, resuming from the checkpoint store
    ends where one undisturbed run would have ended. */
module Recovery {
  import opened Options
  import opened Graphs
  import opened Workflows
  import opened Durable

  /** The state without the two keys that a failure leaves behind. */
  function Strip(state: Record): Record {
    state - {FAILED_STEP, ERROR}
  }

  ghost predicate Same(s: Record, t: Record) {
    Strip(s) == Strip(t)
  }

  /** The executor does not look at the failure keys. */
  ghost predicate IgnoresFailureKeys(exec: Executor) {
    forall s, state :: exec(s, state) == exec(s, Strip(state))
  }

  /** The state after the first `k` steps of an undisturbed run. */
  function Ideal(ord: seq<Step>, exec: Executor, init: Record, k: nat): Record
    requires k <= |ord|
  {
    if k == 0 then init
    else
      var before := Ideal(ord, exec, init, k - 1);
      Advance(before, ord[k - 1], exec(ord[k - 1], before))
  }

  lemma {:induction false} AdvanceSame(s: Record, t: Record, step: Step, result: Record)
    requires Same(s, t)
    ensures Same(Advance(s, step, result), Advance(t, step, result))
  {
    var u: Record := result + map["__step_" + step.id := Obj(result)];
    assert Advance(s, step, result) == s + u && Advance(t, step, result) == t + u;
    StripOver(s, u);
    StripOver(t, u);
  }

  lemma StripOver(s: Record, u: Record)
    ensures Strip(s + u) == Strip(s) + Strip(u)
  {
  }

  lemma WithFailureSame(s: Record, step: Step, message: string)
    ensures Same(WithFailure(s, step, message), s)
  {
  }

  lemma {:induction false} StepSame(ord: seq<Step>, exec: Executor, init: Record, k: nat, state: Record)
    requires IgnoresFailureKeys(exec) && k < |ord| && Same(state, Ideal(ord, exec, init, k))
    ensures Same(Advance(state, ord[k], exec(ord[k], state)), Ideal(ord, exec, init, k + 1))
  {
    var ideal := Ideal(ord, exec, init, k);
    assert exec(ord[k], state) == exec(ord[k], Strip(state)) == exec(ord[k], ideal);
    AdvanceSame(state, ideal, ord[k], exec(ord[k], ideal));
  }

  // ---- What the store holds ----

  /** The checkpoint holds what an undisturbed run has after its step. */
  ghost predicate Faithful(ord: seq<Step>, exec: Executor, init: Record, c: Checkpoint) {
    -1 <= c.stepIndex < |ord| && Same(c.state, Ideal(ord, exec, init, c.stepIndex + 1))
  }

  /** Every checkpoint that may be taken for the latest is faithful. */
  ghost predicate Sound(ord: seq<Step>, exec: Executor, init: Record, rows: seq<Checkpoint>, id: string) {
    forall c :: IsLatest(rows, id, c) ==> Faithful(ord, exec, init, c)
  }

  ghost predicate Below(rows: seq<Checkpoint>, id: string, c: Checkpoint) {
    exists d :: d in rows && d.workflowId == id && c.stepIndex < d.stepIndex
  }

  lemma {:induction false} SaveFaithful(ord: seq<Step>, exec: Executor, init: Record, rows: seq<Checkpoint>, id: string, c: Checkpoint)
    requires Sound(ord, exec, init, rows, id) && c.workflowId == id && Faithful(ord, exec, init, c)
    ensures Sound(ord, exec, init, Inserted(rows, c), id)
  {
    hide Faithful;
    var rows' := Inserted(rows, c);
    forall l | IsLatest(rows', id, l)
      ensures Faithful(ord, exec, init, l)
    {
      if l != c {
        assert c in rows';
        assert c.stepIndex <= l.stepIndex;
        forall d | d in rows && d.workflowId == id
          ensures d.stepIndex <= l.stepIndex
        {
          if !SameKey(c, d) {
            assert d in rows';
          }
        }
        assert IsLatest(rows, id, l);
      }
    }
  }

  lemma {:induction false} SaveBelow(ord: seq<Step>, exec: Executor, init: Record, rows: seq<Checkpoint>, id: string, c: Checkpoint)
    requires Sound(ord, exec, init, rows, id) && c.workflowId == id && Below(rows, id, c)
    ensures Sound(ord, exec, init, Inserted(rows, c), id)
  {
    hide Faithful;
    var rows' := Inserted(rows, c);
    var above :| above in rows && above.workflowId == id && c.stepIndex < above.stepIndex;
    assert above in rows';
    forall l | IsLatest(rows', id, l)
      ensures Faithful(ord, exec, init, l)
    {
      assert above.stepIndex <= l.stepIndex;
      forall d | d in rows && d.workflowId == id
        ensures d.stepIndex <= l.stepIndex
      {
        if !SameKey(c, d) {
          assert d in rows';
        }
      }
      assert IsLatest(rows, id, l);
    }
  }

  /** Attempts never remove the last checkpoint. */
  lemma {:induction false} KeepsCheckpoint(rows: seq<Checkpoint>, id: string, saves: seq<Checkpoint>)
    requires HasCheckpoint(rows, id)
    ensures HasCheckpoint(InsertedAll(rows, saves), id)
    decreases |saves|
  {
    if saves == [] {
    } else {
      var c :| c in rows && c.workflowId == id;
      var rows' := Inserted(rows, saves[0]);
      assert saves[0] in rows';
      assert c in rows' || SameKey(saves[0], c);
      KeepsCheckpoint(rows', id, saves[1..]);
    }
  }

  // ---- One attempt ----

  /** What one pass leaves in the store. */
  ghost function SavesOf(pass: Pass): seq<Checkpoint> {
    match pass
    case Stops(a) => a.saves
    case Goes(c, _) => [c]
  }

  lemma {:induction false} PassKeepsSound(ord: seq<Step>, cfg: Config, exec: Executor, init: Record, rows: seq<Checkpoint>,
                       e: Surroundings, i: nat, state: Record)
    requires IgnoresFailureKeys(exec) && i < |ord| && Same(state, Ideal(ord, exec, init, i))
    requires Sound(ord, exec, init, rows, cfg.workflowId)
    ensures Sound(ord, exec, init, InsertedAll(rows, SavesOf(PassOver(cfg, exec, ord[i], e, i, |ord|, state))), cfg.workflowId)
  {
    hide Ideal, Same, Advance, WithFailure, NeedsApproval, Inserted, Sound;
    var pass := PassOver(cfg, exec, ord[i], e, i, |ord|, state);
    var saves := SavesOf(pass);
    StepSame(ord, exec, init, i, state);
    if |saves| == 0 {
      InsertedNone(rows);
    } else if |saves| == 1 {
      assert saves == [saves[0]];
      InsertedOne(rows, saves[0]);
      if e.failure.Some? {
        SameWithFailure(state, ord[i], e.failure.value, Ideal(ord, exec, init, i));
      }
      SaveFaithful(ord, exec, init, rows, cfg.workflowId, saves[0]);
    } else {
      assert saves == [saves[0], saves[1]];
      InsertedTwo(rows, saves[0], saves[1]);
      SaveFaithful(ord, exec, init, rows, cfg.workflowId, saves[0]);
      assert Below(Inserted(rows, saves[0]), cfg.workflowId, saves[1]);
      SaveBelow(ord, exec, init, Inserted(rows, saves[0]), cfg.workflowId, saves[1]);
    }
  }

  lemma {:induction false} InsertedOne(rows: seq<Checkpoint>, c: Checkpoint)
    ensures InsertedAll(rows, [c]) == Inserted(rows, c)
  {
    assert InsertedAll(Inserted(rows, c), []) == Inserted(rows, c);
  }

  lemma {:induction false} SameWithFailure(s: Record, step: Step, message: string, t: Record)
    requires Same(s, t)
    ensures Same(WithFailure(s, step, message), t)
  {
    WithFailureSame(s, step, message);
  }

  /** An attempt that starts as an undisturbed run would leaves the store sound, and if it
      completes, its final state is the undisturbed one. */
  lemma {:induction false} AttemptKeepsSound(ord: seq<Step>, cfg: Config, exec: Executor, init: Record, rows: seq<Checkpoint>,
                                             env: Environment, i: nat, status: Status, reason: Option<string>, state: Record)
    requires IgnoresFailureKeys(exec) && i <= |ord| && Same(state, Ideal(ord, exec, init, i))
    requires Sound(ord, exec, init, rows, cfg.workflowId)
    ensures var a := AttemptFrom(ord, cfg, exec, env, i, status, reason, state);
      && Sound(ord, exec, init, InsertedAll(rows, a.saves), cfg.workflowId)
      && (Completes(a) ==> Same(a.ending.result.finalState, Ideal(ord, exec, init, |ord|)))
    decreases |ord| - i
  {
    hide Ideal, Same, Sound, PassOver, InsertedAll, IgnoresFailureKeys;
    InsertedNone(rows);
    if i < |ord| && status != Paused && status != Aborted {
      PassKeepsSound(ord, cfg, exec, init, rows, env(i), i, state);
      var pass := PassOver(cfg, exec, ord[i], env(i), i, |ord|, state);
      StopsIncomplete(cfg, exec, ord[i], env(i), i, |ord|, state);
      if pass.Goes? {
        GoesAhead(cfg, exec, ord[i], env(i), i, |ord|, state);
        StepSame(ord, exec, init, i, state);
        var rest := AttemptFrom(ord, cfg, exec, env, i + 1, Requested(env(i).interrupt, status), Reason(env(i).interrupt, reason), pass.next);
        AttemptKeepsSound(ord, cfg, exec, init, InsertedAll(rows, [pass.saved]), env, i + 1,
                          Requested(env(i).interrupt, status), Reason(env(i).interrupt, reason), pass.next);
        InsertedAllConcat(rows, [pass.saved], rest.saves);
      }
    }
  }

  ghost predicate Completes(a: Attempt) {
    a.ending.Returned? && a.ending.result.status == Completed
  }

  lemma StopsIncomplete(cfg: Config, exec: Executor, s: Step, e: Surroundings, i: nat, n: nat, state: Record)
    ensures var p := PassOver(cfg, exec, s, e, i, n, state); p.Stops? ==> !Completes(p.attempt)
  {
  }

  lemma GoesAhead(cfg: Config, exec: Executor, s: Step, e: Surroundings, i: nat, n: nat, state: Record)
    ensures var p := PassOver(cfg, exec, s, e, i, n, state); p.Goes? ==> p.next == Advance(state, s, exec(s, state))
  {
  }

  /** Nothing disturbs the attempt: no crash, no failure, no request, and every approval is given. */
  ghost predicate Calm(env: Environment) {
    forall i: nat :: IsCalm(env(i))
  }

  predicate IsCalm(e: Surroundings) {
    e.approved && e.failure == None && e.callbackError == None && e.interrupt == NoInterrupt && e.crash == NoCrash
  }

  lemma {:induction false} CalmCompletes(ord: seq<Step>, cfg: Config, exec: Executor, env: Environment,
                                         i: nat, reason: Option<string>, state: Record)
    requires Calm(env)
    ensures Completes(AttemptFrom(ord, cfg, exec, env, i, Running, reason, state))
    decreases |ord| - i
  {
    hide Advance;
    if i < |ord| {
      assert IsCalm(env(i));
      var pass := PassOver(cfg, exec, ord[i], env(i), i, |ord|, state);
      CalmCompletes(ord, cfg, exec, env, i + 1, reason, pass.next);
    }
  }

  /** The reference of the recovery theorem is what one undisturbed run returns. */
  lemma {:induction false} UndisturbedRun(ord: seq<Step>, cfg: Config, exec: Executor, env: Environment, init: Record,
                                          i: nat, reason: Option<string>)
    requires Calm(env) && i <= |ord|
    ensures var a := AttemptFrom(ord, cfg, exec, env, i, Running, reason, Ideal(ord, exec, init, i));
      Completes(a) && a.ending.result.finalState == Ideal(ord, exec, init, |ord|)
    decreases |ord| - i
  {
    hide Advance, NeedsApproval;
    if i < |ord| {
      assert IsCalm(env(i));
      UndisturbedRun(ord, cfg, exec, env, init, i + 1, reason);
    }
  }

  // ---- Histories ----

  /** One call: a fresh run, or a resume from `from`; `reason` is what an earlier abort left in the
      object. */
  datatype Call =
    | RunCall(env: Environment, reason: Option<string>)
    | ResumeCall(env: Environment, reason: Option<string>, from: Checkpoint)

  ghost function AttemptOf(ord: seq<Step>, cfg: Config, exec: Executor, init: Record, call: Call): Attempt {
    match call
    case RunCall(env, reason) => AttemptFrom(ord, cfg, exec, env, 0, Running, reason, init)
    case ResumeCall(env, reason, from) =>
      if from.stepIndex < -1 then Attempt([], Crashed)
      else AttemptFrom(ord, cfg, exec, env, from.stepIndex + 1, Running, reason, from.state)
  }

  /** The store after the calls, from `rows` on. */
  ghost function RowsAfter(ord: seq<Step>, cfg: Config, exec: Executor, init: Record, rows: seq<Checkpoint>, calls: seq<Call>): seq<Checkpoint>
    decreases |calls|
  {
    if calls == [] then rows
    else InsertedAll(RowsAfter(ord, cfg, exec, init, rows, calls[..|calls| - 1]), AttemptOf(ord, cfg, exec, init, calls[|calls| - 1]).saves)
  }

  /** Each resume starts from what the store returned as the latest checkpoint at that time. */
  ghost predicate Legal(ord: seq<Step>, cfg: Config, exec: Executor, init: Record, rows: seq<Checkpoint>, calls: seq<Call>) {
    forall k :: 0 <= k < |calls| && calls[k].ResumeCall? ==>
      IsLatest(RowsAfter(ord, cfg, exec, init, rows, calls[..k]), cfg.workflowId, calls[k].from)
  }

  lemma {:induction false} HistoryKeepsSound(ord: seq<Step>, cfg: Config, exec: Executor, init: Record, rows: seq<Checkpoint>, calls: seq<Call>)
    requires IgnoresFailureKeys(exec) && Sound(ord, exec, init, rows, cfg.workflowId)
    requires Legal(ord, cfg, exec, init, rows, calls)
    ensures Sound(ord, exec, init, RowsAfter(ord, cfg, exec, init, rows, calls), cfg.workflowId)
    ensures calls != [] ==>
      var a := AttemptOf(ord, cfg, exec, init, calls[|calls| - 1]);
      Completes(a) ==> Same(a.ending.result.finalState, Ideal(ord, exec, init, |ord|))
    decreases |calls|
  {
    hide Ideal, Same, AttemptFrom, IgnoresFailureKeys, Advance;
    if calls == [] {
    } else {
      var n := |calls| - 1;
      var front, call := calls[..n], calls[n];
      LegalPrefix(ord, cfg, exec, init, rows, calls);
      HistoryKeepsSound(ord, cfg, exec, init, rows, front);
      var rows' := RowsAfter(ord, cfg, exec, init, rows, front);
      match call
      case RunCall(env, reason) =>
        assert Same(init, Ideal(ord, exec, init, 0)) by { IdealStart(ord, exec, init); }
        AttemptKeepsSound(ord, cfg, exec, init, rows', env, 0, Running, reason, init);
      case ResumeCall(env, reason, from) =>
        assert Faithful(ord, exec, init, from);
        AttemptKeepsSound(ord, cfg, exec, init, rows', env, from.stepIndex + 1, Running, reason, from.state);
    }
  }

  lemma IdealStart(ord: seq<Step>, exec: Executor, init: Record)
    ensures Same(init, Ideal(ord, exec, init, 0))
  {
  }

  lemma {:induction false} LegalPrefix(ord: seq<Step>, cfg: Config, exec: Executor, init: Record, rows: seq<Checkpoint>, calls: seq<Call>)
    requires Legal(ord, cfg, exec, init, rows, calls) && calls != []
    ensures Legal(ord, cfg, exec, init, rows, calls[..|calls| - 1])
  {
    hide RowsAfter, IsLatest;
    var front := calls[..|calls| - 1];
    forall k | 0 <= k < |front| && front[k].ResumeCall?
      ensures IsLatest(RowsAfter(ord, cfg, exec, init, rows, front[..k]), cfg.workflowId, front[k].from)
    {
      assert front[..k] == calls[..k] && front[k] == calls[k];
    }
  }

  /** A history that starts with no checkpoint of the workflow in the store recovers: whatever
      crashed, failed, threw, was refused, paused or aborted before, a call that completes returns
      the state of one undisturbed run, up to the failure keys; and once a checkpoint exists, an
      undisturbed resume does complete. */
  lemma {:induction false} HistoriesRecover(ord: seq<Step>, cfg: Config, exec: Executor, init: Record, rows: seq<Checkpoint>, calls: seq<Call>)
    requires IgnoresFailureKeys(exec) && !HasCheckpoint(rows, cfg.workflowId)
    requires Legal(ord, cfg, exec, init, rows, calls)
    ensures calls != [] ==>
      var a := AttemptOf(ord, cfg, exec, init, calls[|calls| - 1]);
      Completes(a) ==> Same(a.ending.result.finalState, Ideal(ord, exec, init, |ord|))
    ensures forall env, reason, from {:trigger ResumeCall(env, reason, from)} ::
      Calm(env) && IsLatest(RowsAfter(ord, cfg, exec, init, rows, calls), cfg.workflowId, from) ==>
        var a := AttemptOf(ord, cfg, exec, init, ResumeCall(env, reason, from));
        Completes(a) && Same(a.ending.result.finalState, Ideal(ord, exec, init, |ord|))
  {
    hide Ideal, Same, AttemptFrom, IgnoresFailureKeys, RowsAfter, Legal, Calm;
    assert Sound(ord, exec, init, rows, cfg.workflowId);
    HistoryKeepsSound(ord, cfg, exec, init, rows, calls);
    var rows' := RowsAfter(ord, cfg, exec, init, rows, calls);
    forall env, reason, from | Calm(env) && IsLatest(rows', cfg.workflowId, from)
      ensures var a := AttemptOf(ord, cfg, exec, init, ResumeCall(env, reason, from));
        Completes(a) && Same(a.ending.result.finalState, Ideal(ord, exec, init, |ord|))
    {
      assert Faithful(ord, exec, init, from);
      AttemptKeepsSound(ord, cfg, exec, init, rows', env, from.stepIndex + 1, Running, reason, from.state);
      CalmCompletes(ord, cfg, exec, env, from.stepIndex + 1, reason, from.state);
    }
  }

  // ---- A store that already holds checkpoints ----

  /** An executor that adds nothing. */
  const IDLE: Executor := (s: Step, state: Record) => map[]

  const KEY := "k"

  lemma {:induction false} IdleKeepsKey(ord: seq<Step>, cfg: Config, env: Environment, i: nat, reason: Option<string>, state: Record)
    requires Calm(env)
    ensures var a := AttemptFrom(ord, cfg, IDLE, env, i, Running, reason, state);
      && Completes(a)
      && (KEY in a.ending.result.finalState <==> KEY in state)
      && (KEY in state ==> a.ending.result.finalState[KEY] == state[KEY])
    decreases |ord| - i
  {
    hide NeedsApproval;
    if i < |ord| {
      assert IsCalm(env(i));
      var pass := PassOver(cfg, IDLE, ord[i], env(i), i, |ord|, state);
      assert ("__step_" + ord[i].id)[0] == '_';
      IdleKeepsKey(ord, cfg, env, i + 1, reason, pass.next);
    }
  }

  lemma {:induction false} IdleIdealKeepsKey(ord: seq<Step>, init: Record, k: nat)
    requires k <= |ord|
    ensures KEY in Ideal(ord, IDLE, init, k) <==> KEY in init
    ensures KEY in init ==> Ideal(ord, IDLE, init, k)[KEY] == init[KEY]
  {
    if k == 0 {
    } else {
      IdleIdealKeepsKey(ord, init, k - 1);
      assert ("__step_" + ord[k - 1].id)[0] == '_';
    }
  }

  const CALM := Surroundings(true, None, None, NoInterrupt, NoCrash, 0)

  /** The condition of `HistoriesRecover` is needed: over any checkpoint that an earlier run of the
      same workflow left behind, some run that dies at once and is then resumed completes with a
      state that no undisturbed run of its own would have. */
  lemma {:induction false} LeftoverCheckpointBreaksRecovery(ord: seq<Step>, cfg: Config, rows: seq<Checkpoint>)
    returns (exec: Executor, init: Record, calls: seq<Call>)
    requires HasCheckpoint(rows, cfg.workflowId)
    requires forall c :: c in rows ==> -1 <= c.stepIndex
    ensures IgnoresFailureKeys(exec) && Legal(ord, cfg, exec, init, rows, calls) && |calls| == 2
    ensures calls[0].RunCall? && calls[1].ResumeCall?
    ensures var a := AttemptOf(ord, cfg, exec, init, calls[1]);
      Completes(a) && !Same(a.ending.result.finalState, Ideal(ord, exec, init, |ord|))
  {
    hide AttemptFrom, Ideal;
    var from := PickLatest(rows, cfg.workflowId);
    var value := if KEY in from.state && from.state[KEY] == Null then Bool(true) else Null;
    exec := IDLE;
    init := map[KEY := value];
    var calm: Environment := (i: nat) => CALM;
    var dead: Environment := (i: nat) => CALM.(crash := BeforeStep);
    calls := [RunCall(dead, None), ResumeCall(calm, None, from)];
    DeadThenResumeIsLegal(ord, cfg, exec, init, rows, calls);
    IdleKeepsKey(ord, cfg, calm, from.stepIndex + 1, None, from.state);
    IdleIdealKeepsKey(ord, init, |ord|);
    var final := AttemptOf(ord, cfg, exec, init, calls[1]).ending.result.finalState;
    var ideal := Ideal(ord, exec, init, |ord|);
    assert ideal[KEY] == value;
    assert KEY in Strip(ideal) && Strip(ideal)[KEY] == value;
    assert KEY in Strip(final) ==> Strip(final)[KEY] != value;
  }

  lemma {:induction false} DeadThenResumeIsLegal(ord: seq<Step>, cfg: Config, exec: Executor, init: Record, rows: seq<Checkpoint>, calls: seq<Call>)
    requires |calls| == 2 && calls[0].RunCall? && calls[1].ResumeCall?
    requires ord != [] ==> calls[0].env(0).crash == BeforeStep
    requires IsLatest(rows, cfg.workflowId, calls[1].from)
    ensures Legal(ord, cfg, exec, init, rows, calls)
  {
    var first := calls[..1];
    assert first[..0] == [] && |first| == 1 && first[0] == calls[0];
    assert RowsAfter(ord, cfg, exec, init, rows, []) == rows;
    assert AttemptOf(ord, cfg, exec, init, first[0]).saves == [];
    InsertedNone(rows);
    assert RowsAfter(ord, cfg, exec, init, rows, first) == rows;
  }

  lemma {:induction false} PickLatest(rows: seq<Checkpoint>, id: string) returns (c: Checkpoint)
    requires HasCheckpoint(rows, id)
    ensures IsLatest(rows, id, c)
  {
    c :| c in rows && c.workflowId == id;
    for k := 0 to |rows|
      invariant c in rows && c.workflowId == id
      invariant forall d :: d in rows[..k] && d.workflowId == id ==> d.stepIndex <= c.stepIndex
    {
      assert rows[..k + 1] == rows[..k] + [rows[k]];
      if rows[k].workflowId == id && c.stepIndex < rows[k].stepIndex {
        c := rows[k];
      }
    }
    assert rows[..|rows|] == rows;
  }
}
