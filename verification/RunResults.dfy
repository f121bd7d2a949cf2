/** What an attempt computes, in terms of what its steps returned and of what disturbed it. */
module RunResults {
  import opened Options
  import opened Graphs
  import opened Workflows
  import opened Durable

  /** The key under which a step keeps its whole result. */
  function OwnKey(s: Step): string {
    "__step_" + s.id
  }

  predicate Writes(s: Step, result: Record, key: string) {
    key == OwnKey(s) || key in result
  }

  /** In a step's own key stands the result as one object, in any other key what the result has. */
  function Written(s: Step, result: Record, key: string): Json
    requires Writes(s, result, key)
  {
    if key == OwnKey(s) then Obj(result) else result[key]
  }

  /** Every key has the value of the last step that wrote it, and its first value if none did; there
      are no other keys. */
  ghost predicate LastWriteWins(steps: seq<Step>, results: seq<Record>, init: Record, final: Record)
    requires |steps| == |results|
  {
    forall key: string :: KeyLastWritten(steps, results, init, final, key)
  }

  ghost predicate KeyLastWritten(steps: seq<Step>, results: seq<Record>, init: Record, final: Record, key: string)
    requires |steps| == |results|
  {
    && (key in final <==> key in init || !NoWriter(steps, results, key))
    && (forall j :: 0 <= j < |steps| && LastWriter(steps, results, key, j) ==>
          key in final && final[key] == Written(steps[j], results[j], key))
    && (NoWriter(steps, results, key) && key in init ==> final[key] == init[key])
  }

  ghost predicate LastWriter(steps: seq<Step>, results: seq<Record>, key: string, j: int)
    requires |steps| == |results| && 0 <= j < |steps|
  {
    && Writes(steps[j], results[j], key)
    && forall l :: j < l < |steps| ==> !Writes(steps[l], results[l], key)
  }

  ghost predicate NoWriter(steps: seq<Step>, results: seq<Record>, key: string)
    requires |steps| == |results|
  {
    forall j :: 0 <= j < |steps| ==> !Writes(steps[j], results[j], key)
  }

  /** The state in which step `j` was executed, by an attempt from step `i` in `state` on. */
  function StateBefore(saves: seq<Checkpoint>, i: nat, state: Record, j: nat): Record
    requires i <= j <= i + |saves|
  {
    if j == i then state else saves[j - i - 1].state
  }

  /** What the steps from `i` up to `m` returned. */
  function ResultsOf(ord: seq<Step>, exec: Executor, saves: seq<Checkpoint>, i: nat, state: Record, m: nat): seq<Record>
    requires i <= m <= |ord| && m - i <= |saves|
  {
    seq(m - i, k requires 0 <= k < m - i => exec(ord[i + k], StateBefore(saves, i, state, i + k)))
  }

  /** Nothing ends the attempt in the pass over this step, or right after it. */
  predicate PassesBy(cfg: Config, s: Step, e: Surroundings) {
    && e.crash == NoCrash
    && e.interrupt == NoInterrupt
    && e.failure == None
    && (cfg.notifies ==> e.callbackError == None)
    && (cfg.approvalRequired.Some? && s.id in cfg.approvalRequired.value && cfg.asksForApproval ==> e.approved)
  }

  ghost predicate UndisturbedUpTo(ord: seq<Step>, cfg: Config, env: Environment, i: nat, m: nat)
    requires m <= |ord|
  {
    forall j :: i <= j < m ==> PassesBy(cfg, ord[j], env(j))
  }

  // ---- One step ----

  lemma {:induction false} StepWrites(state: Record, s: Step, result: Record)
    ensures LastWriteWins([s], [result], state, Advance(state, s, result))
  {
    forall key: string
      ensures KeyLastWritten([s], [result], state, Advance(state, s, result), key)
    {
      OneWriter(s, result, key);
    }
  }

  lemma OneWriter(s: Step, result: Record, key: string)
    ensures LastWriter([s], [result], key, 0) <==> Writes(s, result, key)
    ensures NoWriter([s], [result], key) <==> !Writes(s, result, key)
  {
    assert Writes([s][0], [result][0], key) <==> Writes(s, result, key);
  }

  lemma {:induction false} WritesCompose(steps: seq<Step>, results: seq<Record>, s: Step, result: Record,
                                         init: Record, middle: Record, final: Record)
    requires |steps| == |results|
    requires LastWriteWins(steps, results, init, middle) && LastWriteWins([s], [result], middle, final)
    ensures LastWriteWins(steps + [s], results + [result], init, final)
  {
    hide LastWriter, NoWriter, Writes, Written;
    forall key: string
      ensures KeyLastWritten(steps + [s], results + [result], init, final, key)
    {
      assert KeyLastWritten(steps, results, init, middle, key) && KeyLastWritten([s], [result], middle, final, key);
      OneWriter(s, result, key);
      WritersOfBoth(steps, results, s, result, key);
    }
  }

  lemma {:induction false} WritersOfBoth(steps: seq<Step>, results: seq<Record>, s: Step, result: Record, key: string)
    requires |steps| == |results|
    ensures var steps', results' := steps + [s], results + [result];
      && (NoWriter(steps', results', key) <==> NoWriter(steps, results, key) && !Writes(s, result, key))
      && (LastWriter(steps', results', key, |steps|) <==> Writes(s, result, key))
      && (forall j :: 0 <= j < |steps| ==>
            (LastWriter(steps', results', key, j) <==> LastWriter(steps, results, key, j) && !Writes(s, result, key)))
  {
    hide Writes;
    var n, steps', results' := |steps|, steps + [s], results + [result];
    assert forall j :: 0 <= j < n ==> steps'[j] == steps[j] && results'[j] == results[j];
    assert steps'[n] == s && results'[n] == result;
  }

  // ---- One attempt ----

  /** The first `m - i` checkpoints are those after the steps `i` up to `m`, and the states in them
      hold what the steps returned. */
  ghost predicate StepsSaved(ord: seq<Step>, cfg: Config, exec: Executor, i: nat, m: nat, state: Record, saves: seq<Checkpoint>)
    requires i <= m <= |ord| && m - i <= |saves|
  {
    && (forall k :: 0 <= k < m - i ==> saves[k].workflowId == cfg.workflowId && saves[k].stepIndex == i + k)
    && LastWriteWins(ord[i..m], ResultsOf(ord, exec, saves, i, state, m), state, StateBefore(saves, i, state, m))
  }

  lemma {:induction false} OneMoreSaved(ord: seq<Step>, cfg: Config, exec: Executor, i: nat, m: nat, state: Record, saves: seq<Checkpoint>)
    requires i <= m < |ord| && m - i < |saves| && StepsSaved(ord, cfg, exec, i, m, state, saves)
    requires var before := StateBefore(saves, i, state, m);
      && saves[m - i].workflowId == cfg.workflowId && saves[m - i].stepIndex == m
      && saves[m - i].state == Advance(before, ord[m], exec(ord[m], before))
    ensures StepsSaved(ord, cfg, exec, i, m + 1, state, saves)
  {
    hide LastWriteWins, Advance;
    var before := StateBefore(saves, i, state, m);
    var result := exec(ord[m], before);
    StepWrites(before, ord[m], result);
    WritesCompose(ord[i..m], ResultsOf(ord, exec, saves, i, state, m), ord[m], result, state, before, saves[m - i].state);
    assert ord[i..m + 1] == ord[i..m] + [ord[m]];
    assert ResultsOf(ord, exec, saves, i, state, m + 1) == ResultsOf(ord, exec, saves, i, state, m) + [result];
  }

  lemma {:induction false} NoneSaved(ord: seq<Step>, cfg: Config, exec: Executor, i: nat, state: Record, saves: seq<Checkpoint>)
    requires i <= |ord|
    ensures StepsSaved(ord, cfg, exec, i, i, state, saves)
  {
    assert ord[i..i] == [] && ResultsOf(ord, exec, saves, i, state, i) == [];
  }

  lemma PassGoes(cfg: Config, exec: Executor, s: Step, e: Surroundings, i: nat, n: nat, state: Record)
    requires PassesBy(cfg, s, e)
    ensures PassOver(cfg, exec, s, e, i, n, state)
      == Goes(Checkpoint(cfg.workflowId, i, Advance(state, s, exec(s, state)), e.clock), Advance(state, s, exec(s, state)))
  {
  }

  lemma {:induction false} AttemptGoes(ord: seq<Step>, cfg: Config, exec: Executor, env: Environment, i: nat, reason: Option<string>, state: Record)
    requires i < |ord| && PassesBy(cfg, ord[i], env(i))
    ensures var next := Advance(state, ord[i], exec(ord[i], state));
      var rest := AttemptFrom(ord, cfg, exec, env, i + 1, Running, reason, next);
      AttemptFrom(ord, cfg, exec, env, i, Running, reason, state)
        == Attempt([Checkpoint(cfg.workflowId, i, next, env(i).clock)] + rest.saves, rest.ending)
  {
    hide Advance, PassOver;
    PassGoes(cfg, exec, ord[i], env(i), i, |ord|, state);
  }

  /** Steps that pass by leave their checkpoints, and the attempt goes on after them from the state
      in the last one. */
  lemma {:induction false} StepsPassBy(ord: seq<Step>, cfg: Config, exec: Executor, env: Environment,
                                       i: nat, m: nat, reason: Option<string>, state: Record)
    requires i <= m <= |ord| && UndisturbedUpTo(ord, cfg, env, i, m)
    ensures var a := AttemptFrom(ord, cfg, exec, env, i, Running, reason, state);
      && m - i <= |a.saves|
      && StepsSaved(ord, cfg, exec, i, m, state, a.saves)
      && var rest := AttemptFrom(ord, cfg, exec, env, m, Running, reason, StateBefore(a.saves, i, state, m));
      a.saves == a.saves[..m - i] + rest.saves && a.ending == rest.ending
    decreases m
  {
    hide StepsSaved, AttemptFrom, Advance, PassesBy;
    var a := AttemptFrom(ord, cfg, exec, env, i, Running, reason, state);
    if m == i {
      assert a.saves[..0] == [];
      NoneSaved(ord, cfg, exec, i, state, a.saves);
    } else {
      StepsPassBy(ord, cfg, exec, env, i, m - 1, reason, state);
      var before := StateBefore(a.saves, i, state, m - 1);
      var rest := AttemptFrom(ord, cfg, exec, env, m - 1, Running, reason, before);
      assert PassesBy(cfg, ord[m - 1], env(m - 1));
      AttemptGoes(ord, cfg, exec, env, m - 1, reason, before);
      assert a.saves[m - 1 - i] == rest.saves[0];
      assert a.saves[..m - i] == a.saves[..m - 1 - i] + [rest.saves[0]];
      OneMoreSaved(ord, cfg, exec, i, m - 1, state, a.saves);
    }
  }

  // ---- How an attempt ends ----

  /** An attempt in which every step passes by completes, from the first step or from the one after a
      checkpoint: each key of its final state has the value of the last step that wrote it, and what
      stood in the state it started from where no step did. */
  lemma {:induction false} CompletesWithResults(ord: seq<Step>, cfg: Config, exec: Executor, env: Environment,
                                                i: nat, reason: Option<string>, state: Record)
    requires i <= |ord| && UndisturbedUpTo(ord, cfg, env, i, |ord|)
    ensures var a := AttemptFrom(ord, cfg, exec, env, i, Running, reason, state);
      && |a.saves| == |ord| - i
      && StepsSaved(ord, cfg, exec, i, |ord|, state, a.saves)
      && a.ending == Returned(WorkflowResult(cfg.workflowId, Completed, |ord|, |ord|, StateBefore(a.saves, i, state, |ord|), None, None))
  {
    hide StepsSaved;
    StepsPassBy(ord, cfg, exec, env, i, |ord|, reason, state);
  }

  /** The step is one of those that wait for approval, and somebody is there to give it. */
  predicate Refused(cfg: Config, s: Step, e: Surroundings) {
    && cfg.approvalRequired.Some? && s.id in cfg.approvalRequired.value && cfg.asksForApproval
    && !e.approved
  }

  /** A refused approval pauses before the step and saves the state it would have started from. */
  lemma {:induction false} PausesWhenRefused(ord: seq<Step>, cfg: Config, exec: Executor, env: Environment,
                                             i: nat, m: nat, reason: Option<string>, state: Record)
    requires i <= m < |ord| && UndisturbedUpTo(ord, cfg, env, i, m)
    requires env(m).crash != BeforeStep && Refused(cfg, ord[m], env(m))
    ensures var a := AttemptFrom(ord, cfg, exec, env, i, Running, reason, state);
      && |a.saves| == m - i + 1
      && StepsSaved(ord, cfg, exec, i, m, state, a.saves)
      && var reached := StateBefore(a.saves, i, state, m);
      && a.saves[m - i] == Checkpoint(cfg.workflowId, m - 1, reached, env(m).clock)
      && a.ending == Returned(WorkflowResult(cfg.workflowId, Paused, m, |ord|, reached, Some(ord[m].id), None))
  {
    hide StepsSaved;
    StepsPassBy(ord, cfg, exec, env, i, m, reason, state);
  }

  /** The state with the id of the failed step and its message noted in it, and otherwise as it was. */
  ghost predicate FailureNoted(before: Record, after: Record, s: Step, message: string) {
    && after.Keys == before.Keys + {"__failedStep", "__error"}
    && after["__failedStep"] == Str(s.id) && after["__error"] == Str(message)
    && (forall key :: key in before && key != "__failedStep" && key != "__error" ==> after[key] == before[key])
  }

  lemma NotesFailure(state: Record, s: Step, message: string)
    ensures FailureNoted(state, WithFailure(state, s, message), s, message)
  {
  }

  /** A step that throws fails the attempt: the state before it is returned, and saved with the
      failure noted, under the index before the step. */
  lemma {:induction false} FailsWithStep(ord: seq<Step>, cfg: Config, exec: Executor, env: Environment,
                                         i: nat, m: nat, reason: Option<string>, state: Record)
    requires i <= m < |ord| && UndisturbedUpTo(ord, cfg, env, i, m)
    requires env(m).crash != BeforeStep && env(m).crash != BeforeCheckpoint && !Refused(cfg, ord[m], env(m))
    requires env(m).failure.Some?
    ensures var a := AttemptFrom(ord, cfg, exec, env, i, Running, reason, state);
      && |a.saves| == m - i + 1
      && StepsSaved(ord, cfg, exec, i, m, state, a.saves)
      && var reached, c, message := StateBefore(a.saves, i, state, m), a.saves[m - i], env(m).failure.value;
      && c.workflowId == cfg.workflowId && c.stepIndex == m - 1 && FailureNoted(reached, c.state, ord[m], message)
      && a.ending == Returned(WorkflowResult(cfg.workflowId, Failed, m, |ord|, reached, None,
                                             Some("Step " + ord[m].id + " failed: " + message)))
  {
    hide StepsSaved, FailureNoted, WithFailure;
    StepsPassBy(ord, cfg, exec, env, i, m, reason, state);
    var a := AttemptFrom(ord, cfg, exec, env, i, Running, reason, state);
    NotesFailure(StateBefore(a.saves, i, state, m), ord[m], env(m).failure.value);
  }

  lemma {:induction false} CallbackEnds(ord: seq<Step>, cfg: Config, exec: Executor, env: Environment, m: nat, reason: Option<string>, state: Record)
    requires m < |ord| && env(m).crash == NoCrash && !Refused(cfg, ord[m], env(m)) && env(m).failure == None
    requires cfg.notifies && env(m).callbackError.Some?
    ensures var next := Advance(state, ord[m], exec(ord[m], state));
      var message := env(m).callbackError.value;
      AttemptFrom(ord, cfg, exec, env, m, Running, reason, state)
        == Attempt([Checkpoint(cfg.workflowId, m, next, env(m).clock),
                    Checkpoint(cfg.workflowId, m - 1, WithFailure(next, ord[m], message), env(m).clock)],
                   Returned(WorkflowResult(cfg.workflowId, Failed, m, |ord|, next, None, Some("Step " + ord[m].id + " failed: " + message))))
  {
    hide Advance, WithFailure;
  }

  lemma FirstAfter(saves: seq<Checkpoint>, k: nat)
    requires k <= |saves|
    ensures forall j :: 0 <= j < |saves| - k ==> saves[k + j] == saves[k..][j]
  {
  }

  /** When the callback throws, the step has been executed and its checkpoint saved: the state after
      the step is returned, and saved once more with the failure noted. */
  lemma {:induction false} FailsWithCallback(ord: seq<Step>, cfg: Config, exec: Executor, env: Environment,
                                             i: nat, m: nat, reason: Option<string>, state: Record)
    requires i <= m < |ord| && UndisturbedUpTo(ord, cfg, env, i, m)
    requires env(m).crash == NoCrash && !Refused(cfg, ord[m], env(m)) && env(m).failure == None
    requires cfg.notifies && env(m).callbackError.Some?
    ensures var a := AttemptFrom(ord, cfg, exec, env, i, Running, reason, state);
      && |a.saves| == m - i + 2
      && StepsSaved(ord, cfg, exec, i, m + 1, state, a.saves)
      && var reached, c, message := StateBefore(a.saves, i, state, m + 1), a.saves[m - i + 1], env(m).callbackError.value;
      && c.workflowId == cfg.workflowId && c.stepIndex == m - 1 && FailureNoted(reached, c.state, ord[m], message)
      && a.ending == Returned(WorkflowResult(cfg.workflowId, Failed, m, |ord|, reached, None,
                                             Some("Step " + ord[m].id + " failed: " + message)))
  {
    hide StepsSaved, FailureNoted, WithFailure, Advance, AttemptFrom, UndisturbedUpTo, Refused;
    StepsPassBy(ord, cfg, exec, env, i, m, reason, state);
    var a := AttemptFrom(ord, cfg, exec, env, i, Running, reason, state);
    CallbackEnds(ord, cfg, exec, env, m, reason, StateBefore(a.saves, i, state, m));
    FirstAfter(a.saves, m - i);
    OneMoreSaved(ord, cfg, exec, i, m, state, a.saves);
    NotesFailure(StateBefore(a.saves, i, state, m + 1), ord[m], env(m).callbackError.value);
  }

  /** The result of an attempt that was asked to stop while it executed step `m`, which left `reached`. */
  function StoppedAfter(ord: seq<Step>, cfg: Config, m: nat, interrupt: Interrupt, reached: Record): WorkflowResult
    requires m < |ord| && interrupt != NoInterrupt
  {
    if m + 1 == |ord| then WorkflowResult(cfg.workflowId, Completed, |ord|, |ord|, reached, None, None)
    else if interrupt.PauseRequested? then
      WorkflowResult(cfg.workflowId, Paused, m + 1, |ord|, reached, Some(ord[m + 1].id), None)
    else WorkflowResult(cfg.workflowId, Aborted, m + 1, |ord|, reached, None, Some(interrupt.reason))
  }

  lemma {:induction false} RequestEnds(ord: seq<Step>, cfg: Config, exec: Executor, env: Environment, m: nat, reason: Option<string>, state: Record)
    requires m < |ord| && PassesBy(cfg, ord[m], env(m).(interrupt := NoInterrupt)) && env(m).interrupt != NoInterrupt
    ensures var next := Advance(state, ord[m], exec(ord[m], state));
      AttemptFrom(ord, cfg, exec, env, m, Running, reason, state)
        == Attempt([Checkpoint(cfg.workflowId, m, next, env(m).clock)], Returned(StoppedAfter(ord, cfg, m, env(m).interrupt, next)))
  {
    hide Advance, PassOver;
    var next := Advance(state, ord[m], exec(ord[m], state));
    PassGoesAsked(cfg, exec, ord[m], env(m), m, |ord|, state);
    var e := env(m);
    assert AttemptFrom(ord, cfg, exec, env, m + 1, Requested(e.interrupt, Running), Reason(e.interrupt, reason), next).saves == [];
  }

  lemma PassGoesAsked(cfg: Config, exec: Executor, s: Step, e: Surroundings, i: nat, n: nat, state: Record)
    requires PassesBy(cfg, s, e.(interrupt := NoInterrupt))
    ensures PassOver(cfg, exec, s, e, i, n, state)
      == Goes(Checkpoint(cfg.workflowId, i, Advance(state, s, exec(s, state)), e.clock), Advance(state, s, exec(s, state)))
  {
  }

  /** A pause or abort that is asked for during a step takes effect before the next one; after the
      last step it comes too late. */
  lemma {:induction false} StopsWhenAsked(ord: seq<Step>, cfg: Config, exec: Executor, env: Environment,
                                          i: nat, m: nat, reason: Option<string>, state: Record)
    requires i <= m < |ord| && UndisturbedUpTo(ord, cfg, env, i, m)
    requires PassesBy(cfg, ord[m], env(m).(interrupt := NoInterrupt)) && env(m).interrupt != NoInterrupt
    ensures var a := AttemptFrom(ord, cfg, exec, env, i, Running, reason, state);
      && |a.saves| == m - i + 1
      && StepsSaved(ord, cfg, exec, i, m + 1, state, a.saves)
      && a.ending == Returned(StoppedAfter(ord, cfg, m, env(m).interrupt, StateBefore(a.saves, i, state, m + 1)))
  {
    hide StepsSaved, Advance, AttemptFrom, UndisturbedUpTo, PassesBy;
    StepsPassBy(ord, cfg, exec, env, i, m, reason, state);
    var a := AttemptFrom(ord, cfg, exec, env, i, Running, reason, state);
    RequestEnds(ord, cfg, exec, env, m, reason, StateBefore(a.saves, i, state, m));
    FirstAfter(a.saves, m - i);
    OneMoreSaved(ord, cfg, exec, i, m, state, a.saves);
  }

  /** A process that dies leaves the checkpoints of the steps it had saved and no others. */
  lemma {:induction false} DiesBetweenCheckpoints(ord: seq<Step>, cfg: Config, exec: Executor, env: Environment,
                                                  i: nat, m: nat, reason: Option<string>, state: Record)
    requires i <= m < |ord| && UndisturbedUpTo(ord, cfg, env, i, m)
    requires env(m).crash != NoCrash
    requires env(m).crash != BeforeStep ==> !Refused(cfg, ord[m], env(m))
    requires env(m).crash == AfterCheckpoint ==> env(m).failure == None
    ensures var a := AttemptFrom(ord, cfg, exec, env, i, Running, reason, state);
      var saved := if env(m).crash == AfterCheckpoint then m + 1 else m;
      && |a.saves| == saved - i
      && StepsSaved(ord, cfg, exec, i, saved, state, a.saves)
      && a.ending == Crashed
  {
    hide StepsSaved, Advance;
    StepsPassBy(ord, cfg, exec, env, i, m, reason, state);
    var a := AttemptFrom(ord, cfg, exec, env, i, Running, reason, state);
    if env(m).crash == AfterCheckpoint {
      OneMoreSaved(ord, cfg, exec, i, m, state, a.saves);
    }
  }
}
