/** What the safe-state protocol guarantees over whole runs. */
module SafeStateTheorems {
  import opened Wrappers
  import opened Blueprint
  import opened Actuation
  import opened SafeState
  import opened SafeStateAudit
  import opened SafeStateInvariants

  // ----- frozen outputs -----

  /** From the moment an entry has halted the loop and applied the action, until RUNNING is regained. */
  ghost predicate Secured(s: State) {
    s.runState != RUNNING || Now(s) == Some(AnchorEntry)
  }

  ghost function Outputs(cfg: Config, s: State): map<string, real> {
    Snapshot(cfg.seam.outputs, s.plant.tags)
  }

  lemma StartKeepsTags(cfg: Config, s: State, k: nat, env: Env)
    requires Inv(cfg, s) && Enabled(cfg, s, Start(k, env)) && s.runState != RUNNING
    ensures Next(cfg, s, Start(k, env)).plant.tags == s.plant.tags
  {
    ActuateIdempotent(cfg.seam, cfg.action, s.optIn, env.published, HaltBy(env.halt, s.plant));
  }

  lemma ContinueKeepsTags(cfg: Config, s: State, k: nat, env: Env)
    requires Inv(cfg, s) && Enabled(cfg, s, Advance(k, env))
    ensures Next(cfg, s, Advance(k, env)).plant.tags == s.plant.tags
  {
    match s.calls[k].status.pc
    case RecordRequest => RequestRecordedSound(cfg, s, k, env);
    case RecordExit(row) => ExitRecordedSound(cfg, s, k, env, row);
    case _ =>
  }

  /** While secured, no tick body runs and no step moves an output. */
  lemma SecuredStep(cfg: Config, s: State, l: Label)
    requires Inv(cfg, s) && Enabled(cfg, s, l) && Secured(s)
    ensures !TickRuns(s)
    ensures Outputs(cfg, Next(cfg, s, l)) == Outputs(cfg, s)
  {
    match l
    case Start(k, env) => StartKeepsTags(cfg, s, k, env);
    case Advance(k, env) => ContinueKeepsTags(cfg, s, k, env);
    case WriteTags(tags) => SameSnapshot(cfg, s.plant.tags, tags);
    case _ =>
  }

  lemma SameSnapshot(cfg: Config, tags: map<string, real>, tags': map<string, real>)
    requires SameOutputs(cfg, tags, tags')
    ensures Snapshot(cfg.seam.outputs, tags) == Snapshot(cfg.seam.outputs, tags')
  {
    forall n | n in cfg.seam.outputs && n in tags ensures tags[n] == tags'[n] {
      var i :| 0 <= i < |cfg.seam.outputs| && cfg.seam.outputs[i] == n;
      assert Val(tags, cfg.seam.outputs[i]) == Val(tags', cfg.seam.outputs[i]);
    }
  }

  /** In every interleaving, the outputs stay as the safe action left them until RUNNING is regained. */
  lemma FrozenOutputs(cfg: Config, run: seq<State>, labels: seq<Label>, i: nat, j: nat)
    requires IsRun(cfg, run, labels) && i <= j < |run|
    requires forall m :: i <= m < j ==> Secured(run[m])
    ensures Outputs(cfg, run[j]) == Outputs(cfg, run[i])
    ensures forall m :: i <= m < j ==> !TickRuns(run[m])
  {
    var outputs := seq(|run|, m requires 0 <= m < |run| => Outputs(cfg, run[m]));
    forall m | i <= m < j ensures outputs[m + 1] == outputs[m] && !TickRuns(run[m]) {
      SecuredStepInRun(cfg, run, labels, m);
    }
    SameBetween(outputs, i, j);
  }

  lemma {:induction false} SameBetween<T>(values: seq<T>, i: nat, j: nat)
    requires i <= j < |values| && forall m :: i <= m < j ==> values[m + 1] == values[m]
    ensures values[j] == values[i]
    decreases j
  {
    if i < j {
      SameBetween(values, i, j - 1);
      assert values[j - 1 + 1] == values[j - 1];
    }
  }

  lemma SecuredStepInRun(cfg: Config, run: seq<State>, labels: seq<Label>, m: nat)
    requires IsRun(cfg, run, labels) && m < |labels| && Secured(run[m])
    ensures Outputs(cfg, run[m + 1]) == Outputs(cfg, run[m]) && !TickRuns(run[m])
  {
    RunInv(cfg, run, labels, m);
    SecuredStep(cfg, run[m], labels[m]);
  }

  /** While a resume is under way the blueprint is secured. */
  lemma ResumeIsSecured(cfg: Config, s: State, k: nat)
    requires Inv(cfg, s) && k < |s.calls| && s.calls[k].kind.Resume? && s.calls[k].status.Active?
    ensures Secured(s)
  {}

  /** An exit that fails, before or after the actuator was resumed, leaves the outputs exactly as they were. */
  lemma FailedExitKeepsOutputs(cfg: Config, run: seq<State>, labels: seq<Label>, i: nat, j: nat, k: nat, env: Env)
    requires IsRun(cfg, run, labels) && i < j < |run| && labels[i] == Start(k, env) && run[i].calls[k].kind.Resume?
    requires forall m :: i < m < j ==>
      k < |run[m].calls| && run[m].calls[k].status.Active? && run[m].calls[k].kind.Resume?
    requires k < |run[j].calls| && run[j].calls[k].status == Settled(false)
    ensures Outputs(cfg, run[j]) == Outputs(cfg, run[i])
  {
    forall m | i < m < j ensures Secured(run[m]) {
      RunInv(cfg, run, labels, m);
      ResumeIsSecured(cfg, run[m], k);
    }
    FrozenOutputs(cfg, run, labels, i + 1, j);
    RunInv(cfg, run, labels, i);
    assert run[i + 1].plant == run[i].plant;
  }

  // ----- durability before actuation -----

  /** The step calls `actuator.resume()`. */
  ghost predicate CallsActuatorResume(s: State, l: Label) {
    && l.Advance? && l.k < |s.calls| && s.calls[l.k].status == Active(RecordRequest)
    && (s.pendingRequest.None? || l.env.write.Stored?)
  }

  lemma RecoverOutcome(cfg: Config, s: State, k: nat, env: Env, resumed: bool)
    requires k < |s.calls|
    ensures var s' := Recover(cfg, s, k, env, resumed);
      && (s.plant.halted ==> s'.plant.halted) && s'.runState in {SAFE_STATE, RECOVERY_FAILED}
  {
    ActuateKeepsHalt(cfg.seam, cfg.action, s.optIn, env.published, HaltBy(env.halt, s.plant));
  }

  lemma ExitOutcome(cfg: Config, s: State, k: nat, env: Env, row: Row)
    requires k < |s.calls|
    ensures var s' := ExitRecorded(cfg, s, k, env, row);
      && (s.plant.halted ==> s'.plant.halted)
      && (s'.runState == RUNNING <==> env.write.Stored?)
        && (s'.runState == RUNNING ==> s'.log == Record(s.log, row, env.write))
  {
    RecoverOutcome(cfg, s.(log := Record(s.log, row, env.write)), k, env, true);
  }

  lemma RequestOutcome(cfg: Config, s: State, k: nat, env: Env)
    requires k < |s.calls| && s.runState != RUNNING
    ensures RequestRecorded(cfg, s, k, env).runState != RUNNING
  {
    var s' := if s.pendingRequest.None? then s
      else s.(log := Record(s.log, s.pendingRequest.value, env.write)).(pendingRequest := None);
    RecoverOutcome(cfg, s'.(plant := ResumeBy(env.resume, s.plant), haltOk := false, actionOk := false), k, env, false);
  }

  lemma ContinueKeepsHalt(cfg: Config, s: State, k: nat, pc: Pc, env: Env)
    requires k < |s.calls| && !pc.RecordRequest? && s.plant.halted
    ensures Continue(cfg, s, k, pc, env).plant.halted
  {
    if pc.RecordExit? {
      ExitOutcome(cfg, s, k, env, pc.row);
    }
  }

  lemma ContinueRegains(cfg: Config, s: State, k: nat, pc: Pc, env: Env)
    requires k < |s.calls| && s.runState != RUNNING && Continue(cfg, s, k, pc, env).runState == RUNNING
    ensures pc.RecordExit? && env.write.Stored? && Continue(cfg, s, k, pc, env).log == Record(s.log, pc.row, env.write)
  {
    match pc
    case RecordRequest => RequestOutcome(cfg, s, k, env);
    case RecordExit(row) => ExitOutcome(cfg, s, k, env, row);
    case _ =>
  }

  lemma StartKeepsHalt(cfg: Config, s: State, k: nat, env: Env)
    requires k < |s.calls| && s.plant.halted
    ensures StartEnter(cfg, s, k, env).plant.halted
  {
    ActuateKeepsHalt(cfg.seam, cfg.action, s.optIn, env.published, HaltBy(env.halt, s.plant));
  }

  /** The halt latch is released by nothing but the actuator resume of an exit. */
  lemma ReleasedOnlyByResume(cfg: Config, s: State, l: Label)
    requires Enabled(cfg, s, l) && s.plant.halted && !Next(cfg, s, l).plant.halted
    ensures CallsActuatorResume(s, l)
  {
    match l
    case Start(k, env) => StartKeepsHalt(cfg, s, k, env);
    case Advance(k, env) =>
      if !s.calls[k].status.pc.RecordRequest? {
        ContinueKeepsHalt(cfg, s, k, s.calls[k].status.pc, env);
      }
    case _ =>
  }

  /** This episode's ENTERED row and the EXIT_REQUESTED row that call `k` made for its operator are stored. */
  ghost predicate ExitIsDurable(s: State, k: nat, log: seq<Row>) {
    && k < |s.calls| && s.calls[k].kind.Resume?
    && s.entry.Some? && s.entry.value.transition == Entered && s.entry.value in log
    && s.pendingRequest.Some? && s.pendingRequest.value in log
    && s.pendingRequest.value.transition == ExitRequested
      && s.pendingRequest.value.operator == Some(s.calls[k].kind.operator)
  }

  lemma DurableStep(cfg: Config, s: State, l: Label)
    requires Inv(cfg, s) && Enabled(cfg, s, l) && CallsActuatorResume(s, l)
    ensures s.runState == SAFE_STATE && ExitIsDurable(s, l.k, Next(cfg, s, l).log)
  {
    var row := s.pendingRequest.value;
    RecordKeepsLog(s.log, row, l.env.write, s.nextHash);
    RecordKeepsMember(s.log, row, l.env.write, s.entry.value);
    assert row in Next(cfg, s, l).log;
  }

  /** In every run, whatever the writes did before: the actuator is resumed only from SAFE_STATE and only once
      this episode's ENTERED row and this request's EXIT_REQUESTED row are in the log. */
  lemma DurableBeforeResume(cfg: Config, run: seq<State>, labels: seq<Label>, i: nat)
    requires IsRun(cfg, run, labels) && i < |labels| && CallsActuatorResume(run[i], labels[i])
    ensures run[i].runState == SAFE_STATE && ExitIsDurable(run[i], labels[i].k, run[i + 1].log)
  {
    RunInv(cfg, run, labels, i);
    DurableStep(cfg, run[i], labels[i]);
  }

  ghost predicate Regains(s: State, s': State) {
    s.runState != RUNNING && s'.runState == RUNNING
  }

  /** Call `k` is a resume at the write of its operator's EXITED row, and the row is stored. */
  ghost predicate ExitIsRecorded(s: State, k: nat, log: seq<Row>) {
    && k < |s.calls| && s.calls[k].kind.Resume? && s.calls[k].status.Active? && s.calls[k].status.pc.RecordExit?
    && var row := s.calls[k].status.pc.row;
      row in log && row.transition == Exited && row.operator == Some(s.calls[k].kind.operator)
  }

  /** In every run, RUNNING is regained only by a resume whose EXITED row is in the log. */
  lemma RunningAfterExited(cfg: Config, run: seq<State>, labels: seq<Label>, i: nat)
    requires IsRun(cfg, run, labels) && i < |labels| && Regains(run[i], run[i + 1])
    ensures labels[i].Advance? && ExitIsRecorded(run[i], labels[i].k, run[i + 1].log)
  {
    RunInv(cfg, run, labels, i);
    RegainStep(cfg, run[i], labels[i]);
  }

  lemma RegainStep(cfg: Config, s: State, l: Label)
    requires Inv(cfg, s) && Enabled(cfg, s, l) && Regains(s, Next(cfg, s, l))
    ensures l.Advance? && ExitIsRecorded(s, l.k, Next(cfg, s, l).log)
  {
    if l.Advance? {
      var pc := s.calls[l.k].status.pc;
      ContinueRegains(cfg, s, l.k, pc, l.env);
      RecordKeepsLog(s.log, pc.row, l.env.write, s.nextHash);
      assert pc.row in Next(cfg, s, l).log;
    } else {
      StartNeverRegains(cfg, s, l);
    }
  }

  /** No tick body can run: the latch is set, or the blueprint is not RUNNING. */
  ghost predicate Stopped(s: State) {
    s.plant.halted || s.runState != RUNNING
  }

  lemma StoppedStep(cfg: Config, s: State, l: Label)
    requires Inv(cfg, s) && Enabled(cfg, s, l) && Stopped(s) && !Regains(s, Next(cfg, s, l))
    ensures Stopped(Next(cfg, s, l))
  {
    if s.plant.halted && !Next(cfg, s, l).plant.halted {
      ReleasedOnlyByResume(cfg, s, l);
      DurableStep(cfg, s, l);
    }
  }

  /** From a halt on, whether the entry then succeeded or failed, no tick body runs until a resume regains RUNNING. */
  lemma NoTickUntilResumed(cfg: Config, run: seq<State>, labels: seq<Label>, i: nat, j: nat)
    requires IsRun(cfg, run, labels) && i <= j < |run| && run[i].plant.halted
    requires forall m :: i <= m < j ==> !Regains(run[m], run[m + 1])
    ensures Stopped(run[j]) && !TickRuns(run[j])
  {
    var stopped := seq(|run|, m requires 0 <= m < |run| => Stopped(run[m]));
    forall m | i <= m < j && stopped[m] ensures stopped[m + 1] {
      StoppedStepInRun(cfg, run, labels, m);
    }
    KeptBetween(stopped, i, j);
  }

  lemma {:induction false} KeptBetween(flags: seq<bool>, i: nat, j: nat)
    requires i <= j < |flags| && flags[i] && forall m :: i <= m < j && flags[m] ==> flags[m + 1]
    ensures flags[j]
    decreases j
  {
    if i < j {
      KeptBetween(flags, i, j - 1);
      assert flags[j - 1 + 1];
    }
  }

  lemma StoppedStepInRun(cfg: Config, run: seq<State>, labels: seq<Label>, m: nat)
    requires IsRun(cfg, run, labels) && m < |labels| && Stopped(run[m]) && !Regains(run[m], run[m + 1])
    ensures Stopped(run[m + 1])
  {
    RunInv(cfg, run, labels, m);
    StoppedStep(cfg, run[m], labels[m]);
  }

  lemma StartNeverRegains(cfg: Config, s: State, l: Label)
    requires Enabled(cfg, s, l) && !l.Advance?
    ensures Next(cfg, s, l).runState == s.runState
  {}

  lemma LogStep(cfg: Config, s: State, l: Label)
    requires Inv(cfg, s) && Enabled(cfg, s, l)
    ensures s.log <= Next(cfg, s, l).log
  {
    if l.Advance? {
      ContinueLog(cfg, s, l.k, s.calls[l.k].status.pc, l.env);
    } else {
      OtherLog(cfg, s, l);
    }
  }

  lemma OtherLog(cfg: Config, s: State, l: Label)
    requires Enabled(cfg, s, l) && !l.Advance?
    ensures Next(cfg, s, l).log == s.log
  {}

  lemma ContinueLog(cfg: Config, s: State, k: nat, pc: Pc, env: Env)
    requires k < |s.calls| && Sound(cfg, s, s.calls[k].kind, Some(pc))
    ensures s.log <= Continue(cfg, s, k, pc, env).log
  {
    match pc
    case RecordExit(row) => RecordKeepsLog(s.log, row, env.write, s.nextHash);
    case RecordOutcome(row) => RecordKeepsLog(s.log, row, env.write, s.nextHash);
    case _ => ReconcileLog(s, env);
  }

  lemma ReconcileLog(s: State, env: Env)
    requires Hashed(s)
    ensures s.pendingEntry.Some? ==> s.log <= Record(s.log, s.pendingEntry.value, env.write)
    ensures s.pendingRequest.Some? ==> s.log <= Record(s.log, s.pendingRequest.value, env.write)
  {
    if s.pendingEntry.Some? {
      RecordKeepsLog(s.log, s.pendingEntry.value, env.write, s.nextHash);
    }
    if s.pendingRequest.Some? {
      RecordKeepsLog(s.log, s.pendingRequest.value, env.write, s.nextHash);
    }
  }

  lemma LogStepInRun(cfg: Config, run: seq<State>, labels: seq<Label>, i: nat)
    requires IsRun(cfg, run, labels) && i < |labels|
    ensures run[i].log <= run[i + 1].log
  {
    RunInv(cfg, run, labels, i);
    LogStep(cfg, run[i], labels[i]);
  }

  lemma {:induction false} PrefixesCompose(logs: seq<seq<Row>>, i: nat, j: nat)
    requires i <= j < |logs| && forall m :: 0 <= m < |logs| - 1 ==> logs[m] <= logs[m + 1]
    ensures logs[i] <= logs[j]
    decreases j
  {
    if i < j {
      PrefixesCompose(logs, i, j - 1);
    }
  }

  /** The log only grows, and at every moment holds at most one row per event, whatever is retried. */
  lemma LogOnlyGrows(cfg: Config, run: seq<State>, labels: seq<Label>, i: nat, j: nat)
    requires IsRun(cfg, run, labels) && i <= j < |run|
    ensures run[i].log <= run[j].log && UniqueRows(run[j].log, run[j].nextHash)
  {
    var logs := seq(|run|, m requires 0 <= m < |run| => run[m].log);
    forall m | 0 <= m < |logs| - 1 ensures logs[m] <= logs[m + 1] {
      LogStepInRun(cfg, run, labels, m);
    }
    PrefixesCompose(logs, i, j);
    RunInv(cfg, run, labels, j);
  }
}
