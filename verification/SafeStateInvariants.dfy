/** What every step of the safe-state protocol keeps. */
module SafeStateInvariants {
  import opened Wrappers
  import opened Blueprint
  import opened Actuation
  import opened SafeState
  import opened SafeStateAudit

  // ----- the promise chain -----

  /** Transitions before `front` are settled and those after it wait: at most one is under way. */
  ghost predicate Chain(s: State) {
    && s.front <= |s.calls|
    && (forall i :: 0 <= i < s.front ==> s.calls[i].status.Settled?)
    && (forall i :: s.front <= i < |s.calls| ==> !s.calls[i].status.Settled?)
    && (forall i :: s.front < i < |s.calls| ==> s.calls[i].status.Waiting?)
  }

  /** Where the transition under way is suspended. */
  ghost function Now(s: State): Option<Pc> {
    if s.front < |s.calls| && s.calls[s.front].status.Active? then Some(s.calls[s.front].status.pc) else None
  }

  // How a step may change the list of transitions.

  ghost predicate Unmoved(s: State, s': State) {
    s'.calls == s.calls && s'.front == s.front
  }

  ghost predicate Enqueued(s: State, s': State, kind: Kind) {
    s'.calls == s.calls + [Call(kind, Waiting)] && s'.front == s.front
  }

  /** Transition `k` got the status it has in `s'`, and nothing else moved. */
  ghost predicate Moved(s: State, s': State, k: nat) {
    && k < |s.calls| == |s'.calls| && !s'.calls[k].status.Waiting?
    && s'.calls == s.calls[k := s.calls[k].(status := s'.calls[k].status)]
    && s'.front == if s'.calls[k].status.Settled? then k + 1 else s.front
  }

  /** How many awaits a transition still has before it settles, at most. */
  function Remaining(status: Status): nat {
    match status
    case Waiting => 12
    case Settled(_) => 0
    case Active(pc) =>
      (match pc
       case PersistEntry => 1
       case AnchorEntry => 2
       case RecordEntry => 1
       case ResumePersistEntry => 10
       case ResumePersistRequest => 9
       case AnchorRequest => 8
       case RecordRequest => 7
       case AnchorExit => 6
       case RecordExit(_) => 5
       case AnchorOutcome(_) => 2
       case RecordOutcome(_) => 1)
  }

  // Each lemma also bounds what is left of the transition, for `ChainNeverBlocks`.

  lemma RecoverMoves(cfg: Config, s: State, k: nat, env: Env, resumed: bool)
    requires k < |s.calls|
    ensures Moved(s, Recover(cfg, s, k, env, resumed), k)
    ensures Remaining(Recover(cfg, s, k, env, resumed).calls[k].status) == 2
  {}

  lemma ResumedMoves(cfg: Config, s: State, k: nat, env: Env)
    requires k < |s.calls|
    ensures Moved(s, ActuatorResumed(cfg, s, k, env), k)
    ensures Remaining(ActuatorResumed(cfg, s, k, env).calls[k].status) <= 6
  {
    RecoverMoves(cfg, s.(plant := ResumeBy(env.resume, s.plant), haltOk := false, actionOk := false), k, env, false);
  }

  lemma RequestRecordedMoves(cfg: Config, s: State, k: nat, env: Env)
    requires k < |s.calls|
    ensures Moved(s, RequestRecorded(cfg, s, k, env), k)
    ensures Remaining(RequestRecorded(cfg, s, k, env).calls[k].status) <= 6
  {
    ResumedMoves(cfg, s, k, env);
    if s.pendingRequest.Some? {
      ResumedMoves(cfg, s.(log := Record(s.log, s.pendingRequest.value, env.write)).(pendingRequest := None), k, env);
    }
  }

  lemma ExitRecordedMoves(cfg: Config, s: State, k: nat, env: Env, row: Row)
    requires k < |s.calls|
    ensures Moved(s, ExitRecorded(cfg, s, k, env, row), k)
    ensures Remaining(ExitRecorded(cfg, s, k, env, row).calls[k].status) <= 2
  {
    RecoverMoves(cfg, s.(log := Record(s.log, row, env.write)), k, env, true);
  }

  lemma FinishEntryMoves(s: State, k: nat, env: Env)
    requires k < |s.calls|
    ensures Moved(s, FinishEntry(s, k, env), k) && Remaining(FinishEntry(s, k, env).calls[k].status) == 0
  {}

  lemma ReconcileEntryMoves(s: State, k: nat, env: Env)
    requires k < |s.calls|
    ensures Moved(s, ReconcileEntry(s, k, env), k) && Remaining(ReconcileEntry(s, k, env).calls[k].status) <= 9
  {}

  lemma ReconcileRequestMoves(s: State, k: nat, env: Env)
    requires k < |s.calls|
    ensures Moved(s, ReconcileRequest(s, k, env), k) && Remaining(ReconcileRequest(s, k, env).calls[k].status) <= 8
  {}

  lemma AnchorsMove(s: State, k: nat, operator: string, transition: Transition)
    requires k < |s.calls|
    ensures Moved(s, EntryAnchored(s, k), k) && Remaining(EntryAnchored(s, k).calls[k].status) == 1
    ensures Moved(s, RequestAnchored(s, k, operator), k)
      && Remaining(RequestAnchored(s, k, operator).calls[k].status) == 7
    ensures Moved(s, ExitAnchored(s, k, operator), k) && Remaining(ExitAnchored(s, k, operator).calls[k].status) == 5
    ensures Moved(s, OutcomeAnchored(s, k, transition, operator), k)
    ensures Remaining(OutcomeAnchored(s, k, transition, operator).calls[k].status) == 1
  {}

  lemma ContinueMoves(cfg: Config, s: State, k: nat, pc: Pc, env: Env)
    requires k < |s.calls|
    ensures Moved(s, Continue(cfg, s, k, pc, env), k)
    ensures Remaining(Continue(cfg, s, k, pc, env).calls[k].status) < Remaining(Active(pc))
  {
    match pc
    case PersistEntry => FinishEntryMoves(s, k, env);
    case RecordEntry => FinishEntryMoves(s, k, env);
    case ResumePersistEntry => ReconcileEntryMoves(s, k, env);
    case ResumePersistRequest => ReconcileRequestMoves(s, k, env);
    case RecordRequest => RequestRecordedMoves(cfg, s, k, env);
    case RecordExit(row) => ExitRecordedMoves(cfg, s, k, env, row);
    case AnchorOutcome(transition) => AnchorsMove(s, k, OperatorOf(s.calls[k].kind), transition);
    case _ => AnchorsMove(s, k, OperatorOf(s.calls[k].kind), Entered);
  }

  lemma StartEnterMoves(cfg: Config, s: State, k: nat, env: Env)
    requires k < |s.calls|
    ensures Moved(s, StartEnter(cfg, s, k, env), k)
  {}

  lemma StartResumeMoves(s: State, k: nat, operator: string)
    requires k < |s.calls|
    ensures Moved(s, StartResume(s, k, operator), k)
  {}

  /** Every step leaves the chain alone, appends a call, or moves the front transition. */
  lemma StepMoves(cfg: Config, s: State, l: Label)
    requires Chain(s) && Enabled(cfg, s, l)
    ensures match l
      case CallEnter(misses) => Enqueued(s, Next(cfg, s, l), Enter(misses))
      case CallResume(operator) => Enqueued(s, Next(cfg, s, l), Resume(operator))
      case Tick(tags, d) =>
        if TickRuns(s) && Trips(cfg, s, d) then Enqueued(s, Next(cfg, s, l), Enter(s.misses + 1))
          else Unmoved(s, Next(cfg, s, l))
      case Observe(d) => if Trips(cfg, s, d) then Enqueued(s, Next(cfg, s, l), Enter(s.misses + 1))
        else Unmoved(s, Next(cfg, s, l))
      case Start(k, env) => k == s.front && Moved(s, Next(cfg, s, l), k)
      case Advance(k, env) => k == s.front && Moved(s, Next(cfg, s, l), k)
      case _ => Unmoved(s, Next(cfg, s, l))
  {
    match l
    case Start(k, env) =>
      StartEnterMoves(cfg, s, k, env);
      StartResumeMoves(s, k, OperatorOf(s.calls[k].kind));
    case Advance(k, env) => ContinueMoves(cfg, s, k, s.calls[k].status.pc, env);
    case _ =>
  }

  /** Transitions run one at a time and in call order, whatever is called when. */
  lemma ChainKept(cfg: Config, s: State, l: Label)
    requires Chain(s) && Enabled(cfg, s, l)
    ensures Chain(Next(cfg, s, l))
  {
    StepMoves(cfg, s, l);
  }

  // ----- progress -----

  /** What the first unsettled transition does next. */
  ghost function FrontLabel(s: State, env: Env): Label
    requires s.front < |s.calls|
  {
    if s.calls[s.front].status.Waiting? then Start(s.front, env) else Advance(s.front, env)
  }

  ghost predicate Closer(s: State, s': State, k: nat) {
    k < |s.calls| == |s'.calls| && Remaining(s'.calls[k].status) < Remaining(s.calls[k].status)
  }

  /** The chain never blocks: the first unsettled transition can always take a step, whatever the
      environment answers, and every such step brings it closer to settling. In particular a
      failed transition does not hold up the next one. */
  lemma ChainNeverBlocks(cfg: Config, s: State, env: Env)
    requires Chain(s) && s.front < |s.calls|
    ensures Enabled(cfg, s, FrontLabel(s, env)) && Closer(s, Next(cfg, s, FrontLabel(s, env)), s.front)
  {
    if s.calls[s.front].status.Waiting? {
      WaitingStarts(cfg, s, s.front, env);
    } else {
      ActiveAdvances(cfg, s, s.front, s.calls[s.front].status.pc, env);
    }
  }

  lemma WaitingStarts(cfg: Config, s: State, k: nat, env: Env)
    requires k < |s.calls| && s.calls[k].status.Waiting? && (k == 0 || s.calls[k - 1].status.Settled?)
    ensures Closer(s, Next(cfg, s, Start(k, env)), k)
  {
    if s.calls[k].kind.Enter? {
      StartEnterCloser(cfg, s, k, env);
    } else {
      StartResumeCloser(s, k, s.calls[k].kind.operator);
    }
  }

  lemma ActiveAdvances(cfg: Config, s: State, k: nat, pc: Pc, env: Env)
    requires k < |s.calls| && s.calls[k].status == Active(pc)
    ensures Closer(s, Next(cfg, s, Advance(k, env)), k)
  {
    ContinueMoves(cfg, s, k, pc, env);
    assert Next(cfg, s, Advance(k, env)) == Continue(cfg, s, k, pc, env);
  }

  lemma StartEnterCloser(cfg: Config, s: State, k: nat, env: Env)
    requires k < |s.calls| && s.calls[k].status.Waiting?
    ensures Closer(s, StartEnter(cfg, s, k, env), k)
  {}

  lemma StartResumeCloser(s: State, k: nat, operator: string)
    requires k < |s.calls| && s.calls[k].status.Waiting?
    ensures Closer(s, StartResume(s, k, operator), k)
  {}

  // ----- what holds at every await -----

  /** The safe state is claimed only while it is applied; a pending row belongs to it; this
      episode's ENTERED row is pending or stored; the outputs are where the action put them. */
  ghost predicate Truthful(cfg: Config, s: State) {
    && s.runState != RECOVERING
    && (s.runState == SAFE_STATE ==> s.plant.halted && s.haltOk && s.actionOk)
    && (s.pendingEntry.Some? ==> s.runState == SAFE_STATE && s.pendingEntry == s.entry)
    && (s.pendingRequest.Some? ==> s.runState == SAFE_STATE && s.pendingRequest.value.transition == ExitRequested)
    && (s.runState != RUNNING ==>
          && s.entry.Some? && s.entry.value.transition == Entered
          && (s.pendingEntry.None? ==> s.entry.value in s.log)
          && Commanded(cfg.seam, cfg.action, s.plant.tags))
    && (forall i :: 0 <= i < |cfg.seam.outputs| ==> cfg.seam.outputs[i] in s.plant.tags)
  }

  ghost predicate Hashed(s: State) {
    && UniqueRows(s.log, s.nextHash)
    && (s.pendingEntry.Some? ==> Genuine(s.log, s.pendingEntry.value, s.nextHash))
    && (s.pendingRequest.Some? ==> Genuine(s.log, s.pendingRequest.value, s.nextHash))
    && (s.pendingEntry.Some? && s.pendingRequest.Some? ==> s.pendingEntry.value.hash != s.pendingRequest.value.hash)
  }

  /** What holds while the transition under way is suspended at `now`. */
  ghost predicate Stage(cfg: Config, s: State, kind: Kind, now: Option<Pc>) {
    match now
    case None => s.runState in {RUNNING, SAFE_STATE, RECOVERY_FAILED}
    case Some(pc) =>
      (match pc
       case AnchorEntry =>
         && kind.Enter? && s.runState in {RUNNING, RECOVERY_FAILED} && s.plant.halted && s.haltOk && s.actionOk
         && Commanded(cfg.seam, cfg.action, s.plant.tags)
       case PersistEntry => kind.Enter? && s.runState == SAFE_STATE && s.pendingEntry.Some?
       case RecordEntry => kind.Enter? && s.runState == SAFE_STATE && s.pendingEntry.Some?
       case ResumePersistEntry => kind.Resume? && s.runState == SAFE_STATE
       case ResumePersistRequest => kind.Resume? && s.runState == SAFE_STATE && s.pendingEntry.None?
       case AnchorRequest => kind.Resume? && s.runState == SAFE_STATE && s.pendingEntry.None? && s.pendingRequest.None?
       case RecordRequest =>
         && kind.Resume? && s.runState == SAFE_STATE && s.pendingEntry.None?
         && s.pendingRequest.Some? && s.pendingRequest.value.operator == Some(kind.operator)
       case AnchorExit => kind.Resume? && s.runState == RESUMING
       case RecordExit(row) =>
         && kind.Resume? && s.runState == RESUMING
         && row.transition == Exited && row.operator == Some(kind.operator) && Genuine(s.log, row, s.nextHash)
       case AnchorOutcome(t) =>
         && kind.Resume? && s.runState in {SAFE_STATE, RECOVERY_FAILED} && s.pendingEntry.None?
           && s.pendingRequest.None?
         && t in {ResumeFailed, ExitAborted, RecoveryFailed} && (t == RecoveryFailed <==> s.runState == RECOVERY_FAILED)
       case RecordOutcome(row) =>
         && kind.Resume? && s.runState in {SAFE_STATE, RECOVERY_FAILED} && s.pendingEntry.None?
           && s.pendingRequest.None?
         && row.transition in {ResumeFailed, ExitAborted, RecoveryFailed}
         && (row.transition == RecoveryFailed <==> s.runState == RECOVERY_FAILED) && Genuine(s.log, row, s.nextHash))
  }

  ghost function PcOf(status: Status): Option<Pc> {
    if status.Active? then Some(status.pc) else None
  }

  ghost predicate Sound(cfg: Config, s: State, kind: Kind, now: Option<Pc>) {
    Truthful(cfg, s) && Hashed(s) && Stage(cfg, s, kind, now)
  }

  /** `s'` is sound, with transition `k` where it stands now. */
  ghost predicate SoundAt(cfg: Config, s': State, k: nat) {
    k < |s'.calls| && Sound(cfg, s', s'.calls[k].kind, PcOf(s'.calls[k].status))
  }

  lemma StartEnterSound(cfg: Config, s: State, k: nat, env: Env)
    requires k < |s.calls| && s.calls[k].kind.Enter? && DistinctTargets(cfg.seam)
    requires Sound(cfg, s, s.calls[k].kind, None)
    ensures SoundAt(cfg, StartEnter(cfg, s, k, env), k)
  {
    if s.runState != SAFE_STATE && env.halt.Returns? {
      var p := HaltBy(env.halt, s.plant);
      ActuateKeepsKeys(cfg.seam, cfg.action, s.optIn, env.published, p);
      if s.runState != RUNNING {
        ActuateIdempotent(cfg.seam, cfg.action, s.optIn, env.published, p);
      }
      if Actuate(cfg.seam, cfg.action, s.optIn, env.published, p).1 {
        ActuateCommands(cfg.seam, cfg.action, s.optIn, env.published, p);
        ActuateKeepsHalt(cfg.seam, cfg.action, s.optIn, env.published, p);
      }
    }
  }

  lemma ActuateKeepsHalt(seam: Seam, action: SafeAction, optIn: bool, published: bool, p: Plant)
    ensures Actuate(seam, action, optIn, published, p).0.halted == p.halted
  {}

  lemma FinishEntrySound(cfg: Config, s: State, k: nat, env: Env)
    requires k < |s.calls| && s.calls[k].kind.Enter?
    requires Sound(cfg, s, s.calls[k].kind, Some(RecordEntry))
    ensures SoundAt(cfg, FinishEntry(s, k, env), k)
  {
    RecordKeepsLog(s.log, s.pendingEntry.value, env.write, s.nextHash);
    if s.pendingRequest.Some? {
      RecordKeepsOthers(s.log, s.pendingEntry.value, env.write, s.nextHash, s.pendingRequest.value);
    }
  }

  lemma EntryAnchoredSound(cfg: Config, s: State, k: nat)
    requires k < |s.calls| && s.calls[k].kind.Enter?
    requires Sound(cfg, s, s.calls[k].kind, Some(AnchorEntry))
    ensures SoundAt(cfg, EntryAnchored(s, k), k)
  {}

  lemma ReconcileEntrySound(cfg: Config, s: State, k: nat, env: Env)
    requires k < |s.calls| && s.calls[k].kind.Resume?
    requires Sound(cfg, s, s.calls[k].kind, Some(ResumePersistEntry))
    ensures SoundAt(cfg, ReconcileEntry(s, k, env), k)
  {
    if s.pendingEntry.Some? {
      RecordKeepsLog(s.log, s.pendingEntry.value, env.write, s.nextHash);
      if s.pendingRequest.Some? {
        RecordKeepsOthers(s.log, s.pendingEntry.value, env.write, s.nextHash, s.pendingRequest.value);
      }
    }
  }

  lemma ReconcileRequestSound(cfg: Config, s: State, k: nat, env: Env)
    requires k < |s.calls| && s.calls[k].kind.Resume?
    requires Sound(cfg, s, s.calls[k].kind, Some(ResumePersistRequest))
    ensures SoundAt(cfg, ReconcileRequest(s, k, env), k)
  {
    if s.pendingRequest.Some? {
      RecordKeepsLog(s.log, s.pendingRequest.value, env.write, s.nextHash);
      RecordKeepsMember(s.log, s.pendingRequest.value, env.write, s.entry.value);
    }
  }

  lemma RequestAnchoredSound(cfg: Config, s: State, k: nat)
    requires k < |s.calls| && s.calls[k].kind.Resume?
    requires Sound(cfg, s, s.calls[k].kind, Some(AnchorRequest))
    ensures SoundAt(cfg, RequestAnchored(s, k, OperatorOf(s.calls[k].kind)), k)
  {}

  /** Recovery starts from commanded outputs, so whatever throws, no output moves. */
  lemma RecoverSound(cfg: Config, s: State, k: nat, env: Env, resumed: bool)
    requires k < |s.calls| && s.calls[k].kind.Resume?
    requires Hashed(s) && s.pendingEntry.None? && s.pendingRequest.None?
    requires s.entry.Some? && s.entry.value.transition == Entered && s.entry.value in s.log
    requires Commanded(cfg.seam, cfg.action, s.plant.tags)
    requires forall i :: 0 <= i < |cfg.seam.outputs| ==> cfg.seam.outputs[i] in s.plant.tags
    ensures SoundAt(cfg, Recover(cfg, s, k, env, resumed), k)
    ensures Recover(cfg, s, k, env, resumed).plant.tags == s.plant.tags
  {
    ActuateIdempotent(cfg.seam, cfg.action, s.optIn, env.published, HaltBy(env.halt, s.plant));
  }

  lemma ActuatorResumedSound(cfg: Config, s: State, k: nat, env: Env)
    requires k < |s.calls| && s.calls[k].kind.Resume?
    requires Truthful(cfg, s) && Hashed(s) && s.runState == SAFE_STATE && s.pendingEntry.None? && s.pendingRequest.None?
    ensures SoundAt(cfg, ActuatorResumed(cfg, s, k, env), k)
    ensures ActuatorResumed(cfg, s, k, env).plant.tags == s.plant.tags
  {
    RecoverSound(cfg, s.(plant := ResumeBy(env.resume, s.plant), haltOk := false, actionOk := false), k, env, false);
  }

  lemma RequestRecordedSound(cfg: Config, s: State, k: nat, env: Env)
    requires k < |s.calls| && s.calls[k].kind.Resume?
    requires Sound(cfg, s, s.calls[k].kind, Some(RecordRequest))
    ensures SoundAt(cfg, RequestRecorded(cfg, s, k, env), k)
    ensures RequestRecorded(cfg, s, k, env).plant.tags == s.plant.tags
  {
    RecordKeepsLog(s.log, s.pendingRequest.value, env.write, s.nextHash);
    RecordKeepsMember(s.log, s.pendingRequest.value, env.write, s.entry.value);
    if env.write.Stored? {
      ActuatorResumedSound(cfg, s.(log := Record(s.log, s.pendingRequest.value, env.write)).(pendingRequest := None),
        k, env);
    }
  }

  lemma ExitAnchoredSound(cfg: Config, s: State, k: nat)
    requires k < |s.calls| && s.calls[k].kind.Resume?
    requires Sound(cfg, s, s.calls[k].kind, Some(AnchorExit))
    ensures SoundAt(cfg, ExitAnchored(s, k, OperatorOf(s.calls[k].kind)), k)
  {}

  lemma ExitRecordedSound(cfg: Config, s: State, k: nat, env: Env, row: Row)
    requires k < |s.calls| && s.calls[k].kind.Resume?
    requires Sound(cfg, s, s.calls[k].kind, Some(RecordExit(row)))
    ensures SoundAt(cfg, ExitRecorded(cfg, s, k, env, row), k)
    ensures ExitRecorded(cfg, s, k, env, row).plant.tags == s.plant.tags
  {
    RecordKeepsLog(s.log, row, env.write, s.nextHash);
    RecordKeepsMember(s.log, row, env.write, s.entry.value);
    RecoverSound(cfg, s.(log := Record(s.log, row, env.write)), k, env, true);
  }

  lemma OutcomeSound(cfg: Config, s: State, k: nat, t: Transition)
    requires k < |s.calls| && s.calls[k].kind.Resume?
    requires Sound(cfg, s, s.calls[k].kind, Some(AnchorOutcome(t)))
    ensures SoundAt(cfg, OutcomeAnchored(s, k, t, OperatorOf(s.calls[k].kind)), k)
  {}

  lemma OutcomeRecordedSound(cfg: Config, s: State, k: nat, row: Row, env: Env)
    requires k < |s.calls| && s.calls[k].kind.Resume?
    requires Sound(cfg, s, s.calls[k].kind, Some(RecordOutcome(row)))
    ensures SoundAt(cfg, Settle(s.(log := Record(s.log, row, env.write)), k, false), k)
  {
    RecordKeepsLog(s.log, row, env.write, s.nextHash);
    RecordKeepsMember(s.log, row, env.write, s.entry.value);
  }

  lemma ContinueSound(cfg: Config, s: State, k: nat, pc: Pc, env: Env)
    requires k < |s.calls| && Sound(cfg, s, s.calls[k].kind, Some(pc))
    ensures SoundAt(cfg, Continue(cfg, s, k, pc, env), k)
  {
    match pc
    case PersistEntry => FinishEntrySound(cfg, s, k, env);
    case AnchorEntry => EntryAnchoredSound(cfg, s, k);
    case RecordEntry => FinishEntrySound(cfg, s, k, env);
    case ResumePersistEntry => ReconcileEntrySound(cfg, s, k, env);
    case ResumePersistRequest => ReconcileRequestSound(cfg, s, k, env);
    case AnchorRequest => RequestAnchoredSound(cfg, s, k);
    case RecordRequest => RequestRecordedSound(cfg, s, k, env);
    case AnchorExit => ExitAnchoredSound(cfg, s, k);
    case RecordExit(row) => ExitRecordedSound(cfg, s, k, env, row);
    case AnchorOutcome(t) => OutcomeSound(cfg, s, k, t);
    case RecordOutcome(row) => OutcomeRecordedSound(cfg, s, k, row, env);
  }

  // ----- the invariant -----

  ghost function FrontKind(s: State): Kind {
    if s.front < |s.calls| then s.calls[s.front].kind else Enter(0)
  }

  ghost predicate Inv(cfg: Config, s: State) {
    && DistinctTargets(cfg.seam) && Fits(cfg.seam, cfg.action)
    && Chain(s) && Sound(cfg, s, FrontKind(s), Now(s))
  }

  lemma InitialInv(cfg: Config, s: State)
    requires WellArmed(cfg, s)
    ensures Inv(cfg, s)
  {}

  lemma CommandedBySameOutputs(cfg: Config, tags: map<string, real>, tags': map<string, real>)
    requires Fits(cfg.seam, cfg.action) && SameOutputs(cfg, tags, tags') && Commanded(cfg.seam, cfg.action, tags)
    ensures Commanded(cfg.seam, cfg.action, tags')
  {
    match cfg.action
    case HoldLast =>
    case ForceZero =>
      forall i | 0 <= i < |cfg.seam.outputs|
        ensures Val(tags', cfg.seam.outputs[i]) == 0.0 && cfg.seam.outputs[i] in tags' {
        assert cfg.seam.outputs[i] in tags;
      }
    case Recipe(name) =>
      var recipe := cfg.seam.recipes[name];
      forall i | 0 <= i < |recipe| ensures recipe[i].0 in tags' && tags'[recipe[i].0] == recipe[i].1 {
        assert recipe[i].0 in cfg.seam.outputs;
        var j :| 0 <= j < |cfg.seam.outputs| && cfg.seam.outputs[j] == recipe[i].0;
        assert Val(tags, cfg.seam.outputs[j]) == Val(tags', cfg.seam.outputs[j]);
      }
  }

  /** The transition that moves is at the front, so a sound result is sound for the chain. */
  lemma MovedSound(cfg: Config, s: State, s': State, k: nat)
    requires Chain(s) && k == s.front && Moved(s, s', k) && SoundAt(cfg, s', k)
    ensures Sound(cfg, s', FrontKind(s'), Now(s'))
  {
    if s'.calls[k].status.Settled? && s'.front < |s'.calls| {
      assert s'.calls[k + 1] == s.calls[k + 1];
    }
  }

  lemma EnqueuedSound(cfg: Config, s: State, s': State, kind: Kind)
    requires Chain(s) && Sound(cfg, s, FrontKind(s), Now(s)) && Enqueued(s, s', kind)
    requires s' == s.(calls := s'.calls, misses := s'.misses, tickWaits := s'.tickWaits)
    ensures Sound(cfg, s', FrontKind(s'), Now(s'))
  {
    if s.front < |s.calls| {
      assert s'.calls[s.front] == s.calls[s.front];
    }
  }

  lemma StartSound(cfg: Config, s: State, k: nat, env: Env)
    requires Enabled(cfg, s, Start(k, env)) && DistinctTargets(cfg.seam) && Sound(cfg, s, s.calls[k].kind, None)
    ensures SoundAt(cfg, Next(cfg, s, Start(k, env)), k)
  {
    if s.calls[k].kind.Enter? {
      StartEnterSound(cfg, s, k, env);
    } else {
      StartResumeSound(cfg, s, k, s.calls[k].kind.operator);
    }
  }

  lemma StartResumeSound(cfg: Config, s: State, k: nat, operator: string)
    requires k < |s.calls| && s.calls[k].kind.Resume? && Sound(cfg, s, s.calls[k].kind, None)
    ensures SoundAt(cfg, StartResume(s, k, operator), k)
  {}

  lemma EnqueuedKept(cfg: Config, s: State, s': State, kind: Kind)
    requires Inv(cfg, s) && Enqueued(s, s', kind)
    requires s' == s.(calls := s'.calls, misses := s'.misses, tickWaits := s'.tickWaits)
    ensures Inv(cfg, s')
  {
    EnqueuedSound(cfg, s, s', kind);
  }

  lemma StartKept(cfg: Config, s: State, k: nat, env: Env)
    requires Inv(cfg, s) && Enabled(cfg, s, Start(k, env))
    ensures Inv(cfg, Next(cfg, s, Start(k, env)))
  {
    StepMoves(cfg, s, Start(k, env));
    ChainKept(cfg, s, Start(k, env));
    StartSound(cfg, s, k, env);
    MovedSound(cfg, s, Next(cfg, s, Start(k, env)), k);
  }

  lemma AdvanceKept(cfg: Config, s: State, k: nat, env: Env)
    requires Inv(cfg, s) && Enabled(cfg, s, Advance(k, env))
    ensures Inv(cfg, Next(cfg, s, Advance(k, env)))
  {
    StepMoves(cfg, s, Advance(k, env));
    ChainKept(cfg, s, Advance(k, env));
    ContinueSound(cfg, s, k, s.calls[k].status.pc, env);
    MovedSound(cfg, s, Next(cfg, s, Advance(k, env)), k);
  }

  /** A tick body can only run where nothing is commanded. */
  lemma TickSound(cfg: Config, s: State, tags: map<string, real>)
    requires Inv(cfg, s) && TickRuns(s) && tags.Keys == s.plant.tags.Keys
    ensures Inv(cfg, s.(plant := s.plant.(tags := tags)))
  {}

  lemma ObserveKept(cfg: Config, s: State, d: real, waits: Option<nat>)
    requires Inv(cfg, s)
    ensures Inv(cfg, ObserveTick(cfg, s, d).(tickWaits := waits))
  {
    var s' := ObserveTick(cfg, s, d).(tickWaits := waits);
    if Trips(cfg, s, d) {
      EnqueuedKept(cfg, s, s', Enter(s.misses + 1));
    } else {
      BystanderKept(cfg, s, s');
    }
  }

  lemma TickKept(cfg: Config, s: State, tags: map<string, real>, d: real)
    requires Inv(cfg, s) && tags.Keys == s.plant.tags.Keys
    ensures Inv(cfg, HostTick(cfg, s, tags, d))
  {
    if TickRuns(s) {
      TickSound(cfg, s, tags);
      var s' := s.(plant := s.plant.(tags := tags));
      ObserveKept(cfg, s', d, if Trips(cfg, s', d) then Some(|s.calls|) else None);
    }
  }

  /** Acknowledgements and the opt-in switch touch nothing the invariant speaks of. */
  lemma BystanderKept(cfg: Config, s: State, s': State)
    requires Inv(cfg, s)
    requires s' == s.(misses := s'.misses, tickWaits := s'.tickWaits,
      acknowledged := s'.acknowledged, optIn := s'.optIn)
    ensures Inv(cfg, s')
  {}

  lemma WriteTagsKept(cfg: Config, s: State, tags: map<string, real>)
    requires Inv(cfg, s) && SameOutputs(cfg, s.plant.tags, tags)
    ensures Inv(cfg, s.(plant := s.plant.(tags := tags)))
  {
    if Commanded(cfg.seam, cfg.action, s.plant.tags) {
      CommandedBySameOutputs(cfg, s.plant.tags, tags);
    }
  }

  /** Every step keeps the invariant. */
  lemma InvKept(cfg: Config, s: State, l: Label)
    requires Inv(cfg, s) && Enabled(cfg, s, l)
    ensures Inv(cfg, Next(cfg, s, l))
  {
    match l
    case CallEnter(misses) => EnqueuedKept(cfg, s, Next(cfg, s, l), Enter(misses));
    case CallResume(operator) => EnqueuedKept(cfg, s, Next(cfg, s, l), Resume(operator));
    case Tick(tags, d) => TickKept(cfg, s, tags, d);
    case Observe(d) => ObserveKept(cfg, s, d, s.tickWaits);
    case Start(k, env) => StartKept(cfg, s, k, env);
    case Advance(k, env) => AdvanceKept(cfg, s, k, env);
    case WriteTags(tags) => WriteTagsKept(cfg, s, tags);
    case _ => BystanderKept(cfg, s, Next(cfg, s, l));
  }

  /** The invariant holds at every await of every run. */
  lemma {:induction false} RunInv(cfg: Config, run: seq<State>, labels: seq<Label>, i: nat)
    requires IsRun(cfg, run, labels) && i < |run|
    ensures Inv(cfg, run[i])
  {
    if i == 0 {
      InitialInv(cfg, run[0]);
    } else {
      RunInv(cfg, run, labels, i - 1);
      InvKept(cfg, run[i - 1], labels[i - 1]);
    }
  }
}
