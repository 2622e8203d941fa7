/** Conservation of entries, exact recovery, hosted runs and watchdog counting. */
module SafeStateRuns {
  import opened Wrappers
  import opened Actuation
  import opened SafeState
  import opened SafeStateAudit
  import opened SafeStateInvariants
  import opened SafeStateTheorems

  // ----- one ENTERED row per physical entry -----

  /** ENTERED rows stored, pending but not stored, or still being anchored. */
  ghost function Accounted(s: State, now: Option<Pc>): nat {
    CountEntered(s.log)
    + (if s.pendingEntry.Some? && s.pendingEntry.value !in s.log then 1 else 0)
    + (if now == Some(AnchorEntry) then 1 else 0)
  }

  lemma RecordOther(s: State, row: Row, w: Write)
    requires Hashed(s) && Genuine(s.log, row, s.nextHash) && !row.transition.Entered?
    requires s.pendingEntry.None?
    ensures CountEntered(Record(s.log, row, w)) == CountEntered(s.log)
  {
    CountRecorded(s.log, row, w, s.nextHash);
  }

  lemma RecordEntryAccounted(s: State, w: Write)
    requires Hashed(s) && s.pendingEntry.Some? && s.pendingEntry.value.transition.Entered?
    ensures var log := Record(s.log, s.pendingEntry.value, w);
      CountEntered(log) + (if s.pendingEntry.value !in log then 1 else 0) ==
        CountEntered(s.log) + (if s.pendingEntry.value !in s.log then 1 else 0)
    ensures w.Stored? ==> s.pendingEntry.value in Record(s.log, s.pendingEntry.value, w)
  {
    CountRecorded(s.log, s.pendingEntry.value, w, s.nextHash);
    RecordKeepsLog(s.log, s.pendingEntry.value, w, s.nextHash);
    if s.pendingEntry.value in s.log {
      RecordKeepsMember(s.log, s.pendingEntry.value, w, s.pendingEntry.value);
    }
  }

  lemma EntryAnchoredAccounted(cfg: Config, s: State, k: nat)
    requires k < |s.calls| && Sound(cfg, s, s.calls[k].kind, Some(AnchorEntry))
    ensures Accounted(EntryAnchored(s, k), Some(RecordEntry)) == Accounted(s, Some(AnchorEntry))
  {
    var row := Row(Entered, s.nextHash, None);
    assert forall i :: 0 <= i < |s.log| ==> s.log[i].hash != row.hash;
  }

  lemma RecoverKeepsLog(cfg: Config, s: State, k: nat, env: Env, resumed: bool)
    requires k < |s.calls|
    ensures var s' := Recover(cfg, s, k, env, resumed);
      s'.log == s.log && s'.pendingEntry == s.pendingEntry && s'.entries == s.entries && s'.calls[k].status.Active?
        && s'.calls[k].status.pc.AnchorOutcome?
  {}

  lemma RequestAccounted(cfg: Config, s: State, k: nat, env: Env)
    requires k < |s.calls| && Sound(cfg, s, s.calls[k].kind, Some(RecordRequest))
    ensures KeepsAccount(s, RequestRecorded(cfg, s, k, env), k, RecordRequest)
  {
    RecordOther(s, s.pendingRequest.value, env.write);
    var s' := s.(log := Record(s.log, s.pendingRequest.value, env.write)).(pendingRequest := None);
    RecoverKeepsLog(cfg, s'.(plant := ResumeBy(env.resume, s.plant), haltOk := false, actionOk := false), k, env,
      false);
  }

  lemma ExitAccounted(cfg: Config, s: State, k: nat, env: Env, row: Row)
    requires k < |s.calls| && Sound(cfg, s, s.calls[k].kind, Some(RecordExit(row)))
    ensures KeepsAccount(s, ExitRecorded(cfg, s, k, env, row), k, RecordExit(row))
  {
    RecordOther(s, row, env.write);
    RecoverKeepsLog(cfg, s.(log := Record(s.log, row, env.write)), k, env, true);
  }

  lemma RequestRowAccounted(s: State, w: Write)
    requires Hashed(s) && s.pendingRequest.Some? && s.pendingRequest.value.transition == ExitRequested
      && s.pendingEntry.None?
    ensures CountEntered(Record(s.log, s.pendingRequest.value, w)) == CountEntered(s.log)
  {
    RecordOther(s, s.pendingRequest.value, w);
  }

  /** The step leaves the number of physical entries, and what is accounted for them, as they are. */
  ghost predicate KeepsAccount(s: State, s': State, k: nat, pc: Pc) {
    k < |s'.calls| && s'.entries == s.entries && Accounted(s', PcOf(s'.calls[k].status)) == Accounted(s, Some(pc))
  }

  lemma FinishEntryAccounted(cfg: Config, s: State, k: nat, pc: Pc, env: Env)
    requires k < |s.calls| && (pc.PersistEntry? || pc.RecordEntry?) && Sound(cfg, s, s.calls[k].kind, Some(pc))
    ensures KeepsAccount(s, FinishEntry(s, k, env), k, pc)
  {
    RecordEntryAccounted(s, env.write);
  }

  lemma ReconcileEntryAccounted(cfg: Config, s: State, k: nat, env: Env)
    requires k < |s.calls| && Sound(cfg, s, s.calls[k].kind, Some(ResumePersistEntry))
    ensures KeepsAccount(s, ReconcileEntry(s, k, env), k, ResumePersistEntry)
  {
    if s.pendingEntry.Some? {
      RecordEntryAccounted(s, env.write);
    }
  }

  lemma ReconcileRequestAccounted(cfg: Config, s: State, k: nat, env: Env)
    requires k < |s.calls| && Sound(cfg, s, s.calls[k].kind, Some(ResumePersistRequest))
    ensures KeepsAccount(s, ReconcileRequest(s, k, env), k, ResumePersistRequest)
  {
    if s.pendingRequest.Some? {
      RequestRowAccounted(s, env.write);
    }
  }

  lemma ContinueAccounted(cfg: Config, s: State, k: nat, pc: Pc, env: Env)
    requires k < |s.calls| && Sound(cfg, s, s.calls[k].kind, Some(pc))
    ensures KeepsAccount(s, Continue(cfg, s, k, pc, env), k, pc)
  {
    match pc
    case PersistEntry => FinishEntryAccounted(cfg, s, k, pc, env);
    case RecordEntry => FinishEntryAccounted(cfg, s, k, pc, env);
    case ResumePersistEntry => ReconcileEntryAccounted(cfg, s, k, env);
    case ResumePersistRequest => ReconcileRequestAccounted(cfg, s, k, env);
    case AnchorEntry => EntryAnchoredAccounted(cfg, s, k);
    case RecordRequest => RequestAccounted(cfg, s, k, env);
    case RecordExit(row) => ExitAccounted(cfg, s, k, env, row);
    case RecordOutcome(row) => RecordOther(s, row, env.write);
    case _ => AnchorsAccounted(s, k, pc, OperatorOf(s.calls[k].kind));
  }

  lemma AnchorsAccounted(s: State, k: nat, pc: Pc, operator: string)
    requires k < |s.calls|
    ensures KeepsAccount(s, RequestAnchored(s, k, operator), k, AnchorRequest)
    ensures KeepsAccount(s, ExitAnchored(s, k, operator), k, AnchorExit)
    ensures pc.AnchorOutcome? ==> KeepsAccount(s, OutcomeAnchored(s, k, pc.transition, operator), k, pc)
  {}

  lemma StartAccounted(cfg: Config, s: State, k: nat, env: Env)
    requires k < |s.calls|
    ensures var s' := StartEnter(cfg, s, k, env);
      Accounted(s', PcOf(s'.calls[k].status)) + s.entries == Accounted(s, None) + s'.entries
    ensures s.runState == SAFE_STATE ==> StartEnter(cfg, s, k, env).plant == s.plant
  {}

  /** Conservation: physical entries and ENTERED rows correspond one to one. */
  lemma EntriesConserved(cfg: Config, s: State, l: Label)
    requires Inv(cfg, s) && Enabled(cfg, s, l) && Accounted(s, Now(s)) == s.entries
    ensures Accounted(Next(cfg, s, l), Now(Next(cfg, s, l))) == Next(cfg, s, l).entries
  {
    var s' := Next(cfg, s, l);
    StepMoves(cfg, s, l);
    match l
    case Start(k, env) =>
      NowAfterMove(s, s', k);
      StartConserved(cfg, s, k, env);
    case Advance(k, env) =>
      NowAfterMove(s, s', k);
      AdvanceConserved(cfg, s, k, s.calls[k].status.pc, env);
    case _ => NowUnchanged(cfg, s, l);
  }

  lemma StartConserved(cfg: Config, s: State, k: nat, env: Env)
    requires Enabled(cfg, s, Start(k, env)) && Accounted(s, None) == s.entries
    ensures Balanced(Next(cfg, s, Start(k, env)), k)
  {
    if s.calls[k].kind.Enter? {
      EntryBalanced(cfg, s, k, env);
    } else {
      ResumeBalanced(s, k, s.calls[k].kind.operator);
    }
  }

  /** With transition `k` where it stands, the entries are those accounted for. */
  ghost predicate Balanced(s: State, k: nat) {
    k < |s.calls| && Accounted(s, PcOf(s.calls[k].status)) == s.entries
  }

  lemma EntryBalanced(cfg: Config, s: State, k: nat, env: Env)
    requires k < |s.calls| && Accounted(s, None) == s.entries
    ensures Balanced(StartEnter(cfg, s, k, env), k)
  {
    StartAccounted(cfg, s, k, env);
  }

  lemma ResumeBalanced(s: State, k: nat, operator: string)
    requires k < |s.calls| && Accounted(s, None) == s.entries
    ensures Balanced(StartResume(s, k, operator), k)
  {}

  lemma AdvanceConserved(cfg: Config, s: State, k: nat, pc: Pc, env: Env)
    requires k < |s.calls| && s.calls[k].status == Active(pc) && Sound(cfg, s, s.calls[k].kind, Some(pc))
    ensures KeepsAccount(s, Next(cfg, s, Advance(k, env)), k, pc)
  {
    ContinueAccounted(cfg, s, k, pc, env);
    AdvanceContinues(cfg, s, k, pc, env);
  }

  lemma AdvanceContinues(cfg: Config, s: State, k: nat, pc: Pc, env: Env)
    requires k < |s.calls| && s.calls[k].status == Active(pc)
    ensures Next(cfg, s, Advance(k, env)) == Continue(cfg, s, k, pc, env)
  {}

  lemma NowAfterMove(s: State, s': State, k: nat)
    requires Chain(s) && k == s.front && Moved(s, s', k)
    ensures Now(s') == PcOf(s'.calls[k].status)
  {
    if s'.calls[k].status.Settled? && k + 1 < |s.calls| {
      assert s'.calls[k + 1] == s.calls[k + 1];
    }
  }

  lemma NowUnchanged(cfg: Config, s: State, l: Label)
    requires Chain(s) && Enabled(cfg, s, l) && !l.Start? && !l.Advance?
    ensures Now(Next(cfg, s, l)) == Now(s) && Next(cfg, s, l).log == s.log && Next(cfg, s, l).front == s.front
    ensures Next(cfg, s, l).pendingEntry == s.pendingEntry && Next(cfg, s, l).entries == s.entries
  {
    StepMoves(cfg, s, l);
    var s' := Next(cfg, s, l);
    if s.front < |s.calls| {
      assert s'.calls[s.front] == s.calls[s.front];
    }
  }

  lemma {:induction false} EntriesInRun(cfg: Config, run: seq<State>, labels: seq<Label>, i: nat)
    requires IsRun(cfg, run, labels) && i < |run|
    ensures Accounted(run[i], Now(run[i])) == run[i].entries
  {
    if i > 0 {
      EntriesInRun(cfg, run, labels, i - 1);
      RunInv(cfg, run, labels, i - 1);
      EntriesConserved(cfg, run[i - 1], labels[i - 1]);
    }
  }

  // ----- one entry per episode -----

  /** The safe state is applied, or being left, and has not failed to be re-applied. */
  ghost predicate InEpisode(s: State) {
    Secured(s) && s.runState != RECOVERY_FAILED
  }

  lemma EpisodeStep(cfg: Config, s: State, l: Label)
    requires Inv(cfg, s) && Enabled(cfg, s, l) && InEpisode(s)
    ensures Next(cfg, s, l).entries == s.entries
  {
    StepMoves(cfg, s, l);
    if l.Advance? {
      AdvanceConserved(cfg, s, l.k, s.calls[l.k].status.pc, l.env);
    } else if !l.Start? {
      NowUnchanged(cfg, s, l);
    }
  }

  lemma EpisodeStepInRun(cfg: Config, run: seq<State>, labels: seq<Label>, m: nat)
    requires IsRun(cfg, run, labels) && m < |labels| && InEpisode(run[m])
    ensures run[m + 1].entries == run[m].entries
  {
    RunInv(cfg, run, labels, m);
    EpisodeStep(cfg, run[m], labels[m]);
  }

  /** However many trips are called concurrently, an episode has one physical entry and one ENTERED row: while
      it lasts, neither the entries nor the ENTERED rows accounted for change. */
  lemma OneEntryPerEpisode(cfg: Config, run: seq<State>, labels: seq<Label>, i: nat, j: nat)
    requires IsRun(cfg, run, labels) && i <= j < |run| && forall m :: i <= m < j ==> InEpisode(run[m])
    ensures run[j].entries == run[i].entries && Accounted(run[j], Now(run[j])) == Accounted(run[i], Now(run[i]))
  {
    var counts := seq(|run|, m requires 0 <= m < |run| => run[m].entries);
    forall m | i <= m < j ensures counts[m + 1] == counts[m] {
      EpisodeStepInRun(cfg, run, labels, m);
    }
    SameBetween(counts, i, j);
    EntriesInRun(cfg, run, labels, i);
    EntriesInRun(cfg, run, labels, j);
  }

  // ----- the reported state -----

  /** At every await: the safe state is reported only while the latest halt and the latest safe action
      returned normally and nothing resumed the actuator since; with no transition under way the
      report is RUNNING, SAFE_STATE or RECOVERY_FAILED; RECOVERING is never visible. */
  lemma ReportedStateIsTruthful(cfg: Config, run: seq<State>, labels: seq<Label>, i: nat)
    requires IsRun(cfg, run, labels) && i < |run|
    ensures run[i].runState == SAFE_STATE ==> run[i].plant.halted && run[i].haltOk && run[i].actionOk
    ensures run[i].runState != RECOVERING
    ensures Now(run[i]).None? ==> run[i].runState in {RUNNING, SAFE_STATE, RECOVERY_FAILED}
  {
    RunInv(cfg, run, labels, i);
  }

  /** The step runs the compensation of a failed exit. */
  ghost predicate Recovers(s: State, l: Label) {
    l.Advance? && l.k < |s.calls| && s.calls[l.k].status.Active? &&
    match s.calls[l.k].status.pc
    case RecordRequest => (s.pendingRequest.None? || l.env.write.Stored?) && !l.env.resume.Returns?
    case RecordExit(_) => !l.env.write.Stored?
    case _ => false
  }

  /** The halt of the compensation throws, or a guard refuses the safe action. */
  ghost predicate CompensationThrows(cfg: Config, s: State, l: Label)
    requires Recovers(s, l)
  {
    !l.env.halt.Returns? || Refused(cfg.seam, cfg.action, s.optIn, l.env.published)
  }

  lemma RecoverOutcomeExactly(cfg: Config, s: State, k: nat, env: Env, resumed: bool)
    requires k < |s.calls| && Fits(cfg.seam, cfg.action)
    requires forall i :: 0 <= i < |cfg.seam.outputs| ==> cfg.seam.outputs[i] in s.plant.tags
    ensures var works := env.halt.Returns? && !Refused(cfg.seam, cfg.action, s.optIn, env.published);
      Recover(cfg, s, k, env, resumed).runState == if works then SAFE_STATE else RECOVERY_FAILED
  {
    ThrowsExactlyWhenRefused(cfg.seam, cfg.action, s.optIn, env.published, HaltBy(env.halt, s.plant));
  }

  lemma RecoveryIsExact(cfg: Config, s: State, l: Label)
    requires Inv(cfg, s) && Enabled(cfg, s, l) && Recovers(s, l)
    ensures Next(cfg, s, l).runState == if CompensationThrows(cfg, s, l) then RECOVERY_FAILED else SAFE_STATE
  {
    var k, env := l.k, l.env;
    match s.calls[k].status.pc
    case RecordExit(row) => RecoverOutcomeExactly(cfg, s.(log := Record(s.log, row, env.write)), k, env, true);
    case RecordRequest =>
      var s1 := if s.pendingRequest.None? then s
                else s.(log := Record(s.log, s.pendingRequest.value, env.write)).(pendingRequest := None);
      var s2 := s1.(plant := ResumeBy(env.resume, s.plant), haltOk := false, actionOk := false);
      RecoverOutcomeExactly(cfg, s2, k, env, false);
    case _ =>
  }

  lemma ContinueFails(cfg: Config, s: State, k: nat, pc: Pc, env: Env)
    requires k < |s.calls| && Continue(cfg, s, k, pc, env).runState != s.runState
    ensures pc == AnchorEntry || pc == RecordRequest || pc.RecordExit?
    ensures pc == AnchorEntry ==> Continue(cfg, s, k, pc, env).runState == SAFE_STATE
  {}

  /** RECOVERY_FAILED is reached only by a failing compensation, and left only by a new entry. */
  lemma RecoveryFailedIsLatched(cfg: Config, s: State, l: Label)
    requires Inv(cfg, s) && Enabled(cfg, s, l)
    ensures s.runState != RECOVERY_FAILED && Next(cfg, s, l).runState == RECOVERY_FAILED ==> Recovers(s, l)
    ensures s.runState == RECOVERY_FAILED && Next(cfg, s, l).runState != RECOVERY_FAILED ==>
      l.Advance? && s.calls[l.k].kind.Enter? && Now(s) == Some(AnchorEntry)
  {
    if l.Advance? {
      if Next(cfg, s, l).runState != s.runState {
        ContinueFails(cfg, s, l.k, s.calls[l.k].status.pc, l.env);
      }
    } else {
      StartNeverRegains(cfg, s, l);
    }
  }

  lemma FailsExactlyStep(cfg: Config, s: State, l: Label)
    requires Inv(cfg, s) && Enabled(cfg, s, l)
    ensures s.runState != RECOVERY_FAILED && Next(cfg, s, l).runState == RECOVERY_FAILED <==>
      Recovers(s, l) && CompensationThrows(cfg, s, l)
  {
    RecoveryFailedIsLatched(cfg, s, l);
    if Recovers(s, l) {
      RecoveryIsExact(cfg, s, l);
    }
  }

  /** In every run, RECOVERY_FAILED is entered exactly by a step that compensates a failed exit and in which the
      halt or the re-application throws. */
  lemma RecoveryFailsExactly(cfg: Config, run: seq<State>, labels: seq<Label>, i: nat)
    requires IsRun(cfg, run, labels) && i < |labels|
    ensures run[i].runState != RECOVERY_FAILED && run[i + 1].runState == RECOVERY_FAILED <==>
      Recovers(run[i], labels[i]) && CompensationThrows(cfg, run[i], labels[i])
  {
    RunInv(cfg, run, labels, i);
    FailsExactlyStep(cfg, run[i], labels[i]);
  }

  // ----- runs under the host -----

  /** Under the host, entries come from its own ticks only. */
  ghost predicate HostLabel(l: Label) {
    !l.CallEnter? && !l.Observe?
  }

  ghost predicate Pending(s: State, e: nat) {
    e < |s.calls| && s.calls[e].kind.Enter? && !s.calls[e].status.Settled?
  }

  /** The host waits for the one unsettled entry; it is started from RUNNING, and none is left after a failed
      recovery. */
  ghost predicate Hosted(s: State) {
    && (forall e: nat :: Pending(s, e) ==> s.tickWaits == Some(e))
    && (forall e: nat :: Pending(s, e) && s.calls[e].status.Waiting? ==> s.runState == RUNNING)
    && (s.runState == RECOVERY_FAILED ==> forall e: nat :: !Pending(s, e))
  }

  lemma HostedByTick(cfg: Config, s: State, l: Label)
    requires Inv(cfg, s) && Hosted(s) && Enabled(cfg, s, l) && l.Tick?
    ensures Hosted(Next(cfg, s, l))
  {
    var s' := Next(cfg, s, l);
    StepMoves(cfg, s, l);
    assert s'.runState == s.runState;
    forall e: nat | Pending(s', e)
      ensures s'.tickWaits == Some(e) && (s'.calls[e].status.Waiting? ==> s'.runState == RUNNING) {
      if e < |s.calls| {
        assert Pending(s, e);
      }
    }
  }

  lemma HostedByStart(cfg: Config, s: State, l: Label)
    requires Inv(cfg, s) && Hosted(s) && Enabled(cfg, s, l) && l.Start?
    ensures Hosted(Next(cfg, s, l))
  {
    var s' := Next(cfg, s, l);
    StepMoves(cfg, s, l);
    StartNeverRegains(cfg, s, l);
    assert s'.tickWaits == s.tickWaits;
    forall e: nat | Pending(s', e)
      ensures Pending(s, e) && (s'.calls[e].status.Waiting? ==> s.calls[e].status.Waiting?) {}
  }

  /** Continuing a transition touches neither the watchdog nor the host nor the opt-in. */
  ghost predicate SameSurroundings(s: State, s': State) {
    s'.tickWaits == s.tickWaits && s'.optIn == s.optIn && s'.misses == s.misses
  }

  lemma RecoverSurroundings(cfg: Config, s: State, k: nat, env: Env, resumed: bool)
    requires k < |s.calls|
    ensures SameSurroundings(s, Recover(cfg, s, k, env, resumed))
  {}

  lemma RequestSurroundings(cfg: Config, s: State, k: nat, env: Env)
    requires k < |s.calls|
    ensures SameSurroundings(s, RequestRecorded(cfg, s, k, env))
  {
    var s' := if s.pendingRequest.None? then s
      else s.(log := Record(s.log, s.pendingRequest.value, env.write)).(pendingRequest := None);
    RecoverSurroundings(cfg, s'.(plant := ResumeBy(env.resume, s.plant), haltOk := false, actionOk := false), k, env,
      false);
  }

  lemma ExitSurroundings(cfg: Config, s: State, k: nat, env: Env, row: Row)
    requires k < |s.calls|
    ensures SameSurroundings(s, ExitRecorded(cfg, s, k, env, row))
  {
    RecoverSurroundings(cfg, s.(log := Record(s.log, row, env.write)), k, env, true);
  }

  lemma ContinueSurroundings(cfg: Config, s: State, k: nat, pc: Pc, env: Env)
    requires k < |s.calls|
    ensures SameSurroundings(s, Continue(cfg, s, k, pc, env))
  {
    match pc
    case RecordRequest => RequestSurroundings(cfg, s, k, env);
    case RecordExit(row) => ExitSurroundings(cfg, s, k, env, row);
    case _ =>
  }

  lemma HostedByAdvance(cfg: Config, s: State, l: Label)
    requires Inv(cfg, s) && Hosted(s) && Enabled(cfg, s, l) && l.Advance?
    ensures Hosted(Next(cfg, s, l))
  {
    var s' := Next(cfg, s, l);
    StepMoves(cfg, s, l);
    RecoveryFailedIsLatched(cfg, s, l);
    ContinueSurroundings(cfg, s, l.k, s.calls[l.k].status.pc, l.env);
    forall e: nat | Pending(s', e) ensures Pending(s, e) && (e != l.k ==> s'.calls[e] == s.calls[e]) {}
    // An active entry is the only pending one; an active resume excludes pending entries.
    if s.calls[l.k].kind.Enter? {
      assert Pending(s, l.k);
    } else {
      ResumeIsSecured(cfg, s, l.k);
      assert forall e: nat :: !Pending(s, e);
    }
  }

  lemma HostedKept(cfg: Config, s: State, l: Label)
    requires Inv(cfg, s) && Hosted(s) && Enabled(cfg, s, l) && HostLabel(l)
    ensures Hosted(Next(cfg, s, l))
  {
    if l.Tick? {
      HostedByTick(cfg, s, l);
    } else if l.Start? {
      HostedByStart(cfg, s, l);
    } else if l.Advance? {
      HostedByAdvance(cfg, s, l);
    } else {
      forall e: nat | Pending(Next(cfg, s, l), e) ensures Pending(s, e) {}
    }
  }

  lemma {:induction false} HostedInRun(cfg: Config, run: seq<State>, labels: seq<Label>, i: nat)
    requires IsRun(cfg, run, labels) && i < |run| && forall m :: 0 <= m < |labels| ==> HostLabel(labels[m])
    ensures Hosted(run[i])
  {
    if i > 0 {
      HostedInRun(cfg, run, labels, i - 1);
      RunInv(cfg, run, labels, i - 1);
      HostedKept(cfg, run[i - 1], labels[i - 1]);
    }
  }

  /** Under the host RECOVERY_FAILED is final: no tick and no operator resume leaves it. */
  lemma {:induction false} RecoveryFailedIsFinal(cfg: Config, run: seq<State>, labels: seq<Label>, i: nat, j: nat)
    requires IsRun(cfg, run, labels) && i <= j < |run| && forall m :: 0 <= m < |labels| ==> HostLabel(labels[m])
    requires run[i].runState == RECOVERY_FAILED
    ensures run[j].runState == RECOVERY_FAILED
    decreases j
  {
    if i < j {
      RecoveryFailedIsFinal(cfg, run, labels, i, j - 1);
      RecoveryFailedStays(cfg, run, labels, j - 1);
    }
  }

  lemma RecoveryFailedStays(cfg: Config, run: seq<State>, labels: seq<Label>, i: nat)
    requires IsRun(cfg, run, labels) && i < |labels| && forall m :: 0 <= m < |labels| ==> HostLabel(labels[m])
    requires run[i].runState == RECOVERY_FAILED
    ensures run[i + 1].runState == RECOVERY_FAILED
  {
    RunInv(cfg, run, labels, i);
    HostedInRun(cfg, run, labels, i);
    RecoveryFailedIsLatched(cfg, run[i], labels[i]);
    if run[i + 1].runState != RECOVERY_FAILED {
      assert Pending(run[i], labels[i].k);
    }
  }

  // ----- an armed blueprint can always enter its safe state -----

  /** No field sink, opt-in unchanged, and a halt that cannot throw, as in the runtime actuator. */
  ghost predicate FaithfulLabel(l: Label) {
    !l.SetOptIn? && (l.Start? || l.Advance? ==> l.env.halt.Returns?)
  }

  ghost predicate Ready(cfg: Config, s: State) {
    !cfg.seam.sinkBound && CanApply(cfg.seam, cfg.action, s.optIn) && s.runState != RECOVERY_FAILED
  }

  lemma EntrySucceeds(cfg: Config, s: State, k: nat, env: Env)
    requires Inv(cfg, s) && Ready(cfg, s) && k < |s.calls| && env.halt.Returns?
    ensures s.runState != SAFE_STATE ==> StartEnter(cfg, s, k, env).calls[k].status == Active(AnchorEntry)
    ensures StartEnter(cfg, s, k, env).optIn == s.optIn
  {
    CanApplyNeverThrows(cfg.seam, cfg.action, s.optIn, env.published, HaltBy(env.halt, s.plant));
  }

  lemma ReadyKept(cfg: Config, s: State, l: Label)
    requires Inv(cfg, s) && Ready(cfg, s) && Enabled(cfg, s, l) && FaithfulLabel(l)
    ensures Ready(cfg, Next(cfg, s, l))
  {
    RecoveryFailedIsLatched(cfg, s, l);
    match l
    case Start(k, env) => EntrySucceeds(cfg, s, k, env);
    case Advance(k, env) =>
      ContinueSurroundings(cfg, s, k, s.calls[k].status.pc, env);
      if Recovers(s, l) {
        RecoveryIsExact(cfg, s, l);
      }
    case _ =>
  }

  /** Once registration accepted it, the safe action cannot throw in any reachable state: every entry
      actuates, and RECOVERY_FAILED is unreachable. */
  lemma {:induction false} ArmedNeverFails(cfg: Config, run: seq<State>, labels: seq<Label>, i: nat)
    requires IsRun(cfg, run, labels) && i < |run| && !cfg.seam.sinkBound
    requires forall m :: 0 <= m < |labels| ==> FaithfulLabel(labels[m])
    ensures Ready(cfg, run[i])
  {
    if i > 0 {
      ArmedNeverFails(cfg, run, labels, i - 1);
      RunInv(cfg, run, labels, i - 1);
      ReadyKept(cfg, run[i - 1], labels[i - 1]);
    }
  }

  /** An armed blueprint can always enter its safe state: in every such run, an entry that is started outside it
      halts the loop, commands the outputs and goes on to its anchor. */
  lemma ArmedEntrySucceeds(cfg: Config, run: seq<State>, labels: seq<Label>, i: nat)
    requires IsRun(cfg, run, labels) && i < |labels| && !cfg.seam.sinkBound
    requires forall m :: 0 <= m < |labels| ==> FaithfulLabel(labels[m])
    requires labels[i].Start? && run[i].calls[labels[i].k].kind.Enter? && run[i].runState != SAFE_STATE
    ensures Now(run[i + 1]) == Some(AnchorEntry) && run[i + 1].plant.halted
    ensures Commanded(cfg.seam, cfg.action, run[i + 1].plant.tags)
  {
    ArmedNeverFails(cfg, run, labels, i);
    RunInv(cfg, run, labels, i);
    RunInv(cfg, run, labels, i + 1);
    EntryAnchors(cfg, run[i], labels[i]);
  }

  lemma EntryAnchors(cfg: Config, s: State, l: Label)
    requires Inv(cfg, s) && Ready(cfg, s) && Enabled(cfg, s, l) && FaithfulLabel(l)
    requires l.Start? && s.calls[l.k].kind.Enter? && s.runState != SAFE_STATE
    ensures Now(Next(cfg, s, l)) == Some(AnchorEntry)
  {
    StepMoves(cfg, s, l);
    NowAfterMove(s, Next(cfg, s, l), l.k);
    EntrySucceeds(cfg, s, l.k, l.env);
  }

  // ----- watchdog counting -----

  /** Step `m` of the run observes a tick for an armed watchdog: the host's tick that ran, or another caller's. */
  ghost predicate Observed(cfg: Config, run: seq<State>, labels: seq<Label>, m: nat)
    requires m < |labels| < |run|
  {
    && (labels[m].Observe? || (labels[m].Tick? && TickRuns(run[m])))
    && cfg.enabled && run[m].runState == RUNNING
  }

  /** How many observed ticks were over budget in a row, since the last one within budget or the last resume. */
  ghost function Streak(cfg: Config, run: seq<State>, labels: seq<Label>, i: nat): nat
    requires i <= |labels| < |run|
  {
    if i == 0 || labels[i - 1].ResumeReturns? then 0
    else if !Observed(cfg, run, labels, i - 1) then Streak(cfg, run, labels, i - 1)
    else if labels[i - 1].durationMs > cfg.budgetMs then Streak(cfg, run, labels, i - 1) + 1
    else 0
  }

  /** What one step does to the miss counter. */
  lemma MissesStep(cfg: Config, s: State, l: Label)
    requires Enabled(cfg, s, l)
    ensures Next(cfg, s, l).misses ==
      if l.ResumeReturns? then 0
      else if !((l.Observe? || (l.Tick? && TickRuns(s))) && cfg.enabled && s.runState == RUNNING) then s.misses
      else if l.durationMs > cfg.budgetMs then s.misses + 1
      else 0
  {
    if l.Advance? {
      ContinueSurroundings(cfg, s, l.k, s.calls[l.k].status.pc, l.env);
    } else if l.Start? {
      StartSurroundings(cfg, s, l.k, l.env);
    }
  }

  lemma StartSurroundings(cfg: Config, s: State, k: nat, env: Env)
    requires k < |s.calls|
    ensures SameSurroundings(s, StartEnter(cfg, s, k, env))
    ensures SameSurroundings(s, StartResume(s, k, OperatorOf(s.calls[k].kind)))
  {}

  lemma {:induction false} MissesInRun(cfg: Config, run: seq<State>, labels: seq<Label>, i: nat)
    requires IsRun(cfg, run, labels) && i < |run|
    ensures run[i].misses == Streak(cfg, run, labels, i)
  {
    if i > 0 {
      MissesInRun(cfg, run, labels, i - 1);
      MissesStep(cfg, run[i - 1], labels[i - 1]);
    }
  }

  /** In every run, an observation, by the host's tick or by any other caller, requests an entry exactly when
      the watchdog is enabled, the blueprint is RUNNING, the tick is over budget, and it brings the streak to
      the threshold or above; a tick that the host skips is not observed. */
  lemma TripsExactly(cfg: Config, run: seq<State>, labels: seq<Label>, i: nat)
    requires IsRun(cfg, run, labels) && i < |labels| && (labels[i].Observe? || labels[i].Tick?)
    ensures |run[i + 1].calls| > |run[i].calls| <==>
      && cfg.enabled && run[i].runState == RUNNING && labels[i].durationMs > cfg.budgetMs
      && Streak(cfg, run, labels, i) + 1 >= cfg.threshold && (labels[i].Tick? ==> TickRuns(run[i]))
    ensures |run[i + 1].calls| > |run[i].calls| ==>
      run[i + 1].calls == run[i].calls + [Call(Enter(Streak(cfg, run, labels, i) + 1), Waiting)]
  {
    MissesInRun(cfg, run, labels, i);
    RunInv(cfg, run, labels, i);
    StepMoves(cfg, run[i], labels[i]);
  }

  /** In every run, the host's timer runs the tick body exactly when the blueprint is RUNNING, its latch is open and no
      trip of an earlier tick is still awaited; otherwise it changes nothing. */
  lemma HostTickInRun(cfg: Config, run: seq<State>, labels: seq<Label>, i: nat, tags: map<string, real>, d: real)
    requires IsRun(cfg, run, labels) && i < |labels| && labels[i] == Tick(tags, d)
    ensures var s, s' := run[i], run[i + 1];
      if s.runState == RUNNING && !s.plant.halted && s.tickWaits.None? then
        s'.plant == s.plant.(tags := tags) && (s'.tickWaits.Some? <==> |s'.calls| > |s.calls|)
      else s' == s
  {}

  // ----- a resume behind a successful one -----

  lemma IdleStep(cfg: Config, s: State, l: Label)
    requires Chain(s) && Now(s).None? && Enabled(cfg, s, l) && !l.Start?
    ensures Next(cfg, s, l).runState == s.runState && Next(cfg, s, l).front == s.front && Now(Next(cfg, s, l)).None?
    ensures Next(cfg, s, l).plant.halted == s.plant.halted
  {
    NowUnchanged(cfg, s, l);
  }

  /** The step settles call `k` successfully. */
  ghost predicate Succeeds(s: State, s': State, k: nat) {
    k < |s.calls| == |s'.calls| && !s.calls[k].status.Settled? && s'.calls[k].status == Settled(true)
  }

  lemma ContinueSucceeds(cfg: Config, s: State, k: nat, pc: Pc, env: Env)
    requires k < |s.calls| && s.calls[k].kind.Resume? && Sound(cfg, s, s.calls[k].kind, Some(pc))
    requires Continue(cfg, s, k, pc, env).calls[k].status == Settled(true)
    ensures Continue(cfg, s, k, pc, env).runState == RUNNING
  {
    match pc
    case RecordExit(row) => ExitSucceeds(cfg, s, k, env, row);
    case RecordRequest => RequestNeverSucceeds(cfg, s, k, env);
    case _ =>
  }

  lemma ExitSucceeds(cfg: Config, s: State, k: nat, env: Env, row: Row)
    requires k < |s.calls| && ExitRecorded(cfg, s, k, env, row).calls[k].status.Settled?
    ensures ExitRecorded(cfg, s, k, env, row).runState == RUNNING
  {
    RecoverKeepsLog(cfg, s.(log := Record(s.log, row, env.write)), k, env, true);
  }

  lemma RequestNeverSucceeds(cfg: Config, s: State, k: nat, env: Env)
    requires k < |s.calls|
    ensures RequestRecorded(cfg, s, k, env).calls[k].status != Settled(true)
  {
    var s1 := if s.pendingRequest.None? then s
              else s.(log := Record(s.log, s.pendingRequest.value, env.write)).(pendingRequest := None);
    var s2 := s1.(plant := ResumeBy(env.resume, s.plant), haltOk := false, actionOk := false);
    RecoverKeepsLog(cfg, s2, k, env, false);
  }

  /** A resume that settles successfully leaves the blueprint RUNNING and the next call in front. */
  lemma SuccessfulResume(cfg: Config, s: State, l: Label, k: nat)
    requires Inv(cfg, s) && Enabled(cfg, s, l) && Succeeds(s, Next(cfg, s, l), k) && s.calls[k].kind.Resume?
    ensures Next(cfg, s, l).runState == RUNNING && Next(cfg, s, l).front == k + 1 && Now(Next(cfg, s, l)).None?
  {
    var s' := Next(cfg, s, l);
    StepMoves(cfg, s, l);
    assert l.Start? || l.Advance?;
    assert l.k == k;
    NowAfterMove(s, s', k);
    if l.Advance? {
      AdvanceContinues(cfg, s, k, s.calls[k].status.pc, l.env);
      ContinueSucceeds(cfg, s, k, s.calls[k].status.pc, l.env);
    }
  }

  /** Call `k` is next to start and the blueprint is RUNNING, or the call has started already. */
  ghost predicate NextOrStarted(s: State, k: nat) {
    || (s.runState == RUNNING && s.front == k && Now(s).None?)
    || (k < |s.calls| && !s.calls[k].status.Waiting?)
  }

  lemma StaysStarted(cfg: Config, s: State, l: Label, k: nat)
    requires Inv(cfg, s) && Enabled(cfg, s, l) && k < |s.calls| && !s.calls[k].status.Waiting?
    ensures k < |Next(cfg, s, l).calls| && !Next(cfg, s, l).calls[k].status.Waiting?
  {
    StepMoves(cfg, s, l);
    if l.Advance? && l.k == k {
      ActiveAdvances(cfg, s, k, s.calls[k].status.pc, l.env);
    }
  }

  lemma StartedNow(cfg: Config, s: State, l: Label)
    requires Enabled(cfg, s, l) && l.Start?
    ensures l.k < |Next(cfg, s, l).calls| && !Next(cfg, s, l).calls[l.k].status.Waiting?
  {
    WaitingStarts(cfg, s, l.k, l.env);
  }

  lemma NextOrStartedStep(cfg: Config, s: State, l: Label, k: nat)
    requires Inv(cfg, s) && Enabled(cfg, s, l) && NextOrStarted(s, k)
    ensures NextOrStarted(Next(cfg, s, l), k)
  {
    if k < |s.calls| && !s.calls[k].status.Waiting? {
      StaysStarted(cfg, s, l, k);
    } else if l.Start? {
      StepMoves(cfg, s, l);
      StartedNow(cfg, s, l);
    } else {
      IdleStep(cfg, s, l);
    }
  }

  lemma NextOrStartedInRun(cfg: Config, run: seq<State>, labels: seq<Label>, i: nat, j: nat, k: nat)
    requires IsRun(cfg, run, labels) && i <= j < |run| && NextOrStarted(run[i], k)
    ensures NextOrStarted(run[j], k)
  {
    var flags := seq(|run|, m requires 0 <= m < |run| => NextOrStarted(run[m], k));
    forall m | i <= m < j && flags[m] ensures flags[m + 1] {
      RunInv(cfg, run, labels, m);
      NextOrStartedStep(cfg, run[m], labels[m], k);
    }
    KeptBetween(flags, i, j);
  }

  lemma NextAfterSuccess(cfg: Config, run: seq<State>, labels: seq<Label>, i: nat, k: nat)
    requires IsRun(cfg, run, labels) && i < |labels| && Succeeds(run[i], run[i + 1], k) && run[i].calls[k].kind.Resume?
    ensures NextOrStarted(run[i + 1], k + 1)
  {
    RunInv(cfg, run, labels, i);
    SuccessfulResume(cfg, run[i], labels[i], k);
  }

  lemma StillNext(cfg: Config, run: seq<State>, labels: seq<Label>, i: nat, j: nat, k: nat)
    requires IsRun(cfg, run, labels) && i < j < |run|
    requires i < |labels| && Succeeds(run[i], run[i + 1], k) && run[i].calls[k].kind.Resume?
    ensures NextOrStarted(run[j], k + 1)
  {
    NextAfterSuccess(cfg, run, labels, i, k);
    NextOrStartedInRun(cfg, run, labels, i + 1, j, k + 1);
  }

  /** A second resume queued behind a successful one is refused: when it starts it settles as failed and changes
      nothing else, whatever was called in between. */
  lemma SecondResumeRefused(cfg: Config, run: seq<State>, labels: seq<Label>, i: nat, j: nat, k: nat, env: Env)
    requires IsRun(cfg, run, labels) && i < j < |labels|
    requires Succeeds(run[i], run[i + 1], k) && run[i].calls[k].kind.Resume?
    requires labels[j] == Start(k + 1, env) && k + 1 < |run[j].calls| && run[j].calls[k + 1].kind.Resume?
    ensures run[j + 1] == Settle(run[j], k + 1, false)
  {
    assert NextOrStarted(run[j], k + 1) by {
      StillNext(cfg, run, labels, i, j, k);
    }
    RefusedInRun(cfg, run, labels, j, k + 1, env);
  }

  lemma RefusedInRun(cfg: Config, run: seq<State>, labels: seq<Label>, j: nat, k: nat, env: Env)
    requires IsRun(cfg, run, labels) && j < |labels| && labels[j] == Start(k, env) && NextOrStarted(run[j], k)
    requires k < |run[j].calls| && run[j].calls[k].kind.Resume?
    ensures run[j + 1] == Settle(run[j], k, false)
  {
    RefusedWhenRunning(cfg, run[j], labels[j]);
  }

  lemma RefusedWhenRunning(cfg: Config, s: State, l: Label)
    requires Enabled(cfg, s, l) && l.Start? && s.calls[l.k].kind.Resume? && s.runState != SAFE_STATE
    ensures Next(cfg, s, l) == Settle(s, l.k, false)
  {}
}
