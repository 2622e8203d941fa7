/** Exactly when an entry or a resume succeeds, and that it always settles. */
module SafeStateOutcomes {
  import opened Wrappers
  import opened Actuation
  import opened SafeState
  import opened SafeStateAudit
  import opened SafeStateInvariants
  import opened SafeStateTheorems
  import opened SafeStateRuns
  import opened SafeStateStranded

  // ----- operator identities -----

  /** The white space that trimming removes. */
  const WhiteSpace: set<char> := {
    '\t', '\n', '\U{B}', '\U{C}', '\r', ' ', '\U{A0}', '\U{1680}', '\U{2000}', '\U{2001}', '\U{2002}', '\U{2003}',
    '\U{2004}', '\U{2005}', '\U{2006}', '\U{2007}', '\U{2008}', '\U{2009}', '\U{200A}', '\U{2028}', '\U{2029}',
    '\U{202F}', '\U{205F}', '\U{3000}', '\U{FEFF}'}

  function TrimStart(s: string): string {
    if s != [] && s[0] in WhiteSpace then TrimStart(s[1..]) else s
  }

  function TrimEnd(s: string): string {
    if s != [] && s[|s| - 1] in WhiteSpace then TrimEnd(s[..|s| - 1]) else s
  }

  function Trim(s: string): string {
    TrimEnd(TrimStart(s))
  }

  lemma SpaceIsWhiteSpace(c: char)
    ensures IsSpace(c) <==> c in WhiteSpace
  {}

  lemma {:induction false} TrimStartEmpty(s: string)
    ensures TrimStart(s) == "" <==> forall i :: 0 <= i < |s| ==> s[i] in WhiteSpace
    ensures TrimStart(s) != "" ==> TrimStart(s)[0] !in WhiteSpace
  {
    if s != [] && s[0] in WhiteSpace {
      TrimStartEmpty(s[1..]);
      assert forall i :: 1 <= i < |s| ==> s[i] == s[1..][i - 1];
      assert forall i :: 0 <= i < |s[1..]| ==> s[1..][i] == s[i + 1];
    }
  }

  lemma {:induction false} TrimEndEmpty(s: string)
    requires s != "" && s[0] !in WhiteSpace
    ensures TrimEnd(s) != ""
  {
    if |s| > 1 && s[|s| - 1] in WhiteSpace {
      TrimEndEmpty(s[..|s| - 1]);
    }
  }

  /** An identity is blank exactly when trimming leaves nothing of it. */
  lemma BlankIsTrimmedAway(operator: string)
    ensures Blank(operator) <==> Trim(operator) == ""
  {
    TrimStartEmpty(operator);
    forall c ensures IsSpace(c) <==> c in WhiteSpace {
      SpaceIsWhiteSpace(c);
    }
    if TrimStart(operator) != "" {
      TrimEndEmpty(TrimStart(operator));
    }
  }

  // ----- answers -----

  /** The environment answers well to what this step asks of it: every pending row is stored, and the actuator
      resumes. */
  ghost predicate AnsweredWell(s: State, k: nat, env: Env)
    requires k < |s.calls| && s.calls[k].status.Active?
  {
    match s.calls[k].status.pc
    case PersistEntry => s.pendingEntry.None? || env.write.Stored?
    case RecordEntry => s.pendingEntry.None? || env.write.Stored?
    case ResumePersistEntry => s.pendingEntry.None? || env.write.Stored?
    case ResumePersistRequest => s.pendingRequest.None? || env.write.Stored?
    case RecordRequest => env.write.Stored? && env.resume.Returns?
    case RecordExit(_) => env.write.Stored?
    case _ => true
  }

  /** The transition has settled successfully, or is on its way there. */
  ghost predicate OnCourse(status: Status) {
    match status
    case Waiting => false
    case Settled(ok) => ok
    case Active(pc) => !pc.AnchorOutcome? && !pc.RecordOutcome?
  }

  lemma RequestOnCourse(cfg: Config, s: State, k: nat, env: Env)
    requires k < |s.calls| && s.pendingRequest.Some?
    ensures OnCourse(RequestRecorded(cfg, s, k, env).calls[k].status) <==> env.write.Stored? && env.resume.Returns?
  {
    var s1 := s.(log := Record(s.log, s.pendingRequest.value, env.write)).(pendingRequest := None);
    RecoverKeepsLog(cfg, s1.(plant := ResumeBy(env.resume, s.plant), haltOk := false, actionOk := false), k, env,
      false);
  }

  lemma ExitOnCourse(cfg: Config, s: State, k: nat, env: Env, row: Row)
    requires k < |s.calls|
    ensures OnCourse(ExitRecorded(cfg, s, k, env, row).calls[k].status) <==> env.write.Stored?
  {
    RecoverKeepsLog(cfg, s.(log := Record(s.log, row, env.write)), k, env, true);
  }

  lemma ContinueOnCourse(cfg: Config, s: State, k: nat, pc: Pc, env: Env)
    requires k < |s.calls| && s.calls[k].status == Active(pc) && Sound(cfg, s, s.calls[k].kind, Some(pc))
    ensures OnCourse(Continue(cfg, s, k, pc, env).calls[k].status) <==> OnCourse(Active(pc)) && AnsweredWell(s, k, env)
  {
    match pc
    case RecordRequest => RequestOnCourse(cfg, s, k, env);
    case RecordExit(row) => ExitOnCourse(cfg, s, k, env, row);
    case _ =>
  }

  /** The step continues transition `k`, and the environment answers badly. */
  ghost predicate FailsCall(s: State, l: Label, k: nat) {
    l.Advance? && l.k == k && k < |s.calls| && s.calls[k].status.Active? && !AnsweredWell(s, k, l.env)
  }

  lemma StaysOnCourse(cfg: Config, s: State, l: Label, k: nat)
    requires Inv(cfg, s) && Enabled(cfg, s, l) && k < |s.calls| && !s.calls[k].status.Waiting?
    ensures k < |Next(cfg, s, l).calls| && !Next(cfg, s, l).calls[k].status.Waiting?
    ensures OnCourse(Next(cfg, s, l).calls[k].status) <==> OnCourse(s.calls[k].status) && !FailsCall(s, l, k)
  {
    StaysStarted(cfg, s, l, k);
    StepMoves(cfg, s, l);
    if l.Advance? && l.k == k {
      ContinueOnCourse(cfg, s, k, s.calls[k].status.pc, l.env);
      AdvanceContinues(cfg, s, k, s.calls[k].status.pc, l.env);
    }
  }

  /** What a transition needs when it starts: a resume, an operator whose identity does not trim to nothing and the safe
      state; an entry, the safe state, or a halt that returns and an action that is not refused. */
  ghost predicate StartsWell(cfg: Config, s: State, k: nat, env: Env)
    requires k < |s.calls|
  {
    match s.calls[k].kind
    case Resume(operator) => Trim(operator) != "" && s.runState == SAFE_STATE
    case Enter(_) =>
      s.runState == SAFE_STATE || (env.halt.Returns? && !Refused(cfg.seam, cfg.action, s.optIn, env.published))
  }

  lemma StartOnCourse(cfg: Config, s: State, k: nat, env: Env)
    requires Inv(cfg, s) && Enabled(cfg, s, Start(k, env))
    ensures k < |Next(cfg, s, Start(k, env)).calls|
    ensures OnCourse(Next(cfg, s, Start(k, env)).calls[k].status) <==> StartsWell(cfg, s, k, env)
  {
    if s.calls[k].kind.Enter? {
      ThrowsExactlyWhenRefused(cfg.seam, cfg.action, s.optIn, env.published, HaltBy(env.halt, s.plant));
    } else {
      BlankIsTrimmedAway(s.calls[k].kind.operator);
    }
  }

  // ----- exactly when a transition succeeds -----

  lemma StartInRun(cfg: Config, run: seq<State>, labels: seq<Label>, i: nat, k: nat, env: Env)
    requires IsRun(cfg, run, labels) && i < |labels| && labels[i] == Start(k, env)
    ensures k < |run[i].calls| && k < |run[i + 1].calls| && !run[i + 1].calls[k].status.Waiting?
    ensures OnCourse(run[i + 1].calls[k].status) <==> StartsWell(cfg, run[i], k, env)
  {
    RunInv(cfg, run, labels, i);
    StartOnCourse(cfg, run[i], k, env);
    StartedNow(cfg, run[i], labels[i]);
  }

  lemma StepInRun(cfg: Config, run: seq<State>, labels: seq<Label>, m: nat, k: nat)
    requires IsRun(cfg, run, labels) && m < |labels| && k < |run[m].calls| && !run[m].calls[k].status.Waiting?
    ensures k < |run[m + 1].calls| && !run[m + 1].calls[k].status.Waiting?
    ensures OnCourse(run[m + 1].calls[k].status) <==>
      OnCourse(run[m].calls[k].status) && !FailsCall(run[m], labels[m], k)
  {
    RunInv(cfg, run, labels, m);
    StaysOnCourse(cfg, run[m], labels[m], k);
  }

  /** A flag that nothing sets and any of its causes clears stays exactly while there is no cause. */
  lemma {:induction false} StaysExactly(flags: seq<bool>, causes: seq<bool>, i: nat, j: nat)
    requires |flags| == |causes| + 1 && i <= j < |flags|
    requires forall m :: i <= m < j ==> (flags[m + 1] <==> flags[m] && !causes[m])
    ensures flags[j] <==> flags[i] && forall m :: i <= m < j ==> !causes[m]
    decreases j
  {
    if i < j {
      StaysExactly(flags, causes, i, j - 1);
      assert flags[j - 1 + 1] <==> flags[j - 1] && !causes[j - 1];
    }
  }

  lemma {:induction false} StartedInRun(cfg: Config, run: seq<State>, labels: seq<Label>, i: nat, j: nat, k: nat)
    requires IsRun(cfg, run, labels) && i <= j < |run| && k < |run[i].calls| && !run[i].calls[k].status.Waiting?
    ensures k < |run[j].calls| && !run[j].calls[k].status.Waiting?
    decreases j
  {
    if i < j {
      StartedInRun(cfg, run, labels, i, j - 1, k);
      StepInRun(cfg, run, labels, j - 1, k);
    }
  }

  ghost predicate CallOnCourse(s: State, k: nat) {
    k < |s.calls| && OnCourse(s.calls[k].status)
  }

  lemma OnCourseExactly(cfg: Config, run: seq<State>, labels: seq<Label>, i: nat, j: nat, k: nat)
    requires IsRun(cfg, run, labels) && i <= j < |run| && k < |run[i].calls| && !run[i].calls[k].status.Waiting?
    ensures CallOnCourse(run[j], k) <==>
      CallOnCourse(run[i], k) && forall m :: i <= m < j ==> !FailsCall(run[m], labels[m], k)
  {
    var flags := seq(|run|, m requires 0 <= m < |run| => CallOnCourse(run[m], k));
    var causes := seq(|labels|, m requires 0 <= m < |labels| => FailsCall(run[m], labels[m], k));
    forall m | i <= m < j ensures flags[m + 1] <==> flags[m] && !causes[m] {
      StartedInRun(cfg, run, labels, i, m, k);
      StepInRun(cfg, run, labels, m, k);
    }
    StaysExactly(flags, causes, i, j);
    assert forall m :: i <= m < j ==> causes[m] == FailsCall(run[m], labels[m], k);
  }

  /** In every run, in every interleaving: a transition that has settled succeeded exactly when it started well and
      every answer that it got was good. For a resume this means an operator with a name, the safe state, all rows
      stored and an actuator that resumed. */
  lemma SucceedsExactly(cfg: Config, run: seq<State>, labels: seq<Label>, i: nat, j: nat, k: nat, env: Env)
    requires IsRun(cfg, run, labels) && i < j < |run| && labels[i] == Start(k, env)
    requires k < |run[j].calls| && run[j].calls[k].status.Settled?
    ensures k < |run[i].calls|
    ensures run[j].calls[k].status == Settled(true) <==>
      StartsWell(cfg, run[i], k, env) && forall m :: i < m < j ==> !FailsCall(run[m], labels[m], k)
  {
    StartInRun(cfg, run, labels, i, k, env);
    OnCourseExactly(cfg, run, labels, i + 1, j, k);
  }

  /** What success means: an exit leaves the blueprint RUNNING, released, and with the EXITED row of its operator
      stored; an entry leaves it in the safe state, halted, with no row pending and its ENTERED row stored. */
  ghost predicate Accomplished(s: State, k: nat)
    requires k < |s.calls|
  {
    match s.calls[k].kind
    case Resume(operator) =>
      && s.runState == RUNNING && !s.plant.halted
      && exists row :: row in s.log && row.transition == Exited && row.operator == Some(operator)
    case Enter(_) =>
      && s.runState == SAFE_STATE && s.plant.halted && s.pendingEntry.None?
      && s.entry.Some? && s.entry.value.transition == Entered && s.entry.value in s.log
  }

  lemma EntrySettles(cfg: Config, s: State, k: nat, pc: Pc, env: Env)
    requires k < |s.calls| && s.calls[k].kind.Enter? && Sound(cfg, s, s.calls[k].kind, Some(pc))
    requires Continue(cfg, s, k, pc, env).calls[k].status == Settled(true)
    ensures Continue(cfg, s, k, pc, env).runState == SAFE_STATE && Continue(cfg, s, k, pc, env).pendingEntry.None?
  {}

  lemma EntryAccomplished(cfg: Config, s: State, l: Label, k: nat)
    requires Inv(cfg, s) && Enabled(cfg, s, l) && Succeeds(s, Next(cfg, s, l), k) && s.calls[k].kind.Enter?
    ensures Next(cfg, s, l).runState == SAFE_STATE && Next(cfg, s, l).pendingEntry.None?
  {
    StepMoves(cfg, s, l);
    assert l.k == k;
    if l.Advance? {
      AdvanceContinues(cfg, s, k, s.calls[k].status.pc, l.env);
      EntrySettles(cfg, s, k, s.calls[k].status.pc, l.env);
    }
  }

  /** While a resume is under way after the actuator was released, the latch is open. */
  ghost predicate ReleasedWhileResuming(s: State) {
    s.runState == RESUMING ==> !s.plant.halted
  }

  lemma ReleasedStep(cfg: Config, s: State, l: Label)
    requires Inv(cfg, s) && Enabled(cfg, s, l) && ReleasedWhileResuming(s)
    ensures ReleasedWhileResuming(Next(cfg, s, l))
  {
    if l.Advance? {
      AdvanceReleases(cfg, s, l);
    } else if l.Start? {
      StepMoves(cfg, s, l);
      StartNeverRegains(cfg, s, l);
    } else {
      OtherStep(cfg, s, l);
    }
  }

  lemma {:induction false} ReleasedInRun(cfg: Config, run: seq<State>, labels: seq<Label>, i: nat)
    requires IsRun(cfg, run, labels) && i < |run|
    ensures ReleasedWhileResuming(run[i])
  {
    if i > 0 {
      ReleasedInRun(cfg, run, labels, i - 1);
      RunInv(cfg, run, labels, i - 1);
      ReleasedStep(cfg, run[i - 1], labels[i - 1]);
    }
  }

  lemma ExitAccomplished(cfg: Config, s: State, l: Label, k: nat)
    requires Inv(cfg, s) && Enabled(cfg, s, l) && Succeeds(s, Next(cfg, s, l), k) && s.calls[k].kind.Resume?
    requires ReleasedWhileResuming(s)
    ensures Next(cfg, s, l).calls[k].kind == s.calls[k].kind && Accomplished(Next(cfg, s, l), k)
  {
    SuccessfulResume(cfg, s, l, k);
    StepMoves(cfg, s, l);
    assert l.k == k;
    if l.Start? {
      StartedResume(cfg, s, l);
    }
    AdvanceReleases(cfg, s, l);
    RegainStep(cfg, s, l);
  }

  lemma SuccessAccomplishes(cfg: Config, s: State, l: Label, k: nat)
    requires Inv(cfg, s) && Enabled(cfg, s, l) && Succeeds(s, Next(cfg, s, l), k) && ReleasedWhileResuming(s)
    ensures Next(cfg, s, l).calls[k].kind == s.calls[k].kind && Accomplished(Next(cfg, s, l), k)
  {
    StepMoves(cfg, s, l);
    InvKept(cfg, s, l);
    if s.calls[k].kind.Enter? {
      EntryAccomplished(cfg, s, l, k);
    } else {
      ExitAccomplished(cfg, s, l, k);
    }
  }

  /** In every run, a transition that settles successfully has accomplished what it is for. */
  lemma SuccessInRun(cfg: Config, run: seq<State>, labels: seq<Label>, m: nat, k: nat)
    requires IsRun(cfg, run, labels) && m < |labels| && Succeeds(run[m], run[m + 1], k)
    ensures Accomplished(run[m + 1], k)
  {
    RunInv(cfg, run, labels, m);
    ReleasedInRun(cfg, run, labels, m);
    SuccessAccomplishes(cfg, run[m], labels[m], k);
  }

  // ----- what is left in the audit log -----

  lemma PendingStep(cfg: Config, s: State, k: nat, pc: Pc, env: Env)
    requires k < |s.calls| && Sound(cfg, s, s.calls[k].kind, Some(pc))
    ensures var s' := Continue(cfg, s, k, pc, env);
      && (s.pendingEntry.Some? && s'.pendingEntry != s.pendingEntry ==> s.pendingEntry.value in s'.log)
      && (s.pendingRequest.Some? && s'.pendingRequest != s.pendingRequest ==> s.pendingRequest.value in s'.log)
  {
    if s.pendingEntry.Some? {
      RecordKeepsLog(s.log, s.pendingEntry.value, env.write, s.nextHash);
    }
    if s.pendingRequest.Some? {
      RecordKeepsLog(s.log, s.pendingRequest.value, env.write, s.nextHash);
    }
    match pc
    case RecordRequest => RequestKeepsPending(cfg, s, k, env);
    case RecordExit(row) => ExitKeepsPending(cfg, s, k, env, row);
    case _ =>
  }

  lemma RequestKeepsPending(cfg: Config, s: State, k: nat, env: Env)
    requires k < |s.calls| && s.pendingEntry.None? && s.pendingRequest.Some?
    ensures var s' := RequestRecorded(cfg, s, k, env);
      s'.pendingEntry == s.pendingEntry && s'.log == Record(s.log, s.pendingRequest.value, env.write)
      && (s'.pendingRequest != s.pendingRequest ==> env.write.Stored?)
  {
    var s1 := s.(log := Record(s.log, s.pendingRequest.value, env.write)).(pendingRequest := None);
    RecoverKeepsLog(cfg, s1.(plant := ResumeBy(env.resume, s.plant), haltOk := false, actionOk := false), k, env,
      false);
  }

  lemma ExitKeepsPending(cfg: Config, s: State, k: nat, env: Env, row: Row)
    requires k < |s.calls|
    ensures var s' := ExitRecorded(cfg, s, k, env, row);
      s'.pendingEntry == s.pendingEntry && s'.pendingRequest == s.pendingRequest
  {}

  lemma NothingPendingIsDropped(cfg: Config, s: State, l: Label)
    requires Inv(cfg, s) && Enabled(cfg, s, l)
    ensures var s' := Next(cfg, s, l);
      && (s.pendingEntry.Some? && s'.pendingEntry != s.pendingEntry ==> s.pendingEntry.value in s'.log)
      && (s.pendingRequest.Some? && s'.pendingRequest != s.pendingRequest ==> s.pendingRequest.value in s'.log)
  {
    if l.Advance? {
      PendingStep(cfg, s, l.k, s.calls[l.k].status.pc, l.env);
      AdvanceContinues(cfg, s, l.k, s.calls[l.k].status.pc, l.env);
    }
  }

  /** In every run, an audit row that failed to be written stays pending until it is stored. */
  lemma PendingUntilStored(cfg: Config, run: seq<State>, labels: seq<Label>, i: nat)
    requires IsRun(cfg, run, labels) && i < |labels|
    ensures var s, s' := run[i], run[i + 1];
      && (s.pendingEntry.Some? && s'.pendingEntry != s.pendingEntry ==> s.pendingEntry.value in s'.log)
      && (s.pendingRequest.Some? && s'.pendingRequest != s.pendingRequest ==> s.pendingRequest.value in s'.log)
  {
    RunInv(cfg, run, labels, i);
    NothingPendingIsDropped(cfg, run[i], labels[i]);
  }

  /** How the compensation of a failed exit is to be recorded: as a failed recovery when it threw; otherwise as a failed
      resume when the actuator never resumed, and as an aborted exit when it had. */
  ghost function Verdict(cfg: Config, s: State, l: Label): Transition
    requires Recovers(s, l)
  {
    if CompensationThrows(cfg, s, l) then RecoveryFailed else if s.runState == RESUMING then ExitAborted
      else ResumeFailed
  }

  lemma RecoverAnchors(cfg: Config, s: State, k: nat, env: Env, resumed: bool)
    requires k < |s.calls| && Fits(cfg.seam, cfg.action)
    requires forall i :: 0 <= i < |cfg.seam.outputs| ==> cfg.seam.outputs[i] in s.plant.tags
    ensures Recover(cfg, s, k, env, resumed).calls[k].status == Active(AnchorOutcome(
      if !env.halt.Returns? || Refused(cfg.seam, cfg.action, s.optIn, env.published) then RecoveryFailed
      else if resumed then ExitAborted else ResumeFailed))
  {
    ThrowsExactlyWhenRefused(cfg.seam, cfg.action, s.optIn, env.published, HaltBy(env.halt, s.plant));
  }

  /** A compensation goes on to anchor its verdict. */
  lemma VerdictIsAnchored(cfg: Config, s: State, l: Label)
    requires Inv(cfg, s) && Enabled(cfg, s, l) && Recovers(s, l)
    ensures l.k < |Next(cfg, s, l).calls|
    ensures Next(cfg, s, l).calls[l.k].status == Active(AnchorOutcome(Verdict(cfg, s, l)))
  {
    var k, env := l.k, l.env;
    match s.calls[k].status.pc
    case RecordExit(row) => RecoverAnchors(cfg, s.(log := Record(s.log, row, env.write)), k, env, true);
    case RecordRequest =>
      var s1 := if s.pendingRequest.None? then s
                else s.(log := Record(s.log, s.pendingRequest.value, env.write)).(pendingRequest := None);
      var s2 := s1.(plant := ResumeBy(env.resume, s.plant), haltOk := false, actionOk := false);
      RecoverAnchors(cfg, s2, k, env, false);
    case _ =>
  }

  /** In every run: a compensation anchors its verdict, the anchored verdict becomes a row of that kind for its
      operator, and the row is in the log when its write succeeds. */
  lemma VerdictIsRecorded(cfg: Config, run: seq<State>, labels: seq<Label>, i: nat, k: nat)
    requires IsRun(cfg, run, labels) && i < |labels| && labels[i].Advance? && labels[i].k == k < |run[i].calls|
    ensures k < |run[i + 1].calls| && run[i].calls[k].status.Active?
    ensures Recovers(run[i], labels[i]) ==>
      run[i + 1].calls[k].status == Active(AnchorOutcome(Verdict(cfg, run[i], labels[i])))
    ensures run[i].calls[k].status.pc.AnchorOutcome? ==>
      && run[i + 1].calls[k].status.Active? && run[i + 1].calls[k].status.pc.RecordOutcome?
      && run[i + 1].calls[k].status.pc.row.transition == run[i].calls[k].status.pc.transition
      && run[i + 1].calls[k].status.pc.row.operator == Some(OperatorOf(run[i].calls[k].kind))
    ensures run[i].calls[k].status.pc.RecordOutcome? && labels[i].env.write.Stored? ==>
      run[i].calls[k].status.pc.row in run[i + 1].log
  {
    RunInv(cfg, run, labels, i);
    StaysStarted(cfg, run[i], labels[i], k);
    if Recovers(run[i], labels[i]) {
      VerdictIsAnchored(cfg, run[i], labels[i]);
    }
    var pc := run[i].calls[k].status.pc;
    if pc.RecordOutcome? {
      RecordKeepsLog(run[i].log, pc.row, labels[i].env.write, run[i].nextHash);
    }
  }

  // ----- the first unsettled transition settles by itself -----

  /** A stretch of steps, all of the transition at the front, all with the same answers. */
  ghost predicate Alone(cfg: Config, run: seq<State>, env: Env, k: nat) {
    && run != []
    && (forall m :: 0 <= m < |run| ==> k < |run[m].calls| && Inv(cfg, run[m]) && ReleasedWhileResuming(run[m]))
    && (forall m :: 0 <= m < |run| - 1 ==>
      run[m].front == k && run[m + 1] == Next(cfg, run[m], FrontLabel(run[m], env)))
  }

  lemma FrontStep(cfg: Config, s: State, env: Env)
    requires Inv(cfg, s) && ReleasedWhileResuming(s) && s.front < |s.calls|
    ensures Enabled(cfg, s, FrontLabel(s, env))
    ensures var s' := Next(cfg, s, FrontLabel(s, env)); var k := s.front;
      && Inv(cfg, s') && ReleasedWhileResuming(s') && |s'.calls| == |s.calls| && s'.calls[k].kind == s.calls[k].kind
      && Remaining(s'.calls[k].status) < Remaining(s.calls[k].status)
      && (!s'.calls[k].status.Settled? ==> s'.front == k && s'.calls[k].status.Active?)
  {
    var l := FrontLabel(s, env);
    ChainNeverBlocks(cfg, s, env);
    InvKept(cfg, s, l);
    ReleasedStep(cfg, s, l);
    StepMoves(cfg, s, l);
    ChainKept(cfg, s, l);
  }

  /** With good answers to everything, the transition will succeed. */
  ghost predicate Promising(cfg: Config, s: State, env: Env)
    requires s.front < |s.calls|
  {
    var status := s.calls[s.front].status;
    if status.Waiting? then StartsWell(cfg, s, s.front, env) else OnCourse(status)
  }

  ghost predicate GoodAnswers(env: Env) {
    env.write.Stored? && env.resume.Returns?
  }

  lemma StaysPromising(cfg: Config, s: State, env: Env)
    requires Inv(cfg, s) && s.front < |s.calls| && GoodAnswers(env) && Enabled(cfg, s, FrontLabel(s, env))
    ensures s.front < |Next(cfg, s, FrontLabel(s, env)).calls|
    ensures OnCourse(Next(cfg, s, FrontLabel(s, env)).calls[s.front].status) <==> Promising(cfg, s, env)
  {
    if s.calls[s.front].status.Waiting? {
      StartOnCourse(cfg, s, s.front, env);
    } else {
      StaysOnCourse(cfg, s, FrontLabel(s, env), s.front);
    }
  }

  /** The outcome of a stretch of steps that ends with the transition settled. */
  ghost predicate Outcome(cfg: Config, s: State, last: State, env: Env)
    requires s.front < |s.calls|
  {
    && s.front < |last.calls| && last.calls[s.front].status.Settled?
    && (last.calls[s.front].status.ok ==> Accomplished(last, s.front))
    && (GoodAnswers(env) ==> (last.calls[s.front].status.ok <==> Promising(cfg, s, env)))
  }

  lemma OutcomeNow(cfg: Config, s: State, env: Env)
    requires Inv(cfg, s) && ReleasedWhileResuming(s) && s.front < |s.calls| && Enabled(cfg, s, FrontLabel(s, env))
    requires var s' := Next(cfg, s, FrontLabel(s, env)); |s'.calls| == |s.calls| && s'.calls[s.front].status.Settled?
    ensures Outcome(cfg, s, Next(cfg, s, FrontLabel(s, env)), env)
  {
    var s' := Next(cfg, s, FrontLabel(s, env));
    if s'.calls[s.front].status.ok {
      SuccessAccomplishes(cfg, s, FrontLabel(s, env), s.front);
    }
    if GoodAnswers(env) {
      StaysPromising(cfg, s, env);
    }
  }

  lemma OutcomeLater(cfg: Config, s: State, s': State, last: State, env: Env)
    requires Inv(cfg, s) && s.front < |s.calls| && Enabled(cfg, s, FrontLabel(s, env))
    requires s' == Next(cfg, s, FrontLabel(s, env)) && s'.front == s.front < |s'.calls|
    requires s'.calls[s.front].status.Active? && Outcome(cfg, s', last, env)
    ensures Outcome(cfg, s, last, env)
  {
    if GoodAnswers(env) {
      StaysPromising(cfg, s, env);
    }
  }

  /** Stepped by itself, with any answers, the first unsettled transition settles within its remaining awaits; with
      good answers it succeeds exactly when it started well; and success accomplishes what it is for. */
  lemma {:induction false} SettlesAlone(cfg: Config, s: State, env: Env) returns (run: seq<State>)
    requires Inv(cfg, s) && ReleasedWhileResuming(s) && s.front < |s.calls|
    ensures Alone(cfg, run, env, s.front) && run[0] == s && |run| - 1 <= Remaining(s.calls[s.front].status)
    ensures Outcome(cfg, s, run[|run| - 1], env)
    decreases Remaining(s.calls[s.front].status)
  {
    var s' := Next(cfg, s, FrontLabel(s, env));
    FrontStep(cfg, s, env);
    if s'.calls[s.front].status.Settled? {
      run := [s, s'];
      OutcomeNow(cfg, s, env);
    } else {
      var rest := SettlesAlone(cfg, s', env);
      run := [s] + rest;
      OutcomeLater(cfg, s, s', rest[|rest| - 1], env);
    }
  }

  /** From every moment of every run at which a transition is waiting in front: a resume by an operator with a name,
      in the safe state, answered well, brings the blueprint back to RUNNING, released and with the EXITED row stored;
      and an entry answered well brings it to the safe state with the ENTERED row stored. */
  lemma ProperTransitionSucceeds(cfg: Config, run: seq<State>, labels: seq<Label>, i: nat, env: Env)
      returns (rest: seq<State>)
    requires IsRun(cfg, run, labels) && i < |run| && run[i].front < |run[i].calls|
    requires run[i].calls[run[i].front].status.Waiting? && StartsWell(cfg, run[i], run[i].front, env)
      && GoodAnswers(env)
    ensures Alone(cfg, rest, env, run[i].front) && rest[0] == run[i] && |rest| <= 13
    ensures var last := rest[|rest| - 1]; var k := run[i].front;
      k < |last.calls| && last.calls[k].status == Settled(true) && Accomplished(last, k)
  {
    RunInv(cfg, run, labels, i);
    ReleasedInRun(cfg, run, labels, i);
    rest := SettlesAlone(cfg, run[i], env);
  }
}
