/** A blueprint that is halted while it reports RUNNING: exactly how that comes about, that it lasts, and
    when it cannot happen. */
module SafeStateStranded {
  import opened Wrappers
  import opened Actuation
  import opened SafeState
  import opened SafeStateInvariants
  import opened SafeStateTheorems
  import opened SafeStateRuns

  /** Halted, reported RUNNING, and no entry on the way. */
  ghost predicate Stranded(s: State) {
    s.runState == RUNNING && s.plant.halted && Now(s).None? && forall e: nat :: !Pending(s, e)
  }

  // ----- it lasts -----

  /** Under the host nothing ends it: ticks are refused by the latch, resumes by the report. */
  lemma StrandedStays(cfg: Config, s: State, l: Label)
    requires Inv(cfg, s) && Stranded(s) && Enabled(cfg, s, l) && HostLabel(l)
    ensures Stranded(Next(cfg, s, l)) && !TickRuns(s)
  {
    var s' := Next(cfg, s, l);
    StepMoves(cfg, s, l);
    if l.Start? {
      assert !Pending(s, l.k);
      NowAfterMove(s, s', l.k);
      forall e: nat ensures !Pending(s', e) {
        assert Pending(s', e) ==> Pending(s, e);
      }
    } else {
      IdleStep(cfg, s, l);
      forall e: nat ensures !Pending(s', e) {
        assert Pending(s', e) ==> Pending(s, e);
      }
    }
  }

  lemma {:induction false} StrandedForGood(cfg: Config, run: seq<State>, labels: seq<Label>, i: nat, j: nat)
    requires IsRun(cfg, run, labels) && i <= j < |run| && (forall m :: 0 <= m < |labels| ==> HostLabel(labels[m]))
    requires Stranded(run[i])
    ensures Stranded(run[j]) && !TickRuns(run[j])
    decreases j
  {
    if i < j {
      StrandedForGood(cfg, run, labels, i, j - 1);
      StrandedStaysInRun(cfg, run, labels, j - 1);
    }
  }

  lemma StrandedStaysInRun(cfg: Config, run: seq<State>, labels: seq<Label>, m: nat)
    requires IsRun(cfg, run, labels) && m < |labels| && HostLabel(labels[m]) && Stranded(run[m])
    ensures Stranded(run[m + 1])
  {
    RunInv(cfg, run, labels, m);
    StrandedStays(cfg, run[m], labels[m]);
  }

  // ----- exactly how it comes about -----

  /** The halt latch agrees with the report: RUNNING and halted only while an entry is being anchored or when
      stranded, and a blueprint that is being resumed is released. */
  ghost predicate LatchAgrees(s: State) {
    && (s.runState == RUNNING && s.plant.halted ==> Now(s) == Some(AnchorEntry) || Stranded(s))
    && (s.runState == RESUMING ==> !s.plant.halted)
  }

  /** The step starts an entry from RUNNING whose halt takes effect and then throws, or whose halt returns and
      whose safe action is refused by one of its guards. */
  ghost predicate FailsEntry(cfg: Config, s: State, l: Label) {
    && l.Start? && l.k < |s.calls| && s.calls[l.k].kind.Enter? && s.runState == RUNNING
    && (l.env.halt.ThrowsAfter?
        || (l.env.halt.Returns? && Refused(cfg.seam, cfg.action, s.optIn, l.env.published)))
  }

  /** The plant and the status after an entry was started from RUNNING. */
  lemma EntryOutcome(cfg: Config, s: State, k: nat, env: Env)
    requires k < |s.calls| && s.calls[k].kind.Enter? && s.runState == RUNNING && Fits(cfg.seam, cfg.action)
    requires forall i :: 0 <= i < |cfg.seam.outputs| ==> cfg.seam.outputs[i] in s.plant.tags
    ensures var s' := StartEnter(cfg, s, k, env);
      && s'.runState == RUNNING
      && (FailsEntry(cfg, s, Start(k, env)) ==> s'.plant.halted && s'.calls[k].status.Settled?)
      && (env.halt.ThrowsBefore? ==> s'.plant.halted == s.plant.halted && s'.calls[k].status.Settled?)
      && (!env.halt.ThrowsBefore? && !FailsEntry(cfg, s, Start(k, env)) ==> s'.calls[k].status == Active(AnchorEntry))
  {
    ActuateKeepsHalt(cfg.seam, cfg.action, s.optIn, env.published, HaltBy(env.halt, s.plant));
    ThrowsExactlyWhenRefused(cfg.seam, cfg.action, s.optIn, env.published, HaltBy(env.halt, s.plant));
  }

  /** Under the host a started entry is the only pending one, so once settled it leaves none. */
  lemma SettledEntryLeavesNone(cfg: Config, s: State, k: nat, env: Env)
    requires Inv(cfg, s) && Hosted(s) && Enabled(cfg, s, Start(k, env)) && s.calls[k].kind.Enter?
    requires Next(cfg, s, Start(k, env)).calls[k].status.Settled?
    ensures forall e: nat :: !Pending(Next(cfg, s, Start(k, env)), e)
  {
    var s' := Next(cfg, s, Start(k, env));
    StepMoves(cfg, s, Start(k, env));
    assert Pending(s, k);
    forall e: nat ensures !Pending(s', e) {
      assert e != k && Pending(s', e) ==> Pending(s, e);
    }
  }

  lemma StrandsByEntry(cfg: Config, s: State, k: nat, env: Env)
    requires Inv(cfg, s) && Hosted(s) && LatchAgrees(s) && Enabled(cfg, s, Start(k, env))
    requires s.calls[k].kind.Enter? && s.runState == RUNNING
    ensures var s' := Next(cfg, s, Start(k, env));
      LatchAgrees(s') && !Stranded(s) && (Stranded(s') <==> FailsEntry(cfg, s, Start(k, env)))
  {
    var s' := Next(cfg, s, Start(k, env));
    StepMoves(cfg, s, Start(k, env));
    NowAfterMove(s, s', k);
    assert Pending(s, k);
    EntryOutcome(cfg, s, k, env);
    if s'.calls[k].status.Settled? {
      SettledEntryLeavesNone(cfg, s, k, env);
    }
  }

  /** Continuing a transition never leaves the blueprint RUNNING or RESUMING with the latch set. */
  lemma ContinueReleases(cfg: Config, s: State, k: nat, pc: Pc, env: Env)
    requires k < |s.calls| && Sound(cfg, s, s.calls[k].kind, Some(pc)) && (s.runState == RESUMING ==> !s.plant.halted)
    ensures Continue(cfg, s, k, pc, env).runState in {RUNNING, RESUMING} ==> !Continue(cfg, s, k, pc, env).plant.halted
  {
    match pc
    case RecordRequest => RequestReleases(cfg, s, k, env);
    case RecordExit(row) => ExitOutcome(cfg, s, k, env, row);
    case _ =>
  }

  lemma RequestReleases(cfg: Config, s: State, k: nat, env: Env)
    requires k < |s.calls| && s.runState == SAFE_STATE
    ensures var s' := RequestRecorded(cfg, s, k, env); s'.runState in {RUNNING, RESUMING} ==> !s'.plant.halted
  {
    var s1 := if s.pendingRequest.None? then s
              else s.(log := Record(s.log, s.pendingRequest.value, env.write)).(pendingRequest := None);
    var s2 := s1.(plant := ResumeBy(env.resume, s.plant), haltOk := false, actionOk := false);
    RecoverOutcome(cfg, s2, k, env, false);
  }

  lemma AdvanceReleases(cfg: Config, s: State, l: Label)
    requires Inv(cfg, s) && Enabled(cfg, s, l) && l.Advance? && (s.runState == RESUMING ==> !s.plant.halted)
    ensures Next(cfg, s, l).runState in {RUNNING, RESUMING} ==> !Next(cfg, s, l).plant.halted
  {
    ContinueReleases(cfg, s, l.k, s.calls[l.k].status.pc, l.env);
    AdvanceContinues(cfg, s, l.k, s.calls[l.k].status.pc, l.env);
  }

  /** A step that starts or continues no transition leaves report, latch and progress alone. */
  lemma OtherStep(cfg: Config, s: State, l: Label)
    requires Chain(s) && Enabled(cfg, s, l) && !l.Start? && !l.Advance?
    ensures Next(cfg, s, l).runState == s.runState && Next(cfg, s, l).plant.halted == s.plant.halted
    ensures Now(Next(cfg, s, l)) == Now(s)
  {
    NowUnchanged(cfg, s, l);
    StartNeverRegains(cfg, s, l);
  }

  lemma StartedResume(cfg: Config, s: State, l: Label)
    requires Inv(cfg, s) && Enabled(cfg, s, l) && l.Start? && s.calls[l.k].kind.Resume?
    ensures var s' := Next(cfg, s, l);
      && s'.runState == s.runState && s'.plant == s.plant && (s.runState == RUNNING ==> Now(s').None?)
      && Now(s).None?
  {
    StepMoves(cfg, s, l);
    NowAfterMove(s, Next(cfg, s, l), l.k);
  }

  /** Under the host, a step strands exactly when the blueprint is stranded already or the step fails an entry. */
  lemma StrandsExactlyStep(cfg: Config, s: State, l: Label)
    requires Inv(cfg, s) && Hosted(s) && LatchAgrees(s) && Enabled(cfg, s, l) && HostLabel(l)
    ensures LatchAgrees(Next(cfg, s, l))
    ensures Stranded(Next(cfg, s, l)) <==> Stranded(s) || FailsEntry(cfg, s, l)
  {
    if Stranded(s) {
      StrandedStays(cfg, s, l);
    } else if l.Advance? {
      AdvanceReleases(cfg, s, l);
    } else if !l.Start? {
      OtherStep(cfg, s, l);
    } else if s.calls[l.k].kind.Resume? {
      StartedResume(cfg, s, l);
    } else {
      assert Pending(s, l.k);
      StrandsByEntry(cfg, s, l.k, l.env);
    }
  }

  lemma {:induction false} LatchAgreesInRun(cfg: Config, run: seq<State>, labels: seq<Label>, i: nat)
    requires IsRun(cfg, run, labels) && i < |run| && forall m :: 0 <= m < |labels| ==> HostLabel(labels[m])
    ensures LatchAgrees(run[i])
  {
    if i > 0 {
      LatchAgreesInRun(cfg, run, labels, i - 1);
      StrandsExactlyInRun(cfg, run, labels, i - 1);
    }
  }

  lemma StrandsExactlyInRun(cfg: Config, run: seq<State>, labels: seq<Label>, m: nat)
    requires IsRun(cfg, run, labels) && m < |labels| && (forall q :: 0 <= q < |labels| ==> HostLabel(labels[q]))
    requires LatchAgrees(run[m])
    ensures LatchAgrees(run[m + 1])
      && (Stranded(run[m + 1]) <==> Stranded(run[m]) || FailsEntry(cfg, run[m], labels[m]))
  {
    RunInv(cfg, run, labels, m);
    HostedInRun(cfg, run, labels, m);
    StrandsExactlyStep(cfg, run[m], labels[m]);
  }

  /** A flag that any of its causes sets and nothing clears is set exactly when there was a cause. */
  lemma {:induction false} SetExactly(flags: seq<bool>, causes: seq<bool>, j: nat)
    requires |flags| == |causes| + 1 && j < |flags| && !flags[0]
    requires forall m :: 0 <= m < |causes| ==> (flags[m + 1] <==> flags[m] || causes[m])
    ensures flags[j] <==> exists i :: 0 <= i < j && causes[i]
  {
    if j > 0 {
      SetExactly(flags, causes, j - 1);
      assert flags[j - 1 + 1] <==> flags[j - 1] || causes[j - 1];
    }
  }

  /** In every run under the host, the blueprint is stranded exactly when an earlier entry failed after its halt
      took effect. */
  lemma StrandedExactly(cfg: Config, run: seq<State>, labels: seq<Label>, j: nat)
    requires IsRun(cfg, run, labels) && j < |run| && forall m :: 0 <= m < |labels| ==> HostLabel(labels[m])
    ensures Stranded(run[j]) <==> exists i :: 0 <= i < j && FailsEntry(cfg, run[i], labels[i])
  {
    var flags := seq(|run|, m requires 0 <= m < |run| => Stranded(run[m]));
    var causes := seq(|labels|, m requires 0 <= m < |labels| => FailsEntry(cfg, run[m], labels[m]));
    forall m | 0 <= m < |labels| ensures flags[m + 1] <==> flags[m] || causes[m] {
      LatchAgreesInRun(cfg, run, labels, m);
      StrandsExactlyInRun(cfg, run, labels, m);
    }
    SetExactly(flags, causes, j);
    assert forall i :: 0 <= i < j ==> causes[i] == FailsEntry(cfg, run[i], labels[i]);
  }

  // ----- when it cannot happen -----

  /** RUNNING is reported of a halted blueprint only while an entry is being anchored. */
  ghost predicate NeverStranded(s: State) {
    && (s.runState == RUNNING && s.plant.halted ==> Now(s) == Some(AnchorEntry))
    && (s.runState == RESUMING ==> !s.plant.halted)
  }

  lemma NeverStrandedByEntry(cfg: Config, s: State, l: Label)
    requires Inv(cfg, s) && Ready(cfg, s) && NeverStranded(s) && Enabled(cfg, s, l) && FaithfulLabel(l)
    requires l.Start? && s.calls[l.k].kind.Enter?
    ensures NeverStranded(Next(cfg, s, l))
  {
    var s' := Next(cfg, s, l);
    StepMoves(cfg, s, l);
    NowAfterMove(s, s', l.k);
    StartNeverRegains(cfg, s, l);
    EntrySucceeds(cfg, s, l.k, l.env);
  }

  lemma NeverStrandedStep(cfg: Config, s: State, l: Label)
    requires Inv(cfg, s) && Ready(cfg, s) && NeverStranded(s) && Enabled(cfg, s, l) && FaithfulLabel(l)
    ensures NeverStranded(Next(cfg, s, l))
  {
    if l.Advance? {
      AdvanceReleases(cfg, s, l);
    } else if !l.Start? {
      OtherStep(cfg, s, l);
    } else if s.calls[l.k].kind.Resume? {
      StartedResume(cfg, s, l);
    } else {
      NeverStrandedByEntry(cfg, s, l);
    }
  }

  /** An armed blueprint without a field sink, whose opt-in stays as it was and whose halt cannot throw, is never
      stranded, whoever calls for entries and resumes. */
  lemma {:induction false} ArmedNeverStrands(cfg: Config, run: seq<State>, labels: seq<Label>, i: nat)
    requires IsRun(cfg, run, labels) && i < |run| && !cfg.seam.sinkBound
    requires forall m :: 0 <= m < |labels| ==> FaithfulLabel(labels[m])
    ensures NeverStranded(run[i]) && !Stranded(run[i])
  {
    if i > 0 {
      ArmedNeverStrands(cfg, run, labels, i - 1);
      NeverStrandedStepInRun(cfg, run, labels, i - 1);
    }
  }

  lemma NeverStrandedStepInRun(cfg: Config, run: seq<State>, labels: seq<Label>, m: nat)
    requires IsRun(cfg, run, labels) && m < |labels| && !cfg.seam.sinkBound && NeverStranded(run[m])
    requires forall q :: 0 <= q < |labels| ==> FaithfulLabel(labels[q])
    ensures NeverStranded(run[m + 1])
  {
    RunInv(cfg, run, labels, m);
    ArmedNeverFails(cfg, run, labels, m);
    NeverStrandedStep(cfg, run[m], labels[m]);
  }

  // ----- the watchdog's own guard -----

  /** The guard of the watchdog's tick wrapper alone, for a caller that does not look at the halt latch. */
  predicate WatchdogAdmits(s: State) {
    s.runState == RUNNING
  }

  /** For an armed blueprint as above, the wrapper admits a tick body on a halted blueprint exactly while an entry
      from RUNNING is being anchored: only the host's look at the latch keeps tick bodies out then. */
  lemma AdmittedWhileAnchoring(cfg: Config, run: seq<State>, labels: seq<Label>, i: nat)
    requires IsRun(cfg, run, labels) && i < |run| && !cfg.seam.sinkBound
    requires forall m :: 0 <= m < |labels| ==> FaithfulLabel(labels[m])
    ensures WatchdogAdmits(run[i]) && run[i].plant.halted <==>
      run[i].runState == RUNNING && Now(run[i]) == Some(AnchorEntry)
  {
    RunInv(cfg, run, labels, i);
    ArmedNeverStrands(cfg, run, labels, i);
  }

  /** A tick trips the watchdog and the entry awaits its anchor: outputs are commanded and the wrapper still admits. */
  lemma AnchoringAdmits() returns (run: seq<State>, labels: seq<Label>)
    ensures IsRun(Example, run, labels) && |labels| == 2
    ensures WatchdogAdmits(run[2]) && run[2].plant.halted && !TickRuns(run[2])
    ensures Commanded(Example.seam, Example.action, run[2].plant.tags)
  {
    var tags: map<string, real> := map["y" := 0.0];
    labels := [Tick(tags, 2.0), Start(0, Env(Stored, Returns, Returns, true))];
    var s0 := Initial(tags, true);
    var s1 := Next(Example, s0, labels[0]);
    assert s1.calls == [Call(Enter(1), Waiting)];
    var s2 := Next(Example, s1, labels[1]);
    run := [s0, s1, s2];
    assert WellArmed(Example, s0);
    RunInv(Example, run, labels, 1);
    EntrySucceeds(Example, s1, 0, labels[1].env);
    RunInv(Example, run, labels, 2);
  }

  // ----- it does happen -----

  /** A blueprint that forces its one output to zero, armed with the opt-in, and tripping on its first slow tick. */
  const Example := Config(Seam(["y"], map[], false), ForceZero, true, 1.0, 1)

  /** The opt-in is withdrawn, a tick trips the watchdog, and the action throws because it reads the opt-in live. */
  lemma OptInWithdrawnStrands() returns (run: seq<State>, labels: seq<Label>)
    ensures IsRun(Example, run, labels) && |labels| == 3 && (forall m :: 0 <= m < |labels| ==> HostLabel(labels[m]))
    ensures labels[0] == SetOptIn(false) && FailsEntry(Example, run[2], labels[2]) && Stranded(run[3])
  {
    var tags: map<string, real> := map["y" := 0.0];
    var env := Env(Stored, Returns, Returns, true);
    labels := [SetOptIn(false), Tick(tags, 2.0), Start(0, env)];
    var s0 := Initial(tags, true);
    var s1 := Next(Example, s0, labels[0]);
    var s2 := Next(Example, s1, labels[1]);
    assert s2.calls == [Call(Enter(1), Waiting)];
    var s3 := Next(Example, s2, labels[2]);
    run := [s0, s1, s2, s3];
    assert WellArmed(Example, s0);
    StrandedExactly(Example, run, labels, 3);
  }
}
