/** The watchdog, the safe-state controller, the actuator and the host's tick driver as one
    state machine. A step is a stretch of code between two awaits, or an event of the
    environment; `Next` is a function of the label, which carries every outcome the
    environment chooses. */
module SafeState {
  import opened Wrappers
  import opened Blueprint
  import opened Actuation

  datatype Config = Config(seam: Seam, action: SafeAction, enabled: bool, budgetMs: real, threshold: int)

  datatype RunState = RUNNING | SAFE_STATE | RESUMING | RECOVERING | RECOVERY_FAILED

  // ----- the audit log -----

  datatype Transition = Entered | ExitRequested | Exited | ResumeFailed | ExitAborted | RecoveryFailed

  /** An audit row. `hash` identifies the anchored event; distinct events have distinct hashes. */
  datatype Row = Row(transition: Transition, hash: nat, operator: Option<string>)

  /** Outcome of a write: stored; stored but reported as failed; lost and reported as failed. */
  datatype Write = Stored | StoredButThrows | LostAndThrows

  /** Insert that does nothing on a hash already present. */
  function Insert(log: seq<Row>, row: Row): seq<Row> {
    if exists i :: 0 <= i < |log| && log[i].hash == row.hash then log else log + [row]
  }

  function Record(log: seq<Row>, row: Row, w: Write): seq<Row> {
    if w.LostAndThrows? then log else Insert(log, row)
  }

  // ----- transitions -----

  datatype Kind = Enter(misses: int) | Resume(operator: string)

  /** The await at which a transition is suspended. */
  datatype Pc =
    | PersistEntry
    | AnchorEntry
    | RecordEntry
    | ResumePersistEntry
    | ResumePersistRequest
    | AnchorRequest
    | RecordRequest
    | AnchorExit
    | RecordExit(row: Row)
    | AnchorOutcome(transition: Transition)
    | RecordOutcome(row: Row)

  datatype Status = Waiting | Active(pc: Pc) | Settled(ok: bool)

  datatype Call = Call(kind: Kind, status: Status)

  /** Whether an actuator call returns, or throws before or after taking effect. */
  datatype Effect = Returns | ThrowsBefore | ThrowsAfter

  /** What the environment answers to the calls made within one step. */
  datatype Env = Env(write: Write, halt: Effect, resume: Effect, published: bool)

  /** `calls` is the promise chain in call order. `plant` is the actuator and the tag store.
      `front`, `entry`, `entries`, `haltOk` and `actionOk` are history: the number of settled
      transitions, this episode's ENTERED row, the number of physical entries, whether the latest halt
      and the latest safe action returned normally with no actuator resume since. */
  datatype State = State(
    runState: RunState, pendingEntry: Option<Row>, pendingRequest: Option<Row>,
    calls: seq<Call>, log: seq<Row>, nextHash: nat, plant: Plant, optIn: bool,
    misses: int, tickWaits: Option<nat>, acknowledged: set<nat>,
    front: nat, entry: Option<Row>, entries: nat, haltOk: bool, actionOk: bool)

  function Initial(tags: map<string, real>, optIn: bool): State {
    State(RUNNING, None, None, [], [], 0, Plant(false, LoopMode, None, tags), optIn, 0, None, {}, 0, None, 0, false,
      false)
  }

  // ----- pieces of a step -----

  function HaltBy(e: Effect, p: Plant): Plant {
    if e.ThrowsBefore? then p else p.(halted := true)
  }

  function ResumeBy(e: Effect, p: Plant): Plant {
    if e.ThrowsBefore? then p else p.(halted := false, mode := LoopMode, held := None)
  }

  function At(s: State, k: nat, pc: Pc): State
    requires k < |s.calls|
  {
    s.(calls := s.calls[k := s.calls[k].(status := Active(pc))])
  }

  function Settle(s: State, k: nat, ok: bool): State
    requires k < |s.calls|
  {
    s.(calls := s.calls[k := s.calls[k].(status := Settled(ok))], front := k + 1)
  }

  function Append(s: State, kind: Kind): State {
    s.(calls := s.calls + [Call(kind, Waiting)])
  }

  predicate IsSpace(c: char) {
    || '\t' <= c <= '\r' || c == ' ' || c == '\U{00A0}' || c == '\U{1680}' || '\U{2000}' <= c <= '\U{200A}'
    || c == '\U{2028}' || c == '\U{2029}' || c == '\U{202F}' || c == '\U{205F}' || c == '\U{3000}' || c == '\U{FEFF}'
  }

  /** An operator identity that trims to nothing. */
  predicate Blank(operator: string) {
    forall i :: 0 <= i < |operator| ==> IsSpace(operator[i])
  }

  // ----- entering -----

  function StartEnter(cfg: Config, s: State, k: nat, env: Env): State
    requires k < |s.calls|
  {
    if s.runState == SAFE_STATE then
      if s.pendingEntry.None? then Settle(s, k, true) else At(s, k, PersistEntry)
    else if !env.halt.Returns? then
      Settle(s.(plant := HaltBy(env.halt, s.plant), haltOk := false), k, false)
    else
      var (p, ok) := Actuate(cfg.seam, cfg.action, s.optIn, env.published, HaltBy(env.halt, s.plant));
      if !ok then Settle(s.(plant := p, haltOk := true, actionOk := false), k, false)
      else At(s.(plant := p, haltOk := true, actionOk := true, entries := s.entries + 1), k, AnchorEntry)
  }

  /** The write of the pending ENTERED row, on behalf of an entry. */
  function FinishEntry(s: State, k: nat, env: Env): State
    requires k < |s.calls|
  {
    if s.pendingEntry.None? then Settle(s, k, true)
    else
      var s' := s.(log := Record(s.log, s.pendingEntry.value, env.write));
      if env.write.Stored? then Settle(s'.(pendingEntry := None), k, true) else Settle(s', k, false)
  }

  function EntryAnchored(s: State, k: nat): State
    requires k < |s.calls|
  {
    var row := Row(Entered, s.nextHash, None);
    At(s.(runState := SAFE_STATE, pendingEntry := Some(row), entry := Some(row), nextHash := s.nextHash + 1), k,
      RecordEntry)
  }

  // ----- resuming -----

  function StartResume(s: State, k: nat, operator: string): State
    requires k < |s.calls|
  {
    if Blank(operator) || s.runState != SAFE_STATE then Settle(s, k, false) else At(s, k, ResumePersistEntry)
  }

  function ReconcileEntry(s: State, k: nat, env: Env): State
    requires k < |s.calls|
  {
    if s.pendingEntry.None? then At(s, k, ResumePersistRequest)
    else
      var s' := s.(log := Record(s.log, s.pendingEntry.value, env.write));
      if env.write.Stored? then At(s'.(pendingEntry := None), k, ResumePersistRequest) else Settle(s', k, false)
  }

  function ReconcileRequest(s: State, k: nat, env: Env): State
    requires k < |s.calls|
  {
    if s.pendingRequest.None? then At(s, k, AnchorRequest)
    else
      var s' := s.(log := Record(s.log, s.pendingRequest.value, env.write));
      if env.write.Stored? then At(s'.(pendingRequest := None), k, AnchorRequest) else Settle(s', k, false)
  }

  function RequestAnchored(s: State, k: nat, operator: string): State
    requires k < |s.calls|
  {
    At(s.(pendingRequest := Some(Row(ExitRequested, s.nextHash, Some(operator))), nextHash := s.nextHash + 1), k,
      RecordRequest)
  }

  /** Halt and the safe action are attempted independently; either failure is a failed recovery. */
  function Recover(cfg: Config, s: State, k: nat, env: Env, runtimeResumed: bool): State
    requires k < |s.calls|
  {
    var halted := HaltBy(env.halt, s.plant);
    var (p, ok) := Actuate(cfg.seam, cfg.action, s.optIn, env.published, halted);
    var recovered := env.halt.Returns? && ok;
    var s' := s.(plant := p, haltOk := env.halt.Returns?, actionOk := ok,
                 runState := if recovered then SAFE_STATE else RECOVERY_FAILED);
    var outcome := if !recovered then RecoveryFailed else if runtimeResumed then ExitAborted else ResumeFailed;
    At(s', k, AnchorOutcome(outcome))
  }

  function ActuatorResumed(cfg: Config, s: State, k: nat, env: Env): State
    requires k < |s.calls|
  {
    var s' := s.(plant := ResumeBy(env.resume, s.plant), haltOk := false, actionOk := false);
    if env.resume.Returns? then At(s'.(runState := RESUMING), k, AnchorExit) else Recover(cfg, s', k, env, false)
  }

  function RequestRecorded(cfg: Config, s: State, k: nat, env: Env): State
    requires k < |s.calls|
  {
    if s.pendingRequest.None? then ActuatorResumed(cfg, s, k, env)
    else
      var s' := s.(log := Record(s.log, s.pendingRequest.value, env.write));
      if env.write.Stored? then ActuatorResumed(cfg, s'.(pendingRequest := None), k, env) else Settle(s', k, false)
  }

  function ExitAnchored(s: State, k: nat, operator: string): State
    requires k < |s.calls|
  {
    At(s.(nextHash := s.nextHash + 1), k, RecordExit(Row(Exited, s.nextHash, Some(operator))))
  }

  function ExitRecorded(cfg: Config, s: State, k: nat, env: Env, row: Row): State
    requires k < |s.calls|
  {
    var s' := s.(log := Record(s.log, row, env.write));
    if env.write.Stored? then Settle(s'.(runState := RUNNING, entry := None), k, true)
    else Recover(cfg, s', k, env, true)
  }

  function OutcomeAnchored(s: State, k: nat, transition: Transition, operator: string): State
    requires k < |s.calls|
  {
    At(s.(nextHash := s.nextHash + 1), k, RecordOutcome(Row(transition, s.nextHash, Some(operator))))
  }

  function OperatorOf(kind: Kind): string {
    match kind case Enter(_) => "" case Resume(operator) => operator
  }

  /** Continue transition `k` after the await it is suspended at. */
  function Continue(cfg: Config, s: State, k: nat, pc: Pc, env: Env): State
    requires k < |s.calls|
  {
    var operator := OperatorOf(s.calls[k].kind);
    match pc
    case PersistEntry => FinishEntry(s, k, env)
    case AnchorEntry => EntryAnchored(s, k)
    case RecordEntry => FinishEntry(s, k, env)
    case ResumePersistEntry => ReconcileEntry(s, k, env)
    case ResumePersistRequest => ReconcileRequest(s, k, env)
    case AnchorRequest => RequestAnchored(s, k, operator)
    case RecordRequest => RequestRecorded(cfg, s, k, env)
    case AnchorExit => ExitAnchored(s, k, operator)
    case RecordExit(row) => ExitRecorded(cfg, s, k, env, row)
    case AnchorOutcome(transition) => OutcomeAnchored(s, k, transition, operator)
    case RecordOutcome(row) => Settle(s.(log := Record(s.log, row, env.write)), k, false)
  }

  // ----- the watchdog -----

  predicate Armed(cfg: Config, s: State) {
    cfg.enabled && s.runState == RUNNING
  }

  predicate Trips(cfg: Config, s: State, durationMs: real) {
    Armed(cfg, s) && durationMs > cfg.budgetMs && s.misses + 1 >= cfg.threshold
  }

  function ObserveTick(cfg: Config, s: State, durationMs: real): State {
    if !Armed(cfg, s) then s
    else if durationMs <= cfg.budgetMs then s.(misses := 0)
    else
      var s' := s.(misses := s.misses + 1);
      if s'.misses >= cfg.threshold then Append(s', Enter(s'.misses)) else s'
  }

  /** The host's timer fires. The tick body may leave any tag values behind. */
  function HostTick(cfg: Config, s: State, tags: map<string, real>, durationMs: real): State {
    if !TickRuns(s) then s
    else
      var s' := s.(plant := s.plant.(tags := tags));
      ObserveTick(cfg, s', durationMs).(tickWaits := if Trips(cfg, s', durationMs) then Some(|s.calls|) else None)
  }

  /** The guards of the host's tick driver and of the watchdog's tick wrapper. */
  predicate TickRuns(s: State) {
    !s.plant.halted && s.tickWaits.None? && s.runState == RUNNING
  }

  // ----- steps -----

  datatype Label =
    | CallEnter(misses: int)
    | CallResume(operator: string)
    | Tick(tags: map<string, real>, durationMs: real)
    | Observe(durationMs: real)
    | Start(k: nat, env: Env)
    | Advance(k: nat, env: Env)
    | TickReturns
    | ResumeReturns(k: nat)
    | WriteTags(tags: map<string, real>)
    | SetOptIn(on: bool)

  /** Outside the tick body nothing writes output tags. */
  ghost predicate SameOutputs(cfg: Config, tags: map<string, real>, tags': map<string, real>) {
    tags.Keys == tags'.Keys && forall i :: 0 <= i < |cfg.seam.outputs| ==>
      Val(tags, cfg.seam.outputs[i]) == Val(tags', cfg.seam.outputs[i])
  }

  ghost predicate Enabled(cfg: Config, s: State, l: Label) {
    match l
    case Tick(tags, _) => tags.Keys == s.plant.tags.Keys
    case Start(k, _) => k < |s.calls| && s.calls[k].status.Waiting? && (k == 0 || s.calls[k - 1].status.Settled?)
    case Advance(k, _) => k < |s.calls| && s.calls[k].status.Active?
    case TickReturns => s.tickWaits.Some? && s.tickWaits.value < |s.calls| && s.calls[s.tickWaits.value].status.Settled?
    case ResumeReturns(k) =>
      k < |s.calls| && s.calls[k].kind.Resume? && s.calls[k].status == Settled(true) && k !in s.acknowledged
    case WriteTags(tags) => SameOutputs(cfg, s.plant.tags, tags)
    case _ => true
  }

  function Next(cfg: Config, s: State, l: Label): State
    requires Enabled(cfg, s, l)
  {
    match l
    case CallEnter(misses) => Append(s, Enter(misses))
    case CallResume(operator) => Append(s, Resume(operator))
    case Tick(tags, durationMs) => HostTick(cfg, s, tags, durationMs)
    case Observe(durationMs) => ObserveTick(cfg, s, durationMs)
    case Start(k, env) =>
      (match s.calls[k].kind
       case Enter(_) => StartEnter(cfg, s, k, env)
       case Resume(operator) => StartResume(s, k, operator))
    case Advance(k, env) => Continue(cfg, s, k, s.calls[k].status.pc, env)
    case TickReturns => s.(tickWaits := None)
    case ResumeReturns(k) => s.(misses := 0, acknowledged := s.acknowledged + {k})
    case WriteTags(tags) => s.(plant := s.plant.(tags := tags))
    case SetOptIn(on) => s.(optIn := on)
  }

  /** A run: consecutive states related by enabled steps, from a freshly armed blueprint. */
  ghost predicate IsRun(cfg: Config, run: seq<State>, labels: seq<Label>) {
    && |run| == |labels| + 1
    && WellArmed(cfg, run[0])
    && forall i :: 0 <= i < |labels| ==> Enabled(cfg, run[i], labels[i]) && run[i + 1] == Next(cfg, run[i], labels[i])
  }

  /** A blueprint that registration accepted, before its first tick. */
  ghost predicate WellArmed(cfg: Config, s: State) {
    && DistinctTargets(cfg.seam) && CanApply(cfg.seam, cfg.action, s.optIn)
    && s == Initial(s.plant.tags, s.optIn)
    && forall i :: 0 <= i < |cfg.seam.outputs| ==> cfg.seam.outputs[i] in s.plant.tags
  }
}
