/** Closed forms of the stateful nodes over whole runs of a blueprint. */
module Stateful {
  import opened Blueprint
  import opened Compiler
  import opened Runs
  import opened Scan

  /** What operand `k` of `n` sensed in the scan at event `m`. */
  ghost function SensedIn(def: Definition, order: seq<Node>, events: seq<Event>, n: Node, k: nat, m: nat): real
    requires m < |events|
  {
    Sensed(def.nodes, n, k, Run(def, order, events, m), Run(def, order, events, m + 1))
  }

  /** How many of the events from `a` to `b` are scans. */
  function Ticks(events: seq<Event>, a: nat, b: nat): nat
    requires a <= b <= |events|
  {
    if a == b then 0 else Ticks(events, a, b - 1) + if events[b - 1] == Tick then 1 else 0
  }

  ghost predicate NoReset(events: seq<Event>, a: nat, b: nat)
    requires a <= b <= |events|
  {
    forall m :: a <= m < b ==> events[m] != Reset
  }

  /** The state of every node is 0 in a freshly loaded blueprint and after a reset. */
  lemma StartsAtRest(def: Definition, order: seq<Node>, events: seq<Event>, a: nat, id: string)
    requires a <= |events| && (a == 0 || events[a - 1] == Reset)
    ensures Val(Run(def, order, events, a).state, id) == 0.0
  {}

  lemma ScanSolves(def: Definition, order: seq<Node>, events: seq<Event>, m: nat)
    requires Schedules(def.nodes, order) && m < |events| && events[m] == Tick
    ensures Solves(def.nodes, ScanSeconds(def), Run(def, order, events, m), Run(def, order, events, m + 1))
  {
    PassSolves(def.nodes, order, Run(def, order, events, m), ScanSeconds(def));
  }

  /** Writing inputs and tags touches no state. */
  lemma WritesKeepState(def: Definition, order: seq<Node>, events: seq<Event>, m: nat)
    requires m < |events| && events[m] != Tick && events[m] != Reset
    ensures Run(def, order, events, m + 1).state == Run(def, order, events, m).state
  {}

  // ----- on-delay timers -----

  lemma TimerAdvances(nodes: seq<Node>, n: Node, dt: real, s: Store, after: Store)
    requires Solves(nodes, dt, s, after) && n in nodes && n.op.TON? && Sensed(nodes, n, 0, s, after) != 0.0
    ensures var elapsed := Val(s.state, n.id) + dt;
      && Val(after.state, n.id) == (if elapsed >= ParamOf(n) then ParamOf(n) else elapsed)
      && Val(after.tags, n.output) == Truth(elapsed >= ParamOf(n))
  {
    assert Equation(nodes, n, dt, s, after);
  }

  function Smaller(a: real, b: real): real {
    if a < b then a else b
  }

  /** The time that `k` scans take. */
  function Elapsed(k: nat, dt: real): real {
    if k == 0 then 0.0 else Elapsed(k - 1, dt) + dt
  }

  lemma {:induction false} ElapsedIsProduct(k: nat, dt: real)
    ensures Elapsed(k, dt) == k as real * dt
  {
    if k > 0 {
      ElapsedIsProduct(k - 1, dt);
      assert k as real * dt == (k - 1) as real * dt + dt;
    }
  }

  lemma {:induction false} ElapsedSign(k: nat, dt: real)
    ensures dt < 0.0 ==> Elapsed(k, dt) <= 0.0
  {
    if k > 0 {
      ElapsedSign(k - 1, dt);
    }
  }

  lemma Saturates(before: real, dt: real, preset: real)
    requires preset >= 0.0 && (dt < 0.0 ==> before <= 0.0)
    ensures var elapsed := Smaller(before, preset) + dt;
      && (if elapsed >= preset then preset else elapsed) == Smaller(before + dt, preset)
      && (elapsed >= preset <==> before + dt >= preset)
  {}

  /** In any stretch of a run without a reset, a timer that starts at rest and senses its input at every scan holds
      min(k * dt, preset) after k scans;
        and after each of them it is done exactly when k * dt has reached the preset. */
  lemma TimerInRun(def: Definition, order: seq<Node>, events: seq<Event>, a: nat, b: nat, n: Node)
    requires Accepted(def) && UniqueIds(def.nodes) && TopologicalOrder(def.nodes, order) && n in def.nodes && n.op.TON?
    requires a <= b <= |events| && NoReset(events, a, b) && Val(Run(def, order, events, a).state, n.id) == 0.0
    requires forall m :: a <= m < b && events[m] == Tick ==> SensedIn(def, order, events, n, 0, m) != 0.0
    ensures var k, dt := Ticks(events, a, b), ScanSeconds(def);
      var elapsed := Elapsed(k, dt);
      && elapsed == k as real * dt
      && Val(Run(def, order, events, b).state, n.id) == Smaller(elapsed, ParamOf(n))
      && (a < b && events[b - 1] == Tick ==>
           Val(Run(def, order, events, b).tags, n.output) == Truth(elapsed >= ParamOf(n)))
  {
    var i :| 0 <= i < |def.nodes| && def.nodes[i] == n;
    assert WellFormedNode(def.tags, def.nodes[i]);
    TimerRuns(def, order, events, a, b, n);
    ElapsedIsProduct(Ticks(events, a, b), ScanSeconds(def));
  }

  /** The timer holds the time of `k` scans, cut off at the preset. */
  ghost predicate Holds(def: Definition, n: Node, s: Store, k: nat) {
    Val(s.state, n.id) == Smaller(Elapsed(k, ScanSeconds(def)), ParamOf(n))
  }

  ghost predicate Shows(def: Definition, n: Node, s: Store, k: nat) {
    Val(s.tags, n.output) == Truth(Elapsed(k, ScanSeconds(def)) >= ParamOf(n))
  }

  lemma {:induction false} TimerRuns(
    def: Definition, order: seq<Node>, events: seq<Event>, a: nat, b: nat, n: Node)
    requires Schedules(def.nodes, order) && n in def.nodes && n.op.TON? && ParamOf(n) >= 0.0
    requires a <= b <= |events| && NoReset(events, a, b) && Val(Run(def, order, events, a).state, n.id) == 0.0
    requires forall m :: a <= m < b && events[m] == Tick ==> SensedIn(def, order, events, n, 0, m) != 0.0
    ensures Holds(def, n, Run(def, order, events, b), Ticks(events, a, b))
    ensures a < b && events[b - 1] == Tick ==> Shows(def, n, Run(def, order, events, b), Ticks(events, a, b))
    decreases b
  {
    if a < b {
      TimerRuns(def, order, events, a, b - 1, n);
      if events[b - 1] == Tick {
        TimerScan(def, order, events, b - 1, n, Ticks(events, a, b - 1));
      } else {
        WritesKeepState(def, order, events, b - 1);
      }
    }
  }

  lemma TimerScan(def: Definition, order: seq<Node>, events: seq<Event>, m: nat, n: Node, k: nat)
    requires Schedules(def.nodes, order) && n in def.nodes && n.op.TON? && ParamOf(n) >= 0.0
    requires m < |events| && events[m] == Tick && SensedIn(def, order, events, n, 0, m) != 0.0
    requires Holds(def, n, Run(def, order, events, m), k)
    ensures Holds(def, n, Run(def, order, events, m + 1), k + 1) && Shows(def, n, Run(def, order, events, m + 1), k + 1)
  {
    var s, s', dt := Run(def, order, events, m), Run(def, order, events, m + 1), ScanSeconds(def);
    ScanSolves(def, order, events, m);
    TimerAdvances(def.nodes, n, dt, s, s');
    ElapsedSign(k, dt);
    Saturates(Elapsed(k, dt), dt, ParamOf(n));
  }

  /** A scan that finds the timer disabled brings it back to rest. */
  lemma TimerRests(def: Definition, order: seq<Node>, events: seq<Event>, m: nat, n: Node)
    requires Schedules(def.nodes, order) && n in def.nodes && n.op.TON?
    requires m < |events| && events[m] == Tick && SensedIn(def, order, events, n, 0, m) == 0.0
    ensures Val(Run(def, order, events, m + 1).state, n.id) == 0.0
    ensures Val(Run(def, order, events, m + 1).tags, n.output) == 0.0
  {
    ScanSolves(def, order, events, m);
    assert Equation(def.nodes, n, ScanSeconds(def), Run(def, order, events, m), Run(def, order, events, m + 1));
  }

  // ----- latches -----

  /** One scan of a latch: set wins over reset, and without either it keeps its state. */
  lemma LatchStep(nodes: seq<Node>, n: Node, dt: real, s: Store, after: Store)
    requires Solves(nodes, dt, s, after) && n in nodes && n.op.LATCH?
    ensures Val(after.state, n.id) == Val(after.tags, n.output)
    ensures Val(after.state, n.id) ==
      if Sensed(nodes, n, 0, s, after) != 0.0 then 1.0
      else if Sensed(nodes, n, 1, s, after) != 0.0 then 0.0
      else Val(s.state, n.id)
  {
    assert Equation(nodes, n, dt, s, after);
  }

  /** A scan at event `m` in which set or reset is active. */
  ghost predicate Active(def: Definition, order: seq<Node>, events: seq<Event>, n: Node, m: nat)
    requires m < |events|
  {
    && events[m] == Tick
    && (SensedIn(def, order, events, n, 0, m) != 0.0 || SensedIn(def, order, events, n, 1, m) != 0.0)
  }

  /** The scan at event `m` sets, and no scan from there to `b` is active. */
  ghost predicate SetAt(def: Definition, order: seq<Node>, events: seq<Event>, n: Node, m: nat, b: nat)
    requires m < b <= |events|
  {
    && events[m] == Tick && SensedIn(def, order, events, n, 0, m) != 0.0
    && forall q :: m < q < b ==> !Active(def, order, events, n, q)
  }

  /** The most recent scan from `a` to `b` with set or reset active had set active. */
  ghost predicate LastSet(def: Definition, order: seq<Node>, events: seq<Event>, n: Node, a: nat, b: nat)
    requires a <= b <= |events|
  {
    exists m :: a <= m < b && SetAt(def, order, events, n, m, b)
  }

  /** A scan that sets is the last one with an active input. */
  lemma LastSetBySet(def: Definition, order: seq<Node>, events: seq<Event>, n: Node, a: nat, b: nat)
    requires a <= b < |events| && events[b] == Tick && SensedIn(def, order, events, n, 0, b) != 0.0
    ensures LastSet(def, order, events, n, a, b + 1)
  {
    assert SetAt(def, order, events, n, b, b + 1);
  }

  /** A scan that only resets leaves no set scan as the last one. */
  lemma LastSetByReset(def: Definition, order: seq<Node>, events: seq<Event>, n: Node, a: nat, b: nat)
    requires a <= b < |events| && Active(def, order, events, n, b) && SensedIn(def, order, events, n, 0, b) == 0.0
    ensures !LastSet(def, order, events, n, a, b + 1)
  {
    var c := b + 1;
    forall m | a <= m < c ensures !SetAt(def, order, events, n, m, c) {}
  }

  /** Without an active input nothing changes. */
  lemma LastSetKept(def: Definition, order: seq<Node>, events: seq<Event>, n: Node, a: nat, b: nat)
    requires a <= b < |events| && !Active(def, order, events, n, b)
    ensures LastSet(def, order, events, n, a, b + 1) <==> LastSet(def, order, events, n, a, b)
  {
    if LastSet(def, order, events, n, a, b) {
      var m :| a <= m < b && SetAt(def, order, events, n, m, b);
      assert SetAt(def, order, events, n, m, b + 1);
    }
    if LastSet(def, order, events, n, a, b + 1) {
      var m :| a <= m < b + 1 && SetAt(def, order, events, n, m, b + 1);
      assert SetAt(def, order, events, n, m, b);
    }
  }

  /** The latch holds whether the last scan from `a` to `b` with an active input had set active. */
  ghost predicate Latched(def: Definition, order: seq<Node>, events: seq<Event>, n: Node, a: nat, b: nat)
    requires a <= b <= |events|
  {
    Val(Run(def, order, events, b).state, n.id) == Truth(LastSet(def, order, events, n, a, b))
  }

  lemma LatchScan(def: Definition, order: seq<Node>, events: seq<Event>, a: nat, b: nat, n: Node)
    requires Schedules(def.nodes, order) && n in def.nodes && n.op.LATCH?
    requires a <= b < |events| && events[b] == Tick && Latched(def, order, events, n, a, b)
    ensures Latched(def, order, events, n, a, b + 1)
    ensures Val(Run(def, order, events, b + 1).tags, n.output) == Val(Run(def, order, events, b + 1).state, n.id)
  {
    ScanSolves(def, order, events, b);
    LatchStep(def.nodes, n, ScanSeconds(def), Run(def, order, events, b), Run(def, order, events, b + 1));
    if SensedIn(def, order, events, n, 0, b) != 0.0 {
      LastSetBySet(def, order, events, n, a, b);
    } else if SensedIn(def, order, events, n, 1, b) != 0.0 {
      LastSetByReset(def, order, events, n, a, b);
    } else {
      LastSetKept(def, order, events, n, a, b);
    }
  }

  lemma LatchWrite(def: Definition, order: seq<Node>, events: seq<Event>, a: nat, b: nat, n: Node)
    requires a <= b < |events| && events[b] != Tick && events[b] != Reset && Latched(def, order, events, n, a, b)
    ensures Latched(def, order, events, n, a, b + 1)
  {
    WritesKeepState(def, order, events, b);
    LastSetKept(def, order, events, n, a, b);
  }

  lemma LatchBegins(def: Definition, order: seq<Node>, events: seq<Event>, a: nat, n: Node)
    requires a <= |events| && Val(Run(def, order, events, a).state, n.id) == 0.0
    ensures Latched(def, order, events, n, a, a)
  {}

  lemma {:induction false} LatchRuns(def: Definition, order: seq<Node>, events: seq<Event>, a: nat, b: nat, n: Node)
    requires Schedules(def.nodes, order) && n in def.nodes && n.op.LATCH?
    requires a <= b <= |events| && NoReset(events, a, b) && Latched(def, order, events, n, a, a)
    ensures Latched(def, order, events, n, a, b)
    decreases b
  {
    if a < b {
      LatchRuns(def, order, events, a, b - 1, n);
      if events[b - 1] == Tick {
        LatchScan(def, order, events, a, b - 1, n);
      } else {
        LatchWrite(def, order, events, a, b - 1, n);
      }
    }
  }

  /** In any stretch of a run without a reset, a latch that starts cleared is 1 exactly when the last scan with set
      or reset active had set active, and 0 otherwise; after a scan its output tag holds the same value. */
  lemma LatchInRun(def: Definition, order: seq<Node>, events: seq<Event>, a: nat, b: nat, n: Node)
    requires Schedules(def.nodes, order) && n in def.nodes && n.op.LATCH?
    requires a <= b <= |events| && NoReset(events, a, b) && Val(Run(def, order, events, a).state, n.id) == 0.0
    ensures Val(Run(def, order, events, b).state, n.id) == Truth(LastSet(def, order, events, n, a, b))
    ensures a < b && events[b - 1] == Tick ==>
      Val(Run(def, order, events, b).tags, n.output) == Val(Run(def, order, events, b).state, n.id)
  {
    LatchBegins(def, order, events, a, n);
    LatchRuns(def, order, events, a, b, n);
    if a < b && events[b - 1] == Tick {
      LatchRuns(def, order, events, a, b - 1, n);
      LatchScan(def, order, events, a, b - 1, n);
    }
  }
}
