/** Whole runs of a blueprint: what every schedule of it computes, scan after scan. */
module Runs {
  import opened Wrappers
  import opened Blueprint
  import opened Compiler
  import opened Runtime
  import Ordering
  import opened Scan

  /** The calls that change a runtime's store, each specified by its method's contract. */
  datatype Event =
    | WriteInputs(values: seq<real>)
    | SetTag(name: string, value: real)
    | Tick
    | Reset

  ghost function Apply(def: Definition, order: seq<Node>, e: Event, s: Store): Store {
    match e
    case WriteInputs(values) =>
      if |values| == |InputSlots(def)|
        then Store(WithInputs(def.tags, InputSlots(def), values, |values|, s.tags), s.state) else s
    case SetTag(name, value) => if Declared(def.tags, name) then Store(s.tags[name := value], s.state) else s
    case Tick => Pass(order, |order|, s, ScanSeconds(def))
    case Reset => InitialStore(def)
  }

  /** The store after the first `k` events of a freshly loaded blueprint. */
  ghost function Run(def: Definition, order: seq<Node>, events: seq<Event>, k: nat): Store
    requires k <= |events|
  {
    if k == 0 then InitialStore(def) else Apply(def, order, events[k - 1], Run(def, order, events, k - 1))
  }

  /** Make one call on the runtime. */
  method Perform(rt: BlueprintRuntime, e: Event)
    requires rt.Valid()
    modifies rt, rt.tagBuffer, rt.stateBuffer
    ensures rt.Valid() && rt.store == Apply(rt.def, rt.order, e, old(rt.store))
  {
    match e {
      case WriteInputs(values) =>
        var buffer := new real[|values|](i requires 0 <= i < |values| => values[i]);
        assert buffer[..] == values;
        var _ := rt.WriteInputs(buffer);
      case SetTag(name, value) =>
        var _ := rt.SetTag(name, value);
      case Tick =>
        rt.TickFast();
      case Reset =>
        rt.Reset();
    }
  }

  /** Compile a definition, load it and make all the calls: the runtime then holds the store of the run, for a
      schedule of the nodes. */
  method Drive(def: Definition, events: seq<Event>)
    returns (r: Result<BlueprintRuntime, Ordering.CompileError>, ghost order: seq<Node>)
    requires UniqueIds(def.nodes)
    ensures r.Ok? <==> Accepted(def)
    ensures r.Ok? ==> Schedules(def.nodes, order) && r.value.Valid() && r.value.def == def && r.value.order == order
    ensures r.Ok? ==> r.value.store == Run(def, order, events, |events|)
  {
    var compiled;
    compiled, order := Compile(def);
    if compiled.Err? {
      return Err(compiled.error), order;
    }
    CompiledFits(def, order, compiled.value);
    var rt := new BlueprintRuntime(compiled.value, def, order);
    for k := 0 to |events|
      invariant fresh(rt) && fresh(rt.tagBuffer) && fresh(rt.stateBuffer)
      invariant rt.Valid() && rt.def == def && rt.order == order && rt.store == Run(def, order, events, k)
    {
      Perform(rt, events[k]);
    }
    r := Ok(rt);
  }

  // ----- a scan is the solution of its equations -----

  lemma SolvesRespectsValues(nodes: seq<Node>, dt: real, s: Store, a: Store, b: Store)
    requires SameStore(a, b) && Solves(nodes, dt, s, a)
    ensures Solves(nodes, dt, s, b)
  {
    forall n | n in nodes ensures Equation(nodes, n, dt, s, b) {
      assert Equation(nodes, n, dt, s, a);
      SensedRespectsValues(nodes, n, 0, s, a, b);
      SensedRespectsValues(nodes, n, 1, s, a, b);
      SensedRespectsValues(nodes, n, 2, s, a, b);
    }
  }

  lemma SensedRespectsValues(nodes: seq<Node>, n: Node, k: nat, s: Store, a: Store, b: Store)
    requires SameStore(a, b)
    ensures Sensed(nodes, n, k, s, a) == Sensed(nodes, n, k, s, b)
  {}

  /** In any run, a store solves the equations of the next scan exactly when it holds
      the values that the scan produces. */
  lemma ScanIsTheSolution(def: Definition, order: seq<Node>, events: seq<Event>, k: nat, after: Store)
    requires Schedules(def.nodes, order) && k < |events| && events[k] == Tick
    ensures Solves(def.nodes, ScanSeconds(def), Run(def, order, events, k), after)
      <==> SameStore(after, Run(def, order, events, k + 1))
  {
    var s, s' := Run(def, order, events, k), Run(def, order, events, k + 1);
    PassSolves(def.nodes, order, s, ScanSeconds(def));
    if Solves(def.nodes, ScanSeconds(def), s, after) {
      SolutionUnique(def.nodes, order, ScanSeconds(def), s, s, after, s');
    }
    if SameStore(after, s') {
      SolvesRespectsValues(def.nodes, ScanSeconds(def), s, s', after);
    }
  }

  // ----- authoring order does not matter -----

  lemma UpdateSame(m: map<string, real>, m': map<string, real>, key: string, value: real)
    requires SameValues(m, m')
    ensures SameValues(m[key := value], m'[key := value])
  {
    var n, n' := m[key := value], m'[key := value];
    forall other ensures Val(n, other) == Val(n', other) {
      assert Val(m, other) == Val(m', other);
    }
  }

  lemma {:induction false} WithInputsSame(tags: seq<TagDescriptor>, slots: seq<nat>, values: seq<real>, k: nat,
                                          m: map<string, real>, m': map<string, real>)
    requires k <= |slots| == |values| && forall i :: 0 <= i < |slots| ==> slots[i] < |tags|
    requires SameValues(m, m')
    ensures SameValues(WithInputs(tags, slots, values, k, m), WithInputs(tags, slots, values, k, m'))
  {
    if k > 0 {
      WithInputsSame(tags, slots, values, k - 1, m, m');
      UpdateSame(WithInputs(tags, slots, values, k - 1, m), WithInputs(tags, slots, values, k - 1, m'),
                 tags[slots[k - 1]].name, values[k - 1]);
    }
  }

  lemma PassesAgree(nodes: seq<Node>, order: seq<Node>, nodes': seq<Node>, order': seq<Node>, dt: real, s: Store,
      s': Store)
    requires Schedules(nodes, order) && multiset(nodes') == multiset(nodes) && TopologicalOrder(nodes', order')
    requires SameStore(s, s')
    ensures SameStore(Pass(order, |order|, s, dt), Pass(order', |order'|, s', dt))
  {
    assert TopologicalOrder(nodes, order');
    PassSolves(nodes, order, s, dt);
    PassSolves(nodes, order', s', dt);
    SolutionUnique(nodes, order, dt, s, s', Pass(order, |order|, s, dt), Pass(order', |order'|, s', dt));
  }

  /** Any two schedules of any two listings of the same nodes run alike, whatever the events. */
  lemma {:induction false} OrderIrrelevant(def: Definition, order: seq<Node>, nodes': seq<Node>, order': seq<Node>,
                                           events: seq<Event>, k: nat)
    requires Schedules(def.nodes, order) && multiset(nodes') == multiset(def.nodes) && TopologicalOrder(nodes', order')
    requires k <= |events|
    ensures SameStore(Run(def, order, events, k), Run(def.(nodes := nodes'), order', events, k))
  {
    if k > 0 {
      var def' := def.(nodes := nodes');
      OrderIrrelevant(def, order, nodes', order', events, k - 1);
      var s, s' := Run(def, order, events, k - 1), Run(def', order', events, k - 1);
      match events[k - 1]
      case WriteInputs(values) =>
        if |values| == |InputSlots(def)| {
          WithInputsSame(def.tags, InputSlots(def), values, |values|, s.tags, s'.tags);
        }
      case SetTag(name, value) => UpdateSame(s.tags, s'.tags, name, value);
      case Tick => PassesAgree(def.nodes, order, nodes', order', ScanSeconds(def), s, s');
      case Reset =>
    }
  }

  lemma AcceptedRearranged(def: Definition, nodes': seq<Node>)
    requires UniqueIds(def.nodes) && multiset(nodes') == multiset(def.nodes)
    requires Accepted(def)
    ensures UniqueIds(nodes') && Accepted(def.(nodes := nodes'))
  {
    SameMembers(def.nodes, nodes');
    RearrangedIds(def.nodes, nodes');
    AcyclicRearranged(def.nodes, nodes');
    UniqueIsKeyed(def.nodes);
    forall i, j | 0 <= i < j < |nodes'| ensures nodes'[i].output != nodes'[j].output {
      assert nodes'[i] in def.nodes && nodes'[j] in def.nodes && nodes'[i].id != nodes'[j].id;
    }
    forall i | 0 <= i < |nodes'| ensures WellFormedNode(def.tags, nodes'[i]) {
      assert nodes'[i] in def.nodes;
    }
  }

  /** A definition is accepted in every listing of its nodes or in none. */
  lemma AcceptanceIgnoresOrder(def: Definition, nodes': seq<Node>)
    requires UniqueIds(def.nodes) && multiset(nodes') == multiset(def.nodes)
    ensures Accepted(def) <==> Accepted(def.(nodes := nodes'))
  {
    RearrangedIds(def.nodes, nodes');
    if Accepted(def) {
      AcceptedRearranged(def, nodes');
    }
    if Accepted(def.(nodes := nodes')) {
      AcceptedRearranged(def.(nodes := nodes'), def.nodes);
    }
  }

  // ----- reset -----

  /** After a reset, a run continues like the run of a freshly built runtime. */
  lemma {:induction false} ResetIsFresh(def: Definition, order: seq<Node>, before: seq<Event>, later: seq<Event>,
      k: nat)
    requires k <= |later|
    ensures Run(def, order, before + [Reset] + later, |before| + 1 + k) == Run(def, order, later, k)
  {
    if k > 0 {
      ResetIsFresh(def, order, before, later, k - 1);
      assert (before + [Reset] + later)[|before| + k] == later[k - 1];
    } else {
      assert (before + [Reset] + later)[|before|] == Reset;
    }
  }
}
