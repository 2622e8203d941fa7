/** The baseline interpreter: the same operations over name-keyed maps, in authoring order. */
module Naive {
  import opened Wrappers
  import opened Blueprint
  import opened Compiler
  import opened Runtime
  import Runs
  import Scan

  class NaiveBlueprintInterpreter {
    var tags: map<string, real>
    var state: map<string, real>
    const nodes: seq<Node>
    const dtSeconds: real

    constructor (def: Definition)
      ensures Store(tags, state) == InitialStore(def)
      ensures nodes == def.nodes && dtSeconds == ScanSeconds(def)
    {
      nodes, dtSeconds := def.nodes, ScanSeconds(def);
      state := map[];
      tags := map[];
      new;
      for i := 0 to |def.tags|
        invariant tags == InitialTags(def.tags, i) && state == map[]
        invariant nodes == def.nodes && dtSeconds == ScanSeconds(def)
      {
        tags := tags[def.tags[i].name := InitialOf(def.tags[i])];
      }
    }

    method SetInput(name: string, value: real)
      modifies this`tags
      ensures tags == old(tags)[name := value]
    {
      tags := tags[name := value];
    }

    /** Execute one node on the maps. */
    method ExecuteNode(n: Node) returns (out: real)
      modifies this
      ensures Store(tags, state) == Step(n, Store(old(tags), old(state)), dtSeconds)
      ensures n.output in tags && tags[n.output] == out
    {
      var a, b, c := Fetch(n, 0, tags), Fetch(n, 1, tags), Fetch(n, 2, tags);
      ghost var s := Store(tags, state);
      var q := Val(state, n.id);
      match n.op {
      case AND => out := if a != 0.0 && b != 0.0 then 1.0 else 0.0;
      case OR => out := if a != 0.0 || b != 0.0 then 1.0 else 0.0;
      case NOT => out := if a != 0.0 then 0.0 else 1.0;
      case XOR => out := if (a != 0.0) != (b != 0.0) then 1.0 else 0.0;
      case GT => out := if a > b then 1.0 else 0.0;
      case GTE => out := if a >= b then 1.0 else 0.0;
      case LT => out := if a < b then 1.0 else 0.0;
      case LTE => out := if a <= b then 1.0 else 0.0;
      case EQ => out := if a == b then 1.0 else 0.0;
      case NEQ => out := if a != b then 1.0 else 0.0;
      case ADD => out := a + b;
      case SUB => out := a - b;
      case MUL => out := a * b;
      case DIV => out := if b != 0.0 then a / b else 0.0;
      case MIN => out := if a < b then a else b;
      case MAX => out := if a > b then a else b;
      case SELECT => out := if a != 0.0 then b else c;
      case MOVE => out := a;
      case CONST => out := ParamOf(n);
      case LATCH =>
        if b != 0.0 {
          q := 0.0;
        }
        if a != 0.0 {
          q := 1.0;
        }
        state := state[n.id := q];
        out := q;
      case TON =>
        var preset := ParamOf(n);
        if a != 0.0 {
          q := q + dtSeconds;
          if q >= preset {
            q, out := preset, 1.0;
          } else {
            out := 0.0;
          }
        } else {
          q, out := 0.0, 0.0;
        }
        state := state[n.id := q];
      case Other(_) => out := 0.0;
      }
      tags := tags[n.output := out];
      assert EvalNode(n, s, dtSeconds).0 == out && EvalNode(n, s, dtSeconds).1 == q;
    }

    /** One pass over the nodes as authored; the result lists what was written. */
    method Tick() returns (results: map<string, real>)
      modifies this
      ensures Store(tags, state) == Pass(nodes, |nodes|, Store(old(tags), old(state)), dtSeconds)
      ensures forall t :: t in results <==> Written(nodes, t)
      ensures forall t :: t in results ==> t in tags && results[t] == tags[t]
    {
      results := map[];
      for i := 0 to |nodes|
        invariant Store(tags, state) == Pass(nodes, i, Store(old(tags), old(state)), dtSeconds)
        invariant forall t :: t in results <==> exists j :: 0 <= j < i && nodes[j].output == t
        invariant forall t :: t in results ==> t in tags && results[t] == tags[t]
      {
        var out := ExecuteNode(nodes[i]);
        results := results[nodes[i].output := out];
      }
    }
  }

  /** The compiled runtime refines the baseline whenever the authoring order is topological:
      the two hold the same values after any run of tag writes and scans. */
  lemma RuntimeAgreesWithNaive(def: Definition, order: seq<Node>, events: seq<Runs.Event>, k: nat)
    requires Scan.Schedules(def.nodes, order) && TopologicalOrder(def.nodes, def.nodes) && k <= |events|
    ensures SameStore(Runs.Run(def, order, events, k), Runs.Run(def, def.nodes, events, k))
  {
    Runs.OrderIrrelevant(def, order, def.nodes, def.nodes, events, k);
    assert def.(nodes := def.nodes) == def;
  }

  // ----- out of order, the baseline lags one scan behind -----

  const LateProducer := Node("p", CONST, [], "x", Some(1.0))
  const EarlyConsumer := Node("c", MOVE, [TagRef("x")], "y", None)
  const OutOfOrder := Definition("d", "d", [TagDescriptor("x", Internal, None), TagDescriptor("y", Output, None)],
                                 [EarlyConsumer, LateProducer], None)
  const InOrder := [LateProducer, EarlyConsumer]

  lemma InOrderIsSchedule()
    ensures Scan.Schedules(OutOfOrder.nodes, InOrder)
  {
    assert "x" != "y" && "p" != "c";
    assert !Reads(LateProducer, "x") && !Reads(LateProducer, "y") && !Reads(EarlyConsumer, "y");
    assert OutOfOrder.nodes == [EarlyConsumer, LateProducer];
  }

  lemma PassOfTwo(n: Node, m: Node, s: Store, dt: real)
    ensures Pass([n, m], 2, s, dt) == Step(m, Step(n, s, dt), dt)
  {
    assert Pass([n, m], 1, s, dt) == Step(n, Pass([n, m], 0, s, dt), dt);
  }

  lemma StepsOfTwo(s: Store, dt: real)
    ensures Step(LateProducer, s, dt) == Store(s.tags["x" := 1.0], s.state)
    ensures Step(EarlyConsumer, s, dt) == Store(s.tags["y" := Val(s.tags, "x")], s.state)
  {}

  /** A consumer listed before its producer reads the previous scan's value in the baseline, and this scan's in
      the runtime. */
  lemma NaiveNeedsTopologicalOrder()
    ensures Scan.Schedules(OutOfOrder.nodes, InOrder)
    ensures Val(Runs.Run(OutOfOrder, InOrder, [Runs.Tick], 1).tags, "y") == 1.0
    ensures Val(Runs.Run(OutOfOrder, OutOfOrder.nodes, [Runs.Tick], 1).tags, "y") == 0.0
  {
    InOrderIsSchedule();
    assert "x" != "y";
    var s, dt := InitialStore(OutOfOrder), ScanSeconds(OutOfOrder);
    assert InitialTags(OutOfOrder.tags, 1) == map["x" := 0.0];
    assert s.tags == map["x" := 0.0, "y" := 0.0];
    StepsOfTwo(s, dt);
    StepsOfTwo(Step(LateProducer, s, dt), dt);
    StepsOfTwo(Step(EarlyConsumer, s, dt), dt);
    PassOfTwo(LateProducer, EarlyConsumer, s, dt);
    PassOfTwo(EarlyConsumer, LateProducer, s, dt);
    assert Runs.Run(OutOfOrder, InOrder, [Runs.Tick], 1) == Runs.Apply(OutOfOrder, InOrder, Runs.Tick, s);
    assert Runs.Run(OutOfOrder, OutOfOrder.nodes, [Runs.Tick], 1) ==
      Runs.Apply(OutOfOrder, OutOfOrder.nodes, Runs.Tick, s);
  }

  const Unmoved := Node("c", MUL, [TagRef("x"), Const(0.0)], "y", None)

  /** The converse is false: a consumer listed before its producer does no harm when what it computes does not
      depend on the value it reads. Topological order is sufficient for agreement and not necessary. */
  lemma OrderIsNotNecessary(s: Store, dt: real)
    ensures !TopologicalOrder([Unmoved, LateProducer], [Unmoved, LateProducer])
    ensures TopologicalOrder([Unmoved, LateProducer], [LateProducer, Unmoved])
    ensures SameStore(Pass([Unmoved, LateProducer], 2, s, dt), Pass([LateProducer, Unmoved], 2, s, dt))
  {
    var late, early := [Unmoved, LateProducer], [LateProducer, Unmoved];
    assert "x" != "y" && "p" != "c" && Unmoved.inputs[0] == TagRef("x");
    assert DependsOn(late[0], late[1]);
    assert !Reads(LateProducer, "x") && !Reads(LateProducer, "y") && !Reads(Unmoved, "y");
    PassOfTwo(Unmoved, LateProducer, s, dt);
    PassOfTwo(LateProducer, Unmoved, s, dt);
    UnmovedStep(s, dt);
    UnmovedStep(Step(LateProducer, s, dt), dt);
    StepsOfTwo(s, dt);
    StepsOfTwo(Step(Unmoved, s, dt), dt);
  }

  lemma UnmovedStep(s: Store, dt: real)
    ensures Step(Unmoved, s, dt) == Store(s.tags["y" := 0.0], s.state)
  {}
}
