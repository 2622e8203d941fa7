/** The authoring form of a blueprint and the meaning of one scan.

    A scan is specified by equations, one per node, and not by an order of
    execution: `Solves` relates the store before a scan to the store after it.
    Stores are read through `Val`, which yields 0 for an absent key. */
module Blueprint {
  import opened Wrappers

  datatype Direction = Input | Output | Internal
  datatype TagDescriptor = TagDescriptor(name: string, direction: Direction, initial: Option<real>)

  /** The operations of a node; `Other` stands for an op name outside the op table. */
  datatype Op =
    | AND | OR | NOT | XOR
    | GT | GTE | LT | LTE | EQ | NEQ
    | ADD | SUB | MUL | DIV | MIN | MAX
    | SELECT | MOVE | CONST
    | LATCH | TON
    | Other(text: string)

  datatype Operand = TagRef(tag: string) | Const(value: real)

  datatype Node = Node(id: string, op: Op, inputs: seq<Operand>, output: string, param: Option<real>)

  datatype Definition = Definition(
    id: string, name: string, tags: seq<TagDescriptor>, nodes: seq<Node>, scanPeriodMs: Option<real>)

  predicate Stateful(op: Op) {
    op.LATCH? || op.TON?
  }

  /** Seconds per scan; the period defaults to 100 ms. */
  function ScanSeconds(def: Definition): real {
    (match def.scanPeriodMs case None => 100.0 case Some(ms) => ms) / 1000.0
  }

  // ----- meaning of one node -----

  function Truth(b: bool): real {
    if b then 1.0 else 0.0
  }

  function ParamOf(n: Node): real {
    match n.param case None => 0.0 case Some(v) => v
  }

  /** The output of an operation and its next state, from operands `a`, `b`, `c`,
      parameter `p`, previous state `q` and scan length `dt`. */
  function Eval(op: Op, a: real, b: real, c: real, p: real, q: real, dt: real): (real, real) {
    match op
    case AND => (Truth(a != 0.0 && b != 0.0), q)
    case OR => (Truth(a != 0.0 || b != 0.0), q)
    case NOT => (Truth(a == 0.0), q)
    case XOR => (Truth((a != 0.0) != (b != 0.0)), q)
    case GT => (Truth(a > b), q)
    case GTE => (Truth(a >= b), q)
    case LT => (Truth(a < b), q)
    case LTE => (Truth(a <= b), q)
    case EQ => (Truth(a == b), q)
    case NEQ => (Truth(a != b), q)
    case ADD => (a + b, q)
    case SUB => (a - b, q)
    case MUL => (a * b, q)
    case DIV => (if b == 0.0 then 0.0 else a / b, q)
    case MIN => (if a < b then a else b, q)
    case MAX => (if a > b then a else b, q)
    case SELECT => (if a != 0.0 then b else c, q)
    case MOVE => (a, q)
    case CONST => (p, q)
    case LATCH =>
      var latched := if a != 0.0 then 1.0 else if b != 0.0 then 0.0 else q;
      (latched, latched)
    case TON =>
      if a == 0.0 then (0.0, 0.0)
      else if q + dt >= p then (1.0, p)
      else (0.0, q + dt)
    case Other(_) => (0.0, q)
  }

  // ----- stores -----

  /** Tag values by name, and latch/timer state by node id. */
  datatype Store = Store(tags: map<string, real>, state: map<string, real>)

  function Val(m: map<string, real>, key: string): real {
    if key in m then m[key] else 0.0
  }

  ghost predicate SameValues(m: map<string, real>, m': map<string, real>) {
    forall key :: Val(m, key) == Val(m', key)
  }

  ghost predicate SameStore(s: Store, s': Store) {
    SameValues(s.tags, s'.tags) && SameValues(s.state, s'.state)
  }

  // ----- the dependency graph -----

  predicate Reads(n: Node, tag: string) {
    TagRef(tag) in n.inputs
  }

  /** `n` needs this scan's output of `p`. Only a stateful node reading its own
      output is exempt. */
  predicate DependsOn(n: Node, p: Node) {
    Reads(n, p.output) && !(p.id == n.id && Stateful(n.op))
  }

  ghost predicate UniqueIds(nodes: seq<Node>) {
    forall i, j :: 0 <= i < j < |nodes| ==> nodes[i].id != nodes[j].id
  }

  ghost predicate UniqueOutputs(nodes: seq<Node>) {
    forall i, j :: 0 <= i < j < |nodes| ==> nodes[i].output != nodes[j].output
  }

  /** A closed walk along dependencies. */
  ghost predicate IsCycle(nodes: seq<Node>, walk: seq<Node>) {
    && |walk| >= 2
    && walk[0] == walk[|walk| - 1]
    && (forall i :: 0 <= i < |walk| ==> walk[i] in nodes)
    && (forall i :: 0 <= i < |walk| - 1 ==> DependsOn(walk[i], walk[i + 1]))
  }

  ghost predicate Acyclic(nodes: seq<Node>) {
    forall walk :: !IsCycle(nodes, walk)
  }

  /** `order` rearranges `nodes` so that every producer precedes its consumers. */
  ghost predicate TopologicalOrder(nodes: seq<Node>, order: seq<Node>) {
    && multiset(order) == multiset(nodes)
    && forall i, j :: 0 <= i < |order| && 0 <= j < |order| && DependsOn(order[i], order[j]) ==> j < i
  }

  // ----- the equations of one scan -----

  ghost predicate WrittenByOther(nodes: seq<Node>, n: Node, tag: string) {
    exists p :: p in nodes && p.output == tag && p.id != n.id
  }

  ghost predicate Written(nodes: seq<Node>, tag: string) {
    exists p :: p in nodes && p.output == tag
  }

  /** An operand reads this scan's value when another node writes the tag, and the
      previous value otherwise. A missing operand is 0. */
  ghost function Sensed(nodes: seq<Node>, n: Node, k: nat, before: Store, after: Store): real {
    if k >= |n.inputs| then 0.0
    else match n.inputs[k]
      case Const(v) => v
      case TagRef(t) => if WrittenByOther(nodes, n, t) then Val(after.tags, t) else Val(before.tags, t)
  }

  ghost function Computed(nodes: seq<Node>, n: Node, dt: real, before: Store, after: Store): (real, real) {
    Eval(n.op, Sensed(nodes, n, 0, before, after), Sensed(nodes, n, 1, before, after),
         Sensed(nodes, n, 2, before, after), ParamOf(n), Val(before.state, n.id), dt)
  }

  ghost predicate Equation(nodes: seq<Node>, n: Node, dt: real, before: Store, after: Store) {
    var r := Computed(nodes, n, dt, before, after);
    && Val(after.tags, n.output) == r.0
    && (Stateful(n.op) ==> Val(after.state, n.id) == r.1)
  }

  ghost predicate OwnsState(nodes: seq<Node>, id: string) {
    exists n :: n in nodes && Stateful(n.op) && n.id == id
  }

  /** `after` is what one scan of `nodes` must make of `before`. */
  ghost predicate Solves(nodes: seq<Node>, dt: real, before: Store, after: Store) {
    && (forall n :: n in nodes ==> Equation(nodes, n, dt, before, after))
    && (forall t :: !Written(nodes, t) ==> Val(after.tags, t) == Val(before.tags, t))
    && (forall id :: !OwnsState(nodes, id) ==> Val(after.state, id) == Val(before.state, id))
  }

  // ----- one pass in a given order -----

  function Fetch(n: Node, k: nat, tags: map<string, real>): real {
    if k >= |n.inputs| then 0.0
    else match n.inputs[k]
      case Const(v) => v
      case TagRef(t) => Val(tags, t)
  }

  function EvalNode(n: Node, s: Store, dt: real): (real, real) {
    Eval(n.op, Fetch(n, 0, s.tags), Fetch(n, 1, s.tags), Fetch(n, 2, s.tags), ParamOf(n), Val(s.state, n.id), dt)
  }

  function Step(n: Node, s: Store, dt: real): Store {
    var r := EvalNode(n, s, dt);
    Store(s.tags[n.output := r.0], if Stateful(n.op) then s.state[n.id := r.1] else s.state)
  }

  /** Execute the first `k` nodes of `order`, each on the store left by the one before. */
  function Pass(order: seq<Node>, k: nat, s: Store, dt: real): Store
    requires k <= |order|
  {
    if k == 0 then s else Step(order[k - 1], Pass(order, k - 1, s, dt), dt)
  }
}
