/** What the operations compute, said by laws between them and by what they depend on. */
module OpLaws {
  import opened Wrappers
  import opened Blueprint
  import opened Compiler
  import opened Runs
  import opened Stateful
  import opened Scan

  /** The output of an operation on its operands; the state does not matter for a stateless one. */
  function Out(op: Op, a: real, b: real, c: real, p: real): real {
    Eval(op, a, b, c, p, 0.0, 0.0).0
  }

  function Out1(op: Op, a: real): real {
    Out(op, a, 0.0, 0.0, 0.0)
  }

  function Out2(op: Op, a: real, b: real): real {
    Out(op, a, b, 0.0, 0.0)
  }

  predicate Boolean(r: real) {
    r == 0.0 || r == 1.0
  }

  /** Conjunction is non-zero only on two non-zero operands, disjunction zero only on two zeros; negation swaps zero
      and non-zero; exclusive or is a disjunction that is no conjunction; and all four answer 0 or 1. */
  lemma Gates(a: real, b: real)
    ensures Out2(AND, a, b) != 0.0 <==> a != 0.0 && b != 0.0
    ensures Out2(OR, a, b) == 0.0 <==> a == 0.0 && b == 0.0
    ensures Out1(NOT, a) == 0.0 <==> a != 0.0
    ensures Out2(XOR, a, b) != 0.0 <==> Out2(OR, a, b) != 0.0 && Out2(AND, a, b) == 0.0
    ensures Boolean(Out2(AND, a, b)) && Boolean(Out2(OR, a, b)) && Boolean(Out1(NOT, a)) && Boolean(Out2(XOR, a, b))
  {}

  /** "Greater" holds exactly when the difference is positive, and the other comparisons follow from it. */
  lemma Comparisons(a: real, b: real)
    ensures Out2(GT, a, b) != 0.0 <==> Out2(SUB, a, b) > 0.0
    ensures Out2(LT, a, b) == Out2(GT, b, a)
    ensures Out2(GTE, a, b) == Out1(NOT, Out2(LT, a, b))
    ensures Out2(LTE, a, b) == Out1(NOT, Out2(GT, a, b))
    ensures Out2(EQ, a, b) == Out2(AND, Out2(GTE, a, b), Out2(LTE, a, b))
    ensures Out2(NEQ, a, b) == Out1(NOT, Out2(EQ, a, b))
    ensures Boolean(Out2(GT, a, b))
  {}

  /** Addition has the unit 0, commutes and associates; subtraction undoes it; and adding preserves the order. */
  lemma Sums(a: real, b: real, c: real)
    ensures Out2(ADD, a, 0.0) == a && Out2(ADD, a, b) == Out2(ADD, b, a)
    ensures Out2(ADD, Out2(ADD, a, b), c) == Out2(ADD, a, Out2(ADD, b, c))
    ensures Out2(SUB, Out2(ADD, a, b), b) == a && Out2(ADD, Out2(SUB, a, b), b) == a
    ensures Out2(GT, Out2(ADD, a, c), Out2(ADD, b, c)) == Out2(GT, a, b)
  {}

  /** Multiplication has the unit 1, commutes and distributes over addition. */
  lemma Products(a: real, b: real, c: real)
    ensures Out2(MUL, a, 1.0) == a && Out2(MUL, a, b) == Out2(MUL, b, a)
    ensures Out2(MUL, a, Out2(ADD, b, c)) == Out2(ADD, Out2(MUL, a, b), Out2(MUL, a, c))
  {
    Distributes(a, b, c);
  }

  lemma Distributes(a: real, b: real, c: real)
    ensures a * (b + c) == a * b + a * c
  {}

  /** Division undoes multiplication by a non-zero divisor, in both orders, and is 0 on a zero divisor. */
  lemma Quotients(a: real, b: real)
    ensures b != 0.0 ==> Out2(DIV, Out2(MUL, a, b), b) == a && Out2(MUL, Out2(DIV, a, b), b) == a
    ensures Out2(DIV, a, 0.0) == 0.0
  {
    if b != 0.0 {
      Cancels(a, b);
    }
  }

  lemma Cancels(a: real, b: real)
    requires b != 0.0
    ensures (a * b) / b == a && (a / b) * b == a
  {}

  /** The minimum is below both operands and is one of them; it and the maximum are the two operands. */
  lemma Extremes(a: real, b: real)
    ensures Out2(MIN, a, b) <= a && Out2(MIN, a, b) <= b && (Out2(MIN, a, b) == a || Out2(MIN, a, b) == b)
    ensures Out2(ADD, Out2(MIN, a, b), Out2(MAX, a, b)) == Out2(ADD, a, b)
  {}

  function Selected(c: real, x: real, y: real): real {
    Out(SELECT, c, x, y, 0.0)
  }

  /** Selection ignores the third operand on a non-zero condition and the second on a zero one, and returns the
      common value when both agree. Moving is adding nothing, and a constant is its parameter whatever it is given. */
  lemma Movements(c: real, x: real, y: real, z: real)
    ensures Selected(c, x, x) == x
    ensures c != 0.0 ==> Selected(c, x, y) == Selected(c, x, z)
    ensures c == 0.0 ==> Selected(c, x, y) == Selected(c, z, y)
    ensures Out1(MOVE, x) == Out2(ADD, x, 0.0)
    ensures Out(CONST, x, y, z, c) == c
  {}

  // ----- the laws hold of what a scan writes -----

  /** What the scan at event `m` writes for node `n`. */
  ghost function ScanOutput(def: Definition, order: seq<Node>, events: seq<Event>, n: Node, m: nat): real
    requires m < |events|
  {
    Val(Run(def, order, events, m + 1).tags, n.output)
  }

  /** In every run, every scan writes for a stateless node the output of its operation on what the node senses. */
  lemma ScanWritesOut(def: Definition, order: seq<Node>, events: seq<Event>, n: Node, m: nat)
    requires Schedules(def.nodes, order) && n in def.nodes && !Blueprint.Stateful(n.op)
    requires m < |events| && events[m] == Tick
    ensures ScanOutput(def, order, events, n, m) == Out(n.op, SensedIn(def, order, events, n, 0, m),
      SensedIn(def, order, events, n, 1, m), SensedIn(def, order, events, n, 2, m), ParamOf(n))
  {
    ScanSolves(def, order, events, m);
    SolvedOut(def.nodes, n, ScanSeconds(def), Run(def, order, events, m), Run(def, order, events, m + 1));
  }

  lemma SolvedOut(nodes: seq<Node>, n: Node, dt: real, s: Store, after: Store)
    requires Solves(nodes, dt, s, after) && n in nodes && !Blueprint.Stateful(n.op)
    ensures Val(after.tags, n.output) ==
      Out(n.op, Sensed(nodes, n, 0, s, after), Sensed(nodes, n, 1, s, after), Sensed(nodes, n, 2, s, after), ParamOf(n))
  {
    assert Equation(nodes, n, dt, s, after);
    StatelessOut(n.op, Sensed(nodes, n, 0, s, after), Sensed(nodes, n, 1, s, after), Sensed(nodes, n, 2, s, after),
      ParamOf(n), Val(s.state, n.id), dt);
  }

  lemma StatelessOut(op: Op, a: real, b: real, c: real, p: real, q: real, dt: real)
    requires !Blueprint.Stateful(op)
    ensures Eval(op, a, b, c, p, q, dt).0 == Out(op, a, b, c, p)
  {}

  /** A selection node of a running blueprint passes its second operand on exactly while its first is non-zero, and
      its third otherwise. */
  lemma SelectionInRun(def: Definition, order: seq<Node>, events: seq<Event>, n: Node, m: nat)
    requires Schedules(def.nodes, order) && n in def.nodes && n.op.SELECT? && m < |events| && events[m] == Tick
    ensures ScanOutput(def, order, events, n, m) ==
      SensedIn(def, order, events, n, if SensedIn(def, order, events, n, 0, m) != 0.0 then 1 else 2, m)
  {
    ScanWritesOut(def, order, events, n, m);
  }

  // ----- arity, parameter and state are what the operation depends on -----

  /** All that an operation is given. */
  datatype Given = Given(operands: seq<real>, p: real, q: real, dt: real)

  predicate Complete(g: Given) {
    |g.operands| == 3
  }

  function Result(op: Op, g: Given): (real, real)
    requires Complete(g)
  {
    Eval(op, g.operands[0], g.operands[1], g.operands[2], g.p, g.q, g.dt)
  }

  predicate OperandTells(op: Op, k: nat, g: Given, x: real) {
    k < 3 && Complete(g) && Result(op, g) != Result(op, g.(operands := g.operands[k := x]))
  }

  predicate ParamTells(op: Op, g: Given, p: real) {
    Complete(g) && Result(op, g) != Result(op, g.(p := p))
  }

  predicate StateMoves(op: Op, g: Given) {
    Complete(g) && Result(op, g).1 != g.q
  }

  /** For some values of everything else, changing operand `k` changes the output or the state. */
  ghost predicate OperandMatters(op: Op, k: nat) {
    exists g: Given, x: real :: OperandTells(op, k, g, x)
  }

  ghost predicate ParamMatters(op: Op) {
    exists g: Given, p: real :: ParamTells(op, g, p)
  }

  ghost predicate StateMatters(op: Op) {
    exists g: Given :: StateMoves(op, g)
  }

  lemma Witness(op: Op, k: nat, g: Given, x: real)
    requires OperandTells(op, k, g, x)
    ensures OperandMatters(op, k)
  {}

  lemma FirstMatters(op: Op)
    requires !op.CONST? && !op.Other?
    ensures OperandMatters(op, 0)
  {
    if op.OR? || op.XOR? || op.LATCH? {
      Witness(op, 0, Given([0.0, 0.0, 0.0], 0.0, 0.0, 0.0), 1.0);
    } else if op.GTE? || op.GT? || op.LT? || op.LTE? || op.EQ? || op.NEQ? || op.MIN? || op.MAX? {
      var x := if op.MAX? || op.GT? || op.LTE? then 2.0 else if op.MIN? then -1.0 else 1.0;
      Witness(op, 0, Given([0.0, 1.0, 0.0], 0.0, 0.0, 0.0), x);
    } else {
      Witness(op, 0, Given([0.0, 1.0, 0.0], 0.0, 0.0, 0.0), 1.0);
    }
  }

  lemma SecondMatters(op: Op)
    requires Arity(op) == Some(2) || op.SELECT?
    ensures OperandMatters(op, 1)
  {
    if op.OR? || op.XOR? {
      Witness(op, 1, Given([0.0, 0.0, 0.0], 0.0, 0.0, 0.0), 1.0);
    } else if op.LATCH? {
      Witness(op, 1, Given([0.0, 0.0, 0.0], 0.0, 1.0, 0.0), 1.0);
    } else if op.LT? || op.GTE? || op.MAX? {
      Witness(op, 1, Given([1.0, 0.0, 0.0], 0.0, 0.0, 0.0), 2.0);
    } else if op.MIN? {
      Witness(op, 1, Given([1.0, 1.0, 0.0], 0.0, 0.0, 0.0), 0.0);
    } else if op.LTE? {
      Witness(op, 1, Given([1.0, 0.0, 0.0], 0.0, 0.0, 0.0), 1.0);
    } else {
      Witness(op, 1, Given([1.0, 0.0, 0.0], 0.0, 0.0, 0.0), 1.0);
    }
  }

  lemma ThirdMatters()
    ensures OperandMatters(SELECT, 2)
  {
    Witness(SELECT, 2, Given([0.0, 0.0, 0.0], 0.0, 0.0, 0.0), 1.0);
  }

  lemma NoneTellsBeyondArity(op: Op, k: nat, g: Given, x: real)
    requires k < 3 && (Arity(op).None? || Arity(op).value <= k)
    ensures !OperandTells(op, k, g, x)
  {
    if Complete(g) {
      var a, b, c := g.operands[0], g.operands[1], g.operands[2];
      var g' := g.(operands := g.operands[k := x]);
      if k == 0 {
        assert Result(op, g') == Eval(op, x, b, c, g.p, g.q, g.dt);
      } else if k == 1 {
        assert Result(op, g') == Eval(op, a, x, c, g.p, g.q, g.dt);
      } else {
        assert Result(op, g') == Eval(op, a, b, x, g.p, g.q, g.dt);
      }
      EvalIgnores(op, k, a, b, c, x, g.p, g.q, g.dt);
    }
  }

  lemma EvalIgnores(op: Op, k: nat, a: real, b: real, c: real, x: real, p: real, q: real, dt: real)
    requires k < 3 && (Arity(op).None? || Arity(op).value <= k)
    ensures k == 0 ==> Eval(op, x, b, c, p, q, dt) == Eval(op, a, b, c, p, q, dt)
    ensures k == 1 ==> Eval(op, a, x, c, p, q, dt) == Eval(op, a, b, c, p, q, dt)
    ensures k == 2 ==> Eval(op, a, b, x, p, q, dt) == Eval(op, a, b, c, p, q, dt)
  {}

  lemma BeyondArity(op: Op, k: nat)
    requires k < 3 && (Arity(op).None? || Arity(op).value <= k)
    ensures !OperandMatters(op, k)
  {
    forall g: Given, x: real ensures !OperandTells(op, k, g, x) {
      NoneTellsBeyondArity(op, k, g, x);
    }
  }

  /** Arity and meaning agree: an operand can change the output or the state of an operation exactly when it is below
      the arity, and an operation without an arity is one outside the op table. */
  lemma ArityIsMeaning(op: Op, k: nat)
    requires k < 3
    ensures OperandMatters(op, k) <==> Arity(op).Some? && k < Arity(op).value
    ensures Arity(op).None? <==> op.Other?
    ensures Arity(op).Some? ==> Arity(op).value <= 3
  {
    if Arity(op).None? || Arity(op).value <= k {
      BeyondArity(op, k);
    } else if k == 0 {
      FirstMatters(op);
    } else if k == 1 {
      SecondMatters(op);
    } else {
      ThirdMatters();
    }
  }

  lemma ParamIsSilent(op: Op, g: Given, p: real)
    requires !UsesParam(op)
    ensures !ParamTells(op, g, p)
  {
    var g' := g.(p := p);
    assert g'.operands == g.operands && g'.q == g.q && g'.dt == g.dt;
  }

  /** An operation needs a parameter exactly when the parameter can change what it does. */
  lemma ParamIsMeaning(op: Op)
    ensures ParamMatters(op) <==> UsesParam(op)
  {
    if UsesParam(op) {
      var g := Given([1.0, 0.0, 0.0], 0.0, 0.0, 1.0);
      assert Result(op, g).0 != Result(op, g.(p := 2.0)).0;
      assert ParamTells(op, g, 2.0);
    }
    forall g: Given, p: real ensures !UsesParam(op) ==> !ParamTells(op, g, p) {
      if !UsesParam(op) {
        ParamIsSilent(op, g, p);
      }
    }
  }

  lemma StateIsSilent(op: Op, g: Given)
    requires !Blueprint.Stateful(op)
    ensures !StateMoves(op, g)
  {}

  /** An operation owns a state slot exactly when it can change its state. */
  lemma StateIsMeaning(op: Op)
    ensures StateMatters(op) <==> Blueprint.Stateful(op)
  {
    if Blueprint.Stateful(op) {
      assert StateMoves(op, Given([1.0, 0.0, 0.0], 2.0, 0.0, 1.0));
    }
    forall g: Given ensures !Blueprint.Stateful(op) ==> !StateMoves(op, g) {
      if !Blueprint.Stateful(op) {
        StateIsSilent(op, g);
      }
    }
  }
}
