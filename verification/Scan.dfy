/** One scan has exactly one solution, and a pass in any topological order computes it. */
module Scan {
  import opened Blueprint

  // ----- rearranging a node list -----

  lemma TwiceCountsTwo<T>(s: seq<T>, i: nat, j: nat)
    requires i < j < |s| && s[i] == s[j]
    ensures multiset(s)[s[i]] >= 2
  {
    assert s == s[..i] + [s[i]] + s[i + 1..j] + [s[j]] + s[j + 1..];
  }

  lemma {:induction false} DistinctCountsOnce(s: seq<Node>, n: Node)
    requires UniqueIds(s)
    ensures multiset(s)[n] <= 1
  {
    if s != [] {
      var init := s[..|s| - 1];
      assert s == init + [s[|s| - 1]];
      DistinctCountsOnce(init, n);
      if n == s[|s| - 1] {
        assert forall i :: 0 <= i < |init| ==> init[i].id != n.id;
        assert n !in multiset(init);
      }
    }
  }

  lemma SameMembers(nodes: seq<Node>, order: seq<Node>)
    requires multiset(order) == multiset(nodes)
    ensures |order| == |nodes|
    ensures forall n :: n in nodes <==> n in order
  {
    assert |multiset(order)| == |order| && |multiset(nodes)| == |nodes|;
    forall n ensures n in nodes <==> n in order {
      assert n in multiset(nodes) <==> n in multiset(order);
    }
  }

  lemma RearrangedIds(nodes: seq<Node>, order: seq<Node>)
    requires UniqueIds(nodes) && multiset(order) == multiset(nodes)
    ensures UniqueIds(order)
  {
    SameMembers(nodes, order);
    forall i, j | 0 <= i < j < |order| ensures order[i].id != order[j].id {
      if order[i].id == order[j].id {
        assert order[i] in nodes && order[j] in nodes;
        var a :| 0 <= a < |nodes| && nodes[a] == order[i];
        var b :| 0 <= b < |nodes| && nodes[b] == order[j];
        assert a == b;
        TwiceCountsTwo(order, i, j);
        DistinctCountsOnce(nodes, order[i]);
        assert false;
      }
    }
  }

  /** Distinct ids and distinct outputs identify nodes: facts about members instead of indices. */
  ghost predicate Keyed(nodes: seq<Node>) {
    && (forall n, m :: n in nodes && m in nodes && n.id == m.id ==> n == m)
    && (forall n, m :: n in nodes && m in nodes && n.output == m.output ==> n == m)
  }

  lemma UniqueIsKeyed(nodes: seq<Node>)
    requires UniqueIds(nodes) && UniqueOutputs(nodes)
    ensures Keyed(nodes)
  {
    forall n, m | n in nodes && m in nodes && (n.id == m.id || n.output == m.output) ensures n == m {
      var a :| 0 <= a < |nodes| && nodes[a] == n;
      var b :| 0 <= b < |nodes| && nodes[b] == m;
    }
  }

  // ----- a pass in topological order solves the equations -----

  /** Once written, an output keeps its value; until written, it keeps the previous one. */
  lemma {:induction false} PassKeepsTag(order: seq<Node>, from: nat, to: nat, s: Store, dt: real, tag: string)
    requires from <= to <= |order|
    requires forall j :: from <= j < to ==> order[j].output != tag
    ensures Val(Pass(order, to, s, dt).tags, tag) == Val(Pass(order, from, s, dt).tags, tag)
  {
    if from < to {
      PassKeepsTag(order, from, to - 1, s, dt, tag);
      assert order[to - 1].output != tag;
    }
  }

  lemma {:induction false} PassKeepsState(order: seq<Node>, from: nat, to: nat, s: Store, dt: real, id: string)
    requires from <= to <= |order|
    requires forall j :: from <= j < to && Stateful(order[j].op) ==> order[j].id != id
    ensures Val(Pass(order, to, s, dt).state, id) == Val(Pass(order, from, s, dt).state, id)
  {
    if from < to {
      PassKeepsState(order, from, to - 1, s, dt, id);
    }
  }

  lemma PassSensesOperand(nodes: seq<Node>, order: seq<Node>, i: nat, k: nat, s: Store, dt: real)
    requires TopologicalOrder(nodes, order) && UniqueIds(order) && Keyed(nodes)
    requires i < |order|
    ensures Fetch(order[i], k, Pass(order, i, s, dt).tags)
            == Sensed(nodes, order[i], k, s, Pass(order, |order|, s, dt))
  {
    SameMembers(nodes, order);
    var n := order[i];
    if k < |n.inputs| && n.inputs[k].TagRef? {
      var t := n.inputs[k].tag;
      if WrittenByOther(nodes, n, t) {
        var p :| p in nodes && p.output == t && p.id != n.id;
        var j :| 0 <= j < |order| && order[j] == p;
        assert DependsOn(n, order[j]);
        assert forall m :: i <= m < |order| ==> order[m].output == t ==> order[m] == p;
        PassKeepsTag(order, i, |order|, s, dt, t);
      } else {
        forall m | 0 <= m < i ensures order[m].output != t {
          assert order[m] in nodes && order[m].id != n.id;
        }
        PassKeepsTag(order, 0, i, s, dt, t);
      }
    }
  }

  lemma PassMeetsEquation(nodes: seq<Node>, order: seq<Node>, i: nat, s: Store, dt: real)
    requires TopologicalOrder(nodes, order) && UniqueIds(order) && Keyed(nodes)
    requires i < |order|
    ensures Equation(nodes, order[i], dt, s, Pass(order, |order|, s, dt))
  {
    SameMembers(nodes, order);
    var n := order[i];
    PassSensesOperand(nodes, order, i, 0, s, dt);
    PassSensesOperand(nodes, order, i, 1, s, dt);
    PassSensesOperand(nodes, order, i, 2, s, dt);
    PassKeepsState(order, 0, i, s, dt, n.id);
    PassKeepsState(order, i + 1, |order|, s, dt, n.id);
    forall m | i + 1 <= m < |order| ensures order[m].output != n.output {
      assert order[m] in nodes && order[m].id != n.id;
    }
    PassKeepsTag(order, i + 1, |order|, s, dt, n.output);
    assert Pass(order, i + 1, s, dt) == Step(n, Pass(order, i, s, dt), dt);
  }

  /** `order` is a schedule for nodes with distinct ids and distinct outputs. */
  ghost predicate Schedules(nodes: seq<Node>, order: seq<Node>) {
    UniqueIds(nodes) && UniqueOutputs(nodes) && TopologicalOrder(nodes, order)
  }

  /** Existence: executing the nodes in topological order yields a solution of the scan. */
  lemma PassSolves(nodes: seq<Node>, order: seq<Node>, s: Store, dt: real)
    requires Schedules(nodes, order)
    ensures Solves(nodes, dt, s, Pass(order, |order|, s, dt))
  {
    SameMembers(nodes, order);
    RearrangedIds(nodes, order);
    UniqueIsKeyed(nodes);
    var after := Pass(order, |order|, s, dt);
    forall n | n in nodes ensures Equation(nodes, n, dt, s, after) {
      var i :| 0 <= i < |order| && order[i] == n;
      PassMeetsEquation(nodes, order, i, s, dt);
    }
    forall t | !Written(nodes, t) ensures Val(after.tags, t) == Val(s.tags, t) {
      PassKeepsTag(order, 0, |order|, s, dt, t);
    }
    forall id | !OwnsState(nodes, id) ensures Val(after.state, id) == Val(s.state, id) {
      PassKeepsState(order, 0, |order|, s, dt, id);
    }
  }

  // ----- there is no other solution -----

  lemma SensedAgree(
      nodes: seq<Node>, order: seq<Node>, i: nat, k: nat, dt: real, s: Store, s': Store, a: Store, b: Store)
    requires TopologicalOrder(nodes, order) && i < |order|
    requires SameStore(s, s') && Solves(nodes, dt, s, a) && Solves(nodes, dt, s', b)
    ensures Sensed(nodes, order[i], k, s, a) == Sensed(nodes, order[i], k, s', b)
    decreases i, 0
  {
    var n := order[i];
    if k < |n.inputs| && n.inputs[k].TagRef? && WrittenByOther(nodes, n, n.inputs[k].tag) {
      SameMembers(nodes, order);
      var p :| p in nodes && p.output == n.inputs[k].tag && p.id != n.id;
      var j :| 0 <= j < |order| && order[j] == p;
      assert DependsOn(n, order[j]);
      SolutionsAgreeAt(nodes, order, j, dt, s, s', a, b);
    }
  }

  lemma EquationDetermines(nodes: seq<Node>, n: Node, dt: real, s: Store, s': Store, a: Store, b: Store)
    requires Equation(nodes, n, dt, s, a) && Equation(nodes, n, dt, s', b)
    requires Sensed(nodes, n, 0, s, a) == Sensed(nodes, n, 0, s', b)
    requires Sensed(nodes, n, 1, s, a) == Sensed(nodes, n, 1, s', b)
    requires Sensed(nodes, n, 2, s, a) == Sensed(nodes, n, 2, s', b)
    requires Val(s.state, n.id) == Val(s'.state, n.id)
    ensures Val(a.tags, n.output) == Val(b.tags, n.output)
    ensures Stateful(n.op) ==> Val(a.state, n.id) == Val(b.state, n.id)
  {}

  lemma SolutionsAgreeAt(
      nodes: seq<Node>, order: seq<Node>, i: nat, dt: real, s: Store, s': Store, a: Store, b: Store)
    requires TopologicalOrder(nodes, order) && i < |order|
    requires SameStore(s, s') && Solves(nodes, dt, s, a) && Solves(nodes, dt, s', b)
    ensures Val(a.tags, order[i].output) == Val(b.tags, order[i].output)
    ensures Stateful(order[i].op) ==> Val(a.state, order[i].id) == Val(b.state, order[i].id)
    decreases i, 1
  {
    SameMembers(nodes, order);
    SensedAgree(nodes, order, i, 0, dt, s, s', a, b);
    SensedAgree(nodes, order, i, 1, dt, s, s', a, b);
    SensedAgree(nodes, order, i, 2, dt, s, s', a, b);
    EquationDetermines(nodes, order[i], dt, s, s', a, b);
  }

  /** Uniqueness: an acyclic blueprint leaves a scan no freedom. Equal stores have equal solutions. */
  lemma SolutionUnique(nodes: seq<Node>, order: seq<Node>, dt: real, s: Store, s': Store, a: Store, b: Store)
    requires TopologicalOrder(nodes, order)
    requires SameStore(s, s') && Solves(nodes, dt, s, a) && Solves(nodes, dt, s', b)
    ensures SameStore(a, b)
  {
    SameMembers(nodes, order);
    forall t ensures Val(a.tags, t) == Val(b.tags, t) {
      if Written(nodes, t) {
        var p :| p in nodes && p.output == t;
        var j :| 0 <= j < |order| && order[j] == p;
        SolutionsAgreeAt(nodes, order, j, dt, s, s', a, b);
      }
    }
    forall id ensures Val(a.state, id) == Val(b.state, id) {
      if OwnsState(nodes, id) {
        var p :| p in nodes && Stateful(p.op) && p.id == id;
        var j :| 0 <= j < |order| && order[j] == p;
        SolutionsAgreeAt(nodes, order, j, dt, s, s', a, b);
      }
    }
  }

  lemma AcyclicRearranged(nodes: seq<Node>, nodes': seq<Node>)
    requires multiset(nodes) == multiset(nodes') && Acyclic(nodes)
    ensures Acyclic(nodes')
  {
    SameMembers(nodes, nodes');
    forall walk ensures !IsCycle(nodes', walk) {
      assert !IsCycle(nodes, walk);
    }
  }
}
