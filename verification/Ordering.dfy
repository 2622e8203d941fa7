/** Kahn's algorithm over the data-dependency graph. */
module Ordering {
  import opened Wrappers
  import opened Blueprint
  import Scan

  datatype CompileError =
    | NoTags
    | DuplicateTag(name: string)
    | UnknownOp(id: string)
    | WrongArity(id: string)
    | UnknownOutput(id: string)
    | UnknownOperand(id: string, tag: string)
    | MissingParam(id: string)
    | NegativePreset(id: string)
    | MultipleDrivers(id: string)
    | SelfCycle(id: string)
    | CombinationalCycle(remaining: seq<string>)

  // ----- ids, and the graph over ids -----

  ghost function IdSet(nodes: seq<Node>): set<string> {
    set n | n in nodes :: n.id
  }

  ghost function ProducerIds(nodes: seq<Node>, n: Node): set<string> {
    set p | p in nodes && Reads(n, p.output) && p.id != n.id :: p.id
  }

  /** `writtenBy` is the map from an output tag to the node that drives it. */
  ghost predicate Drivers(nodes: seq<Node>, writtenBy: map<string, Node>) {
    && (forall n :: n in nodes ==> n.output in writtenBy && writtenBy[n.output] == n)
    && (forall t :: t in writtenBy ==> writtenBy[t] in nodes && writtenBy[t].output == t)
  }

  ghost predicate NoRepeats(s: seq<string>) {
    forall i, j :: 0 <= i < j < |s| ==> s[i] != s[j]
  }

  ghost function Elements(s: seq<string>): set<string> {
    set x | x in s
  }

  /** Producers by node id. */
  type Graph = map<string, set<string>>

  // ----- counting -----

  lemma {:induction false} ElementsSize(s: seq<string>)
    requires NoRepeats(s)
    ensures |Elements(s)| == |s|
  {
    if s != [] {
      var init := s[..|s| - 1];
      ElementsSize(init);
      assert Elements(s) == Elements(init) + {s[|s| - 1]};
      assert s[|s| - 1] !in Elements(init);
    }
  }

  lemma SubsetSize(a: set<string>, b: set<string>)
    requires a <= b
    ensures |a| <= |b|
    ensures |a| == |b| ==> a == b
  {
    assert b == a + (b - a);
    assert |b| == |a| + |b - a|;
  }

  lemma {:induction false} IdSetSize(nodes: seq<Node>)
    requires UniqueIds(nodes)
    ensures |IdSet(nodes)| == |nodes|
  {
    if nodes != [] {
      var init := nodes[..|nodes| - 1];
      var last := nodes[|nodes| - 1];
      IdSetSize(init);
      assert nodes == init + [last];
      assert IdSet(nodes) == IdSet(init) + {last.id};
      assert last.id !in IdSet(init);
    }
  }

  // ----- an order excludes cycles, and a stuck sort exhibits one -----

  lemma {:induction false} WalkDescends(nodes: seq<Node>, order: seq<Node>, walk: seq<Node>, k: nat, at: seq<nat>)
    requires TopologicalOrder(nodes, order)
    requires |at| == |walk| && k < |walk|
    requires forall i :: 0 <= i < |walk| ==> at[i] < |order| && order[at[i]] == walk[i]
    requires forall i :: 0 <= i < |walk| - 1 ==> DependsOn(walk[i], walk[i + 1])
    ensures at[k] + k <= at[0]
  {
    if k > 0 {
      WalkDescends(nodes, order, walk, k - 1, at);
      assert DependsOn(order[at[k - 1]], order[at[k]]);
    }
  }

  ghost function Position(order: seq<Node>, n: Node): nat
    requires n in order
    ensures Position(order, n) < |order| && order[Position(order, n)] == n
  {
    var i :| 0 <= i < |order| && order[i] == n; i
  }

  lemma OrderedIsAcyclic(nodes: seq<Node>, order: seq<Node>)
    requires TopologicalOrder(nodes, order)
    ensures Acyclic(nodes)
  {
    Scan.SameMembers(nodes, order);
    forall walk ensures !IsCycle(nodes, walk) {
      if IsCycle(nodes, walk) {
        var at := seq(|walk|, i requires 0 <= i < |walk| => Position(order, walk[i]));
        WalkDescends(nodes, order, walk, |walk| - 1, at);
        assert false;
      }
    }
  }

  ghost predicate HasProducer(nodes: seq<Node>, inside: set<string>, n: Node) {
    exists p :: p in nodes && p.id in inside && DependsOn(n, p)
  }

  /** Every node of `inside` depends on a node of `inside`. */
  ghost predicate Entangled(nodes: seq<Node>, inside: set<string>) {
    forall n {:trigger HasProducer(nodes, inside, n)} :: n in nodes && n.id in inside ==> HasProducer(nodes, inside, n)
  }

  /** Follow producers inside a set that never runs out of them. */
  lemma {:induction false} WalkInside(nodes: seq<Node>, inside: set<string>, start: Node, len: nat)
      returns (walk: seq<Node>)
    requires start in nodes && start.id in inside
    requires Entangled(nodes, inside)
    ensures |walk| == len + 1
    ensures forall i :: 0 <= i <= len ==> walk[i] in nodes && walk[i].id in inside
    ensures forall i :: 0 <= i < len ==> DependsOn(walk[i], walk[i + 1])
  {
    if len == 0 {
      walk := [start];
    } else {
      walk := WalkInside(nodes, inside, start, len - 1);
      assert HasProducer(nodes, inside, walk[len - 1]);
      var p :| p in nodes && p.id in inside && DependsOn(walk[len - 1], p);
      walk := walk + [p];
    }
  }

  lemma Pigeonhole(s: seq<string>, holes: set<string>) returns (i: nat, j: nat)
    requires |s| > |holes|
    requires forall x :: x in s ==> x in holes
    ensures i < j < |s| && s[i] == s[j]
  {
    if NoRepeats(s) {
      ElementsSize(s);
      SubsetSize(Elements(s), holes);
      assert false;
    }
    i, j :| 0 <= i < j < |s| && s[i] == s[j];
  }

  lemma StuckHasCycle(nodes: seq<Node>, inside: set<string>)
    requires UniqueIds(nodes)
    requires exists n :: n in nodes && n.id in inside
    requires Entangled(nodes, inside)
    ensures !Acyclic(nodes)
  {
    var start :| start in nodes && start.id in inside;
    var walk := WalkInside(nodes, inside, start, |inside|);
    var ids := seq(|walk|, i requires 0 <= i < |walk| => walk[i].id);
    var i, j := Pigeonhole(ids, inside);
    assert walk[i].id == ids[i] == ids[j] == walk[j].id;
    var a, b := Position(nodes, walk[i]), Position(nodes, walk[j]);
    assert walk[i] == walk[j];
    assert IsCycle(nodes, walk[i..j + 1]);
  }

  // ----- edges -----

  /** The other node that drives operand `k` of `n`, if there is one. */
  ghost function Supplier(writtenBy: map<string, Node>, n: Node, k: nat): Option<string>
    requires k < |n.inputs|
  {
    if n.inputs[k].TagRef? && n.inputs[k].tag in writtenBy && writtenBy[n.inputs[k].tag].id != n.id
    then Some(writtenBy[n.inputs[k].tag].id) else None
  }

  ghost function Suppliers(writtenBy: map<string, Node>, n: Node, k: nat): set<string>
    requires k <= |n.inputs|
  {
    if k == 0 then {}
    else
      var more := match Supplier(writtenBy, n, k - 1) case None => {} case Some(id) => {id};
      Suppliers(writtenBy, n, k - 1) + more
  }

  lemma {:induction false} SuppliersMembers(writtenBy: map<string, Node>, n: Node, k: nat, id: string)
    requires k <= |n.inputs|
    ensures id in Suppliers(writtenBy, n, k) <==> exists j :: 0 <= j < k && Supplier(writtenBy, n, j) == Some(id)
  {
    if k > 0 {
      SuppliersMembers(writtenBy, n, k - 1, id);
    }
  }

  lemma SuppliersAreProducers(nodes: seq<Node>, writtenBy: map<string, Node>, n: Node)
    requires UniqueIds(nodes) && Drivers(nodes, writtenBy) && n in nodes
    ensures Suppliers(writtenBy, n, |n.inputs|) == ProducerIds(nodes, n)
  {
    forall id ensures id in Suppliers(writtenBy, n, |n.inputs|) <==> id in ProducerIds(nodes, n) {
      SuppliersMembers(writtenBy, n, |n.inputs|, id);
      if id in ProducerIds(nodes, n) {
        var p :| p in nodes && Reads(n, p.output) && p.id != n.id && p.id == id;
        var k :| 0 <= k < |n.inputs| && n.inputs[k] == TagRef(p.output);
        assert Supplier(writtenBy, n, k) == Some(id);
      }
    }
  }

  ghost function AllSuppliers(writtenBy: map<string, Node>, n: Node): set<string> {
    Suppliers(writtenBy, n, |n.inputs|)
  }

  function Degree(inDegree: map<string, int>, id: string): int {
    if id in inDegree then inDegree[id] else 0
  }

  /** In-degree and reverse-edge tables, keyed by node id. */
  datatype Tables = Tables(inDegree: map<string, int>, dependents: map<string, seq<string>>)

  /** Append `id` to the entries of all `producers`. */
  ghost function Link(dependents: map<string, seq<string>>, producers: set<string>,
      id: string): map<string, seq<string>> {
    map p | p in dependents :: if p in producers then dependents[p] + [id] else dependents[p]
  }

  /** Add the edges from `producers` to `id`. */
  ghost function LinkNode(t: Tables, id: string, producers: set<string>): Tables {
    Tables(if producers == {} then t.inDegree else t.inDegree[id := Degree(t.inDegree, id) + |producers|],
           Link(t.dependents, producers, id))
  }

  /** The tables once the edges into the first `i` nodes have been added to `empty`. */
  ghost function Linked(empty: Tables, nodes: seq<Node>, writtenBy: map<string, Node>, i: nat): Tables
    requires i <= |nodes|
  {
    if i == 0 then empty
    else
      LinkNode(Linked(empty, nodes, writtenBy, i - 1), nodes[i - 1].id, AllSuppliers(writtenBy, nodes[i - 1]))
  }

  method EmptyTables(nodes: seq<Node>) returns (t: Tables)
    ensures forall id :: id in t.inDegree <==> id in IdSet(nodes)
    ensures forall id :: id in t.dependents <==> id in IdSet(nodes)
    ensures forall id :: id in t.inDegree ==> t.inDegree[id] == 0
    ensures forall id :: id in t.dependents ==> t.dependents[id] == []
  {
    t := Tables(map[], map[]);
    for i := 0 to |nodes|
      invariant forall id :: id in t.inDegree <==> id in t.dependents
      invariant forall id :: id in t.inDegree <==> exists j :: 0 <= j < i && nodes[j].id == id
      invariant forall id :: id in t.inDegree ==> t.inDegree[id] == 0
      invariant forall id :: id in t.dependents ==> t.dependents[id] == []
    {
      t := Tables(t.inDegree[nodes[i].id := 0], t.dependents[nodes[i].id := []]);
    }
  }

  lemma {:induction false} LinkedKeys(empty: Tables, nodes: seq<Node>, writtenBy: map<string, Node>, i: nat)
    requires i <= |nodes|
    ensures Linked(empty, nodes, writtenBy, i).dependents.Keys == empty.dependents.Keys
  {
    if i > 0 {
      LinkedKeys(empty, nodes, writtenBy, i - 1);
    }
  }

  lemma LinkedStep(empty: Tables, nodes: seq<Node>, writtenBy: map<string, Node>, i: nat)
    requires i < |nodes|
    ensures Linked(empty, nodes, writtenBy, i + 1)
      == LinkNode(Linked(empty, nodes, writtenBy, i), nodes[i].id, AllSuppliers(writtenBy, nodes[i]))
  {}

  /** One iteration of the graph's construction: the edges into node `i`. */
  method AddNode(nodes: seq<Node>, writtenBy: map<string, Node>, ghost empty: Tables, i: nat, t0: Tables)
    returns (error: Option<CompileError>, t: Tables)
    requires i < |nodes| && t0 == Linked(empty, nodes, writtenBy, i)
    requires forall tag :: tag in writtenBy ==> writtenBy[tag].id in empty.dependents
    ensures error.Some? <==> SelfFed(writtenBy, nodes[i])
    ensures error.Some? ==> error.value == SelfCycle(nodes[i].id)
    ensures error.None? ==> t == Linked(empty, nodes, writtenBy, i + 1)
  {
    LinkedStep(empty, nodes, writtenBy, i);
    LinkedKeys(empty, nodes, writtenBy, i);
    error, t := AddEdges(writtenBy, nodes[i], t0);
  }

  method BuildGraph(nodes: seq<Node>, writtenBy: map<string, Node>, empty: Tables)
    returns (error: Option<CompileError>, t: Tables, ghost stopped: nat)
    requires forall tag :: tag in writtenBy ==> writtenBy[tag].id in empty.dependents
    ensures stopped <= |nodes| && forall i :: 0 <= i < stopped ==> !SelfFed(writtenBy, nodes[i])
    ensures error.Some? ==>
      stopped < |nodes| && SelfFed(writtenBy, nodes[stopped]) && error.value == SelfCycle(nodes[stopped].id)
    ensures error.None? ==> stopped == |nodes| && t == Linked(empty, nodes, writtenBy, |nodes|)
  {
    t := empty;
    for i := 0 to |nodes|
      invariant t == Linked(empty, nodes, writtenBy, i)
      invariant forall j :: 0 <= j < i ==> !SelfFed(writtenBy, nodes[j])
    {
      stopped := i;
      error, t := AddNode(nodes, writtenBy, empty, i, t);
      if error.Some? {
        return;
      }
    }
    error, stopped := None, |nodes|;
  }

  /** The edges into one node: each distinct producer counts once. */
  method AddEdges(writtenBy: map<string, Node>, node: Node, t0: Tables) returns (error: Option<CompileError>, t: Tables)
    requires forall t :: t in writtenBy ==> writtenBy[t].id in t0.dependents
    ensures error.Some? <==> SelfFed(writtenBy, node)
    ensures error.Some? ==> error == Some(SelfCycle(node.id))
    ensures error.None? ==> t == LinkNode(t0, node.id, AllSuppliers(writtenBy, node))
  {
    t := t0;
    var seen: set<string> := {};
    for k := 0 to |node.inputs|
      invariant seen == Suppliers(writtenBy, node, k)
      invariant t == LinkNode(t0, node.id, seen)
      invariant !FeedsBack(writtenBy, node, k)
    {
      OperandNext(writtenBy, node, k);
      match ProducerOf(writtenBy, node, node.inputs[k])
      case None =>
      case Some(producer) =>
        if producer == node.id {
          FeedsBackLater(writtenBy, node, k + 1, |node.inputs|);
          return Some(SelfCycle(node.id)), t;
        }
        seen, t := AddEdge(producer, node.id, seen, t, t0);
    }
    error := None;
  }

  /** What one operand adds: nothing, a producer, or a cycle of one node. */
  lemma OperandNext(writtenBy: map<string, Node>, node: Node, k: nat)
    requires k < |node.inputs|
    ensures match ProducerOf(writtenBy, node, node.inputs[k])
      case None =>
        && Suppliers(writtenBy, node, k + 1) == Suppliers(writtenBy, node, k)
        && FeedsBack(writtenBy, node, k + 1) == FeedsBack(writtenBy, node, k)
      case Some(producer) =>
        && (producer == node.id ==> FeedsBack(writtenBy, node, k + 1))
        && (producer != node.id ==>
          && Suppliers(writtenBy, node, k + 1) == Suppliers(writtenBy, node, k) + {producer}
          && FeedsBack(writtenBy, node, k + 1) == FeedsBack(writtenBy, node, k))
  {}

  /** Record one producer of `id`, once. */
  method AddEdge(producer: string, id: string, seen: set<string>, t: Tables, ghost t0: Tables)
    returns (seen': set<string>, t': Tables)
    requires producer in t0.dependents
    requires t == LinkNode(t0, id, seen)
    ensures seen' == seen + {producer} && t' == LinkNode(t0, id, seen')
  {
    if producer in seen {
      assert seen + {producer} == seen;
      return seen, t;
    }
    LinkOneMore(t0.dependents, seen, producer, id);
    seen' := seen + {producer};
    t' := Tables(t.inDegree[id := Degree(t.inDegree, id) + 1], t.dependents[producer := t.dependents[producer] + [id]]);
  }

  /** The driver of an operand, unless the operand is a stateful node's own output. */
  function ProducerOf(writtenBy: map<string, Node>, node: Node, operand: Operand): Option<string> {
    if operand.Const? || operand.tag !in writtenBy then None
    else if Stateful(node.op) && writtenBy[operand.tag].id == node.id then None
    else Some(writtenBy[operand.tag].id)
  }

  /** One of the first `k` operands is the node's own output, and the node has no state. */
  ghost predicate FeedsBack(writtenBy: map<string, Node>, node: Node, k: nat)
    requires k <= |node.inputs|
  {
    k > 0 && (FeedsBack(writtenBy, node, k - 1) || ProducerOf(writtenBy, node, node.inputs[k - 1]) == Some(node.id))
  }

  lemma {:induction false} FeedsBackLater(writtenBy: map<string, Node>, node: Node, k: nat, m: nat)
    requires k <= m <= |node.inputs| && FeedsBack(writtenBy, node, k)
    ensures FeedsBack(writtenBy, node, m)
  {
    if k < m {
      FeedsBackLater(writtenBy, node, k, m - 1);
    }
  }

  lemma {:induction false} FeedsBackAt(writtenBy: map<string, Node>, node: Node, k: nat) returns (j: nat)
    requires k <= |node.inputs| && FeedsBack(writtenBy, node, k)
    ensures j < k && ProducerOf(writtenBy, node, node.inputs[j]) == Some(node.id)
  {
    j := k - 1;
    if ProducerOf(writtenBy, node, node.inputs[k - 1]) != Some(node.id) {
      j := FeedsBackAt(writtenBy, node, k - 1);
    }
  }

  ghost predicate SelfFed(writtenBy: map<string, Node>, node: Node) {
    FeedsBack(writtenBy, node, |node.inputs|)
  }

  lemma SelfFedIsSelfDependence(nodes: seq<Node>, writtenBy: map<string, Node>, node: Node)
    requires UniqueIds(nodes) && Drivers(nodes, writtenBy) && node in nodes
    ensures SelfFed(writtenBy, node) <==> DependsOn(node, node)
  {
    if FeedsBack(writtenBy, node, |node.inputs|) {
      var j := FeedsBackAt(writtenBy, node, |node.inputs|);
      var a, b := Position(nodes, writtenBy[node.inputs[j].tag]), Position(nodes, node);
      assert node.inputs[j] == TagRef(node.output);
    }
    if DependsOn(node, node) {
      var j :| 0 <= j < |node.inputs| && node.inputs[j] == TagRef(node.output);
      assert FeedsBack(writtenBy, node, j + 1);
      FeedsBackLater(writtenBy, node, j + 1, |node.inputs|);
    }
  }

  lemma LinkOneMore(dependents: map<string, seq<string>>, seen: set<string>, p: string, id: string)
    requires p in dependents && p !in seen
    ensures Link(dependents, seen + {p}, id) == Link(dependents, seen, id)[p := Link(dependents, seen, id)[p] + [id]]
  {}

  // ----- the tables describe the graph -----

  ghost function NodeOf(nodes: seq<Node>, id: string): Node
    requires id in IdSet(nodes)
    ensures NodeOf(nodes, id) in nodes && NodeOf(nodes, id).id == id
  {
    var n :| n in nodes && n.id == id; n
  }

  ghost function GraphOf(nodes: seq<Node>, writtenBy: map<string, Node>): Graph {
    map id | id in IdSet(nodes) :: AllSuppliers(writtenBy, NodeOf(nodes, id))
  }

  lemma GraphAt(nodes: seq<Node>, writtenBy: map<string, Node>, n: Node)
    requires UniqueIds(nodes) && n in nodes
    ensures n.id in GraphOf(nodes, writtenBy) && GraphOf(nodes, writtenBy)[n.id] == AllSuppliers(writtenBy, n)
  {
    assert n.id in IdSet(nodes);
    var a, b := Position(nodes, n), Position(nodes, NodeOf(nodes, n.id));
    assert a == b;
  }

  lemma LinkNodeDegree(t: Tables, id: string, producers: set<string>, c: string)
    ensures Degree(LinkNode(t, id, producers).inDegree, c) == Degree(t.inDegree, c) + if c == id then |producers| else 0
  {}

  lemma {:induction false} LinkedDegree(empty: Tables, nodes: seq<Node>, writtenBy: map<string, Node>, i: nat, j: nat)
    requires UniqueIds(nodes) && i <= |nodes| && j < |nodes|
    requires Degree(empty.inDegree, nodes[j].id) == 0
    ensures Degree(Linked(empty, nodes, writtenBy, i).inDegree, nodes[j].id)
            == if j < i then |AllSuppliers(writtenBy, nodes[j])| else 0
  {
    if i > 0 {
      LinkedDegree(empty, nodes, writtenBy, i - 1, j);
      assert nodes[j].id == nodes[i - 1].id ==> j == i - 1;
      LinkNodeDegree(Linked(empty, nodes, writtenBy, i - 1), nodes[i - 1].id, AllSuppliers(writtenBy, nodes[i - 1]),
        nodes[j].id);
    }
  }

  /** Node `j` is a consumer of `p`. */
  ghost predicate Consumes(nodes: seq<Node>, writtenBy: map<string, Node>, j: nat, p: string)
    requires j < |nodes|
  {
    p in AllSuppliers(writtenBy, nodes[j])
  }

  ghost predicate ConsumerBelow(nodes: seq<Node>, writtenBy: map<string, Node>, i: nat, c: string, p: string)
    requires i <= |nodes|
  {
    exists j :: 0 <= j < i && nodes[j].id == c && Consumes(nodes, writtenBy, j, p)
  }

  lemma ConsumerBelowNext(nodes: seq<Node>, writtenBy: map<string, Node>, i: nat, c: string, p: string)
    requires 0 < i <= |nodes|
    ensures ConsumerBelow(nodes, writtenBy, i, c, p) <==>
      ConsumerBelow(nodes, writtenBy, i - 1, c, p) || (nodes[i - 1].id == c && Consumes(nodes, writtenBy, i - 1, p))
  {}

  /** Adding the edges into one node appends it to the consumers of its producers. */
  lemma LinkNodeConsumers(t: Tables, id: string, producers: set<string>, p: string)
    requires p in t.dependents
    ensures p in LinkNode(t, id, producers).dependents
    ensures LinkNode(t, id, producers).dependents[p] == if p in producers then t.dependents[p] + [id]
      else t.dependents[p]
  {}

  /** The consumers of `p` among the first `i` nodes, in order. */
  ghost function Consumers(nodes: seq<Node>, writtenBy: map<string, Node>, i: nat, p: string): seq<string>
    requires i <= |nodes|
  {
    if i == 0 then []
    else Consumers(nodes, writtenBy, i - 1, p) + if Consumes(nodes, writtenBy, i - 1, p) then [nodes[i - 1].id] else []
  }

  lemma {:induction false} LinkedConsumers(empty: Tables, nodes: seq<Node>, writtenBy: map<string, Node>, i: nat,
      p: string)
    requires i <= |nodes| && p in empty.dependents && empty.dependents[p] == []
    ensures p in Linked(empty, nodes, writtenBy, i).dependents
    ensures Linked(empty, nodes, writtenBy, i).dependents[p] == Consumers(nodes, writtenBy, i, p)
  {
    if i > 0 {
      LinkedConsumers(empty, nodes, writtenBy, i - 1, p);
      NextConsumers(Linked(empty, nodes, writtenBy, i - 1), Linked(empty, nodes, writtenBy, i), nodes, writtenBy, i, p);
    }
  }

  lemma NextConsumers(t: Tables, t': Tables, nodes: seq<Node>, writtenBy: map<string, Node>, i: nat, p: string)
    requires 0 < i <= |nodes| && t' == LinkNode(t, nodes[i - 1].id, AllSuppliers(writtenBy, nodes[i - 1]))
    requires p in t.dependents && t.dependents[p] == Consumers(nodes, writtenBy, i - 1, p)
    ensures p in t'.dependents && t'.dependents[p] == Consumers(nodes, writtenBy, i, p)
  {
    LinkNodeConsumers(t, nodes[i - 1].id, AllSuppliers(writtenBy, nodes[i - 1]), p);
  }

  lemma {:induction false} ConsumersEntry(nodes: seq<Node>, writtenBy: map<string, Node>, i: nat, p: string, c: string)
    requires i <= |nodes|
    ensures c in Consumers(nodes, writtenBy, i, p) <==> ConsumerBelow(nodes, writtenBy, i, c, p)
  {
    if i > 0 {
      ConsumersEntry(nodes, writtenBy, i - 1, p, c);
      ConsumerBelowNext(nodes, writtenBy, i, c, p);
    }
  }

  lemma NoRepeatsPush(s: seq<string>, x: string)
    requires NoRepeats(s) && x !in s
    ensures NoRepeats(s + [x])
  {}

  lemma NotConsumedBelow(nodes: seq<Node>, writtenBy: map<string, Node>, i: nat, p: string)
    requires UniqueIds(nodes) && i < |nodes|
    ensures !ConsumerBelow(nodes, writtenBy, i, nodes[i].id, p)
  {}

  lemma {:induction false} ConsumersOnce(nodes: seq<Node>, writtenBy: map<string, Node>, i: nat, p: string)
    requires UniqueIds(nodes) && i <= |nodes|
    ensures NoRepeats(Consumers(nodes, writtenBy, i, p))
  {
    if i > 0 {
      ConsumersOnce(nodes, writtenBy, i - 1, p);
      ConsumersEntry(nodes, writtenBy, i - 1, p, nodes[i - 1].id);
      NotConsumedBelow(nodes, writtenBy, i - 1, p);
      NoRepeatsPush(Consumers(nodes, writtenBy, i - 1, p), nodes[i - 1].id);
    }
  }

  /** `dependents` lists the reverse edges of `graph`, each once. */
  ghost predicate Reverses(graph: Graph, p: string, consumers: seq<string>) {
    NoRepeats(consumers) && forall c :: c in consumers <==> c in graph && p in graph[c]
  }

  lemma LinkedReverses(empty: Tables, nodes: seq<Node>, writtenBy: map<string, Node>, p: string)
    requires UniqueIds(nodes)
    requires p in empty.dependents && empty.dependents[p] == []
    ensures p in Linked(empty, nodes, writtenBy, |nodes|).dependents
    ensures Reverses(GraphOf(nodes, writtenBy), p, Linked(empty, nodes, writtenBy, |nodes|).dependents[p])
  {
    LinkedConsumers(empty, nodes, writtenBy, |nodes|, p);
    ConsumersReverse(nodes, writtenBy, p);
  }

  lemma ConsumersReverse(nodes: seq<Node>, writtenBy: map<string, Node>, p: string)
    requires UniqueIds(nodes)
    ensures Reverses(GraphOf(nodes, writtenBy), p, Consumers(nodes, writtenBy, |nodes|, p))
  {
    ConsumersOnce(nodes, writtenBy, |nodes|, p);
    forall c ensures c in Consumers(nodes, writtenBy, |nodes|, p) <==>
                     c in GraphOf(nodes, writtenBy) && p in GraphOf(nodes, writtenBy)[c] {
      ConsumersEntry(nodes, writtenBy, |nodes|, p, c);
      ConsumerInGraph(nodes, writtenBy, c, p);
    }
  }

  lemma ConsumerInGraph(nodes: seq<Node>, writtenBy: map<string, Node>, c: string, p: string)
    requires UniqueIds(nodes)
    ensures ConsumerBelow(nodes, writtenBy, |nodes|, c, p) <==>
            c in GraphOf(nodes, writtenBy) && p in GraphOf(nodes, writtenBy)[c]
  {
    if ConsumerBelow(nodes, writtenBy, |nodes|, c, p) {
      var j :| 0 <= j < |nodes| && nodes[j].id == c && Consumes(nodes, writtenBy, j, p);
      GraphAt(nodes, writtenBy, nodes[j]);
    }
    if c in GraphOf(nodes, writtenBy) && p in GraphOf(nodes, writtenBy)[c] {
      var j := Position(nodes, NodeOf(nodes, c));
      assert Consumes(nodes, writtenBy, j, p);
    }
  }

  // ----- draining the queue -----

  /** `at` gives each queued id its position; every queued id comes after its producers. */
  ghost predicate Placed(graph: Graph, queue: seq<string>, at: map<string, nat>) {
    && |at.Keys| == |queue|
    && (forall i :: 0 <= i < |queue| ==> queue[i] in at && at[queue[i]] == i)
    && (forall c :: c in at ==> c in graph && at[c] < |queue| && queue[at[c]] == c)
  }

  ghost predicate ProducersFirst(graph: Graph, at: map<string, nat>) {
    forall c, p :: c in at && c in graph && p in graph[c] ==> p in at && at[p] < at[c]
  }

  /** In-degrees count the producers that are `left`. */
  ghost predicate Counted(inDegree: map<string, int>, left: Graph) {
    forall c :: c in left ==> Degree(inDegree, c) == |left[c]|
  }

  ghost predicate QueuedWhenFree(left: Graph, at: map<string, nat>) {
    forall c :: c in left ==> (c in at <==> left[c] == {})
  }

  /** `left` after `id` was taken out of the entries in `released`. */
  ghost function Released(left: Graph, released: set<string>, id: string): Graph {
    map c | c in left :: if c in released then left[c] - {id} else left[c]
  }

  ghost function Remaining(graph: Graph, done: set<string>): Graph {
    map c | c in graph :: graph[c] - done
  }

  lemma PlaceNext(c: string, queue: seq<string>, at: map<string, nat>, graph: Graph) returns (at': map<string, nat>)
    requires Placed(graph, queue, at) && ProducersFirst(graph, at)
    requires c in graph && c !in at && graph[c] <= at.Keys
    ensures at' == at[c := |queue|]
    ensures Placed(graph, queue + [c], at') && ProducersFirst(graph, at')
  {
    at' := at[c := |queue|];
    assert at'.Keys == at.Keys + {c};
  }

  /** Decrement one dependent of `id`, and queue it when nothing blocks it any more. */
  method ReleaseOne(c: string, id: string, inDegree: map<string, int>, queue: seq<string>, ghost at: map<string, nat>,
                    ghost graph: Graph, ghost left: Graph)
    returns (inDegree': map<string, int>, queue': seq<string>, ghost at': map<string, nat>)
    requires c in graph && c in left && id in left[c] && id in at && graph[c] <= left[c] + at.Keys
    requires Counted(inDegree, left) && QueuedWhenFree(left, at)
    requires Placed(graph, queue, at) && ProducersFirst(graph, at)
    ensures Counted(inDegree', left[c := left[c] - {id}]) && QueuedWhenFree(left[c := left[c] - {id}], at')
    ensures Placed(graph, queue', at') && ProducersFirst(graph, at') && queue <= queue' && at.Keys <= at'.Keys
  {
    var d := Degree(inDegree, c) - 1;
    inDegree', queue', at' := inDegree[c := d], queue, at;
    assert left[c] == (left[c] - {id}) + {id};
    if d == 0 {
      assert left[c] - {id} == {};
      queue' := queue + [c];
      at' := PlaceNext(c, queue, at, graph);
    }
  }

  method Release(id: string, dependents: seq<string>, inDegree0: map<string, int>, queue0: seq<string>,
      ghost at0: map<string, nat>,
                 ghost graph: Graph, ghost left0: Graph)
    returns (inDegree: map<string, int>, queue: seq<string>, ghost at: map<string, nat>)
    requires NoRepeats(dependents) && forall c :: c in dependents ==> c in left0 && id in left0[c]
    requires forall c :: c in left0 ==> c in graph && graph[c] <= left0[c] + at0.Keys
    requires Counted(inDegree0, left0) && QueuedWhenFree(left0, at0)
    requires Placed(graph, queue0, at0) && ProducersFirst(graph, at0) && id in at0
    ensures Counted(inDegree, Released(left0, Elements(dependents), id))
    ensures QueuedWhenFree(Released(left0, Elements(dependents), id), at)
    ensures Placed(graph, queue, at) && ProducersFirst(graph, at) && queue0 <= queue && at0.Keys <= at.Keys
  {
    inDegree, queue, at := inDegree0, queue0, at0;
    ghost var released: set<string> := {};
    for k := 0 to |dependents|
      invariant released == Elements(dependents[..k])
      invariant Counted(inDegree, Released(left0, released, id)) && QueuedWhenFree(Released(left0, released, id), at)
      invariant Placed(graph, queue, at) && ProducersFirst(graph, at) && queue0 <= queue && at0.Keys <= at.Keys
    {
      var c := dependents[k];
      ghost var left := Released(left0, released, id);
      ReleasedNext(left0, dependents, k, id);
      inDegree, queue, at := ReleaseOne(c, id, inDegree, queue, at, graph, left);
      released := released + {c};
    }
    assert dependents[..|dependents|] == dependents;
  }

  lemma ReleasedNext(left0: Graph, dependents: seq<string>, k: nat, id: string)
    requires NoRepeats(dependents) && k < |dependents| && dependents[k] in left0
    ensures Elements(dependents[..k + 1]) == Elements(dependents[..k]) + {dependents[k]}
    ensures Released(left0, Elements(dependents[..k]), id)[dependents[k]] == left0[dependents[k]]
    ensures Released(left0, Elements(dependents[..k + 1]), id)
            == Released(left0, Elements(dependents[..k]), id)[dependents[k] := left0[dependents[k]] - {id}]
  {
    assert dependents[..k + 1] == dependents[..k] + [dependents[k]];
    assert dependents[k] !in dependents[..k];
  }

  lemma ReleaseIsProgress(graph: Graph, done: set<string>, id: string, consumers: seq<string>)
    requires Reverses(graph, id, consumers)
    ensures Released(Remaining(graph, done), Elements(consumers), id) == Remaining(graph, done + {id})
  {
    forall c | c in graph
      ensures Released(Remaining(graph, done), Elements(consumers), id)[c] == Remaining(graph, done + {id})[c]
    {
      assert c in Elements(consumers) <==> id in graph[c];
    }
  }

  ghost predicate ProcessedBefore(at: map<string, nat>, head: nat, done: set<string>) {
    forall x :: x in done <==> x in at && at[x] < head
  }

  lemma HeadBound(graph: Graph, queue: seq<string>, at: map<string, nat>)
    requires Placed(graph, queue, at)
    ensures |queue| <= |graph.Keys|
  {
    SubsetSize(at.Keys, graph.Keys);
  }

  /** Process the id at `head`: mark it done and release its dependents. */
  method Advance(head: nat, dependents: map<string, seq<string>>, inDegree0: map<string, int>, queue0: seq<string>,
                 ghost at0: map<string, nat>, ghost graph: Graph, ghost done: set<string>)
    returns (inDegree: map<string, int>, queue: seq<string>, ghost at: map<string, nat>)
    requires head < |queue0| && ProcessedBefore(at0, head, done)
    requires forall p :: p in graph ==> p in dependents && Reverses(graph, p, dependents[p])
    requires Counted(inDegree0, Remaining(graph, done)) && QueuedWhenFree(Remaining(graph, done), at0)
    requires Placed(graph, queue0, at0) && ProducersFirst(graph, at0)
    ensures Counted(inDegree, Remaining(graph, done + {queue0[head]}))
    ensures QueuedWhenFree(Remaining(graph, done + {queue0[head]}), at)
    ensures Placed(graph, queue, at) && ProducersFirst(graph, at) && queue0 <= queue
    ensures ProcessedBefore(at, head + 1, done + {queue0[head]})
  {
    var id := queue0[head];
    assert at0[id] == head && id in graph;
    assert Reverses(graph, id, dependents[id]);
    inDegree, queue, at := Release(id, dependents[id], inDegree0, queue0, at0, graph, Remaining(graph, done));
    ReleaseIsProgress(graph, done, id, dependents[id]);
    StillProcessed(graph, head, queue0, at0, queue, at, done);
  }

  lemma StillProcessed(graph: Graph, head: nat, queue0: seq<string>, at0: map<string, nat>, queue: seq<string>,
      at: map<string, nat>,
                       done: set<string>)
    requires head < |queue0| && queue0 <= queue && ProcessedBefore(at0, head, done)
    requires Placed(graph, queue0, at0) && Placed(graph, queue, at)
    ensures ProcessedBefore(at, head + 1, done + {queue0[head]})
  {
    forall x ensures x in done + {queue0[head]} <==> x in at && at[x] < head + 1 {
      if x in at0 {
        assert queue[at0[x]] == x;
      }
      if x in at && at[x] < head + 1 {
        assert queue0[at[x]] == x;
      }
    }
  }

  ghost function FreeAmong(ids: seq<string>, i: nat, inDegree: map<string, int>): seq<string>
    requires i <= |ids|
  {
    if i == 0 then []
    else FreeAmong(ids, i - 1, inDegree) + if Degree(inDegree, ids[i - 1]) == 0 then [ids[i - 1]] else []
  }

  method Seed(ids: seq<string>, inDegree: map<string, int>) returns (queue: seq<string>)
    ensures queue == FreeAmong(ids, |ids|, inDegree)
  {
    queue := [];
    for i := 0 to |ids|
      invariant queue == FreeAmong(ids, i, inDegree)
    {
      if Degree(inDegree, ids[i]) == 0 {
        queue := queue + [ids[i]];
      }
    }
  }

  ghost function FreeAt(ids: seq<string>, i: nat, inDegree: map<string, int>): map<string, nat>
    requires i <= |ids|
  {
    if i == 0 then map[]
    else
      var at := FreeAt(ids, i - 1, inDegree);
      if Degree(inDegree, ids[i - 1]) == 0 then at[ids[i - 1] := |FreeAmong(ids, i - 1, inDegree)|] else at
  }

  lemma {:induction false} FreeAtMember(ids: seq<string>, i: nat, inDegree: map<string, int>, c: string)
    requires i <= |ids|
    ensures c in FreeAt(ids, i, inDegree) <==> Degree(inDegree, c) == 0 && exists j :: 0 <= j < i && ids[j] == c
  {
    if i > 0 {
      FreeAtMember(ids, i - 1, inDegree, c);
    }
  }

  lemma {:induction false} FreeIsPlaced(ids: seq<string>, i: nat, inDegree: map<string, int>, graph: Graph)
    requires NoRepeats(ids) && i <= |ids| && Counted(inDegree, graph)
    requires forall id :: id in ids ==> id in graph
    ensures Placed(graph, FreeAmong(ids, i, inDegree), FreeAt(ids, i, inDegree))
    ensures ProducersFirst(graph, FreeAt(ids, i, inDegree))
  {
    if i > 0 {
      FreeIsPlaced(ids, i - 1, inDegree, graph);
      var c := ids[i - 1];
      if Degree(inDegree, c) == 0 {
        assert graph[c] == {};
        FreeAtMember(ids, i - 1, inDegree, c);
        var _ := PlaceNext(c, FreeAmong(ids, i - 1, inDegree), FreeAt(ids, i - 1, inDegree), graph);
      } else {
        assert FreeAmong(ids, i, inDegree) == FreeAmong(ids, i - 1, inDegree);
      }
    }
  }

  lemma FreeIsQueued(ids: seq<string>, inDegree: map<string, int>, graph: Graph)
    requires Counted(inDegree, graph) && forall id :: id in ids <==> id in graph
    ensures QueuedWhenFree(Remaining(graph, {}), FreeAt(ids, |ids|, inDegree))
    ensures Remaining(graph, {}) == graph
  {
    assert forall c :: c in graph ==> graph[c] - {} == graph[c];
    forall c | c in graph ensures c in FreeAt(ids, |ids|, inDegree) <==> graph[c] == {} {
      FreeAtMember(ids, |ids|, inDegree, c);
      assert c in ids && Degree(inDegree, c) == |graph[c]|;
    }
  }

  /** Seed the queue in authoring order, then drain it. Whatever is not queued in the end waits for something not
      queued. */
  method Drain(ids: seq<string>, inDegree0: map<string, int>, dependents: map<string, seq<string>>, ghost graph: Graph)
    returns (queue: seq<string>, ghost at: map<string, nat>)
    requires NoRepeats(ids) && (forall id :: id in ids <==> id in graph) && Counted(inDegree0, graph)
    requires forall p :: p in graph ==> p in dependents && Reverses(graph, p, dependents[p])
    ensures Placed(graph, queue, at) && ProducersFirst(graph, at)
    ensures forall c :: c in graph && c !in at ==> !(graph[c] <= at.Keys)
  {
    var seeded := Seed(ids, inDegree0);
    ghost var at0 := FreeAt(ids, |ids|, inDegree0);
    FreeIsPlaced(ids, |ids|, inDegree0, graph);
    FreeIsQueued(ids, inDegree0, graph);
    queue, at := DrainFrom(seeded, at0, inDegree0, dependents, graph);
  }

  method DrainFrom(seeded: seq<string>, ghost at0: map<string, nat>, inDegree0: map<string, int>,
                   dependents: map<string, seq<string>>, ghost graph: Graph)
    returns (queue: seq<string>, ghost at: map<string, nat>)
    requires Counted(inDegree0, Remaining(graph, {})) && QueuedWhenFree(Remaining(graph, {}), at0)
    requires Placed(graph, seeded, at0) && ProducersFirst(graph, at0)
    requires forall p :: p in graph ==> p in dependents && Reverses(graph, p, dependents[p])
    ensures Placed(graph, queue, at) && ProducersFirst(graph, at)
    ensures forall c :: c in graph && c !in at ==> !(graph[c] <= at.Keys)
  {
    var inDegree, head := inDegree0, 0;
    queue, at := seeded, at0;
    ghost var done: set<string> := {};
    HeadBound(graph, queue, at);
    while head < |queue|
      invariant head <= |queue| <= |graph.Keys| && ProcessedBefore(at, head, done)
      invariant Counted(inDegree, Remaining(graph, done)) && QueuedWhenFree(Remaining(graph, done), at)
      invariant Placed(graph, queue, at) && ProducersFirst(graph, at)
      decreases |graph.Keys| - head
    {
      ghost var id := queue[head];
      inDegree, queue, at := Advance(head, dependents, inDegree, queue, at, graph, done);
      HeadBound(graph, queue, at);
      done := done + {id};
      head := head + 1;
    }
    forall c | c in graph && c !in at ensures !(graph[c] <= at.Keys) {
      assert Remaining(graph, done)[c] != {};
      assert forall x :: x in at ==> x in done;
    }
  }

  // ----- the sort -----

  /** What the sort may report: a stateless node reading its own output, or nodes that wait for one another. */
  ghost predicate Explains(nodes: seq<Node>, e: CompileError) {
    match e
    case SelfCycle(id) => exists n :: n in nodes && n.id == id && DependsOn(n, n)
    case CombinationalCycle(remaining) =>
      && (exists n :: n in nodes && n.id in remaining)
      && Entangled(nodes, Elements(remaining))
    case _ => false
  }

  lemma ExplainedIsCyclic(nodes: seq<Node>, e: CompileError)
    requires UniqueIds(nodes) && Explains(nodes, e)
    ensures !Acyclic(nodes)
  {
    match e
    case SelfCycle(id) =>
      var n :| n in nodes && n.id == id && DependsOn(n, n);
      assert IsCycle(nodes, [n, n]);
    case CombinationalCycle(remaining) =>
      var n :| n in nodes && n.id in remaining;
      assert n.id in Elements(remaining);
      StuckHasCycle(nodes, Elements(remaining));
  }

  /** The nodes whose ids were not queued, in authoring order. */
  method Unqueued(nodes: seq<Node>, queue: seq<string>) returns (remaining: seq<string>)
    ensures forall id :: id in remaining <==> id !in queue && exists n :: n in nodes && n.id == id
  {
    remaining := [];
    for i := 0 to |nodes|
      invariant forall id :: id in remaining <==> id !in queue && exists j :: 0 <= j < i && nodes[j].id == id
    {
      if nodes[i].id !in queue {
        remaining := remaining + [nodes[i].id];
      }
    }
  }

  lemma StuckExplains(nodes: seq<Node>, writtenBy: map<string, Node>, at: map<string, nat>, remaining: seq<string>)
    requires UniqueIds(nodes) && Drivers(nodes, writtenBy)
    requires forall n :: n in nodes ==> !DependsOn(n, n)
    requires forall c :: c in GraphOf(nodes, writtenBy) && c !in at ==> !(GraphOf(nodes, writtenBy)[c] <= at.Keys)
    requires forall id :: id in remaining <==> id !in at && exists n :: n in nodes && n.id == id
    requires exists n :: n in nodes && n.id !in at
    ensures Explains(nodes, CombinationalCycle(remaining))
  {
    var inside := Elements(remaining);
    forall n | n in nodes && n.id in inside ensures HasProducer(nodes, inside, n) {
      GraphAt(nodes, writtenBy, n);
      SuppliersAreProducers(nodes, writtenBy, n);
      var id :| id in ProducerIds(nodes, n) && id !in at;
      var p :| p in nodes && Reads(n, p.output) && p.id != n.id && p.id == id;
      assert p.id in remaining && DependsOn(n, p);
    }
  }

  lemma SelfFedExplains(nodes: seq<Node>, writtenBy: map<string, Node>, e: CompileError)
    requires UniqueIds(nodes) && Drivers(nodes, writtenBy)
    requires exists i :: 0 <= i < |nodes| && SelfFed(writtenBy, nodes[i]) && e == SelfCycle(nodes[i].id)
    ensures Explains(nodes, e)
  {
    var i :| 0 <= i < |nodes| && SelfFed(writtenBy, nodes[i]) && e == SelfCycle(nodes[i].id);
    SelfFedIsSelfDependence(nodes, writtenBy, nodes[i]);
  }

  lemma NotSelfFedIsIndependent(nodes: seq<Node>, writtenBy: map<string, Node>)
    requires UniqueIds(nodes) && Drivers(nodes, writtenBy)
    requires forall i :: 0 <= i < |nodes| ==> !SelfFed(writtenBy, nodes[i])
    ensures forall n :: n in nodes ==> !DependsOn(n, n)
  {
    forall n | n in nodes ensures !DependsOn(n, n) {
      SelfFedIsSelfDependence(nodes, writtenBy, n);
      var i := Position(nodes, n);
    }
  }

  lemma TablesMatch(nodes: seq<Node>, writtenBy: map<string, Node>, empty: Tables, t: Tables)
    requires UniqueIds(nodes) && t == Linked(empty, nodes, writtenBy, |nodes|)
    requires forall id :: id in empty.dependents <==> id in IdSet(nodes)
    requires forall id :: id in empty.inDegree ==> empty.inDegree[id] == 0
    requires forall id :: id in empty.dependents ==> empty.dependents[id] == []
    ensures Counted(t.inDegree, GraphOf(nodes, writtenBy))
    ensures forall p :: p in GraphOf(nodes, writtenBy) ==>
      p in t.dependents && Reverses(GraphOf(nodes, writtenBy), p, t.dependents[p])
  {
    var graph := GraphOf(nodes, writtenBy);
    forall c | c in graph ensures Degree(t.inDegree, c) == |graph[c]| {
      LinkedDegree(empty, nodes, writtenBy, |nodes|, Position(nodes, NodeOf(nodes, c)));
    }
    forall p | p in graph ensures p in t.dependents && Reverses(graph, p, t.dependents[p]) {
      LinkedReverses(empty, nodes, writtenBy, p);
    }
  }

  lemma IdsMatch(nodes: seq<Node>, writtenBy: map<string, Node>, ids: seq<string>)
    requires UniqueIds(nodes)
    requires |ids| == |nodes| && forall i :: 0 <= i < |nodes| ==> ids[i] == nodes[i].id
    ensures NoRepeats(ids) && forall id :: id in ids <==> id in GraphOf(nodes, writtenBy)
  {
    forall id ensures id in ids <==> id in IdSet(nodes) {
      if id in IdSet(nodes) {
        assert ids[Position(nodes, NodeOf(nodes, id))] == id;
      }
    }
  }

  /** The nodes named by the queue. */
  method Collect(nodes: seq<Node>, queue: seq<string>) returns (ordered: seq<Node>)
    requires forall i :: 0 <= i < |queue| ==> queue[i] in IdSet(nodes)
    ensures |ordered| == |queue|
    ensures forall i :: 0 <= i < |queue| ==> ordered[i] in nodes && ordered[i].id == queue[i]
  {
    var byId: map<string, Node> := map[];
    for i := 0 to |nodes|
      invariant forall j :: 0 <= j < i ==> nodes[j].id in byId
      invariant forall id :: id in byId ==> byId[id] in nodes && byId[id].id == id
    {
      byId := byId[nodes[i].id := nodes[i]];
    }
    forall i | 0 <= i < |queue| ensures queue[i] in byId {
      var j := Position(nodes, NodeOf(nodes, queue[i]));
    }
    ordered := seq(|queue|, i requires 0 <= i < |queue| && queue[i] in byId => byId[queue[i]]);
  }

  lemma NotAllQueued(nodes: seq<Node>, at: map<string, nat>)
    requires UniqueIds(nodes) && at.Keys <= IdSet(nodes)
    ensures |at.Keys| != |nodes| ==> exists n :: n in nodes && n.id !in at
    ensures |at.Keys| == |nodes| ==> at.Keys == IdSet(nodes)
  {
    IdSetSize(nodes);
    SubsetSize(at.Keys, IdSet(nodes));
    if |at.Keys| != |nodes| {
      var missing := IdSet(nodes) - at.Keys;
      assert IdSet(nodes) == at.Keys + missing;
      assert |IdSet(nodes)| == |at.Keys| + |missing|;
      var id :| id in missing;
    }
  }

  /** A queue of all ids is a rearrangement of the nodes. */
  lemma QueueRearranges(nodes: seq<Node>, ordered: seq<Node>, at: map<string, nat>)
    requires UniqueIds(nodes) && at.Keys == IdSet(nodes)
    requires forall i :: 0 <= i < |ordered| ==> ordered[i] in nodes && ordered[i].id in at && at[ordered[i].id] == i
    requires forall c :: c in at ==> at[c] < |ordered| && ordered[at[c]].id == c
    ensures multiset(ordered) == multiset(nodes)
  {
    forall n ensures multiset(ordered)[n] == multiset(nodes)[n] {
      Scan.DistinctCountsOnce(nodes, n);
      Scan.DistinctCountsOnce(ordered, n);
      if n in nodes {
        assert n.id in IdSet(nodes);
        var a, b := Position(nodes, n), Position(nodes, ordered[at[n.id]]);
        assert n == ordered[at[n.id]];
      }
      assert n in multiset(ordered) <==> n in multiset(nodes);
    }
  }

  lemma QueueOrders(nodes: seq<Node>, writtenBy: map<string, Node>, queue: seq<string>, ordered: seq<Node>,
      at: map<string, nat>)
    requires UniqueIds(nodes) && Drivers(nodes, writtenBy) && at.Keys == IdSet(nodes)
    requires forall n :: n in nodes ==> !DependsOn(n, n)
    requires Placed(GraphOf(nodes, writtenBy), queue, at) && ProducersFirst(GraphOf(nodes, writtenBy), at)
    requires |ordered| == |queue| && forall i :: 0 <= i < |queue| ==> ordered[i] in nodes && ordered[i].id == queue[i]
    ensures TopologicalOrder(nodes, ordered)
  {
    QueueRearranges(nodes, ordered, at);
    forall i, j | 0 <= i < |ordered| && 0 <= j < |ordered| && DependsOn(ordered[i], ordered[j]) ensures j < i {
      assert i != j && ordered[i].id != ordered[j].id;
      GraphAt(nodes, writtenBy, ordered[i]);
      SuppliersAreProducers(nodes, writtenBy, ordered[i]);
      assert ordered[j].id in ProducerIds(nodes, ordered[i]);
    }
  }

  /** Kahn's algorithm: it succeeds exactly when the dependencies are acyclic, and then orders them. */
  method TopoSort(nodes: seq<Node>, writtenBy: map<string, Node>) returns (r: Result<seq<Node>, CompileError>)
    requires UniqueIds(nodes) && Drivers(nodes, writtenBy)
    ensures r.Ok? <==> Acyclic(nodes)
    ensures r.Ok? ==> TopologicalOrder(nodes, r.value)
    ensures r.Err? ==> Explains(nodes, r.error)
  {
    var empty := EmptyTables(nodes);
    forall tag | tag in writtenBy ensures writtenBy[tag].id in empty.dependents {
      assert writtenBy[tag] in nodes;
    }
    var error, t, stopped := BuildGraph(nodes, writtenBy, empty);
    if error.Some? {
      SelfFedExplains(nodes, writtenBy, error.value);
      ExplainedIsCyclic(nodes, error.value);
      return Err(error.value);
    }
    NotSelfFedIsIndependent(nodes, writtenBy);
    TablesMatch(nodes, writtenBy, empty, t);
    r := SortByTables(nodes, writtenBy, t);
  }

  method SortByTables(nodes: seq<Node>, ghost writtenBy: map<string, Node>, t: Tables)
      returns (r: Result<seq<Node>, CompileError>)
    requires UniqueIds(nodes) && Drivers(nodes, writtenBy)
    requires forall n :: n in nodes ==> !DependsOn(n, n)
    requires Counted(t.inDegree, GraphOf(nodes, writtenBy))
    requires forall p :: p in GraphOf(nodes, writtenBy) ==>
      p in t.dependents && Reverses(GraphOf(nodes, writtenBy), p, t.dependents[p])
    ensures r.Ok? <==> Acyclic(nodes)
    ensures r.Ok? ==> TopologicalOrder(nodes, r.value)
    ensures r.Err? ==> Explains(nodes, r.error)
  {
    var ids := seq(|nodes|, i requires 0 <= i < |nodes| => nodes[i].id);
    IdsMatch(nodes, writtenBy, ids);
    var queue, at := Drain(ids, t.inDegree, t.dependents, GraphOf(nodes, writtenBy));
    NotAllQueued(nodes, at);
    var ordered := Collect(nodes, queue);
    if |ordered| == |nodes| {
      QueueOrders(nodes, writtenBy, queue, ordered, at);
      OrderedIsAcyclic(nodes, ordered);
      return Ok(ordered);
    }
    var remaining := Unqueued(nodes, queue);
    forall id ensures id in queue <==> id in at {}
    StuckExplains(nodes, writtenBy, at, remaining);
    ExplainedIsCyclic(nodes, CombinationalCycle(remaining));
    r := Err(CombinationalCycle(remaining));
  }
}
