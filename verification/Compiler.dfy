/** Compilation of a definition into a flat Structure-of-Arrays program. */
module Compiler {
  import opened Wrappers
  import opened Blueprint
  import opened Ordering
  import Scan

  // ----- op tables -----

  function Arity(op: Op): Option<nat> {
    match op
    case CONST => Some(0)
    case NOT | MOVE | TON => Some(1)
    case SELECT => Some(3)
    case Other(_) => None
    case _ => Some(2)
  }

  predicate UsesParam(op: Op) {
    op.CONST? || op.TON?
  }

  /** The dense opcode the runtime dispatches on. */
  function OpCode(op: Op): int {
    match op
    case AND => 0 case OR => 1 case NOT => 2 case XOR => 3
    case GT => 4 case GTE => 5 case LT => 6 case LTE => 7 case EQ => 8 case NEQ => 9
    case ADD => 10 case SUB => 11 case MUL => 12 case DIV => 13 case MIN => 14 case MAX => 15
    case SELECT => 16 case MOVE => 17 case CONST => 18
    case LATCH => 19 case TON => 20
    case Other(_) => -1
  }

  const OPERAND_STRIDE := 3

  datatype Program = Program(
    id: string, name: string, scanPeriodMs: real,
    tagCount: nat, instructionCount: nat, stateCount: nat,
    opcodes: seq<int>, destIndices: seq<int>, immediates: seq<real>,
    operandTagIndices: seq<int>, operandConsts: seq<real>, stateIndices: seq<int>,
    tagIndex: map<string, nat>, initialValues: seq<real>, tagMeta: seq<TagDescriptor>,
    inputSlots: seq<nat>, outputSlots: seq<nat>)

  // ----- acceptance -----

  ghost predicate UniqueNames(tags: seq<TagDescriptor>) {
    forall i, j :: 0 <= i < j < |tags| ==> tags[i].name != tags[j].name
  }

  ghost predicate Declared(tags: seq<TagDescriptor>, name: string) {
    exists i :: 0 <= i < |tags| && tags[i].name == name
  }

  ghost predicate WellFormedNode(tags: seq<TagDescriptor>, n: Node) {
    && Arity(n.op) == Some(|n.inputs|)
    && Declared(tags, n.output)
    && (forall k :: 0 <= k < |n.inputs| && n.inputs[k].TagRef? ==> Declared(tags, n.inputs[k].tag))
    && (UsesParam(n.op) ==> n.param.Some?)
    && (n.op.TON? ==> ParamOf(n) >= 0.0)
  }

  ghost predicate Accepted(def: Definition) {
    && def.tags != [] && UniqueNames(def.tags)
    && (forall i :: 0 <= i < |def.nodes| ==> WellFormedNode(def.tags, def.nodes[i]))
    && UniqueOutputs(def.nodes)
    && Acyclic(def.nodes)
  }

  /** The defect an error points at is really there. */
  ghost predicate Justified(def: Definition, e: CompileError) {
    match e
    case NoTags => def.tags == []
    case DuplicateTag(name) => exists i, j :: 0 <= i < j < |def.tags| && def.tags[i].name == def.tags[j].name == name
    case UnknownOp(id) => exists n :: n in def.nodes && n.id == id && Arity(n.op).None?
    case WrongArity(id) =>
      exists n :: n in def.nodes && n.id == id && Arity(n.op).Some? && Arity(n.op) != Some(|n.inputs|)
    case UnknownOutput(id) => exists n :: n in def.nodes && n.id == id && !Declared(def.tags, n.output)
    case UnknownOperand(id, tag) =>
      exists n :: n in def.nodes && n.id == id && Reads(n, tag) && !Declared(def.tags, tag)
    case MissingParam(id) => exists n :: n in def.nodes && n.id == id && UsesParam(n.op) && n.param.None?
    case NegativePreset(id) => exists n :: n in def.nodes && n.id == id && n.op.TON? && ParamOf(n) < 0.0
    case MultipleDrivers(id) =>
      exists i, j :: 0 <= i < j < |def.nodes| && def.nodes[i].output == def.nodes[j].output && def.nodes[j].id == id
    case _ => Explains(def.nodes, e)
  }

  // ----- tags -----

  /** `index` numbers the tags in declaration order. */
  ghost predicate Indexes(tags: seq<TagDescriptor>, index: map<string, nat>) {
    && (forall i :: 0 <= i < |tags| ==> tags[i].name in index && index[tags[i].name] == i)
    && (forall t :: t in index ==> index[t] < |tags| && tags[index[t]].name == t)
  }

  method IndexTags(tags: seq<TagDescriptor>) returns (duplicate: Option<string>, index: map<string, nat>)
    ensures duplicate.None? <==> UniqueNames(tags)
    ensures duplicate.None? ==> Indexes(tags, index)
    ensures duplicate.Some? ==> exists i, j :: 0 <= i < j < |tags| && tags[i].name == tags[j].name == duplicate.value
  {
    index := map[];
    for i := 0 to |tags|
      invariant forall j :: 0 <= j < i ==> tags[j].name in index && index[tags[j].name] == j
      invariant forall t :: t in index ==> index[t] < i && tags[index[t]].name == t
    {
      if tags[i].name in index {
        assert tags[index[tags[i].name]].name == tags[i].name;
        return Some(tags[i].name), index;
      }
      index := index[tags[i].name := i];
    }
    duplicate := None;
  }

  lemma IndexedIsDeclared(tags: seq<TagDescriptor>, index: map<string, nat>, name: string)
    requires Indexes(tags, index)
    ensures name in index <==> Declared(tags, name)
  {}

  function InitialOf(t: TagDescriptor): real {
    match t.initial case None => 0.0 case Some(v) => v
  }

  /** The slots of the first `k` tags that have direction `d`, ascending. */
  function SlotsOf(tags: seq<TagDescriptor>, k: nat, d: Direction): seq<nat>
    requires k <= |tags|
  {
    if k == 0 then []
    else SlotsOf(tags, k - 1, d) + if tags[k - 1].direction == d then [k - 1] else []
  }

  method MarshalTags(tags: seq<TagDescriptor>)
      returns (initialValues: array<real>, inputSlots: seq<nat>, outputSlots: seq<nat>)
    ensures initialValues.Length == |tags|
    ensures forall i :: 0 <= i < |tags| ==> initialValues[i] == InitialOf(tags[i])
    ensures inputSlots == SlotsOf(tags, |tags|, Input) && outputSlots == SlotsOf(tags, |tags|, Output)
  {
    initialValues := new real[|tags|];
    inputSlots, outputSlots := [], [];
    for i := 0 to |tags|
      invariant forall j :: 0 <= j < i ==> initialValues[j] == InitialOf(tags[j])
      invariant inputSlots == SlotsOf(tags, i, Input) && outputSlots == SlotsOf(tags, i, Output)
    {
      initialValues[i] := InitialOf(tags[i]);
      if tags[i].direction == Input {
        inputSlots := inputSlots + [i];
      } else if tags[i].direction == Output {
        outputSlots := outputSlots + [i];
      }
    }
  }

  // ----- validation -----

  method UnknownRead(n: Node, tagIndex: map<string, nat>) returns (tag: Option<string>)
    ensures tag.None? <==> forall k :: 0 <= k < |n.inputs| && n.inputs[k].TagRef? ==> n.inputs[k].tag in tagIndex
    ensures tag.Some? ==> Reads(n, tag.value) && tag.value !in tagIndex
  {
    for k := 0 to |n.inputs|
      invariant forall j :: 0 <= j < k && n.inputs[j].TagRef? ==> n.inputs[j].tag in tagIndex
    {
      if n.inputs[k].TagRef? && n.inputs[k].tag !in tagIndex {
        return Some(n.inputs[k].tag);
      }
    }
    tag := None;
  }

  method ValidateNode(def: Definition, n: Node, tagIndex: map<string, nat>) returns (error: Option<CompileError>)
    requires n in def.nodes && Indexes(def.tags, tagIndex)
    ensures error.None? <==> WellFormedNode(def.tags, n)
    ensures error.Some? ==> Justified(def, error.value)
  {
    IndexedIsDeclared(def.tags, tagIndex, n.output);
    forall t ensures t in tagIndex <==> Declared(def.tags, t) {
      IndexedIsDeclared(def.tags, tagIndex, t);
    }
    if Arity(n.op).None? {
      return Some(UnknownOp(n.id));
    }
    if Arity(n.op).value != |n.inputs| {
      return Some(WrongArity(n.id));
    }
    if n.output !in tagIndex {
      return Some(UnknownOutput(n.id));
    }
    var unknown := UnknownRead(n, tagIndex);
    if unknown.Some? {
      return Some(UnknownOperand(n.id, unknown.value));
    }
    if UsesParam(n.op) && n.param.None? {
      return Some(MissingParam(n.id));
    }
    if n.op.TON? && ParamOf(n) < 0.0 {
      return Some(NegativePreset(n.id));
    }
    error := None;
  }

  /** `writtenBy` holds the drivers among the first `i` nodes; `at` says where they are. */
  ghost predicate DriversUpTo(nodes: seq<Node>, i: nat, writtenBy: map<string, Node>, at: map<string, nat>) {
    && writtenBy.Keys == at.Keys
    && (forall j :: 0 <= j < i && j < |nodes| ==> nodes[j].output in at && at[nodes[j].output] == j)
    && (forall t :: t in at ==>
      at[t] < i && at[t] < |nodes| && writtenBy[t] == nodes[at[t]] && nodes[at[t]].output == t)
  }

  lemma DriversFound(nodes: seq<Node>, writtenBy: map<string, Node>, at: map<string, nat>)
    requires DriversUpTo(nodes, |nodes|, writtenBy, at)
    ensures Drivers(nodes, writtenBy) && UniqueOutputs(nodes)
  {}

  /** Check every node, and collect who writes which tag. */
  method ValidateNodes(def: Definition, tagIndex: map<string, nat>)
      returns (error: Option<CompileError>, writtenBy: map<string, Node>)
    requires Indexes(def.tags, tagIndex)
    ensures error.None? <==>
      UniqueOutputs(def.nodes) && forall i :: 0 <= i < |def.nodes| ==> WellFormedNode(def.tags, def.nodes[i])
    ensures error.None? ==> Drivers(def.nodes, writtenBy)
    ensures error.Some? ==> Justified(def, error.value)
  {
    writtenBy := map[];
    ghost var at: map<string, nat> := map[];
    for i := 0 to |def.nodes|
      invariant forall j :: 0 <= j < i ==> WellFormedNode(def.tags, def.nodes[j])
      invariant DriversUpTo(def.nodes, i, writtenBy, at)
    {
      var n := def.nodes[i];
      error := ValidateNode(def, n, tagIndex);
      if error.Some? {
        return;
      }
      if n.output in writtenBy {
        SecondDriver(def, i, at[n.output]);
        error := Some(MultipleDrivers(n.id));
        return;
      }
      writtenBy, at := writtenBy[n.output := n], at[n.output := i];
    }
    DriversFound(def.nodes, writtenBy, at);
    error := None;
  }

  lemma SecondDriver(def: Definition, i: nat, j: nat)
    requires j < i < |def.nodes| && def.nodes[i].output == def.nodes[j].output
    ensures !UniqueOutputs(def.nodes) && Justified(def, MultipleDrivers(def.nodes[i].id))
  {}

  // ----- state slots -----

  /** How many of the first `i` nodes own a state slot. */
  function StatefulBefore(order: seq<Node>, i: nat): nat
    requires i <= |order|
  {
    if i == 0 then 0 else StatefulBefore(order, i - 1) + if Stateful(order[i - 1].op) then 1 else 0
  }

  lemma {:induction false} SlotsAscend(order: seq<Node>, i: nat, j: nat)
    requires i < j <= |order| && Stateful(order[i].op)
    ensures StatefulBefore(order, i) < StatefulBefore(order, j)
  {
    if i + 1 < j {
      SlotsAscend(order, i, j - 1);
    }
  }

  method AllocateState(order: seq<Node>) returns (stateCount: nat, slotByNode: map<string, nat>)
    requires UniqueIds(order)
    ensures stateCount == StatefulBefore(order, |order|)
    ensures forall i :: 0 <= i < |order| ==>
      (order[i].id in slotByNode <==> Stateful(order[i].op)) &&
      (Stateful(order[i].op) ==> slotByNode[order[i].id] == StatefulBefore(order, i))
  {
    stateCount, slotByNode := 0, map[];
    for i := 0 to |order|
      invariant stateCount == StatefulBefore(order, i)
      invariant forall j :: 0 <= j < i ==>
        (order[j].id in slotByNode <==> Stateful(order[j].op)) &&
        (Stateful(order[j].op) ==> slotByNode[order[j].id] == StatefulBefore(order, j))
      invariant forall j :: i <= j < |order| ==> order[j].id !in slotByNode
    {
      if Stateful(order[i].op) {
        slotByNode := slotByNode[order[i].id := stateCount];
        stateCount := stateCount + 1;
      }
    }
  }

  // ----- emission -----

  /** Tag slot of operand `k`, or -1 when the operand is immediate or absent. */
  function OperandTag(n: Node, k: nat, tagIndex: map<string, nat>): int {
    if k < |n.inputs| && n.inputs[k].TagRef? && n.inputs[k].tag in tagIndex then tagIndex[n.inputs[k].tag] else -1
  }

  function OperandConst(n: Node, k: nat): real {
    if k < |n.inputs| && n.inputs[k].Const? then n.inputs[k].value else 0.0
  }

  function Immediate(n: Node): real {
    if UsesParam(n.op) then ParamOf(n) else 0.0
  }

  function StateIndex(order: seq<Node>, i: nat): int
    requires i < |order|
  {
    if Stateful(order[i].op) then StatefulBefore(order, i) else -1
  }

  /** The instruction stream of `order`. Operand `k` of instruction `i` sits at `i * 3 + k`. */
  ghost predicate EncodesStream(order: seq<Node>, p: Program) {
    && p.instructionCount == |order| == |p.opcodes| == |p.destIndices| == |p.immediates| == |p.stateIndices|
    && |p.operandTagIndices| == |p.operandConsts| == OPERAND_STRIDE * |order|
    && p.stateCount == StatefulBefore(order, |order|)
    && (forall i :: 0 <= i < |order| ==> p.opcodes[i] == OpCode(order[i].op))
    && (forall i :: 0 <= i < |order| ==>
      order[i].output in p.tagIndex && p.destIndices[i] == p.tagIndex[order[i].output])
    && (forall i :: 0 <= i < |order| ==> p.immediates[i] == Immediate(order[i]))
    && (forall i :: 0 <= i < |order| ==> p.stateIndices[i] == StateIndex(order, i))
    && (forall m :: 0 <= m < |p.operandTagIndices| ==>
          p.operandTagIndices[m] == OperandTag(order[m / OPERAND_STRIDE], m % OPERAND_STRIDE, p.tagIndex))
    && (forall m :: 0 <= m < |p.operandConsts| ==>
          p.operandConsts[m] == OperandConst(order[m / OPERAND_STRIDE], m % OPERAND_STRIDE))
  }

  ghost predicate EncodesTags(def: Definition, p: Program) {
    && p.tagMeta == def.tags && p.tagCount == |def.tags| == |p.initialValues|
    && Indexes(def.tags, p.tagIndex)
    && (forall i :: 0 <= i < |def.tags| ==> p.initialValues[i] == InitialOf(def.tags[i]))
    && p.inputSlots == SlotsOf(def.tags, |def.tags|, Input)
    && p.outputSlots == SlotsOf(def.tags, |def.tags|, Output)
    && p.scanPeriodMs / 1000.0 == ScanSeconds(def)
  }

  ghost predicate Encodes(def: Definition, order: seq<Node>, p: Program) {
    EncodesTags(def, p) && EncodesStream(order, p)
  }

  /** Write the operands of one instruction into its stride. */
  method EmitOperands(n: Node, base: nat, tagIndex: map<string, nat>, operandTags: array<int>,
      operandConsts: array<real>)
    requires |n.inputs| <= OPERAND_STRIDE
    requires base + OPERAND_STRIDE <= operandTags.Length == operandConsts.Length
    requires forall k :: 0 <= k < |n.inputs| && n.inputs[k].TagRef? ==> n.inputs[k].tag in tagIndex
    requires forall m :: base <= m < base + OPERAND_STRIDE ==> operandTags[m] == -1 && operandConsts[m] == 0.0
    modifies operandTags, operandConsts
    ensures forall m :: 0 <= m < operandTags.Length ==>
      (operandTags[m] == if base <= m < base + OPERAND_STRIDE then OperandTag(n, m - base, tagIndex)
        else old(operandTags[m]))
    ensures forall m :: 0 <= m < operandConsts.Length ==>
      (operandConsts[m] == if base <= m < base + OPERAND_STRIDE then OperandConst(n, m - base)
        else old(operandConsts[m]))
  {
    for k := 0 to |n.inputs|
      invariant forall m :: 0 <= m < operandTags.Length ==>
        (operandTags[m] == if base <= m < base + k then OperandTag(n, m - base, tagIndex) else old(operandTags[m]))
      invariant forall m :: 0 <= m < operandConsts.Length ==>
        (operandConsts[m] == if base <= m < base + k then OperandConst(n, m - base) else old(operandConsts[m]))
    {
      match n.inputs[k]
      case TagRef(t) => operandTags[base + k] := tagIndex[t];
      case Const(v) => operandConsts[base + k] := v;
    }
  }

  method EmitAllOperands(order: seq<Node>, tagIndex: map<string, nat>)
      returns (operandTags: array<int>, operandConsts: array<real>)
    requires forall i :: 0 <= i < |order| ==> |order[i].inputs| <= OPERAND_STRIDE
    requires forall i, k :: 0 <= i < |order| && 0 <= k < |order[i].inputs| && order[i].inputs[k].TagRef? ==>
      order[i].inputs[k].tag in tagIndex
    ensures operandTags.Length == operandConsts.Length == OPERAND_STRIDE * |order|
    ensures forall m :: 0 <= m < operandTags.Length ==>
      operandTags[m] == OperandTag(order[m / OPERAND_STRIDE], m % OPERAND_STRIDE, tagIndex)
    ensures forall m :: 0 <= m < operandConsts.Length ==>
      operandConsts[m] == OperandConst(order[m / OPERAND_STRIDE], m % OPERAND_STRIDE)
  {
    operandTags := new int[OPERAND_STRIDE * |order|](_ => -1);
    operandConsts := new real[OPERAND_STRIDE * |order|](_ => 0.0);
    for i := 0 to |order|
      invariant fresh(operandTags) && fresh(operandConsts)
      invariant forall m :: 0 <= m < operandTags.Length ==>
        (operandTags[m] == if m < OPERAND_STRIDE * i
          then OperandTag(order[m / OPERAND_STRIDE], m % OPERAND_STRIDE, tagIndex) else -1)
      invariant forall m :: 0 <= m < operandConsts.Length ==>
        (operandConsts[m] == if m < OPERAND_STRIDE * i
          then OperandConst(order[m / OPERAND_STRIDE], m % OPERAND_STRIDE) else 0.0)
    {
      EmitOperands(order[i], i * OPERAND_STRIDE, tagIndex, operandTags, operandConsts);
    }
  }

  method EmitHeads(order: seq<Node>, tagIndex: map<string, nat>, slotByNode: map<string, nat>)
    returns (opcodes: array<int>, dests: array<int>, immediates: array<real>, states: array<int>)
    requires forall i :: 0 <= i < |order| ==> order[i].output in tagIndex
    requires forall i :: 0 <= i < |order| ==>
      (order[i].id in slotByNode <==> Stateful(order[i].op)) &&
      (Stateful(order[i].op) ==> slotByNode[order[i].id] == StatefulBefore(order, i))
    ensures opcodes.Length == dests.Length == immediates.Length == states.Length == |order|
    ensures forall i :: 0 <= i < |order| ==>
      && opcodes[i] == OpCode(order[i].op) && dests[i] == tagIndex[order[i].output]
      && immediates[i] == Immediate(order[i]) && states[i] == StateIndex(order, i)
  {
    var n := |order|;
    opcodes, dests := new int[n], new int[n];
    immediates, states := new real[n], new int[n](_ => -1);
    for i := 0 to n
      invariant fresh(opcodes) && fresh(dests) && fresh(immediates) && fresh(states)
      invariant opcodes != dests && dests != states && opcodes != states
      invariant forall j :: 0 <= j < i ==> opcodes[j] == OpCode(order[j].op) && dests[j] == tagIndex[order[j].output]
      invariant forall j :: 0 <= j < i ==> immediates[j] == Immediate(order[j])
      invariant forall j :: 0 <= j < n ==> states[j] == if j < i then StateIndex(order, j) else -1
    {
      var node := order[i];
      opcodes[i] := OpCode(node.op);
      dests[i] := tagIndex[node.output];
      immediates[i] := Immediate(node);
      if node.id in slotByNode {
        states[i] := slotByNode[node.id];
      }
    }
  }

  // ----- the compiler -----

  /** The checks before ordering: tags, and nodes one by one. */
  method Resolve(def: Definition)
      returns (defect: Option<CompileError>, tagIndex: map<string, nat>, writtenBy: map<string, Node>)
    ensures defect.None? <==> (def.tags != [] && UniqueNames(def.tags) && UniqueOutputs(def.nodes)
      && forall i :: 0 <= i < |def.nodes| ==> WellFormedNode(def.tags, def.nodes[i]))
    ensures defect.None? ==> Indexes(def.tags, tagIndex) && Drivers(def.nodes, writtenBy)
    ensures defect.Some? ==> Justified(def, defect.value)
  {
    tagIndex, writtenBy := map[], map[];
    if |def.tags| == 0 {
      return Some(NoTags), tagIndex, writtenBy;
    }
    var duplicate, index := IndexTags(def.tags);
    if duplicate.Some? {
      return Some(DuplicateTag(duplicate.value)), tagIndex, writtenBy;
    }
    tagIndex := index;
    defect, writtenBy := ValidateNodes(def, tagIndex);
  }

  /** Compilation succeeds exactly on accepted definitions, and the program then encodes
      the nodes in a topological order. A refusal points at a real defect. */
  method Compile(def: Definition) returns (r: Result<Program, CompileError>, ghost order: seq<Node>)
    requires UniqueIds(def.nodes)
    ensures r.Ok? <==> Accepted(def)
    ensures r.Ok? ==> TopologicalOrder(def.nodes, order) && Encodes(def, order, r.value)
    ensures r.Err? ==> Justified(def, r.error)
  {
    order := [];
    var defect, tagIndex, writtenBy := Resolve(def);
    if defect.Some? {
      return Err(defect.value), order;
    }
    var initialValues, inputSlots, outputSlots := MarshalTags(def.tags);
    var sorted := TopoSort(def.nodes, writtenBy);
    if sorted.Err? {
      return Err(sorted.error), order;
    }
    order := sorted.value;
    OrderWellFormed(def, order, tagIndex);
    var p := Emit(def, sorted.value, tagIndex, initialValues[..], inputSlots, outputSlots);
    r := Ok(p);
  }

  lemma OrderWellFormed(def: Definition, order: seq<Node>, tagIndex: map<string, nat>)
    requires UniqueIds(def.nodes) && multiset(order) == multiset(def.nodes) && Indexes(def.tags, tagIndex)
    requires forall i :: 0 <= i < |def.nodes| ==> WellFormedNode(def.tags, def.nodes[i])
    ensures UniqueIds(order)
    ensures forall i :: 0 <= i < |order| ==> WellFormedNode(def.tags, order[i])
  {
    Scan.SameMembers(def.nodes, order);
    Scan.RearrangedIds(def.nodes, order);
    forall i | 0 <= i < |order| ensures WellFormedNode(def.tags, order[i]) {
      assert order[i] in def.nodes;
    }
  }

  lemma WellFormedResolves(tags: seq<TagDescriptor>, n: Node, tagIndex: map<string, nat>)
    requires WellFormedNode(tags, n) && Indexes(tags, tagIndex)
    ensures |n.inputs| <= OPERAND_STRIDE && n.output in tagIndex
    ensures forall k :: 0 <= k < |n.inputs| && n.inputs[k].TagRef? ==> n.inputs[k].tag in tagIndex
  {}

  method Emit(def: Definition, order: seq<Node>, tagIndex: map<string, nat>,
              initialValues: seq<real>, inputSlots: seq<nat>, outputSlots: seq<nat>) returns (p: Program)
    requires UniqueIds(order) && Indexes(def.tags, tagIndex)
    requires forall i :: 0 <= i < |order| ==> WellFormedNode(def.tags, order[i])
    requires |initialValues| == |def.tags| && forall i :: 0 <= i < |def.tags| ==>
      initialValues[i] == InitialOf(def.tags[i])
    requires inputSlots == SlotsOf(def.tags, |def.tags|, Input) && outputSlots == SlotsOf(def.tags, |def.tags|, Output)
    ensures Encodes(def, order, p)
  {
    forall i | 0 <= i < |order|
      ensures |order[i].inputs| <= OPERAND_STRIDE && order[i].output in tagIndex
      ensures forall k :: 0 <= k < |order[i].inputs| && order[i].inputs[k].TagRef? ==>
        order[i].inputs[k].tag in tagIndex
    {
      WellFormedResolves(def.tags, order[i], tagIndex);
    }
    var stateCount, slotByNode := AllocateState(order);
    var opcodes, dests, immediates, states := EmitHeads(order, tagIndex, slotByNode);
    var operandTags, operandConsts := EmitAllOperands(order, tagIndex);
    p := Program(
      def.id, def.name, match def.scanPeriodMs { case None => 100.0 case Some(ms) => ms },
      |def.tags|, |order|, stateCount,
      opcodes[..], dests[..], immediates[..], operandTags[..], operandConsts[..], states[..],
      tagIndex, initialValues, def.tags, inputSlots, outputSlots);
  }

  // ----- feedback through a stateful node -----

  const Holder := Node("l", LATCH, [TagRef("b"), Const(0.0)], "a", None)
  const Follower := Node("m", MOVE, [TagRef("a")], "b", None)

  /** A LATCH set by a MOVE that reads the LATCH. */
  const FeedbackLoop := Definition(
    "d", "d", [TagDescriptor("a", Output, None), TagDescriptor("b", Output, None)], [Holder, Follower], None)

  /** The latch reading its own output. */
  const SelfLoop := Definition(
    "d", "d", [TagDescriptor("a", Output, None), TagDescriptor("b", Output, None)],
    [Holder.(inputs := [TagRef("a"), Const(0.0)])], None)

  /** A feedback loop routed through a latch is refused, though each of its nodes is in order and a latch that
      reads its own output is accepted. */
  lemma LoopThroughLatchIsRefused()
    ensures UniqueNames(FeedbackLoop.tags) && UniqueOutputs(FeedbackLoop.nodes) && UniqueIds(FeedbackLoop.nodes)
    ensures forall i :: 0 <= i < |FeedbackLoop.nodes| ==> WellFormedNode(FeedbackLoop.tags, FeedbackLoop.nodes[i])
    ensures !Acyclic(FeedbackLoop.nodes) && !Accepted(FeedbackLoop) && Accepted(SelfLoop)
  {
    var tags := FeedbackLoop.tags;
    assert tags[0].name == "a" && tags[1].name == "b" && "a" != "b" && "l" != "m";
    assert Declared(tags, "a") && Declared(tags, "b");
    assert Holder.inputs[0] == TagRef("b") && Follower.inputs[0] == TagRef("a");
    assert DependsOn(Holder, Follower) && DependsOn(Follower, Holder);
    assert IsCycle(FeedbackLoop.nodes, [Holder, Follower, Holder]);
    SelfLoopIsAcyclic();
  }

  lemma SelfLoopIsAcyclic()
    ensures Acyclic(SelfLoop.nodes)
  {
    var n := SelfLoop.nodes[0];
    assert SelfLoop.nodes == [n] && !DependsOn(n, n);
    forall walk ensures !IsCycle(SelfLoop.nodes, walk) {
      if |walk| >= 2 && walk[0] in [n] && walk[0 + 1] in [n] {
        assert !DependsOn(walk[0], walk[0 + 1]);
      }
    }
  }
}
