/** The scan runtime: an interpreter over one tag buffer and one state buffer. */
module Runtime {
  import opened Wrappers
  import opened Blueprint
  import opened Compiler
  import Scan

  // ----- what the runtime's operations do to the store -----

  function InitialTags(tags: seq<TagDescriptor>, k: nat): map<string, real>
    requires k <= |tags|
  {
    if k == 0 then map[] else InitialTags(tags, k - 1)[tags[k - 1].name := InitialOf(tags[k - 1])]
  }

  function InitialStore(def: Definition): Store {
    Store(InitialTags(def.tags, |def.tags|), map[])
  }

  /** Write the first `k` values into the tags at the given slots. */
  function WithInputs(tags: seq<TagDescriptor>, slots: seq<nat>, values: seq<real>, k: nat,
      m: map<string, real>): map<string, real>
    requires k <= |slots| == |values| && forall i :: 0 <= i < |slots| ==> slots[i] < |tags|
  {
    if k == 0 then m else WithInputs(tags, slots, values, k - 1, m)[tags[slots[k - 1]].name := values[k - 1]]
  }

  lemma {:induction false} SlotsInRange(tags: seq<TagDescriptor>, k: nat, d: Direction)
    requires k <= |tags|
    ensures forall i :: 0 <= i < |SlotsOf(tags, k, d)| ==> SlotsOf(tags, k, d)[i] < k
  {
    if k > 0 {
      SlotsInRange(tags, k - 1, d);
    }
  }

  function InputSlots(def: Definition): (slots: seq<nat>)
    ensures forall i :: 0 <= i < |slots| ==> slots[i] < |def.tags|
  {
    SlotsInRange(def.tags, |def.tags|, Input);
    SlotsOf(def.tags, |def.tags|, Input)
  }

  function OutputSlots(def: Definition): (slots: seq<nat>)
    ensures forall i :: 0 <= i < |slots| ==> slots[i] < |def.tags|
  {
    SlotsInRange(def.tags, |def.tags|, Output);
    SlotsOf(def.tags, |def.tags|, Output)
  }

  lemma {:induction false} InitialTagsAt(tags: seq<TagDescriptor>, k: nat, index: map<string, nat>)
    requires k <= |tags| && Indexes(tags, index)
    ensures InitialTags(tags, k).Keys == set i | 0 <= i < k :: tags[i].name
    ensures forall t :: t in InitialTags(tags, k) ==> t in index && InitialTags(tags, k)[t] == InitialOf(tags[index[t]])
  {
    if k > 0 {
      InitialTagsAt(tags, k - 1, index);
    }
  }

  /** All tag references of a node are in the table. */
  ghost predicate Resolved(n: Node, tagIndex: map<string, nat>) {
    && |n.inputs| <= OPERAND_STRIDE && n.output in tagIndex
    && (forall k :: 0 <= k < |n.inputs| && n.inputs[k].TagRef? ==> n.inputs[k].tag in tagIndex)
  }

  /** `program` is what the compiler makes of an accepted definition, scheduled as `order`. */
  ghost predicate Compiled(def: Definition, order: seq<Node>, program: Program) {
    Accepted(def) && UniqueIds(def.nodes) && TopologicalOrder(def.nodes, order) && Encodes(def, order, program)
  }

  lemma CompiledFits(def: Definition, order: seq<Node>, program: Program)
    requires Compiled(def, order, program)
    ensures Scan.Schedules(def.nodes, order)
    ensures EncodesTags(def, program) && EncodesStream(order, program)
    ensures UniqueIds(order) && forall i :: 0 <= i < |order| ==> Resolved(order[i], program.tagIndex)
    ensures InitialStore(def).tags.Keys == program.tagIndex.Keys
    ensures forall t :: t in program.tagIndex ==> InitialStore(def).tags[t] == InitialOf(def.tags[program.tagIndex[t]])
    ensures forall i :: 0 <= i < |order| && Stateful(order[i].op) ==> StatefulBefore(order, i) < program.stateCount
  {
    OrderWellFormed(def, order, program.tagIndex);
    forall i | 0 <= i < |order| ensures Resolved(order[i], program.tagIndex) {
      WellFormedResolves(def.tags, order[i], program.tagIndex);
    }
    InitialTagsAt(def.tags, |def.tags|, program.tagIndex);
    StateSlotsFit(order);
  }

  // ----- stateless dispatch -----

  /** The stateless arms of the opcode switch. */
  method Dispatch(opcode: int, a: real, b: real, c: real, immediate: real,
                  ghost n: Node, ghost q: real, ghost dt: real) returns (out: real)
    requires opcode == OpCode(n.op) && !Stateful(n.op) && immediate == Immediate(n)
    ensures out == Eval(n.op, a, b, c, ParamOf(n), q, dt).0 && q == Eval(n.op, a, b, c, ParamOf(n), q, dt).1
  {
    match opcode
    case 0 => out := if a != 0.0 && b != 0.0 then 1.0 else 0.0;
    case 1 => out := if a != 0.0 || b != 0.0 then 1.0 else 0.0;
    case 2 => out := if a != 0.0 then 0.0 else 1.0;
    case 3 => out := if (a != 0.0) != (b != 0.0) then 1.0 else 0.0;
    case 4 => out := if a > b then 1.0 else 0.0;
    case 5 => out := if a >= b then 1.0 else 0.0;
    case 6 => out := if a < b then 1.0 else 0.0;
    case 7 => out := if a <= b then 1.0 else 0.0;
    case 8 => out := if a == b then 1.0 else 0.0;
    case 9 => out := if a != b then 1.0 else 0.0;
    case 10 => out := a + b;
    case 11 => out := a - b;
    case 12 => out := a * b;
    case 13 => out := if b != 0.0 then a / b else 0.0;
    case 14 => out := if a < b then a else b;
    case 15 => out := if a > b then a else b;
    case 16 => out := if a != 0.0 then b else c;
    case 17 => out := a;
    case 18 => out := immediate;
    case _ => out := 0.0;
  }

  /** The LATCH arm: reset first, then set, so that set dominates. */
  method Latch(a: real, b: real, q0: real, ghost c: real, ghost p: real, ghost dt: real) returns (q: real)
    ensures Eval(LATCH, a, b, c, p, q0, dt) == (q, q)
  {
    q := q0;
    if b != 0.0 {
      q := 0.0;
    }
    if a != 0.0 {
      q := 1.0;
    }
  }

  /** The TON arm: accumulate while enabled, saturate at the preset. */
  method OnDelay(a: real, preset: real, elapsed0: real, dt: real, ghost b: real, ghost c: real)
      returns (out: real, elapsed: real)
    ensures Eval(TON, a, b, c, preset, elapsed0, dt) == (out, elapsed)
  {
    elapsed := elapsed0;
    if a != 0.0 {
      elapsed := elapsed + dt;
      if elapsed >= preset {
        elapsed, out := preset, 1.0;
      } else {
        out := 0.0;
      }
    } else {
      elapsed, out := 0.0, 0.0;
    }
  }

  // ----- the runtime -----

  class BlueprintRuntime {
    const program: Program
    const tagBuffer: array<real>
    const stateBuffer: array<real>
    var tickNumber: nat

    ghost const def: Definition
    ghost const order: seq<Node>
    /** The store the two buffers stand for. */
    ghost var store: Store

    /** The buffers fit a program that encodes `order`. */
    ghost predicate Loaded() {
      && EncodesTags(def, program) && EncodesStream(order, program)
      && (forall i :: 0 <= i < |order| ==> Resolved(order[i], program.tagIndex))
      && tagBuffer.Length == program.tagCount && stateBuffer.Length == program.stateCount
      && tagBuffer != stateBuffer
    }

    ghost predicate TagsAre(m: map<string, real>)
      requires Loaded()
      reads tagBuffer
    {
      && m.Keys == program.tagIndex.Keys
      && forall t :: t in program.tagIndex ==> tagBuffer[program.tagIndex[t]] == m[t]
    }

    ghost predicate StateIs(m: map<string, real>)
      requires Loaded()
      reads stateBuffer
    {
      forall i :: 0 <= i < |order| && Stateful(order[i].op) ==>
        StatefulBefore(order, i) < stateBuffer.Length && stateBuffer[StatefulBefore(order, i)] == Val(m, order[i].id)
    }

    ghost predicate Valid()
      reads this`store, tagBuffer, stateBuffer
    {
      Loaded() && UniqueIds(order) && TagsAre(store.tags) && StateIs(store.state)
    }

    constructor (program: Program, ghost def: Definition, ghost order: seq<Node>)
      requires Compiled(def, order, program)
      ensures Valid() && fresh(tagBuffer) && fresh(stateBuffer)
      ensures this.def == def && this.order == order && this.program == program
      ensures store == InitialStore(def) && tickNumber == 0
    {
      CompiledFits(def, order, program);
      this.program, this.def, this.order := program, def, order;
      tagBuffer := new real[program.tagCount](i requires 0 <= i < |program.initialValues| => program.initialValues[i]);
      stateBuffer := new real[program.stateCount](_ => 0.0);
      tickNumber := 0;
      store := InitialStore(def);
    }

    // ----- the scan -----

    /** Operand at position `at` of the flat operand table: a tag slot, or an immediate. */
    function Operand(at: nat): real
      requires Loaded() && at < |program.operandTagIndices|
      reads tagBuffer
    {
      var slot := program.operandTagIndices[at];
      if 0 <= slot < tagBuffer.Length then tagBuffer[slot] else program.operandConsts[at]
    }

    lemma OperandIsFetch(i: nat, k: nat, m: map<string, real>)
      requires Loaded() && TagsAre(m) && i < |order| && k < OPERAND_STRIDE
      ensures i * OPERAND_STRIDE + k < |program.operandTagIndices|
      ensures Operand(i * OPERAND_STRIDE + k) == Fetch(order[i], k, m)
    {
      var at := i * OPERAND_STRIDE + k;
      assert at / OPERAND_STRIDE == i && at % OPERAND_STRIDE == k;
      assert Resolved(order[i], program.tagIndex);
      assert program.operandTagIndices[at] == OperandTag(order[i], k, program.tagIndex);
      assert program.operandConsts[at] == OperandConst(order[i], k);
      if k < |order[i].inputs| && order[i].inputs[k].TagRef? {
        var t := order[i].inputs[k].tag;
        assert t in program.tagIndex && program.tagIndex[t] < |def.tags|;
      }
    }

    method WriteTag(i: nat, out: real, ghost m: map<string, real>)
      requires Loaded() && TagsAre(m) && i < |order|
      modifies tagBuffer
      ensures TagsAre(m[order[i].output := out])
    {
      assert Resolved(order[i], program.tagIndex);
      tagBuffer[program.destIndices[i]] := out;
    }

    method WriteState(i: nat, q: real, ghost m: map<string, real>)
      requires Loaded() && UniqueIds(order) && StateIs(m) && i < |order| && Stateful(order[i].op)
      modifies stateBuffer
      ensures StateIs(m[order[i].id := q])
    {
      assert program.stateIndices[i] == StateIndex(order, i);
      stateBuffer[program.stateIndices[i]] := q;
      forall j | 0 <= j < |order| && Stateful(order[j].op)
        ensures StatefulBefore(order, j) < stateBuffer.Length
        ensures stateBuffer[StatefulBefore(order, j)] == Val(m[order[i].id := q], order[j].id)
      {
        if j < i {
          SlotsAscend(order, j, i);
        } else if i < j {
          SlotsAscend(order, i, j);
        }
      }
    }

    /** The opcode switch: the output of instruction `i`, and the update of its state slot. */
    method Execute(i: nat, a: real, b: real, c: real, dt: real) returns (out: real, ghost q: real)
      requires Loaded() && UniqueIds(order) && i < |order| && StateIs(store.state)
      modifies stateBuffer
      ensures (out, q) == Eval(order[i].op, a, b, c, ParamOf(order[i]), Val(store.state, order[i].id), dt)
      ensures StateIs(if Stateful(order[i].op) then store.state[order[i].id := q] else store.state)
    {
      ghost var n := order[i];
      assert program.opcodes[i] == OpCode(n.op) && program.immediates[i] == Immediate(n);
      assert program.stateIndices[i] == StateIndex(order, i);
      var opcode, immediate, slot := program.opcodes[i], program.immediates[i], program.stateIndices[i];
      if opcode == 19 {
        out := Latch(a, b, stateBuffer[slot], c, ParamOf(n), dt);
        q := out;
        WriteState(i, out, store.state);
      } else if opcode == 20 {
        var elapsed;
        out, elapsed := OnDelay(a, immediate, stateBuffer[slot], dt, b, c);
        q := elapsed;
        WriteState(i, elapsed, store.state);
      } else {
        q := Val(store.state, n.id);
        out := Dispatch(opcode, a, b, c, immediate, n, q, dt);
      }
    }

    method Decode(i: nat) returns (a: real, b: real, c: real)
      requires Valid() && i < |order|
      ensures a == Fetch(order[i], 0, store.tags) && b == Fetch(order[i], 1, store.tags)
        && c == Fetch(order[i], 2, store.tags)
    {
      OperandIsFetch(i, 0, store.tags);
      OperandIsFetch(i, 1, store.tags);
      OperandIsFetch(i, 2, store.tags);
      var base := i * OPERAND_STRIDE;
      a, b, c := Operand(base), Operand(base + 1), Operand(base + 2);
    }

    method ExecuteInstruction(i: nat, dt: real)
      requires Valid() && i < |order|
      modifies tagBuffer, stateBuffer, `store
      ensures Valid() && store == Step(order[i], old(store), dt)
    {
      var a, b, c := Decode(i);
      var out, q := Execute(i, a, b, c, dt);
      WriteTag(i, out, store.tags);
      StepFrom(order[i], store, dt, a, b, c, out, q);
      store := Step(order[i], store, dt);
    }

    method ExecuteAll(dt: real)
      requires Valid()
      modifies this`store, tagBuffer, stateBuffer
      ensures Valid() && store == Pass(order, |order|, old(store), dt)
    {
      ghost var s := store;
      var n := program.instructionCount;
      for i := 0 to n
        invariant n == |order| && Executed(i, s, dt)
      {
        ExecuteNext(i, dt, s);
      }
    }

    /** The first `i` instructions have run on the store `s`. */
    ghost predicate Executed(i: nat, s: Store, dt: real)
      reads this`store, tagBuffer, stateBuffer
    {
      Valid() && i <= |order| && store == Pass(order, i, s, dt)
    }

    method ExecuteNext(i: nat, dt: real, ghost s: Store)
      requires i < |order| && Executed(i, s, dt)
      modifies this`store, tagBuffer, stateBuffer
      ensures Executed(i + 1, s, dt)
    {
      PassNext(order, i, s, dt);
      ExecuteInstruction(i, dt);
    }

    /** One scan: a pass over the schedule. `Scan.PassSolves` says what that computes. */
    method TickFast()
      requires Valid()
      modifies this, tagBuffer, stateBuffer
      ensures Valid() && tickNumber == old(tickNumber) + 1
      ensures store == Pass(order, |order|, old(store), ScanSeconds(def))
    {
      ExecuteAll(program.scanPeriodMs / 1000.0);
      tickNumber := tickNumber + 1;
    }

    // ----- input and output -----

    /** Bulk-write the input tags; a buffer of the wrong length is refused and changes nothing. */
    method WriteInputs(values: array<real>) returns (ok: bool)
      requires Valid() && values != tagBuffer && values != stateBuffer
      modifies this`store, tagBuffer
      ensures Valid() && ok == (values.Length == |InputSlots(def)|)
      ensures !ok ==> store == old(store)
      ensures ok ==>
        store.state == old(store.state)
        && store.tags == WithInputs(def.tags, InputSlots(def), values[..], values.Length, old(store.tags))
    {
      var slots := program.inputSlots;
      assert slots == InputSlots(def);
      if values.Length != |slots| {
        return false;
      }
      for k := 0 to |slots|
        invariant Valid() && values[..] == old(values[..])
        invariant store == Store(WithInputs(def.tags, slots, values[..], k, old(store.tags)), old(store.state))
      {
        tagBuffer[slots[k]] := values[k];
        store := Store(store.tags[def.tags[slots[k]].name := values[k]], store.state);
      }
      ok := true;
    }

    /** Bulk-read the output tags into the caller's buffer. */
    method ReadOutputs(out: array<real>) returns (ok: bool)
      requires Valid() && out != tagBuffer && out != stateBuffer
      modifies out
      ensures Valid() && ok == (out.Length == |OutputSlots(def)|)
      ensures !ok ==> out[..] == old(out[..])
      ensures ok ==> forall k :: 0 <= k < out.Length ==> out[k] == Val(store.tags, def.tags[OutputSlots(def)[k]].name)
    {
      var slots := program.outputSlots;
      assert slots == OutputSlots(def);
      if out.Length != |slots| {
        return false;
      }
      for k := 0 to |slots|
        invariant Valid()
        invariant forall j :: 0 <= j < k ==> out[j] == Val(store.tags, def.tags[OutputSlots(def)[j]].name)
      {
        out[k] := tagBuffer[slots[k]];
        assert def.tags[slots[k]].name in program.tagIndex;
      }
      ok := true;
    }

    method Get(name: string) returns (value: Option<real>)
      requires Valid()
      ensures value == if name in store.tags then Some(store.tags[name]) else None
    {
      if name in program.tagIndex {
        value := Some(tagBuffer[program.tagIndex[name]]);
      } else {
        value := None;
      }
    }

    /** Write one tag by name; an unknown name is refused and changes nothing. */
    method SetTag(name: string, value: real) returns (ok: bool)
      requires Valid()
      modifies this`store, tagBuffer
      ensures Valid() && ok == Declared(def.tags, name)
      ensures store == if ok then Store(old(store.tags)[name := value], old(store.state)) else old(store)
    {
      IndexedIsDeclared(def.tags, program.tagIndex, name);
      if name !in program.tagIndex {
        return false;
      }
      tagBuffer[program.tagIndex[name]] := value;
      store := Store(store.tags[name := value], store.state);
      ok := true;
    }

    /** Back to the state a fresh runtime starts in. */
    method Reset()
      requires Valid()
      modifies this, tagBuffer, stateBuffer
      ensures Valid() && store == InitialStore(def) && tickNumber == 0
    {
      forall i | 0 <= i < tagBuffer.Length {
        tagBuffer[i] := program.initialValues[i];
      }
      forall i | 0 <= i < stateBuffer.Length {
        stateBuffer[i] := 0.0;
      }
      tickNumber := 0;
      store := InitialStore(def);
      InitialTagsAt(def.tags, |def.tags|, program.tagIndex);
      StateSlotsFit(order);
    }
  }

  lemma PassNext(order: seq<Node>, i: nat, s: Store, dt: real)
    requires i < |order|
    ensures Pass(order, i + 1, s, dt) == Step(order[i], Pass(order, i, s, dt), dt)
  {}

  lemma StepFrom(n: Node, s: Store, dt: real, a: real, b: real, c: real, out: real, q: real)
    requires a == Fetch(n, 0, s.tags) && b == Fetch(n, 1, s.tags) && c == Fetch(n, 2, s.tags)
    requires (out, q) == Eval(n.op, a, b, c, ParamOf(n), Val(s.state, n.id), dt)
    ensures Step(n, s, dt) == Store(s.tags[n.output := out], if Stateful(n.op) then s.state[n.id := q] else s.state)
  {}

  lemma StateSlotsFit(order: seq<Node>)
    ensures forall i :: 0 <= i < |order| && Stateful(order[i].op) ==>
      StatefulBefore(order, i) < StatefulBefore(order, |order|)
  {
    forall i | 0 <= i < |order| && Stateful(order[i].op)
      ensures StatefulBefore(order, i) < StatefulBefore(order, |order|) {
      SlotsAscend(order, i, |order|);
    }
  }
}
