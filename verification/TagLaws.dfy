/** Where the tags of a running blueprint get their values from outside: the declaration, and bulk input writes. */
module TagLaws {
  import opened Wrappers
  import opened Blueprint
  import opened Compiler
  import opened Runtime
  import opened Runs

  lemma {:induction false} SlotListed(tags: seq<TagDescriptor>, k: nat, d: Direction, i: nat)
    requires k <= |tags|
    ensures i in SlotsOf(tags, k, d) <==> i < k && tags[i].direction == d
  {
    if k > 0 {
      SlotListed(tags, k - 1, d, i);
    }
  }

  /** The slots of a direction are exactly the positions of the tags declared with it, in ascending order. */
  lemma {:induction false} SlotsExactly(tags: seq<TagDescriptor>, k: nat, d: Direction)
    requires k <= |tags|
    ensures forall i: nat :: i in SlotsOf(tags, k, d) <==> i < k && tags[i].direction == d
    ensures forall a, b :: 0 <= a < b < |SlotsOf(tags, k, d)| ==> SlotsOf(tags, k, d)[a] < SlotsOf(tags, k, d)[b]
  {
    forall i: nat ensures i in SlotsOf(tags, k, d) <==> i < k && tags[i].direction == d {
      SlotListed(tags, k, d, i);
    }
    if k > 0 {
      SlotsExactly(tags, k - 1, d);
      SlotsInRange(tags, k - 1, d);
    }
  }

  /** A freshly loaded blueprint holds for every tag its declared initial value, and 0 where none is declared. */
  lemma FreshTags(def: Definition, order: seq<Node>, events: seq<Event>, i: nat)
    requires UniqueNames(def.tags) && i < |def.tags|
    ensures var t := def.tags[i]; var held := Val(Run(def, order, events, 0).tags, t.name);
      (t.initial.None? ==> held == 0.0) && forall v :: t.initial == Some(v) ==> held == v
  {
    InitialAt(def.tags, |def.tags|, i);
  }

  lemma {:induction false} InitialAt(tags: seq<TagDescriptor>, k: nat, i: nat)
    requires i < k <= |tags| && UniqueNames(tags)
    ensures Val(InitialTags(tags, k), tags[i].name) == InitialOf(tags[i])
  {
    if i < k - 1 {
      InitialAt(tags, k - 1, i);
      assert tags[i].name != tags[k - 1].name;
    }
  }

  /** The parameter of a scan is its period: the declared one, or 100 ms. */
  lemma ScanPeriod(def: Definition)
    ensures def.scanPeriodMs.None? ==> ScanSeconds(def) == 0.1
    ensures def.scanPeriodMs.Some? ==> 1000.0 * ScanSeconds(def) == def.scanPeriodMs.value
  {}

  ghost predicate DistinctTargets(tags: seq<TagDescriptor>, slots: seq<nat>) {
    && (forall i :: 0 <= i < |slots| ==> slots[i] < |tags|)
    && (forall i, j :: 0 <= i < j < |slots| ==> tags[slots[i]].name != tags[slots[j]].name)
  }

  lemma {:induction false} WrittenAt(tags: seq<TagDescriptor>, slots: seq<nat>, values: seq<real>, k: nat,
      m: map<string, real>, i: nat)
    requires i < k <= |slots| == |values| && DistinctTargets(tags, slots)
    ensures Val(WithInputs(tags, slots, values, k, m), tags[slots[i]].name) == values[i]
  {
    if i < k - 1 {
      WrittenAt(tags, slots, values, k - 1, m, i);
      assert tags[slots[i]].name != tags[slots[k - 1]].name;
    }
  }

  lemma {:induction false} LeftAlone(tags: seq<TagDescriptor>, slots: seq<nat>, values: seq<real>, k: nat,
      m: map<string, real>, name: string)
    requires k <= |slots| == |values| && (forall i :: 0 <= i < |slots| ==> slots[i] < |tags|)
    requires forall i :: 0 <= i < k ==> tags[slots[i]].name != name
    ensures Val(WithInputs(tags, slots, values, k, m), name) == Val(m, name)
  {
    if k > 0 {
      LeftAlone(tags, slots, values, k - 1, m, name);
    }
  }

  lemma InputsAreDistinct(def: Definition)
    requires UniqueNames(def.tags)
    ensures DistinctTargets(def.tags, InputSlots(def))
  {
    SlotsExactly(def.tags, |def.tags|, Input);
    var slots := InputSlots(def);
    forall i, j | 0 <= i < j < |slots| ensures def.tags[slots[i]].name != def.tags[slots[j]].name {
      assert slots[i] < slots[j];
    }
  }

  /** In every run, a bulk write of the right length gives the k-th input tag the k-th value, and touches neither
      another tag nor any state. */
  lemma InputsLand(def: Definition, order: seq<Node>, events: seq<Event>, m: nat, values: seq<real>, k: nat,
      name: string)
    requires UniqueNames(def.tags) && m < |events| && events[m] == WriteInputs(values)
    requires |values| == |InputSlots(def)| && k < |values|
    ensures Val(Run(def, order, events, m + 1).tags, def.tags[InputSlots(def)[k]].name) == values[k]
    ensures (forall i :: 0 <= i < |def.tags| && def.tags[i].name == name ==> def.tags[i].direction != Input) ==>
      Val(Run(def, order, events, m + 1).tags, name) == Val(Run(def, order, events, m).tags, name)
    ensures Run(def, order, events, m + 1).state == Run(def, order, events, m).state
  {
    var slots, tags := InputSlots(def), Run(def, order, events, m).tags;
    InputsAreDistinct(def);
    WrittenAt(def.tags, slots, values, |values|, tags, k);
    if forall i :: 0 <= i < |def.tags| && def.tags[i].name == name ==> def.tags[i].direction != Input {
      SlotsExactly(def.tags, |def.tags|, Input);
      forall i | 0 <= i < |slots| ensures def.tags[slots[i]].name != name {
        assert slots[i] in slots;
      }
      LeftAlone(def.tags, slots, values, |values|, tags, name);
    }
  }

  /** A bulk write of the wrong length changes nothing. */
  lemma WrongLengthIsRefused(def: Definition, order: seq<Node>, events: seq<Event>, m: nat, values: seq<real>)
    requires m < |events| && events[m] == WriteInputs(values) && |values| != |InputSlots(def)|
    ensures Run(def, order, events, m + 1) == Run(def, order, events, m)
  {}
}
