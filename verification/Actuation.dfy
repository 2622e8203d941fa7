/** The actuation seam: how a runtime's outputs are driven into the declared safe state. */
module Actuation {
  import opened Wrappers
  import opened Blueprint
  import opened Compiler
  import opened Runtime

  datatype SafeAction = HoldLast | ForceZero | Recipe(name: string)
  datatype OutputMode = LoopMode | HoldLastMode | ForceZeroMode | RecipeMode

  /** A named safe recipe: output tag and value, in the order written. */
  type Recipe = seq<(string, real)>

  /** What an actuator is built from: output tags, recipes, and whether a field sink is bound. */
  datatype Seam = Seam(outputs: seq<string>, recipes: map<string, Recipe>, sinkBound: bool)

  /** An actuator together with the tag store it drives. */
  datatype Plant = Plant(halted: bool, mode: OutputMode, held: Option<map<string, real>>, tags: map<string, real>)

  function Snapshot(names: seq<string>, tags: map<string, real>): map<string, real> {
    map n | n in names && n in tags :: tags[n]
  }

  // ----- the safe actions -----

  function Zeroed(names: seq<string>, k: nat, tags: map<string, real>): map<string, real>
    requires k <= |names|
  {
    if k == 0 then tags else Zeroed(names, k - 1, tags)[names[k - 1] := 0.0]
  }

  /** Write a recipe entry by entry; the first unknown tag stops it. */
  function Prescribed(recipe: Recipe, k: nat, tags: map<string, real>): map<string, real>
    requires k <= |recipe|
  {
    if k == 0 then tags else Prescribed(recipe, k - 1, tags)[recipe[k - 1].0 := recipe[k - 1].1]
  }

  function KnownPrefix(recipe: Recipe, k: nat, tags: map<string, real>): nat
    requires k <= |recipe|
    ensures k <= KnownPrefix(recipe, k, tags) <= |recipe|
    decreases |recipe| - k
  {
    if k == |recipe| || recipe[k].0 !in tags then k else KnownPrefix(recipe, k + 1, tags)
  }

  function Commands(recipe: Recipe): map<string, real> {
    Prescribed(recipe, |recipe|, map[])
  }

  /** Apply a safe action: the plant afterwards, and whether the call returned normally.
      `published` is the outcome of the field sink, if one is bound. */
  function Actuate(seam: Seam, action: SafeAction, optIn: bool, published: bool, p: Plant): (Plant, bool) {
    var delivered := !seam.sinkBound || published;
    match action
    case HoldLast =>
      (p.(held := Some(Snapshot(seam.outputs, p.tags)), mode := HoldLastMode), delivered)
    case ForceZero =>
      if !optIn then (p, false)
      else (p.(tags := Zeroed(seam.outputs, |seam.outputs|, p.tags),
               held := Some(Zeroed(seam.outputs, |seam.outputs|, map[])), mode := ForceZeroMode), delivered)
    case Recipe(name) =>
      if name !in seam.recipes || !optIn then (p, false)
      else
        var recipe := seam.recipes[name];
        var known := KnownPrefix(recipe, 0, p.tags);
        var tags := Prescribed(recipe, known, p.tags);
        if known < |recipe| then (p.(tags := tags), false)
        else (p.(tags := tags, held := Some(Commands(recipe)), mode := RecipeMode), delivered)
  }

  /** The pre-flight check that registration runs. */
  predicate CanApply(seam: Seam, action: SafeAction, optIn: bool) {
    match action
    case HoldLast => true
    case ForceZero => optIn && seam.outputs != []
    case Recipe(name) =>
      && name in seam.recipes && optIn
      && forall i :: 0 <= i < |seam.recipes[name]| ==> seam.recipes[name][i].0 in seam.outputs
  }

  // ----- what an applied action guarantees -----

  /** A recipe action names a known recipe over output tags. */
  ghost predicate Fits(seam: Seam, action: SafeAction) {
    action.Recipe? ==>
      && action.name in seam.recipes
      && forall i :: 0 <= i < |seam.recipes[action.name]| ==> seam.recipes[action.name][i].0 in seam.outputs
  }

  /** The guards on which an action throws: any action but hold-last needs the opt-in, and a bound sink must
      accept what is published. */
  predicate Refused(seam: Seam, action: SafeAction, optIn: bool, published: bool) {
    (!action.HoldLast? && !optIn) || (seam.sinkBound && !published)
  }

  /** The output tags already have the values that the action commands. */
  ghost predicate Commanded(seam: Seam, action: SafeAction, tags: map<string, real>) {
    match action
    case HoldLast => true
    case ForceZero => forall i :: 0 <= i < |seam.outputs| ==>
      Val(tags, seam.outputs[i]) == 0.0 && seam.outputs[i] in tags
    case Recipe(name) =>
      && name in seam.recipes
      && forall i :: 0 <= i < |seam.recipes[name]| ==>
           seam.recipes[name][i].0 in tags && tags[seam.recipes[name][i].0] == seam.recipes[name][i].1
  }

  ghost predicate DistinctTargets(seam: Seam) {
    forall name :: name in seam.recipes ==>
      forall i, j :: 0 <= i < j < |seam.recipes[name]| ==> seam.recipes[name][i].0 != seam.recipes[name][j].0
  }

  lemma {:induction false} ZeroedAt(names: seq<string>, k: nat, tags: map<string, real>)
    requires k <= |names|
    ensures forall i :: 0 <= i < k ==> names[i] in Zeroed(names, k, tags) && Zeroed(names, k, tags)[names[i]] == 0.0
    ensures forall t :: t in Zeroed(names, k, tags) <==> t in tags || exists i :: 0 <= i < k && names[i] == t
  {
    if k > 0 {
      ZeroedAt(names, k - 1, tags);
    }
  }

  lemma {:induction false} ZeroedAgain(names: seq<string>, k: nat, tags: map<string, real>)
    requires k <= |names| && forall i :: 0 <= i < |names| ==> names[i] in tags && tags[names[i]] == 0.0
    ensures Zeroed(names, k, tags) == tags
  {
    if k > 0 {
      ZeroedAgain(names, k - 1, tags);
    }
  }

  lemma {:induction false} PrescribedAt(recipe: Recipe, k: nat, tags: map<string, real>, i: nat)
    requires i < k <= |recipe| && forall a, b :: 0 <= a < b < |recipe| ==> recipe[a].0 != recipe[b].0
    ensures recipe[i].0 in Prescribed(recipe, k, tags) && Prescribed(recipe, k, tags)[recipe[i].0] == recipe[i].1
  {
    if i + 1 < k {
      PrescribedAt(recipe, k - 1, tags, i);
    }
  }

  lemma {:induction false} PrescribedAgain(recipe: Recipe, k: nat, tags: map<string, real>)
    requires k <= |recipe| && forall i :: 0 <= i < |recipe| ==> recipe[i].0 in tags && tags[recipe[i].0] == recipe[i].1
    ensures Prescribed(recipe, k, tags) == tags
  {
    if k > 0 {
      PrescribedAgain(recipe, k - 1, tags);
    }
  }

  lemma {:induction false} AllKnown(recipe: Recipe, k: nat, tags: map<string, real>)
    requires k <= |recipe| && forall i :: 0 <= i < |recipe| ==> recipe[i].0 in tags
    ensures KnownPrefix(recipe, k, tags) == |recipe|
    decreases |recipe| - k
  {
    if k < |recipe| {
      AllKnown(recipe, k + 1, tags);
    }
  }

  /** An action that returned normally commanded every output it is responsible for. */
  lemma ActuateCommands(seam: Seam, action: SafeAction, optIn: bool, published: bool, p: Plant)
    requires DistinctTargets(seam) && Actuate(seam, action, optIn, published, p).1
    ensures Commanded(seam, action, Actuate(seam, action, optIn, published, p).0.tags)
  {
    match action
    case HoldLast =>
    case ForceZero => ZeroedAt(seam.outputs, |seam.outputs|, p.tags);
    case Recipe(name) =>
      var recipe := seam.recipes[name];
      forall i | 0 <= i < |recipe|
        ensures recipe[i].0 in Prescribed(recipe, |recipe|, p.tags)
          && Prescribed(recipe, |recipe|, p.tags)[recipe[i].0] == recipe[i].1
      {
        PrescribedAt(recipe, |recipe|, p.tags, i);
      }
  }

  /** Applying the action to outputs it already commanded changes no tag, even when the call throws. */
  lemma ActuateIdempotent(seam: Seam, action: SafeAction, optIn: bool, published: bool, p: Plant)
    requires Commanded(seam, action, p.tags)
    ensures Actuate(seam, action, optIn, published, p).0.tags == p.tags
    ensures Actuate(seam, action, optIn, published, p).0.halted == p.halted
  {
    match action
    case HoldLast =>
    case ForceZero => ZeroedAgain(seam.outputs, |seam.outputs|, p.tags);
    case Recipe(name) =>
      var recipe := seam.recipes[name];
      AllKnown(recipe, 0, p.tags);
      PrescribedAgain(recipe, |recipe|, p.tags);
  }

  /** On a plant that has the output tags, a fitting action throws exactly when one of its guards refuses it. */
  lemma ThrowsExactlyWhenRefused(seam: Seam, action: SafeAction, optIn: bool, published: bool, p: Plant)
    requires Fits(seam, action) && forall i :: 0 <= i < |seam.outputs| ==> seam.outputs[i] in p.tags
    ensures Actuate(seam, action, optIn, published, p).1 <==> !Refused(seam, action, optIn, published)
  {
    if action.Recipe? {
      AllKnown(seam.recipes[action.name], 0, p.tags);
    }
  }

  /** An action that registration accepted cannot throw, on any plant that has the output tags, unless a
      bound sink does. */
  lemma CanApplyNeverThrows(seam: Seam, action: SafeAction, optIn: bool, published: bool, p: Plant)
    requires CanApply(seam, action, optIn) && (!seam.sinkBound || published)
    requires forall i :: 0 <= i < |seam.outputs| ==> seam.outputs[i] in p.tags
    ensures Actuate(seam, action, optIn, published, p).1
  {
    ThrowsExactlyWhenRefused(seam, action, optIn, published, p);
  }

  lemma {:induction false} PrescribedKeys(recipe: Recipe, k: nat, tags: map<string, real>)
    requires k <= |recipe| && forall i :: 0 <= i < k ==> recipe[i].0 in tags
    ensures Prescribed(recipe, k, tags).Keys == tags.Keys
  {
    if k > 0 {
      PrescribedKeys(recipe, k - 1, tags);
    }
  }

  lemma {:induction false} PrefixKnown(recipe: Recipe, k: nat, tags: map<string, real>)
    requires k <= |recipe|
    ensures forall i :: k <= i < KnownPrefix(recipe, k, tags) ==> recipe[i].0 in tags
    decreases |recipe| - k
  {
    if k < |recipe| && recipe[k].0 in tags {
      PrefixKnown(recipe, k + 1, tags);
    }
  }

  lemma ActuateKeepsKeys(seam: Seam, action: SafeAction, optIn: bool, published: bool, p: Plant)
    requires forall i :: 0 <= i < |seam.outputs| ==> seam.outputs[i] in p.tags
    ensures Actuate(seam, action, optIn, published, p).0.tags.Keys == p.tags.Keys
  {
    match action
    case HoldLast =>
    case ForceZero => ZeroedAt(seam.outputs, |seam.outputs|, p.tags);
    case Recipe(name) =>
      if name in seam.recipes {
        var recipe := seam.recipes[name];
        PrefixKnown(recipe, 0, p.tags);
        PrescribedKeys(recipe, KnownPrefix(recipe, 0, p.tags), p.tags);
      }
  }

  // ----- the actuator over a real runtime -----

  function OutputNames(tags: seq<TagDescriptor>, k: nat): seq<string>
    requires k <= |tags|
  {
    if k == 0 then []
    else OutputNames(tags, k - 1) + if tags[k - 1].direction == Output then [tags[k - 1].name] else []
  }

  lemma {:induction false} OutputNamesDeclared(tags: seq<TagDescriptor>, k: nat)
    requires k <= |tags|
    ensures forall n :: n in OutputNames(tags, k) <==>
      exists i :: 0 <= i < k && tags[i].name == n && tags[i].direction == Output
  {
    if k > 0 {
      OutputNamesDeclared(tags, k - 1);
    }
  }

  class BlueprintRuntimeActuator {
    const runtime: BlueprintRuntime
    const seam: Seam
    var halted: bool
    var outputMode: OutputMode
    var heldOutputs: Option<map<string, real>>

    ghost predicate Valid()
      reads this, runtime`store, runtime.tagBuffer, runtime.stateBuffer
    {
      && runtime.Valid()
      && forall i :: 0 <= i < |seam.outputs| ==> Declared(runtime.def.tags, seam.outputs[i])
    }

    ghost function State(): Plant
      reads this, runtime`store
    {
      Plant(halted, outputMode, heldOutputs, runtime.store.tags)
    }

    constructor (runtime: BlueprintRuntime, recipes: map<string, Recipe>, sinkBound: bool)
      requires runtime.Valid()
      ensures Valid() && this.runtime == runtime
      ensures seam == Seam(OutputNames(runtime.def.tags, |runtime.def.tags|), recipes, sinkBound)
      ensures State() == Plant(false, LoopMode, None, runtime.store.tags)
    {
      OutputNamesDeclared(runtime.def.tags, |runtime.def.tags|);
      var tags := runtime.program.tagMeta;
      var names: seq<string> := [];
      for i := 0 to |tags|
        invariant names == OutputNames(tags, i)
      {
        if tags[i].direction == Output {
          names := names + [tags[i].name];
        }
      }
      forall i | 0 <= i < |names| ensures Declared(runtime.def.tags, names[i]) {
        assert names[i] in OutputNames(runtime.def.tags, |runtime.def.tags|);
      }
      this.runtime := runtime;
      seam := Seam(names, recipes, sinkBound);
      halted, outputMode, heldOutputs := false, LoopMode, None;
    }

    /** Registration's check; it reads only. */
    method AssertCanApply(action: SafeAction, optIn: bool) returns (accepted: bool)
      ensures accepted == CanApply(seam, action, optIn)
    {
      match action
      case HoldLast => accepted := true;
      case ForceZero => accepted := optIn && |seam.outputs| != 0;
      case Recipe(name) =>
        if name !in seam.recipes || !optIn {
          return false;
        }
        var recipe := seam.recipes[name];
        for i := 0 to |recipe|
          invariant forall j :: 0 <= j < i ==> recipe[j].0 in seam.outputs
        {
          if recipe[i].0 !in seam.outputs {
            return false;
          }
        }
        accepted := true;
    }

    method Halt()
      requires Valid()
      modifies this
      ensures Valid() && State() == old(State()).(halted := true)
    {
      halted := true;
    }

    method Resume()
      requires Valid()
      modifies this
      ensures Valid() && State() == old(State()).(halted := false, mode := LoopMode, held := None)
    {
      halted, outputMode, heldOutputs := false, LoopMode, None;
    }

    method HoldLastOutputs(published: bool) returns (ok: bool)
      requires Valid()
      modifies this
      ensures Valid() && (State(), ok) == Actuate(seam, HoldLast, false, published, old(State()))
    {
      var held := ReadOutputs();
      heldOutputs, outputMode := Some(held), HoldLastMode;
      ok := !seam.sinkBound || published;
    }

    method ReadOutputs() returns (values: map<string, real>)
      requires Valid()
      ensures values == Snapshot(seam.outputs, runtime.store.tags)
    {
      values := map[];
      for i := 0 to |seam.outputs|
        invariant forall n :: n in values <==> exists j :: 0 <= j < i && seam.outputs[j] == n
        invariant forall n :: n in values ==> n in runtime.store.tags && values[n] == runtime.store.tags[n]
      {
        IndexedIsDeclared(runtime.def.tags, runtime.program.tagIndex, seam.outputs[i]);
        var v := runtime.Get(seam.outputs[i]);
        values := values[seam.outputs[i] := v.value];
      }
    }

    /** Write 0 to every output tag. */
    method WriteZeros() returns (zeros: map<string, real>)
      requires Valid()
      modifies runtime`store, runtime.tagBuffer
      ensures Valid() && zeros == Zeroed(seam.outputs, |seam.outputs|, map[])
      ensures runtime.store.tags == Zeroed(seam.outputs, |seam.outputs|, old(runtime.store.tags))
    {
      zeros := map[];
      for i := 0 to |seam.outputs|
        invariant Valid()
        invariant runtime.store.tags == Zeroed(seam.outputs, i, old(runtime.store.tags))
        invariant zeros == Zeroed(seam.outputs, i, map[])
      {
        var _ := runtime.SetTag(seam.outputs[i], 0.0);
        zeros := zeros[seam.outputs[i] := 0.0];
      }
    }

    method ForceZeroOutputs(optIn: bool, published: bool) returns (ok: bool)
      requires Valid()
      modifies this, runtime`store, runtime.tagBuffer
      ensures Valid() && (State(), ok) == Actuate(seam, ForceZero, optIn, published, old(State()))
    {
      if !optIn {
        return false;
      }
      var zeros := WriteZeros();
      heldOutputs, outputMode := Some(zeros), ForceZeroMode;
      ok := !seam.sinkBound || published;
    }

    /** Write the recipe's values in order, up to the first name that is not a tag. */
    method WriteRecipe(recipe: Recipe) returns (known: bool, applied: map<string, real>)
      requires Valid()
      modifies runtime`store, runtime.tagBuffer
      ensures Valid() && (known <==> KnownPrefix(recipe, 0, old(runtime.store.tags)) == |recipe|)
      ensures runtime.store.tags ==
        Prescribed(recipe, KnownPrefix(recipe, 0, old(runtime.store.tags)), old(runtime.store.tags))
      ensures known ==> applied == Prescribed(recipe, |recipe|, map[])
    {
      ghost var tags := runtime.store.tags;
      applied := map[];
      for i := 0 to |recipe|
        invariant Valid() && runtime.store.tags == Prescribed(recipe, i, tags)
        invariant applied == Prescribed(recipe, i, map[])
        invariant runtime.store.tags.Keys == tags.Keys
        invariant KnownPrefix(recipe, 0, tags) == KnownPrefix(recipe, i, tags)
      {
        IndexedIsDeclared(runtime.def.tags, runtime.program.tagIndex, recipe[i].0);
        known := runtime.SetTag(recipe[i].0, recipe[i].1);
        if !known {
          return;
        }
        applied := applied[recipe[i].0 := recipe[i].1];
      }
      known := true;
    }

    method ApplySafeRecipe(name: string, optIn: bool, published: bool) returns (ok: bool)
      requires Valid()
      modifies this, runtime`store, runtime.tagBuffer
      ensures Valid() && (State(), ok) == Actuate(seam, Recipe(name), optIn, published, old(State()))
    {
      if name !in seam.recipes || !optIn {
        return false;
      }
      var known, applied := WriteRecipe(seam.recipes[name]);
      if !known {
        return false;
      }
      heldOutputs, outputMode := Some(applied), RecipeMode;
      ok := !seam.sinkBound || published;
    }
  }
}
