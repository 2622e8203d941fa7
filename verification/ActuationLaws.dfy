/** What a safe action does to the plant besides commanding its outputs, and what registration accepts. */
module ActuationLaws {
  import opened Wrappers
  import opened Blueprint
  import opened Actuation

  lemma {:induction false} ZeroedElsewhere(names: seq<string>, k: nat, tags: map<string, real>, t: string)
    requires k <= |names| && t !in names
    ensures Val(Zeroed(names, k, tags), t) == Val(tags, t)
  {
    if k > 0 {
      ZeroedElsewhere(names, k - 1, tags, t);
    }
  }

  lemma {:induction false} PrescribedElsewhere(recipe: Recipe, k: nat, tags: map<string, real>, t: string)
    requires k <= |recipe| && forall i :: 0 <= i < |recipe| ==> recipe[i].0 != t
    ensures Val(Prescribed(recipe, k, tags), t) == Val(tags, t)
  {
    if k > 0 {
      PrescribedElsewhere(recipe, k - 1, tags, t);
    }
  }

  /** A fitting action moves no tag that is not an output, hold-last moves none at all, and an action refused for want
      of the opt-in leaves the whole plant as it was. */
  lemma OnlyOutputsMove(seam: Seam, action: SafeAction, optIn: bool, published: bool, p: Plant, t: string)
    requires Fits(seam, action)
    ensures t !in seam.outputs || action.HoldLast? ==>
      Val(Actuate(seam, action, optIn, published, p).0.tags, t) == Val(p.tags, t)
    ensures !action.HoldLast? && !optIn ==> Actuate(seam, action, optIn, published, p).0 == p
  {
    if t !in seam.outputs {
      match action
      case HoldLast =>
      case ForceZero => ZeroedElsewhere(seam.outputs, |seam.outputs|, p.tags, t);
      case Recipe(name) =>
        PrescribedElsewhere(seam.recipes[name], KnownPrefix(seam.recipes[name], 0, p.tags), p.tags, t);
    }
  }

  lemma {:induction false} PrescribedAgree(recipe: Recipe, k: nat, a: map<string, real>, b: map<string, real>,
      t: string)
    requires k <= |recipe| && exists i :: 0 <= i < k && recipe[i].0 == t
    ensures t in Prescribed(recipe, k, a) && t in Prescribed(recipe, k, b)
    ensures Prescribed(recipe, k, a)[t] == Prescribed(recipe, k, b)[t]
  {
    if recipe[k - 1].0 != t {
      PrescribedAgree(recipe, k - 1, a, b, t);
    }
  }

  lemma {:induction false} PrescribedNames(recipe: Recipe, k: nat, t: string)
    requires k <= |recipe| && t in Prescribed(recipe, k, map[])
    ensures exists i :: 0 <= i < k && recipe[i].0 == t
  {
    if recipe[k - 1].0 != t {
      PrescribedNames(recipe, k - 1, t);
    }
  }

  /** After an action that returned normally the held outputs are what the tags say, and the mode is the action's. */
  lemma HeldIsWhatIsThere(seam: Seam, action: SafeAction, optIn: bool, published: bool, p: Plant, t: string)
    requires Fits(seam, action) && Actuate(seam, action, optIn, published, p).1
    ensures var p' := Actuate(seam, action, optIn, published, p).0;
      && p'.held.Some? && (t in p'.held.value ==> t in p'.tags && p'.held.value[t] == p'.tags[t])
      && (p'.mode.HoldLastMode? <==> action.HoldLast?) && (p'.mode.ForceZeroMode? <==> action.ForceZero?)
      && (p'.mode.RecipeMode? <==> action.Recipe?)
  {
    match action
    case HoldLast =>
    case ForceZero =>
      ZeroedAt(seam.outputs, |seam.outputs|, p.tags);
      ZeroedAt(seam.outputs, |seam.outputs|, map[]);
    case Recipe(name) =>
      var recipe := seam.recipes[name];
      if t in Commands(recipe) {
        PrescribedNames(recipe, |recipe|, t);
        PrescribedAgree(recipe, |recipe|, map[], p.tags, t);
      }
  }

  /** Registration accepts exactly the actions that fit the output tags, have something to zero, and cannot throw on a
      plant that has the output tags while the sink works. */
  lemma AcceptedExactly(seam: Seam, action: SafeAction, optIn: bool, p: Plant)
    requires forall i :: 0 <= i < |seam.outputs| ==> seam.outputs[i] in p.tags
    ensures CanApply(seam, action, optIn) <==>
      Fits(seam, action) && (action.ForceZero? ==> seam.outputs != []) && Actuate(seam, action, optIn, true, p).1
  {
    if Fits(seam, action) {
      ThrowsExactlyWhenRefused(seam, action, optIn, true, p);
    }
  }
}
