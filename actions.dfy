/** Action engine (js/actions.js): applying an action template's effects to
    the stats, and the template list operations. */
module Actions {
  import opened Wrappers
  import opened Stats
  import Seqs

  /** One stat delta of an action template. */
  datatype Effect = Effect(statId: string, value: int)

  datatype Action = Action(id: string, name: string, icon: string, effects: seq<Effect>)

  /** An effect that found its stat, as recorded in `appliedEffects`. */
  datatype AppliedEffect = AppliedEffect(statId: string, statName: string, value: int)

  /** What `executeAction` returns on success. */
  datatype ActionResult = ActionResult(action: Action, effects: seq<AppliedEffect>)

  /** One iteration of the `forEach` in `executeAction`: the effect's stat found
      by id gets the clamped delta and the effect is reported with the stat's name;
      an effect on an unknown stat does nothing. */
  function ApplyEffect(stats: seq<Stat>, e: Effect): (seq<Stat>, seq<AppliedEffect>)
  {
    match FindStat(stats, e.statId)
    case None => (stats, [])
    case Some(i) => (Credited(stats, i, e.value), [AppliedEffect(e.statId, stats[i].name, e.value)])
  }

  /** The stats and `appliedEffects` after the effects, applied in order. */
  function ApplyEffects(stats: seq<Stat>, effects: seq<Effect>): (seq<Stat>, seq<AppliedEffect>)
    decreases |effects|
  {
    if |effects| == 0 then (stats, [])
    else
      var (s, a) := ApplyEffects(stats, effects[..|effects| - 1]);
      var (s2, a2) := ApplyEffect(s, effects[|effects| - 1]);
      (s2, a + a2)
  }

  /** The `forEach` loop of `executeAction`: each effect in turn is looked up and
      applied to the working copy of the stats, and reported when its stat exists. */
  method ApplyActionEffects(stats: seq<Stat>, effects: seq<Effect>) returns (current: seq<Stat>, applied: seq<AppliedEffect>)
    ensures (current, applied) == ApplyEffects(stats, effects)
  {
    current, applied := stats, [];
    var i := 0;
    while i < |effects|
      invariant 0 <= i <= |effects|
      invariant (current, applied) == ApplyEffects(stats, effects[..i])
    {
      var e := effects[i];
      ghost var step := ApplyEffect(current, e);
      ghost var appliedBefore := applied;
      var target := FindStat(current, e.statId);
      if target.Some? {
        var j := target.value;
        assert step == (Credited(current, j, e.value), [AppliedEffect(e.statId, current[j].name, e.value)]);
        applied := applied + [AppliedEffect(e.statId, current[j].name, e.value)];
        current := current[j := current[j].(value := ClampedAdd(current[j].value, e.value))];
        assert current == step.0;
        assert applied == appliedBefore + step.1;
      } else {
        assert step == (current, []);
        assert appliedBefore + step.1 == applied;
      }
      assert (current, applied) == (step.0, appliedBefore + step.1);
      assert effects[..i + 1][..i] == effects[..i];
      assert effects[..i + 1][i] == e;
      i := i + 1;
    }
    assert effects[..|effects|] == effects;
  }

  /** Two stat lists that agree on everything but the values. */
  predicate SameShape(a: seq<Stat>, b: seq<Stat>) {
    |a| == |b| &&
    forall j :: 0 <= j < |a| ==> a[j] == b[j].(value := a[j].value)
  }

  /** Applying effects changes stat values only: the ids, names, icons, ranks,
      thresholds and the order of the stats stay as they were. */
  lemma {:induction false} ApplyEffectsKeepsShape(stats: seq<Stat>, effects: seq<Effect>)
    ensures SameShape(ApplyEffects(stats, effects).0, stats)
    decreases |effects|
  {
    if |effects| > 0 {
      ApplyEffectsKeepsShape(stats, effects[..|effects| - 1]);
    }
  }

  /** Finding a stat by id only looks at ids, so it gives the same answer on lists
      of the same shape. */
  lemma FindStatSameShape(a: seq<Stat>, b: seq<Stat>, statId: string)
    requires SameShape(a, b)
    ensures FindStat(a, statId) == FindStat(b, statId)
  {
    var ra, rb := FindStat(a, statId), FindStat(b, statId);
    assert forall j :: 0 <= j < |a| ==> a[j].id == b[j].id;
  }

  /** The effects whose stat id resolves in `stats`, reported with that stat's
      name, in the order of the template. */
  function Resolved(stats: seq<Stat>, effects: seq<Effect>): seq<AppliedEffect>
    decreases |effects|
  {
    if |effects| == 0 then []
    else
      var e := effects[|effects| - 1];
      Resolved(stats, effects[..|effects| - 1]) +
      match FindStat(stats, e.statId)
      case None => []
      case Some(i) => [AppliedEffect(e.statId, stats[i].name, e.value)]
  }

  /** `appliedEffects` lists exactly the effects whose stat exists, in order, with
      the stat's name; effects on unknown stats are skipped. */
  lemma {:induction false} AppliedEffectsAreResolved(stats: seq<Stat>, effects: seq<Effect>)
    ensures ApplyEffects(stats, effects).1 == Resolved(stats, effects)
    decreases |effects|
  {
    if |effects| > 0 {
      var prefix := effects[..|effects| - 1];
      AppliedEffectsAreResolved(stats, prefix);
      ApplyEffectsKeepsShape(stats, prefix);
      var s := ApplyEffects(stats, prefix).0;
      FindStatSameShape(s, stats, effects[|effects| - 1].statId);
    }
  }

  /** Stats that no effect names keep their record unchanged. */
  lemma {:induction false} ApplyEffectsLeavesOthers(stats: seq<Stat>, effects: seq<Effect>, j: nat)
    requires j < |stats|
    requires forall k :: 0 <= k < |effects| ==> effects[k].statId != stats[j].id
    ensures |ApplyEffects(stats, effects).0| == |stats|
    ensures ApplyEffects(stats, effects).0[j] == stats[j]
    decreases |effects|
  {
    if |effects| > 0 {
      var prefix := effects[..|effects| - 1];
      ApplyEffectsLeavesOthers(stats, prefix, j);
      ApplyEffectsKeepsShape(stats, prefix);
    }
  }

  /** No stat an effect touched is negative afterwards; the others are as before. */
  lemma {:induction false} ApplyEffectsClamps(stats: seq<Stat>, effects: seq<Effect>)
    ensures var s := ApplyEffects(stats, effects).0;
      |s| == |stats| && forall j :: 0 <= j < |s| ==> s[j] == stats[j] || s[j].value >= 0
    decreases |effects|
  {
    if |effects| > 0 {
      ApplyEffectsClamps(stats, effects[..|effects| - 1]);
      ApplyEffectsKeepsShape(stats, effects[..|effects| - 1]);
    }
  }

  /** Effects on the same stat apply one after the other, each clamped at zero:
      at value 3, the deltas -5 then +2 give 2, not 0. */
  lemma SequentialClampExample()
    ensures var st := Stat("guts", "G", 3, "", None, None);
      ApplyEffects([st], [Effect("guts", -5), Effect("guts", 2)]) ==
        ([st.(value := 2)], [AppliedEffect("guts", "G", -5), AppliedEffect("guts", "G", 2)])
  {
    var st := Stat("guts", "G", 3, "", None, None);
    var e1, e2 := Effect("guts", -5), Effect("guts", 2);
    var effects := [e1, e2];
    assert effects[..1] == [e1] && [e1][..0] == [];
    assert FindStat([st], e1.statId) == Some(0);
    assert ApplyEffect([st], e1).0 == Credited([st], 0, -5) == [st.(value := 0)];
    assert ApplyEffects([st], [e1]).0 == [st.(value := 0)];
    assert ApplyEffects([st], [e1]).1 == [AppliedEffect("guts", "G", -5)];
    assert FindStat([st.(value := 0)], e2.statId) == Some(0);
    assert ApplyEffect([st.(value := 0)], e2).0 == Credited([st.(value := 0)], 0, 2) == [st.(value := 2)];
    assert ApplyEffect([st.(value := 0)], e2).1 == [AppliedEffect("guts", "G", 2)];
    assert ApplyEffects([st], effects).0 == [st.(value := 2)];
    assert ApplyEffects([st], effects).1 == [AppliedEffect("guts", "G", -5), AppliedEffect("guts", "G", 2)];
  }

  /** Index of the template `actions.find(a => a.id === actionId)` finds. */
  function FindAction(actions: seq<Action>, actionId: string): (r: Option<nat>)
    ensures r.Some? ==> r.value < |actions| && actions[r.value].id == actionId
    ensures r.Some? ==> forall j :: 0 <= j < r.value ==> actions[j].id != actionId
    ensures r.None? <==> forall j :: 0 <= j < |actions| ==> actions[j].id != actionId
  {
    Seqs.FindFirst((a: Action) => a.id == actionId, actions)
  }

  /** `updateAction` on the template at index `i`: new name, icon and effects,
      same id and position, everything else unchanged. */
  function Updated(actions: seq<Action>, i: nat, name: string, icon: string, effects: seq<Effect>): (r: seq<Action>)
    requires i < |actions|
    ensures |r| == |actions|
    ensures r[i] == Action(actions[i].id, name, icon, effects)
    ensures forall j :: 0 <= j < |actions| && j != i ==> r[j] == actions[j]
  {
    actions[i := actions[i].(name := name, icon := icon, effects := effects)]
  }

  /** `deleteAction`: every template with that id removed, the rest kept in order. */
  function WithoutAction(actions: seq<Action>, actionId: string): (r: seq<Action>)
    ensures Seqs.Subsequence(r, actions)
    ensures forall j :: 0 <= j < |r| ==> r[j].id != actionId
    ensures forall j :: 0 <= j < |actions| && actions[j].id != actionId ==> actions[j] in r
    ensures forall x :: multiset(r)[x] == if x.id != actionId then multiset(actions)[x] else 0
  {
    var keep := (a: Action) => a.id != actionId;
    Seqs.FilterCounts(keep, actions);
    Seqs.Filter(keep, actions)
  }
}
