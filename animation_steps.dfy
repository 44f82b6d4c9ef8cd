/**
 * The animation editor dialog: a working copy of one animation whose step
 * list is edited in place (add, remove, move up, move down, renumber) with
 * one selected row, and a form whose values are read back on OK.
 */
module AnimationEditor {
  import opened Wrappers
  import opened Text
  import opened Data

  /** A new step: nothing switched, one loop after each phase. */
  function DefaultStep(n: int): (s: AnimationStep)
    ensures s.step == n && s.on == "" && s.off == ""
    ensures s.waitLoopsAfterOn == 1 && s.waitLoopsAfterOff == 1 && s.pulseSwitch == 0
  {
    AnimationStep(n, "", "", 1, 1, 0)
  }

  /** `createDefaultAnimation`: the given name, the documented defaults, and a single step 1. */
  function DefaultAnimation(name: string): (a: Animation)
    ensures a.name == name && |a.steps| == 1 && a.steps[0] == DefaultStep(1)
    ensures a.dualMode == Both && a.interval == 100 && a.loops == 0 && a.idJoin == ""
    ensures a.lightAtStart == NoChange && a.lightAtEnd == NoChange && a.animationStopBehaviour == Immediate
    ensures a.randomQuality == 50
    ensures !a.startAnimationAtRomStart && !a.lockAtLastStep && !a.hideAtStart && !a.bringToFront && !a.randomStart
  {
    Animation(name, Both, 100, 0, "", false, NoChange, NoChange, Immediate,
              false, false, false, false, 50, [DefaultStep(1)])
  }

  // ---------------------------------------------------------------------
  // The step list, as values

  /** Every step is numbered by its position, from 1. */
  predicate IsNumbered(steps: seq<AnimationStep>)
  {
    forall i :: 0 <= i < |steps| ==> steps[i].step == i + 1
  }

  /** What `renumberSteps` leaves: the same steps, numbered by position. */
  function Numbered(steps: seq<AnimationStep>): (r: seq<AnimationStep>)
    ensures |r| == |steps| && IsNumbered(r)
    ensures forall i :: 0 <= i < |r| ==> r[i].(step := steps[i].step) == steps[i]
  {
    seq(|steps|, i requires 0 <= i < |steps| => steps[i].(step := i + 1))
  }

  /** The list with positions `i` and `j` exchanged. */
  function Swap(steps: seq<AnimationStep>, i: nat, j: nat): (r: seq<AnimationStep>)
    requires i < |steps| && j < |steps|
    ensures |r| == |steps| && r[i] == steps[j] && r[j] == steps[i]
    ensures forall k :: 0 <= k < |r| && k != i && k != j ==> r[k] == steps[k]
    ensures multiset(r) == multiset(steps)
  {
    steps[i := steps[j]][j := steps[i]]
  }

  /** The list without position `i` (`splice(i, 1)`). */
  function Without(steps: seq<AnimationStep>, i: nat): (r: seq<AnimationStep>)
    requires i < |steps|
    ensures |r| == |steps| - 1
    ensures forall k :: 0 <= k < |r| ==> r[k] == (if k < i then steps[k] else steps[k + 1])
  {
    steps[..i] + steps[i + 1..]
  }

  /** Renumbering a numbered list changes nothing. */
  lemma NumberedKeepsNumbered(steps: seq<AnimationStep>)
    requires IsNumbered(steps)
    ensures Numbered(steps) == steps
  {
  }

  /** Numbering only depends on the other fields: renumbering twice is renumbering once. */
  lemma NumberedIdempotent(steps: seq<AnimationStep>)
    ensures Numbered(Numbered(steps)) == Numbered(steps)
  {
    NumberedKeepsNumbered(Numbered(steps));
  }

  /** Appending the default step `n + 1` keeps a numbered list numbered. */
  lemma AddKeepsNumbered(steps: seq<AnimationStep>)
    requires IsNumbered(steps)
    ensures IsNumbered(steps + [DefaultStep(|steps| + 1)])
  {
  }

  /** Moving a step up and then down again restores the renumbered list. */
  lemma MoveUpThenDown(steps: seq<AnimationStep>, i: nat)
    requires 0 < i < |steps|
    ensures Numbered(Swap(Numbered(Swap(steps, i - 1, i)), i - 1, i)) == Numbered(steps)
  {
    var a := Numbered(Swap(steps, i - 1, i));
    var b := Numbered(Swap(a, i - 1, i));
    forall k | 0 <= k < |steps|
      ensures b[k] == Numbered(steps)[k]
    {
      if k == i - 1 {
        assert b[k] == a[i].(step := k + 1);
      } else if k == i {
        assert b[k] == a[i - 1].(step := k + 1);
      }
    }
  }

  // ---------------------------------------------------------------------
  // The form

  /** `parseInt(s, 10) || d`: no number, and also 0, give the default. */
  function IntOr(s: string, d: int): (r: int)
    ensures ParseInt(s).None? ==> r == d
    ensures ParseInt(s) == Some(0) ==> r == d
    ensures ParseInt(s).Some? && ParseInt(s).value != 0 ==> r == ParseInt(s).value
  {
    match ParseInt(s)
    case None => d
    case Some(v) => if v != 0 then v else d
  }

  /** The dialog's input fields, as the user left them. */
  datatype Form = Form(
    name: string,
    interval: string,
    loops: string,
    dualMode: DualMode,
    idJoin: string,
    startAnimationAtRomStart: bool,
    lightAtStart: LightState,
    lightAtEnd: LightState,
    animationStopBehaviour: StopBehaviour,
    lockAtLastStep: bool,
    hideAtStart: bool,
    bringToFront: bool,
    randomStart: bool,
    randomQuality: string)

  /**
   * `collectFormData`: the working copy's steps with every other field
   * read from the form; names are trimmed and numbers fall back to 100,
   * 0 and 50.
   */
  function CollectForm(a: Animation, f: Form): (r: Animation)
    ensures r.steps == a.steps
    ensures r.name == Trim(f.name) && r.idJoin == Trim(f.idJoin)
    ensures r.interval == IntOr(f.interval, 100) && r.loops == IntOr(f.loops, 0)
    ensures r.randomQuality == IntOr(f.randomQuality, 50)
    ensures r.dualMode == f.dualMode && r.lightAtStart == f.lightAtStart && r.lightAtEnd == f.lightAtEnd
  {
    Animation(Trim(f.name), f.dualMode, IntOr(f.interval, 100), IntOr(f.loops, 0), Trim(f.idJoin),
              f.startAnimationAtRomStart, f.lightAtStart, f.lightAtEnd, f.animationStopBehaviour,
              f.lockAtLastStep, f.hideAtStart, f.bringToFront, f.randomStart,
              IntOr(f.randomQuality, 50), a.steps)
  }

  /** What OK hands to `onSave`: the collected animation and whether it is new. */
  datatype SaveRequest = SaveRequest(animation: Animation, isNew: bool)

  // ---------------------------------------------------------------------
  // The dialog

  class StepEditor {
    var current: Option<Animation>
    var isNew: bool
    /** The selected row, -1 for none. */
    var selected: int

    /** The selection is a row of the working copy, or -1. */
    predicate Valid()
      reads this
    {
      && (current.None? ==> selected == -1)
      && (current.Some? ==> -1 <= selected < |current.value.steps|)
    }

    function Steps(): seq<AnimationStep>
      reads this
    {
      if current.Some? then current.value.steps else []
    }

    /** `updateButtons`: whether Remove, Move up and Move down are enabled. */
    predicate CanRemove()
      reads this
    {
      selected >= 0 && |Steps()| > 1
    }

    predicate CanMoveUp()
      reads this
    {
      selected > 0
    }

    predicate CanMoveDown()
      reads this
    {
      current.Some? && selected >= 0 && selected < |Steps()| - 1
    }

    constructor()
      ensures Valid() && current.None? && !isNew
    {
      current, isNew, selected := None, false, -1;
    }

    /** `setAnimation`: a copy to edit, with the first row selected when there is one. */
    method SetAnimation(a: Option<Animation>, isNewAnimation: bool)
      modifies this
      ensures Valid()
      ensures current == a && isNew == isNewAnimation
      ensures selected == if a.Some? && |a.value.steps| > 0 then 0 else -1
    {
      current := a;
      isNew := isNewAnimation;
      selected := if a.Some? && |a.value.steps| > 0 then 0 else -1;
    }

    /** `selectStep`: a click on a rendered row. */
    method SelectStep(index: int)
      requires current.Some? && 0 <= index < |current.value.steps|
      modifies this`selected
      ensures Valid() && selected == index
    {
      selected := index;
    }

    /** `addStep`: append the default step numbered one past the end, and select it. */
    method AddStep()
      requires Valid()
      modifies this`current, this`selected
      ensures Valid()
      ensures old(current).None? ==> current == old(current) && selected == old(selected)
      ensures old(current).Some? ==>
        && current == Some(old(current).value.(steps := old(Steps()) + [DefaultStep(|old(Steps())| + 1)]))
        && selected == |old(Steps())|
    {
      if current.None? {
        return;
      }
      var a := current.value;
      current := Some(a.(steps := a.steps + [DefaultStep(|a.steps| + 1)]));
      selected := |a.steps|;
    }

    /** `renumberSteps`: each step gets its position, from 1. */
    method RenumberSteps()
      modifies this`current
      ensures old(current).None? ==> current == old(current)
      ensures old(current).Some? ==> current == Some(old(current).value.(steps := Numbered(old(Steps()))))
    {
      if current.None? {
        return;
      }
      var a := current.value;
      var steps := a.steps;
      var i := 0;
      while i < |steps|
        invariant 0 <= i <= |steps| && |steps| == |a.steps|
        invariant forall k :: 0 <= k < i ==> steps[k] == a.steps[k].(step := k + 1)
        invariant forall k :: i <= k < |steps| ==> steps[k] == a.steps[k]
      {
        steps := steps[i := steps[i].(step := i + 1)];
        i := i + 1;
      }
      assert steps == Numbered(a.steps);
      current := Some(a.(steps := steps));
    }

    /**
     * `removeStep`: with a selection and more than one step, splice out the
     * selected step, renumber, and keep the selection on the same row or
     * the new last one.
     */
    method RemoveStep()
      requires Valid()
      modifies this`current, this`selected
      ensures Valid()
      ensures !old(CanRemove()) ==> current == old(current) && selected == old(selected)
      ensures old(CanRemove()) ==>
        && current == Some(old(current).value.(steps := Numbered(Without(old(Steps()), old(selected)))))
        && selected == if old(selected) < |old(Steps())| - 1 then old(selected) else |old(Steps())| - 2
    {
      if current.None? || selected < 0 || |current.value.steps| <= 1 {
        return;
      }
      var a := current.value;
      current := Some(a.(steps := Without(a.steps, selected)));
      RenumberSteps();
      if selected >= |current.value.steps| {
        selected := |current.value.steps| - 1;
      }
    }

    /** `moveStepUp`: swap the selected step with the one above, follow it, renumber. */
    method MoveStepUp()
      requires Valid()
      modifies this`current, this`selected
      ensures Valid()
      ensures !old(CanMoveUp()) || old(current).None? ==> current == old(current) && selected == old(selected)
      ensures old(CanMoveUp()) && old(current).Some? ==>
        && current == Some(old(current).value.(steps := Numbered(Swap(old(Steps()), old(selected) - 1, old(selected)))))
        && selected == old(selected) - 1
    {
      if current.None? || selected <= 0 {
        return;
      }
      var a := current.value;
      current := Some(a.(steps := Swap(a.steps, selected - 1, selected)));
      selected := selected - 1;
      RenumberSteps();
    }

    /** `moveStepDown`: swap the selected step with the one below, follow it, renumber. */
    method MoveStepDown()
      requires Valid()
      modifies this`current, this`selected
      ensures Valid()
      ensures !old(CanMoveDown()) ==> current == old(current) && selected == old(selected)
      ensures old(CanMoveDown()) ==>
        && current == Some(old(current).value.(steps := Numbered(Swap(old(Steps()), old(selected), old(selected) + 1))))
        && selected == old(selected) + 1
    {
      if current.None? || selected < 0 || selected >= |current.value.steps| - 1 {
        return;
      }
      var a := current.value;
      current := Some(a.(steps := Swap(a.steps, selected, selected + 1)));
      selected := selected + 1;
      RenumberSteps();
    }

    /** The OK button: `onSave` fires only with a working copy and a non-blank name. */
    method Ok(f: Form) returns (request: Option<SaveRequest>)
      ensures request.Some? <==> current.Some? && Trim(f.name) != ""
      ensures request.Some? ==> request.value == SaveRequest(CollectForm(current.value, f), isNew)
    {
      if current.None? {
        return None;
      }
      var a := CollectForm(current.value, f);
      if a.name != "" {
        return Some(SaveRequest(a, isNew));
      }
      return None;
    }

    /** The Delete button: `onDelete` gets the name, for an animation that is not new. */
    method Delete() returns (name: Option<string>)
      ensures name.Some? <==> current.Some? && !isNew
      ensures name.Some? ==> name.value == current.value.name
    {
      if current.Some? && !isNew {
        return Some(current.value.name);
      }
      return None;
    }
  }
}
