/**
 * The breeding form: two selects over the player's wizards of level 5 or
 * more, each disabling the wizard chosen in the other, and a submit
 * button enabled only for two different chosen parents while nothing is
 * loading. A successful submit asks the context to breed the pair and
 * clears both selections.
 */
module BreedingForm {
  import opened Wrappers
  import opened Records

  /** The two selections; `None` is the `''` of the source. */
  datatype Form = Form(parent1: Option<nat>, parent2: Option<nat>)

  const EmptyForm: Form := Form(None, None)

  datatype Request = BreedWizards(wizard1Id: nat, wizard2Id: nat)

  /** A change of one of the two selects. */
  datatype Event = PickFirst(choice: Choice) | PickSecond(choice: Choice)

  const MinBreedingLevel: int := 5

  /** `wizards.filter(wizard => wizard.level >= 5)` */
  function Breedable(wizards: seq<Wizard>): (r: seq<Wizard>)
    ensures |r| <= |wizards|
    ensures forall w :: w in r <==> w in wizards && w.level >= MinBreedingLevel
  {
    if wizards == [] then []
    else
      var rest := Breedable(wizards[1..]);
      assert forall w :: w in wizards <==> w == wizards[0] || w in wizards[1..];
      if wizards[0].level >= MinBreedingLevel then [wizards[0]] + rest else rest
  }

  predicate NotEnoughWizards(wizards: seq<Wizard>) {
    |Breedable(wizards)| < 2
  }

  /** `setParent(Number(e.target.value))` as written: the placeholder's
      value `""` becomes the number 0. */
  function ChooseAsWritten(choice: Choice): Option<nat> {
    match choice
    case Placeholder => Some(0)
    case Chosen(id) => Some(id)
  }

  /** The evidently intended reading, as the structure cards do it:
      the placeholder clears the selection. */
  function Choose(choice: Choice): (r: Option<nat>)
    ensures r.None? <==> choice.Placeholder?
    ensures r.Some? ==> choice == Chosen(r.value)
  {
    match choice
    case Placeholder => None
    case Chosen(id) => Some(id)
  }

  function Apply(form: Form, e: Event): Form {
    match e
    case PickFirst(c) => form.(parent1 := Choose(c))
    case PickSecond(c) => form.(parent2 := Choose(c))
  }

  function ApplyAsWritten(form: Form, e: Event): Form {
    match e
    case PickFirst(c) => form.(parent1 := ChooseAsWritten(c))
    case PickSecond(c) => form.(parent2 := ChooseAsWritten(c))
  }

  /** The form after a sequence of select changes from a fresh form. */
  function Run(events: seq<Event>): Form {
    if events == [] then EmptyForm else Apply(Run(events[..|events| - 1]), events[|events| - 1])
  }

  function RunAsWritten(events: seq<Event>): Form {
    if events == [] then EmptyForm else ApplyAsWritten(RunAsWritten(events[..|events| - 1]), events[|events| - 1])
  }

  /** `disabled={wizard.id === other}` on each option. */
  predicate OptionDisabled(wizard: Wizard, other: Option<nat>) {
    other == Some(wizard.id)
  }

  /** The submit button's `disabled`. */
  predicate SubmitDisabled(form: Form, loading: bool) {
    loading || form.parent1.None? || form.parent2.None? || form.parent1 == form.parent2
  }

  /** `handleSubmit`: the request, if the guard passes, and the form after
      it. The context's `breedWizards` reports its own failures, so the
      selections are cleared after every request. */
  function HandleSubmit(form: Form): (r: (Option<Request>, Form))
    ensures r.0.Some? <==> !SubmitDisabled(form, false)
    ensures r.0.Some? ==> Some(r.0.value.wizard1Id) == form.parent1 && Some(r.0.value.wizard2Id) == form.parent2
    ensures r.1 == if r.0.Some? then EmptyForm else form
  {
    if form.parent1.Some? && form.parent2.Some? && form.parent1 != form.parent2 then
      (Some(BreedWizards(form.parent1.value, form.parent2.value)), EmptyForm)
    else (None, form)
  }

  // ---------------------------------------------------------------------
  // Properties

  /** Filtering keeps the order and splits over concatenation. */
  lemma {:induction false} BreedableAppend(a: seq<Wizard>, b: seq<Wizard>)
    ensures Breedable(a + b) == Breedable(a) + Breedable(b)
  {
    if a == [] {
      assert a + b == b;
    } else {
      assert (a + b)[1..] == a[1..] + b;
      BreedableAppend(a[1..], b);
    }
  }

  /** After a submit the button is disabled again, and a second submit
      sends nothing; while loading it is disabled whatever is chosen. */
  lemma SubmitResetsForm(form: Form)
    requires HandleSubmit(form).0.Some?
    ensures SubmitDisabled(HandleSubmit(form).1, false)
    ensures HandleSubmit(HandleSubmit(form).1).0.None?
    ensures SubmitDisabled(form, true)
  {
  }

  /** Choosing an enabled option of one select never makes the two
      parents equal. */
  lemma EnabledOptionKeepsParentsApart(form: Form, wizard: Wizard)
    ensures !OptionDisabled(wizard, form.parent2) ==> Apply(form, PickFirst(Chosen(wizard.id))).parent1 != form.parent2
    ensures !OptionDisabled(wizard, form.parent1) ==> Apply(form, PickSecond(Chosen(wizard.id))).parent2 != form.parent1
  {
  }

  /** With the intended reading, every selected parent is a wizard the
      player actually chose in that select. */
  lemma {:induction false} SelectedParentsWereChosen(events: seq<Event>)
    ensures Run(events).parent1.Some? ==> PickFirst(Chosen(Run(events).parent1.value)) in events
    ensures Run(events).parent2.Some? ==> PickSecond(Chosen(Run(events).parent2.value)) in events
  {
    if events != [] {
      var init := events[..|events| - 1];
      SelectedParentsWereChosen(init);
      assert events == init + [events[|events| - 1]];
    }
  }

  /** As written, picking a wizard and then the placeholder again leaves
      wizard 0 selected although it was never chosen, and the submit
      button is enabled for a pair with wizard 0 in it. */
  lemma PlaceholderSelectsWizardZero()
    ensures var events := [PickFirst(Chosen(3)), PickSecond(Chosen(4)), PickFirst(Placeholder)];
      RunAsWritten(events).parent1 == Some(0) && PickFirst(Chosen(0)) !in events &&
      !SubmitDisabled(RunAsWritten(events), false) &&
      HandleSubmit(RunAsWritten(events)).0 == Some(BreedWizards(0, 4))
  {
    var events := [PickFirst(Chosen(3)), PickSecond(Chosen(4)), PickFirst(Placeholder)];
    assert events[..2] == [PickFirst(Chosen(3)), PickSecond(Chosen(4))];
    assert events[..2][..1] == [PickFirst(Chosen(3))];
    assert events[..2][..1][..0] == [];
  }

  /** With the intended reading the same steps disable the button. */
  lemma PlaceholderClearsSelection()
    ensures var events := [PickFirst(Chosen(3)), PickSecond(Chosen(4)), PickFirst(Placeholder)];
      Run(events).parent1.None? && SubmitDisabled(Run(events), false) && HandleSubmit(Run(events)).0.None?
  {
    var events := [PickFirst(Chosen(3)), PickSecond(Chosen(4)), PickFirst(Placeholder)];
    assert events[..2] == [PickFirst(Chosen(3)), PickSecond(Chosen(4))];
  }
}
