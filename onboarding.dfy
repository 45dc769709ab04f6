/**
  The onboarding wizard of app/auth/onboarding/page.tsx: a seven-step form that
  keeps a step cursor, the answers collected so far and a loading flag. The
  answers are changed one field at a time or by toggling a value of one of the
  two multi-select lists; a per-step predicate decides whether the forward
  button is enabled; the terminal action raises the loading flag, waits, and
  navigates to the dashboard (saving the answers is still a TODO in the page, so
  the answers go nowhere).
*/
module Onboarding {
  import opened Wrappers

  const TotalSteps := 7

  // ---------------------------------------------------------------------------
  // The answers record

  /** The interface language ('sv' | 'en'). */
  datatype Locale = Sv | En {
    function Code(): string { match this case Sv => "sv" case En => "en" }
  }

  /** 'male' | 'female' | 'other', or '' while unanswered. */
  datatype GenderChoice = NoGender | Male | Female | OtherGender {
    function Code(): string
    {
      match this case NoGender => "" case Male => "male" case Female => "female" case OtherGender => "other"
    }
  }

  /** 'meal_plan' | 'workout_plan' | 'both', or '' while unanswered. */
  datatype PlanChoice = NoPlan | MealPlan | WorkoutPlan | BothPlans {
    function Code(): string
    {
      match this case NoPlan => "" case MealPlan => "meal_plan" case WorkoutPlan => "workout_plan" case BothPlans => "both"
    }
  }

  /** The page's OnboardingData; numbers are kept as the strings the inputs produce. */
  datatype OnboardingData = OnboardingData(
    language: Locale,
    gender: GenderChoice,
    age: string,
    weight: string,
    height: string,
    country: string,
    address: string,
    goals: seq<string>,
    workoutTypes: seq<string>,
    preferences: PlanChoice,
    allergies: string)

  /** The keys of OnboardingData. */
  datatype Field =
    | Language | Gender | Age | Weight | Height | Country | Address
    | Goals | WorkoutTypes | Preferences | Allergies
  {
    /** The two multi-select fields that toggleArrayValue accepts. */
    predicate IsList() { this == Goals || this == WorkoutTypes }
  }

  /** What one field holds. */
  datatype Value =
    | LocaleValue(locale: Locale)
    | GenderValue(gender: GenderChoice)
    | TextValue(text: string)
    | ListValue(items: seq<string>)
    | PlanValue(plan: PlanChoice)

  /** `data[field]`. */
  function Get(d: OnboardingData, f: Field): (r: Value)
    ensures Fits(f, r)
    ensures f.IsList() <==> r.ListValue?
  {
    match f
    case Language => LocaleValue(d.language)
    case Gender => GenderValue(d.gender)
    case Age => TextValue(d.age)
    case Weight => TextValue(d.weight)
    case Height => TextValue(d.height)
    case Country => TextValue(d.country)
    case Address => TextValue(d.address)
    case Goals => ListValue(d.goals)
    case WorkoutTypes => ListValue(d.workoutTypes)
    case Preferences => PlanValue(d.preferences)
    case Allergies => TextValue(d.allergies)
  }

  /** A value of the type OnboardingData declares for `f`. */
  predicate Fits(f: Field, v: Value)
  {
    match f
    case Language => v.LocaleValue?
    case Gender => v.GenderValue?
    case Goals | WorkoutTypes => v.ListValue?
    case Preferences => v.PlanValue?
    case _ => v.TextValue?
  }

  /** Every field holds a value of its declared type, so Get determines the record. */
  lemma {:induction false} GetDeterminesRecord(d: OnboardingData, e: OnboardingData)
    requires forall f :: Get(d, f) == Get(e, f)
    ensures d == e
  {
    assert Get(d, Language) == Get(e, Language) && Get(d, Gender) == Get(e, Gender);
    assert Get(d, Age) == Get(e, Age) && Get(d, Weight) == Get(e, Weight);
    assert Get(d, Height) == Get(e, Height) && Get(d, Country) == Get(e, Country);
    assert Get(d, Address) == Get(e, Address) && Get(d, Goals) == Get(e, Goals);
    assert Get(d, WorkoutTypes) == Get(e, WorkoutTypes) && Get(d, Preferences) == Get(e, Preferences);
    assert Get(d, Allergies) == Get(e, Allergies);
  }

  /** The state the page mounts with. */
  function InitialData(): (d: OnboardingData)
    ensures d.language.Code() == "sv" && d.country == "Sverige"
    ensures d.gender.Code() == "" && d.preferences.Code() == ""
    ensures d.age == "" && d.weight == "" && d.height == "" && d.address == "" && d.allergies == ""
    ensures d.goals == [] && d.workoutTypes == []
  {
    OnboardingData(Sv, NoGender, "", "", "", "Sverige", "", [], [], NoPlan, "")
  }

  // ---------------------------------------------------------------------------
  // updateData: the functional update passed to setData

  /** `{ ...prev, [field]: value }`: field `f` now holds `v`, every other field is as before. */
  function Set(d: OnboardingData, f: Field, v: Value): (r: OnboardingData)
    requires Fits(f, v)
    ensures Get(r, f) == v
    ensures forall g :: g != f ==> Get(r, g) == Get(d, g)
  {
    match f
    case Language => d.(language := v.locale)
    case Gender => d.(gender := v.gender)
    case Age => d.(age := v.text)
    case Weight => d.(weight := v.text)
    case Height => d.(height := v.text)
    case Country => d.(country := v.text)
    case Address => d.(address := v.text)
    case Goals => d.(goals := v.items)
    case WorkoutTypes => d.(workoutTypes := v.items)
    case Preferences => d.(preferences := v.plan)
    case Allergies => d.(allergies := v.text)
  }

  /** Writing the same value twice is the same as writing it once. */
  lemma SetIdempotent(d: OnboardingData, f: Field, v: Value)
    requires Fits(f, v)
    ensures Set(Set(d, f, v), f, v) == Set(d, f, v)
  {
    var once, twice := Set(d, f, v), Set(Set(d, f, v), f, v);
    forall g ensures Get(twice, g) == Get(once, g) {
    }
    GetDeterminesRecord(twice, once);
  }

  // ---------------------------------------------------------------------------
  // toggleArrayValue: the functional update passed to setData

  /** `items.filter(item => item !== v)`. */
  function RemoveAll(items: seq<string>, v: string): (r: seq<string>)
    ensures forall x :: x in r <==> x in items && x != v
    ensures |r| <= |items| && (v in items ==> |r| < |items|)
  {
    if items == [] then []
    else (if items[0] == v then [] else [items[0]]) + RemoveAll(items[1..], v)
  }

  /** Filtering removes every copy of `v` and keeps every copy of every other value. */
  lemma {:induction false} RemoveAllCounts(items: seq<string>, v: string)
    ensures multiset(RemoveAll(items, v))[v] == 0
    ensures forall x :: x != v ==> multiset(RemoveAll(items, v))[x] == multiset(items)[x]
  {
    if items != [] {
      RemoveAllCounts(items[1..], v);
      assert items == [items[0]] + items[1..];
    }
  }

  /** Filtering keeps the survivors in their original order: it distributes over concatenation. */
  lemma {:induction false} RemoveAllAppend(a: seq<string>, b: seq<string>, v: string)
    ensures RemoveAll(a + b, v) == RemoveAll(a, v) + RemoveAll(b, v)
  {
    if a != [] {
      assert (a + b)[0] == a[0] && (a + b)[1..] == a[1..] + b;
      RemoveAllAppend(a[1..], b, v);
      var head := if a[0] == v then [] else [a[0]];
      calc {
        RemoveAll(a + b, v);
        head + RemoveAll(a[1..] + b, v);
        head + (RemoveAll(a[1..], v) + RemoveAll(b, v));
        (head + RemoveAll(a[1..], v)) + RemoveAll(b, v);
        RemoveAll(a, v) + RemoveAll(b, v);
      }
    } else {
      assert a + b == b;
    }
  }

  /** Filtering out a value that does not occur changes nothing. */
  lemma {:induction false} RemoveAllAbsent(items: seq<string>, v: string)
    requires v !in items
    ensures RemoveAll(items, v) == items
  {
    if items != [] {
      RemoveAllAbsent(items[1..], v);
    }
  }

  /**
    `items.includes(v) ? items.filter(item => item !== v) : [...items, v]`: as a
    set of values, the result is `items` with `v`'s membership flipped.
  */
  function Toggle(items: seq<string>, v: string): (r: seq<string>)
    ensures forall x :: x in r <==> if x == v then v !in items else x in items
    ensures v !in items ==> r == items + [v]
    ensures v in items ==> |r| < |items| && r == RemoveAll(items, v)
  {
    if v in items then RemoveAll(items, v) else items + [v]
  }

  /** No value occurs twice. */
  ghost predicate NoDuplicates(items: seq<string>)
  {
    forall x :: multiset(items)[x] <= 1
  }

  /** Toggling never creates a duplicate in a list that has none. */
  lemma ToggleKeepsNoDuplicates(items: seq<string>, v: string)
    requires NoDuplicates(items)
    ensures NoDuplicates(Toggle(items, v))
  {
    var r := Toggle(items, v);
    if v in items {
      RemoveAllCounts(items, v);
    } else {
      assert multiset(items)[v] == 0;
      forall x ensures multiset(r)[x] <= 1 {
        assert multiset(r) == multiset(items) + multiset{v};
      }
    }
  }

  /** Toggling a value that is absent twice restores the list exactly. */
  lemma ToggleTwiceAbsent(items: seq<string>, v: string)
    requires v !in items
    ensures Toggle(Toggle(items, v), v) == items
  {
    RemoveAllAppend(items, [v], v);
    RemoveAllAbsent(items, v);
  }

  /**
    Toggling a value that is present twice drops all its copies and puts one at
    the end: the same values, but not always in the same order.
  */
  lemma ToggleTwicePresent(items: seq<string>, v: string)
    requires v in items
    ensures Toggle(Toggle(items, v), v) == RemoveAll(items, v) + [v]
    ensures forall x :: x in Toggle(Toggle(items, v), v) <==> x in items
  {
  }

  /** In a list without duplicates, two toggles of a present value restore the contents up to order. */
  lemma ToggleTwicePermutes(items: seq<string>, v: string)
    requires NoDuplicates(items) && v in items
    ensures multiset(Toggle(Toggle(items, v), v)) == multiset(items)
  {
    var r := Toggle(Toggle(items, v), v);
    ToggleTwicePresent(items, v);
    RemoveAllCounts(items, v);
    assert multiset(r) == multiset(RemoveAll(items, v)) + multiset{v};
    assert multiset(items)[v] == 1;
    forall x ensures multiset(r)[x] == multiset(items)[x] {
    }
  }

  /** The order does change: two clicks on the first goal move it behind the second. */
  lemma ToggleTwiceReorders()
    ensures Toggle(Toggle(["lose_weight", "build_muscle"], "lose_weight"), "lose_weight")
            == ["build_muscle", "lose_weight"]
  {
    var items := ["lose_weight", "build_muscle"];
    assert "lose_weight" in items;
    assert RemoveAll(items, "lose_weight") == ["build_muscle"] by {
      assert items[1..] == ["build_muscle"];
      assert RemoveAll(items[1..][1..], "lose_weight") == [];
    }
    assert "lose_weight" !in ["build_muscle"];
  }

  /** The functional update of toggleArrayValue: list field `f` toggled, every other field as before. */
  function ToggleField(d: OnboardingData, f: Field, v: string): (r: OnboardingData)
    requires f.IsList()
    ensures Get(r, f) == ListValue(Toggle(Get(d, f).items, v))
    ensures forall g :: g != f ==> Get(r, g) == Get(d, g)
  {
    Set(d, f, ListValue(Toggle(Get(d, f).items, v)))
  }

  // ---------------------------------------------------------------------------
  // canProceed

  /** The per-step completion rule; false for any step outside 1..7. */
  function StepComplete(step: int, d: OnboardingData): (r: bool)
    ensures r ==> 1 <= step <= TotalSteps
  {
    match step
    case 1 => d.language.Code() != ""
    case 2 => d.gender.Code() != "" && d.age != ""
    case 3 => d.weight != "" && d.height != ""
    case 4 => d.country != "" && d.address != ""
    case 5 => |d.goals| > 0
    case 6 => |d.workoutTypes| > 0
    case 7 => d.preferences.Code() != ""
    case _ => false
  }

  /** The fields that the rule of `step` reads. */
  function StepFields(step: int): set<Field>
  {
    match step
    case 1 => {Language}
    case 2 => {Gender, Age}
    case 3 => {Weight, Height}
    case 4 => {Country, Address}
    case 5 => {Goals}
    case 6 => {WorkoutTypes}
    case 7 => {Preferences}
    case _ => {}
  }

  /** The fields whose inputs the page renders on `step` (allergies sits on step 7 but is optional). */
  function ShownFields(step: int): (fs: set<Field>)
    ensures StepFields(step) <= fs
    ensures forall f, s :: f in fs && f in StepFields(s) ==> s == step
    ensures Allergies in fs <==> step == 7
  {
    if step == 7 then {Preferences, Allergies} else StepFields(step)
  }

  /** A value that counts as answered: a non-empty string or list, or a chosen option. */
  predicate Answered(v: Value)
  {
    match v
    case LocaleValue(l) => l.Code() != ""
    case GenderValue(g) => g.Code() != ""
    case TextValue(t) => t != ""
    case ListValue(xs) => |xs| > 0
    case PlanValue(p) => p.Code() != ""
  }

  /** A step is complete exactly when every field it reads is answered. */
  lemma StepCompleteMeansAnswered(step: int, d: OnboardingData)
    requires 1 <= step <= TotalSteps
    ensures StepComplete(step, d) <==> forall f :: f in StepFields(step) ==> Answered(Get(d, f))
  {
    if !StepComplete(step, d) {
      match step
      case 1 => assert !Answered(Get(d, Language));
      case 2 => assert !Answered(Get(d, Gender)) || !Answered(Get(d, Age));
      case 3 => assert !Answered(Get(d, Weight)) || !Answered(Get(d, Height));
      case 4 => assert !Answered(Get(d, Country)) || !Answered(Get(d, Address));
      case 5 => assert !Answered(Get(d, Goals));
      case 6 => assert !Answered(Get(d, WorkoutTypes));
      case 7 => assert !Answered(Get(d, Preferences));
    }
  }

  /** The rule of a step reads only that step's fields. */
  lemma StepCompleteLocal(step: int, d: OnboardingData, e: OnboardingData)
    requires forall f :: f in StepFields(step) ==> Get(d, f) == Get(e, f)
    ensures StepComplete(step, d) == StepComplete(step, e)
  {
    match step
    case 1 => assert Get(d, Language) == Get(e, Language);
    case 2 => assert Get(d, Gender) == Get(e, Gender) && Get(d, Age) == Get(e, Age);
    case 3 => assert Get(d, Weight) == Get(e, Weight) && Get(d, Height) == Get(e, Height);
    case 4 => assert Get(d, Country) == Get(e, Country) && Get(d, Address) == Get(e, Address);
    case 5 => assert Get(d, Goals) == Get(e, Goals);
    case 6 => assert Get(d, WorkoutTypes) == Get(e, WorkoutTypes);
    case 7 => assert Get(d, Preferences) == Get(e, Preferences);
    case _ =>
  }

  /** The language always has a value, so step 1 can always be left. */
  lemma FirstStepAlwaysComplete(d: OnboardingData)
    ensures StepComplete(1, d)
  {
  }

  /** On a fresh form only the first step is complete. */
  lemma InitialOnlyFirstStep(step: int)
    ensures StepComplete(step, InitialData()) <==> step == 1
  {
  }

  /** Answering a field never makes a complete step incomplete. */
  lemma AnsweringKeepsStepsComplete(step: int, d: OnboardingData, f: Field, v: Value)
    requires Fits(f, v) && Answered(v) && StepComplete(step, d)
    ensures StepComplete(step, Set(d, f, v))
  {
    var e := Set(d, f, v);
    StepCompleteMeansAnswered(step, d);
    StepCompleteMeansAnswered(step, e);
  }

  // ---------------------------------------------------------------------------
  // The buttons under the form

  /** What the forward slot holds: "Nästa" before the last step, "Slutför" on it. */
  datatype ForwardButton = NextButton(enabled: bool) | CompleteButton(enabled: bool)

  /** The enabled state of the back button and the kind and state of the forward button. */
  datatype Controls = Controls(previousEnabled: bool, forward: ForwardButton)

  function NavigationControls(step: int, d: OnboardingData, isLoading: bool): (c: Controls)
    ensures c.previousEnabled <==> step != 1
    ensures c.forward.CompleteButton? <==> step == TotalSteps
    ensures c.forward.CompleteButton? ==> (c.forward.enabled <==> StepComplete(step, d) && !isLoading)
    ensures c.forward.NextButton? ==> (c.forward.enabled <==> StepComplete(step, d))
  {
    Controls(
      step != 1,
      if step == TotalSteps then CompleteButton(StepComplete(step, d) && !isLoading)
      else NextButton(StepComplete(step, d)))
  }

  /** An enabled "Nästa" is only ever offered on steps 1..6, so pressing it always moves forward. */
  lemma EnabledNextMovesForward(step: int, d: OnboardingData, isLoading: bool)
    requires NavigationControls(step, d, isLoading).forward == NextButton(true)
    ensures 1 <= step < TotalSteps
  {
  }

  /** "Slutför" is enabled only on step 7 with a plan chosen and no save under way. */
  lemma EnabledCompleteNeedsPlan(step: int, d: OnboardingData, isLoading: bool)
    requires NavigationControls(step, d, isLoading).forward == CompleteButton(true)
    ensures step == TotalSteps && d.preferences != NoPlan && !isLoading
  {
  }

  // ---------------------------------------------------------------------------
  // What the buttons guarantee about a whole session

  /**
    A session driven through the buttons: the cursor is in range and every step
    before it is complete.
  */
  ghost predicate SessionInvariant(step: int, d: OnboardingData)
  {
    1 <= step <= TotalSteps && forall s :: 1 <= s < step ==> StepComplete(s, d)
  }

  /** Editing a field shown on the current step leaves the earlier steps complete. */
  lemma EditKeepsSession(step: int, d: OnboardingData, f: Field, v: Value)
    requires SessionInvariant(step, d) && f in ShownFields(step) && Fits(f, v)
    ensures SessionInvariant(step, Set(d, f, v))
  {
    var e := Set(d, f, v);
    forall s | 1 <= s < step ensures StepComplete(s, e) {
      assert f !in StepFields(s);
      StepCompleteLocal(s, d, e);
    }
  }

  /** Toggling a value of a list shown on the current step leaves the earlier steps complete. */
  lemma ToggleKeepsSession(step: int, d: OnboardingData, f: Field, v: string)
    requires SessionInvariant(step, d) && f.IsList() && f in ShownFields(step)
    ensures SessionInvariant(step, ToggleField(d, f, v))
  {
    EditKeepsSession(step, d, f, ListValue(Toggle(Get(d, f).items, v)));
  }

  /** Pressing an enabled "Nästa" keeps the invariant. */
  lemma NextKeepsSession(step: int, d: OnboardingData, isLoading: bool)
    requires SessionInvariant(step, d)
    requires NavigationControls(step, d, isLoading).forward == NextButton(true)
    ensures SessionInvariant(step + 1, d)
  {
  }

  /** Pressing "Tillbaka" keeps the invariant. */
  lemma PreviousKeepsSession(step: int, d: OnboardingData)
    requires SessionInvariant(step, d) && step > 1
    ensures SessionInvariant(step - 1, d)
  {
  }

  /** Whenever "Slutför" is enabled in such a session, all seven steps are complete. */
  lemma CompleteMeansAllStepsComplete(step: int, d: OnboardingData, isLoading: bool)
    requires SessionInvariant(step, d)
    requires NavigationControls(step, d, isLoading).forward == CompleteButton(true)
    ensures forall s :: 1 <= s <= TotalSteps ==> StepComplete(s, d)
  {
  }

  // ---------------------------------------------------------------------------
  // The page's state and its handlers

  /**
    How the `try` block of `handleComplete()` ends: `Saved` when the wait and the
    navigation go through, `Failed` when something throws into the `catch`. The
    page as written only awaits a 2-second timer there, so `Failed` stands for
    the failure of the intended save, a path the current code does not reach.
  */
  datatype SaveOutcome = Saved | Failed

  const DashboardPath := "/dashboard"

  class OnboardingPage {
    var currentStep: int
    var isLoading: bool
    var data: OnboardingData

    ghost predicate Valid()
      reads this
    {
      1 <= currentStep <= TotalSteps
    }

    /**
      `canProceed()`: the rule of the current step, which holds exactly when every
      field that step asks for is answered; no step outside 1..7 can proceed.
    */
    function CanProceed(): (r: bool)
      reads this
      ensures r ==> 1 <= currentStep <= TotalSteps
      ensures 1 <= currentStep <= TotalSteps ==>
                (r <==> forall f :: f in StepFields(currentStep) ==> Answered(Get(data, f)))
    {
      if 1 <= currentStep <= TotalSteps then
        StepCompleteMeansAnswered(currentStep, data);
        StepComplete(currentStep, data)
      else
        false
    }

    constructor ()
      ensures Valid()
      ensures currentStep == 1 && !isLoading && data == InitialData()
    {
      currentStep := 1;
      isLoading := false;
      data := InitialData();
    }

    /** `updateData(field, value)`. */
    method UpdateData(f: Field, v: Value)
      requires Valid() && Fits(f, v)
      modifies this
      ensures Valid()
      ensures data == Set(old(data), f, v)
      ensures currentStep == old(currentStep) && isLoading == old(isLoading)
    {
      data := Set(data, f, v);
    }

    /** `toggleArrayValue(field, value)`. */
    method ToggleArrayValue(f: Field, v: string)
      requires Valid() && f.IsList()
      modifies this
      ensures Valid()
      ensures data == ToggleField(old(data), f, v)
      ensures currentStep == old(currentStep) && isLoading == old(isLoading)
    {
      data := ToggleField(data, f, v);
    }

    /** `handleNext()`: one step forward unless already on the last; it does not consult canProceed. */
    method HandleNext()
      requires Valid()
      modifies this
      ensures Valid()
      ensures currentStep == if old(currentStep) < TotalSteps then old(currentStep) + 1 else old(currentStep)
      ensures data == old(data) && isLoading == old(isLoading)
    {
      if currentStep < TotalSteps {
        currentStep := currentStep + 1;
      }
    }

    /** `handlePrevious()`: one step back unless already on the first; the answers are kept. */
    method HandlePrevious()
      requires Valid()
      modifies this
      ensures Valid()
      ensures currentStep == if old(currentStep) > 1 then old(currentStep) - 1 else old(currentStep)
      ensures data == old(data) && isLoading == old(isLoading)
    {
      if currentStep > 1 {
        currentStep := currentStep - 1;
      }
    }

    /** The part of `handleComplete()` before the await: the loading flag goes up. */
    method BeginComplete()
      requires Valid()
      modifies this
      ensures Valid() && isLoading
      ensures data == old(data) && currentStep == old(currentStep)
      // while the save is awaited the complete button is disabled
      ensures currentStep == TotalSteps ==> !NavigationControls(currentStep, data, isLoading).forward.enabled
    {
      isLoading := true;
    }

    /**
      The part after the await: on success the page navigates to the dashboard,
      on failure the error is only logged; either way the flag goes down.
    */
    method FinishComplete(outcome: SaveOutcome) returns (destination: Option<string>)
      requires Valid()
      modifies this
      ensures Valid() && !isLoading
      ensures data == old(data) && currentStep == old(currentStep)
      ensures destination == if outcome == Saved then Some(DashboardPath) else None
    {
      destination := if outcome == Saved then Some(DashboardPath) else None;
      isLoading := false;
    }

    /** `handleComplete()`: loading while the `try` block is awaited; the answers and the step survive a failure. */
    method HandleComplete(outcome: SaveOutcome) returns (destination: Option<string>)
      requires Valid()
      modifies this
      ensures Valid() && !isLoading
      ensures data == old(data) && currentStep == old(currentStep)
      ensures destination == if outcome == Saved then Some(DashboardPath) else None
    {
      BeginComplete();
      destination := FinishComplete(outcome);
    }
  }
}
