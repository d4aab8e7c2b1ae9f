/**
 * The four-step proposal wizard of `app/workflow-submission.tsx`: the current step,
 * moved by Next and Back, the form fields the steps edit, the step indicator and the
 * footer buttons. The wizard screen is a class whose fields are the screen's state;
 * what it displays is a function of that state.
 */
module WorkflowSubmission {
  import opened Wrappers

  /** The titles of the steps, in order. */
  const Steps: seq<string> := ["Basic Info", "Proposal Details", "Documents", "Review"]

  /** The index of the Review step. */
  const LastStep: nat := |Steps| - 1

  // ---------------------------------------------------------------------------
  // Moving between steps

  /** The step Next leads to: the following one, or the same step on Review, where Next submits. */
  function Next(step: nat): (r: nat)
    requires step <= LastStep
    ensures r <= LastStep
    ensures step < LastStep ==> r == step + 1
    ensures step == LastStep ==> r == step
  {
    if step < LastStep then step + 1 else step
  }

  /** Back is offered from every step but the first. */
  predicate ShowsBack(step: nat)
  {
    step > 0
  }

  /** The step Back leads to: exactly one step back. */
  function Back(step: nat): (r: nat)
    requires ShowsBack(step)
    ensures r == step - 1
  {
    step - 1
  }

  /** Before Review, Back undoes Next. */
  lemma NextThenBack(step: nat)
    requires step < LastStep
    ensures ShowsBack(Next(step)) && Back(Next(step)) == step
  {
  }

  /** Back can always be undone by Next. */
  lemma BackThenNext(step: nat)
    requires 0 < step <= LastStep
    ensures Next(Back(step)) == step
  {
  }

  /** The step reached from `step` by pressing Next `n` times. */
  function NextTimes(step: nat, n: nat): nat
    requires step <= LastStep
  {
    if n == 0 then step else Next(NextTimes(step, n - 1))
  }

  /** Pressing Next `n` times from the first step reaches step `n`, or Review when `n` goes past it. */
  lemma {:induction false} NextTimesFromStart(n: nat)
    ensures NextTimes(0, n) == if n < LastStep then n else LastStep
  {
    if n > 0 {
      NextTimesFromStart(n - 1);
    }
  }

  // ---------------------------------------------------------------------------
  // The form

  datatype FormData = FormData(name: string, orgName: string, title: string, description: string, sector: string)

  const EmptyForm := FormData("", "", "", "", "")

  /** The fields with an input on some step; description and sector have none. */
  datatype Field = Name | OrgName | Title

  /** The fields the step shows inputs for. */
  function EditableAt(step: nat): set<Field>
  {
    if step == 0 then {Name, OrgName} else if step == 1 then {Title} else {}
  }

  function Get(data: FormData, field: Field): string
  {
    match field
    case Name => data.name
    case OrgName => data.orgName
    case Title => data.title
  }

  /** The form with one field replaced. */
  function Set(data: FormData, field: Field, value: string): (r: FormData)
    ensures Get(r, field) == value
    ensures forall other :: other != field ==> Get(r, other) == Get(data, other)
    ensures r.description == data.description && r.sector == data.sector
  {
    match field
    case Name => data.(name := value)
    case OrgName => data.(orgName := value)
    case Title => data.(title := value)
  }

  /** Editing two different fields gives the same form in either order. */
  lemma SetCommutes(data: FormData, f: Field, v: string, g: Field, w: string)
    requires f != g
    ensures Set(Set(data, f, v), g, w) == Set(Set(data, g, w), f, v)
  {
  }

  /**
   * What the Review step shows for a field: never an empty text; "N/A" exactly for an
   * empty field (or one that holds "N/A"); any other value as it is.
   */
  function ReviewValue(value: string): (r: string)
    ensures r != ""
    ensures r == "N/A" <==> value == "" || value == "N/A"
    ensures value != "" ==> r == value
  {
    if value == "" then "N/A" else value
  }

  // ---------------------------------------------------------------------------
  // The step indicator and the footer

  /** How one step of the indicator is drawn. */
  datatype StepView = StepView(
    highlighted: bool,        // the circle is filled
    completed: bool,          // the circle shows a check mark instead of the number
    current: bool,            // the number is drawn in the active style
    connector: Option<bool>)  // the line to the next step, and whether it is active; none after the last step

  function StepViewAt(current: nat, i: nat): StepView
  {
    StepView(i <= current, i < current, i == current, if i < LastStep then Some(i < current) else None)
  }

  function Indicator(current: nat): (r: seq<StepView>)
    ensures |r| == |Steps|
  {
    seq(|Steps|, i requires 0 <= i => StepViewAt(current, i))
  }

  /** How many of the flags hold. */
  function CountTrue(flags: seq<bool>): (n: nat)
    ensures n <= |flags|
  {
    if flags == [] then 0 else CountTrue(flags[..|flags| - 1]) + (if flags[|flags| - 1] then 1 else 0)
  }

  /** Flags that hold exactly below `k` count `k`. */
  lemma {:induction false} CountPrefix(flags: seq<bool>, k: nat)
    requires k <= |flags|
    requires forall i :: 0 <= i < |flags| ==> (flags[i] <==> i < k)
    ensures CountTrue(flags) == k
  {
    if flags != [] {
      var init := flags[..|flags| - 1];
      if k == |flags| {
        CountPrefix(init, k - 1);
      } else {
        CountPrefix(init, k);
      }
    }
  }

  /**
   * The indicator for a step in range shows the wizard's progress: the steps before it
   * completed, those up to it highlighted, one step current, and the connectors
   * leaving the completed steps active.
   */
  lemma IndicatorProgress(current: nat)
    requires current <= LastStep
    ensures var r := Indicator(current);
      && CountTrue(seq(|r|, i requires 0 <= i < |r| => r[i].completed)) == current
      && CountTrue(seq(|r|, i requires 0 <= i < |r| => r[i].highlighted)) == current + 1
      && CountTrue(seq(|r|, i requires 0 <= i < |r| => r[i].current)) == 1
      && CountTrue(seq(|r|, i requires 0 <= i < |r| => r[i].connector == Some(true))) == current
  {
    var r := Indicator(current);
    CountPrefix(seq(|r|, i requires 0 <= i < |r| => r[i].completed), current);
    CountPrefix(seq(|r|, i requires 0 <= i < |r| => r[i].highlighted), current + 1);
    CountSingle(seq(|r|, i requires 0 <= i < |r| => r[i].current), current);
    CountPrefix(seq(|r|, i requires 0 <= i < |r| => r[i].connector == Some(true)), current);
  }

  /** Appending flags that are all false leaves the count alone. */
  lemma {:induction false} CountSkipsFalse(flags: seq<bool>, k: nat)
    requires k <= |flags|
    requires forall i :: k <= i < |flags| ==> !flags[i]
    ensures CountTrue(flags) == CountTrue(flags[..k])
  {
    if |flags| > k {
      assert flags[..|flags| - 1][..k] == flags[..k];
      CountSkipsFalse(flags[..|flags| - 1], k);
    } else {
      assert flags[..k] == flags;
    }
  }

  /** Flags that hold at one index only count one. */
  lemma CountSingle(flags: seq<bool>, k: nat)
    requires k < |flags|
    requires forall i :: 0 <= i < |flags| ==> (flags[i] <==> i == k)
    ensures CountTrue(flags) == 1
  {
    CountSkipsFalse(flags, k + 1);
    assert flags[..k + 1][..k] == flags[..k];
    CountPrefix(flags[..k], 0);
  }

  /** The label of the Next button. */
  function NextLabel(step: nat): string
  {
    if step == LastStep then "Submit Proposal" else "Next Step"
  }

  /** The Next button carries a chevron before Review. */
  predicate ShowsChevron(step: nat)
  {
    step < LastStep
  }

  /** On a step in range, the button reads "Submit Proposal" exactly when it has no chevron, which is exactly on Review. */
  lemma SubmitLabel(step: nat)
    requires step <= LastStep
    ensures NextLabel(step) == "Submit Proposal" <==> step == LastStep
    ensures NextLabel(step) == "Submit Proposal" <==> !ShowsChevron(step)
  {
    assert |"Next Step"| != |"Submit Proposal"|;
  }

  // ---------------------------------------------------------------------------
  // The screen

  class ProposalWizard {
    var currentStep: nat
    var formData: FormData

    predicate Valid()
      reads this
    {
      currentStep <= LastStep
    }

    /** The screen opens on the first step with an empty form. */
    constructor ()
      ensures Valid()
      ensures currentStep == 0 && formData == EmptyForm
    {
      currentStep := 0;
      formData := EmptyForm;
    }

    /** Next: move on one step, or, on Review, submit (the confirmation alert) and stay. */
    method HandleNext() returns (submitted: bool)
      requires Valid()
      modifies this
      ensures Valid()
      ensures submitted <==> old(currentStep) == LastStep
      ensures currentStep == Next(old(currentStep))
      ensures formData == old(formData)
    {
      if currentStep < |Steps| - 1 {
        currentStep := currentStep + 1;
        submitted := false;
      } else {
        submitted := true;
      }
    }

    /** Back, pressed where it is shown. */
    method HandleBack()
      requires Valid() && ShowsBack(currentStep)
      modifies this
      ensures Valid()
      ensures currentStep == Back(old(currentStep))
      ensures formData == old(formData)
    {
      currentStep := currentStep - 1;
    }

    /** Typing into a field shown on the current step replaces that field and nothing else. */
    method EditField(field: Field, value: string)
      requires Valid() && field in EditableAt(currentStep)
      modifies this
      ensures Valid()
      ensures formData == Set(old(formData), field, value)
      ensures currentStep == old(currentStep)
    {
      match field
      case Name => formData := formData.(name := value);
      case OrgName => formData := formData.(orgName := value);
      case Title => formData := formData.(title := value);
    }
  }
}
