/**
 * The three-step quote form. Its step handlers move without looking at the
 * fields; only the buttons, disabled while the current step is incomplete,
 * keep an incomplete step from being left forward or submitted.
 */
module SimpleQuoteForm {
  import opened Wrappers
  import Steps

  const LastStep: int := 3

  /** The registered inputs; a field nobody has typed into is still undefined. */
  datatype Fields = Fields(
    businessType: Option<string>, goal: Option<string>,
    budget: Option<string>, urgency: Option<string>,
    name: Option<string>, email: Option<string>)

  /** `!!watch(field)`: defined and not empty. */
  predicate Filled(v: Option<string>)
  {
    v.Some? && v.value != ""
  }

  /** `isStepValid`: both fields of the current step are filled in. */
  predicate StepValid(step: int, f: Fields)
  {
    match step
    case 1 => Filled(f.businessType) && Filled(f.goal)
    case 2 => Filled(f.budget) && Filled(f.urgency)
    case 3 => Filled(f.name) && Filled(f.email)
    case _ => false
  }

  /**
   * The step after a click on a "Next" button: the button is disabled while
   * the step is incomplete, and enabled it runs `handleNextStep`. The form
   * only ever advances one step, and only past a complete step.
   */
  function AfterNextClick(step: int, f: Fields): (r: int)
    ensures StepValid(step, f) ==> r == Steps.Next(step, LastStep)
    ensures !StepValid(step, f) ==> r == step
    ensures r != step ==> StepValid(step, f) && r == step + 1
    ensures 1 <= step <= LastStep ==> 1 <= r <= LastStep
  {
    if StepValid(step, f) then Steps.Next(step, LastStep) else step
  }

  /** The submit button's state: enabled when not already submitting and the step is complete. */
  predicate SubmitEnabled(isSubmitting: bool, step: int, f: Fields)
  {
    !isSubmitting && StepValid(step, f)
  }

  /** An enabled submit button on the last step means the name and e-mail are filled in. */
  lemma SubmitNeedsContact(isSubmitting: bool, f: Fields)
    requires SubmitEnabled(isSubmitting, LastStep, f)
    ensures Filled(f.name) && Filled(f.email)
  {
  }

  /**
   * Reaching the last step by "Next" clicks from step 1 requires steps 1 and 2
   * to have been complete along the way: with the fields unchanged, two
   * clicks reach step 3 exactly when both are complete.
   */
  lemma TwoClicksReachLast(f: Fields)
    ensures AfterNextClick(AfterNextClick(1, f), f) == LastStep
      <==> StepValid(1, f) && StepValid(2, f)
  {
  }

  /** The form: the current step and the values typed so far. */
  class Form {
    var step: int
    var fields: Fields

    predicate Valid()
      reads this
    {
      1 <= step <= LastStep
    }

    /** A fresh form: step 1, every field undefined. */
    constructor()
      ensures Valid() && step == 1
      ensures fields == Fields(None, None, None, None, None, None)
      ensures !StepValid(step, fields)
    {
      step := 1;
      fields := Fields(None, None, None, None, None, None);
    }

    /** `handleNextStep`: forward one step unless on the last; the fields are not consulted. */
    method HandleNextStep()
      requires Valid()
      modifies this
      ensures Valid() && step == Steps.Next(old(step), LastStep) && fields == old(fields)
    {
      if step < LastStep {
        step := step + 1;
      }
    }

    /** `handlePrevStep`: back one step unless on the first. */
    method HandlePrevStep()
      requires Valid()
      modifies this
      ensures Valid() && step == Steps.Prev(old(step)) && fields == old(fields)
    {
      if step > 1 {
        step := step - 1;
      }
    }

    /** A click on the "Next" button, which does nothing while it is disabled. */
    method ClickNext()
      requires Valid()
      modifies this
      ensures Valid() && step == AfterNextClick(old(step), old(fields)) && fields == old(fields)
    {
      if StepValid(step, fields) {
        HandleNextStep();
      }
    }
  }
}
