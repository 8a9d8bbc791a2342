/** The form controller of PremiumLeadGenLanding as an object: the four state
    variables become fields, and each handler updates them step by step. Each
    method's new state is the corresponding transition of LeadForm applied to
    the old state. */
module Controller {
  import opened LeadForm

  class LeadFormController {
    var form: FormState
    var submitting: bool
    var submitted: bool
    var error: Option<string>

    /** The state variables as one value. */
    function State(): Snapshot
      reads this
    {
      Snapshot(form, submitting, submitted, error)
    }

    /** The shown error is none or one of the two fixed messages. No
        postcondition depends on it: it is the invariant of
        LeadForm.RunKeepsErrorWellFormed, kept by every method. */
    ghost predicate Valid()
      reads this
    {
      ErrorWellFormed(error)
    }

    /** The state on mount: empty fields, nothing submitted, no error. */
    constructor ()
      ensures Valid() && State() == Initial
    {
      form := EmptyForm;
      submitting := false;
      submitted := false;
      error := None;
    }

    /** onChange: replace one field and clear the error. */
    method OnChange(key: FieldKey, value: string)
      requires Valid()
      modifies this
      ensures Valid()
      ensures State() == ApplyChange(old(State()), key, value)
    {
      form := form.With(key, value);
      error := None;
    }

    /** handleSubmit up to the await. Returns whether the work was started. */
    method BeginSubmit() returns (started: bool)
      requires Valid()
      modifies this
      ensures Valid()
      ensures (State(), started) == ApplyBegin(old(State()))
    {
      var gate := CanSubmit(form, submitting);
      error := None;
      if !gate {
        error := Some(GuidanceMessage);
        return false;
      }
      submitting := true;
      started := true;
    }

    /** handleSubmit once the awaited work has ended with the given outcome;
        it only runs after BeginSubmit has started the work. */
    method Settle(outcome: Outcome)
      requires Valid() && submitting
      modifies this
      ensures Valid()
      ensures State() == ApplySettle(old(State()), outcome)
    {
      match outcome {
        case Resolved =>
          submitted := true;
        case Rejected =>
          error := Some(FailureMessage);
      }
      submitting := false;
    }

    /** handleSubmit with no other event while the work is awaited. */
    method HandleSubmit(outcome: Outcome)
      requires Valid()
      modifies this
      ensures Valid()
      ensures State() == ApplySubmit(old(State()), outcome)
    {
      var started := BeginSubmit();
      if started {
        Settle(outcome);
      }
    }

    /** The reset passed to the thank-you card. */
    method Reset()
      requires Valid()
      modifies this
      ensures Valid()
      ensures State() == ApplyReset(old(State()))
    {
      submitted := false;
      form := EmptyForm;
      error := None;
    }
  }
}
