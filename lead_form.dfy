/** The lead-capture form of the landing page: its field values, the values
    derived from them (canSubmit, the email hint) and the transitions of the
    submission lifecycle, as pure functions on a snapshot of the state. */
module LeadForm {
  import opened Text
  import opened EmailCheck

  datatype Option<T> = None | Some(value: T)

  /** The keys of FormState. */
  datatype FieldKey = FullName | Email | Company | Goal

  /** The four text fields of the form; company is optional. */
  datatype FormState = FormState(fullName: string, email: string, company: string, goal: string)
  {
    function Get(key: FieldKey): string {
      match key
      case FullName => fullName
      case Email => email
      case Company => company
      case Goal => goal
    }

    /** The record spread { ...p, [key]: value }. */
    function With(key: FieldKey, value: string): (f: FormState)
      ensures f.Get(key) == value
      ensures forall k :: k != key ==> f.Get(k) == Get(k)
    {
      match key
      case FullName => this.(fullName := value)
      case Email => this.(email := value)
      case Company => this.(company := value)
      case Goal => this.(goal := value)
    }
  }

  const EmptyForm := FormState("", "", "", "")

  const GuidanceMessage := "Please fill in your name, a valid email, and your goal."
  const FailureMessage := "Something went wrong. Please try again."

  /** canSubmit: name and goal long enough after trimming (lengths in UTF-16
      code units, as JavaScript counts them), a valid email, and no
      submission in progress. */
  predicate CanSubmit(form: FormState, submitting: bool) {
    && Utf16Length(Trim(form.fullName)) >= 2
    && IsEmailValid(form.email)
    && Utf16Length(Trim(form.goal)) >= 6
    && !submitting
  }

  /** The hint under the email field: an address was typed that is not valid. */
  predicate ShowEmailHint(email: string) {
    !IsEmailValid(email) && Trim(email) != []
  }

  /** The state variables of the controller: form, submitting, submitted, error. */
  datatype Snapshot = Snapshot(form: FormState, submitting: bool, submitted: bool, error: Option<string>)

  /** The state on mount. */
  const Initial := Snapshot(EmptyForm, false, false, None)

  /** How the awaited submission work ends: it resolves, or it throws. */
  datatype Outcome = Resolved | Rejected

  /** The only messages the controller ever shows. */
  predicate ErrorWellFormed(error: Option<string>) {
    error == None || error == Some(GuidanceMessage) || error == Some(FailureMessage)
  }

  /** onChange(key, value): exactly one field changes, and any error is cleared. */
  function ApplyChange(s: Snapshot, key: FieldKey, value: string): (r: Snapshot)
    ensures r.form.Get(key) == value
    ensures forall k :: k != key ==> r.form.Get(k) == s.form.Get(k)
    ensures r.error == None && r.submitting == s.submitting && r.submitted == s.submitted
  {
    s.(form := s.form.With(key, value), error := None)
  }

  /** handleSubmit up to the await: clear the error, then either reject with
      the guidance message or mark the submission as in progress. The gate is
      the canSubmit of the render the handler belongs to, so it is taken from
      the state before the error is cleared. The flag says whether the work
      was started. */
  function ApplyBegin(s: Snapshot): (r: (Snapshot, bool))
    ensures r.1 == CanSubmit(s.form, s.submitting)
    ensures r.0.form == s.form && r.0.submitted == s.submitted
    ensures r.1 ==> r.0.submitting && r.0.error == None
    ensures !r.1 ==> r.0.submitting == s.submitting && r.0.error == Some(GuidanceMessage)
  {
    var cleared := s.(error := None);
    if !CanSubmit(s.form, s.submitting) then
      (cleared.(error := Some(GuidanceMessage)), false)
    else
      (cleared.(submitting := true), true)
  }

  /** handleSubmit after the await: the try, catch and finally blocks. This
      code only runs in a handler that set submitting before its await. */
  function ApplySettle(s: Snapshot, outcome: Outcome): (r: Snapshot)
    requires s.submitting
    ensures !r.submitting && r.form == s.form
    ensures outcome == Resolved ==> r.submitted && r.error == s.error
    ensures outcome == Rejected ==> r.submitted == s.submitted && r.error == Some(FailureMessage)
  {
    var settled :=
      match outcome
      case Resolved => s.(submitted := true)
      case Rejected => s.(error := Some(FailureMessage));
    settled.(submitting := false)
  }

  /** handleSubmit run to completion, with no other event during the await. */
  function ApplySubmit(s: Snapshot, outcome: Outcome): (r: Snapshot)
    ensures !CanSubmit(s.form, s.submitting) ==> r == s.(error := Some(GuidanceMessage))
    ensures CanSubmit(s.form, s.submitting) ==> r.form == s.form && !r.submitting
    ensures CanSubmit(s.form, s.submitting) && outcome == Resolved ==> r.submitted && r.error == None
    ensures CanSubmit(s.form, s.submitting) && outcome == Rejected ==>
              r.submitted == s.submitted && r.error == Some(FailureMessage)
  {
    var (t, started) := ApplyBegin(s);
    if started then ApplySettle(t, outcome) else t
  }

  /** The reset handed to the thank-you card: empty fields, no confirmation,
      no error; submitting is left as it is. */
  function ApplyReset(s: Snapshot): (r: Snapshot)
    ensures forall k :: r.form.Get(k) == ""
    ensures !r.submitted && r.error == None && r.submitting == s.submitting
  {
    s.(form := EmptyForm, submitted := false, error := None)
  }

  // ---------------------------------------------------------------------
  // The derived values

  /** While a submission is in progress the gate is shut, whatever the fields hold. */
  lemma GateShutWhileSubmitting(form: FormState)
    ensures !CanSubmit(form, true)
  {
  }

  /** The optional company field never affects the gate. */
  lemma GateIgnoresCompany(form: FormState, submitting: bool, company: string)
    ensures CanSubmit(form.With(Company, company), submitting) == CanSubmit(form, submitting)
  {
  }

  /** Whitespace typed around the name, the email or the goal never affects the gate. */
  lemma GateIgnoresPadding(form: FormState, submitting: bool,
                           p1: string, q1: string, p2: string, q2: string, p3: string, q3: string)
    requires AllWs(p1) && AllWs(q1) && AllWs(p2) && AllWs(q2) && AllWs(p3) && AllWs(q3)
    ensures var padded := FormState(p1 + form.fullName + q1, p2 + form.email + q2, form.company, p3 + form.goal + q3);
            CanSubmit(padded, submitting) == CanSubmit(form, submitting)
  {
    TrimPadded(p1, form.fullName, q1);
    ValidityIgnoresPadding(p2, form.email, q2);
    TrimPadded(p3, form.goal, q3);
  }

  /** Trimming BMP text leaves BMP text, whose UTF-16 length is its character count. */
  lemma TrimmedBmpLength(s: string)
    requires forall i :: 0 <= i < |s| ==> s[i] as int <= 0xFFFF
    ensures Utf16Length(Trim(s)) == |Trim(s)|
  {
    var k := TrimInfix(s);
    var t := Trim(s);
    forall i | 0 <= i < |t| ensures t[i] as int <= 0xFFFF {
      assert t[i] == s[k + i];
    }
  }

  /** For text inside the Basic Multilingual Plane the UTF-16 lengths are
      character counts, and the gate is the plain conjunction of its four tests. */
  lemma GateForBmpText(form: FormState, submitting: bool)
    requires forall i :: 0 <= i < |form.fullName| ==> form.fullName[i] as int <= 0xFFFF
    requires forall i :: 0 <= i < |form.goal| ==> form.goal[i] as int <= 0xFFFF
    ensures CanSubmit(form, submitting) <==>
              |Trim(form.fullName)| >= 2 && IsEmailValid(form.email) && |Trim(form.goal)| >= 6 && !submitting
  {
    TrimmedBmpLength(form.fullName);
    TrimmedBmpLength(form.goal);
  }

  /** The hint shows exactly when the email is invalid and holds some
      character other than whitespace; a blank field never shows it. */
  lemma HintMeaning(email: string)
    ensures ShowEmailHint(email) <==> !IsEmailValid(email) && !AllWs(email)
    ensures AllWs(email) ==> !ShowEmailHint(email)
    ensures IsEmailValid(email) ==> !ShowEmailHint(email)
  {
  }

  /** Whitespace around the email never changes whether the hint shows. */
  lemma HintIgnoresPadding(p: string, email: string, q: string)
    requires AllWs(p) && AllWs(q)
    ensures ShowEmailHint(p + email + q) == ShowEmailHint(email)
  {
    TrimPadded(p, email, q);
  }

  // ---------------------------------------------------------------------
  // The transitions

  /** A rejected submit only sets the guidance message: no field, no flag,
      and no work is touched. */
  lemma GuardRejection(s: Snapshot, outcome: Outcome)
    requires !CanSubmit(s.form, s.submitting)
    ensures ApplySubmit(s, outcome).form == s.form
    ensures ApplySubmit(s, outcome).submitting == s.submitting
    ensures ApplySubmit(s, outcome).submitted == s.submitted
    ensures ApplySubmit(s, outcome).error == Some(GuidanceMessage)
    ensures !ApplyBegin(s).1
  {
  }

  /** A submit made while one is in progress is turned away and the
      running one stays in progress. */
  lemma NoReentry(s: Snapshot)
    requires s.submitting
    ensures ApplyBegin(s) == (s.(error := Some(GuidanceMessage)), false)
  {
  }

  /** A handleSubmit run to completion confirms only when it passed the gate
      and its work resolved. */
  lemma SubmitConfirmationNeedsGate(s: Snapshot, outcome: Outcome)
    requires !s.submitted && ApplySubmit(s, outcome).submitted
    ensures CanSubmit(s.form, s.submitting) && outcome == Resolved
  {
  }

  /** Resetting twice is the same as resetting once. */
  lemma ResetIdempotent(s: Snapshot)
    ensures ApplyReset(ApplyReset(s)) == ApplyReset(s)
  {
  }

  /** Reset from any state that is not submitting is the state on mount. */
  lemma ResetRestoresInitial(s: Snapshot)
    requires !s.submitting
    ensures ApplyReset(s) == Initial
  {
  }

  // ---------------------------------------------------------------------
  // Sequences of events

  /** The events the page delivers to the controller. Begin and Settle are
      the two halves of one handleSubmit, with other events possible while
      the work is awaited; Submit is a handleSubmit with nothing in between. */
  datatype Event =
    | Change(key: FieldKey, value: string)
    | Begin
    | Settle(outcome: Outcome)
    | Submit(outcome: Outcome)
    | Reset

  /** One event. The second half of a handleSubmit only exists while its
      first half has left a submission in progress, so a Settle with nothing
      in flight changes nothing. */
  function Step(s: Snapshot, e: Event): Snapshot {
    match e
    case Change(key, value) => ApplyChange(s, key, value)
    case Begin => ApplyBegin(s).0
    case Settle(outcome) => if s.submitting then ApplySettle(s, outcome) else s
    case Submit(outcome) => ApplySubmit(s, outcome)
    case Reset => ApplyReset(s)
  }

  /** The state after the events, applied from first to last. */
  function Run(s: Snapshot, events: seq<Event>): Snapshot
    decreases |events|
  {
    if events == [] then s else Step(Run(s, events[..|events| - 1]), events[|events| - 1])
  }

  /** Whatever the user does, the error shown is one of the two fixed messages or none. */
  lemma {:induction false} RunKeepsErrorWellFormed(s: Snapshot, events: seq<Event>)
    requires ErrorWellFormed(s.error)
    ensures ErrorWellFormed(Run(s, events).error)
    decreases |events|
  {
    if events != [] {
      RunKeepsErrorWellFormed(s, events[..|events| - 1]);
    }
  }

  /** Without the first half of a split handleSubmit, a submission is never
      in progress between two events. */
  lemma {:induction false} AtomicRunNeverSubmitting(s: Snapshot, events: seq<Event>)
    requires !s.submitting
    requires forall i :: 0 <= i < |events| ==> !events[i].Begin?
    ensures !Run(s, events).submitting
    decreases |events|
  {
    if events != [] {
      var init := events[..|events| - 1];
      assert forall i :: 0 <= i < |init| ==> init[i] == events[i];
      AtomicRunNeverSubmitting(s, init);
    }
  }

  /** Event j is a Begin whose gate passed. */
  ghost predicate PassedBegin(s: Snapshot, events: seq<Event>, j: nat)
    requires j < |events|
  {
    events[j] == Begin && ApplyBegin(Run(s, events[..j])).1
  }

  /** Some event before index n is a Begin whose gate passed. */
  ghost predicate StartedBefore(s: Snapshot, events: seq<Event>, n: nat)
    requires n <= |events|
  {
    exists j | 0 <= j < n :: PassedBegin(s, events, j)
  }

  /** Event i turns the confirmation on: a handleSubmit that passed the gate
      and resolved, or the resolved second half of one whose first half
      passed the gate earlier. */
  ghost predicate ConfirmedBy(s: Snapshot, events: seq<Event>, i: nat)
    requires i < |events|
  {
    var t := Run(s, events[..i]);
    || (events[i] == Submit(Resolved) && CanSubmit(t.form, t.submitting))
    || (events[i] == Settle(Resolved) && t.submitting && StartedBefore(s, events, i))
  }

  /** Two sequences that agree on their first n elements agree on every
      shorter prefix and at every index below n. */
  lemma SharedPrefix<T>(a: seq<T>, b: seq<T>, n: nat, j: nat)
    requires j < n <= |a| && n <= |b| && a[..n] == b[..n]
    ensures a[..j] == b[..j] && a[j] == b[j]
  {
    assert a[..j] == a[..n][..j];
    assert b[..j] == b[..n][..j];
    assert a[j] == a[..n][j];
  }

  /** Whether a Begin passed before index n depends on the first n events only. */
  lemma StartedBeforeSamePrefix(s: Snapshot, a: seq<Event>, b: seq<Event>, n: nat)
    requires n <= |a| && n <= |b| && a[..n] == b[..n]
    requires StartedBefore(s, a, n)
    ensures StartedBefore(s, b, n)
  {
    var j :| 0 <= j < n && PassedBegin(s, a, j);
    SharedPrefix(a, b, n, j);
    assert PassedBegin(s, b, j);
  }

  /** Whether event i confirms depends on the first i + 1 events only. */
  lemma ConfirmedBySamePrefix(s: Snapshot, a: seq<Event>, b: seq<Event>, i: nat)
    requires i < |a| && i < |b| && a[..i + 1] == b[..i + 1]
    requires ConfirmedBy(s, a, i)
    ensures ConfirmedBy(s, b, i)
  {
    SharedPrefix(a, b, i + 1, i);
    if StartedBefore(s, a, i) {
      StartedBeforeSamePrefix(s, a, b, i);
    }
  }

  /** A submission is in progress only after a Begin that passed the gate. */
  lemma {:induction false} SubmittingNeedsStart(s: Snapshot, events: seq<Event>)
    requires !s.submitting
    ensures Run(s, events).submitting ==> StartedBefore(s, events, |events|)
    decreases |events|
  {
    if events != [] {
      var n := |events| - 1;
      var init, e := events[..n], events[n];
      var t := Run(s, init);
      SubmittingNeedsStart(s, init);
      if Step(t, e).submitting {
        if e == Begin && ApplyBegin(t).1 {
          assert events[..n] == init;
          assert PassedBegin(s, events, n);
        } else {
          assert t.submitting;
          assert init[..n] == events[..n];
          StartedBeforeSamePrefix(s, init, events, n);
        }
      }
    }
  }

  /** A single event turns the confirmation on only as a gated, resolved
      handleSubmit or as the resolved second half of one in progress. */
  lemma StepConfirms(t: Snapshot, e: Event)
    requires !t.submitted && Step(t, e).submitted
    ensures || (e == Submit(Resolved) && CanSubmit(t.form, t.submitting))
            || (e == Settle(Resolved) && t.submitting)
  {
    match e
    case Submit(outcome) => SubmitConfirmationNeedsGate(t, outcome);
    case Settle(outcome) => {}
    case _ => {}
  }

  /** The confirmation only appears through a submit that passed the gate and
      whose work resolved, whatever other events arrive during the await. */
  lemma {:induction false} ConfirmationNeedsGate(s: Snapshot, events: seq<Event>)
    requires !s.submitting && !s.submitted
    ensures Run(s, events).submitted ==> exists i | 0 <= i < |events| :: ConfirmedBy(s, events, i)
    decreases |events|
  {
    if events != [] && Run(s, events).submitted {
      var n := |events| - 1;
      var init, e := events[..n], events[n];
      var t := Run(s, init);
      assert events[..n] == init;
      if t.submitted {
        ConfirmationNeedsGate(s, init);
        var i :| 0 <= i < |init| && ConfirmedBy(s, init, i);
        assert init[..i + 1] == events[..i + 1];
        ConfirmedBySamePrefix(s, init, events, i);
      } else {
        assert events == init + [e];
        LastEventConfirms(s, init, e);
      }
    }
  }

  /** When the confirmation is off before the last event e and on after
      it, e is the event that confirms. */
  lemma LastEventConfirms(s: Snapshot, init: seq<Event>, e: Event)
    requires !s.submitting
    requires !Run(s, init).submitted && Step(Run(s, init), e).submitted
    ensures ConfirmedBy(s, init + [e], |init|)
  {
    var events := init + [e];
    var n := |init|;
    assert events[..n] == init;
    assert init[..n] == events[..n];
    StepConfirms(Run(s, init), e);
    if e == Settle(Resolved) {
      SubmittingNeedsStart(s, init);
      StartedBeforeSamePrefix(s, init, events, n);
    }
  }

  // ---------------------------------------------------------------------
  // Two sessions

  /** A name of one character and a goal of five are turned away with the guidance message. */
  lemma ShortFieldsRejected()
    ensures var s := Run(Initial, [Change(FullName, "A"), Change(Email, "x@y.com"), Change(Goal, "short")]);
            ApplySubmit(s, Resolved) == s.(error := Some(GuidanceMessage))
  {
    var s := Run(Initial, [Change(FullName, "A"), Change(Email, "x@y.com"), Change(Goal, "short")]);
    assert s.form.goal == "short";
    assert Trim("short") == "short" by { TrimOfTrimmed("short"); }
  }

  lemma SampleNameLongEnough()
    ensures Utf16Length(Trim("Jane Doe")) >= 2
  {
    assert Trim("Jane Doe") == "Jane Doe" by { TrimOfTrimmed("Jane Doe"); }
  }

  lemma SampleGoalLongEnough()
    ensures Utf16Length(Trim("Book more calls")) >= 6
  {
    assert Trim("Book more calls") == "Book more calls" by { TrimOfTrimmed("Book more calls"); }
  }

  lemma SampleEmailValid()
    ensures IsEmailValid("jane@example.com")
  {
    assert "jane@example.com" == "" + "jane" + "@" + "example" + "." + "com" + "";
    AcceptsThreeRuns("", "jane", "example", "com", "");
  }

  /** The form of the second session passes the gate. */
  lemma CompleteFormPasses(form: FormState)
    requires form == FormState("Jane Doe", "jane@example.com", "", "Book more calls")
    ensures CanSubmit(form, false)
  {
    SampleNameLongEnough();
    SampleGoalLongEnough();
    SampleEmailValid();
  }

  /** Typing the three fields of the second session from the state on mount. */
  lemma CompleteFormTyped()
    ensures Run(Initial, [Change(FullName, "Jane Doe"), Change(Email, "jane@example.com"),
                          Change(Goal, "Book more calls")])
            == Initial.(form := FormState("Jane Doe", "jane@example.com", "", "Book more calls"))
  {
    var events := [Change(FullName, "Jane Doe"), Change(Email, "jane@example.com"), Change(Goal, "Book more calls")];
    var two := events[..2];
    assert two == [Change(FullName, "Jane Doe"), Change(Email, "jane@example.com")];
    assert two[..1] == [Change(FullName, "Jane Doe")];
    assert Run(Initial, two[..1]) == Initial.(form := EmptyForm.(fullName := "Jane Doe"));
    assert Run(Initial, two) == Initial.(form := EmptyForm.(fullName := "Jane Doe", email := "jane@example.com"));
  }

  /** A complete form is submitted and confirmed; the reset after it
      returns the controller to its state on mount. */
  lemma CompleteFormConfirmedThenReset()
    ensures var s := Run(Initial, [Change(FullName, "Jane Doe"), Change(Email, "jane@example.com"),
                                   Change(Goal, "Book more calls")]);
            var t := ApplySubmit(s, Resolved);
            t.submitted && !t.submitting && t.error == None && t.form == s.form && ApplyReset(t) == Initial
  {
    var s := Run(Initial, [Change(FullName, "Jane Doe"), Change(Email, "jane@example.com"),
                           Change(Goal, "Book more calls")]);
    CompleteFormTyped();
    CompleteFormPasses(s.form);
  }
}
