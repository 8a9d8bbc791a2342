# Lead-capture form controller of the landing page

The landing page has one piece of logic: the lead-capture form inside
`PremiumLeadGenLanding` in `src/Landing.tsx`. This project models it in
Dafny and proves what it promises. The form holds four text fields
(`fullName`, `email`, `company`, `goal`) and three more state variables:
`submitting`, `submitted` and `error`. Two values are derived from the fields:

- `isEmailValid` trims the email and tests it against `^[^\s@]+@[^\s@]+\.[^\s@]+$`.
- `canSubmit` needs a trimmed name of at least 2 and a trimmed goal of at least 6
  (JavaScript lengths), a valid email, and no submission in progress.

Three handlers change the state: `onChange`, `handleSubmit` and the reset
given to the thank-you card.

Files and modules:

- `text.dfy`, module `Text`: JavaScript's whitespace set, `String.prototype.trim`
  and `String.prototype.length`, which counts UTF-16 code units.
- `email.dfy`, module `EmailCheck`: the email pattern, read literally
  (`MatchesPattern`), and what it means structurally.
- `lead_form.dfy`, module `LeadForm`: the field record, `canSubmit`, the email
  hint, and every transition as a pure function on a `Snapshot` of the four state
  variables. Also the lemmas about them, and runs of events from the state on mount.
- `controller.dfy`, module `Controller`: class `LeadFormController`. Its fields are
  the four state variables and its methods are the handlers. Each method changes
  its fields step by step, as the source does. Its `ensures` says the new state is
  the `LeadForm` transition applied to the old state.

`handleSubmit` awaits some work between its first half and its second half.
The model splits it into `BeginSubmit` (the guard, then `submitting` set) and
`Settle` (the try/catch/finally). `Settle` takes an abstract `Outcome`: the work
either resolves or throws. Other events, such as `onChange`, may arrive between
the two halves. `HandleSubmit` is the two halves with nothing in between. The second half
only runs while its first half has a submission in progress, so `LeadForm.Step`
treats a `Settle` event with nothing in flight as having no effect.
The work as written (a 700 ms timer) always resolves, but the `Rejected` branch
(catch) is modelled and proved too.

## Model

| member | source | states |
|---|---|---|
| `Text.IsWs` | src/Landing.tsx:23-24 | the ECMAScript WhiteSpace and LineTerminator code points, the set that `trim` strips and that the regex class `\s` matches |
| `Text.TrimEnd` | src/Landing.tsx:23 | the result is the prefix of the input that ends at its last non-whitespace character; everything dropped is whitespace |
| `Text.Trim` | src/Landing.tsx:23 | the trimmed string has no whitespace at either end, and it is empty exactly when the input is all whitespace |
| `Text.TrimInfix` | src/Landing.tsx:23 | trim only removes characters: its result is an infix of the input with only whitespace around it |
| `Text.TrimIdempotent` | src/Landing.tsx:23 | trimming a trimmed string changes nothing |
| `Text.TrimPadded` | src/Landing.tsx:23 | wrapping a string in whitespace never changes what trim returns |
| `Text.Utf16Length` | src/Landing.tsx:29-31 | `.length` counts UTF-16 code units: a single character counts two when it lies outside the Basic Multilingual Plane and one otherwise; any string counts between one and two per character, and exactly one per character when all of it is inside that plane |
| `Text.Utf16LengthAppend` | src/Landing.tsx:29-31 | the length of a concatenation is the sum of the lengths, so with the single-character case it fixes `.length` of every string |
| `EmailCheck.MatchesPattern` | src/Landing.tsx:24 | the anchored regex `^[^\s@]+@[^\s@]+\.[^\s@]+$` read literally: an `@` and a later `.` split the string into three non-empty runs without whitespace or `@` |
| `EmailCheck.IsEmailValid` | src/Landing.tsx:22-25 | `isEmailValid`: the pattern tested against the trimmed email |
| `EmailCheck.PatternStructure` | src/Landing.tsx:22-25 | the pattern matches exactly when the string splits at an `@` into a non-empty local part and a domain, neither holding whitespace or a further `@`, where the domain has a `.` that is neither its first nor its last character (both directions) |
| `EmailCheck.ExactlyOneAt` | src/Landing.tsx:24 | a string the pattern matches holds exactly one `@` |
| `EmailCheck.TrimKeepsAtCount` | src/Landing.tsx:23 | trimming never changes the number of `@` |
| `EmailCheck.RejectsUnlessOneAt` | src/Landing.tsx:22-25 | an email with no `@`, or with two or more, is invalid |
| `EmailCheck.ValidityIgnoresPadding` | src/Landing.tsx:23 | whitespace around an email never changes its validity |
| `EmailCheck.ValidityIgnoresTrim` | src/Landing.tsx:23 | an email and its trimmed form are equally valid |
| `EmailCheck.ThreeRunsMatch` | src/Landing.tsx:24 | `local@host.tld` matches the pattern when each of the three parts is a non-empty run without whitespace or `@` |
| `EmailCheck.AcceptsThreeRuns` | src/Landing.tsx:22-25 | every such `local@host.tld` is valid, with any whitespace around it |
| `LeadForm.FormState.With` | src/Landing.tsx:37 | the spread `{ ...p, [key]: value }` sets field `key` to `value` and keeps the other three fields |
| `LeadForm.CanSubmit` | src/Landing.tsx:27-34 | `canSubmit`: trimmed name at least 2 UTF-16 code units, a valid email, trimmed goal at least 6, and nothing submitting |
| `LeadForm.ShowEmailHint` | src/Landing.tsx:217-221 | the hint under the email field: the email is invalid and its trimmed form is not empty |
| `LeadForm.GateShutWhileSubmitting` | src/Landing.tsx:27-34 | `canSubmit` is false while a submission is in progress, whatever the fields hold |
| `LeadForm.GateIgnoresCompany` | src/Landing.tsx:27-34 | the company field never affects `canSubmit` |
| `LeadForm.GateIgnoresPadding` | src/Landing.tsx:27-34 | whitespace around the name, the email and the goal, each padded independently (or not at all), never affects `canSubmit` |
| `LeadForm.GateForBmpText` | src/Landing.tsx:27-34 | for text in the Basic Multilingual Plane, `canSubmit` holds exactly when the trimmed name has at least 2 characters, the email is valid, the trimmed goal has at least 6, and nothing is submitting |
| `LeadForm.HintMeaning` | src/Landing.tsx:217-221 | the hint shows exactly when the email is invalid and holds a character other than whitespace; a blank email or a valid one never shows it |
| `LeadForm.HintIgnoresPadding` | src/Landing.tsx:217-221 | whitespace around the email never changes whether the hint shows |
| `LeadForm.ApplyChange` | src/Landing.tsx:36-39 | `onChange(key, v)` sets field `key` to `v` and clears the error; the other fields, `submitting` and `submitted` are unchanged |
| `LeadForm.ApplyBegin` | src/Landing.tsx:41-50 | the work starts exactly when `canSubmit` holds, and then `submitting` is set and the error is cleared; otherwise the error is the guidance message and `submitting` is unchanged; the fields and `submitted` are never touched |
| `LeadForm.ApplySettle` | src/Landing.tsx:51-64 | called only while a submission is in progress, as the code after the await only runs after `setSubmitting(true)`; afterwards nothing is submitting and the fields are unchanged; if the work resolved, `submitted` is set; if it threw, the error is the failure message and `submitted` keeps its value |
| `LeadForm.ApplySubmit` | src/Landing.tsx:41-65 | without `canSubmit` only the error changes, to the guidance message; with it the fields are kept and nothing is submitting. On success `submitted` is set and there is no error; on failure the error is the failure message and `submitted` keeps its value |
| `LeadForm.ApplyReset` | src/Landing.tsx:272-280 | all four fields become empty, `submitted` is false and there is no error, while `submitting` is left as it was |
| `LeadForm.GuardRejection` | src/Landing.tsx:43-48 | a submit without `canSubmit` keeps the fields, `submitting` and `submitted`, sets the guidance message and starts no work |
| `LeadForm.NoReentry` | src/Landing.tsx:27-34 | a submit while one is in progress is turned away with the guidance message and the first stays in progress |
| `LeadForm.SubmitConfirmationNeedsGate` | src/Landing.tsx:41-65 | a handleSubmit run to completion sets `submitted` only when it passed `canSubmit` and its work resolved |
| `LeadForm.StepConfirms` | src/Landing.tsx:36-65 | a single event turns `submitted` on only as a handleSubmit that passed `canSubmit` and resolved, or as the resolved second half of a submission in progress |
| `LeadForm.SubmittingNeedsStart` | src/Landing.tsx:43-50 | over any sequence of events from a state with nothing submitting, a submission is in progress only after some first half whose gate passed |
| `LeadForm.ConfirmationNeedsGate` | src/Landing.tsx:41-65 | over any sequence of events, with other events arriving during an await, `submitted` becomes true only through an event that is a handleSubmit that passed `canSubmit` and resolved, or the resolved second half of one whose first half passed `canSubmit` earlier |
| `LeadForm.ResetIdempotent` | src/Landing.tsx:272-280 | resetting twice gives the same state as resetting once |
| `LeadForm.ResetRestoresInitial` | src/Landing.tsx:272-280 | reset from a state that is not submitting gives back the state on mount |
| `LeadForm.RunKeepsErrorWellFormed` | src/Landing.tsx:36-65 | over any sequence of events, the error is none, the guidance message or the failure message |
| `LeadForm.AtomicRunNeverSubmitting` | src/Landing.tsx:50-63 | when no handleSubmit is interrupted at its await, no submission is ever left in progress |
| `LeadForm.ShortFieldsRejected` | src/Landing.tsx:27-48 | the name "A", the email "x@y.com" and the goal "short" are turned away with the guidance message and nothing else changes |
| `LeadForm.CompleteFormPasses` | src/Landing.tsx:27-34 | "Jane Doe", "jane@example.com" and "Book more calls" pass `canSubmit` |
| `LeadForm.CompleteFormConfirmedThenReset` | src/Landing.tsx:41-65 | that form is submitted and confirmed with no error, and the reset after it gives back the state on mount |
| `Controller.LeadFormController.constructor` | src/Landing.tsx:12-20 | on mount the fields are empty, nothing is submitting or submitted, and there is no error |
| `Controller.LeadFormController.OnChange` | src/Landing.tsx:36-39 | the new state is `ApplyChange` of the old one |
| `Controller.LeadFormController.BeginSubmit` | src/Landing.tsx:41-50 | the new state and the started flag are `ApplyBegin` of the old state |
| `Controller.LeadFormController.Settle` | src/Landing.tsx:51-64 | called only while a submission is in progress; the new state is `ApplySettle` of the old state and the outcome |
| `Controller.LeadFormController.HandleSubmit` | src/Landing.tsx:41-65 | the new state is `ApplySubmit` of the old state and the outcome |
| `Controller.LeadFormController.Reset` | src/Landing.tsx:272-280 | the new state is `ApplyReset` of the old one |

## Left out

- Markup and presentational components (`Stat`, `Badge`, `Feature`, `Field`, `Textarea`, `ThankYou` and the rest of the page): they hold no logic.
- The submit button's disabled state, styling and label: presentation derived from `canSubmit` and `submitting`.
- The 700 ms timer, `scrollIntoView` and `window.scrollTo`: browser side effects. The timer is replaced by the abstract `Outcome` of the awaited work.
- React mechanics (`useState`, `useMemo`, `e.preventDefault()`): state is plain fields, and the memoised values are functions of those fields.
- `src/App.tsx` (routes) and `src/main.tsx` (DOM bootstrap): no logic here. `./Booking` is not part of this model.
- Lone UTF-16 surrogates: a Dafny `string` holds Unicode scalar values, so a string with an unpaired surrogate cannot be expressed. For every other string, `Utf16Length` gives the JavaScript length.
- `LeadForm.ApplyReset`: the reset is callable only while the thank-you card is shown (`submitted` true). The model allows it from any state, which is a superset.
- React's batching of state updates: each setter is modelled as taking effect at once. The state after each handler is unchanged by this.

A looser reading of `isEmailValid`, that any `a@b.c` whose three parts are non-empty and free of whitespace is valid, is wrong when a part holds an `@` (for example `x@y@b.c`): such an address fails the pattern. The model follows the code, so `EmailCheck.AcceptsThreeRuns` also requires each part to be free of `@`.
