# Instrument rental agreement forms — a Dafny model

The repository collects musical-instrument rental agreements from a student
and a parent or guardian. Its form logic lives in two React components, and
this project models both as pure state machines over immutable records.

- **The validated agreement form** (`digital-agreement/src/App.js`, module
  `AgreementForm`). It has six required text entries (student name,
  parent/guardian name, address, phone number, instrument, brand and serial
  number), a free-text defects note and a loan date. It also has two signatures
  that start out null, a flag for each signing modal, an error map from field
  to message and a submitted flag. Submitting runs every check and collects
  all violations into the error map. If there are none, it clears the map and
  shows the submitted view. "Start New Form" blanks the entries. The two
  signing modals open, cancel and save a placeholder signature for one signer
  each.
- **The unvalidated rental form** (`src/App.js`, module `RentalForm`). It
  keeps a string-keyed record of ten entries, written by one shared change
  handler, and a submitted flag. Submit and "Edit Again" toggle that flag.

Each handler is a Dafny function from one state to the next. Its contract
says what the handler changes and what it leaves alone. `Step` and `Run`
apply sequences of user events. An event whose control the current view does
not render leaves the state unchanged. The lemmas in `AgreementProperties`
and `RentalProperties` relate handlers to each other: idempotence,
commutation, undo and round trips. They also prove invariants of every
reachable state.

JavaScript truthiness of a string-or-null becomes `Missing`: a value is
missing when it is null or empty. No trimming is done, so a value of spaces
is present. Strings are `seq<char>`; null is `None` of the model's `Option`.

Besides the four personal entries and the two signatures, the agreement form
also requires the instrument and the brand at submission
(digital-agreement/src/App.js:92-93), so `RequiredFields` holds eight
entries. Neither form contains a shared store, a subscription, identity
resolution or an assignment step.

## Model

| member | source | states |
|---|---|---|
| AgreementForm.Initial | digital-agreement/src/App.js:18-37 | the form starts with every entry but the loan date blank, both signatures null, no modal open, no errors and the form view shown; the loan date is the one supplied |
| AgreementForm.Edit | digital-agreement/src/App.js:216-290 | typing into a text input stores the text verbatim in that entry; every other entry, the errors, the submitted flag and both modal flags are unchanged |
| AgreementForm.CollectErrors | digital-agreement/src/App.js:87-95 | the chain of checks keeps every earlier error and adds exactly the checked entries that are missing, each with its own message; the result's keys are the earlier keys plus the missing checked entries |
| AgreementForm.Validate | digital-agreement/src/App.js:86-95 | the error map's keys are exactly the required entries that are null or empty, each mapped to its message; the map is empty exactly when the form is complete |
| AgreementForm.Submit | digital-agreement/src/App.js:85-104 | no entry or modal flag changes; with a violation the errors become exactly the missing required entries and the submitted flag keeps its value; without one the errors become empty and the submitted flag becomes true |
| AgreementForm.NewForm | digital-agreement/src/App.js:109-120 | the seven text entries become empty, both signatures null and the submitted flag false; the loan date, the error map and both modal flags are kept |
| AgreementForm.SignerOf | digital-agreement/src/App.js:126-132 | a signer argument means the parent exactly when it equals 'parent'; any other string means the student |
| AgreementForm.OpenSignaturePad | digital-agreement/src/App.js:126-132 | the named signer's modal is open afterwards; the other modal, the entries, the errors and the submitted flag are unchanged |
| AgreementForm.CloseSignaturePad | digital-agreement/src/App.js:186-196 | Cancel closes that signer's modal only; everything else is unchanged |
| AgreementForm.SaveSignature | digital-agreement/src/App.js:138-147 | the named signer's signature becomes the non-empty placeholder and their modal closes; the other signer's signature and modal, every text entry, the errors and the submitted flag are unchanged |
| AgreementForm.Step | digital-agreement/src/App.js:207-208 | an event whose control is not rendered in the current view leaves the state unchanged, and no event changes the loan date |
| AgreementProperties.BlankFormReportsEveryRequiredEntry | digital-agreement/src/App.js:86-95 | validation does not stop at the first violation: a blank form is reported for all eight required entries |
| AgreementProperties.ValidateDependsOnlyOnRequired | digital-agreement/src/App.js:87-95 | two forms that agree on the eight required entries get the same error map |
| AgreementProperties.BlankTextIsNotMissing | digital-agreement/src/App.js:88-95 | a text entry made only of spaces is not reported, because nothing is trimmed |
| AgreementProperties.SubmitIgnoresDefectsAndLoanDate | digital-agreement/src/App.js:85-104 | changing the defects note or the loan date never changes the submitted flag or the errors after a submission |
| AgreementProperties.EmptyDefectsStillSubmits | digital-agreement/src/App.js:97-104 | a form with all eight required entries filled and an empty defects note is accepted with no errors and unchanged entries |
| AgreementProperties.SubmitIdempotent | digital-agreement/src/App.js:85-104 | submitting twice in a row gives the same state as submitting once |
| AgreementProperties.NewFormIdempotent | digital-agreement/src/App.js:109-120 | resetting twice in a row gives the same state as resetting once |
| AgreementProperties.CancelUndoesOpen | digital-agreement/src/App.js:126-132 | opening a closed modal and then cancelling it restores the previous state exactly |
| AgreementProperties.SaveAfterOpen | digital-agreement/src/App.js:138-147 | opening a modal and saving gives the same state as saving directly |
| AgreementProperties.InitialSatisfiesInv | digital-agreement/src/App.js:18-37 | the initial state satisfies the invariant and is not complete |
| AgreementProperties.StepPreservesInv | digital-agreement/src/App.js:97-104 | every user event keeps the invariant that the submitted view is shown only with no errors and every required entry present |
| AgreementProperties.RunPreservesInv | digital-agreement/src/App.js:97-120 | any sequence of user events keeps that invariant |
| AgreementProperties.RunKeepsLoanDate | digital-agreement/src/App.js:24 | no sequence of user events changes the loan date, since nothing calls its setter |
| AgreementProperties.NewFormFromReachableIsInitial | digital-agreement/src/App.js:109-120 | in every reachable submitted state, resetting yields the initial form again, apart from the modal flags; leaving the error map alone is unobservable there |
| RentalForm.Initial | src/App.js:4-17 | the record's keys are exactly the ten input names, all blank, and the form view is shown |
| RentalForm.HandleChange | src/App.js:19-25 | the named entry holds the new value, the key set gains the name and nothing else, every other entry and the submitted flag are unchanged |
| RentalForm.HandleSubmit | src/App.js:27-35 | the thank-you view is shown and the record is unchanged; nothing is validated |
| RentalForm.EditAgain | src/App.js:58 | the form view is shown again and the record is unchanged |
| RentalForm.Step | src/App.js:44-65 | an event whose control is not rendered in the current view leaves the state unchanged, and printing changes no state |
| RentalProperties.ChangeIdempotent | src/App.js:19-25 | applying the same change twice equals applying it once |
| RentalProperties.ChangesCommute | src/App.js:19-25 | changes to two different names commute |
| RentalProperties.ChangeUndone | src/App.js:19-25 | writing an existing entry's old value back restores the state exactly |
| RentalProperties.UnknownNameAddsKey | src/App.js:20-24 | a change under a name that is not a key adds that key, growing the record by one |
| RentalProperties.SubmitThenEditAgainRestores | src/App.js:27-58 | submitting and then choosing "Edit Again" restores the exact state before the submission |
| RentalProperties.BlankFormSubmits | src/App.js:27-35 | the blank initial form submits, because nothing is checked in code |
| RentalProperties.RunKeepsKeys | src/App.js:84-225 | every input's name is one of the ten keys, so along any run the record keeps exactly the ten keys |
| RentalProperties.RunWithoutTypingKeepsRecord | src/App.js:27-58 | a run with no typing leaves the record unchanged, because only the change handler writes it |

## Left out

- PDF generation is left out because it is a foreign library call. This covers the `usePDF` hook, `updateInstance` after a successful submission and the mocked document components (digital-agreement/src/App.js:2-9, 44-78, 103).
- Rendering, styling and layout of both components are left out as pure presentation. The views enter the model only as the rule for which controls exist (`Enabled`).
- The browser's `required` attributes on the rental form inputs are left out. The browser enforces them, not the component, so in the model the rental form submits with blank entries.
- `console.log` on submission and `window.print` behind the Print button are left out as I/O. The Print event changes no state.
- AgreementForm.Initial: the default loan date is today's date from the clock, so the model takes it as a string parameter.
- AgreementForm.SaveSignature: nothing is drawn on the signing pad. The source stores the constant `"mock-signature-data"`, and so does the model.
- The shared document store, its subscription, identity and role resolution, and the administrator's instrument assignment are not part of this model. Neither component contains them.
