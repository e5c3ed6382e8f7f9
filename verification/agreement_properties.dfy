/**
 * Properties of the validated agreement form: what the validator reports,
 * what submitting and resetting change and keep, how the signing modals
 * behave, and an invariant of every state the user can reach.
 */
module AgreementProperties {
  import opened AgreementForm

  /** Dafny's own set extensionality, stated as a hint for the solver; it has no model meaning. */
  lemma SetExtensionality(a: set<Field>, b: set<Field>)
    requires forall f :: f in a <==> f in b
    ensures a == b
  {
  }

  /** Dafny's own map extensionality, stated as a hint for the solver; it has no model meaning. */
  lemma MapExtensionality(a: map<Field, string>, b: map<Field, string>)
    requires forall f :: f in a <==> f in b
    requires forall f :: f in a ==> a[f] == b[f]
    ensures a == b
  {
  }

  lemma BlankEntryReported(loanDate: string, f: Field)
    requires f in RequiredFields
    ensures f in Validate(Initial(loanDate).entries)
  {
  }

  /** The validator does not stop at the first violation: a blank form is
      reported for all eight required entries at once. */
  lemma BlankFormReportsEveryRequiredEntry(loanDate: string)
    ensures Validate(Initial(loanDate).entries).Keys ==
      {StudentName, ParentName, Address, PhoneNumber, Instrument, Brand,
       ParentSignature, StudentSignature}
  {
    var errors := Validate(Initial(loanDate).entries);
    var all := {StudentName, ParentName, Address, PhoneNumber, Instrument, Brand,
                ParentSignature, StudentSignature};
    forall f | f in RequiredFields
      ensures f in errors
    {
      BlankEntryReported(loanDate, f);
    }
    forall f
      ensures f in errors.Keys <==> f in all
    {
      assert f in all <==> f in RequiredFields;
    }
    SetExtensionality(errors.Keys, all);
  }

  /** The validator looks only at the eight required entries: two forms that
      agree on those get the same error map. */
  lemma ValidateDependsOnlyOnRequired(e1: Entries, e2: Entries)
    requires forall f :: f in RequiredFields ==> Value(e1, f) == Value(e2, f)
    ensures Validate(e1) == Validate(e2)
  {
    var a, b := Validate(e1), Validate(e2);
    forall f
      ensures f in a <==> f in b
    {
    }
    forall f | f in a
      ensures a[f] == b[f]
    {
    }
    MapExtensionality(a, b);
  }

  /** Presence is JavaScript truthiness, with no trimming: an entry made only
      of spaces is not reported. */
  lemma BlankTextIsNotMissing(s: State, f: TextField, spaces: string)
    requires |spaces| > 0 && forall i :: 0 <= i < |spaces| ==> spaces[i] == ' '
    ensures f !in Submit(Edit(s, f, spaces)).errors
  {
    var t := Edit(s, f, spaces);
    assert spaces != "";
    assert !Missing(Value(t.entries, f));
  }

  /** Neither the defects note nor the loan date is checked: changing them
      never changes the outcome of a submission. */
  lemma SubmitIgnoresDefectsAndLoanDate(s: State, defects: string, loanDate: string)
    ensures var t := s.(entries := s.entries.(defects := defects, loanDate := loanDate));
      Submit(t).isSubmitted == Submit(s).isSubmitted && Submit(t).errors == Submit(s).errors
  {
    var t := s.(entries := s.entries.(defects := defects, loanDate := loanDate));
    assert forall f :: f in RequiredFields ==> Value(t.entries, f) == Value(s.entries, f);
    ValidateDependsOnlyOnRequired(t.entries, s.entries);
  }

  /** A form with every required entry filled in and an empty defects note
      is accepted. */
  lemma EmptyDefectsStillSubmits(s: State)
    requires Complete(s.entries) && s.entries.defects == ""
    ensures Submit(s).isSubmitted && Submit(s).errors == map[]
    ensures Submit(s).entries == s.entries
  {
  }

  /** Submitting twice in a row is the same as submitting once. */
  lemma SubmitIdempotent(s: State)
    ensures Submit(Submit(s)) == Submit(s)
  {
  }

  /** Resetting twice in a row is the same as resetting once. */
  lemma NewFormIdempotent(s: State)
    ensures NewForm(NewForm(s)) == NewForm(s)
  {
  }

  /** Cancelling a modal right after opening it restores the previous state. */
  lemma CancelUndoesOpen(s: State, signer: string)
    requires !IsSigning(s, SignerOf(signer))
    ensures CloseSignaturePad(OpenSignaturePad(s, signer), SignerOf(signer)) == s
  {
  }

  /** Saving right after opening leaves the modals as they were before the
      modal was opened. */
  lemma SaveAfterOpen(s: State, signer: string)
    ensures SaveSignature(OpenSignaturePad(s, signer), signer) == SaveSignature(s, signer)
  {
  }

  /** What holds of every state the user can reach from the initial one: the
      submitted view is only ever shown with no errors and a complete form. */
  predicate Inv(s: State) {
    s.isSubmitted ==> s.errors == map[] && Complete(s.entries)
  }

  lemma InitialSatisfiesInv(loanDate: string)
    ensures Inv(Initial(loanDate))
    ensures !Complete(Initial(loanDate).entries)
  {
    assert Missing(Value(Initial(loanDate).entries, StudentName));
  }

  lemma StepPreservesInv(s: State, ev: Event)
    requires Inv(s)
    ensures Inv(Step(s, ev))
  {
  }

  lemma {:induction false} RunPreservesInv(s: State, evs: seq<Event>)
    requires Inv(s)
    ensures Inv(Run(s, evs))
    decreases |evs|
  {
    if evs != [] {
      StepPreservesInv(s, evs[0]);
      RunPreservesInv(Step(s, evs[0]), evs[1..]);
    }
  }

  /** No handler ever writes the loan date: it keeps the value it started with. */
  lemma {:induction false} RunKeepsLoanDate(s: State, evs: seq<Event>)
    ensures Run(s, evs).entries.loanDate == s.entries.loanDate
    decreases |evs|
  {
    if evs != [] {
      RunKeepsLoanDate(Step(s, evs[0]), evs[1..]);
    }
  }

  /** The reset does not clear the error map, but in every reachable state
      that is unobservable: resetting from the submitted view yields the
      initial form again, apart from whichever modal happens to be open. */
  lemma NewFormFromReachableIsInitial(loanDate: string, evs: seq<Event>)
    requires Run(Initial(loanDate), evs).isSubmitted
    ensures var s := Run(Initial(loanDate), evs);
      NewForm(s) == Initial(loanDate).(isParentSigning := s.isParentSigning,
                                       isStudentSigning := s.isStudentSigning)
  {
    InitialSatisfiesInv(loanDate);
    RunPreservesInv(Initial(loanDate), evs);
    RunKeepsLoanDate(Initial(loanDate), evs);
  }
}
