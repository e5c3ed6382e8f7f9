/**
 * Properties of the unvalidated rental form: the change handler is a
 * single-key update, submitting and editing again only toggle the view,
 * and the record keeps exactly its ten keys along every run.
 */
module RentalProperties {
  import opened RentalForm

  /** Writing the same value twice is the same as writing it once. */
  lemma ChangeIdempotent(s: State, name: string, value: string)
    ensures HandleChange(HandleChange(s, name, value), name, value) == HandleChange(s, name, value)
  {
  }

  /** Changes to two different entries can be applied in either order. */
  lemma ChangesCommute(s: State, n1: string, v1: string, n2: string, v2: string)
    requires n1 != n2
    ensures HandleChange(HandleChange(s, n1, v1), n2, v2) == HandleChange(HandleChange(s, n2, v2), n1, v1)
  {
  }

  /** Typing the old value back into an existing entry undoes a change. */
  lemma ChangeUndone(s: State, name: string, value: string)
    requires name in s.formData
    ensures HandleChange(HandleChange(s, name, value), name, s.formData[name]) == s
  {
  }

  /** A name that is not among the keys is added to the record. */
  lemma UnknownNameAddsKey(s: State, name: string, value: string)
    requires name !in s.formData
    ensures |HandleChange(s, name, value).formData| == |s.formData| + 1
  {
  }

  /** Submitting and then editing again restores the exact state before the
      submission. */
  lemma SubmitThenEditAgainRestores(s: State)
    requires !s.isSubmitted
    ensures EditAgain(HandleSubmit(s)) == s
  {
  }

  /** There is no validation in code: even the blank initial form submits. */
  lemma BlankFormSubmits()
    ensures HandleSubmit(Initial()).isSubmitted
    ensures HandleSubmit(Initial()).formData == Initial().formData
  {
  }

  /** Every input's name is one of the ten keys, so the record's key set
      never changes along any run. */
  lemma {:induction false} RunKeepsKeys(s: State, evs: seq<Event>)
    requires forall n :: n in s.formData <==> n in FieldNames
    ensures forall n :: n in Run(s, evs).formData <==> n in FieldNames
    decreases |evs|
  {
    if evs != [] {
      var t := Step(s, evs[0]);
      assert forall n :: n in t.formData <==> n in FieldNames;
      RunKeepsKeys(t, evs[1..]);
    }
  }

  /** Only the change handler writes the record: a run without typing leaves
      it as it was. */
  lemma {:induction false} RunWithoutTypingKeepsRecord(s: State, evs: seq<Event>)
    requires forall i :: 0 <= i < |evs| ==> !evs[i].Change?
    ensures Run(s, evs).formData == s.formData
    decreases |evs|
  {
    if evs != [] {
      RunWithoutTypingKeepsRecord(Step(s, evs[0]), evs[1..]);
    }
  }
}
