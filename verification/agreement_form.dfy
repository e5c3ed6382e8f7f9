/**
 * The validated instrument-use agreement form (digital-agreement/src/App.js).
 *
 * The component keeps one piece of React state per entry: six typed text
 * entries plus a free-text defects note, a loan date fixed when the form is
 * created, two signatures that start out null, two flags saying which signing
 * modal is open, a map from field to error message, and a submitted flag.
 * Every handler is modelled as a pure transition from one `State` to the next.
 */
module AgreementForm {

  /** A JavaScript value that is either a string or null. */
  datatype Option<+T> = None | Some(value: T)

  /** Every entry of the form. */
  datatype Field =
    | StudentName | ParentName | Address | PhoneNumber | Instrument | Brand
    | LoanDate | Defects | ParentSignature | StudentSignature
  {
    predicate IsSignature() {
      this == ParentSignature || this == StudentSignature
    }
  }

  /** The entries the user types into. The loan date has no input, and no
      input writes the signatures: only the signing modal stores a value in them. */
  type TextField = f: Field | !f.IsSignature() && f != LoanDate witness StudentName

  /** The two people who sign the agreement. */
  datatype Signer = Parent | Student {
    function Other(): Signer {
      if this == Parent then Student else Parent
    }
  }

  datatype Entries = Entries(
    studentName: string,
    parentName: string,
    address: string,
    phoneNumber: string,
    instrument: string,
    brand: string,
    loanDate: string,
    defects: string,
    parentSignature: Option<string>,
    studentSignature: Option<string>)

  datatype State = State(
    entries: Entries,
    isSubmitted: bool,
    isParentSigning: bool,
    isStudentSigning: bool,
    errors: map<Field, string>)

  /** The current value of one entry; text entries are never null. */
  function Value(e: Entries, f: Field): Option<string> {
    match f
    case StudentName => Some(e.studentName)
    case ParentName => Some(e.parentName)
    case Address => Some(e.address)
    case PhoneNumber => Some(e.phoneNumber)
    case Instrument => Some(e.instrument)
    case Brand => Some(e.brand)
    case LoanDate => Some(e.loanDate)
    case Defects => Some(e.defects)
    case ParentSignature => e.parentSignature
    case StudentSignature => e.studentSignature
  }

  /** JavaScript falsiness of a string-or-null: null or the empty string.
      Nothing is trimmed, so a value made of spaces is present. */
  predicate Missing(v: Option<string>) {
    v == None || v == Some("")
  }

  /** The eight entries the submit handler insists on, in the order it checks them. */
  const RequiredFields: seq<Field> :=
    [StudentName, ParentName, Address, PhoneNumber, Instrument, Brand,
     ParentSignature, StudentSignature]

  /** True when none of the required entries is missing. */
  predicate Complete(e: Entries) {
    forall f :: f in RequiredFields ==> !Missing(Value(e, f))
  }

  /** The message shown under a missing entry. */
  function Message(f: Field): string {
    match f
    case StudentName => "Student Name is required."
    case ParentName => "Parent/Guardian Name is required."
    case Address => "Address is required."
    case PhoneNumber => "Phone Number is required."
    case Instrument => "Instrument is required."
    case Brand => "Brand and Serial # is required."
    case ParentSignature => "Parent/Guardian signature is required."
    case StudentSignature => "Student signature is required."
    case LoanDate => ""
    case Defects => ""
  }

  /** The signature slot and the modal flag that belong to a signer. */
  function Signature(e: Entries, who: Signer): Option<string> {
    if who == Parent then e.parentSignature else e.studentSignature
  }

  predicate IsSigning(s: State, who: Signer) {
    if who == Parent then s.isParentSigning else s.isStudentSigning
  }

  /** The signer handlers compare their argument with 'parent' and treat
      every other string as the student. */
  function SignerOf(signer: string): (who: Signer)
    ensures who == Parent <==> signer == "parent"
  {
    if signer == "parent" then Parent else Student
  }

  /** The placeholder the signing modal stores instead of a drawn image. */
  const MockSignature: string := "mock-signature-data"

  /** The state the component starts in; the loan date is today's date,
      supplied by the caller. */
  function Initial(loanDate: string): (s: State)
    ensures forall f :: f != LoanDate ==> Missing(Value(s.entries, f))
    ensures s.entries.parentSignature == None && s.entries.studentSignature == None
    ensures s.entries.loanDate == loanDate
    ensures !s.isSubmitted && !s.isParentSigning && !s.isStudentSigning
    ensures s.errors == map[]
  {
    State(
      Entries("", "", "", "", "", "", loanDate, "", None, None),
      false, false, false, map[])
  }

  /** The onChange handler of a text input: stores what was typed, verbatim. */
  function Edit(s: State, f: TextField, v: string): (r: State)
    ensures Value(r.entries, f) == Some(v)
    ensures forall g :: g != f ==> Value(r.entries, g) == Value(s.entries, g)
    ensures r.isSubmitted == s.isSubmitted && r.errors == s.errors
    ensures r.isParentSigning == s.isParentSigning && r.isStudentSigning == s.isStudentSigning
  {
    var e := s.entries;
    var e' := match f
      case StudentName => e.(studentName := v)
      case ParentName => e.(parentName := v)
      case Address => e.(address := v)
      case PhoneNumber => e.(phoneNumber := v)
      case Instrument => e.(instrument := v)
      case Brand => e.(brand := v)
      case Defects => e.(defects := v);
    s.(entries := e')
  }

  /** The validator's chain of checks: each check in `checks` whose entry is
      missing adds its message to `acc`; a later check never undoes an
      earlier one, so every violation is collected. */
  function CollectErrors(e: Entries, checks: seq<Field>, acc: map<Field, string>): (r: map<Field, string>)
    ensures forall f :: f in r <==> f in acc || (f in checks && Missing(Value(e, f)))
    ensures forall f :: f in r ==>
      r[f] == (if f in checks && Missing(Value(e, f)) then Message(f) else acc[f])
    decreases |checks|
  {
    if checks == [] then acc
    else
      var f := checks[0];
      assert forall g :: g in checks <==> g == f || g in checks[1..];
      CollectErrors(e, checks[1..], if Missing(Value(e, f)) then acc[f := Message(f)] else acc)
  }

  /** The error map the submit handler builds: exactly the missing required
      entries, each with its own message. */
  function Validate(e: Entries): (r: map<Field, string>)
    ensures forall f :: f in r <==> f in RequiredFields && Missing(Value(e, f))
    ensures forall f :: f in r ==> r[f] == Message(f)
    ensures r == map[] <==> Complete(e)
  {
    CollectErrors(e, RequiredFields, map[])
  }

  /** The submit handler. With a violation it records the new error map and
      stops; otherwise it clears the errors and moves to the submitted view.
      No entry and no modal flag changes either way. */
  function Submit(s: State): (r: State)
    ensures r.entries == s.entries
    ensures r.isParentSigning == s.isParentSigning && r.isStudentSigning == s.isStudentSigning
    ensures !Complete(s.entries) ==>
      && r.isSubmitted == s.isSubmitted
      && (forall f :: f in r.errors <==> f in RequiredFields && Missing(Value(s.entries, f)))
      && (forall f :: f in r.errors ==> r.errors[f] == Message(f))
    ensures Complete(s.entries) ==> r.isSubmitted && r.errors == map[]
  {
    var errors := Validate(s.entries);
    if |errors| > 0 then
      s.(errors := errors)
    else
      s.(errors := map[], isSubmitted := true)
  }

  /** The "Start New Form" handler: blanks the seven text entries, drops
      both signatures and leaves the submitted view. It does not touch the
      loan date, the error map or the modal flags. */
  function NewForm(s: State): (r: State)
    ensures forall f: TextField :: Value(r.entries, f) == Some("")
    ensures r.entries.parentSignature == None && r.entries.studentSignature == None
    ensures r.entries.loanDate == s.entries.loanDate
    ensures !r.isSubmitted
    ensures r.errors == s.errors
    ensures r.isParentSigning == s.isParentSigning && r.isStudentSigning == s.isStudentSigning
  {
    s.(entries := Entries("", "", "", "", "", "", s.entries.loanDate, "", None, None),
       isSubmitted := false)
  }

  /** Opens the signing modal of the named signer and no other. */
  function OpenSignaturePad(s: State, signer: string): (r: State)
    ensures IsSigning(r, SignerOf(signer))
    ensures IsSigning(r, SignerOf(signer).Other()) == IsSigning(s, SignerOf(signer).Other())
    ensures r.entries == s.entries && r.isSubmitted == s.isSubmitted && r.errors == s.errors
  {
    if signer == "parent" then s.(isParentSigning := true) else s.(isStudentSigning := true)
  }

  /** The Cancel button of a modal closes that modal and nothing else. */
  function CloseSignaturePad(s: State, who: Signer): (r: State)
    ensures !IsSigning(r, who)
    ensures IsSigning(r, who.Other()) == IsSigning(s, who.Other())
    ensures r.entries == s.entries && r.isSubmitted == s.isSubmitted && r.errors == s.errors
  {
    if who == Parent then s.(isParentSigning := false) else s.(isStudentSigning := false)
  }

  /** The Save button: stores the placeholder signature for the named signer
      and closes that signer's modal; the other signer is untouched. */
  function SaveSignature(s: State, signer: string): (r: State)
    ensures Signature(r.entries, SignerOf(signer)) == Some(MockSignature)
    ensures !Missing(Signature(r.entries, SignerOf(signer)))
    ensures Signature(r.entries, SignerOf(signer).Other()) == Signature(s.entries, SignerOf(signer).Other())
    ensures forall f: Field :: !f.IsSignature() ==> Value(r.entries, f) == Value(s.entries, f)
    ensures !IsSigning(r, SignerOf(signer))
    ensures IsSigning(r, SignerOf(signer).Other()) == IsSigning(s, SignerOf(signer).Other())
    ensures r.isSubmitted == s.isSubmitted && r.errors == s.errors
  {
    if signer == "parent" then
      s.(entries := s.entries.(parentSignature := Some(MockSignature)), isParentSigning := false)
    else
      s.(entries := s.entries.(studentSignature := Some(MockSignature)), isStudentSigning := false)
  }

  /** What the user can do. Text inputs, the two Sign buttons and the submit
      button exist only in the form view; "Start New Form" only in the
      submitted view; Cancel and Save only in an open modal. */
  datatype Event =
    | Type(field: TextField, text: string)
    | OpenPad(signer: string)
    | CancelPad(who: Signer)
    | SavePad(signer: string)
    | SubmitForm
    | StartNewForm

  predicate Enabled(s: State, ev: Event) {
    match ev
    case Type(_, _) => !s.isSubmitted
    case OpenPad(_) => !s.isSubmitted
    case CancelPad(who) => IsSigning(s, who)
    case SavePad(signer) => IsSigning(s, SignerOf(signer))
    case SubmitForm => !s.isSubmitted
    case StartNewForm => s.isSubmitted
  }

  /** One user action. A control the current view does not render cannot be
      used, so its event leaves the state as it is. */
  function Step(s: State, ev: Event): (r: State)
    ensures !Enabled(s, ev) ==> r == s
    ensures r.entries.loanDate == s.entries.loanDate
  {
    if !Enabled(s, ev) then s
    else
      match ev
      case Type(f, text) => Edit(s, f, text)
      case OpenPad(signer) => OpenSignaturePad(s, signer)
      case CancelPad(who) => CloseSignaturePad(s, who)
      case SavePad(signer) => SaveSignature(s, signer)
      case SubmitForm => Submit(s)
      case StartNewForm => NewForm(s)
  }

  /** A sequence of user actions, applied in order. */
  function Run(s: State, evs: seq<Event>): State
    decreases |evs|
  {
    if evs == [] then s else Run(Step(s, evs[0]), evs[1..])
  }
}

