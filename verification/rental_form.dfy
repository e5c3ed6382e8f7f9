/**
 * The unvalidated instrument rental form (src/App.js).
 *
 * The component keeps a string-keyed record of ten entries and a flag
 * saying whether the thank-you view is shown. Every input writes its own
 * entry through one shared change handler, and nothing is checked in code
 * before the form is marked submitted.
 */
module RentalForm {

  /** The names of the ten inputs, which are also the record's initial keys. */
  const FieldNames: seq<string> :=
    ["studentName", "parentName", "address", "phoneNumber", "instrument",
     "accessories", "brandSerial", "instrumentCondition", "parentSignature",
     "studentSignature"]

  datatype State = State(formData: map<string, string>, isSubmitted: bool)

  /** The state the component starts in: every entry blank, form view shown. */
  function Initial(): (s: State)
    ensures forall n :: n in s.formData <==> n in FieldNames
    ensures forall n :: n in s.formData ==> s.formData[n] == ""
    ensures !s.isSubmitted
  {
    State(map n | n in FieldNames :: "", false)
  }

  /** The shared change handler: copies the record and sets the entry named
      by the input to the typed value. A name that is not yet a key becomes one. */
  function HandleChange(s: State, name: string, value: string): (r: State)
    ensures name in r.formData && r.formData[name] == value
    ensures r.formData.Keys == s.formData.Keys + {name}
    ensures forall n :: n in s.formData && n != name ==> r.formData[n] == s.formData[n]
    ensures r.isSubmitted == s.isSubmitted
  {
    s.(formData := s.formData[name := value])
  }

  /** The submit handler shows the thank-you view; the record is kept as is. */
  function HandleSubmit(s: State): (r: State)
    ensures r.isSubmitted
    ensures r.formData == s.formData
  {
    s.(isSubmitted := true)
  }

  /** The "Edit Again" button returns to the form view with the record kept. */
  function EditAgain(s: State): (r: State)
    ensures !r.isSubmitted
    ensures r.formData == s.formData
  {
    s.(isSubmitted := false)
  }

  /** What the user can do. The inputs and the submit button exist only in
      the form view, "Print" and "Edit Again" only in the thank-you view. */
  datatype Event =
    | Change(name: string, value: string)
    | Submit
    | Print
    | Edit

  predicate Enabled(s: State, ev: Event) {
    match ev
    case Change(name, _) => !s.isSubmitted && name in FieldNames
    case Submit => !s.isSubmitted
    case Print => s.isSubmitted
    case Edit => s.isSubmitted
  }

  /** One user action. Printing changes no state; a control the current view
      does not render cannot be used. */
  function Step(s: State, ev: Event): (r: State)
    ensures !Enabled(s, ev) ==> r == s
    ensures ev.Print? ==> r == s
  {
    if !Enabled(s, ev) then s
    else
      match ev
      case Change(name, value) => HandleChange(s, name, value)
      case Submit => HandleSubmit(s)
      case Print => s
      case Edit => EditAgain(s)
  }

  /** A sequence of user actions, applied in order. */
  function Run(s: State, evs: seq<Event>): State
    decreases |evs|
  {
    if evs == [] then s else Run(Step(s, evs[0]), evs[1..])
  }
}
