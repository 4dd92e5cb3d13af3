/**
  The controlled-form plumbing the pages share: `handleInputChange` writes one field of
  the form state, keyed by the input's `name`, and clears that field's error.
 */
module Forms {

  /** A form field holds the text of an input or the state of a checkbox. */
  datatype FieldValue = Text(text: string) | Checked(on: bool)

  type FormState = map<string, FieldValue>

  /** The parts of an input event a handler reads: `name`, `value`, `type` and `checked`. */
  datatype InputEvent = InputEvent(name: string, value: string, isCheckbox: bool, checked: bool)

  /** `{...prev, [name]: type === 'checkbox' ? checked : value}`. */
  function ApplyInput(form: FormState, ev: InputEvent): (r: FormState)
    ensures r.Keys == form.Keys + {ev.name}
    ensures r[ev.name] == (if ev.isCheckbox then Checked(ev.checked) else Text(ev.value))
    ensures forall k :: k in form && k != ev.name ==> r[k] == form[k]
  {
    form[ev.name := if ev.isCheckbox then Checked(ev.checked) else Text(ev.value)]
  }

  /** `if (validationErrors[name]) setValidationErrors({...prev, [name]: ""})`: a non-empty
      message for the field is blanked; every other entry, and an absent one, stays. */
  function ClearFieldError<K>(errors: map<K, string>, name: K): (r: map<K, string>)
    ensures r.Keys == errors.Keys
    ensures name in r ==> r[name] == ""
    ensures forall k :: k in errors && k != name ==> r[k] == errors[k]
  {
    if name in errors && errors[name] != "" then errors[name := ""] else errors
  }

  /** Typing into a field twice leaves only the second value. */
  lemma LastInputWins(form: FormState, ev1: InputEvent, ev2: InputEvent)
    requires ev1.name == ev2.name
    ensures ApplyInput(ApplyInput(form, ev1), ev2) == ApplyInput(form, ev2)
  {
  }

  /** Inputs to different fields commute. */
  lemma DistinctInputsCommute(form: FormState, ev1: InputEvent, ev2: InputEvent)
    requires ev1.name != ev2.name
    ensures ApplyInput(ApplyInput(form, ev1), ev2) == ApplyInput(ApplyInput(form, ev2), ev1)
  {
  }
}
