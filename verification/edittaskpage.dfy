/**
  The "Edit Task" page: the per-field checks, the input handler, and the body it sends with
  `PUT /tasks/:id`.
 */
module EditTaskPage {
  import opened Common
  import opened Text
  import opened Forms
  import opened Tasks
  import opened Db
  import opened TaskController

  datatype EditForm = EditForm(title: string, description: string, isCompleted: bool, isPublic: bool)

  const TitleMaxLength: nat := 100
  const DescriptionMaxLength: nat := 500

  /** One field's check: blank after trimming, else longer than `max` before trimming. */
  function FieldError(value: string, blank: string, tooLong: string, max: nat): (e: Option<string>)
    ensures e.None? <==> !IsBlank(value) && JsLength(value) <= max
    ensures e.Some? ==> e.value == (if IsBlank(value) then blank else tooLong)
  {
    if IsBlank(value) then Some(blank)
    else if JsLength(value) > max then Some(tooLong)
    else None
  }

  /** `validateForm`: the error object, with an entry for each failing field. */
  function ValidateEdit(f: EditForm): (errors: map<string, string>)
    ensures "title" in errors <==> IsBlank(f.title) || JsLength(f.title) > TitleMaxLength
    ensures "description" in errors <==> IsBlank(f.description) || JsLength(f.description) > DescriptionMaxLength
    ensures forall k :: k in errors ==> k == "title" || k == "description"
    ensures "title" in errors ==>
              errors["title"] == (if IsBlank(f.title) then "Title is required" else "Title must be less than 100 characters")
    ensures "description" in errors ==>
              errors["description"] ==
                (if IsBlank(f.description) then "Description is required" else "Description must be less than 500 characters")
  {
    var t := FieldError(f.title, "Title is required", "Title must be less than 100 characters", TitleMaxLength);
    var d := FieldError(f.description, "Description is required", "Description must be less than 500 characters", DescriptionMaxLength);
    var e: map<string, string> := if t.Some? then map["title" := t.value] else map[];
    if d.Some? then e["description" := d.value] else e
  }

  /** `validateForm()` returns true: the error object is empty. */
  predicate EditValid(f: EditForm) {
    ValidateEdit(f) == map[]
  }

  lemma EditValidIff(f: EditForm)
    ensures EditValid(f) <==>
              !IsBlank(f.title) && JsLength(f.title) <= TitleMaxLength
              && !IsBlank(f.description) && JsLength(f.description) <= DescriptionMaxLength
  {
    var e := ValidateEdit(f);
    if e != map[] {
      var k :| k in e;
    }
  }

  /** `handleInputChange`: writes the input's field, clears that field's validation
      message, and clears the page error. */
  function EditInput(form: FormState, errors: map<string, string>, error: string, ev: InputEvent)
    : (r: (FormState, map<string, string>, string))
    ensures ev.name in r.0 && r.0[ev.name] == (if ev.isCheckbox then Checked(ev.checked) else Text(ev.value))
    ensures forall k :: k in form && k != ev.name ==> k in r.0 && r.0[k] == form[k]
    ensures r.1.Keys == errors.Keys
    ensures ev.name in r.1 ==> r.1[ev.name] == ""
    ensures forall k :: k in errors && k != ev.name ==> r.1[k] == errors[k]
    ensures r.2 == ""
  {
    (ApplyInput(form, ev), ClearFieldError(errors, ev.name), "")
  }

  /** The body sent on submit: title and description trimmed, both flags as in the form. */
  function EditPayload(f: EditForm): (body: TaskRequest)
    ensures body.isCompleted == Some(f.isCompleted) && body.isPublic == Some(f.isPublic)
    ensures body.owner.None?
  {
    TaskRequest(Some(Trim(f.title)), Some(Trim(f.description)), Some(f.isCompleted), Some(f.isPublic), None)
  }

  // ---------------------------------------------------------------------------------------
  // Properties

  /** An accepted form sends a non-empty title of at most 100 characters and a non-empty
      description of at most 500. */
  lemma ValidPayloadBounded(f: EditForm)
    requires EditValid(f)
    ensures var body := EditPayload(f);
            && body.title.Some? && 0 < JsLength(body.title.value) <= TitleMaxLength
            && body.description.Some? && 0 < JsLength(body.description.value) <= DescriptionMaxLength
  {
    EditValidIff(f);
    TrimJsLength(f.title);
    TrimJsLength(f.description);
  }

  /** An accepted form, sent for an existing task, is saved: the title and description
      arrive trimmed, the completion flag as chosen, and the visibility checkbox has no
      effect because `updateTask` does not read `isPublic`. */
  lemma AcceptedEditSaved(st: State, requester: Id, id: string, f: EditForm)
    requires EditValid(f) && IsObjectId(id) && CastId(id) in st.tasks
    ensures var r := UpdateTask(st, requester, id, EditPayload(f));
            var key := CastId(id);
            && r.0.status == 200
            && r.1.tasks[key].title == Trim(f.title)
            && r.1.tasks[key].description == Some(Trim(f.description))
            && r.1.tasks[key].isCompleted == f.isCompleted
            && r.1.tasks[key].isPublic == st.tasks[key].isPublic
  {
    EditValidIff(f);
    TrimIdempotent(f.title);
    TrimIdempotent(f.description);
    assert !IsBlank(Trim(f.title));
  }

  /** Typing into one field leaves the other fields' validation messages alone. */
  lemma InputClearsOnlyItsError(form: FormState, f: EditForm, error: string, value: string)
    requires IsBlank(f.title) && IsBlank(f.description)
    ensures var r := EditInput(form, ValidateEdit(f), error, InputEvent("title", value, false, false));
            r.1 == map["title" := "", "description" := "Description is required"]
  {
  }
}
