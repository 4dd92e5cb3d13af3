/**
  The "Create Task" page: the form checks run before `POST /tasks`, and the input handler.
 */
module CreateTaskPage {
  import opened Common
  import opened Text
  import opened Forms
  import opened Db
  import opened TaskController

  datatype CreateForm = CreateForm(title: string, description: string, isPublic: bool)

  const TitleMaxLength: nat := 100
  const DescriptionMaxLength: nat := 500

  /** `validateForm`: the checks run in a fixed order and the first failure is the page
      error; `None` means the form may be posted. Lengths are counted before trimming. */
  function ValidateCreate(f: CreateForm): (error: Option<string>)
    ensures error.None? <==>
              !IsBlank(f.title) && !IsBlank(f.description)
              && JsLength(f.title) <= TitleMaxLength && JsLength(f.description) <= DescriptionMaxLength
    ensures IsBlank(f.title) ==> error == Some("Title is requiblue")
    ensures !IsBlank(f.title) && IsBlank(f.description) ==> error == Some("Description is requiblue")
    ensures !IsBlank(f.title) && !IsBlank(f.description) && JsLength(f.title) > TitleMaxLength ==>
              error == Some("Title must be less than 100 characters")
    ensures !IsBlank(f.title) && !IsBlank(f.description) && JsLength(f.title) <= TitleMaxLength
              && JsLength(f.description) > DescriptionMaxLength ==>
              error == Some("Description must be less than 500 characters")
  {
    if IsBlank(f.title) then Some("Title is requiblue")
    else if IsBlank(f.description) then Some("Description is requiblue")
    else if JsLength(f.title) > TitleMaxLength then Some("Title must be less than 100 characters")
    else if JsLength(f.description) > DescriptionMaxLength then Some("Description must be less than 500 characters")
    else None
  }

  /** The form state as the input handler sees it. */
  function Fields(f: CreateForm): FormState {
    map["title" := Text(f.title), "description" := Text(f.description), "isPublic" := Checked(f.isPublic)]
  }

  /** `handleInputChange`: writes the input's field and clears the page error. */
  function CreateInput(form: FormState, error: string, ev: InputEvent): (r: (FormState, string))
    ensures ev.name in r.0 && r.0[ev.name] == (if ev.isCheckbox then Checked(ev.checked) else Text(ev.value))
    ensures forall k :: k in form && k != ev.name ==> k in r.0 && r.0[k] == form[k]
    ensures r.1 == ""
  {
    (ApplyInput(form, ev), "")
  }

  // ---------------------------------------------------------------------------------------
  // Properties

  /** The limits are inclusive, although the messages say "less than": a 100-character
      title and a 500-character description pass, one more character fails. */
  lemma LengthBoundaries(title: string, description: string, c: char)
    requires JsLength(title) == TitleMaxLength && JsLength(description) == DescriptionMaxLength
    requires !IsSpace(title[0]) && !IsSpace(description[0])
    ensures ValidateCreate(CreateForm(title, description, false)).None?
    ensures ValidateCreate(CreateForm(title + [c], description, false)) == Some("Title must be less than 100 characters")
    ensures ValidateCreate(CreateForm(title, description + [c], false)) == Some("Description must be less than 500 characters")
  {
    assert (title + [c])[0] == title[0];
    assert (description + [c])[0] == description[0];
    JsLengthAppend(title, [c]);
    JsLengthAppend(description, [c]);
  }

  /** `length` counts UTF-16 code units: a title of 51 characters from outside the Basic
      Multilingual Plane (emoji, say) is 102 long and is refused. */
  lemma SurrogatePairsCountTwice(title: string, description: string)
    requires |title| == 51 && forall i :: 0 <= i < |title| ==> title[i] as int > 0xFFFF
    requires !IsBlank(description) && JsLength(description) <= DescriptionMaxLength
    ensures ValidateCreate(CreateForm(title, description, false)) == Some("Title must be less than 100 characters")
  {
    JsLengthAstral(title);
    assert !IsSpace(title[0]);
  }

  /** Typing into the title input changes the title only; ticking the checkbox changes the
      visibility only. */
  lemma InputsUpdateOneField(f: CreateForm, value: string, checked: bool, error: string)
    ensures CreateInput(Fields(f), error, InputEvent("title", value, false, false)).0 == Fields(f.(title := value))
    ensures CreateInput(Fields(f), error, InputEvent("description", value, false, false)).0 == Fields(f.(description := value))
    ensures CreateInput(Fields(f), error, InputEvent("isPublic", "on", true, checked)).0 == Fields(f.(isPublic := checked))
  {
    assert Fields(f)["title" := Text(value)] == Fields(f.(title := value));
    assert Fields(f)["description" := Text(value)] == Fields(f.(description := value));
    assert Fields(f)["isPublic" := Checked(checked)] == Fields(f.(isPublic := checked));
  }

  /** The request body the page posts: the form state as it stands. */
  function Posted(f: CreateForm): TaskRequest {
    TaskRequest(Some(f.title), Some(f.description), None, Some(f.isPublic), None)
  }

  /** A form the page accepts is accepted by the server: the service's truthiness check
      and the schema's trimmed-title check both pass, and the task is stored for the
      requester with the chosen visibility. */
  lemma AcceptedFormCreates(st: State, requester: Id, f: CreateForm, newId: Id)
    requires newId !in st.tasks && newId !in st.taskOrder
    requires ValidateCreate(f).None?
    ensures var r := CreateTask(st, requester, Posted(f), newId);
            && r.0.status == 201
            && r.1.tasks[newId].owner == requester
            && r.1.tasks[newId].isPublic == f.isPublic
            && r.1.tasks[newId].title == Trim(f.title)
  {
  }
}
