/**
  The Task model: its schema (required fields, trimming, defaults), how a document is
  built from supplied fields, and the projections the handlers send.
 */
module Tasks {
  import opened Common
  import opened Text

  /** A stored task. `description` is absent when it was never set or was unset by an update. */
  datatype Task = Task(title: string, description: Option<string>, isCompleted: bool, isPublic: bool, owner: Id)

  /** The fields handed to `TaskModel.create`; any of them may be `undefined`. */
  datatype TaskFields = TaskFields(
    title: Option<string>,
    description: Option<string>,
    isCompleted: Option<bool>,
    isPublic: Option<bool>,
    owner: Option<Id>)

  datatype SchemaError = TitleRequired | OwnerRequired

  /** The `trim: true` setter on `description`. */
  function TrimmedDescription(d: Option<string>): Option<string> {
    match d
    case None => None
    case Some(s) => Some(Trim(s))
  }

  /** `TaskModel.create(fields)`: the setters trim title and description, the defaults fill
      `isCompleted` and `isPublic`, and validation requires a title that is non-empty after
      trimming and an owner. */
  function CreateDocument(f: TaskFields): (r: Result<Task, SchemaError>)
    ensures r.Ok? <==> f.title.Some? && !IsBlank(f.title.value) && f.owner.Some?
    ensures r.Ok? ==> r.value.title != "" && r.value.owner == f.owner.value
    ensures r.Ok? ==> r.value.title == Trim(f.title.value)
    ensures r.Ok? ==> r.value.description == TrimmedDescription(f.description)
  {
    if f.title.None? || Trim(f.title.value) == "" then Err(TitleRequired)
    else if f.owner.None? then Err(OwnerRequired)
    else Ok(Task(
      Trim(f.title.value),
      TrimmedDescription(f.description),
      f.isCompleted.GetOr(false),
      f.isPublic.GetOr(false),
      f.owner.value))
  }

  /** A title of white space only is trimmed to "" and then fails `required`. */
  lemma BlankTitleRejected(f: TaskFields)
    requires f.title.Some? && IsBlank(f.title.value)
    ensures CreateDocument(f) == Err(TitleRequired)
  {
  }

  /** The description is not required: a task without one is created. */
  lemma DescriptionOptional(title: string, owner: Id)
    requires !IsBlank(title)
    ensures CreateDocument(TaskFields(Some(title), None, None, None, Some(owner))).Ok?
  {
  }

  /** Omitted flags take their defaults: a new task is pending and private. */
  lemma FlagsDefaultToFalse(f: TaskFields)
    requires CreateDocument(f).Ok?
    ensures f.isCompleted.None? ==> !CreateDocument(f).value.isCompleted
    ensures f.isPublic.None? ==> !CreateDocument(f).value.isPublic
    ensures f.isCompleted.Some? ==> CreateDocument(f).value.isCompleted == f.isCompleted.value
    ensures f.isPublic.Some? ==> CreateDocument(f).value.isPublic == f.isPublic.value
  {
  }

  /** The validation `save()` runs on an existing document: the title must be non-empty. */
  predicate SaveValid(t: Task) {
    t.title != ""
  }

  /** The element `getAllTasks` sends for each of the requester's tasks. */
  datatype OwnView = OwnView(id: Id, title: string, description: Option<string>, isCompleted: bool, isPublic: bool)

  /** The element `viewPublicTasks` sends: no id, no owner, no visibility flag. */
  datatype PublicView = PublicView(title: string, description: Option<string>, isCompleted: bool)

  function ToOwnView(id: Id, t: Task): OwnView {
    OwnView(id, t.title, t.description, t.isCompleted, t.isPublic)
  }

  function ToPublicView(t: Task): PublicView {
    PublicView(t.title, t.description, t.isCompleted)
  }
}
