/**
  `createtaskk`, the service behind `POST /tasks`: a truthiness check on three fields,
  then `TaskModel.create`.
 */
module TaskService {
  import opened Common
  import opened Text
  import opened Tasks

  /** JavaScript truthiness of an optional string: present and non-empty. */
  predicate Truthy(s: Option<string>) {
    s.Some? && s.value != ""
  }

  datatype ServiceError = AllFieldsRequired | Invalid(cause: SchemaError)

  /** `createtaskk({title, description, isPublic, owner})`. A falsy title, description or
      owner throws "All fields are required"; `isPublic` is not checked and reaches the
      schema, whose default applies when it is undefined; the schema then trims and
      validates. */
  function CreateTaskRecord(title: Option<string>, description: Option<string>, isPublic: Option<bool>, owner: Option<Id>): (r: Result<Task, ServiceError>)
    ensures r == Err(AllFieldsRequired) <==> !Truthy(title) || !Truthy(description) || owner.None?
    ensures r.Ok? <==> Truthy(title) && Truthy(description) && owner.Some? && !IsBlank(title.value)
    ensures r.Ok? ==>
              && r.value.title == Trim(title.value)
              && r.value.description == Some(Trim(description.value))
              && r.value.isPublic == isPublic.GetOr(false)
              && r.value.owner == owner.value
              && !r.value.isCompleted
  {
    if !Truthy(title) || !Truthy(description) || owner.None? then Err(AllFieldsRequired)
    else
      match CreateDocument(TaskFields(title, description, None, isPublic, owner))
      case Err(e) => Err(Invalid(e))
      case Ok(t) => Ok(t)
  }

  /** A title of white space only is truthy, so it passes the service's own check and is
      rejected by the schema instead. */
  lemma BlankTitleReachesSchema(title: string, description: string, owner: Id)
    requires title != "" && IsBlank(title) && description != ""
    ensures CreateTaskRecord(Some(title), Some(description), None, Some(owner)) == Err(Invalid(TitleRequired))
  {
  }

  /** An undefined `isPublic` passes and the task is created private. */
  lemma UndefinedIsPublicDefaults(title: string, description: string, owner: Id)
    requires !IsBlank(title) && description != ""
    ensures CreateTaskRecord(Some(title), Some(description), None, Some(owner)).Ok?
    ensures !CreateTaskRecord(Some(title), Some(description), None, Some(owner)).value.isPublic
  {
  }
}
