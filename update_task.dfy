/** The UpdateTask use case: its command, validator and handler. */
module UpdateTask {
  import opened Wrappers
  import opened Common
  import opened Enums
  import opened Events
  import opened Strings
  import opened Validation
  import ValueObjects
  import opened Entities
  import opened Repositories
  import opened Dtos
  import CreateTask

  datatype UpdateTaskCommand = UpdateTaskCommand(
    id: Id,
    title: Option<string>,
    description: Option<string>,
    priority: int,
    dueDate: Option<Timestamp>)

  /** The fields that the create validator also checks. */
  function AsCreate(c: UpdateTaskCommand): CreateTask.CreateTaskCommand {
    CreateTask.CreateTaskCommand(c.title, c.description, c.priority, c.dueDate)
  }

  /** A validator built at clock reading `now`. After a rule on Id it
      declares the same rules, with the same limits and messages, as the
      create validator, so those are taken from there. */
  datatype UpdateTaskCommandValidator = UpdateTaskCommandValidator(now: Timestamp) {

    /** RuleFor(x => x.Id).NotEmpty(): not Guid.Empty. */
    function IdRules(id: Id): (fs: seq<ValidationFailure>)
      ensures AllOn(fs, IdField)
      ensures fs == [] <==> id != EmptyId
    {
      Rule(id != EmptyId, IdField, "Task Id is required")
    }

    /** Validate: the Id rule's failures, then those of the field rules. */
    function Validate(c: UpdateTaskCommand): (r: seq<ValidationFailure>)
      ensures HasErrorOn(r, IdField) <==> c.id == EmptyId
      ensures HasErrorOn(r, TitleField) <==>
                IsNullOrWhiteSpace(c.title) || Utf16Length(c.title.value) > CreateTask.MaxTitleLength
      ensures HasErrorOn(r, DescriptionField) <==>
                !IsNullOrEmpty(c.description) && Utf16Length(c.description.value) > CreateTask.MaxDescriptionLength
      ensures HasErrorOn(r, PriorityField) <==> !IsInEnum(c.priority)
      ensures HasErrorOn(r, DueDateField) <==> c.dueDate.Some? && c.dueDate.value <= now
      ensures !HasErrorOn(r, StatusField)
      ensures c.id == EmptyId ==> |r| > 0 && r[0].property == IdField
    {
      var i, f := IdRules(c.id), CreateTask.CreateTaskCommandValidator(now).Validate(AsCreate(c));
      HasErrorOnAppend(i, f);
      HasErrorOnUniform(i, IdField, TitleField);
      HasErrorOnUniform(i, IdField, DescriptionField);
      HasErrorOnUniform(i, IdField, PriorityField);
      HasErrorOnUniform(i, IdField, DueDateField);
      HasErrorOnUniform(i, IdField, StatusField);
      i + f
    }

    function IsValid(c: UpdateTaskCommand): (b: bool)
      ensures b <==>
                && c.id != EmptyId
                && !IsNullOrWhiteSpace(c.title) && Utf16Length(c.title.value) <= CreateTask.MaxTitleLength
                && (IsNullOrEmpty(c.description) || Utf16Length(c.description.value) <= CreateTask.MaxDescriptionLength)
                && IsInEnum(c.priority)
                && (c.dueDate.None? || c.dueDate.value > now)
    {
      var r := Validate(c);
      EmptyIffNoErrors(r);
      r == []
    }
  }

  /** With a non-empty Id the update validator accepts a command exactly
      when the create validator accepts its other fields. */
  lemma AgreesWithCreateValidator(now: Timestamp, c: UpdateTaskCommand)
    requires c.id != EmptyId
    ensures UpdateTaskCommandValidator(now).IsValid(c) ==
            CreateTask.CreateTaskCommandValidator(now).IsValid(AsCreate(c))
  {
  }

  /** The state of the task after the handler's four field updates, in the
      order it makes them, all at clock reading `now`. */
  function Edited(s: TaskState, title: ValueObjects.TaskTitle, c: UpdateTaskCommand, now: Timestamp)
    : (t: TaskState)
    ensures t.id == s.id && t.createdAt == s.createdAt && t.status == s.status
    ensures t.title == title && t.description == c.description
    ensures t.priority == PriorityOf(c.priority) && t.dueDate == c.dueDate
    ensures t.updatedAt == Some(now)
    ensures t.events == s.events + [TaskUpdated(s.id), TaskUpdated(s.id),
                                    TaskUpdated(s.id), TaskUpdated(s.id)]
  {
    var s1 := After(s, SetTitle(Some(title)), now);
    var s2 := After(s1, SetDescription(c.description), now);
    var s3 := After(s2, SetPriority(PriorityOf(c.priority)), now);
    After(s3, SetDueDate(c.dueDate), now)
  }

  /** The handler's edits keep the event history consistent with the state. */
  lemma EditedKeepsConsistent(s: TaskState, title: ValueObjects.TaskTitle, c: UpdateTaskCommand, now: Timestamp)
    requires Consistent(s)
    ensures Consistent(Edited(s, title, c, now))
  {
    var s1 := After(s, SetTitle(Some(title)), now);
    var s2 := After(s1, SetDescription(c.description), now);
    var s3 := After(s2, SetPriority(PriorityOf(c.priority)), now);
    ApplyKeepsConsistent(s, SetTitle(Some(title)), now);
    ApplyKeepsConsistent(s1, SetDescription(c.description), now);
    ApplyKeepsConsistent(s2, SetPriority(PriorityOf(c.priority)), now);
    ApplyKeepsConsistent(s3, SetDueDate(c.dueDate), now);
  }

  class UpdateTaskCommandHandler {
    const repository: TaskRepository

    constructor (repository: TaskRepository)
      ensures this.repository == repository
    {
      this.repository := repository;
    }

    /** Handle; `now` is the clock reading the four field updates record. */
    method Handle(request: UpdateTaskCommand, now: Timestamp) returns (r: Result<TaskDto, Error>)
      requires repository.Valid()
      modifies repository
      ensures repository.Valid()
      ensures request.id !in old(repository.rows) ==>
                r == Failure(NotFound(request.id)) && repository.rows == old(repository.rows)
      ensures request.id in old(repository.rows) && ValueObjects.Create(request.title).Failure? ==>
                r == Failure(ValueObjects.Create(request.title).error)
                && repository.rows == old(repository.rows)
      ensures r.Success? <==>
                request.id in old(repository.rows) && ValueObjects.Create(request.title).Success?
      ensures r.Success? ==>
                var t := Edited(old(repository.rows)[request.id],
                                ValueObjects.Create(request.title).value, request, now);
                && repository.rows == old(repository.rows)[request.id := Persisted(t)]
                && t.events == [TaskUpdated(request.id), TaskUpdated(request.id),
                                TaskUpdated(request.id), TaskUpdated(request.id)]
                && r.value == ToDto(t)
    {
      var found := repository.GetById(request.id);
      if found.None? {
        return Failure(NotFound(request.id));
      }
      var task := new TaskItem.Materialize(found.value);
      var title := ValueObjects.Create(request.title);
      if title.Failure? {
        return Failure(title.error);
      }
      var _ := task.UpdateTitle(Some(title.value), now);
      task.UpdateDescription(request.description, now);
      task.UpdatePriority(PriorityOf(request.priority), now);
      task.UpdateDueDate(request.dueDate, now);
      var updated := repository.Update(task.State());
      assert updated.Pass?;
      r := Success(ToDto(task.State()));
    }
  }
}
