/** The UpdateTaskStatus use case: its command, validator and handler. */
module UpdateTaskStatus {
  import opened Wrappers
  import opened Common
  import opened Enums
  import opened Events
  import opened Validation
  import opened Entities
  import opened Repositories
  import opened Dtos

  /** The requested status as the integer the enum field holds, which
      need not be one of the named values. */
  datatype UpdateTaskStatusCommand = UpdateTaskStatusCommand(id: Id, status: int)

  /** Its validator has no clock-dependent rule. */
  datatype UpdateTaskStatusCommandValidator = UpdateTaskStatusCommandValidator {

    function Validate(c: UpdateTaskStatusCommand): (r: seq<ValidationFailure>)
      ensures HasErrorOn(r, IdField) <==> c.id == EmptyId
      ensures HasErrorOn(r, StatusField) <==> !IsInEnum(c.status)
      ensures forall q | q != IdField && q != StatusField :: !HasErrorOn(r, q)
      ensures |r| <= 2
    {
      var i := Rule(c.id != EmptyId, IdField, "Task Id is required");
      var s := Rule(IsInEnum(c.status), StatusField, "Invalid status value");
      HasErrorOnAppend(i, s);
      forall q ensures HasErrorOn(i, q) <==> i != [] && q == IdField {
        HasErrorOnUniform(i, IdField, q);
      }
      forall q ensures HasErrorOn(s, q) <==> s != [] && q == StatusField {
        HasErrorOnUniform(s, StatusField, q);
      }
      i + s
    }

    function IsValid(c: UpdateTaskStatusCommand): (b: bool)
      ensures b <==> c.id != EmptyId && StatusOf(c.status).Some?
    {
      var r := Validate(c);
      EmptyIffNoErrors(r);
      r == []
    }
  }

  /** A request back to Pending passes the validator, yet the handler's
      switch has no case for it and refuses every task. */
  lemma PendingPassesValidator(s: TaskState, now: Timestamp)
    requires s.id != EmptyId
    ensures UpdateTaskStatusCommandValidator().IsValid(UpdateTaskStatusCommand(s.id, StatusValue(Pending)))
    ensures Transition(s, StatusValue(Pending), now) == Failure(InvalidOperation(UnsupportedTarget(0)))
  {
  }

  /** The handler's switch: InProgress, Completed and Cancelled go to the
      matching mutator; any other value, Pending included, is refused. */
  function Transition(s: TaskState, raw: int, now: Timestamp): (r: Result<TaskState, Error>)
    ensures StatusOf(raw) == Some(InProgress) ==> r == Apply(s, StartProgress, now)
    ensures StatusOf(raw) == Some(Completed) ==> r == Apply(s, Complete, now)
    ensures StatusOf(raw) == Some(Cancelled) ==> r == Apply(s, Cancel, now)
    ensures StatusOf(raw) !in {Some(InProgress), Some(Completed), Some(Cancelled)} ==>
              r == Failure(InvalidOperation(UnsupportedTarget(raw)))
    ensures StatusOf(raw) == Some(InProgress) ==>
              (r.Failure? <==> IsTerminal(s.status))
              && (r.Failure? ==> r.error == InvalidOperation(CannotStart))
              && (r.Success? ==> r.value.events == s.events + [TaskStatusChanged(s.id, InProgress)])
    ensures StatusOf(raw) == Some(Completed) ==>
              (r.Failure? <==> s.status == Cancelled)
              && (r.Failure? ==> r.error == InvalidOperation(CannotComplete))
              && (r.Success? ==> r.value.events == s.events + [TaskStatusChanged(s.id, Completed),
                                                               TaskCompleted(s.id, s.title.value)])
    ensures StatusOf(raw) == Some(Cancelled) ==>
              (r.Failure? <==> s.status == Completed)
              && (r.Failure? ==> r.error == InvalidOperation(CannotCancel))
              && (r.Success? ==> r.value.events == s.events + [TaskStatusChanged(s.id, Cancelled)])
    ensures r.Success? ==>
              && StatusOf(raw) == Some(r.value.status)
              && r.value.id == s.id && r.value.title == s.title
              && r.value.description == s.description && r.value.priority == s.priority
              && r.value.dueDate == s.dueDate && r.value.createdAt == s.createdAt
              && r.value.updatedAt == Some(now)
  {
    match StatusOf(raw)
    case Some(InProgress) => Apply(s, StartProgress, now)
    case Some(Completed) => Apply(s, Complete, now)
    case Some(Cancelled) => Apply(s, Cancel, now)
    case _ => Failure(InvalidOperation(UnsupportedTarget(raw)))
  }

  /** A transition that succeeds keeps the task's event history consistent. */
  lemma TransitionKeepsConsistent(s: TaskState, raw: int, now: Timestamp)
    requires Consistent(s)
    requires Transition(s, raw, now).Success?
    ensures Consistent(Transition(s, raw, now).value)
  {
    match StatusOf(raw)
    case Some(InProgress) => ApplyKeepsConsistent(s, StartProgress, now);
    case Some(Completed) => ApplyKeepsConsistent(s, Complete, now);
    case Some(Cancelled) => ApplyKeepsConsistent(s, Cancel, now);
  }

  /** A task loaded from the store has no events, so after a status change
      its event list holds that change alone: no TaskCreated leads it, and
      the history invariant the entity keeps from construction fails. */
  lemma LoadedTaskHistory(s: TaskState, now: Timestamp)
    requires s.events == [] && s.status != Cancelled
    ensures var r := Transition(s, StatusValue(Completed), now);
            && r.Success?
            && r.value.events == [TaskStatusChanged(s.id, Completed), TaskCompleted(s.id, s.title.value)]
            && !Consistent(r.value)
  {
  }

  /** Completing a completed task succeeds and records the completion again. */
  lemma CompleteTwice(s: TaskState, now: Timestamp)
    requires s.status == Completed
    ensures var r := Transition(s, StatusValue(Completed), now);
            && r.Success?
            && r.value.events == s.events + [TaskStatusChanged(s.id, Completed), TaskCompleted(s.id, s.title.value)]
  {
  }

  /** Cancelling a cancelled task succeeds and records the change again. */
  lemma CancelTwice(s: TaskState, now: Timestamp)
    requires s.status == Cancelled
    ensures var r := Transition(s, StatusValue(Cancelled), now);
            && r.Success? && r.value.events == s.events + [TaskStatusChanged(s.id, Cancelled)]
  {
  }

  /** A task that is finished cannot be started again. */
  lemma NoRestart(s: TaskState, now: Timestamp)
    requires IsTerminal(s.status)
    ensures Transition(s, StatusValue(InProgress), now) == Failure(InvalidOperation(CannotStart))
  {
  }

  class UpdateTaskStatusCommandHandler {
    const repository: TaskRepository

    constructor (repository: TaskRepository)
      ensures this.repository == repository
    {
      this.repository := repository;
    }

    /** Handle; `now` is the clock reading the mutator records. */
    method Handle(request: UpdateTaskStatusCommand, now: Timestamp) returns (r: Result<TaskDto, Error>)
      requires repository.Valid()
      modifies repository
      ensures repository.Valid()
      ensures request.id !in old(repository.rows) ==>
                r == Failure(NotFound(request.id)) && repository.rows == old(repository.rows)
      ensures request.id in old(repository.rows) ==>
                var t := Transition(old(repository.rows)[request.id], request.status, now);
                && (t.Failure? ==> r == Failure(t.error) && repository.rows == old(repository.rows))
                && (t.Success? ==> r == Success(ToDto(t.value))
                                   && repository.rows == old(repository.rows)[request.id := Persisted(t.value)])
    {
      var found := repository.GetById(request.id);
      if found.None? {
        return Failure(NotFound(request.id));
      }
      var task := new TaskItem.Materialize(found.value);
      var changed: Outcome<Error>;
      match StatusOf(request.status) {
        case Some(InProgress) => changed := task.MarkAsInProgress(now);
        case Some(Completed) => changed := task.MarkAsCompleted(now);
        case Some(Cancelled) => changed := task.MarkAsCancelled(now);
        case _ => changed := Fail(InvalidOperation(UnsupportedTarget(request.status)));
      }
      if changed.Fail? {
        return Failure(changed.error);
      }
      var updated := repository.Update(task.State());
      assert updated.Pass?;
      r := Success(ToDto(task.State()));
    }
  }
}
