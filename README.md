# TaskManager core, modelled in Dafny

This project models the back end of TaskManager, a small task-tracking
service built in layers. It proves properties of that model. The parts
modelled are:

- **Domain.** The `TaskItem` aggregate has a status state machine
  (Pending, InProgress, Completed, Cancelled) and an append-only list of
  domain events. The `TaskTitle` value object holds a checked, immutable
  title with value equality.
- **Application.** There are three FluentValidation validators
  (CreateTask, UpdateTask, UpdateTaskStatus). There are six use-case
  handlers: CreateTask, UpdateTask, UpdateTaskStatus, DeleteTask, GetTask
  and GetAllTasks.
- **Infrastructure.** `TaskRepository` is modelled as an in-memory map
  from id to task.

Layout, one module per file:

| file | module | models |
|---|---|---|
| wrappers.dfy | `Wrappers` | `Option`, `Result` and `Outcome`; a thrown exception is a `Failure`/`Fail` |
| common.dfy | `Common` | ids (Guid.Empty is `0`), clock readings, the exception kinds |
| enums.dfy | `Enums` | `TaskStatus` and `Priority`, with the raw value an enum field holds |
| events.dfy | `Events` | the four domain events |
| strings.dfy | `Strings` | `string.IsNullOrWhiteSpace` and `string.IsNullOrEmpty` |
| task_title.dfy | `ValueObjects` | `TaskTitle` |
| task_item.dfy | `Entities` | the pure spec `TaskState`/`Apply`, and the class `TaskItem` |
| task_repository.dfy | `Repositories` | the ordering helpers and the class `TaskRepository` |
| task_dto.dfy | `Dtos` | `TaskDto` and the projection each handler ends with |
| validation.dfy | `Validation` | what a validator reports, and rule chains |
| create_task.dfy, update_task.dfy, update_task_status.dfy, delete_task.dfy, get_task.dfy, get_all_tasks.dfy | one per use case | command or query, validator, handler |

## How the model is built

- **Tasks.** `TaskItem` is a class, because its fields really change in
  place. Each mutator method is proved against `Entities.Apply`, a pure
  function that specifies one call:
  - the call returns `Apply(old state, call, now).ToOutcome()`;
  - the new state is `After(old state, call, now)`.

  The lemmas about `Apply`, `After` and `Run` (a sequence of calls) state
  the state-machine properties.
- **Event-history invariant.** `Entities.Consistent` says that a task's
  events start with TaskCreated and all carry the task's id. It also says
  that the status is the one the last TaskStatusChanged recorded (Pending
  if there is none), and that UpdatedAt is set exactly when more than the
  creation event has been recorded.
- **Base entity.** `BaseEntity` is not part of this model. It supplies
  `Id`, `CreatedAt`, `UpdatedAt`, `MarkAsUpdated` and `AddDomainEvent`,
  and these are modelled as follows:
  - the id is given at construction;
  - `CreatedAt` is a clock reading passed in;
  - `UpdatedAt` is an `Option` that `MarkAsUpdated` sets;
  - the events are a `seq`.
- **Repository.** The repository holds task *values* (`TaskState`), as
  the rows EF Core saves (`Repositories.Persisted`).
  - A row holds every mapped field but no domain events, since
    `TaskItemConfiguration.cs:10-41` maps no column for them.
  - A handler that changes a task reads the row and builds a `TaskItem`
    from it, through the constructor EF Core uses. The loaded entity
    therefore starts with an empty event list.
  - It then calls the mutators and writes the new value back with
    `Update`.
  - Every failing path throws before any mutation, so this matches EF's
    tracked-entity behaviour for the results the handlers return.
- **Exceptions.** Each exception becomes an `Error`:
  - `ArgumentException` and `ArgumentNullException` become
    `ArgumentError`;
  - `InvalidOperationException` becomes `InvalidOperation`;
  - `NotFoundException` becomes `NotFound`;
  - the database's refusal of a duplicate key becomes `Conflict`.

  The reason carried with each error stands in for its message text.
- **Enum values.** A C# enum field can hold any integer. So a command
  carries the raw value.
  - `Priority` has an extra `Undefined(value)` case, so an unnamed value
    the handler passes through is kept.
  - `StatusOf` returns `None` for values outside 0..3.
- **String lengths.** A Dafny `char` is a Unicode scalar value, while
  .NET's `string.Length` counts UTF-16 code units. `Strings.Utf16Length`
  counts two for a character outside the Basic Multilingual Plane and one
  otherwise. Every length cap uses it: the 100 of `TaskTitle`, and the 200
  and 1000 of the validators.
- **Validators.** A validator is a datatype that captures the clock
  reading taken when it is built, since `GreaterThan(DateTime.UtcNow)` is
  evaluated in the validator's constructor.
  - `Validate` returns the list of failures: every rule is evaluated, and
    each failing rule contributes one failure.
  - `IsValid` holds when that list is empty.
  - The UpdateTask validator declares the same four field rules as the
    CreateTask validator, with the same limits and messages, after its Id
    rule. The model defines those rules once and the update validator
    uses them.

Where the code differs from the unit tests, the model follows the code:

- `TaskTitleTests.cs:33-56` expects that `TaskTitle.Create`:
  - trims its input;
  - caps titles at 200 characters;
  - uses the messages "Task title cannot …".
- `TaskTitle.cs:10-16` does none of this. It does not trim, it caps
  titles at 100 characters, and its messages are "Title cannot …".
- Those test expectations disagree with the code as written.
  `ValueObjects.Create` and its lemmas state what the code does.

## Model

| member | source | states |
|---|---|---|
| Enums.StatusValue | frontend/src/app/models/task.model.ts:1-6 | each status has an underlying value between 0 and 3 |
| Enums.StatusOf | frontend/src/app/models/task.model.ts:1-6 | a raw value names a status exactly when it is 0..3, and then it maps back to that value |
| Enums.StatusRoundTrip | frontend/src/app/models/task.model.ts:1-6 | converting a status to its value and back gives the same status |
| Enums.PriorityOf | frontend/src/app/models/task.model.ts:8-13 | a raw priority is undefined exactly when it is outside the enum, and its value is kept either way |
| Enums.PriorityRoundTrip | frontend/src/app/models/task.model.ts:8-13 | the value-to-priority conversion inverts the priority-to-value conversion on every priority it produces |
| Strings.Utf16Length | src/TaskManager.Domain/ValueObjects/TaskTitle.cs:13 | `string.Length` counts between one and two UTF-16 code units per character |
| Strings.BmpLength | src/TaskManager.Domain/ValueObjects/TaskTitle.cs:13 | for text inside the Basic Multilingual Plane, Length is the number of characters |
| Strings.AstralLength | src/TaskManager.Domain/ValueObjects/TaskTitle.cs:13 | for text wholly outside the Basic Multilingual Plane, Length is twice the number of characters |
| ValueObjects.Create | src/TaskManager.Domain/ValueObjects/TaskTitle.cs:8-17 | succeeds exactly for a non-null, non-blank string whose Length (UTF-16 code units) is at most 100, keeping it unchanged; a blank or null string fails as empty; otherwise a string whose Length exceeds 100 fails as too long |
| ValueObjects.AstralTitleTooLong | src/TaskManager.Domain/ValueObjects/TaskTitle.cs:13-14 | sixty characters outside the Basic Multilingual Plane have Length 120, so Create rejects them as too long |
| ValueObjects.CreateRoundTrip | src/TaskManager.Domain/ValueObjects/TaskTitle.cs:16-32 | creating a title from a valid title's string value gives that same title back |
| ValueObjects.PlaceholderNotCreatable | src/TaskManager.Domain/ValueObjects/TaskTitle.cs:20-29 | the empty title the parameterless EF constructor produces can never come from Create |
| ValueObjects.LengthBoundary | src/TaskManager.Domain/ValueObjects/TaskTitle.cs:13-14 | a non-blank title of Length exactly 100 is accepted, and one of Length 101 is rejected as too long |
| ValueObjects.BlankBeforeLength | src/TaskManager.Domain/ValueObjects/TaskTitle.cs:10-14 | a string of spaces of any length, however long, fails as empty, because the blank check runs first |
| ValueObjects.TaskTitle.Equals | src/TaskManager.Domain/ValueObjects/TaskTitle.cs:34-37 | true exactly when the argument is a TaskTitle with the same value |
| ValueObjects.EqualsIsEquivalence | src/TaskManager.Domain/ValueObjects/TaskTitle.cs:34-37 | Equals is reflexive, symmetric and transitive, and false for null |
| ValueObjects.StringHash | src/TaskManager.Domain/ValueObjects/TaskTitle.cs:39-42 | the hash state is an unsigned 32-bit value, a function of the string alone |
| ValueObjects.HashAgreesWithEquals | src/TaskManager.Domain/ValueObjects/TaskTitle.cs:34-42 | titles that are Equal have equal hash codes |
| ValueObjects.TaskTitle.GetHashCode | src/TaskManager.Domain/ValueObjects/TaskTitle.cs:39-42 | the hash of the value, a signed 32-bit int whose bits are StringHash's; HashAgreesWithEquals relates it to Equals |
| ValueObjects.TaskTitle.AsString | src/TaskManager.Domain/ValueObjects/TaskTitle.cs:32 | the conversion yields exactly the value, from which Create rebuilds the same title whenever it is valid |
| ValueObjects.Placeholder | src/TaskManager.Domain/ValueObjects/TaskTitle.cs:20-23 | the parameterless constructor's title is the empty string, which is not a valid title |
| ValueObjects.TaskTitle.ToString | src/TaskManager.Domain/ValueObjects/TaskTitle.cs:32-47 | ToString returns the same string as the implicit conversion to string |
| Entities.Construct | src/TaskManager.Domain/Entities/TaskItem.cs:19-28 | a null title throws ArgumentNullException; otherwise the task is Pending, has the given fields, has no UpdatedAt, and has exactly one TaskCreated(id, title) event |
| Entities.Apply | src/TaskManager.Domain/Entities/TaskItem.cs:30-90 | see the list below this table |
| Entities.After | src/TaskManager.Domain/Entities/TaskItem.cs:30-90 | a call leaves the task unchanged exactly when one of its guards throws |
| Entities.TerminalStatusIsFinal | src/TaskManager.Domain/Entities/TaskItem.cs:61-90 | once a task is Completed or Cancelled, no sequence of calls changes its status |
| Entities.NeverBackToPending | src/TaskManager.Domain/Entities/TaskItem.cs:23-90 | no sequence of calls returns a task that has left Pending to Pending |
| Entities.RunOnlyAppends | src/TaskManager.Domain/Entities/TaskItem.cs:30-90 | over any sequence of calls, id and CreatedAt stay fixed, and the old event list stays a prefix of the new one |
| Entities.RecordedStatusAppend | src/TaskManager.Domain/Entities/TaskItem.cs:68-89 | after an event is appended, the status the list records is that event's status if it is a status change, and is unchanged otherwise |
| Entities.ConstructIsConsistent | src/TaskManager.Domain/Entities/TaskItem.cs:19-28 | a new task satisfies the event-history invariant |
| Entities.ApplyKeepsConsistent | src/TaskManager.Domain/Entities/TaskItem.cs:30-90 | every call preserves the event-history invariant |
| Entities.RunKeepsConsistent | src/TaskManager.Domain/Entities/TaskItem.cs:19-90 | the invariant holds after any sequence of calls |
| Entities.TaskItem.constructor | src/TaskManager.Domain/Entities/TaskItem.cs:19-28 | the new object's state is what Construct specifies for a non-null title, under an id that is not Guid.Empty |
| Entities.TaskItem.Materialize | src/TaskManager.Domain/Entities/TaskItem.cs:16-17 | the object EF Core materialises holds exactly the stored row, whose event list is empty |
| Entities.TaskItem.MarkAsUpdated | src/TaskManager.Domain/Entities/TaskItem.cs:36 | UpdatedAt is set to the clock reading and nothing else changes |
| Entities.TaskItem.AddDomainEvent | src/TaskManager.Domain/Entities/TaskItem.cs:37 | appends exactly the given event and changes nothing else |
| Entities.TaskItem.UpdateTitle | src/TaskManager.Domain/Entities/TaskItem.cs:30-38 | the outcome and the new state are those of Apply for a title change |
| Entities.TaskItem.UpdateDescription | src/TaskManager.Domain/Entities/TaskItem.cs:40-45 | the new state is After for a description change |
| Entities.TaskItem.UpdatePriority | src/TaskManager.Domain/Entities/TaskItem.cs:47-52 | the new state is After for a priority change |
| Entities.TaskItem.UpdateDueDate | src/TaskManager.Domain/Entities/TaskItem.cs:54-59 | the new state is After for a due-date change |
| Entities.TaskItem.MarkAsInProgress | src/TaskManager.Domain/Entities/TaskItem.cs:61-69 | the outcome and the new state are those of Apply for starting progress |
| Entities.TaskItem.MarkAsCompleted | src/TaskManager.Domain/Entities/TaskItem.cs:71-80 | the outcome and the new state are those of Apply for completing |
| Entities.TaskItem.MarkAsCancelled | src/TaskManager.Domain/Entities/TaskItem.cs:82-90 | the outcome and the new state are those of Apply for cancelling |
| Repositories.OrderByCreatedAt | src/TaskManager.Infrastructure/Repositories/TaskRepository.cs:25-30 | lists every stored task exactly once, with CreatedAt non-decreasing |
| Repositories.WithStatus | src/TaskManager.Infrastructure/Repositories/TaskRepository.cs:35 | every task kept has the given status, and every task with it is kept |
| Repositories.WithStatusAppend | src/TaskManager.Infrastructure/Repositories/TaskRepository.cs:35 | filtering a concatenation filters each part in turn, so the original order and multiplicity are kept |
| Repositories.WithStatusSingle | src/TaskManager.Infrastructure/Repositories/TaskRepository.cs:35 | a single task is kept exactly when it has the status |
| Repositories.WithStatusKeepsSorted | src/TaskManager.Infrastructure/Repositories/TaskRepository.cs:34-37 | filtering a CreatedAt-ordered list keeps it ordered |
| Repositories.WithStatusKeepsUnique | src/TaskManager.Infrastructure/Repositories/TaskRepository.cs:34-37 | filtering a list with distinct ids keeps the ids distinct |
| Repositories.SelectByStatus | src/TaskManager.Infrastructure/Repositories/TaskRepository.cs:32-38 | filtering the ordered listing gives exactly the stored tasks with that status, ordered and each once |
| Repositories.Persisted | src/TaskManager.Infrastructure/Data/Configurations/TaskItemConfiguration.cs:10-41 | the saved row has every field of the task and no domain events |
| Repositories.TaskRepository.constructor | src/TaskManager.Infrastructure/Repositories/TaskRepository.cs:14-17 | a new repository is empty |
| Repositories.TaskRepository.GetById | src/TaskManager.Infrastructure/Repositories/TaskRepository.cs:19-23 | returns a task exactly when one with that id is stored, and then returns that task |
| Repositories.TaskRepository.Exists | src/TaskManager.Infrastructure/Repositories/TaskRepository.cs:62-65 | true exactly when GetById finds a task |
| Repositories.TaskRepository.GetAll | src/TaskManager.Infrastructure/Repositories/TaskRepository.cs:25-30 | every stored task exactly once, ordered by CreatedAt, with nothing else |
| Repositories.TaskRepository.GetByStatus | src/TaskManager.Infrastructure/Repositories/TaskRepository.cs:32-38 | exactly the stored tasks with that status, each once, ordered by CreatedAt |
| Repositories.TaskRepository.Add | src/TaskManager.Infrastructure/Repositories/TaskRepository.cs:40-44 | inserts the task's row under its id and changes no other entry; a duplicate key is refused and nothing changes |
| Repositories.TaskRepository.Update | src/TaskManager.Infrastructure/Repositories/TaskRepository.cs:46-50 | replaces the entry for the task's id with the task's row and changes no other entry; an unknown id is refused |
| Repositories.TaskRepository.Delete | src/TaskManager.Infrastructure/Repositories/TaskRepository.cs:52-60 | removes the entry for the id if there is one, and changes nothing else |
| Validation.Rule | src/TaskManager.Application/Commands/CreateTask/CreateTaskCommandValidator.cs:9-13 | a rule reports a failure on its property exactly when its condition fails, and reports only on that property |
| CreateTask.CreateTaskCommandValidator.TitleRules | src/TaskManager.Application/Commands/CreateTask/CreateTaskCommandValidator.cs:9-13 | no failure exactly when the title is non-blank and its Length (UTF-16 code units) is at most 200 |
| CreateTask.CreateTaskCommandValidator.DescriptionRules | src/TaskManager.Application/Commands/CreateTask/CreateTaskCommandValidator.cs:15-18 | no failure exactly when the description is null, empty or of Length (UTF-16 code units) at most 1000 |
| CreateTask.CreateTaskCommandValidator.PriorityRules | src/TaskManager.Application/Commands/CreateTask/CreateTaskCommandValidator.cs:20-22 | no failure exactly when the priority is one of the four enum values |
| CreateTask.CreateTaskCommandValidator.DueDateRules | src/TaskManager.Application/Commands/CreateTask/CreateTaskCommandValidator.cs:24-27 | no failure exactly when the due date is absent or strictly after the captured clock |
| CreateTask.CreateTaskCommandValidator.Validate | src/TaskManager.Application/Commands/CreateTask/CreateTaskCommandValidator.cs:9-27 | each of Title, Description, Priority and DueDate has a failure exactly when its rule fails, and no failure names any other property |
| CreateTask.CreateTaskCommandValidator.IsValid | src/TaskManager.Application/Commands/CreateTask/CreateTaskCommandValidator.cs:9-27 | a command is valid exactly when all four rules hold |
| CreateTask.SampleCommandIsValid | src/TaskManager.Tests/Application/Validators/CreateTaskCommandValidatorTests.cs:11-27 | the sample command from the tests passes, when its due date is after the clock |
| CreateTask.ValidatorAdmitsTitlesCreateRejects | src/TaskManager.Application/Commands/CreateTask/CreateTaskCommandValidator.cs:12-13 | a non-blank title of Length 101 to 200 passes the title rules, yet TaskTitle.Create rejects it as too long |
| CreateTask.ValidCommandRejectedByHandler | src/TaskManager.Application/Commands/CreateTask/CreateTaskCommandHandler.cs:20 | a command with a 101-character title is valid, yet the handler's title creation fails |
| Dtos.ToDto | src/TaskManager.Application/Queries/GetTask/GetTaskQueryHandler.cs:22-32 | the DTO copies every mapped field of the task, with Title as Title.Value; CreateTaskCommandHandler.cs:25-35, UpdateTaskCommandHandler.cs:31-41, UpdateTaskStatusCommandHandler.cs:40-50 and GetAllTasksQueryHandler.cs:20-30 build the same initializer |
| Dtos.ToDtoIgnoresEvents | src/TaskManager.Application/Queries/GetTask/GetTaskQueryHandler.cs:22-32 | the DTO does not depend on the events, so a handler's DTO equals the one read back from the stored row |
| CreateTask.CreateTaskCommandHandler.Handle | src/TaskManager.Application/Commands/CreateTask/CreateTaskCommandHandler.cs:18-36 | see the list below this table |
| UpdateTask.UpdateTaskCommandValidator.IdRules | src/TaskManager.Application/Commands/UpdateTask/UpdateTaskCommandValidator.cs:9-11 | no failure exactly when the id is not Guid.Empty |
| UpdateTask.UpdateTaskCommandValidator.Validate | src/TaskManager.Application/Commands/UpdateTask/UpdateTaskCommandValidator.cs:7-32 | Id and each of Title, Description, Priority and DueDate have a failure exactly when their rule fails (lengths in UTF-16 code units), and Status never does; the Id rule runs first, so an empty id gives the first failure |
| UpdateTask.UpdateTaskCommandValidator.IsValid | src/TaskManager.Application/Commands/UpdateTask/UpdateTaskCommandValidator.cs:7-32 | valid exactly when the id is non-empty and all four field rules hold |
| UpdateTask.AgreesWithCreateValidator | src/TaskManager.Application/Commands/UpdateTask/UpdateTaskCommandValidator.cs:13-31 | with a non-empty id, the update validator accepts a command exactly when the create validator accepts its title, description, priority and due date |
| UpdateTask.Edited | src/TaskManager.Application/Commands/UpdateTask/UpdateTaskCommandHandler.cs:23-27 | after the four field updates, title, description, priority and due date are the requested ones; id, CreatedAt and status are kept; UpdatedAt is the clock reading; exactly four TaskUpdated events are appended |
| UpdateTask.EditedKeepsConsistent | src/TaskManager.Application/Commands/UpdateTask/UpdateTaskCommandHandler.cs:24-27 | the four updates preserve the event-history invariant |
| UpdateTask.UpdateTaskCommandHandler.Handle | src/TaskManager.Application/Commands/UpdateTask/UpdateTaskCommandHandler.cs:18-42 | see the list below this table |
| UpdateTaskStatus.UpdateTaskStatusCommandValidator.Validate | src/TaskManager.Application/Commands/UpdateTaskStatus/UpdateTaskStatusCommandValidator.cs:7-16 | Id has a failure exactly when it is empty, and Status exactly when it is outside the enum; nothing else is reported, and there are at most two failures |
| UpdateTaskStatus.UpdateTaskStatusCommandValidator.IsValid | src/TaskManager.Application/Commands/UpdateTaskStatus/UpdateTaskStatusCommandValidator.cs:7-16 | valid exactly when the id is non-empty and the status names an enum value |
| UpdateTaskStatus.PendingPassesValidator | src/TaskManager.Application/Commands/UpdateTaskStatus/UpdateTaskStatusCommandHandler.cs:34-35 | a request for Pending passes the validator, yet the handler refuses it with InvalidOperation for every task |
| UpdateTaskStatus.Transition | src/TaskManager.Application/Commands/UpdateTaskStatus/UpdateTaskStatusCommandHandler.cs:23-36 | see the list below this table |
| UpdateTaskStatus.TransitionKeepsConsistent | src/TaskManager.Application/Commands/UpdateTaskStatus/UpdateTaskStatusCommandHandler.cs:23-36 | a successful transition preserves the event-history invariant |
| UpdateTaskStatus.LoadedTaskHistory | src/TaskManager.Application/Commands/UpdateTaskStatus/UpdateTaskStatusCommandHandler.cs:20-29 | a task loaded without events that is then completed holds only StatusChanged(Completed) and TaskCompleted, and so fails the event-history invariant |
| UpdateTaskStatus.CompleteTwice | src/TaskManager.Domain/Entities/TaskItem.cs:71-80 | completing a completed task succeeds and appends StatusChanged(Completed) and TaskCompleted again |
| UpdateTaskStatus.CancelTwice | src/TaskManager.Domain/Entities/TaskItem.cs:82-90 | cancelling a cancelled task succeeds and appends StatusChanged(Cancelled) again |
| UpdateTaskStatus.NoRestart | src/TaskManager.Domain/Entities/TaskItem.cs:61-64 | a request for InProgress on a completed or cancelled task is refused with InvalidOperation |
| UpdateTaskStatus.UpdateTaskStatusCommandHandler.Handle | src/TaskManager.Application/Commands/UpdateTaskStatus/UpdateTaskStatusCommandHandler.cs:18-51 | see the list below this table |
| DeleteTask.DeleteTaskCommandHandler.Handle | src/TaskManager.Application/Commands/DeleteTask/DeleteTaskCommandHandler.cs:16-23 | an unknown id is NotFound; afterwards the task is gone, Exists is false for the id, and every other task is untouched |
| DeleteTask.DeleteTwice | src/TaskManager.Application/Commands/DeleteTask/DeleteTaskCommandHandler.cs:18-22 | deleting the same id twice makes the second request NotFound |
| GetTask.GetTaskQueryHandler.Handle | src/TaskManager.Application/Queries/GetTask/GetTaskQueryHandler.cs:17-33 | succeeds exactly when the id is stored, and returns that task's DTO; otherwise NotFound; the store is not modified |
| GetTask.QueryTwice | src/TaskManager.Application/Queries/GetTask/GetTaskQueryHandler.cs:17-33 | two consecutive queries give the same result |
| GetAllTasks.Select | src/TaskManager.Application/Queries/GetAllTasks/GetAllTasksQueryHandler.cs:20-30 | one DTO per task, in the same positions |
| GetAllTasks.SelectKeepsOrder | src/TaskManager.Application/Queries/GetAllTasks/GetAllTasksQueryHandler.cs:20-30 | projecting keeps the CreatedAt order and the distinct ids |
| GetAllTasks.SelectCovers | src/TaskManager.Application/Queries/GetAllTasks/GetAllTasksQueryHandler.cs:20-30 | projecting a full listing gives each stored task's DTO, and nothing else |
| GetAllTasks.GetAllTasksQueryHandler.Handle | src/TaskManager.Application/Queries/GetAllTasks/GetAllTasksQueryHandler.cs:18-31 | one DTO per stored task, each the projection of the task at that position in GetAll, ordered by CreatedAt with distinct ids; empty exactly when the store is; the store is not modified |
| GetAllTasks.QueryTwice | src/TaskManager.Application/Queries/GetAllTasks/GetAllTasksQueryHandler.cs:16-31 | two consecutive queries give the same list |

What `Entities.Apply` states:

- Its guards: a null new title throws ArgumentNullException. Starting a
  finished task, completing a cancelled one and cancelling a completed
  one throw InvalidOperationException. Every other call goes through.
- In every call that goes through, id and CreatedAt are kept, UpdatedAt
  becomes the clock reading, and events are only appended.
- A field update changes only its own field, keeps the status and
  appends one TaskUpdated.
- A status change sets the new status and appends StatusChanged. Completing
  then also appends TaskCompleted(id, title).

What `CreateTask.CreateTaskCommandHandler.Handle` states:

- It takes an id that is fresh and not Guid.Empty, as Guid.NewGuid yields.
- It succeeds exactly when TaskTitle.Create accepts the title.
- On failure it returns that error and leaves the store unchanged.
- On success the store gains exactly the new task's row under its id,
  the task being built as the constructor specifies. The returned DTO is
  that task's projection: Status Pending, an id that is not Guid.Empty,
  and the request's title, description, priority and due date.
- The entity the handler builds satisfies the event-history invariant.
  Its stored row has no events.

What `UpdateTask.UpdateTaskCommandHandler.Handle` states:

- An unknown id gives NotFound and leaves the store unchanged.
- A title that Create rejects gives Create's error and leaves the store
  unchanged.
- Otherwise only that task's entry changes, to the row of Edited. The
  DTO is its projection. The entity's events are exactly four
  TaskUpdated, since a loaded task starts with none.

What `UpdateTaskStatus.Transition` states:

- InProgress, Completed and Cancelled give exactly the result of
  `Entities.Apply` for the matching mutator. Any other value, Pending
  included, is InvalidOperation.
- For each of the three, the call fails exactly when that mutator's guard
  fails (a finished task; a cancelled one; a completed one), with its
  reason. On success it appends that mutator's events, in order.
- On success the new status is the requested one. The other fields are
  kept, and UpdatedAt is the clock reading.

What `UpdateTaskStatus.UpdateTaskStatusCommandHandler.Handle` states:

- An unknown id gives NotFound and leaves the store unchanged.
- Otherwise the result is that of Transition. On failure the store is
  unchanged. On success only that task's entry changes, to the row of
  the new state, and the DTO is its projection.

## Left out

- HTTP, the controller, the exception-to-status middleware, dependency injection and the Angular front end are not part of this model.
- Whether a validator runs before its handler is decided by auto-validation wiring that is not part of this model. So validators and handlers are modelled separately, and `CreateTask.ValidCommandRejectedByHandler` relates them.
- async/await and cancellation tokens: every call is synchronous.
- `DateTime.UtcNow` becomes an integer clock reading handed to each operation. A handler takes one reading per call.
- Each domain event's `OccurredOn` is dropped. Dispatching events (MediatR notifications) is not part of this model.
- Entities.TaskItem.Materialize: the stored row has no domain events, so a loaded task starts with an empty event list. The history invariant `Entities.Consistent` is therefore promised only for an entity's life from its construction; a loaded task that is then changed fails it, as `UpdateTaskStatus.LoadedTaskHistory` shows.
- Guid generation happens in `BaseEntity`, which is not part of this model. `CreateTask.CreateTaskCommandHandler.Handle` takes the new id as a parameter and requires it to be fresh and not Guid.Empty, as a random Guid is. `Entities.TaskItem.constructor` requires the same non-empty id.
- EF Core change tracking, `SaveChangesAsync` and the `ApplicationDbContext` are not part of this model. The repository is a map of task values, and a handler works on its own object built from the stored value, so aliasing between tracked objects is not modelled.
- `TaskItemConfiguration.cs` column limits are database constraints, not checked by code, and are not modelled: Title 100, Description 500 (the validators allow 1000), and UpdatedAt required although it is nullable.
- `Repositories.TaskRepository.GetAll`: the source leaves the order of tasks with equal CreatedAt to the database. The model breaks those ties by id, and its contract promises only the CreatedAt order.
- `Repositories.TaskRepository.Add`: a duplicate key is refused when the database saves, as `Conflict`. `Repositories.TaskRepository.Update` of an unknown id is refused as `NotFound`. No handler reaches either case.
- `ValueObjects.StringHash`: stands in for .NET's string hash, which is randomised per process. Only its being a function of the string is used.
- Strings are sequences of Unicode scalar values. `Length` is modelled by `Strings.Utf16Length`. Unpaired surrogates, which a .NET string can hold, cannot be written, and no culture or normalisation is modelled.
- An implicit conversion of a null `TaskTitle` to string throws in C#. The model's titles are never null, so this case is not modelled.
- The `TaskCreatedEvent`/`TaskCompletedEvent` records with three arguments beside the event handlers are not used by `TaskItem` and are not modelled.
- `TaskTitleTests.cs:33-56` expects trimming, a 200-character cap and other messages. Those expectations disagree with the code and are not modelled; see above.
