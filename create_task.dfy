/** The CreateTask use case: its command, validator and handler. */
module CreateTask {
  import opened Wrappers
  import opened Common
  import opened Enums
  import opened Strings
  import opened Validation
  import ValueObjects
  import opened Entities
  import opened Repositories
  import opened Dtos

  /** The command as it arrives: Title may be null, Priority is the raw
      value of the enum field. */
  datatype CreateTaskCommand = CreateTaskCommand(
    title: Option<string>,
    description: Option<string>,
    priority: int,
    dueDate: Option<Timestamp>)

  const MaxTitleLength: nat := 200
  const MaxDescriptionLength: nat := 1000

  /** A validator built at clock reading `now`: GreaterThan(DateTime.UtcNow)
      takes the clock when the rules are declared, in the constructor. */
  datatype CreateTaskCommandValidator = CreateTaskCommandValidator(now: Timestamp) {

    /** RuleFor(x => x.Title).NotEmpty().MaximumLength(200): both checks run. */
    function TitleRules(title: Option<string>): (fs: seq<ValidationFailure>)
      ensures AllOn(fs, TitleField)
      ensures fs == [] <==> !IsNullOrWhiteSpace(title) && Utf16Length(title.value) <= MaxTitleLength
    {
      Rule(!IsNullOrWhiteSpace(title), TitleField, "Title is required")
      + Rule(title.None? || Utf16Length(title.value) <= MaxTitleLength,
             TitleField, "Title cannot exceed 200 characters")
    }

    /** MaximumLength(1000), only when the description is not null or empty. */
    function DescriptionRules(description: Option<string>): (fs: seq<ValidationFailure>)
      ensures AllOn(fs, DescriptionField)
      ensures fs == [] <==> IsNullOrEmpty(description) || Utf16Length(description.value) <= MaxDescriptionLength
    {
      if IsNullOrEmpty(description) then []
      else Rule(Utf16Length(description.value) <= MaxDescriptionLength,
                DescriptionField, "Description cannot exceed 1000 characters")
    }

    function PriorityRules(priority: int): (fs: seq<ValidationFailure>)
      ensures AllOn(fs, PriorityField)
      ensures fs == [] <==> IsInEnum(priority)
    {
      Rule(IsInEnum(priority), PriorityField, "Invalid priority value")
    }

    /** GreaterThan(the clock captured at construction), only when there is a due date. */
    function DueDateRules(dueDate: Option<Timestamp>): (fs: seq<ValidationFailure>)
      ensures AllOn(fs, DueDateField)
      ensures fs == [] <==> dueDate.None? || dueDate.value > now
    {
      if dueDate.None? then []
      else Rule(dueDate.value > now, DueDateField, "Due date must be in the future")
    }

    /** Validate: every rule is evaluated and each failing one reported. */
    function Validate(c: CreateTaskCommand): (r: seq<ValidationFailure>)
      ensures HasErrorOn(r, TitleField) <==>
                IsNullOrWhiteSpace(c.title) || Utf16Length(c.title.value) > MaxTitleLength
      ensures HasErrorOn(r, DescriptionField) <==>
                !IsNullOrEmpty(c.description) && Utf16Length(c.description.value) > MaxDescriptionLength
      ensures HasErrorOn(r, PriorityField) <==> !IsInEnum(c.priority)
      ensures HasErrorOn(r, DueDateField) <==> c.dueDate.Some? && c.dueDate.value <= now
      ensures !HasErrorOn(r, IdField) && !HasErrorOn(r, StatusField)
    {
      var t, d, p, u := TitleRules(c.title), DescriptionRules(c.description),
                        PriorityRules(c.priority), DueDateRules(c.dueDate);
      FourChains(t, d, p, u, TitleField, DescriptionField, PriorityField, DueDateField);
      t + d + p + u
    }

    /** ValidationResult.IsValid: no rule failed. */
    function IsValid(c: CreateTaskCommand): (b: bool)
      ensures b <==>
                && !IsNullOrWhiteSpace(c.title) && Utf16Length(c.title.value) <= MaxTitleLength
                && (IsNullOrEmpty(c.description) || Utf16Length(c.description.value) <= MaxDescriptionLength)
                && IsInEnum(c.priority)
                && (c.dueDate.None? || c.dueDate.value > now)
    {
      var r := Validate(c);
      EmptyIffNoErrors(r);
      r == []
    }
  }

  /** A title of 101 to 200 characters satisfies the validator's title rules,
      yet TaskTitle.Create, which the handler calls, rejects it. */
  lemma ValidatorAdmitsTitlesCreateRejects(v: CreateTaskCommandValidator, c: CreateTaskCommand)
    requires !IsNullOrWhiteSpace(c.title)
    requires ValueObjects.MaxTitleLength < Utf16Length(c.title.value) <= MaxTitleLength
    ensures !HasErrorOn(v.Validate(c), TitleField)
    ensures ValueObjects.Create(c.title) == Failure(ArgumentError(TitleTooLong))
  {
  }

  /** A whole command the validator accepts and the handler rejects. */
  lemma ValidCommandRejectedByHandler(v: CreateTaskCommandValidator)
    ensures var c := CreateTaskCommand(Some(seq(101, _ => 'a')), None, 1, None);
            v.IsValid(c) && ValueObjects.Create(c.title).Failure?
  {
    var s := seq(101, _ => 'a');
    BmpLength(s);
    assert !IsWhiteSpace(s[0]);
  }

  /** The sample command of CreateTaskCommandValidatorTests passes a
      validator built at any time earlier than its due date. */
  lemma SampleCommandIsValid(now: Timestamp, due: Timestamp)
    requires due > now
    ensures CreateTaskCommandValidator(now).IsValid(
              CreateTaskCommand(Some("Valid Task Title"), Some("Valid Description"), 1, Some(due)))
  {
    assert !IsWhiteSpace("Valid Task Title"[0]);
  }

  class CreateTaskCommandHandler {
    const repository: TaskRepository

    constructor (repository: TaskRepository)
      ensures this.repository == repository
    {
      this.repository := repository;
    }

    /** Handle. `freshId` is the Guid the new entity is given, a fresh one
        and never Guid.Empty, as Guid.NewGuid yields; `now` is the clock
        reading it records as CreatedAt. */
    method Handle(request: CreateTaskCommand, freshId: Id, now: Timestamp)
      returns (r: Result<TaskDto, Error>)
      requires repository.Valid()
      requires freshId !in repository.rows
      requires freshId != EmptyId
      modifies repository
      ensures repository.Valid()
      ensures r.Success? <==> ValueObjects.Create(request.title).Success?
      ensures r.Failure? ==>
                r.error == ValueObjects.Create(request.title).error
                && repository.rows == old(repository.rows)
      ensures r.Success? ==>
                var t := Construct(freshId, Some(ValueObjects.Create(request.title).value),
                                   request.description, PriorityOf(request.priority),
                                   request.dueDate, now).value;
                && repository.rows == old(repository.rows)[freshId := Persisted(t)]
                && r.value == ToDto(t)
                && Consistent(t)
      ensures r.Success? ==>
                && r.value.id == freshId && r.value.id != EmptyId
                && r.value.status == Pending
                && r.value.title == request.title.value
                && r.value.description == request.description
                && r.value.priority == PriorityOf(request.priority)
                && r.value.dueDate == request.dueDate
    {
      var title := ValueObjects.Create(request.title);
      if title.Failure? {
        return Failure(title.error);
      }
      var task := new TaskItem(freshId, title.value, request.description,
                               PriorityOf(request.priority), request.dueDate, now);
      ConstructIsConsistent(freshId, title.value, request.description,
                            PriorityOf(request.priority), request.dueDate, now);
      var added := repository.Add(task.State());
      assert added.Pass?;
      r := Success(ToDto(task.State()));
    }
  }
}
