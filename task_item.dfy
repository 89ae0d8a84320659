/** The TaskItem aggregate. `TaskState` is the value of a task at one
    moment; `Apply` is the pure specification of its mutators; the class
    `TaskItem` holds the same fields and changes them in place. */
module Entities {
  import opened Wrappers
  import opened Common
  import opened Enums
  import opened Events
  import opened ValueObjects

  /** Every field of a task, including those its base entity supplies
      (id, createdAt, updatedAt and the domain-event list). */
  datatype TaskState = TaskState(
    id: Id,
    title: TaskTitle,
    description: Option<string>,
    status: TaskStatus,
    priority: Priority,
    dueDate: Option<Timestamp>,
    createdAt: Timestamp,
    updatedAt: Option<Timestamp>,
    events: seq<DomainEvent>)

  /** The public constructor: a null title throws, otherwise the task
      starts Pending with the given fields and one TaskCreated event. */
  function Construct(id: Id, title: Option<TaskTitle>, description: Option<string>,
                     priority: Priority, dueDate: Option<Timestamp>, now: Timestamp)
    : (r: Result<TaskState, Error>)
    ensures r.Failure? <==> title.None?
    ensures r.Failure? ==> r.error == ArgumentError(NullTitle)
    ensures r.Success? ==>
              && r.value.id == id && r.value.title == title.value
              && r.value.description == description && r.value.priority == priority
              && r.value.dueDate == dueDate && r.value.status == Pending
              && r.value.createdAt == now && r.value.updatedAt == None
              && r.value.events == [TaskCreated(id, title.value.value)]
  {
    match title
    case None => Failure(ArgumentError(NullTitle))
    case Some(t) =>
      Success(TaskState(id, t, description, Pending, priority, dueDate, now, None,
                        [TaskCreated(id, t.value)]))
  }

  /** The public mutators of TaskItem. */
  datatype Mutation =
    | SetTitle(newTitle: Option<TaskTitle>)          // UpdateTitle
    | SetDescription(newDescription: Option<string>) // UpdateDescription
    | SetPriority(newPriority: Priority)             // UpdatePriority
    | SetDueDate(newDueDate: Option<Timestamp>)      // UpdateDueDate
    | StartProgress                                  // MarkAsInProgress
    | Complete                                       // MarkAsCompleted
    | Cancel                                         // MarkAsCancelled
  {
    predicate IsFieldUpdate() {
      SetTitle? || SetDescription? || SetPriority? || SetDueDate?
    }
  }

  predicate IsTerminal(s: TaskStatus) {
    s == Completed || s == Cancelled
  }

  /** When the mutation throws. */
  predicate Rejects(s: TaskState, m: Mutation) {
    match m
    case SetTitle(t) => t.None?
    case StartProgress => IsTerminal(s.status)
    case Complete => s.status == Cancelled
    case Cancel => s.status == Completed
    case _ => false
  }

  /** MarkAsUpdated followed by AddDomainEvent for each of `es`. */
  function Touch(s: TaskState, now: Timestamp, es: seq<DomainEvent>): TaskState {
    s.(updatedAt := Some(now), events := s.events + es)
  }

  /** One mutator call at clock reading `now`. A call that throws does so
      before changing anything. */
  function Apply(s: TaskState, m: Mutation, now: Timestamp): (r: Result<TaskState, Error>)
    // the guards
    ensures r.Failure? <==> Rejects(s, m)
    ensures r.Failure? && m.SetTitle? ==> r.error == ArgumentError(NullTitle)
    ensures r.Failure? && m.StartProgress? ==> r.error == InvalidOperation(CannotStart)
    ensures r.Failure? && m.Complete? ==> r.error == InvalidOperation(CannotComplete)
    ensures r.Failure? && m.Cancel? ==> r.error == InvalidOperation(CannotCancel)
    // what every successful call does
    ensures r.Success? ==>
              && r.value.id == s.id && r.value.createdAt == s.createdAt
              && r.value.updatedAt == Some(now)
              && |r.value.events| > |s.events| && r.value.events[..|s.events|] == s.events
    // field updates: the own field only, status untouched, one TaskUpdated
    ensures r.Success? && m.IsFieldUpdate() ==>
              && r.value.status == s.status
              && r.value.events == s.events + [TaskUpdated(s.id)]
              && r.value.title == (if m.SetTitle? then m.newTitle.value else s.title)
              && r.value.description == (if m.SetDescription? then m.newDescription else s.description)
              && r.value.priority == (if m.SetPriority? then m.newPriority else s.priority)
              && r.value.dueDate == (if m.SetDueDate? then m.newDueDate else s.dueDate)
    // transitions: fields untouched, the new status and its events
    ensures r.Success? && !m.IsFieldUpdate() ==>
              && r.value.title == s.title && r.value.description == s.description
              && r.value.priority == s.priority && r.value.dueDate == s.dueDate
    ensures r.Success? && m.StartProgress? ==>
              r.value.status == InProgress
              && r.value.events == s.events + [TaskStatusChanged(s.id, InProgress)]
    ensures r.Success? && m.Complete? ==>
              r.value.status == Completed
              && r.value.events == s.events + [TaskStatusChanged(s.id, Completed),
                                               TaskCompleted(s.id, s.title.value)]
    ensures r.Success? && m.Cancel? ==>
              r.value.status == Cancelled
              && r.value.events == s.events + [TaskStatusChanged(s.id, Cancelled)]
  {
    match m
    case SetTitle(t) =>
      if t.None? then Failure(ArgumentError(NullTitle))
      else Success(Touch(s.(title := t.value), now, [TaskUpdated(s.id)]))
    case SetDescription(d) => Success(Touch(s.(description := d), now, [TaskUpdated(s.id)]))
    case SetPriority(p) => Success(Touch(s.(priority := p), now, [TaskUpdated(s.id)]))
    case SetDueDate(d) => Success(Touch(s.(dueDate := d), now, [TaskUpdated(s.id)]))
    case StartProgress =>
      if s.status == Completed || s.status == Cancelled then Failure(InvalidOperation(CannotStart))
      else Success(Touch(s.(status := InProgress), now, [TaskStatusChanged(s.id, InProgress)]))
    case Complete =>
      if s.status == Cancelled then Failure(InvalidOperation(CannotComplete))
      else Success(Touch(s.(status := Completed), now,
                         [TaskStatusChanged(s.id, Completed), TaskCompleted(s.id, s.title.value)]))
    case Cancel =>
      if s.status == Completed then Failure(InvalidOperation(CannotCancel))
      else Success(Touch(s.(status := Cancelled), now, [TaskStatusChanged(s.id, Cancelled)]))
  }

  /** The state after the call: unchanged when it throws, and only then,
      since every call that goes through records an event. */
  function After(s: TaskState, m: Mutation, now: Timestamp): (t: TaskState)
    ensures t == s <==> Rejects(s, m)
  {
    var r := Apply(s, m, now);
    if r.Success? then r.value else s
  }

  /** One call of a mutator, with the clock reading it sees. */
  datatype Step = Step(mutation: Mutation, now: Timestamp)

  /** The state after a sequence of calls, each tried in turn. */
  function Run(s: TaskState, steps: seq<Step>): TaskState
    decreases |steps|
  {
    if steps == [] then s
    else Run(After(s, steps[0].mutation, steps[0].now), steps[1..])
  }

  /** Completed and Cancelled are terminal: no sequence of calls leaves them. */
  lemma {:induction false} TerminalStatusIsFinal(s: TaskState, steps: seq<Step>)
    requires IsTerminal(s.status)
    ensures Run(s, steps).status == s.status
    decreases |steps|
  {
    if steps != [] {
      TerminalStatusIsFinal(After(s, steps[0].mutation, steps[0].now), steps[1..]);
    }
  }

  /** No call ever sets Pending: once a task has left Pending it never returns. */
  lemma {:induction false} NeverBackToPending(s: TaskState, steps: seq<Step>)
    requires s.status != Pending
    ensures Run(s, steps).status != Pending
    decreases |steps|
  {
    if steps != [] {
      NeverBackToPending(After(s, steps[0].mutation, steps[0].now), steps[1..]);
    }
  }

  /** The event list only grows, and id and createdAt never change. */
  lemma {:induction false} RunOnlyAppends(s: TaskState, steps: seq<Step>)
    ensures var t := Run(s, steps);
            && t.id == s.id && t.createdAt == s.createdAt
            && |s.events| <= |t.events| && t.events[..|s.events|] == s.events
    decreases |steps|
  {
    if steps != [] {
      var s' := After(s, steps[0].mutation, steps[0].now);
      RunOnlyAppends(s', steps[1..]);
      var t := Run(s', steps[1..]);
      assert t.events[..|s.events|] == t.events[..|s'.events|][..|s.events|];
    }
  }

  /** The status the event list records: that of the last TaskStatusChanged,
      or Pending when there is none. */
  function RecordedStatus(es: seq<DomainEvent>): TaskStatus
    decreases |es|
  {
    if es == [] then Pending
    else if es[|es| - 1].TaskStatusChanged? then es[|es| - 1].newStatus
    else RecordedStatus(es[..|es| - 1])
  }

  /** The invariant every constructed task keeps: its events start with
      TaskCreated, all concern this task, the current status is the one the
      events record, and it has been updated exactly when more than the
      creation event has been recorded. */
  ghost predicate Consistent(s: TaskState) {
    && |s.events| >= 1 && s.events[0].TaskCreated?
    && (forall i | 0 <= i < |s.events| :: s.events[i].taskId == s.id)
    && s.status == RecordedStatus(s.events)
    && (s.updatedAt.Some? <==> |s.events| > 1)
  }

  lemma RecordedStatusAppend(es: seq<DomainEvent>, e: DomainEvent)
    ensures RecordedStatus(es + [e]) ==
            if e.TaskStatusChanged? then e.newStatus else RecordedStatus(es)
  {
    assert (es + [e])[..|es|] == es;
  }

  lemma ConstructIsConsistent(id: Id, title: TaskTitle, description: Option<string>,
                              priority: Priority, dueDate: Option<Timestamp>, now: Timestamp)
    ensures Consistent(Construct(id, Some(title), description, priority, dueDate, now).value)
  {
  }

  lemma ApplyKeepsConsistent(s: TaskState, m: Mutation, now: Timestamp)
    requires Consistent(s)
    ensures Consistent(After(s, m, now))
  {
    var r := Apply(s, m, now);
    if r.Success? {
      if m.IsFieldUpdate() {
        RecordedStatusAppend(s.events, TaskUpdated(s.id));
      } else if m.StartProgress? {
        RecordedStatusAppend(s.events, TaskStatusChanged(s.id, InProgress));
      } else if m.Cancel? {
        RecordedStatusAppend(s.events, TaskStatusChanged(s.id, Cancelled));
      } else {
        var e1, e2 := TaskStatusChanged(s.id, Completed), TaskCompleted(s.id, s.title.value);
        RecordedStatusAppend(s.events, e1);
        RecordedStatusAppend(s.events + [e1], e2);
        assert s.events + [e1] + [e2] == s.events + [e1, e2];
      }
    }
  }

  lemma {:induction false} RunKeepsConsistent(s: TaskState, steps: seq<Step>)
    requires Consistent(s)
    ensures Consistent(Run(s, steps))
    decreases |steps|
  {
    if steps != [] {
      ApplyKeepsConsistent(s, steps[0].mutation, steps[0].now);
      RunKeepsConsistent(After(s, steps[0].mutation, steps[0].now), steps[1..]);
    }
  }

  /** The entity itself: private setters become fields that only the
      methods below assign. */
  class TaskItem {
    const id: Id
    var title: TaskTitle
    var description: Option<string>
    var status: TaskStatus
    var priority: Priority
    var dueDate: Option<Timestamp>
    const createdAt: Timestamp
    var updatedAt: Option<Timestamp>
    var domainEvents: seq<DomainEvent>

    function State(): TaskState
      reads this
    {
      TaskState(id, title, description, status, priority, dueDate, createdAt,
                updatedAt, domainEvents)
    }

    /** The public constructor, given the id and clock reading the base
        entity takes; the id is a Guid.NewGuid, so never Guid.Empty. A null
        title is handled by `Construct`. */
    constructor (id: Id, title: TaskTitle, description: Option<string>, priority: Priority,
                 dueDate: Option<Timestamp>, now: Timestamp)
      requires id != EmptyId
      ensures Construct(id, Some(title), description, priority, dueDate, now) == Success(State())
    {
      this.id := id;
      this.createdAt := now;
      this.title := title;
      this.description := description;
      this.status := Pending;
      this.priority := priority;
      this.dueDate := dueDate;
      this.updatedAt := None;
      this.domainEvents := [TaskCreated(id, title.value)];
    }

    /** The private constructor EF Core uses, followed by its setting of
        the mapped columns. A stored row has no domain events, so a task
        loaded this way starts with an empty DomainEvents list. */
    constructor Materialize(s: TaskState)
      ensures State() == s
    {
      id, title, description, status := s.id, s.title, s.description, s.status;
      priority, dueDate, createdAt := s.priority, s.dueDate, s.createdAt;
      updatedAt, domainEvents := s.updatedAt, s.events;
    }

    /** BaseEntity.MarkAsUpdated. */
    method MarkAsUpdated(now: Timestamp)
      modifies this`updatedAt
      ensures updatedAt == Some(now)
    {
      updatedAt := Some(now);
    }

    /** BaseEntity.AddDomainEvent. */
    method AddDomainEvent(e: DomainEvent)
      modifies this`domainEvents
      ensures domainEvents == old(domainEvents) + [e]
    {
      domainEvents := domainEvents + [e];
    }

    method UpdateTitle(newTitle: Option<TaskTitle>, now: Timestamp) returns (r: Outcome<Error>)
      modifies this
      ensures r == Apply(old(State()), SetTitle(newTitle), now).ToOutcome()
      ensures State() == After(old(State()), SetTitle(newTitle), now)
    {
      if newTitle.None? {
        return Fail(ArgumentError(NullTitle));
      }
      title := newTitle.value;
      MarkAsUpdated(now);
      AddDomainEvent(TaskUpdated(id));
      r := Pass;
    }

    method UpdateDescription(newDescription: Option<string>, now: Timestamp)
      modifies this
      ensures State() == After(old(State()), SetDescription(newDescription), now)
    {
      description := newDescription;
      MarkAsUpdated(now);
      AddDomainEvent(TaskUpdated(id));
    }

    method UpdatePriority(newPriority: Priority, now: Timestamp)
      modifies this
      ensures State() == After(old(State()), SetPriority(newPriority), now)
    {
      priority := newPriority;
      MarkAsUpdated(now);
      AddDomainEvent(TaskUpdated(id));
    }

    method UpdateDueDate(newDueDate: Option<Timestamp>, now: Timestamp)
      modifies this
      ensures State() == After(old(State()), SetDueDate(newDueDate), now)
    {
      dueDate := newDueDate;
      MarkAsUpdated(now);
      AddDomainEvent(TaskUpdated(id));
    }

    method MarkAsInProgress(now: Timestamp) returns (r: Outcome<Error>)
      modifies this
      ensures r == Apply(old(State()), StartProgress, now).ToOutcome()
      ensures State() == After(old(State()), StartProgress, now)
    {
      if status == Completed || status == Cancelled {
        return Fail(InvalidOperation(CannotStart));
      }
      status := InProgress;
      MarkAsUpdated(now);
      AddDomainEvent(TaskStatusChanged(id, InProgress));
      r := Pass;
    }

    method MarkAsCompleted(now: Timestamp) returns (r: Outcome<Error>)
      modifies this
      ensures r == Apply(old(State()), Complete, now).ToOutcome()
      ensures State() == After(old(State()), Complete, now)
    {
      if status == Cancelled {
        return Fail(InvalidOperation(CannotComplete));
      }
      status := Completed;
      MarkAsUpdated(now);
      AddDomainEvent(TaskStatusChanged(id, Completed));
      AddDomainEvent(TaskCompleted(id, title.value));
      r := Pass;
    }

    method MarkAsCancelled(now: Timestamp) returns (r: Outcome<Error>)
      modifies this
      ensures r == Apply(old(State()), Cancel, now).ToOutcome()
      ensures State() == After(old(State()), Cancel, now)
    {
      if status == Completed {
        return Fail(InvalidOperation(CannotCancel));
      }
      status := Cancelled;
      MarkAsUpdated(now);
      AddDomainEvent(TaskStatusChanged(id, Cancelled));
      r := Pass;
    }
  }
}
