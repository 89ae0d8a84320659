/** TaskDto, the representation every use case returns. */
module Dtos {
  import opened Wrappers
  import opened Common
  import opened Enums
  import opened Events
  import opened Entities

  datatype TaskDto = TaskDto(
    id: Id,
    title: string,
    description: Option<string>,
    status: TaskStatus,
    priority: Priority,
    dueDate: Option<Timestamp>,
    createdAt: Timestamp,
    updatedAt: Option<Timestamp>)

  /** The object initializer each handler ends with: every mapped field,
      with Title as Title.Value; the domain events are not part of it. */
  function ToDto(t: TaskState): (d: TaskDto)
    ensures d.id == t.id && d.title == t.title.AsString()
    ensures d.description == t.description && d.status == t.status
    ensures d.priority == t.priority && d.dueDate == t.dueDate
    ensures d.createdAt == t.createdAt && d.updatedAt == t.updatedAt
  {
    TaskDto(t.id, t.title.value, t.description, t.status, t.priority, t.dueDate,
            t.createdAt, t.updatedAt)
  }

  /** The DTO does not depend on the events, so the DTO a handler returns
      equals the one later read back from the stored row, which has none. */
  lemma ToDtoIgnoresEvents(t: TaskState, es: seq<DomainEvent>)
    ensures ToDto(t.(events := es)) == ToDto(t)
  {
  }
}
