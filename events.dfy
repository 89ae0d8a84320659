/** The domain events a TaskItem records. The source's events also carry
    an OccurredOn clock reading, which this model drops. */
module Events {
  import opened Common
  import opened Enums

  datatype DomainEvent =
    | TaskCreated(taskId: Id, title: string)
    | TaskUpdated(taskId: Id)
    | TaskStatusChanged(taskId: Id, newStatus: TaskStatus)
    | TaskCompleted(taskId: Id, title: string)
}
