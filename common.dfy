/** Identifiers, clock readings and the error kinds the core throws. */
module Common {

  /** A task id. The source uses a Guid; Guid.Empty is modelled as 0. */
  type Id = nat

  const EmptyId: Id := 0

  /** A reading of the UTC clock, in ticks. */
  type Timestamp = int

  /** Why an ArgumentException (or ArgumentNullException) was thrown. */
  datatype ArgumentReason =
    | TitleEmpty      // TaskTitle: "Title cannot be empty"
    | TitleTooLong    // TaskTitle: "Title cannot exceed 100 characters"
    | NullTitle       // TaskItem: ArgumentNullException for a null title

  /** Why an InvalidOperationException was thrown. */
  datatype InvalidOperationReason =
    | CannotStart                    // MarkAsInProgress from Completed or Cancelled
    | CannotComplete                 // MarkAsCompleted from Cancelled
    | CannotCancel                   // MarkAsCancelled from Completed
    | UnsupportedTarget(raw: int)    // UpdateTaskStatus to Pending or an unnamed value

  /** The failures a use case can end with. */
  datatype Error =
    | NotFound(id: Id)
    | ArgumentError(argument: ArgumentReason)
    | InvalidOperation(operation: InvalidOperationReason)
    | Conflict(key: Id)              // the store refused a duplicate primary key
}
