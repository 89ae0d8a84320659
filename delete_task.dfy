/** The DeleteTask use case. */
module DeleteTask {
  import opened Wrappers
  import opened Common
  import opened Repositories

  datatype DeleteTaskCommand = DeleteTaskCommand(id: Id)

  class DeleteTaskCommandHandler {
    const repository: TaskRepository

    constructor (repository: TaskRepository)
      ensures this.repository == repository
    {
      this.repository := repository;
    }

    /** Handle: an unknown id is NotFound and deletes nothing; otherwise the
        task, and only that task, is gone. */
    method Handle(request: DeleteTaskCommand) returns (r: Outcome<Error>)
      requires repository.Valid()
      modifies repository
      ensures repository.Valid()
      ensures r == (if request.id in old(repository.rows) then Pass else Fail(NotFound(request.id)))
      ensures repository.rows == old(repository.rows) - {request.id}
      ensures !repository.Exists(request.id)
    {
      var present := repository.Exists(request.id);
      if !present {
        return Fail(NotFound(request.id));
      }
      repository.Delete(request.id);
      r := Pass;
    }
  }

  /** Deleting the same task twice: the second request finds nothing. */
  method DeleteTwice(handler: DeleteTaskCommandHandler, id: Id) returns (first: Outcome<Error>, second: Outcome<Error>)
    requires handler.repository.Valid()
    modifies handler.repository
    ensures first.Pass? <==> id in old(handler.repository.rows)
    ensures second == Fail(NotFound(id))
    ensures handler.repository.rows == old(handler.repository.rows) - {id}
  {
    first := handler.Handle(DeleteTaskCommand(id));
    second := handler.Handle(DeleteTaskCommand(id));
  }
}
