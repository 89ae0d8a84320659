/** The GetTask query. */
module GetTask {
  import opened Wrappers
  import opened Common
  import opened Entities
  import opened Repositories
  import opened Dtos

  datatype GetTaskQuery = GetTaskQuery(id: Id)

  class GetTaskQueryHandler {
    const repository: TaskRepository

    constructor (repository: TaskRepository)
      ensures this.repository == repository
    {
      this.repository := repository;
    }

    /** Handle: the stored task with that id as a DTO, or NotFound. */
    method Handle(request: GetTaskQuery) returns (r: Result<TaskDto, Error>)
      requires repository.Valid()
      ensures r.Success? <==> request.id in repository.rows
      ensures r.Failure? ==> r.error == NotFound(request.id)
      ensures r.Success? ==> r.value == ToDto(repository.rows[request.id]) && r.value.id == request.id
    {
      var found := repository.GetById(request.id);
      if found.None? {
        return Failure(NotFound(request.id));
      }
      r := Success(ToDto(found.value));
    }
  }

  /** A query reads the store and changes nothing: asking twice gives the
      same answer. */
  method QueryTwice(handler: GetTaskQueryHandler, id: Id) returns (first: Result<TaskDto, Error>, second: Result<TaskDto, Error>)
    requires handler.repository.Valid()
    ensures first == second
  {
    first := handler.Handle(GetTaskQuery(id));
    second := handler.Handle(GetTaskQuery(id));
  }
}
