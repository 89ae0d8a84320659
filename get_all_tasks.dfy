/** The GetAllTasks query. */
module GetAllTasks {
  import opened Common
  import opened Entities
  import opened Repositories
  import opened Dtos

  datatype GetAllTasksQuery = GetAllTasksQuery

  /** The Select that maps each task to its DTO. */
  function Select(ts: seq<TaskState>): (ds: seq<TaskDto>)
    ensures |ds| == |ts|
    ensures forall i | 0 <= i < |ds| :: ds[i] == ToDto(ts[i])
  {
    seq(|ts|, i requires 0 <= i < |ts| => ToDto(ts[i]))
  }

  /** Select keeps the order by CreatedAt and the distinct ids. */
  lemma SelectKeepsOrder(ts: seq<TaskState>)
    requires Sorted(ts) && UniqueIds(ts)
    ensures var ds := Select(ts);
            forall i, j | 0 <= i < j < |ds| :: ds[i].createdAt <= ds[j].createdAt && ds[i].id != ds[j].id
  {
  }

  /** When `ts` lists exactly the rows of `m`, Select lists exactly their DTOs. */
  lemma SelectCovers(m: map<Id, TaskState>, ts: seq<TaskState>)
    requires forall i | 0 <= i < |ts| :: ts[i].id in m && m[ts[i].id] == ts[i]
    requires forall k | k in m :: m[k] in ts
    ensures var ds := Select(ts);
            && (forall i | 0 <= i < |ds| :: ds[i].id in m && ds[i] == ToDto(m[ds[i].id]))
            && (forall k | k in m :: ToDto(m[k]) in ds)
  {
    var ds := Select(ts);
    forall k | k in m ensures ToDto(m[k]) in ds {
      var i :| 0 <= i < |ts| && ts[i] == m[k];
      assert ds[i] == ToDto(m[k]);
    }
  }

  class GetAllTasksQueryHandler {
    const repository: TaskRepository

    constructor (repository: TaskRepository)
      ensures this.repository == repository
    {
      this.repository := repository;
    }

    /** Handle: one DTO per stored task, ordered by CreatedAt. */
    method Handle(request: GetAllTasksQuery) returns (r: seq<TaskDto>)
      requires repository.Valid()
      ensures r == Select(repository.GetAll())
      ensures |r| == |repository.rows|
      ensures forall i, j | 0 <= i < j < |r| :: r[i].createdAt <= r[j].createdAt && r[i].id != r[j].id
      ensures forall i | 0 <= i < |r| :: r[i].id in repository.rows && r[i] == ToDto(repository.rows[r[i].id])
      ensures forall k | k in repository.rows :: ToDto(repository.rows[k]) in r
      ensures repository.rows == map[] <==> r == []
    {
      var tasks := repository.GetAll();
      r := Select(tasks);
      SelectKeepsOrder(tasks);
      SelectCovers(repository.rows, tasks);
    }
  }

  /** Asking twice gives the same list. */
  method QueryTwice(handler: GetAllTasksQueryHandler) returns (first: seq<TaskDto>, second: seq<TaskDto>)
    requires handler.repository.Valid()
    ensures first == second
  {
    first := handler.Handle(GetAllTasksQuery);
    second := handler.Handle(GetAllTasksQuery);
  }
}
