/** TaskRepository over an in-memory store: the rows of the Tasks table,
    keyed by id. */
module Repositories {
  import opened Wrappers
  import opened Common
  import opened Enums
  import opened Entities

  /** Non-decreasing CreatedAt. */
  predicate Sorted(ts: seq<TaskState>) {
    forall i, j | 0 <= i < j < |ts| :: ts[i].createdAt <= ts[j].createdAt
  }

  /** No task appears twice. */
  predicate UniqueIds(ts: seq<TaskState>) {
    forall i, j | 0 <= i < j < |ts| :: ts[i].id != ts[j].id
  }

  /** The order OrderBy(t => t.CreatedAt) lists rows in; rows with equal
      CreatedAt are taken in order of id. */
  predicate Precedes(m: map<Id, TaskState>, a: Id, b: Id) {
    && a in m && b in m
    && (m[a].createdAt < m[b].createdAt || (m[a].createdAt == m[b].createdAt && a <= b))
  }

  predicate IsFirst(m: map<Id, TaskState>, k: Id) {
    k in m && forall j | j in m :: Precedes(m, k, j)
  }

  lemma PrecedesTransitive(m: map<Id, TaskState>, a: Id, b: Id, c: Id)
    requires Precedes(m, a, b) && Precedes(m, b, c)
    ensures Precedes(m, a, c)
  {
  }

  lemma {:induction false} FirstExists(m: map<Id, TaskState>)
    requires m != map[]
    ensures exists k :: IsFirst(m, k)
    decreases |m|
  {
    var x :| x in m;
    var rest := m - {x};
    assert rest.Keys == m.Keys - {x};
    if rest.Keys == {} {
      forall j | j in m ensures Precedes(m, x, j) {
        assert j !in rest.Keys;
      }
      assert IsFirst(m, x);
    } else {
      FirstExists(rest);
      var y :| IsFirst(rest, y);
      if Precedes(m, x, y) {
        forall j | j in m ensures Precedes(m, x, j) {
          if j != x {
            assert j in rest && Precedes(rest, y, j);
            PrecedesTransitive(m, x, y, j);
          }
        }
        assert IsFirst(m, x);
      } else {
        forall j | j in m ensures Precedes(m, y, j) {
          if j != x {
            assert j in rest && Precedes(rest, y, j);
          }
        }
        assert IsFirst(m, y);
      }
    }
  }

  /** `ks` lists every key of `m` exactly once, in the order of `Precedes`. */
  ghost predicate ListsInOrder(m: map<Id, TaskState>, ks: seq<Id>) {
    && |ks| == |m|
    && (forall i | 0 <= i < |ks| :: ks[i] in m)
    && (forall k | k in m :: k in ks)
    && Distinct(ks)
    && (forall i, j | 0 <= i < j < |ks| :: Precedes(m, ks[i], ks[j]))
  }

  ghost predicate Distinct(ks: seq<Id>) {
    forall i, j | 0 <= i < j < |ks| :: ks[i] != ks[j]
  }

  lemma ConsCovers(m: map<Id, TaskState>, k: Id, tail: seq<Id>)
    requires k in m
    requires forall i | 0 <= i < |tail| :: tail[i] in m - {k}
    requires forall j | j in m - {k} :: j in tail
    ensures forall i | 0 <= i < |[k] + tail| :: ([k] + tail)[i] in m
    ensures forall j | j in m :: j in [k] + tail
  {
    var ks := [k] + tail;
    forall i | 0 <= i < |ks| ensures ks[i] in m {
      if i > 0 { assert ks[i] == tail[i - 1]; }
    }
    forall j | j in m ensures j in ks {
      if j != k { assert j in m - {k}; }
    }
  }

  lemma ConsDistinct(k: Id, tail: seq<Id>)
    requires k !in tail
    requires Distinct(tail)
    ensures Distinct([k] + tail)
  {
    var ks := [k] + tail;
    forall i, j | 0 <= i < j < |ks| ensures ks[i] != ks[j] {
      assert ks[j] == tail[j - 1];
      if i > 0 { assert ks[i] == tail[i - 1]; }
    }
  }

  lemma ConsInOrder(m: map<Id, TaskState>, k: Id, tail: seq<Id>)
    requires IsFirst(m, k)
    requires forall i | 0 <= i < |tail| :: tail[i] in m
    requires forall i, j | 0 <= i < j < |tail| :: Precedes(m - {k}, tail[i], tail[j])
    ensures forall i, j | 0 <= i < j < |[k] + tail| :: Precedes(m, ([k] + tail)[i], ([k] + tail)[j])
  {
    var ks := [k] + tail;
    forall i, j | 0 <= i < j < |ks| ensures Precedes(m, ks[i], ks[j]) {
      assert ks[j] == tail[j - 1];
      if i > 0 {
        assert ks[i] == tail[i - 1];
        assert Precedes(m - {k}, tail[i - 1], tail[j - 1]);
      }
    }
  }

  lemma ListsInOrderCons(m: map<Id, TaskState>, k: Id, tail: seq<Id>)
    requires IsFirst(m, k)
    requires ListsInOrder(m - {k}, tail)
    ensures ListsInOrder(m, [k] + tail)
  {
    var rest := m - {k};
    assert rest.Keys == m.Keys - {k};
    assert |rest| == |m| - 1;
    ConsCovers(m, k, tail);
    assert k !in tail;
    ConsDistinct(k, tail);
    ConsInOrder(m, k, tail);
  }

  /** The keys of `m` in the order of `Precedes`, each once. */
  function OrderedKeys(m: map<Id, TaskState>): (ks: seq<Id>)
    ensures ListsInOrder(m, ks)
    decreases |m|
  {
    if m == map[] then []
    else
      FirstExists(m);
      var k :| IsFirst(m, k);
      RemoveShrinks(m, k);
      var tail := OrderedKeys(m - {k});
      ListsInOrderCons(m, k, tail);
      [k] + tail
  }

  /** Removing a stored key shrinks the map by one entry. */
  lemma RemoveShrinks(m: map<Id, TaskState>, k: Id)
    requires k in m
    ensures |m - {k}| == |m| - 1
  {
    assert (m - {k}).Keys == m.Keys - {k};
  }

  /** Each row stored under its own id. */
  ghost predicate KeyedById(m: map<Id, TaskState>) {
    forall k | k in m :: m[k].id == k
  }

  /** The rows of `m` in the order OrderBy(t => t.CreatedAt) gives them. */
  function OrderByCreatedAt(m: map<Id, TaskState>): (r: seq<TaskState>)
    requires KeyedById(m)
    ensures |r| == |m|
    ensures Sorted(r) && UniqueIds(r)
    ensures forall i | 0 <= i < |r| :: r[i].id in m && m[r[i].id] == r[i]
    ensures forall k | k in m :: m[k] in r
  {
    var ks := OrderedKeys(m);
    var r := seq(|ks|, i requires 0 <= i < |ks| => m[ks[i]]);
    RowsFollowKeys(m, ks, r);
    r
  }

  lemma RowsFollowKeys(m: map<Id, TaskState>, ks: seq<Id>, r: seq<TaskState>)
    requires KeyedById(m) && ListsInOrder(m, ks)
    requires |r| == |ks| && forall i | 0 <= i < |ks| :: r[i] == m[ks[i]]
    ensures Sorted(r) && UniqueIds(r)
    ensures forall i | 0 <= i < |r| :: r[i].id in m && m[r[i].id] == r[i]
    ensures forall k | k in m :: m[k] in r
  {
    forall i, j | 0 <= i < j < |r| ensures r[i].createdAt <= r[j].createdAt {
      assert Precedes(m, ks[i], ks[j]);
    }
    forall i, j | 0 <= i < j < |r| ensures r[i].id != r[j].id {
      assert ks[i] != ks[j];
    }
    forall k | k in m ensures m[k] in r {
      var i :| 0 <= i < |ks| && ks[i] == k;
      assert r[i] == m[k];
    }
  }

  /** The tasks of `ts` with status `st`, in the same order (Where). */
  function WithStatus(ts: seq<TaskState>, st: TaskStatus): (r: seq<TaskState>)
    ensures forall i | 0 <= i < |r| :: r[i] in ts && r[i].status == st
    ensures forall i | 0 <= i < |ts| && ts[i].status == st :: ts[i] in r
    decreases |ts|
  {
    if ts == [] then []
    else
      var rest := WithStatus(ts[1..], st);
      assert forall i | 0 <= i < |ts| - 1 :: ts[1..][i] == ts[i + 1];
      if ts[0].status == st then [ts[0]] + rest else rest
  }

  /** Where keeps the original order and multiplicity: filtering a
      concatenation filters each part, and a single task is kept exactly
      when it has the status. */
  lemma {:induction false} WithStatusAppend(a: seq<TaskState>, b: seq<TaskState>, st: TaskStatus)
    ensures WithStatus(a + b, st) == WithStatus(a, st) + WithStatus(b, st)
    decreases |a|
  {
    if a == [] {
      assert a + b == b;
    } else {
      assert (a + b)[1..] == a[1..] + b;
      WithStatusAppend(a[1..], b, st);
    }
  }

  lemma WithStatusSingle(t: TaskState, st: TaskStatus)
    ensures WithStatus([t], st) == if t.status == st then [t] else []
  {
    assert [t][1..] == [];
  }

  /** A task no later than every task of a sorted list may go in front. */
  lemma ConsSorted(t: TaskState, rest: seq<TaskState>)
    requires Sorted(rest)
    requires forall i | 0 <= i < |rest| :: t.createdAt <= rest[i].createdAt
    ensures Sorted([t] + rest)
  {
    var r := [t] + rest;
    forall i, j | 0 <= i < j < |r| ensures r[i].createdAt <= r[j].createdAt {
      assert r[j] == rest[j - 1];
      if i > 0 {
        assert r[i] == rest[i - 1];
      }
    }
  }

  /** A task whose id no task of a list has may go in front. */
  lemma ConsUnique(t: TaskState, rest: seq<TaskState>)
    requires UniqueIds(rest)
    requires forall i | 0 <= i < |rest| :: t.id != rest[i].id
    ensures UniqueIds([t] + rest)
  {
    var r := [t] + rest;
    forall i, j | 0 <= i < j < |r| ensures r[i].id != r[j].id {
      assert r[j] == rest[j - 1];
      if i > 0 {
        assert r[i] == rest[i - 1];
      }
    }
  }

  lemma {:induction false} WithStatusKeepsSorted(ts: seq<TaskState>, st: TaskStatus)
    requires Sorted(ts)
    ensures Sorted(WithStatus(ts, st))
    decreases |ts|
  {
    if ts != [] {
      var tail := ts[1..];
      WithStatusKeepsSorted(tail, st);
      var rest := WithStatus(tail, st);
      if ts[0].status == st {
        forall i | 0 <= i < |rest| ensures ts[0].createdAt <= rest[i].createdAt {
          var k :| 0 <= k < |tail| && tail[k] == rest[i];
          assert ts[k + 1] == rest[i];
        }
        ConsSorted(ts[0], rest);
      }
    }
  }

  lemma {:induction false} WithStatusKeepsUnique(ts: seq<TaskState>, st: TaskStatus)
    requires UniqueIds(ts)
    ensures UniqueIds(WithStatus(ts, st))
    decreases |ts|
  {
    if ts != [] {
      var tail := ts[1..];
      WithStatusKeepsUnique(tail, st);
      var rest := WithStatus(tail, st);
      if ts[0].status == st {
        forall i | 0 <= i < |rest| ensures ts[0].id != rest[i].id {
          var k :| 0 <= k < |tail| && tail[k] == rest[i];
          assert ts[k + 1] == rest[i];
        }
        ConsUnique(ts[0], rest);
      }
    }
  }

  lemma SelectByStatus(m: map<Id, TaskState>, all: seq<TaskState>, st: TaskStatus)
    requires KeyedById(m) && all == OrderByCreatedAt(m)
    ensures var r := WithStatus(all, st);
            && Sorted(r) && UniqueIds(r)
            && (forall i | 0 <= i < |r| :: r[i].status == st && r[i].id in m && m[r[i].id] == r[i])
            && (forall k | k in m && m[k].status == st :: m[k] in r)
  {
    WithStatusKeepsSorted(all, st);
    WithStatusKeepsUnique(all, st);
    var r := WithStatus(all, st);
    forall i | 0 <= i < |r| ensures r[i].id in m && m[r[i].id] == r[i] {
      var j :| 0 <= j < |all| && all[j] == r[i];
    }
    forall k | k in m && m[k].status == st ensures m[k] in r {
      var i :| 0 <= i < |all| && all[i] == m[k];
    }
  }

  /** The row EF Core saves for a task: every mapped column, that is every
      field except the domain events, which have no column. */
  function Persisted(t: TaskState): (p: TaskState)
    ensures p.events == []
    ensures p.(events := t.events) == t
  {
    t.(events := [])
  }

  /** No stored row carries domain events. */
  ghost predicate NoEvents(m: map<Id, TaskState>) {
    forall k | k in m :: m[k].events == []
  }

  class TaskRepository {
    var rows: map<Id, TaskState>

    /** Each row is stored under its own id and, as a database row, holds
        no domain events. */
    ghost predicate Valid()
      reads this
    {
      KeyedById(rows) && NoEvents(rows)
    }

    constructor ()
      ensures Valid() && rows == map[]
    {
      rows := map[];
    }

    /** GetByIdAsync: FirstOrDefault(t => t.Id == id). */
    function GetById(id: Id): (r: Option<TaskState>)
      reads this
      requires Valid()
      ensures r.Some? <==> exists k | k in rows :: rows[k].id == id
      ensures r.Some? ==> r.value.id == id && r.value in rows.Values
    {
      if id in rows then Some(rows[id]) else None
    }

    /** ExistsAsync: Any(t => t.Id == id). */
    function Exists(id: Id): (b: bool)
      reads this
      requires Valid()
      ensures b <==> GetById(id).Some?
    {
      id in rows
    }

    /** GetAllAsync: every row once, ordered by CreatedAt. */
    function GetAll(): (r: seq<TaskState>)
      reads this
      requires Valid()
      ensures |r| == |rows|
      ensures Sorted(r) && UniqueIds(r)
      ensures forall i | 0 <= i < |r| :: r[i].id in rows && rows[r[i].id] == r[i]
      ensures forall k | k in rows :: rows[k] in r
    {
      OrderByCreatedAt(rows)
    }

    /** GetByStatusAsync: the rows with that status, ordered by CreatedAt. */
    function GetByStatus(status: TaskStatus): (r: seq<TaskState>)
      reads this
      requires Valid()
      ensures Sorted(r) && UniqueIds(r)
      ensures forall i | 0 <= i < |r| :: r[i].status == status && r[i].id in rows && rows[r[i].id] == r[i]
      ensures forall k | k in rows && rows[k].status == status :: rows[k] in r
    {
      var all := OrderByCreatedAt(rows);
      SelectByStatus(rows, all, status);
      WithStatus(all, status)
    }

    /** AddAsync: inserts the task's row; the database refuses a duplicate key. */
    method Add(task: TaskState) returns (r: Outcome<Error>)
      requires Valid()
      modifies this
      ensures Valid()
      ensures r == (if task.id in old(rows) then Fail(Conflict(task.id)) else Pass)
      ensures rows == if r.Pass? then old(rows)[task.id := Persisted(task)] else old(rows)
    {
      if task.id in rows {
        return Fail(Conflict(task.id));
      }
      rows := rows[task.id := Persisted(task)];
      r := Pass;
    }

    /** UpdateAsync: writes the whole current state of an existing row; no
        row with that id is a failure of the database update. */
    method Update(task: TaskState) returns (r: Outcome<Error>)
      requires Valid()
      modifies this
      ensures Valid()
      ensures r == (if task.id in old(rows) then Pass else Fail(NotFound(task.id)))
      ensures rows == if r.Pass? then old(rows)[task.id := Persisted(task)] else old(rows)
    {
      if task.id !in rows {
        return Fail(NotFound(task.id));
      }
      rows := rows[task.id := Persisted(task)];
      r := Pass;
    }

    /** DeleteAsync: removes the row if there is one, otherwise does nothing. */
    method Delete(id: Id)
      requires Valid()
      modifies this
      ensures Valid()
      ensures rows == old(rows) - {id}
    {
      if id in rows {
        rows := rows - {id};
      }
    }
  }
}
