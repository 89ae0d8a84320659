/** The two enumerations of the domain, with the integer values their
    members carry (TaskStatus: Pending = 0 .. Cancelled = 3; Priority:
    Low = 0 .. Critical = 3). */
module Enums {
  import opened Wrappers

  datatype TaskStatus = Pending | InProgress | Completed | Cancelled

  /** A C# enum variable may hold any integer, named or not; `Undefined`
      stands for a value outside the four members. */
  datatype Priority = Low | Medium | High | Critical | Undefined(value: int)

  function StatusValue(s: TaskStatus): (v: int)
    ensures 0 <= v <= 3
  {
    match s
    case Pending => 0
    case InProgress => 1
    case Completed => 2
    case Cancelled => 3
  }

  /** The named status with integer value `v`, if there is one. */
  function StatusOf(v: int): (r: Option<TaskStatus>)
    ensures r.Some? <==> 0 <= v <= 3
    ensures r.Some? ==> StatusValue(r.value) == v
  {
    if v == 0 then Some(Pending)
    else if v == 1 then Some(InProgress)
    else if v == 2 then Some(Completed)
    else if v == 3 then Some(Cancelled)
    else None
  }

  lemma StatusRoundTrip(s: TaskStatus)
    ensures StatusOf(StatusValue(s)) == Some(s)
  {
  }

  /** FluentValidation's IsInEnum: the value names a member. */
  predicate IsInEnum(v: int) {
    0 <= v <= 3
  }

  /** The value a C# cast `(Priority)v` produces. */
  function PriorityOf(v: int): (p: Priority)
    ensures p.Undefined? <==> !IsInEnum(v)
    ensures PriorityValue(p) == v
  {
    if v == 0 then Low
    else if v == 1 then Medium
    else if v == 2 then High
    else if v == 3 then Critical
    else Undefined(v)
  }

  function PriorityValue(p: Priority): int {
    match p
    case Low => 0
    case Medium => 1
    case High => 2
    case Critical => 3
    case Undefined(v) => v
  }

  /** A priority value in the one form a cast produces: an unnamed value
      never carries the integer of a named member. */
  predicate Canonical(p: Priority) {
    p.Undefined? ==> !IsInEnum(p.value)
  }

  lemma PriorityRoundTrip(p: Priority)
    requires Canonical(p)
    ensures PriorityOf(PriorityValue(p)) == p
  {
  }
}
