/** The TaskTitle value object: a string checked once, at construction. */
module ValueObjects {
  import opened Wrappers
  import opened Common
  import opened Strings

  const MaxTitleLength: nat := 100

  /** What every title built by Create satisfies. */
  predicate IsValidTitle(s: string) {
    !IsNullOrWhiteSpace(Some(s)) && Utf16Length(s) <= MaxTitleLength
  }

  datatype TaskTitle = TaskTitle(value: string) {

    /** Equals(object): true exactly for another TaskTitle with the same
        Value. `None` stands for null and for objects of any other type. */
    function Equals(obj: Option<TaskTitle>): (b: bool)
      ensures b <==> obj == Some(this)
    {
      obj.Some? && value == obj.value.value
    }

    /** GetHashCode delegates to the string's hash, read as a signed
        32-bit int. */
    function GetHashCode(): (h: int)
      ensures -0x8000_0000 <= h < 0x8000_0000
      ensures h % 0x1_0000_0000 == StringHash(value)
    {
      var u := StringHash(value);
      if u < 0x8000_0000 then u else u - 0x1_0000_0000
    }

    function ToString(): (s: string)
      ensures s == AsString()
    {
      value
    }

    /** The implicit conversion operator to string: the value, from which
        Create rebuilds this very title whenever it is a valid one. */
    function AsString(): (s: string)
      ensures IsValidTitle(value) ==> Create(Some(s)) == Success(this)
      ensures s == value
    {
      value
    }
  }

  /** A deterministic stand-in for string.GetHashCode: a polynomial hash
      whose unsigned 32-bit state GetHashCode reads as a signed int. Only
      its being a function of the string matters. */
  function StringHash(s: string): (h: int)
    ensures 0 <= h < 0x1_0000_0000
  {
    if s == [] then 17
    else (31 * StringHash(s[..|s| - 1]) + s[|s| - 1] as int) % 0x1_0000_0000
  }

  /** The value the parameterless constructor used by EF Core yields: the
      empty string, which is not a valid title. */
  function Placeholder(): (t: TaskTitle)
    ensures t.value == [] && !IsValidTitle(t.value)
  {
    TaskTitle("")
  }

  /** TaskTitle.Create, which runs the internal constructor's checks: the
      blank check first, then the length check; no trimming. */
  function Create(value: Option<string>): (r: Result<TaskTitle, Error>)
    ensures r.Success? <==> value.Some? && IsValidTitle(value.value)
    ensures r.Success? ==> r.value.value == value.value
    ensures IsNullOrWhiteSpace(value) ==> r == Failure(ArgumentError(TitleEmpty))
    ensures !IsNullOrWhiteSpace(value) && Utf16Length(value.value) > MaxTitleLength ==>
              r == Failure(ArgumentError(TitleTooLong))
  {
    if IsNullOrWhiteSpace(value) then Failure(ArgumentError(TitleEmpty))
    else if Utf16Length(value.value) > MaxTitleLength then Failure(ArgumentError(TitleTooLong))
    else Success(TaskTitle(value.value))
  }

  /** Value equality: Equals is reflexive, symmetric and transitive. */
  lemma EqualsIsEquivalence(a: TaskTitle, b: TaskTitle, c: TaskTitle)
    ensures a.Equals(Some(a))
    ensures a.Equals(Some(b)) ==> b.Equals(Some(a))
    ensures a.Equals(Some(b)) && b.Equals(Some(c)) ==> a.Equals(Some(c))
    ensures !a.Equals(None)
  {
  }

  /** GetHashCode agrees with Equals. */
  lemma HashAgreesWithEquals(a: TaskTitle, b: TaskTitle)
    requires a.Equals(Some(b))
    ensures a.GetHashCode() == b.GetHashCode()
  {
  }

  /** Create keeps the input as it is. */
  lemma CreateRoundTrip(t: TaskTitle)
    requires IsValidTitle(t.value)
    ensures Create(Some(t.AsString())) == Success(t)
  {
  }

  /** Only the EF Core constructor yields an empty title: Create never does. */
  lemma PlaceholderNotCreatable(value: Option<string>)
    ensures Create(value) != Success(Placeholder())
  {
  }

  /** A title of exactly 100 characters is accepted, one of 101 is not. */
  lemma LengthBoundary(s: string)
    requires !IsNullOrWhiteSpace(Some(s))
    ensures Utf16Length(s) == MaxTitleLength ==> Create(Some(s)).Success?
    ensures Utf16Length(s) == MaxTitleLength + 1 ==> Create(Some(s)) == Failure(ArgumentError(TitleTooLong))
  {
  }

  /** Length counts UTF-16 code units: sixty characters outside the Basic
      Multilingual Plane make a title of 120, which is too long. */
  lemma AstralTitleTooLong()
    ensures Create(Some(seq(60, _ => '\U{1F600}'))) == Failure(ArgumentError(TitleTooLong))
  {
    var s := seq(60, _ => '\U{1F600}');
    AstralLength(s);
    assert !IsWhiteSpace(s[0]);
  }

  /** A blank title is reported as empty, whatever its length. */
  lemma BlankBeforeLength(n: nat)
    ensures Create(Some(seq(n, _ => ' '))) == Failure(ArgumentError(TitleEmpty))
  {
    var s := seq(n, _ => ' ');
    assert forall i | 0 <= i < |s| :: IsWhiteSpace(s[i]);
  }
}
