/** The .NET string tests the core relies on. */
module Strings {
  import opened Wrappers

  /** .NET's char.IsWhiteSpace: the Unicode space, line and paragraph
      separators, the controls U+0009..U+000D and U+0085. A model `char`
      is a Unicode scalar value; every white-space character lies in the
      Basic Multilingual Plane, and a surrogate code unit is never white
      space, so testing scalar values gives the same verdict as testing
      UTF-16 code units. */
  predicate IsWhiteSpace(c: char) {
    var n := c as int;
    n == 0x20 || 0x09 <= n <= 0x0D || n == 0x85 || n == 0xA0 || n == 0x1680
    || 0x2000 <= n <= 0x200A || n == 0x2028 || n == 0x2029 || n == 0x202F
    || n == 0x205F || n == 0x3000
  }

  /** string.IsNullOrWhiteSpace; `None` is the null string. */
  predicate IsNullOrWhiteSpace(s: Option<string>) {
    s.None? || forall i | 0 <= i < |s.value| :: IsWhiteSpace(s.value[i])
  }

  /** string.IsNullOrEmpty. */
  predicate IsNullOrEmpty(s: Option<string>) {
    s.None? || s.value == ""
  }

  /** string.Length: the number of UTF-16 code units. A character outside
      the Basic Multilingual Plane takes two, a surrogate pair. */
  function Utf16Length(s: string): (n: nat)
    ensures |s| <= n <= 2 * |s|
    decreases |s|
  {
    if s == [] then 0
    else Utf16Length(s[..|s| - 1]) + (if s[|s| - 1] as int >= 0x10000 then 2 else 1)
  }

  /** Every character of `s` is one UTF-16 code unit. */
  predicate InBmp(s: string) {
    forall i | 0 <= i < |s| :: (s[i] as int) < 0x10000
  }

  /** In the Basic Multilingual Plane, Length is the number of characters. */
  lemma {:induction false} BmpLength(s: string)
    requires InBmp(s)
    ensures Utf16Length(s) == |s|
    decreases |s|
  {
    if s != [] {
      var p := s[..|s| - 1];
      assert forall i | 0 <= i < |p| :: p[i] == s[i];
      BmpLength(p);
    }
  }

  /** Outside it, each character counts twice. */
  lemma {:induction false} AstralLength(s: string)
    requires forall i | 0 <= i < |s| :: (s[i] as int) >= 0x10000
    ensures Utf16Length(s) == 2 * |s|
    decreases |s|
  {
    if s != [] {
      var p := s[..|s| - 1];
      assert forall i | 0 <= i < |p| :: p[i] == s[i];
      AstralLength(p);
    }
  }
}
