/** Keys made of parts with a separator between them: where a part without it ends. */
module Separators {

  predicate Without(sep: char, s: string) { forall i :: 0 <= i < |s| ==> s[i] != sep }

  predicate ColonFree(s: string) { Without(':', s) }

  predicate NulFree(s: string) { Without('\0', s) }

  /** A part without the separator ends at the first one. */
  lemma HeadUnique(sep: char, a: string, x: string, b: string, y: string)
    requires Without(sep, a) && Without(sep, b) && a + [sep] + x == b + [sep] + y
    ensures a == b && x == y
  {
    FirstSeparator(sep, a, x, b, y);
    FirstSeparator(sep, b, y, a, x);
    var s := a + [sep] + x;
    assert a == s[..|a|] && b == s[..|b|];
    assert x == s[|a| + 1..] && y == s[|b| + 1..];
  }

  lemma FirstSeparator(sep: char, a: string, x: string, b: string, y: string)
    requires Without(sep, b) && a + [sep] + x == b + [sep] + y
    ensures |b| <= |a|
  {
    var s := a + [sep] + x;
    assert s[|a|] == sep;
    assert s == b + ([sep] + y);
    assert forall i :: 0 <= i < |b| ==> s[i] == b[i];
  }
}
