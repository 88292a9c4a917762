/** Optional values and fallible results, for Python's `None` and its exceptions, and a few
    facts about text and slices that several modules use. */
module Wrappers {
  datatype Option<+T> = None | Some(value: T)

  datatype Result<+T, +E> = Success(value: T) | Failure(error: E)

  /** `s[:n]`. */
  function Take<T>(n: nat, s: seq<T>): seq<T> { if n <= |s| then s[..n] else s }

  lemma WholePrefix<T>(s: seq<T>)
    ensures s[..|s|] == s
  {
  }

  predicate IsSpace(c: char) { c == ' ' || c == '\t' || c == '\n' || c == '\r' }
}
