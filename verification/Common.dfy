/** Small vocabulary shared by every model: optional values, clock readings and sequences without repeats. */
module Common {

  datatype Option<+T> = None | Some(value: T)

  /** A clock reading, in seconds. */
  type Time = real

  predicate Distinct<T(==)>(s: seq<T>) {
    forall i, j :: 0 <= i < j < |s| ==> s[i] != s[j]
  }

  /** `s` lists every element of `elements` exactly once: one possible iteration order of a hash table. */
  ghost predicate Enumerates<T(!new)>(s: seq<T>, elements: set<T>) {
    && Distinct(s)
    && forall x :: x in s <==> x in elements
  }

  function Max(a: int, b: int): int {
    if a < b then b else a
  }
}
