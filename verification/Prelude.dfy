/** Small value types and sequence operations that several modules share. */
module Prelude {

  datatype Option<+T> = None | Some(value: T)

  datatype Result<+T, +E> = Ok(value: T) | Err(error: E)

  /** The members of a list, without order or repetition. */
  function Elements<T>(s: seq<T>): (r: set<T>)
  {
    set x | x in s
  }

  /** The items of `s`, in order, that are not in `drop`: a Python list comprehension
      `[x for x in s if x not in drop]`. */
  function Without<T(==, !new)>(s: seq<T>, drop: seq<T>): (r: seq<T>)
    ensures forall x :: x in r <==> x in s && x !in drop
  {
    if s == [] then []
    else if s[0] in drop then Without(s[1..], drop)
    else [s[0]] + Without(s[1..], drop)
  }

  predicate Distinct<T(==)>(s: seq<T>)
  {
    forall i, j :: 0 <= i < j < |s| ==> s[i] != s[j]
  }

  lemma {:induction false} DistinctSize<T>(s: seq<T>)
    requires Distinct(s)
    ensures |Elements(s)| == |s|
  {
    if s != [] {
      var shorter, last := s[..|s| - 1], s[|s| - 1];
      DistinctSize(shorter);
      assert Elements(s) == Elements(shorter) + {last} by {
        assert s == shorter + [last];
      }
    }
  }

  /** Python's `part in text`. */
  predicate Contains(text: string, part: string)
  {
    exists at | 0 <= at <= |text| :: OccursAt(text, part, at)
  }

  predicate OccursAt(text: string, part: string, at: nat)
  {
    at + |part| <= |text| && text[at..at + |part|] == part
  }
}
