/** Small types shared by every module of the model. */
module Prelude {

  datatype Option<+T> = None | Some(value: T)

  datatype Result<+T, +E> = Ok(value: T) | Err(error: E)

  /** An instant or a duration, in nanoseconds, as in Go's time package. */
  type Time = int

  const SECOND: Time := 1_000_000_000
  const MINUTE: Time := 60 * SECOND
  const HOUR: Time := 60 * MINUTE

  function AsSet<T(==)>(s: seq<T>): set<T> { set x | x in s }

  ghost predicate Free(s: string, sep: char) { forall c :: c in s ==> c != sep }

  /** Text up to the first separator is determined by the whole. */
  lemma CutIsUnique(a: string, r: string, b: string, s: string, sep: char)
    requires Free(a, sep) && Free(b, sep)
    requires a + [sep] + r == b + [sep] + s
    ensures a == b && r == s
  {
    var w := a + [sep] + r;
    assert forall i :: 0 <= i < |a| ==> w[i] == a[i] && a[i] in a;
    assert forall i :: 0 <= i < |b| ==> w[i] == b[i] && b[i] in b;
    assert w[|a|] == sep && w[|b|] == sep;
    assert |a| == |b|;
    assert a == w[..|a|] == b;
    assert r == w[|a| + 1..] == s;
  }
}
