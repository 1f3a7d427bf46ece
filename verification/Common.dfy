/** The optional value used throughout the model (`null` and `undefined` in the sources). */
module Common {
  datatype Option<+T> = None | Some(value: T)

  datatype Result<+T, +E> = Ok(value: T) | Err(error: E)

  type Byte = b: nat | b < 256

  /** The last element of a non-empty sequence. */
  function Last<T>(s: seq<T>): T
    requires s != []
  {
    s[|s| - 1]
  }

  /** Everything but the last element. */
  function Init<T>(s: seq<T>): seq<T>
    requires s != []
  {
    s[..|s| - 1]
  }

  lemma AppendInit<T>(h: seq<T>, g: seq<T>)
    requires g != []
    ensures h + g == (h + Init(g)) + [Last(g)]
  {
  }

  lemma SliceOfPrefix<T>(s: seq<T>, n: nat, k: nat, m: nat)
    requires k <= m <= n <= |s|
    ensures s[..n][k..] == s[k..n]
    ensures s[k..n][..m - k] == s[k..m]
    ensures s[..k] + s[k..m] == s[..m]
  {
  }

  predicate OccursAt<T(==)>(s: seq<T>, sub: seq<T>, i: int) {
    0 <= i <= |s| - |sub| && s[i..i + |sub|] == sub
  }

  /** `strings.Contains` */
  predicate Contains<T(==)>(s: seq<T>, sub: seq<T>) {
    exists i: int :: 0 <= i <= |s| && OccursAt(s, sub, i)
  }

  lemma DivideBack(x: real, y: real)
    requires y > 0.0
    ensures x / y * y == x
  {
  }
}
