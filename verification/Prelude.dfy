/** Small shared datatypes and arithmetic. */
module Prelude {

  datatype Option<+T> = None | Some(value: T) {
    function GetOr(default: T): T {
      if Some? then value else default
    }
  }

  datatype Result<+T, +E> = Ok(value: T) | Err(error: E)

  function Min(a: int, b: int): int {
    if a <= b then a else b
  }

  function Max(a: int, b: int): int {
    if a >= b then a else b
  }

  function MaxReal(a: real, b: real): real {
    if a >= b then a else b
  }

  /** ASCII lower case. */
  function LowerChar(c: char): char {
    if 'A' <= c <= 'Z' then c - 'A' + 'a' else c
  }

  function Lower(s: string): (r: string)
    ensures |r| == |s| && forall i | 0 <= i < |s| :: r[i] == LowerChar(s[i])
  {
    seq(|s|, i requires 0 <= i < |s| => LowerChar(s[i]))
  }

  /** SQLite's `s LIKE prefix || '%'`: case does not matter and an underscore matches any character. */
  predicate LikePrefix(prefix: string, s: string) {
    |prefix| <= |s|
    && forall i | 0 <= i < |prefix| :: prefix[i] == '_' || LowerChar(prefix[i]) == LowerChar(s[i])
  }

  /** The first position whose entry satisfies the test. */
  function FirstWhere<T>(xs: seq<T>, test: T -> bool): (found: Option<nat>)
    ensures found.Some? ==> found.value < |xs| && test(xs[found.value]) && forall i | 0 <= i < found.value :: !test(xs[i])
    ensures found.None? ==> forall i | 0 <= i < |xs| :: !test(xs[i])
  {
    if xs == [] then None
    else
      var n := |xs| - 1;
      var earlier := FirstWhere(xs[..n], test);
      if earlier.Some? then earlier else if test(xs[n]) then Some(n) else None
  }
}
