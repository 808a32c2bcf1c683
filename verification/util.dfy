/** Small shared vocabulary: optional values, first-index search and prefix sums. */
module Util {
  datatype Option<+T> = None | Some(value: T)

  datatype Result<+T> = Ok(value: T) | Err(message: string)

  function Max(a: int, b: int): int { if a < b then b else a }

  function Min(a: int, b: int): int { if a < b then a else b }

  /** First position holding x, or -1. */
  function FindIndex<T(==)>(s: seq<T>, x: T): (r: int)
    ensures -1 <= r < |s|
    ensures r >= 0 ==> s[r] == x && x !in s[..r]
    ensures r == -1 <==> x !in s
  {
    if s == [] then -1
    else if s[0] == x then 0
    else
      var r := FindIndex(s[1..], x);
      assert r >= 0 ==> s[..r + 1] == [s[0]] + s[1..][..r];
      if r == -1 then -1 else r + 1
  }

  /** A first-index search is not affected by what is appended later. */
  lemma {:induction false} FindIndexPrefix<T>(s: seq<T>, more: seq<T>, x: T)
    requires x in s
    ensures FindIndex(s + more, x) == FindIndex(s, x)
  {
    if s[0] != x {
      assert (s + more)[1..] == s[1..] + more;
      FindIndexPrefix(s[1..], more, x);
    }
  }

  function Sum(s: seq<int>): int {
    if s == [] then 0 else Sum(s[..|s| - 1]) + s[|s| - 1]
  }
}
