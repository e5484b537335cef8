/** The array searches the services use: `Array.prototype.find`, `some` and `includes`. */
module Search {
  import opened Wrappers

  /** Index of the first element satisfying `p`, as `find` returns the first match. */
  function Find<T>(s: seq<T>, p: T -> bool): (r: Option<nat>)
    ensures r.Some? ==> r.value < |s| && p(s[r.value])
    ensures r.Some? ==> forall j :: 0 <= j < r.value ==> !p(s[j])
    ensures r.None? <==> forall j :: 0 <= j < |s| ==> !p(s[j])
  {
    if |s| == 0 then None
    else if p(s[0]) then Some(0)
    else match Find(s[1..], p)
      case None => None
      case Some(k) => Some(k + 1)
  }

  /** Whether some element satisfies `p`. */
  function Any<T>(s: seq<T>, p: T -> bool): (b: bool)
    ensures b <==> exists j :: 0 <= j < |s| && p(s[j])
  {
    if |s| == 0 then false else p(s[0]) || Any(s[1..], p)
  }

  /** Whether `x` occurs in `s`, compared with `===`. */
  function Includes<T(==)>(s: seq<T>, x: T): (b: bool)
    ensures b <==> x in s
  {
    Any(s, (y: T) => y == x)
  }
}
