/**
 The pieces of JavaScript the derivations are written in: an optional value
 (what `?.` and `undefined` give) and the array methods `some`, `find` and
 `includes`, each scanning its array from index 0 and stopping at the first hit.
 */
module JsArrays {

  /** `undefined` (None) or a present value. */
  datatype Option<+T> = None | Some(value: T)

  /** `s.some(p)`: true when some element satisfies `p`. */
  function ArraySome<T>(s: seq<T>, p: T -> bool): (r: bool)
    ensures r <==> exists i :: 0 <= i < |s| && p(s[i])
  {
    if s == [] then false
    else if p(s[0]) then true
    else ArraySome(s[1..], p)
  }

  /** The index `s.findIndex(p)` reports, or None where it reports -1:
      the first position whose element satisfies `p`. */
  function ArrayFindIndex<T>(s: seq<T>, p: T -> bool): (r: Option<nat>)
    ensures r.None? <==> forall i :: 0 <= i < |s| ==> !p(s[i])
    ensures r.Some? ==> r.value < |s| && p(s[r.value])
    ensures r.Some? ==> forall j :: 0 <= j < r.value ==> !p(s[j])
  {
    if s == [] then None
    else if p(s[0]) then Some(0)
    else match ArrayFindIndex(s[1..], p)
      case None => None
      case Some(k) => Some(k + 1)
  }

  /** `s.find(p)`: the first element satisfying `p`, or `undefined`. */
  function ArrayFind<T>(s: seq<T>, p: T -> bool): (r: Option<T>)
    ensures r.None? <==> forall i :: 0 <= i < |s| ==> !p(s[i])
    ensures r.Some? ==> exists i :: 0 <= i < |s| && s[i] == r.value && p(s[i])
                                     && forall j :: 0 <= j < i ==> !p(s[j])
  {
    match ArrayFindIndex(s, p)
    case None => None
    case Some(i) => Some(s[i])
  }

  /** `s.includes(x)`. */
  function ArrayIncludes<T(==)>(s: seq<T>, x: T): (r: bool)
    ensures r <==> x in s
  {
    if s == [] then false
    else if s[0] == x then true
    else ArrayIncludes(s[1..], x)
  }
}
