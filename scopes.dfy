/**
 * A stack of dictionaries searched innermost first, as both the chained environment and the
 * resolver's scope stack are. Index 0 is the innermost dictionary.
 */
module Scopes {
  import opened Wrappers

  /** The index of the innermost dictionary binding the name, if any. */
  function Nearest<V>(scopes: seq<map<string, V>>, name: string): (r: Option<nat>)
    ensures r.Some? ==> r.value < |scopes| && name in scopes[r.value]
    ensures r.Some? ==> forall k :: 0 <= k < r.value ==> name !in scopes[k]
    ensures r.None? ==> forall k :: 0 <= k < |scopes| ==> name !in scopes[k]
  {
    if scopes == [] then None
    else if name in scopes[0] then Some(0)
    else match Nearest(scopes[1..], name)
      case Some(k) => Some(k + 1)
      case None => None
  }

  /** Nearest depends only on which names each dictionary binds. */
  lemma {:induction false} NearestOfSameKeys<V, W>(a: seq<map<string, V>>, b: seq<map<string, W>>, name: string)
    requires |a| == |b| && forall k :: 0 <= k < |a| ==> a[k].Keys == b[k].Keys
    ensures Nearest(a, name) == Nearest(b, name)
  {
    if a != [] && name !in a[0] {
      assert name !in b[0];
      NearestOfSameKeys(a[1..], b[1..], name);
    }
  }
}
