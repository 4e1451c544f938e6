/** Arrays whose first elements are in use: searching them by name, and total access to them. */
module SlotArrays {

  /** The position of the first element from i on with this name, or -1. */
  function FindFrom<T>(es: seq<T>, name: T -> string, wanted: string, i: nat): (r: int)
    ensures r == -1 || i <= r < |es|
    ensures r == -1 ==> forall k :: i <= k < |es| ==> name(es[k]) != wanted
    ensures r != -1 ==> name(es[r]) == wanted && forall k :: i <= k < r ==> name(es[k]) != wanted
    decreases |es| - i
  {
    if i >= |es| then -1 else if name(es[i]) == wanted then i else FindFrom(es, name, wanted, i + 1)
  }

  ghost predicate Distinct<T(!new)>(es: seq<T>, name: T -> string) {
    forall i, j :: 0 <= i < j < |es| ==> name(es[i]) != name(es[j])
  }

  function Put<T>(s: seq<T>, i: nat, x: T): (r: seq<T>)
    ensures |r| == |s|
  {
    if i < |s| then s[i := x] else s
  }

  function At<T>(s: seq<T>, i: nat, otherwise: T): T {
    if i < |s| then s[i] else otherwise
  }
}
