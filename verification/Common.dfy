/** What several of the models share. */
module Common {
  datatype Option<T> = None | Some(value: T)

  function Min(a: nat, b: nat): nat { if a < b then a else b }

  function Max(a: nat, b: nat): nat { if a > b then a else b }

  /** No element twice. */
  predicate NoDup<T(==)>(s: seq<T>) {
    forall i, j :: 0 <= i < j < |s| ==> s[i] != s[j]
  }

  /** r is what s has at the places named, in that order. */
  predicate PickedAt<T(==)>(s: seq<T>, places: seq<nat>, r: seq<T>) {
    && |r| == |places|
    && (forall k :: 0 <= k < |places| ==> places[k] < |s| && r[k] == s[places[k]])
    && (forall k, l :: 0 <= k < l < |places| ==> places[k] < places[l])
  }

  lemma PickedAtMore<T>(s: seq<T>, places: seq<nat>, r: seq<T>)
    requires s != [] && PickedAt(s[..|s| - 1], places, r)
    ensures PickedAt(s, places, r) && PickedAt(s, places + [|s| - 1], r + [s[|s| - 1]])
  {
  }

  lemma Regroup<T>(a: seq<T>, b: seq<T>, c: seq<T>)
    ensures a + (b + c) == (a + b) + c
  {
  }
}
