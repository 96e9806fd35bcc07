/** zc_arraylist.c: a growing array of pointers, where None stands for NULL. */
module ArrayList {
  import opened Common

  const DEFAULT_SIZE := 32

  function Nones<T>(n: nat): (r: seq<Option<T>>)
    ensures |r| == n
  {
    seq(n, _ => None)
  }

  /** The size after making room for slot idx, as zc_arraylist_set does. */
  function SizeFor(size: nat, idx: nat): nat {
    if idx > size - 1 then Max(size * 2, idx) else size
  }

  /** zc_arraylist_set writes inside the array exactly when idx is below twice the size: growing to idx
      itself leaves no slot idx. */
  lemma SetInBounds(size: nat, idx: nat)
    requires size > 0
    ensures idx < SizeFor(size, idx) <==> idx < 2 * size
  {
  }

  /** How often a list that starts with the given size reallocates while n elements are added. */
  function Growths(n: nat, size: nat): nat
    requires size > 0
    decreases n - size
  {
    if n <= size then 0 else 1 + Growths(n, 2 * size)
  }

  /** The size it then has. */
  function Grown(n: nat, size: nat): (r: nat)
    requires size > 0
    ensures n <= r && size <= r
    decreases n - size
  {
    if n <= size then size else Grown(n, 2 * size)
  }

  /** One more element reallocates exactly when it finds the array full. */
  lemma {:induction false} OneMore(n: nat, size: nat)
    requires size > 0
    ensures Grown(n + 1, size) == SizeFor(Grown(n, size), n)
    ensures Growths(n + 1, size) == Growths(n, size) + if n > Grown(n, size) - 1 then 1 else 0
    decreases n - size
  {
    if n > size {
      OneMore(n, 2 * size);
    }
  }

  lemma {:induction false} GrowthsGrow(m: nat, n: nat, size: nat)
    requires size > 0 && m <= n
    ensures Growths(m, size) <= Growths(n, size)
    decreases n - size
  {
    if m > size {
      GrowthsGrow(m, n, 2 * size);
    }
  }

  function Doubled(size: nat, k: nat): nat
    decreases k
  {
    if k == 0 then size else Doubled(2 * size, k - 1)
  }

  /** k reallocations are enough for exactly size * 2^k elements. */
  lemma {:induction false} GrowthsMeans(n: nat, size: nat, k: nat)
    requires size > 0
    ensures Growths(n, size) <= k <==> n <= Doubled(size, k)
    decreases k
  {
    if k > 0 {
      GrowthsMeans(n, 2 * size, k - 1);
      DoubledGrows(2 * size, k - 1);
    }
  }

  lemma {:induction false} DoubledGrows(size: nat, k: nat)
    ensures size <= Doubled(size, k)
    decreases k
  {
    if k > 0 {
      DoubledGrows(2 * size, k - 1);
    }
  }

  /** The place of x: in front of the first element that compares greater. */
  function Place<T>(s: seq<T>, greater: (T, T) -> bool, x: T): (i: nat)
    ensures i <= |s| && (i < |s| ==> greater(s[i], x)) && forall j :: 0 <= j < i ==> !greater(s[j], x)
  {
    if s == [] || greater(s[0], x) then 0 else 1 + Place(s[1..], greater, x)
  }

  function Inserted<T>(s: seq<T>, i: nat, x: T): seq<T>
    requires i <= |s|
  {
    s[..i] + [x] + s[i..]
  }

  function Somes<T>(s: seq<T>): (r: seq<Option<T>>)
    ensures |r| == |s| && forall i :: 0 <= i < |s| ==> r[i] == Some(s[i])
  {
    seq(|s|, i requires 0 <= i < |s| => Some(s[i]))
  }

  /** There is no other such place. */
  lemma PlaceIs<T>(s: seq<T>, greater: (T, T) -> bool, x: T, i: nat)
    requires i <= |s| && (i < |s| ==> greater(s[i], x)) && forall j :: 0 <= j < i ==> !greater(s[j], x)
    ensures i == Place(s, greater, x)
  {
  }

  /** A list with x added in front of the first element that compares greater, or in its stead if that
      is NULL. */
  function SortedIn<T>(s: seq<Option<T>>, greater: (Option<T>, Option<T>) -> bool, x: Option<T>): seq<Option<T>> {
    var i := Place(s, greater, x);
    if i == |s| then s + [x] else if s[i] == None then s[i := x] else Inserted(s, i, x)
  }

  /** Slot by slot: x is in front of the first element that compares greater, or in its stead if that is NULL; the
      elements before it have stayed, those behind it have moved up by one unless a NULL made way. */
  lemma SortedInAt<T>(s: seq<Option<T>>, greater: (Option<T>, Option<T>) -> bool, x: Option<T>, i: nat, j: nat)
    requires i <= |s| && (i < |s| ==> greater(s[i], x)) && forall k :: 0 <= k < i ==> !greater(s[k], x)
    ensures var r, filled := SortedIn(s, greater, x), i < |s| && s[i] == None;
      && |r| == (if filled then |s| else |s| + 1) && r[i] == x
      && (j < i ==> r[j] == s[j])
      && (i < j < |r| ==> r[j] == s[if filled then j else j - 1])
  {
    PlaceIs(s, greater, x, i);
    hide Place;
  }

  /** A comparison as the list calls it. */
  function OnSome<T>(greater: (T, T) -> bool): (Option<T>, Option<T>) -> bool {
    (a: Option<T>, b: Option<T>) => a.Some? && b.Some? && greater(a.value, b.value)
  }

  /** On a list without NULLs, x is inserted. */
  lemma SortedInSomes<T>(s: seq<T>, greater: (T, T) -> bool, x: T)
    ensures SortedIn(Somes(s), OnSome(greater), Some(x)) == Somes(Inserted(s, Place(s, greater, x), x))
  {
    hide Place;
    PlaceIs(Somes(s), OnSome(greater), Some(x), Place(s, greater, x));
  }

  class List<T> {
    var data: array<Option<T>>
    var len: nat

    ghost predicate Valid()
      reads this, data
    {
      0 < data.Length && len <= data.Length && forall i :: len <= i < data.Length ==> data[i] == None
    }

    ghost function Items(): seq<Option<T>>
      requires len <= data.Length
      reads this, data
    {
      data[..len]
    }

    /** zc_arraylist_new. */
    constructor ()
      ensures Valid() && fresh(data) && Items() == [] && data.Length == DEFAULT_SIZE
    {
      data := new Option<T>[DEFAULT_SIZE](_ => None);
      len := 0;
    }

    /** zc_arraylist_expand_inner. */
    method ExpandInner(max: nat)
      requires Valid()
      modifies this`data
      ensures Valid() && fresh(data) && data.Length == Max(2 * old(data.Length), max) && Items() == old(Items())
    {
      var newSize := if data.Length * 2 > max then data.Length * 2 else max;
      var larger := new Option<T>[newSize](_ => None);
      forall i | 0 <= i < data.Length {
        larger[i] := data[i];
      }
      data := larger;
    }

    /** zc_arraylist_set. */
    method Set(idx: nat, x: Option<T>)
      requires Valid() && idx < 2 * data.Length
      modifies this, data
      ensures Valid() && (if idx < old(data.Length) then data == old(data) else fresh(data))
      ensures data.Length == SizeFor(old(data.Length), idx)
      ensures Items() == if idx < |old(Items())| then old(Items())[idx := x]
                         else old(Items()) + Nones(idx - |old(Items())|) + [x]
    {
      if idx > data.Length - 1 {
        ExpandInner(idx);
      }
      ghost var before, was := data[..], Items();
      assert idx >= len ==> before[..idx] == was + Nones(idx - len);
      data[idx] := x;
      assert data[..] == before[idx := x];
      if len <= idx {
        len := idx + 1;
        assert data[..len] == before[..idx] + [x];
      } else {
        assert data[..len] == was[idx := x];
      }
    }

    /** zc_arraylist_add. */
    method Add(x: Option<T>)
      requires Valid()
      modifies this, data
      ensures Valid() && (if old(len) < old(data.Length) then data == old(data) else fresh(data)) && Items() == old(Items()) + [x]
    {
      ghost var was := Items();
      assert was + Nones(0) == was;
      Set(len, x);
    }

    /** zc_arraylist_insert_inner: an empty slot is filled, otherwise the rest moves up. */
    method InsertInner(idx: nat, x: Option<T>)
      requires Valid() && idx < len
      modifies this, data
      ensures Valid() && (if old(data[idx]) == None || old(len) < old(data.Length) then data == old(data) else fresh(data))
      ensures Items() == if old(Items())[idx] == None then old(Items())[idx := x] else Inserted(old(Items()), idx, x)
    {
      if data[idx] == None {
        data[idx] := x;
        return;
      }
      if len > data.Length - 1 {
        ExpandInner(0);
      }
      ShiftIn(idx, x);
    }

    /** memmove of the elements from idx on by one slot, and x into the gap. */
    method ShiftIn(idx: nat, x: Option<T>)
      requires Valid() && idx < len < data.Length
      modifies this`len, data
      ensures Valid() && Items() == Inserted(old(Items()), idx, x)
    {
      forall i | idx <= i < len {
        data[i + 1] := data[i];
      }
      data[idx] := x;
      len := len + 1;
    }

    /** zc_arraylist_sortadd. */
    method SortAdd(greater: (Option<T>, Option<T>) -> bool, x: Option<T>)
      requires Valid()
      modifies this, data
      ensures Valid() && (data == old(data) || fresh(data))
      ensures Items() == SortedIn(old(Items()), greater, x)
    {
      var i := 0;
      while i < len
        invariant i <= len && forall j :: 0 <= j < i ==> !greater(data[j], x)
      {
        if greater(data[i], x) { break; }
        i := i + 1;
      }
      PlaceIs(Items(), greater, x, i);
      hide Inserted;
      if i == len {
        Add(x);
      } else {
        InsertInner(i, x);
      }
    }
  }
}
