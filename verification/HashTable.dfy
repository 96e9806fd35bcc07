/** zc_hashtable.c: the operations on the table, each against the finite map it stands for. */
module HashTable {
  import opened Common
  import opened HashChains

  class Table<K(==), V> {
    const hash: K -> nat
    var tab: array<Entry?<K, V>>
    var nelem: nat
    ghost var chains: seq<seq<Entry<K, V>>>
    ghost var entries: set<Entry<K, V>>
    ghost var contents: map<K, V>

    /** Every entry sits in the bucket of its hash, once, and the links run along the buckets. */
    ghost predicate Shaped()
      reads this`tab, this`chains, this`entries, tab, entries`next, entries`prev
    {
      && Placed(chains, entries)
      && AllLinked(tab[..], chains)
    }

    ghost predicate Valid()
      reads this, tab, entries
    {
      Shaped() && Spells(entries, hash, contents) && nelem == |contents|
    }

    constructor (size: nat, hash: K -> nat)
      requires size > 0
      ensures Valid() && fresh(tab) && entries == {} && contents == map[] && this.hash == hash
    {
      this.hash := hash;
      tab := new Entry?<K, V>[size](_ => null);
      nelem := 0;
      chains, entries, contents := seq(size, _ => []), {}, map[];
    }

    /** zc_hashtable_get_entry. */
    method GetEntry(key: K) returns (e: Entry?<K, V>, ghost at: nat)
      requires Valid()
      ensures e == null <==> key !in contents
      ensures e != null ==> e in entries && e.key == key
      ensures e != null ==> var c := chains[Bucket(hash(key), |chains|)]; at < |c| && c[at] == e
    {
      var i := Bucket(hash(key), tab.Length);
      assert tab[..][i] == tab[i];
      LinkedBut(tab[..], chains, i);
      KeyInBucket(chains, entries, hash, contents, key);
      hide Placed, Spells, AllLinked, OthersLinked, Bucket, Linked;
      e, at := Search(tab[i], chains[i], key);
    }

    /** zc_hashtable_get. */
    method Get(key: K) returns (r: Option<V>)
      requires Valid()
      ensures r == if key in contents then Some(contents[key]) else None
    {
      ghost var at;
      var e;
      e, at := GetEntry(key);
      r := if e == null then None else Some(e.value);
    }

    /** zc_hashtable_rehash: twice the buckets, if there is memory for them, and not a lookup changed. */
    method Rehash(memory: bool) returns (ok: bool)
      requires Valid()
      modifies this`tab, this`chains, entries`next, entries`prev
      ensures Valid() && ok == memory
      ensures if ok then fresh(tab) && tab.Length == 2 * old(tab.Length) else tab == old(tab)
    {
      hide Placed, AllLinked, Spells;
      if !memory { return false; }
      SizesAgree(tab[..], chains, entries);
      var size := 2 * tab.Length;
      var larger := new Entry?<K, V>[size](_ => null);
      ghost var linked: seq<seq<Entry<K, V>>> := seq(size, _ => []);
      EmptyTable(larger[..], linked);
      linked := MoveAll(tab, chains, entries, larger, linked);
      tab, chains := larger, linked;
      return true;
    }

    /** zc_hashtable_put.  It fails only for want of memory, for the larger table or for the entry, and
        then the map is what it was. */
    method Put(key: K, value: V, tabMemory: bool, entryMemory: bool) returns (ok: bool)
      requires Valid()
      modifies this, tab, entries
      ensures Valid() && contents == if ok then old(contents)[key := value] else old(contents)
      ensures ok <==> old(key in contents) || ((10 * old(nelem) > 13 * old(tab.Length) ==> tabMemory) && entryMemory)
      ensures (tab == old(tab) || fresh(tab)) && fresh(entries - old(entries))
    {
      hide Spells, Placed, AllLinked, Bucket;
      ghost var at;
      var e;
      e, at := GetEntry(key);
      if e != null {
        Replace(e, key, value, entries, hash, contents);
        contents := contents[key := value];
        return true;
      }
      if 10 * nelem > 13 * tab.Length {
        ok := Rehash(tabMemory);
        if !ok { return; }
      }
      if !entryMemory { return false; }
      Insert(key, value);
      return true;
    }

    /** The insertion of a new key. */
    method Insert(key: K, value: V)
      requires Valid() && key !in contents
      modifies this`nelem, this`chains, this`entries, this`contents, tab, entries
      ensures Valid() && contents == old(contents)[key := value]
      ensures fresh(entries - old(entries))
    {
      hide Spells, Placed, AllLinked;
      var e := new Entry(hash(key), key, value);
      SpellsWith(entries, e, hash, contents);
      chains := PushFront(tab, chains, entries, e);
      entries := entries + {e};
      contents := contents[key := value];
      nelem := nelem + 1;
    }

    /** zc_hashtable_remove. */
    method Remove(key: K)
      requires Valid()
      modifies this`nelem, this`chains, this`entries, this`contents, tab, entries`next, entries`prev
      ensures Valid() && contents == old(contents) - {key} && entries <= old(entries)
    {
      hide Spells, Placed, AllLinked, Bucket;
      ghost var at;
      var p;
      p, at := GetEntry(key);
      if p == null {
        assert contents - {key} == contents;
        return;
      }
      RemoveEntry(p, at);
    }

    /** The removal of an entry that was found. */
    method RemoveEntry(p: Entry<K, V>, ghost at: nat)
      requires Valid() && p in entries
      requires var c := chains[Bucket(hash(p.key), |chains|)]; at < |c| && c[at] == p
      modifies this`nelem, this`chains, this`entries, this`contents, tab, entries`next, entries`prev
      ensures Valid() && contents == old(contents) - {p.key} && entries == old(entries) - {p}
    {
      hide Spells, Placed, AllLinked, Bucket;
      SpellsWithout(entries, p, hash, contents);
      FewerKeys(contents, p.key);
      chains := Unlink(tab, chains, entries, p, at);
      entries := entries - {p};
      contents := contents - {p.key};
      nelem := nelem - 1;
    }

    /** zc_hashtable_clean; freed lists the entries it frees, in order. */
    method Clean() returns (freed: seq<Entry<K, V>>)
      requires Valid()
      modifies this`nelem, this`chains, this`entries, this`contents, tab
      ensures Valid() && contents == map[] && freed == Flatten(old(chains))
    {
      hide Spells, Placed, AllLinked, Linked, Flatten;
      SizesAgree(tab[..], chains, entries);
      ghost var cs, heads := chains, tab[..];
      freed := [];
      FlattenNext(cs, 0);
      assert cs[..0] == [];
      var i := 0;
      while i < tab.Length
        invariant i <= tab.Length && freed == Flatten(cs[..i])
        invariant forall l :: 0 <= l < tab.Length ==> tab[l] == if l < i then null else heads[l]
      {
        LinkedBut(heads, cs, i);
        FlattenNext(cs, i);
        var chain := FreeChain(tab[i], cs[i]);
        freed := freed + chain;
        tab[i] := null;
        i := i + 1;
      }
      assert cs[..i] == cs;
      nelem, chains, entries, contents := 0, seq(tab.Length, _ => []), {}, map[];
      EmptyTable(tab[..], chains);
      SpellsNothing<K, V>(hash);
    }

    /** zc_hashtable_begin. */
    method Begin() returns (e: Entry?<K, V>)
      requires Valid()
      ensures e == EntryAt(Flatten(chains), 0)
    {
      hide Spells, Placed, AllLinked, Flatten;
      SizesAgree(tab[..], chains, entries);
      e := Later(0);
      FlattenNext(chains, 0);
    }

    /** The head of the first chain from bucket i on that is not empty. */
    method Later(i: nat) returns (e: Entry?<K, V>)
      requires Shaped() && i <= |chains|
      ensures e == EntryAt(Flatten(chains), |Flatten(chains[..i])|)
    {
      hide Placed, AllLinked, Flatten;
      SizesAgree(tab[..], chains, entries);
      var j := i;
      while j < tab.Length
        invariant i <= j <= tab.Length && forall l :: i <= l < j ==> chains[l] == []
      {
        HeadAt(tab[..], chains, j);
        FlattenHead(chains, i, j);
        if tab[j] != null { return tab[j]; }
        j := j + 1;
      }
      FlattenSkips(chains, i, j);
      assert chains[..j] == chains;
      e := null;
    }

    /** zc_hashtable_next, on the entry at pos of the order of visit. */
    method Next(e: Entry<K, V>, ghost pos: nat) returns (n: Entry?<K, V>)
      requires Valid() && EntryAt(Flatten(chains), pos) == e
      ensures n == EntryAt(Flatten(chains), pos + 1)
    {
      hide Spells, Placed, AllLinked, Flatten, Bucket, Linked;
      SizesAgree(tab[..], chains, entries);
      ghost var i0, k := FlattenPlace(chains, pos);
      PlaceOf(chains, entries, i0, k);
      LinkedBut(tab[..], chains, i0);
      StepsAlong(tab[..][i0], chains[i0]);
      assert e.next == NextOf(chains[i0], k);
      FlattenPrefix(chains, i0);
      FlattenNext(chains, i0);
      if e.next != null { return e.next; }
      var i := Bucket(e.hashKey, tab.Length);
      n := Later(i + 1);
    }

    /** The foreach loop: it ends, having visited every entry once. */
    method ForEach() returns (visited: seq<Entry<K, V>>)
      requires Valid()
      ensures NoDup(visited) && (forall e :: e in visited <==> e in entries)
      ensures |visited| == nelem
    {
      hide Spells, Placed, AllLinked, Flatten, NoDup;
      FlattenLists(chains, entries);
      visited := [];
      var e := Begin();
      while e != null
        invariant visited <= Flatten(chains) && e == EntryAt(Flatten(chains), |visited|)
        decreases |Flatten(chains)| - |visited|
      {
        ghost var pos := |visited|;
        visited := visited + [e];
        e := Next(e, pos);
      }
      assert visited == Flatten(chains);
      OneEntryAKey(visited, entries, hash, contents);
    }
  }

  /** The replacement of key and value of an entry that was found. */
  method Replace<K, V>(e: Entry<K, V>, key: K, value: V, ghost es: set<Entry<K, V>>, ghost hash: K -> nat, ghost m: map<K, V>)
    requires Spells(es, hash, m) && e in es && e.key == key
    modifies e`key, e`value
    ensures Spells(es, hash, m[key := value]) && |m[key := value]| == |m|
  {
    hide Spells;
    ghost var others := es - {e};
    SpellsWithout(es, e, hash, m);
    Replaced(m, key, value, es, e);
    e.key := key;
    e.value := value;
    SpellsWith(others, e, hash, m - {key});
  }

  lemma Replaced<K, V, E>(m: map<K, V>, k: K, v: V, es: set<E>, e: E)
    requires k in m && e in es
    ensures (m - {k})[k := v] == m[k := v] && |m[k := v]| == |m|
    ensures es - {e} + {e} == es
  {
    assert m[k := v].Keys == m.Keys;
  }

  /** An entry less, and its key is gone. */
  lemma SpellsWithout<K, V>(es: set<Entry<K, V>>, e: Entry<K, V>, hash: K -> nat, m: map<K, V>)
    requires Spells(es, hash, m) && e in es
    ensures Spells(es - {e}, hash, m - {e.key}) && e.key in m && e.hashKey == hash(e.key)
  {
  }

  /** An entry with a new key more. */
  lemma SpellsWith<K, V>(es: set<Entry<K, V>>, e: Entry<K, V>, hash: K -> nat, m: map<K, V>)
    requires Spells(es, hash, m) && e !in es && e.key !in m && e.hashKey == hash(e.key)
    ensures Spells(es + {e}, hash, m[e.key := e.value])
  {
  }

  /** Taking p out of its chain. */
  method Unlink<K, V>(tab: array<Entry?<K, V>>, ghost chains: seq<seq<Entry<K, V>>>, ghost es: set<Entry<K, V>>,
        p: Entry<K, V>, ghost at: nat)
    returns (ghost after: seq<seq<Entry<K, V>>>)
    requires Placed(chains, es) && AllLinked(tab[..], chains)
    requires var c := chains[Bucket(p.hashKey, |chains|)]; at < |c| && c[at] == p
    modifies tab, es`next, es`prev
    ensures Placed(after, es - {p}) && AllLinked(tab[..], after) && |after| == |chains|
  {
    hide Placed, AllLinked, Linked, OthersLinked;
    SizesAgree(tab[..], chains, es);
    var i := Bucket(p.hashKey, tab.Length);
    hide Bucket;
    hide NextOf, PrevOf, Forward, Backward;
    ghost var chain, heads := chains[i], tab[..];
    LinkedBut(heads, chains, i);
    Elsewhere(chains, es, i);
    PlacedDropped(chains, es, p, at);
    var first := Bypass(p, heads[i], chain, at);
    if first {
      tab[i] := p.next;
    }
    after := chains[i := Dropped(chain, at)];
    Relinked(heads, chains, i, tab[i], Dropped(chain, at));
    assert tab[..] == heads[i := tab[i]];
  }

  /** Making the neighbours of p point past it. */
  method Bypass<K, V>(p: Entry<K, V>, ghost head: Entry?<K, V>, ghost chain: seq<Entry<K, V>>, ghost at: nat)
    returns (first: bool)
    requires Linked(head, chain) && at < |chain| && chain[at] == p && NoDup(chain)
    modifies (set e | e in chain)`next, (set e | e in chain)`prev
    ensures Linked(if first then p.next else head, Dropped(chain, at))
  {
    Neighbours(head, chain, at);
    if p.next != null {
      p.next.prev := p.prev;
    }
    first := p.prev == null;
    if p.prev != null {
      p.prev.next := p.next;
    }
    LinkedDropped(if first then p.next else head, chain, at);
  }

  lemma FewerKeys<K, V>(m: map<K, V>, k: K)
    requires k in m
    ensures |m - {k}| == |m| - 1
  {
    assert (m - {k}).Keys == m.Keys - {k};
  }

  lemma PlacedDropped<K, V>(chains: seq<seq<Entry<K, V>>>, es: set<Entry<K, V>>, p: Entry<K, V>, at: nat)
    requires Placed(chains, es)
    requires var c := chains[Bucket(p.hashKey, |chains|)]; at < |c| && c[at] == p
    ensures var i := Bucket(p.hashKey, |chains|); Placed(chains[i := Dropped(chains[i], at)], es - {p})
  {
    hide Bucket;
    var i := Bucket(p.hashKey, |chains|);
    DroppedMembers(chains[i], at);
    Elsewhere(chains, es, i);
  }

  lemma DroppedMembers<T>(s: seq<T>, k: nat)
    requires k < |s| && NoDup(s)
    ensures NoDup(Dropped(s, k)) && s[k] !in Dropped(s, k)
    ensures forall x :: x in Dropped(s, k) ==> x in s
    ensures forall x :: x in s && x != s[k] ==> x in Dropped(s, k)
  {
  }

  lemma Neighbours<K, V>(head: Entry?<K, V>, chain: seq<Entry<K, V>>, k: nat)
    requires Linked(head, chain) && k < |chain|
    ensures chain[k].next == NextOf(chain, k) && chain[k].prev == PrevOf(chain, k) && head == chain[0]
    ensures chain[k].next != null ==> chain[k].next in chain
    ensures chain[k].prev != null ==> chain[k].prev in chain
    ensures Forward(head, chain) && Backward(chain)
  {
  }

  lemma SizesAgree<K, V>(heads: seq<Entry?<K, V>>, chains: seq<seq<Entry<K, V>>>, es: set<Entry<K, V>>)
    requires Placed(chains, es) && AllLinked(heads, chains)
    ensures |heads| == |chains| > 0
  {
  }

  lemma EmptyTable<K, V>(heads: seq<Entry?<K, V>>, chains: seq<seq<Entry<K, V>>>)
    requires |heads| == |chains| > 0 && forall i :: 0 <= i < |chains| ==> heads[i] == null && chains[i] == []
    ensures Placed(chains, {}) && AllLinked(heads, chains)
  {
  }

  /** The loop over the old buckets. */
  method MoveAll<K, V>(tab: array<Entry?<K, V>>, ghost chains: seq<seq<Entry<K, V>>>, ghost es: set<Entry<K, V>>,
        larger: array<Entry?<K, V>>, ghost none: seq<seq<Entry<K, V>>>)
    returns (ghost linked: seq<seq<Entry<K, V>>>)
    requires Placed(chains, es) && AllLinked(tab[..], chains) && tab != larger
    requires Placed(none, {}) && AllLinked(larger[..], none)
    modifies larger, es`next, es`prev
    ensures Placed(linked, es) && AllLinked(larger[..], linked) && |linked| == |none|
  {
    ghost var moved: set<Entry<K, V>>;
    moved, linked := {}, none;
    StillForward(tab[..], chains);
    assert MovedUpTo(chains, es, moved, 0);
    ghost var heads := tab[..];
    assert |heads| == |chains| > 0;
    var i := 0;
    hide Placed, AllLinked, Bucket, Forward, ForwardFrom, MovedUpTo;
    while i < tab.Length
      invariant i <= tab.Length && Placed(linked, moved) && AllLinked(larger[..], linked) && |linked| == |none|
      invariant moved <= es && MovedUpTo(chains, es, moved, i) && ForwardFrom(heads, chains, i) && tab[..] == heads
    {
      NextChain(chains, es, moved, i);
      ForwardAt(heads, chains, i);
      assert tab[i] == heads[i];
      moved, linked := MoveChain(tab[i], chains[i], larger, linked, moved);
      i := i + 1;
    }
    AllMoved(chains, es, moved);
  }

  /** A key is in the map exactly when its bucket has an entry for it. */
  lemma KeyInBucket<K, V>(chains: seq<seq<Entry<K, V>>>, es: set<Entry<K, V>>, hash: K -> nat, m: map<K, V>, key: K)
    requires Placed(chains, es) && Spells(es, hash, m)
    ensures var c := chains[Bucket(hash(key), |chains|)];
      && (key in m <==> exists k :: 0 <= k < |c| && c[k].key == key)
      && forall k :: 0 <= k < |c| ==> c[k] in es
  {
    hide Bucket;
    var c := chains[Bucket(hash(key), |chains|)];
    if key in m {
      var e :| e in es && e.key == key;
      assert e in c;
      var k :| 0 <= k < |c| && c[k] == e;
    }
    forall k | 0 <= k < |c| ensures c[k] in es && c[k].key in m { assert c[k] in c; }
  }

  lemma PlacedMembers<K, V>(chains: seq<seq<Entry<K, V>>>, es: set<Entry<K, V>>)
    requires Placed(chains, es)
    ensures forall i, e :: 0 <= i < |chains| && e in chains[i] ==> e in es
  {
  }

  function EntryAt<K, V>(chain: seq<Entry<K, V>>, k: nat): Entry?<K, V> {
    if k < |chain| then chain[k] else null
  }

  lemma StepsAlong<K, V>(head: Entry?<K, V>, chain: seq<Entry<K, V>>)
    requires Linked(head, chain)
    ensures head == EntryAt(chain, 0)
    ensures forall k: nat {:trigger NextOf(chain, k)} :: k < |chain| ==> chain[k].next == NextOf(chain, k) == EntryAt(chain, k + 1)
  {
  }

  /** The loop over one chain. */
  method Search<K(==), V>(head: Entry?<K, V>, ghost chain: seq<Entry<K, V>>, key: K) returns (e: Entry?<K, V>, ghost at: nat)
    requires Linked(head, chain)
    ensures e == null ==> forall k :: 0 <= k < |chain| ==> chain[k].key != key
    ensures e != null ==> at < |chain| && chain[at] == e && e.key == key
  {
    StepsAlong(head, chain);
    hide Linked, NextOf;
    e := head;
    at := 0;
    while e != null
      invariant at <= |chain| && e == EntryAt(chain, at)
      invariant forall k :: 0 <= k < at ==> chain[k].key != key
      decreases |chain| - at
    {
      if key == e.key { return; }
      assert e.next == NextOf(chain, at);
      e := e.next;
      at := at + 1;
    }
  }

  lemma SpellsNothing<K, V>(hash: K -> nat)
    ensures Spells<K, V>({}, hash, map[])
  {
  }

  /** Freeing one chain. */
  method FreeChain<K, V>(head: Entry?<K, V>, ghost chain: seq<Entry<K, V>>) returns (freed: seq<Entry<K, V>>)
    requires Linked(head, chain)
    ensures freed == chain
  {
    StepsAlong(head, chain);
    hide Linked, NextOf;
    freed := [];
    var p := head;
    while p != null
      invariant freed <= chain && p == EntryAt(chain, |freed|)
      decreases |chain| - |freed|
    {
      assert p.next == NextOf(chain, |freed|);
      var q := p.next;
      freed := freed + [p];
      p := q;
    }
  }

  lemma FlattenNext<T>(chains: seq<seq<T>>, i: nat)
    requires i <= |chains|
    ensures i < |chains| ==> Flatten(chains[..i + 1]) == Flatten(chains[..i]) + chains[i]
    ensures Flatten(chains[..0]) == []
  {
    if i < |chains| { assert chains[..i + 1][..i] == chains[..i]; }
  }

  lemma HeadAt<K, V>(heads: seq<Entry?<K, V>>, chains: seq<seq<Entry<K, V>>>, j: nat)
    requires AllLinked(heads, chains) && j < |chains|
    ensures heads[j] == First(chains[j])
  {
  }

  /** The head of chain j comes next when the chains before it, from i on, are empty. */
  lemma FlattenHead<T>(chains: seq<seq<T>>, i: nat, j: nat)
    requires i <= j < |chains| && forall l :: i <= l < j ==> chains[l] == []
    ensures chains[j] != [] ==> |Flatten(chains[..i])| < |Flatten(chains)| && Flatten(chains)[|Flatten(chains[..i])|] == chains[j][0]
  {
    FlattenSkips(chains, i, j);
    FlattenPrefix(chains, j);
  }

  lemma PlaceOf<K, V>(chains: seq<seq<Entry<K, V>>>, es: set<Entry<K, V>>, i: nat, k: nat)
    requires Placed(chains, es) && i < |chains| && k < |chains[i]|
    ensures Bucket(chains[i][k].hashKey, |chains|) == i
  {
    assert chains[i][k] in chains[i];
  }

  /** There are as many entries as keys. */
  lemma OneEntryAKey<K, V>(visited: seq<Entry<K, V>>, es: set<Entry<K, V>>, hash: K -> nat, m: map<K, V>)
    requires Spells(es, hash, m) && NoDup(visited) && forall e :: e in visited <==> e in es
    ensures |visited| == |m|
  {
    if visited == [] {
      assert m.Keys == {};
    } else {
      var e := visited[0];
      SpellsWithout(es, e, hash, m);
      FewerKeys(m, e.key);
      assert visited == [e] + visited[1..];
      OneEntryAKey(visited[1..], es - {e}, hash, m - {e.key});
    }
  }

  /** Moving one chain, entry by entry, to the larger table. */
  method MoveChain<K, V>(head: Entry?<K, V>, ghost chain: seq<Entry<K, V>>, tab: array<Entry?<K, V>>,
        ghost chains: seq<seq<Entry<K, V>>>, ghost moved: set<Entry<K, V>>)
    returns (ghost es: set<Entry<K, V>>, ghost after: seq<seq<Entry<K, V>>>)
    requires Forward(head, chain) && NoDup(chain) && forall e :: e in chain ==> e !in moved
    requires Placed(chains, moved) && AllLinked(tab[..], chains)
    modifies tab, (set e | e in chain)`next, (set e | e in chain)`prev, moved`prev
    ensures es == moved + (set e | e in chain)
    ensures Placed(after, es) && AllLinked(tab[..], after) && |after| == |chains|
  {
    var p := head;
    ghost var k := 0;
    es, after := moved, chains;
    hide Placed, AllLinked, Forward;
    while p != null
      invariant k <= |chain| && Forward(p, chain[k..]) && es == moved + (set e | e in chain[..k])
      invariant Placed(after, es) && AllLinked(tab[..], after) && |after| == |chains|
      decreases |chain| - k
    {
      ForwardStart(p, chain[k..]);
      ForwardRest(p, chain[k..]);
      assert chain[k..][1..] == chain[k + 1..];
      assert chain[..k + 1] == chain[..k] + [p];
      PlacedMembers(after, es);
      var q := p.next;
      p.next := null;
      p.prev := null;
      after := PushFront(tab, after, es, p);
      es := es + {p};
      p := q;
      k := k + 1;
    }
    ForwardEnd(chain[k..]);
    assert chain[..k] == chain;
  }

  lemma ForwardStart<K, V>(p: Entry<K, V>, chain: seq<Entry<K, V>>)
    requires Forward(p, chain)
    ensures chain != [] && p == chain[0]
  {
  }

  lemma ForwardEnd<K, V>(chain: seq<Entry<K, V>>)
    requires Forward(null, chain)
    ensures chain == []
  {
  }

  /** The chains from i on have not been touched. */
  ghost predicate ForwardFrom<K, V>(heads: seq<Entry?<K, V>>, chains: seq<seq<Entry<K, V>>>, i: nat)
    reads (set l, e | i <= l < |chains| && e in chains[l] :: e)`next
  {
    |heads| == |chains| && forall l :: i <= l < |chains| ==> Forward(heads[l], chains[l])
  }

  lemma StillForward<K, V>(heads: seq<Entry?<K, V>>, chains: seq<seq<Entry<K, V>>>)
    requires AllLinked(heads, chains)
    ensures ForwardFrom(heads, chains, 0)
  {
  }

  lemma ForwardAt<K, V>(heads: seq<Entry?<K, V>>, chains: seq<seq<Entry<K, V>>>, i: nat)
    requires ForwardFrom(heads, chains, i) && i < |chains|
    ensures Forward(heads[i], chains[i]) && ForwardFrom(heads, chains, i + 1)
  {
  }

  /** The entries of the first i buckets. */
  ghost predicate MovedUpTo<K, V>(chains: seq<seq<Entry<K, V>>>, es: set<Entry<K, V>>, moved: set<Entry<K, V>>, i: nat)
    requires |chains| > 0
  {
    moved == set e | e in es && Bucket(e.hashKey, |chains|) < i
  }

  lemma NextChain<K, V>(chains: seq<seq<Entry<K, V>>>, es: set<Entry<K, V>>, moved: set<Entry<K, V>>, i: nat)
    requires Placed(chains, es) && MovedUpTo(chains, es, moved, i) && i < |chains|
    ensures NoDup(chains[i]) && (forall e :: e in chains[i] ==> e !in moved && e in es)
    ensures MovedUpTo(chains, es, moved + (set e | e in chains[i]), i + 1)
    ensures forall l, e :: i < l < |chains| && e in chains[l] ==> e !in moved && e !in chains[i]
  {
    hide Bucket;
    forall l, e | i < l < |chains| && e in chains[l] ensures e !in moved && e !in chains[i] {
      assert Bucket(e.hashKey, |chains|) == l;
    }
  }

  lemma AllMoved<K, V>(chains: seq<seq<Entry<K, V>>>, es: set<Entry<K, V>>, moved: set<Entry<K, V>>)
    requires |chains| > 0 && MovedUpTo(chains, es, moved, |chains|)
    ensures moved == es
  {
  }
}
