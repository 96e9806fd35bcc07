/**
The shape of zc_hashtable.c's table: doubly linked chains hanging off an array of heads, and the
sequences and sets they stand for.
*/
module HashChains {
  import opened Common

  /** A key is its contents: equal keys are the same key, so any hash agrees with equality. */
  class Entry<K, V> {
    const hashKey: nat
    var key: K
    var value: V
    var prev: Entry?<K, V>
    var next: Entry?<K, V>

    constructor (hashKey: nat, key: K, value: V)
      ensures this.hashKey == hashKey && this.key == key && this.value == value && prev == null && next == null
    {
      this.hashKey, this.key, this.value := hashKey, key, value;
      prev, next := null, null;
    }
  }

  function Bucket(hashKey: nat, size: nat): (i: nat)
    requires size > 0
    ensures i < size
  {
    hashKey % size
  }

  // ---- Chains

  function First<K, V>(chain: seq<Entry<K, V>>): Entry?<K, V> {
    if chain == [] then null else chain[0]
  }

  function NextOf<K, V>(chain: seq<Entry<K, V>>, k: nat): Entry?<K, V> {
    if k + 1 < |chain| then chain[k + 1] else null
  }

  /** The next pointers from p run along chain and end there. */
  ghost predicate Forward<K, V>(p: Entry?<K, V>, chain: seq<Entry<K, V>>)
    reads (set e | e in chain)`next
  {
    && p == First(chain)
    && forall k :: 0 <= k < |chain| ==> chain[k].next == NextOf(chain, k)
  }

  function PrevOf<K, V>(chain: seq<Entry<K, V>>, k: nat): Entry?<K, V> {
    if 0 < k <= |chain| then chain[k - 1] else null
  }

  /** The prev pointers run the other way. */
  ghost predicate Backward<K, V>(chain: seq<Entry<K, V>>)
    reads (set e | e in chain)`prev
  {
    forall k :: 0 <= k < |chain| ==> chain[k].prev == PrevOf(chain, k)
  }

  ghost predicate Linked<K, V>(p: Entry?<K, V>, chain: seq<Entry<K, V>>)
    reads (set e | e in chain)`next, (set e | e in chain)`prev
  {
    Forward(p, chain) && Backward(chain)
  }

  /** From the bucket on, each entry leads to the next and back to the one before. */
  lemma LinkedMeans<K, V>(p: Entry?<K, V>, chain: seq<Entry<K, V>>, k: nat)
    requires Linked(p, chain)
    ensures if chain == [] then p == null else p == chain[0] && chain[0].prev == null && chain[|chain| - 1].next == null
    ensures k + 1 < |chain| ==> chain[k].next == chain[k + 1] && chain[k + 1].prev == chain[k]
  {
  }

  // ---- Tables

  /** The chains hold exactly the entries of es, each once and in the bucket of its hash. */
  ghost predicate Placed<K, V>(chains: seq<seq<Entry<K, V>>>, es: set<Entry<K, V>>) {
    && |chains| > 0
    && (forall i, e :: 0 <= i < |chains| && e in chains[i] ==> e in es && Bucket(e.hashKey, |chains|) == i)
    && (forall e :: e in es ==> e in chains[Bucket(e.hashKey, |chains|)])
    && (forall i :: 0 <= i < |chains| ==> NoDup(chains[i]))
  }

  ghost predicate AllLinked<K, V>(heads: seq<Entry?<K, V>>, chains: seq<seq<Entry<K, V>>>)
    reads (set i, e | 0 <= i < |chains| && e in chains[i] :: e)`next
    reads (set i, e | 0 <= i < |chains| && e in chains[i] :: e)`prev
  {
    |heads| == |chains| && forall i :: 0 <= i < |chains| ==> Linked(heads[i], chains[i])
  }

  // ---- Contents

  /** The entries of es spell out m: one entry a key, with its value and its hash. */
  ghost predicate Spells<K, V>(es: set<Entry<K, V>>, hash: K -> nat, m: map<K, V>)
    reads es`key, es`value
  {
    && (forall e :: e in es ==> e.key in m && m[e.key] == e.value && e.hashKey == hash(e.key))
    && (forall e, f :: e in es && f in es && e.key == f.key ==> e == f)
    && (forall k :: k in m ==> exists e :: e in es && e.key == k)
  }

  // ---- Order of visit

  function Flatten<T>(chains: seq<seq<T>>): seq<T> {
    if chains == [] then [] else Flatten(chains[..|chains| - 1]) + chains[|chains| - 1]
  }

  lemma {:induction false} FlattenPrefix<T>(chains: seq<seq<T>>, i: nat)
    requires i < |chains|
    ensures |Flatten(chains[..i])| + |chains[i]| <= |Flatten(chains)|
    ensures Flatten(chains[..i]) + chains[i] <= Flatten(chains)
  {
    var n := |chains| - 1;
    if i == n {
      assert chains[..i] == chains[..n];
    } else {
      FlattenPrefix(chains[..n], i);
      assert chains[..n][..i] == chains[..i];
    }
  }

  /** Every position of the flattened table is a place in a chain. */
  lemma {:induction false} FlattenPlace<T>(chains: seq<seq<T>>, pos: nat) returns (i: nat, k: nat)
    requires pos < |Flatten(chains)|
    ensures i < |chains| && k < |chains[i]| && pos == |Flatten(chains[..i])| + k
    ensures Flatten(chains)[pos] == chains[i][k]
  {
    var n := |chains| - 1;
    var front := Flatten(chains[..n]);
    if pos < |front| {
      i, k := FlattenPlace(chains[..n], pos);
      assert chains[..n][..i] == chains[..i];
    } else {
      i, k := n, pos - |front|;
    }
  }

  /** The flattened table lists every entry, and lists it once. */
  lemma FlattenLists<K, V>(chains: seq<seq<Entry<K, V>>>, es: set<Entry<K, V>>)
    requires Placed(chains, es)
    ensures NoDup(Flatten(chains))
    ensures forall e :: e in es ==> e in Flatten(chains)
    ensures forall e :: e in Flatten(chains) ==> e in es
  {
    var f := Flatten(chains);
    hide Flatten, Placed, Bucket;
    forall a, b | 0 <= a < b < |f| ensures f[a] != f[b] {
      FlattenDiffer(chains, es, a, b);
    }
    forall e | e in es ensures e in f {
      FlattenHas(chains, es, e);
    }
    forall pos | 0 <= pos < |f| ensures f[pos] in es {
      FlattenMember(chains, es, pos);
    }
  }

  lemma FlattenDiffer<K, V>(chains: seq<seq<Entry<K, V>>>, es: set<Entry<K, V>>, a: nat, b: nat)
    requires Placed(chains, es) && a < b < |Flatten(chains)|
    ensures Flatten(chains)[a] != Flatten(chains)[b]
  {
    var i, k := FlattenPlace(chains, a);
    var j, l := FlattenPlace(chains, b);
    hide Flatten, Placed;
    if chains[i][k] == chains[j][l] { PlaceIsUnique(chains, es, i, k, j, l); }
  }

  lemma PlaceIsUnique<K, V>(chains: seq<seq<Entry<K, V>>>, es: set<Entry<K, V>>, i: nat, k: nat, j: nat, l: nat)
    requires Placed(chains, es) && i < |chains| && j < |chains| && k < |chains[i]| && l < |chains[j]|
    requires chains[i][k] == chains[j][l]
    ensures i == j && k == l
  {
    var e := chains[i][k];
    assert e in chains[i] && e in chains[j];
    assert i == Bucket(e.hashKey, |chains|) == j;
    assert NoDup(chains[i]);
  }

  lemma FlattenHas<K, V>(chains: seq<seq<Entry<K, V>>>, es: set<Entry<K, V>>, e: Entry<K, V>)
    requires Placed(chains, es) && e in es
    ensures e in Flatten(chains)
  {
    hide Flatten;
    var i := Bucket(e.hashKey, |chains|);
    FlattenPrefix(chains, i);
    assert e in Flatten(chains[..i]) + chains[i];
  }

  lemma FlattenMember<K, V>(chains: seq<seq<Entry<K, V>>>, es: set<Entry<K, V>>, pos: nat)
    requires Placed(chains, es) && pos < |Flatten(chains)|
    ensures Flatten(chains)[pos] in es
  {
    var i, k := FlattenPlace(chains, pos);
    hide Flatten, Bucket;
    assert chains[i][k] in chains[i];
  }

  /** The flattened table goes on from the end of a chain with the next chain that is not empty. */
  lemma {:induction false} FlattenSkips<T>(chains: seq<seq<T>>, i: nat, j: nat)
    requires i <= j <= |chains| && forall l :: i <= l < j ==> chains[l] == []
    ensures Flatten(chains[..i]) == Flatten(chains[..j])
    decreases j - i
  {
    if i < j {
      FlattenSkips(chains, i, j - 1);
      assert chains[..j][..j - 1] == chains[..j - 1];
    }
  }

  // ---- Linking and unlinking

  lemma ForwardRest<K, V>(p: Entry<K, V>, chain: seq<Entry<K, V>>)
    requires chain != [] && Forward(p, chain)
    ensures p == chain[0] && Forward(p.next, chain[1..])
  {
    var rest := chain[1..];
    assert forall k :: 0 <= k < |rest| ==> NextOf(rest, k) == NextOf(chain, k + 1);
    assert forall k :: 0 <= k < |rest| ==> rest[k] == chain[k + 1];
  }

  /** Linking p in front of a chain: p points at the old head, which points back. */
  lemma LinkedFront<K, V>(p: Entry<K, V>, chain: seq<Entry<K, V>>)
    requires Forward(p.next, chain) && p.prev == null
    requires forall k :: 0 <= k < |chain| ==> chain[k].prev == PrevOf([p] + chain, k + 1)
    ensures Linked(p, [p] + chain)
  {
    hide NextOf, PrevOf, First;
    var r := [p] + chain;
    forall k | 0 <= k < |r| ensures r[k].next == NextOf(r, k) && r[k].prev == PrevOf(r, k) {
      if k > 0 {
        InFront(p, chain, k - 1);
        assert chain[k - 1].next == NextOf(chain, k - 1) && chain[k - 1].prev == PrevOf(r, k - 1 + 1);
      } else {
        FrontItself(p, chain);
      }
    }
    FrontItself(p, chain);
  }

  lemma InFront<K, V>(p: Entry<K, V>, chain: seq<Entry<K, V>>, c: nat)
    requires c < |chain|
    ensures ([p] + chain)[c + 1] == chain[c] && NextOf([p] + chain, c + 1) == NextOf(chain, c)
  {
  }

  lemma FrontItself<K, V>(p: Entry<K, V>, chain: seq<Entry<K, V>>)
    ensures ([p] + chain)[0] == p && NextOf([p] + chain, 0) == First(chain) && PrevOf([p] + chain, 0) == null
    ensures First([p] + chain) == p
  {
  }

  /** Taking the entry at k out of a chain. */
  function Dropped<T>(s: seq<T>, k: nat): (r: seq<T>)
    requires k < |s|
    ensures |r| == |s| - 1 && (forall i :: 0 <= i < k ==> r[i] == s[i]) && (forall i :: k <= i < |r| ==> r[i] == s[i + 1])
  {
    s[..k] + s[k + 1..]
  }

  lemma LinkedDropped<K, V>(p: Entry?<K, V>, chain: seq<Entry<K, V>>, k: nat)
    requires k < |chain|
    requires forall i :: 0 <= i < |chain| && i != k - 1 ==> chain[i].next == NextOf(chain, i)
    requires k > 0 ==> chain[k - 1].next == NextOf(chain, k)
    requires forall i :: 0 <= i < |chain| && i != k + 1 ==> chain[i].prev == PrevOf(chain, i)
    requires k + 1 < |chain| ==> chain[k + 1].prev == PrevOf(chain, k)
    requires p == if k > 0 then chain[0] else NextOf(chain, 0)
    ensures Linked(p, Dropped(chain, k))
  {
    var r := Dropped(chain, k);
    forall i | 0 <= i < |r| ensures r[i].next == NextOf(r, i) && r[i].prev == PrevOf(r, i) {
      if i < k { assert r[i] == chain[i]; } else { assert r[i] == chain[i + 1]; }
    }
  }

  /** Entries of different buckets differ. */
  lemma Elsewhere<K, V>(chains: seq<seq<Entry<K, V>>>, es: set<Entry<K, V>>, j: nat)
    requires Placed(chains, es) && j < |chains|
    ensures forall i, e :: 0 <= i < |chains| && i != j && e in chains[i] ==> e !in chains[j]
    ensures NoDup(chains[j]) && forall e :: e in chains[j] ==> e in es
  {
    hide Bucket;
    forall i, e | 0 <= i < |chains| && i != j && e in chains[i] ensures e !in chains[j] {
      assert Bucket(e.hashKey, |chains|) == i;
    }
  }

  /** All buckets but j are linked up. */
  ghost predicate OthersLinked<K, V>(heads: seq<Entry?<K, V>>, chains: seq<seq<Entry<K, V>>>, j: nat)
    reads (set i, e | 0 <= i < |chains| && i != j && e in chains[i] :: e)`next
    reads (set i, e | 0 <= i < |chains| && i != j && e in chains[i] :: e)`prev
  {
    |heads| == |chains| && forall i :: 0 <= i < |chains| && i != j ==> Linked(heads[i], chains[i])
  }

  lemma LinkedBut<K, V>(heads: seq<Entry?<K, V>>, chains: seq<seq<Entry<K, V>>>, j: nat)
    requires AllLinked(heads, chains) && j < |chains|
    ensures OthersLinked(heads, chains, j) && Linked(heads[j], chains[j])
  {
  }

  lemma Relinked<K, V>(heads: seq<Entry?<K, V>>, chains: seq<seq<Entry<K, V>>>, j: nat, head: Entry?<K, V>, chain: seq<Entry<K, V>>)
    requires j < |chains| && OthersLinked(heads, chains, j) && Linked(head, chain)
    ensures AllLinked(heads[j := head], chains[j := chain])
  {
  }

  lemma PlacedPush<K, V>(chains: seq<seq<Entry<K, V>>>, es: set<Entry<K, V>>, p: Entry<K, V>)
    requires Placed(chains, es) && p !in es
    ensures var j := Bucket(p.hashKey, |chains|); Placed(chains[j := [p] + chains[j]], es + {p})
  {
    hide Bucket;
  }

  /** Linking p in front of its bucket, as put and rehash do. */
  method PushFront<K, V>(tab: array<Entry?<K, V>>, ghost chains: seq<seq<Entry<K, V>>>, ghost es: set<Entry<K, V>>,
        p: Entry<K, V>)
    returns (ghost after: seq<seq<Entry<K, V>>>)
    requires Placed(chains, es) && AllLinked(tab[..], chains) && p !in es && p.next == null && p.prev == null
    modifies tab, p`next, es`prev
    ensures |after| == |chains| && Placed(after, es + {p}) && AllLinked(tab[..], after)
  {
    var j := Bucket(p.hashKey, tab.Length);
    PlacedPush(chains, es, p);
    Elsewhere(chains, es, j);
    assert forall i, e :: 0 <= i < |chains| && e in chains[i] ==> e != p;
    LinkedBut(tab[..], chains, j);
    ghost var chain, heads := chains[j], tab[..];
    assert heads[j] == tab[j] == First(chain);
    after := chains[j := [p] + chain];
    if tab[j] == null { LinkedFront(p, chain); }
    hide Linked, Placed, Bucket, OthersLinked, AllLinked, Forward, Backward;
    if tab[j] != null {
      LinkBehind(p, tab[j], chain);
    }
    tab[j] := p;
    Relinked(heads, chains, j, p, [p] + chain);
    assert tab[..] == heads[j := p];
  }

  /** The two assignments that put p in front of head. */
  method LinkBehind<K, V>(p: Entry<K, V>, head: Entry<K, V>, ghost chain: seq<Entry<K, V>>)
    requires Linked(head, chain) && p !in chain && p.prev == null && chain != []
    requires NoDup(chain)
    modifies p`next, head`prev
    ensures Linked(p, [p] + chain)
  {
    head.prev := p;
    p.next := head;
    LinkedFront(p, chain);
  }
}
