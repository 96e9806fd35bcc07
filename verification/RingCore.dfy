/**
What the two message rings share: a buffer of n words addressed by ever-growing virtual addresses
(address v lives in word v % n), tiled by records.  A record is an optional filler up to the end of
the buffer, marked in its first word, followed by one message frame that does not wrap.
*/
module RingCore {

  datatype Record = Record(pad: nat, mark: nat, words: seq<nat>) {
    function Len(): nat { pad + |words| }
  }

  function Extent(rs: seq<Record>): nat {
    if rs == [] then 0 else rs[0].Len() + Extent(rs[1..])
  }

  /** The word, out of n, that address v lives in: v modulo n. */
  function Slot(v: nat, n: nat): (i: nat)
    requires n > 0
    ensures i < n
  {
    if v < n then v else Slot(v - n, n)
  }

  function At(buf: seq<nat>, v: nat): nat
    requires |buf| > 0
  {
    buf[Slot(v, |buf|)]
  }

  /** Record r can be laid out at v in n words without its frame wrapping. */
  predicate Fits(n: nat, v: nat, r: Record)
    requires n > 0
  {
    && 0 < |r.words|
    && r.Len() <= n
    && (r.pad == 0 ==> Slot(v, n) + |r.words| <= n)
    && (r.pad > 0 ==> Slot(v, n) + r.pad == n)
  }

  /** The word at which r's frame starts. */
  function FrameStart(n: nat, v: nat, r: Record): nat
    requires n > 0
  {
    if r.pad > 0 then 0 else Slot(v, n)
  }

  ghost predicate Holds(buf: seq<nat>, v: nat, r: Record)
    requires |buf| > 0
  {
    && Fits(|buf|, v, r)
    && (r.pad > 0 ==> At(buf, v) == r.mark)
    && forall j :: 0 <= j < |r.words| ==> At(buf, v + r.pad + j) == r.words[j]
  }

  ghost predicate Tiled(buf: seq<nat>, v: nat, rs: seq<Record>)
    requires |buf| > 0
    decreases rs
  {
    rs != [] ==> Holds(buf, v, rs[0]) && Tiled(buf, v + rs[0].Len(), rs[1..])
  }

  /** Two buffers agree on the words of addresses lo to hi. */
  ghost predicate SameOn(a: seq<nat>, b: seq<nat>, lo: nat, hi: nat)
    requires |a| == |b| > 0
  {
    forall v :: lo <= v < hi ==> At(a, v) == At(b, v)
  }

  // ---------- Addresses ----------

  lemma MultipleIsFar(k: int, n: int)
    requires n > 0
    ensures k >= 1 ==> k * n >= n
    ensures k <= -1 ==> k * n <= -n
  {
    if k >= 1 {
      assert k * n == (k - 1) * n + n;
    } else if k <= -1 {
      assert k * n == (k + 1) * n - n;
    }
  }

  lemma ModUnique(x: nat, q: nat, r: nat, n: nat)
    requires n > 0 && r < n && x == q * n + r
    ensures x % n == r
  {
    assert x == x / n * n + x % n;
    assert (q - x / n) * n == x % n - r;
    MultipleIsFar(q - x / n, n);
  }

  lemma {:induction false} SlotIsMod(v: nat, n: nat)
    requires n > 0
    ensures Slot(v, n) == v % n
  {
    if v >= n {
      SlotIsMod(v - n, n);
      var q := (v - n) / n;
      assert v == (q + 1) * n + (v - n) % n;
      ModUnique(v, q + 1, (v - n) % n, n);
    }
  }

  /** How d <= n steps move an index. */
  lemma {:induction false} SlotStep(v: nat, d: nat, n: nat)
    requires n > 0 && d <= n
    ensures Slot(v + d, n) == if Slot(v, n) + d < n then Slot(v, n) + d else Slot(v, n) + d - n
  {
    if v >= n {
      SlotStep(v - n, d, n);
      assert Slot(v + d, n) == Slot(v - n + d, n);
    }
  }

  /** Distinct addresses less than n apart live in distinct words. */
  lemma SlotDistinct(u: nat, v: nat, n: nat)
    requires n > 0 && u < v < u + n
    ensures Slot(u, n) != Slot(v, n)
  {
    SlotStep(u, v - u, n);
  }

  // ---------- Tilings ----------

  lemma {:induction false} ExtentConcat(a: seq<Record>, b: seq<Record>)
    ensures Extent(a + b) == Extent(a) + Extent(b)
  {
    if a == [] {
      assert a + b == b;
    } else {
      assert (a + b)[1..] == a[1..] + b;
      ExtentConcat(a[1..], b);
    }
  }

  lemma {:induction false} TiledConcat(buf: seq<nat>, v: nat, a: seq<Record>, b: seq<Record>)
    requires |buf| > 0
    ensures Tiled(buf, v, a + b) <==> Tiled(buf, v, a) && Tiled(buf, v + Extent(a), b)
    decreases a
  {
    if a == [] {
      assert a + b == b;
    } else {
      assert (a + b)[1..] == a[1..] + b;
      TiledConcat(buf, v + a[0].Len(), a[1..], b);
    }
  }

  lemma {:induction false} TiledElsewhere(a: seq<nat>, b: seq<nat>, v: nat, rs: seq<Record>)
    requires |a| == |b| > 0 && Tiled(a, v, rs) && SameOn(a, b, v, v + Extent(rs))
    ensures Tiled(b, v, rs)
    decreases rs
  {
    if rs != [] {
      TiledElsewhere(a, b, v + rs[0].Len(), rs[1..]);
    }
  }

  lemma {:induction false} TiledExtent(buf: seq<nat>, v: nat, rs: seq<Record>)
    requires |buf| > 0 && Tiled(buf, v, rs)
    ensures |rs| <= Extent(rs)
    decreases rs
  {
    if rs != [] {
      TiledExtent(buf, v + rs[0].Len(), rs[1..]);
    }
  }

  lemma ExtentOne(r: Record)
    ensures Extent([r]) == r.Len()
  {
  }

  // ---------- Writes ----------

  /** One word written at address u leaves the words of every other address of a window of n alone. */
  lemma WriteOne(buf: seq<nat>, u: nat, w: nat, lo: nat)
    requires |buf| > 0 && lo <= u < lo + |buf|
    ensures var buf' := buf[Slot(u, |buf|) := w];
      && At(buf', u) == w
      && forall v :: lo <= v < lo + |buf| && v != u ==> At(buf', v) == At(buf, v)
  {
    var buf' := buf[Slot(u, |buf|) := w];
    forall v | lo <= v < lo + |buf| && v != u
      ensures At(buf', v) == At(buf, v)
    {
      if u < v { SlotDistinct(u, v, |buf|); } else { SlotDistinct(v, u, |buf|); }
    }
  }

  function Store(buf: seq<nat>, p: nat, words: seq<nat>): (r: seq<nat>)
    requires p + |words| <= |buf|
    ensures |r| == |buf|
  {
    buf[..p] + words + buf[p + |words|..]
  }

  lemma StoreRunAt(buf: seq<nat>, u: nat, words: seq<nat>, j: nat)
    requires |buf| > 0 && j < |words| && Slot(u, |buf|) + |words| <= |buf|
    ensures At(Store(buf, Slot(u, |buf|), words), u + j) == words[j]
  {
    SlotStep(u, j, |buf|);
    hide Slot;
  }

  lemma StoreRunElsewhere(buf: seq<nat>, u: nat, words: seq<nat>, lo: nat, v: nat)
    requires |buf| > 0 && lo <= u && u + |words| <= lo + |buf|
    requires Slot(u, |buf|) + |words| <= |buf|
    requires lo <= v < lo + |buf| && !(u <= v < u + |words|)
    ensures At(Store(buf, Slot(u, |buf|), words), v) == At(buf, v)
  {
    hide Slot;
    var n, p := |buf|, Slot(u, |buf|);
    if p <= Slot(v, n) < p + |words| {
      var j := Slot(v, n) - p;
      SlotStep(u, j, n);
      if v < u + j { SlotDistinct(v, u + j, n); } else { SlotDistinct(u + j, v, n); }
    }
  }

  lemma StoreRun(buf: seq<nat>, u: nat, words: seq<nat>, lo: nat)
    requires |buf| > 0 && lo <= u && u + |words| <= lo + |buf|
    requires Slot(u, |buf|) + |words| <= |buf|
    ensures var buf' := Store(buf, Slot(u, |buf|), words);
      && (forall j :: 0 <= j < |words| ==> At(buf', u + j) == words[j])
      && (forall v :: lo <= v < lo + |buf| && !(u <= v < u + |words|) ==> At(buf', v) == At(buf, v))
  {
    hide Slot, Store, At;
    var buf' := Store(buf, Slot(u, |buf|), words);
    forall j | 0 <= j < |words|
      ensures At(buf', u + j) == words[j]
    {
      StoreRunAt(buf, u, words, j);
    }
    forall v | lo <= v < lo + |buf| && !(u <= v < u + |words|)
      ensures At(buf', v) == At(buf, v)
    {
      StoreRunElsewhere(buf, u, words, lo, v);
    }
  }

  /** The buffer after writing record r at address v. */
  function StoreRecord(buf: seq<nat>, v: nat, r: Record): (s: seq<nat>)
    requires |buf| > 0 && Fits(|buf|, v, r)
    ensures |s| == |buf|
  {
    if r.pad > 0 then Store(buf[Slot(v, |buf|) := r.mark], 0, r.words) else Store(buf, Slot(v, |buf|), r.words)
  }

  lemma StorePaddedHolds(buf: seq<nat>, lo: nat, v: nat, r: Record)
    requires |buf| > 0 && Fits(|buf|, v, r) && r.pad > 0
    requires lo <= v && v + r.Len() <= lo + |buf|
    ensures Holds(StoreRecord(buf, v, r), v, r)
    ensures SameOn(buf, StoreRecord(buf, v, r), lo, v)
  {
    hide Slot, Store;
    var b1 := buf[Slot(v, |buf|) := r.mark];
    WriteOne(buf, v, r.mark, lo);
    SlotStep(v, r.pad, |buf|);
    var u := v + r.pad;
    assert Slot(u, |b1|) == 0;
    StoreRun(b1, u, r.words, lo);
    var b2 := Store(b1, Slot(u, |b1|), r.words);
    assert StoreRecord(buf, v, r) == b2;
    assert At(b2, v) == r.mark;
    assert SameOn(buf, b2, lo, v) by {
      assert forall x :: lo <= x < v ==> At(b2, x) == At(b1, x);
    }
  }

  lemma StoreRecordHolds(buf: seq<nat>, lo: nat, v: nat, r: Record)
    requires |buf| > 0 && Fits(|buf|, v, r)
    requires lo <= v && v + r.Len() <= lo + |buf|
    ensures Holds(StoreRecord(buf, v, r), v, r)
    ensures SameOn(buf, StoreRecord(buf, v, r), lo, v)
  {
    hide Slot, Store;
    if r.pad > 0 {
      StorePaddedHolds(buf, lo, v, r);
    } else {
      StoreRun(buf, v, r.words, lo);
    }
  }

  /** Appending a record behind a tiling keeps the tiling. */
  lemma AppendRecord(buf: seq<nat>, lo: nat, rs: seq<Record>, r: Record)
    requires |buf| > 0 && Tiled(buf, lo, rs)
    requires Fits(|buf|, lo + Extent(rs), r)
    requires Extent(rs) + r.Len() <= |buf|
    ensures Tiled(StoreRecord(buf, lo + Extent(rs), r), lo, rs + [r])
    ensures Extent(rs + [r]) == Extent(rs) + r.Len()
  {
    hide Slot, Fits;
    var v := lo + Extent(rs);
    var buf' := StoreRecord(buf, v, r);
    StoreRecordHolds(buf, lo, v, r);
    TiledElsewhere(buf, buf', lo, rs);
    assert Tiled(buf', v, [r]);
    TiledConcat(buf', lo, rs, [r]);
    ExtentConcat(rs, [r]);
  }

  lemma TiledSplit(buf: seq<nat>, lo: nat, a: seq<Record>, r: Record, b: seq<Record>)
    requires |buf| > 0
    ensures Extent(a + [r] + b) == Extent(a) + r.Len() + Extent(b)
    ensures Tiled(buf, lo, a + [r] + b) <==>
      Tiled(buf, lo, a) && Holds(buf, lo + Extent(a), r) && Tiled(buf, lo + Extent(a) + r.Len(), b)
  {
    TiledConcat(buf, lo, a + [r], b);
    TiledConcat(buf, lo, a, [r]);
    ExtentConcat(a + [r], b);
    ExtentConcat(a, [r]);
  }

  function Rewritten(r: Record, j: nat, w: nat): Record
    requires j < |r.words|
  {
    r.(words := r.words[j := w])
  }

  lemma RewriteHolds(buf: seq<nat>, lo: nat, v: nat, r: Record, j: nat, w: nat)
    requires |buf| > 0 && Holds(buf, v, r) && j < |r.words|
    requires lo <= v && v + r.Len() <= lo + |buf|
    ensures var buf' := buf[Slot(v + r.pad + j, |buf|) := w];
      && Holds(buf', v, Rewritten(r, j, w))
      && SameOn(buf, buf', lo, v)
      && SameOn(buf, buf', v + r.Len(), lo + |buf|)
  {
    WriteOne(buf, v + r.pad + j, w, lo);
  }

  /** Overwriting word j of one record's frame changes that record and no other. */
  lemma RewriteWord(buf: seq<nat>, lo: nat, a: seq<Record>, r: Record, b: seq<Record>, j: nat, w: nat)
    requires |buf| > 0 && Tiled(buf, lo, a + [r] + b) && Extent(a + [r] + b) <= |buf|
    requires j < |r.words|
    ensures Tiled(buf[Slot(lo + Extent(a) + r.pad + j, |buf|) := w], lo, a + [Rewritten(r, j, w)] + b)
    ensures Extent(a + [Rewritten(r, j, w)] + b) == Extent(a + [r] + b)
  {
    hide Tiled, Extent, Slot, Holds;
    var v := lo + Extent(a);
    var buf' := buf[Slot(v + r.pad + j, |buf|) := w];
    TiledSplit(buf, lo, a, r, b);
    RewriteHolds(buf, lo, v, r, j, w);
    TiledElsewhere(buf, buf', lo, a);
    TiledElsewhere(buf, buf', v + r.Len(), b);
    TiledSplit(buf', lo, a, Rewritten(r, j, w), b);
  }

  /** A held frame, read back from the buffer. */
  lemma ReadFrame(buf: seq<nat>, v: nat, r: Record)
    requires |buf| > 0 && Holds(buf, v, r)
    ensures var p := FrameStart(|buf|, v, r);
      p + |r.words| <= |buf| && buf[p..p + |r.words|] == r.words
    ensures Slot(v + r.Len(), |buf|) == Slot(FrameStart(|buf|, v, r) + |r.words|, |buf|)
  {
    var n, p := |buf|, FrameStart(|buf|, v, r);
    if r.pad > 0 { SlotStep(v, r.pad, n); }
    var u := v + r.pad;
    assert Slot(u, n) == p;
    forall j | 0 <= j < |r.words|
      ensures buf[p + j] == r.words[j]
    {
      SlotStep(u, j, n);
      assert At(buf, u + j) == r.words[j];
    }
    SlotStep(u, |r.words|, n);
  }

  /** Word j of a frame, by address and by index. */
  lemma FrameAddress(buf: seq<nat>, v: nat, r: Record, j: nat)
    requires |buf| > 0 && Holds(buf, v, r) && j < |r.words|
    ensures Slot(v + r.pad + j, |buf|) == FrameStart(|buf|, v, r) + j
  {
    var n := |buf|;
    if r.pad > 0 { SlotStep(v, r.pad, n); }
    SlotStep(v + r.pad, j, n);
  }

  lemma {:induction false} ExtentUpdate(rs: seq<Record>, i: nat, r: Record, m: nat)
    requires i < |rs| && m <= |rs| && r.Len() == rs[i].Len()
    ensures Extent(rs[i := r][..m]) == Extent(rs[..m])
  {
    if m > 0 {
      assert rs[i := r][..m][1..] == rs[i := r][1..][..m - 1];
      assert rs[..m][1..] == rs[1..][..m - 1];
      if i == 0 {
        assert rs[i := r][1..] == rs[1..];
      } else {
        assert rs[i := r][1..] == rs[1..][i - 1 := r];
        ExtentUpdate(rs[1..], i - 1, r, m - 1);
      }
    }
  }
}
