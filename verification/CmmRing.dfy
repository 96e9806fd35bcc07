/**
The arithmetic and the decisions of cmmQuickMsgRing.c: free-running 32-bit counters, a power-of-two
mask, 16-bit frame lengths, and where the next frame goes.
*/
module CmmRing {
  import opened RingCore

  const TWO32: nat := 0x1_0000_0000
  const TWO16: nat := 0x1_0000

  // ---------- Counters and mask ----------

  /** A free-running count as a 32-bit field holds it. */
  function Wrap(v: nat): (c: nat)
    ensures c < TWO32
  {
    v % TWO32
  }

  /** Unsigned 32-bit subtraction. */
  function Sub32(a: int, b: int): (c: nat)
    ensures c < TWO32
  {
    (a - b) % TWO32
  }

  function Pow2(k: nat): (p: nat)
    ensures p >= 1
  {
    if k == 0 then 1 else 2 * Pow2(k - 1)
  }

  /** Bitwise and. */
  function BitAnd(a: nat, b: nat): nat {
    if a == 0 || b == 0 then 0
    else (if a % 2 == 1 && b % 2 == 1 then 1 else 0) + 2 * BitAnd(a / 2, b / 2)
  }

  predicate IsPowerOf2(n: nat) { n != 0 && BitAnd(n, n - 1) == 0 }

  lemma {:induction false} MaskIsMod(x: nat, k: nat)
    ensures BitAnd(x, Pow2(k) - 1) == x % Pow2(k)
    decreases k
  {
    if k == 0 {
      assert Pow2(0) == 1;
    } else {
      assert Pow2(k) == 2 * Pow2(k - 1);
      hide BitAnd, Pow2;
      MaskIsMod(x / 2, k - 1);
      MaskDoubles(x, Pow2(k - 1));
    }
  }

  lemma MaskDoubles(x: nat, p: nat)
    requires p > 0 && BitAnd(x / 2, p - 1) == x / 2 % p
    ensures BitAnd(x, 2 * p - 1) == x % (2 * p)
  {
    hide BitAnd;
    HalveMod(x, p);
    AndWithOdd(x, p - 1);
  }

  lemma AndWithOdd(x: nat, m: nat)
    ensures BitAnd(x, 2 * m + 1) == x % 2 + 2 * BitAnd(x / 2, m)
  {
  }

  lemma HalveMod(x: nat, p: nat)
    requires p > 0
    ensures x % (2 * p) == x % 2 + 2 * (x / 2 % p)
  {
    var q := x / 2 / p;
    assert x / 2 == q * p + x / 2 % p;
    assert x == 2 * (x / 2) + x % 2;
    assert x == q * (2 * p) + (2 * (x / 2 % p) + x % 2) by {
      assert 2 * (q * p) == q * (2 * p);
    }
    ModUnique(x, q, 2 * (x / 2 % p) + x % 2, 2 * p);
  }

  lemma {:induction false} AndWithPredecessor(n: nat)
    requires n > 0
    ensures BitAnd(n, n - 1) == 0 <==> exists k: nat :: n == Pow2(k)
  {
    if n == 1 {
      assert Pow2(0) == 1;
    } else if n % 2 == 1 {
      assert BitAnd(n, n - 1) == 2 * BitAnd(n / 2, (n - 1) / 2);
      assert (n - 1) / 2 == n / 2;
      AndWithItself(n / 2);
      forall k: nat
        ensures n != Pow2(k)
      {
        if k > 0 { assert Pow2(k) == 2 * Pow2(k - 1); }
      }
    } else {
      var h := n / 2;
      assert BitAnd(n, n - 1) == 2 * BitAnd(h, h - 1);
      AndWithPredecessor(h);
      TwicePower(h);
    }
  }

  lemma TwicePower(h: nat)
    requires h > 0
    ensures (exists k: nat :: 2 * h == Pow2(k)) <==> (exists k: nat :: h == Pow2(k))
  {
    if k: nat :| h == Pow2(k) {
      assert Pow2(k + 1) == 2 * Pow2(k);
    }
    if k: nat :| 2 * h == Pow2(k) {
      assert k > 0 && Pow2(k) == 2 * Pow2(k - 1);
      assert h == Pow2(k - 1);
    }
  }

  lemma {:induction false} AndWithItself(n: nat)
    ensures BitAnd(n, n) == n
  {
    if n > 0 { AndWithItself(n / 2); }
  }

  lemma {:induction false} SlotSkips(v: nat, m: nat, n: nat)
    requires n > 0
    ensures Slot(v + m * n, n) == Slot(v, n)
  {
    if m > 0 {
      assert v + m * n - n == v + (m - 1) * n;
      assert m * n >= n;
      SlotSkips(v, m - 1, n);
    }
  }

  lemma {:induction false} Pow2Splits(i: nat, j: nat)
    ensures Pow2(i + j) == Pow2(i) * Pow2(j)
  {
    if i > 0 {
      Pow2Splits(i - 1, j);
      assert 2 * (Pow2(i - 1) * Pow2(j)) == 2 * Pow2(i - 1) * Pow2(j);
    }
  }

  lemma Pow2Of32()
    ensures Pow2(32) == TWO32
  {
    assert Pow2(8) == 256;
    Pow2Splits(8, 8);
    Pow2Splits(16, 16);
  }

  /** Masking a wrapped counter finds the word of the unwrapped one: wrap-around is invisible
      because the size divides 2^32. */
  lemma MaskFindsSlot(v: nat, k: nat)
    requires k <= 32
    ensures BitAnd(Wrap(v), Pow2(k) - 1) == Slot(v, Pow2(k))
  {
    var n := Pow2(k);
    MaskIsMod(Wrap(v), k);
    SlotIsMod(Wrap(v), n);
    Pow2Of32();
    Pow2Splits(32 - k, k);
    hide Pow2, BitAnd, Slot;
    SlotSkipsMultiple(Wrap(v), v / TWO32, Pow2(32 - k), n);
    assert v == Wrap(v) + v / TWO32 * TWO32;
  }

  lemma SlotSkipsMultiple(v: nat, q: nat, f: nat, n: nat)
    requires n > 0
    ensures Slot(v + q * (f * n), n) == Slot(v, n)
  {
    MulAssoc(q, f, n);
    SlotSkips(v, q * f, n);
  }

  lemma MulAssoc(a: nat, b: nat, c: nat)
    ensures a * (b * c) == a * b * c
  {
  }

  // ---------- Heads ----------

  function HeadCount(head: nat): (c: nat)
    ensures c < TWO16
  {
    head % TWO16
  }

  function HeadType(head: nat): nat { head / TWO16 % TWO16 }

  predicate IsDummy(head: nat) { HeadType(head) == 0 }

  // ---------- Placement ----------

  function Unused(size: nat, tmpIn: nat, outCnt: nat): nat { Sub32(size + outCnt, tmpIn) }

  datatype Placement = NoRoom | Here | Rewind

  /** One turn of the put loop, with idx == tmpIn & mask. */
  function Place(size: nat, idx: nat, unused: nat, w: nat): Placement
    requires idx < size
  {
    if unused < w then NoRoom
    else if size - idx >= w then Here
    else if unused >= size - idx + w then Rewind
    else NoRoom
  }

  /** How far tmpIn moves. */
  function Moved(size: nat, idx: nat, pl: Placement, w: nat): nat
    requires idx < size && pl != NoRoom
  {
    if pl.Rewind? then size - idx + w else w
  }

  /** The counters' difference is the distance of the counts behind them. */
  lemma UnusedMeans(size: nat, vout: nat, d: nat)
    requires d <= size < TWO32
    ensures Unused(size, Wrap(vout + d), Wrap(vout)) == size - d
  {
  }

  // ---------- Acceptance ----------

  /** w words fit at index idx, with `used` words in use, behind the index. */
  predicate RoomBehind(size: nat, idx: nat, used: nat, w: nat) { idx + w <= size && used + w <= size }

  /** They fit at the front, behind a dummy up to the end of the buffer. */
  predicate RoomInFront(size: nat, idx: nat, used: nat, w: nat) { idx < size && used + (size - idx) + w <= size }

  predicate HasRoom(size: nat, idx: nat, used: nat, w: nat) {
    RoomBehind(size, idx, used, w) || RoomInFront(size, idx, used, w)
  }

  /** A frame goes behind the index wherever the room there suffices, to the front where only that does, and is
      refused nowhere else. */
  lemma PlaceIff(size: nat, idx: nat, used: nat, w: nat)
    requires idx < size && used <= size
    ensures var pl := Place(size, idx, size - used, w);
      && (pl == Here <==> RoomBehind(size, idx, used, w))
      && (pl == Rewind <==> !RoomBehind(size, idx, used, w) && RoomInFront(size, idx, used, w))
      && (pl != NoRoom <==> HasRoom(size, idx, used, w))
  {
  }

  /** An empty ring accepts w words at index idx exactly when they fit behind it or in front of it. */
  lemma AcceptsWhen(size: nat, idx: nat, w: nat)
    requires idx < size
    ensures Place(size, idx, size, w) != NoRoom <==> w <= size && (idx + w <= size || w <= idx)
  {
  }

  /** It accepts them at every index if and only if they fill at most half of it. */
  lemma AcceptsEverywhere(size: nat, w: nat)
    requires size == 1 || (size > 0 && size % 2 == 0)
    ensures (forall idx :: 0 <= idx < size ==> Place(size, idx, size, w) != NoRoom) <==> 2 * w <= size || (size == 1 && w == 1)
    ensures size < 2 * w && size > 1 ==> Place(size, size / 2, size, w) == NoRoom
  {
    if size < 2 * w && size > 1 {
      assert Place(size, size / 2, size, w) == NoRoom;
    }
    if size == 1 {
      assert Place(size, 0, size, w) == NoRoom <==> w > 1;
    }
  }
}
