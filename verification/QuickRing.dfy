/**
The decisions of quickMsgRing.c, as functions of the values its code has in hand: how much room a
producer sees, where the next message goes, and what it writes there.
*/
module QuickRing {
  import opened RingCore

  const RESERV_LEN: nat := 1

  /** A byte count rounded up to 32-bit words. */
  function WordCount(bytes: nat): nat {
    if bytes % 4 > 0 then bytes / 4 + 1 else bytes / 4
  }

  // ---------- Messages of bytes ----------

  type Byte = b: nat | b < 256

  /** Four bytes as they lie in a word, least significant first. */
  function Word(b: seq<Byte>): nat
    requires |b| == 4
  {
    OnTop(b[0], OnTop(b[1], OnTop(b[2], b[3])))
  }

  function OnTop(low: nat, high: nat): nat { low + 256 * high }

  function Zeros(w: nat): (z: seq<nat>)
    ensures |z| == w
  {
    seq(w, i => 0)
  }

  function FourOf(msg: seq<Byte>): (b: seq<Byte>)
    ensures |b| == 4
  {
    if |msg| >= 4 then msg[..4] else msg + Zeros(4 - |msg|)
  }

  /** The words of a zeroed buffer after copying the bytes of msg into it. */
  function Words(msg: seq<Byte>): (ws: seq<nat>)
    ensures |ws| == WordCount(|msg|)
    decreases |msg|
  {
    if msg == [] then [] else [Word(FourOf(msg))] + Words(if |msg| <= 4 then [] else msg[4..])
  }

  function Bytes(ws: seq<nat>): seq<nat> {
    if ws == [] then []
    else Four(ws[0]) + Bytes(ws[1..])
  }

  function Four(w: nat): seq<nat> {
    [w % 256, w / 256 % 256, w / 256 / 256 % 256, w / 256 / 256 / 256]
  }

  lemma OnTopSplits(low: nat, high: nat)
    requires low < 256
    ensures OnTop(low, high) % 256 == low && OnTop(low, high) / 256 == high
  {
  }

  lemma WordKeepsBytes(b: seq<Byte>)
    requires |b| == 4
    ensures Four(Word(b)) == b
  {
    hide OnTop;
    OnTopSplits(b[2], b[3]);
    OnTopSplits(b[1], OnTop(b[2], b[3]));
    OnTopSplits(b[0], OnTop(b[1], OnTop(b[2], b[3])));
  }

  /** The receiver, who is told a number of words, reads the sender's bytes and up to three zeros. */
  lemma {:induction false} WordsKeepBytes(msg: seq<Byte>)
    ensures Bytes(Words(msg)) == msg + Zeros(4 * WordCount(|msg|) - |msg|)
    ensures 0 <= 4 * WordCount(|msg|) - |msg| <= 3
    decreases |msg|
  {
    hide Word, Four;
    if msg != [] {
      var rest := if |msg| <= 4 then [] else msg[4..];
      WordsKeepBytes(rest);
      WordKeepsBytes(FourOf(msg));
      assert Words(msg)[1..] == Words(rest);
    }
  }

  // ---------- Reserving ----------

  function Unused(size: nat, tmpIn: nat, tmpOut: nat, emptyFlag: nat): nat
    requires tmpIn < size
  {
    if tmpIn > tmpOut then size - tmpIn + tmpOut
    else if tmpIn < tmpOut then tmpOut - tmpIn
    else if emptyFlag == 1 then size
    else 0
  }

  datatype Placement = NoRoom | Here | Rewind

  function Place(size: nat, tmpIn: nat, tmpOut: nat, emptyFlag: nat, w: nat): Placement
    requires tmpIn < size
  {
    var unused := Unused(size, tmpIn, tmpOut, emptyFlag);
    if unused <= w + RESERV_LEN then NoRoom
    else if tmpIn >= tmpOut then
      if size - tmpIn >= w + RESERV_LEN then Here
      else if unused >= size - tmpIn + w + 3 * RESERV_LEN then Rewind
      else NoRoom
    else Here
  }

  /** What a reservation writes: a filler word holding `size` when it rewinds, then the length word
      and a zeroed body. */
  function Reservation(size: nat, tmpIn: nat, pl: Placement, w: nat): Record
    requires tmpIn < size && pl != NoRoom
  {
    Record(if pl.Rewind? then size - tmpIn else 0, if pl.Rewind? then size else 0, [w] + Zeros(w))
  }

  /** Where the next message would go. */
  function Advance(size: nat, tmpIn: nat, pl: Placement, w: nat): nat
    requires tmpIn < size && pl != NoRoom
  {
    Slot(if pl.Rewind? then RESERV_LEN + w else tmpIn + w + RESERV_LEN, size)
  }

  predicate WellFormed(size: nat, r: Record) {
    && 0 < |r.words|
    && r.words[0] == |r.words| - 1
    && (r.pad > 0 ==> r.mark == size)
  }

  /** The message bodies that a list of records carries. */
  function Bodies(rs: seq<Record>): (q: seq<seq<nat>>)
    ensures |q| == |rs|
  {
    if rs == [] then [] else [if rs[0].words == [] then [] else rs[0].words[1..]] + Bodies(rs[1..])
  }

  lemma {:induction false} BodiesConcat(a: seq<Record>, b: seq<Record>)
    ensures Bodies(a + b) == Bodies(a) + Bodies(b)
  {
    if a == [] {
      assert a + b == b;
    } else {
      assert (a + b)[1..] == a[1..] + b;
      BodiesConcat(a[1..], b);
    }
  }

  /** How the producer's indices relate to its distance d from the out it sampled: the sampled out
      may be stale, so what it sees is never more than what is free. */
  lemma UnusedMeans(size: nat, vpo: nat, d: nat, emptyFlag: nat)
    requires d < size
    ensures var tmpOut, tmpIn := Slot(vpo, size), Slot(vpo + d, size);
      && (d > 0 ==> tmpIn != tmpOut && Unused(size, tmpIn, tmpOut, emptyFlag) == size - d)
      && (d == 0 ==> tmpIn == tmpOut && Unused(size, tmpIn, tmpOut, emptyFlag) == if emptyFlag == 1 then size else 0)
  {
    SlotStep(vpo, d, size);
  }

  /** Whatever Place grants fits in front of the sampled out with a word to spare, and the index it
      moves to is where the record ends. */
  lemma PlaceFits(size: nat, vpo: nat, d: nat, emptyFlag: nat, w: nat)
    requires d < size
    requires Place(size, Slot(vpo + d, size), Slot(vpo, size), emptyFlag, w) != NoRoom
    ensures var v := vpo + d;
      var pl := Place(size, Slot(v, size), Slot(vpo, size), emptyFlag, w);
      var r := Reservation(size, Slot(v, size), pl, w);
      && Fits(size, v, r) && WellFormed(size, r)
      && d + r.Len() < size
      && Slot(v + r.Len(), size) == Advance(size, Slot(v, size), pl, w)
  {
    var v := vpo + d;
    var tmpIn := Slot(v, size);
    assert tmpIn < size && Slot(0, size) == 0 && Slot(tmpIn, size) == tmpIn;
    hide Slot, Unused;
    var pl := Place(size, tmpIn, Slot(vpo, size), emptyFlag, w);
    UnusedMeans(size, vpo, d, emptyFlag);
    SlotStep(vpo, d, size);
    var r := Reservation(size, tmpIn, pl, w);
    assert |r.words| == w + 1;
    if pl.Rewind? {
      SlotStep(v, size - tmpIn, size);
      SlotStep(v + (size - tmpIn), w + 1, size);
    } else {
      SlotStep(v, w + 1, size);
      SlotStep(tmpIn, w + 1, size);
    }
  }

  // ---------- Acceptance ----------

  /** With `used` words behind out, a message of w words fits at index i with a word to spare. */
  predicate RoomBehind(size: nat, i: nat, used: nat, w: nat) {
    i + w + 1 <= size && used + w + 2 <= size
  }

  /** It fits at the front instead, behind a filler up to the end of the buffer, with two words to spare. */
  predicate RoomInFront(size: nat, i: nat, used: nat, w: nat) {
    i < size && used + (size - i) + w + 3 <= size
  }

  predicate HasRoom(size: nat, i: nat, used: nat, w: nat) {
    RoomBehind(size, i, used, w) || RoomInFront(size, i, used, w)
  }

  /** A message goes behind the index wherever the room there suffices, to the front where only that does, and
      is refused nowhere else; on equal indices emptyFlag has to say that nothing is in use. */
  lemma PlaceIff(size: nat, vpo: nat, d: nat, emptyFlag: nat, w: nat)
    requires d < size
    ensures var i, pl := Slot(vpo + d, size), Place(size, Slot(vpo + d, size), Slot(vpo, size), emptyFlag, w);
      if d == 0 && emptyFlag != 1 then pl == NoRoom
      else
        && (pl == Here <==> RoomBehind(size, i, d, w))
        && (pl == Rewind <==> !RoomBehind(size, i, d, w) && RoomInFront(size, i, d, w))
        && (pl != NoRoom <==> HasRoom(size, i, d, w))
  {
    assert Slot(vpo + d, size) < size;
    hide Slot;
    UnusedMeans(size, vpo, d, emptyFlag);
    SlotStep(vpo, d, size);
  }

  /** Whatever record fits in front of out with a word to spare, or two if it has a filler, is granted. */
  lemma FittingIsGranted(size: nat, vpo: nat, d: nat, emptyFlag: nat, r: Record)
    requires 0 < size && Fits(size, vpo + d, r) && (d > 0 || emptyFlag == 1)
    requires d + r.Len() + (if r.pad > 0 then 2 else 1) <= size
    ensures Place(size, Slot(vpo + d, size), Slot(vpo, size), emptyFlag, |r.words| - 1) != NoRoom
  {
    PlaceIff(size, vpo, d, emptyFlag, |r.words| - 1);
    assert Slot(vpo + d, size) < size;
    hide Slot;
  }

  /** On an empty, quiescent ring a message of w words is accepted exactly when it fits behind the
      current offset or in front of it. */
  lemma AcceptsWhen(size: nat, offset: nat, w: nat)
    requires offset < size
    ensures Place(size, offset, offset, 1, w) != NoRoom <==>
      w + 1 < size && (offset + w + 1 <= size || w + 3 <= offset)
  {
  }

  /** Every offset accepts it if and only if two of it and three words fit; the offset left behind
      by a message of w + 1 words is the first to refuse. */
  lemma AcceptsEverywhere(size: nat, w: nat)
    requires w + 2 < size
    ensures (forall offset :: 0 <= offset < size ==> Place(size, offset, offset, 1, w) != NoRoom) <==> 2 * w + 3 <= size
    ensures size < 2 * w + 3 ==> Place(size, w + 2, w + 2, 1, w) == NoRoom
    ensures size < 2 * w + 3 ==> Place(size, 0, 0, 1, w + 1) == Here
  {
    if size < 2 * w + 3 {
      assert Place(size, w + 2, w + 2, 1, w) == NoRoom;
    }
  }
}
