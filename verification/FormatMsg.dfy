/**
How zlog builds the text of a message from the parts of its format (format.c, spec.c): a part writes into
the message buffer or, when it has a width, into a second buffer whose contents are then fitted in.
*/
module FormatMsg {
  import opened BufSpec
  import opened Common
  import opened ZlogBuf

  /** One call of a writer of buf.c; the rendering of a format is None when vsnprintf fails. */
  datatype Write =
    | Str(s: string) | Dec32(n: nat, width: nat) | Dec64(n: nat, width: nat) | Hex32(n: nat, width: nat)
    | Rendering(r: Option<string>)

  /** left_adjust, left_fill_zeros, min_width and max_width of a part. */
  datatype Field = Field(leftAdjust: bool, zeroPad: bool, minWidth: nat, maxWidth: nat)

  /** A part of a format: the calls its write_buf makes, and its field, if it has one. */
  datatype Spec = Spec(writes: seq<Write>, field: Option<Field>)

  predicate InRange(w: Write) {
    match w
    case Dec32(n, _) => n <= MAX_UINT32
    case Dec64(n, _) => n <= MAX_UINT64
    case Hex32(n, _) => n <= MAX_UINT32
    case _ => true
  }

  function Text(w: Write): string {
    match w
    case Str(s) => s
    case Dec32(n, width) => ZeroPadded(Digits(n, Dec), width)
    case Dec64(n, width) => ZeroPadded(Digits(n, Dec), width)
    case Hex32(n, width) => ZeroPadded(Digits(n, Hex), width)
    case Rendering(r) => if r.Some? then r.value else ""
  }

  predicate Renders(w: Write) { w.Rendering? ==> w.r.Some? }

  /** What a list of writes amounts to. */
  function Texts(ws: seq<Write>): string {
    if ws == [] then "" else Texts(ws[..|ws| - 1]) + Text(ws[|ws| - 1])
  }

  predicate Fits(s: string, max: nat) { max == 0 || |s| < max }

  /** What a part contributes: its text or, in a field, as much of it as the second buffer held. */
  function Contribution(a: Spec, preMax: nat, preMark: string): string {
    match a.field
    case None => Texts(a.writes)
    case Some(f) => Adjusted(Clip(Texts(a.writes), preMax, preMark), f.leftAdjust, f.zeroPad, f.minWidth, f.maxWidth)
  }

  function Message(specs: seq<Spec>, preMax: nat, preMark: string): string {
    if specs == [] then ""
    else Message(specs[..|specs| - 1], preMax, preMark) + Contribution(specs[|specs| - 1], preMax, preMark)
  }

  /** No rendering fails and no allocation does. */
  predicate WritesWell(ws: seq<Write>, memory: seq<bool>)
    requires |memory| >= |ws|
  {
    forall i :: 0 <= i < |ws| ==> Renders(ws[i]) && memory[i]
  }

  predicate SpecWell(a: Spec, memory: seq<bool>)
    requires |memory| == |a.writes| + 1
  {
    WritesWell(a.writes, memory) && memory[|a.writes|]
  }

  /** Texts and renderings are written as they are, one after the other. */
  lemma {:induction false} TextsJoin(a: seq<Write>, b: seq<Write>, s: string)
    ensures Texts(a + b) == Texts(a) + Texts(b)
    ensures Texts([Str(s)]) == Texts([Rendering(Some(s))]) == s
    decreases b
  {
    assert [Str(s)][..0] == [] && [Rendering(Some(s))][..0] == [];
    if b == [] {
      assert a + b == a;
    } else {
      var n := |b| - 1;
      TextsJoin(a, b[..n], s);
      assert (a + b)[..|a + b| - 1] == a + b[..n];
    }
  }

  /** A message is the contributions of its parts, one after the other. */
  lemma {:induction false} MessagesJoin(a: seq<Spec>, b: seq<Spec>, x: Spec, preMax: nat, preMark: string)
    ensures Message(a + b, preMax, preMark) == Message(a, preMax, preMark) + Message(b, preMax, preMark)
    ensures Message([x], preMax, preMark) == Contribution(x, preMax, preMark)
    decreases b
  {
    hide Contribution;
    assert [x][..0] == [];
    if b == [] {
      assert a + b == a;
    } else {
      var n := |b| - 1;
      MessagesJoin(a, b[..n], x, preMax, preMark);
      assert (a + b)[..|a + b| - 1] == a + b[..n];
    }
  }

  /** A number is written so that it reads back, in a field at least as wide as it asks for. */
  lemma NumbersReadBack(n: nat, width: nat)
    ensures Value(Text(Dec32(n, width)), Dec) == Value(Text(Dec64(n, width)), Dec) == Value(Text(Hex32(n, width)), Hex) == n
    ensures |Text(Dec32(n, width))| >= width && |Text(Dec64(n, width))| >= width && |Text(Hex32(n, width))| >= width
  {
    hide Digits, Value;
    PaddedStandsFor(n, Dec, width);
    PaddedStandsFor(n, Hex, width);
  }

  /** A part with a field: its text as the second buffer holds it, at most maxWidth bytes of it, in at least minWidth;
      the text stands at the edge the part names. */
  lemma FieldMeans(a: Spec, preMax: nat, preMark: string, i: nat)
    requires a.field.Some?
    ensures var f, x, r := a.field.value, Clip(Texts(a.writes), preMax, preMark), Contribution(a, preMax, preMark);
      var kept := if f.maxWidth != 0 && f.maxWidth < |x| then f.maxWidth else |x|;
      && |r| == Max(kept, f.minWidth)
      && (i < kept ==> r[if f.leftAdjust then i else |r| - kept + i] == x[i])
      && (i < |r| - kept ==> r[if f.leftAdjust then kept + i else i] == if f.zeroPad && !f.leftAdjust then '0' else ' ')
  {
    hide Clip, Texts, Adjusted;
    var f := a.field.value;
    AdjustedAt(Clip(Texts(a.writes), preMax, preMark), f.leftAdjust, f.zeroPad, f.minWidth, f.maxWidth, i);
  }

  // ---- Clips

  lemma {:induction false} TextsMore(ws: seq<Write>, k: nat)
    requires k <= |ws|
    ensures |Texts(ws[..k])| <= |Texts(ws)| && Texts(ws)[..|Texts(ws[..k])|] == Texts(ws[..k])
    decreases |ws|
  {
    if k < |ws| {
      var n := |ws| - 1;
      TextsMore(ws[..n], k);
      assert ws[..n][..k] == ws[..k];
      assert Texts(ws) == Texts(ws[..n]) + Text(ws[n]);
    } else {
      assert ws[..k] == ws;
    }
  }

  /** Once a text is too long, what comes behind it does not show. */
  lemma ClipStops(c: string, s: string, whole: string, max: nat, t: string)
    requires !Fits(c + s, max) && |s| <= |whole| && whole[..|s|] == s
    ensures Clip(c + whole, max, t) == Clip(c + s, max, t) && !Fits(c + whole, max)
  {
    hide Marked;
    assert (c + whole)[..max - 1] == (c + s)[..max - 1];
  }

  // ---- The methods

  /** One call. */
  method WriteOne(b: Buf, w: Write, memory: bool) returns (rc: int)
    requires (b.Valid() || b.Freed()) && InRange(w)
    modifies b, b.data
    ensures (b.Valid() || b.Freed()) && (b.data == old(b.data) || fresh(b.data)) && rc in {-1, 0, 1}
    ensures old(b.Valid()) && rc != -1 ==>
      b.Valid() && b.Contents() == old(b.After(Text(w))) && rc == if old(b.Overflows(Text(w))) then 1 else 0
    ensures old(b.Valid()) && rc == -1 ==> !(Renders(w) && memory)
  {
    hide Put, ZeroPadded, Digits, Marked;
    match w {
      case Str(s) => rc := b.Append(s, memory);
      case Dec32(n, width) => rc := b.PrintfDec32(n, width, memory);
      case Dec64(n, width) => rc := b.PrintfDec64(n, width, memory);
      case Hex32(n, width) => rc := b.PrintfHex(n, width, memory);
      case Rendering(r) => rc := b.Vprintf(r, memory);
    }
  }

  /** A write that does not overflow appends, and one that does leaves the clip. */
  lemma PutIs(c: string, x: string, max: nat, t: string)
    ensures Put(c, x, max, t) == if Fits(c + x, max) then c + x else Clip(c + x, max, t)
  {
  }

  /** write_buf of a part: its calls in turn, until one does not return 0. */
  method WriteBuf(b: Buf, ws: seq<Write>, memory: seq<bool>) returns (rc: int)
    requires (b.Valid() || b.Freed()) && |memory| >= |ws| && forall i :: 0 <= i < |ws| ==> InRange(ws[i])
    modifies b, b.data
    ensures (b.Valid() || b.Freed()) && (b.data == old(b.data) || fresh(b.data)) && rc in {-1, 0, 1}
    ensures old(b.Valid()) && rc == -1 ==> !WritesWell(ws, memory)
    ensures old(b.Valid()) && rc != -1 ==>
      b.Valid() && b.Contents() == Clip(old(b.Contents()) + Texts(ws), b.sizeMax, b.truncateStr)
    ensures old(b.Valid()) && rc != -1 ==> rc == if Fits(old(b.Contents()) + Texts(ws), b.sizeMax) then 0 else 1
  {
    hide Put, Clip, Text, Renders, InRange;
    ghost var live, c := b.Valid(), b.data[..b.tail];
    ghost var max, t := b.sizeMax, b.truncateStr;
    var i := 0;
    while i < |ws|
      invariant i <= |ws| && (b.Valid() || b.Freed()) && (b.data == old(b.data) || fresh(b.data))
      invariant live ==> b.Valid() && b.Contents() == c + Texts(ws[..i])
    {
      rc := WriteOne(b, ws[i], memory[i]);
      assert ws[..i + 1][..i] == ws[..i];
      if live {
        PutIs(c + Texts(ws[..i]), Text(ws[i]), max, t);
        assert c + Texts(ws[..i]) + Text(ws[i]) == c + Texts(ws[..i + 1]);
      }
      if rc != 0 {
        if live && rc == 1 {
          TextsMore(ws, i + 1);
          ClipStops(c, Texts(ws[..i + 1]), Texts(ws), max, t);
        }
        return;
      }
      i := i + 1;
    }
    assert ws[..i] == ws;
    if live { PutIs(c, Texts(ws), max, t); ClipOfFitting(c + Texts(ws), max, t); }
    return 0;
  }

  lemma ClipOfFitting(s: string, max: nat, t: string)
    requires Fits(s, max)
    ensures Clip(s, max, t) == s
  {
  }

  /** zlog_spec_gen_msg, directly or through the second buffer; there, an overflow is no failure. */
  method GenSpec(msg: Buf, pre: Buf, a: Spec, memory: seq<bool>) returns (rc: int)
    requires (msg.Valid() || msg.Freed()) && (pre.Valid() || pre.Freed()) && msg != pre && msg.data != pre.data
    requires |memory| == |a.writes| + 1 && forall i :: 0 <= i < |a.writes| ==> InRange(a.writes[i])
    modifies msg, msg.data, pre, pre.data
    ensures (msg.Valid() || msg.Freed()) && (pre.Valid() || pre.Freed()) && msg.data != pre.data
    ensures (msg.data == old(msg.data) || fresh(msg.data)) && (pre.data == old(pre.data) || fresh(pre.data)) && rc in {-1, 0, 1}
    ensures old(msg.Valid() && pre.Valid()) && rc == -1 ==> !SpecWell(a, memory)
    ensures var whole := old(msg.data[..msg.tail]) + Contribution(a, pre.sizeMax, pre.truncateStr);
      old(msg.Valid() && pre.Valid()) && rc != -1 ==>
        && msg.Valid() && pre.Valid() && msg.Contents() == Clip(whole, msg.sizeMax, msg.truncateStr)
        && rc == if Fits(whole, msg.sizeMax) then 0 else 1
  {
    hide Put, Clip, Adjusted, Texts, InRange, WritesWell;
    match a.field {
      case None => rc := WriteBuf(msg, a.writes, memory);
      case Some(f) =>
        pre.Restart();
        rc := WriteBuf(pre, a.writes, memory);
        if rc < 0 { return -1; }
        ghost var live, c := msg.Valid() && pre.Valid(), msg.data[..msg.tail];
        assert "" + Texts(a.writes) == Texts(a.writes);
        var x := pre.data[..pre.tail];
        PutIs(c, Adjusted(x, f.leftAdjust, f.zeroPad, f.minWidth, f.maxWidth), msg.sizeMax, msg.truncateStr);
        rc := msg.AdjustAppend(x, f.leftAdjust, f.zeroPad, f.minWidth, f.maxWidth, memory[|a.writes|]);
        if live && rc == 0 {
          ClipOfFitting(c + Adjusted(x, f.leftAdjust, f.zeroPad, f.minWidth, f.maxWidth), msg.sizeMax, msg.truncateStr);
        }
    }
  }

  lemma {:induction false} MessageMore(specs: seq<Spec>, k: nat, preMax: nat, preMark: string)
    requires k <= |specs|
    ensures var part, whole := Message(specs[..k], preMax, preMark), Message(specs, preMax, preMark);
      |part| <= |whole| && whole[..|part|] == part
    decreases |specs|
  {
    hide Contribution;
    if k < |specs| {
      var n := |specs| - 1;
      MessageMore(specs[..n], k, preMax, preMark);
      assert specs[..n][..k] == specs[..k];
    } else {
      assert specs[..k] == specs;
    }
  }

  ghost predicate AllWell(specs: seq<Spec>, memory: seq<seq<bool>>) {
    |memory| == |specs| && forall i :: 0 <= i < |specs| ==> |memory[i]| == |specs[i].writes| + 1 && SpecWell(specs[i], memory[i])
  }

  /** zlog_format_gen_msg.  The buffer holds the clip of the message, but one that is too long is a failure,
      and its callers then output nothing. */
  method GenMsg(msg: Buf, pre: Buf, specs: seq<Spec>, memory: seq<seq<bool>>) returns (rc: int)
    requires (msg.Valid() || msg.Freed()) && (pre.Valid() || pre.Freed()) && msg != pre && msg.data != pre.data
    requires |memory| == |specs| && forall i :: 0 <= i < |specs| ==> |memory[i]| == |specs[i].writes| + 1
    requires forall i, j :: 0 <= i < |specs| && 0 <= j < |specs[i].writes| ==> InRange(specs[i].writes[j])
    modifies msg, msg.data, pre, pre.data
    ensures (msg.Valid() || msg.Freed()) && (pre.Valid() || pre.Freed()) && rc in {-1, 0}
    ensures var m := Message(specs, pre.sizeMax, pre.truncateStr);
      old(msg.Valid() && pre.Valid()) && rc == 0 ==> msg.Valid() && msg.Contents() == m && Fits(m, msg.sizeMax)
    ensures var m := Message(specs, pre.sizeMax, pre.truncateStr);
      old(msg.Valid() && pre.Valid()) && AllWell(specs, memory) ==>
        msg.Valid() && msg.Contents() == Clip(m, msg.sizeMax, msg.truncateStr) && (rc == 0 <==> Fits(m, msg.sizeMax))
  {
    hide Put, Clip, Contribution, SpecWell, InRange;
    ghost var live, max, t := msg.Valid() && pre.Valid(), pre.sizeMax, pre.truncateStr;
    msg.Restart();
    var i := 0;
    while i < |specs|
      invariant i <= |specs| && (msg.Valid() || msg.Freed()) && (pre.Valid() || pre.Freed()) && msg.data != pre.data
      invariant (msg.data == old(msg.data) || fresh(msg.data)) && (pre.data == old(pre.data) || fresh(pre.data))
      invariant live ==> msg.Valid() && pre.Valid() && msg.Contents() == Message(specs[..i], max, t)
    {
      rc := GenSpec(msg, pre, specs[i], memory[i]);
      assert specs[..i + 1][..i] == specs[..i];
      ghost var m := Message(specs[..i + 1], max, t);
      if rc != 0 {
        if live && rc == 1 {
          MessageMore(specs, i + 1, max, t);
          assert "" + m == m && "" + Message(specs, max, t) == Message(specs, max, t);
          ClipStops("", m, Message(specs, max, t), msg.sizeMax, msg.truncateStr);
        }
        return -1;
      }
      if live { ClipOfFitting(m, msg.sizeMax, msg.truncateStr); }
      i := i + 1;
    }
    assert specs[..i] == specs;
    if live { ClipOfFitting(Message(specs, max, t), msg.sizeMax, msg.truncateStr); }
    return 0;
  }
}
