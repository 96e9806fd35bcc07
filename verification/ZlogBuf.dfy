/** The writers of buf.c on the buffer itself.  tail is kept as an offset from start. */
module ZlogBuf {
  import opened BufSpec
  import opened Common

  const MAXLEN_PATH := 1024
  const INT32_LEN := 11
  const INT64_LEN := 20
  const MAX_UINT32 := 0xffff_ffff
  const MAX_UINT64 := 0xffff_ffff_ffff_ffff

  class Buf {
    const sizeMin: nat
    const sizeMax: nat
    const truncateStr: string
    var data: array<char>
    var tail: nat
    var sizeReal: nat

    /** start <= tail <= end, and the allocation stays within its bounds. */
    ghost predicate Valid()
      reads this
    {
      && tail < data.Length == sizeReal
      && 0 < sizeMin <= sizeReal && (sizeMax != 0 ==> sizeReal <= sizeMax)
    }

    ghost function Contents(): (s: string)
      requires Valid()
      reads this, data
      ensures |s| == tail
    {
      data[..tail]
    }

    /** The contents after writing x. */
    ghost function After(x: string): string
      requires Valid()
      reads this, data
    {
      Put(Contents(), x, sizeMax, truncateStr)
    }

    /** x does not fit and the size limit keeps the buffer from growing. */
    ghost predicate Overflows(x: string)
      requires Valid()
      reads this, data
    {
      sizeMax != 0 && tail + |x| >= sizeMax
    }

    /** x does not fit, the limit does not forbid growing, and there is no memory for it. */
    ghost predicate Starved(x: string, memory: bool)
      reads this
    {
      !memory && tail + |x| >= data.Length && (sizeMax == 0 || data.Length < sizeMax)
    }

    /** start is NULL, as a failed realloc leaves it; the size stays what it was. */
    ghost predicate Freed()
      reads this
    {
      && data.Length == 0 && tail == 0
      && 0 < sizeMin <= sizeReal && (sizeMax != 0 ==> sizeReal < sizeMax)
    }

    constructor (sizeMin: nat, sizeMax: nat, truncateStr: string)
      requires sizeMin != 0 && (sizeMax == 0 || sizeMin <= sizeMax)
      ensures Valid() && fresh(data) && Contents() == "" && data.Length == sizeMin
      ensures this.sizeMin == sizeMin && this.sizeMax == sizeMax && this.truncateStr == truncateStr
    {
      this.sizeMin, this.sizeMax, this.truncateStr := sizeMin, sizeMax, truncateStr;
      data := new char[sizeMin];
      tail, sizeReal := 0, sizeMin;
    }

    /** zlog_buf_new. */
    static method New(sizeMin: nat, sizeMax: nat, truncateStr: string) returns (b: Buf?)
      ensures b == null <==> sizeMin == 0 || (sizeMax != 0 && sizeMax < sizeMin) || |truncateStr| > MAXLEN_PATH
      ensures b != null ==> b.Valid() && fresh(b) && fresh(b.data) && b.Contents() == ""
      ensures b != null ==> b.sizeMin == sizeMin && b.sizeMax == sizeMax && b.truncateStr == truncateStr
    {
      if sizeMin == 0 { return null; }
      if sizeMax != 0 && sizeMax < sizeMin { return null; }
      if |truncateStr| > MAXLEN_PATH { return null; }
      b := new Buf(sizeMin, sizeMax, truncateStr);
    }

    /** zlog_buf_restart. */
    method Restart()
      requires Valid() || Freed()
      modifies this`tail
      ensures old(Valid()) ==> Valid() && Contents() == ""
      ensures old(Freed()) ==> Freed()
    {
      tail := 0;
    }

    /** memcpy of s to offset at. */
    method Copy(at: nat, s: string)
      requires at + |s| <= data.Length
      modifies data
      ensures data[..] == old(data[..at]) + s + old(data[at + |s|..])
    {
      forall i | 0 <= i < |s| {
        data[at + i] := s[i];
      }
    }

    /** zlog_buf_truncate. */
    method Truncate()
      requires Valid()
      modifies data
      ensures Valid() && Contents() == Marked(old(Contents()), truncateStr)
    {
      if truncateStr == "" { return; }
      var p := tail - |truncateStr|;
      if p < 0 { p := 0; }
      Copy(p, truncateStr[..tail - p]);
    }

    /** zlog_buf_resize: the contents stay, and 1 says that the limit got in the way; or realloc finds no
        memory and the buffer is freed. */
    method Resize(increment: nat, memory: bool) returns (rc: int)
      requires (Valid() || Freed()) && increment > 0
      modifies this`data, this`tail, this`sizeReal
      ensures data == old(data) || fresh(data)
      ensures rc == -1 <==> !memory && (sizeMax == 0 || old(sizeReal) < sizeMax)
      ensures rc == -1 ==> Freed() && sizeReal == old(sizeReal)
      ensures rc != -1 ==> Valid() && tail == old(tail) && Contents() == old(data[..tail])
      ensures rc != -1 ==> rc == if sizeMax != 0 && old(sizeReal) + increment > sizeMax then 1 else 0
      ensures rc == 1 ==> data.Length == sizeMax
      ensures rc == 0 ==> data.Length >= old(sizeReal) + increment
    {
      if sizeMax != 0 && sizeReal >= sizeMax { return 1; }
      rc := 0;
      var newSize: nat;
      if sizeMax == 0 {
        newSize := sizeReal + 3 * increment / 2;
      } else if sizeReal + increment <= sizeMax {
        newSize := sizeReal + increment;
      } else {
        newSize := sizeMax;
        rc := 1;
      }
      if !memory {
        data, tail := new char[0], 0;
        return -1;
      }
      Reallocate(newSize);
    }

    /** realloc to a larger size. */
    method Reallocate(newSize: nat)
      requires (Valid() || Freed()) && newSize >= sizeReal && (sizeMax != 0 ==> newSize <= sizeMax)
      modifies this`data, this`sizeReal
      ensures Valid() && fresh(data) && data.Length == newSize && Contents() == old(data[..tail])
    {
      var larger := new char[newSize];
      forall i | 0 <= i < data.Length {
        larger[i] := data[i];
      }
      data, sizeReal := larger, newSize;
    }

    /** What overflowing leaves: the part that fits was written, and the mark is put over its end. */
    method Seal(ghost x: string, ghost c: string)
      requires Valid() && data.Length == sizeMax && tail == sizeMax - 1
      requires |c + x| >= sizeMax && Contents() == (c + x)[..sizeMax - 1]
      modifies data
      ensures Valid() && Contents() == Put(c, x, sizeMax, truncateStr)
    {
      Truncate();
    }

    /** The last place of the buffer, or start when it is NULL. */
    function End(): nat
      reads this`data
    {
      if data.Length == 0 then 0 else data.Length - 1
    }

    /** The limit would cut a revived buffer short of what growing by |x| takes. */
    predicate Limited(x: string)
      reads this`sizeReal
    {
      sizeMax != 0 && sizeReal + |x| > sizeMax
    }

    /** As a write of x onto nothing should leave it. */
    ghost predicate WrittenAlone(x: string, rc: int)
      requires Valid()
      reads this, data
    {
      Contents() == Put("", x, sizeMax, truncateStr) && rc == if sizeMax != 0 && |x| >= sizeMax then 1 else 0
    }

    /** zlog_buf_append.  Alone among the writers it does not look whether the buffer was freed: with memory
        again, it revives it.  At the limit it then writes size_max - 1 bytes, whether x has them or not. */
    method Append(str: string, memory: bool) returns (rc: int)
      requires Valid() || Freed()
      modifies this, data
      ensures data == old(data) || fresh(data)
      ensures old(Valid()) ==> (rc == -1 <==> old(Starved(str, memory)))
      ensures rc == -1 ==> Freed() && sizeReal == old(sizeReal)
      ensures old(Valid()) && rc != -1 ==> Valid() && Contents() == old(After(str)) && rc == if old(Overflows(str)) then 1 else 0
      ensures old(Freed()) && str == "" ==> rc == 0 && Freed()
      ensures old(Freed()) && str != "" ==> (rc == -1 <==> !memory)
      ensures old(Freed()) && str != "" && memory ==> Valid() && rc == if old(Limited(str)) then 1 else 0
      ensures old(Freed()) && str != "" && memory && !old(Limited(str)) ==> Contents() == str
      ensures old(Freed()) && str != "" && memory && old(Limited(str)) ==>
        exists copied :: Copied(copied, str) && Contents() == Marked(copied, truncateStr)
      ensures old(Freed()) && str != "" && memory ==>
        (WrittenAlone(str, rc) <==> !old(Limited(str)) || |str| >= sizeMax)
    {
      hide Put, Marked;
      ghost var freed, c, max := data.Length == 0, data[..tail], sizeMax;
      if tail + |str| > End() {
        rc := Resize(|str| - (End() - tail), memory);
        if rc > 0 {
          ghost var copied := WritePart(str);
          if freed {
            assert c + copied == copied;
            assert Copied(copied, str);
            if |str| >= sizeMax { PutCut("", str, copied, sizeMax, truncateStr); }
          } else {
            PutCut(c, str, copied, sizeMax, truncateStr);
          }
          return 1;
        } else if rc < 0 {
          return -1;
        }
      }
      Copy(tail, str);
      tail := tail + |str|;
      if !freed || |str| < max || max == 0 { PutFits(c, str, max, truncateStr); }
      return 0;
    }

    /** What fits in front of the end, and the mark.  memcpy goes on behind str; what it finds there is left
        as what the new allocation holds. */
    method WritePart(str: string) returns (ghost copied: string)
      requires Valid() && data.Length == sizeMax
      modifies this`tail, data
      ensures Valid() && |copied| == sizeMax - 1 - old(tail)
      ensures forall i :: 0 <= i < |copied| && i < |str| ==> copied[i] == str[i]
      ensures Contents() == Marked(old(Contents()) + copied, truncateStr)
    {
      hide Marked;
      ghost var c, at := Contents(), tail;
      var lenLeft := data.Length - 1 - tail;
      Copy(tail, if |str| <= lenLeft then str else str[..lenLeft]);
      tail := tail + lenLeft;
      copied := Contents()[at..];
      assert Contents() == c + copied;
      Truncate();
    }

    /** size_max - 1 bytes from where x begins. */
    predicate Copied(copied: string, x: string) {
      && sizeMax > 0 && |copied| == sizeMax - 1
      && forall i :: 0 <= i < |copied| && i < |x| ==> copied[i] == x[i]
    }

    /** memset of n places from at, then memcpy of s behind them. */
    method FillThenCopy(at: nat, c: char, n: nat, s: string)
      requires at + n + |s| <= data.Length
      modifies data
      ensures data[..] == old(data[..at]) + (Repeat(c, n) + s) + old(data[at + n + |s|..])
    {
      forall i | 0 <= i < n {
        data[at + i] := c;
      }
      Copy(at + n, s);
    }

    /** memcpy of s to at, with n places set behind it. */
    method FillBehind(at: nat, s: string, c: char, n: nat)
      requires at + |s| + n <= data.Length
      modifies data
      ensures data[..] == old(data[..at]) + (s + Repeat(c, n)) + old(data[at + |s| + n..])
    {
      forall i | 0 <= i < n {
        data[at + |s| + i] := c;
      }
      Copy(at, s);
    }

    /** The part of the number writers behind the digit loop: digits are num in a field of width. */
    method PutNumber(num: string, width: nat, memory: bool) returns (rc: int)
      requires Valid()
      modifies this, data
      ensures data == old(data) || fresh(data)
      ensures rc == -1 <==> old(Starved(ZeroPadded(num, width), memory))
      ensures if rc == -1 then Freed() else Valid() && Contents() == old(After(ZeroPadded(num, width))) && rc == if old(Overflows(ZeroPadded(num, width))) then 1 else 0
    {
      var zeroLen, outLen := 0, |num|;
      if width > |num| {
        zeroLen, outLen := width - |num|, width;
      }
      assert ZeroPadded(num, width) == Laid(num, |num|, zeroLen, false, true);
      hide ZeroPadded, Laid, Put, Marked;
      if tail + outLen > data.Length - 1 {
        rc := Resize(outLen - (data.Length - 1 - tail), memory);
        if rc > 0 {
          PutNumberPart(num, zeroLen);
          return 1;
        } else if rc < 0 {
          return -1;
        }
      }
      Lay(num, |num|, zeroLen, false, true);
      assert Contents() == old(After(ZeroPadded(num, width))) by {
        PutFits(old(Contents()), ZeroPadded(num, width), sizeMax, truncateStr);
      }
      return 0;
    }

    /** Writing what fits of an overlong number. */
    method PutNumberPart(num: string, zeros: nat)
      requires Valid() && data.Length == sizeMax && tail + zeros + |num| >= data.Length
      modifies this`tail, data
      ensures Valid() && Contents() == old(After(Laid(num, |num|, zeros, false, true)))
    {
      hide Put, Marked, Laid;
      ghost var c := Contents();
      var lenLeft := data.Length - 1 - tail;
      var zeroLen, numLen := zeros, 0;
      if lenLeft <= zeroLen {
        zeroLen := lenLeft;
      } else {
        numLen := lenLeft - zeroLen;
      }
      LaidCut(num, |num|, zeros, numLen, zeroLen, false, true);
      Lay(num, numLen, zeroLen, false, true);
      Seal(Laid(num, |num|, zeros, false, true), c);
    }

    /** The digit loop of the number writers: it fills tmp downwards from end. */
    method DigitLoop(n: nat, base: Base, tmp: array<char>, end: nat) returns (p: nat)
      requires |Digits(n, base)| <= end <= tmp.Length
      modifies tmp
      ensures p <= end && tmp[p..end] == Digits(n, base)
    {
      DigitsStep(n, base);
      hide Digits, Front, Base.Div, Base.Mod, Base.Value;
      var m := base.Div(n);
      p := end - 1;
      tmp[p] := DIGITS[base.Mod(n)];
      assert tmp[p..end] == [DIGITS[base.Mod(n)]];
      while m != 0
        invariant p <= end && Digits(n, base) == Front(m, base) + tmp[p..end]
        decreases m
      {
        DigitsStep(m, base);
        DigitTurn(Front(base.Div(m), base), DIGITS[base.Mod(m)], tmp[p..end]);
        ghost var done := tmp[p..end];
        p := p - 1;
        tmp[p] := DIGITS[base.Mod(m)];
        assert tmp[p..end] == [DIGITS[base.Mod(m)]] + done;
        m := base.Div(m);
      }
      assert Front(0, base) == "" by { DigitsStep(0, base); }
    }

    /** zlog_buf_printf_dec32. */
    method PrintfDec32(ui32: nat, width: nat, memory: bool) returns (rc: int)
      requires Valid() || Freed()
      requires ui32 <= MAX_UINT32
      modifies this, data
      ensures data == old(data) || fresh(data)
      ensures old(Freed()) ==> rc == -1 && Freed()
      ensures old(Valid()) ==> (rc == -1 <==> old(Starved(ZeroPadded(Digits(ui32, Dec), width), memory))) && (rc == -1 ==> Freed())
      ensures old(Valid()) && rc != -1 ==>
        Valid() && Contents() == old(After(ZeroPadded(Digits(ui32, Dec), width))) && rc == if old(Overflows(ZeroPadded(Digits(ui32, Dec), width))) then 1 else 0
    {
      if data.Length == 0 { return -1; }
      var tmp := new char[INT32_LEN + 1];
      NumbersFit(ui32);
      var p := DigitLoop(ui32, Dec, tmp, INT32_LEN);
      rc := PutNumber(tmp[p..INT32_LEN], width, memory);
    }

    /** zlog_buf_printf_dec64: small numbers take the same loop over 32 bits. */
    method PrintfDec64(ui64: nat, width: nat, memory: bool) returns (rc: int)
      requires Valid() || Freed()
      requires ui64 <= MAX_UINT64
      modifies this, data
      ensures data == old(data) || fresh(data)
      ensures old(Freed()) ==> rc == -1 && Freed()
      ensures old(Valid()) ==> (rc == -1 <==> old(Starved(ZeroPadded(Digits(ui64, Dec), width), memory))) && (rc == -1 ==> Freed())
      ensures old(Valid()) && rc != -1 ==>
        Valid() && Contents() == old(After(ZeroPadded(Digits(ui64, Dec), width))) && rc == if old(Overflows(ZeroPadded(Digits(ui64, Dec), width))) then 1 else 0
    {
      if data.Length == 0 { return -1; }
      var tmp := new char[INT64_LEN + 1];
      NumbersFit(ui64);
      hide Digits, Put, ZeroPadded;
      var p;
      if ui64 <= MAX_UINT32 {
        var ui32 := ui64 % (MAX_UINT32 + 1);
        assert ui32 == ui64;
        p := DigitLoop(ui32, Dec, tmp, INT64_LEN);
      } else {
        p := DigitLoop(ui64, Dec, tmp, INT64_LEN);
      }
      rc := PutNumber(tmp[p..INT64_LEN], width, memory);
    }

    /** zlog_buf_printf_hex. */
    method PrintfHex(ui32: nat, width: nat, memory: bool) returns (rc: int)
      requires Valid() || Freed()
      requires ui32 <= MAX_UINT32
      modifies this, data
      ensures data == old(data) || fresh(data)
      ensures old(Freed()) ==> rc == -1 && Freed()
      ensures old(Valid()) ==> (rc == -1 <==> old(Starved(ZeroPadded(Digits(ui32, Hex), width), memory))) && (rc == -1 ==> Freed())
      ensures old(Valid()) && rc != -1 ==>
        Valid() && Contents() == old(After(ZeroPadded(Digits(ui32, Hex), width))) && rc == if old(Overflows(ZeroPadded(Digits(ui32, Hex), width))) then 1 else 0
    {
      if data.Length == 0 { return -1; }
      var tmp := new char[INT32_LEN + 1];
      NumbersFit(ui32);
      var p := DigitLoop(ui32, Hex, tmp, INT32_LEN);
      rc := PutNumber(tmp[p..INT32_LEN], width, memory);
    }

    /** zlog_buf_adjust_append. */
    method AdjustAppend(str: string, leftAdjust: bool, zeroPad: bool, inWidth: nat, outWidth: nat, memory: bool) returns (rc: int)
      requires Valid() || Freed()
      modifies this, data
      ensures data == old(data) || fresh(data)
      ensures old(Freed()) ==> rc == -1 && Freed()
      ensures old(Valid()) ==> (rc == -1 <==> old(Starved(Adjusted(str, leftAdjust, zeroPad, inWidth, outWidth), memory))) && (rc == -1 ==> Freed())
      ensures old(Valid()) && rc != -1 ==>
        Valid() && Contents() == old(After(Adjusted(str, leftAdjust, zeroPad, inWidth, outWidth))) && rc == if old(Overflows(Adjusted(str, leftAdjust, zeroPad, inWidth, outWidth))) then 1 else 0
    {
      if data.Length == 0 { return -1; }
      hide Adjusted, Put, Marked, Laid;
      ghost var x := Adjusted(str, leftAdjust, zeroPad, inWidth, outWidth);
      var sourceLen := if outWidth == 0 || |str| < outWidth then |str| else outWidth;
      var appendLen, spaceLen := sourceLen, 0;
      if !(inWidth == 0 || sourceLen >= inWidth) {
        appendLen, spaceLen := inWidth, inWidth - sourceLen;
      }
      AdjustedIsLaid(str, leftAdjust, zeroPad, inWidth, outWidth, sourceLen, spaceLen);
      if appendLen > data.Length - 1 - tail {
        rc := Resize(appendLen - (data.Length - 1 - tail), memory);
        if rc > 0 {
          LayPart(str, sourceLen, spaceLen, leftAdjust, zeroPad);
          return 1;
        } else if rc < 0 {
          return -1;
        }
      }
      Lay(str, sourceLen, spaceLen, leftAdjust, zeroPad);
      assert Contents() == old(After(x)) by { PutFits(old(Contents()), x, sizeMax, truncateStr); }
      return 0;
    }

    /** Writing part of str with space on the one side or the other. */
    method Lay(str: string, sourceLen: nat, spaceLen: nat, leftAdjust: bool, zeroPad: bool)
      requires Valid() && sourceLen <= |str| && tail + sourceLen + spaceLen < data.Length
      modifies this`tail, data
      ensures Valid() && Contents() == old(Contents()) + Laid(str, sourceLen, spaceLen, leftAdjust, zeroPad)
    {
      if leftAdjust {
        FillBehind(tail, str[..sourceLen], ' ', spaceLen);
      } else {
        FillThenCopy(tail, if zeroPad then '0' else ' ', spaceLen, str[..sourceLen]);
      }
      tail := tail + (sourceLen + spaceLen);
    }

    /** Writing what fits of an overlong layout. */
    method LayPart(str: string, source: nat, space: nat, leftAdjust: bool, zeroPad: bool)
      requires Valid() && source <= |str| && data.Length == sizeMax && tail + source + space >= data.Length
      modifies this`tail, data
      ensures Valid() && Contents() == old(After(Laid(str, source, space, leftAdjust, zeroPad)))
    {
      hide Put, Marked, Laid;
      ghost var c := Contents();
      var sourceLen, spaceLen := source, space;
      var appendLen := data.Length - 1 - tail;
      if leftAdjust {
        if sourceLen < appendLen {
          spaceLen := appendLen - sourceLen;
        } else {
          sourceLen, spaceLen := appendLen, 0;
        }
      } else {
        if spaceLen < appendLen {
          sourceLen := appendLen - spaceLen;
        } else {
          spaceLen, sourceLen := appendLen, 0;
        }
      }
      LaidCut(str, source, space, sourceLen, spaceLen, leftAdjust, zeroPad);
      Lay(str, sourceLen, spaceLen, leftAdjust, zeroPad);
      Seal(Laid(str, source, space, leftAdjust, zeroPad), c);
    }

    /** vsnprintf into the sizeLeft places from tail: what fits, then the closing zero. */
    method Vsnprintf(rendering: string, sizeLeft: nat)
      requires Valid() && tail + sizeLeft == data.Length
      modifies data
      ensures data[..] == old(data[..tail]) + (Fitting(rendering, sizeLeft) + ['\0']) +
        old(data[tail + |Fitting(rendering, sizeLeft)| + 1..])
    {
      Copy(tail, Fitting(rendering, sizeLeft) + ['\0']);
    }

    /** zlog_buf_vprintf; the rendering of the format and its arguments is None when vsnprintf fails. */
    method Vprintf(rendering: Option<string>, memory: bool) returns (rc: int)
      requires Valid() || Freed()
      modifies this, data
      ensures data == old(data) || fresh(data)
      ensures old(Freed()) ==> rc == -1 && Freed()
      ensures old(Valid()) && rendering.None? ==> rc == -1 && Valid() && Contents() == old(Contents())
      ensures old(Valid()) && rendering.Some? ==>
        (rc == -1 <==> old(Starved(rendering.value, memory))) && (rc == -1 ==> Freed())
      ensures old(Valid()) && rendering.Some? && rc != -1 ==>
        Valid() && Contents() == old(After(rendering.value)) && rc == if old(Overflows(rendering.value)) then 1 else 0
    {
      if data.Length == 0 { return -1; }
      if rendering.None? { return -1; }
      var x := rendering.value;
      var sizeLeft := data.Length - tail;
      Vsnprintf(x, sizeLeft);
      assert Contents() == old(Contents());
      if |x| < sizeLeft {
        tail := tail + |x|;
        return 0;
      }
      rc := VprintfMore(x, memory);
    }

    /** The second try, after a resize. */
    method VprintfMore(x: string, memory: bool) returns (rc: int)
      requires |x| >= data.Length - tail
      requires Valid()
      modifies this, data
      ensures data == old(data) || fresh(data)
      ensures rc == -1 <==> old(Starved(x, memory))
      ensures if rc == -1 then Freed() else Valid() && Contents() == old(After(x)) && rc == if old(Overflows(x)) then 1 else 0
    {
      ghost var c := Contents();
      rc := Resize(|x| - (data.Length - tail) + 1, memory);
      if rc < 0 { return -1; }
      var sizeLeft := data.Length - tail;
      Vsnprintf(x, sizeLeft);
      if rc > 0 {
        assert data[..sizeMax - 1] == c + x[..sizeLeft - 1];
        tail := tail + (sizeLeft - 1);
        Seal(x, c);
        return 1;
      }
      assert data[..tail + |x|] == c + x;
      tail := tail + |x|;
      return 0;
    }
  }

  /** A buffer of 8 bytes with a limit of 10: 8 bytes find no memory, and the 3 bytes appended next leave
      9 behind and are reported as too many. */
  method RevivedWithRubbish() returns (b: Buf, first: int, second: int)
    ensures fresh(b) && b.Valid() && b.sizeMax == 10 && first == -1 && second == 1
    ensures |b.Contents()| == 9 && !b.WrittenAlone("abc", second)
  {
    b := new Buf(8, 10, "");
    first := b.Append("12345678", false);
    second := b.Append("abc", true);
  }

  /** The digits in front of those already written, when m is what is left. */
  function Front(m: nat, base: Base): string {
    if m == 0 then "" else Digits(m, base)
  }

  lemma DigitsStep(m: nat, base: Base)
    ensures Digits(m, base) == Front(base.Div(m), base) + [DIGITS[base.Mod(m)]]
    ensures m != 0 ==> base.Div(m) < m && Front(m, base) == Front(base.Div(m), base) + [DIGITS[base.Mod(m)]]
    ensures Front(0, base) == "" && base.Mod(m) < 16
  {
  }

  lemma DigitTurn(front: string, c: char, done: string)
    ensures (front + [c]) + done == front + ([c] + done)
  {
  }

  function Laid(str: string, sourceLen: nat, spaceLen: nat, leftAdjust: bool, zeroPad: bool): (r: string)
    requires sourceLen <= |str|
    ensures |r| == sourceLen + spaceLen
  {
    if leftAdjust then str[..sourceLen] + Repeat(' ', spaceLen)
    else Repeat(if zeroPad then '0' else ' ', spaceLen) + str[..sourceLen]
  }

  lemma AdjustedIsLaid(str: string, leftAdjust: bool, zeroPad: bool, inWidth: nat, outWidth: nat, source: nat, space: nat)
    requires source == if outWidth == 0 || |str| < outWidth then |str| else outWidth
    requires space == if inWidth == 0 || source >= inWidth then 0 else inWidth - source
    ensures Adjusted(str, leftAdjust, zeroPad, inWidth, outWidth) == Laid(str, source, space, leftAdjust, zeroPad)
  {
    assert str[..|str|] == str;
  }

  /** The first so + sp bytes of a layout are the layout of its source cut to so and its space cut to sp. */
  lemma LaidCut(str: string, sourceLen: nat, spaceLen: nat, so: nat, sp: nat, leftAdjust: bool, zeroPad: bool)
    requires so <= sourceLen <= |str| && (leftAdjust || sp <= spaceLen)
    requires if leftAdjust then so < sourceLen ==> sp == 0 else sp < spaceLen ==> so == 0
    requires so + sp <= sourceLen + spaceLen
    ensures Laid(str, so, sp, leftAdjust, zeroPad) == Laid(str, sourceLen, spaceLen, leftAdjust, zeroPad)[..so + sp]
  {
  }

  /** A write that overflows leaves the mark on what fits. */
  lemma PutCut(c: string, x: string, copied: string, max: nat, t: string)
    requires 0 < max && |c| + |copied| == max - 1 && |copied| < |x|
    requires forall i :: 0 <= i < |copied| ==> copied[i] == x[i]
    ensures Put(c, x, max, t) == Marked(c + copied, t)
  {
    hide Marked;
    assert (c + x)[..max - 1] == c + copied;
  }

  lemma PutFits(c: string, x: string, max: nat, t: string)
    requires max == 0 || |c| + |x| < max
    ensures Put(c, x, max, t) == c + x
  {
  }

  /** What of x fits in n places with a closing zero. */
  function Fitting(x: string, n: nat): (r: string)
    requires n > 0
    ensures |r| < n
  {
    if |x| < n then x else x[..n - 1]
  }

  lemma Powers()
    ensures Power(Dec, 10) == 100_0000_0000
    ensures Power(Dec, 20) == 1_0000_0000_0000_0000_0000
    ensures Power(Hex, 8) == 0x1_0000_0000
  {
    assert Power(Dec, 5) == 10_0000 by { assert Power(Dec, 3) == 1000; }
    assert Power(Dec, 10) == 100_0000_0000 by { assert Power(Dec, 8) == 1_0000_0000 by { assert Power(Dec, 7) == 1000_0000; } }
    assert Power(Dec, 15) == 1000_0000_0000_0000 by { assert Power(Dec, 13) == 10_0000_0000_0000 by { assert Power(Dec, 12) == 1_0000_0000_0000; } }
    assert Power(Dec, 20) == 1_0000_0000_0000_0000_0000 by { assert Power(Dec, 18) == 100_0000_0000_0000_0000 by { assert Power(Dec, 17) == 10_0000_0000_0000_0000; } }
    assert Power(Hex, 4) == 0x1_0000 by { assert Power(Hex, 2) == 0x100; }
    assert Power(Hex, 8) == 0x1_0000_0000 by { assert Power(Hex, 6) == 0x100_0000; }
  }

  /** The digit buffers are large enough. */
  lemma NumbersFit(n: nat)
    ensures n <= MAX_UINT32 ==> |Digits(n, Dec)| < INT32_LEN && |Digits(n, Hex)| <= 8 < INT32_LEN
    ensures n <= MAX_UINT64 ==> |Digits(n, Dec)| <= INT64_LEN
  {
    Powers();
    if n <= MAX_UINT32 {
      DigitsFit(n, Dec, 10);
      DigitsFit(n, Hex, 8);
    } else if n <= MAX_UINT64 {
      DigitsFit(n, Dec, 20);
    }
  }
}
