/**
What a size-limited zlog buffer holds (buf.c): one clip of everything written, however it was cut up;
and the text of numbers and padded fields.
*/
module BufSpec {
  // ---- Clipping

  /** zlog_buf_truncate: the mark t over the last bytes of s, or its beginning when s is shorter. */
  function Marked(s: string, t: string): (r: string)
    ensures |r| == |s|
  {
    var p := if |t| <= |s| then |s| - |t| else 0;
    s[..p] + t[..|s| - p]
  }

  /** What is kept of text s: all of it, or its first max - 1 bytes ending in the mark. */
  function Clip(s: string, max: nat, t: string): string {
    if max == 0 || |s| < max then s else Marked(s[..max - 1], t)
  }

  /** One write of x onto contents c. */
  function Put(c: string, x: string, max: nat, t: string): string {
    Clip(c + x, max, t)
  }

  /** Marking what is already marked changes nothing. */
  lemma MarkedTwice(s: string, t: string)
    ensures Marked(Marked(s, t), t) == Marked(s, t)
  {
  }

  /** A write onto clipped text is a write onto the whole text. */
  lemma PutOnClip(s: string, x: string, max: nat, t: string)
    ensures Put(Clip(s, max, t), x, max, t) == Clip(s + x, max, t)
  {
    if max != 0 && |s| >= max {
      var m := s[..max - 1];
      assert (s + x)[..max - 1] == m;
      if x == "" {
        assert Marked(m, t) + x == Marked(m, t);
      } else {
        assert (Marked(m, t) + x)[..max - 1] == Marked(m, t);
        MarkedTwice(m, t);
      }
    }
  }

  function Concat(chunks: seq<string>): string {
    if chunks == [] then "" else Concat(chunks[..|chunks| - 1]) + chunks[|chunks| - 1]
  }

  /** The contents after writing the chunks one by one into an empty buffer. */
  function PutAll(chunks: seq<string>, max: nat, t: string): string {
    if chunks == [] then "" else Put(PutAll(chunks[..|chunks| - 1], max, t), chunks[|chunks| - 1], max, t)
  }

  /** Any sequence of writes leaves the clip of everything written. */
  lemma {:induction false} WritesClip(chunks: seq<string>, max: nat, t: string)
    ensures PutAll(chunks, max, t) == Clip(Concat(chunks), max, t)
  {
    if chunks == [] {
      if max == 1 { assert Marked("", t) == ""; }
    } else {
      var rest := chunks[..|chunks| - 1];
      WritesClip(rest, max, t);
      PutOnClip(Concat(rest), chunks[|chunks| - 1], max, t);
    }
  }

  /** How the text was cut into writes does not show. */
  lemma ChunkingIsInvisible(a: seq<string>, b: seq<string>, max: nat, t: string)
    requires Concat(a) == Concat(b)
    ensures PutAll(a, max, t) == PutAll(b, max, t)
  {
    WritesClip(a, max, t);
    WritesClip(b, max, t);
  }

  /** Every byte kept is the text's own, or belongs to the mark, which ends at the last byte. */
  lemma ClipAt(s: string, max: nat, t: string, i: nat)
    requires i < |Clip(s, max, t)|
    ensures |Clip(s, max, t)| == if max != 0 && |s| >= max then max - 1 else |s|
    ensures Clip(s, max, t)[i] ==
      if max == 0 || |s| < max || i + |t| < max - 1 then s[i]
      else if |t| <= max - 1 then t[i + |t| - (max - 1)]
      else t[i]
  {
  }

  // ---- Numbers

  const DIGITS := "0123456789abcdef"

  /** The two bases numbers are written in. */
  datatype Base = Dec | Hex {
    function Value(): nat { if Dec? then 10 else 16 }

    function Div(n: nat): (q: nat)
      ensures n >= Value() ==> 0 < q < n
    {
      if Dec? then n / 10 else n / 16
    }

    function Mod(n: nat): (m: nat)
      ensures m < Value() && n == Value() * Div(n) + m
    {
      if Dec? then n % 10 else n % 16
    }
  }

  function Digits(n: nat, base: Base): (r: string)
    ensures r != ""
  {
    if n < base.Value() then [DIGITS[n]] else Digits(base.Div(n), base) + [DIGITS[base.Mod(n)]]
  }

  /** The place of c among the digits. */
  function DigitValue(c: char): (r: nat)
    ensures r < 16
  {
    if '0' <= c <= '9' then (c as int) - ('0' as int)
    else if 'a' <= c <= 'f' then 10 + (c as int) - ('a' as int) else 0
  }

  lemma DigitValueOf(d: nat)
    requires d < 16
    ensures DigitValue(DIGITS[d]) == d && (d != 0 ==> DIGITS[d] != '0')
  {
  }

  /** The number a text of digits stands for. */
  function Value(s: string, base: Base): nat {
    if s == "" then 0 else base.Value() * Value(s[..|s| - 1], base) + DigitValue(s[|s| - 1])
  }

  /** The digits of n stand for n, without a leading zero unless n is zero. */
  lemma {:induction false} DigitsStandFor(n: nat, base: Base)
    ensures Value(Digits(n, base), base) == n
    ensures if n == 0 then Digits(n, base) == "0" else Digits(n, base)[0] != '0'
  {
    var s := Digits(n, base);
    if n < base.Value() {
      DigitValueOf(n);
      assert Value("", base) == 0 && s[..0] == "";
    } else {
      DigitsStandFor(base.Div(n), base);
      DigitValueOf(base.Mod(n));
      assert s[..|s| - 1] == Digits(base.Div(n), base);
    }
  }

  function Power(base: Base, k: nat): nat {
    if k == 0 then 1 else base.Value() * Power(base, k - 1)
  }

  /** A number below base to the k has at most k digits. */
  lemma {:induction false} DigitsFit(n: nat, base: Base, k: nat)
    requires n < Power(base, k) && k >= 1
    ensures |Digits(n, base)| <= k
    decreases k
  {
    if n >= base.Value() {
      assert Power(base, 0) == 1;
      assert n == base.Value() * base.Div(n) + base.Mod(n);
      assert base.Div(n) < Power(base, k - 1);
      DigitsFit(base.Div(n), base, k - 1);
    }
  }

  // ---- Fields

  function Repeat(c: char, n: nat): (r: string)
    ensures |r| == n
  {
    seq(n, _ => c)
  }

  /** A number in a field: zeroes in front up to width. */
  function ZeroPadded(s: string, width: nat): string {
    Repeat('0', if width > |s| then width - |s| else 0) + s
  }

  /** A string in a field: cut to outWidth, then filled up to inWidth (zero: no limit, no filling). */
  function Adjusted(s: string, leftAdjust: bool, zeroPad: bool, inWidth: nat, outWidth: nat): string {
    var source := if outWidth == 0 || |s| < outWidth then s else s[..outWidth];
    var space := if inWidth == 0 || |source| >= inWidth then 0 else inWidth - |source|;
    if leftAdjust then source + Repeat(' ', space)
    else Repeat(if zeroPad then '0' else ' ', space) + source
  }

  /** The digits come last; what is in front of them is zeroes, just enough to fill the field. */
  lemma ZeroPaddedAt(s: string, width: nat, i: nat)
    ensures |ZeroPadded(s, width)| == if width > |s| then width else |s|
    ensures i < |s| ==> ZeroPadded(s, width)[|ZeroPadded(s, width)| - |s| + i] == s[i]
    ensures i < |ZeroPadded(s, width)| - |s| ==> ZeroPadded(s, width)[i] == '0'
  {
  }

  /** Zeroes in front do not change a number. */
  lemma {:induction false} PaddedStandsFor(n: nat, base: Base, width: nat)
    ensures Value(ZeroPadded(Digits(n, base), width), base) == n
  {
    var s := Digits(n, base);
    DigitsStandFor(n, base);
    LeadingZeroes(s, if width > |s| then width - |s| else 0, base);
  }

  lemma {:induction false} LeadingZeroes(s: string, k: nat, base: Base)
    ensures Value(Repeat('0', k) + s, base) == Value(s, base)
    decreases |s| + k
  {
    var z := Repeat('0', k) + s;
    if s != "" {
      assert z[..|z| - 1] == Repeat('0', k) + s[..|s| - 1];
      LeadingZeroes(s[..|s| - 1], k, base);
    } else if k > 0 {
      assert z[..|z| - 1] == Repeat('0', k - 1) + s;
      LeadingZeroes(s, k - 1, base);
    }
  }

  /** How many bytes of a text of that length a field keeps. */
  function KeptOf(len: nat, outWidth: nat): nat {
    if outWidth != 0 && outWidth < len then outWidth else len
  }

  /** A field keeps the first bytes of its text, at its left or right edge, and the rest of it is blanks, or zeroes
      where the text is on the right. */
  lemma AdjustedAt(s: string, leftAdjust: bool, zeroPad: bool, inWidth: nat, outWidth: nat, i: nat)
    ensures var kept, r := KeptOf(|s|, outWidth), Adjusted(s, leftAdjust, zeroPad, inWidth, outWidth);
      && |r| == (if inWidth > kept then inWidth else kept)
      && (i < kept ==> r[if leftAdjust then i else |r| - kept + i] == s[i])
      && (i < |r| - kept ==> r[if leftAdjust then kept + i else i] == if zeroPad && !leftAdjust then '0' else ' ')
  {
  }
}
