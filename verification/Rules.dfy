/**
Which log levels a rule lets through (rule.c): the comparison made on output, and the 32-byte bitmap
that says the same ahead of time.
*/
module Rules {
  const BITMAP_SIZE := 32

  /** What follows the category in a rule: *, .level, =level or !level. */
  datatype Compare = Any | AtLeast | Equal | NotEqual

  /** level is -1 when its name is not in the level list. */
  datatype Rule = Rule(category: string, compare: Compare, level: int, bitmap: seq<bv8>)

  // ---- Arithmetic of C

  function Div8(n: int): int { if n >= 0 then n / 8 else -(-n / 8) }

  function Mod8(n: int): int { n - 8 * Div8(n) }

  /** The low byte of v shifted left by n. */
  function LowByte(v: bv32, n: nat): bv8
    requires n <= 9
  {
    ((v << n) & 0xff) as bv8
  }

  /** Bit j of a byte, counted from the left. */
  predicate BitAt(b: bv8, j: nat)
    requires j < 8
  {
    (b >> (7 - j)) & 1 != 0
  }

  /** The bit of a level in a bitmap, as zlog_category_needless_level reads it. */
  predicate Bit(bitmap: seq<bv8>, level: nat)
    requires level < 8 * |bitmap|
  {
    BitAt(bitmap[level / 8], level % 8)
  }

  // ---- Output

  /** zlog_rule_output's decision. */
  predicate Lets(r: Rule, level: int) {
    match r.compare
    case Any => true
    case AtLeast => level >= r.level
    case Equal => level == r.level
    case NotEqual => level != r.level
  }

  ghost predicate Valid(r: Rule) {
    |r.bitmap| == BITMAP_SIZE && forall level: nat :: level < 256 ==> (Bit(r.bitmap, level) <==> Lets(r, level))
  }

  // ---- The masks

  function OneBit(m: int): bv8
    requires -1 <= m < 8
  {
    LowByte(1, 7 - m)
  }

  function BitsFrom(m: int): bv8
    requires -1 <= m < 8
  {
    !LowByte(0xff, 8 - m)
  }

  /** Bit m alone, counted from the left; none for m = -1. */
  lemma OneBitAt(m: int, j: nat)
    requires -1 <= m < 8 && j < 8
    ensures BitAt(OneBit(m), j) <==> j == m
  {
    if m == -1 { assert OneBit(m) == 0x00; }
    else if m == 0 { assert OneBit(m) == 0x80; }
    else if m == 1 { assert OneBit(m) == 0x40; }
    else if m == 2 { assert OneBit(m) == 0x20; }
    else if m == 3 { assert OneBit(m) == 0x10; }
    else if m == 4 { assert OneBit(m) == 0x08; }
    else if m == 5 { assert OneBit(m) == 0x04; }
    else if m == 6 { assert OneBit(m) == 0x02; }
    else { assert OneBit(m) == 0x01; }
    hide OneBit;
    assert 0 <= j < 8;
  }

  /** All bits from m on; all of them for m = -1. */
  lemma BitsFromAt(m: int, j: nat)
    requires -1 <= m < 8 && j < 8
    ensures BitAt(BitsFrom(m), j) <==> j >= m
  {
    if m == -1 { assert BitsFrom(m) == 0xff; }
    else if m == 0 { assert BitsFrom(m) == 0xff; }
    else if m == 1 { assert BitsFrom(m) == 0x7f; }
    else if m == 2 { assert BitsFrom(m) == 0x3f; }
    else if m == 3 { assert BitsFrom(m) == 0x1f; }
    else if m == 4 { assert BitsFrom(m) == 0x0f; }
    else if m == 5 { assert BitsFrom(m) == 0x07; }
    else if m == 6 { assert BitsFrom(m) == 0x03; }
    else { assert BitsFrom(m) == 0x01; }
    hide BitsFrom;
    assert 0 <= j < 8;
  }

  lemma ByteOps(a: bv8, b: bv8, j: nat)
    requires j < 8
    ensures BitAt(a | b, j) <==> BitAt(a, j) || BitAt(b, j)
    ensures BitAt(a & !b, j) <==> BitAt(a, j) && !BitAt(b, j)
    ensures !BitAt(0x00, j) && BitAt(0xff, j)
  {
  }

  // ---- The bitmap

  /** Byte i of the bitmap for a comparison with a level. */
  function ByteFor(compare: Compare, level: int, i: nat): bv8
    requires -1 <= level < 256
  {
    var q, m := Div8(level), Mod8(level);
    match compare
    case Any => 0xff
    case Equal => if i == q then 0x00 | OneBit(m) else 0x00
    case NotEqual => if i == q then 0xff & !OneBit(m) else 0xff
    case AtLeast => if i < q then 0x00 else if i == q then 0x00 | BitsFrom(m) else 0xff
  }

  lemma ByteForMeans(r: Rule, lv: nat)
    requires -1 <= r.level < 256 && lv < 256
    ensures BitAt(ByteFor(r.compare, r.level, lv / 8), lv % 8) <==> Lets(r, lv)
  {
    var q, m, j := Div8(r.level), Mod8(r.level), lv % 8;
    OneBitAt(m, j);
    BitsFromAt(m, j);
    ByteOps(0x00, OneBit(m), j);
    ByteOps(0xff, OneBit(m), j);
    ByteOps(0x00, BitsFrom(m), j);
    hide BitAt, OneBit, BitsFrom;
  }

  /** The part of zlog_rule_new that sets the level bitmap: it holds exactly the levels the rule lets
      through, also when the level is unknown. */
  method SetLevelBitmap(bitmap: array<bv8>, compare: Compare, level: int)
    requires bitmap.Length == BITMAP_SIZE && -1 <= level < 256
    modifies bitmap
    ensures forall category :: Valid(Rule(category, compare, level, bitmap[..]))
  {
    var q, m := Div8(level), Mod8(level);
    match compare {
      case Equal =>
        Memset(bitmap, 0, BITMAP_SIZE, 0x00);
        bitmap[q] := bitmap[q] | OneBit(m);
      case NotEqual =>
        Memset(bitmap, 0, BITMAP_SIZE, 0xff);
        bitmap[q] := bitmap[q] & !OneBit(m);
      case Any =>
        Memset(bitmap, 0, BITMAP_SIZE, 0xff);
      case AtLeast =>
        Memset(bitmap, 0, BITMAP_SIZE, 0x00);
        bitmap[q] := bitmap[q] | BitsFrom(m);
        Memset(bitmap, q + 1, BITMAP_SIZE - q - 1, 0xff);
    }
    assert forall i :: 0 <= i < BITMAP_SIZE ==> bitmap[i] == ByteFor(compare, level, i);
    hide ByteFor, BitAt, OneBit, BitsFrom;
    forall category ensures Valid(Rule(category, compare, level, bitmap[..])) {
      BytesMean(Rule(category, compare, level, bitmap[..]));
    }
  }

  lemma BytesMean(r: Rule)
    requires -1 <= r.level < 256 && |r.bitmap| == BITMAP_SIZE
    requires forall i :: 0 <= i < BITMAP_SIZE ==> r.bitmap[i] == ByteFor(r.compare, r.level, i)
    ensures Valid(r)
  {
    hide ByteFor, BitAt, Lets;
    forall lv: nat | lv < 256 ensures Bit(r.bitmap, lv) <==> Lets(r, lv) {
      ByteForMeans(r, lv);
    }
  }

  method Memset(a: array<bv8>, at: nat, n: nat, b: bv8)
    requires at + n <= a.Length
    modifies a
    ensures forall i :: 0 <= i < a.Length ==> a[i] == if at <= i < at + n then b else old(a[i])
  {
    forall i | at <= i < at + n {
      a[i] := b;
    }
  }

  // ---- Categories

  /** strncmp answers 0: the first n characters agree, up to the end of the strings. */
  predicate SameFirst(a: string, b: string, n: nat) {
    n == 0 || (if a == "" || b == "" then a == b else a[0] == b[0] && SameFirst(a[1..], b[1..], n - 1))
  }

  lemma {:induction false} SameFirstMeans(a: string, b: string, n: nat)
    requires n <= |a|
    ensures SameFirst(a, b, n) <==> a[..n] <= b
  {
    if n > 0 && b != "" {
      SameFirstMeans(a[1..], b[1..], n - 1);
      assert a[..n] == [a[0]] + a[1..][..n - 1] && b == [b[0]] + b[1..];
    }
  }

  /** zlog_rule_is_wastebin. */
  predicate IsWastebin(r: Rule) { r.category == "!" }

  /** zlog_rule_match_category. */
  predicate MatchCategory(r: Rule, category: string)
    requires r.category != ""
  {
    var len := |r.category|;
    if r.category == "*" then true
    else if r.category == category then true
    else if r.category[len - 1] == '_' then SameFirst(r.category, category, if |category| == len - 1 then len - 1 else len)
    else false
  }

  /** A rule fits every category if it is *, its own category, and, when it ends in an underscore, the
      category without it and the categories that start with it. */
  lemma MatchMeans(r: Rule, category: string)
    requires r.category != ""
    ensures MatchCategory(r, category) <==>
      || r.category == "*"
      || r.category == category
      || (r.category[|r.category| - 1] == '_' && (r.category == category + "_" || r.category <= category))
  {
    var len := |r.category|;
    if r.category[len - 1] == '_' {
      SameFirstMeans(r.category, category, len);
      SameFirstMeans(r.category, category, len - 1);
      assert r.category == r.category[..len - 1] + "_";
      hide SameFirst;
      if |category| == len - 1 {
        assert r.category[..len - 1] <= category <==> r.category[..len - 1] == category;
      }
    }
  }
}
