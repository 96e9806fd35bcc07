/**
Categories and their fitted rules (category.c): the level bitmap of a category, and replacing its rules
with a way back.
*/
module Categories {
  import opened Common
  import opened Rules
  import ArrayList

  const MAXLEN_PATH := 1024

  // ---- Which rules a category uses

  predicate Formed(r: Rule) { |r.bitmap| == BITMAP_SIZE && r.category != "" }

  ghost predicate RulesOk(rules: seq<Rule>) {
    forall i :: 0 <= i < |rules| ==> Valid(rules[i]) && Formed(rules[i])
  }

  function Matching(rules: seq<Rule>, name: string): (fit: seq<Rule>)
    requires forall i :: 0 <= i < |rules| ==> rules[i].category != ""
    ensures forall i :: 0 <= i < |fit| ==> fit[i] in rules
  {
    if rules == [] then [] else
      var n := |rules| - 1;
      Matching(rules[..n], name) + if MatchCategory(rules[n], name) then [rules[n]] else []
  }

  /** The last wastebin rule, if there is one. */
  function Wastebin(rules: seq<Rule>): (fit: seq<Rule>)
    ensures |fit| <= 1 && forall i :: 0 <= i < |fit| ==> fit[i] in rules
  {
    if rules == [] then []
    else if IsWastebin(rules[|rules| - 1]) then [rules[|rules| - 1]]
    else Wastebin(rules[..|rules| - 1])
  }

  ghost predicate LastWastebin(rules: seq<Rule>, i: nat)
    requires i < |rules|
  {
    rules[i].category == "!" && forall j :: i < j < |rules| ==> rules[j].category != "!"
  }

  /** The rules that match, or the wastebin when nothing matches. */
  function Fit(rules: seq<Rule>, name: string): (fit: seq<Rule>)
    requires forall i :: 0 <= i < |rules| ==> rules[i].category != ""
    ensures forall i :: 0 <= i < |fit| ==> fit[i] in rules
  {
    var m := Matching(rules, name);
    if m != [] then m else Wastebin(rules)
  }

  /** A rule fits exactly when it matches, or nothing matches and it is the last wastebin. */
  lemma {:induction false} MatchingMeans(rules: seq<Rule>, name: string, r: Rule)
    requires forall i :: 0 <= i < |rules| ==> rules[i].category != ""
    ensures r in Matching(rules, name) <==> r in rules && MatchCategory(r, name)
  {
    if rules != [] {
      var n := |rules| - 1;
      MatchingMeans(rules[..n], name, r);
      assert rules == rules[..n] + [rules[n]];
    }
  }

  /** Of the rules that match, each is there once, in order: `places` are the places of just those. */
  lemma {:induction false} MatchingAt(rules: seq<Rule>, name: string) returns (places: seq<nat>)
    requires forall i :: 0 <= i < |rules| ==> rules[i].category != ""
    ensures PickedAt(rules, places, Matching(rules, name))
    ensures forall i :: 0 <= i < |rules| ==> (i in places <==> MatchCategory(rules[i], name))
  {
    hide MatchCategory;
    if rules == [] { return []; }
    var n := |rules| - 1;
    places := MatchingAt(rules[..n], name);
    PickedAtMore(rules, places, Matching(rules[..n], name));
    hide PickedAt;
    if MatchCategory(rules[n], name) { places := places + [n]; }
  }

  // ---- The bitmap over several rules

  function Zeros(): (r: seq<bv8>)
    ensures |r| == BITMAP_SIZE
  {
    seq(BITMAP_SIZE, _ => 0)
  }

  function OrBytes(a: seq<bv8>, b: seq<bv8>): (r: seq<bv8>)
    requires |a| == |b|
    ensures |r| == |a| && forall i :: 0 <= i < |r| ==> r[i] == a[i] | b[i]
  {
    seq(|a|, i requires 0 <= i < |a| => a[i] | b[i])
  }

  function Overlapped(rules: seq<Rule>): (r: seq<bv8>)
    requires forall i :: 0 <= i < |rules| ==> |rules[i].bitmap| == BITMAP_SIZE
    ensures |r| == BITMAP_SIZE
  {
    if rules == [] then Zeros() else OrBytes(Overlapped(rules[..|rules| - 1]), rules[|rules| - 1].bitmap)
  }

  /** The rules that let the level through, in order. */
  function Letting(rules: seq<Rule>, lv: int): seq<Rule> {
    if rules == [] then [] else
      var n := |rules| - 1;
      Letting(rules[..n], lv) + if Lets(rules[n], lv) then [rules[n]] else []
  }

  /** Something is output exactly when some rule lets the level through. */
  lemma {:induction false} LettingMeans(rules: seq<Rule>, lv: int)
    ensures Letting(rules, lv) != [] <==> SomeLets(rules, lv)
    ensures forall r :: r in Letting(rules, lv) <==> r in rules && Lets(r, lv)
  {
    hide Lets;
    if rules != [] {
      var n := |rules| - 1;
      LettingMeans(rules[..n], lv);
      SomeLetsMore(rules[..n], rules[n], lv);
      assert rules == rules[..n] + [rules[n]];
    }
  }

  /** Each rule that lets the level through is there once, in order. */
  lemma {:induction false} LettingAt(rules: seq<Rule>, lv: int) returns (places: seq<nat>)
    ensures PickedAt(rules, places, Letting(rules, lv))
    ensures forall i :: 0 <= i < |rules| ==> (i in places <==> Lets(rules[i], lv))
  {
    hide Lets;
    if rules == [] { return []; }
    var n := |rules| - 1;
    places := LettingAt(rules[..n], lv);
    PickedAtMore(rules, places, Letting(rules[..n], lv));
    hide PickedAt;
    if Lets(rules[n], lv) { places := places + [n]; }
  }

  predicate SomeLets(rules: seq<Rule>, lv: int) {
    exists i :: 0 <= i < |rules| && Lets(rules[i], lv)
  }

  lemma SomeLetsMore(rules: seq<Rule>, r: Rule, lv: int)
    ensures SomeLets(rules + [r], lv) <==> SomeLets(rules, lv) || Lets(r, lv)
  {
    var more := rules + [r];
    hide Lets;
    if Lets(r, lv) { assert more[|rules|] == r; }
    if i :| 0 <= i < |rules| && Lets(rules[i], lv) { assert more[i] == rules[i]; }
  }

  lemma OrBytesBit(a: seq<bv8>, b: seq<bv8>, lv: nat)
    requires |a| == |b| == BITMAP_SIZE && lv < 256
    ensures Bit(OrBytes(a, b), lv) <==> Bit(a, lv) || Bit(b, lv)
  {
    ByteOps(a[lv / 8], b[lv / 8], lv % 8);
  }

  /** A level is in the overlapped bitmap exactly when some of the rules lets it through. */
  lemma {:induction false} OverlappedMeans(rules: seq<Rule>, lv: nat)
    requires RulesOk(rules) && lv < 256
    ensures Bit(Overlapped(rules), lv) <==> SomeLets(rules, lv)
  {
    if rules == [] {
      ByteOps(0, 0, lv % 8);
    } else {
      var n := |rules| - 1;
      OverlappedMeans(rules[..n], lv);
      OrBytesBit(Overlapped(rules[..n]), rules[n].bitmap, lv);
      SomeLetsMore(rules[..n], rules[n], lv);
      assert rules == rules[..n] + [rules[n]];
      hide Bit, Lets, SomeLets;
    }
  }

  // ---- Categories

  /** What a category holds. */
  datatype Held = Held(fitRules: Option<seq<Rule>>, bitmap: seq<bv8>, backup: Option<seq<Rule>>, bitmapBackup: seq<bv8>)

  /** A category as zlog_category_new makes it from the rules. */
  ghost function Fresh(rules: seq<Rule>, name: string): Held
    requires RulesOk(rules)
  {
    FitOk(rules, name);
    Held(Some(Fit(rules, name)), Overlapped(Fit(rules, name)), None, Zeros())
  }

  /** What a list of n rules allocates: itself, its array, and the array again whenever it is full. */
  function Allocations(n: nat): nat {
    2 + ArrayList.Growths(n, ArrayList.DEFAULT_SIZE)
  }

  /** The allocations that work are enough for the list of fitted rules. */
  predicate Enough(denied: Option<nat>, rules: seq<Rule>, name: string)
    requires forall i :: 0 <= i < |rules| ==> rules[i].category != ""
  {
    denied.None? || denied.value >= Allocations(|Fit(rules, name)|)
  }

  /** What is left of the allocations that work after the first one. */
  function AfterOne(denied: Option<nat>): Option<nat>
    requires denied != Some(0)
  {
    if denied.None? then None else Some(denied.value - 1)
  }

  lemma FitOk(rules: seq<Rule>, name: string)
    requires RulesOk(rules)
    ensures RulesOk(Fit(rules, name))
  {
    hide Valid, Fit;
    var fit := Fit(rules, name);
    forall i | 0 <= i < |fit| ensures Valid(fit[i]) && Formed(fit[i]) {
      assert fit[i] in rules;
    }
  }

  class Category {
    const name: string
    const levelBitmap: array<bv8>
    const levelBitmapBackup: array<bv8>
    var fitRules: Option<seq<Rule>>
    var fitRulesBackup: Option<seq<Rule>>

    ghost predicate Shaped() {
      levelBitmap.Length == levelBitmapBackup.Length == BITMAP_SIZE && levelBitmap != levelBitmapBackup
    }

    ghost function Bitmaps(): set<object> { {levelBitmap, levelBitmapBackup} }

    ghost function Holds(): Held
      reads this, levelBitmap, levelBitmapBackup
    {
      Held(fitRules, levelBitmap[..], fitRulesBackup, levelBitmapBackup[..])
    }

    /** The bitmap has the levels at which something would be output. */
    ghost predicate Cached()
      reads this, levelBitmap
    {
      && fitRules.Some? && levelBitmap.Length == BITMAP_SIZE
      && forall lv: nat :: lv < 256 ==> (Bit(levelBitmap[..], lv) <==> Letting(fitRules.value, lv) != [])
    }

    /** zlog_cateogry_overlap_bitmap. */
    method OverlapBitmap(r: Rule)
      requires Shaped() && |r.bitmap| == BITMAP_SIZE
      modifies levelBitmap
      ensures levelBitmap[..] == OrBytes(old(levelBitmap[..]), r.bitmap)
    {
      var i := 0;
      while i < BITMAP_SIZE
        invariant i <= BITMAP_SIZE
        invariant forall j :: 0 <= j < BITMAP_SIZE ==>
          levelBitmap[j] == if j < i then old(levelBitmap[j]) | r.bitmap[j] else old(levelBitmap[j])
      {
        levelBitmap[i] := levelBitmap[i] | r.bitmap[i];
        i := i + 1;
      }
    }

    /** zlog_category_obtain_rules; denied is the number of allocations that work before one fails, if one
        does. */
    method ObtainRules(rules: seq<Rule>, denied: Option<nat>) returns (ok: bool)
      requires Shaped() && RulesOk(rules)
      modifies this`fitRules, levelBitmap
      ensures ok ==> fitRules == Fresh(rules, name).fitRules && levelBitmap[..] == Fresh(rules, name).bitmap
      ensures !ok ==> fitRules == None
      ensures ok <==> Enough(denied, rules, name)
    {
      hide Valid, MatchCategory, Zeros, OrBytes, Overlapped, Matching, Wastebin, IsWastebin;
      ClearBitmap();
      fitRules := None;
      if denied == Some(0) || denied == Some(1) { return false; }
      var fit: seq<Rule>, wastebin: seq<Rule>, size, used := [], [], ArrayList.DEFAULT_SIZE, 2;
      FitNothing(rules, name);
      var i := 0;
      while i < |rules|
        invariant i <= |rules| && fit == Matching(rules[..i], name) && wastebin == Wastebin(rules[..i])
        invariant levelBitmap[..] == Overlapped(fit) && (denied.Some? ==> denied.value >= used)
        invariant size == ArrayList.Grown(|fit|, ArrayList.DEFAULT_SIZE) && used == Allocations(|fit|)
      {
        FitOneMore(rules, name, i);
        if MatchCategory(rules[i], name) {
          ArrayList.OneMore(|fit|, ArrayList.DEFAULT_SIZE);
          if |fit| > size - 1 {
            if denied == Some(used) {
              MatchingGrows(rules, name, i + 1);
              ArrayList.GrowthsGrow(|fit| + 1, |Fit(rules, name)|, ArrayList.DEFAULT_SIZE);
              fitRules := None;
              return false;
            }
            size, used := ArrayList.SizeFor(size, |fit|), used + 1;
          }
          fit := fit + [rules[i]];
          OverlapBitmap(rules[i]);
        }
        if IsWastebin(rules[i]) {
          wastebin := [rules[i]];
        }
        i := i + 1;
      }
      assert rules[..i] == rules;
      if fit == [] && wastebin != [] {
        // The first element never makes the array grow.
        fit := wastebin;
        WastebinAlone(rules);
        OverlapBitmap(wastebin[0]);
      }
      fitRules := Some(fit);
      return true;
    }

    constructor Blank(name: string)
      ensures Shaped() && this.name == name && fresh(levelBitmap) && fresh(levelBitmapBackup)
      ensures fitRulesBackup == None && levelBitmapBackup[..] == Zeros()
    {
      this.name := name;
      levelBitmap := new bv8[BITMAP_SIZE](_ => 0);
      levelBitmapBackup := new bv8[BITMAP_SIZE](_ => 0);
      fitRules, fitRulesBackup := None, None;
    }

    /** zlog_category_new. */
    static method New(name: string, rules: seq<Rule>, denied: Option<nat>) returns (c: Category?)
      requires RulesOk(rules)
      ensures c != null ==> fresh(c) && c.Shaped() && c.name == name && c.Holds() == Fresh(rules, name)
      ensures c != null <==> |name| <= MAXLEN_PATH && (denied.None? || denied.value >= 1 + Allocations(|Fit(rules, name)|))
    {
      hide Fresh, Zeros, Fit;
      FreshParts(rules, name);
      if |name| > MAXLEN_PATH { return null; }
      if denied == Some(0) { return null; }
      c := new Category.Blank(name);
      var ok := c.ObtainRules(rules, AfterOne(denied));
      if !ok { return null; }
    }

    /** zlog_category_update_rules. */
    method UpdateRules(rules: seq<Rule>, denied: Option<nat>) returns (ok: bool)
      requires Shaped() && RulesOk(rules)
      modifies this, levelBitmap, levelBitmapBackup
      ensures fitRulesBackup == old(fitRules) && levelBitmapBackup[..] == old(levelBitmap[..])
      ensures ok ==> fitRules == Fresh(rules, name).fitRules && levelBitmap[..] == Fresh(rules, name).bitmap
      ensures !ok ==> fitRules == None
      ensures ok <==> Enough(denied, rules, name)
    {
      hide Fresh;
      fitRulesBackup := fitRules;
      fitRules := None;
      Memcpy(levelBitmapBackup, levelBitmap);
      ok := ObtainRules(rules, denied);
    }

    /** zlog_category_commit_rules. */
    method CommitRules()
      requires Shaped()
      modifies this`fitRulesBackup, levelBitmapBackup
      ensures if old(fitRulesBackup) == None then Holds() == old(Holds())
              else Holds() == old(Holds()).(backup := None, bitmapBackup := Zeros())
    {
      if fitRulesBackup == None { return; }
      fitRulesBackup := None;
      Memset(levelBitmapBackup, 0, BITMAP_SIZE, 0);
    }

    /** zlog_category_rollback_rules. */
    method RollbackRules()
      requires Shaped()
      modifies this, levelBitmap, levelBitmapBackup
      ensures Holds() == if old(fitRulesBackup) == None then old(Holds())
        else Held(old(fitRulesBackup), old(levelBitmapBackup[..]), None, Zeros())
    {
      if fitRulesBackup == None { return; }
      fitRules := fitRulesBackup;
      fitRulesBackup := None;
      Memcpy(levelBitmap, levelBitmapBackup);
      Memset(levelBitmapBackup, 0, BITMAP_SIZE, 0);
    }

    /** zlog_category_needless_level. */
    method NeedlessLevel(lv: nat) returns (needless: bool)
      requires Shaped() && lv < 256
      ensures Cached() ==> (needless <==> Letting(fitRules.value, lv) == [])
      ensures needless <==> !Bit(levelBitmap[..], lv)
    {
      needless := !BitAt(levelBitmap[lv / 8], lv % 8);
    }

    /** zlog_category_output: the rules that really output an event of level lv, in order. */
    method Output(lv: int) returns (out: seq<Rule>)
      requires fitRules.Some?
      ensures out == Letting(fitRules.value, lv)
    {
      hide Lets;
      out := [];
      var i := 0;
      while i < |fitRules.value|
        invariant i <= |fitRules.value| && out == Letting(fitRules.value[..i], lv)
      {
        var r := fitRules.value[i];
        assert fitRules.value[..i + 1][..i] == fitRules.value[..i];
        if Lets(r, lv) { out := out + [r]; }
        i := i + 1;
      }
      assert fitRules.value[..i] == fitRules.value;
    }

    /** memset of the level bitmap. */
    method ClearBitmap()
      requires Shaped()
      modifies levelBitmap
      ensures levelBitmap[..] == Zeros()
    {
      Memset(levelBitmap, 0, BITMAP_SIZE, 0);
    }
  }

  method Memcpy(to: array<bv8>, from: array<bv8>)
    requires to.Length == from.Length && to != from
    modifies to
    ensures to[..] == from[..]
  {
    forall i | 0 <= i < to.Length {
      to[i] := from[i];
    }
  }

  lemma FreshParts(rules: seq<Rule>, name: string)
    requires RulesOk(rules)
    ensures Fresh(rules, name).backup == None && Fresh(rules, name).bitmapBackup == Zeros()
  {
  }

  /** The bitmap of a category freshly made, or committed, from rules says that a level is needed exactly
      when one of its rules would output at that level. */
  lemma NeededMeans(rules: seq<Rule>, name: string, lv: nat)
    requires RulesOk(rules) && lv < 256
    ensures Bit(Fresh(rules, name).bitmap, lv) <==> SomeLets(Fit(rules, name), lv)
  {
    FitOk(rules, name);
    OverlappedMeans(Fit(rules, name), lv);
  }

  /** The bitmap of a category made or committed from rules is a cache of its output: zlog skips a level
      exactly when none of the fitted rules would output it. */
  lemma BitmapIsCache(c: Category, rules: seq<Rule>)
    requires RulesOk(rules) && c.Holds().fitRules == Fresh(rules, c.name).fitRules
    requires c.Holds().bitmap == Fresh(rules, c.name).bitmap
    ensures c.Cached()
  {
    forall lv: nat | lv < 256 ensures Bit(c.levelBitmap[..], lv) <==> Letting(c.fitRules.value, lv) != [] {
      NeededMeans(rules, c.name, lv);
      LettingMeans(Fit(rules, c.name), lv);
    }
  }

  /** The rules a category outputs through are those that match it or, when none matches, the last
      wastebin. */
  lemma {:induction false} FitMeans(rules: seq<Rule>, name: string, r: Rule)
    requires RulesOk(rules)
    ensures (exists m :: m in rules && MatchCategory(m, name)) ==>
      (r in Fit(rules, name) <==> r in rules && MatchCategory(r, name))
    ensures (forall m :: m in rules ==> !MatchCategory(m, name)) ==>
      (r in Fit(rules, name) <==>
        exists i :: 0 <= i < |rules| && LastWastebin(rules, i) && rules[i] == r)
  {
    hide MatchCategory, IsWastebin, Matching, Wastebin;
    MatchingMeans(rules, name, r);
    WastebinMeans(rules, r);
    if m :| m in rules && MatchCategory(m, name) {
      MatchingMeans(rules, name, m);
    } else if Matching(rules, name) != [] {
      MatchingMeans(rules, name, Matching(rules, name)[0]);
    }
  }

  lemma {:induction false} WastebinMeans(rules: seq<Rule>, r: Rule)
    ensures r in Wastebin(rules) <==>
      exists i :: 0 <= i < |rules| && LastWastebin(rules, i) && rules[i] == r
  {
    if rules != [] {
      var n := |rules| - 1;
      if IsWastebin(rules[n]) {
        assert LastWastebin(rules, n);
      } else {
        WastebinMeans(rules[..n], r);
        assert forall i :: 0 <= i < n ==> (LastWastebin(rules, i) <==> LastWastebin(rules[..n], i));
      }
    }
  }

  lemma FitNothing(rules: seq<Rule>, name: string)
    ensures rules[..0] == [] && Matching([], name) == [] && Wastebin([]) == [] && Overlapped([]) == Zeros()
  {
  }

  lemma FitOneMore(rules: seq<Rule>, name: string, i: nat)
    requires RulesOk(rules) && i < |rules|
    ensures RulesOk(Matching(rules[..i], name)) && RulesOk(rules[..i + 1])
    ensures var m := Matching(rules[..i], name);
      && Matching(rules[..i + 1], name) == (if MatchCategory(rules[i], name) then m + [rules[i]] else m)
      && Overlapped(m + [rules[i]]) == OrBytes(Overlapped(m), rules[i].bitmap)
    ensures Wastebin(rules[..i + 1]) == if IsWastebin(rules[i]) then [rules[i]] else Wastebin(rules[..i])
  {
    hide Valid, MatchCategory, IsWastebin, Overlapped, OrBytes;
    assert rules[..i + 1][..i] == rules[..i];
    var m := Matching(rules[..i], name);
    forall k | 0 <= k < |m| ensures Valid(m[k]) && Formed(m[k]) { assert m[k] in rules; }
    OverlappedOneMore(m, rules[i]);
    hide Matching;
  }

  lemma OverlappedOneMore(rules: seq<Rule>, r: Rule)
    requires |r.bitmap| == BITMAP_SIZE && forall i :: 0 <= i < |rules| ==> |rules[i].bitmap| == BITMAP_SIZE
    ensures Overlapped(rules + [r]) == OrBytes(Overlapped(rules), r.bitmap)
  {
    assert (rules + [r])[..|rules|] == rules;
    hide OrBytes;
  }

  lemma {:induction false} MatchingGrows(rules: seq<Rule>, name: string, i: nat)
    requires RulesOk(rules) && i <= |rules|
    ensures |Matching(rules[..i], name)| <= |Matching(rules, name)|
  {
    hide Valid, MatchCategory;
    if i < |rules| {
      var n := |rules| - 1;
      MatchingGrows(rules[..n], name, i);
      assert rules[..n][..i] == rules[..i];
    } else {
      assert rules[..i] == rules;
    }
  }

  lemma WastebinAlone(rules: seq<Rule>)
    requires RulesOk(rules) && Wastebin(rules) != []
    ensures RulesOk(Wastebin(rules)) && Overlapped(Wastebin(rules)) == OrBytes(Zeros(), Wastebin(rules)[0].bitmap)
  {
    hide Valid, IsWastebin;
    var w := Wastebin(rules);
    assert w[0] in rules && w[..0] == [];
  }
}
