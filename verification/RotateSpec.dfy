/**
Archives of one log file in a modelled directory (rotater.c): what the two naming schemes say about
the order in which the archives were rotated out.
*/
module RotateSpec {
  import opened Common

  datatype Path = Base | Archive(index: nat)

  function Index(p: Path): nat { if p.Archive? then p.index else 0 }

  /** zlog_file_cmp. */
  function Later(a: Path, b: Path): bool { Index(a) > Index(b) }

  // ---- File operations

  /** The directory, what the next operations will answer, and the contents overwritten so far. */
  datatype Disk<C> = Disk(dir: map<Path, C>, outcomes: seq<bool>, overwritten: seq<C>)

  predicate Works<C>(d: Disk<C>, p: Path) { (d.outcomes == [] || d.outcomes[0]) && p in d.dir }

  function Rest(outcomes: seq<bool>): (rest: seq<bool>)
    ensures if outcomes == [] then rest == [] else outcomes == [outcomes[0]] + rest
  {
    if outcomes == [] then [] else outcomes[1..]
  }

  /** unlink. */
  function Unlinked<C>(d: Disk<C>, p: Path): (Disk<C>, bool) {
    (Disk(if Works(d, p) then d.dir - {p} else d.dir, Rest(d.outcomes), d.overwritten), Works(d, p))
  }

  /** rename, which overwrites what is there under the new name. */
  function Renamed<C>(d: Disk<C>, p: Path, q: Path): (Disk<C>, bool) {
    if Works(d, p) && p != q then
      (Disk((d.dir - {p})[q := d.dir[p]], Rest(d.outcomes), d.overwritten + if q in d.dir then [d.dir[q]] else []), true)
    else (Disk(d.dir, Rest(d.outcomes), d.overwritten), Works(d, p))
  }

  /** What is in the log file. */
  function BaseOf<C>(dir: map<Path, C>): Option<C> {
    if Base in dir then Some(dir[Base]) else None
  }

  // ---- Lists of archives

  ghost predicate Increasing(s: seq<Path>) {
    && (forall i :: 0 <= i < |s| ==> s[i].Archive?)
    && (forall i, j :: 0 <= i < j < |s| ==> Index(s[i]) < Index(s[j]))
  }

  /** The list of the archives in dir, in order of their index. */
  ghost predicate Lists<C>(s: seq<Path>, dir: map<Path, C>) {
    && Increasing(s)
    && (forall i :: 0 <= i < |s| ==> s[i] in dir)
    && (forall p :: p in dir && p.Archive? ==> p in s)
  }

  lemma HasMember(t: seq<Path>)
    ensures t != [] ==> exists p :: p in t
  {
    if t != [] { assert t[0] in t; }
  }

  /** There is only one such list. */
  lemma {:induction false} ListIsUnique(s: seq<Path>, t: seq<Path>)
    requires Increasing(s) && Increasing(t)
    requires (forall p :: p in s ==> p in t) && (forall p :: p in t ==> p in s)
    ensures s == t
    decreases |s|
  {
    hide Increasing, Index;
    if s == [] {
      HasMember(t);
    } else {
      var n, m := |s| - 1, |t| - 1;
      assert s[n] in t;
      LastIsSame(s, t);
      assert s == s[..n] + [s[n]] && t == t[..m] + [s[n]];
      MembersOfFront(s[..n], t[..m], s[n]);
      MembersOfFront(t[..m], s[..n], s[n]);
      IncreasingFront(s, n);
      IncreasingFront(t, m);
      ListIsUnique(s[..n], t[..m]);
    }
  }

  lemma LastIsLatest(s: seq<Path>, t: seq<Path>)
    requires Increasing(s) && Increasing(t) && s != [] && t != [] && forall p :: p in s ==> p in t
    ensures Index(s[|s| - 1]) <= Index(t[|t| - 1])
  {
    assert s[|s| - 1] in t;
  }

  lemma LastIsSame(s: seq<Path>, t: seq<Path>)
    requires Increasing(s) && Increasing(t) && s != [] && t != []
    requires (forall p :: p in s ==> p in t) && (forall p :: p in t ==> p in s)
    ensures s[|s| - 1] == t[|t| - 1]
  {
    LastIsLatest(s, t);
    LastIsLatest(t, s);
  }

  lemma IncreasingFront(s: seq<Path>, n: nat)
    requires Increasing(s) && n <= |s|
    ensures Increasing(s[..n])
  {
  }

  lemma MembersOfFront(s: seq<Path>, t: seq<Path>, last: Path)
    requires Increasing(s + [last]) && Increasing(t + [last])
    requires forall p :: p in s + [last] ==> p in t + [last]
    ensures forall p :: p in s ==> p in t
  {
    forall p | p in s ensures p in t {
      var i :| 0 <= i < |s| && s[i] == p;
      assert (s + [last])[i] == p && (s + [last])[|s|] == last;
      assert p in t + [last] && p != last;
    }
  }

  /** Inserting a new archive at its place keeps the list in order. */
  lemma IncreasingInserted(s: seq<Path>, i: nat, p: Path)
    requires Increasing(s) && i <= |s| && p.Archive? && p !in s
    requires (forall j :: 0 <= j < i ==> !Later(s[j], p)) && (i < |s| ==> Later(s[i], p))
    ensures Increasing(s[..i] + [p] + s[i..])
  {
    var r := s[..i] + [p] + s[i..];
    forall j | 0 <= j < i ensures Index(s[j]) < Index(p) {
      assert s[j] in s;
    }
    forall j | i <= j < |s| ensures Index(s[j]) > Index(p) {
      if j > i { assert Index(s[i]) < Index(s[j]); }
    }
  }

  // ---- Rolling: archive k is the k-th, but for one gap

  /** The index of the archive at position k when the indices leave out gap. */
  function Slot(k: nat, gap: nat): nat { if k < gap then k else k + 1 }

  function Pos(i: nat, gap: nat): nat
    requires i != gap
  {
    if i < gap then i else i - 1
  }

  /** The archives are kept, the latest first, at the indices 0, 1, ... with gap left out. */
  ghost predicate Rolled<C>(dir: map<Path, C>, kept: seq<C>, gap: nat) {
    && (forall i: nat :: Archive(i) in dir <==> i != gap && Pos(i, gap) < |kept|)
    && (forall i: nat :: Archive(i) in dir ==> dir[Archive(i)] == kept[Pos(i, gap)])
  }

  function Slots(n: nat, gap: nat): (r: seq<Path>)
    ensures |r| == n && forall k :: 0 <= k < n ==> r[k] == Archive(Slot(k, gap))
  {
    seq(n, k requires 0 <= k < n => Archive(Slot(k, gap)))
  }

  lemma RolledLists<C>(dir: map<Path, C>, kept: seq<C>, gap: nat)
    requires Rolled(dir, kept, gap)
    ensures Lists(Slots(|kept|, gap), dir)
  {
    var s := Slots(|kept|, gap);
    forall k | 0 <= k < |s| ensures s[k] in dir {
      assert Pos(Slot(k, gap), gap) == k;
    }
    forall p | p in dir && p.Archive? ensures p in s {
      assert s[Pos(p.index, gap)] == p;
    }
  }

  /** A gap behind the last archive is no gap. */
  lemma NoGap<C>(dir: map<Path, C>, kept: seq<C>, gap: nat, other: nat)
    requires Rolled(dir, kept, gap) && gap >= |kept| && other >= |kept|
    ensures Rolled(dir, kept, other)
  {
    forall i: nat ensures Archive(i) in dir <==> i != other && Pos(i, other) < |kept| {
      if i != gap && i != other { assert Archive(i) in dir <==> Pos(i, gap) < |kept|; }
    }
  }

  /** Removing the oldest archive. */
  lemma RolledLess<C>(dir: map<Path, C>, kept: seq<C>, gap: nat)
    requires Rolled(dir, kept, gap) && kept != []
    ensures Rolled(dir - {Archive(Slot(|kept| - 1, gap))}, kept[..|kept| - 1], gap)
  {
  }

  /** Renaming archive i to i + 1 when that is the gap: nothing is overwritten, and the gap moves down. */
  lemma RolledUp<C>(dir: map<Path, C>, kept: seq<C>, i: nat)
    requires Rolled(dir, kept, i + 1) && i < |kept|
    ensures Archive(i) in dir && Archive(i + 1) !in dir
    ensures Rolled((dir - {Archive(i)})[Archive(i + 1) := dir[Archive(i)]], kept, i)
  {
    assert Pos(i, i + 1) == i;
    var after := (dir - {Archive(i)})[Archive(i + 1) := dir[Archive(i)]];
    forall l: nat ensures Archive(l) in after <==> l != i && Pos(l, i) < |kept| {
      if l != i && l != i + 1 { assert Pos(l, i) == Pos(l, i + 1); }
    }
  }

  /** Renaming the base into a gap at the front. */
  lemma RolledIn<C>(dir: map<Path, C>, kept: seq<C>)
    requires Rolled(dir, kept, 0) && Base in dir
    ensures Archive(0) !in dir
    ensures var k := [dir[Base]] + kept; Rolled((dir - {Base})[Archive(0) := dir[Base]], k, |k|)
  {
  }

  lemma RolledSame<C>(dir: map<Path, C>, after: map<Path, C>, kept: seq<C>, gap: nat)
    requires Rolled(dir, kept, gap) && after - {Base} == dir - {Base}
    ensures Rolled(after, kept, gap)
  {
    assert forall i: nat :: Archive(i) in after <==> Archive(i) in after - {Base};
    assert forall i: nat :: Archive(i) in dir <==> Archive(i) in dir - {Base};
  }

  /** How many of n archives survive whatever fails. */
  function Survivors(n: nat, maxCount: int, rolling: bool): nat {
    if maxCount <= 0 then n else Min(n, if rolling then maxCount - 1 else maxCount)
  }

  /** How many of n archives are too many for a sequence. */
  function Excess(n: nat, maxCount: int): (d: nat)
    ensures d <= n
  {
    if maxCount > 0 && n > maxCount then n - maxCount else 0
  }

  // ---- The rolling rotation

  /** How many of n archives a rolling rotation renames; the others it unlinks. */
  function Limit(n: nat, maxCount: int): (l: nat)
    ensures l <= n
  {
    if maxCount > 0 && n > maxCount - 1 then maxCount - 1 else n
  }

  /** The name that position i of the list is given. */
  function NewName(i: nat): Path { Archive(i + 1) }

  /** The loop over the first n archives of the list, from the last. */
  function RollFrom<C>(d: Disk<C>, s: seq<Path>, n: nat, maxCount: int): (Disk<C>, bool)
    requires n <= |s|
    decreases n
  {
    if n == 0 then (d, true) else
      var r := if maxCount > 0 && n - 1 >= maxCount - 1 then Unlinked(d, s[n - 1]) else Renamed(d, s[n - 1], NewName(n - 1));
      if r.1 then RollFrom(r.0, s, n - 1, maxCount) else r
  }

  /** The loop, then the rename of the log file. */
  function RollAll<C>(d: Disk<C>, s: seq<Path>, maxCount: int): (Disk<C>, bool) {
    var r := RollFrom(d, s, |s|, maxCount);
    if r.1 then Renamed(r.0, Base, Archive(0)) else r
  }

  // ---- Rolling archives that leave out one index

  lemma SlotMin(i: nat, gap: nat)
    ensures Slot(i, gap) == Slot(i, Min(gap, i + 1))
  {
  }

  lemma RolledHas<C>(dir: map<Path, C>, kept: seq<C>, gap: nat, k: nat)
    requires Rolled(dir, kept, gap) && k < |kept|
    ensures Archive(Slot(k, gap)) in dir
  {
    assert Pos(Slot(k, gap), gap) == k;
  }

  /** The unlink of the last archive. */
  lemma UnlinkedRolled<C>(d: Disk<C>, kept: seq<C>, gap: nat)
    requires Rolled(d.dir, kept, gap) && kept != [] && gap <= |kept|
    ensures var r, less := Unlinked(d, Archive(Slot(|kept| - 1, gap))), kept[..|kept| - 1];
      && (r.1 ==> Rolled(r.0.dir, less, Min(gap, |less|))) && (!r.1 ==> r.0.dir == d.dir)
      && BaseOf(r.0.dir) == BaseOf(d.dir) && r.0.overwritten == d.overwritten
      && (d.outcomes == [] ==> r.1 && r.0.outcomes == [])
  {
    RolledHas(d.dir, kept, gap, |kept| - 1);
    RolledLess(d.dir, kept, gap);
    hide Rolled, Slot;
    var r, less := Unlinked(d, Archive(Slot(|kept| - 1, gap))), kept[..|kept| - 1];
    if r.1 && gap > |less| { NoGap(r.0.dir, less, gap, |less|); }
  }

  /** The rename of archive i. */
  lemma RenamedRolled<C>(d: Disk<C>, kept: seq<C>, gap: nat, i: nat)
    requires Rolled(d.dir, kept, gap) && i < |kept| && gap <= i + 1
    ensures var r := Renamed(d, Archive(Slot(i, gap)), NewName(i));
      && (r.1 ==> Rolled(r.0.dir, kept, Min(gap, i))) && (!r.1 ==> r.0.dir == d.dir)
      && BaseOf(r.0.dir) == BaseOf(d.dir) && r.0.overwritten == d.overwritten
      && (d.outcomes == [] ==> r.1 && r.0.outcomes == [])
  {
    RolledHas(d.dir, kept, gap, i);
    if gap == i + 1 { RolledUp(d.dir, kept, i); }
    hide Rolled;
  }

  /** What is left when the loop over the first n archives ends, one way or the other. */
  lemma {:induction false} RollFromRolled<C>(d: Disk<C>, kept0: seq<C>, gap0: nat, n: nat, maxCount: int)
    returns (kept: seq<C>, gap: nat)
    requires n <= |kept0| && Rolled(d.dir, kept0[..Max(n, Limit(|kept0|, maxCount))], Min(gap0, n))
    ensures var r := RollFrom(d, Slots(|kept0|, gap0), n, maxCount);
      && Rolled(r.0.dir, kept, gap) && BaseOf(r.0.dir) == BaseOf(d.dir) && r.0.overwritten == d.overwritten
      && kept <= kept0 && |kept| >= Limit(|kept0|, maxCount)
      && (r.1 ==> gap == 0 && |kept| == Limit(|kept0|, maxCount))
      && (d.outcomes == [] ==> r.1 && r.0.outcomes == [])
    decreases n
  {
    hide Rolled, Slot, Unlinked, Renamed, BaseOf, Slots;
    var s, l := Slots(|kept0|, gap0), Limit(|kept0|, maxCount);
    kept, gap := kept0[..Max(n, l)], Min(gap0, n);
    if n > 0 {
      var i := n - 1;
      SlotMin(i, gap0);
      assert s[i] == Archive(Slot(i, gap));
      var r;
      if maxCount > 0 && i >= maxCount - 1 {
        UnlinkedRolled(d, kept, gap);
        r := Unlinked(d, s[i]);
        assert kept[..|kept| - 1] == kept0[..Max(i, l)];
      } else {
        RenamedRolled(d, kept, gap, i);
        r := Renamed(d, s[i], NewName(i));
      }
      if r.1 {
        kept, gap := RollFromRolled(r.0, kept0, gap0, i, maxCount);
      }
    }
  }

  /** A rolling rotation of archives that leave out at most one index.  However it ends, nothing was
      overwritten, and only archives beyond the limit are gone. */
  lemma RollAllRolled<C>(d: Disk<C>, kept0: seq<C>, gap0: nat, maxCount: int) returns (kept: seq<C>, gap: nat)
    requires Rolled(d.dir, kept0, gap0)
    ensures var r := RollAll(d, Slots(|kept0|, gap0), maxCount);
      && Rolled(r.0.dir, kept, gap) && r.0.overwritten == d.overwritten
      && (r.1 ==> BaseOf(d.dir).Some? && BaseOf(r.0.dir) == None && gap == |kept|)
      && (r.1 ==> kept == [BaseOf(d.dir).value] + kept0[..Limit(|kept0|, maxCount)])
      && (!r.1 ==> BaseOf(r.0.dir) == BaseOf(d.dir) && kept <= kept0 && |kept| >= Limit(|kept0|, maxCount))
      && (d.outcomes == [] ==> (r.1 <==> BaseOf(d.dir).Some?))
  {
    hide Rolled, RollFrom, Slots;
    if gap0 > |kept0| { NoGap(d.dir, kept0, gap0, |kept0|); }
    assert kept0[..|kept0|] == kept0;
    kept, gap := RollFromRolled(d, kept0, gap0, |kept0|, maxCount);
    var r := RollFrom(d, Slots(|kept0|, gap0), |kept0|, maxCount);
    if r.1 && Works(r.0, Base) {
      RolledIn(r.0.dir, kept);
      kept := [r.0.dir[Base]] + kept;
      gap := |kept|;
    }
  }

  // ---- Rolling archives at any indices

  /** An archive of smaller index, still to be renamed, has the name that position i is given. */
  predicate Clash(s: seq<Path>, i: nat)
    requires i < |s|
  {
    exists k :: 0 <= k < i && s[k] == NewName(i)
  }

  /** With n archives still to be treated, they are there, and what else is there has been given its
      new name. */
  ghost predicate Within<C>(dir: map<Path, C>, s: seq<Path>, n: nat, l: nat)
    requires n <= |s|
  {
    && (forall k :: 0 <= k < n ==> s[k] in dir)
    && (forall p :: p in dir && p.Archive? ==> p in s[..n] || n < p.index <= l)
  }

  lemma UnlinkedWithin<C>(d: Disk<C>, s: seq<Path>, i: nat, l: nat)
    requires Increasing(s) && i < |s| && l <= i && Within(d.dir, s, i + 1, l)
    ensures var r := Unlinked(d, s[i]);
      && r.0.overwritten == d.overwritten && (r.1 ==> Within(r.0.dir, s, i, l))
      && (d.outcomes == [] ==> r.1 && r.0.outcomes == [])
  {
    assert s[..i + 1] == s[..i] + [s[i]];
  }

  lemma RenamedWithin<C>(d: Disk<C>, s: seq<Path>, i: nat, l: nat)
    requires Increasing(s) && i < |s| && i < l && Within(d.dir, s, i + 1, l)
    ensures var r := Renamed(d, s[i], NewName(i));
      r.1 ==> Within(r.0.dir, s, i, l)
  {
    assert s[..i + 1] == s[..i] + [s[i]];
  }

  /** A rename overwrites exactly when it clashes. */
  lemma RenamedClash<C>(d: Disk<C>, s: seq<Path>, i: nat, l: nat)
    requires Increasing(s) && i < |s| && i < l && Within(d.dir, s, i + 1, l)
    ensures var r := Renamed(d, s[i], NewName(i));
      && d.overwritten <= r.0.overwritten
      && (!Clash(s, i) ==> r.0.overwritten == d.overwritten)
      && (r.1 && Clash(s, i) ==> |r.0.overwritten| > |d.overwritten|)
      && (d.outcomes == [] ==> r.1 && r.0.outcomes == [])
  {
    assert s[..i + 1] == s[..i] + [s[i]];
    if NewName(i) in d.dir && s[i] != NewName(i) {
      assert NewName(i) in s[..i];
      var k :| 0 <= k < i && s[..i][k] == NewName(i);
      assert s[k] == NewName(i);
    }
    if Clash(s, i) {
      var k :| 0 <= k < i && s[k] == NewName(i);
      assert s[k] in d.dir && Index(s[k]) < Index(s[i]);
    }
  }

  lemma {:induction false} RollFromOverwrites<C>(d: Disk<C>, s: seq<Path>, n: nat, maxCount: int)
    requires Increasing(s) && n <= |s| && Within(d.dir, s, n, Limit(|s|, maxCount))
    ensures var r, l := RollFrom(d, s, n, maxCount), Limit(|s|, maxCount);
      && d.overwritten <= r.0.overwritten
      && (r.1 ==> Within(r.0.dir, s, 0, l))
      && (d.outcomes == [] ==> r.1 && r.0.outcomes == [])
      && ((forall i :: 0 <= i < n && i < l ==> !Clash(s, i)) ==> r.0.overwritten == d.overwritten)
      && (r.1 && (exists i :: 0 <= i < n && i < l && Clash(s, i)) ==> |r.0.overwritten| > |d.overwritten|)
    decreases n
  {
    hide Increasing, Within, Unlinked, Renamed, Clash;
    if n > 0 {
      var i, l := n - 1, Limit(|s|, maxCount);
      var r;
      if maxCount > 0 && i >= maxCount - 1 {
        UnlinkedWithin(d, s, i, l);
        r := Unlinked(d, s[i]);
      } else {
        RenamedWithin(d, s, i, l);
        RenamedClash(d, s, i, l);
        r := Renamed(d, s[i], NewName(i));
      }
      if r.1 { RollFromOverwrites(r.0, s, i, maxCount); }
    }
  }

  /** Over archives at any indices: a rolling rotation whose operations work overwrites an archive if and
      only if one of those it renames has the name that one behind it in the list is given; without
      such a pair it never does, whatever fails. */
  lemma RollingOverwritesIff<C>(d: Disk<C>, s: seq<Path>, maxCount: int)
    requires Lists(s, d.dir)
    ensures var r, l := RollAll(d, s, maxCount), Limit(|s|, maxCount);
      && (d.outcomes == [] ==> (r.0.overwritten != d.overwritten <==> exists i :: 0 <= i < l && Clash(s, i)))
      && ((forall i :: 0 <= i < l ==> !Clash(s, i)) ==> r.0.overwritten == d.overwritten)
  {
    var l := Limit(|s|, maxCount);
    assert s[..|s|] == s;
    assert Within(d.dir, s, |s|, l);
    RollFromOverwrites(d, s, |s|, maxCount);
    hide RollFrom, Clash, Increasing;
  }

  lemma OneGapIsSafe(n: nat, gap: nat, i: nat)
    requires i < n
    ensures !Clash(Slots(n, gap), i)
  {
  }

  function TwoGaps<C>(log: C, two: C, five: C): Disk<C> {
    Disk(map[Base := log, Archive(2) := two, Archive(5) := five], [], [])
  }

  /** Archives 2 and 5: without a limit the second is renamed over the first. */
  lemma TwoGapsOverwrite<C>(log: C, two: C, five: C)
    ensures RollAll(TwoGaps(log, two, five), [Archive(2), Archive(5)], 0).0.overwritten == [two]
  {
    var d, s := TwoGaps(log, two, five), [Archive(2), Archive(5)];
    var d1 := Renamed(d, s[1], NewName(1));
    assert d1.0.dir == map[Base := log, Archive(2) := five] && d1.0.overwritten == [two];
    var d2 := Renamed(d1.0, s[0], NewName(0));
    assert d2.0.dir == map[Base := log, Archive(1) := five] && d2.0.overwritten == [two];
    hide Renamed;
    assert RollFrom(d, s, 2, 0) == RollFrom(d1.0, s, 1, 0) == RollFrom(d2.0, s, 0, 0);
    assert RollAll(d, s, 0) == Renamed(d2.0, Base, Archive(0));
    LogOverwritesNothing(d2.0);
  }

  /** With a limit of two the second is unlinked, and nothing is overwritten. */
  lemma TwoGapsLimited<C>(log: C, two: C, five: C)
    ensures RollAll(TwoGaps(log, two, five), [Archive(2), Archive(5)], 2).0.overwritten == []
  {
    var d, s := TwoGaps(log, two, five), [Archive(2), Archive(5)];
    var d1 := Unlinked(d, s[1]);
    assert d1.0.dir == map[Base := log, Archive(2) := two] && d1.0.overwritten == [];
    var d2 := Renamed(d1.0, s[0], NewName(0));
    assert d2.0.dir == map[Base := log, Archive(1) := two] && d2.0.overwritten == [];
    hide Renamed, Unlinked;
    assert RollFrom(d, s, 2, 2) == RollFrom(d1.0, s, 1, 2) == RollFrom(d2.0, s, 0, 2);
    assert RollAll(d, s, 2) == Renamed(d2.0, Base, Archive(0));
    LogOverwritesNothing(d2.0);
  }

  lemma LogOverwritesNothing<C>(d: Disk<C>)
    requires Archive(0) !in d.dir
    ensures Renamed(d, Base, Archive(0)).0.overwritten == d.overwritten
  {
  }

  /** kept are the latest of history, the latest first. */
  ghost predicate Latest<C>(kept: seq<C>, history: seq<C>) {
    |kept| <= |history| && forall k :: 0 <= k < |kept| ==> kept[k] == history[|history| - 1 - k]
  }

  // ---- Sequence: indices in the order of rotation

  /** The archives at the indices of s hold kept, the oldest first. */
  ghost predicate Sequenced<C>(dir: map<Path, C>, s: seq<Path>, kept: seq<C>) {
    && |s| == |kept| && Lists(s, dir)
    && forall k :: 0 <= k < |s| ==> dir[s[k]] == kept[k]
  }

  lemma SequencedLess<C>(dir: map<Path, C>, s: seq<Path>, kept: seq<C>)
    requires Sequenced(dir, s, kept) && s != []
    ensures Sequenced(dir - {s[0]}, s[1..], kept[1..])
  {
    assert s == [s[0]] + s[1..];
    forall p | p in dir - {s[0]} && p.Archive? ensures p in s[1..] {
      assert p in s;
    }
  }

  /** An index above every other is free, and comes last. */
  lemma SequencedMore<C>(dir: map<Path, C>, s: seq<Path>, kept: seq<C>, j: nat)
    requires Sequenced(dir, s, kept) && Base in dir
    requires forall k :: 0 <= k < |s| ==> Index(s[k]) < j
    ensures Archive(j) !in dir
    ensures Sequenced((dir - {Base})[Archive(j) := dir[Base]], s + [Archive(j)], kept + [dir[Base]])
  {
    assert Archive(j) !in s;
    var after := (dir - {Base})[Archive(j) := dir[Base]];
    forall p | p in after && p.Archive? ensures p in s + [Archive(j)] {
      if p != Archive(j) { assert p in dir; }
    }
  }

  /** The last index is at least the number of archives before it. */
  lemma {:induction false} IndexAtLeast(s: seq<Path>, k: nat)
    requires Increasing(s) && k < |s|
    ensures Index(s[k]) >= k
  {
    if k > 0 { IndexAtLeast(s, k - 1); }
  }

  /** The index behind the last one. */
  function NextIndex(s: seq<Path>): nat { if s == [] then 0 else Index(s[|s| - 1]) + 1 }

  /** j is one more than the greatest index, or 0 when there is none. */
  ghost predicate OneAbove(j: nat, s: seq<Path>) {
    && (forall k :: 0 <= k < |s| ==> Index(s[k]) < j)
    && (if s == [] then j == 0 else exists k :: 0 <= k < |s| && Index(s[k]) + 1 == j)
  }

  lemma NextIndexIsOneAbove(s: seq<Path>)
    requires Increasing(s)
    ensures OneAbove(NextIndex(s), s)
  {
    if s != [] { assert Index(s[|s| - 1]) + 1 == NextIndex(s); }
  }

  /** kept are the latest of history, in order. */
  ghost predicate Tail<C>(kept: seq<C>, history: seq<C>) {
    |kept| <= |history| && kept == history[|history| - |kept|..]
  }
}
