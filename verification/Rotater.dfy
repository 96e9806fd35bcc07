/**
rotater.c on a modelled directory.  outcomes says what the next file operations will answer: any of
them may fail, and once outcomes is used up they fail only for want of the file.
*/
module Rotater {
  import opened ArrayList
  import opened Common
  import opened RotateSpec

  class Rotater<C> {
    const rolling: bool
    const maxCount: int
    var dir: map<Path, C>
    var outcomes: seq<bool>
    ghost var overwritten: seq<C>
    ghost var history: seq<C>
    ghost var kept: seq<C>
    ghost var gap: nat
    ghost var order: seq<Path>

    ghost function Here(): Disk<C>
      reads this
    {
      Disk(dir, outcomes, overwritten)
    }

    /** history lists the contents rotated out so far, and kept the latest of them that are still there.
        Rolling: archive k holds the (k+1)-th latest, but for one gap that a failed rotation may leave.
        Sequence: the indices grow with the time of rotation. */
    ghost predicate Valid()
      reads this
    {
      && Survivors(|history|, maxCount, rolling) <= |kept|
      && if rolling then Rolled(dir, kept, gap) && Latest(kept, history)
         else Sequenced(dir, order, kept) && Tail(kept, history)
    }

    constructor (rolling: bool, maxCount: int, outcomes: seq<bool>)
      ensures Valid() && history == [] && kept == [] && dir == map[]
      ensures this.rolling == rolling && this.maxCount == maxCount && this.outcomes == outcomes
    {
      this.rolling, this.maxCount, this.outcomes := rolling, maxCount, outcomes;
      dir, overwritten, history, kept, gap, order := map[], [], [], [], 0, [];
    }

    /** The log file is written. */
    method Write(c: C)
      requires Valid()
      modifies this`dir
      ensures Valid() && BaseOf(dir) == Some(c)
    {
      ghost var before := dir;
      dir := dir[Base := c];
      assert dir - {Base} == before - {Base};
      if rolling { RolledSame(before, dir, kept, gap); }
    }

    /** zlog_rotater_lsmv: one rotation.  Nothing is overwritten.  When it succeeds, the log file has
        become the latest archive and exactly as many old ones are kept as the limit allows; when it
        fails, the log file is still there and no archive within the limit is lost. */
    method Rotate(listing: seq<Path>) returns (ok: bool)
      requires Valid()
      requires forall i, j :: 0 <= i < j < |listing| ==> listing[i] != listing[j]
      requires forall p :: p in listing <==> p in dir
      modifies this
      ensures Valid() && overwritten == old(overwritten)
      ensures ok ==> BaseOf(old(dir)).Some? && BaseOf(dir) == None && history == old(history) + [BaseOf(old(dir)).value]
      ensures ok && rolling ==> |kept| == (if maxCount > 0 then Min(|history|, maxCount) else |history|) && gap == |kept|
      ensures ok && !rolling ==> |kept| == (if maxCount > 0 then Min(|history| - 1, maxCount) + 1 else |history|)
      ensures !ok ==> history == old(history) && BaseOf(dir) == BaseOf(old(dir))
      ensures !ok ==> |kept| >= if maxCount <= 0 then |history| else Min(|history|, if rolling then maxCount - 1 else maxCount)
      ensures old(outcomes) == [] ==> (ok <==> BaseOf(old(dir)).Some?)
    {
      hide Rolled, Sequenced, Lists, Slots, Latest, Tail;
      var files;
      ghost var s;
      files, s := AddArchiveFiles(listing);
      if rolling {
        RolledLists(dir, kept, gap);
        ListedOnce(s, Slots(|kept|, gap), dir);
        ok := RotateRolling(files);
      } else {
        SequencedLists(dir, order, kept);
        ListedOnce(s, order, dir);
        ok := RotateSequence(files);
      }
    }

    method RotateRolling(files: List<Path>) returns (ok: bool)
      requires Valid() && rolling && files.Valid() && files.Items() == Somes(Slots(|kept|, gap))
      modifies this
      ensures Valid() && overwritten == old(overwritten)
      ensures ok ==> BaseOf(old(dir)).Some? && BaseOf(dir) == None && history == old(history) + [BaseOf(old(dir)).value]
      ensures ok ==> |kept| == (if maxCount > 0 then Min(|history|, maxCount) else |history|) && gap == |kept|
      ensures !ok ==> history == old(history) && BaseOf(dir) == BaseOf(old(dir))
      ensures old(outcomes) == [] ==> (ok <==> BaseOf(old(dir)).Some?)
    {
      hide Rolled, Slots, Latest, RollAll, Somes, Lists;
      ghost var k, g, d := kept, gap, Here();
      LatestFits(kept, history);
      RolledLists(dir, kept, gap);
      kept, gap := RollAllRolled(d, k, g, maxCount);
      ok := RollFiles(files, Slots(|k|, g));
      if ok {
        LatestRolled(k, history, BaseOf(old(dir)).value, Limit(|k|, maxCount));
        history := history + [BaseOf(old(dir)).value];
      } else {
        LatestLess(k, history, kept);
      }
    }

    method RotateSequence(files: List<Path>) returns (ok: bool)
      requires Valid() && !rolling && files.Valid() && files.Items() == Somes(order)
      modifies this
      ensures Valid() && overwritten == old(overwritten)
      ensures ok ==> BaseOf(old(dir)).Some? && BaseOf(dir) == None && history == old(history) + [BaseOf(old(dir)).value]
      ensures ok ==> |kept| == (if maxCount > 0 then Min(|history| - 1, maxCount) + 1 else |history|)
      ensures !ok ==> history == old(history) && BaseOf(dir) == BaseOf(old(dir))
      ensures old(outcomes) == [] ==> (ok <==> BaseOf(old(dir)).Some?)
    {
      hide Sequenced, Tail, Somes, Rolled, Latest, DropsUpTo, Survivors, Excess;
      ghost var k, h := kept, history;
      ok := SeqFiles(files);
      if ok {
        SequenceGrows(k, h, BaseOf(old(dir)).value, maxCount);
        history := history + [BaseOf(old(dir)).value];
      } else {
        SequenceShrinks(k, h, kept, maxCount);
      }
    }

    /** unlink. */
    method Unlink(path: Path) returns (ok: bool)
      modifies this`dir, this`outcomes
      ensures (Here(), ok) == Unlinked(old(Here()), path)
    {
      ok := (outcomes == [] || outcomes[0]) && path in dir;
      outcomes := if outcomes == [] then [] else outcomes[1..];
      if ok {
        dir := dir - {path};
      }
    }

    /** rename. */
    method Rename(path: Path, newPath: Path) returns (ok: bool)
      modifies this`dir, this`outcomes, this`overwritten
      ensures (Here(), ok) == Renamed(old(Here()), path, newPath)
    {
      ok := (outcomes == [] || outcomes[0]) && path in dir;
      outcomes := if outcomes == [] then [] else outcomes[1..];
      if ok && path != newPath {
        overwritten := overwritten + if newPath in dir then [dir[newPath]] else [];
        dir := (dir - {path})[newPath := dir[path]];
      }
    }

    /** zlog_rotater_add_archive_files; listing is what glob found, in any order. */
    method AddArchiveFiles(listing: seq<Path>) returns (files: List<Path>, ghost s: seq<Path>)
      requires forall i, j :: 0 <= i < j < |listing| ==> listing[i] != listing[j]
      requires forall p :: p in listing <==> p in dir
      ensures fresh(files) && fresh(files.data) && files.Valid() && files.Items() == Somes(s) && Lists(s, dir)
    {
      hide Somes, Increasing, Inserted, SortedIn, Place;
      files := new List<Path>();
      s := [];
      NothingListed();
      var k := 0;
      while k < |listing|
        invariant k <= |listing| && fresh(files) && fresh(files.data)
        invariant files.Valid() && files.Items() == Somes(s) && Increasing(s)
        invariant forall p :: p in s <==> p in listing[..k] && p.Archive?
      {
        var p := listing[k];
        assert listing[..k + 1] == listing[..k] + [p];
        if p != Base {
          ghost var i := Place(s, Later, p);
          IncreasingInserted(s, i, p);
          SortedInSomes(s, Later, p);
          InsertedHas(s, i, p);
          files.SortAdd(OnSome(Later), Some(p));
          s := Inserted(s, i, p);
        }
        k := k + 1;
      }
      assert listing[..k] == listing;
    }

    lemma InsertedHas(s: seq<Path>, i: nat, p: Path)
      requires i <= |s|
      ensures Inserted(s, i, p) == s[..i] + [p] + s[i..] && forall q :: q in Inserted(s, i, p) <==> q in s || q == p
    {
      assert s == s[..i] + s[i..];
    }

    lemma NothingListed()
      ensures Somes<Path>([]) == [] && Increasing([])
    {
    }

    /** zlog_rotater_roll_files, for archives at any indices. */
    method RollFiles(files: List<Path>, ghost s: seq<Path>) returns (ok: bool)
      requires files.Valid() && files.Items() == Somes(s) && Lists(s, dir)
      modifies this`dir, this`outcomes, this`overwritten
      ensures (Here(), ok) == RollAll(old(Here()), s, maxCount)
      ensures var clash := exists i :: 0 <= i < Limit(|s|, maxCount) && Clash(s, i);
        && (!clash ==> overwritten == old(overwritten))
        && (old(outcomes) == [] ==> (overwritten != old(overwritten) <==> clash))
    {
      hide Somes, Lists, Renamed, Unlinked, Clash;
      RollingOverwritesIff(Here(), s, maxCount);
      FilesAre(files.Items(), s);
      var n: nat := files.len;
      while n > 0
        invariant n <= |s|
        invariant RollFrom(Here(), s, n, maxCount) == RollFrom(old(Here()), s, |s|, maxCount)
      {
        var i := n - 1;
        assert files.Items()[i] == files.data[i];
        var path := files.data[i].value;
        if maxCount > 0 && i >= maxCount - 1 {
          ok := Unlink(path);
        } else {
          ok := Rename(path, Archive(i + 1));
        }
        if !ok { return; }
        n := i;
      }
      ok := Rename(Base, Archive(0));
    }

    /** zlog_rotater_seq_files. */
    method SeqFiles(files: List<Path>) returns (ok: bool)
      requires files.Valid() && files.Items() == Somes(order) && Sequenced(dir, order, kept)
      modifies this`dir, this`outcomes, this`overwritten, this`kept, this`order
      ensures overwritten == old(overwritten) && Sequenced(dir, order, kept)
      ensures ok ==> BaseOf(old(dir)).Some? && BaseOf(dir) == None
      ensures ok ==> kept == old(kept)[Excess(|old(kept)|, maxCount)..] + [BaseOf(old(dir)).value]
      ensures ok ==> order == old(order)[Excess(|old(order)|, maxCount)..] + [Archive(NextIndex(old(order)))]
      ensures OneAbove(NextIndex(old(order)), old(order))
      ensures !ok ==> BaseOf(dir) == BaseOf(old(dir))
      ensures !ok ==> DropsUpTo(old(kept), kept, Excess(|old(kept)|, maxCount))
      ensures old(outcomes) == [] ==> (ok <==> BaseOf(old(dir)).Some?)
    {
      hide Sequenced, Somes, Increasing, Lists, NextIndex, OneAbove;
      ghost var order0, d := order, 0;
      SequencedLists(dir, order, kept);
      NextIndexIsOneAbove(order0);
      ok, d := UnlinkExcess(files);
      if !ok { return; }
      var j := NewIndex(files, order0);
      Above(order0, d);
      ok := RenameBase(j);
    }

    /** The index for the log file, from the list as it was before the unlinks. */
    method NewIndex(files: List<Path>, ghost s: seq<Path>) returns (j: nat)
      requires files.Valid() && files.Items() == Somes(s) && Increasing(s)
      ensures j == NextIndex(s)
    {
      FilesAre(files.Items(), s);
      var n := files.len;
      j := 0;
      if n > 0 {
        IndexAtLeast(s, n - 1);
        assert files.Items()[n - 1] == files.data[n - 1];
        j := Max(n - 1, Index(files.data[n - 1].value)) + 1;
      }
    }

    /** The loop that unlinks the oldest archives. */
    method UnlinkExcess(files: List<Path>) returns (ok: bool, ghost d: nat)
      requires files.Valid() && files.Items() == Somes(order) && Sequenced(dir, order, kept)
      modifies this`dir, this`outcomes, this`kept, this`order
      ensures Sequenced(dir, order, kept) && BaseOf(dir) == BaseOf(old(dir))
      ensures d <= Excess(|old(kept)|, maxCount) == Excess(|old(order)|, maxCount) && order == old(order)[d..] && kept == old(kept)[d..]
      ensures ok ==> d == Excess(|old(kept)|, maxCount)
      ensures old(outcomes) == [] ==> ok && outcomes == []
    {
      ghost var order0, kept0 := order, kept;
      var n := files.len;
      FilesAre(files.Items(), order0);
      SequencedLists(dir, order, kept);
      hide Sequenced, Somes, Lists;
      d := 0;
      ok := true;
      var i := 0;
      while i < n
        invariant i <= n && ok && d == Min(i, Excess(n, maxCount))
        invariant order == order0[d..] && kept == kept0[d..]
        invariant Sequenced(dir, order, kept) && BaseOf(dir) == BaseOf(old(dir))
        invariant old(outcomes) == [] ==> outcomes == []
      {
        if maxCount > 0 && i < n - maxCount {
          assert files.Items()[i] == files.data[i];
          ok := DropFirst(files.data[i].value);
          if !ok { return; }
          d := d + 1;
        }
        i := i + 1;
      }
    }

    /** The unlink of the first archive. */
    method DropFirst(path: Path) returns (ok: bool)
      requires Sequenced(dir, order, kept) && order != [] && path == order[0]
      modifies this`dir, this`outcomes, this`kept, this`order
      ensures Sequenced(dir, order, kept) && BaseOf(dir) == BaseOf(old(dir))
      ensures if ok then order == old(order)[1..] && kept == old(kept)[1..] else order == old(order) && kept == old(kept)
      ensures old(outcomes) == [] ==> ok && outcomes == []
    {
      SequencedLess(dir, order, kept);
      assert path.Archive? && path in dir && |order| == |kept|;
      hide Sequenced;
      ok := Unlink(path);
      if ok { order, kept := order[1..], kept[1..]; }
    }

    /** The rename of the log file to an index above all. */
    method RenameBase(j: nat) returns (ok: bool)
      requires Sequenced(dir, order, kept) && forall k :: 0 <= k < |order| ==> Index(order[k]) < j
      modifies this`dir, this`outcomes, this`overwritten, this`kept, this`order
      ensures overwritten == old(overwritten) && Sequenced(dir, order, kept)
      ensures ok ==> BaseOf(old(dir)).Some? && BaseOf(dir) == None && kept == old(kept) + [BaseOf(old(dir)).value]
      ensures ok ==> order == old(order) + [Archive(j)]
      ensures !ok ==> BaseOf(dir) == BaseOf(old(dir)) && kept == old(kept)
      ensures old(outcomes) == [] ==> (ok <==> BaseOf(old(dir)).Some?)
    {
      if Base in dir { SequencedMore(dir, order, kept, j); }
      hide Sequenced;
      ok := Rename(Base, Archive(j));
      if ok { order, kept := order + [Archive(j)], kept + [BaseOf(old(dir)).value]; }
    }
  }

  /** The new index is above every index in use. */
  lemma Above(s: seq<Path>, d: nat)
    requires Increasing(s) && d <= |s|
    ensures forall k :: 0 <= k < |s[d..]| ==> Index(s[d..][k]) < NextIndex(s)
  {
  }

  lemma SequencedLists<C>(dir: map<Path, C>, s: seq<Path>, kept: seq<C>)
    requires Sequenced(dir, s, kept)
    ensures Lists(s, dir) && Increasing(s) && |s| == |kept|
  {
  }

  lemma FilesAre(items: seq<Option<Path>>, s: seq<Path>)
    requires items == Somes(s)
    ensures |items| == |s| && forall k :: 0 <= k < |s| ==> items[k] == Some(s[k])
  {
  }

  lemma ListedOnce<C>(s: seq<Path>, t: seq<Path>, dir: map<Path, C>)
    requires Lists(s, dir) && Lists(t, dir)
    ensures s == t
  {
    ListIsUnique(s, t);
  }

  /** After a successful rolling rotation the archives are exactly 0 .. |kept| - 1, and archive k holds the
      (k+1)-th latest content rotated out. */
  lemma RollingMeans<C>(r: Rotater<C>, k: nat)
    requires r.Valid() && r.rolling && r.gap == |r.kept|
    ensures Archive(k) in r.dir <==> k < |r.kept|
    ensures Archive(k) in r.dir ==> k < |r.history| && r.dir[Archive(k)] == r.history[|r.history| - 1 - k]
  {
    assert k < |r.kept| ==> Pos(k, r.gap) == k;
  }

  /** In a sequence the order of the indices is the order of rotation. */
  lemma SequenceMeans<C>(r: Rotater<C>, i: nat, j: nat)
    requires r.Valid() && !r.rolling && i < j && Archive(i) in r.dir && Archive(j) in r.dir
    ensures exists a, b :: 0 <= a < b < |r.history| && r.history[a] == r.dir[Archive(i)] && r.history[b] == r.dir[Archive(j)]
  {
    var k :| 0 <= k < |r.order| && r.order[k] == Archive(i);
    var l :| 0 <= l < |r.order| && r.order[l] == Archive(j);
    var d := |r.history| - |r.kept|;
    assert r.history[d + k] == r.kept[k] && r.history[d + l] == r.kept[l];
  }

  lemma LatestFits<C>(kept: seq<C>, history: seq<C>)
    requires Latest(kept, history)
    ensures |kept| <= |history|
  {
  }

  lemma LatestLess<C>(kept: seq<C>, history: seq<C>, less: seq<C>)
    requires Latest(kept, history) && less <= kept
    ensures Latest(less, history)
  {
  }

  lemma LatestRolled<C>(kept: seq<C>, history: seq<C>, c: C, l: nat)
    requires Latest(kept, history) && l <= |kept|
    ensures Latest([c] + kept[..l], history + [c])
  {
  }

  lemma TailLess<C>(kept: seq<C>, history: seq<C>, d: nat)
    requires Tail(kept, history) && d <= |kept|
    ensures Tail(kept[d..], history)
  {
  }

  /** less is kept without some of its first `excess` elements. */
  ghost predicate DropsUpTo<C>(kept: seq<C>, less: seq<C>, excess: nat)
    requires excess <= |kept|
  {
    exists d :: 0 <= d <= excess && less == kept[d..]
  }

  lemma SequenceShrinks<C>(kept: seq<C>, history: seq<C>, less: seq<C>, maxCount: int)
    requires Tail(kept, history) && Survivors(|history|, maxCount, false) <= |kept|
    requires DropsUpTo(kept, less, Excess(|kept|, maxCount))
    ensures Tail(less, history) && Survivors(|history|, maxCount, false) <= |less|
  {
    var d :| 0 <= d <= Excess(|kept|, maxCount) && less == kept[d..];
    TailLess(kept, history, d);
  }

  lemma SequenceGrows<C>(kept: seq<C>, history: seq<C>, c: C, maxCount: int)
    requires Tail(kept, history) && Survivors(|history|, maxCount, false) <= |kept|
    ensures var k, h := kept[Excess(|kept|, maxCount)..] + [c], history + [c];
      && Tail(k, h) && Survivors(|h|, maxCount, false) <= |k|
      && |k| == if maxCount > 0 then Min(|h| - 1, maxCount) + 1 else |h|
  {
    TailMore(kept, history, c, Excess(|kept|, maxCount));
  }

  lemma TailMore<C>(kept: seq<C>, history: seq<C>, c: C, d: nat)
    requires Tail(kept, history) && d <= |kept|
    ensures Tail(kept[d..] + [c], history + [c])
  {
    TailLess(kept, history, d);
  }
}
