/**
Reloading the rules of every category (category_table.c), as zlog_reload uses it.  The table is the
sequence of its categories in the order of the foreach loop.
*/
module CategoryTable {
  import opened Common
  import opened Rules
  import opened Categories

  /** The categories are different objects with bitmaps of their own. */
  ghost predicate Separate(cats: seq<Category>) {
    && (forall i :: 0 <= i < |cats| ==> cats[i].Shaped())
    && (forall i, j :: 0 <= i < j < |cats| ==> cats[i] != cats[j] && cats[i].Bitmaps() !! cats[j].Bitmaps())
  }

  /** Nothing is waiting to be committed. */
  ghost predicate Settled(h: Held) {
    h.fitRules.Some? && h.backup == None && h.bitmapBackup == Zeros()
  }

  ghost function All(cats: seq<Category>): (all: set<object>)
    ensures forall i :: 0 <= i < |cats| ==>
      cats[i] in all && cats[i].levelBitmap in all && cats[i].levelBitmapBackup in all
  {
    if cats == [] then {} else
      var c := cats[|cats| - 1];
      All(cats[..|cats| - 1]) + {c, c.levelBitmap, c.levelBitmapBackup}
  }

  /** What the categories hold, in order. */
  ghost function AllHold(cats: seq<Category>): (hs: seq<Held>)
    reads All(cats)
    ensures |hs| == |cats| && forall i :: 0 <= i < |cats| ==> hs[i] == cats[i].Holds()
  {
    seq(|cats|, i requires 0 <= i < |cats| reads All(cats) =>
      cats[i].Holds())
  }

  /** An update that worked: the new rules, with the old ones as backup. */
  ghost predicate Updated(was: Held, now: Held, made: Held) {
    now == Held(made.fitRules, made.bitmap, was.fitRules, was.bitmap)
  }

  /** An update that failed: no rules, with the old ones as backup. */
  ghost predicate Failed(was: Held, now: Held) {
    now.fitRules == None && now.backup == was.fitRules && now.bitmapBackup == was.bitmap
  }

  /** How an update leaves a category: updated in front of the one at done, untouched behind it. */
  ghost predicate LeftBy(was: Held, now: Held, made: Held, i: nat, done: nat) {
    if i < done then Updated(was, now, made) else if i == done then Failed(was, now) else now == was
  }

  /** No category wants for an allocation. */
  ghost predicate AllEnough(cats: seq<Category>, rules: seq<Rule>, denied: seq<Option<nat>>)
    requires |denied| == |cats| && forall i :: 0 <= i < |rules| ==> rules[i].category != ""
  {
    forall i :: 0 <= i < |cats| ==> Enough(denied[i], rules, cats[i].name)
  }

  /** zlog_category_table_update_rules; denied says for each category in turn whether an allocation fails.
      It stops at the first failure, done. */
  method UpdateRules(cats: seq<Category>, rules: seq<Rule>, denied: seq<Option<nat>>) returns (ok: bool, ghost done: nat)
    requires Separate(cats) && RulesOk(rules) && |denied| == |cats|
    modifies All(cats)
    ensures if ok then done == |cats| else done < |cats|
    ensures ok <==> AllEnough(cats, rules, denied)
    ensures forall i :: 0 <= i < |cats| ==>
      LeftBy(old(AllHold(cats))[i], cats[i].Holds(), Fresh(rules, cats[i].name), i, done)
  {
    hide Fresh, Enough;
    ghost var was := AllHold(cats);
    var i := 0;
    while i < |cats|
      invariant i <= |cats|
      invariant forall j :: 0 <= j < i ==> Updated(was[j], cats[j].Holds(), Fresh(rules, cats[j].name))
      invariant forall j :: 0 <= j < i ==> Enough(denied[j], rules, cats[j].name)
      invariant forall j :: i <= j < |cats| ==> cats[j].Holds() == was[j]
    {
      ok := cats[i].UpdateRules(rules, denied[i]);
      if !ok { return false, i; }
      i := i + 1;
    }
    return true, |cats|;
  }

  /** zlog_category_table_commit_rules. */
  method CommitRules(cats: seq<Category>)
    requires Separate(cats)
    modifies All(cats)
    ensures forall i :: 0 <= i < |cats| ==> cats[i].Holds() == Committed(old(AllHold(cats))[i])
  {
    ghost var was := AllHold(cats);
    var i := 0;
    while i < |cats|
      invariant i <= |cats|
      invariant forall j :: 0 <= j < |cats| ==> cats[j].Holds() == if j < i then Committed(was[j]) else was[j]
    {
      cats[i].CommitRules();
      i := i + 1;
    }
  }

  /** zlog_category_table_rollback_rules. */
  method RollbackRules(cats: seq<Category>)
    requires Separate(cats)
    modifies All(cats)
    ensures forall i :: 0 <= i < |cats| ==> cats[i].Holds() == RolledBack(old(AllHold(cats))[i])
  {
    ghost var was := AllHold(cats);
    var i := 0;
    while i < |cats|
      invariant i <= |cats|
      invariant forall j :: 0 <= j < |cats| ==> cats[j].Holds() == if j < i then RolledBack(was[j]) else was[j]
    {
      cats[i].RollbackRules();
      i := i + 1;
    }
  }

  function Committed(h: Held): Held {
    if h.backup == None then h else h.(backup := None, bitmapBackup := Zeros())
  }

  function RolledBack(h: Held): Held {
    if h.backup == None then h else Held(h.backup, h.bitmapBackup, None, Zeros())
  }

  /** However far an update came, rolling it back gives what was there. */
  lemma RollbackRestores(was: Held, now: Held, made: Held, i: nat, done: nat)
    requires Settled(was) && LeftBy(was, now, made, i, done)
    ensures RolledBack(now) == was
  {
  }

  /** Committing an update gives what would be made afresh from the new rules. */
  lemma CommitIsFresh(was: Held, now: Held, rules: seq<Rule>, name: string, i: nat, done: nat)
    requires RulesOk(rules) && Settled(was) && i < done && LeftBy(was, now, Fresh(rules, name), i, done)
    ensures Committed(now) == Fresh(rules, name) && Settled(Committed(now))
  {
    FreshParts(rules, name);
  }

  /** A reload as a transaction: an update, then a commit if it worked and a rollback if it did not. */
  method Transaction(cats: seq<Category>, rules: seq<Rule>, denied: seq<Option<nat>>) returns (ok: bool)
    requires Separate(cats) && RulesOk(rules) && |denied| == |cats|
    requires forall i :: 0 <= i < |cats| ==> Settled(cats[i].Holds())
    modifies All(cats)
    ensures ok ==> forall i :: 0 <= i < |cats| ==> cats[i].Holds() == Fresh(rules, cats[i].name)
    ensures !ok ==> AllHold(cats) == old(AllHold(cats))
    ensures forall i :: 0 <= i < |cats| ==> Settled(cats[i].Holds())
    ensures ok <==> AllEnough(cats, rules, denied)
  {
    hide Fresh, LeftBy, Settled, Enough;
    ghost var was, done := AllHold(cats), 0;
    ok, done := UpdateRules(cats, rules, denied);
    ghost var now := AllHold(cats);
    if ok {
      forall i | 0 <= i < |cats| ensures Committed(now[i]) == Fresh(rules, cats[i].name) && Settled(Committed(now[i])) {
        CommitIsFresh(was[i], now[i], rules, cats[i].name, i, done);
      }
      CommitRules(cats);
    } else {
      forall i | 0 <= i < |cats| ensures RolledBack(now[i]) == was[i] {
        RollbackRestores(was[i], now[i], Fresh(rules, cats[i].name), i, done);
      }
      RollbackRules(cats);
      assert AllHold(cats) == was;
    }
  }

  /** zlog_reload's handling of the table.  Its flag for rolling back is only set once the update has
      worked, so a failed update is not rolled back: the categories are unchanged exactly when the new
      configuration could not be read at all. */
  method Reload(cats: seq<Category>, conf: Option<seq<Rule>>, denied: seq<Option<nat>>) returns (ok: bool)
    requires Separate(cats) && |denied| == |cats| && (conf.Some? ==> RulesOk(conf.value))
    requires forall i :: 0 <= i < |cats| ==> Settled(cats[i].Holds())
    modifies All(cats)
    ensures ok ==> conf.Some? && forall i :: 0 <= i < |cats| ==> cats[i].Holds() == Fresh(conf.value, cats[i].name)
    ensures !ok ==> (AllHold(cats) == old(AllHold(cats)) <==> conf == None)
    ensures ok <==> conf.Some? && AllEnough(cats, conf.value, denied)
  {
    hide Fresh, LeftBy, Settled, Enough;
    ghost var was, done := AllHold(cats), 0;
    var cUp := false;
    if conf.Some? {
      var updated;
      updated, done := UpdateRules(cats, conf.value, denied);
      if updated {
        cUp := true;
        ghost var now := AllHold(cats);
        forall i | 0 <= i < |cats| ensures Committed(now[i]) == Fresh(conf.value, cats[i].name) {
          CommitIsFresh(was[i], now[i], conf.value, cats[i].name, i, done);
        }
        CommitRules(cats);
        return true;
      }
      cUp := false;
      FailureShows(was[done], cats[done].Holds(), Fresh(conf.value, cats[done].name), done);
      assert AllHold(cats)[done] != was[done];
    }
    // The rollback here is guarded by cUp, which is false on every way to this place.
    assert !cUp;
    return false;
  }

  lemma FailureShows(was: Held, now: Held, made: Held, done: nat)
    requires Settled(was) && LeftBy(was, now, made, done, done)
    ensures now.fitRules == None && now != was
  {
  }

  /** One denied allocation is enough: the reload fails, and the category is not what it was. */
  method FailedReload(c: Category, rules: seq<Rule>) returns (ok: bool)
    requires c.Shaped() && RulesOk(rules) && Settled(c.Holds())
    modifies c, c.levelBitmap, c.levelBitmapBackup
    ensures !ok && c.Holds() != old(c.Holds())
  {
    hide Fresh, Settled;
    var cats := [c];
    assert All(cats) == {c, c.levelBitmap, c.levelBitmapBackup} by { assert cats[..0] == []; }
    ghost var was := AllHold(cats);
    assert was == [c.Holds()];
    ok := Reload(cats, Some(rules), [Some(0)]);
    assert !AllEnough(cats, rules, [Some(0)]) by { assert !Enough(Some(0), rules, cats[0].name); }
    assert AllHold(cats) == [c.Holds()];
  }
}
