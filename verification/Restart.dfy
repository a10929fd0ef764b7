/** What start-up does to a stored sheet: InitDB's sheet_index backfill
    (ctp/db.go) and HealSheet (ctp/sheet.go).

    Both take sheet_index 0 to mean "not indexed yet", but applyOrder gives
    exactly that index to the first row.  So a sheet that was written correctly
    can come back in another order; the theorems say exactly when it does not. */
module Restart {
  import opened Util
  import opened PreOrder
  import opened SheetStore
  import opened SheetDb

  // -------------------------------------------------------- InitDB backfill

  ghost function MemberIndexes(cues: map<int, CueRow>, gid: int): set<real> {
    set pos | pos in cues && cues[pos].parent == gid :: cues[pos].index
  }

  lemma HasLeast(s: set<real>) returns (m: real)
    requires s != {}
    ensures m in s && forall x :: x in s ==> m <= x
  {
    var x := PickFrom(s);
    m := x;
    if s - {x} != {} {
      var n := HasLeast(s - {x});
      m := if n < x then n else x;
    }
    forall y | y in s ensures m <= y { assert y == x || y in s - {x}; }
  }

  /** MIN(sheet_index). */
  ghost function Least(s: set<real>): (m: real)
    requires s != {}
    ensures m in s && forall x :: x in s ==> m <= x
  {
    assert exists m :: m in s && forall x :: x in s ==> m <= x by { var m := HasLeast(s); }
    var m :| m in s && forall x :: x in s ==> m <= x;
    m
  }

  lemma HasGreatest(s: set<int>) returns (m: int)
    requires s != {}
    ensures m in s && forall x :: x in s ==> x <= m
  {
    var x := PickFrom(s);
    m := x;
    if s - {x} != {} {
      var n := HasGreatest(s - {x});
      m := if n > x then n else x;
    }
    forall y | y in s ensures y <= m { assert y == x || y in s - {x}; }
  }

  /** COALESCE(MAX(cuePos), 0). */
  ghost function MaxPos(cues: map<int, CueRow>): (m: int)
    ensures cues == map[] ==> m == 0
    ensures cues != map[] ==> m in cues && forall x :: x in cues ==> x <= m
  {
    if cues == map[] then 0
    else
      assert exists m :: m in cues.Keys && forall x :: x in cues.Keys ==> x <= m by { var m := HasGreatest(cues.Keys); }
      var m :| m in cues.Keys && forall x :: x in cues.Keys ==> x <= m;
      m
  }

  /** The two UPDATEs at the end of InitDB, which run at every start. */
  ghost function Backfilled(t: Tables): (r: Tables)
    ensures r.cues.Keys == t.cues.Keys && r.groups.Keys == t.groups.Keys
  {
    var cues := map pos | pos in t.cues ::
      if t.cues[pos].index == 0.0 then CueRow(t.cues[pos].parent, pos as real * STEP) else t.cues[pos];
    var groups := map gid | gid in t.groups ::
      if t.groups[gid].index == 0.0 then t.groups[gid].(index := HeaderSlot(cues, gid)) else t.groups[gid];
    Tables(cues, groups)
  }

  ghost function HeaderSlot(cues: map<int, CueRow>, gid: int): real {
    if MemberIndexes(cues, gid) != {} then Least(MemberIndexes(cues, gid)) - 500.0
    else (MaxPos(cues) + 1) as real * STEP
  }

  /** The conditions under which the first row stays first. */
  ghost predicate FirstRowStays(t: Tables, items: seq<SheetItem>, parents: map<int, int>)
    requires AllRows(t, items) && CoversCues(items, parents)
  {
    |items| <= 1 ||
    match items[0]
    case Cue(pos) => pos == 1
    case Header(gid) =>
      match items[1]
      case Cue(pos) => parents[pos] == gid
      case Header(other) => t.cues == map[] && gid < other
  }

  lemma BeforeTransitive(t: Tables, a: SheetItem, b: SheetItem, c: SheetItem)
    requires HasRow(t, a) && HasRow(t, b) && HasRow(t, c) && Before(t, a, b) && Before(t, b, c)
    ensures Before(t, a, c)
  {
  }

  ghost predicate Stored(t: Tables, items: seq<SheetItem>, parents: map<int, int>) {
    && Distinct(items) && AllRows(t, items) && CoversCues(items, parents)
    && forall pos :: pos in t.cues ==> pos >= 1
  }

  /** After the backfill every row but the first is where it was written. */
  lemma RestAtIndex(t: Tables, items: seq<SheetItem>, parents: map<int, int>, i: nat)
    requires Stored(t, items, parents) && 1 <= i < |items|
    ensures var r := Backfilled(Written(t, items, parents)); HasRow(r, items[i]) && IndexOf(r, items[i]) == i as real * STEP
  {
    assert HasRow(t, items[i]);
    WrittenAt(t, items, parents, i);
    assert i as real * STEP != 0.0;
  }

  lemma FirstHasRow(t: Tables, items: seq<SheetItem>, parents: map<int, int>)
    requires Stored(t, items, parents) && |items| > 0
    ensures var w := Written(t, items, parents);
      HasRow(w, items[0]) && IndexOf(w, items[0]) == 0.0 && HasRow(Backfilled(w), items[0])
  {
    assert HasRow(t, items[0]);
    WrittenAt(t, items, parents, 0);
  }

  /** Only the first two rows matter. */
  lemma LoadedIffFirstTwo(t: Tables, items: seq<SheetItem>, parents: map<int, int>)
    requires Stored(t, items, parents) && |items| > 1
    ensures var r := Backfilled(Written(t, items, parents));
      && HasRow(r, items[0]) && HasRow(r, items[1])
      && (Loaded(r, items) <==> Before(r, items[0], items[1]))
  {
    var w := Written(t, items, parents);
    var r := Backfilled(w);
    FirstHasRow(t, items, parents);
    RestAtIndex(t, items, parents, 1);
    WrittenKeeps(t, items, parents);
    forall item ensures item in items <==> HasRow(r, item) {
      assert HasRow(r, item) <==> HasRow(t, item);
    }
    if Before(r, items[0], items[1]) {
      forall i, j | 0 <= i < j < |items|
        ensures HasRow(r, items[i]) && HasRow(r, items[j]) && Before(r, items[i], items[j])
      {
        RestAtIndex(t, items, parents, j);
        if i > 0 {
          RestAtIndex(t, items, parents, i);
        } else if j > 1 {
          BeforeTransitive(r, items[0], items[1], items[j]);
        }
      }
    }
  }

  lemma CueSlot(t: Tables, items: seq<SheetItem>, parents: map<int, int>)
    requires Stored(t, items, parents) && |items| > 1 && items[0].Cue?
    ensures var r := Backfilled(Written(t, items, parents));
      HasRow(r, items[0]) && IndexOf(r, items[0]) == items[0].pos as real * STEP
  {
    FirstHasRow(t, items, parents);
  }

  /** Where a leading header lands: just above its first member, else at the end. */
  lemma HeaderSlotIs(t: Tables, items: seq<SheetItem>, parents: map<int, int>)
    requires Stored(t, items, parents) && |items| > 1 && items[0].Header?
    ensures var r := Backfilled(Written(t, items, parents));
      && HasRow(r, items[0])
      && (IndexOf(r, items[0]) < STEP <==> items[1].Cue? && parents[items[1].pos] == items[0].gid)
      && (IndexOf(r, items[0]) == STEP <==> t.cues == map[])
  {
    var gid := items[0].gid;
    var w := Written(t, items, parents);
    FirstHasRow(t, items, parents);
    WrittenKeeps(t, items, parents);
    var cues := Backfilled(w).cues;
    var m := MemberIndexes(cues, gid);
    forall pos | pos in cues
      ensures exists i ::
        1 <= i < |items| && items[i] == Cue(pos) && cues[pos] == CueRow(parents[pos], i as real * STEP)
    {
      assert HasRow(t, Cue(pos));
      var i :| 0 <= i < |items| && items[i] == Cue(pos);
      WrittenAt(t, items, parents, i);
      RestAtIndex(t, items, parents, i);
    }
    if m != {} {
      var pos :| pos in cues && cues[pos].parent == gid && cues[pos].index == Least(m);
      var i :| 1 <= i < |items| && items[i] == Cue(pos) && cues[pos] == CueRow(parents[pos], i as real * STEP);
      WholeSteps(i);
    }
    if items[1].Cue? && parents[items[1].pos] == gid {
      assert HasRow(t, items[1]);
      WrittenAt(t, items, parents, 1);
      RestAtIndex(t, items, parents, 1);
      assert cues[items[1].pos].index in m;
    }
    if t.cues == map[] {
      assert cues.Keys == {};
      assert cues == map[];
      assert m == {};
    }
    if cues != map[] {
      assert t.cues != map[] by { assert MaxPos(cues) in t.cues; }
    }
  }

  lemma WholeSteps(i: nat)
    requires i >= 1
    ensures i == 1 ==> i as real * STEP - 500.0 < STEP
    ensures i > 1 ==> i as real * STEP - 500.0 > STEP
  {
  }

  /** A sheet written by applyOrder reads back in the same order after a restart
      exactly when it has one row, or its first row is cue 1, or a header directly
      followed by one of its own cues (or, with no cues at all, by a header with a
      larger id). */
  lemma RestartKeepsOrderIff(t: Tables, items: seq<SheetItem>, parents: map<int, int>)
    requires Stored(t, items, parents) && |items| > 1
    ensures Loaded(Backfilled(Written(t, items, parents)), items) <==> FirstRowStays(t, items, parents)
  {
    LoadedIffFirstTwo(t, items, parents);
    RestAtIndex(t, items, parents, 1);
    assert HasRow(t, items[0]) && HasRow(t, items[1]);
    if items[0].Cue? {
      CueSlot(t, items, parents);
      assert items[0].pos >= 1;
    } else {
      HeaderSlotIs(t, items, parents);
    }
  }

  /** And when the sheet opens with cue 1 above a header, the restart gives both
      the same sheet_index: loadSheetSequence then reads the cue first while
      FlattenSheet draws the header first (see MergesAgreeIff). */
  lemma RestartCanTie(t: Tables, items: seq<SheetItem>, parents: map<int, int>)
    requires Stored(t, items, parents) && |items| > 1 && items[0] == Cue(1) && items[1].Header?
    ensures var r := Backfilled(Written(t, items, parents));
      Loaded(r, items) && IndexOf(r, items[0]) == IndexOf(r, items[1])
  {
    RestartKeepsOrderIff(t, items, parents);
    CueSlot(t, items, parents);
    RestAtIndex(t, items, parents, 1);
  }

  // -------------------------------------------------------------- HealSheet

  function LiveParent(t: Tables, pos: int): int
    requires pos in t.cues
  {
    if t.cues[pos].parent in t.groups then t.cues[pos].parent else 0
  }

  /** Dangling parents go to top level, the rest keep theirs. */
  ghost predicate ParentsHealed(t: Tables, cues: map<int, CueRow>) {
    && cues.Keys == t.cues.Keys
    && forall pos :: pos in cues ==> cues[pos].parent == LiveParent(t, pos)
  }

  /** r is t with every index kept that is not 0, and the others raised above
      them, each to an index of its own. */
  ghost predicate IndexesHealed(t: Tables, r: Tables) {
    && r.cues.Keys == t.cues.Keys && r.groups.Keys == t.groups.Keys
    && (forall a :: HasRow(t, a) && IndexOf(t, a) != 0.0 ==> IndexOf(r, a) == IndexOf(t, a))
    && (forall a, b :: HasRow(t, a) && HasRow(t, b) && IndexOf(t, a) == 0.0 && IndexOf(t, b) != 0.0 ==>
          IndexOf(r, b) < IndexOf(r, a))
    && (forall a, b :: HasRow(t, a) && HasRow(t, b) && IndexOf(t, a) == 0.0 && IndexOf(t, b) == 0.0 && a != b ==>
          IndexOf(r, a) != IndexOf(r, b))
  }

  method HealParents(db: Database)
    modifies db
    ensures ParentsHealed(old(db.State()), db.cues) && db.groups == old(db.groups)
    ensures forall pos :: pos in db.cues ==> db.cues[pos].index == old(db.cues)[pos].index
  {
    ghost var t := db.State();
    var todo := set pos | pos in db.cues && db.cues[pos].parent != 0;
    while todo != {}
      invariant todo <= db.cues.Keys && db.groups == t.groups && db.cues.Keys == t.cues.Keys
      invariant forall pos :: pos in todo ==> db.cues[pos] == t.cues[pos]
      invariant forall pos :: pos in db.cues ==> db.cues[pos].index == t.cues[pos].index
      invariant forall pos :: pos in db.cues && pos !in todo ==> db.cues[pos].parent == LiveParent(t, pos)
      decreases |todo|
    {
      ghost var w := PickFrom(todo);
      var pos: int :| pos in todo;
      if db.cues[pos].parent !in db.groups {
        db.cues := db.cues[pos := db.cues[pos].(parent := 0)];
      }
      todo := todo - {pos};
    }
  }

  /** COALESCE(MAX(sheet_index), 0) over both tables. */
  method MaxIndex(t: Tables) returns (m: real)
    ensures forall a :: HasRow(t, a) ==> IndexOf(t, a) <= m
  {
    var first := true;
    m := 0.0;
    var todo := t.cues.Keys;
    while todo != {}
      invariant todo <= t.cues.Keys
      invariant first ==> todo == t.cues.Keys
      invariant forall pos :: pos in t.cues && pos !in todo ==> t.cues[pos].index <= m
      decreases |todo|
    {
      ghost var w := PickFrom(todo);
      var pos: int :| pos in todo;
      if first || m < t.cues[pos].index {
        m := t.cues[pos].index;
      }
      first := false;
      todo := todo - {pos};
    }
    var more := t.groups.Keys;
    while more != {}
      invariant more <= t.groups.Keys
      invariant first ==> t.cues.Keys == {} && more == t.groups.Keys
      invariant forall pos :: pos in t.cues ==> t.cues[pos].index <= m
      invariant forall gid :: gid in t.groups && gid !in more ==> t.groups[gid].index <= m
      decreases |more|
    {
      ghost var w := PickFrom(more);
      var gid: int :| gid in more;
      if first || m < t.groups[gid].index {
        m := t.groups[gid].index;
      }
      first := false;
      more := more - {gid};
    }
  }

  function SetIndex(t: Tables, item: SheetItem, index: real): Tables
    requires HasRow(t, item)
  {
    match item
    case Cue(pos) => t.(cues := t.cues[pos := t.cues[pos].(index := index)])
    case Header(gid) => t.(groups := t.groups[gid := t.groups[gid].(index := index)])
  }

  ghost predicate SameRows(t: Tables, r: Tables) {
    r.cues.Keys == t.cues.Keys && r.groups.Keys == t.groups.Keys
  }

  ghost predicate Unindexed(t: Tables, a: SheetItem) {
    HasRow(t, a) && IndexOf(t, a) == 0.0
  }

  /** The rows of todo still wait; every other unindexed row sits between m and next. */
  ghost predicate Raised(t: Tables, r: Tables, m: real, next: real, todo: set<SheetItem>) {
    && SameRows(t, r) && m < next
    && (forall a :: a in todo ==> Unindexed(t, a))
    && (forall a :: HasRow(t, a) && IndexOf(t, a) != 0.0 ==> IndexOf(r, a) == IndexOf(t, a) <= m)
    && (forall a :: Unindexed(t, a) && a !in todo ==> m < IndexOf(r, a) < next)
    && (forall a, b :: Unindexed(t, a) && Unindexed(t, b) && a !in todo && b !in todo && a != b ==>
          IndexOf(r, a) != IndexOf(r, b))
  }

  lemma RaiseOne(t: Tables, r: Tables, m: real, next: real, todo: set<SheetItem>, item: SheetItem)
    requires Raised(t, r, m, next, todo) && item in todo
    ensures Raised(t, SetIndex(r, item, next), m, next + STEP, todo - {item})
  {
  }

  method RaiseRows(t: Tables, r0: Tables, m: real, next0: real, rows: set<SheetItem>, ghost later: set<SheetItem>)
    returns (r: Tables, next: real)
    requires Raised(t, r0, m, next0, rows + later) && rows !! later
    ensures Raised(t, r, m, next, later)
    ensures forall pos :: pos in t.cues ==> pos in r0.cues && r.cues[pos].parent == r0.cues[pos].parent
  {
    r, next := r0, next0;
    var todo := rows;
    assert todo + later == rows + later;
    while todo != {}
      invariant todo <= rows && Raised(t, r, m, next, todo + later)
      invariant forall pos :: pos in t.cues ==> pos in r0.cues && r.cues[pos].parent == r0.cues[pos].parent
      decreases |todo|
    {
      var item :| item in todo;
      RaiseOne(t, r, m, next, todo + later, item);
      r := SetIndex(r, item, next);
      next := next + STEP;
      assert (todo + later) - {item} == (todo - {item}) + later;
      todo := todo - {item};
    }
    assert todo + later == later;
  }

  /** HealSheet. */
  method HealSheet(db: Database)
    modifies db
    ensures ParentsHealed(old(db.State()), db.cues)
    ensures IndexesHealed(old(db.State()), db.State())
  {
    HealParents(db);
    var t := db.State();
    var m := MaxIndex(t);
    var cues: set<SheetItem> := set pos | pos in t.cues && t.cues[pos].index == 0.0 :: Cue(pos);
    var headers: set<SheetItem> := set gid | gid in t.groups && t.groups[gid].index == 0.0 :: Header(gid);
    assert Raised(t, t, m, m + STEP, cues + headers) by {
      forall a | Unindexed(t, a) ensures a in cues + headers {}
    }
    var r, next := RaiseRows(t, t, m, m + STEP, cues, headers);
    assert headers + {} == headers;
    r, next := RaiseRows(t, r, m, next, headers, {});
    db.cues, db.groups := r.cues, r.groups;
  }

  lemma RotatedOrder(w: Tables, r: Tables, items: seq<SheetItem>, i: nat, j: nat)
    requires IndexesHealed(w, r) && i < j < |items|
    requires forall k :: 0 <= k < |items| ==> HasRow(w, items[k]) && IndexOf(w, items[k]) == k as real * STEP
    ensures var out := items[1..] + [items[0]];
      HasRow(r, out[i]) && HasRow(r, out[j]) && Before(r, out[i], out[j])
  {
    assert IndexOf(w, items[i + 1]) != 0.0;
    if j < |items| - 1 {
      assert IndexOf(w, items[j + 1]) != 0.0;
    } else {
      assert IndexOf(w, items[0]) == 0.0;
    }
  }

  lemma WrittenIndexes(t: Tables, items: seq<SheetItem>, parents: map<int, int>)
    requires Stored(t, items, parents)
    ensures var w := Written(t, items, parents);
      && SameRows(t, w)
      && forall k :: 0 <= k < |items| ==> HasRow(w, items[k]) && IndexOf(w, items[k]) == k as real * STEP
  {
    WrittenKeeps(t, items, parents);
    forall k | 0 <= k < |items|
      ensures HasRow(Written(t, items, parents), items[k])
          && IndexOf(Written(t, items, parents), items[k]) == k as real * STEP
    {
      assert HasRow(t, items[k]);
      WrittenAt(t, items, parents, k);
    }
  }

  /** A member of the leading header's group is at a whole step after the backfill. */
  lemma MemberStep(t: Tables, items: seq<SheetItem>, parents: map<int, int>, pos: int) returns (i: nat)
    requires Stored(t, items, parents) && |items| > 0 && items[0].Header? && pos in t.cues
    ensures var b := Backfilled(Written(t, items, parents));
      pos in b.cues && 1 <= i < |items| && b.cues[pos].index == i as real * STEP
  {
    assert HasRow(t, Cue(pos));
    i :| 0 <= i < |items| && items[i] == Cue(pos);
    RestAtIndex(t, items, parents, i);
  }

  lemma LeadingHeaderSlot(t: Tables, items: seq<SheetItem>, parents: map<int, int>)
    requires Stored(t, items, parents) && |items| > 0 && items[0].Header?
    ensures HasRow(Backfilled(Written(t, items, parents)), items[0])
    ensures IndexOf(Backfilled(Written(t, items, parents)), items[0]) != 0.0
  {
    var b := Backfilled(Written(t, items, parents));
    FirstHasRow(t, items, parents);
    WrittenKeeps(t, items, parents);
    var m := MemberIndexes(b.cues, items[0].gid);
    if m != {} {
      var pos :| pos in b.cues && b.cues[pos].parent == items[0].gid && b.cues[pos].index == Least(m);
      var i := MemberStep(t, items, parents, pos);
      assert i as real * STEP - 500.0 >= STEP - 500.0;
    } else if b.cues != map[] {
      assert MaxPos(b.cues) in t.cues;
      assert (MaxPos(b.cues) + 1) as real >= 1.0;
    }
  }

  /** The backfill of a sheet applyOrder wrote leaves no row with index 0. */
  lemma NoneUnindexed(t: Tables, items: seq<SheetItem>, parents: map<int, int>, a: SheetItem)
    requires Stored(t, items, parents) && HasRow(Backfilled(Written(t, items, parents)), a)
    ensures IndexOf(Backfilled(Written(t, items, parents)), a) != 0.0
  {
    WrittenKeeps(t, items, parents);
    assert HasRow(t, a);
    var i :| 0 <= i < |items| && items[i] == a;
    if i > 0 {
      RestAtIndex(t, items, parents, i);
      assert i as real >= 1.0;
    } else if a.Cue? {
      FirstHasRow(t, items, parents);
      assert a.pos as real >= 1.0;
    } else {
      LeadingHeaderSlot(t, items, parents);
    }
  }

  lemma SameOrder(t: Tables, r: Tables, items: seq<SheetItem>)
    requires SameRows(t, r) && forall a :: HasRow(t, a) ==> IndexOf(r, a) == IndexOf(t, a)
    ensures Loaded(r, items) <==> Loaded(t, items)
  {
    forall a ensures HasRow(r, a) <==> HasRow(t, a) {}
    forall a, b | HasRow(t, a) && HasRow(t, b) ensures Before(r, a, b) <==> Before(t, a, b) {}
  }

  /** A whole start, InitDB and then HealSheet, on a sheet as applyOrder left it: the
      second pass finds nothing to index, so the order survives exactly when it
      survives the first. */
  lemma StartKeepsOrderIff(t: Tables, items: seq<SheetItem>, parents: map<int, int>, r: Tables)
    requires Stored(t, items, parents) && |items| > 1
    requires IndexesHealed(Backfilled(Written(t, items, parents)), r)
    ensures var b := Backfilled(Written(t, items, parents)); forall a :: HasRow(b, a) ==> HasRow(r, a) && IndexOf(r, a) == IndexOf(b, a)
    ensures Loaded(r, items) <==> FirstRowStays(t, items, parents)
  {
    var b := Backfilled(Written(t, items, parents));
    forall a | HasRow(b, a) ensures IndexOf(r, a) == IndexOf(b, a) { NoneUnindexed(t, items, parents, a); }
    SameOrder(b, r, items);
    RestartKeepsOrderIff(t, items, parents);
  }

  /** Without the backfill before it, HealSheet would move the first row of such a
      sheet to the end. */
  lemma HealAloneRotates(t: Tables, items: seq<SheetItem>, parents: map<int, int>, r: Tables)
    requires Stored(t, items, parents) && |items| > 0
    requires IndexesHealed(Written(t, items, parents), r)
    ensures Loaded(r, items[1..] + [items[0]])
  {
    var out := items[1..] + [items[0]];
    WrittenIndexes(t, items, parents);
    assert items == [items[0]] + items[1..];
    forall item ensures item in out <==> HasRow(r, item) {
      assert HasRow(r, item) <==> HasRow(t, item);
    }
    forall i, j | 0 <= i < j < |out|
      ensures HasRow(r, out[i]) && HasRow(r, out[j]) && Before(r, out[i], out[j])
    {
      RotatedOrder(Written(t, items, parents), r, items, i, j);
    }
    assert |out| == 1 ==> HasRow(r, out[0]);
  }
}
