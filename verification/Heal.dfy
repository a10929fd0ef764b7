/** healSeparated (ctp/sheet.go): after the whole order has been replaced, members
    that no longer touch their group leave it, pass after pass. */
module Heal {
  import opened Util
  import opened Forest
  import opened PreOrder
  import opened SheetStore
  import opened SheetDb
  import GroupWalks

  type Below = map<int, set<int>>

  function BelowOf(desc: Below, gid: int): set<int> {
    if gid in desc then desc[gid] else {}
  }

  /** desc is groupDescendants' table: what is reached from every group downwards. */
  ghost predicate Descends(desc: Below, g: Groups) {
    desc.Keys == g.Keys && forall gid :: gid in g ==> GroupWalks.IsReach(g, gid, desc[gid])
  }

  /** On a forest, the proper descendants of every group. */
  ghost predicate IsBelow(desc: Below, g: Groups, d: map<int, nat>)
    requires Depths(g, d)
  {
    && desc.Keys == g.Keys
    && forall gid, x {:trigger x in desc[gid]} :: gid in g ==> (x in desc[gid] <==> Within(g, d, x, gid) && x != gid)
  }

  lemma DescendsIff(desc: Below, g: Groups, d: map<int, nat>)
    requires Depths(g, d)
    ensures Descends(desc, g) <==> IsBelow(desc, g, d)
  {
    if desc.Keys == g.Keys {
      forall gid | gid in g
        ensures GroupWalks.IsReach(g, gid, desc[gid]) <==> forall x :: x in desc[gid] <==> Within(g, d, x, gid) && x != gid {
        GroupWalks.ReachIsWithin(g, d, gid, desc[gid]);
      }
    }
  }

  predicate BelongsBefore(item: SheetItem, gid: int, parents: map<int, int>, desc: Below) {
    match item
    case Header(h) => h == gid || h in BelowOf(desc, gid)
    case Cue(pos) => pos in parents && (parents[pos] == gid || parents[pos] in BelowOf(desc, gid))
  }

  predicate BelongsAfter(item: SheetItem, gid: int, parents: map<int, int>, desc: Below) {
    match item
    case Header(h) => h != gid && h in BelowOf(desc, gid)
    case Cue(pos) => (if pos in parents then parents[pos] else 0) == gid
  }

  /** The cue at row i touches its group's block on the right side. */
  predicate Touches(items: seq<SheetItem>, i: nat, gid: int, parents: map<int, int>, desc: Below)
    requires i < |items|
  {
    || (i > 0 && BelongsBefore(items[i - 1], gid, parents, desc))
    || (i + 1 < |items| && BelongsAfter(items[i + 1], gid, parents, desc))
  }

  function MembersOf(parents: map<int, int>, gid: int): set<int> {
    set pos | pos in parents && parents[pos] == gid
  }

  function PlaceOf(items: seq<SheetItem>, pos: int): (i: int)
    ensures -1 <= i < |items|
    ensures i >= 0 ==> items[i] == Cue(pos)
    ensures i < 0 ==> Cue(pos) !in items
  {
    if |items| == 0 then -1
    else
      assert items == items[..|items| - 1] + [items[|items| - 1]];
      if items[|items| - 1] == Cue(pos) then |items| - 1 else PlaceOf(items[..|items| - 1], pos)
  }

  /** A member of a group with other members that touches nothing of it. */
  predicate Leaves(items: seq<SheetItem>, parents: map<int, int>, desc: Below, pos: int) {
    && pos in parents && parents[pos] != 0
    && |MembersOf(parents, parents[pos])| > 1
    && PlaceOf(items, pos) >= 0
    && !Touches(items, PlaceOf(items, pos), parents[pos], parents, desc)
  }

  function Leavers(items: seq<SheetItem>, parents: map<int, int>, desc: Below, scope: set<int>): set<int> {
    set pos | pos in scope && Leaves(items, parents, desc, pos)
  }

  function Released(parents: map<int, int>, who: set<int>): (r: map<int, int>)
    ensures r.Keys == parents.Keys
  {
    map pos | pos in parents :: if pos in who then 0 else parents[pos]
  }

  function Placed(parents: map<int, int>, scope: set<int>): set<int> {
    set pos | pos in scope && pos in parents && parents[pos] != 0
  }

  /** The passes: everyone who is separated leaves at once, until nobody is. */
  function Healed(items: seq<SheetItem>, parents: map<int, int>, desc: Below, scope: set<int>): map<int, int>
    decreases |Placed(parents, scope)|
  {
    var who := Leavers(items, parents, desc, scope);
    if who == {} then parents
    else
      PassShrinks(items, parents, desc, scope);
      Healed(items, Released(parents, who), desc, scope)
  }

  lemma PassShrinks(items: seq<SheetItem>, parents: map<int, int>, desc: Below, scope: set<int>)
    requires Leavers(items, parents, desc, scope) != {}
    ensures |Placed(Released(parents, Leavers(items, parents, desc, scope)), scope)| < |Placed(parents, scope)|
  {
    var who := Leavers(items, parents, desc, scope);
    var a, b := Placed(Released(parents, who), scope), Placed(parents, scope);
    assert a == b - who && who <= b;
    SubsetCard(a, b - who);
  }

  // ------------------------------------------------------------ properties

  /** Healing only ever sets parents to 0, and only of cues in scope. */
  lemma {:induction false} HealedOnlyReleases(items: seq<SheetItem>, parents: map<int, int>, desc: Below, scope: set<int>)
    ensures var r := Healed(items, parents, desc, scope);
      && r.Keys == parents.Keys
      && forall pos :: pos in parents ==> r[pos] == parents[pos] || (r[pos] == 0 && pos in scope)
    decreases |Placed(parents, scope)|
  {
    var who := Leavers(items, parents, desc, scope);
    if who != {} {
      PassShrinks(items, parents, desc, scope);
      HealedOnlyReleases(items, Released(parents, who), desc, scope);
    }
  }

  /** Afterwards every cue in scope that is still a member of a group with two or
      more members touches its block on the right side. */
  lemma {:induction false} HealedTouches(items: seq<SheetItem>, parents: map<int, int>, desc: Below, scope: set<int>, i: nat)
    requires Distinct(items) && i < |items| && items[i].Cue? && items[i].pos in scope && items[i].pos in parents
    ensures var r := Healed(items, parents, desc, scope);
      items[i].pos in r && (r[items[i].pos] != 0 && |MembersOf(r, r[items[i].pos])| > 1
        ==> Touches(items, i, r[items[i].pos], r, desc))
    decreases |Placed(parents, scope)|
  {
    var who := Leavers(items, parents, desc, scope);
    if who != {} {
      PassShrinks(items, parents, desc, scope);
      HealedTouches(items, Released(parents, who), desc, scope, i);
    } else {
      assert items[i].pos !in who;
      assert PlaceOf(items, items[i].pos) == i;
    }
  }

  /** A run that hangs from a row of the group keeps its members through every
      pass: row i is a header of gid's block and rows i + 1 .. k are members. */
  predicate Anchored(items: seq<SheetItem>, parents: map<int, int>, desc: Below, gid: int, i: nat, k: nat) {
    && i < k < |items| && items[i].Header? && (items[i].gid == gid || items[i].gid in BelowOf(desc, gid))
    && forall m :: i < m <= k ==> items[m].Cue? && items[m].pos in parents && parents[items[m].pos] == gid
  }

  lemma AnchoredRemain(items: seq<SheetItem>, parents: map<int, int>, desc: Below, scope: set<int>, gid: int, i: nat, k: nat)
    requires Distinct(items) && Anchored(items, parents, desc, gid, i, k)
    ensures Anchored(items, Released(parents, Leavers(items, parents, desc, scope)), desc, gid, i, k)
  {
    forall m | i < m <= k ensures items[m].pos !in Leavers(items, parents, desc, scope) {
      assert PlaceOf(items, items[m].pos) == m;
      assert BelongsBefore(items[m - 1], gid, parents, desc);
    }
  }

  lemma {:induction false} AnchoredNeverLeave(items: seq<SheetItem>, parents: map<int, int>, desc: Below, scope: set<int>,
                                              gid: int, i: nat, k: nat)
    requires Distinct(items) && Anchored(items, parents, desc, gid, i, k)
    ensures Anchored(items, Healed(items, parents, desc, scope), desc, gid, i, k)
    decreases |Placed(parents, scope)|
  {
    var who := Leavers(items, parents, desc, scope);
    if who != {} {
      PassShrinks(items, parents, desc, scope);
      AnchoredRemain(items, parents, desc, scope, gid, i, k);
      AnchoredNeverLeave(items, Released(parents, who), desc, scope, gid, i, k);
    }
  }

  /** On a pre-order sheet healing changes nothing. */
  lemma HealKeepsPreOrder(s: Sheet, d: map<int, nat>, desc: Below, scope: set<int>)
    requires Depths(s.groups, d) && IsPreOrder(s, d) && Descends(desc, s.groups)
    ensures Healed(s.items, s.parents, desc, scope) == s.parents
  {
    DescendsIff(desc, s.groups, d);
    PreOrderIsNested(s, d);
    forall pos | pos in s.parents && s.parents[pos] != 0 && PlaceOf(s.items, pos) >= 0
      ensures Touches(s.items, PlaceOf(s.items, pos), s.parents[pos], s.parents, desc)
    {
      var i := PlaceOf(s.items, pos);
      var gid := s.parents[pos];
      assert FollowsAt(s, d, i);
      OpenBelongs(s, d, desc, i, gid);
    }
    assert Leavers(s.items, s.parents, desc, scope) == {};
  }

  /** A row whose open group lies in gid's block belongs to it from above. */
  lemma OpenBelongs(s: Sheet, d: map<int, nat>, desc: Below, i: nat, gid: int)
    requires Depths(s.groups, d) && IsBelow(desc, s.groups, d) && i < |s.items|
    requires Within(s.groups, d, OpenAt(s, i), gid)
    ensures i > 0 && BelongsBefore(s.items[i - 1], gid, s.parents, desc)
  {
    WithinDepth(s.groups, d, OpenAt(s, i), gid);
    assert OpenAt(s, i) != gid ==> OpenAt(s, i) in desc[gid];
  }

  /** One row with a group: it may follow exactly when it touches it from above. */
  lemma FollowsIffTouches(s: Sheet, d: map<int, nat>, desc: Below, i: nat)
    requires Depths(s.groups, d) && Complete(s) && NoDangling(s) && IsBelow(desc, s.groups, d)
    requires i < |s.items| && Scope(s, s.items[i]) != 0
    ensures FollowsAt(s, d, i) <==> i > 0 && BelongsBefore(s.items[i - 1], Scope(s, s.items[i]), s.parents, desc)
  {
    ScopeExists(s, d, s.items[i]);
    if FollowsAt(s, d, i) {
      OpenBelongs(s, d, desc, i, Scope(s, s.items[i]));
    } else if i > 0 {
      HeaderKnown(s, i - 1);
      assert !Within(s.groups, d, OpenAt(s, i), Scope(s, s.items[i]));
    }
  }

  ghost predicate TouchesAbove(s: Sheet, desc: Below, i: nat)
    requires i < |s.items|
  {
    Scope(s, s.items[i]) != 0 ==> i > 0 && BelongsBefore(s.items[i - 1], Scope(s, s.items[i]), s.parents, desc)
  }

  /** The sheet is pre-order exactly when every row with a group touches it from
      above; healing also accepts a touch from below, and never looks at headers. */
  lemma PreOrderIffTouchesAbove(s: Sheet, d: map<int, nat>, desc: Below)
    requires Depths(s.groups, d) && Complete(s) && NoDangling(s) && IsBelow(desc, s.groups, d)
    ensures IsPreOrder(s, d) <==> forall i :: 0 <= i < |s.items| ==> TouchesAbove(s, desc, i)
  {
    PreOrderIffNested(s, d);
    forall i | 0 <= i < |s.items| ensures FollowsAt(s, d, i) <==> TouchesAbove(s, desc, i) {
      if Scope(s, s.items[i]) != 0 { FollowsIffTouches(s, d, desc, i); }
    }
  }

  /** Nobody is told who else is leaving: two members, each apart from the header
      and from each other, both leave in the first pass, and the group is empty. */
  lemma BothLeave()
    ensures var items := [Header(7), Cue(1), Cue(2), Cue(3), Cue(4)];
      var parents := map[1 := 0, 2 := 7, 3 := 0, 4 := 7];
      && Leavers(items, parents, map[7 := {}], {1, 2, 3, 4}) == {2, 4}
      && Healed(items, parents, map[7 := {}], {1, 2, 3, 4}) == map[1 := 0, 2 := 0, 3 := 0, 4 := 0]
  {
    var items := [Header(7), Cue(1), Cue(2), Cue(3), Cue(4)];
    var parents := map[1 := 0, 2 := 7, 3 := 0, 4 := 7];
    var desc: Below := map[7 := {}];
    var scope := {1, 2, 3, 4};
    assert items[2] == Cue(2) && items[4] == Cue(4);
    PlaceUnique(items, 2, 2);
    PlaceUnique(items, 4, 4);
    assert MembersOf(parents, 7) == {2, 4};
    assert Leavers(items, parents, desc, scope) == {2, 4};
    var r := Released(parents, {2, 4});
    assert r == map[1 := 0, 2 := 0, 3 := 0, 4 := 0];
    assert Leavers(items, r, desc, scope) == {};
  }

  lemma PlaceUnique(items: seq<SheetItem>, pos: int, i: nat)
    requires Distinct(items) && i < |items| && items[i] == Cue(pos)
    ensures PlaceOf(items, pos) == i
  {
  }

  /** Healing does not put a folder back together: two members that were moved away
      side by side vouch for each other and stay, so the sheet need not be
      pre-order afterwards. */
  lemma PairsStay(d: map<int, nat>)
    requires d == map[1 := 0]
    ensures var s := Sheet([Header(1), Cue(1), Cue(2), Cue(3), Cue(4)], map[1 := 1, 2 := 0, 3 := 1, 4 := 1], map[1 := Group(0, false, 0.0)]);
      && Depths(s.groups, d)
      && Healed(s.items, s.parents, map[1 := {}], {1, 2, 3, 4}) == s.parents
      && !IsPreOrder(s, d)
  {
    var s := Sheet([Header(1), Cue(1), Cue(2), Cue(3), Cue(4)], map[1 := 1, 2 := 0, 3 := 1, 4 := 1], map[1 := Group(0, false, 0.0)]);
    var desc: Below := map[1 := {}];
    PlaceUnique(s.items, 1, 1);
    PlaceUnique(s.items, 3, 3);
    PlaceUnique(s.items, 4, 4);
    assert Touches(s.items, 1, 1, s.parents, desc);
    assert Touches(s.items, 3, 1, s.parents, desc);
    assert Touches(s.items, 4, 1, s.parents, desc);
    assert Leavers(s.items, s.parents, desc, {1, 2, 3, 4}) == {};
    assert !Nested(s, d) by {
      assert OpenAt(s, 3) == 0;
      assert !FollowsAt(s, d, 3);
    }
    if IsPreOrder(s, d) { PreOrderIsNested(s, d); }
  }

  // --------------------------------------------------------------- the loop

  lemma BelowUnique(a: Below, b: Below, g: Groups)
    requires Descends(a, g) && Descends(b, g)
    ensures a == b
  {
    forall gid | gid in a ensures a[gid] == b[gid] {
      assert GroupWalks.IsReach(g, gid, a[gid]) && GroupWalks.IsReach(g, gid, b[gid]);
    }
  }

  method QueryGroups(g: Groups) returns (all: seq<GroupWalks.GroupRow>)
    ensures GroupWalks.Lists(all, g)
  {
    all := [];
    var todo := g.Keys;
    while todo != {}
      invariant todo <= g.Keys
      invariant forall i :: 0 <= i < |all| ==> all[i].id in g && all[i].id !in todo && g[all[i].id].parent == all[i].parent
      invariant forall id {:trigger GroupWalks.Listed(all, id)} :: id in g && id !in todo ==> GroupWalks.Listed(all, id)
      invariant forall i, j :: 0 <= i < j < |all| ==> all[i].id != all[j].id
      decreases |todo|
    {
      ghost var w := PickFrom(todo);
      var id: int :| id in todo;
      ghost var was := all;
      all := all + [GroupWalks.GroupRow(id, g[id].parent)];
      todo := todo - {id};
      forall x | x in g && x !in todo ensures GroupWalks.Listed(all, x) {
        if x == id {
          assert all[|was|].id == id;
        } else {
          assert GroupWalks.Listed(was, x);
          var i :| 0 <= i < |was| && was[i].id == x;
          assert all[i].id == x;
        }
      }
    }
  }

  /** groupDescendants, for every group. */
  method GroupDescendants(g: Groups) returns (desc: Below)
    ensures Descends(desc, g)
  {
    var all := QueryGroups(g);
    desc := map[];
    for i := 0 to |all|
      invariant desc.Keys == set k | 0 <= k < i :: all[k].id
      invariant forall gid :: gid in desc ==> GroupWalks.IsReach(g, gid, desc[gid])
    {
      var below := GroupWalks.Descendants(all, all[i].id, g);
      desc := desc[all[i].id := below];
    }
    forall gid ensures gid in desc <==> gid in g {
      if gid in g { assert GroupWalks.Listed(all, gid); }
    }
  }

  /** counts: how many cues name each group. */
  method CountMembers(parents: map<int, int>, gid: int) returns (n: nat)
    ensures n == |MembersOf(parents, gid)|
  {
    n := 0;
    var todo := parents.Keys;
    ghost var done: set<int> := {};
    while todo != {}
      invariant todo <= parents.Keys && done == parents.Keys - todo
      invariant n == |set pos | pos in done && parents[pos] == gid|
      decreases |todo|
    {
      ghost var w := PickFrom(todo);
      var pos: int :| pos in todo;
      ghost var before := set p | p in done && parents[p] == gid;
      done := done + {pos};
      todo := todo - {pos};
      if parents[pos] == gid {
        n := n + 1;
        assert (set p | p in done && parents[p] == gid) == before + {pos};
      } else {
        assert (set p | p in done && parents[p] == gid) == before;
      }
    }
    assert (set pos | pos in done && parents[pos] == gid) == MembersOf(parents, gid);
  }

  method CuePlace(items: seq<SheetItem>, pos: int) returns (i: int)
    ensures i == PlaceOf(items, pos)
  {
    i := -1;
    for k := 0 to |items|
      invariant i == PlaceOf(items[..k], pos)
    {
      assert items[..k + 1][..k] == items[..k];
      if items[k] == Cue(pos) { i := k; }
    }
    assert items[..|items|] == items;
  }

  method IsSeparated(items: seq<SheetItem>, parents: map<int, int>, desc: Below, pos: int) returns (leaves: bool)
    ensures leaves == Leaves(items, parents, desc, pos)
  {
    if pos !in parents || parents[pos] == 0 { return false; }
    var n := CountMembers(parents, parents[pos]);
    if n <= 1 { return false; }
    var i := CuePlace(items, pos);
    if i < 0 { return false; }
    var adjacent := false;
    if i > 0 && BelongsBefore(items[i - 1], parents[pos], parents, desc) { adjacent := true; }
    if i + 1 < |items| && BelongsAfter(items[i + 1], parents[pos], parents, desc) { adjacent := true; }
    return !adjacent;
  }

  /** The cue table with some cues released to the top level. */
  function ReleasedRows(cues: map<int, CueRow>, who: set<int>): map<int, CueRow> {
    map pos | pos in cues :: if pos in who then cues[pos].(parent := 0) else cues[pos]
  }

  lemma LeaversGrow(items: seq<SheetItem>, parents: map<int, int>, desc: Below, done: set<int>, pos: int)
    ensures Leavers(items, parents, desc, done + {pos}) ==
      Leavers(items, parents, desc, done) + if Leaves(items, parents, desc, pos) then {pos} else {}
  {
  }

  lemma RowsGrow(cues: map<int, CueRow>, who: set<int>, pos: int)
    requires pos in cues
    ensures ReleasedRows(cues, who + {pos}) == ReleasedRows(cues, who)[pos := ReleasedRows(cues, who)[pos].(parent := 0)]
  {
  }

  lemma NobodyReleased(cues: map<int, CueRow>)
    ensures ReleasedRows(cues, {}) == cues
  {
  }

  /** One pass, in whatever order the scope is walked: every decision is taken on
      the memberships read before the pass. */
  method HealPass(db: Database, items: seq<SheetItem>, desc: Below, scope: set<int>) returns (changed: bool)
    modifies db
    ensures var who := Leavers(items, ParentsOf(old(db.State())), desc, scope);
      && changed == (who != {})
      && db.groups == old(db.groups) && db.cues == ReleasedRows(old(db.cues), who)
  {
    var parents := db.StoredParents();
    changed := false;
    var todo := scope;
    ghost var t := db.State();
    ghost var out: set<int> := {};
    NobodyReleased(t.cues);
    while todo != {}
      invariant todo <= scope
      invariant out == Leavers(items, parents, desc, scope - todo)
      invariant changed == (out != {})
      invariant db.groups == t.groups && db.cues == ReleasedRows(t.cues, out)
      decreases |todo|
    {
      ghost var w := PickFrom(todo);
      var pos: int :| pos in todo;
      var leaves := IsSeparated(items, parents, desc, pos);
      LeaversGrow(items, parents, desc, scope - todo, pos);
      assert scope - (todo - {pos}) == (scope - todo) + {pos};
      todo := todo - {pos};
      if leaves {
        changed := true;
        RowsGrow(t.cues, out, pos);
        out := out + {pos};
        db.cues := db.cues[pos := db.cues[pos].(parent := 0)];
      }
    }
    assert scope - {} == scope;
  }

  lemma ReleasedTwice(t: Tables, items: seq<SheetItem>, who: set<int>)
    ensures ParentsOf(t.(cues := ReleasedRows(t.cues, who))) == Released(ParentsOf(t), who)
  {
  }

  ghost predicate SameIndexes(a: map<int, CueRow>, b: map<int, CueRow>) {
    a.Keys == b.Keys && forall pos :: pos in a ==> a[pos].index == b[pos].index
  }

  /** healSeparated: ends on any table, corrupt ones included, and leaves the memberships Healed gives, whatever order
      each pass walks the scope in; no index and no group row is touched. */
  method HealSeparated(db: Database, items: seq<SheetItem>, scope: set<int>)
    modifies db
    ensures db.groups == old(db.groups) && SameIndexes(old(db.cues), db.cues)
    ensures forall desc :: Descends(desc, old(db.groups)) ==>
        ParentsOf(db.State()) == Healed(items, ParentsOf(old(db.State())), desc, scope)
  {
    var desc := GroupDescendants(db.groups);
    forall other | Descends(other, db.groups) ensures other == desc { BelowUnique(other, desc, db.groups); }
    ghost var p0 := ParentsOf(db.State());
    var changed := true;
    while changed
      invariant db.groups == old(db.groups) && SameIndexes(old(db.cues), db.cues)
      invariant Healed(items, ParentsOf(db.State()), desc, scope) == Healed(items, p0, desc, scope)
      invariant !changed ==> Leavers(items, ParentsOf(db.State()), desc, scope) == {}
      decreases changed, |Placed(ParentsOf(db.State()), scope)|
    {
      ghost var t := db.State();
      ghost var who := Leavers(items, ParentsOf(t), desc, scope);
      changed := HealPass(db, items, desc, scope);
      ReleasedTwice(t, items, who);
      if changed { PassShrinks(items, ParentsOf(t), desc, scope); }
      else { assert Released(ParentsOf(t), {}) == ParentsOf(t); }
    }
  }
}
