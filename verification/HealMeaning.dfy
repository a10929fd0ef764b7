/** When a cue is separated from its group (ctp/sheet.go, healSeparated), told by the
    rows next to it and the group tree. */
module HealMeaning {
  import opened Util
  import opened Forest
  import opened PreOrder
  import opened Heal

  /** Group x is gid or lies inside it. */
  ghost predicate InBlock(g: Groups, d: map<int, nat>, x: int, gid: int)
    requires Depths(g, d)
  {
    x == gid || Within(g, d, x, gid)
  }

  /** The row above belongs to the block: a header of it, or a cue of it at any depth. */
  ghost predicate HeldFromAbove(s: Sheet, d: map<int, nat>, i: nat, gid: int)
    requires Depths(s.groups, d) && i < |s.items|
  {
    i > 0 && match s.items[i - 1]
      case Header(h) => InBlock(s.groups, d, h, gid)
      case Cue(pos) => pos in s.parents && InBlock(s.groups, d, s.parents[pos], gid)
  }

  /** The row below does: a cue of the group itself, or the header of a group inside it. */
  ghost predicate HeldFromBelow(s: Sheet, d: map<int, nat>, i: nat, gid: int)
    requires Depths(s.groups, d) && i < |s.items|
  {
    i + 1 < |s.items| && match s.items[i + 1]
      case Header(h) => h != gid && Within(s.groups, d, h, gid)
      case Cue(pos) => pos in s.parents && s.parents[pos] == gid
  }

  ghost predicate HasOther(parents: map<int, int>, pos: int) {
    pos in parents && exists q :: q in parents && q != pos && parents[q] == parents[pos]
  }

  lemma BelowIff(s: Sheet, d: map<int, nat>, desc: Below, x: int, gid: int)
    requires Depths(s.groups, d) && Descends(desc, s.groups)
    ensures x in BelowOf(desc, gid) <==> x != gid && Within(s.groups, d, x, gid)
  {
    DescendsIff(desc, s.groups, d);
    if Within(s.groups, d, x, gid) { WithinDepth(s.groups, d, x, gid); }
  }

  lemma TouchesMeans(s: Sheet, d: map<int, nat>, desc: Below, i: nat, gid: int)
    requires Depths(s.groups, d) && Descends(desc, s.groups) && i < |s.items| && gid != 0
    ensures Touches(s.items, i, gid, s.parents, desc) <==> HeldFromAbove(s, d, i, gid) || HeldFromBelow(s, d, i, gid)
  {
    forall x ensures x in BelowOf(desc, gid) <==> x != gid && Within(s.groups, d, x, gid) { BelowIff(s, d, desc, x, gid); }
  }

  lemma OtherIff(parents: map<int, int>, pos: int)
    requires pos in parents
    ensures |MembersOf(parents, parents[pos])| > 1 <==> HasOther(parents, pos)
  {
    var ms := MembersOf(parents, parents[pos]);
    if HasOther(parents, pos) {
      var q :| q in parents && q != pos && parents[q] == parents[pos];
      SubsetCard({pos, q}, ms);
    } else {
      forall q | q in ms ensures q == pos { assert q in parents && parents[q] == parents[pos]; }
      SubsetCard(ms, {pos});
    }
  }

  /** A cue is separated exactly when its group has another member and neither the row
      above it nor the row below it holds it; off the sheet it never is. */
  lemma SeparatedIff(s: Sheet, d: map<int, nat>, desc: Below, i: nat, pos: int)
    requires Depths(s.groups, d) && Descends(desc, s.groups) && Distinct(s.items) && pos in s.parents
    requires if Cue(pos) in s.items then i < |s.items| && s.items[i] == Cue(pos) else i == |s.items|
    ensures Leaves(s.items, s.parents, desc, pos) <==>
      (var gid := s.parents[pos];
       gid != 0 && HasOther(s.parents, pos) && i < |s.items| && !HeldFromAbove(s, d, i, gid) && !HeldFromBelow(s, d, i, gid))
  {
    OtherIff(s.parents, pos);
    if i < |s.items| {
      PlaceUnique(s.items, pos, i);
      if s.parents[pos] != 0 { TouchesMeans(s, d, desc, i, s.parents[pos]); }
    }
  }

  /** Who is separated when healing starts is at the top level when it ends, and when
      nobody in scope is, nothing changes. */
  lemma SeparatedAreReleased(items: seq<SheetItem>, parents: map<int, int>, desc: Below, scope: set<int>)
    ensures var r := Healed(items, parents, desc, scope);
      && r.Keys == parents.Keys
      && (forall pos :: pos in scope && Leaves(items, parents, desc, pos) ==> r[pos] == 0)
      && ((forall pos :: pos in scope ==> !Leaves(items, parents, desc, pos)) ==> r == parents)
  {
    var who := Leavers(items, parents, desc, scope);
    var r := Healed(items, parents, desc, scope);
    HealedOnlyReleases(items, parents, desc, scope);
    if who != {} {
      var w := PickFrom(who);
      assert w in scope && Leaves(items, parents, desc, w);
      HealedOnlyReleases(items, Released(parents, who), desc, scope);
      forall pos | pos in scope && Leaves(items, parents, desc, pos) ensures pos in r && r[pos] == 0 {
        assert pos in who && pos in Released(parents, who) && Released(parents, who)[pos] == 0;
      }
    } else {
      forall pos | pos in scope ensures !Leaves(items, parents, desc, pos) { assert pos !in who; }
    }
  }
}
