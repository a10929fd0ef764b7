/** One pass of healSeparated (ctp/sheet.go), told from the sheet before the call: who
    never leaves, and when a pass empties a group. */
module HealRuns {
  import opened Forest
  import opened PreOrder
  import opened Heal
  import opened Util

  /** A support that no pass takes away: a header of the group or of one inside it just
      above, a header of one inside it just below, or a member just above or below. */
  predicate Steady(items: seq<SheetItem>, parents: map<int, int>, desc: Below, i: nat, gid: int)
    requires i < |items|
  {
    || (i > 0 && items[i - 1].Header? && BelongsBefore(items[i - 1], gid, parents, desc))
    || (i > 0 && items[i - 1].Cue? && items[i - 1].pos in parents && parents[items[i - 1].pos] == gid)
    || (i + 1 < |items| && BelongsAfter(items[i + 1], gid, parents, desc))
  }

  /** A support that can go: a cue of a group inside this one, just above. */
  predicate Hangs(items: seq<SheetItem>, parents: map<int, int>, desc: Below, i: nat, gid: int)
    requires i < |items|
  {
    i > 0 && items[i - 1].Cue? && items[i - 1].pos in parents && parents[items[i - 1].pos] in BelowOf(desc, gid)
  }

  lemma TouchesIff(items: seq<SheetItem>, parents: map<int, int>, desc: Below, i: nat, gid: int)
    requires i < |items|
    ensures Touches(items, i, gid, parents, desc) <==> Steady(items, parents, desc, i, gid) || Hangs(items, parents, desc, i, gid)
  {
  }

  /** The cue at row i is a member and nothing can make it leave: it is not in scope, or
      alone in its group, or steadily supported, or hangs from a cue of which that holds. */
  predicate Rooted(items: seq<SheetItem>, parents: map<int, int>, desc: Below, scope: set<int>, i: nat)
    requires i < |items|
  {
    && items[i].Cue? && items[i].pos in parents && parents[items[i].pos] != 0
    && (var gid := parents[items[i].pos];
      || items[i].pos !in scope
      || |MembersOf(parents, gid)| <= 1
      || Steady(items, parents, desc, i, gid)
      || (Hangs(items, parents, desc, i, gid) && Rooted(items, parents, desc, scope, i - 1)))
  }

  // ------------------------------------------------------------ who stays

  lemma RootedTouches(items: seq<SheetItem>, parents: map<int, int>, desc: Below, scope: set<int>, i: nat)
    requires Distinct(items) && i < |items| && Rooted(items, parents, desc, scope, i)
    ensures items[i].pos !in Leavers(items, parents, desc, scope)
  {
    PlaceUnique(items, items[i].pos, i);
    TouchesIff(items, parents, desc, i, parents[items[i].pos]);
  }

  /** Two members side by side hold each other. */
  lemma NeighbourStays(items: seq<SheetItem>, parents: map<int, int>, desc: Below, scope: set<int>, i: nat, j: nat)
    requires Distinct(items) && i < |items| && j < |items| && (j == i + 1 || i == j + 1)
    requires items[i].Cue? && items[j].Cue? && items[i].pos in parents && items[j].pos in parents
    requires parents[items[i].pos] == parents[items[j].pos] != 0
    ensures items[j].pos !in Leavers(items, parents, desc, scope)
  {
    PlaceUnique(items, items[j].pos, j);
  }

  lemma SteadyRemains(items: seq<SheetItem>, parents: map<int, int>, desc: Below, scope: set<int>, i: nat)
    requires Distinct(items) && i < |items| && items[i].Cue? && items[i].pos in parents && parents[items[i].pos] != 0
    requires Steady(items, parents, desc, i, parents[items[i].pos])
    ensures Steady(items, Released(parents, Leavers(items, parents, desc, scope)), desc, i, parents[items[i].pos])
  {
    var gid := parents[items[i].pos];
    if i > 0 && items[i - 1].Cue? && items[i - 1].pos in parents && parents[items[i - 1].pos] == gid {
      NeighbourStays(items, parents, desc, scope, i, i - 1);
    } else if i + 1 < |items| && BelongsAfter(items[i + 1], gid, parents, desc) && items[i + 1].Cue? {
      NeighbourStays(items, parents, desc, scope, i, i + 1);
    }
  }

  lemma FewerMembers(parents: map<int, int>, who: set<int>, gid: int)
    requires gid != 0
    ensures MembersOf(Released(parents, who), gid) == MembersOf(parents, gid) - who
    ensures |MembersOf(Released(parents, who), gid)| <= |MembersOf(parents, gid)|
  {
    assert MembersOf(Released(parents, who), gid) == MembersOf(parents, gid) - who;
    SubsetCard(MembersOf(parents, gid) - who, MembersOf(parents, gid));
  }

  lemma {:induction false} RootedRemains(items: seq<SheetItem>, parents: map<int, int>, desc: Below, scope: set<int>, i: nat)
    requires Distinct(items) && i < |items| && Rooted(items, parents, desc, scope, i)
    ensures Rooted(items, Released(parents, Leavers(items, parents, desc, scope)), desc, scope, i)
    ensures Released(parents, Leavers(items, parents, desc, scope))[items[i].pos] == parents[items[i].pos]
  {
    var gid := parents[items[i].pos];
    RootedTouches(items, parents, desc, scope, i);
    FewerMembers(parents, Leavers(items, parents, desc, scope), gid);
    if Steady(items, parents, desc, i, gid) {
      SteadyRemains(items, parents, desc, scope, i);
    } else if Hangs(items, parents, desc, i, gid) && Rooted(items, parents, desc, scope, i - 1) {
      RootedRemains(items, parents, desc, scope, i - 1);
    }
  }

  /** A rooted member is still a member, and rooted, when the passes are over: one below
      its header or a subheader, one above a subheader, one of two side by side, the lone
      member, and whatever hangs from these. */
  lemma {:induction false} RootedNeverLeave(items: seq<SheetItem>, parents: map<int, int>, desc: Below, scope: set<int>, i: nat)
    requires Distinct(items) && i < |items| && Rooted(items, parents, desc, scope, i)
    ensures items[i].pos in Healed(items, parents, desc, scope)
    ensures Healed(items, parents, desc, scope)[items[i].pos] == parents[items[i].pos]
    decreases |Placed(parents, scope)|
  {
    var who := Leavers(items, parents, desc, scope);
    if who != {} {
      PassShrinks(items, parents, desc, scope);
      RootedRemains(items, parents, desc, scope, i);
      RootedNeverLeave(items, Released(parents, who), desc, scope, i);
    }
  }

  // ------------------------------------------------------------ who leaves

  /** In scope, on the sheet, and touching nothing of the group. */
  predicate Separated(items: seq<SheetItem>, parents: map<int, int>, desc: Below, scope: set<int>, gid: int, pos: int) {
    pos in scope && PlaceOf(items, pos) >= 0 && !Touches(items, PlaceOf(items, pos), gid, parents, desc)
  }

  /** One pass empties a group exactly when it has two or more members and each of them
      is separated. */
  lemma PassEmptiesIff(items: seq<SheetItem>, parents: map<int, int>, desc: Below, scope: set<int>, gid: int)
    requires gid != 0 && MembersOf(parents, gid) != {}
    ensures MembersOf(Released(parents, Leavers(items, parents, desc, scope)), gid) == {} <==>
      (|MembersOf(parents, gid)| > 1 && forall pos :: pos in MembersOf(parents, gid) ==> Separated(items, parents, desc, scope, gid, pos))
  {
    var who := Leavers(items, parents, desc, scope);
    FewerMembers(parents, who, gid);
    var members := MembersOf(parents, gid);
    NoneLeft(members, who);
    forall x | x in members && |members| > 1
      ensures x in who <==> Separated(items, parents, desc, scope, gid, x)
    {
      assert x in who <==> x in scope && Leaves(items, parents, desc, x);
    }
    var pos := PickFrom(members);
    assert pos in who ==> |members| > 1;
    if |members| > 1 && forall x :: x in members ==> Separated(items, parents, desc, scope, gid, x) {
      forall x | x in members ensures x in who {
        assert Separated(items, parents, desc, scope, gid, x);
      }
    }
  }

  lemma NoneLeft<T>(a: set<T>, b: set<T>)
    ensures a - b == {} <==> a <= b
  {
    if !(a <= b) {
      var x :| x in a && x !in b;
      assert x in a - b;
    }
  }
}
