/** What healSeparated (ctp/sheet.go) leaves after all its passes, told from the sheet
    before the call: exactly when it releases every member that is not rooted, when it
    empties a group, and when the healed sheet has every folder in one piece. */
module HealOutcome {
  import opened Util
  import opened Forest
  import opened PreOrder
  import opened Heal
  import opened HealRuns

  predicate MemberAt(items: seq<SheetItem>, parents: map<int, int>, gid: int, i: nat)
    requires i < |items|
  {
    items[i].Cue? && items[i].pos in parents && parents[items[i].pos] == gid
  }

  /** The cue at row i is a member and not rooted. */
  predicate LooseAt(items: seq<SheetItem>, parents: map<int, int>, desc: Below, scope: set<int>, i: nat)
    requires i < |items|
  {
    && items[i].Cue? && items[i].pos in parents && parents[items[i].pos] != 0
    && !Rooted(items, parents, desc, scope, i)
  }

  /** The members on the sheet that are not rooted. */
  function Loose(items: seq<SheetItem>, parents: map<int, int>, desc: Below, scope: set<int>): set<int> {
    set pos | pos in parents && parents[pos] != 0 && PlaceOf(items, pos) >= 0 && !Rooted(items, parents, desc, scope, PlaceOf(items, pos))
  }

  /** How many rows row i hangs below the one its chain starts from: each of them a cue
      of a group inside that of the next. */
  function Hang(items: seq<SheetItem>, parents: map<int, int>, desc: Below, i: nat): nat
    requires i < |items|
  {
    if items[i].Cue? && items[i].pos in parents && Hangs(items, parents, desc, i, parents[items[i].pos])
    then 1 + Hang(items, parents, desc, i - 1) else 0
  }

  ghost predicate HasRooted(items: seq<SheetItem>, parents: map<int, int>, desc: Below, scope: set<int>, gid: int) {
    exists i :: 0 <= i < |items| && Rooted(items, parents, desc, scope, i) && parents[items[i].pos] == gid
  }

  /** Row i is a member of gid, and none hangs longer. */
  ghost predicate Longest(items: seq<SheetItem>, parents: map<int, int>, desc: Below, gid: int, i: nat) {
    && i < |items| && MemberAt(items, parents, gid, i)
    && forall k :: 0 <= k < |items| && MemberAt(items, parents, gid, k) ==> Hang(items, parents, desc, k) <= Hang(items, parents, desc, i)
  }

  ghost predicate TwoLongest(items: seq<SheetItem>, parents: map<int, int>, desc: Below, gid: int) {
    exists i: nat, j: nat :: i < j && Longest(items, parents, desc, gid, i) && Longest(items, parents, desc, gid, j)
  }

  /** Every shared group without a rooted member has two that hang longest: its last
      ones leave together, so none is ever left alone and kept for it. */
  ghost predicate Tied(items: seq<SheetItem>, parents: map<int, int>, desc: Below, scope: set<int>) {
    forall gid :: gid != 0 && |MembersOf(parents, gid)| > 1 && !HasRooted(items, parents, desc, scope, gid) ==>
      TwoLongest(items, parents, desc, gid)
  }

  /** A sheet as it is read: each row once, every member on it, no group with id 0. */
  ghost predicate Whole(items: seq<SheetItem>, parents: map<int, int>, desc: Below) {
    && Distinct(items)
    && (forall gid :: 0 !in BelowOf(desc, gid))
    && forall pos :: pos in parents && parents[pos] != 0 ==> PlaceOf(items, pos) >= 0
  }

  // ------------------------------------------------------------- one pass

  lemma WholeAfter(items: seq<SheetItem>, parents: map<int, int>, desc: Below, who: set<int>)
    requires Whole(items, parents, desc)
    ensures Whole(items, Released(parents, who), desc)
  {
  }

  lemma InLoose(items: seq<SheetItem>, parents: map<int, int>, desc: Below, scope: set<int>, i: nat)
    requires Distinct(items) && i < |items| && items[i].Cue?
    ensures items[i].pos in Loose(items, parents, desc, scope) <==> LooseAt(items, parents, desc, scope, i)
  {
    PlaceUnique(items, items[i].pos, i);
  }

  /** Only loose members leave, and of these the ones that hang from nothing. */
  lemma LeavesIff(items: seq<SheetItem>, parents: map<int, int>, desc: Below, scope: set<int>, i: nat)
    requires Distinct(items) && i < |items| && items[i].Cue?
    ensures items[i].pos in Leavers(items, parents, desc, scope) <==>
      LooseAt(items, parents, desc, scope, i) && Hang(items, parents, desc, i) == 0
  {
    PlaceUnique(items, items[i].pos, i);
    if items[i].pos in parents {
      TouchesIff(items, parents, desc, i, parents[items[i].pos]);
      if Rooted(items, parents, desc, scope, i) { RootedTouches(items, parents, desc, scope, i); }
    }
  }

  /** What a loose member hangs from is loose. */
  lemma LooseAbove(items: seq<SheetItem>, parents: map<int, int>, desc: Below, scope: set<int>, i: nat)
    requires Whole(items, parents, desc) && i < |items| && LooseAt(items, parents, desc, scope, i) && Hang(items, parents, desc, i) > 0
    ensures i > 0 && LooseAt(items, parents, desc, scope, i - 1)
    ensures Hang(items, parents, desc, i) == 1 + Hang(items, parents, desc, i - 1)
  {
  }

  /** The chain of a loose member starts from one that leaves in the next pass. */
  lemma {:induction false} LooseStart(items: seq<SheetItem>, parents: map<int, int>, desc: Below, scope: set<int>, i: nat)
    requires Whole(items, parents, desc) && i < |items| && LooseAt(items, parents, desc, scope, i)
    ensures Leavers(items, parents, desc, scope) != {}
  {
    if Hang(items, parents, desc, i) > 0 {
      LooseAbove(items, parents, desc, scope, i);
      LooseStart(items, parents, desc, scope, i - 1);
    } else {
      LeavesIff(items, parents, desc, scope, i);
    }
  }

  /** The members a pass leaves hang one shorter. */
  lemma {:induction false} HangFalls(items: seq<SheetItem>, parents: map<int, int>, desc: Below, scope: set<int>, i: nat)
    requires Whole(items, parents, desc) && i < |items| && LooseAt(items, parents, desc, scope, i) && Hang(items, parents, desc, i) > 0
    ensures Hang(items, Released(parents, Leavers(items, parents, desc, scope)), desc, i) == Hang(items, parents, desc, i) - 1
  {
    var who := Leavers(items, parents, desc, scope);
    LeavesIff(items, parents, desc, scope, i);
    LooseAbove(items, parents, desc, scope, i);
    LeavesIff(items, parents, desc, scope, i - 1);
    if Hang(items, parents, desc, i - 1) > 0 { HangFalls(items, parents, desc, scope, i - 1); }
  }

  /** Nobody becomes loose. */
  lemma LooseWas(items: seq<SheetItem>, parents: map<int, int>, desc: Below, scope: set<int>, i: nat)
    requires Whole(items, parents, desc) && i < |items|
    requires LooseAt(items, Released(parents, Leavers(items, parents, desc, scope)), desc, scope, i)
    ensures LooseAt(items, parents, desc, scope, i) && items[i].pos !in Leavers(items, parents, desc, scope)
    ensures Hang(items, parents, desc, i) > 0
  {
    if Rooted(items, parents, desc, scope, i) { RootedRemains(items, parents, desc, scope, i); }
    LeavesIff(items, parents, desc, scope, i);
  }

  lemma SteadyBefore(items: seq<SheetItem>, parents: map<int, int>, desc: Below, who: set<int>, i: nat, gid: int)
    requires i < |items| && gid != 0 && Steady(items, Released(parents, who), desc, i, gid)
    ensures Steady(items, parents, desc, i, gid)
  {
  }

  lemma HangsBefore(items: seq<SheetItem>, parents: map<int, int>, desc: Below, who: set<int>, i: nat, gid: int)
    requires Whole(items, parents, desc) && i < |items| && Hangs(items, Released(parents, who), desc, i, gid)
    ensures Hangs(items, parents, desc, i, gid) && items[i - 1].pos !in who
  {
  }

  lemma TwoMembers(parents: map<int, int>, gid: int, a: int, b: int)
    requires a in MembersOf(parents, gid) && b in MembersOf(parents, gid) && a != b
    ensures |MembersOf(parents, gid)| > 1
  {
    SubsetCard({a, b}, MembersOf(parents, gid));
  }

  /** Every member is loose in a group without a rooted one. */
  lemma AllLoose(items: seq<SheetItem>, parents: map<int, int>, desc: Below, scope: set<int>, gid: int, k: nat)
    requires !HasRooted(items, parents, desc, scope, gid) && gid != 0 && k < |items| && MemberAt(items, parents, gid, k)
    ensures LooseAt(items, parents, desc, scope, k)
  {
  }

  /** In a tied sheet a member that outlives a pass is not left alone by it. */
  lemma StaysShared(items: seq<SheetItem>, parents: map<int, int>, desc: Below, scope: set<int>, i: nat)
    requires Whole(items, parents, desc) && Tied(items, parents, desc, scope) && i < |items|
    requires LooseAt(items, parents, desc, scope, i) && Hang(items, parents, desc, i) > 0
    ensures |MembersOf(Released(parents, Leavers(items, parents, desc, scope)), parents[items[i].pos])| > 1
  {
    var who, gid := Leavers(items, parents, desc, scope), parents[items[i].pos];
    var after := Released(parents, who);
    if HasRooted(items, parents, desc, scope, gid) {
      var k :| 0 <= k < |items| && Rooted(items, parents, desc, scope, k) && parents[items[k].pos] == gid;
      RootedRemains(items, parents, desc, scope, k);
      LeavesIff(items, parents, desc, scope, i);
      DistinctCues(items, i, k);
      TwoMembers(after, gid, items[k].pos, items[i].pos);
    } else {
      LooseIsShared(items, parents, desc, scope, i);
      var a: nat, b: nat :| a < b && Longest(items, parents, desc, gid, a) && Longest(items, parents, desc, gid, b);
      AllLoose(items, parents, desc, scope, gid, a);
      AllLoose(items, parents, desc, scope, gid, b);
      LeavesIff(items, parents, desc, scope, a);
      LeavesIff(items, parents, desc, scope, b);
      TwoMembers(after, gid, items[a].pos, items[b].pos);
    }
  }

  lemma DistinctCues(items: seq<SheetItem>, i: nat, k: nat)
    requires Distinct(items) && i < |items| && k < |items| && items[i].Cue? && items[k].Cue?
    ensures items[i].pos == items[k].pos ==> i == k
  {
    if items[i].pos == items[k].pos { DistinctAt(items, i, k); }
  }

  lemma LooseIsShared(items: seq<SheetItem>, parents: map<int, int>, desc: Below, scope: set<int>, i: nat)
    requires i < |items| && LooseAt(items, parents, desc, scope, i)
    ensures |MembersOf(parents, parents[items[i].pos])| > 1
  {
  }

  /** In a tied sheet who was loose and did not leave is loose. */
  lemma {:induction false} LooseStays(items: seq<SheetItem>, parents: map<int, int>, desc: Below, scope: set<int>, i: nat)
    requires Whole(items, parents, desc) && Tied(items, parents, desc, scope) && i < |items|
    requires LooseAt(items, parents, desc, scope, i) && Hang(items, parents, desc, i) > 0
    ensures LooseAt(items, Released(parents, Leavers(items, parents, desc, scope)), desc, scope, i)
  {
    var who, gid := Leavers(items, parents, desc, scope), parents[items[i].pos];
    var after := Released(parents, who);
    LeavesIff(items, parents, desc, scope, i);
    StaysShared(items, parents, desc, scope, i);
    if Steady(items, after, desc, i, gid) {
      SteadyBefore(items, parents, desc, who, i, gid);
    } else if Hangs(items, after, desc, i, gid) {
      HangsBefore(items, parents, desc, who, i, gid);
      LooseAbove(items, parents, desc, scope, i);
      LeavesIff(items, parents, desc, scope, i - 1);
      LooseStays(items, parents, desc, scope, i - 1);
    }
  }

  /** One pass over a tied sheet takes exactly the loose members that hang from nothing;
      the others stay loose, one shorter. */
  lemma PassTakes(items: seq<SheetItem>, parents: map<int, int>, desc: Below, scope: set<int>, i: nat)
    requires Whole(items, parents, desc) && Tied(items, parents, desc, scope) && i < |items| && items[i].Cue?
    ensures var who := Leavers(items, parents, desc, scope); var after := Released(parents, who);
      && (items[i].pos in who <==> LooseAt(items, parents, desc, scope, i) && Hang(items, parents, desc, i) == 0)
      && (LooseAt(items, after, desc, scope, i) <==> LooseAt(items, parents, desc, scope, i) && Hang(items, parents, desc, i) > 0)
      && (LooseAt(items, after, desc, scope, i) ==> Hang(items, after, desc, i) == Hang(items, parents, desc, i) - 1)
  {
    LeavesIff(items, parents, desc, scope, i);
    if LooseAt(items, Released(parents, Leavers(items, parents, desc, scope)), desc, scope, i) {
      LooseWas(items, parents, desc, scope, i);
    }
    if LooseAt(items, parents, desc, scope, i) && Hang(items, parents, desc, i) > 0 {
      LooseStays(items, parents, desc, scope, i);
      HangFalls(items, parents, desc, scope, i);
    }
  }

  // ------------------------------------------------------- tied, pass by pass

  lemma MemberRow(items: seq<SheetItem>, parents: map<int, int>, desc: Below, gid: int, pos: int) returns (i: nat)
    requires Whole(items, parents, desc) && gid != 0 && pos in MembersOf(parents, gid)
    ensures i < |items| && items[i] == Cue(pos) && MemberAt(items, parents, gid, i)
  {
    i := PlaceOf(items, pos);
  }

  lemma RootedBefore(items: seq<SheetItem>, parents: map<int, int>, desc: Below, scope: set<int>, gid: int)
    requires Distinct(items) && HasRooted(items, parents, desc, scope, gid)
    ensures HasRooted(items, Released(parents, Leavers(items, parents, desc, scope)), desc, scope, gid)
  {
    var i :| 0 <= i < |items| && Rooted(items, parents, desc, scope, i) && parents[items[i].pos] == gid;
    RootedRemains(items, parents, desc, scope, i);
  }

  /** Among members that all outlive the pass, the longest stay the longest. */
  lemma LongestStays(items: seq<SheetItem>, parents: map<int, int>, desc: Below, scope: set<int>, gid: int, i: nat)
    requires Whole(items, parents, desc) && gid != 0 && !HasRooted(items, parents, desc, scope, gid)
    requires Longest(items, parents, desc, gid, i) && Hang(items, parents, desc, i) > 0
    ensures Longest(items, Released(parents, Leavers(items, parents, desc, scope)), desc, gid, i)
  {
    var who := Leavers(items, parents, desc, scope);
    var after := Released(parents, who);
    AllLoose(items, parents, desc, scope, gid, i);
    LeavesIff(items, parents, desc, scope, i);
    HangFalls(items, parents, desc, scope, i);
    forall k | 0 <= k < |items| && MemberAt(items, after, gid, k)
      ensures Hang(items, after, desc, k) <= Hang(items, after, desc, i)
    {
      assert MemberAt(items, parents, gid, k) && items[k].pos !in who;
      AllLoose(items, parents, desc, scope, gid, k);
      LeavesIff(items, parents, desc, scope, k);
      HangFalls(items, parents, desc, scope, k);
    }
  }

  lemma TiedGroup(items: seq<SheetItem>, parents: map<int, int>, desc: Below, scope: set<int>, gid: int)
    requires Whole(items, parents, desc) && Tied(items, parents, desc, scope) && gid != 0
    requires var after := Released(parents, Leavers(items, parents, desc, scope));
      |MembersOf(after, gid)| > 1 && !HasRooted(items, after, desc, scope, gid)
    ensures TwoLongest(items, Released(parents, Leavers(items, parents, desc, scope)), desc, gid)
  {
    var who := Leavers(items, parents, desc, scope);
    var after := Released(parents, who);
    FewerMembers(parents, who, gid);
    if HasRooted(items, parents, desc, scope, gid) { RootedBefore(items, parents, desc, scope, gid); }
    var a: nat, b: nat :| a < b && Longest(items, parents, desc, gid, a) && Longest(items, parents, desc, gid, b);
    var pos := PickFrom(MembersOf(after, gid));
    WholeAfter(items, parents, desc, who);
    var k := MemberRow(items, after, desc, gid, pos);
    assert MemberAt(items, parents, gid, k) && items[k].pos !in who;
    AllLoose(items, parents, desc, scope, gid, k);
    LeavesIff(items, parents, desc, scope, k);
    LongestStays(items, parents, desc, scope, gid, a);
    LongestStays(items, parents, desc, scope, gid, b);
  }

  lemma TiedAfter(items: seq<SheetItem>, parents: map<int, int>, desc: Below, scope: set<int>)
    requires Whole(items, parents, desc) && Tied(items, parents, desc, scope)
    ensures Tied(items, Released(parents, Leavers(items, parents, desc, scope)), desc, scope)
  {
    var after := Released(parents, Leavers(items, parents, desc, scope));
    forall gid | gid != 0 && |MembersOf(after, gid)| > 1 && !HasRooted(items, after, desc, scope, gid)
      ensures TwoLongest(items, after, desc, gid)
    {
      TiedGroup(items, parents, desc, scope, gid);
    }
  }

  lemma LooseIn(items: seq<SheetItem>, parents: map<int, int>, desc: Below, scope: set<int>, pos: int) returns (i: nat)
    requires Distinct(items) && pos in Loose(items, parents, desc, scope)
    ensures i < |items| && items[i] == Cue(pos) && LooseAt(items, parents, desc, scope, i)
  {
    i := PlaceOf(items, pos);
  }

  lemma LeaversAreLoose(items: seq<SheetItem>, parents: map<int, int>, desc: Below, scope: set<int>)
    requires Distinct(items)
    ensures Leavers(items, parents, desc, scope) <= Loose(items, parents, desc, scope)
  {
    forall pos | pos in Leavers(items, parents, desc, scope) ensures pos in Loose(items, parents, desc, scope) {
      LeavesIff(items, parents, desc, scope, PlaceOf(items, pos));
    }
  }

  lemma LooseShrinks(items: seq<SheetItem>, parents: map<int, int>, desc: Below, scope: set<int>)
    requires Whole(items, parents, desc)
    ensures var who := Leavers(items, parents, desc, scope);
      Loose(items, Released(parents, who), desc, scope) <= Loose(items, parents, desc, scope) - who
  {
    var who := Leavers(items, parents, desc, scope);
    forall pos | pos in Loose(items, Released(parents, who), desc, scope) ensures pos in Loose(items, parents, desc, scope) - who {
      var i := LooseIn(items, Released(parents, who), desc, scope, pos);
      LooseWas(items, parents, desc, scope, i);
      InLoose(items, parents, desc, scope, i);
    }
  }

  lemma LooseLasts(items: seq<SheetItem>, parents: map<int, int>, desc: Below, scope: set<int>)
    requires Whole(items, parents, desc) && Tied(items, parents, desc, scope)
    ensures var who := Leavers(items, parents, desc, scope);
      Loose(items, Released(parents, who), desc, scope) == Loose(items, parents, desc, scope) - who
  {
    var who := Leavers(items, parents, desc, scope);
    LooseShrinks(items, parents, desc, scope);
    forall pos | pos in Loose(items, parents, desc, scope) - who ensures pos in Loose(items, Released(parents, who), desc, scope) {
      var i := LooseIn(items, parents, desc, scope, pos);
      LeavesIff(items, parents, desc, scope, i);
      LooseStays(items, parents, desc, scope, i);
      InLoose(items, Released(parents, who), desc, scope, i);
    }
  }

  lemma ReleasedBoth(parents: map<int, int>, all: set<int>, who: set<int>)
    requires who <= all
    ensures Released(Released(parents, who), all - who) == Released(parents, all)
  {
  }

  lemma NobodyLoose(items: seq<SheetItem>, parents: map<int, int>, desc: Below, scope: set<int>)
    requires Whole(items, parents, desc) && Leavers(items, parents, desc, scope) == {}
    ensures Loose(items, parents, desc, scope) == {} && Released(parents, {}) == parents
  {
    forall pos | pos in Loose(items, parents, desc, scope) ensures false {
      var i := LooseIn(items, parents, desc, scope, pos);
      LooseStart(items, parents, desc, scope, i);
    }
  }

  lemma {:induction false} TiedReleases(items: seq<SheetItem>, parents: map<int, int>, desc: Below, scope: set<int>)
    requires Whole(items, parents, desc) && Tied(items, parents, desc, scope)
    ensures Healed(items, parents, desc, scope) == Released(parents, Loose(items, parents, desc, scope))
    decreases |Placed(parents, scope)|
  {
    var who := Leavers(items, parents, desc, scope);
    if who == {} {
      NobodyLoose(items, parents, desc, scope);
    } else {
      PassShrinks(items, parents, desc, scope);
      WholeAfter(items, parents, desc, who);
      TiedAfter(items, parents, desc, scope);
      TiedReleases(items, Released(parents, who), desc, scope);
      LooseLasts(items, parents, desc, scope);
      LeaversAreLoose(items, parents, desc, scope);
      ReleasedBoth(parents, Loose(items, parents, desc, scope), who);
    }
  }

  // ------------------------------------------------------ and the converse

  /** Every member that is not rooted has been released when the passes are over. */
  ghost predicate AllReleased(items: seq<SheetItem>, parents: map<int, int>, desc: Below, scope: set<int>) {
    Healed(items, parents, desc, scope) == Released(parents, Loose(items, parents, desc, scope))
  }

  /** Then nobody is rooted for being left alone by the first pass. */
  lemma ReleasedLasts(items: seq<SheetItem>, parents: map<int, int>, desc: Below, scope: set<int>)
    requires Whole(items, parents, desc) && AllReleased(items, parents, desc, scope) && Leavers(items, parents, desc, scope) != {}
    ensures var who := Leavers(items, parents, desc, scope);
      Loose(items, Released(parents, who), desc, scope) == Loose(items, parents, desc, scope) - who
  {
    var who := Leavers(items, parents, desc, scope);
    var after := Released(parents, who);
    LooseShrinks(items, parents, desc, scope);
    forall pos | pos in Loose(items, parents, desc, scope) - who ensures pos in Loose(items, after, desc, scope) {
      var i := LooseIn(items, parents, desc, scope, pos);
      if Rooted(items, after, desc, scope, i) {
        RootedNeverLeave(items, after, desc, scope, i);
        PassShrinks(items, parents, desc, scope);
      }
      InLoose(items, after, desc, scope, i);
    }
  }

  lemma ReleasedAfter(items: seq<SheetItem>, parents: map<int, int>, desc: Below, scope: set<int>)
    requires Whole(items, parents, desc) && AllReleased(items, parents, desc, scope) && Leavers(items, parents, desc, scope) != {}
    ensures AllReleased(items, Released(parents, Leavers(items, parents, desc, scope)), desc, scope)
  {
    var who := Leavers(items, parents, desc, scope);
    ReleasedLasts(items, parents, desc, scope);
    LeaversAreLoose(items, parents, desc, scope);
    ReleasedBoth(parents, Loose(items, parents, desc, scope), who);
    PassShrinks(items, parents, desc, scope);
  }

  /** A group of which the pass takes every member. */
  lemma AllAtOnce(items: seq<SheetItem>, parents: map<int, int>, desc: Below, scope: set<int>, gid: int)
    requires Whole(items, parents, desc) && gid != 0 && |MembersOf(parents, gid)| > 1
    requires MembersOf(Released(parents, Leavers(items, parents, desc, scope)), gid) == {}
    ensures TwoLongest(items, parents, desc, gid)
  {
    var who, members := Leavers(items, parents, desc, scope), MembersOf(parents, gid);
    FewerMembers(parents, who, gid);
    NoneLeft(members, who);
    forall k | 0 <= k < |items| && MemberAt(items, parents, gid, k) ensures Hang(items, parents, desc, k) == 0 {
      assert items[k].pos in members;
      LeavesIff(items, parents, desc, scope, k);
    }
    var p, q := TwoOf(members);
    var i := MemberRow(items, parents, desc, gid, p);
    var j := MemberRow(items, parents, desc, gid, q);
    assert Longest(items, parents, desc, gid, i) && Longest(items, parents, desc, gid, j);
    if i < j {
      assert TwoLongest(items, parents, desc, gid);
    } else {
      assert j < i;
    }
  }

  lemma TwoOf<T>(s: set<T>) returns (x: T, y: T)
    requires |s| > 1
    ensures x in s && y in s && x != y
  {
    x := PickFrom(s);
    assert |s - {x}| == |s| - 1;
    y := PickFrom(s - {x});
  }

  /** The longest after the pass were the longest before it. */
  lemma LongestWas(items: seq<SheetItem>, parents: map<int, int>, desc: Below, scope: set<int>, gid: int, i: nat)
    requires Whole(items, parents, desc) && gid != 0 && !HasRooted(items, parents, desc, scope, gid)
    requires Longest(items, Released(parents, Leavers(items, parents, desc, scope)), desc, gid, i)
    ensures Longest(items, parents, desc, gid, i)
  {
    var who := Leavers(items, parents, desc, scope);
    var after := Released(parents, who);
    assert MemberAt(items, parents, gid, i) && items[i].pos !in who;
    AllLoose(items, parents, desc, scope, gid, i);
    LeavesIff(items, parents, desc, scope, i);
    HangFalls(items, parents, desc, scope, i);
    forall k | 0 <= k < |items| && MemberAt(items, parents, gid, k)
      ensures Hang(items, parents, desc, k) <= Hang(items, parents, desc, i)
    {
      AllLoose(items, parents, desc, scope, gid, k);
      LeavesIff(items, parents, desc, scope, k);
      if Hang(items, parents, desc, k) > 0 {
        HangFalls(items, parents, desc, scope, k);
        assert MemberAt(items, after, gid, k);
      }
    }
  }

  /** A shared group without a rooted member, before a pass after which the sheet is tied. */
  lemma TiedBefore(items: seq<SheetItem>, parents: map<int, int>, desc: Below, scope: set<int>, gid: int)
    requires Whole(items, parents, desc) && AllReleased(items, parents, desc, scope) && Leavers(items, parents, desc, scope) != {}
    requires Tied(items, Released(parents, Leavers(items, parents, desc, scope)), desc, scope)
    requires gid != 0 && |MembersOf(parents, gid)| > 1 && !HasRooted(items, parents, desc, scope, gid)
    ensures TwoLongest(items, parents, desc, gid)
  {
    var who := Leavers(items, parents, desc, scope);
    var after := Released(parents, who);
    if MembersOf(after, gid) == {} {
      AllAtOnce(items, parents, desc, scope, gid);
    } else {
      ReleasedLasts(items, parents, desc, scope);
      WholeAfter(items, parents, desc, who);
      StillLoose(items, parents, desc, scope, gid);
      var pos := PickFrom(MembersOf(after, gid));
      var k := MemberRow(items, after, desc, gid, pos);
      AllLoose(items, after, desc, scope, gid, k);
      LooseIsShared(items, after, desc, scope, k);
      var a: nat, b: nat :| a < b && Longest(items, after, desc, gid, a) && Longest(items, after, desc, gid, b);
      LongestWas(items, parents, desc, scope, gid, a);
      LongestWas(items, parents, desc, scope, gid, b);
    }
  }

  lemma StillLoose(items: seq<SheetItem>, parents: map<int, int>, desc: Below, scope: set<int>, gid: int)
    requires Whole(items, parents, desc) && gid != 0 && !HasRooted(items, parents, desc, scope, gid)
    requires var who := Leavers(items, parents, desc, scope);
      Loose(items, Released(parents, who), desc, scope) == Loose(items, parents, desc, scope) - who
    ensures !HasRooted(items, Released(parents, Leavers(items, parents, desc, scope)), desc, scope, gid)
  {
    var who := Leavers(items, parents, desc, scope);
    var after := Released(parents, who);
    forall k | 0 <= k < |items| && MemberAt(items, after, gid, k) ensures !Rooted(items, after, desc, scope, k) {
      assert MemberAt(items, parents, gid, k) && items[k].pos !in who;
      AllLoose(items, parents, desc, scope, gid, k);
      InLoose(items, parents, desc, scope, k);
      InLoose(items, after, desc, scope, k);
    }
  }

  lemma {:induction false} ReleasedIsTied(items: seq<SheetItem>, parents: map<int, int>, desc: Below, scope: set<int>)
    requires Whole(items, parents, desc) && AllReleased(items, parents, desc, scope)
    ensures Tied(items, parents, desc, scope)
    decreases |Placed(parents, scope)|
  {
    var who := Leavers(items, parents, desc, scope);
    if who == {} {
      NobodyLoose(items, parents, desc, scope);
      forall gid | gid != 0 && |MembersOf(parents, gid)| > 1 ensures HasRooted(items, parents, desc, scope, gid) {
        var pos := PickFrom(MembersOf(parents, gid));
        var i := MemberRow(items, parents, desc, gid, pos);
        InLoose(items, parents, desc, scope, i);
      }
    } else {
      PassShrinks(items, parents, desc, scope);
      WholeAfter(items, parents, desc, who);
      ReleasedAfter(items, parents, desc, scope);
      ReleasedIsTied(items, Released(parents, who), desc, scope);
      forall gid | gid != 0 && |MembersOf(parents, gid)| > 1 && !HasRooted(items, parents, desc, scope, gid)
        ensures TwoLongest(items, parents, desc, gid)
      {
        TiedBefore(items, parents, desc, scope, gid);
      }
    }
  }

  /** Healing releases exactly the members that are not rooted exactly when the sheet is
      tied.  When it is not, somebody who is not rooted is the last of a group, and is
      kept for being alone. */
  lemma HealedIsIff(items: seq<SheetItem>, parents: map<int, int>, desc: Below, scope: set<int>)
    requires Whole(items, parents, desc)
    ensures Healed(items, parents, desc, scope) == Released(parents, Loose(items, parents, desc, scope)) <==> Tied(items, parents, desc, scope)
  {
    if Tied(items, parents, desc, scope) { TiedReleases(items, parents, desc, scope); }
    if AllReleased(items, parents, desc, scope) { ReleasedIsTied(items, parents, desc, scope); }
  }

  /** In a tied sheet a group loses all its members exactly when none of them is rooted,
      in however many passes. */
  lemma HealedEmptiesIff(items: seq<SheetItem>, parents: map<int, int>, desc: Below, scope: set<int>, gid: int)
    requires Whole(items, parents, desc) && Tied(items, parents, desc, scope) && gid != 0 && MembersOf(parents, gid) != {}
    ensures MembersOf(Healed(items, parents, desc, scope), gid) == {} <==> !HasRooted(items, parents, desc, scope, gid)
  {
    var loose, members := Loose(items, parents, desc, scope), MembersOf(parents, gid);
    HealedIsIff(items, parents, desc, scope);
    FewerMembers(parents, loose, gid);
    NoneLeft(members, loose);
    if HasRooted(items, parents, desc, scope, gid) {
      var k :| 0 <= k < |items| && Rooted(items, parents, desc, scope, k) && parents[items[k].pos] == gid;
      InLoose(items, parents, desc, scope, k);
      assert items[k].pos in members;
    } else {
      forall pos | pos in members ensures pos in loose {
        var i := MemberRow(items, parents, desc, gid, pos);
        InLoose(items, parents, desc, scope, i);
      }
    }
  }

  /** How a sheet is not tied: a member that hangs from one that leaves, and is the only
      one of its group to outlive the pass, touches nothing any more and stays. */
  lemma LastOneKept(items: seq<SheetItem>, parents: map<int, int>, desc: Below, scope: set<int>, i: nat)
    requires Whole(items, parents, desc) && i < |items| && LooseAt(items, parents, desc, scope, i) && Hang(items, parents, desc, i) == 1
    requires |MembersOf(Released(parents, Leavers(items, parents, desc, scope)), parents[items[i].pos])| == 1
    ensures items[i].pos in Healed(items, parents, desc, scope)
    ensures Healed(items, parents, desc, scope)[items[i].pos] == parents[items[i].pos]
    ensures !Touches(items, i, parents[items[i].pos], Released(parents, Leavers(items, parents, desc, scope)), desc)
    ensures !Tied(items, parents, desc, scope)
  {
    var who := Leavers(items, parents, desc, scope);
    var after := Released(parents, who);
    LeavesIff(items, parents, desc, scope, i);
    HangFalls(items, parents, desc, scope, i);
    LooseStart(items, parents, desc, scope, i);
    PassShrinks(items, parents, desc, scope);
    RootedNeverLeave(items, after, desc, scope, i);
    if Steady(items, after, desc, i, parents[items[i].pos]) { SteadyBefore(items, parents, desc, who, i, parents[items[i].pos]); }
    TouchesIff(items, after, desc, i, parents[items[i].pos]);
    InLoose(items, parents, desc, scope, i);
    HealedIsIff(items, parents, desc, scope);
  }

  // -------------------------------------------------- every folder in one piece

  /** What stays in a healed sheet without a gap was rooted before. */
  lemma {:induction false} StayerRooted(s: Sheet, desc: Below, scope: set<int>, i: nat)
    requires Whole(s.items, s.parents, desc) && i < |s.items| && s.items[i].Cue? && s.items[i].pos in s.parents
    requires var t := s.(parents := Healed(s.items, s.parents, desc, scope));
      Scope(t, s.items[i]) != 0 && forall k :: 0 <= k < |t.items| ==> TouchesAbove(t, desc, k)
    ensures Rooted(s.items, s.parents, desc, scope, i)
  {
    var t := s.(parents := Healed(s.items, s.parents, desc, scope));
    HealedOnlyReleases(s.items, s.parents, desc, scope);
    var gid := s.parents[s.items[i].pos];
    assert Scope(t, s.items[i]) == gid && TouchesAbove(t, desc, i);
    if !Steady(s.items, s.parents, desc, i, gid) {
      StayerRooted(s, desc, scope, i - 1);
    }
  }

  lemma HealedInOnePiece(s: Sheet, desc: Below, scope: set<int>)
    requires Whole(s.items, s.parents, desc)
    requires var t := s.(parents := Healed(s.items, s.parents, desc, scope));
      forall k :: 0 <= k < |t.items| ==> TouchesAbove(t, desc, k)
    ensures AllReleased(s.items, s.parents, desc, scope)
  {
    var r := Healed(s.items, s.parents, desc, scope);
    HealedOnlyReleases(s.items, s.parents, desc, scope);
    forall pos | pos in s.parents
      ensures r[pos] == if pos in Loose(s.items, s.parents, desc, scope) then 0 else s.parents[pos]
    {
      if s.parents[pos] != 0 {
        var i := MemberRow(s.items, s.parents, desc, s.parents[pos], pos);
        InLoose(s.items, s.parents, desc, scope, i);
        if r[pos] != 0 { StayerRooted(s, desc, scope, i); }
        if Rooted(s.items, s.parents, desc, scope, i) { RootedNeverLeave(s.items, s.parents, desc, scope, i); }
      }
    }
  }

  lemma SheetIsWhole(s: Sheet, d: map<int, nat>, desc: Below)
    requires Depths(s.groups, d) && Complete(s) && IsBelow(desc, s.groups, d)
    ensures Whole(s.items, s.parents, desc)
  {
    forall gid ensures 0 !in BelowOf(desc, gid) { NoZeroBelow(desc, s.groups, d, gid); }
    forall pos | pos in s.parents ensures PlaceOf(s.items, pos) >= 0 { assert Cue(pos) in s.items; }
  }

  lemma NoZeroBelow(desc: Below, g: Groups, d: map<int, nat>, gid: int)
    requires Depths(g, d) && IsBelow(desc, g, d)
    ensures 0 !in BelowOf(desc, gid)
  {
    if gid in desc { assert 0 in desc[gid] ==> Within(g, d, 0, gid); }
  }

  /** Healing leaves every folder in one piece exactly when the sheet before it is tied
      and every row with a group, once the members that are not rooted are out, touches
      it from above. */
  lemma HealedPreOrderIff(s: Sheet, d: map<int, nat>, desc: Below, scope: set<int>)
    requires Depths(s.groups, d) && Complete(s) && NoDangling(s) && Descends(desc, s.groups)
    ensures IsPreOrder(s.(parents := Healed(s.items, s.parents, desc, scope)), d) <==>
      (Tied(s.items, s.parents, desc, scope)
       && var t := s.(parents := Released(s.parents, Loose(s.items, s.parents, desc, scope)));
        forall i :: 0 <= i < |t.items| ==> TouchesAbove(t, desc, i))
  {
    var t := s.(parents := Healed(s.items, s.parents, desc, scope));
    DescendsIff(desc, s.groups, d);
    SheetIsWhole(s, d, desc);
    HealedOnlyReleases(s.items, s.parents, desc, scope);
    PreOrderIffTouchesAbove(t, d, desc);
    HealedIsIff(s.items, s.parents, desc, scope);
    if IsPreOrder(t, d) { HealedInOnePiece(s, desc, scope); }
  }
}
