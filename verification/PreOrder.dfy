/** The visual sequence (ctp/sheet.go) and the shape the whole sheet model
    depends on: every header followed directly by everything inside its group. */
module PreOrder {
  import opened Util
  import opened Forest

  datatype SheetItem = Cue(pos: int) | Header(gid: int)

  /** The stored facts: visual order, the membership of each cue, the group table. */
  datatype Sheet = Sheet(items: seq<SheetItem>, parents: map<int, int>, groups: Groups)

  /** The group an item sits in directly; 0 is top level.  A missing row reads as
      0, as a missing key does in the program's maps. */
  function Scope(s: Sheet, item: SheetItem): int {
    match item
    case Cue(pos) => if pos in s.parents then s.parents[pos] else 0
    case Header(gid) => if gid in s.groups then s.groups[gid].parent else 0
  }

  /** The sequence holds every cue and every header once. */
  ghost predicate Complete(s: Sheet) {
    && Distinct(s.items)
    && (forall pos {:trigger pos in s.parents} {:trigger Cue(pos)} :: Cue(pos) in s.items <==> pos in s.parents)
    && (forall gid {:trigger gid in s.groups} {:trigger Header(gid)} :: Header(gid) in s.items <==> gid in s.groups)
  }

  /** No cue names a group that is not there. */
  ghost predicate NoDangling(s: Sheet) {
    forall pos :: pos in s.parents && s.parents[pos] != 0 ==> s.parents[pos] in s.groups
  }

  ghost predicate Inside(s: Sheet, d: map<int, nat>, item: SheetItem, top: int)
    requires Depths(s.groups, d)
  {
    Within(s.groups, d, Scope(s, item), top)
  }

  /** The rows strictly between i and j are exactly the rows inside gid. */
  ghost predicate Block(s: Sheet, d: map<int, nat>, gid: int, i: int, j: int)
    requires Depths(s.groups, d)
  {
    && 0 <= i < j <= |s.items|
    && forall k :: 0 <= k < |s.items| ==> (Inside(s, d, s.items[k], gid) <==> i < k < j)
  }

  /** Each header is directly followed by its whole subtree and nothing else. */
  ghost predicate IsPreOrder(s: Sheet, d: map<int, nat>)
    requires Depths(s.groups, d)
  {
    && Complete(s)
    && NoDangling(s)
    && forall i :: 0 <= i < |s.items| && s.items[i].Header? ==> exists j :: Block(s, d, s.items[i].gid, i, j)
  }

  // ------------------------------------- the same shape, seen row by row

  /** The group open after a row: a header opens its own, a cue leaves its own. */
  function OpenAfter(s: Sheet, item: SheetItem): int {
    match item
    case Cue(_) => Scope(s, item)
    case Header(gid) => gid
  }

  function OpenAt(s: Sheet, k: nat): int
    requires k <= |s.items|
  {
    if k == 0 then 0 else OpenAfter(s, s.items[k - 1])
  }

  /** A row may follow when its scope is top level, or open around it. */
  ghost predicate Follows(s: Sheet, d: map<int, nat>, item: SheetItem, open: int)
    requires Depths(s.groups, d)
  {
    Scope(s, item) == 0 || Within(s.groups, d, open, Scope(s, item))
  }

  ghost predicate Nested(s: Sheet, d: map<int, nat>)
    requires Depths(s.groups, d)
  {
    forall k {:trigger FollowsAt(s, d, k)} :: 0 <= k < |s.items| ==> FollowsAt(s, d, k)
  }

  ghost predicate FollowsAt(s: Sheet, d: map<int, nat>, k: int)
    requires Depths(s.groups, d) && 0 <= k < |s.items|
  {
    Follows(s, d, s.items[k], OpenAt(s, k))
  }

  /** One step of "inside top": whether the group open after a row is inside top
      is decided by the row itself. */
  lemma OpenInside(s: Sheet, d: map<int, nat>, k: nat, top: int)
    requires Depths(s.groups, d) && k < |s.items| && top in s.groups
    requires s.items[k].Header? ==> s.items[k].gid in s.groups
    ensures Within(s.groups, d, OpenAt(s, k + 1), top)
       <==> s.items[k] == Header(top) || Inside(s, d, s.items[k], top)
  {
  }

  lemma PreOrderIsNested(s: Sheet, d: map<int, nat>)
    requires Depths(s.groups, d) && IsPreOrder(s, d)
    ensures Nested(s, d)
  {
    forall k | 0 <= k < |s.items|
      ensures FollowsAt(s, d, k)
    {
      var top := Scope(s, s.items[k]);
      if top != 0 {
        assert top in s.groups by { ScopeExists(s, d, s.items[k]); }
        assert Header(top) in s.items;
        var i :| 0 <= i < |s.items| && s.items[i] == Header(top);
        var j :| Block(s, d, s.items[i].gid, i, j);
        assert Inside(s, d, s.items[k], top);
        if i < k - 1 {
          assert Inside(s, d, s.items[k - 1], top);
        }
        HeaderKnown(s, k - 1);
        OpenInside(s, d, k - 1, top);
      }
    }
  }

  lemma ScopeExists(s: Sheet, d: map<int, nat>, item: SheetItem)
    requires Depths(s.groups, d) && NoDangling(s)
    ensures Scope(s, item) == 0 || Scope(s, item) in s.groups
  {
    if item.Header? && item.gid in s.groups {
      assert d[item.gid] >= 0;
    }
  }

  lemma HeaderKnown(s: Sheet, k: nat)
    requires Complete(s) && k < |s.items|
    ensures s.items[k].Header? ==> s.items[k].gid in s.groups
  {
    if s.items[k].Header? {
      assert Header(s.items[k].gid) in s.items;
    }
  }

  /** Before its header, nothing is inside a group. */
  lemma {:induction false} ClosedBefore(s: Sheet, d: map<int, nat>, i: nat, k: nat)
    requires Depths(s.groups, d) && Complete(s) && Nested(s, d)
    requires k <= i < |s.items| && s.items[i].Header?
    ensures !Within(s.groups, d, OpenAt(s, k), s.items[i].gid)
    ensures !Inside(s, d, s.items[k], s.items[i].gid)
  {
    var top := s.items[i].gid;
    HeaderKnown(s, i);
    if k > 0 {
      ClosedBefore(s, d, i, k - 1);
      HeaderKnown(s, k - 1);
      OpenInside(s, d, k - 1, top);
    }
    StaysOut(s, d, k, top);
  }

  /** A row that follows a group outside top is outside top too. */
  lemma StaysOut(s: Sheet, d: map<int, nat>, k: nat, top: int)
    requires Depths(s.groups, d) && Nested(s, d) && k < |s.items|
    requires !Within(s.groups, d, OpenAt(s, k), top)
    ensures !Inside(s, d, s.items[k], top)
  {
    if Inside(s, d, s.items[k], top) {
      assert FollowsAt(s, d, k);
      WithinTransitive(s.groups, d, OpenAt(s, k), Scope(s, s.items[k]), top);
    }
  }

  /** Once a group is left it is not entered again. */
  lemma {:induction false} ClosedAfter(s: Sheet, d: map<int, nat>, top: int, j: nat, k: nat)
    requires Depths(s.groups, d) && Complete(s) && Nested(s, d)
    requires j <= k < |s.items| && top in s.groups
    requires forall m :: j <= m < |s.items| ==> s.items[m] != Header(top)
    requires !Inside(s, d, s.items[j], top)
    ensures !Inside(s, d, s.items[k], top)
    decreases k
  {
    if j < k {
      ClosedAfter(s, d, top, j, k - 1);
      HeaderKnown(s, k - 1);
      OpenInside(s, d, k - 1, top);
      StaysOut(s, d, k, top);
    }
  }

  /** The first row from j on that is outside top. */
  lemma {:induction false} BlockEnd(s: Sheet, d: map<int, nat>, top: int, j: nat) returns (e: nat)
    requires Depths(s.groups, d) && j <= |s.items|
    ensures j <= e <= |s.items|
    ensures forall k :: j <= k < e ==> Inside(s, d, s.items[k], top)
    ensures e < |s.items| ==> !Inside(s, d, s.items[e], top)
    decreases |s.items| - j
  {
    if j == |s.items| || !Inside(s, d, s.items[j], top) {
      e := j;
    } else {
      e := BlockEnd(s, d, top, j + 1);
    }
  }

  lemma NestedIsPreOrder(s: Sheet, d: map<int, nat>)
    requires Depths(s.groups, d) && Complete(s) && NoDangling(s) && Nested(s, d)
    ensures IsPreOrder(s, d)
  {
    forall i | 0 <= i < |s.items| && s.items[i].Header?
      ensures exists j :: Block(s, d, s.items[i].gid, i, j)
    {
      var top := s.items[i].gid;
      var j := BlockEnd(s, d, top, i + 1);
      HeaderKnown(s, i);
      forall k | 0 <= k < |s.items|
        ensures Inside(s, d, s.items[k], top) <==> i < k < j
      {
        if k <= i {
          ClosedBefore(s, d, i, k);
        } else if j <= k {
          ClosedAfter(s, d, top, j, k);
        }
      }
      assert Block(s, d, top, i, j);
    }
  }

  /** The block form and the row-by-row form say the same. */
  lemma PreOrderIffNested(s: Sheet, d: map<int, nat>)
    requires Depths(s.groups, d) && Complete(s) && NoDangling(s)
    ensures IsPreOrder(s, d) <==> Nested(s, d)
  {
    if Nested(s, d) { NestedIsPreOrder(s, d); }
    if IsPreOrder(s, d) { PreOrderIsNested(s, d); }
  }
}
