/** The main theorem about SheetDrop: on a pre-order sheet, a drag leaves a
    pre-order sheet exactly when the dragged rows fit at the gap. */
module DropPreOrder {
  import opened Forest
  import opened PreOrder
  import opened SheetStore
  import opened DropSpec
  import opened DropFacts
  import opened DropAfter
  import opened DropShape

  ghost predicate Shaped(t: Tables, d: map<int, nat>, items: seq<SheetItem>, req: Request) {
    Succeeds(t, d, items, req) && IsPreOrder(SheetOf(t, items), d)
  }

  // ------------------------------------------------ the rows that stay nest

  lemma RestNestsBefore(t: Tables, d: map<int, nat>, items: seq<SheetItem>, req: Request)
    requires Shaped(t, d, items, req)
    ensures Nested(SheetOf(t, Keep(items, DragSet(t, d, items, req))), d)
  {
    var s := SheetOf(t, items);
    var drag := DragSet(t, d, items, req);
    PreOrderIsNested(s, d);
    if req.group == 0 {
      assert items[..|items|] == items;
      KeepNested(s, d, drag, |items|);
    } else {
      forall x | x in items ensures x in drag <==> Within(t.groups, d, OpenAfter(s, x), req.group) {
        RestOutside(t, d, items, req, x);
      }
      var i, j := BlockIsRun(s, d, drag, req.group);
      WithoutRunNested(s, d, req.group, i, j);
    }
  }

  lemma StayerScope(t: Tables, d: map<int, nat>, items: seq<SheetItem>, req: Request, x: SheetItem)
    requires Succeeds(t, d, items, req) && x in Keep(items, DragSet(t, d, items, req))
    ensures Scope(RestSheet(t, d, items, req), x) == Scope(SheetOf(t, items), x)
    ensures !Within(t.groups, d, OpenAfter(SheetOf(t, items), x), req.group)
  {
    KeepHas(items, DragSet(t, d, items, req), x);
    var i :| 0 <= i < |items| && items[i] == x;
    ScopesStay(t, d, items, req, i);
    RestOutside(t, d, items, req, x);
    if req.group == 0 && Within(t.groups, d, OpenAfter(SheetOf(t, items), x), req.group) {
      WithinDepth(t.groups, d, OpenAfter(SheetOf(t, items), x), req.group);
      assert false;
    }
  }

  /** Staying rows sit in the same groups, outside the dragged block. */
  ghost predicate Stayers(s: Sheet, d: map<int, nat>, r: Sheet, gid: int)
    requires Depths(s.groups, d)
  {
    && s.items == r.items
    && forall i :: 0 <= i < |s.items| ==>
        Scope(s, s.items[i]) == Scope(r, s.items[i]) && !Within(s.groups, d, OpenAfter(s, s.items[i]), gid)
  }

  /** Only gid's parent differs. */
  ghost predicate Regroup(g: Groups, h: Groups, gid: int) {
    g.Keys == h.Keys && forall k :: k in g && k != gid ==> g[k].parent == h[k].parent
  }

  lemma StayersStay(t: Tables, d: map<int, nat>, items: seq<SheetItem>, req: Request)
    requires Succeeds(t, d, items, req)
    ensures Stayers(SheetOf(t, Keep(items, DragSet(t, d, items, req))), d, RestSheet(t, d, items, req), req.group)
    ensures Regroup(t.groups, After(t, d, items, req).groups, req.group)
  {
    var s := SheetOf(t, Keep(items, DragSet(t, d, items, req)));
    GroupsWritten(t, d, items, req);
    forall i | 0 <= i < |s.items|
      ensures Scope(s, s.items[i]) == Scope(RestSheet(t, d, items, req), s.items[i])
      ensures !Within(s.groups, d, OpenAfter(s, s.items[i]), req.group)
    {
      StayerScope(t, d, items, req, s.items[i]);
    }
  }

  // -------------------------------------------------------- the dragged rows

  lemma CueScopes(t: Tables, d: map<int, nat>, items: seq<SheetItem>, req: Request)
    requires Succeeds(t, d, items, req) && req.group == 0
    ensures var r := SheetOf(After(t, d, items, req), Dragged(t, d, items, req));
      forall k :: 0 <= k < |r.items| ==> Scope(r, r.items[k]) == TopParent(t, d, items, req)
  {
    var r := SheetOf(After(t, d, items, req), Dragged(t, d, items, req));
    var rest := Keep(items, DragSet(t, d, items, req));
    var at := GapFor(items, DragSet(t, d, items, req), ParentsOf(t), req);
    GapInBounds(t, d, items, req);
    DropOrder(t, d, items, req);
    DropResult(t, d, items, req);
    forall k | 0 <= k < |r.items|
      ensures Scope(r, r.items[k]) == TopParent(t, d, items, req)
    {
      OneParent(rest, at, req, req.cues[k]);
    }
  }

  /** Row k of a run is row i + k of the old sheet, in the same block. */
  ghost predicate RowOf(s: Sheet, d: map<int, nat>, r: Sheet, gid: int, i: nat, k: nat)
    requires Depths(s.groups, d) && i + k < |s.items| && k < |r.items|
  {
    && r.items[k] == s.items[i + k]
    && OpenAfter(r, r.items[k]) == OpenAfter(s, s.items[i + k])
    && Within(s.groups, d, OpenAfter(s, s.items[i + k]), gid)
    && (k > 0 ==> Scope(r, r.items[k]) == Scope(s, s.items[i + k]) && r.items[k] != Header(gid))
  }

  ghost predicate RunOf(s: Sheet, d: map<int, nat>, r: Sheet, gid: int, i: nat)
    requires Depths(s.groups, d) && i + |r.items| <= |s.items|
  {
    forall k: nat {:trigger RowOf(s, d, r, gid, i, k)} :: k < |r.items| ==> RowOf(s, d, r, gid, i, k)
  }

  lemma StepInBlock(s: Sheet, d: map<int, nat>, r: Sheet, e: map<int, nat>, gid: int, x: SheetItem, open: int)
    requires Depths(s.groups, d) && Depths(r.groups, e) && s.groups.Keys == r.groups.Keys
    requires forall k :: k in s.groups && k != gid ==> s.groups[k].parent == r.groups[k].parent
    requires Follows(s, d, x, open) && Within(s.groups, d, OpenAfter(s, x), gid) && x != Header(gid)
    requires Scope(r, x) == Scope(s, x)
    ensures Follows(r, e, x, open)
  {
    assert x.Header? ==> x.gid in s.groups;
    WithinInside(s.groups, d, r.groups, e, gid, open, Scope(s, x));
  }

  /** A run of one block still chains when only the block's own parent moved. */
  lemma RunChains(s: Sheet, d: map<int, nat>, r: Sheet, e: map<int, nat>, gid: int, i: nat)
    requires Depths(s.groups, d) && Depths(r.groups, e) && s.groups.Keys == r.groups.Keys && Nested(s, d)
    requires forall k :: k in s.groups && k != gid ==> s.groups[k].parent == r.groups[k].parent
    requires i + |r.items| <= |s.items| && RunOf(s, d, r, gid, i)
    ensures Chained(r, e)
  {
    forall k: nat | 1 <= k < |r.items| ensures FollowsAt(r, e, k) {
      RunStep(s, d, r, e, gid, i, k);
    }
  }

  lemma RunStep(s: Sheet, d: map<int, nat>, r: Sheet, e: map<int, nat>, gid: int, i: nat, k: nat)
    requires Depths(s.groups, d) && Depths(r.groups, e) && s.groups.Keys == r.groups.Keys && Nested(s, d)
    requires forall k :: k in s.groups && k != gid ==> s.groups[k].parent == r.groups[k].parent
    requires i + |r.items| <= |s.items| && RunOf(s, d, r, gid, i) && 1 <= k < |r.items|
    ensures FollowsAt(r, e, k)
  {
    assert FollowsAt(s, d, i + k);
    assert RowOf(s, d, r, gid, i, k) && RowOf(s, d, r, gid, i, k - 1);
    StepInBlock(s, d, r, e, gid, r.items[k], OpenAt(r, k));
  }

  /** The dragged block, row by row, in the sequence it came from. */
  lemma BlockRows(t: Tables, d: map<int, nat>, items: seq<SheetItem>, req: Request) returns (i: nat)
    requires Shaped(t, d, items, req) && req.group != 0
    ensures var r := SheetOf(After(t, d, items, req), Dragged(t, d, items, req));
      && |r.items| > 0 && r.items[0] == Header(req.group)
      && i + |r.items| <= |items|
      && RunOf(SheetOf(t, items), d, r, req.group, i)
  {
    var s, r := SheetOf(t, items), SheetOf(After(t, d, items, req), Dragged(t, d, items, req));
    var drag := DragSet(t, d, items, req);
    forall x | x in items ensures x in drag <==> Within(t.groups, d, OpenAfter(s, x), req.group) {
      RestOutside(t, d, items, req, x);
    }
    var j;
    i, j := BlockIsRun(s, d, drag, req.group);
    forall k: nat | k < |r.items| ensures RowOf(s, d, r, req.group, i, k) {
      BlockRow(t, d, items, req, i, j, k);
    }
  }

  lemma BlockRow(t: Tables, d: map<int, nat>, items: seq<SheetItem>, req: Request, i: nat, j: nat, k: nat)
    requires Succeeds(t, d, items, req) && req.group != 0 && i < j <= |items| && k < j - i
    requires items[i] == Header(req.group) && Dragged(t, d, items, req) == items[i..j]
    requires items[i + k] in DragSet(t, d, items, req)
    ensures RowOf(SheetOf(t, items), d, SheetOf(After(t, d, items, req), Dragged(t, d, items, req)), req.group, i, k)
  {
    LoadedDistinct(t, items);
    RestOutside(t, d, items, req, items[i + k]);
    ScopeInBlock(t, d, items, req, i, i + k);
  }

  lemma ScopeInBlock(t: Tables, d: map<int, nat>, items: seq<SheetItem>, req: Request, i: nat, k: nat)
    requires Succeeds(t, d, items, req) && req.group != 0 && i <= k < |items| && items[i] == Header(req.group)
    ensures var r := SheetOf(After(t, d, items, req), items);
      && OpenAfter(r, items[k]) == OpenAfter(SheetOf(t, items), items[k])
      && (k > i ==> Scope(r, items[k]) == Scope(SheetOf(t, items), items[k]))
  {
    LoadedDistinct(t, items);
    if k > i {
      ScopesStay(t, d, items, req, k);
    }
  }

  // ------------------------------------------------------- one move, in values

  ghost predicate CueRows(r: Sheet, rows: seq<SheetItem>, p: int) {
    forall k :: 0 <= k < |rows| ==> rows[k].Cue? && Scope(r, rows[k]) == p
  }

  ghost predicate BlockRun(full: Sheet, d: map<int, nat>, r: Sheet, gid: int, rows: seq<SheetItem>, p: int)
    requires Depths(full.groups, d) && |rows| > 0
  {
    && gid in r.groups && p == r.groups[gid].parent && rows[0] == Header(gid)
    && exists i: nat :: i + |rows| <= |full.items| && RunOf(full, d, r.(items := rows), gid, i)
  }

  /** full is the sheet before, s its staying rows, r the same rows after. */
  ghost predicate Moved(full: Sheet, s: Sheet, d: map<int, nat>, r: Sheet, e: map<int, nat>, gid: int, rows: seq<SheetItem>, p: int) {
    && Depths(s.groups, d) && Depths(r.groups, e) && Regroup(s.groups, r.groups, gid)
    && full == s.(items := full.items) && Nested(s, d) && Nested(full, d)
    && Stayers(s, d, r, gid) && |rows| > 0
    && (p == 0 || p in r.groups)
    && if gid == 0 then CueRows(r, rows, p) else BlockRun(full, d, r, gid, rows, p)
  }

  lemma RowsChain(full: Sheet, s: Sheet, d: map<int, nat>, r: Sheet, e: map<int, nat>, gid: int, rows: seq<SheetItem>, p: int)
    requires Moved(full, s, d, r, e, gid, rows, p)
    ensures Chained(r.(items := rows), e) && Scope(r, rows[0]) == p
    ensures gid != 0 ==> Within(r.groups, e, OpenAfter(r, rows[|rows| - 1]), gid)
  {
    var q := r.(items := rows);
    if gid == 0 {
      forall k | 1 <= k < |rows| ensures FollowsAt(q, e, k) {
        assert OpenAt(q, k) == Scope(q, rows[k - 1]);
        assert Scope(q, rows[k - 1]) == Scope(r, rows[k - 1]) && Scope(q, rows[k]) == Scope(r, rows[k]);
      }
    } else {
      var i: nat :| i + |rows| <= |full.items| && RunOf(full, d, q, gid, i);
      RunChains(full, d, q, e, gid, i);
      assert RowOf(full, d, q, gid, i, |rows| - 1);
      BlockSame(s.groups, d, r.groups, e, OpenAfter(full, full.items[i + |rows| - 1]), gid);
    }
  }

  /** The row below the gap sees the same groups through the dragged rows as
      through their parent. */
  lemma SeenThrough(full: Sheet, s: Sheet, d: map<int, nat>, r: Sheet, e: map<int, nat>, gid: int, rows: seq<SheetItem>, p: int, at: nat)
    requires Moved(full, s, d, r, e, gid, rows, p) && at < |r.items|
    ensures Follows(r, e, r.items[at], OpenAfter(r, rows[|rows| - 1])) <==> Follows(r, e, r.items[at], p)
  {
    RowsChain(full, s, d, r, e, gid, rows, p);
    if gid != 0 {
      var x := s.items[at];
      ScopeOutside(s, d, x, gid);
      WithinOutside(s.groups, d, r.groups, e, gid, Scope(r, x), 0);
      WithinThrough(r.groups, e, gid, OpenAfter(r, rows[|rows| - 1]), Scope(r, x));
    }
  }

  lemma MovedNests(full: Sheet, s: Sheet, d: map<int, nat>, r: Sheet, e: map<int, nat>, gid: int, rows: seq<SheetItem>, p: int, at: nat)
    requires Moved(full, s, d, r, e, gid, rows, p) && at <= |r.items|
    ensures Nested(r.(items := Splice(r.items, at, rows)), e) <==> Fits(r, e, at, p)
  {
    RowsChain(full, s, d, r, e, gid, rows, p);
    NestedStays(s, d, r, e, gid);
    if at < |r.items| { SeenThrough(full, s, d, r, e, gid, rows, p, at); }
    SpliceNested(r, e, at, rows, p);
  }

  // ------------------------------------------------------------ the theorem

  lemma TopParentKnown(t: Tables, d: map<int, nat>, items: seq<SheetItem>, req: Request, e: map<int, nat>)
    requires Succeeds(t, d, items, req) && Depths(After(t, d, items, req).groups, e) && req.group != 0
    ensures req.group in After(t, d, items, req).groups
    ensures TopParent(t, d, items, req) == After(t, d, items, req).groups[req.group].parent
    ensures TopParent(t, d, items, req) == 0 || TopParent(t, d, items, req) in t.groups
  {
    GroupsWritten(t, d, items, req);
    ParentKnown(After(t, d, items, req).groups, e, req.group);
  }

  lemma ParentKnown(g: Groups, e: map<int, nat>, gid: int)
    requires Depths(g, e) && gid in g
    ensures g[gid].parent == 0 || g[gid].parent in g
  {
    assert e[gid] >= 0;
  }

  lemma AfterIsComplete(t: Tables, d: map<int, nat>, items: seq<SheetItem>, req: Request)
    requires Shaped(t, d, items, req)
    ensures Complete(SheetOf(After(t, d, items, req), Out(t, d, items, req)))
  {
    DropResult(t, d, items, req);
    DropOrder(t, d, items, req);
    GroupsWritten(t, d, items, req);
    var r := After(t, d, items, req);
    forall pos ensures Cue(pos) in Out(t, d, items, req) <==> pos in r.cues { assert HasRow(r, Cue(pos)) <==> pos in r.cues; }
    forall gid ensures Header(gid) in Out(t, d, items, req) <==> gid in r.groups { assert HasRow(r, Header(gid)) <==> gid in r.groups; }
  }

  lemma OldPart(t: Tables, d: map<int, nat>, items: seq<SheetItem>, req: Request)
    requires Shaped(t, d, items, req)
    ensures Nested(SheetOf(t, items), d) && Depths(t.groups, d) && |Dragged(t, d, items, req)| > 0
  {
    PreOrderIsNested(SheetOf(t, items), d);
  }

  lemma ScopeBy(a: Sheet, b: Sheet, item: SheetItem)
    requires a.parents == b.parents && a.groups == b.groups
    ensures Scope(a, item) == Scope(b, item)
  {
  }

  lemma CueMove(t: Tables, d: map<int, nat>, items: seq<SheetItem>, req: Request)
    requires Shaped(t, d, items, req) && req.group == 0
    ensures CueRows(RestSheet(t, d, items, req), Dragged(t, d, items, req), TopParent(t, d, items, req))
  {
    CueScopes(t, d, items, req);
    var r := SheetOf(After(t, d, items, req), Dragged(t, d, items, req));
    var rest := RestSheet(t, d, items, req);
    assert rest.parents == r.parents && rest.groups == r.groups;
    forall k | 0 <= k < |r.items| ensures r.items[k].Cue? && Scope(rest, r.items[k]) == Scope(r, r.items[k]) {
      ScopeBy(rest, r, r.items[k]);
    }
  }

  lemma GroupMove(t: Tables, d: map<int, nat>, items: seq<SheetItem>, req: Request, e: map<int, nat>)
    requires Shaped(t, d, items, req) && Depths(After(t, d, items, req).groups, e) && req.group != 0
    ensures BlockRun(SheetOf(t, items), d, RestSheet(t, d, items, req), req.group, Dragged(t, d, items, req), TopParent(t, d, items, req))
  {
    TopParentKnown(t, d, items, req, e);
    var i := BlockRows(t, d, items, req);
    assert RestSheet(t, d, items, req).(items := Dragged(t, d, items, req)) == SheetOf(After(t, d, items, req), Dragged(t, d, items, req));
  }

  lemma DropIsMove(t: Tables, d: map<int, nat>, items: seq<SheetItem>, req: Request, e: map<int, nat>)
    requires Shaped(t, d, items, req) && Depths(After(t, d, items, req).groups, e)
    requires TopParent(t, d, items, req) == 0 || TopParent(t, d, items, req) in t.groups
    ensures Moved(SheetOf(t, items), SheetOf(t, Keep(items, DragSet(t, d, items, req))), d,
                  RestSheet(t, d, items, req), e, req.group, Dragged(t, d, items, req), TopParent(t, d, items, req))
  {
    OldPart(t, d, items, req);
    RestNestsBefore(t, d, items, req);
    StayersStay(t, d, items, req);
    if req.group == 0 { CueMove(t, d, items, req); } else { GroupMove(t, d, items, req, e); }
  }

  lemma DropNests(t: Tables, d: map<int, nat>, items: seq<SheetItem>, req: Request, e: map<int, nat>)
    requires Shaped(t, d, items, req) && Depths(After(t, d, items, req).groups, e)
    requires TopParent(t, d, items, req) == 0 || TopParent(t, d, items, req) in t.groups
    ensures var r := RestSheet(t, d, items, req); var at := GapFor(items, DragSet(t, d, items, req), ParentsOf(t), req);
      && at <= |r.items|
      && (Nested(SheetOf(After(t, d, items, req), Out(t, d, items, req)), e) <==> Fits(r, e, at, TopParent(t, d, items, req)))
  {
    GapInBounds(t, d, items, req);
    DropIsMove(t, d, items, req, e);
    MovedNests(SheetOf(t, items), SheetOf(t, Keep(items, DragSet(t, d, items, req))), d, RestSheet(t, d, items, req), e,
               req.group, Dragged(t, d, items, req), TopParent(t, d, items, req), GapFor(items, DragSet(t, d, items, req), ParentsOf(t), req));
  }

  /** Every stored group exists after the drag, or the drag itself named a missing one. */
  lemma AfterDangles(t: Tables, d: map<int, nat>, items: seq<SheetItem>, req: Request)
    requires Shaped(t, d, items, req)
    requires req.group == 0 ==> TopParent(t, d, items, req) == 0 || TopParent(t, d, items, req) in t.groups
    ensures NoDangling(SheetOf(After(t, d, items, req), Out(t, d, items, req)))
  {
    var r := SheetOf(After(t, d, items, req), Out(t, d, items, req));
    GroupsWritten(t, d, items, req);
    DropResult(t, d, items, req);
    forall pos | pos in r.parents && r.parents[pos] != 0 ensures r.parents[pos] in r.groups {
      if req.group == 0 && pos in req.cues {
        DraggedCueParent(t, d, items, req, pos);
      } else {
        assert SheetOf(t, items).parents[pos] == t.cues[pos].parent;
      }
    }
  }

  lemma DraggedCueParent(t: Tables, d: map<int, nat>, items: seq<SheetItem>, req: Request, pos: int)
    requires Succeeds(t, d, items, req) && req.group == 0 && pos in req.cues
    ensures SheetOf(After(t, d, items, req), Out(t, d, items, req)).parents.Keys == t.cues.Keys
    ensures SheetOf(After(t, d, items, req), Out(t, d, items, req)).parents[pos] == TopParent(t, d, items, req)
  {
    CueScopes(t, d, items, req);
    DropResult(t, d, items, req);
    var k :| 0 <= k < |req.cues| && req.cues[k] == pos;
    assert Dragged(t, d, items, req)[k] == Cue(pos);
    assert Scope(SheetOf(After(t, d, items, req), Dragged(t, d, items, req)), Cue(pos)) == TopParent(t, d, items, req);
  }

  /** On a pre-order sheet a drag, of cues or of a whole block, leaves a pre-order
      sheet exactly when the dragged rows fit: their group is open at the gap, and
      the row below the gap is still inside its own group. */
  lemma DropKeepsPreOrderIff(t: Tables, d: map<int, nat>, items: seq<SheetItem>, req: Request, e: map<int, nat>)
    requires Shaped(t, d, items, req) && Depths(After(t, d, items, req).groups, e)
    ensures var r := RestSheet(t, d, items, req); var at := GapFor(items, DragSet(t, d, items, req), ParentsOf(t), req);
      && at <= |r.items|
      && (IsPreOrder(SheetOf(After(t, d, items, req), Out(t, d, items, req)), e)
          <==> Fits(r, e, at, TopParent(t, d, items, req)))
  {
    GapInBounds(t, d, items, req);
    if TopParent(t, d, items, req) == 0 || TopParent(t, d, items, req) in t.groups {
      DropNests(t, d, items, req, e);
      AfterIsComplete(t, d, items, req);
      AfterDangles(t, d, items, req);
      PreOrderIffNested(SheetOf(After(t, d, items, req), Out(t, d, items, req)), e);
    } else {
      MissingGroupNeverFits(t, d, items, req, e);
    }
  }

  lemma MissingGroupNeverFits(t: Tables, d: map<int, nat>, items: seq<SheetItem>, req: Request, e: map<int, nat>)
    requires Succeeds(t, d, items, req) && Depths(After(t, d, items, req).groups, e)
    requires TopParent(t, d, items, req) != 0 && TopParent(t, d, items, req) !in t.groups
    ensures var r := RestSheet(t, d, items, req); var at := GapFor(items, DragSet(t, d, items, req), ParentsOf(t), req);
      && at <= |r.items|
      && !Fits(r, e, at, TopParent(t, d, items, req))
      && !NoDangling(SheetOf(After(t, d, items, req), Out(t, d, items, req)))
  {
    GapInBounds(t, d, items, req);
    GroupsWritten(t, d, items, req);
    if req.group != 0 { TopParentKnown(t, d, items, req, e); }
    NeverWithin(After(t, d, items, req).groups, e,
                OpenAt(RestSheet(t, d, items, req), GapFor(items, DragSet(t, d, items, req), ParentsOf(t), req)), TopParent(t, d, items, req));
    DraggedCueParent(t, d, items, req, req.cues[0]);
  }

  lemma NeverWithin(g: Groups, d: map<int, nat>, x: int, y: int)
    requires Depths(g, d) && y !in g
    ensures !Within(g, d, x, y)
  {
    if Within(g, d, x, y) { WithinDepth(g, d, x, y); assert false; }
  }
}
