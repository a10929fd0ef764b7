/** The operator's drop gestures on a pre-order sheet (ctp/sheet.go, SheetDrop):
    which of them always keep every folder in one piece, and exactly when a plain
    gap drop does. */
module DropGestures {
  import opened Util
  import opened Forest
  import opened PreOrder
  import opened SheetStore
  import opened DropSpec
  import opened DropFacts
  import opened DropAfter
  import opened DropShape
  import opened DropPreOrder
  import Flatten

  lemma RestStaysNested(t: Tables, d: map<int, nat>, items: seq<SheetItem>, req: Request, e: map<int, nat>)
    requires Shaped(t, d, items, req) && Depths(After(t, d, items, req).groups, e)
    ensures Nested(RestSheet(t, d, items, req), e)
  {
    RestNestsBefore(t, d, items, req);
    StayersStay(t, d, items, req);
    NestedStays(SheetOf(t, Keep(items, DragSet(t, d, items, req))), d, RestSheet(t, d, items, req), e, req.group);
  }

  /** Dropped directly under its new group's header or under one of its own cues. */
  lemma OpenGroupFits(s: Sheet, d: map<int, nat>, at: nat, p: int)
    requires Depths(s.groups, d) && Nested(s, d) && at <= |s.items|
    requires OpenAt(s, at) == p && (p == 0 || p in s.groups)
    ensures Fits(s, d, at, p)
  {
    if at < |s.items| { assert FollowsAt(s, d, at); }
  }

  // -------------------------------------------------------- a plain gap drop

  /** The group open at a place lies around the last header above it. */
  lemma {:induction false} OpenAroundLast(s: Sheet, d: map<int, nat>, k: nat)
    requires Depths(s.groups, d) && Nested(s, d) && k <= |s.items|
    requires forall i :: 0 <= i < |s.items| && s.items[i].Header? ==> s.items[i].gid in s.groups
    ensures OpenAt(s, k) == 0 || Within(s.groups, d, Gap.LastHeader(s.items, k), OpenAt(s, k))
  {
    if k > 0 {
      OpenAroundLast(s, d, k - 1);
      assert FollowsAt(s, d, k - 1);
      if s.items[k - 1].Cue? && OpenAt(s, k) != 0 {
        WithinTransitive(s.groups, d, Gap.LastHeader(s.items, k - 1), OpenAt(s, k - 1), OpenAt(s, k));
      }
    }
  }

  /** Rows that take the gap's owner fit exactly when no row of an outer group has
      come between the owner's header and the gap. */
  lemma OwnerFitsIff(s: Sheet, d: map<int, nat>, at: nat)
    requires Depths(s.groups, d) && Nested(s, d) && at <= |s.items|
    requires forall i :: 0 <= i < |s.items| && s.items[i].Header? ==> s.items[i].gid in s.groups
    ensures Fits(s, d, at, Gap.LastHeader(s.items, at)) <==> OpenAt(s, at) == Gap.LastHeader(s.items, at)
  {
    var p := Gap.LastHeader(s.items, at);
    OpenAroundLast(s, d, at);
    LastHeaderKnown(s, at);
    if OpenAt(s, at) == p {
      OpenGroupFits(s, d, at, p);
    } else {
      NoZero(s, d, OpenAt(s, at));
      if Within(s.groups, d, OpenAt(s, at), p) {
        WithinDepth(s.groups, d, OpenAt(s, at), p);
        WithinDepth(s.groups, d, p, OpenAt(s, at));
      }
    }
  }

  lemma NoZero(s: Sheet, d: map<int, nat>, x: int)
    requires Depths(s.groups, d)
    ensures !Within(s.groups, d, 0, x)
  {
  }

  lemma {:induction false} LastHeaderKnown(s: Sheet, k: nat)
    requires k <= |s.items|
    requires forall i :: 0 <= i < |s.items| && s.items[i].Header? ==> s.items[i].gid in s.groups
    ensures Gap.LastHeader(s.items, k) == 0 || Gap.LastHeader(s.items, k) in s.groups
  {
    if k > 0 { LastHeaderKnown(s, k - 1); }
  }

  // ----------------------------------------------------------- the gestures

  /** No member slot is named, or the named cue is gone. */
  predicate NoSlot(items: seq<SheetItem>, req: Request) {
    req.after <= 0 || Cue(req.after) !in items
  }

  /** A drop onto an existing header whose explicit parent, if any, is that group. */
  predicate HeaderDrop(t: Tables, items: seq<SheetItem>, req: Request) {
    && JoinsGroup(req) && req.before.gid in t.groups && NoSlot(items, req)
    && (req.group == 0 ==> if req.parent.Given? then req.parent.id == req.before.gid else !req.forceTop)
  }

  /** Cues dropped after a cue that stays, into that cue's own group. */
  predicate SlotDrop(t: Tables, items: seq<SheetItem>, req: Request) {
    && req.group == 0 && req.after > 0 && Cue(req.after) in items && req.after in t.cues && req.after !in req.cues
    && req.parent == Given(t.cues[req.after].parent)
  }

  /** Cues dropped in a gap with nothing said about their group. */
  predicate GapDrop(items: seq<SheetItem>, req: Request) {
    req.group == 0 && req.parent.Absent? && !req.forceTop && !JoinsGroup(req)
  }

  lemma {:induction false} LastMemberIs(rest: seq<SheetItem>, parents: map<int, int>, gid: int)
    requires LastMember(rest, parents, gid) >= 0
    ensures var x := rest[LastMember(rest, parents, gid)];
      x.Cue? && x.pos in parents && parents[x.pos] == gid
  {
    match rest[|rest| - 1]
    case Cue(pos) => if !(pos in parents && parents[pos] == gid) { LastMemberIs(rest[..|rest| - 1], parents, gid); }
    case Header(_) => LastMemberIs(rest[..|rest| - 1], parents, gid);
  }

  /** A drop on a header that stays: the row above the gap is the header itself or
      the last of the group's own cues. */
  lemma JoinPlace(items: seq<SheetItem>, drag: set<SheetItem>, parents: map<int, int>, req: Request)
    requires Distinct(items) && JoinsGroup(req) && Header(req.before.gid) in items && Header(req.before.gid) !in drag
    ensures var rest := Keep(items, drag); var at := JoinGap(items, drag, parents, req);
      && 0 < at <= |rest|
      && (rest[at - 1] == Header(req.before.gid)
          || (rest[at - 1].Cue? && rest[at - 1].pos in parents && parents[rest[at - 1].pos] == req.before.gid))
  {
    var rest := Keep(items, drag);
    var x := Header(req.before.gid);
    KeepHas(items, drag, x);
    if req.joinFirst {
      RestIdxWithin(items, drag, Find(items, x));
    } else if LastMember(rest, parents, req.before.gid) >= 0 {
      LastMemberIs(rest, parents, req.before.gid);
    }
  }

  lemma HeaderDropPlace(t: Tables, d: map<int, nat>, items: seq<SheetItem>, req: Request)
    requires Succeeds(t, d, items, req) && HeaderDrop(t, items, req)
    ensures var rest := Keep(items, DragSet(t, d, items, req)); var at := GapFor(items, DragSet(t, d, items, req), ParentsOf(t), req);
      && 0 < at <= |rest|
      && OpenAfter(SheetOf(t, items), rest[at - 1]) == req.before.gid
  {
    TargetStays(t, d, items, req);
    assert HasRow(t, Header(req.before.gid));
    LoadedDistinct(t, items);
    JoinPlace(items, DragSet(t, d, items, req), ParentsOf(t), req);
  }

  /** The row above a member slot is the cue the slot names. */
  lemma SlotPlace(items: seq<SheetItem>, drag: set<SheetItem>, x: SheetItem)
    requires x in items && x !in drag
    ensures var rest := Keep(items, drag); var at := AfterGap(items, drag, Find(items, x));
      0 < at <= |rest| && rest[at - 1] == x
  {
    DropRepeat.RestIdxAt(items, drag, Find(items, x));
  }

  lemma SlotDropPlace(t: Tables, d: map<int, nat>, items: seq<SheetItem>, req: Request)
    requires Succeeds(t, d, items, req) && SlotDrop(t, items, req)
    ensures var rest := Keep(items, DragSet(t, d, items, req)); var at := GapFor(items, DragSet(t, d, items, req), ParentsOf(t), req);
      && 0 < at <= |rest| && rest[at - 1] == Cue(req.after)
  {
    SlotPlace(items, DragSet(t, d, items, req), Cue(req.after));
  }

  lemma FitsBelow(t: Tables, d: map<int, nat>, items: seq<SheetItem>, req: Request, e: map<int, nat>)
    requires Shaped(t, d, items, req) && Depths(After(t, d, items, req).groups, e)
    requires var rest := Keep(items, DragSet(t, d, items, req)); var at := GapFor(items, DragSet(t, d, items, req), ParentsOf(t), req);
      0 < at <= |rest| && OpenAfter(SheetOf(t, items), rest[at - 1]) == TopParent(t, d, items, req)
    requires TopParent(t, d, items, req) == 0 || TopParent(t, d, items, req) in t.groups
    ensures IsPreOrder(SheetOf(After(t, d, items, req), Out(t, d, items, req)), e)
  {
    var rest := Keep(items, DragSet(t, d, items, req));
    var at := GapFor(items, DragSet(t, d, items, req), ParentsOf(t), req);
    RestStaysNested(t, d, items, req, e);
    StayerScope(t, d, items, req, rest[at - 1]);
    GroupsWritten(t, d, items, req);
    OpenGroupFits(RestSheet(t, d, items, req), e, at, TopParent(t, d, items, req));
    DropKeepsPreOrderIff(t, d, items, req, e);
  }

  /** Dropping cues or a block onto a folder, first or last, or cues into a member
      slot, always leaves a pre-order sheet. */
  lemma FolderDropsKeepPreOrder(t: Tables, d: map<int, nat>, items: seq<SheetItem>, req: Request, e: map<int, nat>)
    requires Shaped(t, d, items, req) && Depths(After(t, d, items, req).groups, e)
    requires HeaderDrop(t, items, req) || SlotDrop(t, items, req)
    ensures IsPreOrder(SheetOf(After(t, d, items, req), Out(t, d, items, req)), e)
  {
    GapInBounds(t, d, items, req);
    if HeaderDrop(t, items, req) {
      HeaderDropPlace(t, d, items, req);
      assert TopParent(t, d, items, req) == req.before.gid;
    } else {
      SlotDropPlace(t, d, items, req);
      assert SheetOf(t, items).parents[req.after] == t.cues[req.after].parent;
      ScopeExists(SheetOf(t, items), d, Cue(req.after));
    }
    FitsBelow(t, d, items, req, e);
  }

  /** A gap drop leaves a pre-order sheet exactly when the row above the gap, among
      the rows that stay, is the last header itself or one of its own cues; a row
      of an outer group in between splits the folder. */
  lemma GapDropKeepsPreOrderIff(t: Tables, d: map<int, nat>, items: seq<SheetItem>, req: Request, e: map<int, nat>)
    requires Shaped(t, d, items, req) && Depths(After(t, d, items, req).groups, e) && GapDrop(items, req)
    ensures var r := RestSheet(t, d, items, req); var at := GapFor(items, DragSet(t, d, items, req), ParentsOf(t), req);
      && at <= |r.items|
      && (IsPreOrder(SheetOf(After(t, d, items, req), Out(t, d, items, req)), e)
          <==> OpenAt(r, at) == Gap.LastHeader(r.items, at))
  {
    var r := RestSheet(t, d, items, req);
    GapInBounds(t, d, items, req);
    RestStaysNested(t, d, items, req, e);
    GroupsWritten(t, d, items, req);
    forall i | 0 <= i < |r.items| && r.items[i].Header? ensures r.items[i].gid in r.groups {
      KeepHas(items, DragSet(t, d, items, req), r.items[i]);
      assert HasRow(t, r.items[i]);
    }
    OwnerFitsIff(r, e, GapFor(items, DragSet(t, d, items, req), ParentsOf(t), req));
    DropKeepsPreOrderIff(t, d, items, req, e);
  }

  /** What a folder drop leaves is drawn exactly: every row once, in order, at the
      depth of its folder, unless a folder around it is closed. */
  lemma FolderDropDrawsExactly(t: Tables, d: map<int, nat>, items: seq<SheetItem>, req: Request, e: map<int, nat>)
    requires Shaped(t, d, items, req) && Depths(After(t, d, items, req).groups, e)
    requires HeaderDrop(t, items, req) || SlotDrop(t, items, req)
    ensures var s := SheetOf(After(t, d, items, req), Out(t, d, items, req));
      && Flatten.HeadersKnown(s)
      && Flatten.Render(s, e, |s.items|).rows == Flatten.Expected(s, e, |s.items|)
  {
    FolderDropsKeepPreOrder(t, d, items, req, e);
    Flatten.FlattenIsExact(SheetOf(After(t, d, items, req), Out(t, d, items, req)), e);
  }
}
