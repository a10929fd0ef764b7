/** Where a drag puts the rows, which group its cues join, and what it does to the
    group table (ctp/sheet.go, SheetDrop), read off the sequence read afterwards. */
module DropPlace {
  import opened Util
  import opened Forest
  import opened PreOrder
  import opened SheetStore
  import opened DropSpec
  import opened DropFacts
  import opened DropAfter
  import DropRepeat
  import Gap

  // --------------------------------------------------------- places in a splice

  /** Row x comes directly below the dragged rows. */
  ghost predicate LandsAbove(out: seq<SheetItem>, drag: set<SheetItem>, x: SheetItem) {
    exists i :: 0 < i < |out| && out[i] == x && out[i - 1] in drag
  }

  /** The dragged rows come directly below row x. */
  ghost predicate LandsBelow(out: seq<SheetItem>, drag: set<SheetItem>, x: SheetItem) {
    exists i :: 0 < i < |out| && out[i] in drag && out[i - 1] == x
  }

  /** Nothing comes below the dragged rows. */
  predicate LandsLast(out: seq<SheetItem>, drag: set<SheetItem>) {
    |out| > 0 && out[|out| - 1] in drag
  }

  /** Row j is the first from row k on that stays; |items| when none does. */
  ghost predicate FirstStaying(items: seq<SheetItem>, drag: set<SheetItem>, k: nat, j: nat) {
    k <= j <= |items| && (forall m :: k <= m < j ==> items[m] in drag) && (j < |items| ==> items[j] !in drag)
  }

  lemma SkipsDragged(items: seq<SheetItem>, drag: set<SheetItem>, k: nat, j: nat)
    requires k <= j <= |items| && forall m :: k <= m < j ==> items[m] in drag
    ensures RestIdx(items, drag, k) == RestIdx(items, drag, j)
  {
    assert items[..j] == items[..k] + items[k..j];
    KeepAppend(items[..k], items[k..j], drag);
    forall m | 0 <= m < |items[k..j]| ensures items[k..j][m] in drag { assert items[k..j][m] == items[k + m]; }
    TakeAll(items[k..j], drag);
  }

  /** What surrounds the dragged rows. */
  lemma SpliceAround(rest: seq<SheetItem>, at: nat, dragged: seq<SheetItem>, drag: set<SheetItem>)
    requires at <= |rest| && |dragged| > 0 && forall i :: 0 <= i < |dragged| ==> dragged[i] in drag
    ensures var out := Splice(rest, at, dragged);
      && (at < |rest| ==> LandsAbove(out, drag, rest[at]))
      && (at == |rest| ==> LandsLast(out, drag))
      && (at > 0 ==> LandsBelow(out, drag, rest[at - 1]))
  {
    var out, n := Splice(rest, at, dragged), |dragged|;
    if at < |rest| { assert out[at + n] == rest[at] && out[at + n - 1] == dragged[n - 1]; }
    if at == |rest| { assert out[|out| - 1] == dragged[n - 1]; }
    if at > 0 { assert out[at - 1] == rest[at - 1] && out[at] == dragged[0]; }
  }

  lemma LandsAt(items: seq<SheetItem>, drag: set<SheetItem>, k: nat, j: nat, dragged: seq<SheetItem>)
    requires FirstStaying(items, drag, k, j) && |dragged| > 0 && forall i :: 0 <= i < |dragged| ==> dragged[i] in drag
    requires RestIdx(items, drag, k) <= |Keep(items, drag)|
    ensures var out := Splice(Keep(items, drag), RestIdx(items, drag, k), dragged);
      if j < |items| then LandsAbove(out, drag, items[j]) else LandsLast(out, drag)
  {
    SkipsDragged(items, drag, k, j);
    RestIdxWithin(items, drag, j);
    if j == |items| { assert items[..j] == items; }
    SpliceAround(Keep(items, drag), RestIdx(items, drag, k), dragged, drag);
  }

  // ------------------------------------------------------------ the drop line

  /** The slot after a named cue, when there is such a cue, wins over the drop line. */
  predicate SlotGiven(items: seq<SheetItem>, req: Request) {
    req.after > 0 && Cue(req.after) in items
  }

  predicate IsTarget(req: Request, x: SheetItem) {
    match req.before
    case AtEnd => false
    case BeforeCue(pos) => x == Cue(pos)
    case BeforeGroup(gid) => x == Header(gid)
  }

  lemma DropParts(t: Tables, d: map<int, nat>, items: seq<SheetItem>, req: Request)
    requires Succeeds(t, d, items, req)
    ensures var drag := DragSet(t, d, items, req); var dragged := Dragged(t, d, items, req);
      var at := GapFor(items, drag, ParentsOf(t), req); var rest := Keep(items, drag);
      && at <= |rest| && |dragged| > 0 && (forall i :: 0 <= i < |dragged| ==> dragged[i] in drag)
      && Out(t, d, items, req) == Splice(rest, at, dragged) && Distinct(items)
  {
    GapInBounds(t, d, items, req);
    DraggedRows(t, d, items, req);
    LoadedDistinct(t, items);
    var drag, dragged := DragSet(t, d, items, req), Dragged(t, d, items, req);
    forall i | 0 <= i < |dragged| ensures dragged[i] in drag { assert dragged[i] in dragged; }
  }

  /** A drop before a row: the row directly below the dragged ones is that row, or, when
      it is dragged itself, the first staying row after it; none when all after it move. */
  lemma LandsBeforeTarget(t: Tables, d: map<int, nat>, items: seq<SheetItem>, req: Request, k: nat, j: nat)
    requires Succeeds(t, d, items, req) && !SlotGiven(items, req) && !(req.join && req.before.BeforeGroup?)
    requires k < |items| && IsTarget(req, items[k]) && FirstStaying(items, DragSet(t, d, items, req), k, j)
    ensures var out, drag := Out(t, d, items, req), DragSet(t, d, items, req);
      if j < |items| then LandsAbove(out, drag, items[j]) else LandsLast(out, drag)
  {
    var drag := DragSet(t, d, items, req);
    DropParts(t, d, items, req);
    DistinctAt(items, k, Find(items, items[k]));
    assert GapFor(items, drag, ParentsOf(t), req) == RestIdx(items, drag, k);
    LandsAt(items, drag, k, j, Dragged(t, d, items, req));
  }

  /** Without a row to drop before, nothing lies below the dragged rows. */
  lemma LandsAtEnd(t: Tables, d: map<int, nat>, items: seq<SheetItem>, req: Request)
    requires Succeeds(t, d, items, req) && !SlotGiven(items, req) && !(req.join && req.before.BeforeGroup?)
    requires forall i :: 0 <= i < |items| ==> !IsTarget(req, items[i])
    ensures LandsLast(Out(t, d, items, req), DragSet(t, d, items, req))
  {
    var drag := DragSet(t, d, items, req);
    DropParts(t, d, items, req);
    SpliceAround(Keep(items, drag), |Keep(items, drag)|, Dragged(t, d, items, req), drag);
  }

  // ---------------------------------------------------------- drops on a header

  /** First in the folder: directly below its header. */
  lemma LandsBelowHeader(t: Tables, d: map<int, nat>, items: seq<SheetItem>, req: Request)
    requires Succeeds(t, d, items, req) && !SlotGiven(items, req) && req.join && req.before.BeforeGroup? && req.joinFirst
    requires Header(req.before.gid) in items
    ensures LandsBelow(Out(t, d, items, req), DragSet(t, d, items, req), Header(req.before.gid))
  {
    var drag, x := DragSet(t, d, items, req), Header(req.before.gid);
    DropParts(t, d, items, req);
    assert HasRow(t, x);
    TargetStays(t, d, items, req);
    RestIdxWithin(items, drag, Find(items, x));
    SpliceAround(Keep(items, drag), RestIdx(items, drag, Find(items, x)) + 1, Dragged(t, d, items, req), drag);
  }

  predicate StaysIn(t: Tables, drag: set<SheetItem>, gid: int, x: SheetItem) {
    x.Cue? && x !in drag && x.pos in t.cues && t.cues[x.pos].parent == gid
  }

  lemma {:induction false} NoneAfterLast(rest: seq<SheetItem>, parents: map<int, int>, gid: int, i: nat)
    requires i < |rest| && rest[i].Cue? && rest[i].pos in parents && parents[rest[i].pos] == gid
    ensures i <= LastMember(rest, parents, gid)
  {
    if i < |rest| - 1 { NoneAfterLast(rest[..|rest| - 1], parents, gid, i); }
  }

  lemma {:induction false} LastIsMember(rest: seq<SheetItem>, parents: map<int, int>, gid: int)
    requires LastMember(rest, parents, gid) >= 0
    ensures var x := rest[LastMember(rest, parents, gid)]; x.Cue? && x.pos in parents && parents[x.pos] == gid
  {
    match rest[|rest| - 1]
    case Cue(pos) => if !(pos in parents && parents[pos] == gid) { LastIsMember(rest[..|rest| - 1], parents, gid); }
    case Header(_) => LastIsMember(rest[..|rest| - 1], parents, gid);
  }

  /** No staying cue of the group lies below a dragged row. */
  ghost predicate NoneBelow(t: Tables, out: seq<SheetItem>, drag: set<SheetItem>, gid: int) {
    forall m, i :: 0 <= m < i < |out| && out[m] in drag ==> !StaysIn(t, drag, gid, out[i])
  }

  lemma SpliceBelow(rest: seq<SheetItem>, at: nat, dragged: seq<SheetItem>, m: nat, i: nat, drag: set<SheetItem>)
    requires at <= |rest| && m < i < |Splice(rest, at, dragged)| && Splice(rest, at, dragged)[m] in drag && Splice(rest, at, dragged)[i] !in drag
    requires (forall k :: 0 <= k < |rest| ==> rest[k] !in drag) && forall k :: 0 <= k < |dragged| ==> dragged[k] in drag
    ensures at + |dragged| <= i && Splice(rest, at, dragged)[i] == rest[i - |dragged|]
  {
    var out, n := Splice(rest, at, dragged), |dragged|;
    forall k | 0 <= k < at ensures out[k] == rest[k] {}
    forall k | at <= k < at + n ensures out[k] == dragged[k - at] {}
  }

  /** Some cue of the group is on the sheet and stays. */
  ghost predicate SomeStays(t: Tables, items: seq<SheetItem>, drag: set<SheetItem>, gid: int) {
    exists x :: x in items && StaysIn(t, drag, gid, x)
  }

  lemma LastIffStays(t: Tables, items: seq<SheetItem>, drag: set<SheetItem>, gid: int)
    ensures LastMember(Keep(items, drag), ParentsOf(t), gid) >= 0 <==> SomeStays(t, items, drag, gid)
    ensures var rest := Keep(items, drag); var last := LastMember(rest, ParentsOf(t), gid);
      last >= 0 ==> rest[last] in items && StaysIn(t, drag, gid, rest[last])
  {
    var rest := Keep(items, drag);
    var last := LastMember(rest, ParentsOf(t), gid);
    if last >= 0 {
      LastIsMember(rest, ParentsOf(t), gid);
      KeepHas(items, drag, rest[last]);
    }
    forall x | x in items && StaysIn(t, drag, gid, x) ensures last >= 0 {
      KeepHas(items, drag, x);
      var i :| 0 <= i < |rest| && rest[i] == x;
      NoneAfterLast(rest, ParentsOf(t), gid, i);
    }
  }

  /** Last in the folder: below one of its staying cues, and no other of them lies further
      down; below its header when it has none. */
  lemma LandsAfterMembers(t: Tables, d: map<int, nat>, items: seq<SheetItem>, req: Request)
    requires Succeeds(t, d, items, req) && !SlotGiven(items, req) && req.join && req.before.BeforeGroup? && !req.joinFirst
    ensures var out, drag := Out(t, d, items, req), DragSet(t, d, items, req);
      && NoneBelow(t, out, drag, req.before.gid)
      && (if SomeStays(t, items, drag, req.before.gid)
          then exists x :: x in items && StaysIn(t, drag, req.before.gid, x) && LandsBelow(out, drag, x)
          else if Header(req.before.gid) in items then LandsBelow(out, drag, Header(req.before.gid)) else LandsLast(out, drag))
  {
    var drag, gid := DragSet(t, d, items, req), req.before.gid;
    MembersAbove(t, d, items, req);
    LastIffStays(t, items, drag, gid);
    if LastMember(Keep(items, drag), ParentsOf(t), gid) >= 0 {
      BelowLast(t, d, items, req);
    } else {
      BelowEmptyHeader(t, d, items, req);
    }
  }

  lemma BelowLast(t: Tables, d: map<int, nat>, items: seq<SheetItem>, req: Request)
    requires Succeeds(t, d, items, req) && !SlotGiven(items, req) && req.join && req.before.BeforeGroup? && !req.joinFirst
    requires LastMember(Keep(items, DragSet(t, d, items, req)), ParentsOf(t), req.before.gid) >= 0
    ensures var rest := Keep(items, DragSet(t, d, items, req));
      LandsBelow(Out(t, d, items, req), DragSet(t, d, items, req), rest[LastMember(rest, ParentsOf(t), req.before.gid)])
  {
    var drag := DragSet(t, d, items, req);
    var rest, at := Keep(items, drag), GapFor(items, drag, ParentsOf(t), req);
    DropParts(t, d, items, req);
    assert at == LastMember(rest, ParentsOf(t), req.before.gid) + 1;
    SpliceAround(rest, at, Dragged(t, d, items, req), drag);
  }

  lemma BelowEmptyHeader(t: Tables, d: map<int, nat>, items: seq<SheetItem>, req: Request)
    requires Succeeds(t, d, items, req) && !SlotGiven(items, req) && req.join && req.before.BeforeGroup? && !req.joinFirst
    requires LastMember(Keep(items, DragSet(t, d, items, req)), ParentsOf(t), req.before.gid) < 0
    ensures if Header(req.before.gid) in items then LandsBelow(Out(t, d, items, req), DragSet(t, d, items, req), Header(req.before.gid))
      else LandsLast(Out(t, d, items, req), DragSet(t, d, items, req))
  {
    var drag, x := DragSet(t, d, items, req), Header(req.before.gid);
    DropParts(t, d, items, req);
    TargetFree(t, d, items, req);
    EmptyHeaderGap(items, drag, ParentsOf(t), req);
    SpliceAround(Keep(items, drag), GapFor(items, drag, ParentsOf(t), req), Dragged(t, d, items, req), drag);
  }

  lemma TargetFree(t: Tables, d: map<int, nat>, items: seq<SheetItem>, req: Request)
    requires Succeeds(t, d, items, req) && req.join && req.before.BeforeGroup?
    ensures Header(req.before.gid) !in DragSet(t, d, items, req)
  {
    if req.before.gid in t.groups { TargetStays(t, d, items, req); }
    DraggedRows(t, d, items, req);
    assert Header(req.before.gid) in items <==> HasRow(t, Header(req.before.gid));
  }

  lemma EmptyHeaderGap(items: seq<SheetItem>, drag: set<SheetItem>, parents: map<int, int>, req: Request)
    requires req.join && req.before.BeforeGroup? && !req.joinFirst && Header(req.before.gid) !in drag
    requires LastMember(Keep(items, drag), parents, req.before.gid) < 0
    ensures var at, rest := JoinGap(items, drag, parents, req), Keep(items, drag);
      if Header(req.before.gid) in items then 0 < at <= |rest| && rest[at - 1] == Header(req.before.gid) else at == |rest|
  {
    KeepHas(items, drag, Header(req.before.gid));
  }

  lemma NoneBelowAt(t: Tables, rest: seq<SheetItem>, at: nat, dragged: seq<SheetItem>, drag: set<SheetItem>, gid: int, m: nat, i: nat)
    requires at <= |rest| && LastMember(rest, ParentsOf(t), gid) < at
    requires m < i < |Splice(rest, at, dragged)| && Splice(rest, at, dragged)[m] in drag
    requires (forall k :: 0 <= k < |rest| ==> rest[k] !in drag) && forall k :: 0 <= k < |dragged| ==> dragged[k] in drag
    ensures !StaysIn(t, drag, gid, Splice(rest, at, dragged)[i])
  {
    if Splice(rest, at, dragged)[i] !in drag {
      SpliceBelow(rest, at, dragged, m, i, drag);
      if StaysIn(t, drag, gid, rest[i - |dragged|]) { NoneAfterLast(rest, ParentsOf(t), gid, i - |dragged|); }
    }
  }

  lemma JoinGapPastLast(items: seq<SheetItem>, drag: set<SheetItem>, parents: map<int, int>, req: Request)
    requires JoinsGroup(req) && !req.joinFirst
    ensures LastMember(Keep(items, drag), parents, req.before.gid) < JoinGap(items, drag, parents, req)
  {
  }

  lemma MembersAbove(t: Tables, d: map<int, nat>, items: seq<SheetItem>, req: Request)
    requires Succeeds(t, d, items, req) && !SlotGiven(items, req) && req.join && req.before.BeforeGroup? && !req.joinFirst
    ensures NoneBelow(t, Out(t, d, items, req), DragSet(t, d, items, req), req.before.gid)
  {
    var drag, gid, out := DragSet(t, d, items, req), req.before.gid, Out(t, d, items, req);
    DropParts(t, d, items, req);
    KeepIsUndragged(items, drag);
    JoinGapPastLast(items, drag, ParentsOf(t), req);
    forall m, i | 0 <= m < i < |out| && out[m] in drag ensures !StaysIn(t, drag, gid, out[i]) {
      NoneBelowAt(t, Keep(items, drag), GapFor(items, drag, ParentsOf(t), req), Dragged(t, d, items, req), drag, gid, m, i);
    }
  }

  // --------------------------------------------------------------- member slots

  /** A slot after a cue: directly below it when it stays; when it is dragged along, above
      the first staying row after it. */
  lemma LandsInSlot(t: Tables, d: map<int, nat>, items: seq<SheetItem>, req: Request, k: nat, j: nat)
    requires Succeeds(t, d, items, req) && req.after > 0 && k < |items| && items[k] == Cue(req.after)
    requires FirstStaying(items, DragSet(t, d, items, req), k, j)
    ensures var out, drag := Out(t, d, items, req), DragSet(t, d, items, req);
      if j == k then LandsBelow(out, drag, Cue(req.after))
      else if j < |items| then LandsAbove(out, drag, items[j]) else LandsLast(out, drag)
  {
    var drag, dragged := DragSet(t, d, items, req), Dragged(t, d, items, req);
    DropParts(t, d, items, req);
    DistinctAt(items, k, Find(items, items[k]));
    if j == k {
      DropRepeat.RestIdxAt(items, drag, k);
      SpliceAround(Keep(items, drag), RestIdx(items, drag, k) + 1, dragged, drag);
    } else {
      var e := RunEnd(items, drag, k);
      LandsAt(items, drag, e, j, dragged);
    }
  }

  // ----------------------------------------------------- the dragged rows

  predicate CuesAt(out: seq<SheetItem>, at: nat, cues: seq<int>) {
    at + |cues| <= |out| && forall i :: 0 <= i < |cues| ==> out[at + i] == Cue(cues[i])
  }

  predicate RowsAt(out: seq<SheetItem>, at: nat, rows: seq<SheetItem>) {
    at + |rows| <= |out| && out[at..at + |rows|] == rows
  }

  /** They stand together: dragged cues in the order they were named, a block in the
      order it had. */
  lemma DraggedInOrder(t: Tables, d: map<int, nat>, items: seq<SheetItem>, req: Request)
    requires Succeeds(t, d, items, req)
    ensures var out, drag := Out(t, d, items, req), DragSet(t, d, items, req);
      if req.group == 0 then exists at: nat :: CuesAt(out, at, req.cues) else exists at: nat :: RowsAt(out, at, Take(items, drag))
  {
    DropParts(t, d, items, req);
    SpliceHolds(Keep(items, DragSet(t, d, items, req)), GapFor(items, DragSet(t, d, items, req), ParentsOf(t), req), Dragged(t, d, items, req));
  }

  lemma SpliceHolds(rest: seq<SheetItem>, at: nat, dragged: seq<SheetItem>)
    requires at <= |rest|
    ensures RowsAt(Splice(rest, at, dragged), at, dragged)
    ensures forall cues :: |cues| == |dragged| && (forall i :: 0 <= i < |cues| ==> dragged[i] == Cue(cues[i])) ==>
      CuesAt(Splice(rest, at, dragged), at, cues)
  {
    var out := Splice(rest, at, dragged);
    forall i | 0 <= i < |dragged| ensures out[at + i] == dragged[i] {}
  }

  // ------------------------------------------------------------- memberships

  /** The nearest header above row i is gid's; 0 when there is none. */
  ghost predicate OwnerAbove(out: seq<SheetItem>, i: nat, gid: int)
    requires i <= |out|
  {
    || (gid == 0 && forall m :: 0 <= m < i ==> out[m].Cue?)
    || exists h :: 0 <= h < i && out[h] == Header(gid) && forall m :: h < m < i ==> out[m].Cue?
  }

  lemma {:induction false} LastHeaderAbove(out: seq<SheetItem>, i: nat)
    requires i <= |out|
    ensures OwnerAbove(out, i, Gap.LastHeader(out, i))
    decreases i
  {
    if i > 0 && out[i - 1].Cue? {
      LastHeaderAbove(out, i - 1);
    } else if i > 0 {
      assert out[i - 1] == Header(out[i - 1].gid);
    }
  }

  lemma {:induction false} PlacedAt(out: seq<SheetItem>, x: SheetItem, i: nat)
    requires Distinct(out) && i < |out| && out[i] == x
    ensures LastPlace(out, x) == i
  {
    if i < |out| - 1 { PlacedAt(out[..|out| - 1], x, i); }
  }

  /** A dragged cue joins the group given, or none when pinned to the top, or the folder
      it was dropped on, or else the group whose header is the nearest above it. */
  lemma JoinsGiven(t: Tables, d: map<int, nat>, items: seq<SheetItem>, req: Request, i: nat)
    requires Succeeds(t, d, items, req) && req.group == 0
    requires i < |Out(t, d, items, req)| && Out(t, d, items, req)[i].Cue? && Out(t, d, items, req)[i].pos in req.cues
    ensures var out := Out(t, d, items, req); var pos := out[i].pos; var r := After(t, d, items, req);
      && pos in r.cues
      && (req.parent.Given? ==> r.cues[pos].parent == req.parent.id)
      && (req.parent.Absent? && req.forceTop ==> r.cues[pos].parent == 0)
      && (req.parent.Absent? && !req.forceTop && req.join && req.before.BeforeGroup? ==> r.cues[pos].parent == req.before.gid)
      && (req.parent.Absent? && !req.forceTop && !(req.join && req.before.BeforeGroup?) ==> OwnerAbove(out, i, r.cues[pos].parent))
  {
    var out := Out(t, d, items, req);
    DropResult(t, d, items, req);
    DropOrder(t, d, items, req);
    PlacedAt(out, out[i], i);
    LastHeaderAbove(out, i);
    assert out[i] in items;
    assert HasRow(t, out[i]);
  }

  /** The dragged block hangs from the folder it was dropped on, or the group given, or
      where it was; no other group moves.  The folder dropped on and the group given are
      open afterwards, and no other is opened or closed. */
  lemma GroupsEnd(t: Tables, d: map<int, nat>, items: seq<SheetItem>, req: Request, k: int)
    requires Succeeds(t, d, items, req) && k in t.groups
    ensures var r := After(t, d, items, req); var onHeader := req.join && req.before.BeforeGroup?;
      && k in r.groups
      && r.groups[k].parent == (if k == req.group && k != 0 && onHeader then req.before.gid
                                else if k == req.group && k != 0 && req.parent.Given? then req.parent.id else t.groups[k].parent)
      && (r.groups[k].collapse <==>
            t.groups[k].collapse && !(onHeader && k == req.before.gid) && !(req.parent.Given? && req.parent.id != 0 && k == req.parent.id))
  {
    GroupsWritten(t, d, items, req);
    GroupEnd(t.groups, req, k);
  }

  lemma GroupEnd(g: Groups, req: Request, k: int)
    requires k in g
    ensures var h := GroupsAfter(g, req); var onHeader := req.join && req.before.BeforeGroup?;
      && k in h
      && h[k].parent == (if k == req.group && k != 0 && onHeader then req.before.gid
                         else if k == req.group && k != 0 && req.parent.Given? then req.parent.id else g[k].parent)
      && (h[k].collapse <==>
            g[k].collapse && !(onHeader && k == req.before.gid) && !(req.parent.Given? && req.parent.id != 0 && k == req.parent.id))
  {
  }

  /** What is not carried out leaves order and memberships alone: a group that does not
      exist, nothing dragged, a nesting that is refused. */
  lemma NotDropped(t: Tables, d: map<int, nat>, items: seq<SheetItem>, req: Request)
    requires Climbable(t.groups, d, req) && Loaded(t, items)
    ensures var r := Drop(t, d, items, req);
      && (r.outcome == GroupMissing <==> req.group != 0 && req.group !in t.groups)
      && (r.outcome == NothingToDo <==> req.group == 0 && req.cues == [])
      && (r.outcome.Refusal? ==> req.group != 0)
      && (r.outcome != Dropped ==> r.tables.cues == t.cues && r.tables.groups.Keys == t.groups.Keys)
      && (r.outcome == GroupMissing || r.outcome == NothingToDo ==> r.tables == t)
  {
    if req.group != 0 && req.group in t.groups {
      assert HasRow(t, Header(req.group));
      KeepHas(items, DragSet(t, d, items, req), Header(req.group));
    }
    AfterParentOthers(t.groups, req);
  }
}
