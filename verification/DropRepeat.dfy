/** Repeating a drag: the second drop finds the same rows, the same gap and the
    same groups, and writes what is already there (ctp/sheet.go, SheetDrop). */
module DropRepeat {
  import opened Util
  import opened Forest
  import opened GroupTable
  import opened PreOrder
  import opened SheetStore
  import opened DropSpec
  import opened DropFacts
  import opened DropAfter

  // ------------------------------------------------------------ the same gap

  /** Where a row that stays comes among the rows that stay. */
  lemma RestIdxAt(items: seq<SheetItem>, drag: set<SheetItem>, i: nat)
    requires i < |items| && items[i] !in drag
    ensures RestIdx(items, drag, i) < |Keep(items, drag)| && Keep(items, drag)[RestIdx(items, drag, i)] == items[i]
    ensures RestIdx(items, drag, i + 1) == RestIdx(items, drag, i) + 1
  {
    RestIdxWithin(items, drag, i);
    assert items[..i + 1][..i] == items[..i];
  }

  /** Anywhere in the dragged block of a splice the count of staying rows is at. */
  lemma BlockPlace(rest: seq<SheetItem>, at: nat, dragged: seq<SheetItem>, drag: set<SheetItem>, n: nat)
    requires at <= |rest| && at <= n <= at + |dragged|
    requires forall i :: 0 <= i < |rest| ==> rest[i] !in drag
    requires forall i :: 0 <= i < |dragged| ==> dragged[i] in drag
    ensures RestIdx(Splice(rest, at, dragged), drag, n) == at
  {
    var out := Splice(rest, at, dragged);
    assert out[..n] == rest[..at] + dragged[..n - at];
    KeepAppend(rest[..at], dragged[..n - at], drag);
    KeepAll(rest[..at], drag);
    TakeAll(dragged[..n - at], drag);
  }

  /** A dragged row of a splice lies in its block. */
  lemma InBlock(rest: seq<SheetItem>, at: nat, dragged: seq<SheetItem>, drag: set<SheetItem>, n: nat)
    requires at <= |rest| && n < |Splice(rest, at, dragged)| && Splice(rest, at, dragged)[n] in drag
    requires forall i :: 0 <= i < |rest| ==> rest[i] !in drag
    ensures at <= n < at + |dragged|
  {
    var out := Splice(rest, at, dragged);
    forall k | 0 <= k < at ensures out[k] !in drag { assert out[k] == rest[k]; }
    forall k | at + |dragged| <= k < |out| ensures out[k] !in drag { assert out[k] == rest[k - |dragged|]; }
  }

  /** Two sequences with the same rows staying in the same order, the second with
      its dragged rows together at gap at. */
  ghost predicate Regrouped(items: seq<SheetItem>, drag: set<SheetItem>, out: seq<SheetItem>, at: nat, dragged: seq<SheetItem>) {
    && Distinct(items) && Distinct(out)
    && (forall x :: x in out <==> x in items)
    && at <= |Keep(items, drag)|
    && (forall i :: 0 <= i < |dragged| ==> dragged[i] in drag)
    && out == Splice(Keep(items, drag), at, dragged)
    && Keep(out, drag) == Keep(items, drag)
  }

  lemma StayingPlace(items: seq<SheetItem>, out: seq<SheetItem>, drag: set<SheetItem>, i: nat, k: nat)
    requires Distinct(items) && Keep(out, drag) == Keep(items, drag)
    requires i < |items| && k < |out| && items[i] == out[k] && items[i] !in drag
    ensures RestIdx(out, drag, k) == RestIdx(items, drag, i)
    ensures RestIdx(out, drag, k + 1) == RestIdx(items, drag, i + 1)
  {
    RestIdxAt(items, drag, i);
    RestIdxAt(out, drag, k);
    KeepDistinct(items, drag);
    DistinctAt(Keep(items, drag), RestIdx(items, drag, i), RestIdx(out, drag, k));
  }

  lemma StayingAnchor(items: seq<SheetItem>, drag: set<SheetItem>, out: seq<SheetItem>, x: SheetItem)
    requires Distinct(items) && Keep(out, drag) == Keep(items, drag) && x in items && x in out && x !in drag
    ensures RestIdx(out, drag, Find(out, x)) == RestIdx(items, drag, Find(items, x))
    ensures RestIdx(out, drag, Find(out, x) + 1) == RestIdx(items, drag, Find(items, x) + 1)
  {
    StayingPlace(items, out, drag, Find(items, x), Find(out, x));
  }

  lemma MovingAnchor(items: seq<SheetItem>, drag: set<SheetItem>, out: seq<SheetItem>, at: nat, dragged: seq<SheetItem>, x: SheetItem)
    requires Regrouped(items, drag, out, at, dragged) && x in items && x in drag
    ensures RestIdx(out, drag, Find(out, x)) == at
    ensures RestIdx(out, drag, RunEnd(out, drag, Find(out, x))) == at
  {
    var rest := Keep(items, drag);
    KeepIsUndragged(items, drag);
    var i := Find(out, x);
    InBlock(rest, at, dragged, drag, i);
    BlockPlace(rest, at, dragged, drag, i);
    var j := RunEnd(out, drag, i);
    if j > i {
      InBlock(rest, at, dragged, drag, j - 1);
    }
    BlockPlace(rest, at, dragged, drag, j);
  }

  lemma BaseGapAgain(items: seq<SheetItem>, drag: set<SheetItem>, out: seq<SheetItem>, at: nat, dragged: seq<SheetItem>, req: Request)
    requires Regrouped(items, drag, out, at, dragged)
    requires at == BaseGap(items, drag, req)
    ensures BaseGap(out, drag, req) == at
  {
    if req.before != AtEnd {
      var x := if req.before.BeforeCue? then Cue(req.before.pos) else Header(req.before.gid);
      if x in items {
        if x in drag { MovingAnchor(items, drag, out, at, dragged, x); }
        else { StayingAnchor(items, drag, out, x); }
      }
    }
  }

  lemma AfterGapAgain(items: seq<SheetItem>, drag: set<SheetItem>, out: seq<SheetItem>, at: nat, dragged: seq<SheetItem>, x: SheetItem)
    requires Regrouped(items, drag, out, at, dragged) && x in items
    requires at == AfterGap(items, drag, Find(items, x))
    ensures AfterGap(out, drag, Find(out, x)) == at
  {
    if x in drag { MovingAnchor(items, drag, out, at, dragged, x); }
    else { StayingAnchor(items, drag, out, x); }
  }

  lemma {:induction false} LastMemberSame(rest: seq<SheetItem>, p: map<int, int>, q: map<int, int>, gid: int)
    requires forall i :: 0 <= i < |rest| && rest[i].Cue? ==>
        rest[i].pos in p && rest[i].pos in q && p[rest[i].pos] == q[rest[i].pos]
    ensures LastMember(rest, p, gid) == LastMember(rest, q, gid)
  {
    if |rest| > 0 { LastMemberSame(rest[..|rest| - 1], p, q, gid); }
  }

  lemma JoinGapAgain(items: seq<SheetItem>, drag: set<SheetItem>, p: map<int, int>, q: map<int, int>,
                     out: seq<SheetItem>, at: nat, dragged: seq<SheetItem>, req: Request)
    requires Regrouped(items, drag, out, at, dragged) && JoinsGroup(req)
    requires Header(req.before.gid) !in drag
    requires forall i :: 0 <= i < |Keep(items, drag)| && Keep(items, drag)[i].Cue? ==>
        Keep(items, drag)[i].pos in p && Keep(items, drag)[i].pos in q && p[Keep(items, drag)[i].pos] == q[Keep(items, drag)[i].pos]
    requires at == JoinGap(items, drag, p, req)
    ensures JoinGap(out, drag, q, req) == at
  {
    if req.joinFirst {
      JoinFirstAgain(items, drag, p, q, out, at, dragged, req);
    } else {
      JoinLastAgain(items, drag, p, q, out, at, dragged, req);
    }
  }

  lemma JoinFirstAgain(items: seq<SheetItem>, drag: set<SheetItem>, p: map<int, int>, q: map<int, int>,
                       out: seq<SheetItem>, at: nat, dragged: seq<SheetItem>, req: Request)
    requires Regrouped(items, drag, out, at, dragged) && JoinsGroup(req) && req.joinFirst
    requires Header(req.before.gid) !in drag && at == JoinGap(items, drag, p, req)
    ensures JoinGap(out, drag, q, req) == at
  {
    var x := Header(req.before.gid);
    KeepHas(items, drag, x);
    if x in items { StayingAnchor(items, drag, out, x); }
  }

  lemma JoinLastAgain(items: seq<SheetItem>, drag: set<SheetItem>, p: map<int, int>, q: map<int, int>,
                      out: seq<SheetItem>, at: nat, dragged: seq<SheetItem>, req: Request)
    requires Regrouped(items, drag, out, at, dragged) && JoinsGroup(req) && !req.joinFirst
    requires Header(req.before.gid) !in drag
    requires forall i :: 0 <= i < |Keep(items, drag)| && Keep(items, drag)[i].Cue? ==>
        Keep(items, drag)[i].pos in p && Keep(items, drag)[i].pos in q && p[Keep(items, drag)[i].pos] == q[Keep(items, drag)[i].pos]
    requires at == JoinGap(items, drag, p, req)
    ensures JoinGap(out, drag, q, req) == at
  {
    var x := Header(req.before.gid);
    LastMemberSame(Keep(items, drag), p, q, req.before.gid);
    KeepHas(items, drag, x);
    if x in items { StayingAnchor(items, drag, out, x); }
  }

  lemma GapAgain(items: seq<SheetItem>, drag: set<SheetItem>, p: map<int, int>, q: map<int, int>,
                 out: seq<SheetItem>, at: nat, dragged: seq<SheetItem>, req: Request)
    requires Regrouped(items, drag, out, at, dragged)
    requires JoinsGroup(req) ==> Header(req.before.gid) !in drag
    requires forall i :: 0 <= i < |Keep(items, drag)| && Keep(items, drag)[i].Cue? ==>
        Keep(items, drag)[i].pos in p && Keep(items, drag)[i].pos in q && p[Keep(items, drag)[i].pos] == q[Keep(items, drag)[i].pos]
    requires at == GapFor(items, drag, p, req)
    ensures GapFor(out, drag, q, req) == at
  {
    if req.after > 0 && Cue(req.after) in items {
      AfterGapAgain(items, drag, out, at, dragged, Cue(req.after));
    } else if JoinsGroup(req) {
      JoinGapAgain(items, drag, p, q, out, at, dragged, req);
    } else {
      BaseGapAgain(items, drag, out, at, dragged, req);
    }
  }

  // ------------------------------------------------- the same rows dragged

  lemma NotDraggedParent(t: Tables, d: map<int, nat>, items: seq<SheetItem>, req: Request, pos: int)
    requires Succeeds(t, d, items, req) && pos in t.cues && (req.group != 0 || pos !in req.cues)
    ensures After(t, d, items, req).cues.Keys == t.cues.Keys
    ensures After(t, d, items, req).cues[pos].parent == t.cues[pos].parent
  {
    DropResult(t, d, items, req);
  }

  /** The block of the dragged group is the same set of rows after the drag. */
  lemma SameDragged(t: Tables, d: map<int, nat>, items: seq<SheetItem>, req: Request, e: map<int, nat>, x: SheetItem)
    requires Succeeds(t, d, items, req) && Depths(After(t, d, items, req).groups, e) && HasRow(t, x)
    ensures IsDragged(After(t, d, items, req), e, req, x) <==> IsDragged(t, d, req, x)
  {
    var r := After(t, d, items, req);
    if req.group != 0 {
      GroupsWritten(t, d, items, req);
      DropResult(t, d, items, req);
      var p := match x case Header(gid) => gid case Cue(pos) => t.cues[pos].parent;
      if x.Cue? { NotDraggedParent(t, d, items, req, x.pos); }
      if Within(t.groups, d, p, req.group) { BlockSame(t.groups, d, r.groups, e, p, req.group); }
      if Within(r.groups, e, p, req.group) { BlockSame(r.groups, e, t.groups, d, p, req.group); }
    }
  }

  lemma SameDragSet(t: Tables, d: map<int, nat>, items: seq<SheetItem>, req: Request, e: map<int, nat>)
    requires Succeeds(t, d, items, req) && Depths(After(t, d, items, req).groups, e)
    ensures var r := After(t, d, items, req); var out := Out(t, d, items, req);
      && DragSet(r, e, out, req) == DragSet(t, d, items, req)
      && Dragged(r, e, out, req) == Dragged(t, d, items, req)
      && Proper(r, e, out, req)
  {
    var r, out := After(t, d, items, req), Out(t, d, items, req);
    DropResult(t, d, items, req);
    GroupsWritten(t, d, items, req);
    DropOrder(t, d, items, req);
    if req.group != 0 {
      forall x ensures x in DragSet(r, e, out, req) <==> x in DragSet(t, d, items, req) {
        if HasRow(t, x) { SameDragged(t, d, items, req, e, x); }
        assert x in items <==> HasRow(t, x);
      }
    }
  }

  // ------------------------------------------------------ the same verdicts

  lemma ValidatedSame(g: Groups, h: Groups, id: int, parent: int)
    requires g.Keys == h.Keys && forall k :: k in g && k != id ==> g[k].parent == h[k].parent
    ensures Validated(g, id, parent) == Validated(h, id, parent)
  {
    if parent != 0 && parent != id {
      CheckSkips(g, h, id, {id}, parent, 0);
    }
  }

  lemma SameVerdicts(t: Tables, d: map<int, nat>, items: seq<SheetItem>, req: Request)
    requires Succeeds(t, d, items, req)
    ensures var r := After(t, d, items, req); ParentAccepted(r.groups, req) && JoinAccepted(r.groups, req)
  {
    var r := After(t, d, items, req);
    GroupsWritten(t, d, items, req);
    AfterParentOthers(t.groups, req);
    AfterParentOthers(r.groups, req);
    if req.parent.Given? { ValidatedSame(t.groups, r.groups, req.group, req.parent.id); }
    if JoinsGroup(req) {
      ValidatedSame(AfterParent(t.groups, req), AfterParent(r.groups, req), req.group, req.before.gid);
    }
  }

  /** What the drag wrote to the groups it would write again. */
  lemma GroupsSettled(g: Groups, h: Groups, req: Request)
    requires var k := GroupsAfter(g, req);
      h.Keys == k.Keys && forall x :: x in k ==> h[x].parent == k[x].parent && h[x].collapse == k[x].collapse
    ensures GroupsAfter(h, req) == h
  {
    if req.parent.Given? && JoinsGroup(req) && req.group != 0 && req.group in g {
      // Two nestings in one drag: the header dropped on has the last word.
      NestedSettles(g, h, req);
    }
  }

  lemma NestedSettles(g: Groups, h: Groups, req: Request)
    requires req.parent.Given? && JoinsGroup(req) && req.group != 0 && req.group in g
    requires var k := GroupsAfter(g, req);
      h.Keys == k.Keys && forall x :: x in k ==> h[x].parent == k[x].parent && h[x].collapse == k[x].collapse
    ensures GroupsAfter(h, req) == h
  {
    var k := GroupsAfter(h, req);
    forall x | x in h ensures k[x] == h[x] {
      NestedGroup(g, req, x);
      NestedGroup(h, req, x);
    }
  }

  /** One group of the table after such a drag. */
  lemma NestedGroup(g: Groups, req: Request, x: int)
    requires req.parent.Given? && JoinsGroup(req) && req.group != 0 && req.group in g && x in g
    ensures var k := GroupsAfter(g, req);
      && k.Keys == g.Keys && k[x].index == g[x].index
      && k[x].parent == (if x == req.group then req.before.gid else g[x].parent)
      && k[x].collapse == (g[x].collapse && x != req.before.gid && !(req.parent.id != 0 && x == req.parent.id))
  {
  }

  // ---------------------------------------------------------- the same drop

  lemma SameGap(t: Tables, d: map<int, nat>, items: seq<SheetItem>, req: Request, e: map<int, nat>)
    requires Succeeds(t, d, items, req) && Depths(After(t, d, items, req).groups, e)
    ensures var r := After(t, d, items, req); var out := Out(t, d, items, req); var drag := DragSet(t, d, items, req);
      GapFor(out, drag, ParentsOf(r), req) == GapFor(items, drag, ParentsOf(t), req)
  {
    var r, out := After(t, d, items, req), Out(t, d, items, req);
    var drag := DragSet(t, d, items, req);
    var at := GapFor(items, drag, ParentsOf(t), req);
    var dragged := Dragged(t, d, items, req);
    DropOrder(t, d, items, req);
    DraggedRows(t, d, items, req);
    LoadedDistinct(t, items);
    GapInBounds(t, d, items, req);
    forall i | 0 <= i < |dragged| ensures dragged[i] in drag { assert dragged[i] in dragged; }
    TargetNotDragged(t, d, items, req);
    StayersKeepParents(t, d, items, req);
    GapAgain(items, drag, ParentsOf(t), ParentsOf(r), out, at, dragged, req);
  }

  lemma TargetNotDragged(t: Tables, d: map<int, nat>, items: seq<SheetItem>, req: Request)
    requires Succeeds(t, d, items, req)
    ensures JoinsGroup(req) ==> Header(req.before.gid) !in DragSet(t, d, items, req)
  {
    if JoinsGroup(req) && Header(req.before.gid) in DragSet(t, d, items, req) {
      DraggedRows(t, d, items, req);
      assert HasRow(t, Header(req.before.gid));
      TargetStays(t, d, items, req);
      assert false;
    }
  }

  lemma StayersKeepParents(t: Tables, d: map<int, nat>, items: seq<SheetItem>, req: Request)
    requires Succeeds(t, d, items, req)
    ensures var p := ParentsOf(t); var q := ParentsOf(After(t, d, items, req)); var rest := Keep(items, DragSet(t, d, items, req));
      forall i :: 0 <= i < |rest| && rest[i].Cue? ==>
        rest[i].pos in p && rest[i].pos in q && p[rest[i].pos] == q[rest[i].pos]
  {
    var drag := DragSet(t, d, items, req);
    var rest := Keep(items, drag);
    KeepIsUndragged(items, drag);
    DropResult(t, d, items, req);
    forall i | 0 <= i < |rest| && rest[i].Cue?
      ensures rest[i].pos in t.cues && (req.group != 0 || rest[i].pos !in req.cues)
    {
      KeepHas(items, drag, rest[i]);
      assert HasRow(t, rest[i]);
      if req.group == 0 { assert Cue(rest[i].pos) !in drag; }
    }
  }

  lemma {:induction false} WrittenAgain(r: Tables, items: seq<SheetItem>, k: nat)
    requires k <= |items|
    requires forall i :: 0 <= i < |items| && HasRow(r, items[i]) ==> IndexOf(r, items[i]) == i as real * STEP
    ensures Written(r, items[..k], ParentsOf(r)) == r
  {
    if k > 0 {
      assert items[..k][..k - 1] == items[..k - 1];
      WrittenAgain(r, items, k - 1);
      WriteRowAgain(r, items[k - 1], (k - 1) as real * STEP);
    }
  }

  lemma WriteRowAgain(r: Tables, item: SheetItem, index: real)
    requires HasRow(r, item) ==> IndexOf(r, item) == index
    ensures WriteRow(r, item, index, ParentsOf(r)) == r
  {
    match item
    case Cue(pos) => if pos in r.cues { assert r.cues[pos := r.cues[pos]] == r.cues; }
    case Header(gid) => if gid in r.groups { assert r.groups[gid := r.groups[gid]] == r.groups; }
  }

  lemma AfterIndexes(t: Tables, d: map<int, nat>, items: seq<SheetItem>, req: Request)
    requires Succeeds(t, d, items, req)
    ensures var r := After(t, d, items, req); var out := Out(t, d, items, req);
      forall i :: 0 <= i < |out| && HasRow(r, out[i]) ==> IndexOf(r, out[i]) == i as real * STEP
  {
    var out := Out(t, d, items, req);
    var m := t.(groups := GroupsAfter(t.groups, req));
    CuesCovered(t, d, items, req);
    AfterIs(t, d, items, req);
    forall i | 0 <= i < |out|
      ensures HasRow(After(t, d, items, req), out[i]) && IndexOf(After(t, d, items, req), out[i]) == i as real * STEP
    {
      assert HasRow(m, out[i]);
      WrittenAt(m, out, NewParents(ParentsOf(t), out, req), i);
      WrittenKeeps(m, out, NewParents(ParentsOf(t), out, req));
    }
  }

  lemma SameParents(t: Tables, d: map<int, nat>, items: seq<SheetItem>, req: Request)
    requires Succeeds(t, d, items, req)
    ensures var p := ParentsOf(After(t, d, items, req)); NewParents(p, Out(t, d, items, req), req) == p
  {
    ParentsAfter(t, d, items, req);
    NewParentsTwice(ParentsOf(t), Out(t, d, items, req), req);
  }

  lemma NewParentsTwice(p: map<int, int>, out: seq<SheetItem>, req: Request)
    ensures NewParents(NewParents(p, out, req), out, req) == NewParents(p, out, req)
  {
  }

  lemma OutAgain(t: Tables, d: map<int, nat>, items: seq<SheetItem>, req: Request, e: map<int, nat>)
    requires Succeeds(t, d, items, req) && Depths(After(t, d, items, req).groups, e)
    ensures Out(After(t, d, items, req), e, Out(t, d, items, req), req) == Out(t, d, items, req)
  {
    SameDragSet(t, d, items, req, e);
    SameGap(t, d, items, req, e);
    DropOrder(t, d, items, req);
    GapInBounds(t, d, items, req);
  }

  lemma SucceedsAgain(t: Tables, d: map<int, nat>, items: seq<SheetItem>, req: Request, e: map<int, nat>)
    requires Succeeds(t, d, items, req) && Depths(After(t, d, items, req).groups, e)
    ensures Succeeds(After(t, d, items, req), e, Out(t, d, items, req), req)
  {
    SameDragSet(t, d, items, req, e);
    SameVerdicts(t, d, items, req);
  }

  lemma WritesTheSame(t: Tables, d: map<int, nat>, items: seq<SheetItem>, req: Request)
    requires Succeeds(t, d, items, req)
    ensures var r := After(t, d, items, req); var out := Out(t, d, items, req);
      Written(r.(groups := GroupsAfter(r.groups, req)), out, NewParents(ParentsOf(r), out, req)) == r
  {
    var r, out := After(t, d, items, req), Out(t, d, items, req);
    GroupsWritten(t, d, items, req);
    GroupsAfterFacts(t.groups, req);
    GroupsSettled(t.groups, r.groups, req);
    SameParents(t, d, items, req);
    AfterIndexes(t, d, items, req);
    WrittenAgain(r, out, |out|);
    assert out[..|out|] == out;
    assert r.(groups := r.groups) == r;
  }

  /** Repeating a drag that succeeded changes nothing at all: not the order, not a
      membership, not a group row, not even an index. */
  lemma DropTwiceIsOnce(t: Tables, d: map<int, nat>, items: seq<SheetItem>, req: Request, e: map<int, nat>)
    requires Succeeds(t, d, items, req) && Depths(After(t, d, items, req).groups, e)
    ensures Drop(After(t, d, items, req), e, Out(t, d, items, req), req) == Result(Dropped, After(t, d, items, req))
  {
    OutAgain(t, d, items, req, e);
    SucceedsAgain(t, d, items, req, e);
    WritesTheSame(t, d, items, req);
    AfterIs(After(t, d, items, req), e, Out(t, d, items, req), req);
  }
}
