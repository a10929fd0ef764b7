/** FlattenSheet (ctp/ctp.go): folds the visual sequence into the rows the
    operator sees, with a stack of open group spans.

    Render is the loop's meaning, one row at a time.  The theorems say what the
    rows are: exactly the rows under no collapsed group, at their nesting depth,
    when the sheet is in pre-order; and, on any sheet at all, that no cue
    disappears unless a group it belongs to is collapsed. */
module Flatten {
  import opened Forest
  import opened PreOrder

  datatype Span = Span(gid: int, depth: nat, skipping: bool)

  datatype FlatRow = FlatRow(item: SheetItem, depth: nat)

  datatype Fold = Fold(stack: seq<Span>, rows: seq<FlatRow>)

  function CloseTo(stack: seq<Span>, depth: int): (r: seq<Span>)
    ensures r <= stack
  {
    if |stack| > 0 && stack[|stack| - 1].depth >= depth then CloseTo(stack[..|stack| - 1], depth) else stack
  }

  /** The topmost open span of a group, -1 when none is open. */
  function FindSpan(stack: seq<Span>, gid: int): (i: int)
    ensures -1 <= i < |stack|
    ensures i >= 0 ==> stack[i].gid == gid
    ensures forall k :: i < k < |stack| ==> stack[k].gid != gid
  {
    if |stack| == 0 then -1
    else if stack[|stack| - 1].gid == gid then |stack| - 1
    else FindSpan(stack[..|stack| - 1], gid)
  }

  /** A cue whose group is open further out closes the spans inside that group. */
  function Surface(stack: seq<Span>, parent: int): (r: seq<Span>)
    requires |stack| > 0
    ensures r <= stack
  {
    var i := FindSpan(stack, parent);
    if parent == stack[|stack| - 1].gid || i < 0 then stack else CloseTo(stack, stack[i].depth + 1)
  }

  ghost predicate Hidden(g: Groups, d: map<int, nat>, gid: int)
    requires Depths(g, d) && gid in g
  {
    Closed(g, d, g[gid].parent)
  }

  ghost function Step(s: Sheet, d: map<int, nat>, f: Fold, item: SheetItem): Fold
    requires Depths(s.groups, d) && (item.Header? ==> item.gid in s.groups)
  {
    match item
    case Header(gid) =>
      var base := CloseTo(f.stack, d[gid]);
      if Hidden(s.groups, d, gid) then
        Fold(base + [Span(gid, d[gid], true)], f.rows)
      else
        Fold(base + [Span(gid, d[gid], s.groups[gid].collapse)], f.rows + [FlatRow(item, d[gid])])
    case Cue(_) =>
      if |f.stack| == 0 then Fold(f.stack, f.rows + [FlatRow(item, 0)])
      else
        var stack := Surface(f.stack, Scope(s, item));
        if |stack| == 0 then Fold(stack, f.rows + [FlatRow(item, 0)])
        else
          var top := stack[|stack| - 1];
          if top.skipping && Within(s.groups, d, Scope(s, item), top.gid) then Fold(stack, f.rows)
          else if Scope(s, item) != top.gid then Fold(stack, f.rows + [FlatRow(item, 0)])
          else Fold(stack, f.rows + [FlatRow(item, top.depth + 1)])
  }

  ghost predicate HeadersKnown(s: Sheet) {
    forall k :: 0 <= k < |s.items| && s.items[k].Header? ==> s.items[k].gid in s.groups
  }

  ghost function Render(s: Sheet, d: map<int, nat>, k: nat): (f: Fold)
    requires Depths(s.groups, d) && HeadersKnown(s) && k <= |s.items|
  {
    if k == 0 then Fold([], []) else Step(s, d, Render(s, d, k - 1), s.items[k - 1])
  }

  // ------------------------------------------------- what the rows should be

  /** No group around the row is collapsed. */
  ghost predicate Visible(s: Sheet, d: map<int, nat>, item: SheetItem)
    requires Depths(s.groups, d)
  {
    !Closed(s.groups, d, Scope(s, item))
  }

  ghost function RowDepth(s: Sheet, d: map<int, nat>, item: SheetItem): nat
    requires Depths(s.groups, d)
  {
    if Scope(s, item) in s.groups then d[Scope(s, item)] + 1 else 0
  }

  /** The visible rows of the first k, in order, at their nesting depth. */
  ghost function Expected(s: Sheet, d: map<int, nat>, k: nat): (rows: seq<FlatRow>)
    requires Depths(s.groups, d) && k <= |s.items|
  {
    if k == 0 then []
    else
      Expected(s, d, k - 1) +
      (if Visible(s, d, s.items[k - 1]) then [FlatRow(s.items[k - 1], RowDepth(s, d, s.items[k - 1]))] else [])
  }

  // ------------------------------------------------------- pre-order sheets

  /** The stack that has exactly the groups around and including x open. */
  ghost function Spans(g: Groups, d: map<int, nat>, x: int): (st: seq<Span>)
    requires Depths(g, d)
    ensures x in g ==> |st| == d[x] + 1 && st[d[x]].gid == x
    decreases if x in g then d[x] + 1 else 0
  {
    if x !in g then [] else Spans(g, d, g[x].parent) + [Span(x, d[x], Closed(g, d, x))]
  }

  lemma {:induction false} CloseSpans(g: Groups, d: map<int, nat>, x: int, p: int)
    requires Depths(g, d) && Within(g, d, x, p) && p in g
    ensures CloseTo(Spans(g, d, x), d[p] + 1) == Spans(g, d, p)
    decreases d[x]
  {
    if x != p {
      WithinDepth(g, d, g[x].parent, p);
      CloseSpans(g, d, g[x].parent, p);
      var st := Spans(g, d, x);
      assert st[..|st| - 1] == Spans(g, d, g[x].parent);
    }
  }

  lemma {:induction false} CloseAll(stack: seq<Span>)
    ensures CloseTo(stack, 0) == []
  {
    if |stack| > 0 { CloseAll(stack[..|stack| - 1]); }
  }

  lemma {:induction false} FindInSpans(g: Groups, d: map<int, nat>, x: int, p: int)
    requires Depths(g, d) && x in g
    ensures Within(g, d, x, p) ==> p in g && FindSpan(Spans(g, d, x), p) == d[p]
    ensures !Within(g, d, x, p) ==> FindSpan(Spans(g, d, x), p) == -1
    decreases d[x]
  {
    var st := Spans(g, d, x);
    assert st[..|st| - 1] == Spans(g, d, g[x].parent);
    if g[x].parent != 0 && x != p {
      FindInSpans(g, d, g[x].parent, p);
    }
  }

  /** Surfacing an open group leaves exactly the spans around it. */
  lemma SurfaceSpans(g: Groups, d: map<int, nat>, x: int, p: int)
    requires Depths(g, d) && Within(g, d, x, p)
    ensures Surface(Spans(g, d, x), p) == Spans(g, d, p)
  {
    FindInSpans(g, d, x, p);
    CloseSpans(g, d, x, p);
    SpanDepths(g, d, x);
  }

  lemma {:induction false} SpanDepths(g: Groups, d: map<int, nat>, x: int)
    requires Depths(g, d)
    ensures forall i :: 0 <= i < |Spans(g, d, x)| ==> Spans(g, d, x)[i].depth == i
    decreases if x in g then d[x] + 1 else 0
  {
    if x in g {
      SpanDepths(g, d, g[x].parent);
    }
  }

  /** The stack after k rows: the spans of the open group; after a top-level cue
      the spans left open by the rows above may still be there. */
  ghost predicate StackIs(s: Sheet, d: map<int, nat>, k: nat, x: int)
    requires Depths(s.groups, d) && HeadersKnown(s) && k <= |s.items|
  {
    && Render(s, d, k).stack == Spans(s.groups, d, x)
    && (x == 0 || x in s.groups)
    && (OpenAt(s, k) != 0 ==> x == OpenAt(s, k))
  }

  lemma HeaderCloses(g: Groups, d: map<int, nat>, gid: int, stack: seq<Span>, x: int)
    requires Depths(g, d) && gid in g && stack == Spans(g, d, x)
    requires g[gid].parent == 0 || Within(g, d, x, g[gid].parent)
    ensures CloseTo(stack, d[gid]) == Spans(g, d, g[gid].parent)
    ensures Spans(g, d, gid) == Spans(g, d, g[gid].parent) + [Span(gid, d[gid], Closed(g, d, gid))]
  {
    if g[gid].parent == 0 {
      CloseAll(stack);
    } else {
      CloseSpans(g, d, x, g[gid].parent);
    }
  }

  lemma StepOnHeader(s: Sheet, d: map<int, nat>, f: Fold, gid: int, x: int)
    requires Depths(s.groups, d) && gid in s.groups && f.stack == Spans(s.groups, d, x)
    requires s.groups[gid].parent == 0 || Within(s.groups, d, x, s.groups[gid].parent)
    ensures Step(s, d, f, Header(gid)).stack == Spans(s.groups, d, gid)
    ensures Step(s, d, f, Header(gid)).rows == f.rows
        + (if Visible(s, d, Header(gid)) then [FlatRow(Header(gid), RowDepth(s, d, Header(gid)))] else [])
  {
    HeaderCloses(s.groups, d, gid, f.stack, x);
    HeaderAdds(s, d, f, gid);
  }

  /** A header row at its depth, unless something around it is closed. */
  lemma HeaderAdds(s: Sheet, d: map<int, nat>, f: Fold, gid: int)
    requires Depths(s.groups, d) && gid in s.groups
    ensures Step(s, d, f, Header(gid)).rows == f.rows
        + (if Visible(s, d, Header(gid)) then [FlatRow(Header(gid), RowDepth(s, d, Header(gid)))] else [])
    ensures Step(s, d, f, Header(gid)).stack == CloseTo(f.stack, d[gid]) + [Span(gid, d[gid], Closed(s.groups, d, gid))]
  {
  }

  lemma StepOnCue(s: Sheet, d: map<int, nat>, k: nat, x: int) returns (y: int)
    requires Depths(s.groups, d) && HeadersKnown(s) && k < |s.items| && s.items[k].Cue?
    requires StackIs(s, d, k, x) && FollowsAt(s, d, k)
    requires Scope(s, s.items[k]) == 0 || Scope(s, s.items[k]) in s.groups
    ensures StackIs(s, d, k + 1, y)
    ensures Render(s, d, k + 1).rows == Render(s, d, k).rows
        + (if Visible(s, d, s.items[k]) then [FlatRow(s.items[k], RowDepth(s, d, s.items[k]))] else [])
  {
    var p := Scope(s, s.items[k]);
    if p == 0 {
      if x != 0 { FindInSpans(s.groups, d, x, 0); }
      assert OpenAt(s, k + 1) == 0;
      y := x;
    } else {
      SurfaceSpans(s.groups, d, x, p);
      assert Within(s.groups, d, p, p);
      y := p;
    }
  }

  lemma {:induction false} RenderPreOrder(s: Sheet, d: map<int, nat>, k: nat) returns (x: int)
    requires Depths(s.groups, d) && HeadersKnown(s) && NoDangling(s) && Nested(s, d) && k <= |s.items|
    ensures StackIs(s, d, k, x)
    ensures Render(s, d, k).rows == Expected(s, d, k)
  {
    if k == 0 {
      x := 0;
    } else {
      var w := RenderPreOrder(s, d, k - 1);
      assert FollowsAt(s, d, k - 1);
      if s.items[k - 1].Header? {
        StepOnHeader(s, d, Render(s, d, k - 1), s.items[k - 1].gid, w);
        x := s.items[k - 1].gid;
      } else {
        ScopeExists(s, d, s.items[k - 1]);
        x := StepOnCue(s, d, k - 1, w);
      }
    }
  }

  /** On a pre-order sheet FlattenSheet draws exactly the rows with no collapsed
      group around them, in order; members one level below their header,
      top-level cues at depth 0; no member is drawn as a stray. */
  lemma FlattenIsExact(s: Sheet, d: map<int, nat>)
    requires Depths(s.groups, d) && IsPreOrder(s, d)
    ensures HeadersKnown(s)
    ensures Render(s, d, |s.items|).rows == Expected(s, d, |s.items|)
  {
    forall k | 0 <= k < |s.items|
      ensures s.items[k].Header? ==> s.items[k].gid in s.groups
    {
      HeaderKnown(s, k);
    }
    PreOrderIsNested(s, d);
    var x := RenderPreOrder(s, d, |s.items|);
  }
}
