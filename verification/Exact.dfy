/** Which sheets FlattenSheet (ctp/ctp.go) draws as stored: the exact condition, read
    off the stored facts row by row, with no stack in it. */
module Exact {
  import opened Forest
  import opened PreOrder
  import opened Flatten
  import opened Gap

  /** Group gid's span is open before row k: its header is above, and since then no
      header at its depth or higher up came, and no cue of a group open further out. */
  ghost predicate Open(s: Sheet, d: map<int, nat>, gid: int, k: nat)
    requires Depths(s.groups, d) && HeadersKnown(s) && k <= |s.items|
    decreases k
  {
    k > 0 && gid in s.groups &&
    match s.items[k - 1]
    case Header(h) => gid == h || (Open(s, d, gid, k - 1) && d[gid] < d[h])
    case Cue(_) =>
      var p := Scope(s, s.items[k - 1]);
      Open(s, d, gid, k - 1) && !(Open(s, d, p, k - 1) && d[p] < d[gid])
  }

  /** Gid is the innermost group open before row k. */
  ghost predicate Innermost(s: Sheet, d: map<int, nat>, gid: int, k: nat)
    requires Depths(s.groups, d) && HeadersKnown(s) && k <= |s.items|
  {
    Open(s, d, gid, k) && forall q :: Open(s, d, q, k) ==> d[q] <= d[gid]
  }

  /** Row k stands where it is drawn as stored: a header anywhere, a cue of no group
      anywhere, a member while its group is open, or a member of a group that is closed
      by the innermost group open. */
  ghost predicate InPlace(s: Sheet, d: map<int, nat>, k: nat)
    requires Depths(s.groups, d) && HeadersKnown(s) && k < |s.items|
  {
    var p := Scope(s, s.items[k]);
    || s.items[k].Header?
    || p !in s.groups
    || Open(s, d, p, k)
    || exists t :: Innermost(s, d, t, k) && HidesGroup(s, d, p, t)
  }

  // ------------------------------------------------- the open groups, the stack

  ghost predicate HasSpan(stack: seq<Span>, gid: int) {
    exists sp :: sp in stack && sp.gid == gid
  }

  lemma FoundIffHas(stack: seq<Span>, gid: int)
    ensures FindSpan(stack, gid) >= 0 <==> HasSpan(stack, gid)
  {
    if FindSpan(stack, gid) >= 0 { assert stack[FindSpan(stack, gid)] in stack; }
    if HasSpan(stack, gid) {
      var sp :| sp in stack && sp.gid == gid;
      var i :| 0 <= i < |stack| && stack[i] == sp;
    }
  }

  lemma HonestIn(s: Sheet, d: map<int, nat>, stack: seq<Span>, sp: Span)
    requires Depths(s.groups, d) && Honest(s, d, stack) && sp in stack
    ensures sp.gid in s.groups && sp.depth == d[sp.gid] && sp.skipping == Closed(s.groups, d, sp.gid)
  {
    var i :| 0 <= i < |stack| && stack[i] == sp;
  }

  /** Closing to a depth drops exactly the groups at that depth or below. */
  lemma CloseHas(s: Sheet, d: map<int, nat>, stack: seq<Span>, depth: int, gid: int)
    requires Depths(s.groups, d) && Honest(s, d, stack) && Deepening(stack)
    ensures HasSpan(CloseTo(stack, depth), gid) <==> HasSpan(stack, gid) && gid in s.groups && d[gid] < depth
  {
    CloseKeeps(stack, depth);
    forall sp | sp in stack ensures sp.gid in s.groups && sp.depth == d[sp.gid] { HonestIn(s, d, stack, sp); }
  }

  lemma HeaderHas(s: Sheet, d: map<int, nat>, f: Fold, h: int, gid: int)
    requires Depths(s.groups, d) && h in s.groups && Honest(s, d, f.stack) && Deepening(f.stack)
    ensures HasSpan(Step(s, d, f, Header(h)).stack, gid) <==> gid == h || (HasSpan(f.stack, gid) && gid in s.groups && d[gid] < d[h])
  {
    CloseHas(s, d, f.stack, d[h], gid);
    var top := HeaderStep(s, d, f, h);
    var base := CloseTo(f.stack, d[h]);
    assert top in base + [top];
    assert forall sp :: sp in base + [top] <==> sp in base || sp == top;
  }

  lemma SurfaceHas(s: Sheet, d: map<int, nat>, stack: seq<Span>, p: int, gid: int)
    requires Depths(s.groups, d) && Honest(s, d, stack) && Deepening(stack) && |stack| > 0
    ensures HasSpan(Surface(stack, p), gid) <==>
      HasSpan(stack, gid) && !(HasSpan(stack, p) && p in s.groups && gid in s.groups && d[p] < d[gid])
  {
    FoundIffHas(stack, p);
    SpanKnown(s, d, stack, gid);
    if HasSpan(stack, p) { SurfaceOpen(s, d, stack, p, gid); }
  }

  lemma SurfaceOpen(s: Sheet, d: map<int, nat>, stack: seq<Span>, p: int, gid: int)
    requires Depths(s.groups, d) && Honest(s, d, stack) && Deepening(stack) && HasSpan(stack, p) && |stack| > 0
    ensures p in s.groups
    ensures HasSpan(Surface(stack, p), gid) <==> HasSpan(stack, gid) && gid in s.groups && d[gid] <= d[p]
  {
    FoundIffHas(stack, p);
    HonestIn(s, d, stack, stack[FindSpan(stack, p)]);
    CloseHas(s, d, stack, d[p] + 1, gid);
    if p == stack[|stack| - 1].gid { TopIsDeepest(s, d, stack, gid); }
  }

  lemma TopIsDeepest(s: Sheet, d: map<int, nat>, stack: seq<Span>, gid: int)
    requires Depths(s.groups, d) && Honest(s, d, stack) && Deepening(stack) && |stack| > 0
    ensures stack[|stack| - 1].gid in s.groups
    ensures HasSpan(stack, gid) ==> gid in s.groups && d[gid] <= d[stack[|stack| - 1].gid]
    ensures HasSpan(stack, gid) && d[gid] == d[stack[|stack| - 1].gid] ==> gid == stack[|stack| - 1].gid
  {
    if HasSpan(stack, gid) {
      var sp :| sp in stack && sp.gid == gid;
      var i :| 0 <= i < |stack| && stack[i] == sp;
      assert i < |stack| - 1 ==> stack[i].depth < stack[|stack| - 1].depth;
    }
  }

  lemma CueHas(s: Sheet, d: map<int, nat>, f: Fold, item: SheetItem, gid: int)
    requires Depths(s.groups, d) && item.Cue? && Honest(s, d, f.stack) && Deepening(f.stack)
    ensures var p := Scope(s, item);
      HasSpan(Step(s, d, f, item).stack, gid) <==>
        HasSpan(f.stack, gid) && !(HasSpan(f.stack, p) && p in s.groups && gid in s.groups && d[p] < d[gid])
  {
    CueStack(s, d, f, item);
    if |f.stack| > 0 { SurfaceHas(s, d, f.stack, Scope(s, item), gid); }
  }

  ghost predicate Spanned(s: Sheet, d: map<int, nat>, gid: int, k: nat)
    requires Depths(s.groups, d) && HeadersKnown(s) && k <= |s.items|
  {
    HasSpan(Render(s, d, k).stack, gid)
  }

  /** The renderer's stack holds exactly the groups that are open. */
  lemma {:induction false} OpenIsSpanned(s: Sheet, d: map<int, nat>, gid: int, k: nat)
    requires Depths(s.groups, d) && HeadersKnown(s) && k <= |s.items|
    ensures Open(s, d, gid, k) <==> Spanned(s, d, gid, k)
    decreases k
  {
    if k > 0 {
      OpenIsSpanned(s, d, gid, k - 1);
      OpenIsSpanned(s, d, Scope(s, s.items[k - 1]), k - 1);
      StepHas(s, d, k, gid);
    }
  }

  lemma OpenIsSpan(s: Sheet, d: map<int, nat>, gid: int, k: nat)
    requires Depths(s.groups, d) && HeadersKnown(s) && k <= |s.items|
    ensures Open(s, d, gid, k) <==> HasSpan(Render(s, d, k).stack, gid)
  {
    OpenIsSpanned(s, d, gid, k);
  }

  lemma StepHas(s: Sheet, d: map<int, nat>, k: nat, gid: int)
    requires Depths(s.groups, d) && HeadersKnown(s) && 0 < k <= |s.items|
    ensures var p := Scope(s, s.items[k - 1]);
      Spanned(s, d, gid, k) <==> (gid in s.groups &&
        match s.items[k - 1]
        case Header(h) => gid == h || (Spanned(s, d, gid, k - 1) && d[gid] < d[h])
        case Cue(_) => Spanned(s, d, gid, k - 1) && !(Spanned(s, d, p, k - 1) && p in s.groups && d[p] < d[gid]))
  {
    if s.items[k - 1].Header? { HeaderSpans(s, d, k, gid); } else { CueSpans(s, d, k, gid); }
  }

  lemma HeaderSpans(s: Sheet, d: map<int, nat>, k: nat, gid: int)
    requires Depths(s.groups, d) && HeadersKnown(s) && 0 < k <= |s.items| && s.items[k - 1].Header?
    ensures var h := s.items[k - 1].gid;
      Spanned(s, d, gid, k) <==> gid in s.groups && (gid == h || (Spanned(s, d, gid, k - 1) && d[gid] < d[h]))
  {
    RenderStack(s, d, k - 1);
    NextRender(s, d, k);
    HeaderHas(s, d, Render(s, d, k - 1), s.items[k - 1].gid, gid);
  }

  lemma CueSpans(s: Sheet, d: map<int, nat>, k: nat, gid: int)
    requires Depths(s.groups, d) && HeadersKnown(s) && 0 < k <= |s.items| && s.items[k - 1].Cue?
    ensures var p := Scope(s, s.items[k - 1]);
      Spanned(s, d, gid, k) <==>
        (gid in s.groups && Spanned(s, d, gid, k - 1) && !(Spanned(s, d, p, k - 1) && p in s.groups && d[p] < d[gid]))
  {
    RenderStack(s, d, k - 1);
    NextRender(s, d, k);
    SpanKnown(s, d, Render(s, d, k - 1).stack, gid);
    CueHas(s, d, Render(s, d, k - 1), s.items[k - 1], gid);
  }

  lemma SpanKnown(s: Sheet, d: map<int, nat>, stack: seq<Span>, gid: int)
    requires Depths(s.groups, d) && Honest(s, d, stack)
    ensures HasSpan(stack, gid) ==> gid in s.groups
  {
    if HasSpan(stack, gid) {
      var sp :| sp in stack && sp.gid == gid;
      HonestIn(s, d, stack, sp);
    }
  }

  // --------------------------------------------------------------- one row

  /** What row k should add. */
  ghost function ExpectedRow(s: Sheet, d: map<int, nat>, item: SheetItem): seq<FlatRow>
    requires Depths(s.groups, d)
  {
    if Visible(s, d, item) then [FlatRow(item, RowDepth(s, d, item))] else []
  }

  lemma HeaderRow(s: Sheet, d: map<int, nat>, f: Fold, item: SheetItem)
    requires Depths(s.groups, d) && item.Header? && item.gid in s.groups
    ensures Step(s, d, f, item).rows == f.rows + ExpectedRow(s, d, item)
  {
  }

  /** A member whose span is open is drawn under it, or hidden with it. */
  lemma OpenRow(s: Sheet, d: map<int, nat>, f: Fold, item: SheetItem)
    requires Depths(s.groups, d) && item.Cue? && Honest(s, d, f.stack) && Deepening(f.stack)
    requires HasSpan(f.stack, Scope(s, item))
    ensures Step(s, d, f, item).rows == f.rows + ExpectedRow(s, d, item)
  {
    var p := Scope(s, item);
    FoundIffHas(f.stack, p);
    var st := Surface(f.stack, p);
    SurfacedTop(s, d, f.stack, p);
    PrefixKeeps(s, d, f.stack, st);
    SpanKnown(s, d, f.stack, p);
    assert Within(s.groups, d, p, p);
    assert st[|st| - 1].skipping == Closed(s.groups, d, p) && st[|st| - 1].depth == d[p];
  }

  lemma SurfacedTop(s: Sheet, d: map<int, nat>, stack: seq<Span>, p: int)
    requires Depths(s.groups, d) && Honest(s, d, stack) && Deepening(stack) && HasSpan(stack, p)
    ensures |stack| > 0 && |Surface(stack, p)| > 0 && Surface(stack, p)[|Surface(stack, p)| - 1].gid == p
  {
    FoundIffHas(stack, p);
    var st := Surface(stack, p);
    SurfaceHas(s, d, stack, p, p);
    assert |st| > 0 by { var sp :| sp in st && sp.gid == p; }
    PrefixKeeps(s, d, stack, st);
    var t := st[|st| - 1].gid;
    TopIsDeepest(s, d, st, p);
    SurfaceHas(s, d, stack, p, t);
    assert HasSpan(st, t) by { assert st[|st| - 1] in st; }
  }

  /** A cue whose group has no open span: hidden when the innermost span hides its
      group, and drawn as a stray otherwise. */
  lemma LostRow(s: Sheet, d: map<int, nat>, f: Fold, item: SheetItem)
    requires Depths(s.groups, d) && item.Cue? && !HasSpan(f.stack, Scope(s, item)) && Honest(s, d, f.stack)
    ensures var p := Scope(s, item); var n := |f.stack|;
      Step(s, d, f, item).rows ==
        if n > 0 && HidesGroup(s, d, p, f.stack[n - 1].gid) then f.rows
        else f.rows + [FlatRow(item, 0)]
  {
    FoundIffHas(f.stack, Scope(s, item));
    assert |f.stack| > 0 ==> f.stack[|f.stack| - 1] in f.stack;
  }

  lemma InnermostIsTop(s: Sheet, d: map<int, nat>, k: nat, t: int)
    requires Depths(s.groups, d) && HeadersKnown(s) && k <= |s.items|
    ensures var st := Render(s, d, k).stack; Innermost(s, d, t, k) <==> |st| > 0 && st[|st| - 1].gid == t
  {
    var st := Render(s, d, k).stack;
    RenderStack(s, d, k);
    OpenIsSpan(s, d, t, k);
    if |st| > 0 {
      var top := st[|st| - 1].gid;
      assert HasSpan(st, top) by { assert st[|st| - 1] in st; }
      OpenIsSpan(s, d, top, k);
      forall q | Open(s, d, q, k) ensures d[q] <= d[top] {
        OpenIsSpan(s, d, q, k);
        TopIsDeepest(s, d, st, q);
      }
      TopIsDeepest(s, d, st, t);
    }
  }

  /** Row k adds what it should exactly when it is in place; otherwise it is drawn as a
      stray at depth 0. */
  lemma RowIffInPlace(s: Sheet, d: map<int, nat>, k: nat)
    requires Depths(s.groups, d) && HeadersKnown(s) && k < |s.items|
    ensures InPlace(s, d, k) ==> Render(s, d, k + 1).rows == Render(s, d, k).rows + ExpectedRow(s, d, s.items[k])
    ensures !InPlace(s, d, k) ==> s.items[k].Cue? && Scope(s, s.items[k]) in s.groups
    ensures !InPlace(s, d, k) ==> Render(s, d, k + 1).rows == Render(s, d, k).rows + [FlatRow(s.items[k], 0)]
  {
    var f, item := Render(s, d, k), s.items[k];
    var p := Scope(s, item);
    RenderStack(s, d, k);
    NextRender(s, d, k + 1);
    OpenIsSpan(s, d, p, k);
    if item.Header? {
      HeaderRow(s, d, f, item);
    } else if HasSpan(f.stack, p) {
      OpenRow(s, d, f, item);
    } else {
      LostRow(s, d, f, item);
      LostInPlace(s, d, k);
      LostExpected(s, d, item, if |f.stack| > 0 then f.stack[|f.stack| - 1].gid else 0);
    }
  }

  /** The innermost open group is closed and p lies in it. */
  ghost predicate HidesGroup(s: Sheet, d: map<int, nat>, p: int, t: int)
    requires Depths(s.groups, d)
  {
    Closed(s.groups, d, t) && Within(s.groups, d, p, t)
  }

  lemma HiddenByTop(s: Sheet, d: map<int, nat>, k: nat, p: int)
    requires Depths(s.groups, d) && HeadersKnown(s) && k <= |s.items|
    ensures var st := Render(s, d, k).stack; var n := |st|;
      (exists t :: Innermost(s, d, t, k) && HidesGroup(s, d, p, t)) <==> n > 0 && HidesGroup(s, d, p, st[n - 1].gid)
  {
    var st := Render(s, d, k).stack;
    if |st| > 0 { InnermostIsTop(s, d, k, st[|st| - 1].gid); }
    forall t | Innermost(s, d, t, k) ensures |st| > 0 && st[|st| - 1].gid == t { InnermostIsTop(s, d, k, t); }
  }

  lemma LostInPlace(s: Sheet, d: map<int, nat>, k: nat)
    requires Depths(s.groups, d) && HeadersKnown(s) && k < |s.items| && s.items[k].Cue?
    requires !Open(s, d, Scope(s, s.items[k]), k)
    ensures var p := Scope(s, s.items[k]); var st := Render(s, d, k).stack; var n := |st|;
      InPlace(s, d, k) <==> p !in s.groups || (n > 0 && HidesGroup(s, d, p, st[n - 1].gid))
  {
    HiddenByTop(s, d, k, Scope(s, s.items[k]));
  }

  lemma LostExpected(s: Sheet, d: map<int, nat>, item: SheetItem, t: int)
    requires Depths(s.groups, d) && item.Cue?
    ensures Scope(s, item) !in s.groups ==> !HidesGroup(s, d, Scope(s, item), t) && ExpectedRow(s, d, item) == [FlatRow(item, 0)]
    ensures HidesGroup(s, d, Scope(s, item), t) ==> ExpectedRow(s, d, item) == []
  {
    if HidesGroup(s, d, Scope(s, item), t) { ClosedBelow(s.groups, d, Scope(s, item), t); }
  }

  // ------------------------------------------------------------- the sheet

  lemma NextExpected(s: Sheet, d: map<int, nat>, k: nat)
    requires Depths(s.groups, d) && k < |s.items|
    ensures Expected(s, d, k + 1) == Expected(s, d, k) + ExpectedRow(s, d, s.items[k])
  {
  }

  lemma InPlaceRow(s: Sheet, d: map<int, nat>, k: nat)
    requires Depths(s.groups, d) && HeadersKnown(s) && k < |s.items| && InPlace(s, d, k)
    requires Render(s, d, k).rows == Expected(s, d, k)
    ensures Render(s, d, k + 1).rows == Expected(s, d, k + 1)
  {
    RowIffInPlace(s, d, k);
    NextExpected(s, d, k);
  }

  ghost predicate AllInPlace(s: Sheet, d: map<int, nat>)
    requires Depths(s.groups, d) && HeadersKnown(s)
  {
    forall k :: 0 <= k < |s.items| ==> InPlace(s, d, k)
  }

  lemma {:induction false} InPlaceRows(s: Sheet, d: map<int, nat>, k: nat)
    requires Depths(s.groups, d) && HeadersKnown(s) && k <= |s.items| && AllInPlace(s, d)
    ensures Render(s, d, k).rows == Expected(s, d, k)
  {
    if k > 0 {
      InPlaceRows(s, d, k - 1);
      InPlaceRow(s, d, k - 1);
    }
  }

  lemma {:induction false} ExpectedDepths(s: Sheet, d: map<int, nat>, k: nat, row: FlatRow)
    requires Depths(s.groups, d) && k <= |s.items| && row in Expected(s, d, k)
    ensures row.depth == RowDepth(s, d, row.item)
  {
    if row in Expected(s, d, k - 1) { ExpectedDepths(s, d, k - 1, row); }
  }

  lemma RowKept(s: Sheet, d: map<int, nat>, k: nat, row: FlatRow)
    requires Depths(s.groups, d) && HeadersKnown(s) && k < |s.items| && row in Render(s, d, k).rows
    ensures row in Render(s, d, k + 1).rows
  {
    RowIffInPlace(s, d, k);
    InLonger(Render(s, d, k).rows, Render(s, d, k + 1).rows, row);
  }

  lemma {:induction false} RowsStay(s: Sheet, d: map<int, nat>, i: nat, k: nat, row: FlatRow)
    requires Depths(s.groups, d) && HeadersKnown(s) && i <= k <= |s.items| && row in Render(s, d, i).rows
    ensures row in Render(s, d, k).rows
    decreases k
  {
    if i < k {
      RowsStay(s, d, i, k - 1, row);
      RowKept(s, d, k - 1, row);
    }
  }

  lemma InLonger<T>(a: seq<T>, b: seq<T>, x: T)
    requires a <= b && x in a
    ensures x in b
  {
    var i :| 0 <= i < |a| && a[i] == x;
    assert b[i] == x;
  }

  /** A row that is not in place leaves its mark on what is drawn. */
  lemma StrayShows(s: Sheet, d: map<int, nat>, k: nat)
    requires Depths(s.groups, d) && HeadersKnown(s) && k < |s.items| && !InPlace(s, d, k)
    ensures FlatRow(s.items[k], 0) in Render(s, d, |s.items|).rows && FlatRow(s.items[k], 0) !in Expected(s, d, |s.items|)
  {
    RowIffInPlace(s, d, k);
    var row := FlatRow(s.items[k], 0);
    RowsStay(s, d, k + 1, |s.items|, row);
    if row in Expected(s, d, |s.items|) { ExpectedDepths(s, d, |s.items|, row); }
  }

  /** FlattenSheet draws what is stored, no more, no less, each row at its depth,
      exactly when every row is in place.  Each row that is not is drawn at depth 0
      outside its folder. */
  lemma FlattenIsExactIff(s: Sheet, d: map<int, nat>)
    requires Depths(s.groups, d) && HeadersKnown(s)
    ensures Render(s, d, |s.items|).rows == Expected(s, d, |s.items|) <==> AllInPlace(s, d)
  {
    var n := |s.items|;
    if k :| 0 <= k < n && !InPlace(s, d, k) {
      StrayShows(s, d, k);
    } else {
      InPlaceRows(s, d, n);
    }
  }

  /** A pre-order sheet has every row in place; the converse fails. */
  lemma PreOrderInPlace(s: Sheet, d: map<int, nat>, k: nat)
    requires Depths(s.groups, d) && IsPreOrder(s, d) && k < |s.items|
    ensures HeadersKnown(s) && InPlace(s, d, k)
  {
    FlattenIsExact(s, d);
    FlattenIsExactIff(s, d);
  }

  const TOP_GROUP := Group(0, false, 0.0)

  /** Folder 1, folder 2 below it, and then a cue of folder 1: drawn as a top-level row
      below folder 2. */
  lemma CueBelowAnotherFolder()
    ensures var s := Sheet([Header(1), Header(2), Cue(1)], map[1 := 1], map[1 := TOP_GROUP, 2 := TOP_GROUP]);
      var d: map<int, nat> := map[1 := 0, 2 := 0];
      && Depths(s.groups, d) && HeadersKnown(s)
      && Render(s, d, 3).rows == Render(s, d, 2).rows + [FlatRow(Cue(1), 0)] && ExpectedRow(s, d, Cue(1)) == [FlatRow(Cue(1), 1)]
  {
    var s := Sheet([Header(1), Header(2), Cue(1)], map[1 := 1], map[1 := TOP_GROUP, 2 := TOP_GROUP]);
    var d: map<int, nat> := map[1 := 0, 2 := 0];
    assert !Open(s, d, 1, 2);
    assert !Within(s.groups, d, 1, 2);
    assert !InPlace(s, d, 2) by {
      forall t | Innermost(s, d, t, 2) ensures t == 2 { assert Open(s, d, 2, 2); }
    }
    RowIffInPlace(s, d, 2);
  }

  /** A top-level cue between two members of a folder: not pre-order, yet drawn as
      stored. */
  lemma ExactWithoutPreOrder()
    ensures var s := Sheet([Header(1), Cue(1), Cue(2), Cue(3)], map[1 := 1, 2 := 0, 3 := 1], map[1 := TOP_GROUP]);
      var d: map<int, nat> := map[1 := 0];
      && Depths(s.groups, d) && HeadersKnown(s)
      && Render(s, d, 4).rows == Expected(s, d, 4) && !IsPreOrder(s, d)
  {
    var s := Sheet([Header(1), Cue(1), Cue(2), Cue(3)], map[1 := 1, 2 := 0, 3 := 1], map[1 := TOP_GROUP]);
    var d: map<int, nat> := map[1 := 0];
    assert Open(s, d, 1, 1) && Open(s, d, 1, 2) && Open(s, d, 1, 3);
    FlattenIsExactIff(s, d);
    assert IsPreOrder(s, d) ==> Nested(s, d) by { if IsPreOrder(s, d) { PreOrderIsNested(s, d); } }
    assert !FollowsAt(s, d, 3);
  }
}
