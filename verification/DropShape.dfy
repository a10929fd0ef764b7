/** When a drag leaves every folder in one piece (ctp/sheet.go, SheetDrop): on a
    pre-order sheet the result is pre-order exactly when the dropped rows' group
    is open at the gap, and the row below the gap is not cut off from its own. */
module DropShape {
  import opened Util
  import opened Forest
  import opened PreOrder
  import opened SheetStore
  import opened DropSpec
  import opened DropFacts
  import opened DropAfter
  import DropRepeat

  /** Rows of group p may go at gap at: p is open there, and the row below keeps
      an open group. */
  ghost predicate Fits(s: Sheet, d: map<int, nat>, at: nat, p: int)
    requires Depths(s.groups, d) && at <= |s.items|
  {
    && (p == 0 || Within(s.groups, d, OpenAt(s, at), p))
    && (at == |s.items| || Scope(s, s.items[at]) == 0 || Within(s.groups, d, p, Scope(s, s.items[at])))
  }

  // -------------------------------------------- splicing a chain of rows in

  /** Rows that follow one another once the first has been placed. */
  ghost predicate Chained(s: Sheet, d: map<int, nat>)
    requires Depths(s.groups, d)
  {
    forall k {:trigger FollowsAt(s, d, k)} :: 1 <= k < |s.items| ==> FollowsAt(s, d, k)
  }

  lemma SpliceNested(s: Sheet, d: map<int, nat>, at: nat, rows: seq<SheetItem>, p: int)
    requires Depths(s.groups, d) && Nested(s, d) && at <= |s.items| && |rows| > 0
    requires Chained(s.(items := rows), d) && Scope(s, rows[0]) == p
    requires at < |s.items| ==>
        (Follows(s, d, s.items[at], OpenAfter(s, rows[|rows| - 1])) <==> Follows(s, d, s.items[at], p))
    ensures Nested(s.(items := Splice(s.items, at, rows)), d) <==> Fits(s, d, at, p)
  {
    var r := s.(items := Splice(s.items, at, rows));
    var n := |rows|;
    forall k | 0 <= k < |r.items|
      ensures k < at ==> FollowsAt(r, d, k)
      ensures k == at ==> (FollowsAt(r, d, k) <==> p == 0 || Within(s.groups, d, OpenAt(s, at), p))
      ensures at < k < at + n ==> FollowsAt(r, d, k)
      ensures k == at + n ==> (FollowsAt(r, d, k) <==> Scope(s, s.items[at]) == 0 || Within(s.groups, d, p, Scope(s, s.items[at])))
      ensures k > at + n ==> FollowsAt(r, d, k)
    {
      if k < at {
        assert FollowsAt(s, d, k);
      } else if k == at {
      } else if k < at + n {
        assert FollowsAt(s.(items := rows), d, k - at);
      } else if k == at + n {
      } else {
        assert FollowsAt(s, d, k - n);
      }
    }
    if Nested(r, d) {
      assert FollowsAt(r, d, at);
      if at < |s.items| { assert FollowsAt(r, d, at + n); }
    }
  }

  // ------------------------------------------------------- taking cues out

  /** The rows that stay after cues are taken out still nest, and whatever was
      open at a place is still open at the place it becomes. */
  lemma {:induction false} KeepNested(s: Sheet, d: map<int, nat>, drag: set<SheetItem>, n: nat)
    requires Depths(s.groups, d) && Nested(s, d) && n <= |s.items|
    requires forall x :: x in drag ==> x.Cue?
    ensures var r := s.(items := Keep(s.items[..n], drag));
      && Nested(r, d)
      && forall x :: x != 0 && Within(s.groups, d, OpenAt(s, n), x) ==> Within(s.groups, d, OpenAt(r, |r.items|), x)
  {
    if n > 0 {
      KeepNested(s, d, drag, n - 1);
      assert s.items[..n][..n - 1] == s.items[..n - 1];
      var item := s.items[n - 1];
      var q := s.(items := Keep(s.items[..n - 1], drag));
      assert FollowsAt(s, d, n - 1);
      if item in drag {
        assert Keep(s.items[..n], drag) == q.items;
        forall x | x != 0 && Within(s.groups, d, OpenAt(s, n), x)
          ensures Within(s.groups, d, OpenAt(q, |q.items|), x)
        {
          WithinTransitive(s.groups, d, OpenAt(s, n - 1), Scope(s, item), x);
        }
      } else {
        ExtendNested(q, d, item);
      }
    }
  }

  lemma ExtendNested(s: Sheet, d: map<int, nat>, item: SheetItem)
    requires Depths(s.groups, d) && Nested(s, d)
    requires Follows(s, d, item, OpenAt(s, |s.items|))
    ensures Nested(s.(items := s.items + [item]), d)
  {
    var r := s.(items := s.items + [item]);
    forall k | 0 <= k < |r.items| ensures FollowsAt(r, d, k) {
      if k < |s.items| { assert FollowsAt(s, d, k); }
    }
  }

  // ------------------------------------------------- the tables may change

  /** Outside a moved block the tree is the same. */
  lemma {:induction false} WithinOutside(g: Groups, d: map<int, nat>, h: Groups, e: map<int, nat>, id: int, x: int, y: int)
    requires Depths(g, d) && Depths(h, e) && g.Keys == h.Keys
    requires forall k :: k in g && k != id ==> g[k].parent == h[k].parent
    requires !Within(g, d, x, id)
    ensures Within(h, e, x, y) <==> Within(g, d, x, y)
    ensures !Within(h, e, x, id)
    decreases if x in g then d[x] else 0
  {
    if x in g && g[x].parent != 0 {
      WithinOutside(g, d, h, e, id, g[x].parent, y);
    }
  }

  /** Inside it too. */
  lemma {:induction false} WithinInside(g: Groups, d: map<int, nat>, h: Groups, e: map<int, nat>, id: int, x: int, y: int)
    requires Depths(g, d) && Depths(h, e) && g.Keys == h.Keys
    requires forall k :: k in g && k != id ==> g[k].parent == h[k].parent
    requires Within(g, d, x, y) && Within(g, d, y, id)
    ensures Within(h, e, x, y)
    decreases d[x]
  {
    if x != y {
      WithinDepth(g, d, g[x].parent, y);
      WithinDepth(g, d, y, id);
      WithinInside(g, d, h, e, id, g[x].parent, y);
    }
  }

  /** From inside a block, what lies around it is what lies around its parent. */
  lemma {:induction false} WithinThrough(g: Groups, d: map<int, nat>, id: int, x: int, y: int)
    requires Depths(g, d) && id in g && Within(g, d, x, id) && !Within(g, d, y, id)
    ensures Within(g, d, x, y) <==> Within(g, d, g[id].parent, y)
    decreases d[x]
  {
    if x != id {
      WithinThrough(g, d, id, g[x].parent, y);
    }
    assert x != y;
  }

  lemma NestedStays(s: Sheet, d: map<int, nat>, r: Sheet, e: map<int, nat>, id: int)
    requires Depths(s.groups, d) && Depths(r.groups, e) && s.groups.Keys == r.groups.Keys && s.items == r.items
    requires forall k :: k in s.groups && k != id ==> s.groups[k].parent == r.groups[k].parent
    requires forall i :: 0 <= i < |s.items| ==> Scope(s, s.items[i]) == Scope(r, s.items[i])
    requires forall i :: 0 <= i < |s.items| ==> !Within(s.groups, d, OpenAfter(s, s.items[i]), id)
    requires Nested(s, d)
    ensures Nested(r, e)
  {
    forall k | 0 <= k < |r.items| ensures FollowsAt(r, e, k) {
      assert FollowsAt(s, d, k);
      if k > 0 {
        WithinOutside(s.groups, d, r.groups, e, id, OpenAt(s, k), Scope(s, s.items[k]));
      }
    }
  }

  // ------------------------------------------------------------- cue drags

  /** Every dragged cue gets the same group. */
  function DropParent(rest: seq<SheetItem>, at: nat, req: Request): int
    requires at <= |rest|
  {
    match req.parent
    case Given(p) => p
    case Absent => if req.forceTop then 0 else if JoinsGroup(req) then req.before.gid else Gap.LastHeader(rest, at)
  }

  lemma {:induction false} LastHeaderPrefix(a: seq<SheetItem>, b: seq<SheetItem>, k: nat)
    requires k <= |a| && k <= |b| && a[..k] == b[..k]
    ensures Gap.LastHeader(a, k) == Gap.LastHeader(b, k)
  {
    if k > 0 {
      assert a[k - 1] == a[..k][k - 1] && b[k - 1] == b[..k][k - 1];
      assert a[..k - 1] == a[..k][..k - 1] && b[..k - 1] == b[..k][..k - 1];
      LastHeaderPrefix(a, b, k - 1);
    }
  }

  lemma {:induction false} LastHeaderSkipsCues(items: seq<SheetItem>, at: nat, k: nat)
    requires at <= k <= |items| && forall i :: at <= i < k ==> items[i].Cue?
    ensures Gap.LastHeader(items, k) == Gap.LastHeader(items, at)
  {
    if k > at { LastHeaderSkipsCues(items, at, k - 1); }
  }

  lemma OneParent(rest: seq<SheetItem>, at: nat, req: Request, pos: int)
    requires at <= |rest| && req.group == 0 && pos in req.cues
    requires Distinct(Splice(rest, at, CueItems(req.cues)))
    ensures NewParent(Splice(rest, at, CueItems(req.cues)), req, pos) == DropParent(rest, at, req)
  {
    var rows := CueItems(req.cues);
    var out := Splice(rest, at, rows);
    var i :| 0 <= i < |req.cues| && req.cues[i] == pos;
    assert out[at + i] == Cue(pos);
    assert LastPlace(out, Cue(pos)) == at + i;
    forall m | at <= m < at + i ensures out[m].Cue? { assert out[m] == rows[m - at]; }
    LastHeaderSkipsCues(out, at, at + i);
    assert out[..at] == rest[..at];
    LastHeaderPrefix(out, rest, at);
  }

  // ----------------------------------------------------------- group drags

  /** Of a pre-order sheet the dragged block is one run, and without it the rest
      still nests. */
  lemma BlockIsRun(s: Sheet, d: map<int, nat>, drag: set<SheetItem>, gid: int) returns (i: nat, j: nat)
    requires Depths(s.groups, d) && IsPreOrder(s, d) && gid in s.groups
    requires forall x :: x in s.items ==> (x in drag <==> Within(s.groups, d, OpenAfter(s, x), gid))
    ensures i < j <= |s.items| && s.items[i] == Header(gid)
    ensures Take(s.items, drag) == s.items[i..j]
    ensures Keep(s.items, drag) == s.items[..i] + s.items[j..]
    ensures forall k :: 0 <= k < |s.items| ==> (s.items[k] in drag <==> i <= k < j)
  {
    assert Header(gid) in s.items;
    i :| 0 <= i < |s.items| && s.items[i] == Header(gid);
    j :| Block(s, d, s.items[i].gid, i, j);
    forall k | 0 <= k < |s.items|
      ensures s.items[k] in drag <==> i <= k < j
    {
      HeaderKnown(s, k);
      OpenInside(s, d, k, gid);
      assert s.items[k] in s.items;
      assert OpenAt(s, k + 1) == OpenAfter(s, s.items[k]);
      assert s.items[k] == Header(gid) ==> k == i;
    }
    RunSplits(s.items, drag, i, j);
  }

  lemma ThreeRuns(a: seq<SheetItem>, b: seq<SheetItem>, c: seq<SheetItem>, drag: set<SheetItem>)
    requires forall k :: 0 <= k < |a| ==> a[k] !in drag
    requires forall k :: 0 <= k < |b| ==> b[k] in drag
    requires forall k :: 0 <= k < |c| ==> c[k] !in drag
    ensures Keep(a + b + c, drag) == a + c && Take(a + b + c, drag) == b
  {
    KeepAll(a, drag);
    TakeAll(b, drag);
    KeepAll(c, drag);
    KeepAppend(a, b, drag);
    TakeAppend(a, b, drag);
    assert a + [] == a && [] + b == b && b + [] == b;
    TwoParts(a + b, c, a, b, c, [], drag);
  }

  lemma TwoParts(x: seq<SheetItem>, y: seq<SheetItem>, kx: seq<SheetItem>, tx: seq<SheetItem>, ky: seq<SheetItem>, ty: seq<SheetItem>,
                 drag: set<SheetItem>)
    requires Keep(x, drag) == kx && Take(x, drag) == tx && Keep(y, drag) == ky && Take(y, drag) == ty
    ensures Keep(x + y, drag) == kx + ky && Take(x + y, drag) == tx + ty
  {
    KeepAppend(x, y, drag);
    TakeAppend(x, y, drag);
  }

  lemma RunSplits(items: seq<SheetItem>, drag: set<SheetItem>, i: nat, j: nat)
    requires i <= j <= |items|
    requires forall k :: 0 <= k < |items| ==> (items[k] in drag <==> i <= k < j)
    ensures Take(items, drag) == items[i..j]
    ensures Keep(items, drag) == items[..i] + items[j..]
  {
    var a, b, c := items[..i], items[i..j], items[j..];
    forall k | 0 <= k < |a| ensures a[k] !in drag { assert a[k] == items[k]; }
    forall k | 0 <= k < |b| ensures b[k] in drag { assert b[k] == items[i + k]; }
    forall k | 0 <= k < |c| ensures c[k] !in drag { assert c[k] == items[j + k]; }
    ThreeRuns(a, b, c, drag);
    assert items == a + b + c;
  }

  lemma WithoutRunNested(s: Sheet, d: map<int, nat>, gid: int, i: nat, j: nat)
    requires Depths(s.groups, d) && Nested(s, d) && gid in s.groups
    requires i < j <= |s.items| && s.items[i] == Header(gid)
    requires forall k :: i <= k < j ==> Within(s.groups, d, OpenAfter(s, s.items[k]), gid)
    requires forall k :: j <= k < |s.items| ==> !Within(s.groups, d, OpenAfter(s, s.items[k]), gid)
    ensures Nested(s.(items := s.items[..i] + s.items[j..]), d)
  {
    var r := s.(items := s.items[..i] + s.items[j..]);
    forall k | 0 <= k < |r.items| ensures FollowsAt(r, d, k) {
      if k < i {
        assert FollowsAt(s, d, k);
      } else if k > i {
        assert FollowsAt(s, d, k + j - i);
        assert r.items[k - 1] == s.items[k + j - i - 1];
      } else {
        assert FollowsAt(s, d, j) && FollowsAt(s, d, i);
        ReopensAround(s, d, gid, i, j);
      }
    }
  }

  /** The row after a block followed a group around the block. */
  lemma ReopensAround(s: Sheet, d: map<int, nat>, gid: int, i: nat, j: nat)
    requires Depths(s.groups, d) && gid in s.groups
    requires i < j < |s.items| && s.items[i] == Header(gid)
    requires FollowsAt(s, d, i) && FollowsAt(s, d, j)
    requires Within(s.groups, d, OpenAt(s, j), gid)
    requires !Within(s.groups, d, OpenAfter(s, s.items[j]), gid)
    ensures Follows(s, d, s.items[j], OpenAt(s, i))
  {
    var y := Scope(s, s.items[j]);
    if y != 0 {
      ScopeOutside(s, d, s.items[j], gid);
      WithinThrough(s.groups, d, gid, OpenAt(s, j), y);
      WithinTransitive(s.groups, d, OpenAt(s, i), s.groups[gid].parent, y);
    }
  }

  /** A row whose own group is outside a block has its scope outside it. */
  lemma ScopeOutside(s: Sheet, d: map<int, nat>, item: SheetItem, gid: int)
    requires Depths(s.groups, d) && !Within(s.groups, d, OpenAfter(s, item), gid)
    ensures !Within(s.groups, d, Scope(s, item), gid)
  {
  }

  // ---------------------------------------------------------- the theorem

  /** The group the dragged rows hang from after the drag. */
  ghost function TopParent(t: Tables, d: map<int, nat>, items: seq<SheetItem>, req: Request): int
    requires Succeeds(t, d, items, req)
  {
    var rest := Keep(items, DragSet(t, d, items, req));
    GapInBounds(t, d, items, req);
    if req.group != 0 then GroupsAfter(t.groups, req)[req.group].parent
    else DropParent(rest, GapFor(items, DragSet(t, d, items, req), ParentsOf(t), req), req)
  }

  /** The undragged rows, with the tables as the drag leaves them. */
  ghost function RestSheet(t: Tables, d: map<int, nat>, items: seq<SheetItem>, req: Request): Sheet
    requires Succeeds(t, d, items, req)
  {
    SheetOf(After(t, d, items, req), Keep(items, DragSet(t, d, items, req)))
  }

  lemma ScopesStay(t: Tables, d: map<int, nat>, items: seq<SheetItem>, req: Request, i: nat)
    requires Succeeds(t, d, items, req) && i < |items|
    requires items[i] !in DragSet(t, d, items, req) || (req.group != 0 && items[i] != Header(req.group))
    ensures Scope(SheetOf(After(t, d, items, req), items), items[i]) == Scope(SheetOf(t, items), items[i])
    ensures OpenAfter(SheetOf(After(t, d, items, req), items), items[i]) == OpenAfter(SheetOf(t, items), items[i])
  {
    DropResult(t, d, items, req);
    GroupsWritten(t, d, items, req);
    assert HasRow(t, items[i]);
    if req.group in t.groups { assert Within(t.groups, d, req.group, req.group); }
    match items[i]
    case Cue(pos) =>
      if req.group == 0 { assert Cue(pos) !in DragSet(t, d, items, req); }
      DropRepeat.NotDraggedParent(t, d, items, req, pos);
    case Header(_) =>
  }

  lemma RestOutside(t: Tables, d: map<int, nat>, items: seq<SheetItem>, req: Request, x: SheetItem)
    requires Proper(t, d, items, req) && x in items
    ensures req.group != 0 ==> (x in DragSet(t, d, items, req)
       <==> Within(t.groups, d, OpenAfter(SheetOf(t, items), x), req.group))
  {
    assert HasRow(t, x);
  }
}
