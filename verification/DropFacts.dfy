/** What every drag keeps (ctp/sheet.go, SheetDrop). */
module DropFacts {
  import opened Util
  import opened Forest
  import opened GroupTable
  import opened PreOrder
  import opened SheetStore
  import opened DropSpec

  // ------------------------------------------------------ filters and splices

  lemma {:induction false} KeepAppend(a: seq<SheetItem>, b: seq<SheetItem>, drag: set<SheetItem>)
    ensures Keep(a + b, drag) == Keep(a, drag) + Keep(b, drag)
  {
    if |b| == 0 {
      assert a + b == a;
    } else {
      KeepAppend(a, b[..|b| - 1], drag);
      assert (a + b)[..|a + b| - 1] == a + b[..|b| - 1];
    }
  }

  lemma {:induction false} TakeAppend(a: seq<SheetItem>, b: seq<SheetItem>, drag: set<SheetItem>)
    ensures Take(a + b, drag) == Take(a, drag) + Take(b, drag)
  {
    if |b| == 0 {
      assert a + b == a;
    } else {
      TakeAppend(a, b[..|b| - 1], drag);
      assert (a + b)[..|a + b| - 1] == a + b[..|b| - 1];
    }
  }

  lemma {:induction false} KeepHas(items: seq<SheetItem>, drag: set<SheetItem>, x: SheetItem)
    ensures x in Keep(items, drag) <==> x in items && x !in drag
    ensures x in Take(items, drag) <==> x in items && x in drag
  {
    if |items| > 0 {
      KeepHas(items[..|items| - 1], drag, x);
      assert items == items[..|items| - 1] + [items[|items| - 1]];
    }
  }

  /** A sequence of rows that all stay, and one of rows that all move. */
  lemma {:induction false} KeepAll(items: seq<SheetItem>, drag: set<SheetItem>)
    requires forall i :: 0 <= i < |items| ==> items[i] !in drag
    ensures Keep(items, drag) == items && Take(items, drag) == []
  {
    if |items| > 0 { KeepAll(items[..|items| - 1], drag); }
  }

  lemma {:induction false} TakeAll(items: seq<SheetItem>, drag: set<SheetItem>)
    requires forall i :: 0 <= i < |items| ==> items[i] in drag
    ensures Keep(items, drag) == [] && Take(items, drag) == items
  {
    if |items| > 0 { TakeAll(items[..|items| - 1], drag); }
  }

  lemma {:induction false} KeepDistinct(items: seq<SheetItem>, drag: set<SheetItem>)
    requires Distinct(items)
    ensures Distinct(Keep(items, drag)) && Distinct(Take(items, drag))
  {
    if |items| > 0 {
      var init := items[..|items| - 1];
      KeepDistinct(init, drag);
      KeepHas(init, drag, items[|items| - 1]);
    }
  }

  lemma KeepIsUndragged(items: seq<SheetItem>, drag: set<SheetItem>)
    ensures forall i :: 0 <= i < |Keep(items, drag)| ==> Keep(items, drag)[i] !in drag
    ensures forall i :: 0 <= i < |Take(items, drag)| ==> Take(items, drag)[i] in drag
  {
    forall i | 0 <= i < |Keep(items, drag)| ensures Keep(items, drag)[i] !in drag {
      KeepHas(items, drag, Keep(items, drag)[i]);
    }
    forall i | 0 <= i < |Take(items, drag)| ensures Take(items, drag)[i] in drag {
      KeepHas(items, drag, Take(items, drag)[i]);
    }
  }

  /** Splicing dragged rows back in leaves both halves readable from the result. */
  lemma SpliceSplits(rest: seq<SheetItem>, at: nat, dragged: seq<SheetItem>, drag: set<SheetItem>)
    requires at <= |rest|
    requires forall i :: 0 <= i < |rest| ==> rest[i] !in drag
    requires forall i :: 0 <= i < |dragged| ==> dragged[i] in drag
    ensures Keep(Splice(rest, at, dragged), drag) == rest
    ensures Take(Splice(rest, at, dragged), drag) == dragged
  {
    var a, b := rest[..at], rest[at..];
    KeepAll(a, drag);
    KeepAll(b, drag);
    TakeAll(dragged, drag);
    KeepAppend(a + dragged, b, drag);
    KeepAppend(a, dragged, drag);
    TakeAppend(a + dragged, b, drag);
    TakeAppend(a, dragged, drag);
    assert a + b == rest;
  }

  lemma RestIdxWithin(items: seq<SheetItem>, drag: set<SheetItem>, n: nat)
    requires n <= |items|
    ensures RestIdx(items, drag, n) <= |Keep(items, drag)|
    ensures n < |items| && items[n] !in drag ==>
        RestIdx(items, drag, n) < |Keep(items, drag)| && Keep(items, drag)[RestIdx(items, drag, n)] == items[n]
  {
    assert items == items[..n] + items[n..];
    KeepAppend(items[..n], items[n..], drag);
    if n < |items| && items[n] !in drag {
      assert items[n..] == [items[n]] + items[n + 1..];
      KeepAppend([items[n]], items[n + 1..], drag);
      KeepAll([items[n]], drag);
    }
  }

  // --------------------------------------------------------- a proper request

  /** A drag of existing, distinct cues, or of an existing group. */
  ghost predicate Proper(t: Tables, d: map<int, nat>, items: seq<SheetItem>, req: Request) {
    && Depths(t.groups, d)
    && Loaded(t, items)
    && (if req.group == 0 then Distinct(req.cues) && forall p :: p in req.cues ==> p in t.cues
        else req.group in t.groups)
  }

  /** A request that reads a sheet; its cues need not exist. */
  ghost predicate Readable(t: Tables, d: map<int, nat>, items: seq<SheetItem>, req: Request) {
    Climbable(t.groups, d, req) && Loaded(t, items) && (req.group != 0 ==> req.group in t.groups)
  }

  lemma DraggedRows(t: Tables, d: map<int, nat>, items: seq<SheetItem>, req: Request)
    requires Proper(t, d, items, req)
    ensures var drag := DragSet(t, d, items, req); var dragged := Dragged(t, d, items, req);
      && Distinct(dragged)
      && (forall x :: x in dragged <==> x in drag)
      && (forall x :: x in drag ==> x in items)
      && (forall x :: x in items ==> (x in drag <==> IsDragged(t, d, req, x)))
  {
    var drag := DragSet(t, d, items, req);
    LoadedDistinct(t, items);
    if req.group == 0 {
      forall x ensures x in CueItems(req.cues) <==> x in drag {
        if x in drag {
          var i :| 0 <= i < |req.cues| && Cue(req.cues[i]) == x;
          assert CueItems(req.cues)[i] == x;
        }
      }
      forall x | x in drag ensures x in items { assert HasRow(t, x); }
    } else {
      KeepDistinct(items, drag);
      forall x ensures x in Take(items, drag) <==> x in drag { KeepHas(items, drag, x); }
    }
  }

  /** AfterParent changes no parent but the dragged group's own. */
  lemma AfterParentOthers(g: Groups, req: Request)
    ensures AfterParent(g, req).Keys == g.Keys
    ensures forall k :: k in g && k != req.group ==> AfterParent(g, req)[k].parent == g[k].parent
  {
  }

  /** When the nesting is accepted the target header is not in the dragged block. */
  lemma TargetStays(t: Tables, d: map<int, nat>, items: seq<SheetItem>, req: Request)
    requires Readable(t, d, items, req) && JoinsGroup(req) && JoinAccepted(t.groups, req) && req.before.gid in t.groups
    ensures Header(req.before.gid) !in DragSet(t, d, items, req)
  {
    if req.group != 0 {
      var h := AfterParent(t.groups, req);
      AfterParentOthers(t.groups, req);
      if req.before.gid != req.group {
        CheckSkips(t.groups, h, req.group, {req.group}, req.before.gid, 0);
      }
      ValidatedIff(t.groups, d, req.group, req.before.gid);
    }
  }

  /** The insertion index is within bounds in every branch that reaches the splice. */
  lemma GapInBounds(t: Tables, d: map<int, nat>, items: seq<SheetItem>, req: Request)
    requires Readable(t, d, items, req) && JoinAccepted(t.groups, req)
    ensures var drag := DragSet(t, d, items, req);
      GapFor(items, drag, ParentsOf(t), req) <= |Keep(items, drag)|
  {
    var drag := DragSet(t, d, items, req);
    forall n | 0 <= n <= |items| ensures RestIdx(items, drag, n) <= |Keep(items, drag)| { RestIdxWithin(items, drag, n); }
    if JoinsGroup(req) && req.joinFirst {
      var i := Find(items, Header(req.before.gid));
      if i >= 0 {
        assert HasRow(t, items[i]);
        TargetStays(t, d, items, req);
        RestIdxWithin(items, drag, i);
      }
    }
  }

  /** The rows written: every row once, the rows that stay in their old order, the
      dragged rows together at the gap. */
  lemma DropOrder(t: Tables, d: map<int, nat>, items: seq<SheetItem>, req: Request)
    requires Proper(t, d, items, req) && JoinAccepted(t.groups, req)
    ensures var drag := DragSet(t, d, items, req); var out := Out(t, d, items, req);
      var at := GapFor(items, drag, ParentsOf(t), req); var dragged := Dragged(t, d, items, req);
      && Distinct(out) && (forall x :: x in out <==> x in items)
      && Keep(out, drag) == Keep(items, drag)
      && Take(out, drag) == dragged
      && at + |dragged| <= |out| && out[at..at + |dragged|] == dragged
  {
    var drag := DragSet(t, d, items, req);
    var dragged := Dragged(t, d, items, req);
    var rest := Keep(items, drag);
    var at := GapFor(items, drag, ParentsOf(t), req);
    GapInBounds(t, d, items, req);
    DraggedRows(t, d, items, req);
    LoadedDistinct(t, items);
    KeepDistinct(items, drag);
    KeepIsUndragged(items, drag);
    forall i | 0 <= i < |dragged| ensures dragged[i] in drag { assert dragged[i] in dragged; }
    SpliceSplits(rest, at, dragged, drag);
    SpliceDistinct(rest, at, dragged, drag);
    forall x ensures x in Splice(rest, at, dragged) <==> x in items {
      KeepHas(items, drag, x);
      SpliceHas(rest, at, dragged, x);
    }
  }

  lemma SpliceHas(rest: seq<SheetItem>, at: nat, dragged: seq<SheetItem>, x: SheetItem)
    requires at <= |rest|
    ensures x in Splice(rest, at, dragged) <==> x in rest || x in dragged
  {
    assert rest == rest[..at] + rest[at..];
  }

  lemma SpliceDistinct(rest: seq<SheetItem>, at: nat, dragged: seq<SheetItem>, drag: set<SheetItem>)
    requires at <= |rest| && Distinct(rest) && Distinct(dragged)
    requires forall i :: 0 <= i < |rest| ==> rest[i] !in drag
    requires forall i :: 0 <= i < |dragged| ==> dragged[i] in drag
    ensures Distinct(Splice(rest, at, dragged))
  {
    var a, b := rest[..at], rest[at..];
    forall x | x in a ensures x !in dragged {
      var i :| 0 <= i < |a| && a[i] == x;
      assert rest[i] == x;
    }
    DistinctAppend(a, dragged);
    forall j | 0 <= j < |b|
      ensures b[j] !in a && b[j] !in dragged
    {
      assert b[j] == rest[at + j];
      forall i | 0 <= i < |a| ensures a[i] != b[j] { assert a[i] == rest[i]; }
    }
    DistinctAppend(a + dragged, b);
  }
}
