/** The tables after a drag: what a reader of them finds, and why the group table is
    still a forest (ctp/sheet.go, SheetDrop). */
module DropAfter {
  import opened Util
  import opened Forest
  import opened GroupTable
  import opened PreOrder
  import opened SheetStore
  import opened DropSpec
  import opened DropFacts

  // --------------------------------------------------- the group table after

  ghost function GroupsAfter(g: Groups, req: Request): Groups {
    AfterJoin(AfterParent(g, req), req)
  }

  /** Only the dragged group's parent can change; headers only ever open. */
  lemma GroupsAfterFacts(g: Groups, req: Request)
    ensures GroupsAfter(g, req).Keys == g.Keys
    ensures forall k :: k in g && k != req.group ==> GroupsAfter(g, req)[k].parent == g[k].parent
    ensures req.group == 0 && 0 !in g ==> forall k :: k in g ==> GroupsAfter(g, req)[k].parent == g[k].parent
    ensures forall k :: k in g && GroupsAfter(g, req)[k].collapse ==> g[k].collapse
  {
  }

  /** An accepted drag keeps the table a forest. */
  lemma GroupsStayForest(g: Groups, d: map<int, nat>, req: Request) returns (e: map<int, nat>)
    requires Depths(g, d) && (req.group != 0 ==> req.group in g)
    requires ParentAccepted(g, req) && JoinAccepted(g, req)
    ensures Depths(GroupsAfter(g, req), e)
  {
    var h := AfterParent(g, req);
    e := d;
    if req.group != 0 && req.parent.Given? {
      var p := req.parent.id;
      if p != 0 { ValidatedIff(g, d, req.group, p); }
      MoveKeepsForest(g, d, req.group, p);
      e := MovedDepths(g, d, req.group, p);
      CollapseFree(Reparented(g, req.group, p), h, e);
    } else {
      CollapseFree(g, h, d);
    }
    var k := GroupsAfter(g, req);
    if req.group != 0 && JoinsGroup(req) {
      var b := req.before.gid;
      var x := Expanded(h, b);
      CollapseFree(h, x, e);
      if b != 0 { ValidatedIff(h, e, req.group, b); SameWithin(h, x, e, b, req.group); }
      MoveKeepsForest(x, e, req.group, b);
      e := MovedDepths(x, e, req.group, b);
    } else {
      CollapseFree(h, k, e);
    }
  }

  lemma CollapseFree(g: Groups, h: Groups, d: map<int, nat>)
    requires Depths(g, d) && g.Keys == h.Keys && forall k :: k in g ==> g[k].parent == h[k].parent
    ensures Depths(h, d)
  {
  }

  lemma {:induction false} SameWithin(g: Groups, h: Groups, d: map<int, nat>, x: int, top: int)
    requires Depths(g, d) && Depths(h, d) && g.Keys == h.Keys && forall k :: k in g ==> g[k].parent == h[k].parent
    ensures Within(g, d, x, top) <==> Within(h, d, x, top)
    decreases if x in g then d[x] else 0
  {
    if x in g && x != top && g[x].parent != 0 {
      SameWithin(g, h, d, g[x].parent, top);
    }
  }

  /** Moving a group leaves its block the same groups. */
  lemma {:induction false} BlockSame(g: Groups, d: map<int, nat>, h: Groups, e: map<int, nat>, x: int, id: int)
    requires Depths(g, d) && Depths(h, e) && g.Keys == h.Keys && id in g
    requires forall k :: k in g && k != id ==> g[k].parent == h[k].parent
    requires Within(g, d, x, id)
    ensures Within(h, e, x, id)
    decreases d[x]
  {
    if x != id {
      BlockSame(g, d, h, e, g[x].parent, id);
    }
  }

  // ------------------------------------------------------------ after a drag

  ghost predicate Succeeds(t: Tables, d: map<int, nat>, items: seq<SheetItem>, req: Request) {
    && Proper(t, d, items, req)
    && |Dragged(t, d, items, req)| > 0
    && ParentAccepted(t.groups, req) && JoinAccepted(t.groups, req)
  }

  ghost function After(t: Tables, d: map<int, nat>, items: seq<SheetItem>, req: Request): Tables
    requires Succeeds(t, d, items, req)
  {
    Drop(t, d, items, req).tables
  }

  lemma AfterIs(t: Tables, d: map<int, nat>, items: seq<SheetItem>, req: Request)
    requires Succeeds(t, d, items, req)
    ensures After(t, d, items, req) == Written(t.(groups := GroupsAfter(t.groups, req)),
        Out(t, d, items, req), NewParents(ParentsOf(t), Out(t, d, items, req), req))
    ensures Drop(t, d, items, req).outcome == Dropped
  {
  }

  lemma RowsCovered(t: Tables, d: map<int, nat>, items: seq<SheetItem>, req: Request)
    requires Succeeds(t, d, items, req)
    ensures Distinct(Out(t, d, items, req)) && AllRows(t.(groups := GroupsAfter(t.groups, req)), Out(t, d, items, req))
  {
    var m := t.(groups := GroupsAfter(t.groups, req));
    DropOrder(t, d, items, req);
    GroupsAfterFacts(t.groups, req);
    forall x ensures x in Out(t, d, items, req) <==> HasRow(m, x) {
      assert x in items <==> HasRow(t, x);
      assert HasRow(m, x) <==> HasRow(t, x);
    }
  }

  lemma ParentKeys(t: Tables, d: map<int, nat>, items: seq<SheetItem>, req: Request)
    requires Proper(t, d, items, req)
    ensures NewParents(ParentsOf(t), Out(t, d, items, req), req).Keys == t.cues.Keys
  {
  }

  lemma CuesCovered(t: Tables, d: map<int, nat>, items: seq<SheetItem>, req: Request)
    requires Succeeds(t, d, items, req)
    ensures var out := Out(t, d, items, req); var m := t.(groups := GroupsAfter(t.groups, req));
      && Distinct(out) && AllRows(m, out)
      && NewParents(ParentsOf(t), out, req).Keys == t.cues.Keys
      && CoversCues(out, NewParents(ParentsOf(t), out, req))
  {
    RowsCovered(t, d, items, req);
    ParentKeys(t, d, items, req);
    EveryCueCovered(t.(groups := GroupsAfter(t.groups, req)), Out(t, d, items, req),
                    NewParents(ParentsOf(t), Out(t, d, items, req), req));
  }

  lemma EveryCueCovered(m: Tables, out: seq<SheetItem>, parents: map<int, int>)
    requires AllRows(m, out) && parents.Keys == m.cues.Keys
    ensures CoversCues(out, parents)
  {
    forall i | 0 <= i < |out| && out[i].Cue? ensures out[i].pos in parents {
      assert HasRow(m, out[i]);
    }
  }

  lemma ParentsAfter(t: Tables, d: map<int, nat>, items: seq<SheetItem>, req: Request)
    requires Succeeds(t, d, items, req)
    ensures Loaded(After(t, d, items, req), Out(t, d, items, req))
    ensures After(t, d, items, req).cues.Keys == t.cues.Keys
    ensures ParentsOf(After(t, d, items, req)) == NewParents(ParentsOf(t), Out(t, d, items, req), req)
  {
    var out := Out(t, d, items, req);
    var m := t.(groups := GroupsAfter(t.groups, req));
    var parents := NewParents(ParentsOf(t), out, req);
    CuesCovered(t, d, items, req);
    AfterIs(t, d, items, req);
    RoundTrip(m, out, parents);
    WrittenParents(m, out, parents);
  }

  /** The group each cue is stored with after the drag. */
  function ParentAfter(t: Tables, out: seq<SheetItem>, req: Request, pos: int): int
    requires pos in t.cues
  {
    if req.group == 0 && pos in req.cues then NewParent(out, req, pos) else t.cues[pos].parent
  }

  /** Reading the sheet after the drag gives the spliced order; a dragged cue has
      its new group; every other cue, and every cue when a block was dragged, keeps
      the group it had. */
  lemma DropResult(t: Tables, d: map<int, nat>, items: seq<SheetItem>, req: Request)
    requires Succeeds(t, d, items, req)
    ensures var r := After(t, d, items, req); var out := Out(t, d, items, req);
      && Loaded(r, out)
      && r.cues.Keys == t.cues.Keys
      && forall pos :: pos in t.cues ==> r.cues[pos].parent == ParentAfter(t, out, req, pos)
  {
    ParentsAfter(t, d, items, req);
    var r, out := After(t, d, items, req), Out(t, d, items, req);
    forall pos | pos in t.cues
      ensures r.cues[pos].parent == ParentAfter(t, out, req, pos)
    {
      assert r.cues[pos].parent == ParentsOf(r)[pos];
    }
  }

  /** What Written does to each group row beyond its index: nothing. */
  lemma GroupsWritten(t: Tables, d: map<int, nat>, items: seq<SheetItem>, req: Request)
    requires Succeeds(t, d, items, req)
    ensures var r := After(t, d, items, req); var h := GroupsAfter(t.groups, req);
      && r.groups.Keys == t.groups.Keys
      && (forall k :: k in h ==> r.groups[k].parent == h[k].parent && r.groups[k].collapse == h[k].collapse)
      && (forall k :: k in t.groups && k != req.group ==> r.groups[k].parent == t.groups[k].parent)
  {
    AfterIs(t, d, items, req);
    GroupsAfterFacts(t.groups, req);
    WrittenKeeps(t.(groups := GroupsAfter(t.groups, req)), Out(t, d, items, req),
                 NewParents(ParentsOf(t), Out(t, d, items, req), req));
  }

  /** The group table after a successful drag is again a forest. */
  lemma DropKeepsForest(t: Tables, d: map<int, nat>, items: seq<SheetItem>, req: Request) returns (e: map<int, nat>)
    requires Succeeds(t, d, items, req)
    ensures Depths(After(t, d, items, req).groups, e)
  {
    e := GroupsStayForest(t.groups, d, req);
    GroupsWritten(t, d, items, req);
    GroupsAfterFacts(t.groups, req);
    CollapseFree(GroupsAfter(t.groups, req), After(t, d, items, req).groups, e);
  }
}
