/** SheetDrop (ctp/sheet.go) as it runs: the loops over the sequence and the
    updates of the two tables, against the function of DropSpec. */
module SheetDrop {
  import opened Util
  import opened Forest
  import opened GroupTable
  import opened PreOrder
  import opened SheetStore
  import opened SheetDb
  import opened DropSpec
  import opened DropFacts

  // ------------------------------------------------------ the dragged rows

  /** One climb of the block test: from a parent up to gid or to the top. */
  method ReachesBlock(g: Groups, start: int, gid: int, ghost d: map<int, nat>) returns (reached: bool)
    requires Depths(g, d) && (start == 0 || start in g)
    ensures reached <==> Within(g, d, start, gid)
  {
    var at := start;
    while at != 0
      invariant at == 0 || at in g
      invariant Within(g, d, start, gid) <==> Within(g, d, at, gid)
      decreases if at in g then d[at] + 1 else 0
    {
      if at == gid { return true; }
      assert d[at] >= 0;
      at := g[at].parent;
    }
    return false;
  }

  method BlockOf(g: Groups, gid: int, ghost d: map<int, nat>) returns (block: set<int>)
    requires Depths(g, d) && gid in g
    ensures forall x :: x in block <==> Within(g, d, x, gid)
  {
    block := {gid};
    var todo := g.Keys;
    while todo != {}
      invariant todo <= g.Keys && gid in block
      invariant forall x :: x in block ==> Within(g, d, x, gid)
      invariant forall x :: x in g && x !in todo && Within(g, d, x, gid) ==> x in block
      decreases |todo|
    {
      ghost var w := PickFrom(todo);
      var id: int :| id in todo;
      assert d[id] >= 0;
      var reached := ReachesBlock(g, g[id].parent, gid, d);
      if reached { block := block + {id}; }
      todo := todo - {id};
    }
  }

  predicate InBlockSet(parents: map<int, int>, block: set<int>, item: SheetItem) {
    match item
    case Header(gid) => gid in block
    case Cue(pos) => (if pos in parents then parents[pos] else 0) in block
  }

  function BlockRowsOf(items: seq<SheetItem>, parents: map<int, int>, block: set<int>): set<SheetItem> {
    set item | item in items && InBlockSet(parents, block, item)
  }

  method CollectBlock(items: seq<SheetItem>, parents: map<int, int>, block: set<int>)
    returns (dragged: seq<SheetItem>, drag: set<SheetItem>)
    ensures drag == BlockRowsOf(items, parents, block)
    ensures dragged == Take(items, drag)
  {
    dragged, drag := [], {};
    ghost var all := BlockRowsOf(items, parents, block);
    for i := 0 to |items|
      invariant drag == BlockRowsOf(items[..i], parents, block)
      invariant dragged == Take(items[..i], all)
    {
      assert items[..i + 1] == items[..i] + [items[i]];
      assert items[..i + 1][..i] == items[..i];
      if InBlockSet(parents, block, items[i]) {
        dragged := dragged + [items[i]];
        drag := drag + {items[i]};
      }
    }
    assert items[..|items|] == items;
  }

  method CollectCues(cues: seq<int>) returns (dragged: seq<SheetItem>, drag: set<SheetItem>)
    ensures dragged == CueItems(cues)
    ensures drag == set pos | pos in cues :: Cue(pos)
  {
    dragged, drag := [], {};
    for i := 0 to |cues|
      invariant dragged == CueItems(cues[..i])
      invariant drag == set pos | pos in cues[..i] :: Cue(pos)
    {
      assert cues[..i + 1] == cues[..i] + [cues[i]];
      dragged := dragged + [Cue(cues[i])];
      drag := drag + {Cue(cues[i])};
    }
    assert cues[..|cues|] == cues;
  }

  // ------------------------------------------------------------- the gap

  method KeepRows(items: seq<SheetItem>, drag: set<SheetItem>) returns (rest: seq<SheetItem>)
    ensures rest == Keep(items, drag)
  {
    rest := [];
    for i := 0 to |items|
      invariant rest == Keep(items[..i], drag)
    {
      assert items[..i + 1][..i] == items[..i];
      if items[i] !in drag { rest := rest + [items[i]]; }
    }
    assert items[..|items|] == items;
  }

  method RestIndex(items: seq<SheetItem>, drag: set<SheetItem>, n: nat) returns (k: nat)
    requires n <= |items|
    ensures k == RestIdx(items, drag, n)
  {
    k := 0;
    for i := 0 to n
      invariant k == RestIdx(items, drag, i)
    {
      assert items[..i + 1][..i] == items[..i];
      if items[i] !in drag { k := k + 1; }
    }
  }

  method SeqIndexOf(items: seq<SheetItem>, item: SheetItem) returns (i: int)
    ensures i == Find(items, item)
  {
    for k := 0 to |items|
      invariant item !in items[..k]
    {
      if items[k] == item { return k; }
      assert items[..k + 1] == items[..k] + [items[k]];
    }
    return -1;
  }

  method LastMemberOf(rest: seq<SheetItem>, parents: map<int, int>, gid: int) returns (last: int)
    ensures last == LastMember(rest, parents, gid)
  {
    last := -1;
    for i := 0 to |rest|
      invariant last == LastMember(rest[..i], parents, gid)
    {
      assert rest[..i + 1][..i] == rest[..i];
      if rest[i].Cue? && rest[i].pos in parents && parents[rest[i].pos] == gid { last := i; }
    }
    assert rest[..|rest|] == rest;
  }

  method GapBefore(items: seq<SheetItem>, drag: set<SheetItem>, rest: seq<SheetItem>, req: Request) returns (at: nat)
    requires rest == Keep(items, drag)
    ensures at == BaseGap(items, drag, req)
  {
    at := |rest|;
    if req.before.BeforeCue? {
      var i := SeqIndexOf(items, Cue(req.before.pos));
      if i >= 0 { at := RestIndex(items, drag, i); }
    } else if req.before.BeforeGroup? {
      var i := SeqIndexOf(items, Header(req.before.gid));
      if i >= 0 { at := RestIndex(items, drag, i); }
    }
  }

  method GapInHeader(items: seq<SheetItem>, drag: set<SheetItem>, rest: seq<SheetItem>, parents: map<int, int>, req: Request, base: nat)
    returns (at: nat)
    requires rest == Keep(items, drag) && JoinsGroup(req) && base == BaseGap(items, drag, req)
    ensures at == JoinGap(items, drag, parents, req)
  {
    at := base;
    if req.joinFirst {
      var i := SeqIndexOf(items, Header(req.before.gid));
      if i >= 0 {
        var k := RestIndex(items, drag, i);
        at := k + 1;
      }
    } else {
      var last := LastMemberOf(rest, parents, req.before.gid);
      if last >= 0 {
        at := last + 1;
      } else {
        var i := SeqIndexOf(rest, Header(req.before.gid));
        if i >= 0 { at := i + 1; }
      }
    }
  }

  method GapAfter(items: seq<SheetItem>, drag: set<SheetItem>, i: nat) returns (at: nat)
    requires i < |items|
    ensures at == AfterGap(items, drag, i)
  {
    var j := i;
    if items[i] in drag {
      while j < |items| && items[j].Cue? && items[j] in drag
        invariant i <= j <= |items|
        invariant RunEnd(items, drag, i) == RunEnd(items, drag, j)
      {
        j := j + 1;
      }
    } else {
      j := i + 1;
    }
    at := RestIndex(items, drag, j);
  }

  // -------------------------------------------------------- the group edits

  /** The explicit band parent: validate, nest, open. */
  method ApplyParent(db: Database, req: Request) returns (v: Verdict)
    modifies db
    ensures db.cues == old(db.cues)
    ensures ParentAccepted(old(db.groups), req) ==> v == Accepted && db.groups == AfterParent(old(db.groups), req)
    ensures !ParentAccepted(old(db.groups), req) ==>
        v == Validated(old(db.groups), req.group, req.parent.id) && db.groups == old(db.groups)
  {
    v := Accepted;
    if req.parent.Given? && req.parent.id != 0 {
      if req.group != 0 {
        v := ValidateGroupParent(req.group, req.parent.id, db.groups);
        if v != Accepted { return; }
        if req.group in db.groups { db.groups := Reparented(db.groups, req.group, req.parent.id); }
      }
      db.groups := Expanded(db.groups, req.parent.id);
    }
    if req.parent == Given(0) && req.group != 0 && req.group in db.groups {
      db.groups := Reparented(db.groups, req.group, 0);
    }
  }

  /** A drop on a header: open it, then validate and nest a dragged block. */
  method ApplyJoin(db: Database, req: Request) returns (v: Verdict)
    modifies db
    ensures db.cues == old(db.cues)
    ensures var g := old(db.groups);
      if JoinsGroup(req) && req.group != 0 && Validated(g, req.group, req.before.gid) != Accepted
      then v == Validated(g, req.group, req.before.gid) && db.groups == Expanded(g, req.before.gid)
      else v == Accepted && db.groups == AfterJoin(g, req)
  {
    v := Accepted;
    if JoinsGroup(req) {
      ghost var g := db.groups;
      db.groups := Expanded(db.groups, req.before.gid);
      if req.group != 0 {
        v := ValidateGroupParent(req.group, req.before.gid, db.groups);
        OpeningKeepsVerdict(g, req.before.gid, req.group, req.before.gid);
        if v == Accepted && req.group in db.groups {
          db.groups := Reparented(db.groups, req.group, req.before.gid);
        }
      }
    }
  }

  lemma OpeningKeepsVerdict(g: Groups, gid: int, id: int, parent: int)
    ensures Validated(Expanded(g, gid), id, parent) == Validated(g, id, parent)
  {
    if parent != 0 && parent != id { CheckSkips(g, Expanded(g, gid), id, {id}, parent, 0); }
  }

  // --------------------------------------------------------- memberships

  method NewMemberships(out: seq<SheetItem>, req: Request, stored: map<int, int>, g: Groups, ghost d: map<int, nat>)
    returns (parents: map<int, int>)
    ensures parents == NewParents(stored, out, req)
  {
    parents := stored;
    if req.group != 0 { return; }
    for i := 0 to |req.cues|
      invariant parents == Taking(stored, out, req, req.cues[..i])
    {
      var p := MembershipOf(out, req, req.cues[i], g, d);
      TakeOneMore(stored, out, req, req.cues[..i], req.cues[i]);
      assert req.cues[..i + 1] == req.cues[..i] + [req.cues[i]];
      parents := parents[req.cues[i] := p];
    }
    assert req.cues[..|req.cues|] == req.cues;
  }

  /** The memberships once the first cues have been given theirs. */
  function Taking(stored: map<int, int>, out: seq<SheetItem>, req: Request, done: seq<int>): map<int, int> {
    stored + map pos | pos in done :: NewParent(out, req, pos)
  }

  lemma TakeOneMore(stored: map<int, int>, out: seq<SheetItem>, req: Request, done: seq<int>, pos: int)
    ensures Taking(stored, out, req, done + [pos]) == Taking(stored, out, req, done)[pos := NewParent(out, req, pos)]
  {
    assert forall x :: x in done + [pos] <==> x in done || x == pos;
  }

  method MembershipOf(out: seq<SheetItem>, req: Request, pos: int, g: Groups, ghost d: map<int, nat>) returns (p: int)
    ensures p == NewParent(out, req, pos)
  {
    if req.parent.Given? { return req.parent.id; }
    if req.forceTop { return 0; }
    if JoinsGroup(req) { return req.before.gid; }
    var place := PlaceOf(out, Cue(pos));
    p := Gap.GapOwner(out, if place >= 0 then place else 0, g, d);
  }

  method PlaceOf(out: seq<SheetItem>, item: SheetItem) returns (place: int)
    ensures place == LastPlace(out, item)
  {
    place := -1;
    for i := 0 to |out|
      invariant place == LastPlace(out[..i], item)
    {
      assert out[..i + 1][..i] == out[..i];
      if out[i] == item { place := i; }
    }
    assert out[..|out|] == out;
  }

  // ------------------------------------------------------------- the drag

  method DraggedBy(db: Database, items: seq<SheetItem>, req: Request, ghost d: map<int, nat>)
    returns (dragged: seq<SheetItem>, drag: set<SheetItem>)
    requires Readable(db.State(), d, items, req)
    ensures drag == DragSet(db.State(), d, items, req)
    ensures dragged == Dragged(db.State(), d, items, req)
  {
    if req.group != 0 {
      var block := BlockOf(db.groups, req.group, d);
      var parents := db.StoredParents();
      dragged, drag := CollectBlock(items, parents, block);
      forall x | x in items
        ensures InBlockSet(parents, block, x) <==> IsDragged(db.State(), d, req, x)
      {
        assert HasRow(db.State(), x);
      }
    } else {
      dragged, drag := CollectCues(req.cues);
    }
  }

  lemma MembershipsCover(t: Tables, d: map<int, nat>, items: seq<SheetItem>, req: Request)
    requires Readable(t, d, items, req)
    ensures CoversCues(Out(t, d, items, req), NewParents(ParentsOf(t), Out(t, d, items, req), req))
  {
    var out := Out(t, d, items, req);
    var drag := DragSet(t, d, items, req);
    forall x | x in out && x.Cue?
      ensures x.pos in NewParents(ParentsOf(t), out, req)
    {
      if x in items {
        assert HasRow(t, x);
      } else {
        KeepHas(items, drag, x);
        if GapFor(items, drag, ParentsOf(t), req) <= |Keep(items, drag)| {
          SpliceHas(Keep(items, drag), GapFor(items, drag, ParentsOf(t), req), Dragged(t, d, items, req), x);
        }
      }
    }
    forall i | 0 <= i < |out| && out[i].Cue? ensures out[i].pos in NewParents(ParentsOf(t), out, req) {
      assert out[i] in out;
    }
  }

  /** The rest of the drag once the rows have been read: the gap, the group edits,
      the splice and the write. */
  method Finish(db: Database, items: seq<SheetItem>, req: Request, dragged: seq<SheetItem>, drag: set<SheetItem>, ghost d: map<int, nat>)
    returns (outcome: Outcome)
    requires Readable(db.State(), d, items, req)
    requires drag == DragSet(db.State(), d, items, req) && dragged == Dragged(db.State(), d, items, req) && |dragged| > 0
    modifies db
    ensures Result(outcome, db.State()) == Drop(old(db.State()), d, items, req)
  {
    ghost var t := db.State();
    var rest := KeepRows(items, drag);
    var at := GapBefore(items, drag, rest, req);
    var stored := db.StoredParents();
    var v := ApplyParent(db, req);
    if v != Accepted { return Refusal(v.why); }
    ghost var h := db.groups;
    v := ApplyJoin(db, req);
    if v != Accepted { return Refusal(v.why); }
    if JoinsGroup(req) {
      at := GapInHeader(items, drag, rest, stored, req, at);
    }
    if req.after > 0 {
      var i := SeqIndexOf(items, Cue(req.after));
      if i >= 0 { at := GapAfter(items, drag, i); }
    }
    GapInBounds(t, d, items, req);
    var out := Splice(rest, at, dragged);
    var parents := NewMemberships(out, req, stored, db.groups, d);
    MembershipsCover(t, d, items, req);
    var ok := db.ApplyOrder(out, parents);
    return Dropped;
  }

  /** SheetDrop: the outcome and both tables are those of Drop, for the sequence
      the tables hold. */
  method SheetDrop(db: Database, req: Request, ghost d: map<int, nat>) returns (outcome: Outcome)
    requires Climbable(db.groups, d, req)
    modifies db
    ensures forall items :: Loaded(old(db.State()), items) ==>
        Result(outcome, db.State()) == Drop(old(db.State()), d, items, req)
  {
    var items := db.LoadSheetSequence();
    ghost var t := db.State();
    forall other | Loaded(t, other) ensures other == items {
      LoadedUnique(t, other, items);
    }
    if req.group != 0 && req.group !in db.groups {
      return GroupMissing;
    }
    var dragged, drag := DraggedBy(db, items, req, d);
    if |dragged| == 0 {
      return NothingToDo;
    }
    outcome := Finish(db, items, req, dragged, drag, d);
  }
}
