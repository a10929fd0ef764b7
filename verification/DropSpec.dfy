/** SheetDrop (ctp/sheet.go): what one drag does to the tables.

    Every branch of SheetDrop is here: cue and group drags, the gap before a
    row, drops onto a header (last or first member), the explicit band parent, the
    member slot after a cue, and the pinned top-level drop. */
module DropSpec {
  import opened Forest
  import opened GroupTable
  import opened PreOrder
  import opened SheetStore
  import Gap

  datatype Maybe = Absent | Given(id: int)

  /** The target of the drop line: beforeKind and beforeID. */
  datatype Target = AtEnd | BeforeCue(pos: int) | BeforeGroup(gid: int)

  /** A request; group == 0 means the cues are dragged, else the group's block. */
  datatype Request = Request(cues: seq<int>, group: int, before: Target, join: bool, forceTop: bool,
                             joinFirst: bool, parent: Maybe, after: int)

  predicate JoinsGroup(req: Request) {
    req.join && req.before.BeforeGroup?
  }

  // ------------------------------------------------------ filtering sequences

  /** The rows that stay. */
  function Keep(items: seq<SheetItem>, drag: set<SheetItem>): (r: seq<SheetItem>)
    ensures |r| <= |items|
  {
    if |items| == 0 then []
    else Keep(items[..|items| - 1], drag) + (if items[|items| - 1] in drag then [] else [items[|items| - 1]])
  }

  /** The rows that move, in sheet order. */
  function Take(items: seq<SheetItem>, drag: set<SheetItem>): (r: seq<SheetItem>)
    ensures |r| <= |items|
  {
    if |items| == 0 then []
    else Take(items[..|items| - 1], drag) + (if items[|items| - 1] in drag then [items[|items| - 1]] else [])
  }

  /** restIdx: how many of the first n rows stay. */
  function RestIdx(items: seq<SheetItem>, drag: set<SheetItem>, n: nat): nat
    requires n <= |items|
  {
    |Keep(items[..n], drag)|
  }

  /** seqIndexOf: the first place of a row, -1 when it is not there. */
  function Find(items: seq<SheetItem>, item: SheetItem): (i: int)
    ensures -1 <= i < |items|
    ensures i >= 0 ==> items[i] == item
    ensures i >= 0 <==> item in items
    ensures forall k :: 0 <= k < i ==> items[k] != item
  {
    if |items| == 0 then -1
    else
      assert items == items[..|items| - 1] + [items[|items| - 1]];
      var i := Find(items[..|items| - 1], item);
      if i >= 0 then i else if items[|items| - 1] == item then |items| - 1 else -1
  }

  /** The last cue of rest stored with parent gid, -1 when there is none. */
  function LastMember(rest: seq<SheetItem>, parents: map<int, int>, gid: int): (i: int)
    ensures -1 <= i < |rest|
  {
    if |rest| == 0 then -1
    else match rest[|rest| - 1]
      case Cue(pos) => if pos in parents && parents[pos] == gid then |rest| - 1 else LastMember(rest[..|rest| - 1], parents, gid)
      case Header(_) => LastMember(rest[..|rest| - 1], parents, gid)
  }

  /** Where the run of dragged cues that starts at i ends. */
  function RunEnd(items: seq<SheetItem>, drag: set<SheetItem>, i: nat): (j: nat)
    requires i <= |items|
    ensures i <= j <= |items|
    ensures forall k :: i <= k < j ==> items[k] in drag
    decreases |items| - i
  {
    if i < |items| && items[i].Cue? && items[i] in drag then RunEnd(items, drag, i + 1) else i
  }

  // -------------------------------------------------------- the insertion gap

  function BaseGap(items: seq<SheetItem>, drag: set<SheetItem>, req: Request): nat {
    var i := match req.before
      case AtEnd => -1
      case BeforeCue(pos) => Find(items, Cue(pos))
      case BeforeGroup(gid) => Find(items, Header(gid));
    if i >= 0 then RestIdx(items, drag, i) else |Keep(items, drag)|
  }

  function JoinGap(items: seq<SheetItem>, drag: set<SheetItem>, parents: map<int, int>, req: Request): nat
    requires JoinsGroup(req)
  {
    var rest := Keep(items, drag);
    if req.joinFirst then
      var i := Find(items, Header(req.before.gid));
      if i >= 0 then RestIdx(items, drag, i) + 1 else BaseGap(items, drag, req)
    else if LastMember(rest, parents, req.before.gid) >= 0 then LastMember(rest, parents, req.before.gid) + 1
    else if Find(rest, Header(req.before.gid)) >= 0 then Find(rest, Header(req.before.gid)) + 1
    else BaseGap(items, drag, req)
  }

  function AfterGap(items: seq<SheetItem>, drag: set<SheetItem>, i: nat): nat
    requires i < |items|
  {
    RestIdx(items, drag, if items[i] in drag then RunEnd(items, drag, i) else i + 1)
  }

  /** The gap the dragged rows go to, counted in the rows that stay. */
  function GapFor(items: seq<SheetItem>, drag: set<SheetItem>, parents: map<int, int>, req: Request): nat {
    var i := Find(items, Cue(req.after));
    if req.after > 0 && i >= 0 then AfterGap(items, drag, i)
    else if JoinsGroup(req) then JoinGap(items, drag, parents, req)
    else BaseGap(items, drag, req)
  }

  function Splice(rest: seq<SheetItem>, at: nat, dragged: seq<SheetItem>): seq<SheetItem>
    requires at <= |rest|
  {
    rest[..at] + dragged + rest[at..]
  }

  // ---------------------------------------------------------- the group table

  /** ExpandGroup. */
  function Expanded(g: Groups, gid: int): Groups {
    if gid in g then g[gid := g[gid].(collapse := false)] else g
  }

  function NestedUnder(g: Groups, req: Request, parent: int): Groups {
    if req.group != 0 && req.group in g then Reparented(g, req.group, parent) else g
  }

  /** The explicit band parent: nests (or detaches) a dragged block, opens the target. */
  function AfterParent(g: Groups, req: Request): Groups {
    match req.parent
    case Absent => g
    case Given(p) => if p != 0 then Expanded(NestedUnder(g, req, p), p) else NestedUnder(g, req, 0)
  }

  /** A drop onto a header: opens it, and nests a dragged block in it. */
  function AfterJoin(g: Groups, req: Request): Groups {
    if JoinsGroup(req) then NestedUnder(Expanded(g, req.before.gid), req, req.before.gid) else g
  }

  predicate ParentAccepted(g: Groups, req: Request) {
    req.group != 0 && req.parent.Given? && req.parent.id != 0 ==> Validated(g, req.group, req.parent.id) == Accepted
  }

  predicate JoinAccepted(g: Groups, req: Request) {
    req.group != 0 && JoinsGroup(req) ==> Validated(AfterParent(g, req), req.group, req.before.gid) == Accepted
  }

  // ------------------------------------------------------------- memberships

  /** posOf: the last place of a row, -1 when it is not there. */
  function LastPlace(items: seq<SheetItem>, item: SheetItem): (i: int)
    ensures -1 <= i < |items|
    ensures i >= 0 ==> items[i] == item
    ensures forall k :: i < k < |items| ==> items[k] != item
  {
    if |items| == 0 then -1
    else if items[|items| - 1] == item then |items| - 1
    else LastPlace(items[..|items| - 1], item)
  }

  function NewParent(out: seq<SheetItem>, req: Request, pos: int): int {
    match req.parent
    case Given(p) => p
    case Absent =>
      if req.forceTop then 0
      else if JoinsGroup(req) then req.before.gid
      else if LastPlace(out, Cue(pos)) >= 0 then Gap.LastHeader(out, LastPlace(out, Cue(pos)))
      else 0
  }

  /** A group block keeps its members; dragged cues take the drop's group. */
  function NewParents(parents: map<int, int>, out: seq<SheetItem>, req: Request): map<int, int> {
    if req.group != 0 then parents else parents + DraggedParents(out, req)
  }

  function DraggedParents(out: seq<SheetItem>, req: Request): map<int, int> {
    map pos | pos in req.cues :: NewParent(out, req, pos)
  }

  // ---------------------------------------------------------------- the drop

  /** The climbs of a group drag end on a forest; a cue drag climbs nothing. */
  ghost predicate Climbable(g: Groups, d: map<int, nat>, req: Request) {
    req.group != 0 ==> Depths(g, d)
  }

  /** The rows dragged along: the cues, or everything in the group's block. */
  ghost predicate IsDragged(t: Tables, d: map<int, nat>, req: Request, item: SheetItem)
    requires Climbable(t.groups, d, req)
  {
    if req.group == 0 then item.Cue? && item.pos in req.cues
    else match item
      case Header(gid) => Within(t.groups, d, gid, req.group)
      case Cue(pos) => pos in t.cues && Within(t.groups, d, t.cues[pos].parent, req.group)
  }

  ghost function DragSet(t: Tables, d: map<int, nat>, items: seq<SheetItem>, req: Request): set<SheetItem>
    requires Climbable(t.groups, d, req)
  {
    if req.group == 0 then set pos | pos in req.cues :: Cue(pos)
    else set item | item in items && IsDragged(t, d, req, item)
  }

  function CueItems(cues: seq<int>): (r: seq<SheetItem>)
    ensures |r| == |cues| && forall i :: 0 <= i < |cues| ==> r[i] == Cue(cues[i])
  {
    seq(|cues|, i requires 0 <= i < |cues| => Cue(cues[i]))
  }

  ghost function Dragged(t: Tables, d: map<int, nat>, items: seq<SheetItem>, req: Request): seq<SheetItem>
    requires Climbable(t.groups, d, req)
  {
    if req.group == 0 then CueItems(req.cues) else Take(items, DragSet(t, d, items, req))
  }

  datatype Outcome = Dropped | NothingToDo | GroupMissing | Refusal(why: NestingError)

  datatype Result = Result(outcome: Outcome, tables: Tables)

  ghost function Out(t: Tables, d: map<int, nat>, items: seq<SheetItem>, req: Request): seq<SheetItem>
    requires Climbable(t.groups, d, req)
  {
    var drag := DragSet(t, d, items, req);
    var rest := Keep(items, drag);
    var at := GapFor(items, drag, ParentsOf(t), req);
    if at <= |rest| then Splice(rest, at, Dragged(t, d, items, req)) else rest
  }

  /** The drop as a function of the tables and the sequence read from them.  An
      error part-way leaves the group edits already made. */
  ghost function Drop(t: Tables, d: map<int, nat>, items: seq<SheetItem>, req: Request): Result
    requires Climbable(t.groups, d, req)
  {
    if req.group != 0 && req.group !in t.groups then Result(GroupMissing, t)
    else if |Dragged(t, d, items, req)| == 0 then Result(NothingToDo, t)
    else if !ParentAccepted(t.groups, req) then
      Result(Refusal(Validated(t.groups, req.group, req.parent.id).why), t)
    else if !JoinAccepted(t.groups, req) then
      Result(Refusal(Validated(AfterParent(t.groups, req), req.group, req.before.gid).why),
             t.(groups := Expanded(AfterParent(t.groups, req), req.before.gid)))
    else
      var out := Out(t, d, items, req);
      var groups := AfterJoin(AfterParent(t.groups, req), req);
      Result(Dropped, Written(t.(groups := groups), out, NewParents(ParentsOf(t), out, req)))
  }
}
