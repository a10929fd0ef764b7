/** BulkGroupNewAt (ctp/ctp.go): a new folder at the anchor cue's slot, holding the
    given cues in the order they had. */
module BulkGroup {
  import opened Util
  import opened Forest
  import opened GroupTable
  import opened PreOrder
  import opened SheetStore
  import opened SheetDb
  import opened DropSpec
  import opened DropFacts
  import opened DropShape
  import Restart
  import SheetDrop

  /** The anchor's own group takes the new folder. */
  function NestOf(t: Tables, atCue: int): int {
    if atCue > 0 && atCue in t.cues then t.cues[atCue].parent else 0
  }

  function WithNew(t: Tables, id: int, nest: int, index: real): Tables {
    t.(groups := t.groups[id := Group(nest, false, index)])
  }

  function CueSet(cues: seq<int>): set<SheetItem> {
    set pos | pos in cues :: Cue(pos)
  }

  /** How many staying rows lie above the anchor; all of them when it is not there. */
  function SlotOf(items: seq<SheetItem>, cues: seq<int>, atCue: int): nat {
    var k := Find(items, Cue(atCue));
    if k >= 0 then RestIdx(items, CueSet(cues), k) else |Keep(items, CueSet(cues))|
  }

  function FolderRows(items: seq<SheetItem>, cues: seq<int>, id: int): seq<SheetItem> {
    [Header(id)] + Take(items, CueSet(cues))
  }

  function GroupedOut(items: seq<SheetItem>, cues: seq<int>, id: int, atCue: int): seq<SheetItem> {
    var rest := Keep(items, CueSet(cues));
    var slot := SlotOf(items, cues, atCue);
    if slot <= |rest| then Splice(rest, slot, FolderRows(items, cues, id)) else rest
  }

  function GroupedParents(t: Tables, cues: seq<int>, id: int): map<int, int> {
    ParentsOf(t) + map pos | pos in cues :: id
  }

  function Grouped(t: Tables, items: seq<SheetItem>, cues: seq<int>, id: int, atCue: int, index: real): Tables {
    Written(WithNew(t, id, NestOf(t, atCue), index), GroupedOut(items, cues, id, atCue), GroupedParents(t, cues, id))
  }

  ghost predicate Askable(t: Tables, d: map<int, nat>, items: seq<SheetItem>, id: int, atCue: int) {
    && Depths(t.groups, d) && Loaded(t, items)
    && id != 0 && id !in t.groups
    && (NestOf(t, atCue) == 0 || NestOf(t, atCue) in t.groups)
  }

  // -------------------------------------------------------------- the rows

  lemma SlotWithin(items: seq<SheetItem>, cues: seq<int>, atCue: int)
    ensures SlotOf(items, cues, atCue) <= |Keep(items, CueSet(cues))|
  {
    var k := Find(items, Cue(atCue));
    if k >= 0 { RestIdxWithin(items, CueSet(cues), k); }
  }

  lemma FolderRowsFacts(t: Tables, items: seq<SheetItem>, cues: seq<int>, id: int)
    requires Loaded(t, items) && id !in t.groups
    ensures var rows := FolderRows(items, cues, id); var drag := CueSet(cues) + {Header(id)};
      && Distinct(rows)
      && (forall i :: 0 <= i < |rows| ==> rows[i] in drag && (i > 0 ==> rows[i].Cue? && rows[i].pos in cues))
      && (forall x :: x in rows <==> x == Header(id) || (x in items && x in CueSet(cues)))
      && (forall i :: 0 <= i < |Keep(items, CueSet(cues))| ==> Keep(items, CueSet(cues))[i] !in drag)
      && Distinct(Keep(items, CueSet(cues)))
  {
    var chosen := CueSet(cues);
    LoadedDistinct(t, items);
    KeepDistinct(items, chosen);
    KeepIsUndragged(items, chosen);
    forall x ensures x in FolderRows(items, cues, id) <==> x == Header(id) || (x in items && x in chosen) {
      KeepHas(items, chosen, x);
    }
    forall i | 0 <= i < |Keep(items, chosen)| ensures Keep(items, chosen)[i] != Header(id) {
      KeepHas(items, chosen, Keep(items, chosen)[i]);
      assert HasRow(t, Keep(items, chosen)[i]);
    }
  }

  /** The order written: every row and the new header once, the other rows and the
      members each in the order they had, the folder in one piece. */
  lemma GroupedOrder(t: Tables, items: seq<SheetItem>, cues: seq<int>, id: int, atCue: int)
    requires Loaded(t, items) && id !in t.groups
    ensures var out := GroupedOut(items, cues, id, atCue); var drag := CueSet(cues) + {Header(id)};
      && Distinct(out) && (forall x :: x in out <==> x in items || x == Header(id))
      && Keep(out, drag) == Keep(items, CueSet(cues)) && Take(out, drag) == FolderRows(items, cues, id)
  {
    var rest, rows, drag := Keep(items, CueSet(cues)), FolderRows(items, cues, id), CueSet(cues) + {Header(id)};
    SlotWithin(items, cues, atCue);
    FolderRowsFacts(t, items, cues, id);
    SpliceSplits(rest, SlotOf(items, cues, atCue), rows, drag);
    SpliceDistinct(rest, SlotOf(items, cues, atCue), rows, drag);
    forall x ensures x in GroupedOut(items, cues, id, atCue) <==> x in items || x == Header(id) {
      KeepHas(items, CueSet(cues), x);
      SpliceHas(rest, SlotOf(items, cues, atCue), rows, x);
    }
  }

  lemma GroupedCovers(t: Tables, d: map<int, nat>, items: seq<SheetItem>, cues: seq<int>, id: int, atCue: int, index: real)
    requires Askable(t, d, items, id, atCue)
    ensures var m := WithNew(t, id, NestOf(t, atCue), index); var out := GroupedOut(items, cues, id, atCue);
      Distinct(out) && AllRows(m, out) && CoversCues(out, GroupedParents(t, cues, id))
  {
    var m := WithNew(t, id, NestOf(t, atCue), index);
    var out := GroupedOut(items, cues, id, atCue);
    GroupedOrder(t, items, cues, id, atCue);
    forall x ensures x in out <==> HasRow(m, x) {
      assert x in items <==> HasRow(t, x);
    }
    forall i | 0 <= i < |out| && out[i].Cue? ensures out[i].pos in GroupedParents(t, cues, id) {
      assert HasRow(m, out[i]);
    }
  }

  /** Reading the sheet afterwards: the order above, the members in the new folder,
      the folder in the anchor's group, everything else as it was. */
  lemma GroupedReads(t: Tables, d: map<int, nat>, items: seq<SheetItem>, cues: seq<int>, id: int, atCue: int, index: real)
    requires Askable(t, d, items, id, atCue)
    ensures var r := Grouped(t, items, cues, id, atCue, index);
      && Loaded(r, GroupedOut(items, cues, id, atCue)) && r.cues.Keys == t.cues.Keys
      && forall pos :: pos in t.cues ==> r.cues[pos].parent == if pos in cues then id else t.cues[pos].parent
  {
    var m := WithNew(t, id, NestOf(t, atCue), index);
    var out, parents := GroupedOut(items, cues, id, atCue), GroupedParents(t, cues, id);
    GroupedCovers(t, d, items, cues, id, atCue, index);
    RoundTrip(m, out, parents);
    WrittenKeeps(m, out, parents);
    var r := Written(m, out, parents);
    forall pos | pos in t.cues ensures r.cues[pos].parent == if pos in cues then id else t.cues[pos].parent {
      assert ParentsOf(r)[pos] == parents[pos];
    }
  }

  lemma GroupedTree(t: Tables, d: map<int, nat>, items: seq<SheetItem>, cues: seq<int>, id: int, atCue: int, index: real)
    requires Askable(t, d, items, id, atCue)
    ensures var r := Grouped(t, items, cues, id, atCue, index); var nest := NestOf(t, atCue);
      && r.groups.Keys == t.groups.Keys + {id} && r.groups[id].parent == nest
      && Extends(t.groups, r.groups)
      && Depths(r.groups, d[id := if nest == 0 then 0 else d[nest] + 1])
  {
    var nest := NestOf(t, atCue);
    var m := WithNew(t, id, nest, index);
    WrittenKeeps(m, GroupedOut(items, cues, id, atCue), GroupedParents(t, cues, id));
    CreateKeepsForest(t.groups, d, id, Group(nest, false, index));
    DropAfter.CollapseFree(m.groups, Grouped(t, items, cues, id, atCue, index).groups, d[id := if nest == 0 then 0 else d[nest] + 1]);
  }

  // ------------------------------------------------------------- the shape

  /** A bigger table with the same parents for the groups it had. */
  ghost predicate Extends(g: Groups, h: Groups) {
    g.Keys <= h.Keys && forall k :: k in g ==> g[k].parent == h[k].parent
  }

  lemma {:induction false} WithinExtended(g: Groups, d: map<int, nat>, h: Groups, e: map<int, nat>, x: int, y: int)
    requires Depths(g, d) && Depths(h, e) && Extends(g, h) && (x in g || x == 0)
    ensures Within(h, e, x, y) <==> Within(g, d, x, y)
    decreases if x in g then d[x] else 0
  {
    if x in g && g[x].parent != 0 { WithinExtended(g, d, h, e, g[x].parent, y); }
  }

  lemma NestedExtends(s: Sheet, d: map<int, nat>, r: Sheet, e: map<int, nat>)
    requires Depths(s.groups, d) && Depths(r.groups, e) && Extends(s.groups, r.groups) && s.items == r.items
    requires forall i :: 0 <= i < |s.items| ==> Scope(s, s.items[i]) == Scope(r, s.items[i])
    requires forall i :: 0 <= i < |s.items| ==> OpenAfter(s, s.items[i]) == 0 || OpenAfter(s, s.items[i]) in s.groups
    requires Nested(s, d)
    ensures Nested(r, e)
  {
    forall k | 0 <= k < |r.items| ensures FollowsAt(r, e, k) {
      assert FollowsAt(s, d, k);
      assert OpenAt(s, k) == OpenAt(r, k);
      WithinExtended(s.groups, d, r.groups, e, OpenAt(s, k), Scope(s, s.items[k]));
    }
  }

  /** The first row that stays, and what was taken out above it. */
  lemma {:induction false} FirstKept(items: seq<SheetItem>, drag: set<SheetItem>) returns (m: nat)
    requires |Keep(items, drag)| > 0
    ensures m < |items| && items[m] == Keep(items, drag)[0] && items[m] !in drag
    ensures forall i :: 0 <= i < m ==> items[i] in drag
  {
    var init := items[..|items| - 1];
    if |Keep(init, drag)| > 0 {
      m := FirstKept(init, drag);
      assert forall i :: 0 <= i <= m ==> init[i] == items[i];
    } else {
      m := |items| - 1;
      forall i | 0 <= i < m ensures items[i] in drag {
        KeepHas(init, drag, init[i]);
      }
    }
  }

  /** Over a run of cues, what a row below still needs open was open at the first. */
  lemma {:induction false} OpenAcrossCues(s: Sheet, d: map<int, nat>, k: nat, m: nat, y: int)
    requires Depths(s.groups, d) && Nested(s, d) && k <= m < |s.items|
    requires forall i :: k <= i < m ==> s.items[i].Cue?
    requires y != 0 && if m == k then Scope(s, s.items[k]) == y && y in s.groups else Within(s.groups, d, OpenAt(s, m), y)
    ensures Within(s.groups, d, Scope(s, s.items[k]), y)
    decreases m
  {
    if m > k + 1 {
      assert FollowsAt(s, d, m - 1);
      WithinTransitive(s.groups, d, OpenAt(s, m - 1), Scope(s, s.items[m - 1]), y);
      OpenAcrossCues(s, d, k, m - 1, y);
    }
  }

  /** Rows of the anchor's group fit where the anchor was. */
  lemma AnchorFits(s: Sheet, d: map<int, nat>, cues: seq<int>, k: nat)
    requires Depths(s.groups, d) && Nested(s, d) && NoDangling(s) && k < |s.items| && s.items[k].Cue?
    ensures var drag := CueSet(cues); var r := s.(items := Keep(s.items, drag)); var slot := RestIdx(s.items, drag, k);
      slot <= |r.items| && Nested(r, d) && Fits(r, d, slot, Scope(s, s.items[k]))
  {
    var drag := CueSet(cues);
    var r := s.(items := Keep(s.items, drag));
    var p := Scope(s, s.items[k]);
    assert s.items[..|s.items|] == s.items;
    KeepNested(s, d, drag, |s.items|);
    KeepNested(s, d, drag, k);
    var above, below := Keep(s.items[..k], drag), Keep(s.items[k..], drag);
    assert s.items == s.items[..k] + s.items[k..];
    KeepAppend(s.items[..k], s.items[k..], drag);
    assert FollowsAt(s, d, k);
    assert OpenAt(r, |above|) == OpenAt(s.(items := above), |above|);
    if |below| > 0 {
      var m := FirstKept(s.items[k..], drag);
      assert r.items[|above|] == below[0] == s.items[k + m];
      forall i | k <= i < k + m ensures s.items[i].Cue? { assert s.items[k..][i - k] in drag; }
      ScopeExists(s, d, s.items[k + m]);
      assert FollowsAt(s, d, k + m);
      if Scope(s, s.items[k + m]) != 0 { OpenAcrossCues(s, d, k, k + m, Scope(s, s.items[k + m])); }
    }
  }

  lemma EndFits(s: Sheet, d: map<int, nat>, cues: seq<int>)
    requires Depths(s.groups, d) && Nested(s, d)
    ensures var r := s.(items := Keep(s.items, CueSet(cues))); Nested(r, d) && Fits(r, d, |r.items|, 0)
  {
    assert s.items[..|s.items|] == s.items;
    KeepNested(s, d, CueSet(cues), |s.items|);
  }

  /** The folder's own rows: its header opens it, its members follow. */
  lemma FolderChains(s: Sheet, e: map<int, nat>, rows: seq<SheetItem>, id: int)
    requires Depths(s.groups, e) && id in s.groups && |rows| > 0 && rows[0] == Header(id)
    requires forall i :: 1 <= i < |rows| ==> rows[i].Cue? && Scope(s, rows[i]) == id
    ensures Chained(s.(items := rows), e) && OpenAfter(s, rows[|rows| - 1]) == id
  {
    var r := s.(items := rows);
    forall k | 1 <= k < |rows| ensures FollowsAt(r, e, k) {
      assert OpenAt(r, k) == id;
      assert Within(s.groups, e, id, id);
    }
  }

  lemma StayersKeepScope(t: Tables, d: map<int, nat>, items: seq<SheetItem>, cues: seq<int>, id: int, atCue: int, index: real, x: SheetItem)
    requires Askable(t, d, items, id, atCue) && x in Keep(items, CueSet(cues))
    ensures Scope(SheetOf(Grouped(t, items, cues, id, atCue, index), items), x) == Scope(SheetOf(t, items), x)
    ensures x in items && HasRow(t, x)
  {
    KeepHas(items, CueSet(cues), x);
    assert HasRow(t, x);
    GroupedReads(t, d, items, cues, id, atCue, index);
    GroupedTree(t, d, items, cues, id, atCue, index);
    assert x.Cue? ==> x.pos !in cues;
  }

  lemma MembersScope(t: Tables, d: map<int, nat>, items: seq<SheetItem>, cues: seq<int>, id: int, atCue: int, index: real, i: nat)
    requires Askable(t, d, items, id, atCue) && 1 <= i < |FolderRows(items, cues, id)|
    ensures var rows := FolderRows(items, cues, id);
      rows[i].Cue? && Scope(SheetOf(Grouped(t, items, cues, id, atCue, index), items), rows[i]) == id
  {
    var rows := FolderRows(items, cues, id);
    FolderRowsFacts(t, items, cues, id);
    GroupedReads(t, d, items, cues, id, atCue, index);
    assert rows[i] in rows && rows[i] in items;
    assert HasRow(t, rows[i]);
  }

  lemma FitsExtended(s: Sheet, d: map<int, nat>, r: Sheet, e: map<int, nat>, slot: nat, p: int)
    requires Depths(s.groups, d) && Depths(r.groups, e) && Extends(s.groups, r.groups) && s.items == r.items && slot <= |s.items|
    requires forall i :: 0 <= i < |s.items| ==> Scope(s, s.items[i]) == Scope(r, s.items[i])
    requires forall i :: 0 <= i < |s.items| ==> OpenAfter(s, s.items[i]) == 0 || OpenAfter(s, s.items[i]) in s.groups
    requires (p == 0 || p in s.groups) && Fits(s, d, slot, p)
    ensures Fits(r, e, slot, p)
  {
    assert OpenAt(s, slot) == OpenAt(r, slot);
    WithinExtended(s.groups, d, r.groups, e, OpenAt(s, slot), p);
    if slot < |s.items| { WithinExtended(s.groups, d, r.groups, e, p, Scope(s, s.items[slot])); }
  }

  /** The folder's slot, in the rows that stay, before anything is written. */
  lemma SlotFits(t: Tables, d: map<int, nat>, items: seq<SheetItem>, cues: seq<int>, atCue: int)
    requires Depths(t.groups, d) && Loaded(t, items) && IsPreOrder(SheetOf(t, items), d) && (atCue in t.cues ==> atCue > 0)
    ensures var r := SheetOf(t, Keep(items, CueSet(cues))); var slot := SlotOf(items, cues, atCue);
      slot <= |r.items| && Nested(r, d) && Fits(r, d, slot, NestOf(t, atCue))
  {
    var s := SheetOf(t, items);
    PreOrderIsNested(s, d);
    assert Cue(atCue) in items <==> HasRow(t, Cue(atCue));
    var k := Find(items, Cue(atCue));
    if k >= 0 {
      assert ParentsOf(t)[atCue] == t.cues[atCue].parent;
      AnchorFits(s, d, cues, k);
    } else {
      EndFits(s, d, cues);
    }
  }

  lemma StayersKnown(t: Tables, d: map<int, nat>, items: seq<SheetItem>, cues: seq<int>, id: int, atCue: int, index: real)
    requires Askable(t, d, items, id, atCue) && IsPreOrder(SheetOf(t, items), d)
    ensures var s := SheetOf(t, Keep(items, CueSet(cues))); var r := SheetOf(Grouped(t, items, cues, id, atCue, index), s.items);
      && (forall i :: 0 <= i < |s.items| ==> Scope(s, s.items[i]) == Scope(r, s.items[i]))
      && (forall i :: 0 <= i < |s.items| ==> OpenAfter(s, s.items[i]) == 0 || OpenAfter(s, s.items[i]) in s.groups)
  {
    var s := SheetOf(t, Keep(items, CueSet(cues)));
    forall i | 0 <= i < |s.items|
      ensures Scope(s, s.items[i]) == Scope(SheetOf(Grouped(t, items, cues, id, atCue, index), s.items), s.items[i])
      ensures OpenAfter(s, s.items[i]) == 0 || OpenAfter(s, s.items[i]) in s.groups
    {
      StayersKeepScope(t, d, items, cues, id, atCue, index, s.items[i]);
      ScopeExists(SheetOf(t, items), d, s.items[i]);
    }
  }

  lemma GroupedNests(t: Tables, d: map<int, nat>, items: seq<SheetItem>, cues: seq<int>, id: int, atCue: int, index: real,
                              e: map<int, nat>)
    requires Askable(t, d, items, id, atCue) && IsPreOrder(SheetOf(t, items), d) && (atCue in t.cues ==> atCue > 0)
    requires Depths(Grouped(t, items, cues, id, atCue, index).groups, e)
    ensures Nested(SheetOf(Grouped(t, items, cues, id, atCue, index), GroupedOut(items, cues, id, atCue)), e)
  {
    var nest, slot := NestOf(t, atCue), SlotOf(items, cues, atCue);
    var s := SheetOf(t, Keep(items, CueSet(cues)));
    var r := SheetOf(Grouped(t, items, cues, id, atCue, index), s.items);
    var rows := FolderRows(items, cues, id);
    SlotFits(t, d, items, cues, atCue);
    GroupedTree(t, d, items, cues, id, atCue, index);
    StayersKnown(t, d, items, cues, id, atCue, index);
    NestedExtends(s, d, r, e);
    FitsExtended(s, d, r, e, slot, nest);
    forall i | 1 <= i < |rows| ensures rows[i].Cue? && Scope(r, rows[i]) == id {
      MembersScope(t, d, items, cues, id, atCue, index, i);
    }
    FolderChains(r, e, rows, id);
    if slot < |s.items| { BelowFolder(t, r, e, id, nest, Scope(s, s.items[slot])); }
    SpliceNested(r, e, slot, rows, nest);
  }

  /** Seen from the row below, the new folder is its parent. */
  lemma BelowFolder(t: Tables, r: Sheet, e: map<int, nat>, id: int, nest: int, y: int)
    requires Depths(r.groups, e) && id in r.groups && r.groups[id].parent == nest && y != id
    ensures Within(r.groups, e, id, y) <==> Within(r.groups, e, nest, y)
  {
  }

  /** On every pre-order sheet, grouping any cues at any anchor leaves a pre-order
      sheet: no folder is split and no row is cut off from its own. */
  lemma GroupingKeepsPreOrder(t: Tables, d: map<int, nat>, items: seq<SheetItem>, cues: seq<int>, id: int, atCue: int, index: real,
                              e: map<int, nat>)
    requires Askable(t, d, items, id, atCue) && IsPreOrder(SheetOf(t, items), d) && (atCue in t.cues ==> atCue > 0)
    requires Depths(Grouped(t, items, cues, id, atCue, index).groups, e)
    ensures IsPreOrder(SheetOf(Grouped(t, items, cues, id, atCue, index), GroupedOut(items, cues, id, atCue)), e)
  {
    var s := SheetOf(Grouped(t, items, cues, id, atCue, index), GroupedOut(items, cues, id, atCue));
    GroupedNests(t, d, items, cues, id, atCue, index, e);
    GroupedComplete(t, d, items, cues, id, atCue, index);
    NestedIsPreOrder(s, e);
  }

  lemma GroupedComplete(t: Tables, d: map<int, nat>, items: seq<SheetItem>, cues: seq<int>, id: int, atCue: int, index: real)
    requires Askable(t, d, items, id, atCue) && IsPreOrder(SheetOf(t, items), d)
    ensures var s := SheetOf(Grouped(t, items, cues, id, atCue, index), GroupedOut(items, cues, id, atCue)); Complete(s) && NoDangling(s)
  {
    var r, out := Grouped(t, items, cues, id, atCue, index), GroupedOut(items, cues, id, atCue);
    GroupedReads(t, d, items, cues, id, atCue, index);
    GroupedTree(t, d, items, cues, id, atCue, index);
    LoadedDistinct(r, out);
    forall pos ensures Cue(pos) in out <==> pos in r.cues { assert HasRow(r, Cue(pos)) <==> pos in r.cues; }
    forall gid ensures Header(gid) in out <==> gid in r.groups { assert HasRow(r, Header(gid)) <==> gid in r.groups; }
    forall pos | pos in ParentsOf(r) && ParentsOf(r)[pos] != 0 ensures ParentsOf(r)[pos] in r.groups {
      assert SheetOf(t, items).parents[pos] == t.cues[pos].parent;
    }
  }

  // ------------------------------------------------------------- the method

  datatype GroupingOutcome = NoCues | NotNested(why: NestingError) | Made(id: int)

  lemma NewAtEnd(t: Tables, all: seq<SheetItem>, id: int, nest: int, index: real) returns (j: nat)
    requires Loaded(WithNew(t, id, nest, index), all) && id !in t.groups
    requires forall x :: HasRow(t, x) ==> IndexOf(t, x) < index
    ensures j == |all| - 1 && all[j] == Header(id)
    ensures forall k :: 0 <= k < j ==> HasRow(t, all[k]) && IndexOf(WithNew(t, id, nest, index), all[k]) == IndexOf(t, all[k])
  {
    var m := WithNew(t, id, nest, index);
    LoadedDistinct(m, all);
    assert HasRow(m, Header(id));
    j :| 0 <= j < |all| && all[j] == Header(id);
    forall k | 0 <= k < |all| && k != j
      ensures HasRow(t, all[k]) && IndexOf(m, all[k]) == IndexOf(t, all[k]) && !Before(m, all[j], all[k])
    {
      assert all[k] != Header(id) && HasRow(m, all[k]);
    }
    assert j == |all| - 1;
  }

  lemma InitLoaded(t: Tables, m: Tables, all: seq<SheetItem>, last: SheetItem)
    requires Loaded(m, all) && |all| > 0 && all[|all| - 1] == last && !HasRow(t, last)
    requires forall x :: HasRow(m, x) <==> x == last || HasRow(t, x)
    requires forall k :: 0 <= k < |all| - 1 ==> HasRow(t, all[k]) && IndexOf(m, all[k]) == IndexOf(t, all[k])
    ensures Loaded(t, all[..|all| - 1])
  {
    var items := all[..|all| - 1];
    forall x ensures x in items <==> HasRow(t, x) {
      assert x in all <==> HasRow(m, x);
      assert all == items + [last];
    }
    forall a, b | 0 <= a < b < |items| ensures Before(t, items[a], items[b]) {
      assert Before(m, all[a], all[b]);
    }
  }

  /** The new header, indexed after everything, is read last. */
  lemma NewIsLast(t: Tables, all: seq<SheetItem>, id: int, nest: int, index: real)
    requires Loaded(WithNew(t, id, nest, index), all) && id !in t.groups
    requires forall x :: HasRow(t, x) ==> IndexOf(t, x) < index
    ensures |all| > 0 && all[|all| - 1] == Header(id) && Loaded(t, all[..|all| - 1])
  {
    var j := NewAtEnd(t, all, id, nest, index);
    InitLoaded(t, WithNew(t, id, nest, index), all, Header(id));
  }

  /** The loop that takes the members out and counts the slot. */
  method Partition(all: seq<SheetItem>, id: int, cues: set<int>, anchor: int, ghost items: seq<SheetItem>)
    returns (rest: seq<SheetItem>, members: seq<SheetItem>, slot: nat)
    requires all == items + [Header(id)] && Header(id) !in items && anchor < |items|
    ensures var drag := set pos | pos in cues :: Cue(pos);
      && rest == Keep(items, drag) && members == Take(items, drag)
      && slot == if anchor >= 0 then RestIdx(items, drag, anchor) else |rest|
  {
    rest, members, slot := [], [], 0;
    ghost var drag := set pos | pos in cues :: Cue(pos);
    assert all[..0] == items[..0] == [];
    for i := 0 to |all|
      invariant var n := if i <= |items| then i else |items|;
        && rest == Keep(items[..n], drag) && members == Take(items[..n], drag)
        && (anchor >= 0 ==> slot == |Keep(items[..if n < anchor then n else anchor], drag)|)
    {
      if i < |items| {
        assert all[i] == items[i] && items[i] in items;
        assert items[..i + 1][..i] == items[..i];
      }
      if all[i] == Header(id) {
        continue;
      }
      if all[i].Cue? && all[i].pos in cues {
        members := members + [all[i]];
        continue;
      }
      rest := rest + [all[i]];
      if anchor >= 0 && i < anchor { slot := slot + 1; }
    }
    assert items[..|items|] == items;
    if anchor < 0 { slot := |rest|; }
  }

  method MemberParents(stored: map<int, int>, cues: seq<int>, id: int) returns (parents: map<int, int>)
    ensures parents == stored + map pos | pos in cues :: id
  {
    parents := stored;
    for i := 0 to |cues|
      invariant parents == stored + map pos | pos in cues[..i] :: id
    {
      assert cues[..i + 1] == cues[..i] + [cues[i]];
      parents := parents[cues[i] := id];
    }
    assert cues[..|cues|] == cues;
  }

  /** After the group row has been made: read, take the members out, write. */
  method Seat(db: Database, cues: seq<int>, atCue: int, id: int, ghost t: Tables, ghost d: map<int, nat>, ghost index: real)
    returns (ghost items: seq<SheetItem>)
    requires Depths(t.groups, d) && id != 0 && id !in t.groups && (NestOf(t, atCue) == 0 || NestOf(t, atCue) in t.groups)
    requires db.State() == WithNew(t, id, NestOf(t, atCue), index)
    requires forall x :: HasRow(t, x) ==> IndexOf(t, x) < index
    modifies db
    ensures Loaded(t, items) && db.State() == Grouped(t, items, cues, id, atCue, index)
  {
    var stored := db.StoredParents();
    var parents := MemberParents(stored, cues, id);
    var all := db.LoadSheetSequence();
    NewIsLast(t, all, id, NestOf(t, atCue), index);
    items := all[..|all| - 1];
    assert all == items + [Header(id)];
    assert Header(id) !in items by { assert !HasRow(t, Header(id)); }
    var anchor := SheetDrop.SeqIndexOf(all, Cue(atCue));
    FindInPrefix(items, Header(id), Cue(atCue));
    var chosen := set pos | pos in cues;
    var rest, members, slot := Partition(all, id, chosen, anchor, items);
    SeatIs(items, cues, id, atCue, rest, members, slot, chosen, anchor);
    GroupedCovers(t, d, items, cues, id, atCue, index);
    SameStored(t, id, NestOf(t, atCue), index);
    var ok := db.ApplyOrder(rest[..slot] + ([Header(id)] + members) + rest[slot..], parents);
  }

  lemma SameStored(t: Tables, id: int, nest: int, index: real)
    ensures ParentsOf(WithNew(t, id, nest, index)) == ParentsOf(t)
  {
  }

  lemma SeatIs(items: seq<SheetItem>, cues: seq<int>, id: int, atCue: int, rest: seq<SheetItem>, members: seq<SheetItem>, slot: nat,
               chosen: set<int>, anchor: int)
    requires chosen == (set pos | pos in cues) && anchor == Find(items, Cue(atCue))
    requires var drag := set pos | pos in chosen :: Cue(pos);
      && rest == Keep(items, drag) && members == Take(items, drag)
      && slot == if anchor >= 0 then RestIdx(items, drag, anchor) else |rest|
    ensures slot <= |rest| && GroupedOut(items, cues, id, atCue) == rest[..slot] + ([Header(id)] + members) + rest[slot..]
  {
    assert (set pos | pos in chosen :: Cue(pos)) == CueSet(cues);
    SlotWithin(items, cues, atCue);
  }

  lemma FindInPrefix(items: seq<SheetItem>, last: SheetItem, x: SheetItem)
    requires last != x
    ensures Find(items + [last], x) == Find(items, x)
  {
    assert (items + [last])[..|items|] == items;
  }

  /** BulkGroupNewAt; id is the row id the table hands out. */
  method BulkGroupNewAt(db: Database, cues: seq<int>, atCue: int, id: int, ghost d: map<int, nat>)
    returns (outcome: GroupingOutcome, ghost index: real)
    requires Depths(db.groups, d) && id != 0 && id !in db.groups
    modifies db
    ensures outcome.NoCues? <==> |cues| == 0
    ensures outcome.Made? ==> forall items :: Loaded(old(db.State()), items) ==>
        db.State() == Grouped(old(db.State()), items, cues, id, atCue, index)
    ensures !outcome.Made? ==> db.State() == old(db.State())
    ensures |cues| > 0 ==> (outcome == Made(id) <==> Validated(old(db.groups), 0, NestOf(old(db.State()), atCue)) == Accepted)
  {
    index := 0.0;
    if |cues| == 0 { return NoCues, index; }
    ghost var t := db.State();
    var nest := NestOf(db.State(), atCue);
    var v := ValidateGroupParent(0, nest, db.groups);
    if v != Accepted { return NotNested(v.why), index; }
    if nest != 0 { ValidatedIff(t.groups, d, 0, nest); }
    var top := Restart.MaxIndex(db.State());
    db.groups := db.groups[id := Group(nest, false, top + STEP)];
    ghost var items := Seat(db, cues, atCue, id, t, d, top + STEP);
    forall other | Loaded(t, other) ensures other == items { LoadedUnique(t, other, items); }
    return Made(id), top + STEP;
  }
}
