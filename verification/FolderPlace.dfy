/** Where BulkGroupNewAt puts the new folder (ctp/ctp.go), read off the sheet afterwards. */
module FolderPlace {
  import opened Util
  import opened PreOrder
  import opened SheetStore
  import opened DropSpec
  import opened DropFacts
  import opened BulkGroup
  import opened DropPlace

  lemma FolderSplice(t: Tables, items: seq<SheetItem>, cues: seq<int>, id: int, atCue: int)
    requires Loaded(t, items) && id !in t.groups
    ensures var rows, drag := FolderRows(items, cues, id), CueSet(cues) + {Header(id)};
      && SlotOf(items, cues, atCue) <= |Keep(items, CueSet(cues))| && Distinct(items)
      && GroupedOut(items, cues, id, atCue) == Splice(Keep(items, CueSet(cues)), SlotOf(items, cues, atCue), rows)
      && |rows| > 0 && forall i :: 0 <= i < |rows| ==> rows[i] in drag
  {
    LoadedDistinct(t, items);
    SlotWithin(items, cues, atCue);
    FolderRowsFacts(t, items, cues, id);
  }

  /** The row directly below the new folder's is the anchor, or, when the anchor goes into
      the folder, the first row after it that does not; without one, or without an anchor
      on the sheet, the folder is the last thing on it. */
  lemma FolderLands(t: Tables, items: seq<SheetItem>, cues: seq<int>, id: int, atCue: int, k: nat, j: nat)
    requires Loaded(t, items) && id !in t.groups && FirstStaying(items, CueSet(cues), k, j)
    requires if Cue(atCue) in items then k < |items| && items[k] == Cue(atCue) else k == |items|
    ensures var out, drag := GroupedOut(items, cues, id, atCue), CueSet(cues) + {Header(id)};
      if j < |items| then LandsAbove(out, drag, items[j]) else LandsLast(out, drag)
  {
    var chosen, rows, slot := CueSet(cues), FolderRows(items, cues, id), SlotOf(items, cues, atCue);
    FolderSplice(t, items, cues, id, atCue);
    SpliceAround(Keep(items, chosen), slot, rows, chosen + {Header(id)});
    if k < |items| {
      DistinctAt(items, k, Find(items, items[k]));
      SkipsDragged(items, chosen, k, j);
      RestIdxWithin(items, chosen, j);
      if j == |items| { assert items[..j] == items; }
    }
  }
}
