/** The two tables behind the sheet (ctp/sheet.go): cuesheet and cue_group, how
    the visual sequence is read from them and written back. */
module SheetStore {
  import opened Util
  import opened Forest
  import opened PreOrder
  import opened FlattenSheet

  datatype CueRow = CueRow(parent: int, index: real)

  datatype Tables = Tables(cues: map<int, CueRow>, groups: Groups)

  const STEP := 1000.0

  predicate HasRow(t: Tables, item: SheetItem) {
    match item
    case Cue(pos) => pos in t.cues
    case Header(gid) => gid in t.groups
  }

  function IndexOf(t: Tables, item: SheetItem): real
    requires HasRow(t, item)
  {
    match item
    case Cue(pos) => t.cues[pos].index
    case Header(gid) => t.groups[gid].index
  }

  function ParentsOf(t: Tables): map<int, int> {
    map pos | pos in t.cues :: t.cues[pos].parent
  }

  /** The sheet a sequence makes of the tables. */
  function SheetOf(t: Tables, items: seq<SheetItem>): Sheet {
    Sheet(items, ParentsOf(t), t.groups)
  }

  /** The order loadSheetSequence reads in: by sheet_index, then cues before
      headers, then by cuePos or group_id. */
  predicate Before(t: Tables, a: SheetItem, b: SheetItem)
    requires HasRow(t, a) && HasRow(t, b)
  {
    IndexOf(t, a) < IndexOf(t, b) || (IndexOf(t, a) == IndexOf(t, b) && TieBefore(a, b))
  }

  predicate TieBefore(a: SheetItem, b: SheetItem) {
    match (a, b)
    case (Cue(p), Cue(q)) => p < q
    case (Cue(_), Header(_)) => true
    case (Header(_), Cue(_)) => false
    case (Header(g), Header(h)) => g < h
  }

  ghost predicate AllRows(t: Tables, items: seq<SheetItem>) {
    forall item :: item in items <==> HasRow(t, item)
  }

  ghost predicate InLoadOrder(t: Tables, items: seq<SheetItem>) {
    && (forall i :: 0 <= i < |items| ==> HasRow(t, items[i]))
    && (forall i, j :: 0 <= i < j < |items| ==> Before(t, items[i], items[j]))
  }

  /** items is what loadSheetSequence returns on t. */
  ghost predicate Loaded(t: Tables, items: seq<SheetItem>) {
    AllRows(t, items) && InLoadOrder(t, items)
  }

  lemma LoadedDistinct(t: Tables, items: seq<SheetItem>)
    requires InLoadOrder(t, items)
    ensures Distinct(items)
  {
    forall i, j | 0 <= i < j < |items| ensures items[i] != items[j] {
      assert Before(t, items[i], items[j]);
    }
  }

  /** The tables determine the sequence. */
  lemma {:induction false} LoadedUnique(t: Tables, a: seq<SheetItem>, b: seq<SheetItem>)
    requires InLoadOrder(t, a) && InLoadOrder(t, b) && forall item :: item in a <==> item in b
    ensures a == b
    decreases |a|
  {
    assert |b| > 0 ==> b[0] in b;
    if |a| > 0 {
      assert a[0] in b && (|b| > 0 ==> b[0] in a);
      FirstIsFirst(t, a, b);
      LoadedDistinct(t, a);
      LoadedDistinct(t, b);
      forall item ensures item in a[1..] <==> item in b[1..] {
        TailHas(a, item);
        TailHas(b, item);
      }
      LoadedUnique(t, a[1..], b[1..]);
      assert a == [a[0]] + a[1..] && b == [b[0]] + b[1..];
    }
  }

  lemma TailHas(s: seq<SheetItem>, item: SheetItem)
    requires |s| > 0 && Distinct(s)
    ensures item in s[1..] <==> item in s && item != s[0]
  {
    assert s == [s[0]] + s[1..];
  }

  lemma NotBoth(t: Tables, a: SheetItem, b: SheetItem)
    requires HasRow(t, a) && HasRow(t, b)
    ensures !(Before(t, a, b) && Before(t, b, a))
  {
  }

  lemma FirstIsFirst(t: Tables, a: seq<SheetItem>, b: seq<SheetItem>)
    requires InLoadOrder(t, a) && InLoadOrder(t, b) && |a| > 0 && |b| > 0 && a[0] in b && b[0] in a
    ensures a[0] == b[0]
  {
    var i :| 0 <= i < |b| && b[i] == a[0];
    var j :| 0 <= j < |a| && a[j] == b[0];
    assert i == 0 || Before(t, b[0], b[i]);
    assert j == 0 || Before(t, a[0], a[j]);
    NotBoth(t, a[0], b[0]);
  }

  // --------------------------------------------------------------- applyOrder

  /** One UPDATE: a row that is not there is left alone. */
  function WriteRow(t: Tables, item: SheetItem, index: real, parents: map<int, int>): Tables {
    match item
    case Header(gid) =>
      if gid in t.groups then t.(groups := t.groups[gid := t.groups[gid].(index := index)]) else t
    case Cue(pos) =>
      if pos in t.cues && pos in parents then t.(cues := t.cues[pos := CueRow(parents[pos], index)]) else t
  }

  function Written(t: Tables, items: seq<SheetItem>, parents: map<int, int>): (r: Tables)
  {
    if |items| == 0 then t
    else WriteRow(Written(t, items[..|items| - 1], parents), items[|items| - 1], (|items| - 1) as real * STEP, parents)
  }

  predicate CoversCues(items: seq<SheetItem>, parents: map<int, int>) {
    forall i :: 0 <= i < |items| && items[i].Cue? ==> items[i].pos in parents
  }

  lemma {:induction false} WrittenKeeps(t: Tables, items: seq<SheetItem>, parents: map<int, int>)
    ensures var r := Written(t, items, parents);
      && r.cues.Keys == t.cues.Keys && r.groups.Keys == t.groups.Keys
      && (forall gid :: gid in t.groups ==>
            r.groups[gid].parent == t.groups[gid].parent && r.groups[gid].collapse == t.groups[gid].collapse)
      && (forall pos :: pos in t.cues && Cue(pos) !in items ==> r.cues[pos] == t.cues[pos])
      && (forall gid :: gid in t.groups && Header(gid) !in items ==> r.groups[gid] == t.groups[gid])
  {
    if |items| > 0 {
      WrittenKeeps(t, items[..|items| - 1], parents);
    }
  }

  /** Row i of a distinct sequence ends up at index i * 1000 with its parent. */
  lemma {:induction false} WrittenAt(t: Tables, items: seq<SheetItem>, parents: map<int, int>, i: nat)
    requires Distinct(items) && i < |items| && HasRow(t, items[i]) && CoversCues(items, parents)
    ensures var r := Written(t, items, parents);
      && HasRow(r, items[i]) && IndexOf(r, items[i]) == i as real * STEP
      && (items[i].Cue? ==> r.cues[items[i].pos].parent == parents[items[i].pos])
  {
    var init := items[..|items| - 1];
    WrittenKeeps(t, init, parents);
    if i < |items| - 1 {
      WrittenAt(t, init, parents, i);
      assert items[i] != items[|items| - 1];
    }
  }

  /** applyOrder then loadSheetSequence returns exactly what was written. */
  lemma RoundTrip(t: Tables, items: seq<SheetItem>, parents: map<int, int>)
    requires Distinct(items) && AllRows(t, items) && CoversCues(items, parents)
    ensures Loaded(Written(t, items, parents), items)
    ensures forall pos :: pos in t.cues ==>
        Cue(pos) in items && ParentsOf(Written(t, items, parents))[pos] == parents[pos]
  {
    var r := Written(t, items, parents);
    WrittenKeeps(t, items, parents);
    forall item ensures item in items <==> HasRow(r, item) {
      assert HasRow(r, item) <==> HasRow(t, item);
    }
    forall i | 0 <= i < |items|
      ensures HasRow(r, items[i]) && IndexOf(r, items[i]) == i as real * STEP
    {
      assert HasRow(t, items[i]);
      WrittenAt(t, items, parents, i);
    }
    forall pos | pos in t.cues
      ensures Cue(pos) in items && ParentsOf(r)[pos] == parents[pos]
    {
      assert HasRow(t, Cue(pos));
      var i :| 0 <= i < |items| && items[i] == Cue(pos);
      WrittenAt(t, items, parents, i);
    }
  }

  /** With a parent for exactly the cues of the table, those are the new parents. */
  lemma WrittenParents(t: Tables, items: seq<SheetItem>, parents: map<int, int>)
    requires Distinct(items) && AllRows(t, items) && CoversCues(items, parents) && parents.Keys == t.cues.Keys
    ensures Written(t, items, parents).cues.Keys == t.cues.Keys
    ensures ParentsOf(Written(t, items, parents)) == parents
  {
    RoundTrip(t, items, parents);
    WrittenKeeps(t, items, parents);
    var p := ParentsOf(Written(t, items, parents));
    assert p.Keys == parents.Keys;
    forall pos | pos in p ensures p[pos] == parents[pos] {}
  }

  /** Every index applyOrder writes is different, so the renderer's own merge of
      the same tables gives the same sequence (see MergesAgreeIff). */
  lemma WrittenHasNoTie(t: Tables, items: seq<SheetItem>, parents: map<int, int>, a: SheetItem, b: SheetItem)
    requires Distinct(items) && AllRows(t, items) && CoversCues(items, parents)
    requires a in items && b in items && a != b
    ensures var r := Written(t, items, parents);
      HasRow(r, a) && HasRow(r, b) && IndexOf(r, a) != IndexOf(r, b)
  {
    var i :| 0 <= i < |items| && items[i] == a;
    var j :| 0 <= j < |items| && items[j] == b;
    assert HasRow(t, items[i]) && HasRow(t, items[j]);
    WrittenAt(t, items, parents, i);
    WrittenAt(t, items, parents, j);
  }

  // ------------------------------------------------- reading and writing

  ghost predicate PlacedIn(t: Tables, rows: seq<Placed>) {
    forall i :: 0 <= i < |rows| ==> HasRow(t, rows[i].item) && rows[i].index == IndexOf(t, rows[i].item)
  }

  ghost predicate InRowOrder(t: Tables, rows: seq<Placed>)
    requires PlacedIn(t, rows)
  {
    forall i, j :: 0 <= i < j < |rows| ==> Before(t, rows[i].item, rows[j].item)
  }

  ghost predicate ListsRow(rows: seq<Placed>, item: SheetItem) {
    exists i :: 0 <= i < |rows| && rows[i].item == item
  }

  /** Keeps a query result ordered while one more row is added. */
  method InsertOrdered(t: Tables, rows: seq<Placed>, item: SheetItem) returns (r: seq<Placed>)
    requires PlacedIn(t, rows) && InRowOrder(t, rows) && HasRow(t, item)
    requires forall i :: 0 <= i < |rows| ==> rows[i].item != item
    ensures PlacedIn(t, r) && InRowOrder(t, r)
    ensures forall x {:trigger ListsRow(r, x)} :: ListsRow(r, x) <==> ListsRow(rows, x) || x == item
  {
    var k := 0;
    while k < |rows| && Before(t, rows[k].item, item)
      invariant 0 <= k <= |rows|
      invariant forall m :: 0 <= m < k ==> Before(t, rows[m].item, item)
    {
      k := k + 1;
    }
    r := rows[..k] + [Placed(item, IndexOf(t, item))] + rows[k..];
    forall x ensures ListsRow(r, x) <==> ListsRow(rows, x) || x == item {
      InsertedLists(rows, k, Placed(item, IndexOf(t, item)), x);
    }
    if k < |rows| {
      forall m | k <= m < |rows|
        ensures Before(t, item, rows[m].item)
      {
        BeforeTotal(t, item, rows[m].item);
        BeforeTotal(t, item, rows[k].item);
      }
    }
  }

  lemma BeforeTotal(t: Tables, a: SheetItem, b: SheetItem)
    requires HasRow(t, a) && HasRow(t, b) && a != b
    ensures Before(t, a, b) || Before(t, b, a)
  {
  }

  lemma InsertedLists(rows: seq<Placed>, k: nat, p: Placed, x: SheetItem)
    requires k <= |rows|
    ensures ListsRow(rows[..k] + [p] + rows[k..], x) <==> ListsRow(rows, x) || x == p.item
  {
    var r := rows[..k] + [p] + rows[k..];
    assert r[k] == p;
    if i :| 0 <= i < |rows| && rows[i].item == x {
      assert r[if i < k then i else i + 1] == rows[i];
    }
    if i :| 0 <= i < |r| && r[i].item == x && i != k {
      assert r[i] == rows[if i < k then i else i - 1];
    }
  }
}
