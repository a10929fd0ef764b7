/** ReorderCues (ctp/ctp.go): a new order for all cues, headers keeping their
    slots, separated members leaving their groups, cues renumbered. */
module Reorder {
  import opened Util
  import opened Forest
  import opened PreOrder
  import opened SheetStore
  import opened SheetDb
  import GroupWalks
  import Heal
  import Reindex

  datatype Outcome = NothingAsked | UnknownCue(pos: int) | DuplicateCue(pos: int) | IndexPanic | Reordered(items: seq<SheetItem>)

  // -------------------------------------------------------------- the slots

  /** The positions of the cues among items, in order. */
  function Cues(items: seq<SheetItem>): (r: seq<int>)
    ensures |r| <= |items|
  {
    if |items| == 0 then []
    else match items[|items| - 1]
      case Cue(pos) => Cues(items[..|items| - 1]) + [pos]
      case Header(_) => Cues(items[..|items| - 1])
  }

  /** Each cue slot takes the next position of order. */
  function Filled(items: seq<SheetItem>, order: seq<int>): (r: seq<SheetItem>)
    requires |Cues(items)| <= |order|
    ensures |r| == |items|
  {
    if |items| == 0 then []
    else match items[|items| - 1]
      case Cue(_) => Filled(items[..|items| - 1], order) + [Cue(order[|Cues(items)| - 1])]
      case Header(gid) => Filled(items[..|items| - 1], order) + [Header(gid)]
  }

  lemma {:induction false} CuesHas(items: seq<SheetItem>, pos: int)
    ensures pos in Cues(items) <==> Cue(pos) in items
  {
    if |items| > 0 {
      CuesHas(items[..|items| - 1], pos);
      assert items == items[..|items| - 1] + [items[|items| - 1]];
    }
  }

  lemma {:induction false} CuesDistinct(items: seq<SheetItem>)
    requires Distinct(items)
    ensures Distinct(Cues(items))
  {
    if |items| > 0 {
      var init := items[..|items| - 1];
      CuesDistinct(init);
      if items[|items| - 1].Cue? { CuesHas(init, items[|items| - 1].pos); }
    }
  }

  /** The cues come out in the order asked for and every header keeps its slot. */
  lemma {:induction false} FilledOrder(items: seq<SheetItem>, order: seq<int>)
    requires |Cues(items)| <= |order|
    ensures Cues(Filled(items, order)) == order[..|Cues(items)|]
    ensures forall i :: 0 <= i < |items| ==> if items[i].Header? then Filled(items, order)[i] == items[i] else Filled(items, order)[i].Cue?
  {
    if |items| > 0 {
      var init := items[..|items| - 1];
      var r := Filled(items, order);
      FilledOrder(init, order);
      assert r[..|items| - 1] == Filled(init, order);
      var n := |Cues(items)|;
      if items[|items| - 1].Cue? {
        assert order[..n] == order[..n - 1] + [order[n - 1]];
      }
      forall i | 0 <= i < |items| - 1 ensures r[i] == Filled(init, order)[i] && items[i] == init[i] {}
    }
  }

  /** The given order names existing cues, each once. */
  ghost predicate Proper(t: Tables, order: seq<int>) {
    Distinct(order) && forall i :: 0 <= i < |order| ==> order[i] in t.cues
  }

  lemma {:induction false} SameCard(a: set<int>, b: set<int>)
    requires a <= b && |a| >= |b|
    ensures a == b
  {
    if a != {} {
      var x := PickFrom(a);
      SameCard(a - {x}, b - {x});
      assert a == (a - {x}) + {x} && b == (b - {x}) + {x};
    }
  }

  lemma CueSlots(t: Tables, items: seq<SheetItem>)
    requires Loaded(t, items)
    ensures |Cues(items)| == |t.cues|
    ensures forall pos :: pos in Cues(items) <==> pos in t.cues
  {
    LoadedDistinct(t, items);
    CuesDistinct(items);
    forall pos ensures pos in Cues(items) <==> pos in t.cues {
      CuesHas(items, pos);
      assert Cue(pos) in items <==> HasRow(t, Cue(pos));
    }
    DistinctCard(Cues(items));
    assert (set x | x in Cues(items)) == t.cues.Keys;
    assert |t.cues.Keys| == |t.cues|;
  }

  /** An order of existing, distinct cues fills every slot exactly when it names
      them all; a shorter one runs out, and no cue is ever left for the tail. */
  lemma EnoughIffAll(t: Tables, items: seq<SheetItem>, order: seq<int>)
    requires Loaded(t, items) && Proper(t, order)
    ensures |Cues(items)| <= |order| <==> forall pos :: pos in t.cues ==> pos in order
    ensures |order| <= |Cues(items)|
  {
    CueSlots(t, items);
    DistinctCard(order);
    var named := set x | x in order;
    assert |t.cues.Keys| == |t.cues|;
    SubsetCard(named, t.cues.Keys);
    if |t.cues| <= |order| { SameCard(named, t.cues.Keys); }
    if forall pos :: pos in t.cues ==> pos in order { SubsetCard(t.cues.Keys, named); }
  }

  lemma FilledIsComplete(t: Tables, items: seq<SheetItem>, order: seq<int>)
    requires Loaded(t, items) && Proper(t, order) && |Cues(items)| <= |order|
    ensures Cues(Filled(items, order)) == order
    ensures Distinct(Filled(items, order)) && AllRows(t, Filled(items, order))
  {
    var r := Filled(items, order);
    FilledOrder(items, order);
    EnoughIffAll(t, items, order);
    LoadedDistinct(t, items);
    assert order[..|Cues(items)|] == order;
    forall x ensures x in r <==> HasRow(t, x) {
      match x
      case Cue(pos) =>
        CuesHas(r, pos);
        if pos in order { assert pos in t.cues; }
      case Header(gid) =>
        assert x in items <==> HasRow(t, x);
        if x in r { var i :| 0 <= i < |r| && r[i] == x; assert items[i].Header?; }
        if x in items { var i :| 0 <= i < |items| && items[i] == x; assert r[i] == x; }
    }
    FilledDistinct(items, r);
  }

  lemma FilledDistinct(items: seq<SheetItem>, r: seq<SheetItem>)
    requires Distinct(items) && |r| == |items| && Distinct(Cues(r))
    requires forall i :: 0 <= i < |items| ==> if items[i].Header? then r[i] == items[i] else r[i].Cue?
    ensures Distinct(r)
  {
    forall i, j | 0 <= i < j < |r| ensures r[i] != r[j] {
      if r[i].Header? && r[j].Header? {
        assert items[i].Header? && items[j].Header?;
      } else if r[i].Cue? && r[j].Cue? {
        CuesApart(r, i, j);
      }
    }
  }

  lemma {:induction false} CuesApart(r: seq<SheetItem>, i: nat, j: nat)
    requires i < j < |r| && r[i].Cue? && r[j].Cue? && Distinct(Cues(r))
    ensures r[i] != r[j]
  {
    var init := r[..|r| - 1];
    assert Distinct(Cues(init)) by {
      assert forall k :: 0 <= k < |Cues(init)| ==> Cues(init)[k] == Cues(r)[k];
    }
    if j < |r| - 1 {
      CuesApart(init, i, j);
    } else {
      assert init[i] == r[i];
      CuesHas(init, r[i].pos);
      forall k | 0 <= k < |Cues(init)| ensures Cues(init)[k] != r[j].pos {
        assert Cues(r)[k] == Cues(init)[k] && Cues(r)[|Cues(init)|] == r[j].pos;
      }
    }
  }

  // ------------------------------------------------------- the whole reorder

  /** What the checks say about an order, first fault first. */
  function Checked(t: Tables, order: seq<int>): Outcome {
    if |order| == 0 then NothingAsked
    else var init := order[..|order| - 1]; var pos := order[|order| - 1];
      var before := if |init| == 0 then NothingAsked else Checked(t, init);
      if before.UnknownCue? || before.DuplicateCue? then before
      else if pos !in t.cues then UnknownCue(pos)
      else if pos in init then DuplicateCue(pos)
      else NothingAsked
  }

  lemma {:induction false} CheckedProper(t: Tables, order: seq<int>)
    ensures Checked(t, order) == NothingAsked <==> Proper(t, order)
    ensures !Checked(t, order).IndexPanic? && !Checked(t, order).Reordered?
  {
    if |order| > 0 {
      CheckedProper(t, order[..|order| - 1]);
      assert order == order[..|order| - 1] + [order[|order| - 1]];
      if Proper(t, order) {
        assert Proper(t, order[..|order| - 1]);
      }
    }
  }

  /** The first fault decides: an unknown cue, or a cue named before. */
  lemma CheckedFault(t: Tables, order: seq<int>, i: nat)
    requires i < |order| && Proper(t, order[..i]) && !Proper(t, order[..i + 1])
    ensures order[i] !in t.cues || order[i] in order[..i]
    ensures Checked(t, order) == if order[i] !in t.cues then UnknownCue(order[i]) else DuplicateCue(order[i])
  {
    assert order[..i + 1][..i] == order[..i] && order[..i + 1] == order[..i] + [order[i]];
    CheckedProper(t, order[..i]);
    KeepsFault(t, order, i + 1);
  }

  function AllCues(items: seq<SheetItem>): set<int> {
    set pos | pos in Cues(items)
  }

  /** Every row has the index of its place, a whole multiple of the step. */
  ghost predicate OnPlaces(t: Tables, items: seq<SheetItem>) {
    forall i :: 0 <= i < |items| ==> HasRow(t, items[i]) && IndexOf(t, items[i]) == i as real * STEP
  }

  /** The tables after a complete reorder: new indexes, then healed memberships. */
  ghost predicate ReorderedTo(t: Tables, items: seq<SheetItem>, order: seq<int>, r: Tables)
    requires |Cues(items)| <= |order|
  {
    var out := Filled(items, order);
    && Loaded(r, out) && OnPlaces(r, out)
    && r.groups.Keys == t.groups.Keys
    && (forall gid :: gid in t.groups ==> r.groups[gid].parent == t.groups[gid].parent && r.groups[gid].collapse == t.groups[gid].collapse)
    && forall desc :: Heal.Descends(desc, t.groups) ==> ParentsOf(r) == Heal.Healed(out, ParentsOf(t), desc, AllCues(out))
  }

  method CheckOrder(db: Database, order: seq<int>) returns (v: Outcome)
    ensures v == Checked(db.State(), order)
  {
    for i := 0 to |order|
      invariant Checked(db.State(), order[..i]) == NothingAsked
    {
      assert order[..i + 1][..i] == order[..i];
      if order[i] !in db.cues {
        KeepsFault(db.State(), order, i + 1);
        return UnknownCue(order[i]);
      }
      if order[i] in order[..i] {
        KeepsFault(db.State(), order, i + 1);
        return DuplicateCue(order[i]);
      }
    }
    assert order[..|order|] == order;
    return NothingAsked;
  }

  lemma {:induction false} KeepsFault(t: Tables, order: seq<int>, i: nat)
    requires i <= |order| && (Checked(t, order[..i]).UnknownCue? || Checked(t, order[..i]).DuplicateCue?)
    ensures Checked(t, order) == Checked(t, order[..i])
    decreases |order|
  {
    if i == |order| {
      assert order[..i] == order;
    } else {
      var init := order[..|order| - 1];
      assert init[..i] == order[..i];
      KeepsFault(t, init, i);
      assert |init| > 0;
    }
  }

  /** The slot loop: stops where the given order has run out. */
  method FillSlots(items: seq<SheetItem>, order: seq<int>) returns (full: bool, out: seq<SheetItem>)
    ensures full <==> |Cues(items)| <= |order|
    ensures full ==> out == Filled(items, order)
  {
    out := [];
    var oi := 0;
    for i := 0 to |items|
      invariant oi == |Cues(items[..i])| <= |order|
      invariant out == Filled(items[..i], order)
    {
      assert items[..i + 1][..i] == items[..i];
      if items[i].Cue? {
        if oi >= |order| {
          CuesGrow(items, i + 1);
          return false, [];
        }
        out := out + [Cue(order[oi])];
        oi := oi + 1;
      } else {
        out := out + [items[i]];
      }
    }
    assert items[..|items|] == items;
    full := true;
  }

  lemma {:induction false} CuesGrow(items: seq<SheetItem>, i: nat)
    requires i <= |items|
    ensures |Cues(items[..i])| <= |Cues(items)|
    decreases |items|
  {
    if i < |items| {
      assert items[..|items| - 1][..i] == items[..i];
      CuesGrow(items[..|items| - 1], i);
    } else {
      assert items[..i] == items;
    }
  }

  lemma StoredParentsCover(t: Tables, items: seq<SheetItem>)
    requires AllRows(t, items)
    ensures CoversCues(items, ParentsOf(t))
  {
    forall i | 0 <= i < |items| && items[i].Cue? ensures items[i].pos in ParentsOf(t) {
      assert HasRow(t, items[i]);
    }
  }

  /** Healing moves no row: the sequence read afterwards is the same. */
  lemma HealedLoads(a: Tables, b: Tables, items: seq<SheetItem>)
    requires Loaded(a, items) && b.groups == a.groups && Heal.SameIndexes(a.cues, b.cues)
    ensures Loaded(b, items)
  {
    forall x ensures HasRow(a, x) <==> HasRow(b, x) {}
    forall x | HasRow(a, x) ensures IndexOf(a, x) == IndexOf(b, x) {}
    forall i, j | 0 <= i < j < |items| ensures Before(b, items[i], items[j]) {
      assert Before(a, items[i], items[j]);
    }
  }

  lemma HealedPlaces(a: Tables, b: Tables, items: seq<SheetItem>)
    requires OnPlaces(a, items) && b.groups == a.groups && Heal.SameIndexes(a.cues, b.cues)
    ensures OnPlaces(b, items)
  {
    forall x | HasRow(a, x) ensures HasRow(b, x) && IndexOf(a, x) == IndexOf(b, x) {}
  }

  /** ReorderCues up to the renumbering.  A full permutation is carried out; an
      unknown or repeated cue is refused before anything is written; an order that
      misses a cue runs past its end, nothing written. */
  method ReorderCues(db: Database, order: seq<int>) returns (v: Outcome)
    modifies db
    ensures var t := old(db.State()); forall items :: Loaded(t, items) ==>
      if !Proper(t, order) || order == [] then v == Checked(t, order) && db.State() == t
      else if |Cues(items)| > |order| then v == IndexPanic && db.State() == t
      else v == Reordered(Filled(items, order)) && ReorderedTo(t, items, order, db.State())
  {
    ghost var t := db.State();
    CheckedProper(t, order);
    if |order| == 0 { return NothingAsked; }
    v := CheckOrder(db, order);
    if v != NothingAsked { return; }
    var items := db.LoadSheetSequence();
    forall other | Loaded(t, other) ensures other == items { LoadedUnique(t, other, items); }
    var full, out := FillSlots(items, order);
    if !full { return IndexPanic; }
    Replace(db, items, order, out);
    return Reordered(out);
  }

  method Replace(db: Database, items: seq<SheetItem>, order: seq<int>, out: seq<SheetItem>)
    requires Loaded(db.State(), items) && Proper(db.State(), order)
    requires |Cues(items)| <= |order| && out == Filled(items, order)
    modifies db
    ensures ReorderedTo(old(db.State()), items, order, db.State())
  {
    ghost var t := db.State();
    FilledIsComplete(t, items, order);
    StoredParentsCover(t, out);
    var parents := db.StoredParents();
    var ok := db.ApplyOrder(out, parents);
    ghost var m := db.State();
    WrittenKeeps(t, out, parents);
    var scope := AllCues(out);
    Heal.HealSeparated(db, out, scope);
    ReplacedIs(t, items, order, m, db.State());
  }

  ghost predicate HealedFrom(m: Tables, out: seq<SheetItem>, r: Tables)
  {
    && r.groups == m.groups && Heal.SameIndexes(m.cues, r.cues)
    && forall desc :: Heal.Descends(desc, m.groups) ==> ParentsOf(r) == Heal.Healed(out, ParentsOf(m), desc, AllCues(out))
  }

  /** What the write before the healing leaves. */
  lemma ReplacedRows(t: Tables, items: seq<SheetItem>, order: seq<int>, m: Tables)
    requires Loaded(t, items) && Proper(t, order) && |Cues(items)| <= |order|
    requires m == Written(t, Filled(items, order), ParentsOf(t))
    ensures Loaded(m, Filled(items, order)) && ParentsOf(m) == ParentsOf(t) && m.groups.Keys == t.groups.Keys
    ensures OnPlaces(m, Filled(items, order))
    ensures forall gid :: gid in t.groups ==> m.groups[gid].parent == t.groups[gid].parent && m.groups[gid].collapse == t.groups[gid].collapse
  {
    var out := Filled(items, order);
    FilledIsComplete(t, items, order);
    StoredParentsCover(t, out);
    RoundTrip(t, out, ParentsOf(t));
    WrittenParents(t, out, ParentsOf(t));
    WrittenKeeps(t, out, ParentsOf(t));
    forall i | 0 <= i < |out| ensures HasRow(m, out[i]) && IndexOf(m, out[i]) == i as real * STEP {
      assert HasRow(t, out[i]);
      WrittenAt(t, out, ParentsOf(t), i);
    }
  }

  lemma ReplacedIs(t: Tables, items: seq<SheetItem>, order: seq<int>, m: Tables, r: Tables)
    requires Loaded(t, items) && Proper(t, order) && |Cues(items)| <= |order|
    requires m == Written(t, Filled(items, order), ParentsOf(t)) && HealedFrom(m, Filled(items, order), r)
    ensures ReorderedTo(t, items, order, r)
  {
    ReplacedRows(t, items, order, m);
    HealedLoads(m, r, Filled(items, order));
    HealedPlaces(m, r, Filled(items, order));
    forall desc | Heal.Descends(desc, t.groups) ensures Heal.Descends(desc, m.groups) {
      SameDescent(t.groups, m.groups, desc);
    }
  }

  /** Only the parents decide what is reached. */
  lemma SameReach(g: Groups, h: Groups, gid: int, below: set<int>)
    requires g.Keys == h.Keys && forall k :: k in g ==> g[k].parent == h[k].parent
    ensures GroupWalks.IsReach(g, gid, below) <==> GroupWalks.IsReach(h, gid, below)
  {
    forall t ensures GroupWalks.DownClosed(g, gid, t) <==> GroupWalks.DownClosed(h, gid, t) {}
  }

  lemma SameDescent(g: Groups, h: Groups, desc: Heal.Below)
    requires Heal.Descends(desc, g) && g.Keys == h.Keys && forall k :: k in g ==> g[k].parent == h[k].parent
    ensures Heal.Descends(desc, h)
  {
    forall gid | gid in h ensures GroupWalks.IsReach(h, gid, desc[gid]) {
      assert GroupWalks.IsReach(g, gid, desc[gid]);
      SameReach(g, h, gid, desc[gid]);
    }
  }

  // -------------------------------------------------------- the renumbering

  /** The cue table by permanent id lists the same cues as the tables by position. */
  ghost predicate SameCues(rows: Reindex.Rows, t: Tables) {
    && Reindex.Unique(rows)
    && (forall a :: a in rows ==> rows[a].pos in t.cues && rows[a].index == t.cues[rows[a].pos].index)
    && forall pos :: pos in t.cues ==> Reindex.Holds(rows, pos)
  }

  lemma {:induction false} CuesAscend(t: Tables, items: seq<SheetItem>, i: nat, j: nat)
    requires InLoadOrder(t, items) && i < j < |Cues(items)|
    ensures Cue(Cues(items)[i]) in items && Cue(Cues(items)[j]) in items
    ensures HasRow(t, Cue(Cues(items)[i])) && HasRow(t, Cue(Cues(items)[j]))
    ensures Before(t, Cue(Cues(items)[i]), Cue(Cues(items)[j]))
  {
    var init := items[..|items| - 1];
    assert items == init + [items[|items| - 1]];
    if j < |Cues(init)| {
      CuesAscend(t, init, i, j);
    } else {
      CuesHas(init, Cues(items)[i]);
      var m :| 0 <= m < |init| && init[m] == Cue(Cues(items)[i]);
      assert Before(t, items[m], items[|items| - 1]);
    }
  }

  /** Reading the cues by sheet_index gives the cues of the visual sequence. */
  lemma CuesAreVisual(rows: Reindex.Rows, t: Tables, items: seq<SheetItem>)
    requires Loaded(t, items) && SameCues(rows, t)
    ensures Reindex.VisualOrder(rows, Cues(items))
  {
    var order := Cues(items);
    LoadedDistinct(t, items);
    CuesDistinct(items);
    CueSlots(t, items);
    forall i | 0 <= i < |order| ensures Reindex.Holds(rows, order[i]) { assert order[i] in order; }
    forall a, b | a in rows && b in rows && Reindex.DrawnBefore(rows[a], rows[b])
      ensures Reindex.Rank(order, rows[a].pos) < Reindex.Rank(order, rows[b].pos)
    {
      var i, j := Reindex.Rank(order, rows[a].pos), Reindex.Rank(order, rows[b].pos);
      if j < i { CuesAscend(t, items, j, i); }
    }
  }

  /** After a complete reorder the cue that was order[i] is numbered i + 1. */
  lemma ReorderNumbers(t: Tables, items: seq<SheetItem>, order: seq<int>, r: Tables, rows: Reindex.Rows, a: int)
    requires Loaded(t, items) && Proper(t, order) && |Cues(items)| <= |order|
    requires ReorderedTo(t, items, order, r) && SameCues(rows, r) && a in rows
    ensures Reindex.VisualOrder(rows, order)
    ensures var n := Reindex.Renumbered(rows, order)[a].pos; 1 <= n <= |order| && order[n - 1] == rows[a].pos
  {
    FilledIsComplete(t, items, order);
    CuesAreVisual(rows, r, Filled(items, order));
  }

  // ------------------------------------------------ the indexes of the cues

  /** The indexes the cues of a written sequence have, in order. */
  function SeatsOf(items: seq<SheetItem>): (r: seq<real>)
    ensures |r| == |Cues(items)|
  {
    if |items| == 0 then []
    else match items[|items| - 1]
      case Cue(_) => SeatsOf(items[..|items| - 1]) + [(|items| - 1) as real * STEP]
      case Header(_) => SeatsOf(items[..|items| - 1])
  }

  lemma {:induction false} SeatsRise(items: seq<SheetItem>)
    ensures Reindex.Rising(SeatsOf(items))
    ensures forall k :: 0 <= k < |SeatsOf(items)| ==> SeatsOf(items)[k] < |items| as real * STEP
  {
    if |items| > 0 { SeatsRise(items[..|items| - 1]); }
  }

  lemma {:induction false} SeatAt(t: Tables, items: seq<SheetItem>, k: nat)
    requires OnPlaces(t, items) && k < |Cues(items)|
    ensures Cues(items)[k] in t.cues && t.cues[Cues(items)[k]].index == SeatsOf(items)[k]
  {
    var init := items[..|items| - 1];
    assert forall i :: 0 <= i < |init| ==> init[i] == items[i];
    if k < |Cues(init)| {
      SeatAt(t, init, k);
    } else {
      assert HasRow(t, items[|items| - 1]);
    }
  }

  /** A sequence filled with its own cues is itself: the reorder after a deletion moves
      nothing. */
  lemma {:induction false} FilledWithOwn(items: seq<SheetItem>, order: seq<int>)
    requires Cues(items) <= order
    ensures Filled(items, order) == items
  {
    if |items| > 0 {
      var init := items[..|items| - 1];
      assert items == init + [items[|items| - 1]];
      FilledWithOwn(init, order);
      if items[|items| - 1].Cue? { assert order[|Cues(items)| - 1] == Cues(items)[|Cues(items)| - 1]; }
    }
  }

  /** The cue table by permanent id after such a reorder: the same cues at the same
      numbers, with the indexes of their places. */
  lemma ReorderReseats(t: Tables, items: seq<SheetItem>, r: Tables, rows: Reindex.Rows, after: Reindex.Rows)
    requires Loaded(t, items) && SameCues(rows, t) && SameCues(after, r) && after.Keys == rows.Keys
    requires forall a :: a in rows ==> after[a].pos == rows[a].pos
    requires ReorderedTo(t, items, Cues(items), r)
    ensures Reindex.VisualOrder(rows, Cues(items)) && Reindex.Rising(SeatsOf(items))
    ensures after == Reindex.Reseated(rows, Cues(items), SeatsOf(items))
  {
    var order := Cues(items);
    CuesAreVisual(rows, t, items);
    SeatsRise(items);
    FilledWithOwn(items, order);
    forall a | a in rows ensures after[a].index == SeatsOf(items)[Reindex.Rank(order, rows[a].pos)] {
      var k := Reindex.Rank(order, rows[a].pos);
      assert order[k] == rows[a].pos;
      SeatAt(r, items, k);
    }
    Reindex.SameRows(after, Reindex.Reseated(rows, order, SeatsOf(items)));
  }
}
