/** SortSheetByCueNumber whole (ctp/numbering.go): the sheet and the memberships are
    read, the rows sorted, and the new order written. */
module SortDb {
  import opened PreOrder
  import opened SheetStore
  import opened SheetDb
  import SortMeaning
  import SortSheet
  import SortSpec
  import SortTies
  import SortTwice

  /** order is what the sort makes of the rows: each of them once on any tables, the
      sorted walk on a sound sheet. */
  ghost predicate SortedOrder(s: Sheet, d: map<int, nat>, own: SortSpec.OwnKeys, order: seq<SheetItem>) {
    && multiset(order) == multiset(s.items)
    && (SortSpec.Good(s, d) && Complete(s) && NoDangling(s) ==> order == SortSpec.Walk(s, d, own, 0))
  }

  lemma SortedCovers(t: Tables, items: seq<SheetItem>, order: seq<SheetItem>)
    requires Loaded(t, items) && multiset(order) == multiset(items)
    ensures AllRows(t, order) && CoversCues(order, ParentsOf(t))
  {
    forall x ensures x in order <==> x in items {
      assert x in order <==> x in multiset(order);
      assert x in items <==> x in multiset(items);
    }
    forall i | 0 <= i < |order| && order[i].Cue? ensures order[i].pos in ParentsOf(t) {
      assert order[i] in order;
      assert HasRow(t, order[i]);
    }
  }

  /** On a sound sheet, of two rows of one group the one whose number must come first is
      above the other in what is read afterwards. */
  lemma OrderReadUpwards(s: Sheet, d: map<int, nat>, own: SortSpec.OwnKeys, order: seq<SheetItem>, a: SheetItem, b: SheetItem)
    requires SortedOrder(s, d, own, order) && SortTwice.Ready(s, d)
    requires a in s.items && b in s.items && Scope(s, a) == Scope(s, b) && SortMeaning.RanksAbove(s, d, own, a, b)
    ensures SortTies.Precedes(order, a, b)
  {
    SortMeaning.SortedUpwards(s, d, own, a, b);
  }

  /** It always writes, and what is read afterwards is the sorted order under the
      memberships there were. */
  method SortSheetByCueNumber(db: Database, own: SortSpec.OwnKeys, ghost d: map<int, nat>) returns (ok: bool, ghost order: seq<SheetItem>)
    modifies db
    ensures ok
    ensures forall items :: Loaded(old(db.State()), items) ==> SortedOrder(SheetOf(old(db.State()), items), d, own, order)
    ensures db.State() == Written(old(db.State()), order, ParentsOf(old(db.State())))
    ensures Loaded(db.State(), order) && ParentsOf(db.State()) == ParentsOf(old(db.State()))
  {
    ghost var t := db.State();
    var items := db.LoadSheetSequence();
    forall other | Loaded(t, other) ensures other == items { LoadedUnique(t, other, items); }
    LoadedDistinct(t, items);
    var parents := db.StoredParents();
    var s := Sheet(items, parents, db.groups);
    var kids := SortSheet.CollectKids(s);
    var sorter := new SortSheet.SheetSorter(s, own, kids, d);
    var out := sorter.Run();
    SortedCovers(t, items, out);
    ok := db.ApplyOrder(out, parents);
    RoundTrip(t, out, parents);
    WrittenParents(t, out, parents);
    order := out;
  }
}
