/** Sorting a sorted sheet changes nothing (ctp/numbering.go), and siblings end up
    in stable key order. */
module SortTwice {
  import opened PreOrder
  import opened SortKeys
  import opened SortTies
  import opened SortSpec

  ghost predicate Ready(s: Sheet, d: map<int, nat>) {
    Good(s, d) && Complete(s) && NoDangling(s)
  }

  // ---------------------------------------------- the least key of a group

  /** key gives every row of list its effective key. */
  ghost predicate Keys(s: Sheet, d: map<int, nat>, own: OwnKeys, list: seq<SheetItem>, key: map<SheetItem, SortKey>)
    requires Good(s, d) && Known(s, list)
  {
    forall i :: 0 <= i < |list| ==> list[i] in key && key[list[i]] == KeyOf(s, d, own, list[i])
  }

  lemma {:induction false} LeastKeyIs(s: Sheet, d: map<int, nat>, own: OwnKeys, gid: int, list: seq<SheetItem>,
                                       key: map<SheetItem, SortKey>)
    requires Good(s, d) && gid in s.groups && Children(s, list, gid) && Keys(s, d, own, list, key)
    ensures Keyed(list, key) && LeastKey(s, d, own, gid, list) == LeastOf(list, key)
    decreases |list|
  {
    if |list| > 0 {
      LeastKeyIs(s, d, own, gid, list[..|list| - 1], key);
      RoomShrinks(s, d, gid);
    }
  }

  lemma TableKeys(s: Sheet, d: map<int, nat>, own: OwnKeys, scope: int)
    requires Good(s, d)
    ensures Children(s, Kids(s, scope), scope) && Keys(s, d, own, Kids(s, scope), KeyTable(s, d, own))
    ensures Keyed(Kids(s, scope), KeyTable(s, d, own))
  {
    KidsKnown(s, d, scope);
    var kids := Kids(s, scope);
    forall i | 0 <= i < |kids| ensures kids[i] in s.items {}
  }

  /** An unnumbered header takes a key that one of its rows has, and that none of them
      is below; blank when none of them is numbered. */
  lemma LeastKeyIsLeast(s: Sheet, d: map<int, nat>, own: OwnKeys, gid: int)
    requires Good(s, d) && gid in s.groups && OwnKey(own, Header(gid)) == Blank
    ensures Keyed(Kids(s, gid), KeyTable(s, d, own))
    ensures IsLeast(Kids(s, gid), KeyTable(s, d, own), KeyOf(s, d, own, Header(gid)))
  {
    TableKeys(s, d, own, gid);
    LeastKeyIs(s, d, own, gid, Kids(s, gid), KeyTable(s, d, own));
    LeastOfIsLeast(Kids(s, gid), KeyTable(s, d, own));
  }

  // ----------------------------------------------------- keys do not change

  lemma SortedKids(s: Sheet, d: map<int, nat>, own: OwnKeys, gid: int)
    requires Ready(s, d) && gid in s.groups
    ensures Keyed(Kids(s, gid), KeyTable(s, d, own)) && Keyed(Kids(Sorted(s, d, own), gid), KeyTable(s, d, own))
    ensures LeastOf(Kids(Sorted(s, d, own), gid), KeyTable(s, d, own)) == LeastOf(Kids(s, gid), KeyTable(s, d, own))
  {
    TableKeys(s, d, own, gid);
    SortedSiblings(s, d, own, gid);
    LeastOfSort(Kids(s, gid), KeyTable(s, d, own));
  }

  /** With the rows below it at the same keys, a header's key is the same. */
  lemma HeaderKeySame(s: Sheet, d: map<int, nat>, own: OwnKeys, gid: int)
    requires Ready(s, d) && Good(Sorted(s, d, own), d) && gid in s.groups
    requires Children(Sorted(s, d, own), Kids(Sorted(s, d, own), gid), gid)
    requires Keys(Sorted(s, d, own), d, own, Kids(Sorted(s, d, own), gid), KeyTable(s, d, own))
    ensures KeyOf(Sorted(s, d, own), d, own, Header(gid)) == KeyOf(s, d, own, Header(gid))
  {
    var t := Sorted(s, d, own);
    TableKeys(s, d, own, gid);
    LeastKeyIs(s, d, own, gid, Kids(s, gid), KeyTable(s, d, own));
    LeastKeyIs(t, d, own, gid, Kids(t, gid), KeyTable(s, d, own));
    SortedKids(s, d, own, gid);
  }

  lemma KidsOfSorted(s: Sheet, d: map<int, nat>, own: OwnKeys, gid: int, item: SheetItem)
    requires Ready(s, d) && gid in s.groups && item in Kids(Sorted(s, d, own), gid)
    ensures item in s.items && (item.Header? ==> item.gid in s.groups && 0 < Room(s, d, item.gid) < Room(s, d, gid))
  {
    SortedSiblings(s, d, own, gid);
    SameMembers(Kids(s, gid), Kids(Sorted(s, d, own), gid));
    assert item in s.items;
    if item.Header? { RoomShrinks(s, d, item.gid); }
  }

  lemma KeysFrom(s: Sheet, d: map<int, nat>, own: OwnKeys, list: seq<SheetItem>)
    requires Good(s, d) && Good(Sorted(s, d, own), d) && Known(Sorted(s, d, own), list)
    requires forall i :: 0 <= i < |list| ==> list[i] in s.items
    requires forall i :: 0 <= i < |list| && list[i].Header? ==>
      KeyOf(Sorted(s, d, own), d, own, list[i]) == KeyOf(s, d, own, list[i])
    ensures Keys(Sorted(s, d, own), d, own, list, KeyTable(s, d, own))
  {
  }

  lemma {:induction false} LeastSame(s: Sheet, d: map<int, nat>, own: OwnKeys, gid: int)
    requires Ready(s, d) && Good(Sorted(s, d, own), d) && gid in s.groups
    ensures KeyOf(Sorted(s, d, own), d, own, Header(gid)) == KeyOf(s, d, own, Header(gid))
    decreases Room(s, d, gid), 0
  {
    var t := Sorted(s, d, own);
    KidsKnown(t, d, gid);
    var kids := Kids(t, gid);
    forall i | 0 <= i < |kids|
      ensures kids[i] in s.items && (kids[i].Header? ==> KeyOf(t, d, own, kids[i]) == KeyOf(s, d, own, kids[i]))
    {
      KidsOfSorted(s, d, own, gid, kids[i]);
      if kids[i].Header? { LeastSame(s, d, own, kids[i].gid); }
    }
    KeysFrom(s, d, own, kids);
    HeaderKeySame(s, d, own, gid);
  }

  lemma SameMembers<T>(a: seq<T>, b: seq<T>)
    requires multiset(a) == multiset(b)
    ensures forall x :: x in a <==> x in b
  {
    forall x ensures x in a <==> x in b {
      assert x in a <==> x in multiset(a);
      assert x in b <==> x in multiset(b);
    }
  }

  lemma KeySame(s: Sheet, d: map<int, nat>, own: OwnKeys, item: SheetItem)
    requires Ready(s, d) && Good(Sorted(s, d, own), d)
    requires item in s.items && item in Walk(s, d, own, 0)
    ensures KeyTable(Sorted(s, d, own), d, own)[item] == KeyTable(s, d, own)[item]
  {
    if item.Header? {
      LeastSame(s, d, own, item.gid);
    }
  }

  lemma TablesEqual(s: Sheet, t: Sheet, d: map<int, nat>, own: OwnKeys)
    requires Good(s, d) && Good(t, d) && (forall item :: item in t.items <==> item in s.items)
    requires forall item :: item in s.items ==> KeyTable(t, d, own)[item] == KeyTable(s, d, own)[item]
    ensures KeyTable(t, d, own) == KeyTable(s, d, own)
  {
    assert KeyTable(t, d, own).Keys == KeyTable(s, d, own).Keys;
  }

  lemma TableSame(s: Sheet, d: map<int, nat>, own: OwnKeys)
    requires Ready(s, d)
    ensures Good(Sorted(s, d, own), d)
    ensures KeyTable(Sorted(s, d, own), d, own) == KeyTable(s, d, own)
  {
    SortIsPermutation(s, d, own);
    SameMembers(Sorted(s, d, own).items, s.items);
    forall item | item in s.items
      ensures KeyTable(Sorted(s, d, own), d, own)[item] == KeyTable(s, d, own)[item]
    {
      KeySame(s, d, own, item);
    }
    TablesEqual(s, Sorted(s, d, own), d, own);
  }

  /** The rows of a scope in the sorted sheet are in key order, and rows that tie keep
      the order they had, when they compare: no NaN among them, or no two different
      numbers beside it.  Whatever the numbers, no row is less than the one above it. */
  lemma SiblingsInKeyOrder(s: Sheet, d: map<int, nat>, own: OwnKeys, x: int)
    requires Ready(s, d) && (x == 0 || x in s.groups)
    ensures var keys := KeyTable(s, d, own); var t := Sorted(s, d, own);
      && Keyed(Kids(s, x), keys) && Keyed(Kids(t, x), keys) && Settled(Kids(t, x), keys)
      && (Comparable(Kids(s, x), keys) ==> InOrder(Kids(t, x), keys))
      && (Comparable(Kids(s, x), keys) ==>
           forall y :: y in Kids(s, x) ==> TiedWith(Kids(t, x), keys, keys[y]) == TiedWith(Kids(s, x), keys, keys[y]))
  {
    TableKeys(s, d, own, x);
    SortedSiblings(s, d, own, x);
    SortSettles(Kids(s, x), KeyTable(s, d, own));
    if Comparable(Kids(s, x), KeyTable(s, d, own)) { ComparableSorts(Kids(s, x), KeyTable(s, d, own)); }
  }

  lemma RankedSame(s: Sheet, d: map<int, nat>, own: OwnKeys, x: int)
    requires Ready(s, d) && (x == 0 || x in s.groups)
    ensures Good(Sorted(s, d, own), d)
    ensures Ranked(Sorted(s, d, own), d, own, x) == Ranked(s, d, own, x)
  {
    TableSame(s, d, own);
    SiblingsInKeyOrder(s, d, own, x);
    SortedSiblings(s, d, own, x);
    SortedIsFixed(Ranked(s, d, own, x), KeyTable(s, d, own));
  }

  lemma {:induction false} EmitSame(s: Sheet, d: map<int, nat>, own: OwnKeys, scope: int, list: seq<SheetItem>)
    requires Ready(s, d) && Good(Sorted(s, d, own), d) && (scope == 0 || scope in s.groups)
    requires Children(s, list, scope) && Children(Sorted(s, d, own), list, scope)
    ensures Emit(Sorted(s, d, own), d, own, scope, list) == Emit(s, d, own, scope, list)
    decreases Room(s, d, scope), 0, |list|
  {
    if |list| > 0 {
      EmitSame(s, d, own, scope, list[..|list| - 1]);
      var last := list[|list| - 1];
      if last.Header? {
        RoomShrinks(s, d, last.gid);
        WalkSame(s, d, own, last.gid);
      }
    }
  }

  lemma {:induction false} WalkSame(s: Sheet, d: map<int, nat>, own: OwnKeys, scope: int)
    requires Ready(s, d) && Good(Sorted(s, d, own), d) && (scope == 0 || scope in s.groups)
    ensures Walk(Sorted(s, d, own), d, own, scope) == Walk(s, d, own, scope)
    decreases Room(s, d, scope), 1, 0
  {
    RankedSame(s, d, own, scope);
    EmitSame(s, d, own, scope, Ranked(s, d, own, scope));
  }

  /** Sorting again changes nothing, whatever the numbers. */
  lemma SortTwiceIsOnce(s: Sheet, d: map<int, nat>, own: OwnKeys)
    requires Ready(s, d)
    ensures Good(Sorted(s, d, own), d)
    ensures Sorted(Sorted(s, d, own), d, own) == Sorted(s, d, own)
  {
    TableSame(s, d, own);
    WalkSame(s, d, own, 0);
  }
}
