/** SortSheetByCueNumber (ctp/numbering.go): what it computes, and why the result
    is a pre-order permutation of the sheet with siblings in key order. */
module SortSpec {
  import opened Util
  import opened Forest
  import opened PreOrder
  import opened SortKeys
  import Flatten

  /** The key of each row's own number; a row without one reads as blank. */
  type OwnKeys = map<SheetItem, SortKey>

  function OwnKey(own: OwnKeys, item: SheetItem): SortKey {
    if item in own then own[item] else Blank
  }

  /** The rows of list whose direct scope this is, in order. */
  function Among(s: Sheet, list: seq<SheetItem>, scope: int): (r: seq<SheetItem>)
    ensures forall i :: 0 <= i < |r| ==> r[i] in list && Scope(s, r[i]) == scope
  {
    if |list| == 0 then []
    else (if Scope(s, list[0]) == scope then [list[0]] else []) + Among(s, list[1..], scope)
  }

  function Kids(s: Sheet, scope: int): seq<SheetItem> {
    Among(s, s.items, scope)
  }

  ghost predicate Known(s: Sheet, list: seq<SheetItem>) {
    forall i :: 0 <= i < |list| && list[i].Header? ==> list[i].gid in s.groups
  }

  ghost predicate Good(s: Sheet, d: map<int, nat>) {
    Depths(s.groups, d) && Known(s, s.items)
  }

  ghost predicate Children(s: Sheet, list: seq<SheetItem>, scope: int) {
    Known(s, list) && forall i :: 0 <= i < |list| ==> Scope(s, list[i]) == scope
  }

  /** How much of the tree can still be below a scope. */
  ghost function Room(s: Sheet, d: map<int, nat>, scope: int): nat
    requires Depths(s.groups, d)
  {
    if scope in s.groups then
      DepthBound(s.groups, d, scope);
      |s.groups| - d[scope]
    else |s.groups| + 1
  }

  lemma RoomShrinks(s: Sheet, d: map<int, nat>, gid: int)
    requires Depths(s.groups, d) && gid in s.groups
    ensures 0 < Room(s, d, gid) < Room(s, d, s.groups[gid].parent)
  {
    DepthBound(s.groups, d, gid);
  }

  lemma KidsKnown(s: Sheet, d: map<int, nat>, scope: int)
    requires Good(s, d)
    ensures Children(s, Kids(s, scope), scope)
  {
    var kids := Kids(s, scope);
    forall i | 0 <= i < |kids| && kids[i].Header?
      ensures kids[i].gid in s.groups
    {
      assert kids[i] in s.items;
    }
  }

  /** A row's effective key: its own, or for an unnumbered header the least key
      inside it. */
  ghost function KeyOf(s: Sheet, d: map<int, nat>, own: OwnKeys, item: SheetItem): SortKey
    requires Good(s, d) && (item.Header? ==> item.gid in s.groups)
    decreases if item.Header? then Room(s, d, item.gid) else 0, 1, 0
  {
    match item
    case Cue(_) => OwnKey(own, item)
    case Header(gid) =>
      if OwnKey(own, item) != Blank then OwnKey(own, item)
      else
        KidsKnown(s, d, gid);
        LeastKey(s, d, own, gid, Kids(s, gid))
  }

  ghost function LeastKey(s: Sheet, d: map<int, nat>, own: OwnKeys, gid: int, list: seq<SheetItem>): SortKey
    requires Good(s, d) && gid in s.groups && Children(s, list, gid)
    decreases Room(s, d, gid), 0, |list|
  {
    if |list| == 0 then Blank
    else
      var item := list[|list| - 1];
      var k := LeastKey(s, d, own, gid, list[..|list| - 1]);
      RoomShrinks(s, d, gid);
      var ck := (if item.Header? then RoomShrinks(s, d, item.gid); KeyOf(s, d, own, item) else KeyOf(s, d, own, item));
      if Less(ck, k) then ck else k
  }

  ghost function KeyTable(s: Sheet, d: map<int, nat>, own: OwnKeys): (t: map<SheetItem, SortKey>)
    requires Good(s, d)
  {
    map item | item in s.items :: KeyOf(s, d, own, item)
  }

  /** The children of a scope in sorted order. */
  ghost function Ranked(s: Sheet, d: map<int, nat>, own: OwnKeys, scope: int): (r: seq<SheetItem>)
    requires Good(s, d)
    ensures Children(s, r, scope)
    ensures multiset(r) == multiset(Kids(s, scope))
  {
    var kids := Kids(s, scope);
    assert Keyed(kids, KeyTable(s, d, own)) by {
      forall i | 0 <= i < |kids| ensures kids[i] in s.items {}
    }
    KidsKnown(s, d, scope);
    var r := StableSort(kids, KeyTable(s, d, own));
    SameRows(s, r, kids, scope);
    r
  }

  lemma SameRows(s: Sheet, a: seq<SheetItem>, b: seq<SheetItem>, scope: int)
    requires multiset(a) == multiset(b) && Children(s, b, scope)
    ensures Children(s, a, scope)
  {
    forall i | 0 <= i < |a|
      ensures (a[i].Header? ==> a[i].gid in s.groups) && Scope(s, a[i]) == scope
    {
      assert a[i] in multiset(b);
    }
  }

  /** The pre-order walk from a scope. */
  ghost function Walk(s: Sheet, d: map<int, nat>, own: OwnKeys, scope: int): seq<SheetItem>
    requires Good(s, d)
    decreases Room(s, d, scope), 1, 0
  {
    Emit(s, d, own, scope, Ranked(s, d, own, scope))
  }

  ghost function Emit(s: Sheet, d: map<int, nat>, own: OwnKeys, scope: int, list: seq<SheetItem>): (r: seq<SheetItem>)
    requires Good(s, d) && Children(s, list, scope)
    decreases Room(s, d, scope), 0, |list|
  {
    if |list| == 0 then []
    else Emit(s, d, own, scope, list[..|list| - 1]) + Block1(s, d, own, scope, list[|list| - 1])
  }

  /** One row with everything inside it. */
  ghost function Block1(s: Sheet, d: map<int, nat>, own: OwnKeys, scope: int, item: SheetItem): (r: seq<SheetItem>)
    requires Good(s, d) && (item.Header? ==> item.gid in s.groups) && Scope(s, item) == scope
    ensures |r| > 0 && r[0] == item
    decreases Room(s, d, scope), 0, 0
  {
    match item
    case Cue(_) => [item]
    case Header(gid) =>
      RoomShrinks(s, d, gid);
      [item] + Walk(s, d, own, gid)
  }

  /** The sheet after the sort: order replaced, membership and groups untouched. */
  ghost function Sorted(s: Sheet, d: map<int, nat>, own: OwnKeys): Sheet
    requires Good(s, d)
  {
    s.(items := Walk(s, d, own, 0))
  }

  // ------------------------------------------------------------ permutation

  /** item sits somewhere inside scope; everything sits inside top level. */
  ghost predicate Under(s: Sheet, d: map<int, nat>, item: SheetItem, scope: int)
    requires Depths(s.groups, d)
  {
    scope == 0 || Inside(s, d, item, scope)
  }

  lemma {:induction false} EmitIsBlocks(s: Sheet, d: map<int, nat>, own: OwnKeys, scope: int, list: seq<SheetItem>, item: SheetItem)
    requires Good(s, d) && Children(s, list, scope)
    ensures item in Emit(s, d, own, scope, list)
       <==> exists i :: 0 <= i < |list| && item in Block1(s, d, own, scope, list[i])
    decreases |list|
  {
    if |list| > 0 {
      EmitIsBlocks(s, d, own, scope, list[..|list| - 1], item);
      if item in Emit(s, d, own, scope, list[..|list| - 1]) {
        var i :| 0 <= i < |list| - 1 && item in Block1(s, d, own, scope, list[..|list| - 1][i]);
        assert item in Block1(s, d, own, scope, list[i]);
      }
      if i :| 0 <= i < |list| - 1 && item in Block1(s, d, own, scope, list[i]) {
        assert list[..|list| - 1][i] == list[i];
      }
    }
  }

  lemma {:induction false} AmongComplete(s: Sheet, list: seq<SheetItem>, scope: int, item: SheetItem)
    ensures item in Among(s, list, scope) <==> item in list && Scope(s, item) == scope
  {
    if |list| > 0 {
      AmongComplete(s, list[1..], scope, item);
      assert list == [list[0]] + list[1..];
    }
  }

  lemma RankedHas(s: Sheet, d: map<int, nat>, own: OwnKeys, scope: int, item: SheetItem)
    requires Good(s, d)
    ensures item in Ranked(s, d, own, scope) <==> item in s.items && Scope(s, item) == scope
  {
    AmongComplete(s, s.items, scope, item);
    assert item in Ranked(s, d, own, scope) <==> item in multiset(Kids(s, scope));
  }

  /** Nothing is emitted under a scope that does not sit inside it. */
  lemma {:induction false} WalkSound(s: Sheet, d: map<int, nat>, own: OwnKeys, scope: int, item: SheetItem)
    requires Good(s, d) && (scope == 0 || scope in s.groups)
    requires item in Walk(s, d, own, scope)
    ensures item in s.items && Under(s, d, item, scope)
    decreases Room(s, d, scope), 1
  {
    var list := Ranked(s, d, own, scope);
    EmitIsBlocks(s, d, own, scope, list, item);
    var i :| 0 <= i < |list| && item in Block1(s, d, own, scope, list[i]);
    RankedHas(s, d, own, scope, list[i]);
    BlockSound(s, d, own, scope, list[i], item);
  }

  lemma {:induction false} BlockSound(s: Sheet, d: map<int, nat>, own: OwnKeys, scope: int, head: SheetItem, item: SheetItem)
    requires Good(s, d) && (scope == 0 || scope in s.groups) && (head.Header? ==> head.gid in s.groups)
    requires head in s.items && Scope(s, head) == scope && item in Block1(s, d, own, scope, head)
    ensures item in s.items && Under(s, d, item, scope)
    ensures item == head || (head.Header? && Inside(s, d, item, head.gid))
    decreases Room(s, d, scope), 0
  {
    if item != head {
      RoomShrinks(s, d, head.gid);
      assert item in Walk(s, d, own, head.gid);
      WalkSound(s, d, own, head.gid, item);
      if scope != 0 {
        assert Within(s.groups, d, head.gid, scope);
        WithinTransitive(s.groups, d, Scope(s, item), head.gid, scope);
      }
    } else if scope != 0 {
      assert Within(s.groups, d, scope, scope);
    }
  }

  /** The child of scope that p lies in, or the root p lies in. */
  lemma {:induction false} StepTowards(s: Sheet, d: map<int, nat>, p: int, scope: int) returns (ch: int)
    requires Depths(s.groups, d) && p in s.groups && p != scope
    requires scope == 0 || Within(s.groups, d, p, scope)
    ensures ch in s.groups && s.groups[ch].parent == scope && Within(s.groups, d, p, ch)
    decreases d[p]
  {
    if s.groups[p].parent == scope {
      ch := p;
    } else {
      ch := StepTowards(s, d, s.groups[p].parent, scope);
    }
  }

  /** Everything that sits inside a scope is emitted under it. */
  lemma {:induction false} WalkComplete(s: Sheet, d: map<int, nat>, own: OwnKeys, scope: int, item: SheetItem)
    requires Good(s, d) && Complete(s) && NoDangling(s) && (scope == 0 || scope in s.groups)
    requires item in s.items && Under(s, d, item, scope)
    ensures item in Walk(s, d, own, scope)
    decreases Room(s, d, scope)
  {
    var list := Ranked(s, d, own, scope);
    var p := Scope(s, item);
    ScopeExists(s, d, item);
    var head := item;
    if p != scope {
      var ch := StepTowards(s, d, p, scope);
      head := Header(ch);
      assert head in s.items;
      RoomShrinks(s, d, ch);
      WalkComplete(s, d, own, ch, item);
    }
    RankedHas(s, d, own, scope, head);
    var i :| 0 <= i < |list| && list[i] == head;
    assert item in Block1(s, d, own, scope, list[i]);
    EmitIsBlocks(s, d, own, scope, list, item);
  }

  /** Two rows with the same scope have nothing in common below them. */
  lemma BlocksApart(s: Sheet, d: map<int, nat>, own: OwnKeys, scope: int, a: SheetItem, b: SheetItem, item: SheetItem)
    requires Good(s, d) && (scope == 0 || scope in s.groups) && a != b && a in s.items && b in s.items
    requires (a.Header? ==> a.gid in s.groups) && (b.Header? ==> b.gid in s.groups)
    requires Scope(s, a) == scope && Scope(s, b) == scope
    requires item in Block1(s, d, own, scope, a)
    ensures item !in Block1(s, d, own, scope, b)
  {
    if item in Block1(s, d, own, scope, b) {
      BlockSound(s, d, own, scope, a, item);
      BlockSound(s, d, own, scope, b, item);
      if item == a {
        WithinDepth(s.groups, d, scope, b.gid);
      } else if item == b {
        WithinDepth(s.groups, d, scope, a.gid);
      } else {
        WithinLinear(s.groups, d, Scope(s, item), a.gid, b.gid);
        WithinDepth(s.groups, d, b.gid, a.gid);
      }
      assert false;
    }
  }

  lemma {:induction false} AmongDistinct(s: Sheet, list: seq<SheetItem>, scope: int)
    requires Distinct(list)
    ensures Distinct(Among(s, list, scope))
  {
    if |list| > 0 {
      AmongDistinct(s, list[1..], scope);
      AmongComplete(s, list[1..], scope, list[0]);
    }
  }

  lemma SameMultisetDistinct<T>(a: seq<T>, b: seq<T>)
    requires multiset(a) == multiset(b) && Distinct(b)
    ensures Distinct(a)
  {
    forall i, j | 0 <= i < j < |a|
      ensures a[i] != a[j]
    {
      if a[i] == a[j] {
        assert a == a[..i] + [a[i]] + a[i + 1..j] + [a[j]] + a[j + 1..];
        assert multiset(a)[a[i]] >= 2;
        DistinctCount(b, a[i]);
      }
    }
  }

  lemma {:induction false} DistinctCount<T>(b: seq<T>, x: T)
    requires Distinct(b)
    ensures multiset(b)[x] <= 1
  {
    if |b| > 0 {
      DistinctCount(b[1..], x);
      assert b == [b[0]] + b[1..];
    }
  }

  lemma {:induction false} EmitDistinct(s: Sheet, d: map<int, nat>, own: OwnKeys, scope: int, list: seq<SheetItem>)
    requires Good(s, d) && Distinct(s.items) && (scope == 0 || scope in s.groups)
    requires Children(s, list, scope) && Distinct(list) && forall i :: 0 <= i < |list| ==> list[i] in s.items
    ensures Distinct(Emit(s, d, own, scope, list))
    decreases Room(s, d, scope), 0, |list|
  {
    if |list| > 0 {
      var init, last := list[..|list| - 1], list[|list| - 1];
      EmitDistinct(s, d, own, scope, init);
      BlockDistinct(s, d, own, scope, last);
      forall item | item in Emit(s, d, own, scope, init)
        ensures item !in Block1(s, d, own, scope, last)
      {
        EmitIsBlocks(s, d, own, scope, init, item);
        var i :| 0 <= i < |init| && item in Block1(s, d, own, scope, init[i]);
        BlocksApart(s, d, own, scope, list[i], last, item);
      }
      DistinctAppend(Emit(s, d, own, scope, init), Block1(s, d, own, scope, last));
    }
  }

  lemma {:induction false} BlockDistinct(s: Sheet, d: map<int, nat>, own: OwnKeys, scope: int, head: SheetItem)
    requires Good(s, d) && Distinct(s.items) && (scope == 0 || scope in s.groups)
    requires head in s.items && (head.Header? ==> head.gid in s.groups) && Scope(s, head) == scope
    ensures Distinct(Block1(s, d, own, scope, head))
    decreases Room(s, d, scope), 0, 0
  {
    if head.Header? {
      RoomShrinks(s, d, head.gid);
      WalkDistinct(s, d, own, head.gid);
      if head in Walk(s, d, own, head.gid) {
        WalkSound(s, d, own, head.gid, head);
        WithinDepth(s.groups, d, Scope(s, head), head.gid);
      }
      DistinctAppend([head], Walk(s, d, own, head.gid));
    }
  }

  lemma {:induction false} WalkDistinct(s: Sheet, d: map<int, nat>, own: OwnKeys, scope: int)
    requires Good(s, d) && Distinct(s.items) && (scope == 0 || scope in s.groups)
    ensures Distinct(Walk(s, d, own, scope))
    decreases Room(s, d, scope), 1, 0
  {
    var list := Ranked(s, d, own, scope);
    AmongDistinct(s, s.items, scope);
    SameMultisetDistinct(list, Kids(s, scope));
    forall i | 0 <= i < |list| ensures list[i] in s.items { RankedHas(s, d, own, scope, list[i]); }
    EmitDistinct(s, d, own, scope, list);
  }

  lemma {:induction false} SameElements<T>(a: seq<T>, b: seq<T>)
    requires Distinct(a) && Distinct(b) && forall x :: x in a <==> x in b
    ensures multiset(a) == multiset(b)
  {
    forall x ensures multiset(a)[x] == multiset(b)[x] {
      DistinctCount(a, x);
      DistinctCount(b, x);
      assert x in a <==> multiset(a)[x] > 0;
      assert x in b <==> multiset(b)[x] > 0;
    }
  }

  /** The sort neither loses nor repeats a row. */
  lemma SortIsPermutation(s: Sheet, d: map<int, nat>, own: OwnKeys)
    requires Good(s, d) && Complete(s) && NoDangling(s)
    ensures Distinct(Walk(s, d, own, 0))
    ensures multiset(Walk(s, d, own, 0)) == multiset(s.items)
    ensures Complete(Sorted(s, d, own)) && NoDangling(Sorted(s, d, own)) && Good(Sorted(s, d, own), d)
  {
    WalkDistinct(s, d, own, 0);
    forall item ensures item in Walk(s, d, own, 0) <==> item in s.items {
      if item in s.items { WalkComplete(s, d, own, 0, item); }
      if item in Walk(s, d, own, 0) { WalkSound(s, d, own, 0, item); }
    }
    SameElements(Walk(s, d, own, 0), s.items);
    var t := Sorted(s, d, own);
    forall i | 0 <= i < |t.items| && t.items[i].Header?
      ensures t.items[i].gid in s.groups
    {
      assert t.items[i] in s.items;
    }
  }

  // -------------------------------------------------------------- pre-order

  /** list may follow an open group, row by row (the form of Nested). */
  ghost predicate ChainFrom(s: Sheet, d: map<int, nat>, list: seq<SheetItem>, open: int)
    requires Depths(s.groups, d)
  {
    |list| == 0 || (Follows(s, d, list[0], open) && ChainFrom(s, d, list[1..], OpenAfter(s, list[0])))
  }

  function OpenEnd(s: Sheet, list: seq<SheetItem>, open: int): int {
    if |list| == 0 then open else OpenAfter(s, list[|list| - 1])
  }

  lemma {:induction false} ChainAppend(s: Sheet, d: map<int, nat>, a: seq<SheetItem>, b: seq<SheetItem>, open: int)
    requires Depths(s.groups, d) && ChainFrom(s, d, a, open) && ChainFrom(s, d, b, OpenEnd(s, a, open))
    ensures ChainFrom(s, d, a + b, open)
  {
    if |a| == 0 {
      assert a + b == b;
    } else {
      ChainAppend(s, d, a[1..], b, OpenAfter(s, a[0]));
      assert (a + b)[1..] == a[1..] + b;
    }
  }

  ghost predicate OpenWithin(s: Sheet, d: map<int, nat>, open: int, scope: int)
    requires Depths(s.groups, d)
  {
    scope == 0 || Within(s.groups, d, open, scope)
  }

  lemma {:induction false} EmitChain(s: Sheet, d: map<int, nat>, own: OwnKeys, scope: int, list: seq<SheetItem>, open: int)
    requires Good(s, d) && Children(s, list, scope) && (scope == 0 || scope in s.groups) && OpenWithin(s, d, open, scope)
    ensures ChainFrom(s, d, Emit(s, d, own, scope, list), open)
    ensures OpenWithin(s, d, OpenEnd(s, Emit(s, d, own, scope, list), open), scope)
    decreases Room(s, d, scope), 0, |list|
  {
    if |list| > 0 {
      var init, last := list[..|list| - 1], list[|list| - 1];
      EmitChain(s, d, own, scope, init, open);
      var mid := OpenEnd(s, Emit(s, d, own, scope, init), open);
      BlockChain(s, d, own, scope, last, mid);
      ChainAppend(s, d, Emit(s, d, own, scope, init), Block1(s, d, own, scope, last), open);
      var both := Emit(s, d, own, scope, init) + Block1(s, d, own, scope, last);
      assert both[|both| - 1] == Block1(s, d, own, scope, last)[|Block1(s, d, own, scope, last)| - 1];
    }
  }

  lemma {:induction false} BlockChain(s: Sheet, d: map<int, nat>, own: OwnKeys, scope: int, head: SheetItem, open: int)
    requires Good(s, d) && (head.Header? ==> head.gid in s.groups) && Scope(s, head) == scope
    requires (scope == 0 || scope in s.groups) && OpenWithin(s, d, open, scope)
    ensures ChainFrom(s, d, Block1(s, d, own, scope, head), open)
    ensures OpenWithin(s, d, OpenEnd(s, Block1(s, d, own, scope, head), open), scope)
    decreases Room(s, d, scope), 0, 0
  {
    match head
    case Cue(_) =>
      if scope != 0 { assert Within(s.groups, d, scope, scope); }
    case Header(gid) =>
      RoomShrinks(s, d, gid);
      assert Within(s.groups, d, gid, gid);
      EmitChain(s, d, own, gid, Ranked(s, d, own, gid), gid);
      var walk := Walk(s, d, own, gid);
      assert Block1(s, d, own, scope, head)[1..] == walk;
      var end := OpenEnd(s, walk, gid);
      if scope != 0 {
        assert Within(s.groups, d, gid, scope);
        WithinTransitive(s.groups, d, end, gid, scope);
      }
  }

  /** The chain form of a whole sequence is Nested. */
  lemma {:induction false} ChainIsNested(s: Sheet, d: map<int, nat>, k: nat)
    requires Depths(s.groups, d) && ChainFrom(s, d, s.items, 0) && k <= |s.items|
    ensures ChainFrom(s, d, s.items[k..], OpenAt(s, k))
    ensures forall m :: 0 <= m < k ==> FollowsAt(s, d, m)
  {
    if k == 0 {
      assert s.items[0..] == s.items;
    } else {
      ChainIsNested(s, d, k - 1);
      assert s.items[k - 1..][1..] == s.items[k..];
    }
  }

  lemma {:induction false} ChainSame(s: Sheet, t: Sheet, d: map<int, nat>, list: seq<SheetItem>, open: int)
    requires Depths(s.groups, d) && t.parents == s.parents && t.groups == s.groups && ChainFrom(s, d, list, open)
    ensures ChainFrom(t, d, list, open)
  {
    if |list| > 0 {
      ChainSame(s, t, d, list[1..], OpenAfter(s, list[0]));
    }
  }

  /** After the sort every header is directly followed by its whole group. */
  lemma SortIsPreOrder(s: Sheet, d: map<int, nat>, own: OwnKeys)
    requires Good(s, d) && Complete(s) && NoDangling(s)
    ensures IsPreOrder(Sorted(s, d, own), d)
  {
    SortIsPermutation(s, d, own);
    EmitChain(s, d, own, 0, Ranked(s, d, own, 0), 0);
    var t := Sorted(s, d, own);
    ChainSame(s, t, d, t.items, 0);
    ChainIsNested(t, d, |t.items|);
    NestedIsPreOrder(t, d);
  }

  /** So afterwards FlattenSheet draws every visible row in its own group, and no
      member as a stray. */
  lemma SortedSheetDrawsExactly(s: Sheet, d: map<int, nat>, own: OwnKeys)
    requires Good(s, d) && Complete(s) && NoDangling(s)
    ensures var t := Sorted(s, d, own);
      Flatten.HeadersKnown(t) && Flatten.Render(t, d, |t.items|).rows == Flatten.Expected(t, d, |t.items|)
  {
    SortIsPreOrder(s, d, own);
    Flatten.FlattenIsExact(Sorted(s, d, own), d);
  }

  // ------------------------------------------------------- siblings in order

  lemma {:induction false} AmongAppend(s: Sheet, a: seq<SheetItem>, b: seq<SheetItem>, scope: int)
    ensures Among(s, a + b, scope) == Among(s, a, scope) + Among(s, b, scope)
  {
    if |a| == 0 {
      assert a + b == b;
    } else {
      AmongAppend(s, a[1..], b, scope);
      TailOfAppend(a, b);
      var first := if Scope(s, a[0]) == scope then [a[0]] else [];
      Assoc(first, Among(s, a[1..], scope), Among(s, b, scope));
    }
  }

  lemma {:induction false} AmongNone(s: Sheet, list: seq<SheetItem>, scope: int)
    requires forall item :: item in list ==> Scope(s, item) != scope
    ensures Among(s, list, scope) == []
  {
    if |list| > 0 {
      AmongNone(s, list[1..], scope);
    }
  }

  lemma {:induction false} AmongAll(s: Sheet, list: seq<SheetItem>, scope: int)
    requires forall i :: 0 <= i < |list| ==> Scope(s, list[i]) == scope
    ensures Among(s, list, scope) == list
  {
    if |list| > 0 {
      AmongAll(s, list[1..], scope);
    }
  }

  /** Among the rows emitted under a scope, its own children are the list. */
  lemma {:induction false} EmitOwnLevel(s: Sheet, d: map<int, nat>, own: OwnKeys, scope: int, list: seq<SheetItem>)
    requires Good(s, d) && Children(s, list, scope) && (scope == 0 || scope in s.groups)
    requires forall i :: 0 <= i < |list| ==> list[i] in s.items
    ensures Among(s, Emit(s, d, own, scope, list), scope) == list
    decreases |list|
  {
    if |list| > 0 {
      var init, last := list[..|list| - 1], list[|list| - 1];
      EmitOwnLevel(s, d, own, scope, init);
      BlockOwnLevel(s, d, own, scope, last);
      AmongJoin(s, Emit(s, d, own, scope, init), Block1(s, d, own, scope, last), scope, list);
    }
  }

  lemma AmongJoin(s: Sheet, a: seq<SheetItem>, b: seq<SheetItem>, scope: int, list: seq<SheetItem>)
    requires |list| > 0 && Among(s, a, scope) == list[..|list| - 1] && Among(s, b, scope) == [list[|list| - 1]]
    ensures Among(s, a + b, scope) == list
  {
    AmongAppend(s, a, b, scope);
  }

  lemma BlockOwnLevel(s: Sheet, d: map<int, nat>, own: OwnKeys, scope: int, head: SheetItem)
    requires Good(s, d) && (head.Header? ==> head.gid in s.groups) && Scope(s, head) == scope
    ensures Among(s, Block1(s, d, own, scope, head), scope) == [head]
  {
    AmongAll(s, [head], scope);
    if head.Header? {
      var walk := Walk(s, d, own, head.gid);
      forall item | item in walk
        ensures Scope(s, item) != scope
      {
        WalkSound(s, d, own, head.gid, item);
        WithinDepth(s.groups, d, Scope(s, item), head.gid);
      }
      AmongNone(s, walk, scope);
      AmongAppend(s, [head], walk, scope);
    }
  }

  /** x lies in a group whose header is in list. */
  ghost predicate LeadsTo(s: Sheet, d: map<int, nat>, list: seq<SheetItem>, x: int)
    requires Depths(s.groups, d)
  {
    exists ch :: Header(ch) in list && Within(s.groups, d, x, ch)
  }

  lemma LeadsSnoc(s: Sheet, d: map<int, nat>, init: seq<SheetItem>, last: SheetItem, x: int)
    requires Depths(s.groups, d)
    ensures LeadsTo(s, d, init + [last], x) <==> LeadsTo(s, d, init, x) || (last.Header? && Within(s.groups, d, x, last.gid))
  {
    if last.Header? && Within(s.groups, d, x, last.gid) { assert Header(last.gid) in init + [last]; }
    if LeadsTo(s, d, init, x) {
      var ch :| Header(ch) in init && Within(s.groups, d, x, ch);
      assert Header(ch) in init + [last];
    }
  }

  /** Below another child of the scope there is nothing of x. */
  lemma {:induction false} EmitDeeper(s: Sheet, d: map<int, nat>, own: OwnKeys, scope: int, list: seq<SheetItem>, x: int)
    requires Good(s, d) && Children(s, list, scope) && (scope == 0 || scope in s.groups) && Distinct(list)
    requires x in s.groups && x != scope
    requires forall ch :: Header(ch) in list && Within(s.groups, d, x, ch) ==>
        Among(s, Walk(s, d, own, ch), x) == Ranked(s, d, own, x)
    ensures Among(s, Emit(s, d, own, scope, list), x) == if LeadsTo(s, d, list, x) then Ranked(s, d, own, x) else []
    decreases |list|
  {
    if |list| > 0 {
      var init, last := list[..|list| - 1], list[|list| - 1];
      SplitLast(list);
      EmitDeeper(s, d, own, scope, init, x);
      AmongAppend(s, Emit(s, d, own, scope, init), Block1(s, d, own, scope, last), x);
      AmongBlock(s, d, own, scope, last, x);
      LeadsSnoc(s, d, init, last, x);
      if last.Header? && Within(s.groups, d, x, last.gid) {
        OneChildOnly(s, d, init, last.gid, scope, x);
        assert last in list;
      }
    }
  }

  /** In one block: the rows of x below its header, if x is there. */
  lemma AmongBlock(s: Sheet, d: map<int, nat>, own: OwnKeys, scope: int, last: SheetItem, x: int)
    requires Good(s, d) && (last.Header? ==> last.gid in s.groups) && Scope(s, last) == scope && x in s.groups && x != scope
    ensures Among(s, Block1(s, d, own, scope, last), x) ==
      if last.Header? && Within(s.groups, d, x, last.gid) then Among(s, Walk(s, d, own, last.gid), x) else []
  {
    if last.Header? {
      AmongAppend(s, [last], Walk(s, d, own, last.gid), x);
      if !Within(s.groups, d, x, last.gid) { NothingBelow(s, d, own, last.gid, x); }
    }
  }

  lemma NothingBelow(s: Sheet, d: map<int, nat>, own: OwnKeys, gid: int, x: int)
    requires Good(s, d) && gid in s.groups && x in s.groups && !Within(s.groups, d, x, gid)
    ensures Among(s, Walk(s, d, own, gid), x) == []
  {
    forall item | item in Walk(s, d, own, gid)
      ensures Scope(s, item) != x
    {
      WalkSound(s, d, own, gid, item);
    }
    AmongNone(s, Walk(s, d, own, gid), x);
  }

  lemma OneChildOnly(s: Sheet, d: map<int, nat>, init: seq<SheetItem>, gid: int, scope: int, x: int)
    requires Depths(s.groups, d) && Children(s, init, scope) && gid in s.groups && s.groups[gid].parent == scope
    requires Within(s.groups, d, x, gid) && Header(gid) !in init
    ensures !LeadsTo(s, d, init, x)
  {
    forall ch | Header(ch) in init && Within(s.groups, d, x, ch)
      ensures false
    {
      var i :| 0 <= i < |init| && init[i] == Header(ch);
      WithinLinear(s.groups, d, x, ch, gid);
      WithinDepth(s.groups, d, gid, ch);
    }
  }

  /** Among everything emitted under a scope, the children of any scope inside it
      are exactly its ranked children. */
  lemma {:induction false} WalkLevel(s: Sheet, d: map<int, nat>, own: OwnKeys, scope: int, x: int)
    requires Good(s, d) && Complete(s) && (scope == 0 || scope in s.groups)
    requires x == scope || (x in s.groups && (scope == 0 || Within(s.groups, d, x, scope)))
    ensures Among(s, Walk(s, d, own, scope), x) == Ranked(s, d, own, x)
    decreases Room(s, d, scope)
  {
    var list := Ranked(s, d, own, scope);
    forall i | 0 <= i < |list| ensures list[i] in s.items { RankedHas(s, d, own, scope, list[i]); }
    if x == scope {
      EmitOwnLevel(s, d, own, scope, list);
    } else {
      forall ch | Header(ch) in list && Within(s.groups, d, x, ch)
        ensures Among(s, Walk(s, d, own, ch), x) == Ranked(s, d, own, x)
      {
        RankedHas(s, d, own, scope, Header(ch));
        assert Header(ch) in s.items;
        RoomShrinks(s, d, ch);
        WalkLevel(s, d, own, ch, x);
      }
      AmongDistinct(s, s.items, scope);
      SameMultisetDistinct(list, Kids(s, scope));
      EmitDeeper(s, d, own, scope, list, x);
      var ch := StepTowards(s, d, x, scope);
      RankedHas(s, d, own, scope, Header(ch));
      assert Header(ch) in s.items;
    }
  }

  lemma {:induction false} AmongSame(s: Sheet, t: Sheet, list: seq<SheetItem>, x: int)
    requires t.parents == s.parents && t.groups == s.groups
    ensures Among(t, list, x) == Among(s, list, x)
  {
    if |list| > 0 {
      AmongSame(s, t, list[1..], x);
    }
  }

  /** In the sorted sheet the rows of every scope, read top to bottom, are its
      former rows in stable key order. */
  lemma SortedSiblings(s: Sheet, d: map<int, nat>, own: OwnKeys, x: int)
    requires Good(s, d) && Complete(s) && NoDangling(s) && (x == 0 || x in s.groups)
    ensures Kids(Sorted(s, d, own), x) == Ranked(s, d, own, x)
  {
    WalkLevel(s, d, own, 0, x);
    AmongSame(s, Sorted(s, d, own), Walk(s, d, own, 0), x);
  }
}
