/** SortSheetByCueNumber as the program runs it (ctp/numbering.go): a memoised key
    recursion with a depth guard, a walk with a seen set and a depth guard, and a
    final sweep for rows the walk did not reach.  On any tables the rows written
    are a permutation of the rows read; on a sound sheet they are SortSpec.Walk. */
module SortSheet {
  import opened Util
  import opened Forest
  import opened PreOrder
  import opened SortKeys
  import opened SortTies
  import opened SortSpec

  function KidsIn(kids: map<int, seq<SheetItem>>, scope: int): seq<SheetItem> {
    if scope in kids then kids[scope] else []
  }

  ghost predicate KidsTable(s: Sheet, kids: map<int, seq<SheetItem>>, n: nat)
    requires n <= |s.items|
  {
    forall scope :: KidsIn(kids, scope) == Among(s, s.items[..n], scope)
  }

  lemma AmongSnoc(s: Sheet, i: nat, x: int)
    requires i < |s.items|
    ensures Among(s, s.items[..i + 1], x) == Among(s, s.items[..i], x) + (if Scope(s, s.items[i]) == x then [s.items[i]] else [])
  {
    TakeSnoc(s.items, i);
    AmongAppend(s, s.items[..i], [s.items[i]], x);
  }

  /** One pass over the rows, each put after those already in its scope. */
  method CollectKids(s: Sheet) returns (kids: map<int, seq<SheetItem>>)
    ensures forall scope :: KidsIn(kids, scope) == Kids(s, scope)
  {
    kids := map[];
    for i := 0 to |s.items|
      invariant KidsTable(s, kids, i)
    {
      var scope := Scope(s, s.items[i]);
      ghost var was := kids;
      kids := kids[scope := KidsIn(kids, scope) + [s.items[i]]];
      forall x ensures KidsIn(kids, x) == Among(s, s.items[..i + 1], x) {
        assert KidsIn(was, x) == Among(s, s.items[..i], x);
        AmongSnoc(s, i, x);
      }
    }
    assert s.items[..|s.items|] == s.items;
  }

  ghost predicate RightKeys(s: Sheet, d: map<int, nat>, own: OwnKeys, keys: map<SheetItem, SortKey>)
    requires Good(s, d)
  {
    forall it :: it in keys ==> (it.Header? ==> it.gid in s.groups) && keys[it] == SortSpec.KeyOf(s, d, own, it)
  }

  lemma NextLeast(s: Sheet, d: map<int, nat>, own: OwnKeys, gid: int, list: seq<SheetItem>, i: nat)
    requires Good(s, d) && gid in s.groups && Children(s, list, gid) && i < |list|
    requires list[i].Header? ==> list[i].gid in s.groups
    ensures Children(s, list[..i], gid) && Children(s, list[..i + 1], gid)
    ensures var ck := SortSpec.KeyOf(s, d, own, list[i]); var k := LeastKey(s, d, own, gid, list[..i]);
      LeastKey(s, d, own, gid, list[..i + 1]) == if Less(ck, k) then ck else k
  {
    TakeSnoc(list, i);
  }

  class SheetSorter {
    const s: Sheet
    const own: OwnKeys
    const kids: map<int, seq<SheetItem>>
    ghost const d: map<int, nat>
    var keys: map<SheetItem, SortKey>
    var seen: set<SheetItem>
    var out: seq<SheetItem>

    ghost predicate Wired() {
      Distinct(s.items) && forall scope :: KidsIn(kids, scope) == Kids(s, scope)
    }

    /** Every remembered key is the right one. */
    ghost predicate Memo()
      reads this`keys
    {
      Good(s, d) ==> RightKeys(s, d, own, keys)
    }

    /** out lists the rows seen, each once, and only rows of the sheet. */
    ghost predicate Tracked()
      reads this`seen, this`out
    {
      && Distinct(out)
      && (forall x :: x in seen <==> x in out)
      && (forall x :: x in out ==> x in s.items)
    }

    constructor (s: Sheet, own: OwnKeys, kids: map<int, seq<SheetItem>>, ghost d: map<int, nat>)
      requires Distinct(s.items) && forall scope :: KidsIn(kids, scope) == Kids(s, scope)
      ensures this.s == s && this.own == own && this.d == d && this.kids == kids
      ensures Wired() && Memo() && Tracked() && out == []
    {
      this.s, this.own, this.kids, this.d := s, own, kids, d;
      keys, seen, out := map[], {}, [];
    }

    /** A known header at most as deep in the recursion as in the tree: the guard
        cannot cut it off. */
    ghost predicate InReach(it: SheetItem, depth: nat) {
      Good(s, d) ==> it.Header? ==> it.gid in s.groups && depth <= d[it.gid]
    }

    method KeyOf(it: SheetItem, depth: nat) returns (k: SortKey)
      requires Wired() && Memo() && InReach(it, depth) && depth <= |s.groups| + 1
      modifies this`keys
      ensures Memo()
      ensures Good(s, d) ==> k == SortSpec.KeyOf(s, d, own, it)
      decreases |s.groups| + 1 - depth, 1
    {
      if it in keys {
        return keys[it];
      }
      k := OwnKey(own, it);
      if it.Header? && k == Blank && depth <= |s.groups| {
        k := LeastIn(it.gid, depth);
      }
      if Good(s, d) && it.Header? {
        DepthBound(s.groups, d, it.gid);
      }
      keys := keys[it := k];
    }

    /** The loop over a header's children inside keyOf. */
    method LeastIn(gid: int, depth: nat) returns (k: SortKey)
      requires Wired() && Memo() && InReach(Header(gid), depth) && depth <= |s.groups|
      modifies this`keys
      ensures Memo()
      ensures Good(s, d) ==> Children(s, Kids(s, gid), gid) && k == LeastKey(s, d, own, gid, Kids(s, gid))
      decreases |s.groups| + 1 - depth, 0
    {
      k := Blank;
      var list := KidsIn(kids, gid);
      if Good(s, d) {
        KidsKnown(s, d, gid);
      }
      for i := 0 to |list|
        invariant Memo()
        invariant Good(s, d) ==> k == LeastKey(s, d, own, gid, list[..i])
      {
        KidInReach(gid, list, i, depth);
        k := LeastWith(gid, list, i, k, depth);
      }
      assert list[..|list|] == list;
    }

    lemma KidInReach(gid: int, list: seq<SheetItem>, i: nat, depth: nat)
      requires Good(s, d) ==> Children(s, list, gid)
      requires InReach(Header(gid), depth) && i < |list|
      ensures InReach(list[i], depth + 1)
    {
    }

    /** One child more. */
    method LeastWith(gid: int, list: seq<SheetItem>, i: nat, k0: SortKey, depth: nat) returns (k: SortKey)
      requires Wired() && Memo() && depth <= |s.groups| && i < |list| && InReach(list[i], depth + 1)
      requires Good(s, d) ==> gid in s.groups && Children(s, list, gid) && k0 == LeastKey(s, d, own, gid, list[..i])
      modifies this`keys
      ensures Memo()
      ensures Good(s, d) ==> Children(s, list[..i + 1], gid) && k == LeastKey(s, d, own, gid, list[..i + 1])
      decreases |s.groups| + 1 - (depth + 1), 2
    {
      k := k0;
      var ck := KeyOf(list[i], depth + 1);
      if Good(s, d) { NextLeast(s, d, own, gid, list, i); }
      if Less(ck, k) {
        k := ck;
      }
    }

    /** The keys the comparison asks for, all at recursion depth 0. */
    method RankKeys(list: seq<SheetItem>) returns (rank: map<SheetItem, SortKey>)
      requires Wired() && Memo() && (Good(s, d) ==> Known(s, list))
      modifies this`keys
      ensures Memo()
      ensures Keyed(list, rank)
      ensures Good(s, d) ==> RightKeys(s, d, own, rank)
    {
      rank := map[];
      for i := 0 to |list|
        invariant Memo()
        invariant forall j :: 0 <= j < i ==> list[j] in rank
        invariant Good(s, d) ==> RightKeys(s, d, own, rank)
      {
        var k := KeyOf(list[i], 0);
        rank := rank[list[i] := k];
      }
    }

    /** The stable sort of one scope's rows. */
    method SortRows(scope: int) returns (list: seq<SheetItem>)
      requires Wired() && Memo()
      modifies this`keys
      ensures Memo()
      ensures multiset(list) == multiset(Kids(s, scope))
      ensures Good(s, d) ==> list == Ranked(s, d, own, scope)
    {
      var rows := KidsIn(kids, scope);
      if Good(s, d) {
        KidsKnown(s, d, scope);
      }
      var rank := RankKeys(rows);
      list := SortByRank(rows, rank);
      if Good(s, d) {
        RankIsTable(s, d, own, rows, rank);
      }
    }

    /** A sound sheet, at a recursion depth that matches the tree. */
    ghost predicate Sound(scope: int, depth: nat) {
      && Good(s, d)
      && Complete(s)
      && NoDangling(s)
      && (if scope == 0 then depth == 0 else scope in s.groups && depth == d[scope] + 1)
    }

    /** The depth of the recursion fits a header exactly when it fits its scope. */
    lemma SoundBelow(scope: int, it: SheetItem, depth: nat)
      requires it.Header? && it in s.items && Scope(s, it) == scope
      ensures Sound(it.gid, depth + 1) <==> Sound(scope, depth)
    {
      if Good(s, d) && Complete(s) {
        assert it.gid in s.groups;
        assert d[it.gid] >= 0;
      }
    }

    method Walk(scope: int, depth: nat)
      requires Wired() && Memo() && Tracked() && depth <= |s.groups| + 1
      requires Sound(scope, depth) ==> Unseen(SortSpec.Walk(s, d, own, scope), out)
      modifies this
      ensures Memo() && Tracked() && old(out) <= out
      ensures Sound(scope, depth) ==> out == old(out) + SortSpec.Walk(s, d, own, scope)
      decreases |s.groups| + 1 - depth, 5
    {
      var list := SortRows(scope);
      WalkRows(scope, list, depth);
    }

    /** The walk's loop over the sorted rows of one scope. */
    method WalkRows(scope: int, list: seq<SheetItem>, depth: nat)
      requires Wired() && Memo() && Tracked() && depth <= |s.groups| + 1
      requires multiset(list) == multiset(Kids(s, scope))
      requires Sound(scope, depth) ==> list == Ranked(s, d, own, scope) && Unseen(SortSpec.Walk(s, d, own, scope), out)
      modifies this
      ensures Memo() && Tracked() && old(out) <= out
      ensures Sound(scope, depth) ==> out == old(out) + SortSpec.Walk(s, d, own, scope)
      decreases |s.groups| + 1 - depth, 4
    {
      ghost var start := out;
      for i := 0 to |list|
        invariant Memo() && Tracked() && start <= out
        invariant Sound(scope, depth) ==> out == start + Emit(s, d, own, scope, list[..i])
      {
        WalkRow(scope, list, i, depth, start);
      }
      assert list[..|list|] == list;
    }

    /** Row i of that loop. */
    method WalkRow(scope: int, list: seq<SheetItem>, i: nat, depth: nat, ghost start: seq<SheetItem>)
      requires Wired() && Memo() && Tracked() && depth <= |s.groups| + 1 && i < |list|
      requires multiset(list) == multiset(Kids(s, scope))
      requires Sound(scope, depth) ==>
          list == Ranked(s, d, own, scope) && Unseen(SortSpec.Walk(s, d, own, scope), start) && Children(s, list[..i], scope)
          && out == start + Emit(s, d, own, scope, list[..i])
      modifies this
      ensures Memo() && Tracked() && old(out) <= out
      ensures Sound(scope, depth) ==> Children(s, list[..i + 1], scope) && out == start + Emit(s, d, own, scope, list[..i + 1])
      decreases |s.groups| + 1 - depth, 3
    {
      KidAt(s, scope, list, i);
      if Sound(scope, depth) {
        NotYet(s, d, own, scope, i, start);
        EmitSnoc(s, d, own, scope, list, i, start);
      }
      Visit(scope, list[i], depth);
    }

    method Append(it: SheetItem)
      requires Tracked() && it !in seen && it in s.items
      modifies this`seen, this`out
      ensures Tracked() && out == old(out) + [it]
    {
      DistinctAppend(out, [it]);
      seen := seen + {it};
      out := out + [it];
    }

    /** One row of the walk's loop. */
    method Visit(scope: int, it: SheetItem, depth: nat)
      requires Wired() && Memo() && Tracked() && depth <= |s.groups| + 1
      requires it in s.items && Scope(s, it) == scope
      requires Sound(scope, depth) ==> Unseen(Block1(s, d, own, scope, it), out)
      modifies this
      ensures Memo() && Tracked() && old(out) <= out
      ensures Sound(scope, depth) ==> out == old(out) + Block1(s, d, own, scope, it)
      decreases |s.groups| + 1 - depth, 2
    {
      if Sound(scope, depth) {
        VisitFirst(s, d, own, scope, it, out);
      }
      if it in seen {
        return;
      }
      VisitNew(scope, it, depth);
    }

    method VisitNew(scope: int, it: SheetItem, depth: nat)
      requires Wired() && Memo() && Tracked() && depth <= |s.groups| + 1
      requires it in s.items && Scope(s, it) == scope && it !in seen
      requires Sound(scope, depth) && it.Header? ==>
          it.gid in s.groups && depth <= |s.groups| && Unseen(SortSpec.Walk(s, d, own, it.gid), out + [it])
      modifies this
      ensures Memo() && Tracked() && old(out) <= out
      ensures Sound(scope, depth) ==> out == old(out) + Block1(s, d, own, scope, it)
      decreases |s.groups| + 1 - depth, 1
    {
      Append(it);
      if it.Header? {
        Below(scope, it, depth);
      }
      if Sound(scope, depth) {
        BlockIs(s, d, own, scope, it, old(out));
      }
    }

    /** The recursion into a header's own rows, cut off by the depth guard. */
    method Below(scope: int, it: SheetItem, depth: nat)
      requires Wired() && Memo() && Tracked() && depth <= |s.groups| + 1
      requires it.Header? && it in s.items && Scope(s, it) == scope
      requires Sound(scope, depth) ==>
          it.gid in s.groups && depth <= |s.groups| && Unseen(SortSpec.Walk(s, d, own, it.gid), out)
      modifies this
      ensures Memo() && Tracked() && old(out) <= out
      ensures Sound(scope, depth) ==> out == old(out) + SortSpec.Walk(s, d, own, it.gid)
      decreases |s.groups| + 1 - depth, 0
    {
      if depth > |s.groups| { return; }
      ghost var sound := Sound(scope, depth);
      assert Sound(it.gid, depth + 1) == sound by { SoundBelow(scope, it, depth); }
      Walk(it.gid, depth + 1);
    }

    /** The whole function, up to applyOrder. */
    method Run() returns (order: seq<SheetItem>)
      requires Wired() && Memo() && Tracked() && out == []
      modifies this
      ensures Distinct(order) && multiset(order) == multiset(s.items)
      ensures Good(s, d) && Complete(s) && NoDangling(s) ==> order == SortSpec.Walk(s, d, own, 0)
    {
      if Sound(0, 0) {
        WalkDistinct(s, d, own, 0);
      }
      Walk(0, 0);
      order := AppendUnseen(s.items, seen, out);
      if Sound(0, 0) {
        assert out == SortSpec.Walk(s, d, own, 0);
        SortIsPermutation(s, d, own);
        SameLength(order, s.items, SortSpec.Walk(s, d, own, 0));
      }
    }
  }

  ghost predicate Unseen(rows: seq<SheetItem>, out: seq<SheetItem>) {
    Distinct(rows) && forall x :: x in rows ==> x !in out
  }

  lemma KidAt(s: Sheet, scope: int, list: seq<SheetItem>, i: nat)
    requires multiset(list) == multiset(Kids(s, scope)) && i < |list|
    ensures list[i] in s.items && Scope(s, list[i]) == scope
  {
    assert list[i] in multiset(list);
    assert list[i] in Kids(s, scope);
  }

  lemma BlockIs(s: Sheet, d: map<int, nat>, own: OwnKeys, scope: int, it: SheetItem, out: seq<SheetItem>)
    requires Good(s, d) && Scope(s, it) == scope && (it.Header? ==> it.gid in s.groups)
    ensures it.Cue? ==> out + Block1(s, d, own, scope, it) == out + [it]
    ensures it.Header? ==> out + Block1(s, d, own, scope, it) == (out + [it]) + SortSpec.Walk(s, d, own, it.gid)
  {
    if it.Header? {
      assert Block1(s, d, own, scope, it) == [it] + SortSpec.Walk(s, d, own, it.gid);
      Assoc(out, [it], SortSpec.Walk(s, d, own, it.gid));
    }
  }

  lemma TailUnseen(it: SheetItem, walk: seq<SheetItem>, out: seq<SheetItem>)
    requires Unseen([it] + walk, out)
    ensures it !in out && Unseen(walk, out + [it])
  {
    var block := [it] + walk;
    assert block[0] == it;
    forall p, q | 0 <= p < q < |walk| ensures walk[p] != walk[q] {
      assert walk[p] == block[p + 1] && walk[q] == block[q + 1];
    }
    forall x | x in walk ensures x !in out + [it] {
      var p :| 0 <= p < |walk| && walk[p] == x;
      assert block[p + 1] == x && x in block;
    }
  }

  lemma VisitFirst(s: Sheet, d: map<int, nat>, own: OwnKeys, scope: int, it: SheetItem, out: seq<SheetItem>)
    requires Good(s, d) && it in s.items && Scope(s, it) == scope
    requires it.Header? ==> it.gid in s.groups
    requires Unseen(Block1(s, d, own, scope, it), out)
    ensures it !in out
    ensures it.Header? ==> Unseen(SortSpec.Walk(s, d, own, it.gid), out + [it])
    ensures it.Header? ==> d[it.gid] < |s.groups| && d[it.gid] == if scope in s.groups then d[scope] + 1 else 0
  {
    if it.Header? {
      assert Block1(s, d, own, scope, it) == [it] + SortSpec.Walk(s, d, own, it.gid);
      TailUnseen(it, SortSpec.Walk(s, d, own, it.gid), out);
      DepthBound(s.groups, d, it.gid);
    } else {
      assert Block1(s, d, own, scope, it) == [it] + [];
      TailUnseen(it, [], out);
    }
  }

  /** The final sweep: rows the walk did not reach keep their order at the end. */
  method AppendUnseen(items: seq<SheetItem>, seen: set<SheetItem>, out: seq<SheetItem>) returns (order: seq<SheetItem>)
    requires Distinct(items) && Distinct(out)
    requires forall x :: x in seen <==> x in out
    requires forall x :: x in out ==> x in items
    ensures out <= order && Distinct(order) && multiset(order) == multiset(items)
  {
    order := out;
    for i := 0 to |items|
      invariant Distinct(order) && out <= order
      invariant forall x :: x in out ==> x in order
      invariant forall x :: x in order ==> x in out || x in items[..i]
      invariant forall k :: 0 <= k < i ==> items[k] in order
    {
      if items[i] !in seen {
        assert items[i] !in items[..i];
        DistinctAppend(order, [items[i]]);
        order := order + [items[i]];
      }
    }
    SameElements(order, items);
  }

  method SortByRank(rows: seq<SheetItem>, rank: map<SheetItem, SortKey>) returns (list: seq<SheetItem>)
    requires Keyed(rows, rank)
    ensures list == StableSort(rows, rank)
  {
    list := [];
    for i := 0 to |rows|
      invariant Keyed(rows[..i], rank) && list == StableSort(rows[..i], rank)
    {
      assert rows[..i + 1][..i] == rows[..i];
      list := InsertRow(list, rows[i], rank);
    }
    assert rows[..|rows|] == rows;
  }

  lemma RankIsTable(s: Sheet, d: map<int, nat>, own: OwnKeys, rows: seq<SheetItem>, rank: map<SheetItem, SortKey>)
    requires Good(s, d) && Keyed(rows, rank) && forall i :: 0 <= i < |rows| ==> rows[i] in s.items
    requires RightKeys(s, d, own, rank)
    ensures Keyed(rows, KeyTable(s, d, own)) && StableSort(rows, rank) == StableSort(rows, KeyTable(s, d, own))
  {
    SortSame(rows, rank, KeyTable(s, d, own));
  }

  /** On a sound sheet no row of the walk has been seen before its turn. */
  lemma NotYet(s: Sheet, d: map<int, nat>, own: OwnKeys, scope: int, i: nat, start: seq<SheetItem>)
    requires Good(s, d) && Complete(s) && NoDangling(s) && (scope == 0 || scope in s.groups)
    requires i < |Ranked(s, d, own, scope)| && Unseen(SortSpec.Walk(s, d, own, scope), start)
    ensures Children(s, Ranked(s, d, own, scope)[..i], scope)
    ensures Unseen(Block1(s, d, own, scope, Ranked(s, d, own, scope)[i]),
                   start + Emit(s, d, own, scope, Ranked(s, d, own, scope)[..i]))
  {
    var list := Ranked(s, d, own, scope);
    EmitPrefix(s, d, own, scope, list, i + 1);
    EmitSnoc(s, d, own, scope, list, i, []);
    NotBefore(SortSpec.Walk(s, d, own, scope), start, Emit(s, d, own, scope, list[..i]), Block1(s, d, own, scope, list[i]));
  }

  lemma EmitSnoc(s: Sheet, d: map<int, nat>, own: OwnKeys, scope: int, list: seq<SheetItem>, i: nat, start: seq<SheetItem>)
    requires Good(s, d) && Children(s, list, scope) && i < |list|
    ensures Children(s, list[..i], scope) && Children(s, list[..i + 1], scope)
    ensures Emit(s, d, own, scope, list[..i + 1]) == Emit(s, d, own, scope, list[..i]) + Block1(s, d, own, scope, list[i])
    ensures start + Emit(s, d, own, scope, list[..i + 1])
         == (start + Emit(s, d, own, scope, list[..i])) + Block1(s, d, own, scope, list[i])
  {
    assert list[..i + 1][..i] == list[..i];
  }

  lemma NotBefore(walk: seq<SheetItem>, start: seq<SheetItem>, done: seq<SheetItem>, block: seq<SheetItem>)
    requires Unseen(walk, start) && done + block <= walk
    ensures Unseen(block, start + done)
  {
    forall k | 0 <= k < |block|
      ensures block[k] !in start + done
    {
      assert walk[|done| + k] == (done + block)[|done| + k] == block[k];
      forall m | 0 <= m < |done| ensures done[m] != block[k] {
        assert walk[m] == (done + block)[m] == done[m];
      }
      assert block[k] in walk;
    }
    forall p, q | 0 <= p < q < |block|
      ensures block[p] != block[q]
    {
      assert walk[|done| + p] == (done + block)[|done| + p] == block[p];
      assert walk[|done| + q] == (done + block)[|done| + q] == block[q];
    }
  }

  method InsertRow(list: seq<SheetItem>, x: SheetItem, rank: map<SheetItem, SortKey>) returns (r: seq<SheetItem>)
    requires Keyed(list, rank) && x in rank
    ensures r == Insert(list, x, rank)
  {
    var k := |list|;
    while k > 0 && Less(rank[x], rank[list[k - 1]])
      invariant 0 <= k <= |list|
      invariant forall m :: k <= m < |list| ==> Less(rank[x], rank[list[m]])
    {
      k := k - 1;
    }
    InsertsAt(list, x, rank, k);
    r := list[..k] + [x] + list[k..];
  }

  lemma {:induction false} InsertsAt<T>(list: seq<T>, x: T, key: map<T, SortKey>, k: nat)
    requires Keyed(list, key) && x in key && k <= |list|
    requires forall m :: k <= m < |list| ==> Less(key[x], key[list[m]])
    requires k > 0 ==> !Less(key[x], key[list[k - 1]])
    ensures Insert(list, x, key) == list[..k] + [x] + list[k..]
  {
    if k < |list| {
      var init := list[..|list| - 1];
      InsertsAt(init, x, key, k);
      Regroup(list, x, k);
    } else {
      assert list[..k] == list && list[k..] == [];
    }
  }

  lemma {:induction false} EmitPrefix(s: Sheet, d: map<int, nat>, own: OwnKeys, scope: int, list: seq<SheetItem>, i: nat)
    requires Good(s, d) && Children(s, list, scope) && i <= |list|
    ensures Emit(s, d, own, scope, list[..i]) <= Emit(s, d, own, scope, list)
    decreases |list|
  {
    if i < |list| {
      EmitPrefix(s, d, own, scope, list[..|list| - 1], i);
      assert list[..|list| - 1][..i] == list[..i];
    } else {
      assert list[..i] == list;
    }
  }

  lemma SameLength<T>(order: seq<T>, a: seq<T>, walk: seq<T>)
    requires multiset(order) == multiset(a) && multiset(walk) == multiset(a) && walk <= order
    ensures order == walk
  {
    assert |order| == |multiset(order)| == |multiset(walk)| == |walk|;
  }
}
