/** Which way the sheet is sorted (ctp/numbering.go), said of the cue numbers themselves:
    smaller numbers first, then texts by their bytes, blanks last; an unnumbered header by
    the smallest number inside it. */
module SortMeaning {
  import opened Util
  import opened Forest
  import opened PreOrder
  import opened SortKeys
  import opened SortTies
  import opened SortSpec
  import opened SortTwice

  // ------------------------------------------------------------- the numbers

  /** a and b agree up to k, and there a has ended or has the smaller byte. */
  predicate SplitsAt(a: seq<int>, b: seq<int>, k: nat) {
    && k <= |a| && k < |b| && a[..k] == b[..k]
    && (k == |a| || a[k] < b[k])
  }

  ghost predicate TextBefore(a: seq<int>, b: seq<int>) {
    exists k: nat :: SplitsAt(a, b, k)
  }

  /** A row numbered a belongs above one numbered b. */
  ghost predicate MustPrecede(a: SortKey, b: SortKey) {
    match (a, b)
    case (Numeric(Finite(x)), Numeric(Finite(y))) => x < y
    case (Numeric(Finite(_)), Numeric(Infinite)) => true
    case (Numeric(_), Text(_)) => true
    case (Numeric(_), Blank) => true
    case (Text(u), Text(v)) => TextBefore(u, v)
    case (Text(_), Blank) => true
    case _ => false
  }

  lemma {:induction false} TextBeforeIff(a: seq<int>, b: seq<int>)
    ensures TextLess(a, b) <==> TextBefore(a, b)
  {
    if |b| > 0 && |a| > 0 && a[0] == b[0] {
      TextBeforeIff(a[1..], b[1..]);
      TextTail(a, b);
    } else if |b| > 0 && (|a| == 0 || a[0] < b[0]) {
      assert SplitsAt(a, b, 0);
    } else {
      forall k: nat ensures !SplitsAt(a, b, k) { if 0 < k <= |a| && k < |b| { assert a[..k][0] == a[0] && b[..k][0] == b[0]; } }
    }
  }

  lemma TextTail(a: seq<int>, b: seq<int>)
    requires |a| > 0 && |b| > 0 && a[0] == b[0]
    ensures TextBefore(a[1..], b[1..]) <==> TextBefore(a, b)
  {
    if TextBefore(a[1..], b[1..]) {
      var k: nat :| SplitsAt(a[1..], b[1..], k);
      assert a[..k + 1] == [a[0]] + a[1..][..k] && b[..k + 1] == [b[0]] + b[1..][..k];
      assert SplitsAt(a, b, k + 1);
    }
    if TextBefore(a, b) {
      var k: nat :| SplitsAt(a, b, k);
      assert k > 0;
      assert a[1..][..k - 1] == a[..k][1..] && b[1..][..k - 1] == b[..k][1..];
      assert SplitsAt(a[1..], b[1..], k - 1);
    }
  }

  /** The program's comparison is that. */
  lemma LessIff(a: SortKey, b: SortKey)
    ensures Less(a, b) <==> MustPrecede(a, b)
  {
    if a.Text? && b.Text? { TextBeforeIff(a.text, b.text); }
  }

  // ------------------------------------------------------------ two siblings

  lemma {:induction false} AmongOrder(s: Sheet, list: seq<SheetItem>, x: int, i: nat, j: nat)
    requires i < j < |list| && Scope(s, list[i]) == x && Scope(s, list[j]) == x
    ensures Precedes(Among(s, list, x), list[i], list[j])
  {
    var rest := Among(s, list[1..], x);
    if i > 0 {
      AmongOrder(s, list[1..], x, i - 1, j - 1);
      PrecedesTail(if Scope(s, list[0]) == x then [list[0]] else [], rest, list[i], list[j]);
    } else {
      AmongComplete(s, list[1..], x, list[j]);
      var q :| 0 <= q < |rest| && rest[q] == list[j];
      assert Among(s, list, x)[0] == list[i] && Among(s, list, x)[q + 1] == list[j];
    }
  }

  lemma PrecedesTail<T>(head: seq<T>, rest: seq<T>, x: T, y: T)
    requires Precedes(rest, x, y)
    ensures Precedes(head + rest, x, y)
  {
    var i, j :| 0 <= i < j < |rest| && rest[i] == x && rest[j] == y;
    assert (head + rest)[|head| + i] == x && (head + rest)[|head| + j] == y;
  }

  /** Settled rows have their numbers, texts and blanks in that order, NaN or not. */
  lemma {:induction false} ClassesSettle<T>(list: seq<T>, key: map<T, SortKey>, i: nat, j: nat)
    requires Keyed(list, key) && Settled(list, key) && i < j < |list|
    ensures !(key[list[j]].Numeric? && !key[list[i]].Numeric?) && !(key[list[j]].Text? && key[list[i]].Blank?)
  {
    LessIff(key[list[j]], key[list[j - 1]]);
    if i < j - 1 { ClassesSettle(list, key, i, j - 1); }
  }

  /** Keys of two kinds: number, text, blank. */
  predicate OtherKind(a: SortKey, b: SortKey) {
    a.Numeric? != b.Numeric? || a.Text? != b.Text?
  }

  /** a's number must come first, and either it is of another kind than b's or the rows of
      the group compare (SortTies). */
  ghost predicate RanksAbove(s: Sheet, d: map<int, nat>, own: OwnKeys, a: SheetItem, b: SheetItem)
    requires Good(s, d)
  {
    var keys, kids := KeyTable(s, d, own), Kids(s, Scope(s, a));
    && a in keys && b in keys && Keyed(kids, keys)
    && MustPrecede(keys[a], keys[b]) && (OtherKind(keys[a], keys[b]) || Comparable(kids, keys))
  }

  lemma SiblingsStand(s: Sheet, d: map<int, nat>, own: OwnKeys, i: nat, j: nat)
    requires Ready(s, d) && i < j < |Sorted(s, d, own).items|
    requires var t := Sorted(s, d, own); var x := Scope(s, t.items[i]);
      Scope(s, t.items[j]) == x && (x == 0 || x in s.groups)
    ensures var t := Sorted(s, d, own); !RanksAbove(s, d, own, t.items[j], t.items[i])
  {
    var t, keys := Sorted(s, d, own), KeyTable(s, d, own);
    var x := Scope(s, t.items[i]);
    SiblingsInKeyOrder(s, d, own, x);
    AmongOrder(t, t.items, x, i, j);
    var p, q :| 0 <= p < q < |Kids(t, x)| && Kids(t, x)[p] == t.items[i] && Kids(t, x)[q] == t.items[j];
    ClassesSettle(Kids(t, x), keys, p, q);
    LessIff(keys[t.items[j]], keys[t.items[i]]);
  }

  lemma PlacesOf<T>(list: seq<T>, items: seq<T>, a: T, b: T) returns (i: nat, j: nat)
    requires multiset(list) == multiset(items) && a in items && b in items
    ensures i < |list| && j < |list| && list[i] == a && list[j] == b
  {
    MsIn(list, items, a);
    MsIn(list, items, b);
    i :| 0 <= i < |list| && list[i] == a;
    j :| 0 <= j < |list| && list[j] == b;
  }

  lemma NotItself(k: SortKey)
    ensures !MustPrecede(k, k)
  {
    LessIff(k, k);
    LessIsPartial(k, k, k);
  }

  lemma RanksApart(s: Sheet, d: map<int, nat>, own: OwnKeys, a: SheetItem, b: SheetItem)
    requires Good(s, d) && RanksAbove(s, d, own, a, b)
    ensures a != b
  {
    NotItself(KeyTable(s, d, own)[a]);
  }

  /** Of two rows of one group, the one whose number must come first is above the other
      in the sorted sheet: whatever else the group holds when one is a number, a text or a
      blank and the other is not, and otherwise when the group's rows compare. */
  lemma SortedUpwards(s: Sheet, d: map<int, nat>, own: OwnKeys, a: SheetItem, b: SheetItem)
    requires Ready(s, d) && a in s.items && b in s.items && Scope(s, a) == Scope(s, b) && RanksAbove(s, d, own, a, b)
    ensures Precedes(Sorted(s, d, own).items, a, b)
  {
    SortIsPermutation(s, d, own);
    var i, j := PlacesOf(Sorted(s, d, own).items, s.items, a, b);
    ScopeExists(s, d, a);
    RanksApart(s, d, own, a, b);
    if j < i { SiblingsStand(s, d, own, j, i); }
  }

  // --------------------------------------------------- the key of each row

  /** A cue, and a header with a number, sort by their own. */
  lemma OwnNumberCounts(s: Sheet, d: map<int, nat>, own: OwnKeys, a: SheetItem)
    requires Good(s, d) && a in s.items && (a.Cue? || OwnKey(own, a) != Blank)
    ensures KeyTable(s, d, own)[a] == OwnKey(own, a)
  {
  }

  /** The number of row a counts for header gid: a is inside gid, and no header between
      them has a number of its own. */
  ghost predicate CountsFor(s: Sheet, d: map<int, nat>, own: OwnKeys, a: SheetItem, gid: int)
    requires Depths(s.groups, d)
    decreases if Scope(s, a) in s.groups then d[Scope(s, a)] + 1 else 0
  {
    var p := Scope(s, a);
    p in s.groups && (p == gid || (OwnKey(own, Header(p)) == Blank && CountsFor(s, d, own, Header(p), gid)))
  }

  /** No row that counts for the header is numbered NaN. */
  ghost predicate NumbersOrderly(s: Sheet, d: map<int, nat>, own: OwnKeys, gid: int)
    requires Depths(s.groups, d)
  {
    forall a :: a in s.items && CountsFor(s, d, own, a, gid) ==> Orderly(OwnKey(own, a))
  }

  lemma {:induction false} CountsUp(s: Sheet, d: map<int, nat>, own: OwnKeys, a: SheetItem, h: int, gid: int)
    requires Depths(s.groups, d) && h in s.groups && s.groups[h].parent == gid && gid in s.groups && OwnKey(own, Header(h)) == Blank
    requires CountsFor(s, d, own, a, h)
    ensures CountsFor(s, d, own, a, gid)
    decreases if Scope(s, a) in s.groups then d[Scope(s, a)] + 1 else 0
  {
    var p := Scope(s, a);
    if p == h {
      assert CountsFor(s, d, own, Header(h), gid);
    } else {
      CountsUp(s, d, own, Header(p), h, gid);
    }
  }

  /** What counts for a header is one of its rows, or counts for an unnumbered one. */
  lemma {:induction false} CountsThrough(s: Sheet, d: map<int, nat>, own: OwnKeys, a: SheetItem, gid: int) returns (h: int)
    requires Depths(s.groups, d) && CountsFor(s, d, own, a, gid) && Scope(s, a) != gid
    ensures h in s.groups && s.groups[h].parent == gid && OwnKey(own, Header(h)) == Blank && CountsFor(s, d, own, a, h)
    decreases if Scope(s, a) in s.groups then d[Scope(s, a)] + 1 else 0
  {
    var p := Scope(s, a);
    if s.groups[p].parent == gid {
      h := p;
    } else {
      h := CountsThrough(s, d, own, Header(p), gid);
    }
  }

  /** k is a number that counts for gid, or blank; and none that counts must come before. */
  ghost predicate SmallestInside(s: Sheet, d: map<int, nat>, own: OwnKeys, gid: int, k: SortKey)
    requires Depths(s.groups, d)
  {
    && Orderly(k)
    && (k == Blank || exists a :: a in s.items && CountsFor(s, d, own, a, gid) && OwnKey(own, a) == k)
    && forall a :: a in s.items && CountsFor(s, d, own, a, gid) ==> !MustPrecede(OwnKey(own, a), k)
  }

  lemma NotBelowBoth(x: SortKey, h: SortKey, k: SortKey)
    requires Orderly(x) && Orderly(h) && Orderly(k) && !MustPrecede(x, h) && !MustPrecede(h, k)
    ensures !MustPrecede(x, k)
  {
    LessIff(x, h);
    LessIff(h, k);
    LessIff(x, k);
    KeyOrder(x, h, k);
    KeyOrder(h, x, k);
  }

  /** Row c of gid: its key is its own number, or the smallest inside it. */
  ghost predicate RowKeyed(s: Sheet, d: map<int, nat>, own: OwnKeys, c: SheetItem, k: SortKey)
    requires Depths(s.groups, d)
  {
    if c.Header? && OwnKey(own, c) == Blank then SmallestInside(s, d, own, c.gid, k) else k == OwnKey(own, c)
  }

  lemma RowCounts(s: Sheet, d: map<int, nat>, own: OwnKeys, gid: int, c: SheetItem, k: SortKey)
    requires Ready(s, d) && gid in s.groups && c in s.items && Scope(s, c) == gid && RowKeyed(s, d, own, c, k)
    requires NumbersOrderly(s, d, own, gid)
    ensures Orderly(k) && (k == Blank || exists a :: a in s.items && CountsFor(s, d, own, a, gid) && OwnKey(own, a) == k)
  {
    assert CountsFor(s, d, own, c, gid);
    if c.Header? && OwnKey(own, c) == Blank && k != Blank {
      var a :| a in s.items && CountsFor(s, d, own, a, c.gid) && OwnKey(own, a) == k;
      CountsUp(s, d, own, a, c.gid, gid);
    }
  }

  lemma OrderlyBelow(s: Sheet, d: map<int, nat>, own: OwnKeys, gid: int, h: int)
    requires Depths(s.groups, d) && h in s.groups && s.groups[h].parent == gid && gid in s.groups && OwnKey(own, Header(h)) == Blank
    requires NumbersOrderly(s, d, own, gid)
    ensures NumbersOrderly(s, d, own, h)
  {
    forall a | a in s.items && CountsFor(s, d, own, a, h) ensures Orderly(OwnKey(own, a)) { CountsUp(s, d, own, a, h, gid); }
  }

  /** The least of the keys of a header's rows is the smallest number inside it. */
  lemma LeastIsSmallest(s: Sheet, d: map<int, nat>, own: OwnKeys, gid: int, k: SortKey)
    requires Ready(s, d) && gid in s.groups && NumbersOrderly(s, d, own, gid)
    requires Keyed(Kids(s, gid), KeyTable(s, d, own)) && IsLeast(Kids(s, gid), KeyTable(s, d, own), k)
    requires forall c :: c in Kids(s, gid) ==> c in s.items && Scope(s, c) == gid && RowKeyed(s, d, own, c, KeyTable(s, d, own)[c])
    ensures SmallestInside(s, d, own, gid, k)
  {
    var keys := KeyTable(s, d, own);
    if k != Blank {
      var c :| c in Kids(s, gid) && keys[c] == k;
      RowCounts(s, d, own, gid, c, k);
    }
    forall a | a in s.items && CountsFor(s, d, own, a, gid) ensures !MustPrecede(OwnKey(own, a), k) {
      NoneSmaller(s, d, own, gid, k, a);
    }
  }

  lemma NoneSmaller(s: Sheet, d: map<int, nat>, own: OwnKeys, gid: int, k: SortKey, a: SheetItem)
    requires Ready(s, d) && gid in s.groups && NumbersOrderly(s, d, own, gid) && Orderly(k)
    requires Keyed(Kids(s, gid), KeyTable(s, d, own)) && IsLeast(Kids(s, gid), KeyTable(s, d, own), k)
    requires forall c :: c in Kids(s, gid) ==> c in s.items && Scope(s, c) == gid && RowKeyed(s, d, own, c, KeyTable(s, d, own)[c])
    requires a in s.items && CountsFor(s, d, own, a, gid)
    ensures !MustPrecede(OwnKey(own, a), k)
  {
    var keys := KeyTable(s, d, own);
    if Scope(s, a) == gid {
      AmongComplete(s, s.items, gid, a);
      LessIff(keys[a], k);
    } else {
      var h := CountsThrough(s, d, own, a, gid);
      var c := Header(h);
      assert c in s.items;
      AmongComplete(s, s.items, gid, c);
      RowCounts(s, d, own, gid, c, keys[c]);
      LessIff(keys[c], k);
      NotBelowBoth(OwnKey(own, a), keys[c], k);
    }
  }

  /** An unnumbered header sorts by the smallest number that counts for it. */
  lemma {:induction false} HeaderTakesSmallest(s: Sheet, d: map<int, nat>, own: OwnKeys, gid: int)
    requires Ready(s, d) && gid in s.groups && OwnKey(own, Header(gid)) == Blank && NumbersOrderly(s, d, own, gid)
    ensures Header(gid) in s.items && SmallestInside(s, d, own, gid, KeyTable(s, d, own)[Header(gid)])
    decreases Room(s, d, gid)
  {
    assert Header(gid) in s.items;
    KidsKnown(s, d, gid);
    TableKeys(s, d, own, gid);
    LeastKeyIsLeast(s, d, own, gid);
    forall c | c in Kids(s, gid)
      ensures c in s.items && Scope(s, c) == gid && RowKeyed(s, d, own, c, KeyTable(s, d, own)[c])
    {
      var i :| 0 <= i < |Kids(s, gid)| && Kids(s, gid)[i] == c;
      if c.Header? && OwnKey(own, c) == Blank {
        RoomShrinks(s, d, c.gid);
        OrderlyBelow(s, d, own, gid, c.gid);
        HeaderTakesSmallest(s, d, own, c.gid);
      }
    }
    LeastIsSmallest(s, d, own, gid, KeyTable(s, d, own)[Header(gid)]);
  }

  lemma SmallestFinite(s: Sheet, d: map<int, nat>, own: OwnKeys, gid: int, a: SheetItem, x: real, k: SortKey)
    requires Depths(s.groups, d) && SmallestInside(s, d, own, gid, k)
    requires a in s.items && CountsFor(s, d, own, a, gid) && OwnKey(own, a) == Numeric(Finite(x))
    ensures k.Numeric? && k.num.Finite? && k.num.value <= x
    ensures exists b :: b in s.items && CountsFor(s, d, own, b, gid) && OwnKey(own, b) == k
  {
    assert !MustPrecede(Numeric(Finite(x)), k);
  }

  /** So when there are finite numbers inside and no NaN, by the smallest of them. */
  lemma HeaderTakesSmallestNumber(s: Sheet, d: map<int, nat>, own: OwnKeys, gid: int, a: SheetItem, x: real)
    requires Ready(s, d) && gid in s.groups && OwnKey(own, Header(gid)) == Blank && NumbersOrderly(s, d, own, gid)
    requires a in s.items && CountsFor(s, d, own, a, gid) && OwnKey(own, a) == Numeric(Finite(x))
    ensures Header(gid) in s.items
    ensures KeyTable(s, d, own)[Header(gid)].Numeric?
    ensures var k := KeyTable(s, d, own)[Header(gid)].num; k.Finite? && k.value <= x
    ensures exists b :: b in s.items && CountsFor(s, d, own, b, gid) && OwnKey(own, b) == KeyTable(s, d, own)[Header(gid)]
  {
    HeaderTakesSmallest(s, d, own, gid);
    SmallestFinite(s, d, own, gid, a, x, KeyTable(s, d, own)[Header(gid)]);
  }
}
