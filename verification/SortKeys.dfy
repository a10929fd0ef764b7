/** Cue-number keys and the stable sort over them (ctp/numbering.go). */
module SortKeys {

  /** What strconv.ParseFloat can return for a cue number: "nan" and "inf" parse. */
  datatype Num = Finite(value: real) | Infinite | NotANumber

  datatype SortKey = Numeric(num: Num) | Text(text: seq<int>) | Blank

  predicate NumLess(a: Num, b: Num) {
    match (a, b)
    case (Finite(x), Finite(y)) => x < y
    case (Finite(_), Infinite) => true
    case (_, _) => false
  }

  /** Go's byte-wise string order. */
  predicate TextLess(a: seq<int>, b: seq<int>) {
    if |b| == 0 then false
    else if |a| == 0 then true
    else a[0] < b[0] || (a[0] == b[0] && TextLess(a[1..], b[1..]))
  }

  function Class(k: SortKey): nat {
    match k case Numeric(_) => 0 case Text(_) => 1 case Blank => 2
  }

  /** Numbers by value, then text, blanks last. */
  predicate Less(a: SortKey, b: SortKey) {
    if Class(a) != Class(b) then Class(a) < Class(b)
    else match a
      case Numeric(n) => NumLess(n, b.num)
      case Text(t) => TextLess(t, b.text)
      case Blank => false
  }

  predicate Orderly(k: SortKey) {
    k != Numeric(NotANumber)
  }

  lemma {:induction false} TextOrder(a: seq<int>, b: seq<int>, c: seq<int>)
    ensures !TextLess(a, a)
    ensures TextLess(a, b) || TextLess(b, a) || a == b
    ensures TextLess(a, b) && TextLess(b, c) ==> TextLess(a, c)
    decreases |a| + |b| + |c|
  {
    if |a| > 0 && |b| > 0 {
      assert a == [a[0]] + a[1..] && b == [b[0]] + b[1..];
      TextOrder(a[1..], b[1..], if |c| > 0 then c[1..] else c);
    } else if |a| > 0 {
      TextOrder(a[1..], b, c);
    }
  }

  /** Away from not-a-number, Less is a strict total order on keys. */
  lemma KeyOrder(a: SortKey, b: SortKey, c: SortKey)
    requires Orderly(a) && Orderly(b) && Orderly(c)
    ensures !Less(a, a)
    ensures Less(a, b) || Less(b, a) || a == b
    ensures Less(a, b) && Less(b, c) ==> Less(a, c)
    ensures Less(a, b) ==> !Less(b, a)
  {
    if a.Text? && b.Text? {
      TextOrder(a.text, b.text, a.text);
      if c.Text? { TextOrder(a.text, b.text, c.text); }
    }
    if a.Text? { TextOrder(a.text, a.text, a.text); }
  }

  /** On all keys, not-a-number included, Less is a strict partial order. */
  lemma LessIsPartial(a: SortKey, b: SortKey, c: SortKey)
    ensures !Less(a, a)
    ensures Less(a, b) ==> !Less(b, a)
    ensures Less(a, b) && Less(b, c) ==> Less(a, c)
  {
    if a.Text? {
      TextOrder(a.text, a.text, a.text);
      if b.Text? {
        TextOrder(a.text, b.text, a.text);
        if c.Text? { TextOrder(a.text, b.text, c.text); }
      }
    }
  }

  predicate Tie(a: SortKey, b: SortKey) {
    !Less(a, b) && !Less(b, a)
  }

  /** A number that is one. */
  predicate Numbered(k: SortKey) {
    k.Numeric? && k.num != NotANumber
  }

  /** A key ties with itself, and not-a-number with every number; nothing else ties. */
  lemma TieIff(a: SortKey, b: SortKey)
    ensures Tie(a, b) <==> a == b || (a.Numeric? && b.Numeric? && (!Orderly(a) || !Orderly(b)))
  {
    if Orderly(a) && Orderly(b) { KeyOrder(a, b, a); }
    LessIsPartial(a, a, a);
  }

  /** Ties chain except through not-a-number, between two different numbers. */
  lemma TiesChainIff(a: SortKey, b: SortKey, c: SortKey)
    requires Tie(a, b) && Tie(b, c)
    ensures Tie(a, c) <==> !(!Orderly(b) && Numbered(a) && Numbered(c) && a != c)
  {
    TieIff(a, b);
    TieIff(b, c);
    TieIff(a, c);
  }

  // ------------------------------------------------------------ stable sort

  predicate Keyed<T>(list: seq<T>, key: map<T, SortKey>) {
    forall i :: 0 <= i < |list| ==> list[i] in key
  }

  function Insert<T>(sorted: seq<T>, x: T, key: map<T, SortKey>): (r: seq<T>)
    requires Keyed(sorted, key) && x in key
    ensures multiset(r) == multiset(sorted) + multiset{x} && Keyed(r, key)
  {
    if |sorted| > 0 && Less(key[x], key[sorted[|sorted| - 1]]) then
      SplitLast(sorted);
      Insert(sorted[..|sorted| - 1], x, key) + [sorted[|sorted| - 1]]
    else sorted + [x]
  }

  lemma SplitLast<T>(s: seq<T>)
    requires |s| > 0
    ensures s == s[..|s| - 1] + [s[|s| - 1]]
    ensures multiset(s) == multiset(s[..|s| - 1]) + multiset{s[|s| - 1]}
  {
    assert s == s[..|s| - 1] + [s[|s| - 1]];
  }

  /** sort.SliceStable, as insertion from the left. */
  function StableSort<T>(list: seq<T>, key: map<T, SortKey>): (r: seq<T>)
    requires Keyed(list, key)
    ensures multiset(r) == multiset(list) && Keyed(r, key)
  {
    if |list| == 0 then []
    else
      SplitLast(list);
      Insert(StableSort(list[..|list| - 1], key), list[|list| - 1], key)
  }

  ghost predicate InOrder<T>(list: seq<T>, key: map<T, SortKey>)
    requires Keyed(list, key)
  {
    forall i, j :: 0 <= i < j < |list| ==> !Less(key[list[j]], key[list[i]])
  }

  ghost predicate AllOrderly<T>(list: seq<T>, key: map<T, SortKey>)
    requires Keyed(list, key)
  {
    forall i :: 0 <= i < |list| ==> Orderly(key[list[i]])
  }

  /** The rows that carry exactly this key, in order. */
  function WithKey<T>(list: seq<T>, key: map<T, SortKey>, k: SortKey): (r: seq<T>)
    requires Keyed(list, key)
  {
    if |list| == 0 then []
    else WithKey(list[..|list| - 1], key, k) + (if key[list[|list| - 1]] == k then [list[|list| - 1]] else [])
  }

  lemma WithKeySnoc<T>(list: seq<T>, x: T, key: map<T, SortKey>, k: SortKey)
    requires Keyed(list, key) && x in key
    ensures Keyed(list + [x], key)
    ensures WithKey(list + [x], key, k) == WithKey(list, key, k) + (if key[x] == k then [x] else [])
  {
    assert (list + [x])[..|list|] == list;
  }

  lemma MultisetOrderly<T>(a: seq<T>, b: seq<T>, key: map<T, SortKey>)
    requires Keyed(a, key) && Keyed(b, key) && multiset(a) == multiset(b) && AllOrderly(a, key)
    ensures AllOrderly(b, key)
  {
    forall i | 0 <= i < |b| ensures Orderly(key[b[i]]) {
      assert b[i] in multiset(a);
    }
  }

  lemma {:induction false} InsertOrder<T>(sorted: seq<T>, x: T, key: map<T, SortKey>)
    requires Keyed(sorted, key) && x in key && AllOrderly(sorted, key) && Orderly(key[x]) && InOrder(sorted, key)
    ensures InOrder(Insert(sorted, x, key), key)
  {
    if |sorted| > 0 {
      var init, last := sorted[..|sorted| - 1], sorted[|sorted| - 1];
      if Less(key[x], key[last]) {
        InsertOrder(init, x, key);
        SplitLast(sorted);
        InsertLast(init, x, last, key);
      } else {
        LastIsTop(sorted, x, key);
      }
    }
  }

  lemma {:induction false} InsertStable<T>(sorted: seq<T>, x: T, key: map<T, SortKey>, k: SortKey)
    requires Keyed(sorted, key) && x in key && AllOrderly(sorted, key) && Orderly(key[x]) && InOrder(sorted, key)
    ensures WithKey(Insert(sorted, x, key), key, k) == WithKey(sorted, key, k) + (if key[x] == k then [x] else [])
  {
    WithKeySnoc(sorted, x, key, k);
    if |sorted| > 0 {
      var init, last := sorted[..|sorted| - 1], sorted[|sorted| - 1];
      if Less(key[x], key[last]) {
        InsertStable(init, x, key, k);
        WithKeySnoc(Insert(init, x, key), last, key, k);
        KeyOrder(key[x], key[last], key[x]);
        OneAtMost(WithKey(init, key, k), if key[x] == k then [x] else [], if key[last] == k then [last] else []);
      }
    }
  }

  lemma OneAtMost<T>(a: seq<T>, p: seq<T>, q: seq<T>)
    requires p == [] || q == []
    ensures (a + p) + q == (a + q) + p
  {
  }

  lemma LastIsTop<T>(sorted: seq<T>, x: T, key: map<T, SortKey>)
    requires Keyed(sorted, key) && x in key && AllOrderly(sorted, key) && Orderly(key[x]) && InOrder(sorted, key)
    requires |sorted| > 0 && !Less(key[x], key[sorted[|sorted| - 1]])
    ensures Keyed(sorted + [x], key) && InOrder(sorted + [x], key)
  {
    var last := sorted[|sorted| - 1];
    forall i | 0 <= i < |sorted|
      ensures !Less(key[x], key[sorted[i]])
    {
      KeyOrder(key[x], key[sorted[i]], key[last]);
      KeyOrder(key[sorted[i]], key[last], key[last]);
    }
  }

  lemma InsertLast<T>(init: seq<T>, x: T, last: T, key: map<T, SortKey>)
    requires Keyed(init, key) && x in key && last in key
    requires InOrder(init + [last], key) && AllOrderly(init, key) && Orderly(key[x]) && Orderly(key[last])
    requires Less(key[x], key[last]) && InOrder(Insert(init, x, key), key)
    ensures Keyed(Insert(init, x, key) + [last], key) && InOrder(Insert(init, x, key) + [last], key)
  {
    var ins := Insert(init, x, key);
    KeyOrder(key[x], key[last], key[last]);
    forall i | 0 <= i < |ins|
      ensures !Less(key[last], key[ins[i]])
    {
      assert ins[i] in multiset(init) + multiset{x};
      if ins[i] != x {
        var m :| 0 <= m < |init| && init[m] == ins[i];
        assert (init + [last])[m] == ins[i] && (init + [last])[|init|] == last;
      }
    }
  }

  /** One more row, inserted into what is sorted already. */
  lemma InsertSorts<T>(list: seq<T>, sorted: seq<T>, key: map<T, SortKey>, k: SortKey)
    requires |list| > 0 && Keyed(list, key) && AllOrderly(list, key)
    requires multiset(sorted) == multiset(list[..|list| - 1]) && Keyed(sorted, key) && InOrder(sorted, key)
    requires WithKey(sorted, key, k) == WithKey(list[..|list| - 1], key, k)
    ensures InOrder(Insert(sorted, list[|list| - 1], key), key)
    ensures WithKey(Insert(sorted, list[|list| - 1], key), key, k) == WithKey(list, key, k)
  {
    var init, x := list[..|list| - 1], list[|list| - 1];
    MultisetOrderly(init, sorted, key);
    InsertOrder(sorted, x, key);
    InsertStable(sorted, x, key, k);
  }

  /** The sort is sorted and stable: rows with equal keys keep their order. */
  lemma {:induction false} StableSortSorts<T>(list: seq<T>, key: map<T, SortKey>, k: SortKey)
    requires Keyed(list, key) && AllOrderly(list, key)
    ensures InOrder(StableSort(list, key), key)
    ensures WithKey(StableSort(list, key), key, k) == WithKey(list, key, k)
  {
    if |list| > 0 {
      StableSortSorts(list[..|list| - 1], key, k);
      InsertSorts(list, StableSort(list[..|list| - 1], key), key, k);
    }
  }

  /** No row is less than the one just above it. */
  ghost predicate Settled<T>(list: seq<T>, key: map<T, SortKey>)
    requires Keyed(list, key)
  {
    forall i :: 0 < i < |list| ==> !Less(key[list[i]], key[list[i - 1]])
  }

  /** An insert goes below everything it is not less than, and above the rows at the
      end that it is less than. */
  lemma {:induction false} InsertShape<T>(sorted: seq<T>, x: T, key: map<T, SortKey>) returns (k: nat)
    requires Keyed(sorted, key) && x in key
    ensures k <= |sorted| && Insert(sorted, x, key) == sorted[..k] + [x] + sorted[k..]
    ensures (k > 0 ==> !Less(key[x], key[sorted[k - 1]])) && (k < |sorted| ==> Less(key[x], key[sorted[k]]))
  {
    if |sorted| > 0 && Less(key[x], key[sorted[|sorted| - 1]]) {
      var init, last := sorted[..|sorted| - 1], sorted[|sorted| - 1];
      k := InsertShape(init, x, key);
      Regroup(sorted, x, k);
    } else {
      k := |sorted|;
      assert sorted[..k] == sorted && sorted[k..] == [];
    }
  }

  lemma Regroup<T>(list: seq<T>, x: T, k: nat)
    requires k < |list|
    ensures var init := list[..|list| - 1];
      (init[..k] + [x] + init[k..]) + [list[|list| - 1]] == list[..k] + [x] + list[k..]
  {
  }

  lemma InsertedSettles<T>(sorted: seq<T>, x: T, key: map<T, SortKey>, k: nat)
    requires Keyed(sorted, key) && x in key && Settled(sorted, key) && k <= |sorted|
    requires (k > 0 ==> !Less(key[x], key[sorted[k - 1]])) && (k < |sorted| ==> Less(key[x], key[sorted[k]]))
    ensures Keyed(sorted[..k] + [x] + sorted[k..], key) && Settled(sorted[..k] + [x] + sorted[k..], key)
  {
    var r := sorted[..k] + [x] + sorted[k..];
    if k < |sorted| { LessIsPartial(key[x], key[sorted[k]], key[x]); }
    forall i | 0 < i < |r| ensures !Less(key[r[i]], key[r[i - 1]]) {
      if i < k {
        assert r[i] == sorted[i] && r[i - 1] == sorted[i - 1];
      } else if i > k + 1 {
        assert r[i] == sorted[i - 1] && r[i - 1] == sorted[i - 2];
      }
    }
  }

  lemma {:induction false} SortSettles<T>(list: seq<T>, key: map<T, SortKey>)
    requires Keyed(list, key)
    ensures Settled(StableSort(list, key), key)
  {
    if |list| > 0 {
      var init, x := list[..|list| - 1], list[|list| - 1];
      SortSettles(init, key);
      var sorted := StableSort(init, key);
      var k := InsertShape(sorted, x, key);
      InsertedSettles(sorted, x, key, k);
    }
  }

  /** Sorting a list that is settled already changes nothing. */
  lemma {:induction false} SortedIsFixed<T>(list: seq<T>, key: map<T, SortKey>)
    requires Keyed(list, key) && Settled(list, key)
    ensures StableSort(list, key) == list
  {
    if |list| > 0 {
      SortedIsFixed(list[..|list| - 1], key);
      SplitLast(list);
    }
  }

  /** Sorted and stable determine the list, so any stable sort of the same rows
      (the library's block-merge included) gives this one. */
  lemma {:induction false} StableSortUnique<T>(a: seq<T>, b: seq<T>, key: map<T, SortKey>)
    requires Keyed(a, key) && Keyed(b, key) && AllOrderly(a, key) && AllOrderly(b, key)
    requires InOrder(a, key) && InOrder(b, key)
    requires forall k :: WithKey(a, key, k) == WithKey(b, key, k)
    ensures a == b
    decreases |a|
  {
    EmptyTogether(a, b, key);
    EmptyTogether(b, a, key);
    if |a| > 0 {
      var x, y := a[|a| - 1], b[|b| - 1];
      LastKeyGreatest(a, b, key);
      LastKeyGreatest(b, a, key);
      KeyOrder(key[x], key[y], key[x]);
      KeyOrder(key[y], key[x], key[y]);
      assert WithKey(a, key, key[x]) == WithKey(b, key, key[x]);
      var ra, rb := a[..|a| - 1], b[..|b| - 1];
      forall k ensures WithKey(ra, key, k) == WithKey(rb, key, k) {
        assert WithKey(a, key, k) == WithKey(b, key, k);
        DropLast(WithKey(ra, key, k), WithKey(rb, key, k), if key[x] == k then [x] else [], if key[y] == k then [y] else []);
      }
      assert WithKey(a, key, key[x]) == WithKey(ra, key, key[x]) + [x];
      assert WithKey(b, key, key[x]) == WithKey(rb, key, key[x]) + [y];
      DropLast(WithKey(ra, key, key[x]), WithKey(rb, key, key[x]), [x], [y]);
      StableSortUnique(ra, rb, key);
      SplitLast(a);
      SplitLast(b);
    }
  }

  lemma EmptyTogether<T>(a: seq<T>, b: seq<T>, key: map<T, SortKey>)
    requires Keyed(a, key) && Keyed(b, key)
    requires forall k :: WithKey(a, key, k) == WithKey(b, key, k)
    ensures |a| > 0 ==> |b| > 0
  {
    if |a| > 0 {
      assert WithKey(a, key, key[a[|a| - 1]]) == WithKey(b, key, key[a[|a| - 1]]);
    }
  }

  lemma DropLast<T>(a: seq<T>, b: seq<T>, p: seq<T>, q: seq<T>)
    requires a + p == b + q && |p| == |q|
    ensures a == b && p == q
  {
    assert |a| == |b|;
    assert a == (a + p)[..|a|] && b == (b + q)[..|b|];
    assert p == (a + p)[|a|..] && q == (b + q)[|b|..];
  }

  /** The last row of a sorted list has the greatest key among its own rows, and
      so is not below the last row of a list with the same rows per key. */
  lemma LastKeyGreatest<T>(a: seq<T>, b: seq<T>, key: map<T, SortKey>)
    requires Keyed(a, key) && Keyed(b, key) && |a| > 0 && |b| > 0 && InOrder(a, key)
    requires AllOrderly(a, key)
    requires forall k :: WithKey(a, key, k) == WithKey(b, key, k)
    ensures !Less(key[a[|a| - 1]], key[b[|b| - 1]])
  {
    var y := b[|b| - 1];
    assert WithKey(a, key, key[y]) == WithKey(b, key, key[y]);
    HasKey(a, key, key[y]);
    var i :| 0 <= i < |a| && key[a[i]] == key[y];
    if i == |a| - 1 {
      KeyOrder(key[a[i]], key[a[i]], key[a[i]]);
    }
  }

  lemma {:induction false} HasKey<T>(a: seq<T>, key: map<T, SortKey>, k: SortKey)
    requires Keyed(a, key)
    ensures |WithKey(a, key, k)| > 0 ==> exists i :: 0 <= i < |a| && key[a[i]] == k
  {
    if |a| > 0 { HasKey(a[..|a| - 1], key, k); }
  }
}
