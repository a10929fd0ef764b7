/** Cue numbers that do not compare (ctp/numbering.go): a number that parses as NaN ties
    with every other, so what a stable sort promises holds exactly where such ties
    chain.  Whatever the keys, sorting twice is sorting once, and an unnumbered header
    keeps its least key. */
module SortTies {
  import opened SortKeys

  /** The rows tie in classes. */
  ghost predicate TiesChain<T>(list: seq<T>, key: map<T, SortKey>)
    requires Keyed(list, key)
  {
    forall x, y, z :: x in list && y in list && z in list && Tie(key[x], key[y]) && Tie(key[y], key[z]) ==> Tie(key[x], key[z])
  }

  /** No row is numbered NaN, or no two of the others have different numbers. */
  ghost predicate Comparable<T>(list: seq<T>, key: map<T, SortKey>)
    requires Keyed(list, key)
  {
    forall x, y, z :: x in list && y in list && z in list && !Orderly(key[y]) && Numbered(key[x]) && Numbered(key[z]) ==> key[x] == key[z]
  }

  lemma ComparableIff<T>(list: seq<T>, key: map<T, SortKey>)
    requires Keyed(list, key)
    ensures Comparable(list, key) <==> TiesChain(list, key)
  {
    forall x, y, z | x in list && y in list && z in list && Tie(key[x], key[y]) && Tie(key[y], key[z])
      ensures Tie(key[x], key[z]) <==> !(!Orderly(key[y]) && Numbered(key[x]) && Numbered(key[z]) && key[x] != key[z])
    {
      TiesChainIff(key[x], key[y], key[z]);
    }
    forall x, y | x in list && y in list && !Orderly(key[y]) && Numbered(key[x]) ensures Tie(key[x], key[y]) && Tie(key[y], key[x]) {
      TieIff(key[x], key[y]);
    }
  }

  // ------------------------------------------------ rows that compare

  /** v stands for every number of the list when one of them is NaN. */
  ghost predicate Fits<T>(list: seq<T>, key: map<T, SortKey>, v: SortKey)
    requires Keyed(list, key)
  {
    Numbered(v) && forall x, y :: x in list && y in list && !Orderly(key[y]) && Numbered(key[x]) ==> key[x] == v
  }

  lemma FittingNumber<T>(list: seq<T>, key: map<T, SortKey>) returns (v: SortKey)
    requires Keyed(list, key) && Comparable(list, key)
    ensures Fits(list, key, v)
  {
    if x, y :| x in list && y in list && !Orderly(key[y]) && Numbered(key[x]) {
      v := key[x];
    } else {
      v := Numeric(Finite(0.0));
    }
  }

  function NormKey(k: SortKey, v: SortKey): SortKey {
    if Orderly(k) then k else v
  }

  function Norm<T>(key: map<T, SortKey>, v: SortKey): (r: map<T, SortKey>)
    ensures r.Keys == key.Keys
  {
    map x | x in key :: NormKey(key[x], v)
  }

  lemma NormLess<T>(list: seq<T>, key: map<T, SortKey>, v: SortKey, x: T, y: T)
    requires Keyed(list, key) && Fits(list, key, v) && x in list && y in list
    ensures Less(key[x], key[y]) <==> Less(NormKey(key[x], v), NormKey(key[y], v))
    ensures Tie(key[x], key[y]) <==> NormKey(key[x], v) == NormKey(key[y], v)
  {
    TieIff(key[x], key[y]);
    LessIsPartial(v, v, v);
  }

  ghost predicate SameLess<T>(list: seq<T>, a: map<T, SortKey>, b: map<T, SortKey>)
    requires Keyed(list, a) && Keyed(list, b)
  {
    forall x, y :: x in list && y in list ==> (Less(a[x], a[y]) <==> Less(b[x], b[y]))
  }

  lemma {:induction false} InsertSame<T>(sorted: seq<T>, x: T, a: map<T, SortKey>, b: map<T, SortKey>)
    requires Keyed(sorted, a) && Keyed(sorted, b) && x in a && x in b
    requires forall i :: 0 <= i < |sorted| ==> (Less(a[x], a[sorted[i]]) <==> Less(b[x], b[sorted[i]]))
    ensures Insert(sorted, x, a) == Insert(sorted, x, b)
  {
    if |sorted| > 0 { InsertSame(sorted[..|sorted| - 1], x, a, b); }
  }

  lemma MsIn<T>(a: seq<T>, b: seq<T>, x: T)
    requires multiset(a) == multiset(b)
    ensures x in a <==> x in b
  {
    assert x in a <==> x in multiset(a);
    assert x in b <==> x in multiset(b);
  }

  lemma {:induction false} SortSame<T>(list: seq<T>, a: map<T, SortKey>, b: map<T, SortKey>)
    requires Keyed(list, a) && Keyed(list, b) && SameLess(list, a, b)
    ensures StableSort(list, a) == StableSort(list, b)
  {
    if |list| > 0 {
      var init, x := list[..|list| - 1], list[|list| - 1];
      SortSame(init, a, b);
      var sorted := StableSort(init, a);
      forall i | 0 <= i < |sorted| ensures Less(a[x], a[sorted[i]]) <==> Less(b[x], b[sorted[i]]) {
        MsIn(sorted, init, sorted[i]);
        assert sorted[i] in list && x in list;
      }
      InsertSame(sorted, x, a, b);
    }
  }

  lemma NormSame<T>(list: seq<T>, key: map<T, SortKey>, v: SortKey)
    requires Keyed(list, key) && Fits(list, key, v)
    ensures Keyed(list, Norm(key, v)) && SameLess(list, key, Norm(key, v)) && AllOrderly(list, Norm(key, v))
    ensures InOrder(list, key) <==> InOrder(list, Norm(key, v))
  {
    forall x, y | x in list && y in list ensures Less(key[x], key[y]) <==> Less(Norm(key, v)[x], Norm(key, v)[y]) {
      NormLess(list, key, v, x, y);
    }
  }

  /** The rows that tie with k, in order. */
  function TiedWith<T>(list: seq<T>, key: map<T, SortKey>, k: SortKey): (r: seq<T>)
    requires Keyed(list, key)
  {
    if |list| == 0 then []
    else TiedWith(list[..|list| - 1], key, k) + (if Tie(key[list[|list| - 1]], k) then [list[|list| - 1]] else [])
  }

  lemma {:induction false} TiedIsWithKey<T>(all: seq<T>, list: seq<T>, key: map<T, SortKey>, v: SortKey, y: T)
    requires Keyed(all, key) && Keyed(list, key) && Fits(all, key, v) && y in all && forall i :: 0 <= i < |list| ==> list[i] in all
    ensures TiedWith(list, key, key[y]) == WithKey(list, Norm(key, v), NormKey(key[y], v))
  {
    if |list| > 0 {
      TiedIsWithKey(all, list[..|list| - 1], key, v, y);
      NormLess(all, key, v, list[|list| - 1], y);
    }
  }

  lemma NormSorts<T>(list: seq<T>, key: map<T, SortKey>, v: SortKey)
    requires Keyed(list, key) && Fits(list, key, v)
    ensures Fits(StableSort(list, key), key, v) && InOrder(StableSort(list, key), key)
    ensures StableSort(list, key) == StableSort(list, Norm(key, v))
  {
    NormSame(list, key, v);
    SortSame(list, key, Norm(key, v));
    var sorted := StableSort(list, key);
    forall x ensures x in sorted <==> x in list { MsIn(sorted, list, x); }
    NormSame(sorted, key, v);
    StableSortSorts(list, Norm(key, v), Blank);
  }

  lemma NormStable<T>(list: seq<T>, key: map<T, SortKey>, v: SortKey, y: T)
    requires Keyed(list, key) && Fits(list, key, v) && y in list
    ensures TiedWith(StableSort(list, key), key, key[y]) == TiedWith(list, key, key[y])
  {
    NormSame(list, key, v);
    NormSorts(list, key, v);
    StableSortSorts(list, Norm(key, v), NormKey(key[y], v));
    var sorted := StableSort(list, key);
    forall i | 0 <= i < |sorted| ensures sorted[i] in list { MsIn(sorted, list, sorted[i]); }
    TiedIsWithKey(list, list, key, v, y);
    TiedIsWithKey(list, sorted, key, v, y);
  }

  /** Rows that compare come out in order, and rows that tie keep their order. */
  lemma ComparableSorts<T>(list: seq<T>, key: map<T, SortKey>)
    requires Keyed(list, key) && Comparable(list, key)
    ensures InOrder(StableSort(list, key), key)
    ensures forall y :: y in list ==> TiedWith(StableSort(list, key), key, key[y]) == TiedWith(list, key, key[y])
  {
    var v := FittingNumber(list, key);
    NormSorts(list, key, v);
    forall y | y in list ensures TiedWith(StableSort(list, key), key, key[y]) == TiedWith(list, key, key[y]) {
      NormStable(list, key, v, y);
    }
  }

  lemma NoneWithKey<T>(list: seq<T>, key: map<T, SortKey>, k: SortKey)
    requires Keyed(list, key) && forall i :: 0 <= i < |list| ==> key[list[i]] != k
    ensures WithKey(list, key, k) == []
  {
    HasKey(list, key, k);
  }

  /** Sorted and stable determine the order of rows that compare, so any stable sort of
      them, the library's block merge included, gives the one modelled. */
  lemma ComparableUnique<T>(a: seq<T>, b: seq<T>, key: map<T, SortKey>)
    requires Keyed(a, key) && Keyed(b, key) && Comparable(a, key) && multiset(a) == multiset(b)
    requires InOrder(a, key) && InOrder(b, key)
    requires forall y :: y in a ==> TiedWith(a, key, key[y]) == TiedWith(b, key, key[y])
    ensures a == b
  {
    var v := FittingNumber(a, key);
    var norm := Norm(key, v);
    forall x ensures x in a <==> x in b { MsIn(a, b, x); }
    NormSame(a, key, v);
    NormSame(b, key, v);
    forall k ensures WithKey(a, norm, k) == WithKey(b, norm, k) {
      if y :| y in a && norm[y] == k {
        TiedIsWithKey(a, a, key, v, y);
        TiedIsWithKey(a, b, key, v, y);
      } else {
        forall i | 0 <= i < |b| ensures norm[b[i]] != k { assert b[i] in a; }
        NoneWithKey(a, norm, k);
        NoneWithKey(b, norm, k);
      }
    }
    StableSortUnique(a, b, norm);
  }

  // -------------------------------------------- rows that do not compare

  ghost predicate Precedes<T>(list: seq<T>, x: T, y: T) {
    exists i, j :: 0 <= i < j < |list| && list[i] == x && list[j] == y
  }

  lemma PutKeeps<T>(list: seq<T>, z: T, k: nat, x: T, y: T)
    requires k <= |list| && Precedes(list, x, y)
    ensures Precedes(list[..k] + [z] + list[k..], x, y)
  {
    var i, j :| 0 <= i < j < |list| && list[i] == x && list[j] == y;
    var r := list[..k] + [z] + list[k..];
    assert r[if i < k then i else i + 1] == x && r[if j < k then j else j + 1] == y;
  }

  lemma InsertKeeps<T>(sorted: seq<T>, z: T, key: map<T, SortKey>, x: T, y: T)
    requires Keyed(sorted, key) && z in key && Precedes(sorted, x, y)
    ensures Precedes(Insert(sorted, z, key), x, y)
  {
    var k := InsertShape(sorted, z, key);
    PutKeeps(sorted, z, k, x, y);
  }

  /** Later rows come between, but never swap two that are placed. */
  lemma {:induction false} SortKeepsPlaced<T>(head: seq<T>, rest: seq<T>, key: map<T, SortKey>, x: T, y: T)
    requires Keyed(head, key) && Keyed(rest, key) && Precedes(StableSort(head, key), x, y)
    ensures Keyed(head + rest, key) && Precedes(StableSort(head + rest, key), x, y)
  {
    if |rest| == 0 {
      assert head + rest == head;
    } else {
      var init := rest[..|rest| - 1];
      SortKeepsPlaced(head, init, key, x, y);
      assert (head + rest)[..|head + rest| - 1] == head + init;
      InsertKeeps(StableSort(head + init, key), rest[|rest| - 1], key, x, y);
    }
  }

  lemma TakeOut<T>(list: seq<T>, x: T) returns (rest: seq<T>)
    requires x in list
    ensures multiset(list) == multiset(rest) + multiset{x}
  {
    var i :| 0 <= i < |list| && list[i] == x;
    rest := list[..i] + list[i + 1..];
    assert list == list[..i] + [x] + list[i + 1..];
  }

  lemma TakeOutThree<T>(list: seq<T>, x: T, y: T, z: T) returns (rest: seq<T>)
    requires x in list && y in list && z in list && x != y && y != z && x != z
    ensures multiset(list) == multiset([x, y, z] + rest)
  {
    var a := TakeOut(list, x);
    assert y in multiset(list) && z in multiset(list);
    assert y in multiset(a) && z in multiset(a);
    var b := TakeOut(a, y);
    assert z in multiset(b);
    rest := TakeOut(b, z);
    assert multiset([x, y, z] + rest) == multiset{x} + multiset{y} + multiset{z} + multiset(rest);
  }

  /** NaN between two numbers, the greater first: each stays where it is. */
  lemma HeadStays<T>(hi: T, nan: T, lo: T, key: map<T, SortKey>)
    requires hi in key && nan in key && lo in key
    requires !Orderly(key[nan]) && Numbered(key[hi]) && Numbered(key[lo]) && Less(key[lo], key[hi])
    ensures Keyed([hi, nan, lo], key) && Precedes(StableSort([hi, nan, lo], key), hi, lo)
  {
    var head := [hi, nan, lo];
    SortedIsFixed(head, key);
    assert head[0] == hi && head[2] == lo;
  }

  /** And no row sorted in later swaps them. */
  lemma StuckBehind<T>(head: seq<T>, rest: seq<T>, key: map<T, SortKey>, hi: T, lo: T)
    requires Keyed(head, key) && Keyed(head + rest, key) && hi in key && lo in key && Less(key[lo], key[hi])
    requires Precedes(StableSort(head, key), hi, lo)
    ensures !InOrder(StableSort(head + rest, key), key)
  {
    forall i | 0 <= i < |rest| ensures rest[i] in key { assert (head + rest)[i + |head|] == rest[i]; }
    SortKeepsPlaced(head, rest, key, hi, lo);
    NotInOrder(StableSort(head + rest, key), key, hi, lo);
  }

  lemma NotInOrder<T>(list: seq<T>, key: map<T, SortKey>, x: T, y: T)
    requires Keyed(list, key) && Precedes(list, x, y) && x in key && y in key && Less(key[y], key[x])
    ensures !InOrder(list, key)
  {
  }

  /** Rows that do not compare can stand so that the sort leaves them out of order. */
  lemma Misordered<T>(list: seq<T>, key: map<T, SortKey>) returns (b: seq<T>)
    requires Keyed(list, key) && !Comparable(list, key)
    ensures multiset(b) == multiset(list) && Keyed(b, key) && !InOrder(StableSort(b, key), key)
  {
    var x, nan, z :| x in list && nan in list && z in list && !Orderly(key[nan]) && Numbered(key[x]) && Numbered(key[z]) && key[x] != key[z];
    KeyOrder(key[x], key[z], key[x]);
    var hi, lo := if Less(key[x], key[z]) then z else x, if Less(key[x], key[z]) then x else z;
    var rest := TakeOutThree(list, hi, nan, lo);
    b := [hi, nan, lo] + rest;
    forall i | 0 <= i < |b| ensures b[i] in key { MsIn(b, list, b[i]); }
    HeadStays(hi, nan, lo, key);
    StuckBehind([hi, nan, lo], rest, key, hi, lo);
  }

  ghost predicate SortsWell<T>(b: seq<T>, list: seq<T>, key: map<T, SortKey>) {
    multiset(b) == multiset(list) ==> Keyed(b, key) && InOrder(StableSort(b, key), key)
  }

  /** The rows come out in order however they stood before, exactly when they compare:
      no NaN among them, or no two different numbers beside it. */
  lemma SortsWellIff<T>(list: seq<T>, key: map<T, SortKey>)
    requires Keyed(list, key)
    ensures (forall b :: SortsWell(b, list, key)) <==> Comparable(list, key)
  {
    if Comparable(list, key) {
      forall b ensures SortsWell(b, list, key) {
        if multiset(b) == multiset(list) {
          forall x ensures x in b <==> x in list { MsIn(b, list, x); }
          forall i | 0 <= i < |b| ensures b[i] in key { assert b[i] in list; }
          ComparableSorts(b, key);
        }
      }
    } else {
      var b := Misordered(list, key);
      assert !SortsWell(b, list, key);
    }
  }

  // ----------------------------------------------------------- the least key

  function Lower(k: SortKey, c: SortKey): SortKey {
    if Less(c, k) then c else k
  }

  /** The least key of the rows as keyOf's loop finds it. */
  function LeastOf<T>(list: seq<T>, key: map<T, SortKey>): SortKey
    requires Keyed(list, key)
  {
    if |list| == 0 then Blank else Lower(LeastOf(list[..|list| - 1], key), key[list[|list| - 1]])
  }

  /** The loop does not mind a row before one it is less than. */
  lemma LowerSwaps(k: SortKey, x: SortKey, y: SortKey)
    requires Less(x, y)
    ensures Lower(Lower(k, x), y) == Lower(Lower(k, y), x)
  {
    LessIsPartial(x, y, k);
    LessIsPartial(x, y, x);
  }

  lemma {:induction false} LeastOfInsert<T>(sorted: seq<T>, x: T, key: map<T, SortKey>)
    requires Keyed(sorted, key) && x in key
    ensures LeastOf(Insert(sorted, x, key), key) == Lower(LeastOf(sorted, key), key[x])
  {
    if |sorted| > 0 && Less(key[x], key[sorted[|sorted| - 1]]) {
      var init, last := sorted[..|sorted| - 1], sorted[|sorted| - 1];
      LeastOfInsert(init, x, key);
      LowerSwaps(LeastOf(init, key), key[x], key[last]);
      LeastSnoc(Insert(init, x, key), last, key);
    } else {
      LeastSnoc(sorted, x, key);
    }
  }

  lemma LeastSnoc<T>(list: seq<T>, x: T, key: map<T, SortKey>)
    requires Keyed(list, key) && x in key
    ensures Keyed(list + [x], key) && LeastOf(list + [x], key) == Lower(LeastOf(list, key), key[x])
  {
    assert (list + [x])[..|list|] == list;
  }

  /** So the sort leaves the least key as it is, whatever the keys. */
  lemma {:induction false} LeastOfSort<T>(list: seq<T>, key: map<T, SortKey>)
    requires Keyed(list, key)
    ensures LeastOf(StableSort(list, key), key) == LeastOf(list, key)
  {
    if |list| > 0 {
      LeastOfSort(list[..|list| - 1], key);
      LeastOfInsert(StableSort(list[..|list| - 1], key), list[|list| - 1], key);
    }
  }

  /** k is the least key carried by list, blank when nothing in it is numbered. */
  ghost predicate IsLeast<T>(list: seq<T>, key: map<T, SortKey>, k: SortKey)
    requires Keyed(list, key)
  {
    (k == Blank || exists x :: x in list && key[x] == k) && forall x :: x in list ==> !Less(key[x], k)
  }

  lemma {:induction false} LeastOfIsLeast<T>(list: seq<T>, key: map<T, SortKey>)
    requires Keyed(list, key)
    ensures IsLeast(list, key, LeastOf(list, key))
  {
    if |list| > 0 {
      var init, y := list[..|list| - 1], list[|list| - 1];
      LeastOfIsLeast(init, key);
      var k := LeastOf(init, key);
      forall x | x in list ensures !Less(key[x], Lower(k, key[y])) {
        LessIsPartial(key[x], key[y], k);
        assert x == y || x in init;
      }
      if Lower(k, key[y]) != Blank && !Less(key[y], k) {
        var x :| x in init && key[x] == k;
        assert x in list;
      }
    }
  }
}
