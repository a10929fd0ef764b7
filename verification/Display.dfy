/** From the tables to the operator's rows (ctp/ctp.go, FlattenSheet whole): the
    renderer's own merge of the two queries, and why, after a write, it is the
    sequence every other operation reads. */
module Display {
  import opened Util
  import opened Forest
  import opened PreOrder
  import opened Flatten
  import opened FlattenSheet
  import opened SheetStore

  function ItemsOf(rows: seq<Placed>): (items: seq<SheetItem>)
    ensures |items| == |rows| && forall i :: 0 <= i < |rows| ==> items[i] == rows[i].item
  {
    if |rows| == 0 then [] else ItemsOf(rows[..|rows| - 1]) + [rows[|rows| - 1].item]
  }

  lemma {:induction false} MergeHas(cues: seq<Placed>, headers: seq<Placed>, p: Placed)
    ensures p in HeadersFirst(cues, headers) <==> p in cues || p in headers
    decreases |cues| + |headers|
  {
    if |cues| > 0 && |headers| > 0 {
      if headers[0].index <= cues[0].index {
        HeaderNext(cues, headers);
        MergeHas(cues, headers[1..], p);
        ConsTail(headers);
        ConsHas(headers[0], headers[1..], p);
        ConsHas(headers[0], HeadersFirst(cues, headers[1..]), p);
      } else {
        CueNext(cues, headers);
        MergeHas(cues[1..], headers, p);
        ConsTail(cues);
        ConsHas(cues[0], cues[1..], p);
        ConsHas(cues[0], HeadersFirst(cues[1..], headers), p);
      }
    }
  }

  lemma ConsHas(x: Placed, rest: seq<Placed>, p: Placed)
    ensures p in [x] + rest <==> p == x || p in rest
  {
  }

  ghost predicate Rising(rows: seq<Placed>) {
    forall i, j :: 0 <= i < j < |rows| ==> rows[i].index < rows[j].index
  }

  lemma ConsRises(x: Placed, rest: seq<Placed>)
    requires Rising(rest) && forall p :: p in rest ==> x.index < p.index
    ensures Rising([x] + rest)
  {
    var r := [x] + rest;
    forall i, j | 0 <= i < j < |r| ensures r[i].index < r[j].index {
      assert r[j] == rest[j - 1] && rest[j - 1] in rest;
      assert i == 0 || r[i] == rest[i - 1];
    }
  }

  lemma TailRises(rows: seq<Placed>)
    requires Rising(rows) && |rows| > 0
    ensures Rising(rows[1..]) && forall p :: p in rows[1..] ==> rows[0].index < p.index
  {
  }

  /** Two rising lists without a common index merge into a rising list. */
  lemma {:induction false} MergeRises(cues: seq<Placed>, headers: seq<Placed>)
    requires Rising(cues) && Rising(headers)
    requires forall c, h :: c in cues && h in headers ==> c.index != h.index
    ensures Rising(HeadersFirst(cues, headers))
    decreases |cues| + |headers|
  {
    if |cues| > 0 && |headers| > 0 {
      TailRises(cues);
      TailRises(headers);
      ConsTail(cues);
      ConsTail(headers);
      assert cues[0] in cues && headers[0] in headers;
      if headers[0].index <= cues[0].index {
        HeaderNext(cues, headers);
        MergeRises(cues, headers[1..]);
        forall p | p in HeadersFirst(cues, headers[1..]) ensures headers[0].index < p.index {
          MergeHas(cues, headers[1..], p);
          ConsHas(cues[0], cues[1..], p);
        }
        ConsRises(headers[0], HeadersFirst(cues, headers[1..]));
      } else {
        CueNext(cues, headers);
        MergeRises(cues[1..], headers);
        forall p | p in HeadersFirst(cues[1..], headers) ensures cues[0].index < p.index {
          MergeHas(cues[1..], headers, p);
          ConsHas(headers[0], headers[1..], p);
        }
        ConsRises(cues[0], HeadersFirst(cues[1..], headers));
      }
    }
  }

  /** rows are the rows of the tables that keep says, each once, by index. */
  ghost predicate Queried(t: Tables, rows: seq<Placed>, cues: bool) {
    && PlacedIn(t, rows) && ByIndex(rows) && Distinct(ItemsOf(rows))
    && forall x :: x in ItemsOf(rows) <==> HasRow(t, x) && x.Cue? == cues
  }

  ghost predicate NoTies(t: Tables) {
    forall a, b :: HasRow(t, a) && HasRow(t, b) && a != b ==> IndexOf(t, a) != IndexOf(t, b)
  }

  lemma QueriedRises(t: Tables, rows: seq<Placed>, cues: bool)
    requires Queried(t, rows, cues) && NoTies(t)
    ensures Rising(rows)
  {
    forall i, j | 0 <= i < j < |rows| ensures rows[i].index < rows[j].index {
      assert ItemsOf(rows)[i] != ItemsOf(rows)[j];
      assert IndexOf(t, rows[i].item) != IndexOf(t, rows[j].item);
    }
  }

  /** Without ties the merge on display is the sequence every operation reads. */
  lemma DisplayedIsLoaded(t: Tables, cues: seq<Placed>, headers: seq<Placed>, items: seq<SheetItem>)
    requires Queried(t, cues, true) && Queried(t, headers, false) && NoTies(t) && Loaded(t, items)
    ensures ItemsOf(HeadersFirst(cues, headers)) == items
  {
    var rows := HeadersFirst(cues, headers);
    QueriedRises(t, cues, true);
    QueriedRises(t, headers, false);
    forall c, h | c in cues && h in headers ensures c.index != h.index {
      RowKnown(t, cues, c, true);
      RowKnown(t, headers, h, false);
    }
    MergeRises(cues, headers);
    forall p | p in rows ensures HasRow(t, p.item) && p.index == IndexOf(t, p.item) {
      MergeHas(cues, headers, p);
      if p in cues { RowKnown(t, cues, p, true); } else { RowKnown(t, headers, p, false); }
    }
    MergedInLoadOrder(t, rows);
    forall x ensures x in ItemsOf(rows) <==> x in items {
      MergedItems(t, cues, headers, x);
      assert x in items <==> HasRow(t, x);
    }
    LoadedUnique(t, ItemsOf(rows), items);
  }

  lemma RowKnown(t: Tables, rows: seq<Placed>, p: Placed, cues: bool)
    requires Queried(t, rows, cues) && p in rows
    ensures HasRow(t, p.item) && p.index == IndexOf(t, p.item) && p.item.Cue? == cues
  {
    var i :| 0 <= i < |rows| && rows[i] == p;
    assert ItemsOf(rows)[i] == p.item;
    assert p.item in ItemsOf(rows);
  }

  lemma MergedInLoadOrder(t: Tables, rows: seq<Placed>)
    requires Rising(rows) && forall p :: p in rows ==> HasRow(t, p.item) && p.index == IndexOf(t, p.item)
    ensures InLoadOrder(t, ItemsOf(rows))
  {
    forall i | 0 <= i < |rows| ensures HasRow(t, ItemsOf(rows)[i]) && rows[i].index == IndexOf(t, ItemsOf(rows)[i]) {
      assert rows[i] in rows;
    }
  }

  lemma MergedItems(t: Tables, cues: seq<Placed>, headers: seq<Placed>, x: SheetItem)
    requires Queried(t, cues, true) && Queried(t, headers, false)
    ensures x in ItemsOf(HeadersFirst(cues, headers)) <==> HasRow(t, x)
  {
    var rows := HeadersFirst(cues, headers);
    if x in ItemsOf(rows) {
      var i :| 0 <= i < |rows| && ItemsOf(rows)[i] == x;
      MergeHas(cues, headers, rows[i]);
      if rows[i] in cues { RowKnown(t, cues, rows[i], true); } else { RowKnown(t, headers, rows[i], false); }
    }
    if HasRow(t, x) {
      var part := if x.Cue? then cues else headers;
      assert x in ItemsOf(part);
      var i :| 0 <= i < |part| && ItemsOf(part)[i] == x;
      MergeHas(cues, headers, part[i]);
      var k :| 0 <= k < |rows| && rows[k] == part[i];
      assert ItemsOf(rows)[k] == x;
    }
  }

  /** What applyOrder writes is what is drawn: the renderer folds exactly the
      sequence written, with the memberships written. */
  lemma WrittenIsDisplayed(t: Tables, items: seq<SheetItem>, parents: map<int, int>, cues: seq<Placed>, headers: seq<Placed>)
    requires Distinct(items) && AllRows(t, items) && CoversCues(items, parents)
    requires Queried(Written(t, items, parents), cues, true) && Queried(Written(t, items, parents), headers, false)
    ensures ItemsOf(HeadersFirst(cues, headers)) == items
  {
    var r := Written(t, items, parents);
    RoundTrip(t, items, parents);
    WrittenKeeps(t, items, parents);
    forall a, b | HasRow(r, a) && HasRow(r, b) && a != b ensures IndexOf(r, a) != IndexOf(r, b) {
      assert HasRow(t, a) && HasRow(t, b);
      WrittenHasNoTie(t, items, parents, a, b);
    }
    DisplayedIsLoaded(r, cues, headers, items);
  }

  /** FlattenSheet: the merge, then the drawing loop. */
  method DrawSheet(cues: seq<Placed>, headers: seq<Placed>, parents: map<int, int>, groups: Groups, ghost d: map<int, nat>)
    returns (rows: seq<FlatRow>, items: seq<SheetItem>, sorted: seq<Placed>)
    requires forall p :: p in cues ==> p.item.Cue?
    requires forall p :: p in headers ==> p.item.Header? && p.item.gid in groups
    ensures multiset(sorted) == multiset(headers) && ByIndex(sorted) && items == ItemsOf(HeadersFirst(cues, sorted))
    ensures HeadersKnown(Sheet(items, parents, groups))
    ensures Depths(groups, d) ==> rows == Render(Sheet(items, parents, groups), d, |items|).rows
  {
    var merged;
    merged, sorted := MergeForDisplay(cues, headers);
    items := [];
    for i := 0 to |merged|
      invariant |items| == i && forall k :: 0 <= k < i ==> items[k] == merged[k].item
    {
      items := items + [merged[i].item];
    }
    assert items == ItemsOf(merged);
    forall k | 0 <= k < |items| && items[k].Header? ensures items[k].gid in groups {
      MergeHas(cues, sorted, merged[k]);
      assert merged[k] in sorted ==> merged[k] in multiset(headers);
    }
    rows := Draw(Sheet(items, parents, groups), d);
  }
}
