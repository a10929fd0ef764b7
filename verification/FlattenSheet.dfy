/** FlattenSheet and loadSheetSequence as loops (ctp/ctp.go, ctp/sheet.go): the
    two merges of cues and headers into one sequence, and the renderer itself. */
module FlattenSheet {
  import opened Util
  import opened Forest
  import opened PreOrder
  import opened Flatten
  import GroupWalks

  /** An item and its sheet_index. */
  datatype Placed = Placed(item: SheetItem, index: real)

  ghost predicate ByIndex(s: seq<Placed>) {
    forall i, j :: 0 <= i < j < |s| ==> s[i].index <= s[j].index
  }

  /** The renderer's merge: at equal sheet_index the header comes first. */
  function HeadersFirst(cues: seq<Placed>, headers: seq<Placed>): (r: seq<Placed>)
    ensures |r| == |cues| + |headers|
    decreases |cues| + |headers|
  {
    if |headers| == 0 then cues
    else if |cues| == 0 then headers
    else if headers[0].index <= cues[0].index then [headers[0]] + HeadersFirst(cues, headers[1..])
    else [cues[0]] + HeadersFirst(cues[1..], headers)
  }

  /** loadSheetSequence's merge: at equal sheet_index the cue comes first. */
  function CuesFirst(cues: seq<Placed>, headers: seq<Placed>): (r: seq<Placed>)
    ensures |r| == |cues| + |headers|
    decreases |cues| + |headers|
  {
    if |headers| == 0 then cues
    else if |cues| == 0 then headers
    else if cues[0].index <= headers[0].index then [cues[0]] + CuesFirst(cues[1..], headers)
    else [headers[0]] + CuesFirst(cues, headers[1..])
  }

  ghost predicate Tie(cues: seq<Placed>, headers: seq<Placed>) {
    exists i, j :: 0 <= i < |cues| && 0 <= j < |headers| && cues[i].index == headers[j].index
  }

  /** The stored order and the drawn order of the same tables agree exactly when
      no cue shares its sheet_index with a header. */
  lemma {:induction false} MergesAgreeIff(cues: seq<Placed>, headers: seq<Placed>)
    requires ByIndex(cues) && ByIndex(headers)
    requires forall i, j :: 0 <= i < |cues| && 0 <= j < |headers| ==> cues[i].item != headers[j].item
    ensures HeadersFirst(cues, headers) == CuesFirst(cues, headers) <==> !Tie(cues, headers)
    decreases |cues| + |headers|
  {
    if |cues| > 0 && |headers| > 0 {
      if cues[0].index == headers[0].index {
        assert HeadersFirst(cues, headers)[0] != CuesFirst(cues, headers)[0];
      } else if cues[0].index < headers[0].index {
        MergesAgreeIff(cues[1..], headers);
        TieWithoutFirstCue(cues, headers);
        ConsEqual(cues[0], HeadersFirst(cues[1..], headers), CuesFirst(cues[1..], headers));
      } else {
        MergesAgreeIff(cues, headers[1..]);
        TieWithoutFirstHeader(cues, headers);
        ConsEqual(headers[0], HeadersFirst(cues, headers[1..]), CuesFirst(cues, headers[1..]));
      }
    }
  }

  lemma ConsEqual<T>(x: T, a: seq<T>, b: seq<T>)
    ensures [x] + a == [x] + b <==> a == b
  {
    assert ([x] + a)[1..] == a && ([x] + b)[1..] == b;
  }

  lemma TieWithoutFirstCue(cues: seq<Placed>, headers: seq<Placed>)
    requires ByIndex(headers) && |cues| > 0 && |headers| > 0 && cues[0].index < headers[0].index
    ensures Tie(cues, headers) <==> Tie(cues[1..], headers)
  {
    if Tie(cues, headers) {
      var i, j :| 0 <= i < |cues| && 0 <= j < |headers| && cues[i].index == headers[j].index;
      assert headers[0].index <= headers[j].index;
      assert cues[1..][i - 1].index == headers[j].index;
    }
    if Tie(cues[1..], headers) {
      var i, j :| 0 <= i < |cues[1..]| && 0 <= j < |headers| && cues[1..][i].index == headers[j].index;
      assert cues[i + 1].index == headers[j].index;
    }
  }

  lemma TieWithoutFirstHeader(cues: seq<Placed>, headers: seq<Placed>)
    requires ByIndex(cues) && |cues| > 0 && |headers| > 0 && headers[0].index < cues[0].index
    ensures Tie(cues, headers) <==> Tie(cues, headers[1..])
  {
    if Tie(cues, headers) {
      var i, j :| 0 <= i < |cues| && 0 <= j < |headers| && cues[i].index == headers[j].index;
      assert cues[0].index <= cues[i].index;
      assert cues[i].index == headers[1..][j - 1].index;
    }
    if Tie(cues, headers[1..]) {
      var i, j :| 0 <= i < |cues| && 0 <= j < |headers[1..]| && cues[i].index == headers[1..][j].index;
      assert cues[i].index == headers[j + 1].index;
    }
  }

  lemma Shift(all: seq<Placed>, done: seq<Placed>, x: Placed, rest: seq<Placed>, later: seq<Placed>)
    requires all == done + rest && rest == [x] + later
    ensures all == (done + [x]) + later
  {
  }

  lemma CueNextLoaded(cues: seq<Placed>, headers: seq<Placed>)
    requires |cues| > 0 && (|headers| > 0 ==> cues[0].index <= headers[0].index)
    ensures CuesFirst(cues, headers) == [cues[0]] + CuesFirst(cues[1..], headers)
  {
    if |headers| == 0 { ConsTail(cues); }
  }

  lemma HeaderNextLoaded(cues: seq<Placed>, headers: seq<Placed>)
    requires |headers| > 0 && (|cues| > 0 ==> cues[0].index > headers[0].index)
    ensures CuesFirst(cues, headers) == [headers[0]] + CuesFirst(cues, headers[1..])
  {
    if |cues| == 0 { ConsTail(headers); }
  }

  /** loadSheetSequence's loop. */
  method LoadSequence(cues: seq<Placed>, headers: seq<Placed>) returns (items: seq<Placed>)
    ensures items == CuesFirst(cues, headers)
  {
    items := [];
    var ci, gi := 0, 0;
    while ci < |cues| || gi < |headers|
      invariant 0 <= ci <= |cues| && 0 <= gi <= |headers|
      invariant CuesFirst(cues, headers) == items + CuesFirst(cues[ci..], headers[gi..])
      decreases |cues| + |headers| - ci - gi
    {
      ghost var rest := CuesFirst(cues[ci..], headers[gi..]);
      if gi >= |headers| || (ci < |cues| && cues[ci].index <= headers[gi].index) {
        CueNextLoaded(cues[ci..], headers[gi..]);
        assert cues[ci..][1..] == cues[ci + 1..];
        Shift(CuesFirst(cues, headers), items, cues[ci], rest, CuesFirst(cues[ci + 1..], headers[gi..]));
        items := items + [cues[ci]];
        ci := ci + 1;
      } else {
        HeaderNextLoaded(cues[ci..], headers[gi..]);
        assert headers[gi..][1..] == headers[gi + 1..];
        Shift(CuesFirst(cues, headers), items, headers[gi], rest, CuesFirst(cues[ci..], headers[gi + 1..]));
        items := items + [headers[gi]];
        gi := gi + 1;
      }
    }
  }

  /** sort.Slice by SheetIndex: some sorted permutation; equal indexes may come
      out in any order, so nothing more is promised. */
  method SortByIndex(s: seq<Placed>) returns (r: seq<Placed>)
    ensures multiset(r) == multiset(s) && ByIndex(r)
  {
    r := [];
    for i := 0 to |s|
      invariant multiset(r) == multiset(s[..i]) && ByIndex(r)
    {
      assert s[..i + 1] == s[..i] + [s[i]];
      r := InsertByIndex(r, s[i]);
    }
    assert s[..|s|] == s;
  }

  method InsertByIndex(s: seq<Placed>, x: Placed) returns (r: seq<Placed>)
    requires ByIndex(s)
    ensures multiset(r) == multiset(s) + multiset{x} && ByIndex(r)
  {
    var k := 0;
    while k < |s| && s[k].index <= x.index
      invariant 0 <= k <= |s|
      invariant forall m :: 0 <= m < k ==> s[m].index <= x.index
    {
      k := k + 1;
    }
    r := s[..k] + [x] + s[k..];
    InsertCounts(s, k, x);
    InsertOrders(s, k, x);
  }

  lemma InsertCounts(s: seq<Placed>, k: nat, x: Placed)
    requires k <= |s|
    ensures multiset(s[..k] + [x] + s[k..]) == multiset(s) + multiset{x}
  {
    assert s[..k] + s[k..] == s;
  }

  lemma InsertOrders(s: seq<Placed>, k: nat, x: Placed)
    requires ByIndex(s) && k <= |s|
    requires forall m :: 0 <= m < k ==> s[m].index <= x.index
    requires k < |s| ==> x.index <= s[k].index
    ensures ByIndex(s[..k] + [x] + s[k..])
  {
    var r := s[..k] + [x] + s[k..];
    forall i, j | 0 <= i < j < |r| ensures r[i].index <= r[j].index {
      var a, b := if i < k then i else i - 1, if j < k then j else j - 1;
      assert i == k || r[i] == s[a];
      assert j == k || r[j] == s[b];
    }
  }

  lemma HeaderNext(cues: seq<Placed>, headers: seq<Placed>)
    requires |headers| > 0 && (|cues| > 0 ==> headers[0].index <= cues[0].index)
    ensures HeadersFirst(cues, headers) == [headers[0]] + HeadersFirst(cues, headers[1..])
  {
    if |cues| == 0 { ConsTail(headers); }
  }

  lemma CueNext(cues: seq<Placed>, headers: seq<Placed>)
    requires |cues| > 0 && (|headers| > 0 ==> headers[0].index > cues[0].index)
    ensures HeadersFirst(cues, headers) == [cues[0]] + HeadersFirst(cues[1..], headers)
  {
    if |headers| == 0 { ConsTail(cues); }
  }

  /** Headers that are not after the cue come out first. */
  lemma {:induction false} TakeSome(cues: seq<Placed>, groups: seq<Placed>, n: nat)
    requires |cues| > 0 && n <= |groups| && forall k :: 0 <= k < n ==> groups[k].index <= cues[0].index
    ensures HeadersFirst(cues, groups) == groups[..n] + HeadersFirst(cues, groups[n..])
    decreases n
  {
    if n == 0 {
      assert groups[n..] == groups;
    } else {
      HeaderNext(cues, groups);
      TakeSome(cues, groups[1..], n - 1);
      assert groups[1..][n - 1..] == groups[n..];
      assert groups[..n] == [groups[0]] + groups[1..][..n - 1];
    }
  }

  lemma {:induction false} HeadersTaken(all: seq<Placed>, done: seq<Placed>, cues: seq<Placed>, groups: seq<Placed>, from: nat, to: nat)
    requires |cues| > 0 && from <= to <= |groups| && forall k :: from <= k < to ==> groups[k].index <= cues[0].index
    requires all == done + HeadersFirst(cues, groups[from..])
    ensures all == (done + groups[from..to]) + HeadersFirst(cues, groups[to..])
  {
    TakeSome(cues, groups[from..], to - from);
    assert groups[from..][to - from..] == groups[to..] && groups[from..][..to - from] == groups[from..to];
    Assoc(done, groups[from..to], HeadersFirst(cues, groups[to..]));
  }

  /** The headers that go before the next cue. */
  method TakeHeaders(cues: seq<Placed>, groups: seq<Placed>, ci: nat, gi0: nat, items0: seq<Placed>) returns (gi: nat, items: seq<Placed>)
    requires ci < |cues| && gi0 <= |groups|
    requires HeadersFirst(cues, groups) == items0 + HeadersFirst(cues[ci..], groups[gi0..])
    ensures gi <= |groups| && (gi < |groups| ==> groups[gi].index > cues[ci].index)
    ensures HeadersFirst(cues, groups) == items + HeadersFirst(cues[ci..], groups[gi..])
  {
    gi, items := gi0, items0;
    while gi < |groups| && groups[gi].index <= cues[ci].index
      invariant gi0 <= gi <= |groups| && items == items0 + groups[gi0..gi]
      invariant forall k :: gi0 <= k < gi ==> groups[k].index <= cues[ci].index
    {
      assert groups[gi0..gi + 1] == groups[gi0..gi] + [groups[gi]];
      items := items + [groups[gi]];
      gi := gi + 1;
    }
    HeadersTaken(HeadersFirst(cues, groups), items0, cues[ci..], groups, gi0, gi);
  }

  /** The merge loop at the head of FlattenSheet: cues in query order, headers
      sorted here. */
  method MergeForDisplay(cues: seq<Placed>, headers: seq<Placed>) returns (items: seq<Placed>, sorted: seq<Placed>)
    ensures multiset(sorted) == multiset(headers) && ByIndex(sorted)
    ensures items == HeadersFirst(cues, sorted)
  {
    var groups := SortByIndex(headers);
    sorted := groups;
    items := [];
    var gi := 0;
    for ci := 0 to |cues|
      invariant 0 <= gi <= |groups|
      invariant HeadersFirst(cues, groups) == items + HeadersFirst(cues[ci..], groups[gi..])
    {
      gi, items := TakeHeaders(cues, groups, ci, gi, items);
      CueNext(cues[ci..], groups[gi..]);
      assert cues[ci..][1..] == cues[ci + 1..];
      Shift(HeadersFirst(cues, groups), items, cues[ci], HeadersFirst(cues[ci..], groups[gi..]), HeadersFirst(cues[ci + 1..], groups[gi..]));
      items := items + [cues[ci]];
    }
    while gi < |groups|
      invariant 0 <= gi <= |groups|
      invariant HeadersFirst(cues, groups) == items + groups[gi..]
    {
      items := items + [groups[gi]];
      gi := gi + 1;
    }
  }

  // ------------------------------------------------------------- rendering

  /** The hidden and depthOf tables FlattenSheet fills before drawing.  The loop
      ends on any table; on a forest it finds the true depths. */
  method HeaderFacts(g: Groups, ghost d: map<int, nat>) returns (hidden: set<int>, depthOf: map<int, nat>)
    ensures depthOf.Keys == g.Keys
    ensures Depths(g, d) ==> FactsHold(g, d, hidden, depthOf)
  {
    hidden, depthOf := {}, map[];
    var todo := g.Keys;
    while todo != {}
      invariant todo <= g.Keys && depthOf.Keys == g.Keys - todo && hidden <= depthOf.Keys
      invariant Depths(g, d) ==> FactsHold(g, d, hidden, depthOf)
      decreases |todo|
    {
      ghost var x := PickFrom(todo);
      var gid: int :| gid in todo;
      var chain := GroupWalks.GroupAncestors(gid, g, d);
      depthOf := depthOf[gid := |chain|];
      var above := AnyCollapsed(chain, g);
      if above {
        hidden := hidden + {gid};
      }
      if Depths(g, d) {
        HiddenIff(g, d, gid);
      }
      todo := todo - {gid};
    }
  }

  ghost predicate FactsHold(g: Groups, d: map<int, nat>, hidden: set<int>, depthOf: map<int, nat>)
    requires Depths(g, d)
  {
    forall gid :: gid in depthOf ==> gid in g && depthOf[gid] == d[gid] && (gid in hidden <==> Hidden(g, d, gid))
  }

  method AnyCollapsed(chain: seq<int>, g: Groups) returns (above: bool)
    ensures above <==> exists k :: 0 <= k < |chain| && chain[k] in g && g[chain[k]].collapse
  {
    for i := 0 to |chain|
      invariant forall k :: 0 <= k < i ==> chain[k] !in g || !g[chain[k]].collapse
    {
      if chain[i] in g && g[chain[i]].collapse {
        return true;
      }
    }
    return false;
  }

  ghost predicate GroupsOf(g: Groups, chain: seq<int>) {
    forall k :: 0 <= k < |chain| ==> chain[k] in g
  }

  ghost predicate SomeCollapsed(g: Groups, chain: seq<int>)
    requires GroupsOf(g, chain)
  {
    exists k :: 0 <= k < |chain| && g[chain[k]].collapse
  }

  lemma {:induction false} HiddenIff(g: Groups, d: map<int, nat>, gid: int)
    requires Depths(g, d) && gid in g
    ensures var chain := Ancestors(g, d, gid);
      GroupsOf(g, chain) && (Hidden(g, d, gid) <==> SomeCollapsed(g, chain))
    decreases d[gid]
  {
    var p := g[gid].parent;
    if p != 0 {
      HiddenIff(g, d, p);
      CollapsedInChain(g, Ancestors(g, d, p), p);
    }
  }

  lemma CollapsedInChain(g: Groups, above: seq<int>, p: int)
    requires p in g && GroupsOf(g, above)
    ensures GroupsOf(g, [p] + above) && (SomeCollapsed(g, [p] + above) <==> g[p].collapse || SomeCollapsed(g, above))
  {
    var chain := [p] + above;
    assert chain[0] == p;
    forall k | 1 <= k < |chain| ensures chain[k] == above[k - 1] {}
    forall k | 0 <= k < |above| ensures chain[k + 1] == above[k] {}
  }

  ghost predicate KnownSpans(s: Sheet, stack: seq<Span>) {
    forall i :: 0 <= i < |stack| ==> stack[i].gid in s.groups
  }

  /** The drawing loop.  Its rows are Render's, so everything proved of Render
      holds of what the operator sees. */
  method Draw(s: Sheet, ghost d: map<int, nat>) returns (rows: seq<FlatRow>)
    requires HeadersKnown(s)
    ensures Depths(s.groups, d) ==> rows == Render(s, d, |s.items|).rows
  {
    var hidden, depthOf := HeaderFacts(s.groups, d);
    rows := [];
    var stack: seq<Span> := [];
    for k := 0 to |s.items|
      invariant Depths(s.groups, d) ==> Fold(stack, rows) == Render(s, d, k)
      invariant KnownSpans(s, stack)
    {
      stack, rows := DrawItem(s, stack, rows, s.items[k], hidden, depthOf, d);
    }
  }

  method CloseSpansTo(stack0: seq<Span>, depth: int) returns (stack: seq<Span>)
    ensures stack == CloseTo(stack0, depth)
  {
    stack := stack0;
    while |stack| > 0 && stack[|stack| - 1].depth >= depth
      invariant CloseTo(stack, depth) == CloseTo(stack0, depth)
    {
      stack := stack[..|stack| - 1];
    }
  }

  method SurfaceSpan(stack0: seq<Span>, parent: int) returns (stack: seq<Span>)
    requires |stack0| > 0
    ensures stack == Surface(stack0, parent)
  {
    stack := stack0;
    if parent != stack0[|stack0| - 1].gid {
      var i := |stack0| - 1;
      while i >= 0
        invariant -1 <= i < |stack0|
        invariant FindSpan(stack0, parent) == FindSpan(stack0[..i + 1], parent)
      {
        assert stack0[..i + 1][..i] == stack0[..i];
        if stack0[i].gid == parent {
          stack := CloseSpansTo(stack0, stack0[i].depth + 1);
          return;
        }
        i := i - 1;
      }
    }
  }

  method DrawItem(s: Sheet, stack0: seq<Span>, rows0: seq<FlatRow>, item: SheetItem,
                  hidden: set<int>, depthOf: map<int, nat>, ghost d: map<int, nat>)
    returns (stack: seq<Span>, rows: seq<FlatRow>)
    requires KnownSpans(s, stack0) && (item.Header? ==> item.gid in s.groups)
    requires depthOf.Keys == s.groups.Keys
    requires Depths(s.groups, d) ==> FactsHold(s.groups, d, hidden, depthOf)
    ensures Depths(s.groups, d) ==> Fold(stack, rows) == Step(s, d, Fold(stack0, rows0), item)
    ensures KnownSpans(s, stack)
  {
    stack, rows := stack0, rows0;
    if item.Header? {
      var gid := item.gid;
      var depth := depthOf[gid];
      stack := CloseSpansTo(stack, depth);
      if gid in hidden {
        stack := stack + [Span(gid, depth, true)];
        return;
      }
      rows := rows + [FlatRow(item, depth)];
      stack := stack + [Span(gid, depth, s.groups[gid].collapse)];
      return;
    }
    if |stack| == 0 {
      rows := rows + [FlatRow(item, 0)];
      return;
    }
    var parent := Scope(s, item);
    stack := SurfaceSpan(stack, parent);
    if |stack| == 0 {
      rows := rows + [FlatRow(item, 0)];
      return;
    }
    var top := stack[|stack| - 1];
    if top.skipping {
      var inside := GroupWalks.CueInCollapsed(parent, top.gid, s.groups, d);
      if inside {
        return;
      }
    }
    rows := rows + [FlatRow(item, if parent != top.gid then 0 else top.depth + 1)];
  }
}
