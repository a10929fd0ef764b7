/** Renumbering the cues (ctp/ctp.go: ReorderCues, RemoveCue, AddCue): cuePos is a
    unique column, and every row update has to leave it unique. */
module Reindex {
  import opened Util

  /** One cue by its permanent cue_id: where it is numbered and where it is drawn. */
  datatype Row = Row(pos: int, index: real)

  type Rows = map<int, Row>

  predicate Unique(rows: Rows) {
    forall a, b | a in rows && b in rows && a != b :: rows[a].pos != rows[b].pos
  }

  predicate Positive(rows: Rows) {
    forall a | a in rows :: rows[a].pos >= 1
  }

  /** UPDATE cuesheet SET cuePos = to WHERE cuePos = from. */
  function Moved(rows: Rows, from: int, to: int): Rows {
    map a | a in rows :: if rows[a].pos == from then rows[a].(pos := to) else rows[a]
  }

  predicate Holds(rows: Rows, pos: int) {
    exists a | a in rows :: rows[a].pos == pos
  }

  /** ORDER BY sheet_index, cuePos. */
  predicate DrawnBefore(a: Row, b: Row) {
    a.index < b.index || (a.index == b.index && a.pos < b.pos)
  }

  /** order lists the positions as they are drawn. */
  ghost predicate VisualOrder(rows: Rows, order: seq<int>) {
    && Distinct(order)
    && (forall a :: a in rows ==> rows[a].pos in order)
    && (forall i :: 0 <= i < |order| ==> Holds(rows, order[i]))
    && forall a, b :: a in rows && b in rows && DrawnBefore(rows[a], rows[b]) ==>
        Rank(order, rows[a].pos) < Rank(order, rows[b].pos)
  }

  function Rank(order: seq<int>, p: int): (r: nat)
    ensures r <= |order|
    ensures p in order ==> r < |order| && order[r] == p
  {
    if |order| == 0 then 0
    else
      assert order == [order[0]] + order[1..];
      if order[0] == p then 0 else 1 + Rank(order[1..], p)
  }

  lemma {:induction false} RankAt(order: seq<int>, i: nat)
    requires Distinct(order) && i < |order|
    ensures Rank(order, order[i]) == i
  {
    if i > 0 {
      assert order[1..][i - 1] == order[i];
      RankAt(order[1..], i - 1);
    }
  }

  // ------------------------------------------------------------ two passes

  /** The final numbering: 1.. in visual order. */
  function Renumbered(rows: Rows, order: seq<int>): Rows {
    map a | a in rows :: rows[a].(pos := Rank(order, rows[a].pos) + 1)
  }

  /** After the first k rows have been negated. */
  function Negated(rows: Rows, order: seq<int>, k: nat): Rows {
    map a | a in rows :: rows[a].(pos := NegatedPos(order, k, rows[a].pos))
  }

  function NegatedPos(order: seq<int>, k: nat, p: int): int {
    var r := Rank(order, p);
    if r < k && p != r + 1 then -p else p
  }

  /** After the first k rows have been given their final place. */
  function Assigned(rows: Rows, order: seq<int>, k: nat): Rows {
    map a | a in rows :: rows[a].(pos := AssignedPos(order, k, rows[a].pos))
  }

  function AssignedPos(order: seq<int>, k: nat, p: int): int {
    var r := Rank(order, p);
    if r < k || p == r + 1 then r + 1 else -p
  }

  ghost predicate Ready(rows: Rows, order: seq<int>) {
    Unique(rows) && Positive(rows) && Distinct(order) && forall a :: a in rows ==> rows[a].pos in order
  }

  lemma NegatedUnique(rows: Rows, order: seq<int>, k: nat)
    requires Ready(rows, order)
    ensures Unique(Negated(rows, order, k))
  {
  }

  lemma AssignedUnique(rows: Rows, order: seq<int>, k: nat)
    requires Ready(rows, order)
    ensures Unique(Assigned(rows, order, k))
  {
    forall a, b | a in rows && b in rows && a != b
      ensures AssignedPos(order, k, rows[a].pos) != AssignedPos(order, k, rows[b].pos)
    {
      assert order[Rank(order, rows[a].pos)] == rows[a].pos && order[Rank(order, rows[b].pos)] == rows[b].pos;
    }
  }

  lemma NegateOne(rows: Rows, order: seq<int>, k: nat)
    requires Ready(rows, order) && k < |order| && order[k] >= 1
    ensures order[k] != k + 1 ==> Moved(Negated(rows, order, k), order[k], -order[k]) == Negated(rows, order, k + 1)
    ensures order[k] == k + 1 ==> Negated(rows, order, k) == Negated(rows, order, k + 1)
  {
    RankAt(order, k);
    forall a | a in rows
      ensures NegatedPos(order, k + 1, rows[a].pos) ==
        if order[k] != k + 1 && NegatedPos(order, k, rows[a].pos) == order[k] then -order[k] else NegatedPos(order, k, rows[a].pos)
    {
      assert order[Rank(order, rows[a].pos)] == rows[a].pos;
    }
  }

  lemma AssignOne(rows: Rows, order: seq<int>, k: nat)
    requires Ready(rows, order) && k < |order| && order[k] >= 1
    ensures order[k] != k + 1 ==> Moved(Assigned(rows, order, k), -order[k], k + 1) == Assigned(rows, order, k + 1)
    ensures order[k] == k + 1 ==> Assigned(rows, order, k) == Assigned(rows, order, k + 1)
  {
    RankAt(order, k);
    forall a | a in rows
      ensures AssignedPos(order, k + 1, rows[a].pos) ==
        if order[k] != k + 1 && AssignedPos(order, k, rows[a].pos) == -order[k] then k + 1 else AssignedPos(order, k, rows[a].pos)
    {
      assert order[Rank(order, rows[a].pos)] == rows[a].pos;
    }
  }

  lemma PassesMeet(rows: Rows, order: seq<int>)
    requires Ready(rows, order)
    ensures Negated(rows, order, 0) == rows
    ensures Negated(rows, order, |order|) == Assigned(rows, order, 0)
    ensures Assigned(rows, order, |order|) == Renumbered(rows, order)
  {
    forall a | a in rows
      ensures NegatedPos(order, 0, rows[a].pos) == rows[a].pos
      ensures NegatedPos(order, |order|, rows[a].pos) == AssignedPos(order, 0, rows[a].pos)
      ensures AssignedPos(order, |order|, rows[a].pos) == Rank(order, rows[a].pos) + 1
    {
    }
    SameRows(Negated(rows, order, 0), rows);
    SameRows(Negated(rows, order, |order|), Assigned(rows, order, 0));
    SameRows(Assigned(rows, order, |order|), Renumbered(rows, order));
  }

  lemma SameRows(r: Rows, s: Rows)
    requires r.Keys == s.Keys && forall a :: a in r ==> r[a].pos == s[a].pos && r[a].index == s[a].index
    ensures r == s
  {
    forall a | a in r ensures r[a] == s[a] {
      assert r[a] == Row(s[a].pos, s[a].index);
    }
  }

  // --------------------------------------------------------- the numbering

  lemma RenumberedFacts(rows: Rows, order: seq<int>)
    requires Ready(rows, order)
    ensures var r := Renumbered(rows, order);
      && r.Keys == rows.Keys && Unique(r) && Positive(r)
      && (forall a :: a in rows ==> r[a].index == rows[a].index && 1 <= r[a].pos <= |order|)
  {
    PassesMeet(rows, order);
    AssignedUnique(rows, order, |order|);
  }

  function UpTo(n: nat): (s: seq<int>)
    ensures |s| == n && forall i :: 0 <= i < n ==> s[i] == i + 1
  {
    seq(n, i => i + 1)
  }

  /** Afterwards the positions are 1 .. N, cues are numbered as they are drawn, and
      drawing order itself is unchanged: reading the table gives 1, 2, .., N. */
  lemma NumberedAsDrawn(rows: Rows, order: seq<int>)
    requires Ready(rows, order) && VisualOrder(rows, order)
    ensures var r := Renumbered(rows, order);
      && VisualOrder(r, UpTo(|order|))
      && forall a, b :: a in rows && b in rows ==> (DrawnBefore(rows[a], rows[b]) <==> DrawnBefore(r[a], r[b]))
  {
    var r := Renumbered(rows, order);
    RenumberedFacts(rows, order);
    DrawnAsBefore(rows, order);
    var now := UpTo(|order|);
    forall a | a in r ensures r[a].pos in now && Rank(now, r[a].pos) == r[a].pos - 1 {
      assert now[r[a].pos - 1] == r[a].pos;
      RankAt(now, r[a].pos - 1);
    }
    forall i | 0 <= i < |now| ensures Holds(r, now[i]) { EveryNumber(rows, order, i); }
  }

  lemma EveryNumber(rows: Rows, order: seq<int>, i: nat)
    requires VisualOrder(rows, order) && i < |order|
    ensures Holds(Renumbered(rows, order), i + 1)
  {
    assert Holds(rows, order[i]);
    var a :| a in rows && rows[a].pos == order[i];
    RankAt(order, i);
    assert Renumbered(rows, order)[a].pos == i + 1;
  }

  lemma DrawnAsBefore(rows: Rows, order: seq<int>)
    requires Ready(rows, order) && VisualOrder(rows, order)
    ensures var r := Renumbered(rows, order);
      forall a, b :: a in rows && b in rows ==> (DrawnBefore(rows[a], rows[b]) <==> DrawnBefore(r[a], r[b]))
  {
    var r := Renumbered(rows, order);
    forall a, b | a in rows && b in rows ensures DrawnBefore(rows[a], rows[b]) <==> DrawnBefore(r[a], r[b]) {
      if a != b {
        assert rows[a].pos != rows[b].pos && order[Rank(order, rows[a].pos)] == rows[a].pos && order[Rank(order, rows[b].pos)] == rows[b].pos;
        assert DrawnBefore(rows[a], rows[b]) || DrawnBefore(rows[b], rows[a]);
      }
    }
  }

  /** Numbering a numbered table changes nothing. */
  lemma RenumberTwice(rows: Rows, order: seq<int>)
    requires Ready(rows, order) && VisualOrder(rows, order)
    ensures Renumbered(Renumbered(rows, order), UpTo(|order|)) == Renumbered(rows, order)
  {
    var r := Renumbered(rows, order);
    forall a | a in rows ensures Renumbered(r, UpTo(|order|))[a].pos == r[a].pos {
      assert order[Rank(order, rows[a].pos)] == rows[a].pos;
      RankAt(UpTo(|order|), Rank(order, rows[a].pos));
    }
    SameRows(Renumbered(r, UpTo(|order|)), r);
  }

  // ---------------------------------------------------------- the insertion

  /** Every row from at on moves up by one. */
  function Bumped(rows: Rows, at: int): Rows {
    map a | a in rows :: if rows[a].pos >= at then rows[a].(pos := rows[a].pos + 1) else rows[a]
  }

  /** The rows above p have already moved. */
  function BumpedAbove(rows: Rows, at: int, p: int): Rows {
    map a | a in rows :: if rows[a].pos >= at && rows[a].pos > p then rows[a].(pos := rows[a].pos + 1) else rows[a]
  }

  lemma BumpOne(rows: Rows, at: int, p: int)
    requires Unique(rows) && p >= at
    ensures Moved(BumpedAbove(rows, at, p), p, p + 1) == BumpedAbove(rows, at, p - 1)
    ensures Unique(BumpedAbove(rows, at, p - 1))
  {
  }

  /** Between one position and the next one held there is nothing to bump. */
  lemma BumpGap(rows: Rows, at: int, p: int, q: int)
    requires p <= q && forall a :: a in rows && rows[a].pos >= at ==> rows[a].pos <= p || rows[a].pos > q
    ensures BumpedAbove(rows, at, q) == BumpedAbove(rows, at, p)
  {
    SameRows(BumpedAbove(rows, at, q), BumpedAbove(rows, at, p));
  }

  lemma BumpEnds(rows: Rows, at: int, p: int)
    requires p < at
    ensures BumpedAbove(rows, at, p) == Bumped(rows, at)
  {
    SameRows(BumpedAbove(rows, at, p), Bumped(rows, at));
  }

  /** A table numbered 1 .. n stays numbered, with the slot at free for the insert. */
  ghost predicate Numbered(rows: Rows, n: nat) {
    && Unique(rows)
    && (forall a :: a in rows ==> 1 <= rows[a].pos <= n)
    && (forall p :: 1 <= p <= n ==> Holds(rows, p))
  }

  lemma InsertKeepsNumbered(rows: Rows, n: nat, id: int, index: real, at: int)
    requires Numbered(rows, n) && id !in rows && 1 <= at <= n + 1
    ensures Numbered(Bumped(rows, at)[id := Row(at, index)], n + 1)
  {
    var r := Bumped(rows, at)[id := Row(at, index)];
    forall p | 1 <= p <= n + 1 ensures Holds(r, p) {
      if p == at {
        assert r[id].pos == p;
      } else {
        var was := if p < at then p else p - 1;
        assert Holds(rows, was);
        var a :| a in rows && rows[a].pos == was;
        assert a in r && r[a].pos == p;
      }
    }
  }

  /** Inserts leave the selection alone: it still names its cue exactly when the
      cue sits above the insert. */
  lemma InsertKeepsSelectionIff(rows: Rows, a: int, at: int)
    requires a in rows
    ensures Bumped(rows, at)[a].pos == rows[a].pos <==> rows[a].pos < at
  {
  }

  // ------------------------------------------------------------ the removal

  function Without(rows: Rows, pos: int): Rows {
    map a | a in rows && rows[a].pos != pos :: rows[a]
  }

  /** The selection after a removal: it follows its cue, or is cleared; a group
      selection (negative) is cleared too. */
  function SelectionAfter(order: seq<int>, selected: int, removed: int): int {
    if selected == removed || selected !in order then 0 else Rank(order, selected) + 1
  }

  lemma RemovalReady(rows: Rows, order: seq<int>, pos: int)
    requires Unique(rows) && Positive(rows) && VisualOrder(Without(rows, pos), order)
    ensures Ready(Without(rows, pos), order)
    ensures forall i :: 0 <= i < |order| ==> order[i] >= 1
  {
  }

  /** A cue selection names the same cue afterwards, by its permanent id, unless
      that cue was removed; and then, as for a group selection, nothing is selected. */
  lemma SelectionFollows(rows: Rows, order: seq<int>, selected: int, removed: int)
    requires Unique(rows) && Positive(rows) && VisualOrder(Without(rows, removed), order)
    ensures var r := Renumbered(Without(rows, removed), order); var now := SelectionAfter(order, selected, removed);
      && (forall a :: a in rows && rows[a].pos == selected && selected != removed ==> a in r && r[a].pos == now)
      && (now != 0 ==> selected >= 1 && forall a :: a in r && r[a].pos == now ==> rows[a].pos == selected)
      && (now == 0 <==> selected == removed || !Holds(rows, selected))
  {
    RemovalReady(rows, order, removed);
    var left := Without(rows, removed);
    assert selected in order ==> Holds(left, selected);
    forall a | a in left ensures Rank(order, left[a].pos) < |order| && order[Rank(order, left[a].pos)] == left[a].pos {}
  }

  /** The selection after a reorder: a cue selection is remapped, anything else,
      a group selection included, is left as it is. */
  function SelectionRemapped(order: seq<int>, selected: int): int {
    if selected in order then Rank(order, selected) + 1 else selected
  }

  /** What is selected is a cue that was selected before, or no cue. */
  ghost predicate NamesNoOther(rows: Rows, r: Rows, selected: int, now: int) {
    forall a :: a in rows && a in r && r[a].pos == now ==> rows[a].pos == selected
  }

  /** The selected cue, by its permanent id, stays selected, and a group selection stays.
      No other cue becomes selected exactly when the selection named a cue to begin with,
      or no number in use afterwards. */
  lemma RemapRightIff(rows: Rows, order: seq<int>, selected: int)
    requires Ready(rows, order) && VisualOrder(rows, order)
    ensures var r := Renumbered(rows, order); var now := SelectionRemapped(order, selected);
      && (forall a :: a in rows && rows[a].pos == selected ==> r[a].pos == now)
      && (NamesNoOther(rows, r, selected, now) <==> Holds(rows, selected) || !(1 <= selected <= |order|))
      && (selected < 0 ==> now == selected)
  {
    forall a | a in rows ensures Rank(order, rows[a].pos) < |order| && order[Rank(order, rows[a].pos)] == rows[a].pos {}
    if selected in order {
      var i := Rank(order, selected);
      assert Holds(rows, order[i]);
    } else if 1 <= selected <= |order| {
      assert Holds(rows, order[selected - 1]);
      var a :| a in rows && rows[a].pos == order[selected - 1];
      RankAt(order, selected - 1);
      assert Renumbered(rows, order)[a].pos == selected;
    }
  }

  // ------------------------------------------------- deleting several cues

  function WithoutAll(rows: Rows, gone: set<int>): Rows {
    map a | a in rows && rows[a].pos !in gone :: rows[a]
  }

  lemma DeletionReady(rows: Rows, order: seq<int>, gone: set<int>)
    requires Unique(rows) && Positive(rows) && VisualOrder(WithoutAll(rows, gone), order)
    ensures Ready(WithoutAll(rows, gone), order)
  {
  }

  /** After a bulk delete: remapped as by any reorder, then cleared when the number it
      has now is one of the numbers deleted. */
  function SelectionAfterBulk(order: seq<int>, selected: int, gone: set<int>): int {
    var now := SelectionRemapped(order, selected);
    if now in gone then 0 else now
  }

  /** A cue that was deleted is not selected any more; one that survives stays selected
      exactly when its new number is not the old number of a deleted one. */
  lemma BulkSelectionIff(rows: Rows, order: seq<int>, a: int, gone: set<int>)
    requires Unique(rows) && Positive(rows) && VisualOrder(WithoutAll(rows, gone), order) && a in rows
    ensures var r := Renumbered(WithoutAll(rows, gone), order); var now := SelectionAfterBulk(order, rows[a].pos, gone);
      if rows[a].pos in gone then now == 0
      else a in r && now == (if r[a].pos in gone then 0 else r[a].pos)
  {
    var left := WithoutAll(rows, gone);
    DeletionReady(rows, order, gone);
    assert rows[a].pos in order ==> Holds(left, rows[a].pos);
    if rows[a].pos !in gone { assert a in left; }
  }

  // ------------------------------------------- the new number, counted before

  /** The deleted numbers below p. */
  function GoneBelow(gone: set<int>, p: int): set<int> {
    set q | q in gone && 1 <= q < p
  }

  /** The numbers 1 .. p - 1. */
  function NumbersBelow(p: nat): (s: set<int>)
    requires p >= 1
    ensures |s| == p - 1 && forall q :: q in s <==> 1 <= q < p
  {
    if p == 1 then {} else NumbersBelow(p - 1) + {p - 1}
  }

  /** On a table numbered as it is drawn the survivors are read by their numbers. */
  lemma SurvivorsAscend(rows: Rows, n: nat, order: seq<int>, gone: set<int>, i: nat, j: nat)
    requires Unique(rows) && VisualOrder(rows, UpTo(n)) && VisualOrder(WithoutAll(rows, gone), order) && i < j < |order|
    ensures order[i] < order[j]
  {
    var left := WithoutAll(rows, gone);
    assert Holds(left, order[i]) && Holds(left, order[j]);
    var a :| a in left && left[a].pos == order[i];
    var b :| b in left && left[b].pos == order[j];
    RankAt(order, i);
    RankAt(order, j);
    assert !DrawnBefore(left[b], left[a]);
    assert DrawnBefore(rows[a], rows[b]);
    assert UpTo(n)[Rank(UpTo(n), order[i])] == order[i] && UpTo(n)[Rank(UpTo(n), order[j])] == order[j];
  }

  lemma SurvivorsBelow(rows: Rows, n: nat, order: seq<int>, gone: set<int>, p: int)
    requires Unique(rows) && VisualOrder(rows, UpTo(n)) && VisualOrder(WithoutAll(rows, gone), order) && p in order
    ensures p >= 1 && (set q | q in order[..Rank(order, p)]) == NumbersBelow(p) - GoneBelow(gone, p)
  {
    var r := Rank(order, p);
    var left := WithoutAll(rows, gone);
    assert Holds(left, order[r]);
    forall q ensures q in order[..r] <==> 1 <= q < p && q !in gone {
      if q in order[..r] {
        var i :| 0 <= i < r && order[i] == q;
        SurvivorsAscend(rows, n, order, gone, i, r);
        assert Holds(left, order[i]);
      }
      if 1 <= q < p && q !in gone { SurvivorRead(rows, n, order, gone, q, r); }
    }
    var a :| a in left && left[a].pos == p;
    assert rows[a].pos in UpTo(n);
  }

  lemma SurvivorRead(rows: Rows, n: nat, order: seq<int>, gone: set<int>, q: int, r: nat)
    requires Unique(rows) && VisualOrder(rows, UpTo(n)) && VisualOrder(WithoutAll(rows, gone), order) && r < |order|
    requires 1 <= q < order[r] && q !in gone
    ensures q in order[..r]
  {
    assert Holds(WithoutAll(rows, gone), order[r]);
    NumberHeld(rows, n, q, order[r]);
    var b :| b in rows && rows[b].pos == q;
    assert b in WithoutAll(rows, gone);
    forall k | r < k < |order| ensures order[k] != q { SurvivorsAscend(rows, n, order, gone, r, k); }
    assert order[Rank(order, q)] == q;
  }

  lemma NumberHeld(rows: Rows, n: nat, q: int, p: int)
    requires VisualOrder(rows, UpTo(n)) && Holds(rows, p) && 1 <= q < p
    ensures Holds(rows, q)
  {
    var c :| c in rows && rows[c].pos == p;
    assert rows[c].pos in UpTo(n);
    assert Holds(rows, UpTo(n)[q - 1]);
  }

  /** On a table numbered as it is drawn a survivor's new number is its old one less the
      deleted ones below it. */
  lemma NewNumber(rows: Rows, n: nat, order: seq<int>, a: int, gone: set<int>)
    requires Unique(rows) && Positive(rows) && VisualOrder(rows, UpTo(n)) && VisualOrder(WithoutAll(rows, gone), order)
    requires a in rows && rows[a].pos !in gone
    ensures a in WithoutAll(rows, gone)
    ensures Renumbered(WithoutAll(rows, gone), order)[a].pos == rows[a].pos - |GoneBelow(gone, rows[a].pos)|
  {
    var p := rows[a].pos;
    assert a in WithoutAll(rows, gone) && p in order;
    SurvivorsBelow(rows, n, order, gone, p);
    RankIsCount(order, p, gone);
  }

  lemma RankIsCount(order: seq<int>, p: int, gone: set<int>)
    requires Distinct(order) && p in order && p >= 1
    requires (set q | q in order[..Rank(order, p)]) == NumbersBelow(p) - GoneBelow(gone, p)
    ensures Rank(order, p) == p - 1 - |GoneBelow(gone, p)|
  {
    var r := Rank(order, p);
    assert Distinct(order[..r]) by { assert forall i :: 0 <= i < r ==> order[..r][i] == order[i]; }
    DistinctCard(order[..r]);
    var all := NumbersBelow(p);
    assert all == (all - GoneBelow(gone, p)) + GoneBelow(gone, p);
  }

  /** So, counted before the call: a surviving selection is kept exactly when that number
      is not one of those deleted, and cleared otherwise. */
  lemma BulkSelectionCounts(rows: Rows, n: nat, order: seq<int>, a: int, gone: set<int>)
    requires Unique(rows) && Positive(rows) && VisualOrder(rows, UpTo(n)) && VisualOrder(WithoutAll(rows, gone), order)
    requires a in rows && rows[a].pos !in gone
    ensures var to := rows[a].pos - |GoneBelow(gone, rows[a].pos)|; var now := SelectionAfterBulk(order, rows[a].pos, gone);
      && Renumbered(WithoutAll(rows, gone), order)[a].pos == to
      && (now == to <==> to !in gone) && (to in gone ==> now == 0)
  {
    BulkSelectionIff(rows, order, a, gone);
    NewNumber(rows, n, order, a, gone);
    assert Renumbered(WithoutAll(rows, gone), order)[a].pos >= 1;
  }

  // ------------------------------------------- the indexes a reorder writes

  /** The cues get the indexes of their places in the rewritten sequence. */
  function Reseated(rows: Rows, order: seq<int>, seats: seq<real>): Rows
    requires |seats| == |order|
  {
    map a | a in rows :: if rows[a].pos in order then rows[a].(index := seats[Rank(order, rows[a].pos)]) else rows[a]
  }

  predicate Rising(seats: seq<real>) {
    forall i, j :: 0 <= i < j < |seats| ==> seats[i] < seats[j]
  }

  lemma ReseatedKeeps(rows: Rows, order: seq<int>, seats: seq<real>)
    requires Unique(rows) && VisualOrder(rows, order) && |seats| == |order| && Rising(seats)
    ensures Unique(Reseated(rows, order, seats)) && VisualOrder(Reseated(rows, order, seats), order)
    ensures Positive(rows) ==> Positive(Reseated(rows, order, seats))
  {
    var r := Reseated(rows, order, seats);
    forall a | a in rows ensures r[a].pos == rows[a].pos && r[a].index == seats[Rank(order, rows[a].pos)] {}
    forall i | 0 <= i < |order| ensures Holds(r, order[i]) {
      assert Holds(rows, order[i]);
      var a :| a in rows && rows[a].pos == order[i];
      assert r[a].pos == order[i];
    }
    forall a, b | a in r && b in r && DrawnBefore(r[a], r[b]) ensures Rank(order, r[a].pos) < Rank(order, r[b].pos) {
      var i, j := Rank(order, r[a].pos), Rank(order, r[b].pos);
      assert order[i] == r[a].pos && order[j] == r[b].pos;
    }
  }

  lemma LaterIn(a: seq<int>, b: seq<int>, k: nat)
    requires Distinct(b) && k < |a| && k < |b| && a[..k] == b[..k] && b[k] in a
    ensures Rank(a, b[k]) >= k
  {
    forall i | 0 <= i < k ensures a[i] != b[k] { assert a[..k][i] == b[..k][i]; }
  }

  lemma NextSame(rows: Rows, a: seq<int>, b: seq<int>, k: nat)
    requires Unique(rows) && VisualOrder(rows, a) && VisualOrder(rows, b) && k < |a| && k < |b| && a[..k] == b[..k]
    ensures a[k] == b[k]
  {
    assert Holds(rows, a[k]) && Holds(rows, b[k]);
    var p :| p in rows && rows[p].pos == a[k];
    var q :| q in rows && rows[q].pos == b[k];
    RankAt(a, k);
    RankAt(b, k);
    LaterIn(a, b, k);
    LaterIn(b, a, k);
    assert !DrawnBefore(rows[p], rows[q]) && !DrawnBefore(rows[q], rows[p]);
  }

  lemma {:induction false} VisualPrefix(rows: Rows, a: seq<int>, b: seq<int>, k: nat)
    requires Unique(rows) && VisualOrder(rows, a) && VisualOrder(rows, b) && k <= |a| && k <= |b|
    ensures a[..k] == b[..k]
  {
    if k > 0 {
      VisualPrefix(rows, a, b, k - 1);
      NextSame(rows, a, b, k - 1);
      TakeSnoc(a, k - 1);
      TakeSnoc(b, k - 1);
    }
  }

  lemma VisualLength(rows: Rows, a: seq<int>, b: seq<int>)
    requires VisualOrder(rows, a) && VisualOrder(rows, b)
    ensures |a| == |b|
  {
    DistinctCard(a);
    DistinctCard(b);
    forall p ensures p in a <==> p in b {
      if p in a { assert Holds(rows, a[Rank(a, p)]); }
      if p in b { assert Holds(rows, b[Rank(b, p)]); }
    }
    assert (set p | p in a) == (set p | p in b);
  }

  /** There is one visual order. */
  lemma VisualUnique(rows: Rows, a: seq<int>, b: seq<int>)
    requires Unique(rows) && VisualOrder(rows, a) && VisualOrder(rows, b)
    ensures a == b
  {
    VisualLength(rows, a, b);
    VisualPrefix(rows, a, b, |a|);
    assert a[..|a|] == a && b[..|a|] == b;
  }

  /** The second of two cues is selected, the first is deleted: the selection is lost. */
  lemma SurvivorDeselected()
    ensures var rows := map[10 := Row(1, 0.0), 11 := Row(2, 1000.0)];
      VisualOrder(WithoutAll(rows, {1}), [2]) && SelectionAfterBulk([2], 2, {1}) == 0 && 11 in WithoutAll(rows, {1})
  {
    var left := WithoutAll(map[10 := Row(1, 0.0), 11 := Row(2, 1000.0)], {1});
    assert left == map[11 := Row(2, 1000.0)];
    assert left[11].pos == [2][0];
  }

  /** Deleting a group with its cues only remaps: the first of two cues is selected and
      deleted with its group, and the other one is selected now. */
  lemma GroupDeleteSelectsAnother()
    ensures var rows := map[10 := Row(2, 1000.0), 11 := Row(1, 0.0)]; var left := WithoutAll(rows, {1});
      VisualOrder(left, [2]) && SelectionRemapped([2], 1) == 1 && 10 in left && Renumbered(left, [2])[10].pos == 1
  {
    var left := WithoutAll(map[10 := Row(2, 1000.0), 11 := Row(1, 0.0)], {1});
    assert left == map[10 := Row(2, 1000.0)];
    assert left[10].pos == [2][0];
  }

  // -------------------------------------------------------------- the table

  class CueTable {
    var rows: Rows
    var selected: int

    /** One UPDATE of the unique column; it fails when the value is taken. */
    method Update(from: int, to: int) returns (ok: bool)
      modifies this`rows
      ensures ok == Unique(Moved(old(rows), from, to))
      ensures rows == if ok then Moved(old(rows), from, to) else old(rows)
    {
      var next := Moved(rows, from, to);
      ok := Unique(next);
      if ok { rows := next; }
    }

    /** The two passes over the rows in visual order: no update ever collides. */
    method Renumber(order: seq<int>) returns (ok: bool)
      requires Ready(rows, order) && forall i :: 0 <= i < |order| ==> order[i] >= 1
      modifies this`rows
      ensures ok && rows == Renumbered(old(rows), order)
    {
      PassesMeet(rows, order);
      ghost var was := rows;
      ok := NegatePass(order);
      ok := AssignPass(order, was);
    }

    /** First pass: every row that is not in place is negated. */
    method NegatePass(order: seq<int>) returns (ok: bool)
      requires Ready(rows, order) && forall i :: 0 <= i < |order| ==> order[i] >= 1
      modifies this`rows
      ensures ok && rows == Negated(old(rows), order, |order|)
    {
      ghost var was := rows;
      PassesMeet(was, order);
      for i := 0 to |order|
        invariant rows == Negated(was, order, i)
      {
        ok := NegateRow(order, i, was);
        if !ok { return; }
      }
      ok := true;
    }

    method NegateRow(order: seq<int>, i: nat, ghost was: Rows) returns (ok: bool)
      requires Ready(was, order) && i < |order| && order[i] >= 1 && rows == Negated(was, order, i)
      modifies this`rows
      ensures ok && rows == Negated(was, order, i + 1)
    {
      NegateOne(was, order, i);
      NegatedUnique(was, order, i + 1);
      ok := true;
      if order[i] != i + 1 { ok := Update(order[i], -order[i]); }
    }

    /** Second pass: every row gets its final place. */
    method AssignPass(order: seq<int>, ghost was: Rows) returns (ok: bool)
      requires Ready(was, order) && rows == Assigned(was, order, 0) && forall i :: 0 <= i < |order| ==> order[i] >= 1
      modifies this`rows
      ensures ok && rows == Assigned(was, order, |order|)
    {
      for i := 0 to |order|
        invariant rows == Assigned(was, order, i)
      {
        AssignOne(was, order, i);
        AssignedUnique(was, order, i + 1);
        if order[i] != i + 1 {
          ok := Update(-order[i], i + 1);
          if !ok { return; }
        }
      }
      ok := true;
    }

    /** SELECT cuePos FROM cuesheet ORDER BY sheet_index, cuePos. */
    method SelectVisual() returns (order: seq<int>)
      requires Unique(rows)
      ensures VisualOrder(rows, order)
    {
      var ids: seq<int> := [];
      var todo := rows.Keys;
      while todo != {}
        invariant todo <= rows.Keys
        invariant forall a :: a in ids <==> a in rows && a !in todo
        invariant Drawn(rows, ids)
        decreases |todo|
      {
        ghost var w := PickFrom(todo);
        var a: int :| a in todo;
        ids := InsertDrawn(rows, ids, a);
        todo := todo - {a};
      }
      order := [];
      for i := 0 to |ids|
        invariant |order| == i && forall k :: 0 <= k < i ==> order[k] == rows[ids[k]].pos
      {
        order := order + [rows[ids[i]].pos];
      }
      DrawnIsVisual(rows, ids, order);
    }

    /** The last part of ReorderCues: renumber in visual order, remap the selection. */
    method RenumberVisual() returns (ok: bool, order: seq<int>)
      requires Unique(rows) && Positive(rows)
      modifies this
      ensures ok && VisualOrder(old(rows), order)
      ensures rows == Renumbered(old(rows), order)
      ensures selected == SelectionRemapped(order, old(selected))
    {
      order := SelectVisual();
      ok := Renumber(order);
      if selected != 0 && selected in order { selected := Rank(order, selected) + 1; }
    }

    /** The cues at these numbers go, then ReorderCues in the order drawn, which writes
        the indexes seats to the cues that stay. */
    method DeleteCues(gone: set<int>, seats: seq<real>) returns (ok: bool, ghost order: seq<int>)
      requires Unique(rows) && Positive(rows) && Rising(seats)
      requires forall order :: VisualOrder(WithoutAll(rows, gone), order) ==> |seats| == |order|
      modifies this
      ensures ok && VisualOrder(WithoutAll(old(rows), gone), order) && |seats| == |order|
      ensures rows == Renumbered(Reseated(WithoutAll(old(rows), gone), order, seats), order)
      ensures selected == SelectionRemapped(order, old(selected))
    {
      rows := WithoutAll(rows, gone);
      var rest := SelectVisual();
      ReseatedKeeps(rows, rest, seats);
      rows := Reseated(rows, rest, seats);
      ghost var written := rows;
      var visual;
      ok, visual := RenumberVisual();
      VisualUnique(written, rest, visual);
      order := rest;
    }

    /** BulkEdit's delete. */
    method BulkDelete(gone: set<int>, seats: seq<real>) returns (ok: bool, ghost order: seq<int>)
      requires Unique(rows) && Positive(rows) && Rising(seats)
      requires forall order :: VisualOrder(WithoutAll(rows, gone), order) ==> |seats| == |order|
      modifies this
      ensures ok && VisualOrder(WithoutAll(old(rows), gone), order) && |seats| == |order|
      ensures rows == Renumbered(Reseated(WithoutAll(old(rows), gone), order, seats), order)
      ensures selected == SelectionAfterBulk(order, old(selected), gone)
    {
      ok, order := DeleteCues(gone, seats);
      if selected in gone { selected := 0; }
    }

    /** DeleteGroupWithCues, on the cues: gone are the numbers in the block, and a group
        selection is the group's id, negative. */
    method DeleteGroupCues(gid: int, gone: set<int>, seats: seq<real>) returns (ok: bool, ghost order: seq<int>)
      requires Unique(rows) && Positive(rows) && Rising(seats)
      requires forall order :: VisualOrder(WithoutAll(rows, gone), order) ==> |seats| == |order|
      modifies this
      ensures ok && VisualOrder(WithoutAll(old(rows), gone), order) && |seats| == |order|
      ensures rows == Renumbered(Reseated(WithoutAll(old(rows), gone), order, seats), order)
      ensures selected == SelectionRemapped(order, if old(selected) == -gid then 0 else old(selected))
    {
      if selected == -gid { selected := 0; }
      ok, order := DeleteCues(gone, seats);
    }

    /** RemoveCue. */
    method RemoveCue(pos: int) returns (ok: bool, ghost order: seq<int>)
      requires Unique(rows) && Positive(rows)
      modifies this
      ensures ok
      ensures !Holds(old(rows), pos) ==> rows == old(rows) && selected == old(selected)
      ensures Holds(old(rows), pos) ==>
          && VisualOrder(Without(old(rows), pos), order)
          && rows == Renumbered(Without(old(rows), pos), order)
          && selected == SelectionAfter(order, old(selected), pos)
    {
      order := [];
      if !Holds(rows, pos) { return true, []; }
      ghost var was := rows;
      rows := Without(rows, pos);
      var visual := SelectVisual();
      order := visual;
      RemovalReady(was, order, pos);
      ok := Renumber(visual);
      if selected == pos || selected !in visual {
        selected := 0;
      } else {
        selected := Rank(visual, selected) + 1;
      }
    }

    /** The bump and insert of AddCue: highest position first. */
    method InsertAt(id: int, index: real, at: int) returns (ok: bool)
      requires Unique(rows) && id !in rows
      modifies this`rows
      ensures ok && rows == Bumped(old(rows), at)[id := Row(at, index)]
      ensures Unique(rows)
    {
      ghost var was := rows;
      var top := Highest();
      var p := if top >= at then top else at - 1;
      BumpGap(was, at, p, p);
      SameRows(BumpedAbove(was, at, p), was);
      while p >= at
        invariant p >= at - 1 && rows == BumpedAbove(was, at, p)
        decreases p - at
      {
        if Holds(rows, p) {
          BumpOne(was, at, p);
          ok := Update(p, p + 1);
          if !ok { return; }
        } else {
          BumpGap(was, at, p - 1, p);
        }
        p := p - 1;
      }
      BumpEnds(was, at, p);
      rows := rows[id := Row(at, index)];
      ok := true;
    }

    method Highest() returns (top: int)
      ensures forall a :: a in rows ==> rows[a].pos <= top
    {
      top := 0;
      var todo := rows.Keys;
      while todo != {}
        invariant todo <= rows.Keys
        invariant forall a :: a in rows && a !in todo ==> rows[a].pos <= top
        decreases |todo|
      {
        ghost var w := PickFrom(todo);
        var a: int :| a in todo;
        if rows[a].pos > top { top := rows[a].pos; }
        todo := todo - {a};
      }
    }
  }

  ghost predicate Drawn(rows: Rows, ids: seq<int>) {
    && (forall i :: 0 <= i < |ids| ==> ids[i] in rows)
    && forall i, j :: 0 <= i < j < |ids| ==> DrawnBefore(rows[ids[i]], rows[ids[j]])
  }

  method InsertDrawn(rows: Rows, ids: seq<int>, a: int) returns (r: seq<int>)
    requires Unique(rows) && a in rows && a !in ids
    requires Drawn(rows, ids)
    ensures forall x :: x in r <==> x in ids || x == a
    ensures Drawn(rows, r)
  {
    var k := 0;
    while k < |ids| && DrawnBefore(rows[ids[k]], rows[a])
      invariant 0 <= k <= |ids|
      invariant forall m :: 0 <= m < k ==> DrawnBefore(rows[ids[m]], rows[a])
    {
      k := k + 1;
    }
    if k < |ids| {
      assert ids[k] in ids && ids[k] != a;
      assert rows[ids[k]].pos != rows[a].pos;
    }
    r := ids[..k] + [a] + ids[k..];
    assert ids == ids[..k] + ids[k..];
    InsertedDrawn(rows, ids, a, k);
  }

  lemma InsertedDrawn(rows: Rows, ids: seq<int>, a: int, k: nat)
    requires Drawn(rows, ids) && a in rows && k <= |ids|
    requires forall m :: 0 <= m < k ==> DrawnBefore(rows[ids[m]], rows[a])
    requires k < |ids| ==> DrawnBefore(rows[a], rows[ids[k]])
    ensures Drawn(rows, ids[..k] + [a] + ids[k..])
  {
    var r := ids[..k] + [a] + ids[k..];
    forall m | k <= m < |ids| ensures DrawnBefore(rows[a], rows[ids[m]]) {
      if m > k { assert DrawnBefore(rows[ids[k]], rows[ids[m]]); }
    }
    forall i | 0 <= i < |r| ensures r[i] == if i < k then ids[i] else if i == k then a else ids[i - 1] {}
  }

  /** order gives the positions of ids, which are drawn one after the other. */
  ghost predicate Positions(rows: Rows, ids: seq<int>, order: seq<int>)
    requires Drawn(rows, ids)
  {
    |order| == |ids| && forall i :: 0 <= i < |ids| ==> order[i] == rows[ids[i]].pos
  }

  lemma PositionsDistinct(rows: Rows, ids: seq<int>, order: seq<int>)
    requires Unique(rows) && Drawn(rows, ids) && Positions(rows, ids, order)
    ensures Distinct(order)
  {
    forall i, j | 0 <= i < j < |order| ensures order[i] != order[j] {
      assert DrawnBefore(rows[ids[i]], rows[ids[j]]);
      assert ids[i] != ids[j];
      assert rows[ids[i]].pos != rows[ids[j]].pos;
    }
  }

  lemma PositionRank(rows: Rows, ids: seq<int>, order: seq<int>, a: int) returns (i: nat)
    requires Unique(rows) && Drawn(rows, ids) && Positions(rows, ids, order) && a in ids
    ensures i < |ids| && ids[i] == a && a in rows && order[i] == rows[a].pos && Rank(order, rows[a].pos) == i
  {
    i :| 0 <= i < |ids| && ids[i] == a;
    PositionsDistinct(rows, ids, order);
    RankAt(order, i);
  }

  lemma DrawnRanks(rows: Rows, ids: seq<int>, order: seq<int>, a: int, b: int)
    requires Unique(rows) && Drawn(rows, ids) && Positions(rows, ids, order) && a in ids && b in ids
    requires a in rows && b in rows && DrawnBefore(rows[a], rows[b])
    ensures Rank(order, rows[a].pos) < Rank(order, rows[b].pos)
  {
    var i := PositionRank(rows, ids, order, a);
    var j := PositionRank(rows, ids, order, b);
    forall x, y | 0 <= x < y < |ids| ensures !DrawnBefore(rows[ids[y]], rows[ids[x]]) {
      assert DrawnBefore(rows[ids[x]], rows[ids[y]]);
    }
  }

  lemma DrawnIsVisual(rows: Rows, ids: seq<int>, order: seq<int>)
    requires Unique(rows) && forall a :: a in rows ==> a in ids
    requires Drawn(rows, ids) && Positions(rows, ids, order)
    ensures VisualOrder(rows, order)
  {
    PositionsDistinct(rows, ids, order);
    forall a | a in rows ensures rows[a].pos in order {
      var i := PositionRank(rows, ids, order, a);
      assert order[i] == rows[a].pos;
    }
    forall i | 0 <= i < |order| ensures Holds(rows, order[i]) {
      var a := ids[i];
      assert a in rows && rows[a].pos == order[i];
    }
    forall a, b | a in rows && b in rows && DrawnBefore(rows[a], rows[b])
      ensures Rank(order, rows[a].pos) < Rank(order, rows[b].pos)
    {
      DrawnRanks(rows, ids, order, a, b);
    }
  }
}
