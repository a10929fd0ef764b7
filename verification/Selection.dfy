/** The multi-selection (ctp/ctp.go: UnitIndex, SelectStep, ExtendStep).  Only the
    anchor and a list of ids are stored; the moving end is found again at every
    step.  This module shows that it can be: the stored state always is the span
    between the anchor and one moving head. */
module Selection {
  import opened Util
  import opened Forest
  import opened PreOrder
  import opened Flatten
  import Gap

  /** sel is the anchor: a cue position, minus a group id, or 0 for none. */
  datatype State = State(sel: int, others: seq<int>)

  function Id(u: SheetItem): int {
    match u
    case Cue(pos) => pos
    case Header(gid) => -gid
  }

  /** The selectable rows carry different ids, none of them 0. */
  ghost predicate Sound(units: seq<SheetItem>) {
    && (forall i :: 0 <= i < |units| ==> if units[i].Cue? then units[i].pos > 0 else units[i].gid > 0)
    && Distinct(units)
  }

  lemma IdsApart(units: seq<SheetItem>, i: nat, j: nat)
    requires Sound(units) && i < |units| && j < |units| && Id(units[i]) == Id(units[j])
    ensures i == j
  {
  }

  /** What UnitIndex compares: a header's cue position is the zero value. */
  predicate Matches(u: SheetItem, sel: int) {
    if sel < 0 then u == Header(-sel)
    else match u
      case Cue(pos) => pos == sel
      case Header(_) => sel == 0
  }

  function UnitIndex(units: seq<SheetItem>, sel: int): (i: int)
    ensures -1 <= i < |units|
    ensures i >= 0 ==> Matches(units[i], sel) && forall k :: 0 <= k < i ==> !Matches(units[k], sel)
    ensures i < 0 ==> forall k :: 0 <= k < |units| ==> !Matches(units[k], sel)
  {
    if |units| == 0 then -1
    else var i := UnitIndex(units[..|units| - 1], sel);
      if i >= 0 then i else if Matches(units[|units| - 1], sel) then |units| - 1 else -1
  }

  /** The place of an id, -1 when it is not on the sheet. */
  function At(units: seq<SheetItem>, id: int): (i: int)
    ensures -1 <= i < |units|
    ensures i >= 0 ==> Id(units[i]) == id
    ensures i < 0 ==> forall k :: 0 <= k < |units| ==> Id(units[k]) != id
  {
    if |units| == 0 then -1
    else if Id(units[|units| - 1]) == id then |units| - 1 else At(units[..|units| - 1], id)
  }

  datatype Farthest = Farthest(best: int, head: int)

  function Abs(n: int): nat {
    if n < 0 then -n else n
  }

  predicate Beats(f: Farthest, i: int, ai: int, dir: int) {
    Abs(i - ai) > f.best || (Abs(i - ai) == f.best && ((dir > 0 && i > f.head) || (dir < 0 && i < f.head)))
  }

  /** The selected unit farthest from the anchor, the stepping side winning ties. */
  function HeadOf(units: seq<SheetItem>, others: seq<int>, ai: int, dir: int): Farthest {
    if |others| == 0 then Farthest(-1, ai)
    else
      var f := HeadOf(units, others[..|others| - 1], ai, dir);
      var i := At(units, others[|others| - 1]);
      if i >= 0 && Beats(f, i, ai, dir) then Farthest(Abs(i - ai), i) else f
  }

  /** The ids of units lo .. hi, the anchor left out. */
  function Stretch(units: seq<SheetItem>, lo: nat, hi: nat, anchor: int): seq<int>
    requires lo <= hi <= |units|
  {
    if lo == hi then []
    else Stretch(units, lo, hi - 1, anchor) + if Id(units[hi - 1]) == anchor then [] else [Id(units[hi - 1])]
  }

  function Between(units: seq<SheetItem>, a: nat, h: nat, anchor: int): seq<int>
    requires a < |units| && h < |units|
  {
    if a <= h then Stretch(units, a, h + 1, anchor) else Stretch(units, h, a + 1, anchor)
  }

  function Stepped(units: seq<SheetItem>, st: State, dir: int): State {
    var ai := UnitIndex(units, st.sel);
    if ai < 0 then
      if 0 <= ai + dir < |units| then State(Id(units[ai + dir]), []) else st
    else
      var head := HeadOf(units, st.others, ai, dir).head + dir;
      if head < 0 || head >= |units| then st
      else if head == ai then State(st.sel, [])
      else State(st.sel, Between(units, ai, head, st.sel))
  }

  // ------------------------------------------------------------ refinement

  /** The stored form of an anchor a and a head h. */
  function StateOf(units: seq<SheetItem>, a: nat, h: nat): State
    requires a < |units| && h < |units|
  {
    State(Id(units[a]), if a == h then [] else Between(units, a, h, Id(units[a])))
  }

  /** The head moves by dir; a step off either end is ignored. */
  function HeadMoved(n: nat, h: nat, dir: int): (r: nat)
    requires h < n
    ensures r < n
  {
    if 0 <= h + dir < n then h + dir else h
  }

  lemma AnchorFound(units: seq<SheetItem>, a: nat)
    requires Sound(units) && a < |units|
    ensures UnitIndex(units, Id(units[a])) == a && At(units, Id(units[a])) == a
  {
    assert Matches(units[a], Id(units[a]));
    var i := UnitIndex(units, Id(units[a]));
    IdsApart(units, i, a);
    IdsApart(units, At(units, Id(units[a])), a);
  }

  lemma IdsDiffer(units: seq<SheetItem>, i: nat, j: nat)
    requires Sound(units) && i < |units| && j < |units| && i != j
    ensures Id(units[i]) != Id(units[j])
  {
  }

  function Reached(f: Farthest, i: int, ai: int, dir: int): Farthest {
    if Beats(f, i, ai, dir) then Farthest(Abs(i - ai), i) else f
  }

  /** One more selected unit. */
  lemma HeadSnoc(units: seq<SheetItem>, others: seq<int>, k: nat, a: int, dir: int)
    requires Sound(units) && k < |units|
    ensures HeadOf(units, others + [Id(units[k])], a, dir) == Reached(HeadOf(units, others, a, dir), k, a, dir)
  {
    AnchorFound(units, k);
    assert (others + [Id(units[k])])[..|others|] == others;
  }

  lemma StretchSnoc(units: seq<SheetItem>, lo: nat, hi: nat, a: nat)
    requires Sound(units) && a < |units| && lo <= hi < |units|
    ensures Stretch(units, lo, hi + 1, Id(units[a])) ==
      if hi == a then Stretch(units, lo, hi, Id(units[a])) else Stretch(units, lo, hi, Id(units[a])) + [Id(units[hi])]
  {
    if hi != a { IdsDiffer(units, hi, a); }
  }

  function EndBelow(a: nat, hi: nat): Farthest {
    if hi <= a + 1 then Farthest(-1, a) else Farthest(hi - 1 - a, hi - 1)
  }

  lemma ReachBelow(a: nat, hi: nat, dir: int)
    requires a < hi
    ensures Reached(EndBelow(a, hi), hi, a, dir) == EndBelow(a, hi + 1)
  {
  }

  /** A longer list whose last id is unit k's. */
  lemma HeadExtends(units: seq<SheetItem>, others: seq<int>, more: seq<int>, k: nat, a: nat, dir: int, f: Farthest)
    requires Sound(units) && k < |units| && more == others + [Id(units[k])] && HeadOf(units, others, a, dir) == f
    ensures HeadOf(units, more, a, dir) == Reached(f, k, a, dir)
  {
    HeadSnoc(units, others, k, a, dir);
  }

  lemma OnlyAnchor(units: seq<SheetItem>, a: nat)
    requires a < |units|
    ensures Stretch(units, a, a + 1, Id(units[a])) == []
  {
  }

  lemma HeadGrows(units: seq<SheetItem>, a: nat, hi: nat, dir: int)
    requires Sound(units) && a + 1 < hi <= |units|
    requires HeadOf(units, Stretch(units, a, hi - 1, Id(units[a])), a, dir) == EndBelow(a, hi - 1)
    ensures HeadOf(units, Stretch(units, a, hi, Id(units[a])), a, dir) == EndBelow(a, hi)
  {
    StretchSnoc(units, a, hi - 1, a);
    HeadExtends(units, Stretch(units, a, hi - 1, Id(units[a])), Stretch(units, a, hi, Id(units[a])), hi - 1, a, dir, EndBelow(a, hi - 1));
    ReachBelow(a, hi - 1, dir);
  }

  /** The farthest unit of a span that starts at the anchor is its other end. */
  lemma {:induction false} HeadBelow(units: seq<SheetItem>, a: nat, hi: nat, dir: int)
    requires Sound(units) && a < hi <= |units|
    ensures HeadOf(units, Stretch(units, a, hi, Id(units[a])), a, dir) == EndBelow(a, hi)
  {
    if hi > a + 1 {
      HeadBelow(units, a, hi - 1, dir);
      HeadGrows(units, a, hi, dir);
    } else {
      OnlyAnchor(units, a);
      NoneSelected(units, [], a, dir);
    }
  }

  lemma NoneSelected(units: seq<SheetItem>, others: seq<int>, a: nat, dir: int)
    requires others == []
    ensures HeadOf(units, others, a, dir) == Farthest(-1, a)
  {
  }

  lemma ReachAbove(lo: nat, k: nat, a: nat, dir: int)
    requires lo < k < a
    ensures Reached(Farthest(a - lo, lo), k, a, dir) == Farthest(a - lo, lo)
  {
  }

  lemma ReachFirst(lo: nat, a: nat, dir: int)
    requires lo < a
    ensures Reached(Farthest(-1, a), lo, a, dir) == Farthest(a - lo, lo)
  {
  }

  /** And so it is of a span that ends at the anchor: the first unit read is already
      the farthest. */
  lemma {:induction false} HeadAbove(units: seq<SheetItem>, lo: nat, hi: nat, a: nat, dir: int)
    requires Sound(units) && lo < a < |units| && lo < hi <= a + 1
    ensures HeadOf(units, Stretch(units, lo, hi, Id(units[a])), a, dir) == Farthest(a - lo, lo)
  {
    var before, now := Stretch(units, lo, hi - 1, Id(units[a])), Stretch(units, lo, hi, Id(units[a]));
    StretchSnoc(units, lo, hi - 1, a);
    if hi == lo + 1 {
      NoneSelected(units, before, a, dir);
      HeadExtends(units, before, now, lo, a, dir, Farthest(-1, a));
      ReachFirst(lo, a, dir);
    } else {
      HeadAbove(units, lo, hi - 1, a, dir);
      if hi - 1 != a {
        HeadExtends(units, before, now, hi - 1, a, dir, Farthest(a - lo, lo));
        ReachAbove(lo, hi - 1, a, dir);
      }
    }
  }

  /** The ids listed beside the anchor. */
  lemma OthersAre(units: seq<SheetItem>, a: nat, h: nat)
    requires a < |units| && h < |units|
    ensures a < h ==> StateOf(units, a, h).others == Stretch(units, a, h + 1, Id(units[a]))
    ensures h < a ==> StateOf(units, a, h).others == Stretch(units, h, a + 1, Id(units[a]))
    ensures a == h ==> StateOf(units, a, h).others == []
  {
  }

  lemma {:induction false} HeadFound(units: seq<SheetItem>, a: nat, h: nat, dir: int)
    requires Sound(units) && a < |units| && h < |units|
    ensures HeadOf(units, StateOf(units, a, h).others, a, dir).head == h
  {
    OthersAre(units, a, h);
    if a < h {
      HeadBelow(units, a, h + 1, dir);
    } else if h < a {
      HeadAbove(units, h, a + 1, a, dir);
    } else {
      NoneSelected(units, [], a, dir);
    }
  }

  /** One step on the stored state is one step of the head. */
  lemma {:induction false} StepRefines(units: seq<SheetItem>, a: nat, h: nat, dir: int)
    requires Sound(units) && a < |units| && h < |units| && (dir == 1 || dir == -1)
    ensures Stepped(units, StateOf(units, a, h), dir) == StateOf(units, a, HeadMoved(|units|, h, dir))
  {
    AnchorFound(units, a);
    HeadFound(units, a, h, dir);
  }

  lemma {:induction false} StepTo(units: seq<SheetItem>, a: nat, h: nat, dir: int, to: nat)
    requires Sound(units) && a < |units| && h < |units| && (dir == 1 || dir == -1) && to == h + dir && to < |units|
    ensures Stepped(units, StateOf(units, a, h), dir) == StateOf(units, a, to)
  {
    assert HeadMoved(|units|, h, dir) == to;
    StepRefines(units, a, h, dir);
  }

  /** A step off either end changes nothing; with no unit selected a step down selects the
      first one and a step up none. */
  lemma StepAtEdge(units: seq<SheetItem>, a: nat, h: nat, dir: int, st: State)
    requires Sound(units) && a < |units| && h < |units| && (dir == 1 || dir == -1)
    ensures !(0 <= h + dir < |units|) ==> Stepped(units, StateOf(units, a, h), dir) == StateOf(units, a, h)
    ensures (forall i :: 0 <= i < |units| ==> !Matches(units[i], st.sel)) ==>
      Stepped(units, st, dir) == if dir == 1 then State(Id(units[0]), []) else st
  {
    StepRefines(units, a, h, dir);
  }

  function Run(units: seq<SheetItem>, st: State, dirs: seq<int>): State {
    if |dirs| == 0 then st else Stepped(units, Run(units, st, dirs[..|dirs| - 1]), dirs[|dirs| - 1])
  }

  function HeadAfter(n: nat, h: nat, dirs: seq<int>): (r: nat)
    requires h < n
    ensures r < n
  {
    if |dirs| == 0 then h else HeadMoved(n, HeadAfter(n, h, dirs[..|dirs| - 1]), dirs[|dirs| - 1])
  }

  /** From one selected unit, any run of steps leaves exactly the span between that
      unit and a head that moved with every step. */
  lemma {:induction false} RunRefines(units: seq<SheetItem>, a: nat, dirs: seq<int>)
    requires Sound(units) && a < |units|
    requires forall k :: 0 <= k < |dirs| ==> dirs[k] == 1 || dirs[k] == -1
    ensures Run(units, StateOf(units, a, a), dirs) == StateOf(units, a, HeadAfter(|units|, a, dirs))
  {
    if |dirs| > 0 {
      RunRefines(units, a, dirs[..|dirs| - 1]);
      StepRefines(units, a, HeadAfter(|units|, a, dirs[..|dirs| - 1]), dirs[|dirs| - 1]);
    }
  }

  /** What is selected: the anchor and the listed ids. */
  predicate Selected(st: State, u: SheetItem) {
    Id(u) == st.sel || Id(u) in st.others
  }

  lemma {:induction false} SpanHas(units: seq<SheetItem>, lo: nat, hi: nat, anchor: int, i: nat)
    requires Sound(units) && lo <= hi <= |units| && i < |units|
    ensures Id(units[i]) in Stretch(units, lo, hi, anchor) <==> lo <= i < hi && Id(units[i]) != anchor
  {
    if lo < hi {
      SpanHas(units, lo, hi - 1, anchor, i);
      if i != hi - 1 { IdsDiffer(units, i, hi - 1); }
    }
  }

  /** The selected units are those between anchor and head, both included. */
  lemma SelectedIsInterval(units: seq<SheetItem>, a: nat, h: nat, i: nat)
    requires Sound(units) && a < |units| && h < |units| && i < |units|
    ensures Selected(StateOf(units, a, h), units[i]) <==> (a <= i <= h || h <= i <= a)
  {
    if i != a { IdsDiffer(units, i, a); }
    if a <= h { SpanHas(units, a, h + 1, Id(units[a]), i); } else { SpanHas(units, h, a + 1, Id(units[a]), i); }
  }

  /** A step that moved the head is undone by the opposite step. */
  lemma {:induction false} StepBack(units: seq<SheetItem>, a: nat, h: nat, dir: int, to: nat)
    requires Sound(units) && a < |units| && h < |units| && to < |units|
    requires (dir == 1 && to == h + 1) || (dir == -1 && h == to + 1)
    ensures Stepped(units, StateOf(units, a, h), dir) == StateOf(units, a, to)
    ensures Stepped(units, StateOf(units, a, to), -dir) == StateOf(units, a, h)
  {
    StepTo(units, a, h, dir, to);
    StepTo(units, a, to, -dir, h);
  }

  /** With nothing selected, UnitIndex finds a unit exactly when a header is on the
      sheet: its missing cue position reads as the 0 of "no cue". */
  lemma NothingSelectedMatchesHeader(units: seq<SheetItem>)
    requires Sound(units)
    ensures UnitIndex(units, 0) >= 0 <==> exists i :: 0 <= i < |units| && units[i].Header?
  {
    if UnitIndex(units, 0) < 0 {
      forall i | 0 <= i < |units| ensures !units[i].Header? { assert !Matches(units[i], 0); }
    }
  }

  // ---------------------------------------------------- the units of a sheet

  /** SheetUnits: the drawn rows, in order. */
  function UnitsOf(rows: seq<FlatRow>): (units: seq<SheetItem>)
    ensures |units| == |rows| && forall i :: 0 <= i < |rows| ==> units[i] == rows[i].item
  {
    if |rows| == 0 then [] else UnitsOf(rows[..|rows| - 1]) + [rows[|rows| - 1].item]
  }

  ghost predicate DrawnFrom(units: seq<SheetItem>, items: seq<SheetItem>) {
    Distinct(units) && forall i :: 0 <= i < |units| ==> units[i] in items
  }

  lemma DrawOneMore(units: seq<SheetItem>, items: seq<SheetItem>, x: SheetItem)
    requires DrawnFrom(units, items) && x !in items
    ensures DrawnFrom(units, items + [x]) && DrawnFrom(units + [x], items + [x])
  {
  }

  lemma UnitsGrow(rows: seq<FlatRow>, row: FlatRow)
    ensures UnitsOf(rows + [row]) == UnitsOf(rows) + [row.item]
  {
    assert (rows + [row])[..|rows|] == rows;
  }

  ghost function UnitsAt(s: Sheet, d: map<int, nat>, k: nat): seq<SheetItem>
    requires Depths(s.groups, d) && HeadersKnown(s) && k <= |s.items|
  {
    UnitsOf(Render(s, d, k).rows)
  }

  lemma NextUnit(s: Sheet, d: map<int, nat>, k: nat)
    requires Depths(s.groups, d) && HeadersKnown(s) && k < |s.items|
    ensures UnitsAt(s, d, k + 1) == UnitsAt(s, d, k) || UnitsAt(s, d, k + 1) == UnitsAt(s, d, k) + [s.items[k]]
  {
    Gap.EveryRow(s, d, k);
    var was := Render(s, d, k).rows;
    if Gap.DrawsRow(s, d, k) {
      var depth :| Render(s, d, k + 1).rows == was + [FlatRow(s.items[k], depth)];
      UnitsGrow(was, FlatRow(s.items[k], depth));
    }
  }

  lemma DrawAgain(was: seq<SheetItem>, now: seq<SheetItem>, items: seq<SheetItem>, k: nat)
    requires k < |items| && Distinct(items) && DrawnFrom(was, items[..k])
    requires now == was || now == was + [items[k]]
    ensures DrawnFrom(now, items[..k + 1])
  {
    assert items[..k + 1] == items[..k] + [items[k]];
    DrawOneMore(was, items[..k], items[k]);
  }

  lemma {:induction false} DrawnOnce(s: Sheet, d: map<int, nat>, k: nat)
    requires Depths(s.groups, d) && HeadersKnown(s) && Distinct(s.items) && k <= |s.items|
    ensures DrawnFrom(UnitsAt(s, d, k), s.items[..k])
  {
    if k > 0 {
      DrawnOnce(s, d, k - 1);
      NextUnit(s, d, k - 1);
      DrawAgain(UnitsAt(s, d, k - 1), UnitsAt(s, d, k), s.items, k - 1);
    }
  }

  /** Every sheet gives sound units, whatever its order, memberships and folds. */
  lemma SheetUnitsSound(s: Sheet, d: map<int, nat>)
    requires Depths(s.groups, d) && HeadersKnown(s) && Distinct(s.items)
    requires forall i :: 0 <= i < |s.items| ==> if s.items[i].Cue? then s.items[i].pos > 0 else s.items[i].gid > 0
    ensures Sound(UnitsOf(Render(s, d, |s.items|).rows))
  {
    DrawnOnce(s, d, |s.items|);
    var units := UnitsOf(Render(s, d, |s.items|).rows);
    forall i | 0 <= i < |units| ensures if units[i].Cue? then units[i].pos > 0 else units[i].gid > 0 {
      assert units[i] in s.items[..|s.items|];
      var j :| 0 <= j < |s.items| && s.items[j] == units[i];
    }
  }

  // -------------------------------------------------------------- the method

  class Selector {
    var sel: int
    var others: seq<int>

    function Now(): State
      reads this
    {
      State(sel, others)
    }

    method FindHead(units: seq<SheetItem>, ai: nat, dir: int) returns (head: int)
      ensures head == HeadOf(units, others, ai, dir).head
    {
      head := ai;
      var best := -1;
      for k := 0 to |others|
        invariant Farthest(best, head) == HeadOf(units, others[..k], ai, dir)
      {
        assert others[..k + 1][..k] == others[..k];
        var i := FindId(units, others[k]);
        if i >= 0 {
          var dist := if i - ai < 0 then ai - i else i - ai;
          if dist > best || (dist == best && ((dir > 0 && i > head) || (dir < 0 && i < head))) {
            best, head := dist, i;
          }
        }
      }
      assert others[..|others|] == others;
    }

    /** ExtendStep. */
    method ExtendStep(units: seq<SheetItem>, dir: int)
      modifies this
      ensures Now() == Stepped(units, old(Now()), dir)
    {
      var ai := FindUnit(units, sel);
      if ai < 0 {
        if 0 <= ai + dir < |units| {
          sel, others := Id(units[ai + dir]), [];
        }
        return;
      }
      var head := FindHead(units, ai, dir);
      head := head + dir;
      if head < 0 || head >= |units| { return; }
      if head == ai {
        others := [];
        return;
      }
      var lo, hi := ai, head;
      if lo > hi { lo, hi := hi, lo; }
      var ids: seq<int> := [];
      for k := lo to hi + 1
        invariant ids == Stretch(units, lo, k, sel)
      {
        if Id(units[k]) != sel { ids := ids + [Id(units[k])]; }
      }
      others := ids;
    }
  }

  method FindId(units: seq<SheetItem>, id: int) returns (i: int)
    ensures i == At(units, id)
  {
    i := -1;
    for k := 0 to |units|
      invariant i == At(units[..k], id)
    {
      assert units[..k + 1][..k] == units[..k];
      if Id(units[k]) == id { i := k; }
    }
    assert units[..|units|] == units;
  }

  method FindUnit(units: seq<SheetItem>, sel: int) returns (i: int)
    ensures i == UnitIndex(units, sel)
  {
    for k := 0 to |units|
      invariant forall m :: 0 <= m < k ==> !Matches(units[m], sel)
    {
      if Matches(units[k], sel) { return k; }
    }
    return -1;
  }
}
