/** AddCueToGroup (ctp/ctp.go): a media file dropped on a folder gets a fractional
    seat, one above the header's index or above the last member's.  What is promised
    is that it becomes the first, or the last, member and that seats never collide. */
module Seats {
  import opened Util
  import opened PreOrder
  import opened SheetStore
  import opened SheetDb

  /** The tables after the insert; the folder is opened so that the cue is seen. */
  function Added(t: Tables, gid: int, pos: int, seat: real): Tables
    requires gid in t.groups
  {
    Tables(t.cues[pos := CueRow(gid, seat)], t.groups[gid := t.groups[gid].(collapse := false)])
  }

  predicate IsMember(t: Tables, gid: int, x: SheetItem) {
    x.Cue? && x.pos in t.cues && t.cues[x.pos].parent == gid
  }

  predicate HasMember(t: Tables, gid: int) {
    exists pos :: pos in t.cues && t.cues[pos].parent == gid
  }

  /** One above the header, or above the highest index of a direct member. */
  ghost predicate IsSeat(t: Tables, gid: int, first: bool, seat: real)
    requires gid in t.groups
  {
    if first || !HasMember(t, gid) then seat == t.groups[gid].index + 1.0
    else
      && (exists pos :: pos in t.cues && t.cues[pos].parent == gid && seat == t.cues[pos].index + 1.0)
      && forall pos :: pos in t.cues && t.cues[pos].parent == gid ==> t.cues[pos].index + 1.0 <= seat
  }

  ghost predicate NewPos(t: Tables, pos: int) {
    (forall x :: x in t.cues ==> x < pos) && (if t.cues == map[] then pos == 1 else pos - 1 in t.cues)
  }

  /** COALESCE(MAX(cuePos), 0) + 1. */
  method NextPos(cues: map<int, CueRow>) returns (pos: int)
    ensures forall x :: x in cues ==> x < pos
    ensures if cues == map[] then pos == 1 else pos - 1 in cues
  {
    var todo := cues.Keys;
    if todo == {} { return 1; }
    ghost var w := PickFrom(todo);
    var best: int :| best in todo;
    while todo != {}
      invariant todo <= cues.Keys && best in cues
      invariant forall x :: x in cues && x !in todo ==> x <= best
      decreases |todo|
    {
      ghost var v := PickFrom(todo);
      var x: int :| x in todo;
      if x > best { best := x; }
      todo := todo - {x};
    }
    return best + 1;
  }

  /** MAX(sheet_index) of the group's cues, if it has any. */
  method LastMember(cues: map<int, CueRow>, gid: int) returns (valid: bool, last: real)
    ensures valid <==> exists pos :: pos in cues && cues[pos].parent == gid
    ensures valid ==> exists pos :: pos in cues && cues[pos].parent == gid && cues[pos].index == last
    ensures forall pos :: pos in cues && cues[pos].parent == gid ==> cues[pos].index <= last
  {
    valid, last := false, 0.0;
    var todo := cues.Keys;
    while todo != {}
      invariant todo <= cues.Keys
      invariant valid ==> exists pos :: pos in cues && cues[pos].parent == gid && cues[pos].index == last
      invariant forall pos :: pos in cues && cues[pos].parent == gid && pos !in todo ==> valid && cues[pos].index <= last
      decreases |todo|
    {
      ghost var w := PickFrom(todo);
      var pos: int :| pos in todo;
      if cues[pos].parent == gid && (!valid || last < cues[pos].index) {
        valid, last := true, cues[pos].index;
      }
      todo := todo - {pos};
    }
  }

  /** AddCueToGroup.  A group that does not exist changes nothing; a file that is not in
      the pool still leaves the group open. */
  method AddCueToGroup(db: Database, gid: int, first: bool, inPool: bool) returns (ok: bool, pos: int)
    modifies db
    ensures ok <==> gid in old(db.groups) && inPool
    ensures gid !in old(db.groups) ==> db.State() == old(db.State())
    ensures gid in old(db.groups) && !inPool ==>
      db.State() == old(db.State()).(groups := old(db.groups)[gid := old(db.groups)[gid].(collapse := false)])
    ensures ok ==> NewPos(old(db.State()), pos) && pos in db.cues && IsSeat(old(db.State()), gid, first, db.cues[pos].index)
    ensures ok ==> db.State() == Added(old(db.State()), gid, pos, db.cues[pos].index)
  {
    ghost var was := db.State();
    pos := 0;
    if gid !in db.groups { return false, 0; }
    var headerIdx := db.groups[gid].index;
    db.groups := db.groups[gid := db.groups[gid].(collapse := false)];
    pos := NextPos(db.cues);
    var seat := headerIdx + 1.0;
    if !first {
      var valid, last := LastMember(db.cues, gid);
      if valid { seat := last + 1.0; }
    }
    assert IsSeat(was, gid, first, seat);
    if !inPool { return false, 0; }
    db.cues := db.cues[pos := CueRow(gid, seat)];
    ok := true;
  }

  // --------------------------------------------------------- where it lands

  /** The row of an insert sits where its index puts it. */
  lemma SeatedAt(t: Tables, items: seq<SheetItem>, gid: int, pos: int, seat: real, k: nat)
    requires Loaded(t, items) && gid in t.groups && pos !in t.cues && k <= |items|
    requires forall i :: 0 <= i < k ==> Before(Added(t, gid, pos, seat), items[i], Cue(pos))
    requires forall i :: k <= i < |items| ==> Before(Added(t, gid, pos, seat), Cue(pos), items[i])
    ensures Loaded(Added(t, gid, pos, seat), items[..k] + [Cue(pos)] + items[k..])
  {
    var r := Added(t, gid, pos, seat);
    var out := items[..k] + [Cue(pos)] + items[k..];
    forall x ensures x in out <==> HasRow(r, x) {
      assert items == items[..k] + items[k..];
      assert x in items <==> HasRow(t, x);
    }
    forall i, j | 0 <= i < j < |items| ensures HasRow(r, items[i]) && HasRow(r, items[j]) && Before(r, items[i], items[j]) {
      StaysBefore(t, gid, pos, seat, items[i], items[j]);
    }
    forall i, j | 0 <= i < j < |out| ensures Before(r, out[i], out[j]) {
      var a, b := if i < k then i else i - 1, if j < k then j else j - 1;
      if i != k && j != k { assert Before(r, items[a], items[b]); }
    }
  }

  lemma StaysBefore(t: Tables, gid: int, pos: int, seat: real, x: SheetItem, y: SheetItem)
    requires gid in t.groups && pos !in t.cues && HasRow(t, x) && HasRow(t, y) && Before(t, x, y)
    ensures var r := Added(t, gid, pos, seat); HasRow(r, x) && HasRow(r, y) && Before(r, x, y)
  {
  }

  /** The sequence with the new cue directly below row i. */
  function Below(items: seq<SheetItem>, i: nat, pos: int): seq<SheetItem>
    requires i < |items|
  {
    items[..i + 1] + [Cue(pos)] + items[i + 1..]
  }

  /** x is read before a cue with the highest number at that seat. */
  predicate ReadBefore(t: Tables, x: SheetItem, seat: real)
    requires HasRow(t, x)
  {
    IndexOf(t, x) < seat || (IndexOf(t, x) == seat && x.Cue?)
  }

  lemma BeforeNew(t: Tables, gid: int, pos: int, seat: real, x: SheetItem)
    requires HasRow(t, x) && gid in t.groups && forall y :: y in t.cues ==> y < pos
    ensures var r := Added(t, gid, pos, seat);
      && HasRow(r, x) && HasRow(r, Cue(pos)) && x != Cue(pos)
      && (Before(r, x, Cue(pos)) <==> ReadBefore(t, x, seat)) && (Before(r, Cue(pos), x) <==> !ReadBefore(t, x, seat))
  {
  }

  /** On any sheet, a cue seated one above row i is read directly below it exactly when
      the row that followed is not read before that seat. */
  lemma LandsBelowIff(t: Tables, items: seq<SheetItem>, gid: int, i: nat, pos: int)
    requires Loaded(t, items) && gid in t.groups && i < |items| && forall y :: y in t.cues ==> y < pos
    ensures HasRow(t, items[i]) && (i + 1 < |items| ==> HasRow(t, items[i + 1]))
    ensures var seat := IndexOf(t, items[i]) + 1.0;
      Loaded(Added(t, gid, pos, seat), Below(items, i, pos)) <==> (i + 1 == |items| || !ReadBefore(t, items[i + 1], seat))
  {
    var seat := IndexOf(t, items[i]) + 1.0;
    var r, out := Added(t, gid, pos, seat), Below(items, i, pos);
    if i + 1 < |items| {
      BeforeNew(t, gid, pos, seat, items[i + 1]);
      assert out[i + 1] == Cue(pos) && out[i + 2] == items[i + 1];
    }
    if i + 1 == |items| || !ReadBefore(t, items[i + 1], seat) {
      forall k | 0 <= k <= i ensures Before(r, items[k], Cue(pos)) {
        BeforeNew(t, gid, pos, seat, items[k]);
        assert k < i ==> Before(t, items[k], items[i]);
      }
      forall k | i < k < |items| ensures Before(r, Cue(pos), items[k]) {
        BeforeNew(t, gid, pos, seat, items[k]);
        assert i + 1 < k ==> Before(t, items[i + 1], items[k]);
      }
      SeatedAt(t, items, gid, pos, seat, i + 1);
    }
  }

  /** The row a new member is meant to follow: the header, or the last direct member. */
  ghost predicate Anchor(t: Tables, items: seq<SheetItem>, gid: int, first: bool, i: nat) {
    && i < |items|
    && if first || !HasMember(t, gid) then items[i] == Header(gid)
       else IsMember(t, gid, items[i]) && forall j :: i < j < |items| ==> !IsMember(t, gid, items[j])
  }

  lemma AnchorSeat(t: Tables, items: seq<SheetItem>, gid: int, first: bool, i: nat, seat: real)
    requires Loaded(t, items) && gid in t.groups && IsSeat(t, gid, first, seat) && Anchor(t, items, gid, first, i)
    ensures HasRow(t, items[i]) && seat == IndexOf(t, items[i]) + 1.0
  {
    if !first && HasMember(t, gid) {
      var pos :| pos in t.cues && t.cues[pos].parent == gid && seat == t.cues[pos].index + 1.0;
      assert HasRow(t, Cue(pos));
      var k :| 0 <= k < |items| && items[k] == Cue(pos);
      assert IsMember(t, gid, items[k]);
      assert k < i ==> Before(t, items[k], items[i]);
    }
  }

  /** Where AddCueToGroup puts a cue, on any sheet: directly below the header, or below
      the last member, exactly when the row that followed has a greater index than the
      seat, or is a header at the seat itself. */
  lemma AddLandsIff(t: Tables, items: seq<SheetItem>, gid: int, first: bool, i: nat, pos: int, seat: real)
    requires Loaded(t, items) && gid in t.groups && NewPos(t, pos)
    requires IsSeat(t, gid, first, seat) && Anchor(t, items, gid, first, i)
    ensures i + 1 < |items| ==> HasRow(t, items[i + 1])
    ensures Loaded(Added(t, gid, pos, seat), Below(items, i, pos)) <==>
      (i + 1 == |items| || IndexOf(t, items[i + 1]) > seat || (IndexOf(t, items[i + 1]) == seat && items[i + 1].Header?))
  {
    AnchorSeat(t, items, gid, first, i, seat);
    LandsBelowIff(t, items, gid, i, pos);
  }

  /** A cue added last is read after every other member of the group, always. */
  lemma AddedLastIsLast(t: Tables, gid: int, pos: int, seat: real, q: int)
    requires gid in t.groups && NewPos(t, pos) && IsSeat(t, gid, false, seat) && q in t.cues && t.cues[q].parent == gid
    ensures Before(Added(t, gid, pos, seat), Cue(q), Cue(pos))
  {
    assert HasMember(t, gid);
  }

  /** One added first is read before all of them exactly when none has an index up to
      the seat: it is not, after another first drop on the same folder. */
  lemma AddedFirstIsFirstIff(t: Tables, gid: int, pos: int, seat: real)
    requires gid in t.groups && NewPos(t, pos) && IsSeat(t, gid, true, seat)
    ensures (forall q :: q in t.cues && t.cues[q].parent == gid ==> Before(Added(t, gid, pos, seat), Cue(pos), Cue(q)))
      <==> forall q :: q in t.cues && t.cues[q].parent == gid ==> t.cues[q].index > seat
  {
    var r := Added(t, gid, pos, seat);
    forall q | q in t.cues ensures Before(r, Cue(pos), Cue(q)) <==> t.cues[q].index > seat {
      BeforeNew(t, gid, pos, seat, Cue(q));
    }
  }

  // ------------------------------------------------------------- collisions

  /** Two first drops in a row, on any sheet, get the same seat; the second is read
      after the first one. */
  lemma SecondFirstDropTies(t: Tables, gid: int, a: int, b: int, seat: real, again: real)
    requires gid in t.groups && NewPos(t, a) && IsSeat(t, gid, true, seat)
    requires NewPos(Added(t, gid, a, seat), b) && IsSeat(Added(t, gid, a, seat), gid, true, again)
    ensures again == seat && Before(Added(Added(t, gid, a, seat), gid, b, again), Cue(a), Cue(b))
  {
    BeforeNew(Added(t, gid, a, seat), gid, b, again, Cue(a));
  }

  /** Two last drops never tie with each other. */
  lemma SecondLastDropIsApart(t: Tables, gid: int, a: int, b: int, seat: real, again: real)
    requires gid in t.groups && NewPos(t, a) && IsSeat(t, gid, false, seat)
    requires NewPos(Added(t, gid, a, seat), b) && IsSeat(Added(t, gid, a, seat), gid, false, again)
    ensures again == seat + 1.0
  {
    var once := Added(t, gid, a, seat);
    assert once.cues[a].parent == gid && HasMember(once, gid);
    forall q | q in once.cues && once.cues[q].parent == gid ensures once.cues[q].index <= seat {
      if q != a { assert t.cues[q].parent == gid && HasMember(t, gid); }
    }
  }

  /** Indexes as applyOrder leaves them: whole multiples of the step. */
  ghost predicate OnSteps(t: Tables, items: seq<SheetItem>) {
    Loaded(t, items) && forall i :: 0 <= i < |items| ==> HasRow(t, items[i]) && IndexOf(t, items[i]) == i as real * STEP
  }

  /** On whole steps a drop always lands where it is meant to, first or last. */
  lemma OnStepsLands(t: Tables, items: seq<SheetItem>, gid: int, first: bool, i: nat, pos: int, seat: real)
    requires OnSteps(t, items) && gid in t.groups && NewPos(t, pos)
    requires IsSeat(t, gid, first, seat) && Anchor(t, items, gid, first, i)
    ensures Loaded(Added(t, gid, pos, seat), Below(items, i, pos))
  {
    AnchorSeat(t, items, gid, first, i, seat);
    LandsBelowIff(t, items, gid, i, pos);
    if i + 1 < |items| { assert (i + 1) as real * STEP == i as real * STEP + STEP; }
  }
}
