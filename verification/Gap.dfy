/** gapOwner (ctp/sheet.go) and the renderer's span stack (ctp/ctp.go) on
    arbitrary sheets: who owns a gap, and when a row stored with that owner is
    drawn as its member. */
module Gap {
  import opened Forest
  import opened PreOrder
  import opened Flatten
  import GroupWalks

  // --------------------------------------------- any sheet, corrupt or not

  /** What every open span records about its group. */
  ghost predicate Honest(s: Sheet, d: map<int, nat>, stack: seq<Span>)
    requires Depths(s.groups, d)
  {
    forall i :: 0 <= i < |stack| ==>
      && stack[i].gid in s.groups
      && stack[i].depth == d[stack[i].gid]
      && stack[i].skipping == Closed(s.groups, d, stack[i].gid)
  }

  ghost predicate Deepening(stack: seq<Span>) {
    forall i, j :: 0 <= i < j < |stack| ==> stack[i].depth < stack[j].depth
  }

  lemma {:induction false} ClosedBelow(g: Groups, d: map<int, nat>, p: int, top: int)
    requires Depths(g, d) && Within(g, d, p, top) && Closed(g, d, top)
    ensures Closed(g, d, p)
    decreases d[p]
  {
    if p != top {
      ClosedBelow(g, d, g[p].parent, top);
    }
  }

  /** Closing to a depth keeps exactly the shallower spans of a deepening stack. */
  lemma {:induction false} CloseKeeps(stack: seq<Span>, depth: int)
    requires Deepening(stack)
    ensures forall sp :: sp in CloseTo(stack, depth) <==> sp in stack && sp.depth < depth
  {
    if |stack| > 0 {
      var top := stack[|stack| - 1];
      var init := stack[..|stack| - 1];
      assert forall sp :: sp in stack <==> sp in init || sp == top;
      if top.depth >= depth {
        CloseKeeps(init, depth);
      } else {
        forall sp | sp in stack
          ensures sp.depth < depth
        {
          var i :| 0 <= i < |stack| && stack[i] == sp;
          assert i < |stack| - 1 ==> stack[i].depth < stack[|stack| - 1].depth;
        }
      }
    }
  }

  lemma PrefixKeeps(s: Sheet, d: map<int, nat>, a: seq<Span>, b: seq<Span>)
    requires Depths(s.groups, d) && b <= a && Honest(s, d, a) && Deepening(a)
    ensures Honest(s, d, b) && Deepening(b)
  {
    forall i | 0 <= i < |b| ensures b[i] == a[i] {}
  }

  lemma PushKeeps(s: Sheet, d: map<int, nat>, base: seq<Span>, top: Span)
    requires Depths(s.groups, d) && Honest(s, d, base) && Deepening(base)
    requires top.gid in s.groups && top.depth == d[top.gid] && top.skipping == Closed(s.groups, d, top.gid)
    requires forall sp :: sp in base ==> sp.depth < top.depth
    ensures Honest(s, d, base + [top]) && Deepening(base + [top])
  {
    forall i | 0 <= i < |base| ensures base[i].depth < top.depth { assert base[i] in base; }
  }

  lemma HeaderStack(s: Sheet, d: map<int, nat>, f: Fold, gid: int)
    requires Depths(s.groups, d) && gid in s.groups && Honest(s, d, f.stack) && Deepening(f.stack)
    ensures Honest(s, d, Step(s, d, f, Header(gid)).stack) && Deepening(Step(s, d, f, Header(gid)).stack)
  {
    var base := CloseTo(f.stack, d[gid]);
    PrefixKeeps(s, d, f.stack, base);
    CloseKeeps(f.stack, d[gid]);
    var top := Span(gid, d[gid], Hidden(s.groups, d, gid) || s.groups[gid].collapse);
    PushKeeps(s, d, base, top);
  }

  lemma StepStack(s: Sheet, d: map<int, nat>, f: Fold, item: SheetItem)
    requires Depths(s.groups, d) && (item.Header? ==> item.gid in s.groups)
    requires Honest(s, d, f.stack) && Deepening(f.stack)
    ensures Honest(s, d, Step(s, d, f, item).stack) && Deepening(Step(s, d, f, item).stack)
  {
    match item
    case Header(gid) => HeaderStack(s, d, f, gid);
    case Cue(_) =>
      if |f.stack| > 0 {
        PrefixKeeps(s, d, f.stack, Surface(f.stack, Scope(s, item)));
      }
  }

  lemma {:induction false} RenderStack(s: Sheet, d: map<int, nat>, k: nat)
    requires Depths(s.groups, d) && HeadersKnown(s) && k <= |s.items|
    ensures Honest(s, d, Render(s, d, k).stack) && Deepening(Render(s, d, k).stack)
  {
    if k > 0 {
      RenderStack(s, d, k - 1);
      StepStack(s, d, Render(s, d, k - 1), s.items[k - 1]);
    }
  }

  ghost predicate DrawsRow(s: Sheet, d: map<int, nat>, k: nat)
    requires Depths(s.groups, d) && HeadersKnown(s) && k < |s.items|
  {
    |Render(s, d, k + 1).rows| > |Render(s, d, k).rows|
  }

  /** On every sheet: rows come out in sheet order, a header is drawn exactly
      when no group around it is collapsed, a cue is never hidden unless a group
      around it is collapsed, and a drawn cue sits either one level below its own
      group's header or at depth 0. */
  lemma EveryRow(s: Sheet, d: map<int, nat>, k: nat)
    requires Depths(s.groups, d) && HeadersKnown(s) && k < |s.items|
    ensures DrawsRow(s, d, k) ==> exists depth {:trigger FlatRow(s.items[k], depth)} ::
        && Render(s, d, k + 1).rows == Render(s, d, k).rows + [FlatRow(s.items[k], depth)]
        && (depth == RowDepth(s, d, s.items[k]) || (s.items[k].Cue? && depth == 0))
    ensures !DrawsRow(s, d, k) ==> Render(s, d, k + 1).rows == Render(s, d, k).rows
    ensures Visible(s, d, s.items[k]) ==> DrawsRow(s, d, k)
    ensures s.items[k].Header? && DrawsRow(s, d, k) ==> Visible(s, d, s.items[k])
  {
    RenderStack(s, d, k);
    StepDraws(s, d, Render(s, d, k), s.items[k]);
    assert Render(s, d, k + 1) == Step(s, d, Render(s, d, k), s.items[k]);
  }

  /** One row, drawn or not. */
  lemma StepDraws(s: Sheet, d: map<int, nat>, f: Fold, item: SheetItem)
    requires Depths(s.groups, d) && (item.Header? ==> item.gid in s.groups) && Honest(s, d, f.stack)
    ensures var rows := Step(s, d, f, item).rows;
      || (rows == f.rows && !Visible(s, d, item))
      || (rows == f.rows + [FlatRow(item, RowDepth(s, d, item))] && (item.Header? ==> Visible(s, d, item)))
      || (rows == f.rows + [FlatRow(item, 0)] && item.Cue?)
  {
    if item.Cue? && |f.stack| > 0 {
      var stack := Surface(f.stack, Scope(s, item));
      if |stack| > 0 {
        assert stack[|stack| - 1] == f.stack[|stack| - 1];
        if stack[|stack| - 1].skipping && Within(s.groups, d, Scope(s, item), stack[|stack| - 1].gid) {
          ClosedBelow(s.groups, d, Scope(s, item), stack[|stack| - 1].gid);
        }
      }
    }
  }

  // ------------------------------------------------------------ gap owners

  /** The group of the last header among the first k items; 0 when there is none. */
  function LastHeader(items: seq<SheetItem>, k: nat): int
    requires k <= |items|
  {
    if k == 0 then 0
    else match items[k - 1]
      case Header(gid) => gid
      case Cue(_) => LastHeader(items, k - 1)
  }

  datatype Level = Level(gid: int, depth: nat)

  function PopTo(stack: seq<Level>, depth: int): (r: seq<Level>)
    ensures r <= stack
    ensures |r| > 0 ==> r[|r| - 1].depth < depth
  {
    if |stack| > 0 && stack[|stack| - 1].depth >= depth then PopTo(stack[..|stack| - 1], depth) else stack
  }

  function DepthIn(depths: map<int, nat>, gid: int): nat {
    if gid in depths then depths[gid] else 0
  }

  /** gapOwner's stack after k items: headers only, cues change nothing. */
  function GapStack(items: seq<SheetItem>, depths: map<int, nat>, k: nat): (st: seq<Level>)
    requires k <= |items|
  {
    if k == 0 then []
    else match items[k - 1]
      case Header(gid) =>
        PopTo(GapStack(items, depths, k - 1), DepthIn(depths, gid)) + [Level(gid, DepthIn(depths, gid))]
      case Cue(_) => GapStack(items, depths, k - 1)
  }

  /** gapOwner as the program computes it.  Whatever the depth table says, the
      answer is the last header above the gap: a gap placement never lands in an
      outer group once a subgroup has opened, nor at top level below any header. */
  method GapOwner(items: seq<SheetItem>, i: nat, byID: Groups, ghost d: map<int, nat>) returns (owner: int)
    ensures owner == LastHeader(items, if i > |items| then |items| else i)
  {
    var depths := GroupWalks.GroupNesting(byID, d);
    var n := if i > |items| then |items| else i;
    var stack: seq<Level> := [];
    for k := 0 to n
      invariant stack == GapStack(items, depths, k)
    {
      if items[k].Header? {
        var depth := DepthIn(depths, items[k].gid);
        while |stack| > 0 && stack[|stack| - 1].depth >= depth
          invariant PopTo(stack, depth) == PopTo(GapStack(items, depths, k), depth)
        {
          stack := stack[..|stack| - 1];
        }
        stack := stack + [Level(items[k].gid, depth)];
      }
    }
    TopIsLastHeader(items, depths, n);
    owner := if |stack| == 0 then 0 else stack[|stack| - 1].gid;
  }

  lemma {:induction false} TopIsLastHeader(items: seq<SheetItem>, depths: map<int, nat>, k: nat)
    requires k <= |items|
    ensures var st := GapStack(items, depths, k);
      LastHeader(items, k) == if |st| == 0 then 0 else st[|st| - 1].gid
  {
    if k > 0 { TopIsLastHeader(items, depths, k - 1); }
  }

  // ------------------------------------- the two stacks, on the same sheet

  ghost predicate LevelsDeepen(stack: seq<Level>) {
    forall i, j :: 0 <= i < j < |stack| ==> stack[i].depth < stack[j].depth
  }

  lemma {:induction false} PopKeeps(stack: seq<Level>, depth: int)
    requires LevelsDeepen(stack)
    ensures forall l :: l in PopTo(stack, depth) <==> l in stack && l.depth < depth
  {
    if |stack| > 0 {
      var top := stack[|stack| - 1];
      var init := stack[..|stack| - 1];
      assert forall l :: l in stack <==> l in init || l == top;
      if top.depth >= depth {
        PopKeeps(init, depth);
      } else {
        forall l | l in stack
          ensures l.depth < depth
        {
          var i :| 0 <= i < |stack| && stack[i] == l;
          assert i < |stack| - 1 ==> stack[i].depth < stack[|stack| - 1].depth;
        }
      }
    }
  }

  lemma {:induction false} GapStackDeepens(items: seq<SheetItem>, depths: map<int, nat>, k: nat)
    requires k <= |items|
    ensures LevelsDeepen(GapStack(items, depths, k))
  {
    if k > 0 {
      GapStackDeepens(items, depths, k - 1);
      if items[k - 1].Header? {
        var depth := DepthIn(depths, items[k - 1].gid);
        var base := PopTo(GapStack(items, depths, k - 1), depth);
        PopKeeps(GapStack(items, depths, k - 1), depth);
        forall i | 0 <= i < |base| ensures base[i].depth < depth { assert base[i] in base; }
      }
    }
  }

  ghost predicate SpansAmong(stack: seq<Span>, gap: seq<Level>) {
    forall sp :: sp in stack ==> Level(sp.gid, sp.depth) in gap
  }

  lemma HeaderStaysWithin(stack: seq<Span>, gap: seq<Level>, sp0: Span)
    requires Deepening(stack) && LevelsDeepen(gap) && SpansAmong(stack, gap)
    ensures SpansAmong(CloseTo(stack, sp0.depth) + [sp0], PopTo(gap, sp0.depth) + [Level(sp0.gid, sp0.depth)])
  {
    CloseKeeps(stack, sp0.depth);
    PopKeeps(gap, sp0.depth);
  }

  lemma PrefixStaysWithin(stack: seq<Span>, part: seq<Span>, gap: seq<Level>)
    requires part <= stack && SpansAmong(stack, gap)
    ensures SpansAmong(part, gap)
  {
    forall sp | sp in part
      ensures sp in stack
    {
      var i :| 0 <= i < |part| && part[i] == sp;
      assert stack[i] == sp;
    }
  }

  function GapStep(gap: seq<Level>, depths: map<int, nat>, item: SheetItem): seq<Level> {
    match item
    case Header(gid) => PopTo(gap, DepthIn(depths, gid)) + [Level(gid, DepthIn(depths, gid))]
    case Cue(_) => gap
  }

  lemma StepWithinGap(s: Sheet, d: map<int, nat>, f: Fold, item: SheetItem, gap: seq<Level>)
    requires Depths(s.groups, d) && (item.Header? ==> item.gid in s.groups)
    requires Deepening(f.stack) && LevelsDeepen(gap) && SpansAmong(f.stack, gap)
    ensures SpansAmong(Step(s, d, f, item).stack, GapStep(gap, d, item))
  {
    match item
    case Header(gid) =>
      var st := Step(s, d, f, item).stack;
      HeaderStaysWithin(f.stack, gap, st[|st| - 1]);
    case Cue(_) =>
      CueStack(s, d, f, item);
      if |f.stack| > 0 { PrefixStaysWithin(f.stack, Surface(f.stack, Scope(s, item)), gap); }
  }

  /** On every sheet the renderer has no span open that gapOwner has not: its
      stack is the deepening subsequence that the cues' own groups left open. */
  lemma {:induction false} RenderWithinGap(s: Sheet, d: map<int, nat>, k: nat)
    requires Depths(s.groups, d) && HeadersKnown(s) && k <= |s.items|
    ensures Deepening(Render(s, d, k).stack) && LevelsDeepen(GapStack(s.items, d, k))
    ensures SpansAmong(Render(s, d, k).stack, GapStack(s.items, d, k))
  {
    RenderStack(s, d, k);
    GapStackDeepens(s.items, d, k);
    if k > 0 {
      RenderWithinGap(s, d, k - 1);
      StepWithinGap(s, d, Render(s, d, k - 1), s.items[k - 1], GapStack(s.items, d, k - 1));
    }
  }

  /** Every cue among the first k is stored with the owner of its own gap. */
  ghost predicate OwnedByGap(s: Sheet, k: nat)
    requires k <= |s.items|
  {
    forall m {:trigger OwnedAt(s, m)} :: 0 <= m < k ==> OwnedAt(s, m)
  }

  ghost predicate OwnedAt(s: Sheet, m: nat)
    requires m < |s.items|
  {
    s.items[m].Cue? ==> Scope(s, s.items[m]) == LastHeader(s.items, m)
  }

  ghost function LevelsOf(stack: seq<Span>): seq<Level> {
    seq(|stack|, i requires 0 <= i < |stack| => Level(stack[i].gid, stack[i].depth))
  }

  lemma {:induction false} CloseLevels(stack: seq<Span>, depth: int)
    ensures LevelsOf(CloseTo(stack, depth)) == PopTo(LevelsOf(stack), depth)
  {
    if |stack| > 0 && stack[|stack| - 1].depth >= depth {
      CloseLevels(stack[..|stack| - 1], depth);
      assert LevelsOf(stack)[..|stack| - 1] == LevelsOf(stack[..|stack| - 1]);
    }
  }

  lemma CueStack(s: Sheet, d: map<int, nat>, f: Fold, item: SheetItem)
    requires Depths(s.groups, d) && item.Cue?
    ensures Step(s, d, f, item).stack == if |f.stack| == 0 then [] else Surface(f.stack, Scope(s, item))
  {
  }

  lemma HeaderLevels(s: Sheet, d: map<int, nat>, f: Fold, gid: int)
    requires Depths(s.groups, d) && gid in s.groups
    ensures LevelsOf(Step(s, d, f, Header(gid)).stack) == PopTo(LevelsOf(f.stack), d[gid]) + [Level(gid, d[gid])]
  {
    CloseLevels(f.stack, d[gid]);
    var base := CloseTo(f.stack, d[gid]);
    var st := Step(s, d, f, Header(gid)).stack;
    assert st[..|base|] == base && |st| == |base| + 1;
    assert LevelsOf(st) == LevelsOf(base) + [Level(gid, d[gid])];
  }

  /** When every cue is stored with the owner of its gap the two stacks are the
      same level by level, so no cue surfaces an outer span. */
  lemma {:induction false} StacksAgree(s: Sheet, d: map<int, nat>, k: nat)
    requires Depths(s.groups, d) && HeadersKnown(s) && k <= |s.items| && OwnedByGap(s, k)
    ensures LevelsOf(Render(s, d, k).stack) == GapStack(s.items, d, k)
  {
    if k > 0 {
      StacksAgree(s, d, k - 1);
      NextGap(s, d, k);
      StepAgrees(s, d, Render(s, d, k - 1), s.items[k - 1], GapStack(s.items, d, k - 1));
      NextRender(s, d, k);
    }
  }

  lemma NextGap(s: Sheet, d: map<int, nat>, k: nat)
    requires 0 < k <= |s.items| && OwnedByGap(s, k)
    ensures GapStack(s.items, d, k) == GapStep(GapStack(s.items, d, k - 1), d, s.items[k - 1])
    ensures var gap := GapStack(s.items, d, k - 1);
      s.items[k - 1].Cue? && |gap| > 0 ==> Scope(s, s.items[k - 1]) == gap[|gap| - 1].gid
  {
    assert OwnedAt(s, k - 1);
    TopIsLastHeader(s.items, d, k - 1);
  }

  /** One row on a stack that agrees; a cue must belong to the group on top. */
  lemma StepAgrees(s: Sheet, d: map<int, nat>, f: Fold, item: SheetItem, gap: seq<Level>)
    requires Depths(s.groups, d) && (item.Header? ==> item.gid in s.groups) && LevelsOf(f.stack) == gap
    requires item.Cue? && |gap| > 0 ==> Scope(s, item) == gap[|gap| - 1].gid
    ensures LevelsOf(Step(s, d, f, item).stack) == GapStep(gap, d, item)
  {
    match item
    case Header(gid) => HeaderLevels(s, d, f, gid);
    case Cue(_) =>
      CueStack(s, d, f, item);
      if |f.stack| > 0 { assert LevelsOf(f.stack)[|f.stack| - 1].gid == f.stack[|f.stack| - 1].gid; }
  }

  /** How row k is drawn, when it is a cue. */
  datatype Drawing = TopLevel | Member | Stray | NotDrawn

  ghost function HowOn(s: Sheet, d: map<int, nat>, stack: seq<Span>, p: int): Drawing
    requires Depths(s.groups, d)
  {
    if |stack| == 0 then TopLevel
    else
      var st := Surface(stack, p);
      if |st| == 0 then TopLevel
      else if st[|st| - 1].skipping && Within(s.groups, d, p, st[|st| - 1].gid) then NotDrawn
      else if p == st[|st| - 1].gid then Member else Stray
  }

  ghost function HowDrawn(s: Sheet, d: map<int, nat>, k: nat): Drawing
    requires Depths(s.groups, d) && HeadersKnown(s) && k < |s.items| && s.items[k].Cue?
  {
    HowOn(s, d, Render(s, d, k).stack, Scope(s, s.items[k]))
  }

  ghost function RowOf(s: Sheet, d: map<int, nat>, item: SheetItem, how: Drawing): seq<FlatRow>
    requires Depths(s.groups, d)
  {
    match how
    case Member => [FlatRow(item, RowDepth(s, d, item))]
    case NotDrawn => []
    case _ => [FlatRow(item, 0)]
  }

  lemma StepDrawsAs(s: Sheet, d: map<int, nat>, f: Fold, item: SheetItem)
    requires Depths(s.groups, d) && item.Cue? && Honest(s, d, f.stack)
    ensures var how := HowOn(s, d, f.stack, Scope(s, item));
      && Step(s, d, f, item).rows == f.rows + RowOf(s, d, item, how)
      && (how == Member ==> Scope(s, item) in s.groups)
  {
    if |f.stack| > 0 && |Surface(f.stack, Scope(s, item))| > 0 {
      var st := Surface(f.stack, Scope(s, item));
      assert st[|st| - 1] == f.stack[|st| - 1];
    }
  }

  /** The renderer adds the row that says. */
  lemma DrawnAs(s: Sheet, d: map<int, nat>, k: nat)
    requires Depths(s.groups, d) && HeadersKnown(s) && k < |s.items| && s.items[k].Cue?
    ensures Render(s, d, k + 1).rows == Render(s, d, k).rows + RowOf(s, d, s.items[k], HowDrawn(s, d, k))
  {
    RenderStack(s, d, k);
    NextRender(s, d, k + 1);
    StepDrawsAs(s, d, Render(s, d, k), s.items[k]);
  }

  /** Row k is drawn one below its group's header. */
  ghost predicate MemberRow(s: Sheet, d: map<int, nat>, k: nat)
    requires Depths(s.groups, d) && HeadersKnown(s) && k < |s.items|
  {
    Render(s, d, k + 1).rows == Render(s, d, k).rows + [FlatRow(s.items[k], RowDepth(s, d, s.items[k]))]
  }

  lemma AppendedIff<T>(rows: seq<T>, a: seq<T>, b: seq<T>)
    ensures rows + a == rows + b <==> a == b
  {
    if rows + a == rows + b {
      assert (rows + a)[|rows|..] == a && (rows + b)[|rows|..] == b;
    }
  }

  lemma MemberRowIff(s: Sheet, d: map<int, nat>, k: nat)
    requires Depths(s.groups, d) && HeadersKnown(s) && k < |s.items| && s.items[k].Cue? && Scope(s, s.items[k]) in s.groups
    ensures MemberRow(s, d, k) <==> HowDrawn(s, d, k) == Member
  {
    DrawnAs(s, d, k);
    AppendedIff(Render(s, d, k).rows, RowOf(s, d, s.items[k], HowDrawn(s, d, k)), [FlatRow(s.items[k], RowDepth(s, d, s.items[k]))]);
  }

  /** On a sheet whose cues are all stored with their gap's owner, a cue below any
      header is drawn as its owner's member, or hidden because that group is
      closed; it is never a stray. */
  lemma OwnedIsNeverStray(s: Sheet, d: map<int, nat>, k: nat)
    requires Depths(s.groups, d) && HeadersKnown(s) && k < |s.items| && s.items[k].Cue?
    requires OwnedByGap(s, k + 1)
    ensures LastHeader(s.items, k) == 0 ==> HowDrawn(s, d, k) == TopLevel
    ensures LastHeader(s.items, k) != 0 ==>
        HowDrawn(s, d, k) == if Closed(s.groups, d, LastHeader(s.items, k)) then NotDrawn else Member
    ensures Render(s, d, k + 1).rows == Render(s, d, k).rows
        + (if Visible(s, d, s.items[k]) then [FlatRow(s.items[k], RowDepth(s, d, s.items[k]))] else [])
  {
    assert OwnedAt(s, k);
    DrawnAs(s, d, k);
    StacksAgree(s, d, k);
    RenderStack(s, d, k);
    TopIsLastHeader(s.items, d, k);
    var stack := Render(s, d, k).stack;
    if |stack| > 0 {
      LevelTop(stack);
      OwnedOnTop(s, d, stack, Scope(s, s.items[k]));
    }
  }

  lemma OwnedOnTop(s: Sheet, d: map<int, nat>, stack: seq<Span>, p: int)
    requires Depths(s.groups, d) && Honest(s, d, stack) && |stack| > 0 && p == stack[|stack| - 1].gid
    ensures HowOn(s, d, stack, p) == if Closed(s.groups, d, p) then NotDrawn else Member
  {
    assert Surface(stack, p) == stack;
    assert Within(s.groups, d, p, p);
  }

  lemma LevelTop(stack: seq<Span>)
    requires |stack| > 0
    ensures LevelsOf(stack)[|stack| - 1].gid == stack[|stack| - 1].gid
  {
  }

  // ----------------------------------- one insertion into an arbitrary sheet

  /** Some cue in rows h+1..k belongs to a group still open around header h. */
  ghost predicate Surfaced(s: Sheet, around: seq<Span>, h: nat, k: nat)
    requires k <= |s.items|
  {
    exists m :: h < m < k && s.items[m].Cue? && FindSpan(around, Scope(s, s.items[m])) >= 0
  }

  lemma {:induction false} FindBelow(around: seq<Span>, top: Span, parent: int)
    requires parent != top.gid
    ensures FindSpan(around + [top], parent) == FindSpan(around, parent)
  {
    assert (around + [top])[..|around|] == around;
  }

  lemma SurfacedStep(s: Sheet, around: seq<Span>, h: nat, k: nat)
    requires h + 1 < k <= |s.items| && s.items[k - 1].Cue?
    ensures Surfaced(s, around, h, k) <==> Surfaced(s, around, h, k - 1) || FindSpan(around, Scope(s, s.items[k - 1])) >= 0
  {
    if Surfaced(s, around, h, k) {
      var m :| h < m < k && s.items[m].Cue? && FindSpan(around, Scope(s, s.items[m])) >= 0;
      assert m == k - 1 || Surfaced(s, around, h, k - 1);
    }
  }

  /** The owner's span is still on top, or everything from it up has closed. */
  ghost predicate OpenOrLost(stack: seq<Span>, around: seq<Span>, top: Span, lost: bool) {
    if lost then stack <= around else stack == around + [top]
  }

  /** One cue below the owner's header. */
  lemma CueBelow(s: Sheet, d: map<int, nat>, f: Fold, item: SheetItem, around: seq<Span>, top: Span, lost: bool)
    requires Depths(s.groups, d) && item.Cue? && FindSpan(around, top.gid) < 0
    requires Deepening(f.stack) && OpenOrLost(f.stack, around, top, lost)
    ensures OpenOrLost(Step(s, d, f, item).stack, around, top, lost || FindSpan(around, Scope(s, item)) >= 0)
  {
    CueStack(s, d, f, item);
    if lost { PrefixOf(Step(s, d, f, item).stack, f.stack, around); }
    else { SurfaceFrom(around, top, Scope(s, item)); }
  }

  /** From header h on, with only cues following, the owner's span is still open
      exactly when no cue in between belongs to a group open further out. */
  lemma {:induction false} OwnerStaysOpen(s: Sheet, d: map<int, nat>, h: nat, k: nat, around: seq<Span>, top: Span)
    requires Depths(s.groups, d) && HeadersKnown(s) && h < k <= |s.items|
    requires forall m :: h < m < k ==> s.items[m].Cue?
    requires Render(s, d, h + 1).stack == around + [top] && FindSpan(around, top.gid) < 0
    ensures OpenOrLost(Render(s, d, k).stack, around, top, Surfaced(s, around, h, k))
    decreases k
  {
    if k > h + 1 {
      OwnerStaysOpen(s, d, h, k - 1, around, top);
      RenderStack(s, d, k - 1);
      SurfacedStep(s, around, h, k);
      CueBelow(s, d, Render(s, d, k - 1), s.items[k - 1], around, top, Surfaced(s, around, h, k - 1));
      NextRender(s, d, k);
    }
  }

  lemma NextRender(s: Sheet, d: map<int, nat>, k: nat)
    requires Depths(s.groups, d) && HeadersKnown(s) && 0 < k <= |s.items|
    ensures Render(s, d, k) == Step(s, d, Render(s, d, k - 1), s.items[k - 1])
  {
  }

  lemma PrefixOf<T>(a: seq<T>, b: seq<T>, c: seq<T>)
    requires a <= b <= c
    ensures a <= c
  {
  }

  lemma SurfaceFrom(around: seq<Span>, top: Span, parent: int)
    requires Deepening(around + [top]) && FindSpan(around, top.gid) < 0
    ensures FindSpan(around, parent) < 0 ==> Surface(around + [top], parent) == around + [top]
    ensures FindSpan(around, parent) >= 0 ==> Surface(around + [top], parent) <= around
  {
    if parent != top.gid {
      FindBelow(around, top, parent);
      if FindSpan(around, parent) >= 0 {
        CloseDrops(around, top, FindSpan(around, parent));
      }
    }
  }

  lemma CloseDrops(around: seq<Span>, top: Span, i: nat)
    requires Deepening(around + [top]) && i < |around|
    ensures CloseTo(around + [top], around[i].depth + 1) <= around
  {
    var st := around + [top];
    assert st[i].depth < st[|around|].depth;
    assert st[..|around|] == around;
  }

  /** The spans open around header h. */
  ghost function Around(s: Sheet, d: map<int, nat>, h: nat): seq<Span>
    requires Depths(s.groups, d) && HeadersKnown(s) && h < |s.items| && s.items[h].Header?
  {
    CloseTo(Render(s, d, h).stack, d[s.items[h].gid])
  }

  lemma Absent(stack: seq<Span>, gid: int)
    requires forall i :: 0 <= i < |stack| ==> stack[i].gid != gid
    ensures FindSpan(stack, gid) == -1
  {
  }

  lemma AroundWithout(around: seq<Span>, top: Span, d: map<int, nat>)
    requires Deepening(around + [top]) && top.gid in d && top.depth == d[top.gid]
    requires forall i :: 0 <= i < |around| ==> around[i].gid in d && around[i].depth == d[around[i].gid]
    ensures FindSpan(around, top.gid) < 0
  {
    var all := around + [top];
    forall i | 0 <= i < |around| ensures around[i].gid != top.gid {
      assert all[i] == around[i] && all[i].depth < all[|around|].depth;
    }
    Absent(around, top.gid);
  }

  lemma HeaderStep(s: Sheet, d: map<int, nat>, f: Fold, gid: int) returns (top: Span)
    requires Depths(s.groups, d) && gid in s.groups
    ensures Step(s, d, f, Header(gid)).stack == CloseTo(f.stack, d[gid]) + [top]
    ensures top.gid == gid && top.depth == d[gid] && top.skipping == Closed(s.groups, d, gid)
  {
    top := Span(gid, d[gid], Hidden(s.groups, d, gid) || s.groups[gid].collapse);
  }

  lemma HonestAround(s: Sheet, d: map<int, nat>, stack: seq<Span>, around: seq<Span>, top: Span)
    requires Depths(s.groups, d) && Honest(s, d, stack) && stack == around + [top]
    ensures top.gid in d && top.depth == d[top.gid]
    ensures forall i :: 0 <= i < |around| ==> around[i].gid in d && around[i].depth == d[around[i].gid]
  {
    assert stack[|around|] == top;
    forall i | 0 <= i < |around| ensures around[i] == stack[i] {}
  }

  lemma HeaderOnTop(s: Sheet, d: map<int, nat>, h: nat) returns (top: Span)
    requires Depths(s.groups, d) && HeadersKnown(s) && h < |s.items| && s.items[h].Header?
    ensures Render(s, d, h + 1).stack == Around(s, d, h) + [top]
    ensures top.gid == s.items[h].gid && top.skipping == Closed(s.groups, d, top.gid)
    ensures FindSpan(Around(s, d, h), top.gid) < 0
  {
    top := HeaderStep(s, d, Render(s, d, h), s.items[h].gid);
    RenderStack(s, d, h + 1);
    HonestAround(s, d, Render(s, d, h + 1).stack, Around(s, d, h), top);
    AroundWithout(Around(s, d, h), top, d);
  }

  lemma InsertedHow(s: Sheet, d: map<int, nat>, h: nat, k: nat)
    requires Depths(s.groups, d) && HeadersKnown(s) && h < k < |s.items|
    requires s.items[h].Header? && forall m :: h < m <= k ==> s.items[m].Cue?
    requires Scope(s, s.items[k]) == s.items[h].gid
    ensures HowDrawn(s, d, k) == Member <==> !Surfaced(s, Around(s, d, h), h, k) && !Closed(s.groups, d, s.items[h].gid)
    ensures !Surfaced(s, Around(s, d, h), h, k) && Closed(s.groups, d, s.items[h].gid) ==> HowDrawn(s, d, k) == NotDrawn
  {
    var top := HeaderOnTop(s, d, h);
    OwnerStaysOpen(s, d, h, k, Around(s, d, h), top);
    assert Within(s.groups, d, top.gid, top.gid);
    if Surfaced(s, Around(s, d, h), h, k) {
      NotInPrefix(Around(s, d, h), Render(s, d, k).stack, top.gid);
    }
  }

  /** A cue inserted at gap k and stored with the gap's owner, header h, finds its
      owner's span open exactly when no cue since the header belongs to a group open
      around it: it is then drawn as its member, or hidden when the group is closed. */
  lemma InsertedCue(s: Sheet, d: map<int, nat>, h: nat, k: nat)
    requires Depths(s.groups, d) && HeadersKnown(s) && h < k < |s.items|
    requires s.items[h].Header? && forall m :: h < m <= k ==> s.items[m].Cue?
    requires Scope(s, s.items[k]) == LastHeader(s.items, k)
    ensures LastHeader(s.items, k) == s.items[h].gid
    ensures MemberRow(s, d, k) <==> !Surfaced(s, Around(s, d, h), h, k) && !Closed(s.groups, d, s.items[h].gid)
    ensures !Surfaced(s, Around(s, d, h), h, k) && Closed(s.groups, d, s.items[h].gid) ==>
      Render(s, d, k + 1).rows == Render(s, d, k).rows
  {
    LastHeaderIs(s.items, h, k);
    InsertedHow(s, d, h, k);
    MemberRowIff(s, d, k);
    DrawnAs(s, d, k);
  }

  lemma {:induction false} LastHeaderIs(items: seq<SheetItem>, h: nat, k: nat)
    requires h < k <= |items| && items[h].Header? && forall m :: h < m < k ==> items[m].Cue?
    ensures LastHeader(items, k) == items[h].gid
    decreases k
  {
    if k > h + 1 { LastHeaderIs(items, h, k - 1); }
  }

  lemma NotInPrefix(around: seq<Span>, stack: seq<Span>, gid: int)
    requires stack <= around && FindSpan(around, gid) < 0
    ensures |stack| > 0 ==> stack[|stack| - 1].gid != gid
    ensures FindSpan(stack, gid) < 0
  {
    if |stack| > 0 {
      assert around[|stack| - 1] == stack[|stack| - 1];
    }
    forall i | 0 <= i < |stack|
      ensures stack[i].gid != gid
    {
      assert around[i] == stack[i];
    }
  }
}
