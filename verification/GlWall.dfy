/** The GPU wall's layers (gsp/gllayer.go, gsp/wall.go): records, the visible
    stack, and who frees a layer when Stop and teardown race.

    Every operation finds its record first (glAwait, outside the lock), so the
    record it comes with may be stale; it then works under one lock, and what it
    takes off a record is freed after the lock.  Records are named by ids. */
module GlWall {
  import opened Util

  /** A cue's place on the wall; layer 0 is not attached. */
  datatype Rec = Rec(p: int, layer: int, visible: bool, parked: bool, attached: nat)

  datatype At = Top | Bottom | Under

  /** z: the mixer's order of each layer; owner: the pipeline a layer was made for;
      hands: taken layers not freed yet. */
  datatype Wall = Wall(reg: map<int, int>, recs: map<int, Rec>, stack: seq<int>, z: map<int, int>, minted: nat,
                       owner: map<int, int>, hands: multiset<int>, freed: multiset<int>)

  const PARKED_Z := 1000

  const EMPTY := Wall(map[], map[], [], map[], 0, map[], multiset{}, multiset{})

  // -------------------------------------------------------------- operations

  /** glLayers[p] == l. */
  predicate Current(w: Wall, p: int, r: int) {
    p in w.reg && w.reg[p] == r && r in w.recs
  }

  function LayerOf(w: Wall, r: int): int {
    if r in w.recs then w.recs[r].layer else 0
  }

  /** glRegister: the first tail of a pipeline is its layer. */
  function Registered(w: Wall, p: int, r: int): Wall {
    if p in w.reg then w else w.(reg := w.reg[p := r], recs := w.recs[r := Rec(p, 0, false, false, 0)])
  }

  /** glAttachLocked; ok is what the wall answers. */
  function Attached(w: Wall, r: int, ok: bool): Wall
    requires r in w.recs
  {
    if w.recs[r].layer != 0 || !ok then w
    else w.(minted := w.minted + 1, owner := w.owner[w.minted + 1 := w.recs[r].p],
            recs := w.recs[r := w.recs[r].(layer := w.minted + 1, attached := w.minted + 1)])
  }

  /** glRestackLocked: bottom to top, 1, 2, ... */
  function Restack(z: map<int, int>, recs: map<int, Rec>, stack: seq<int>): map<int, int> {
    if |stack| == 0 then z
    else
      var below := Restack(z, recs, stack[..|stack| - 1]);
      var r := stack[|stack| - 1];
      if r in recs && recs[r].layer != 0 then below[recs[r].layer := |stack|] else below
  }

  function Restacked(w: Wall): Wall {
    w.(z := Restack(w.z, w.recs, w.stack))
  }

  function IndexIn(stack: seq<int>, r: int): (i: int)
    ensures -1 <= i < |stack|
    ensures i >= 0 ==> stack[i] == r && forall k :: 0 <= k < i ==> stack[k] != r
    ensures i < 0 <==> r !in stack
  {
    if |stack| == 0 then -1
    else
      assert stack == stack[..|stack| - 1] + [stack[|stack| - 1]];
      var i := IndexIn(stack[..|stack| - 1], r);
      if i >= 0 then i else if stack[|stack| - 1] == r then |stack| - 1 else -1
  }

  /** stackIndex: ref is the record to go beneath, 0 for none. */
  function StackIndex(stack: seq<int>, ref: int, at: At): (i: nat)
    ensures i <= |stack|
  {
    match at
    case Bottom => 0
    case Under => if ref != 0 && IndexIn(stack, ref) >= 0 then IndexIn(stack, ref) else |stack|
    case Top => |stack|
  }

  function Inserted(stack: seq<int>, r: int, i: nat): seq<int>
    requires i <= |stack|
  {
    stack[..i] + [r] + stack[i..]
  }

  function Removed(stack: seq<int>, r: int): seq<int> {
    var i := IndexIn(stack, r);
    if i < 0 then stack else stack[..i] + stack[i + 1..]
  }

  function RefOf(w: Wall, ref: int): int {
    if ref in w.reg then w.reg[ref] else 0
  }

  /** glShow. */
  function Shown(w: Wall, p: int, r: int, at: At, ref: int, ok: bool): Wall {
    if !Current(w, p, r) || LayerOf(Attached(w, r, ok), r) == 0 then w
    else
      var a := Attached(w, r, ok);
      var b := if a.recs[r].visible then a
        else a.(recs := a.recs[r := a.recs[r].(visible := true)], stack := Inserted(a.stack, r, StackIndex(a.stack, RefOf(a, ref), at)));
      Restacked(b)
  }

  /** glPark: the armed panic picture, above everything, invisible. */
  function Parked(w: Wall, p: int, r: int, ok: bool): Wall {
    if !Current(w, p, r) || LayerOf(Attached(w, r, ok), r) == 0 then w
    else
      var a := Attached(w, r, ok);
      a.(recs := a.recs[r := a.recs[r].(parked := true)], z := a.z[a.recs[r].layer := PARKED_Z])
  }

  /** glRaise: on top at once; nothing else is restacked. */
  function Raised(w: Wall, p: int, r: int, ok: bool): Wall {
    if !Current(w, p, r) || LayerOf(Attached(w, r, ok), r) == 0 then w
    else
      var a := Attached(w, r, ok);
      var stack := (if a.recs[r].visible then Removed(a.stack, r) else a.stack) + [r];
      a.(recs := a.recs[r := a.recs[r].(visible := true, parked := false)], stack := stack, z := a.z[a.recs[r].layer := |stack|])
  }

  /** glTakeLayerLocked: off the record, into the caller's hands. */
  function Taken(w: Wall, r: int): Wall
    requires r in w.recs
  {
    var x := w.recs[r].layer;
    w.(recs := w.recs[r := w.recs[r].(layer := 0)], hands := if x == 0 then w.hands else w.hands + multiset{x})
  }

  /** glHide: off the wall, the record kept. */
  function Hidden(w: Wall, p: int): Wall {
    if p !in w.reg || w.reg[p] !in w.recs then w
    else
      var r := w.reg[p];
      var a := if w.recs[r].visible
        then Restacked(w.(recs := w.recs[r := w.recs[r].(visible := false)], stack := Removed(w.stack, r))) else w;
      Taken(a, r)
  }

  /** glDrop: the record goes too. */
  function Dropped(w: Wall, p: int): Wall {
    if p !in w.reg || w.reg[p] !in w.recs then w
    else
      var r := w.reg[p];
      var a := w.(reg := w.reg - {p});
      var b := if w.recs[r].visible then Restacked(a.(stack := Removed(a.stack, r))) else a;
      Taken(b, r)
  }

  function Freed(w: Wall, x: int): Wall {
    w.(hands := w.hands - multiset{x}, freed := w.freed + multiset{x})
  }

  // --------------------------------------------------------------- invariant

  ghost predicate Kept(w: Wall, r: int) {
    r in w.recs && w.recs[r].p in w.reg && w.reg[w.recs[r].p] == r
  }

  /** The table names existing records, each under its own pipeline. */
  ghost predicate TableOk(w: Wall) {
    0 !in w.recs && forall p :: p in w.reg ==> w.reg[p] in w.recs && w.recs[w.reg[p]].p == p
  }

  /** The stack holds exactly the registered visible records, each once. */
  ghost predicate StackOk(w: Wall) {
    Distinct(w.stack) && forall r :: r in w.stack <==> Kept(w, r) && w.recs[r].visible
  }

  /** Only a registered record has a layer; a visible one always has; no two share one. */
  ghost predicate LayersOk(w: Wall) {
    && (forall r :: r in w.recs && w.recs[r].layer != 0 ==> Kept(w, r) && 1 <= w.recs[r].layer <= w.minted)
    && (forall r :: Kept(w, r) && w.recs[r].visible ==> w.recs[r].layer != 0)
    && (forall r :: r in w.recs && w.recs[r].layer != 0 ==> w.recs[r].layer in w.owner && w.owner[w.recs[r].layer] == w.recs[r].p)
    && forall r, q :: r in w.recs && q in w.recs && r != q && w.recs[r].layer != 0 ==> w.recs[r].layer != w.recs[q].layer
  }

  ghost predicate OnRecord(w: Wall, x: int) {
    exists r :: r in w.recs && w.recs[r].layer == x
  }

  /** Every layer ever attached is on a record, in one taker's hands, or freed, once. */
  ghost predicate CountOk(w: Wall) {
    forall x :: x != 0 ==> w.hands[x] + w.freed[x] == if 1 <= x <= w.minted && !OnRecord(w, x) then 1 else 0
  }

  ghost predicate Sound(w: Wall) {
    TableOk(w) && StackOk(w) && LayersOk(w) && CountOk(w) && 0 !in w.hands && 0 !in w.freed
  }

  /** Bottom to top the visible layers have mixer order 1, 2, ... */
  ghost predicate InOrder(w: Wall) {
    forall i :: 0 <= i < |w.stack| ==> var x := LayerOf(w, w.stack[i]); x in w.z && w.z[x] == i + 1
  }

  // ------------------------------------------------------- each operation

  lemma RegisterSound(w: Wall, p: int, r: int)
    requires Sound(w) && r != 0 && r !in w.recs
    ensures Sound(Registered(w, p, r))
  {
    var t := Registered(w, p, r);
    if p !in w.reg {
      forall q | q in w.recs ensures Kept(w, q) <==> Kept(t, q) {}
      forall x | x != 0 ensures OnRecord(w, x) <==> OnRecord(t, x) {
        if OnRecord(w, x) { var q :| q in w.recs && w.recs[q].layer == x; assert t.recs[q].layer == x; }
      }
    }
  }

  lemma AttachSound(w: Wall, r: int, ok: bool)
    requires Sound(w) && Kept(w, r)
    ensures Sound(Attached(w, r, ok)) && Kept(Attached(w, r, ok), r)
  {
    var t := Attached(w, r, ok);
    if t != w {
      forall q | q in w.recs ensures Kept(w, q) <==> Kept(t, q) {}
      forall x | x != 0 && x != t.minted ensures OnRecord(w, x) <==> OnRecord(t, x) {
        if OnRecord(w, x) { var q :| q in w.recs && w.recs[q].layer == x; assert t.recs[q].layer == x; }
      }
      assert t.recs[r].layer == t.minted;
    }
  }

  lemma SameLayers(w: Wall, t: Wall)
    requires w.recs.Keys == t.recs.Keys && forall q :: q in w.recs ==> w.recs[q].layer == t.recs[q].layer
    ensures forall x :: OnRecord(w, x) <==> OnRecord(t, x)
  {
    forall x ensures OnRecord(w, x) <==> OnRecord(t, x) {
      if OnRecord(w, x) { var q :| q in w.recs && w.recs[q].layer == x; assert t.recs[q].layer == x; }
      if OnRecord(t, x) { var q :| q in t.recs && t.recs[q].layer == x; assert w.recs[q].layer == x; }
    }
  }

  /** Changing the stack and the flags of one attached record. */
  lemma FlagsSound(w: Wall, r: int, visible: bool, parked: bool, stack: seq<int>, z: map<int, int>)
    requires Sound(w) && Kept(w, r) && (visible ==> w.recs[r].layer != 0)
    requires Distinct(stack) && forall q :: q in stack <==> if q == r then visible else q in w.stack
    ensures Sound(w.(recs := w.recs[r := w.recs[r].(visible := visible, parked := parked)], stack := stack, z := z))
  {
    var t := w.(recs := w.recs[r := w.recs[r].(visible := visible, parked := parked)], stack := stack, z := z);
    SameLayers(w, t);
    forall q ensures Kept(w, q) <==> Kept(t, q) {}
  }

  lemma InsertedFacts(stack: seq<int>, r: int, i: nat)
    requires Distinct(stack) && r !in stack && i <= |stack|
    ensures Distinct(Inserted(stack, r, i)) && forall q :: q in Inserted(stack, r, i) <==> q == r || q in stack
  {
    var t := Inserted(stack, r, i);
    assert stack == stack[..i] + stack[i..];
    forall j, k | 0 <= j < k < |t| ensures t[j] != t[k] {
      var a, b := if j < i then j else j - 1, if k < i then k else k - 1;
      if j != i && k != i { assert t[j] == stack[a] && t[k] == stack[b]; }
    }
  }

  lemma CutDistinct(stack: seq<int>, i: nat)
    requires Distinct(stack) && i < |stack|
    ensures Distinct(stack[..i] + stack[i + 1..])
  {
    var t := stack[..i] + stack[i + 1..];
    forall j, k | 0 <= j < k < |t| ensures t[j] != t[k] {
      assert t[j] == stack[if j < i then j else j + 1] && t[k] == stack[if k < i then k else k + 1];
    }
  }

  lemma CutHas(stack: seq<int>, i: nat, q: int)
    requires Distinct(stack) && i < |stack|
    ensures q in stack[..i] + stack[i + 1..] <==> q != stack[i] && q in stack
  {
    var t := stack[..i] + stack[i + 1..];
    if q in t { var k :| 0 <= k < |t| && t[k] == q; assert t[k] == stack[if k < i then k else k + 1]; }
    if q in stack && q != stack[i] { var k :| 0 <= k < |stack| && stack[k] == q; assert t[if k < i then k else k - 1] == q; }
  }

  lemma RemovedFacts(stack: seq<int>, r: int)
    requires Distinct(stack)
    ensures Distinct(Removed(stack, r)) && forall q :: q in Removed(stack, r) <==> q != r && q in stack
    ensures r in stack ==> |Removed(stack, r)| == |stack| - 1
  {
    var i := IndexIn(stack, r);
    if i >= 0 {
      CutDistinct(stack, i);
      forall q ensures q in Removed(stack, r) <==> q != r && q in stack { CutHas(stack, i, q); }
    }
  }

  lemma ShowSound(w: Wall, p: int, r: int, at: At, ref: int, ok: bool)
    requires Sound(w)
    ensures Sound(Shown(w, p, r, at, ref, ok))
  {
    if Current(w, p, r) {
      AttachSound(w, r, ok);
      var a := Attached(w, r, ok);
      if LayerOf(a, r) != 0 && !a.recs[r].visible {
        var i := StackIndex(a.stack, RefOf(a, ref), at);
        InsertedFacts(a.stack, r, i);
        FlagsSound(a, r, true, a.recs[r].parked, Inserted(a.stack, r, i), Shown(w, p, r, at, ref, ok).z);
      }
    }
  }

  lemma ParkSound(w: Wall, p: int, r: int, ok: bool)
    requires Sound(w)
    ensures Sound(Parked(w, p, r, ok))
  {
    if Current(w, p, r) {
      AttachSound(w, r, ok);
      var a := Attached(w, r, ok);
      if LayerOf(a, r) != 0 { FlagsSound(a, r, a.recs[r].visible, true, a.stack, Parked(w, p, r, ok).z); }
    }
  }

  lemma RaiseSound(w: Wall, p: int, r: int, ok: bool)
    requires Sound(w)
    ensures Sound(Raised(w, p, r, ok))
  {
    if Current(w, p, r) {
      AttachSound(w, r, ok);
      var a := Attached(w, r, ok);
      if LayerOf(a, r) != 0 {
        RemovedFacts(a.stack, r);
        var rest := if a.recs[r].visible then Removed(a.stack, r) else a.stack;
        InsertedFacts(rest, r, |rest|);
        assert Inserted(rest, r, |rest|) == rest + [r];
        FlagsSound(a, r, true, false, rest + [r], Raised(w, p, r, ok).z);
      }
    }
  }

  /** Taking a layer off an invisible record moves it into hands, once. */
  lemma TakeSound(w: Wall, r: int)
    requires Sound(w) && r in w.recs && !(Kept(w, r) && w.recs[r].visible)
    ensures Sound(Taken(w, r))
  {
    var t := Taken(w, r);
    var x := w.recs[r].layer;
    forall q ensures Kept(w, q) <==> Kept(t, q) {}
    forall y | y != 0 ensures OnRecord(t, y) <==> y != x && OnRecord(w, y) {
      if OnRecord(w, y) && y != x { var q :| q in w.recs && w.recs[q].layer == y; assert t.recs[q].layer == y; }
    }
    if x != 0 { assert OnRecord(w, x); }
  }

  lemma HideSound(w: Wall, p: int)
    requires Sound(w)
    ensures Sound(Hidden(w, p))
  {
    if p in w.reg {
      var r := w.reg[p];
      RemovedFacts(w.stack, r);
      if w.recs[r].visible {
        var a := Restacked(w.(recs := w.recs[r := w.recs[r].(visible := false)], stack := Removed(w.stack, r)));
        FlagsSound(w, r, false, w.recs[r].parked, Removed(w.stack, r), a.z);
        TakeSound(a, r);
      } else {
        TakeSound(w, r);
      }
    }
  }

  /** A drop: the same account as hiding it, then forgetting the empty record. */
  lemma DropSound(w: Wall, p: int)
    requires Sound(w)
    ensures Sound(Dropped(w, p))
  {
    if p in w.reg {
      var r := w.reg[p];
      HideSound(w, p);
      var h := Hidden(w, p);
      ForgetSound(h, p, w.recs[r].visible, Dropped(w, p).z);
      var t := Dropped(w, p);
      var f := h.(reg := h.reg - {p}, recs := h.recs[r := h.recs[r].(visible := w.recs[r].visible)], z := t.z);
      assert t.recs == f.recs;
      assert t == f;
    }
  }

  lemma ForgetSound(w: Wall, p: int, visible: bool, z: map<int, int>)
    requires Sound(w) && p in w.reg && w.recs[w.reg[p]].layer == 0
    ensures var r := w.reg[p]; Sound(w.(reg := w.reg - {p}, recs := w.recs[r := w.recs[r].(visible := visible)], z := z))
  {
    var r := w.reg[p];
    var t := w.(reg := w.reg - {p}, recs := w.recs[r := w.recs[r].(visible := visible)], z := z);
    SameLayers(w, t);
    assert !w.recs[r].visible by { assert Kept(w, r); }
    forall q ensures Kept(t, q) <==> q != r && Kept(w, q) {}
  }

  lemma FreeSound(w: Wall, x: int)
    requires Sound(w) && x in w.hands
    ensures Sound(Freed(w, x))
  {
    var t := Freed(w, x);
    forall y ensures OnRecord(w, y) <==> OnRecord(t, y) {}
    assert (w.hands - multiset{x}) + multiset{x} == w.hands;
  }

  // ----------------------------------------------------------- mixer order

  ghost predicate Stacked(recs: map<int, Rec>, stack: seq<int>) {
    && Distinct(stack)
    && (forall i :: 0 <= i < |stack| ==> stack[i] in recs && recs[stack[i]].layer != 0)
    && forall i, j :: 0 <= i < j < |stack| ==> recs[stack[i]].layer != recs[stack[j]].layer
  }

  lemma SoundStacked(w: Wall)
    requires Sound(w)
    ensures Stacked(w.recs, w.stack)
  {
    forall i | 0 <= i < |w.stack| ensures Kept(w, w.stack[i]) && w.recs[w.stack[i]].layer != 0 {
      assert w.stack[i] in w.stack;
    }
  }

  lemma {:induction false} RestackAt(z: map<int, int>, recs: map<int, Rec>, stack: seq<int>, i: nat)
    requires Stacked(recs, stack) && i < |stack|
    ensures recs[stack[i]].layer in Restack(z, recs, stack) && Restack(z, recs, stack)[recs[stack[i]].layer] == i + 1
  {
    if i < |stack| - 1 {
      var below := stack[..|stack| - 1];
      assert Stacked(recs, below) by { assert forall k :: 0 <= k < |below| ==> below[k] == stack[k]; }
      RestackAt(z, recs, below, i);
    }
  }

  /** After a restack the visible layers are 1 .. n, whatever they were before. */
  lemma RestackedInOrder(w: Wall)
    requires Stacked(w.recs, w.stack)
    ensures InOrder(Restacked(w))
  {
    forall i | 0 <= i < |w.stack| ensures LayerOf(w, w.stack[i]) in Restacked(w).z && Restacked(w).z[LayerOf(w, w.stack[i])] == i + 1 {
      RestackAt(w.z, w.recs, w.stack, i);
    }
  }

  lemma ShowInOrder(w: Wall, p: int, r: int, at: At, ref: int, ok: bool)
    requires Sound(w) && Current(w, p, r) && LayerOf(Attached(w, r, ok), r) != 0
    ensures InOrder(Shown(w, p, r, at, ref, ok))
  {
    ShowSound(w, p, r, at, ref, ok);
    var t := Shown(w, p, r, at, ref, ok);
    SoundStacked(t);
    var a := Attached(w, r, ok);
    var b := if a.recs[r].visible then a
      else a.(recs := a.recs[r := a.recs[r].(visible := true)], stack := Inserted(a.stack, r, StackIndex(a.stack, RefOf(a, ref), at)));
    RestackedInOrder(b);
  }

  lemma TakeInOrderIff(w: Wall, r: int)
    requires r in w.recs && r !in w.stack
    ensures InOrder(Taken(w, r)) <==> InOrder(w)
  {
    forall i | 0 <= i < |w.stack| ensures LayerOf(Taken(w, r), w.stack[i]) == LayerOf(w, w.stack[i]) {
      assert w.stack[i] in w.stack;
    }
  }

  lemma RestStacked(recs: map<int, Rec>, stack: seq<int>, r: int)
    requires Stacked(recs, stack)
    ensures Stacked(recs, Removed(stack, r))
  {
    RemovedFacts(stack, r);
    var i := IndexIn(stack, r);
    if i >= 0 {
      var t := Removed(stack, r);
      forall k | 0 <= k < |t| ensures t[k] == stack[if k < i then k else k + 1] {}
    }
  }

  /** The pipeline's layer is on the wall, so taking it off restacks the others. */
  predicate OnWall(w: Wall, p: int) {
    p in w.reg && w.reg[p] in w.recs && w.recs[w.reg[p]].visible
  }

  /** Hiding a layer that is on the wall puts the others at 1 .. n, whatever they were
      before; hiding any other leaves an order that was broken broken. */
  lemma HideInOrderIff(w: Wall, p: int)
    requires Sound(w)
    ensures InOrder(Hidden(w, p)) <==> InOrder(w) || OnWall(w, p)
  {
    if p in w.reg {
      var r := w.reg[p];
      SoundStacked(w);
      RemovedFacts(w.stack, r);
      if w.recs[r].visible {
        var a := w.(recs := w.recs[r := w.recs[r].(visible := false)], stack := Removed(w.stack, r));
        RestStacked(w.recs, w.stack, r);
        RelabelStacked(w.recs, a.recs, a.stack);
        RestackedInOrder(a);
        TakeInOrderIff(Restacked(a), r);
      } else {
        TakeInOrderIff(w, r);
      }
    }
  }

  lemma RelabelStacked(recs: map<int, Rec>, other: map<int, Rec>, stack: seq<int>)
    requires Stacked(recs, stack) && recs.Keys == other.Keys && forall q :: q in recs ==> other[q].layer == recs[q].layer
    ensures Stacked(other, stack)
  {
    forall i | 0 <= i < |stack| ensures stack[i] in other && other[stack[i]].layer == recs[stack[i]].layer {
      var q := stack[i];
      assert q in recs;
    }
  }

  lemma DropInOrderIff(w: Wall, p: int)
    requires Sound(w)
    ensures InOrder(Dropped(w, p)) <==> InOrder(w) || OnWall(w, p)
  {
    if p in w.reg {
      var r := w.reg[p];
      SoundStacked(w);
      RemovedFacts(w.stack, r);
      if w.recs[r].visible {
        var a := w.(reg := w.reg - {p}, stack := Removed(w.stack, r));
        RestStacked(w.recs, w.stack, r);
        RestackedInOrder(a);
        TakeInOrderIff(Restacked(a), r);
      } else {
        TakeInOrderIff(w.(reg := w.reg - {p}), r);
      }
    }
  }

  /** Raising restacks nothing: the order stays 1 .. n exactly when the layer was
      not on the wall yet, or was on top already; otherwise two layers tie. */
  lemma RaiseInOrderIff(w: Wall, p: int, r: int, ok: bool)
    requires Sound(w) && InOrder(w) && Current(w, p, r) && LayerOf(Attached(w, r, ok), r) != 0
    ensures InOrder(Raised(w, p, r, ok)) <==> !w.recs[r].visible || w.stack[|w.stack| - 1..] == [r]
  {
    var t := Raised(w, p, r, ok);
    AttachSound(w, r, ok);
    RaiseSound(w, p, r, ok);
    SoundStacked(t);
    var n := |w.stack|;
    if w.recs[r].visible {
      assert r in w.stack;
      var i := IndexIn(w.stack, r);
      RemovedFacts(w.stack, r);
      RaiseOld(w, p, r, ok, i);
    } else {
      RaiseNew(w, p, r, ok);
    }
  }

  lemma RaiseNew(w: Wall, p: int, r: int, ok: bool)
    requires Sound(w) && InOrder(w) && Current(w, p, r) && LayerOf(Attached(w, r, ok), r) != 0 && !w.recs[r].visible
    ensures InOrder(Raised(w, p, r, ok))
  {
    var t := Raised(w, p, r, ok);
    RaiseSound(w, p, r, ok);
    SoundStacked(t);
    forall i | 0 <= i < |t.stack| ensures var x := LayerOf(t, t.stack[i]); x in t.z && t.z[x] == i + 1 {
      if i < |w.stack| {
        assert t.stack[i] == w.stack[i] && w.stack[i] in w.stack && w.stack[i] != r;
        assert LayerOf(t, t.stack[i]) == LayerOf(w, w.stack[i]);
        assert LayerOf(t, t.stack[i]) != LayerOf(t, t.stack[|w.stack|]);
      }
    }
  }

  lemma RaiseTop(w: Wall, p: int, r: int, ok: bool)
    requires Sound(w) && InOrder(w) && Current(w, p, r) && w.recs[r].visible && w.recs[r].layer != 0
    requires |w.stack| > 0 && w.stack[|w.stack| - 1] == r && IndexIn(w.stack, r) == |w.stack| - 1
    ensures InOrder(Raised(w, p, r, ok))
  {
    var t := Raised(w, p, r, ok);
    RaisedTop(w, p, r, ok);
    var n := |w.stack|;
    assert LayerOf(w, w.stack[n - 1]) == w.recs[r].layer && w.z[w.recs[r].layer] == n;
    assert t.z == w.z;
  }

  lemma RaisedTop(w: Wall, p: int, r: int, ok: bool)
    requires Current(w, p, r) && w.recs[r].visible && w.recs[r].layer != 0
    requires |w.stack| > 0 && w.stack[|w.stack| - 1] == r && IndexIn(w.stack, r) == |w.stack| - 1
    ensures var t := Raised(w, p, r, ok);
      && t.stack == w.stack && t.z == w.z[w.recs[r].layer := |w.stack|]
      && forall q :: LayerOf(t, q) == LayerOf(w, q)
  {
    assert Removed(w.stack, r) + [r] == w.stack;
  }

  lemma StackLayersApart(w: Wall, i: nat, j: nat)
    requires Sound(w) && i < j < |w.stack|
    ensures LayerOf(w, w.stack[i]) != LayerOf(w, w.stack[j]) && w.stack[i] != w.stack[j]
  {
    SoundStacked(w);
  }

  lemma OutOfOrder(w: Wall, k: nat, n: int)
    requires k < |w.stack| && LayerOf(w, w.stack[k]) in w.z && w.z[LayerOf(w, w.stack[k])] == n && n != k + 1
    ensures !InOrder(w)
  {
  }

  lemma RaisedOther(w: Wall, p: int, r: int, ok: bool, q: int, i: nat)
    requires Current(w, p, r) && w.recs[r].visible && w.recs[r].layer != 0 && IndexIn(w.stack, r) == i
    requires q != r && LayerOf(w, q) != w.recs[r].layer && LayerOf(w, q) in w.z
    ensures var t := Raised(w, p, r, ok);
      && LayerOf(t, q) == LayerOf(w, q) && LayerOf(t, q) in t.z && t.z[LayerOf(t, q)] == w.z[LayerOf(w, q)]
      && t.stack == w.stack[..i] + w.stack[i + 1..] + [r]
  {
  }

  /** The old top keeps its place in the mixer, and ties with the raised layer. */
  lemma RaiseTies(w: Wall, p: int, r: int, ok: bool, i: nat)
    requires Sound(w) && InOrder(w) && Current(w, p, r) && w.recs[r].visible && w.recs[r].layer != 0
    requires i < |w.stack| - 1 && w.stack[i] == r && IndexIn(w.stack, r) == i
    ensures !InOrder(Raised(w, p, r, ok))
  {
    var n := |w.stack|;
    StackLayersApart(w, i, n - 1);
    RaisedOther(w, p, r, ok, w.stack[n - 1], i);
    OutOfOrder(Raised(w, p, r, ok), n - 2, n);
  }

  lemma RaiseOld(w: Wall, p: int, r: int, ok: bool, i: nat)
    requires Sound(w) && InOrder(w) && Current(w, p, r) && w.recs[r].visible && w.recs[r].layer != 0
    requires i < |w.stack| && w.stack[i] == r && IndexIn(w.stack, r) == i
    ensures InOrder(Raised(w, p, r, ok)) <==> i == |w.stack| - 1
  {
    if i == |w.stack| - 1 { RaiseTop(w, p, r, ok); } else { RaiseTies(w, p, r, ok, i); }
  }

  /** Parking breaks the order only of a layer that is on the wall. */
  lemma ParkInOrderIff(w: Wall, p: int, r: int, ok: bool)
    requires Sound(w) && InOrder(w) && Current(w, p, r) && LayerOf(Attached(w, r, ok), r) != 0
    ensures InOrder(Parked(w, p, r, ok)) <==> r !in w.stack || IndexIn(w.stack, r) == PARKED_Z - 1
  {
    var t := Parked(w, p, r, ok);
    ParkSound(w, p, r, ok);
    SoundStacked(t);
    SoundStacked(w);
    forall i | 0 <= i < |w.stack| && w.stack[i] != r
      ensures var x := LayerOf(t, t.stack[i]); x in t.z && t.z[x] == i + 1
    {
      assert w.stack[i] in w.stack;
      assert LayerOf(t, t.stack[i]) == LayerOf(w, w.stack[i]);
      assert Kept(w, w.stack[i]);
      assert LayerOf(w, w.stack[i]) != LayerOf(t, r);
    }
    if r in w.stack {
      var i := IndexIn(w.stack, r);
      assert t.z[LayerOf(t, t.stack[i])] == PARKED_Z;
    }
  }

  // -------------------------------------------------------------- placement

  lemma RemoveInserted(stack: seq<int>, r: int, i: nat)
    requires r !in stack && i <= |stack|
    ensures IndexIn(Inserted(stack, r, i), r) == i && Removed(Inserted(stack, r, i), r) == stack
  {
    var t := Inserted(stack, r, i);
    forall k | 0 <= k < i ensures t[k] != r { assert t[k] == stack[k] && stack[k] in stack; }
    assert t[i] == r;
    assert IndexIn(t, r) == i;
    assert t[..i] == stack[..i] && t[i + 1..] == stack[i..];
    assert stack[..i] + stack[i..] == stack;
  }

  /** A layer that was not on the wall comes in where it was asked to: at the bottom,
      directly beneath the layer named, or on top; no other layer changes place. */
  lemma ShownWhereAsked(w: Wall, p: int, r: int, at: At, ref: int, ok: bool)
    requires Sound(w) && Current(w, p, r) && LayerOf(Attached(w, r, ok), r) != 0 && !w.recs[r].visible
    ensures var t := Shown(w, p, r, at, ref, ok); var i := IndexIn(t.stack, r);
      && i >= 0 && Removed(t.stack, r) == w.stack
      && (at.Bottom? ==> i == 0)
      && (at.Top? ==> i == |t.stack| - 1)
      && (at.Under? && ref in w.reg && w.reg[ref] in w.stack ==> i + 1 < |t.stack| && t.stack[i + 1] == w.reg[ref])
      && (at.Under? && !(ref in w.reg && w.reg[ref] in w.stack) ==> i == |t.stack| - 1)
  {
    assert r !in w.stack by { assert Kept(w, r); }
    var i := StackIndex(w.stack, RefOf(w, ref), at);
    AskedPlace(w.stack, r, RefOf(w, ref), at);
    assert Shown(w, p, r, at, ref, ok).stack == Inserted(w.stack, r, i);
    assert ref in w.reg ==> w.reg[ref] != 0;
  }

  lemma AskedPlace(stack: seq<int>, r: int, ref: int, at: At)
    requires r !in stack
    ensures var i := StackIndex(stack, ref, at); var t := Inserted(stack, r, i);
      && IndexIn(t, r) == i && Removed(t, r) == stack
      && (at.Bottom? ==> i == 0) && (at.Top? ==> i == |t| - 1)
      && (at.Under? && ref != 0 && ref in stack ==> i + 1 < |t| && t[i + 1] == ref)
      && (at.Under? && !(ref != 0 && ref in stack) ==> i == |t| - 1)
  {
    RemoveInserted(stack, r, StackIndex(stack, ref, at));
  }

  // ------------------------------------------------------------- every run

  datatype Step =
    | Register(p: int, r: int)
    | Show(p: int, r: int, at: At, ref: int, ok: bool)
    | Park(p: int, r: int, ok: bool)
    | Raise(p: int, r: int, ok: bool)
    | Hide(p: int)
    | Drop(p: int)
    | Free(x: int)

  /** A new record is a new object; a taker frees what is in its hands. */
  predicate Enabled(w: Wall, st: Step) {
    match st
    case Register(_, r) => r != 0 && r !in w.recs
    case Free(x) => x in w.hands
    case _ => true
  }

  function Next(w: Wall, st: Step): Wall {
    match st
    case Register(p, r) => Registered(w, p, r)
    case Show(p, r, at, ref, ok) => Shown(w, p, r, at, ref, ok)
    case Park(p, r, ok) => Parked(w, p, r, ok)
    case Raise(p, r, ok) => Raised(w, p, r, ok)
    case Hide(p) => Hidden(w, p)
    case Drop(p) => Dropped(w, p)
    case Free(x) => Freed(w, x)
  }

  lemma StepSound(w: Wall, st: Step)
    requires Sound(w) && Enabled(w, st)
    ensures Sound(Next(w, st))
  {
    match st
    case Register(p, r) => RegisterSound(w, p, r);
    case Show(p, r, at, ref, ok) => ShowSound(w, p, r, at, ref, ok);
    case Park(p, r, ok) => ParkSound(w, p, r, ok);
    case Raise(p, r, ok) => RaiseSound(w, p, r, ok);
    case Hide(p) => HideSound(w, p);
    case Drop(p) => DropSound(w, p);
    case Free(x) => FreeSound(w, x);
  }

  ghost function Run(steps: seq<Step>): Wall {
    if |steps| == 0 then EMPTY
    else var w := Run(steps[..|steps| - 1]);
      if Enabled(w, steps[|steps| - 1]) then Next(w, steps[|steps| - 1]) else w
  }

  lemma {:induction false} RunSound(steps: seq<Step>)
    ensures Sound(Run(steps))
  {
    if |steps| > 0 {
      RunSound(steps[..|steps| - 1]);
      var w := Run(steps[..|steps| - 1]);
      if Enabled(w, steps[|steps| - 1]) { StepSound(w, steps[|steps| - 1]); }
    }
  }

  /** In every interleaving, a layer made for a pipeline that is not registered any
      more is in one taker's hands or has been freed, once and only once. */
  lemma FreedExactlyOnce(steps: seq<Step>, x: int)
    requires var w := Run(steps); 1 <= x <= w.minted && x in w.owner && w.owner[x] !in w.reg
    ensures var w := Run(steps); w.hands[x] + w.freed[x] == 1
    ensures var w := Run(steps); w.hands == multiset{} ==> w.freed[x] == 1
  {
    RunSound(steps);
    var w := Run(steps);
    forall r | r in w.recs ensures w.recs[r].layer != x {
      assert w.recs[r].layer == x ==> Kept(w, r);
    }
  }

  /** A layer an operation finds on a record is nobody else's: not taken, not freed. */
  lemma UsedLayerIsLive(steps: seq<Step>, r: int)
    requires r in Run(steps).recs && Run(steps).recs[r].layer != 0
    ensures var w := Run(steps); w.hands[w.recs[r].layer] == 0 && w.freed[w.recs[r].layer] == 0 && Kept(w, r)
  {
    RunSound(steps);
    var w := Run(steps);
    assert OnRecord(w, w.recs[r].layer);
  }

  /** The visible stack holds exactly the registered visible records, each once. */
  lemma StackIsTheVisible(steps: seq<Step>, p: int)
    requires p in Run(steps).reg
    ensures var w := Run(steps); Distinct(w.stack) && w.reg[p] in w.recs && (w.reg[p] in w.stack <==> w.recs[w.reg[p]].visible)
  {
    RunSound(steps);
    StackIn(Run(steps), p);
  }

  lemma StackIn(w: Wall, p: int)
    requires Sound(w) && p in w.reg
    ensures Distinct(w.stack) && w.reg[p] in w.recs && (w.reg[p] in w.stack <==> w.recs[w.reg[p]].visible)
  {
    assert Kept(w, w.reg[p]);
  }

  /** A dropped record never comes back: no step re-registers or re-attaches it. */
  lemma StepForgets(w: Wall, st: Step, r: int)
    requires Sound(w) && Enabled(w, st) && r in w.recs && !Kept(w, r)
    ensures r in Next(w, st).recs && !Kept(Next(w, st), r) && Next(w, st).recs[r].layer == 0
  {
    StepSound(w, st);
    if st.Hide? || st.Drop? { OffForgets(w, st, r); } else { OnForgets(w, st, r); }
    var t := Next(w, st);
    assert t.recs[r].layer != 0 ==> Kept(t, r);
  }

  lemma OffForgets(w: Wall, st: Step, r: int)
    requires Sound(w) && r in w.recs && !Kept(w, r) && (st.Hide? || st.Drop?)
    ensures r in Next(w, st).recs && !Kept(Next(w, st), r)
  {
    assert st.p in w.reg ==> w.reg[st.p] != r;
  }

  lemma OnForgets(w: Wall, st: Step, r: int)
    requires Sound(w) && Enabled(w, st) && r in w.recs && !Kept(w, r) && !st.Hide? && !st.Drop?
    ensures r in Next(w, st).recs && !Kept(Next(w, st), r)
  {
  }

  // --------------------------------------------------- the order over a run

  /** p's record is r and has, or gets, a layer: the operation does something. */
  predicate Acts(w: Wall, p: int, r: int, ok: bool) {
    Current(w, p, r) && LayerOf(Attached(w, r, ok), r) != 0
  }

  /** A raise of a layer that is on the wall below the top, or a park of one that is on
      the wall, is the one way to break the order. */
  predicate Tidy(w: Wall, st: Step) {
    match st
    case Raise(p, r, ok) => Acts(w, p, r, ok) && w.recs[r].visible ==> |w.stack| > 0 && w.stack[|w.stack| - 1] == r
    case Park(p, r, ok) => Acts(w, p, r, ok) ==> r !in w.stack || IndexIn(w.stack, r) == PARKED_Z - 1
    case _ => true
  }

  lemma RegisterInOrder(w: Wall, p: int, r: int)
    requires Sound(w) && r !in w.recs
    ensures InOrder(Registered(w, p, r)) <==> InOrder(w)
  {
    var t := Registered(w, p, r);
    SoundStacked(w);
    forall i | 0 <= i < |w.stack| ensures LayerOf(t, w.stack[i]) == LayerOf(w, w.stack[i]) {}
  }

  lemma StepInOrderIff(w: Wall, st: Step)
    requires Sound(w) && InOrder(w) && Enabled(w, st)
    ensures InOrder(Next(w, st)) <==> Tidy(w, st)
  {
    match st
    case Register(p, r) => RegisterInOrder(w, p, r);
    case Show(p, r, at, ref, ok) => if Acts(w, p, r, ok) { ShowInOrder(w, p, r, at, ref, ok); }
    case Park(p, r, ok) => if Acts(w, p, r, ok) { ParkInOrderIff(w, p, r, ok); }
    case Raise(p, r, ok) => if Acts(w, p, r, ok) { RaiseInOrderIff(w, p, r, ok); StackIn(w, p); }
    case Hide(p) => HideInOrderIff(w, p);
    case Drop(p) => DropInOrderIff(w, p);
    case Free(x) => assert forall i :: 0 <= i < |w.stack| ==> LayerOf(Freed(w, x), w.stack[i]) == LayerOf(w, w.stack[i]);
  }

  ghost predicate InOrderAt(steps: seq<Step>, k: nat)
    requires k <= |steps|
  {
    InOrder(Run(steps[..k]))
  }

  ghost predicate TidyAt(steps: seq<Step>, k: nat)
    requires k < |steps|
  {
    var w := Run(steps[..k]);
    Enabled(w, steps[k]) ==> Tidy(w, steps[k])
  }

  lemma InOrderSnoc(steps: seq<Step>, k: nat)
    requires k < |steps| && InOrderAt(steps, k)
    ensures InOrderAt(steps, k + 1) <==> TidyAt(steps, k)
  {
    var w := Run(steps[..k]);
    RunSound(steps[..k]);
    assert steps[..k + 1][..k] == steps[..k];
    if Enabled(w, steps[k]) { StepInOrderIff(w, steps[k]); }
  }

  lemma {:induction false} TidyInOrder(steps: seq<Step>, n: nat)
    requires n <= |steps| && forall k :: 0 <= k < n ==> TidyAt(steps, k)
    ensures InOrderAt(steps, n)
  {
    if n == 0 {
      assert steps[..0] == [];
    } else {
      TidyInOrder(steps, n - 1);
      InOrderSnoc(steps, n - 1);
    }
  }

  /** The visible layers are at 1 .. n after every step of a run exactly when no step
      raises a layer from below the top or parks one that is on the wall. */
  lemma AlwaysInOrderIff(steps: seq<Step>)
    ensures (forall k :: 0 <= k <= |steps| ==> InOrderAt(steps, k)) <==> (forall k :: 0 <= k < |steps| ==> TidyAt(steps, k))
  {
    if forall k :: 0 <= k <= |steps| ==> InOrderAt(steps, k) {
      forall k | 0 <= k < |steps| ensures TidyAt(steps, k) { InOrderSnoc(steps, k); }
    }
    if forall k :: 0 <= k < |steps| ==> TidyAt(steps, k) {
      forall k | 0 <= k <= |steps| ensures InOrderAt(steps, k) { TidyInOrder(steps, k); }
    }
  }

  /** Two cues registered; the first shown; the second shown over it. */
  function Two(): Wall {
    Registered(Registered(EMPTY, 1, 1), 2, 2)
  }

  function OneShown(): Wall {
    Shown(Two(), 1, 1, Top, 0, true)
  }

  function TwoShown(): Wall {
    Shown(OneShown(), 2, 2, Top, 0, true)
  }

  /** A first show on top: a new layer, above all the others. */
  lemma ShownNew(w: Wall, p: int, r: int)
    requires Current(w, p, r) && w.recs[r].layer == 0 && !w.recs[r].visible
    ensures var x := w.minted + 1; var t := Shown(w, p, r, Top, 0, true);
      && t.recs == w.recs[r := w.recs[r].(layer := x, attached := x, visible := true)]
      && t.stack == w.stack + [r] && t.reg == w.reg
  {
    assert Inserted(w.stack, r, |w.stack|) == w.stack + [r];
    var t := Shown(w, p, r, Top, 0, true);
    assert t.recs == w.recs[r := w.recs[r].(layer := w.minted + 1, attached := w.minted + 1, visible := true)];
  }

  lemma TwoSound()
    ensures Sound(Two()) && Two().stack == [] && Two().reg == map[1 := 1, 2 := 2] && Two().minted == 0
    ensures Two().recs == map[1 := Rec(1, 0, false, false, 0), 2 := Rec(2, 0, false, false, 0)]
  {
    RegisterSound(EMPTY, 1, 1);
    RegisterSound(Registered(EMPTY, 1, 1), 2, 2);
  }

  lemma ShownFresh(w: Wall, p: int, r: int)
    requires Sound(w) && Current(w, p, r) && w.recs[r].layer == 0 && !w.recs[r].visible
    ensures var t := Shown(w, p, r, Top, 0, true); Sound(t) && InOrder(t)
  {
    ShowSound(w, p, r, Top, 0, true);
    ShowInOrder(w, p, r, Top, 0, true);
  }

  lemma OneShownSound()
    ensures Sound(OneShown())
  {
    TwoSound();
    ShownFresh(Two(), 1, 1);
  }

  lemma OneShownIs()
    ensures OneShown().stack == [1] && OneShown().reg == map[1 := 1, 2 := 2]
    ensures OneShown().recs.Keys == {1, 2}
    ensures OneShown().recs[1] == Rec(1, 1, true, false, 1) && OneShown().recs[2] == Rec(2, 0, false, false, 0)
  {
    TwoSound();
    FirstOfTwo(Two());
  }

  lemma FirstOfTwo(w: Wall)
    requires w.stack == [] && w.reg == map[1 := 1, 2 := 2] && w.minted == 0
    requires w.recs == map[1 := Rec(1, 0, false, false, 0), 2 := Rec(2, 0, false, false, 0)]
    ensures var t := Shown(w, 1, 1, Top, 0, true);
      && t.stack == [1] && t.reg == w.reg && t.recs.Keys == {1, 2}
      && t.recs[1] == Rec(1, 1, true, false, 1) && t.recs[2] == w.recs[2]
  {
    ShownNew(w, 1, 1);
  }

  lemma TwoShownSound()
    ensures Sound(TwoShown()) && InOrder(TwoShown())
  {
    OneShownSound();
    OneShownIs();
    ShownFresh(OneShown(), 2, 2);
  }

  lemma TwoShownIs()
    ensures TwoShown().stack == [1, 2] && TwoShown().reg == map[1 := 1, 2 := 2]
    ensures TwoShown().recs.Keys == {1, 2} && TwoShown().recs[1] == Rec(1, 1, true, false, 1)
  {
    OneShownIs();
    ShownNew(OneShown(), 2, 2);
  }

  lemma RaiseBreaks(w: Wall, p: int, r: int)
    requires Sound(w) && InOrder(w) && Current(w, p, r) && w.recs[r].visible && w.recs[r].layer != 0
    requires |w.stack| > 0 && w.stack[|w.stack| - 1] != r
    ensures var t := Raised(w, p, r, true); Sound(t) && !InOrder(t) && t.reg == w.reg && t.recs.Keys == w.recs.Keys
  {
    RaiseSound(w, p, r, true);
    RaiseInOrderIff(w, p, r, true);
    assert w.stack[|w.stack| - 1..][0] != r;
  }

  /** An order that is broken stays broken when a new cue is registered and hidden. */
  lemma TieSurvives(w: Wall, p: int, r: int)
    requires Sound(w) && !InOrder(w) && p !in w.reg && r != 0 && r !in w.recs
    ensures !InOrder(Hidden(Registered(w, p, r), p))
  {
    RegisterSound(w, p, r);
    RegisterInOrder(w, p, r);
    HideInOrderIff(Registered(w, p, r), p);
  }

  ghost predicate TwoOnWall(w: Wall) {
    && Sound(w) && InOrder(w) && w.stack == [1, 2] && w.reg == map[1 := 1, 2 := 2]
    && w.recs.Keys == {1, 2} && w.recs[1] == Rec(1, 1, true, false, 1)
  }

  lemma TwoCanBeShown()
    ensures TwoOnWall(TwoShown())
  {
    TwoShownSound();
    TwoShownIs();
  }

  lemma LowerRaised(w: Wall)
    requires TwoOnWall(w)
    ensures var t := Raised(w, 1, 1, true); Sound(t) && !InOrder(t) && t.reg == w.reg && t.recs.Keys == w.recs.Keys
  {
    RaiseBreaks(w, 1, 1);
  }

  /** With two cues on the wall, the lower one raised, and a third registered and hidden,
      the hide restacks nothing, and the order is not 1 .. n. */
  lemma HideLeavesTie(w: Wall)
    requires TwoOnWall(w)
    ensures !InOrder(Hidden(Registered(Raised(w, 1, 1, true), 3, 3), 3))
  {
    LowerRaised(w);
    TieSurvives(Raised(w, 1, 1, true), 3, 3);
  }
}
