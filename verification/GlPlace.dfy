/** Where each operation of the wall leaves the layers (gsp/gllayer.go): which record it
    changes, its place in the visible stack, its order in the mixer, who must free what. */
module GlPlace {
  import opened Util
  import opened GlWall

  /** The record found is still p's, and the wall has a layer for it or gives it one. */
  predicate Works(w: Wall, p: int, r: int, ok: bool) {
    p in w.reg && w.reg[p] == r && r in w.recs && (w.recs[r].layer != 0 || ok)
  }

  ghost function Without(stack: seq<int>, r: int): seq<int> {
    if |stack| == 0 then []
    else
      var below := Without(stack[..|stack| - 1], r);
      if stack[|stack| - 1] == r then below else below + [stack[|stack| - 1]]
  }

  /** No record but r changed, and r is p's as before. */
  ghost predicate OthersKept(w: Wall, t: Wall, r: int)
    requires r in w.recs
  {
    && t.recs.Keys == w.recs.Keys && t.recs[r].p == w.recs[r].p
    && forall q :: q in w.recs && q != r ==> t.recs[q] == w.recs[q]
  }

  /** r has the layer it had, or one never given out before, made for its pipeline. */
  ghost predicate Layered(w: Wall, t: Wall, r: int)
    requires r in w.recs && r in t.recs
  {
    && t.reg == w.reg && t.hands == w.hands && t.freed == w.freed
    && if w.recs[r].layer != 0 then t.recs[r].layer == w.recs[r].layer && t.minted == w.minted && t.owner == w.owner
       else t.recs[r].layer == w.minted + 1 == t.minted && t.owner == w.owner[w.minted + 1 := w.recs[r].p]
  }

  lemma WithoutSnoc(stack: seq<int>, x: int, r: int)
    ensures Without(stack + [x], r) == if x == r then Without(stack, r) else Without(stack, r) + [x]
  {
    assert (stack + [x])[..|stack|] == stack;
  }

  /** Put on top, or below the rest. */
  lemma {:induction false} WithoutAbsent(below: seq<int>, stack: seq<int>, r: int)
    requires r !in stack
    ensures Without(below + stack, r) == Without(below, r) + stack
  {
    if |stack| == 0 {
      assert below + stack == below;
    } else {
      var init, last := stack[..|stack| - 1], stack[|stack| - 1];
      assert below + stack == (below + init) + [last];
      WithoutSnoc(below + init, last, r);
      WithoutAbsent(below, init, r);
      assert last in stack;
      assert stack == init + [last];
    }
  }

  lemma WithoutNone(stack: seq<int>, r: int)
    requires r !in stack
    ensures Without(stack, r) == stack
  {
    WithoutAbsent([], stack, r);
    assert [] + stack == stack;
  }

  lemma InsertedWithout(stack: seq<int>, r: int, i: nat)
    requires r !in stack && i <= |stack|
    ensures Without(Inserted(stack, r, i), r) == stack
  {
    assert forall q :: q in stack[..i] || q in stack[i..] ==> q in stack;
    WithoutAbsent(stack[..i] + [r], stack[i..], r);
    WithoutSnoc(stack[..i], r, r);
    WithoutNone(stack[..i], r);
    assert stack[..i] + stack[i..] == stack;
  }

  lemma CutInserted(stack: seq<int>, i: nat)
    requires i < |stack|
    ensures Inserted(stack[..i] + stack[i + 1..], stack[i], i) == stack
  {
    var rest := stack[..i] + stack[i + 1..];
    assert rest[..i] == stack[..i] && rest[i..] == stack[i + 1..];
  }

  lemma RemovedIs(stack: seq<int>, r: int)
    requires Distinct(stack)
    ensures Removed(stack, r) == Without(stack, r)
  {
    var i := IndexIn(stack, r);
    if i < 0 {
      WithoutNone(stack, r);
    } else {
      RemovedFacts(stack, r);
      CutInserted(stack, i);
      InsertedWithout(Removed(stack, r), r, i);
    }
  }

  lemma RaisedStack(stack: seq<int>, r: int)
    requires Distinct(stack)
    ensures Without(Removed(stack, r) + [r], r) == Without(stack, r)
  {
    RemovedFacts(stack, r);
    WithoutSnoc(Removed(stack, r), r, r);
    WithoutNone(Removed(stack, r), r);
    RemovedIs(stack, r);
  }

  /** A raise that acts puts the layer on top of all that are shown, with the mixer order
      of the top, and takes it out of parking; no other layer changes place or order. */
  lemma RaisedOnTop(w: Wall, p: int, r: int, ok: bool)
    requires Sound(w)
    ensures !Works(w, p, r, ok) ==> Raised(w, p, r, ok) == w
    ensures Works(w, p, r, ok) ==> (var t := Raised(w, p, r, ok);
      && OthersKept(w, t, r) && Layered(w, t, r) && t.recs[r].visible && !t.recs[r].parked
      && |t.stack| > 0 && t.stack[|t.stack| - 1] == r && Without(t.stack, r) == Without(w.stack, r)
      && t.z == w.z[t.recs[r].layer := |t.stack|])
  {
    if Works(w, p, r, ok) {
      StackIn(w, p);
      RaisedStack(w.stack, r);
      assert Raised(w, p, r, ok).stack == Removed(w.stack, r) + [r];
    }
  }

  lemma ShownNew(stack: seq<int>, r: int, i: nat)
    requires r !in stack && i <= |stack|
    ensures r in Inserted(stack, r, i) && Without(Inserted(stack, r, i), r) == Without(stack, r)
  {
    InsertedWithout(stack, r, i);
    WithoutNone(stack, r);
    assert Inserted(stack, r, i)[i] == r;
  }

  lemma ShownStack(w: Wall, p: int, r: int, at: At, ref: int, ok: bool)
    requires Sound(w) && Works(w, p, r, ok)
    ensures Shown(w, p, r, at, ref, ok).stack == if w.recs[r].visible then w.stack else Inserted(w.stack, r, StackIndex(w.stack, RefOf(w, ref), at))
  {
  }

  lemma ShownRecord(w: Wall, p: int, r: int, at: At, ref: int, ok: bool)
    requires Sound(w) && Works(w, p, r, ok)
    ensures var t := Shown(w, p, r, at, ref, ok);
      OthersKept(w, t, r) && Layered(w, t, r) && t.recs[r].visible && t.recs[r].parked == w.recs[r].parked
  {
  }

  /** A show that acts shows the layer; one already on the wall stays where it is, and no
      other changes place.  Where a new one comes in is ShownWhereAsked. */
  lemma ShownOnWall(w: Wall, p: int, r: int, at: At, ref: int, ok: bool)
    requires Sound(w)
    ensures !Works(w, p, r, ok) ==> Shown(w, p, r, at, ref, ok) == w
    ensures Works(w, p, r, ok) ==> (var t := Shown(w, p, r, at, ref, ok);
      && OthersKept(w, t, r) && Layered(w, t, r) && t.recs[r].visible && t.recs[r].parked == w.recs[r].parked
      && r in t.stack && Without(t.stack, r) == Without(w.stack, r)
      && (w.recs[r].visible ==> t.stack == w.stack))
  {
    if Works(w, p, r, ok) {
      StackIn(w, p);
      ShownStack(w, p, r, at, ref, ok);
      ShownRecord(w, p, r, at, ref, ok);
      if !w.recs[r].visible { ShownNew(w.stack, r, StackIndex(w.stack, RefOf(w, ref), at)); }
    }
  }

  /** A park that acts puts the layer above everything in the mixer without showing it. */
  lemma ParkedAbove(w: Wall, p: int, r: int, ok: bool)
    requires Sound(w)
    ensures !Works(w, p, r, ok) ==> Parked(w, p, r, ok) == w
    ensures Works(w, p, r, ok) ==> (var t := Parked(w, p, r, ok);
      && OthersKept(w, t, r) && Layered(w, t, r) && t.recs[r].parked && t.recs[r].visible == w.recs[r].visible
      && t.stack == w.stack && t.z == w.z[t.recs[r].layer := 1000])
  {
  }

  /** r has given its layer to the caller, if it had one; nothing new was made. */
  ghost predicate Surrendered(w: Wall, t: Wall, r: int)
    requires r in w.recs && r in t.recs
  {
    && t.recs[r].layer == 0 && t.minted == w.minted && t.owner == w.owner && t.freed == w.freed
    && t.hands == if w.recs[r].layer == 0 then w.hands else w.hands + multiset{w.recs[r].layer}
  }

  /** A hide takes the pipeline's layer off the wall, the others keeping their order, and
      hands it to the caller; the record stays registered. */
  lemma HiddenOff(w: Wall, p: int)
    requires Sound(w)
    ensures p !in w.reg ==> Hidden(w, p) == w
    ensures p in w.reg ==> (var r, t := w.reg[p], Hidden(w, p);
      && r in w.recs && OthersKept(w, t, r) && Surrendered(w, t, r) && t.reg == w.reg
      && !t.recs[r].visible && t.stack == Without(w.stack, r))
  {
    if p in w.reg {
      var r := w.reg[p];
      StackIn(w, p);
      RemovedIs(w.stack, r);
    }
  }

  /** A drop does the same and forgets the record. */
  lemma DroppedOff(w: Wall, p: int)
    requires Sound(w)
    ensures p !in w.reg ==> Dropped(w, p) == w
    ensures p in w.reg ==> (var r, t := w.reg[p], Dropped(w, p);
      && r in w.recs && OthersKept(w, t, r) && Surrendered(w, t, r) && t.reg == w.reg - {p}
      && t.stack == Without(w.stack, r))
  {
    if p in w.reg {
      var r := w.reg[p];
      StackIn(w, p);
      RemovedIs(w.stack, r);
    }
  }
}
