/** The GPU wall as an object (gsp/gllayer.go, gsp/wall.go): each method is one
    section under glMu, proved to be the function of module GlWall whose laws hold
    in every interleaving. */
module GlLayers {
  import opened GlWall

  /** insertLayer: the stack grows by one and everything from i on shifts up. */
  method InsertLayer(st: array<int>, n: nat, l: int, i: nat)
    requires i <= n < st.Length
    modifies st
    ensures st[..n + 1] == Inserted(old(st[..n]), l, i)
    ensures st[n + 1..] == old(st[n + 1..])
  {
    var k := n;
    while k > i
      invariant i <= k <= n
      invariant forall m :: 0 <= m < k ==> st[m] == old(st[m])
      invariant forall m :: k < m <= n ==> st[m] == old(st[m - 1])
      invariant st[n + 1..] == old(st[n + 1..])
    {
      st[k] := st[k - 1];
      k := k - 1;
    }
    st[i] := l;
    ShiftedIs(old(st[..n]), st[..n + 1], l, i);
  }

  lemma ShiftedIs(was: seq<int>, now: seq<int>, l: int, i: nat)
    requires i <= |was| && |now| == |was| + 1 && now[i] == l
    requires forall m :: 0 <= m < i ==> now[m] == was[m]
    requires forall m :: i < m <= |was| ==> now[m] == was[m - 1]
    ensures now == Inserted(was, l, i)
  {
  }

  class Layers {
    var reg: map<int, int>
    var recs: map<int, Rec>
    var stack: seq<int>
    var z: map<int, int>
    var minted: nat
    var owner: map<int, int>
    ghost var hands: multiset<int>
    ghost var freed: multiset<int>

    ghost function Now(): Wall
      reads this
    {
      Wall(reg, recs, stack, z, minted, owner, hands, freed)
    }

    constructor ()
      ensures Now() == EMPTY
    {
      reg, recs, stack, z := map[], map[], [], map[];
      minted, owner := 0, map[];
      hands, freed := multiset{}, multiset{};
    }

    /** glRegister. */
    method Register(p: int, r: int)
      modifies this
      ensures Now() == Registered(old(Now()), p, r)
    {
      if p in reg { return; }
      reg, recs := reg[p := r], recs[r := Rec(p, 0, false, false, 0)];
    }

    method Attach(r: int, ok: bool) returns (attached: bool)
      requires r in recs
      modifies this
      ensures Now() == Attached(old(Now()), r, ok)
      ensures attached <==> LayerOf(Now(), r) != 0
    {
      if recs[r].layer != 0 { return true; }
      if !ok { return false; }
      minted := minted + 1;
      owner := owner[minted := recs[r].p];
      recs := recs[r := recs[r].(layer := minted, attached := minted)];
      return true;
    }

    method RestackAll()
      modifies this`z
      ensures Now() == Restacked(old(Now()))
    {
      ghost var was := z;
      for i := 0 to |stack|
        invariant z == Restack(was, recs, stack[..i])
      {
        assert stack[..i + 1][..i] == stack[..i];
        if stack[i] in recs && recs[stack[i]].layer != 0 {
          z := z[recs[stack[i]].layer := i + 1];
        }
      }
      assert stack[..|stack|] == stack;
    }

    method Place(ref: int, at: At) returns (i: nat)
      ensures i == StackIndex(stack, ref, at)
    {
      if at.Bottom? { return 0; }
      if at.Under? && ref != 0 {
        for k := 0 to |stack|
          invariant forall m :: 0 <= m < k ==> stack[m] != ref
        {
          if stack[k] == ref { return k; }
        }
      }
      return |stack|;
    }

    method TakeOut(r: int)
      modifies this`stack
      ensures stack == Removed(old(stack), r)
    {
      for i := 0 to |stack|
        invariant stack == old(stack) && forall m :: 0 <= m < i ==> stack[m] != r
      {
        if stack[i] == r {
          stack := stack[..i] + stack[i + 1..];
          return;
        }
      }
    }

    /** glShow. */
    method Show(p: int, r: int, at: At, ref: int, ok: bool)
      modifies this
      ensures Now() == Shown(old(Now()), p, r, at, ref, ok)
    {
      if !(p in reg && reg[p] == r && r in recs) { return; }
      var attached := Attach(r, ok);
      if !attached { return; }
      if !recs[r].visible {
        recs := recs[r := recs[r].(visible := true)];
        var i := Place(if ref in reg then reg[ref] else 0, at);
        stack := stack[..i] + [r] + stack[i..];
      }
      RestackAll();
    }

    /** glPark. */
    method Park(p: int, r: int, ok: bool) returns (parked: bool)
      modifies this
      ensures Now() == Parked(old(Now()), p, r, ok)
      ensures parked ==> LayerOf(Now(), r) in z && z[LayerOf(Now(), r)] == PARKED_Z
    {
      if !(p in reg && reg[p] == r && r in recs) { return false; }
      var attached := Attach(r, ok);
      if !attached { return false; }
      recs := recs[r := recs[r].(parked := true)];
      z := z[recs[r].layer := PARKED_Z];
      return true;
    }

    /** glRaise. */
    method Raise(p: int, r: int, ok: bool)
      modifies this
      ensures Now() == Raised(old(Now()), p, r, ok)
    {
      if !(p in reg && reg[p] == r && r in recs) { return; }
      var attached := Attach(r, ok);
      if !attached { return; }
      if recs[r].visible { TakeOut(r); }
      recs := recs[r := recs[r].(visible := true, parked := false)];
      stack := stack + [r];
      z := z[recs[r].layer := |stack|];
    }

    /** glTakeLayerLocked. */
    method TakeLayer(r: int) returns (layer: int)
      requires r in recs
      modifies this`recs, this`hands
      ensures layer == old(recs)[r].layer && Now() == Taken(old(Now()), r)
    {
      layer := recs[r].layer;
      recs := recs[r := recs[r].(layer := 0)];
      if layer != 0 { hands := hands + multiset{layer}; }
    }

    /** glHide; the caller frees what it gets. */
    method Hide(p: int) returns (layer: int)
      modifies this
      ensures Now() == Hidden(old(Now()), p)
      ensures layer != 0 ==> hands == old(hands) + multiset{layer}
    {
      if p !in reg || reg[p] !in recs { return 0; }
      var r := reg[p];
      if recs[r].visible {
        recs := recs[r := recs[r].(visible := false)];
        TakeOut(r);
        RestackAll();
      }
      layer := TakeLayer(r);
    }

    /** glDrop. */
    method Drop(p: int) returns (layer: int)
      modifies this
      ensures Now() == Dropped(old(Now()), p)
      ensures layer != 0 ==> hands == old(hands) + multiset{layer}
    {
      if p !in reg || reg[p] !in recs { return 0; }
      var r := reg[p];
      reg := reg - {p};
      if recs[r].visible {
        TakeOut(r);
        RestackAll();
      }
      layer := TakeLayer(r);
    }
  }
}
