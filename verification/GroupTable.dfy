/** Edits of the group table (ctp/groups.go) and why the table stays a forest.

    ValidateGroupParent is the only guard: every write of a parent goes through
    it.  Given a forest, it accepts exactly the parents that keep one, within the
    depth limit; and every edit it admits, and both kinds of delete, leave a
    forest behind, so the climbs without a cap of their own always end. */
module GroupTable {
  import opened Forest

  datatype NestingError = OwnParent | Cycle | ParentMissing | TooDeep

  datatype Verdict = Accepted | Refused(why: NestingError)

  const MAX_LEVELS := 8

  /** The climb from a proposed parent: what has been seen, where it is, how many
      levels it has climbed. */
  function CheckFrom(g: Groups, seen: set<int>, at: int, depth: nat): Verdict
    requires depth <= MAX_LEVELS
    decreases MAX_LEVELS - depth
  {
    if at == 0 then Accepted
    else if at in seen then Refused(Cycle)
    else if at !in g then Refused(ParentMissing)
    else if depth == MAX_LEVELS then Refused(TooDeep)
    else CheckFrom(g, seen + {at}, g[at].parent, depth + 1)
  }

  function Validated(g: Groups, groupID: int, parentID: int): Verdict {
    if parentID == 0 then Accepted
    else if parentID == groupID then Refused(OwnParent)
    else CheckFrom(g, {groupID}, parentID, 0)
  }

  /** The verdict never looks at the moved group's own row. */
  lemma {:induction false} CheckSkips(g: Groups, h: Groups, id: int, seen: set<int>, at: int, depth: nat)
    requires depth <= MAX_LEVELS && id in seen && g.Keys == h.Keys
    requires forall k :: k in g && k != id ==> g[k].parent == h[k].parent
    ensures CheckFrom(g, seen, at, depth) == CheckFrom(h, seen, at, depth)
    decreases MAX_LEVELS - depth
  {
    if at != 0 && at !in seen && at in g && depth < MAX_LEVELS {
      CheckSkips(g, h, id, seen + {at}, g[at].parent, depth + 1);
    }
  }

  /** On a forest the check accepts exactly the existing groups outside the moved
      block that leave room below the limit. */
  lemma ValidatedIff(g: Groups, d: map<int, nat>, groupID: int, parentID: int)
    requires Depths(g, d) && parentID != 0
    ensures Validated(g, groupID, parentID) == Accepted
       <==> parentID in g && !Within(g, d, parentID, groupID) && d[parentID] < MAX_LEVELS
  {
    if parentID != groupID {
      CheckIff(g, d, groupID, {groupID}, parentID, 0);
    }
  }

  lemma {:induction false} CheckIff(g: Groups, d: map<int, nat>, id: int, seen: set<int>, at: int, depth: nat)
    requires Depths(g, d) && depth <= MAX_LEVELS && id in seen
    requires forall x :: x in seen && x != id ==> x in g && (at in g ==> d[at] < d[x])
    ensures CheckFrom(g, seen, at, depth) == Accepted
       <==> at == 0 || (at in g && !Within(g, d, at, id) && depth + d[at] < MAX_LEVELS)
    decreases MAX_LEVELS - depth
  {
    if at != 0 && at !in seen && at in g && depth < MAX_LEVELS {
      CheckIff(g, d, id, seen + {at}, g[at].parent, depth + 1);
    }
  }

  method ValidateGroupParent(groupID: int, parentID: int, g: Groups) returns (v: Verdict)
    ensures v == Validated(g, groupID, parentID)
  {
    if parentID == 0 {
      return Accepted;
    }
    if parentID == groupID {
      return Refused(OwnParent);
    }
    var depth: nat := 0;
    var seen := {groupID};
    var at := parentID;
    while at != 0
      invariant depth <= MAX_LEVELS
      invariant Validated(g, groupID, parentID) == CheckFrom(g, seen, at, depth)
      decreases MAX_LEVELS - depth
    {
      if at in seen {
        return Refused(Cycle);
      }
      seen := seen + {at};
      if at !in g {
        return Refused(ParentMissing);
      }
      at := g[at].parent;
      depth := depth + 1;
      if depth > MAX_LEVELS {
        return Refused(TooDeep);
      }
    }
    return Accepted;
  }

  // -------------------------------------------------------------- the edits

  function Reparented(g: Groups, id: int, parent: int): (r: Groups)
    requires id in g
  {
    g[id := g[id].(parent := parent)]
  }

  /** DeleteGroup: the row goes, its direct subgroups are released to the top. */
  function WithoutGroup(g: Groups, id: int): (r: Groups) {
    map x | x in g && x != id :: if g[x].parent == id then g[x].(parent := 0) else g[x]
  }

  function WithoutGroups(g: Groups, ids: set<int>): (r: Groups) {
    map x | x in g && x !in ids :: g[x]
  }

  /** The depths after a move: the moved block shifts as one. */
  ghost function MovedDepths(g: Groups, d: map<int, nat>, id: int, parent: int): (e: map<int, nat>)
    requires Depths(g, d) && id in g
    requires parent == 0 || parent in g
  {
    map x | x in g :: if Within(g, d, x, id) then Shifted(g, d, x, id, parent) else d[x]
  }

  ghost function Shifted(g: Groups, d: map<int, nat>, x: int, id: int, parent: int): (n: nat)
    requires Depths(g, d) && id in g && Within(g, d, x, id)
    requires parent == 0 || parent in g
  {
    WithinDepth(g, d, x, id);
    d[x] - d[id] + (if parent == 0 then 0 else d[parent] + 1)
  }

  /** A move that ValidateGroupParent accepts keeps the table a forest, and the
      new depths are known exactly: everything in the block moves by the same
      amount, nothing else moves. */
  lemma MoveKeepsForest(g: Groups, d: map<int, nat>, id: int, parent: int)
    requires Depths(g, d) && id in g
    requires parent == 0 || (parent in g && !Within(g, d, parent, id))
    ensures Depths(Reparented(g, id, parent), MovedDepths(g, d, id, parent))
  {
    var h := Reparented(g, id, parent);
    var e := MovedDepths(g, d, id, parent);
    assert h.Keys == g.Keys;
    forall x | x in h
      ensures if h[x].parent == 0 then e[x] == 0 else h[x].parent in h && e[x] == e[h[x].parent] + 1
    {
      if x != id && g[x].parent != 0 {
        assert Within(g, d, x, id) <==> Within(g, d, g[x].parent, id);
      }
      if x != id && g[x].parent == 0 {
        assert !Within(g, d, x, id);
      }
      assert Within(g, d, id, id);
    }
  }

  /** The guard is needed: a parent inside the moved block never leaves a forest. */
  lemma MoveIntoOwnBlockBreaks(g: Groups, d: map<int, nat>, id: int, parent: int)
    requires Depths(g, d) && id in g && Within(g, d, parent, id)
    ensures !IsForest(Reparented(g, id, parent))
  {
    var h := Reparented(g, id, parent);
    if IsForest(h) {
      var e :| Depths(h, e);
      BlockStaysBelow(g, d, h, e, parent, id);
      assert false;
    }
  }

  lemma {:induction false} BlockStaysBelow(g: Groups, d: map<int, nat>, h: Groups, e: map<int, nat>, x: int, id: int)
    requires Depths(g, d) && Depths(h, e) && id in g && id in h && Within(g, d, x, id)
    requires forall k :: k in g && k != id ==> k in h && h[k] == g[k]
    ensures x in h && e[id] <= e[x]
    decreases d[x]
  {
    if x != id {
      BlockStaysBelow(g, d, h, e, g[x].parent, id);
    }
  }

  /** The eight-level limit is checked for the moved header only: a move keeps
      every group within the limit exactly when the deepest row of the block
      fits below the new parent. */
  lemma MoveKeepsLimitIff(g: Groups, d: map<int, nat>, id: int, parent: int)
    requires Depths(g, d) && id in g && parent in g && !Within(g, d, parent, id)
    requires forall x :: x in g ==> d[x] <= MAX_LEVELS
    ensures var e := MovedDepths(g, d, id, parent);
      (forall x :: x in g ==> e[x] <= MAX_LEVELS)
      <==> (forall x :: Within(g, d, x, id) ==> x in g && d[x] + d[parent] + 1 <= MAX_LEVELS + d[id])
  {
    var e := MovedDepths(g, d, id, parent);
    forall x | x in g
      ensures Within(g, d, x, id) ==> e[x] + d[id] == d[x] + d[parent] + 1
      ensures !Within(g, d, x, id) ==> e[x] == d[x]
    {
    }
    if forall x :: x in g ==> e[x] <= MAX_LEVELS {
      forall x | Within(g, d, x, id)
        ensures x in g && d[x] + d[parent] + 1 <= MAX_LEVELS + d[id]
      {
        assert e[x] <= MAX_LEVELS;
      }
    }
  }

  function Under(parent: int): Group {
    Group(parent, false, 0.0)
  }

  /** n groups, each inside the one before. */
  function Tower(n: nat): (g: Groups)
    ensures forall x :: x in g <==> 1 <= x <= n
    ensures forall x :: x in g ==> g[x] == Under(x - 1)
  {
    if n == 0 then map[] else Tower(n - 1)[n := Under(n - 1)]
  }

  function TowerDepths(n: nat): (d: map<int, nat>)
    ensures forall x :: x in d <==> 1 <= x <= n
    ensures forall x :: x in d ==> d[x] == x - 1
  {
    if n == 0 then map[] else TowerDepths(n - 1)[n := n - 1]
  }

  /** n nested groups and a separate block of two: moving the block under the
      innermost group is accepted up to n = 8, and its inner group ends up at
      depth n + 1, so with n = 8 the limit is exceeded. */
  lemma MoveCanExceedLimit(n: nat) returns (g: Groups, d: map<int, nat>)
    requires n == MAX_LEVELS
    ensures Depths(g, d) && n + 1 in g && n in g && !Within(g, d, n, n + 1) && d[n] < MAX_LEVELS
    ensures forall x :: x in g ==> d[x] <= MAX_LEVELS
    ensures n + 2 in MovedDepths(g, d, n + 1, n) && MovedDepths(g, d, n + 1, n)[n + 2] > MAX_LEVELS
  {
    g, d := TowerAndBlock(n);
    assert Within(g, d, n + 1, n + 1);
    assert Within(g, d, n + 2, n + 1);
  }

  lemma TowerAndBlock(n: nat) returns (g: Groups, d: map<int, nat>)
    requires n > 0
    ensures Depths(g, d) && n in g && d[n] == n - 1 && n + 1 in g && d[n + 1] == 0
    ensures n + 2 in g && g[n + 2].parent == n + 1 && d[n + 2] == 1
    ensures forall x :: x in g ==> d[x] <= n
    ensures !Within(g, d, n, n + 1)
  {
    g := Tower(n)[n + 1 := Under(0)][n + 2 := Under(n + 1)];
    d := TowerDepths(n)[n + 1 := 0][n + 2 := 1];
    assert Depths(g, d);
    TowerApart(g, d, n, n);
  }

  lemma {:induction false} TowerApart(g: Groups, d: map<int, nat>, n: nat, x: int)
    requires Depths(g, d) && 1 <= x <= n && forall k :: 1 <= k <= n ==> k in g && g[k].parent == k - 1
    ensures !Within(g, d, x, n + 1)
    decreases x
  {
    if x > 1 {
      TowerApart(g, d, n, x - 1);
    }
  }

  /** A new group under an accepted parent. */
  lemma CreateKeepsForest(g: Groups, d: map<int, nat>, id: int, group: Group)
    requires Depths(g, d) && id !in g && id != 0
    requires group.parent == 0 || group.parent in g
    ensures Depths(g[id := group], d[id := if group.parent == 0 then 0 else d[group.parent] + 1])
  {
    var h := g[id := group];
    var e := d[id := if group.parent == 0 then 0 else d[group.parent] + 1];
    forall x | x in h
      ensures if h[x].parent == 0 then e[x] == 0 else h[x].parent in h && e[x] == e[h[x].parent] + 1
    {
    }
  }

  /** The depths after DeleteGroup: everything below the group rises to hang
      from its released subgroups. */
  ghost function ReleasedDepths(g: Groups, d: map<int, nat>, id: int): (e: map<int, nat>)
    requires Depths(g, d) && id in g
  {
    map x | x in g && x != id :: if Within(g, d, x, id) then RisenDepth(g, d, x, id) else d[x]
  }

  ghost function RisenDepth(g: Groups, d: map<int, nat>, x: int, id: int): (n: nat)
    requires Depths(g, d) && id in g && Within(g, d, x, id) && x != id
  {
    WithinDepth(g, d, x, id);
    d[x] - d[id] - 1
  }

  lemma DeleteGroupKeepsForest(g: Groups, d: map<int, nat>, id: int)
    requires Depths(g, d) && id in g
    ensures Depths(WithoutGroup(g, id), ReleasedDepths(g, d, id))
  {
    var h := WithoutGroup(g, id);
    var e := ReleasedDepths(g, d, id);
    assert h.Keys == e.Keys;
    forall x | x in h
      ensures if h[x].parent == 0 then e[x] == 0 else h[x].parent in h && e[x] == e[h[x].parent] + 1
    {
      assert Within(g, d, id, id);
      if g[x].parent == 0 {
        assert !Within(g, d, x, id);
      } else {
        assert Within(g, d, x, id) <==> Within(g, d, g[x].parent, id);
      }
    }
  }

  /** DeleteGroupWithCues removes a whole block, so nothing dangles. */
  lemma DeleteBlockKeepsForest(g: Groups, d: map<int, nat>, id: int, block: set<int>)
    requires Depths(g, d)
    requires forall x :: x in block <==> Within(g, d, x, id)
    ensures IsForest(WithoutGroups(g, block))
  {
    var h := WithoutGroups(g, block);
    var e := map x | x in h :: d[x];
    forall x | x in h
      ensures if h[x].parent == 0 then e[x] == 0 else h[x].parent in h && e[x] == e[h[x].parent] + 1
    {
      if g[x].parent != 0 {
        assert !Within(g, d, x, id);
        assert g[x].parent in g;
      }
    }
    assert Depths(h, e);
  }
}
