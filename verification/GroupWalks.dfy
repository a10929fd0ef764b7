/** The loops and recursions over the group table, each written as the program
    writes it (guards, caps and early exits included) and each proved to compute
    the one notion of nesting in Forest. */
module GroupWalks {
  import opened Util
  import opened Forest

  /** groupAncestors: the parents of gid, nearest first.  On any table, corrupt
      ones included, the chain has no repeats; on a forest it is the true chain
      and neither the cycle check nor the length cap ever cuts it short. */
  method GroupAncestors(gid: int, byID: Groups, ghost d: map<int, nat>) returns (chain: seq<int>)
    ensures Distinct(chain) && |chain| <= |byID| + 1
    ensures Depths(byID, d) && gid in byID ==> chain == Ancestors(byID, d, gid)
  {
    chain := [];
    var at := gid;
    while at in byID && byID[at].parent != 0 && |chain| <= |byID|
      invariant Distinct(chain) && |chain| <= |byID| + 1
      invariant Depths(byID, d) && gid in byID ==>
          && at in byID
          && (forall c :: c in chain ==> c in byID && d[at] <= d[c])
          && |chain| + d[at] == d[gid]
          && Ancestors(byID, d, gid) == chain + Ancestors(byID, d, at)
      decreases |byID| + 1 - |chain|
    {
      var parent := byID[at].parent;
      if parent in chain {
        break;
      }
      chain := chain + [parent];
      at := parent;
    }
    if Depths(byID, d) && gid in byID {
      DepthBound(byID, d, gid);
    }
  }

  /** cueInCollapsed: does the chain from the cue's parent reach gid?  The cap
      at the group count is never the reason for a "no" on a forest. */
  method CueInCollapsed(parent: int, gid: int, byID: Groups, ghost d: map<int, nat>) returns (inside: bool)
    ensures Depths(byID, d) && gid in byID ==> (inside <==> Within(byID, d, parent, gid))
  {
    var p, n := parent, 0;
    if Depths(byID, d) && p in byID { DepthBound(byID, d, p); }
    while p != 0 && n <= |byID|
      invariant 0 <= n <= |byID| + 1
      invariant Depths(byID, d) && gid in byID ==>
          && (Within(byID, d, parent, gid) <==> Within(byID, d, p, gid))
          && (p in byID ==> n + d[p] < |byID|)
      decreases |byID| + 1 - n
    {
      if p == gid {
        return true;
      }
      if p !in byID {
        return false;
      }
      p := byID[p].parent;
      n := n + 1;
    }
    return false;
  }

  /** depthOf inside groupNesting: memoised, with a recursion guard. */
  method DepthOf(byID: Groups, known: map<int, nat>, id: int, guard: nat, ghost d: map<int, nat>)
    returns (depths: map<int, nat>, depth: nat)
    requires guard <= |byID| + 1
    ensures Depths(byID, d) && known.Keys <= byID.Keys && (forall k :: k in known ==> known[k] == d[k])
        && id in byID && guard + d[id] <= |byID|
      ==> && depth == d[id]
          && id in depths && known.Keys <= depths.Keys <= byID.Keys
          && (forall k :: k in depths ==> depths[k] == d[k])
    decreases |byID| + 1 - guard
  {
    if id in known {
      return known, known[id];
    }
    if id !in byID || guard > |byID| {
      return known, 0;
    }
    depths, depth := known, 0;
    if byID[id].parent != 0 {
      depths, depth := DepthOf(byID, known, byID[id].parent, guard + 1, d);
      depth := depth + 1;
    }
    depths := depths[id := depth];
  }

  /** groupNesting: on a forest the depth table is the depth assignment, and it
      agrees with the length of every ancestor chain. */
  method GroupNesting(byID: Groups, ghost d: map<int, nat>) returns (depths: map<int, nat>)
    ensures Depths(byID, d) ==> depths.Keys == byID.Keys && forall id :: id in byID ==> depths[id] == d[id]
    ensures Depths(byID, d) ==> forall id :: id in byID ==> depths[id] == |Ancestors(byID, d, id)|
  {
    depths := map[];
    var todo := byID.Keys;
    while todo != {}
      invariant todo <= byID.Keys
      invariant Depths(byID, d) ==> byID.Keys - todo <= depths.Keys <= byID.Keys
      invariant Depths(byID, d) ==> forall k :: k in depths ==> depths[k] == d[k]
      decreases |todo|
    {
      ghost var x := PickFrom(todo);
      var id: int :| id in todo;
      var depth;
      if Depths(byID, d) { DepthBound(byID, d, id); }
      depths, depth := DepthOf(byID, depths, id, 0, d);
      depths := depths[id := depth];
      todo := todo - {id};
    }
  }

  /** The rows one query returns, as the program keeps them: id and parent. */
  datatype GroupRow = GroupRow(id: int, parent: int)

  ghost predicate Listed(all: seq<GroupRow>, id: int) {
    exists i :: 0 <= i < |all| && all[i].id == id
  }

  /** all lists the table, each group once. */
  ghost predicate Lists(all: seq<GroupRow>, g: Groups) {
    && (forall i :: 0 <= i < |all| ==> all[i].id in g && g[all[i].id].parent == all[i].parent)
    && (forall id {:trigger Listed(all, id)} :: id in g ==> Listed(all, id))
    && (forall i, j :: 0 <= i < j < |all| ==> all[i].id != all[j].id)
  }

  /** The inner search of groupScope: a linear look-up of one parent. */
  method ParentIn(all: seq<GroupRow>, at: int, ghost g: Groups) returns (parent: int)
    requires Lists(all, g) && at in g
    ensures parent == g[at].parent
  {
    parent := 0;
    assert Listed(all, at);
    for i := 0 to |all|
      invariant forall k :: 0 <= k < i ==> all[k].id != at
    {
      if all[i].id == at {
        return all[i].parent;
      }
    }
  }

  /** The climb of groupScope and of SheetDrop's block: it has no cap of its
      own and ends because the table is a forest. */
  method ClimbReaches(start: int, groupID: int, all: seq<GroupRow>, ghost g: Groups, ghost d: map<int, nat>)
    returns (reached: bool)
    requires Lists(all, g) && Depths(g, d) && groupID in g && (start == 0 || start in g)
    ensures reached <==> Within(g, d, start, groupID)
  {
    var at := start;
    while at != 0
      invariant at == 0 || at in g
      invariant Within(g, d, start, groupID) <==> Within(g, d, at, groupID)
      decreases if at in g then d[at] + 1 else 0
    {
      if at == groupID {
        return true;
      }
      at := ParentIn(all, at, g);
    }
    return false;
  }

  /** groupScope: the group and everything below it. */
  method GroupScope(groupID: int, all: seq<GroupRow>, ghost g: Groups, ghost d: map<int, nat>) returns (scope: set<int>)
    requires Lists(all, g) && Depths(g, d) && groupID in g
    ensures forall x :: x in scope <==> Within(g, d, x, groupID)
  {
    scope := {groupID};
    for i := 0 to |all|
      invariant groupID in scope
      invariant forall x :: x in scope ==> Within(g, d, x, groupID)
      invariant forall k :: 0 <= k < i && Within(g, d, all[k].id, groupID) ==> all[k].id in scope
    {
      var reached := ClimbReaches(all[i].parent, groupID, all, g, d);
      if reached {
        scope := scope + {all[i].id};
      }
    }
    forall x | Within(g, d, x, groupID)
      ensures x in scope
    {
      assert Listed(all, x);
    }
  }

  // --------------------------------------------------- downward recursions

  ghost predicate ListsChildren(children: map<int, seq<int>>, g: Groups) {
    && (forall p, k :: p in children && 0 <= k < |children[p]| ==> children[p][k] in g && g[children[p][k]].parent == p)
    && (forall id :: id in g ==> g[id].parent in children && id in children[g[id].parent])
  }

  /** The children table of groupDescendants, filled row by row. */
  method ChildrenOf(all: seq<GroupRow>, ghost g: Groups) returns (children: map<int, seq<int>>)
    requires Lists(all, g)
    ensures ListsChildren(children, g)
  {
    children := map[];
    for i := 0 to |all|
      invariant forall p, k :: p in children && 0 <= k < |children[p]| ==> children[p][k] in g && g[children[p][k]].parent == p
      invariant forall k :: 0 <= k < i ==> all[k].parent in children && all[k].id in children[all[k].parent]
    {
      var row := all[i];
      var before := if row.parent in children then children[row.parent] else [];
      ghost var was := children;
      children := children[row.parent := before + [row.id]];
      forall k | 0 <= k < i + 1
        ensures all[k].parent in children && all[k].id in children[all[k].parent]
      {
        if k == i {
          assert children[row.parent][|before|] == row.id;
        } else if all[k].parent == row.parent {
          var m :| 0 <= m < |before| && before[m] == all[k].id;
          assert children[row.parent][m] == all[k].id;
        }
      }
    }
    forall id | id in g
      ensures g[id].parent in children && id in children[g[id].parent]
    {
      assert Listed(all, id);
    }
  }

  /** Everything newly seen has its children seen too. */
  ghost predicate ChildrenSeen(g: Groups, marked: set<int>, seen: set<int>) {
    forall x :: x in g && g[x].parent in marked ==> x in seen
  }

  /** t has the children of id, and the children of all it has. */
  ghost predicate DownClosed(g: Groups, id: int, t: set<int>) {
    ChildrenSeen(g, {id}, t) && ChildrenSeen(g, t, t)
  }

  /** below is the least such set: what is reached from id downwards. */
  ghost predicate IsReach(g: Groups, id: int, below: set<int>) {
    below <= g.Keys && DownClosed(g, id, below) && forall t :: DownClosed(g, id, t) ==> below <= t
  }

  /** walk inside groupDescendants: marks what is reached from id.  The seen set alone
      makes it end, on any table. */
  method WalkDown(children: map<int, seq<int>>, id: int, seen0: set<int>, ghost g: Groups)
    returns (seen: set<int>)
    requires ListsChildren(children, g) && seen0 <= g.Keys
    ensures seen0 <= seen <= g.Keys
    ensures ChildrenSeen(g, {id}, seen) && ChildrenSeen(g, seen - seen0, seen)
    ensures forall t :: DownClosed(g, id, t) ==> seen - seen0 <= t
    decreases g.Keys - seen0
  {
    seen := seen0;
    if id !in children {
      return;
    }
    for k := 0 to |children[id]|
      invariant seen0 <= seen <= g.Keys
      invariant ChildrenSeen(g, seen - seen0, seen)
      invariant forall m :: 0 <= m < k ==> children[id][m] in seen
      invariant forall t :: DownClosed(g, id, t) ==> seen - seen0 <= t
    {
      var ch := children[id][k];
      if ch !in seen {
        ghost var was := seen;
        seen := WalkDown(children, ch, seen + {ch}, g);
        forall t | DownClosed(g, id, t) ensures seen - seen0 <= t {
          assert ch in t;
          assert DownClosed(g, ch, t);
          assert seen - seen0 <= (was - seen0) + {ch} + (seen - (was + {ch}));
        }
      }
    }
  }

  /** groupDescendants for one group, on any table: corrupt ones included. */
  method Descendants(all: seq<GroupRow>, id: int, ghost g: Groups) returns (below: set<int>)
    requires Lists(all, g)
    ensures IsReach(g, id, below)
  {
    var children := ChildrenOf(all, g);
    below := WalkDown(children, id, {}, g);
    assert below - {} == below;
  }

  lemma {:induction false} SeenBelow(g: Groups, d: map<int, nat>, seen: set<int>, id: int, x: int)
    requires Depths(g, d) && DownClosed(g, id, seen) && Within(g, d, x, id) && x != id
    ensures x in seen
    decreases d[x]
  {
    if g[x].parent != id {
      SeenBelow(g, d, seen, id, g[x].parent);
    }
  }

  /** On a forest it is the groups properly within: the downward walk and the upward
      climbs agree. */
  lemma ReachIsWithin(g: Groups, d: map<int, nat>, id: int, below: set<int>)
    requires Depths(g, d) && id in g
    ensures IsReach(g, id, below) <==> forall x :: x in below <==> Within(g, d, x, id) && x != id
  {
    var inside := set x | x in g && Within(g, d, x, id) && x != id;
    forall x | x in g && (g[x].parent == id || g[x].parent in inside) ensures x in inside {
      DescendsThrough(g, d, x, x, g[x].parent);
      if g[x].parent != id {
        WithinTransitive(g, d, x, g[x].parent, id);
        WithinDepth(g, d, g[x].parent, id);
      }
    }
    assert DownClosed(g, id, inside);
    forall t | DownClosed(g, id, t) ensures inside <= t {
      forall x | x in inside ensures x in t { SeenBelow(g, d, t, id, x); }
    }
    if forall x :: x in below <==> Within(g, d, x, id) && x != id {
      forall x ensures x in below <==> x in inside {
        assert x in below <==> Within(g, d, x, id) && x != id;
      }
      assert below == inside;
    }
  }

  lemma DescendsThrough(g: Groups, d: map<int, nat>, x: int, ch: int, id: int)
    requires Depths(g, d) && id in g && ch in g && g[ch].parent == id && Within(g, d, x, ch)
    ensures Within(g, d, x, id) && x != id
  {
    assert Within(g, d, ch, id);
    WithinTransitive(g, d, x, ch, id);
    WithinDepth(g, d, x, ch);
  }

  /** collect inside DeleteGroupWithCues: a recursion with neither a seen set nor
      a cap.  On a forest it ends, and lists every group of the block once. */
  method Collect(all: seq<GroupRow>, gid: int, ghost g: Groups, ghost d: map<int, nat>) returns (ids: seq<int>)
    requires Lists(all, g) && Depths(g, d) && gid in g
    ensures Distinct(ids)
    ensures forall x :: x in ids <==> Within(g, d, x, gid)
    decreases |g| - d[gid]
  {
    ids := [gid];
    for i := 0 to |all|
      invariant Distinct(ids)
      invariant forall x :: x in ids <==> x == gid || exists k :: 0 <= k < i && all[k].parent == gid && Within(g, d, x, all[k].id)
    {
      if all[i].parent == gid {
        DepthBound(g, d, all[i].id);
        var sub := Collect(all, all[i].id, g, d);
        forall x | x in sub && x in ids
          ensures false
        {
          SiblingsApart(all, i, gid, x, g, d);
        }
        DistinctAppend(ids, sub);
        ids := ids + sub;
      }
    }
    forall x | x in ids
      ensures Within(g, d, x, gid)
    {
      if x != gid {
        var k :| 0 <= k < |all| && all[k].parent == gid && Within(g, d, x, all[k].id);
        DescendsThrough(g, d, x, all[k].id, gid);
      }
    }
    forall x | Within(g, d, x, gid)
      ensures x in ids
    {
      if x != gid {
        var ch := ChildAbove(g, d, x, gid);
        assert Listed(all, ch);
      }
    }
  }

  /** A group lies below one child of gid only, and gid below none. */
  lemma SiblingsApart(all: seq<GroupRow>, i: int, gid: int, x: int, g: Groups, d: map<int, nat>)
    requires Lists(all, g) && Depths(g, d) && gid in g
    requires 0 <= i < |all| && all[i].parent == gid && Within(g, d, x, all[i].id)
    ensures x != gid
    ensures forall k :: 0 <= k < i && all[k].parent == gid ==> !Within(g, d, x, all[k].id)
  {
    WithinDepth(g, d, x, all[i].id);
    forall k | 0 <= k < i && all[k].parent == gid && Within(g, d, x, all[k].id)
      ensures false
    {
      WithinLinear(g, d, x, all[k].id, all[i].id);
      WithinDepth(g, d, all[i].id, all[k].id);
      assert false;
    }
  }

  lemma {:induction false} ChildAbove(g: Groups, d: map<int, nat>, x: int, gid: int) returns (ch: int)
    requires Depths(g, d) && Within(g, d, x, gid) && x != gid
    ensures ch in g && g[ch].parent == gid && Within(g, d, x, ch)
    decreases d[x]
  {
    if g[x].parent == gid {
      ch := x;
    } else {
      ch := ChildAbove(g, d, g[x].parent, gid);
    }
  }
}
