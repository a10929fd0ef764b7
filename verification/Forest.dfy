/** The group tree (ctp/groups.go and the walks over it in ctp/ctp.go,
    ctp/sheet.go and routes/groups.go).

    A group row names its parent by id, 0 meaning top level.  Six separate
    loops and recursions in the program climb or descend that tree; this module
    gives one meaning to "inside a group" and ties each of them to it. */
module Forest {
  import opened Util

  datatype Group = Group(parent: int, collapse: bool, index: real)

  type Groups = map<int, Group>

  /** d assigns every group its nesting depth: no dangling parent, no cycle. */
  ghost predicate Depths(g: Groups, d: map<int, nat>) {
    && 0 !in g
    && d.Keys == g.Keys
    && forall id {:trigger d[id], g[id]} :: id in g ==>
      if g[id].parent == 0 then d[id] == 0
      else g[id].parent in g && d[id] == d[g[id].parent] + 1
  }

  /** The parent table is a forest: some depth assignment exists. */
  ghost predicate IsForest(g: Groups) {
    exists d :: Depths(g, d)
  }

  /** p is top or lies below it. */
  ghost predicate Within(g: Groups, d: map<int, nat>, p: int, top: int)
    requires Depths(g, d)
    decreases if p in g then d[p] else 0
  {
    p in g && (p == top || (g[p].parent != 0 && Within(g, d, g[p].parent, top)))
  }

  /** The chain of parents of id, nearest first. */
  ghost function Ancestors(g: Groups, d: map<int, nat>, id: int): (chain: seq<int>)
    requires Depths(g, d) && id in g
    ensures |chain| == d[id]
    decreases d[id]
  {
    if g[id].parent == 0 then [] else [g[id].parent] + Ancestors(g, d, g[id].parent)
  }

  /** p or a group above it is collapsed. */
  ghost predicate Closed(g: Groups, d: map<int, nat>, p: int)
    requires Depths(g, d)
    decreases if p in g then d[p] else 0
  {
    p in g && (g[p].collapse || (g[p].parent != 0 && Closed(g, d, g[p].parent)))
  }

  // ---------------------------------------------------------------- facts

  lemma {:induction false} WithinIffAncestor(g: Groups, d: map<int, nat>, p: int, top: int)
    requires Depths(g, d) && p in g
    ensures Within(g, d, p, top) <==> p == top || top in Ancestors(g, d, p)
    decreases d[p]
  {
    if g[p].parent != 0 {
      WithinIffAncestor(g, d, g[p].parent, top);
    }
  }

  /** Proper descent strictly deepens, so "within" is antisymmetric. */
  lemma {:induction false} WithinDepth(g: Groups, d: map<int, nat>, p: int, top: int)
    requires Depths(g, d) && Within(g, d, p, top)
    ensures top in g && d[top] <= d[p] && (d[top] == d[p] ==> top == p)
    decreases d[p]
  {
    if p != top {
      WithinDepth(g, d, g[p].parent, top);
    }
  }

  lemma {:induction false} WithinTransitive(g: Groups, d: map<int, nat>, a: int, b: int, c: int)
    requires Depths(g, d) && Within(g, d, a, b) && Within(g, d, b, c)
    ensures Within(g, d, a, c)
    decreases d[a]
  {
    if a != b {
      WithinTransitive(g, d, g[a].parent, b, c);
      WithinDepth(g, d, a, b);
      assert c in g by { WithinDepth(g, d, b, c); }
    }
  }

  /** Two groups around the same row are nested one in the other. */
  lemma {:induction false} WithinLinear(g: Groups, d: map<int, nat>, p: int, a: int, b: int)
    requires Depths(g, d) && a in g && b in g && d[a] <= d[b]
    requires Within(g, d, p, a) && Within(g, d, p, b)
    ensures Within(g, d, b, a)
    decreases d[p]
  {
    if p != b {
      WithinDepth(g, d, p, b);
      WithinDepth(g, d, g[p].parent, b);
      WithinLinear(g, d, g[p].parent, a, b);
    }
  }

  /** A group is closed exactly when some group it lies within is collapsed. */
  lemma {:induction false} ClosedIff(g: Groups, d: map<int, nat>, p: int)
    requires Depths(g, d) && p in g
    ensures Closed(g, d, p) <==> exists top :: top in g && Within(g, d, p, top) && g[top].collapse
    decreases d[p]
  {
    if g[p].collapse {
      assert Within(g, d, p, p);
    } else if g[p].parent != 0 {
      var q := g[p].parent;
      ClosedIff(g, d, q);
      if Closed(g, d, q) {
        var top :| top in g && Within(g, d, q, top) && g[top].collapse;
        assert Within(g, d, p, top);
      }
    }
  }

  lemma {:induction false} DepthsUnique(g: Groups, d: map<int, nat>, e: map<int, nat>, id: int)
    requires Depths(g, d) && Depths(g, e) && id in g
    ensures d[id] == e[id]
    decreases d[id]
  {
    if g[id].parent != 0 {
      DepthsUnique(g, d, e, g[id].parent);
    }
  }

  ghost function ChainSet(g: Groups, d: map<int, nat>, id: int): (s: set<int>)
    requires Depths(g, d) && id in g
    ensures s <= g.Keys && forall x :: x in s ==> d[x] <= d[id]
    ensures |s| == d[id] + 1
    decreases d[id]
  {
    if g[id].parent == 0 then {id} else {id} + ChainSet(g, d, g[id].parent)
  }

  /** The caps on the walks are never reached: a chain is shorter than the table. */
  lemma DepthBound(g: Groups, d: map<int, nat>, id: int)
    requires Depths(g, d) && id in g
    ensures d[id] < |g|
  {
    SubsetCard(ChainSet(g, d, id), g.Keys);
    assert |g.Keys| == |g|;
  }
}
