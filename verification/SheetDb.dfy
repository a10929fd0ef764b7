/** The sheet's database as an object: the queries and updates of ctp/sheet.go. */
module SheetDb {
  import opened Util
  import opened Forest
  import opened PreOrder
  import opened FlattenSheet
  import opened SheetStore

  class Database {
    var cues: map<int, CueRow>
    var groups: Groups

    function State(): Tables
      reads this
    {
      Tables(cues, groups)
    }

    constructor (t: Tables)
      ensures State() == t
    {
      cues, groups := t.cues, t.groups;
    }

    /** SELECT cuePos, sheet_index FROM cuesheet ORDER BY sheet_index, cuePos. */
    method SelectCues() returns (rows: seq<Placed>)
      ensures PlacedIn(State(), rows) && InRowOrder(State(), rows)
      ensures forall x {:trigger ListsRow(rows, x)} :: ListsRow(rows, x) <==> x.Cue? && HasRow(State(), x)
    {
      rows := [];
      var todo := cues.Keys;
      while todo != {}
        invariant todo <= cues.Keys
        invariant PlacedIn(State(), rows) && InRowOrder(State(), rows)
        invariant forall x {:trigger ListsRow(rows, x)} ::
          ListsRow(rows, x) <==> x.Cue? && x.pos in cues && x.pos !in todo
        decreases |todo|
      {
        ghost var w := PickFrom(todo);
        var pos: int :| pos in todo;
        NotListed(rows, Cue(pos));
        rows := InsertOrdered(State(), rows, Cue(pos));
        todo := todo - {pos};
      }
    }

    /** SELECT group_id, sheet_index FROM cue_group ORDER BY sheet_index, group_id. */
    method SelectGroups() returns (rows: seq<Placed>)
      ensures PlacedIn(State(), rows) && InRowOrder(State(), rows)
      ensures forall x {:trigger ListsRow(rows, x)} :: ListsRow(rows, x) <==> x.Header? && HasRow(State(), x)
    {
      rows := [];
      var todo := groups.Keys;
      while todo != {}
        invariant todo <= groups.Keys
        invariant PlacedIn(State(), rows) && InRowOrder(State(), rows)
        invariant forall x {:trigger ListsRow(rows, x)} ::
          ListsRow(rows, x) <==> x.Header? && x.gid in groups && x.gid !in todo
        decreases |todo|
      {
        ghost var w := PickFrom(todo);
        var gid: int :| gid in todo;
        NotListed(rows, Header(gid));
        rows := InsertOrdered(State(), rows, Header(gid));
        todo := todo - {gid};
      }
    }

    /** loadSheetSequence. */
    method LoadSheetSequence() returns (items: seq<SheetItem>)
      ensures Loaded(State(), items)
    {
      var cueRows := SelectCues();
      var groupRows := SelectGroups();
      var merged := LoadSequence(cueRows, groupRows);
      forall i | 0 <= i < |cueRows| ensures cueRows[i].item.Cue? { assert ListsRow(cueRows, cueRows[i].item); }
      forall i | 0 <= i < |groupRows| ensures groupRows[i].item.Header? { assert ListsRow(groupRows, groupRows[i].item); }
      MergedInOrder(State(), cueRows, groupRows);
      items := [];
      for i := 0 to |merged|
        invariant |items| == i && forall k :: 0 <= k < i ==> items[k] == merged[k].item
      {
        items := items + [merged[i].item];
      }
      forall x ensures x in items <==> HasRow(State(), x) {
        MergedLists(cueRows, groupRows, x);
        if x in items {
          var i :| 0 <= i < |items| && items[i] == x;
          assert merged[i].item == x;
        }
        if ListsRow(merged, x) {
          var i :| 0 <= i < |merged| && merged[i].item == x;
          assert items[i] == x;
        }
        assert ListsRow(cueRows, x) <==> x.Cue? && HasRow(State(), x);
        assert ListsRow(groupRows, x) <==> x.Header? && HasRow(State(), x);
      }
    }

    /** storedParents. */
    method StoredParents() returns (parents: map<int, int>)
      ensures parents == ParentsOf(State())
    {
      parents := map pos | pos in cues :: cues[pos].parent;
    }

    /** applyOrder: all of it, or, when a cue has no parent in the map, none of it. */
    method ApplyOrder(items: seq<SheetItem>, parents: map<int, int>) returns (ok: bool)
      modifies this
      ensures ok <==> CoversCues(items, parents)
      ensures State() == if ok then Written(old(State()), items, parents) else old(State())
    {
      var t := State();
      for i := 0 to |items|
        invariant CoversCues(items[..i], parents)
        invariant t == Written(State(), items[..i], parents)
        invariant State() == old(State())
      {
        if items[i].Cue? && items[i].pos !in parents {
          return false;
        }
        assert items[..i + 1][..i] == items[..i];
        t := WriteRow(t, items[i], i as real * STEP, parents);
      }
      assert items[..|items|] == items;
      cues, groups := t.cues, t.groups;
      return true;
    }
  }

  lemma NotListed(rows: seq<Placed>, x: SheetItem)
    requires !ListsRow(rows, x)
    ensures forall i :: 0 <= i < |rows| ==> rows[i].item != x
  {
  }

  // ------------------------------------------------------ facts of the merge

  lemma {:induction false} MergedLists(cues: seq<Placed>, headers: seq<Placed>, x: SheetItem)
    ensures ListsRow(CuesFirst(cues, headers), x) <==> ListsRow(cues, x) || ListsRow(headers, x)
    decreases |cues| + |headers|
  {
    if |cues| > 0 && |headers| > 0 {
      if cues[0].index <= headers[0].index {
        MergedLists(cues[1..], headers, x);
        ConsLists(cues[0], CuesFirst(cues[1..], headers), x);
        assert cues == [cues[0]] + cues[1..];
        ConsLists(cues[0], cues[1..], x);
      } else {
        MergedLists(cues, headers[1..], x);
        ConsLists(headers[0], CuesFirst(cues, headers[1..]), x);
        assert headers == [headers[0]] + headers[1..];
        ConsLists(headers[0], headers[1..], x);
      }
    }
  }

  lemma ConsLists(p: Placed, rest: seq<Placed>, x: SheetItem)
    ensures ListsRow([p] + rest, x) <==> p.item == x || ListsRow(rest, x)
  {
    var r := [p] + rest;
    if i :| 0 <= i < |rest| && rest[i].item == x {
      assert r[i + 1] == rest[i];
    }
    assert r[0] == p;
    if i :| 0 <= i < |r| && r[i].item == x && i > 0 {
      assert rest[i - 1] == r[i];
    }
  }

  /** Merging two ordered query results gives the load order. */
  lemma {:induction false} MergedInOrder(t: Tables, cues: seq<Placed>, headers: seq<Placed>)
    requires PlacedIn(t, cues) && InRowOrder(t, cues) && PlacedIn(t, headers) && InRowOrder(t, headers)
    requires forall i :: 0 <= i < |cues| ==> cues[i].item.Cue?
    requires forall i :: 0 <= i < |headers| ==> headers[i].item.Header?
    ensures PlacedIn(t, CuesFirst(cues, headers)) && InRowOrder(t, CuesFirst(cues, headers))
    decreases |cues| + |headers|
  {
    if |cues| > 0 && |headers| > 0 {
      if cues[0].index <= headers[0].index {
        MergedInOrder(t, cues[1..], headers);
        forall x | ListsRow(CuesFirst(cues[1..], headers), x)
          ensures HasRow(t, x) && Before(t, cues[0].item, x)
        {
          MergedLists(cues[1..], headers, x);
          FirstBefore(t, cues, headers, x);
        }
        ConsOrder(t, cues[0], CuesFirst(cues[1..], headers));
      } else {
        MergedInOrder(t, cues, headers[1..]);
        forall x | ListsRow(CuesFirst(cues, headers[1..]), x)
          ensures HasRow(t, x) && Before(t, headers[0].item, x)
        {
          MergedLists(cues, headers[1..], x);
          HeaderBefore(t, cues, headers, x);
        }
        ConsOrder(t, headers[0], CuesFirst(cues, headers[1..]));
      }
    }
  }

  lemma FirstBefore(t: Tables, cues: seq<Placed>, headers: seq<Placed>, x: SheetItem)
    requires PlacedIn(t, cues) && InRowOrder(t, cues) && PlacedIn(t, headers) && InRowOrder(t, headers)
    requires |cues| > 0 && |headers| > 0 && cues[0].index <= headers[0].index && cues[0].item.Cue?
    requires forall i :: 0 <= i < |headers| ==> headers[i].item.Header?
    requires ListsRow(cues[1..], x) || ListsRow(headers, x)
    ensures HasRow(t, x) && Before(t, cues[0].item, x)
  {
    if i :| 0 <= i < |cues[1..]| && cues[1..][i].item == x {
      assert cues[i + 1].item == x;
    } else {
      var j :| 0 <= j < |headers| && headers[j].item == x;
      if j > 0 { assert Before(t, headers[0].item, headers[j].item); }
    }
  }

  lemma HeaderBefore(t: Tables, cues: seq<Placed>, headers: seq<Placed>, x: SheetItem)
    requires PlacedIn(t, cues) && InRowOrder(t, cues) && PlacedIn(t, headers) && InRowOrder(t, headers)
    requires |cues| > 0 && |headers| > 0 && headers[0].index < cues[0].index
    requires ListsRow(cues, x) || ListsRow(headers[1..], x)
    ensures HasRow(t, x) && Before(t, headers[0].item, x)
  {
    if i :| 0 <= i < |headers[1..]| && headers[1..][i].item == x {
      assert headers[i + 1].item == x;
    } else {
      var j :| 0 <= j < |cues| && cues[j].item == x;
      if j > 0 { assert Before(t, cues[0].item, cues[j].item); }
    }
  }

  lemma ConsOrder(t: Tables, p: Placed, rest: seq<Placed>)
    requires HasRow(t, p.item) && p.index == IndexOf(t, p.item)
    requires PlacedIn(t, rest) && InRowOrder(t, rest)
    requires forall x {:trigger ListsRow(rest, x)} :: ListsRow(rest, x) ==> HasRow(t, x) && Before(t, p.item, x)
    ensures PlacedIn(t, [p] + rest) && InRowOrder(t, [p] + rest)
  {
    var r := [p] + rest;
    forall j | 1 <= j < |r|
      ensures HasRow(t, r[j].item) && Before(t, p.item, r[j].item)
    {
      assert r[j] == rest[j - 1];
      assert ListsRow(rest, rest[j - 1].item);
    }
    forall i, j | 0 <= i < j < |r|
      ensures Before(t, r[i].item, r[j].item)
    {
      if i > 0 {
        assert r[i] == rest[i - 1] && r[j] == rest[j - 1];
      }
    }
  }
}
