/** The Awards session (routes/awards.go): GO plays the members of a group one by
    one, GO again fades the playing one out.  The session's lock is dropped while a
    cue loads and while one fades, so presses can overlap. */
module Awards {
  datatype Phase = Idle | Playing | Stopping

  datatype Session = Session(group: int, members: seq<int>, order: seq<int>, pos: nat, phase: Phase, member: int,
                             shuffle: bool, loop: bool)

  const NO_SESSION := Session(0, [], [], 0, Idle, 0, false, false)

  /** A group's settings and members as one press reads them. */
  datatype Group = Group(id: int, members: seq<int>, shuffle: bool, loop: bool)

  datatype Decision = Ignored | FadeOut(member: int) | Fire(idx: nat, cue: int)

  datatype Pressed = Pressed(s: Session, decision: Decision)

  /** What awardsOrder may return: sheet order, or with shuffle any bag of it. */
  ghost predicate IsOrder(order: seq<int>, members: seq<int>, shuffle: bool) {
    multiset(order) == multiset(members) && (!shuffle ==> order == members)
  }

  // --------------------------------------------------------------- sections

  function Fresh(g: Group): Session {
    Session(g.id, g.members, [], 0, Idle, 0, g.shuffle, g.loop)
  }

  /** A new session when the group, its members or its flags changed. */
  function Refreshed(s: Session, g: Group): Session {
    if s.group != g.id || s.members != g.members || s.shuffle != g.shuffle || s.loop != g.loop then Fresh(g) else s
  }

  function Fired(s: Session, bag: seq<int>): Pressed
    requires |s.order| > 0 && |bag| > 0
  {
    var t := if s.pos >= |s.order| then s.(order := bag, pos := 0) else s;
    Pressed(t, Fire(t.pos, t.order[t.pos]))
  }

  /** The first locked part of a press; current is the cue the engine plays. */
  function Press(s: Session, g: Group, current: int, bag: seq<int>): Pressed
    requires |g.members| > 0 ==> |bag| > 0
  {
    var a := Refreshed(s, g);
    if |g.members| == 0 then Pressed(a, Ignored)
    else
      var b := if |a.order| == 0 then a.(order := bag, pos := 0) else a;
      match b.phase
      case Stopping => Pressed(b, Ignored)
      case Playing =>
        if current != b.member then Fired(b.(phase := Idle), bag)
        else Pressed(b.(phase := Stopping), FadeOut(b.member))
      case Idle => Fired(b, bag)
  }

  /** The second locked part, once the cue has loaded and plays. */
  function Claim(s: Session, g: Group, idx: nat, cue: int): Session {
    if s.group == g.id && s.phase.Idle? && s.pos == idx then s.(phase := Playing, member := cue, pos := s.pos + 1) else s
  }

  /** awardsAfterStop up to stepping out; found is whether the group still exists. */
  function AfterStop(s: Session, group: int, member: int, current: int, found: bool, g: Group, bag: seq<int>): Session {
    if s.group != group || !s.phase.Stopping? || s.member != member then s
    else if current != 0 || !found then NO_SESSION
    else if s.pos < |s.order| then s.(phase := Idle)
    else if g.loop then s.(order := bag, pos := 0, phase := Idle)
    else NO_SESSION
  }

  /** awardsSelectionLeft. */
  function SelectionLeft(s: Session, selected: int): Session {
    if s.group != 0 && s.group != selected then NO_SESSION else s
  }

  // ------------------------------------------------- every interleaving

  /** Whatever presses, loads, fades and selection moves overlap: the order is the
      members, each as often as it is one, and the cursor stays within it. */
  ghost predicate Sound(s: Session) {
    && (s.order == [] || IsOrder(s.order, s.members, s.shuffle))
    && s.pos <= |s.order|
  }

  lemma FiredSound(s: Session, bag: seq<int>)
    requires Sound(s) && |s.order| > 0 && |bag| > 0 && IsOrder(bag, s.members, s.shuffle)
    ensures var r := Fired(s, bag); Sound(r.s) && r.s.pos < |r.s.order| && IsOrder(r.s.order, s.members, s.shuffle)
  {
  }

  /** The order in use after a press; the members are there. */
  lemma PressSound(s: Session, g: Group, current: int, bag: seq<int>)
    requires Sound(s) && IsOrder(bag, g.members, g.shuffle) && (|g.members| > 0 ==> |bag| > 0)
    ensures Sound(Press(s, g, current, bag).s)
  {
    var a := Refreshed(s, g);
    if |g.members| > 0 {
      var b := if |a.order| == 0 then a.(order := bag, pos := 0) else a;
      assert Sound(b);
      FiredSound(b, bag);
      FiredSound(b.(phase := Idle), bag);
    }
  }

  /** A press fires the cue under the cursor of the order in use. */
  lemma PressFires(s: Session, g: Group, current: int, bag: seq<int>)
    requires Sound(s) && IsOrder(bag, g.members, g.shuffle) && |g.members| > 0 && |bag| > 0
    requires Press(s, g, current, bag).decision.Fire?
    ensures var d := Press(s, g, current, bag).decision; var t := Press(s, g, current, bag).s;
      t.phase.Idle? && d.idx == t.pos < |t.order| && d.cue == t.order[d.idx] && t.group == g.id && IsOrder(t.order, g.members, g.shuffle)
  {
    var a := Refreshed(s, g);
    var b := if |a.order| == 0 then a.(order := bag, pos := 0) else a;
    FiredSound(b, bag);
    FiredSound(b.(phase := Idle), bag);
  }

  /** Presses in flight on one group that keeps its members and flags: loading holds
      the places fired whose cue has not loaded or failed yet, claims those claimed since
      the cursor was last set to the start. */
  datatype Busy = Busy(s: Session, loading: multiset<Decision>, claims: seq<Decision>)

  datatype Step =
    | GoPressed(current: int, bag: seq<int>)
    | LoadDone(d: Decision)
    | LoadFailed(d: Decision)
    | FadeDone(member: int, current: int, found: bool, bag: seq<int>)
    | SelectionMoved(selected: int)

  ghost predicate Enabled(g: Group, w: Busy, st: Step) {
    match st
    case GoPressed(_, bag) => IsOrder(bag, g.members, g.shuffle) && |bag| == |g.members|
    case LoadDone(d) => d in w.loading && d.Fire?
    case LoadFailed(d) => d in w.loading
    case FadeDone(_, _, _, bag) => IsOrder(bag, g.members, g.shuffle) && |bag| == |g.members|
    case SelectionMoved(_) => true
  }

  /** A step that leaves the cursor at the start begins a new count of claims. */
  function Settled(w: Busy, t: Session): Busy {
    w.(s := t, claims := if t.pos == 0 then [] else w.claims)
  }

  function Next(g: Group, w: Busy, st: Step): Busy
    requires st.GoPressed? && |g.members| > 0 ==> |st.bag| > 0
  {
    match st
    case GoPressed(current, bag) =>
      var r := Press(w.s, g, current, bag);
      Settled(if r.decision.Fire? then w.(loading := w.loading + multiset{r.decision}) else w, r.s)
    case LoadDone(d) =>
      var t := if d.Fire? then Claim(w.s, g, d.idx, d.cue) else w.s;
      Busy(t, w.loading - multiset{d}, if t.pos > w.s.pos then w.claims + [d] else w.claims)
    case LoadFailed(d) => w.(loading := w.loading - multiset{d})
    case FadeDone(member, current, found, bag) => Settled(w, AfterStop(w.s, g.id, member, current, found, g, bag))
    case SelectionMoved(selected) => Settled(w, SelectionLeft(w.s, selected))
  }

  /** Claims are of places 0, 1, 2, ..: each once, none skipped. */
  ghost predicate InTurn(w: Busy) {
    |w.claims| == w.s.pos && forall i :: 0 <= i < |w.claims| ==> w.claims[i].Fire? && w.claims[i].idx == i
  }

  /** The session is this group's, with a whole order, or there is none. */
  ghost predicate Consistent(g: Group, w: Busy) {
    && (w.s == NO_SESSION || (Refreshed(w.s, g) == w.s && IsOrder(w.s.order, g.members, g.shuffle) && |w.s.order| == |g.members|))
    && w.s.pos <= |w.s.order|
    && (w.s.phase.Idle? && w.s.order != [] ==> w.s.pos < |w.s.order|)
    && (forall d {:trigger w.loading[d]} :: d in w.loading ==> d.Fire? && d.idx < |g.members|)
    && InTurn(w)
  }

  /** A press leaves the order and the cursor as they are, or sets them anew. */
  lemma PressKeeps(s: Session, g: Group, current: int, bag: seq<int>)
    requires |g.members| > 0 && |bag| > 0 && (s == NO_SESSION || Refreshed(s, g) == s) && g.id != 0
    ensures var t := Press(s, g, current, bag).s;
      && Refreshed(t, g) == t
      && ((t.order == s.order && t.pos == s.pos) || (t.order == bag && t.pos == 0))
      && (t.phase.Idle? ==> t.pos < |t.order|)
  {
  }

  lemma PressConsistent(g: Group, w: Busy, current: int, bag: seq<int>)
    requires g.id != 0 && |g.members| > 0 && Consistent(g, w) && IsOrder(bag, g.members, g.shuffle) && |bag| == |g.members|
    ensures Consistent(g, Next(g, w, GoPressed(current, bag)))
  {
    PressSound(w.s, g, current, bag);
    PressKeeps(w.s, g, current, bag);
    PressPlace(g, w.s, current, bag);
  }

  lemma PressPlace(g: Group, s: Session, current: int, bag: seq<int>)
    requires |g.members| > 0 && Sound(s) && IsOrder(bag, g.members, g.shuffle) && |bag| == |g.members|
    ensures var d := Press(s, g, current, bag).decision;
      d.Fire? ==> d.idx < |g.members| && d.cue in g.members && (!g.shuffle ==> d.cue == g.members[d.idx])
  {
    var d := Press(s, g, current, bag).decision;
    if d.Fire? {
      PressFires(s, g, current, bag);
      OrderedIsMember(Press(s, g, current, bag).s.order, g.members, g.shuffle, d.idx);
    }
  }

  lemma OrderedIsMember(order: seq<int>, members: seq<int>, shuffle: bool, i: nat)
    requires IsOrder(order, members, shuffle) && i < |order|
    ensures i < |members| && order[i] in members
  {
    assert order[i] in multiset(order);
    assert |multiset(order)| == |order| && |multiset(members)| == |members|;
  }

  lemma TakeOut(loading: multiset<Decision>, d: Decision)
    requires d in loading
    ensures forall e {:trigger loading[e]} :: e in loading - multiset{d} ==> e in loading
  {
  }

  lemma LoadConsistent(g: Group, w: Busy, d: Decision, loaded: bool)
    requires g.id != 0 && |g.members| > 0 && Consistent(g, w) && d in w.loading
    ensures Consistent(g, Next(g, w, if loaded then LoadDone(d) else LoadFailed(d)))
  {
    TakeOut(w.loading, d);
    assert w.loading[d] > 0;
    forall e | e in w.loading - multiset{d} ensures e.Fire? && e.idx < |g.members| { assert w.loading[e] > 0; }
  }

  lemma SettleConsistent(g: Group, w: Busy, st: Step)
    requires g.id != 0 && |g.members| > 0 && Consistent(g, w) && Enabled(g, w, st) && (st.FadeDone? || st.SelectionMoved?)
    ensures Consistent(g, Next(g, w, st))
  {
    assert Next(g, w, st).loading == w.loading;
  }

  lemma StepConsistent(g: Group, w: Busy, st: Step)
    requires g.id != 0 && |g.members| > 0 && Consistent(g, w) && Enabled(g, w, st)
    ensures Consistent(g, Next(g, w, st))
  {
    match st
    case GoPressed(current, bag) => PressConsistent(g, w, current, bag);
    case LoadDone(d) => LoadConsistent(g, w, d, true);
    case LoadFailed(d) => LoadConsistent(g, w, d, false);
    case _ => SettleConsistent(g, w, st);
  }

  ghost function Run(g: Group, steps: seq<Step>): Busy
    requires |g.members| > 0
  {
    if |steps| == 0 then Busy(NO_SESSION, multiset{}, [])
    else var w := Run(g, steps[..|steps| - 1]);
      if Enabled(g, w, steps[|steps| - 1]) then Next(g, w, steps[|steps| - 1]) else w
  }

  lemma {:induction false} RunConsistent(g: Group, steps: seq<Step>)
    requires g.id != 0 && |g.members| > 0
    ensures Consistent(g, Run(g, steps))
  {
    if |steps| > 0 {
      RunConsistent(g, steps[..|steps| - 1]);
      var w := Run(g, steps[..|steps| - 1]);
      if Enabled(g, w, steps[|steps| - 1]) { StepConsistent(g, w, steps[|steps| - 1]); }
    }
  }

  /** However presses, loads, fades and selection moves overlap: the order stays a
      permutation of the members, and between two moments at which the cursor is set to
      the start every place it has passed was claimed once, in turn. */
  lemma OverlapsStayOrdered(g: Group, steps: seq<Step>)
    requires g.id != 0 && |g.members| > 0
    ensures var w := Run(g, steps);
      && (w.s == NO_SESSION || multiset(w.s.order) == multiset(g.members))
      && w.s.pos <= |w.s.order| && InTurn(w)
  {
    RunConsistent(g, steps);
  }

  /** Of any number of presses that fired the same place, and of all their loads that
      finish, in whatever order, one claims it until the cursor is set to the start. */
  lemma OneClaimPerFire(g: Group, steps: seq<Step>, i: nat, j: nat)
    requires g.id != 0 && |g.members| > 0 && i < j < |Run(g, steps).claims|
    ensures var w := Run(g, steps); w.claims[i].Fire? && w.claims[j].Fire? && w.claims[i].idx < w.claims[j].idx < w.s.pos
  {
    RunConsistent(g, steps);
  }

  /** A press whose load failed never claims, so the member is tried again. */
  lemma FailedLoadRetries(s: Session, g: Group, current: int, bag: seq<int>, again: seq<int>)
    requires |g.members| > 0 && |bag| > 0 && |again| > 0 && Sound(s)
    requires Press(s, g, current, bag).decision.Fire?
    ensures Press(Press(s, g, current, bag).s, g, current, again) == Press(s, g, current, bag)
  {
    var r := Press(s, g, current, bag);
    assert Refreshed(r.s, g) == r.s;
    assert r.s.phase.Idle? && r.s.pos < |r.s.order|;
  }

  // ------------------------------------------------- the cue at its place

  /** d's cue is a member, and without shuffle the one at d's place. */
  predicate OfMembers(g: Group, d: Decision) {
    d.Fire? ==> d.idx < |g.members| && d.cue in g.members && (!g.shuffle ==> d.cue == g.members[d.idx])
  }

  ghost predicate AllOfMembers(g: Group, w: Busy) {
    && (forall d {:trigger w.loading[d]} :: d in w.loading ==> OfMembers(g, d))
    && forall i :: 0 <= i < |w.claims| ==> OfMembers(g, w.claims[i])
  }

  lemma LoadOfMembers(g: Group, w: Busy, d: Decision, loaded: bool)
    requires AllOfMembers(g, w) && d in w.loading
    ensures AllOfMembers(g, Next(g, w, if loaded then LoadDone(d) else LoadFailed(d)))
  {
    var t := Next(g, w, if loaded then LoadDone(d) else LoadFailed(d));
    TakeOut(w.loading, d);
    assert w.loading[d] > 0;
    assert t.claims == w.claims || t.claims == w.claims + [d];
  }

  lemma StepOfMembers(g: Group, w: Busy, st: Step)
    requires g.id != 0 && |g.members| > 0 && Consistent(g, w) && Enabled(g, w, st) && AllOfMembers(g, w)
    ensures AllOfMembers(g, Next(g, w, st))
  {
    match st
    case GoPressed(current, bag) => PressPlace(g, w.s, current, bag);
    case LoadDone(d) => LoadOfMembers(g, w, d, true);
    case LoadFailed(d) => LoadOfMembers(g, w, d, false);
    case _ => assert Next(g, w, st).loading == w.loading;
  }

  lemma {:induction false} RunOfMembers(g: Group, steps: seq<Step>)
    requires g.id != 0 && |g.members| > 0
    ensures AllOfMembers(g, Run(g, steps))
  {
    if |steps| > 0 {
      var init := steps[..|steps| - 1];
      RunOfMembers(g, init);
      RunConsistent(g, init);
      if Enabled(g, Run(g, init), steps[|steps| - 1]) { StepOfMembers(g, Run(g, init), steps[|steps| - 1]); }
    }
  }

  /** Every place claimed since the cursor was last at the start was claimed by a load of
      the cue that the order has there. */
  ghost predicate ClaimsRight(w: Busy) {
    forall i :: 0 <= i < |w.claims| ==> w.claims[i].Fire? && i < |w.s.order| && w.claims[i].cue == w.s.order[i]
  }

  predicate AllSame(members: seq<int>) {
    forall i, j :: 0 <= i < j < |members| ==> members[i] == members[j]
  }

  lemma PlainClaimsAreRight(g: Group, steps: seq<Step>)
    requires g.id != 0 && |g.members| > 0 && (!g.shuffle || AllSame(g.members))
    ensures ClaimsRight(Run(g, steps))
  {
    var w := Run(g, steps);
    RunConsistent(g, steps);
    RunOfMembers(g, steps);
    forall i | 0 <= i < |w.claims| ensures w.claims[i].Fire? && i < |w.s.order| && w.claims[i].cue == w.s.order[i] {
      OrderedIsMember(w.s.order, g.members, g.shuffle, i);
      assert OfMembers(g, w.claims[i]);
      if g.shuffle { SameMember(g.members, w.claims[i].cue, w.s.order[i]); }
    }
  }

  lemma SameMember(members: seq<int>, x: int, y: int)
    requires AllSame(members) && x in members && y in members
    ensures x == y
  {
    var i :| 0 <= i < |members| && members[i] == x;
    var j :| 0 <= j < |members| && members[j] == y;
  }

  lemma RunSnoc(g: Group, steps: seq<Step>, st: Step)
    requires |g.members| > 0
    ensures Run(g, steps + [st]) == if Enabled(g, Run(g, steps), st) then Next(g, Run(g, steps), st) else Run(g, steps)
  {
    assert (steps + [st])[..|steps|] == steps;
  }

  lemma FirstPress(g: Group, w: Busy, bag: seq<int>)
    requires g.id != 0 && |g.members| > 0 && IsOrder(bag, g.members, g.shuffle) && |bag| == |g.members| && w.s == NO_SESSION
    ensures Enabled(g, w, GoPressed(0, bag))
    ensures var t := Next(g, w, GoPressed(0, bag));
      t == Busy(Fresh(g).(order := bag), w.loading + multiset{Fire(0, bag[0])}, [])
  {
  }

  /** Two draws of the order that begin with different members. */
  ghost predicate Redrawn(g: Group, a: seq<int>, b: seq<int>) {
    && IsOrder(a, g.members, g.shuffle) && IsOrder(b, g.members, g.shuffle)
    && |a| == |b| == |g.members| > 0 && a[0] != b[0]
  }

  function Slow(a: seq<int>, b: seq<int>): seq<Step>
    requires |a| > 0
  {
    [GoPressed(0, a)] + [SelectionMoved(0)] + [GoPressed(0, b)] + [LoadDone(Fire(0, a[0]))]
  }

  lemma PressAndLeave(g: Group, a: seq<int>)
    requires g.id != 0 && IsOrder(a, g.members, g.shuffle) && |a| == |g.members| > 0
    ensures Run(g, [GoPressed(0, a)] + [SelectionMoved(0)]) == Busy(NO_SESSION, multiset{Fire(0, a[0])}, [])
  {
    assert [] + [GoPressed(0, a)] == [GoPressed(0, a)];
    RunSnoc(g, [], GoPressed(0, a));
    FirstPress(g, Run(g, []), a);
    RunSnoc(g, [GoPressed(0, a)], SelectionMoved(0));
  }

  /** A press, the selection leaves the group and comes back, a press that draws another
      order, and only then the first cue has loaded: it claims the place of another. */
  lemma SlowLoadClaimsAnotherPlace(g: Group, a: seq<int>, b: seq<int>)
    requires g.id != 0 && Redrawn(g, a, b)
    ensures var w := Run(g, Slow(a, b)); w.claims == [Fire(0, a[0])] && w.s.order == b && !ClaimsRight(w)
  {
    var d := Fire(0, a[0]);
    PressAndLeave(g, a);
    var left := Run(g, [GoPressed(0, a)] + [SelectionMoved(0)]);
    RunSnoc(g, [GoPressed(0, a)] + [SelectionMoved(0)], GoPressed(0, b));
    FirstPress(g, left, b);
    RunSnoc(g, [GoPressed(0, a)] + [SelectionMoved(0)] + [GoPressed(0, b)], LoadDone(d));
    var back := Run(g, [GoPressed(0, a)] + [SelectionMoved(0)] + [GoPressed(0, b)]);
    assert d in back.loading && back.s == Fresh(g).(order := b);
    assert Claim(back.s, g, 0, a[0]).pos == 1;
  }

  lemma FrontBag(members: seq<int>, k: nat) returns (bag: seq<int>)
    requires k < |members|
    ensures multiset(bag) == multiset(members) && |bag| == |members| && bag[0] == members[k]
  {
    bag := [members[k]] + (members[..k] + members[k + 1..]);
    assert members == members[..k] + [members[k]] + members[k + 1..];
  }

  /** Every claim of every run is by the cue that the order has at its place exactly when
      shuffle is off, or no two members differ. */
  lemma ClaimsRightIff(g: Group)
    requires g.id != 0 && |g.members| > 0
    ensures (forall steps :: ClaimsRight(Run(g, steps))) <==> !g.shuffle || AllSame(g.members)
  {
    if !g.shuffle || AllSame(g.members) {
      forall steps ensures ClaimsRight(Run(g, steps)) { PlainClaimsAreRight(g, steps); }
    } else {
      var i, j :| 0 <= i < j < |g.members| && g.members[i] != g.members[j];
      var a := FrontBag(g.members, i);
      var b := FrontBag(g.members, j);
      SlowLoadClaimsAnotherPlace(g, a, b);
    }
  }

  // ------------------------------------------------ the end of the order

  /** The press comes to fire and finds the cursor past the end of the order. */
  predicate FindsEnd(s: Session, g: Group, current: int, bag: seq<int>) {
    && |g.members| > 0
    && var a := Refreshed(s, g); var b := if |a.order| == 0 then a.(order := bag, pos := 0) else a;
      (b.phase.Idle? || (b.phase.Playing? && current != b.member)) && b.pos >= |b.order|
  }

  /** It then draws the order again and fires its first member. */
  lemma FindsEndStartsOver(s: Session, g: Group, current: int, bag: seq<int>)
    requires FindsEnd(s, g, current, bag) && |bag| > 0
    ensures Press(s, g, current, bag) == Pressed(Refreshed(s, g).(order := bag, pos := 0, phase := Idle), Fire(0, bag[0]))
  {
  }

  /** In every run, overlapping or not, a press finds the cursor past the end exactly when
      the last member was played and the engine is on something else by then: it ended by
      itself, or another cue was fired.  No reset is needed, raced or not, and it does not
      matter whether the group loops. */
  lemma FindsEndIff(g: Group, steps: seq<Step>, current: int, bag: seq<int>)
    requires g.id != 0 && |g.members| > 0 && IsOrder(bag, g.members, g.shuffle) && |bag| == |g.members|
    ensures var s := Run(g, steps).s;
      FindsEnd(s, g, current, bag) <==> s.phase.Playing? && s.pos == |g.members| && current != s.member
  {
    RunConsistent(g, steps);
  }

  // -------------------------------------------------------- one at a time

  /** Presses that do not overlap, on one group that keeps its members and flags:
      what the engine plays, what this pass has played, the passes completed. */
  datatype Show = Show(s: Session, current: int, played: seq<int>, passes: seq<seq<int>>)

  /** A press that starts a cue (loads or fails), a press that fades the playing
      cue out and lets the fade finish, the engine going on to another cue or, when one
      ends by itself, to none. */
  datatype Event = GoFire(bag: seq<int>, loads: bool) | GoFade(bag: seq<int>) | EngineTurns(now: int)

  ghost predicate Proper(g: Group, ev: Event) {
    ev.EngineTurns? || IsOrder(ev.bag, g.members, g.shuffle)
  }

  /** An order run out means the pass before it is complete. */
  function NewPass(w: Show, t: Session): Show {
    if t.order != [] && w.s.order != [] && w.s.pos >= |w.s.order| && t.pos == 0
    then w.(s := t, played := [], passes := w.passes + [w.played]) else w.(s := t)
  }

  function FireEvent(g: Group, w: Show, bag: seq<int>, loads: bool): Show
    requires |g.members| > 0 && |bag| > 0
  {
    var r := Press(w.s, g, w.current, bag);
    if !r.decision.Fire? then w
    else
      var v := NewPass(w, r.s);
      if loads then v.(s := Claim(r.s, g, r.decision.idx, r.decision.cue), current := r.decision.cue, played := v.played + [r.decision.cue])
      else v
  }

  /** The fade leaves the engine empty; at the end of the list the session loops or
      is over. */
  function FadeEvent(g: Group, w: Show, bag: seq<int>): Show
    requires |g.members| > 0 && |bag| > 0
  {
    var r := Press(w.s, g, w.current, bag);
    if !r.decision.FadeOut? then w
    else
      var t := AfterStop(r.s, g.id, r.decision.member, 0, true, g, bag);
      if t == NO_SESSION then Show(t, 0, [], w.passes + [w.played])
      else NewPass(w.(s := r.s), t).(current := 0)
  }

  function Happens(g: Group, w: Show, ev: Event): Show
    requires |g.members| > 0 && (ev.EngineTurns? || |ev.bag| > 0)
  {
    match ev
    case GoFire(bag, loads) => FireEvent(g, w, bag, loads)
    case GoFade(bag) => FadeEvent(g, w, bag)
    case EngineTurns(now) => w.(current := now)
  }

  /** What has been played in this pass is the order up to the cursor. */
  ghost predicate OnPass(g: Group, w: Show) {
    && (w.s == NO_SESSION || Refreshed(w.s, g) == w.s)
    && Sound(w.s)
    && !w.s.phase.Stopping?
    && (w.s.phase.Idle? && w.s.order != [] ==> w.s.pos < |w.s.order|)
    && w.played == w.s.order[..w.s.pos]
    && (w.s.phase.Playing? ==> w.s.pos > 0 && w.s.order[w.s.pos - 1] == w.s.member)
    && forall i :: 0 <= i < |w.passes| ==> multiset(w.passes[i]) == multiset(g.members)
  }

  /** The order goes on, or a new one starts where the last was played out. */
  lemma PressTurns(s: Session, g: Group, current: int, bag: seq<int>)
    requires |g.members| > 0 && |bag| == |g.members| && Sound(s) && (s == NO_SESSION || Refreshed(s, g) == s) && g.id != 0
    requires Press(s, g, current, bag).decision.Fire?
    ensures var t := Press(s, g, current, bag).s;
      && |t.order| > 0 && t.pos < |t.order| && t.phase.Idle? && t != NO_SESSION && Refreshed(t, g) == t
      && (if s.order != [] && s.pos < |s.order| then t.order == s.order && t.pos == s.pos else t.order == bag && t.pos == 0)
  {
  }

  lemma OnNewPass(g: Group, w: Show, t: Session)
    requires OnPass(g, w) && Sound(t) && t.phase.Idle? && Refreshed(t, g) == t && |t.order| > 0
    requires t.pos < |t.order| && (w.s == NO_SESSION || Refreshed(w.s, g) == w.s)
    requires if w.s.order != [] && w.s.pos < |w.s.order| then t.order == w.s.order && t.pos == w.s.pos else t.pos == 0
    requires w.s.order == [] || IsOrder(w.s.order, g.members, g.shuffle)
    ensures OnPass(g, NewPass(w, t)) && NewPass(w, t).s == t
  {
    if w.s.order != [] && w.s.pos >= |w.s.order| {
      assert w.s.order[..w.s.pos] == w.s.order;
    }
  }

  lemma ClaimOnPass(g: Group, v: Show, cue: int, idx: nat)
    requires OnPass(g, v) && v.s.phase.Idle? && v.s.group == g.id && idx == v.s.pos < |v.s.order| && cue == v.s.order[idx]
    requires Refreshed(v.s, g) == v.s
    ensures OnPass(g, v.(s := Claim(v.s, g, idx, cue), current := cue, played := v.played + [cue]))
  {
    assert v.s.order[..idx + 1] == v.s.order[..idx] + [v.s.order[idx]];
  }

  lemma FireKeepsPass(g: Group, w: Show, bag: seq<int>, loads: bool)
    requires g.id != 0 && |g.members| > 0 && OnPass(g, w) && IsOrder(bag, g.members, g.shuffle) && |bag| == |g.members|
    ensures OnPass(g, FireEvent(g, w, bag, loads))
  {
    var r := Press(w.s, g, w.current, bag);
    if r.decision.Fire? {
      PressSound(w.s, g, w.current, bag);
      PressFires(w.s, g, w.current, bag);
      PressTurns(w.s, g, w.current, bag);
      OnNewPass(g, w, r.s);
      ClaimOnPass(g, NewPass(w, r.s), r.decision.cue, r.decision.idx);
    }
  }

  lemma FadeKeepsPass(g: Group, w: Show, bag: seq<int>)
    requires g.id != 0 && |g.members| > 0 && OnPass(g, w) && IsOrder(bag, g.members, g.shuffle) && |bag| == |g.members|
    ensures OnPass(g, FadeEvent(g, w, bag))
  {
    var r := Press(w.s, g, w.current, bag);
    if r.decision.FadeOut? {
      assert r.s == w.s.(phase := Stopping);
      if w.s.pos >= |w.s.order| { assert w.s.order[..w.s.pos] == w.s.order; }
    }
  }

  /** Every event of a show keeps the account of the pass. */
  lemma HappensKeepsPass(g: Group, w: Show, ev: Event)
    requires g.id != 0 && |g.members| > 0 && OnPass(g, w) && Proper(g, ev) && (ev.EngineTurns? || |ev.bag| == |g.members|)
    ensures OnPass(g, Happens(g, w, ev))
  {
    match ev
    case GoFire(bag, loads) => FireKeepsPass(g, w, bag, loads);
    case GoFade(bag) => FadeKeepsPass(g, w, bag);
    case EngineTurns(_) =>
  }

  ghost predicate AllProper(g: Group, events: seq<Event>) {
    forall i :: 0 <= i < |events| ==> Proper(g, events[i]) && (events[i].EngineTurns? || |events[i].bag| == |g.members|)
  }

  ghost function After(g: Group, events: seq<Event>): Show
    requires |g.members| > 0 && AllProper(g, events)
  {
    if |events| == 0 then Show(NO_SESSION, 0, [], [])
    else Happens(g, After(g, events[..|events| - 1]), events[|events| - 1])
  }

  lemma {:induction false} ShowKeepsPass(g: Group, events: seq<Event>)
    requires g.id != 0 && |g.members| > 0 && AllProper(g, events)
    ensures OnPass(g, After(g, events))
  {
    if |events| > 0 {
      ShowKeepsPass(g, events[..|events| - 1]);
      HappensKeepsPass(g, After(g, events[..|events| - 1]), events[|events| - 1]);
    }
  }

  /** With presses one at a time, however loads fail and cues end by themselves,
      every completed pass has played each member exactly once, shuffled or not. */
  lemma EveryPassPlaysEachOnce(g: Group, events: seq<Event>, i: nat)
    requires g.id != 0 && |g.members| > 0 && AllProper(g, events) && i < |After(g, events).passes|
    ensures multiset(After(g, events).passes[i]) == multiset(g.members)
  {
    ShowKeepsPass(g, events);
  }

  /** Without any overlap too: the next press finds the end exactly when the last member
      of the pass was played and the engine is on something else. */
  lemma LastEndingAloneIff(g: Group, events: seq<Event>, bag: seq<int>)
    requires g.id != 0 && |g.members| > 0 && AllProper(g, events) && IsOrder(bag, g.members, g.shuffle) && |bag| == |g.members|
    ensures var w := After(g, events);
      FindsEnd(w.s, g, w.current, bag) <==> w.s.phase.Playing? && w.s.pos == |g.members| && w.current != w.s.member
  {
    ShowKeepsPass(g, events);
    PassFindsEnd(g, After(g, events), bag);
  }

  lemma PassFindsEnd(g: Group, w: Show, bag: seq<int>)
    requires g.id != 0 && |g.members| == |bag| > 0 && OnPass(g, w)
    ensures FindsEnd(w.s, g, w.current, bag) <==> w.s.phase.Playing? && w.s.pos == |g.members| && w.current != w.s.member
  {
    if w.s.order != [] { assert |multiset(w.s.order)| == |w.s.order| && |multiset(w.s.members)| == |w.s.members|; }
  }

  lemma OneMore(g: Group, events: seq<Event>, ev: Event)
    requires |g.members| > 0 && AllProper(g, events) && Proper(g, ev) && (ev.EngineTurns? || |ev.bag| == |g.members|)
    ensures AllProper(g, events + [ev]) && After(g, events + [ev]) == Happens(g, After(g, events), ev)
  {
    assert (events + [ev])[..|events|] == events;
  }

  /** Every group gets there: each member played and ended by itself, k of them. */
  lemma {:induction false} PlayedAlone(g: Group, bag: seq<int>, k: nat) returns (events: seq<Event>)
    requires g.id != 0 && 0 < k <= |g.members| == |bag| && IsOrder(bag, g.members, g.shuffle)
    ensures AllProper(g, events)
    ensures var w := After(g, events); w.s.phase.Playing? && w.s.order == bag && w.s.pos == k && w.current != w.s.member
  {
    if k == 1 {
      events := [];
    } else {
      events := PlayedAlone(g, bag, k - 1);
    }
    ShowKeepsPass(g, events);
    var w := After(g, events);
    OneMore(g, events, GoFire(bag, true));
    FireNext(g, w, bag);
    var fired := After(g, events + [GoFire(bag, true)]);
    OneMore(g, events + [GoFire(bag, true)], EngineTurns(fired.s.member + 1));
    events := events + [GoFire(bag, true)] + [EngineTurns(fired.s.member + 1)];
  }

  lemma FireNext(g: Group, w: Show, bag: seq<int>)
    requires g.id != 0 && |g.members| == |bag| > 0 && OnPass(g, w) && IsOrder(bag, g.members, g.shuffle)
    requires w.s == NO_SESSION || (w.s.phase.Playing? && w.s.order == bag && w.s.pos < |bag| && w.current != w.s.member)
    ensures var t := FireEvent(g, w, bag, true); t.s.phase.Playing? && t.s.order == bag && t.s.pos == w.s.pos + 1
  {
  }

  /** Only a fade of the last member leaves the group, or goes round when it loops. */
  lemma LastFadeLeaves(s: Session, g: Group, bag: seq<int>)
    requires Refreshed(s, g) == s && s.phase.Playing? && s.pos == |s.order| > 0 && |g.members| > 0 && |bag| > 0
    ensures AfterStop(Press(s, g, s.member, bag).s, g.id, s.member, 0, true, g, bag) ==
      if g.loop then s.(order := bag, pos := 0, phase := Idle) else NO_SESSION
  {
  }

  // ------------------------------------------------------------- the object

  class Desk {
    var st: Session

    constructor ()
      ensures st == NO_SESSION
    {
      st := NO_SESSION;
    }

    /** sameInts. */
    method SameInts(a: seq<int>, b: seq<int>) returns (same: bool)
      ensures same <==> a == b
    {
      if |a| != |b| { return false; }
      for i := 0 to |a|
        invariant a[..i] == b[..i]
      {
        if a[i] != b[i] { return false; }
        assert a[..i + 1] == a[..i] + [a[i]] && b[..i + 1] == b[..i] + [b[i]];
      }
      assert a[..|a|] == a && b[..|b|] == b;
      return true;
    }

    /** awardsGO up to the load. */
    method Go(g: Group, current: int, bag: seq<int>) returns (decision: Decision)
      requires |g.members| > 0 ==> |bag| > 0
      modifies this
      ensures Pressed(st, decision) == Press(old(st), g, current, bag)
    {
      var same := SameInts(st.members, g.members);
      if st.group != g.id || !same || st.shuffle != g.shuffle || st.loop != g.loop { st := Fresh(g); }
      if |g.members| == 0 { return Ignored; }
      if |st.order| == 0 { st := st.(order := bag, pos := 0); }
      if st.phase.Stopping? { return Ignored; }
      if st.phase.Playing? {
        if current == st.member {
          st := st.(phase := Stopping);
          return FadeOut(st.member);
        }
        st := st.(phase := Idle);
      }
      if st.pos >= |st.order| { st := st.(order := bag, pos := 0); }
      return Fire(st.pos, st.order[st.pos]);
    }

    /** awardsGO after the load. */
    method Loaded(g: Group, idx: nat, cue: int)
      modifies this
      ensures st == Claim(old(st), g, idx, cue)
    {
      if st.group == g.id && st.phase.Idle? && st.pos == idx {
        st := st.(phase := Playing, member := cue);
        st := st.(pos := st.pos + 1);
      }
    }

    /** awardsAfterStop; out is whether the selection steps out of the group. */
    method Stopped(group: int, member: int, current: int, found: bool, g: Group, bag: seq<int>) returns (out: bool)
      modifies this
      ensures st == AfterStop(old(st), group, member, current, found, g, bag)
      ensures out ==> st == NO_SESSION && old(st).pos >= |old(st).order| && !g.loop && current == 0
    {
      if st.group != group || !st.phase.Stopping? || st.member != member { return false; }
      if current != 0 || !found {
        st := NO_SESSION;
        return false;
      }
      if st.pos < |st.order| {
        st := st.(phase := Idle);
        return false;
      }
      if g.loop {
        st := st.(order := bag, pos := 0, phase := Idle);
        return false;
      }
      st := NO_SESSION;
      return true;
    }

    method Left(selected: int)
      modifies this
      ensures st == SelectionLeft(old(st), selected)
    {
      if st.group != 0 && st.group != selected { st := NO_SESSION; }
    }
  }
}
