/** What one press of GO does in the Awards session (routes/awards.go): it fades out the
    member that plays, is ignored while one fades, and otherwise fires the next member. */
module AwardsPress {
  import opened Awards

  /** The session is of the group as this press reads it. */
  predicate SameShow(s: Session, g: Group) {
    s.group == g.id && s.members == g.members && s.shuffle == g.shuffle && s.loop == g.loop
  }

  /** A member plays, and the engine is still on it. */
  predicate OnMember(s: Session, g: Group, current: int) {
    SameShow(s, g) && s.phase.Playing? && current == s.member
  }

  /** Members of the order are left to fire. */
  predicate MoreToFire(s: Session, g: Group) {
    SameShow(s, g) && s.pos < |s.order|
  }

  /** A press fades out exactly when a member plays and the engine is on it, and that
      member; order and cursor stay. */
  lemma FadesIff(s: Session, g: Group, current: int, bag: seq<int>)
    requires |g.members| > 0 ==> |bag| > 0
    ensures var r := Press(s, g, current, bag);
      && (r.decision.FadeOut? <==> |g.members| > 0 && OnMember(s, g, current))
      && (r.decision.FadeOut? ==> r.decision.member == current && r.s.phase.Stopping? && r.s.member == current)
      && (r.decision.FadeOut? && s.order != [] ==> r.s == s.(phase := Stopping))
  {
  }

  /** It is ignored exactly when a fade is under way or the group is empty. */
  lemma IgnoredIff(s: Session, g: Group, current: int, bag: seq<int>)
    requires |g.members| > 0 ==> |bag| > 0
    ensures var r := Press(s, g, current, bag);
      && (r.decision.Ignored? <==> |g.members| == 0 || (SameShow(s, g) && s.phase.Stopping?))
      && (r.decision.Ignored? && SameShow(s, g) && (s.order != [] || g.members == []) ==> r.s == s)
      && (!SameShow(s, g) && g.members == [] ==> SameShow(r.s, g) && r.s.order == [] && r.s.pos == 0 && r.s.phase.Idle?)
  {
  }

  /** Otherwise it fires: the member under the cursor, or the first of a new order when
      the session is new or its order is used up. */
  lemma FiresNext(s: Session, g: Group, current: int, bag: seq<int>)
    requires |g.members| > 0 && |bag| > 0 && !OnMember(s, g, current) && !(SameShow(s, g) && s.phase.Stopping?)
    ensures var r := Press(s, g, current, bag);
      if MoreToFire(s, g) then r.decision == Fire(s.pos, s.order[s.pos]) && r.s == s.(phase := Idle)
      else r.decision == Fire(0, bag[0]) && SameShow(r.s, g) && r.s.order == bag && r.s.pos == 0 && r.s.phase.Idle?
  {
  }

  // -------------------------------------------------------------- every run

  lemma RunSnoc(g: Group, steps: seq<Step>, st: Step)
    requires |g.members| > 0 && Enabled(g, Run(g, steps), st)
    ensures Run(g, steps + [st]) == Next(g, Run(g, steps), st)
  {
    assert (steps + [st])[..|steps|] == steps;
  }

  /** However presses, loads, fades and selection moves overlapped before it: a press fades
      out the member that plays when the engine is on it, leaving order, cursor and the
      loads under way alone; does nothing during a fade; and otherwise loads the member
      under the cursor. */
  lemma PressInRun(g: Group, steps: seq<Step>, current: int, bag: seq<int>)
    requires g.id != 0 && |g.members| > 0 && IsOrder(bag, g.members, g.shuffle) && |bag| == |g.members|
    ensures var w, t := Run(g, steps), Run(g, steps + [GoPressed(current, bag)]);
      && (w.s.phase.Playing? && current == w.s.member ==> t == w.(s := w.s.(phase := Stopping)))
      && (w.s.phase.Stopping? ==> t == w)
      && (!w.s.phase.Stopping? && !(w.s.phase.Playing? && current == w.s.member) ==>
            var more := w.s.order != [] && w.s.pos < |w.s.order|;
            t.s.phase.Idle? && t.loading == w.loading + multiset{if more then Fire(w.s.pos, w.s.order[w.s.pos]) else Fire(0, bag[0])}
            && (if more then t.s == w.s.(phase := Idle) else t.s.order == bag && t.s.pos == 0))
  {
    var w := Run(g, steps);
    RunConsistent(g, steps);
    RunSnoc(g, steps, GoPressed(current, bag));
    FadesIff(w.s, g, current, bag);
    IgnoredIff(w.s, g, current, bag);
    if !w.s.phase.Stopping? && !(w.s.phase.Playing? && current == w.s.member) { FiresNext(w.s, g, current, bag); }
  }

  /** Once the fade is done with nothing else on the engine and members left, the session
      waits at the next of them, and the next press fires it. */
  lemma FadeThenNext(g: Group, steps: seq<Step>, bag: seq<int>, again: seq<int>, current: int, third: seq<int>)
    requires g.id != 0 && |g.members| > 0 && |bag| == |again| == |g.members| && |third| > 0
    requires IsOrder(bag, g.members, g.shuffle) && IsOrder(again, g.members, g.shuffle)
    requires var s := Run(g, steps).s; s.phase.Playing? && s.pos < |s.order|
    ensures var s := Run(g, steps).s;
      var t := Run(g, steps + [GoPressed(s.member, bag)] + [FadeDone(s.member, 0, true, again)]).s;
      t == s.(phase := Idle) && Press(t, g, current, third).decision == Fire(s.pos, s.order[s.pos])
  {
    var w := Run(g, steps);
    RunConsistent(g, steps);
    PressInRun(g, steps, w.s.member, bag);
    RunSnoc(g, steps + [GoPressed(w.s.member, bag)], FadeDone(w.s.member, 0, true, again));
    FiresNext(w.s.(phase := Idle), g, current, third);
  }

  /** With something else on the engine by then, or the group gone, the session is over. */
  lemma FadeOvertaken(g: Group, steps: seq<Step>, bag: seq<int>, again: seq<int>, current: int, found: bool)
    requires g.id != 0 && |g.members| > 0 && |bag| == |again| == |g.members| && (current != 0 || !found)
    requires IsOrder(bag, g.members, g.shuffle) && IsOrder(again, g.members, g.shuffle) && Run(g, steps).s.phase.Playing?
    ensures var s := Run(g, steps).s;
      Run(g, steps + [GoPressed(s.member, bag)] + [FadeDone(s.member, current, found, again)]).s == NO_SESSION
  {
    var w := Run(g, steps);
    RunConsistent(g, steps);
    PressInRun(g, steps, w.s.member, bag);
    RunSnoc(g, steps + [GoPressed(w.s.member, bag)], FadeDone(w.s.member, current, found, again));
  }

  /** A load that finishes while the session still waits at its place makes its cue the
      member that plays; any other load changes nothing but its own end. */
  lemma LoadPlays(g: Group, steps: seq<Step>, d: Decision)
    requires g.id != 0 && |g.members| > 0 && d in Run(g, steps).loading && d.Fire?
    ensures var w, t := Run(g, steps), Run(g, steps + [LoadDone(d)]);
      && t.loading == w.loading - multiset{d}
      && t.s == if w.s != NO_SESSION && w.s.phase.Idle? && w.s.pos == d.idx
                then w.s.(phase := Playing, member := d.cue, pos := d.idx + 1) else w.s
  {
    RunConsistent(g, steps);
    RunSnoc(g, steps, LoadDone(d));
  }
}
