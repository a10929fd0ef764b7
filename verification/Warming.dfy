/** The generation counter (gsp/gsp.go): a next cue prepared under an old decision
    is never installed under a newer one. */
module Warming {
  import opened Transport
  import opened Playback
  import opened FireLog

  /** The steps that are playback decisions, when they act on anything. */
  predicate Decides(s: Sys, st: Step) {
    match st
    case Swap(_, _, _, _) => true
    case StopLock => true
    case Clear(p) => p != 0 && s.m.focus.p == p
    case PanicLock => s.m.focus.p != 0
    case StopOne(cuePos, _) => cuePos > 0 && s.m.focus.p != 0 && s.m.focus.cuePos == cuePos
    case _ => false
  }

  /** What a step did to the counters and the log: a decision moves the generation, an
      install moves loads and the log, and nothing else moves either. */
  ghost predicate Counts(s: Sys, t: Sys, decides: bool, installs: nat) {
    && t.m.gen == s.m.gen + (if decides then 1 else 0)
    && t.m.loads == s.m.loads + installs
    && |t.log| == |s.log| + installs
  }

  lemma ClearCounts(s: Sys, p: int)
    ensures Counts(s, Next(s, Clear(p)), Decides(s, Clear(p)), 0)
  {
    PromotedCounters(s.m.(focus := Cleared(s.m.focus).(p := 0), gen := s.m.gen + 1));
  }

  lemma StopCounts(s: Sys, cuePos: int, fade: bool)
    ensures Counts(s, Next(s, StopOne(cuePos, fade)), Decides(s, StopOne(cuePos, fade)), 0)
  {
    PromotedCounters(s.m.(focus := NO_CLIP, gen := s.m.gen + 1));
  }

  lemma SwapCounts(s: Sys, st: Step)
    requires st.Swap?
    ensures Counts(s, Next(s, st), true, 1)
  {
  }

  lemma SectionCounts(s: Sys, st: Step)
    requires IsSection(st)
    ensures Counts(s, Next(s, st), Decides(s, st), 0)
  {
    match st
    case Clear(p) => ClearCounts(s, p);
    case StopOne(cuePos, fade) => StopCounts(s, cuePos, fade);
    case Fail(p) => assert VoiceDropped(s.m, p).m.gen == s.m.gen;
    case End(p) => assert VoiceEnded(s.m, p).m.gen == s.m.gen;
    case StopVoices(fade) =>
    case PanicLock =>
    case StopLock =>
  }

  /** The other steps: by hand, on the slots, or on the flags of running cues. */
  lemma QuietCounts(s: Sys, st: Step)
    requires !IsSection(st) && !st.Swap?
    ensures Counts(s, Next(s, st), false, 0)
  {
    if IsHand(st) { HandLeavesManager(s, st); }
  }

  lemma StepCounts(s: Sys, st: Step)
    ensures Counts(s, Next(s, st), Decides(s, st), if st.Swap? then 1 else 0)
  {
    if IsSection(st) {
      SectionCounts(s, st);
    } else if st.Swap? {
      SwapCounts(s, st);
    } else {
      QuietCounts(s, st);
    }
  }

  /** The generation moves with every decision and with nothing else. */
  lemma GenMovesIff(s: Sys, st: Step)
    ensures Next(s, st).m.gen == s.m.gen + if Decides(s, st) then 1 else 0
  {
    StepCounts(s, st);
  }

  lemma PromotedCounters(m: Manager)
    ensures Promoted(m).gen == m.gen && Promoted(m).loads == m.loads && Promoted(m).fireSeq == m.fireSeq && Promoted(m).warm == m.warm
  {
  }

  ghost predicate DecidedIn(s: Sys, steps: seq<Step>) {
    exists k :: 0 <= k < |steps| && Taken(s, steps, k)
  }

  ghost predicate Taken(s: Sys, steps: seq<Step>, k: nat)
    requires k < |steps|
  {
    var w := Run(s, steps[..k]); Enabled(w, steps[k]) && Decides(w, steps[k])
  }

  lemma {:induction false} GenOverRun(s: Sys, steps: seq<Step>)
    ensures Run(s, steps).m.gen >= s.m.gen
    ensures Run(s, steps).m.gen == s.m.gen <==> !DecidedIn(s, steps)
  {
    if |steps| > 0 {
      var init := steps[..|steps| - 1];
      GenOverRun(s, init);
      GenMovesIff(Run(s, init), steps[|steps| - 1]);
      DecidedSnoc(s, steps);
    }
  }

  lemma DecidedSnoc(s: Sys, steps: seq<Step>)
    requires |steps| > 0
    ensures DecidedIn(s, steps) <==> DecidedIn(s, steps[..|steps| - 1]) || Taken(s, steps, |steps| - 1)
  {
    var init := steps[..|steps| - 1];
    forall k | 0 <= k < |init| ensures Taken(s, init, k) <==> Taken(s, steps, k) {
      assert init[..k] == steps[..k];
    }
    if DecidedIn(s, init) {
      var k :| 0 <= k < |init| && Taken(s, init, k);
      assert Taken(s, steps, k);
    }
  }

  /** A build started under generation s.m.gen goes into the warm slot exactly when
      no decision was taken since; otherwise it is retired and the slot is left as
      it is. */
  lemma StaleBuildNeverInstalled(s: Sys, steps: seq<Step>, p: int, file: string, o: Opts)
    requires Conserved(s) && p in Run(s, steps).held
    ensures var w := Run(s, steps); var t := Next(w, PutWarm(p, file, o, s.m.gen));
      if DecidedIn(s, steps) then t.m == w.m && p in t.doomed else t.m.warm == Slot(p, file, o)
  {
    GenOverRun(s, steps);
  }

  /** loads counts the installs: the swaps, and nothing else. */
  lemma {:induction false} LoadsCountFires(steps: seq<Step>)
    ensures Run(START, steps).m.loads == |Run(START, steps).log|
  {
    if |steps| > 0 {
      var init := steps[..|steps| - 1];
      LoadsCountFires(init);
      StepCounts(Run(START, init), steps[|steps| - 1]);
    }
  }

  lemma UndecidedSection(s: Sys, st: Step)
    requires IsSection(st) && !Decides(s, st) && s.m.focus.p != 0
    ensures Next(s, st).m.focus.p == s.m.focus.p
  {
  }

  lemma UndecidedQuiet(s: Sys, st: Step)
    requires Enabled(s, st) && !IsSection(st) && !st.Swap?
    ensures Next(s, st).m.focus.p == s.m.focus.p
  {
    if IsHand(st) {
      HandLeavesManager(s, st);
    } else if st.Note? {
      NoteIsTouch(s, st.k);
    } else if !st.Touch? {
      WarmLeavesCues(s, st);
    }
  }

  lemma UndecidedFocus(s: Sys, st: Step)
    requires Enabled(s, st) && !Decides(s, st) && s.m.focus.p != 0
    ensures Next(s, st).m.focus.p == s.m.focus.p
  {
    if IsSection(st) { UndecidedSection(s, st); } else { UndecidedQuiet(s, st); }
  }

  /** The hold handleEnd writes last falls on the clip that ended whenever no playback
      decision was taken since that end. */
  lemma {:induction false} HoldFallsOnItsOwn(s: Sys, p: int, steps: seq<Step>)
    requires p != 0 && EndSection(s.m, p).act == Hold && !DecidedIn(Next(s, Note(Counted(p))), steps)
    ensures var t := Next(Run(Next(s, Note(Counted(p))), steps), Note(MarkHeld)); t.m.focus.p == p && t.m.focus.heldEnd
  {
    var a := Next(s, Note(Counted(p)));
    if |steps| > 0 {
      var init := steps[..|steps| - 1];
      DecidedSnoc(a, steps);
      HoldFallsOnItsOwn(s, p, init);
      var w := Run(a, init);
      if Enabled(w, steps[|steps| - 1]) { UndecidedFocus(w, steps[|steps| - 1]); }
    }
  }

  /** In every interleaving the hold written last by the end of clip p falls on p exactly
      when p still runs, no cue fired after it does, and there is a focus at all: a clip
      demoted in between and promoted back gets its own hold too. */
  lemma HoldFallsOnItsOwnIff(steps: seq<Step>, p: int)
    requires p != 0
    ensures var s := Run(START, steps); var t := Next(s, Note(MarkHeld));
      (t.m.focus.p == p && t.m.focus.heldEnd && t.m.focus.paused) <==> s.m.focus.p != 0 && Runs(s.m, p) && NoneNewer(s, p)
  {
    FocusIff(steps, p);
  }
}
