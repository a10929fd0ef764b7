/** The playback manager against a simple log (gsp/gsp.go, gsp/voices.go): the
    focus is always the most recently fired cue still running. */
module FireLog {
  import opened Util
  import opened Transport
  import opened Playback

  ghost predicate RunningAs(m: Manager, p: int, fired: nat) {
    (m.focus.p == p && p != 0 && m.focus.fired == fired) || InVoices(m.voices, p, fired)
  }

  ghost predicate InVoices(voices: seq<Clip>, p: int, fired: nat) {
    exists i :: 0 <= i < |voices| && voices[i].p == p && voices[i].fired == fired
  }

  /** The log lists every pipeline ever fired, once, in fire order; a running cue's
      fire number is its place in it; what was fired is never idle again. */
  ghost predicate Logged(s: Sys) {
    && |s.log| == s.m.fireSeq
    && Distinct(s.log)
    && (forall p, f: nat {:trigger RunningAs(s.m, p, f)} :: RunningAs(s.m, p, f) ==> 1 <= f <= |s.log| && s.log[f - 1] == p)
    && forall i :: 0 <= i < |s.log| ==> s.log[i] in s.built && Spent(s, s.log[i])
  }

  /** Not waiting anywhere to be started. */
  ghost predicate Spent(s: Sys, p: int) {
    p !in s.held && s.m.warm.p != p && s.standby.p != p
  }

  ghost predicate Sound(s: Sys) {
    Conserved(s) && FireOrder(s.m) && Logged(s)
  }

  /** A section that fires nothing: every cue running after it was running before. */
  ghost predicate Shrinks(m: Manager, r: Manager) {
    && r.fireSeq == m.fireSeq
    && (r.warm.p == m.warm.p || r.warm.p == 0)
    && forall p, f: nat {:trigger RunningAs(r, p, f)} :: RunningAs(r, p, f) ==> RunningAs(m, p, f)
  }

  lemma VoiceStays(voices: seq<Clip>, i: nat, p: int, f: nat)
    requires i < |voices| && InVoices(Without(voices, i), p, f)
    ensures InVoices(voices, p, f)
  {
    var w := Without(voices, i);
    var k :| 0 <= k < |w| && w[k].p == p && w[k].fired == f;
    assert voices[if k < i then k else k + 1] == w[k];
  }

  lemma WithoutShrinks(m: Manager, i: nat)
    requires i < |m.voices|
    ensures Shrinks(m, m.(voices := Without(m.voices, i)))
  {
    forall p, f | RunningAs(m.(voices := Without(m.voices, i)), p, f) ensures RunningAs(m, p, f) {
      if InVoices(Without(m.voices, i), p, f) { VoiceStays(m.voices, i, p, f); }
    }
  }

  lemma PromotedShrinks(m: Manager)
    ensures Shrinks(m, Promoted(m))
  {
    if m.focus.p == 0 && |m.voices| > 0 {
      var best := Newest(m.voices);
      forall p, f | RunningAs(Promoted(m), p, f) ensures RunningAs(m, p, f) {
        if InVoices(Without(m.voices, best), p, f) {
          VoiceStays(m.voices, best, p, f);
        } else {
          assert m.voices[best].p == p && m.voices[best].fired == f;
        }
      }
    }
  }

  lemma ShrinksTrans(a: Manager, b: Manager, c: Manager)
    requires Shrinks(a, b) && Shrinks(b, c)
    ensures Shrinks(a, c)
  {
  }

  lemma ClearShrinks(m: Manager, p: int)
    ensures Shrinks(m, FocusCleared(m, p).m)
  {
    if p != 0 && m.focus.p == p {
      var b := m.(focus := Cleared(m.focus).(p := 0), gen := m.gen + 1);
      PromotedShrinks(b);
      ShrinksTrans(m, b, Promoted(b));
    }
  }

  lemma DropShrinks(m: Manager, p: int)
    ensures Shrinks(m, VoiceDropped(m, p).m)
  {
    if VoiceIndex(m.voices, p) >= 0 { WithoutShrinks(m, VoiceIndex(m.voices, p)); }
  }

  lemma RelabelShrinks(m: Manager, focus: Clip, voices: seq<Clip>)
    requires SameCues(m, focus, voices)
    ensures Shrinks(m, m.(focus := focus, voices := voices))
  {
    forall p, f | InVoices(voices, p, f) ensures InVoices(m.voices, p, f) {
      var k :| 0 <= k < |voices| && voices[k].p == p && voices[k].fired == f;
      assert m.voices[k].p == p;
    }
  }

  lemma EndShrinks(m: Manager, p: int)
    ensures Shrinks(m, VoiceEnded(m, p).m)
  {
    var i := VoiceIndex(m.voices, p);
    if i >= 0 {
      match EndOf(m.voices[i])
      case Stays(v) => RelabelShrinks(m, m.focus, m.voices[i := v]);
      case Leaves => WithoutShrinks(m, i);
    }
  }

  lemma StopCueShrinks(m: Manager, cuePos: int, fade: bool)
    ensures Shrinks(m, CueStopped(m, cuePos, fade).m)
  {
    if cuePos > 0 && m.focus.p != 0 && m.focus.cuePos == cuePos {
      var b := m.(focus := NO_CLIP, gen := m.gen + 1);
      PromotedShrinks(b);
      assert Shrinks(m, b);
    } else if LastVoiceOf(m.voices, cuePos) >= 0 {
      WithoutShrinks(m, LastVoiceOf(m.voices, cuePos));
    }
  }

  lemma HaltsShrink(m: Manager, fade: bool)
    ensures Shrinks(m, VoicesStopped(m, fade).m) && Shrinks(m, Panicked(m).m) && Shrinks(m, StopForgot(m).m) && Shrinks(m, WarmTaken(m))
  {
  }

  predicate IsSection(st: Step) {
    st.Clear? || st.Fail? || st.End? || st.StopOne? || st.StopVoices? || st.PanicLock? || st.StopLock?
  }

  lemma SectionShrinks(s: Sys, st: Step)
    requires IsSection(st)
    ensures Shrinks(s.m, Next(s, st).m)
  {
    match st
    case Clear(p) => ClearShrinks(s.m, p);
    case Fail(p) => DropShrinks(s.m, p);
    case End(p) => EndShrinks(s.m, p);
    case StopOne(cuePos, fade) => StopCueShrinks(s.m, cuePos, fade);
    case StopVoices(fade) => HaltsShrink(s.m, fade);
    case PanicLock => HaltsShrink(s.m, false);
    case StopLock => HaltsShrink(s.m, false);
  }

  lemma SectionOrder(s: Sys, st: Step)
    requires FireOrder(s.m) && IsSection(st)
    ensures FireOrder(Next(s, st).m)
  {
    match st
    case Clear(p) => ClearOrder(s.m, p);
    case Fail(p) => Transport.DropOrder(s.m, p);
    case End(p) => EndOrder(s.m, p);
    case StopOne(cuePos, fade) => StopCueOrder(s.m, cuePos, fade);
    case StopVoices(fade) => HaltsOrder(s.m, fade);
    case PanicLock => HaltsOrder(s.m, false);
    case StopLock => HaltsOrder(s.m, false);
  }

  /** The log is untouched, nothing new runs, nothing fired became idle. */
  lemma ShrunkLogged(s: Sys, t: Sys)
    requires Logged(s) && Shrinks(s.m, t.m) && t.log == s.log && s.built <= t.built
    requires forall p :: p in s.built && Spent(s, p) ==> Spent(t, p)
    ensures Logged(t)
  {
  }

  lemma SectionLogged(s: Sys, st: Step)
    requires Logged(s) && IsSection(st) && 0 !in s.built
    ensures Logged(Next(s, st))
  {
    SectionShrinks(s, st);
    ShrunkLogged(s, Next(s, st));
  }

  lemma SwapSpendsOne(s: Sys, st: Step, x: int)
    requires st.Swap? && x != 0 && s.standby.p != x
    requires x !in s.held - multiset{st.p}
    ensures Spent(Next(s, st), x)
  {
  }

  lemma SwapSpends(s: Sys, st: Step)
    requires Sound(s) && Enabled(s, st) && st.Swap?
    ensures var t := Next(s, st);
      forall i :: 0 <= i < |t.log| ==> t.log[i] in s.built && Spent(t, t.log[i])
  {
    HeldIsFree(s, st.p);
    HeldOnce(s, st.p);
    forall i | 0 <= i < |Next(s, st).log|
      ensures Next(s, st).log[i] in s.built && Spent(Next(s, st), Next(s, st).log[i])
    {
      if i < |s.log| { assert Spent(s, s.log[i]); }
      SwapSpendsOne(s, st, Next(s, st).log[i]);
    }
  }

  lemma SwapLog(s: Sys, st: Step)
    requires Sound(s) && Enabled(s, st) && st.Swap?
    ensures var t := Next(s, st); t.log == s.log + [st.p] && t.built == s.built && Distinct(t.log) && |t.log| == t.m.fireSeq
  {
    HeldNotLogged(s, st.p);
  }

  lemma HeldOnce(s: Sys, p: int)
    requires Conserved(s) && p in s.held
    ensures p in s.built && p !in s.held - multiset{p}
  {
    OnceEach(s, p);
    assert p in Total(s);
  }

  lemma SwapLogged(s: Sys, st: Step)
    requires Sound(s) && Enabled(s, st) && st.Swap?
    ensures Logged(Next(s, st)) && FireOrder(Next(s, st).m)
  {
    var t := Next(s, st);
    HeldIsFree(s, st.p);
    SwapOrder(s.m, st.p, st.o, st.keep, st.layered);
    SwapSpends(s, st);
    SwapLog(s, st);
    forall p, f: nat | RunningAs(t.m, p, f) ensures 1 <= f <= |t.log| && t.log[f - 1] == p {
      SwapRuns(s.m, st.p, st.o, st.keep, st.layered, p, f);
    }
  }

  /** After a swap: the new cue, and what ran before. */
  lemma SwapRuns(m: Manager, q: int, o: Opts, keep: bool, layered: set<int>, p: int, f: nat)
    requires q != 0 && m.focus.p != q && RunningAs(Swapped(m, q, o, keep, layered).m, p, f)
    ensures (p == q && f == m.fireSeq + 1) || RunningAs(m, p, f)
  {
    var r := Swapped(m, q, o, keep, layered).m;
    if InVoices(r.voices, p, f) {
      var k :| 0 <= k < |r.voices| && r.voices[k].p == p && r.voices[k].fired == f;
      if k < |m.voices| { assert m.voices[k] == r.voices[k]; }
    }
  }

  lemma HeldNotLogged(s: Sys, p: int)
    requires Sound(s) && p in s.held
    ensures forall i :: 0 <= i < |s.log| ==> s.log[i] != p
  {
    forall i | 0 <= i < |s.log| ensures s.log[i] != p { assert Spent(s, s.log[i]); }
  }

  predicate IsHand(st: Step) {
    st.Build? || st.Discard? || st.ArmTake? || st.ArmPut? || st.ArmGiveUp? || st.ClaimStandby? || st.Retire? || st.StartFade? || st.EndFade?
  }

  lemma HandLeavesManager(s: Sys, st: Step)
    requires IsHand(st)
    ensures Next(s, st).m == s.m
  {
  }

  lemma WarmLeavesCues(s: Sys, st: Step)
    requires st.DropWarm? || st.ClaimWarm? || st.WarmError? || st.PutWarm? || st.Halt?
    ensures var r := Next(s, st).m; r.focus == s.m.focus && r.voices == s.m.voices && r.fireSeq == s.m.fireSeq
  {
  }

  lemma OtherStepShrinks(s: Sys, st: Step)
    requires FireOrder(s.m) && Enabled(s, st) && !IsSection(st) && !st.Swap?
    ensures FireOrder(Next(s, st).m) && Next(s, st).m.fireSeq == s.m.fireSeq
    ensures forall p, f: nat {:trigger RunningAs(Next(s, st).m, p, f)} :: RunningAs(Next(s, st).m, p, f) ==> RunningAs(s.m, p, f)
  {
    if IsHand(st) {
      HandLeavesManager(s, st);
    } else if st.Touch? {
      RelabelShrinks(s.m, st.focus, st.voices);
    } else if st.Note? {
      NoteIsTouch(s, st.k);
      RelabelShrinks(s.m, Marked(s.m, st.k).focus, s.m.voices);
    } else {
      WarmLeavesCues(s, st);
    }
  }

  lemma SlotSpends(s: Sys, st: Step, p: int)
    requires st.DropWarm? || st.ClaimWarm? || st.WarmError? || st.Touch? || st.Note? || st.Halt?
    requires Spent(s, p) && p != 0
    ensures Spent(Next(s, st), p)
  {
    assert p !in Opt(s.m.warm.p);
  }

  lemma PutSpends(s: Sys, st: Step, p: int)
    requires st.PutWarm? && p != st.p && Spent(s, p)
    ensures Spent(Next(s, st), p)
  {
  }

  lemma HandSpends(s: Sys, st: Step, p: int)
    requires IsHand(st) && Enabled(s, st) && (st.ArmPut? ==> p != st.p)
    requires Spent(s, p) && p in s.built && p != 0
    ensures Spent(Next(s, st), p)
  {
  }

  lemma OtherLog(s: Sys, st: Step)
    requires !st.Swap?
    ensures Next(s, st).log == s.log && s.built <= Next(s, st).built
  {
  }

  lemma OtherStepSpends(s: Sys, st: Step)
    requires Sound(s) && Enabled(s, st) && !IsSection(st) && !st.Swap?
    ensures forall i :: 0 <= i < |s.log| ==> Spent(Next(s, st), s.log[i])
  {
    if st.PutWarm? || st.ArmPut? { HeldNotLogged(s, st.p); }
    forall i | 0 <= i < |s.log| ensures Spent(Next(s, st), s.log[i]) {
      assert Spent(s, s.log[i]) && s.log[i] in s.built;
      if IsHand(st) {
        HandSpends(s, st, s.log[i]);
      } else if st.PutWarm? {
        PutSpends(s, st, s.log[i]);
      } else {
        SlotSpends(s, st, s.log[i]);
      }
    }
  }

  lemma OtherStepSound(s: Sys, st: Step)
    requires Sound(s) && Enabled(s, st) && !IsSection(st) && !st.Swap?
    ensures FireOrder(Next(s, st).m) && Logged(Next(s, st))
  {
    OtherStepShrinks(s, st);
    OtherStepSpends(s, st);
    OtherLog(s, st);
  }

  /** Every step of every operation keeps the log's account. */
  lemma StepSound(s: Sys, st: Step)
    requires Sound(s) && Enabled(s, st)
    ensures Sound(Next(s, st))
  {
    StepConserves(s, st);
    if IsSection(st) {
      SectionOrder(s, st);
      SectionLogged(s, st);
    } else if st.Swap? {
      SwapLogged(s, st);
    } else {
      OtherStepSound(s, st);
    }
  }

  lemma StartSound()
    ensures Sound(START)
  {
    assert Total(START) == multiset(START.built);
  }

  lemma {:induction false} RunSound(steps: seq<Step>)
    ensures Sound(Run(START, steps))
  {
    if |steps| == 0 {
      StartSound();
    } else {
      RunSound(steps[..|steps| - 1]);
      var before := Run(START, steps[..|steps| - 1]);
      if Enabled(before, steps[|steps| - 1]) { StepSound(before, steps[|steps| - 1]); }
    }
  }

  /** The focus is the entry of the log its number says, and nothing fired later runs. */
  ghost predicate FocusLeads(s: Sys) {
    s.m.focus.p != 0 ==>
      && 1 <= s.m.focus.fired <= |s.log| && s.log[s.m.focus.fired - 1] == s.m.focus.p
      && forall i :: s.m.focus.fired <= i < |s.log| ==> s.log[i] !in Owned(s.m)
  }

  /** In every interleaving, whenever a focus exists no cue fired after it is still
      running: it is the newest entry of the log that runs. */
  lemma FocusIsNewest(steps: seq<Step>)
    ensures FocusLeads(Run(START, steps))
  {
    RunSound(steps);
    SoundLeads(Run(START, steps));
  }

  lemma SoundLeads(s: Sys)
    requires Sound(s)
    ensures FocusLeads(s)
  {
    if s.m.focus.p != 0 {
      assert RunningAs(s.m, s.m.focus.p, s.m.focus.fired);
      forall i | s.m.focus.fired <= i < |s.log| ensures s.log[i] !in Owned(s.m) {
        if s.log[i] in Owned(s.m) { NewestIn(s, i); }
      }
    }
  }

  lemma NewestIn(s: Sys, i: nat)
    requires Sound(s) && s.m.focus.p != 0 && i < |s.log| && s.log[i] in Owned(s.m)
    ensures 1 <= s.m.focus.fired <= |s.log| && s.log[s.m.focus.fired - 1] == s.m.focus.p && i <= s.m.focus.fired - 1
  {
    assert RunningAs(s.m, s.m.focus.p, s.m.focus.fired);
    assert Spent(s, s.log[i]);
    if s.log[i] != s.m.focus.p {
      var k := OwnedIsVoice(s.m, s.log[i]);
      assert InVoices(s.m.voices, s.log[i], s.m.voices[k].fired);
      assert RunningAs(s.m, s.log[i], s.m.voices[k].fired);
    }
  }

  lemma OwnedIsVoice(m: Manager, p: int) returns (k: nat)
    requires p in Owned(m) && p != m.focus.p && p != m.warm.p
    ensures k < |m.voices| && m.voices[k].p == p
  {
    assert p in Pipes(m.voices);
    assert p in PipelinesOf(m.voices);
    k :| 0 <= k < |PipelinesOf(m.voices)| && PipelinesOf(m.voices)[k] == p;
  }

  /** p is the focus or a voice. */
  ghost predicate Runs(m: Manager, p: int) {
    p != 0 && (m.focus.p == p || exists i :: 0 <= i < |m.voices| && m.voices[i].p == p)
  }

  /** p is in the log and no cue fired after it runs. */
  ghost predicate NoneNewer(s: Sys, p: int) {
    exists k :: 0 <= k < |s.log| && s.log[k] == p && forall i :: k < i < |s.log| ==> !Runs(s.m, s.log[i])
  }

  lemma RunsOwned(m: Manager, p: int)
    requires Runs(m, p)
    ensures p in Owned(m)
  {
    if m.focus.p != p {
      var i :| 0 <= i < |m.voices| && m.voices[i].p == p;
      assert PipelinesOf(m.voices)[i] in Pipes(m.voices);
    }
  }

  lemma NewestIff(s: Sys, p: int)
    requires Sound(s) && p != 0
    ensures s.m.focus.p == p <==> s.m.focus.p != 0 && Runs(s.m, p) && NoneNewer(s, p)
  {
    SoundLeads(s);
    if s.m.focus.p == p {
      var k := s.m.focus.fired - 1;
      forall i | k < i < |s.log| ensures !Runs(s.m, s.log[i]) {
        if Runs(s.m, s.log[i]) { RunsOwned(s.m, s.log[i]); }
      }
    } else if s.m.focus.p != 0 && Runs(s.m, p) {
      RunsOwned(s.m, p);
      forall k | 0 <= k < |s.log| && s.log[k] == p ensures exists i :: k < i < |s.log| && Runs(s.m, s.log[i]) {
        NewestIn(s, k);
        assert Runs(s.m, s.log[s.m.focus.fired - 1]);
      }
    }
  }

  /** In every interleaving a cue is the focus exactly when there is one, the cue runs, and
      no cue fired after it does. */
  lemma FocusIff(steps: seq<Step>, p: int)
    requires p != 0
    ensures var s := Run(START, steps); s.m.focus.p == p <==> s.m.focus.p != 0 && Runs(s.m, p) && NoneNewer(s, p)
  {
    RunSound(steps);
    NewestIff(Run(START, steps), p);
  }

  // -------------------------------------------------- voices without a focus

  lemma RemovalStepFocus(s: Sys, st: Step)
    requires NoNil(s.m) && HasFocus(s.m) && (st.Clear? || st.Fail? || st.End?)
    ensures HasFocus(Next(s, st).m)
  {
    RemovalFocus(s.m, st.p);
  }

  lemma StopStepFocus(s: Sys, st: Step)
    requires NoNil(s.m) && HasFocus(s.m) && (st.StopOne? || st.StopVoices? || st.StopLock?)
    ensures HasFocus(Next(s, st).m)
  {
    match st
    case StopOne(cuePos, fade) => StopFocus(s.m, cuePos, fade);
    case StopVoices(fade) => StopFocus(s.m, 0, fade);
    case StopLock => StopFocus(s.m, 0, false);
  }

  lemma SectionFocus(s: Sys, st: Step)
    requires NoNil(s.m) && HasFocus(s.m) && IsSection(st)
    ensures HasFocus(Next(s, st).m) <==> !(st.PanicLock? && |s.m.voices| > 0)
  {
    if st.PanicLock? {
      PanicKeepsFocusIff(s.m);
    } else if st.Clear? || st.Fail? || st.End? {
      RemovalStepFocus(s, st);
    } else {
      StopStepFocus(s, st);
    }
  }

  lemma QuietStepFocus(s: Sys, st: Step)
    requires HasFocus(s.m) && Enabled(s, st) && !IsSection(st) && !st.Swap?
    ensures HasFocus(Next(s, st).m)
  {
    if IsHand(st) {
      HandLeavesManager(s, st);
    } else if st.Note? {
      NoteIsTouch(s, st.k);
    } else if !st.Touch? {
      WarmLeavesCues(s, st);
    }
  }

  lemma SwapStepFocus(s: Sys, st: Step)
    requires Conserved(s) && Enabled(s, st) && st.Swap?
    ensures HasFocus(Next(s, st).m)
  {
    HeldIsFree(s, st.p);
    SwapFocus(s.m, st.p, st.o, st.keep, st.layered);
  }

  /** The only step that can leave voices without a focus is Panic's own section,
      and it does exactly when voices have appeared since Panic took them. */
  lemma FocusLostIff(s: Sys, st: Step)
    requires Conserved(s) && HasFocus(s.m) && Enabled(s, st)
    ensures HasFocus(Next(s, st).m) <==> !(st.PanicLock? && |s.m.voices| > 0)
  {
    if IsSection(st) {
      SectionFocus(s, st);
    } else if st.Swap? {
      SwapStepFocus(s, st);
    } else {
      QuietStepFocus(s, st);
    }
  }

  /** It happens: a cue that keeps the others running is fired between Panic's two
      sections, and the cue it demoted plays on with no focus above it. */
  lemma PanicRace(a: int, b: int, o: Opts)
    requires 0 < a < b
    ensures var s := Run(START, [Build(a), Swap(a, o, false, {}), StopVoices(false), Build(b), Swap(b, o, true, {}), PanicLock]);
      s.m.focus.p == 0 && |s.m.voices| == 1 && s.m.voices[0].p == a
  {
    var r4 := [Build(a), Swap(a, o, false, {}), StopVoices(false), Build(b)];
    SecondBuilt(a, b, o);
    RunSnoc(START, r4, Swap(b, o, true, {}));
    RunSnoc(START, r4 + [Swap(b, o, true, {})], PanicLock);
    assert r4 + [Swap(b, o, true, {})] + [PanicLock]
      == [Build(a), Swap(a, o, false, {}), StopVoices(false), Build(b), Swap(b, o, true, {}), PanicLock];
    JoinThenPanic(Run(START, r4), b, o);
  }

  lemma SecondBuilt(a: int, b: int, o: Opts)
    requires 0 < a < b
    ensures var s := Run(START, [Build(a), Swap(a, o, false, {}), StopVoices(false), Build(b)]);
      s.m.focus.p == a && |s.m.voices| == 0 && b in s.held
  {
    var r2 := [Build(a), Swap(a, o, false, {})];
    FirstCue(a, o);
    RunSnoc(START, r2, StopVoices(false));
    RunSnoc(START, r2 + [StopVoices(false)], Build(b));
    assert r2 + [StopVoices(false)] + [Build(b)] == [Build(a), Swap(a, o, false, {}), StopVoices(false), Build(b)];
  }

  lemma FirstCue(a: int, o: Opts)
    requires 0 < a
    ensures var s := Run(START, [Build(a), Swap(a, o, false, {})]);
      s.m.focus.p == a && |s.m.voices| == 0 && s.built == {a}
  {
    RunSnoc(START, [], Build(a));
    RunSnoc(START, [Build(a)], Swap(a, o, false, {}));
    assert [] + [Build(a)] == [Build(a)] && [Build(a)] + [Swap(a, o, false, {})] == [Build(a), Swap(a, o, false, {})];
  }

  lemma JoinThenPanic(s: Sys, b: int, o: Opts)
    requires s.m.focus.p != 0 && s.m.focus.p != b && b != 0 && |s.m.voices| == 0
    ensures var t := Next(Next(s, Swap(b, o, true, {})), PanicLock);
      t.m.focus.p == 0 && |t.m.voices| == 1 && t.m.voices[0].p == s.m.focus.p
  {
  }

  lemma RunSnoc(s: Sys, steps: seq<Step>, st: Step)
    ensures Run(s, steps + [st]) == (var before := Run(s, steps); if Enabled(before, st) then Next(before, st) else before)
  {
    assert (steps + [st])[..|steps|] == steps;
  }
}
