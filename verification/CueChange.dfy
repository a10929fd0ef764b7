/** What each section of the playback manager does to the running cues (gsp/gsp.go,
    gsp/voices.go): who fades and who is cut when a cue is fired, how the new cue starts
    and on which layer, and what becomes of a clip that ends or is stopped. */
module CueChange {
  import opened Transport

  ghost predicate Runs(m: Manager, q: int) {
    q != 0 && (m.focus.p == q || exists i :: 0 <= i < |m.voices| && m.voices[i].p == q)
  }

  // ---------------------------------------------------------- a cue is fired

  predicate FadesOver(o: Opts, layered: set<int>, q: int) {
    q in layered && (o.crossfade > 0 || o.live)
  }

  lemma {:induction false} FadingIff(cs: seq<Clip>, fade: bool, layered: set<int>, q: int)
    ensures q in Fading(cs, fade, layered) <==> (fade && q in layered && exists i :: 0 <= i < |cs| && cs[i].p == q)
    ensures q in Cut(cs, fade, layered) <==> (!(fade && q in layered) && exists i :: 0 <= i < |cs| && cs[i].p == q)
  {
    if |cs| > 0 {
      var init, last := cs[..|cs| - 1], cs[|cs| - 1];
      FadingIff(init, fade, layered, q);
      assert (exists i :: 0 <= i < |cs| && cs[i].p == q) <==> last.p == q || exists i :: 0 <= i < |init| && init[i].p == q by {
        if i :| 0 <= i < |init| && init[i].p == q { assert cs[i].p == q; }
        if i :| 0 <= i < |cs| && cs[i].p == q { assert i < |init| ==> init[i].p == q; }
      }
    }
  }

  lemma StoppingIff(m: Manager, p: int, q: int)
    requires NoNil(m) && m.focus.p != p
    ensures (exists i :: 0 <= i < |Stopping(m, p)| && Stopping(m, p)[i].p == q) <==> Runs(m, q)
  {
    var cs := Stopping(m, p);
    if Runs(m, q) {
      if m.focus.p == q { assert cs[|m.voices|].p == q; }
      else { var i :| 0 <= i < |m.voices| && m.voices[i].p == q; assert cs[i].p == q; }
    }
    if i :| 0 <= i < |cs| && cs[i].p == q { assert i < |m.voices| ==> m.voices[i].p == q; }
  }

  /** A cue that replaces the others fades a running clip exactly when the clip has a layer
      and the new cue crossfades or is a live page; it cuts every other running clip, and
      gives up the warm slot. */
  lemma ReplacedFadeIff(m: Manager, p: int, o: Opts, layered: set<int>, q: int)
    requires NoNil(m) && m.focus.p != p
    ensures var r := Swapped(m, p, o, false, layered);
      && (q in r.fade <==> Runs(m, q) && FadesOver(o, layered, q))
      && (q in r.retire <==> (q != 0 && q == m.warm.p) || (Runs(m, q) && !FadesOver(o, layered, q)))
  {
    FadingIff(Stopping(m, p), o.crossfade > 0 || o.live, layered, q);
    StoppingIff(m, p, q);
  }

  /** The new focus starts with its options and nothing of the cue before it, and the fire
      is counted once everywhere. */
  lemma FiredAsAsked(m: Manager, p: int, o: Opts, keep: bool, layered: set<int>)
    ensures var t := Swapped(m, p, o, keep, layered).m;
      && t.focus == Clip(p, o.cuePos, t.fireSeq, o.live, o.hold, o.loop, o.loopCount, false, false, true, t.focus.layerAt, t.focus.layerRef)
      && t.fireSeq == m.fireSeq + 1 && t.gen == m.gen + 1 && t.loads == m.loads + 1 && t.halts == m.halts && t.warm == NO_SLOT
  {
  }

  /** Clip i of the running ones plays the cue named, and none after it does. */
  ghost predicate LastPlays(cs: seq<Clip>, under: int, i: nat) {
    i < |cs| && cs[i].p != 0 && cs[i].cuePos == under && forall k :: i < k < |cs| ==> cs[k].p == 0 || cs[k].cuePos != under
  }

  ghost predicate CueRuns(cs: seq<Clip>, under: int) {
    exists i :: 0 <= i < |cs| && cs[i].p != 0 && cs[i].cuePos == under
  }

  lemma {:induction false} PlayingLast(cs: seq<Clip>, p: int, under: int) returns (i: nat)
    requires under > 0 && CueRuns(cs, under) && forall k :: 0 <= k < |cs| ==> cs[k].p != p
    ensures LastPlays(cs, under, i) && Playing(cs, p, under) == cs[i].p
  {
    var last := cs[|cs| - 1];
    if last.p != 0 && last.cuePos == under {
      i := |cs| - 1;
    } else {
      var init := cs[..|cs| - 1];
      var j :| 0 <= j < |cs| && cs[j].p != 0 && cs[j].cuePos == under;
      assert init[j] == cs[j];
      i := PlayingLast(init, p, under);
    }
  }

  lemma {:induction false} PlayingNone(cs: seq<Clip>, p: int, under: int)
    requires under <= 0 || !CueRuns(cs, under)
    ensures Playing(cs, p, under) == 0
  {
    if |cs| > 0 {
      var init := cs[..|cs| - 1];
      forall j | 0 <= j < |init| ensures init[j] == cs[j] {}
      PlayingNone(init, p, under);
    }
  }

  /** Its layer: at the bottom when it replaces the others; when it joins them where it was
      asked to, beneath the last running clip of the cue named, or on top when that cue is
      not running. */
  lemma PlacedAsAsked(m: Manager, p: int, o: Opts, keep: bool, layered: set<int>)
    requires p != 0 && !Runs(m, p)
    ensures var f, cs := Swapped(m, p, o, keep, layered).m.focus, [m.focus] + m.voices;
      && (!keep ==> f.layerAt.AtBottom? && f.layerRef == 0)
      && (keep && !o.layer.Beneath? ==> f.layerAt == o.layer && f.layerRef == 0)
      && (keep && o.layer.Beneath? && !(o.under > 0 && CueRuns(cs, o.under)) ==> f.layerAt.OnTop? && f.layerRef == 0)
      && (keep && o.layer.Beneath? && o.under > 0 && CueRuns(cs, o.under) ==>
            f.layerAt.Beneath? && exists i: nat :: LastPlays(cs, o.under, i) && cs[i].p == f.layerRef)
  {
    var cs := [m.focus] + m.voices;
    if keep && o.layer.Beneath? {
      if o.under > 0 && CueRuns(cs, o.under) {
        forall k | 0 <= k < |cs| ensures cs[k].p != p { assert k > 0 ==> cs[k] == m.voices[k - 1]; }
        var i := PlayingLast(cs, p, o.under);
      } else {
        PlayingNone(cs, p, o.under);
      }
    }
  }

  // ------------------------------------------------------------- a clip ends

  /** Passes of its loop are left; 0 counts as endless. */
  predicate LoopsOn(c: Clip) {
    c.loop && !c.live && (c.loopRemain == 0 || c.loopRemain > 1)
  }

  predicate ParksAtEnd(c: Clip) {
    c.hold && !c.live && !LoopsOn(c)
  }

  /** c as it is after the end of a pass that is not the last. */
  function Again(c: Clip): Clip {
    c.(loopRemain := if c.loopRemain == 0 then 0 else c.loopRemain - 1)
  }

  /** One clip is taken out of the running ones and retired. */
  ghost predicate Retired(m: Manager, o: Outcome, c: Clip) {
    Running(m) == Running(o.m) + multiset{c} && o.retire == [c.p] && o.fade == []
  }

  lemma ClearedGone(m: Manager, p: int)
    requires NoNil(m) && p != 0 && m.focus.p == p
    ensures var o := FocusCleared(m, p); Running(o.m) == multiset(m.voices) && o.retire == [p] && o.fade == [] && o.m.gen == m.gen + 1
  {
    var cleared := m.(focus := Cleared(m.focus).(p := 0), gen := m.gen + 1);
    PromotedRuns(cleared);
    assert Running(cleared) == multiset{} + multiset(m.voices);
  }

  /** At its end the focus goes round again while passes are left, is parked on its last
      frame when it holds, and is otherwise retired, as a page is that ends; the other
      running clips run on as they were. */
  lemma FocusEndMeans(m: Manager, p: int)
    requires NoNil(m) && p != 0 && m.focus.p == p && forall i :: 0 <= i < |m.voices| ==> m.voices[i].p != p
    ensures var f, o := m.focus, FocusEnded(m, p);
      if LoopsOn(f) then o == Outcome(m.(focus := Again(f).(paused := false)), [], [])
      else if ParksAtEnd(f) then
        o == Outcome(m.(focus := f.(loopRemain := if f.loop then 0 else f.loopRemain, paused := true, heldEnd := true)), [], [])
      else o.retire == [p] && o.fade == [] && o.m.gen == m.gen + 1 && Running(o.m) == multiset(m.voices)
  {
    if !LoopsOn(m.focus) && !ParksAtEnd(m.focus) { ClearedGone(EndSection(m, p).m, p); }
  }

  lemma VoiceGone(m: Manager, i: nat)
    requires i < |m.voices|
    ensures var t := m.(voices := Without(m.voices, i)); Running(m) == Running(t) + multiset{m.voices[i]}
  {
    WithoutRuns(m.voices, i);
  }

  /** The end of a voice, the same. */
  lemma VoiceEndMeans(m: Manager, p: int, i: nat)
    requires VoiceIndex(m.voices, p) == i
    ensures var v, o := m.voices[i], VoiceEnded(m, p);
      if LoopsOn(v) then o == Outcome(m.(voices := m.voices[i := Again(v)]), [], [])
      else if ParksAtEnd(v) then
        o == Outcome(m.(voices := m.voices[i := v.(loopRemain := if v.loop then 0 else v.loopRemain, paused := true, heldEnd := true)]), [], [])
      else Retired(m, o, v) && o.m.focus == m.focus
  {
    VoiceGone(m, i);
  }

  /** A voice that fails is retired, whatever it is, and the focus is left alone. */
  lemma FailureMeans(m: Manager, p: int, i: nat)
    requires VoiceIndex(m.voices, p) == i
    ensures Retired(m, VoiceDropped(m, p), m.voices[i]) && VoiceDropped(m, p).m.focus == m.focus
    ensures PageLost(m, p) == VoiceDropped(m, p)
  {
    VoiceGone(m, i);
  }

  /** With no such voice: a page that is lost as focus is retired, and any other report
      changes nothing. */
  lemma LossMeans(m: Manager, p: int)
    requires NoNil(m) && p != 0 && forall i :: 0 <= i < |m.voices| ==> m.voices[i].p != p
    ensures VoiceDropped(m, p) == Outcome(m, [], [])
    ensures var o := PageLost(m, p);
      if m.focus.p == p && m.focus.live then o.retire == [p] && o.fade == [] && Running(o.m) == multiset(m.voices) else o == Outcome(m, [], [])
  {
    if m.focus.p == p { ClearedGone(m, p); }
  }

  // --------------------------------------------------- stop, pause, warm up

  /** StopCue takes the focus when it plays the cue, and otherwise the last voice that does. */
  lemma StopsWhich(m: Manager, cuePos: int, fade: bool, i: nat)
    requires NoNil(m) && cuePos > 0
    ensures m.focus.p != 0 && m.focus.cuePos == cuePos ==> TakesOut(m, CueStopped(m, cuePos, fade), m.focus, fade)
    ensures (m.focus.p == 0 || m.focus.cuePos != cuePos) && LastPlays(m.voices, cuePos, i) ==>
      TakesOut(m, CueStopped(m, cuePos, fade), m.voices[i], fade) && CueStopped(m, cuePos, fade).m.focus == m.focus
  {
    if m.focus.p != 0 && m.focus.cuePos == cuePos {
      StopsFocus(m, cuePos, fade);
    } else if LastPlays(m.voices, cuePos, i) {
      LastVoiceIs(m.voices, cuePos, i);
      StopsVoice(m, cuePos, fade, i);
    }
  }

  lemma {:induction false} LastVoiceIs(voices: seq<Clip>, cuePos: int, i: nat)
    requires LastPlays(voices, cuePos, i) && forall k :: 0 <= k < |voices| ==> voices[k].p != 0
    ensures LastVoiceOf(voices, cuePos) == i
  {
    if i < |voices| - 1 {
      var init := voices[..|voices| - 1];
      assert forall k :: 0 <= k < |init| ==> init[k] == voices[k];
      LastVoiceIs(init, cuePos, i);
    }
  }

  ghost predicate ArePipelines(ps: seq<int>, cs: seq<Clip>) {
    |ps| == |cs| && forall i :: 0 <= i < |cs| ==> ps[i] == cs[i].p
  }

  /** All voices go, all of them faded or all of them cut; the focus is left alone. */
  lemma AllVoicesGo(m: Manager, fade: bool)
    ensures var o := VoicesStopped(m, fade);
      && o.m == m.(voices := [])
      && ArePipelines(if fade then o.fade else o.retire, m.voices) && (if fade then o.retire else o.fade) == []
  {
  }

  /** After Panic's section no cue is the focus and nothing is warm, and those two are cut;
      after Stop's last section the stopped pipeline is still the focus, of no cue. */
  lemma HaltMeans(m: Manager)
    ensures var o := Panicked(m);
      && o.m.focus.p == 0 && o.m.focus.cuePos == 0 && !o.m.focus.live && o.m.warm == NO_SLOT && o.m.voices == m.voices
      && o.m.halts == m.halts + 1 && o.m.gen == (if m.focus.p != 0 then m.gen + 1 else m.gen) && o.fade == []
      && forall q :: q in o.retire <==> q != 0 && (q == m.focus.p || q == m.warm.p)
    ensures var o := StopForgot(m);
      && o.m.focus.p == m.focus.p && o.m.focus.cuePos == 0 && !o.m.focus.live && o.m.warm == NO_SLOT && o.m.voices == m.voices
      && o.m.halts == m.halts && o.m.gen == m.gen + 1 && o.fade == []
      && forall q :: q in o.retire <==> q != 0 && q == m.warm.p
  {
  }

  /** Play lets the focus run again, parked on its last frame or not, unless there is none
      or it is still starting; the voices it wakes are those parked nowhere. */
  lemma PlayWakes(m: Manager, i: nat)
    requires i < |m.voices|
    ensures Played(m) == if m.focus.p != 0 && !m.focus.starting then m.(focus := m.focus.(paused := false, heldEnd := false)) else m
    ensures AllPaused(m.voices)[i] == m.voices[i].(paused := true)
    ensures AllResumed(m.voices)[i] == if m.voices[i].heldEnd then m.voices[i] else m.voices[i].(paused := false)
  {
  }

  /** Pausing goes to the voices that were playing, and resuming to those paused elsewhere
      than on their last frame. */
  lemma {:induction false} PausedIff(voices: seq<Clip>, q: int)
    ensures q in PipelinesOf(Unpaused(voices)) <==> exists i :: 0 <= i < |voices| && voices[i].p == q && !voices[i].paused
    ensures q in PipelinesOf(Resumable(voices)) <==> exists i :: 0 <= i < |voices| && voices[i].p == q && voices[i].paused && !voices[i].heldEnd
  {
    if |voices| > 0 {
      var init, last := voices[..|voices| - 1], voices[|voices| - 1];
      PausedIff(init, q);
      assert voices == init + [last];
      PipesOfSnoc(Unpaused(init), last);
      PipesOfSnoc(Resumable(init), last);
      LastOr(init, last, q);
    }
  }

  lemma PipesOfSnoc(cs: seq<Clip>, c: Clip)
    ensures PipelinesOf(cs + [c]) == PipelinesOf(cs) + [c.p] && PipelinesOf(cs + []) == PipelinesOf(cs)
  {
    assert (cs + [c])[..|cs|] == cs && cs + [] == cs;
  }

  lemma LastOr(init: seq<Clip>, last: Clip, q: int)
    ensures var cs := init + [last];
      && ((exists i :: 0 <= i < |cs| && cs[i].p == q && !cs[i].paused) <==>
            (last.p == q && !last.paused) || exists i :: 0 <= i < |init| && init[i].p == q && !init[i].paused)
      && ((exists i :: 0 <= i < |cs| && cs[i].p == q && cs[i].paused && !cs[i].heldEnd) <==>
            (last.p == q && last.paused && !last.heldEnd) || exists i :: 0 <= i < |init| && init[i].p == q && init[i].paused && !init[i].heldEnd)
  {
    var cs := init + [last];
    assert cs[|init|] == last && forall i :: 0 <= i < |init| ==> cs[i] == init[i];
  }

  /** A build put in the warm slot is claimed by a fire of the same file with the same
      options and by no other; a build that came too late goes straight back. */
  lemma ClaimedBackIff(m: Manager, p: int, file: string, o: Opts, buildGen: nat, asked: string, opts: Opts)
    ensures var r := WarmPut(m, p, file, o, buildGen);
      && (m.gen != buildGen ==> r == Outcome(m, [p], []))
      && (m.gen == buildGen ==> r.m.warm.p == p && r.m == m.(warm := r.m.warm) && r.fade == [])
      && (m.gen == buildGen ==> (WarmMatches(r.m, asked, opts) <==> asked == file && opts == o))
      && (m.gen == buildGen ==> forall q :: q in r.retire <==> q != 0 && q == m.warm.p)
  {
  }
}
