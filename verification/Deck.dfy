/** The manager as an object (gsp/gsp.go, gsp/voices.go): each method is one
    section under its mutex and returns what the caller tears down or fades after
    unlocking.  Each is proved to be the function of module Transport whose
    ownership and ordering laws hold in every interleaving. */
module Deck {
  import opened Transport

  class Deck {
    var clip: Clip
    var voices: seq<Clip>
    var warm: Slot
    var gen: nat
    var halts: nat
    var loads: nat
    var fireSeq: nat

    function Now(): Manager
      reads this
    {
      Manager(clip, voices, warm, gen, halts, loads, fireSeq)
    }

    constructor ()
      ensures Now() == Manager(NO_CLIP, [], NO_SLOT, 0, 0, 0, 0)
    {
      clip, voices, warm := NO_CLIP, [], NO_SLOT;
      gen, halts, loads, fireSeq := 0, 0, 0, 0;
    }

    /** clipOfLocked, as an index: -1 the focus, 0.. a voice, |voices| not running. */
    method ClipOf(p: int) returns (i: int)
      ensures -1 <= i <= |voices|
      ensures i == -1 <==> p != 0 && clip.p == p
      ensures 0 <= i < |voices| ==> p != 0 && voices[i].p == p
      ensures i == |voices| ==> p == 0 || (clip.p != p && forall k :: 0 <= k < |voices| ==> voices[k].p != p)
    {
      if p == 0 { return |voices|; }
      if clip.p == p { return -1; }
      i := IndexOfVoice(p);
      if i < 0 { i := |voices|; }
    }

    method IndexOfVoice(p: int) returns (i: int)
      ensures i == VoiceIndex(voices, p)
    {
      for k := 0 to |voices|
        invariant forall m :: 0 <= m < k ==> voices[m].p != p
      {
        if voices[k].p == p { return k; }
      }
      return -1;
    }

    method Demote()
      modifies this
      ensures Now() == Demoted(old(Now()))
    {
      voices := voices + [clip];
      clip := NO_CLIP;
    }

    method Promote() returns (promoted: bool)
      modifies this
      ensures Now() == Promoted(old(Now()))
      ensures promoted <==> old(clip.p) == 0 && |old(voices)| > 0
    {
      if clip.p != 0 || |voices| == 0 { return false; }
      var best := 0;
      for i := 1 to |voices|
        invariant best == Newest(voices[..i])
      {
        assert voices[..i + 1][..i] == voices[..i];
        if voices[i].fired > voices[best].fired { best := i; }
      }
      assert voices[..|voices|] == voices;
      clip := voices[best];
      voices := voices[..best] + voices[best + 1..];
      return true;
    }

    method TakeWarm() returns (p: int)
      modifies this`warm
      ensures p == old(warm.p) && Now() == WarmTaken(old(Now()))
    {
      p := warm.p;
      warm := NO_SLOT;
    }

    method TakeVoices() returns (vs: seq<Clip>)
      modifies this`voices
      ensures vs == old(voices) && voices == []
    {
      vs := voices;
      voices := [];
    }

    /** The loop over the clips that stop: fade the layered ones, cut the rest. */
    method Part(stopping: seq<Clip>, fade: bool, layered: set<int>) returns (cut: seq<int>, outs: seq<int>)
      ensures cut == Cut(stopping, fade, layered) && outs == Fading(stopping, fade, layered)
    {
      cut, outs := [], [];
      for i := 0 to |stopping|
        invariant cut == Cut(stopping[..i], fade, layered) && outs == Fading(stopping[..i], fade, layered)
      {
        assert stopping[..i + 1][..i] == stopping[..i];
        if fade && stopping[i].p in layered {
          outs := outs + [stopping[i].p];
        } else {
          cut := cut + [stopping[i].p];
        }
      }
      assert stopping[..|stopping|] == stopping;
    }

    /** swap without KeepOthers: every running cue stops. */
    method StopOthers(p: int, fade: bool, layered: set<int>) returns (cut: seq<int>, outs: seq<int>)
      modifies this`voices
      ensures voices == []
      ensures cut == Cut(Stopping(old(Now()), p), fade, layered) && outs == Fading(Stopping(old(Now()), p), fade, layered)
    {
      ghost var was := Now();
      var stopping := TakeVoices();
      if clip.p != 0 && clip.p != p { stopping := stopping + [clip]; }
      assert stopping == Stopping(was, p);
      cut, outs := Part(stopping, fade, layered);
    }

    /** swap's choice of the new layer's place. */
    method ChoosePlace(p: int, o: Opts, keep: bool) returns (at: Place, ref: int)
      ensures (at, ref) == PlaceOf(Now(), p, o, keep)
    {
      at, ref := AtBottom, 0;
      if keep {
        at := o.layer;
        if at == Beneath {
          var cs := [clip] + voices;
          for i := 0 to |cs|
            invariant ref == Playing(cs[..i], p, o.under)
          {
            assert cs[..i + 1][..i] == cs[..i];
            if cs[i].p != 0 && cs[i].p != p && o.under > 0 && cs[i].cuePos == o.under { ref := cs[i].p; }
          }
          assert cs[..|cs|] == cs;
          if ref == 0 { at := OnTop; }
        }
      }
    }

    /** The fields of the new focus. */
    method Install(p: int, o: Opts, at: Place, ref: int)
      modifies this
      ensures Now() == old(Now()).(focus := Loaded(old(clip), p, o, old(fireSeq) + 1).(layerAt := at, layerRef := ref),
                                   fireSeq := old(fireSeq) + 1,
                                   gen := old(gen) + 1, loads := old(loads) + 1)
    {
      clip := Cleared(clip);
      fireSeq := fireSeq + 1;
      clip := clip.(fired := fireSeq, layerAt := at, layerRef := ref);
      clip := clip.(p := p, cuePos := o.cuePos, live := o.live);
      clip := clip.(hold := o.hold, loop := o.loop, loopRemain := o.loopCount, starting := true);
      gen := gen + 1;
      loads := loads + 1;
    }

    /** swap. */
    method Swap(p: int, o: Opts, keep: bool, layered: set<int>) returns (retire: seq<int>, outs: seq<int>)
      modifies this
      ensures Outcome(Now(), retire, outs) == Swapped(old(Now()), p, o, keep, layered)
    {
      var at, ref := ChoosePlace(p, o, keep);
      var w := TakeWarm();
      retire, outs := Some(w), [];
      if keep {
        if clip.p != 0 && clip.p != p { Demote(); }
      } else {
        var cut, fades := StopOthers(p, o.crossfade > 0 || o.live, layered);
        retire, outs := retire + cut, fades;
      }
      Install(p, o, at, ref);
    }

    /** The focus half of clearIfCurrent; the caller tries voiceFailed when it is
        not the focus. */
    method ClearFocus(p: int) returns (cleared: bool, promoted: bool)
      modifies this
      ensures cleared <==> p != 0 && old(clip.p) == p
      ensures Outcome(Now(), if cleared then [p] else [], []) == FocusCleared(old(Now()), p)
      ensures promoted <==> cleared && |old(voices)| > 0
    {
      if p == 0 || clip.p != p { return false, false; }
      clip := Cleared(clip).(p := 0);
      gen := gen + 1;
      promoted := Promote();
      cleared := true;
    }

    method RemoveVoice(i: nat)
      requires i < |voices|
      modifies this`voices
      ensures voices == Without(old(voices), i)
    {
      voices := voices[..i] + voices[i + 1..];
    }

    /** voiceFailed. */
    method VoiceFailed(p: int) returns (retire: seq<int>)
      modifies this`voices
      ensures Outcome(Now(), retire, []) == VoiceDropped(old(Now()), p)
    {
      var i := IndexOfVoice(p);
      if i < 0 { return []; }
      RemoveVoice(i);
      return [p];
    }

    /** voiceEnd; the cue whose end the app layer is told of, 0 for none. */
    method VoiceEnd(p: int) returns (runsOn: bool, retire: seq<int>, ended: int)
      modifies this`voices
      ensures Outcome(Now(), retire, []) == VoiceEnded(old(Now()), p)
      ensures ended != 0 ==> retire == [p] && exists i :: 0 <= i < |old(voices)| && old(voices)[i].p == p && old(voices)[i].cuePos == ended
      ensures runsOn <==> VoiceIndex(old(voices), p) >= 0 && retire == []
    {
      var i := IndexOfVoice(p);
      if i < 0 { return false, [], 0; }
      var v := voices[i];
      if v.loop && !v.live {
        var step := LoopSteps(v.loopRemain);
        v := v.(loopRemain := step.next);
        if step.restart {
          voices := voices[i := v];
          return true, [], 0;
        }
      }
      if v.hold && !v.live {
        voices := voices[i := v.(paused := true, heldEnd := true)];
        return true, [], 0;
      }
      RemoveVoice(i);
      return false, [p], if v.cuePos > 0 then v.cuePos else 0;
    }

    /** StopCue. */
    method StopCue(cuePos: int, fade: bool) returns (found: bool, retire: seq<int>, outs: seq<int>)
      modifies this
      ensures Outcome(Now(), retire, outs) == CueStopped(old(Now()), cuePos, fade)
      ensures found <==> |retire + outs| == 1
      ensures found <==> (cuePos > 0 && ((old(clip.p) != 0 && old(clip.cuePos) == cuePos)
        || exists i :: 0 <= i < |old(voices)| && old(voices)[i].cuePos == cuePos))
    {
      if cuePos <= 0 { return false, [], []; }
      var p;
      if clip.p != 0 && clip.cuePos == cuePos {
        p := clip.p;
        clip := NO_CLIP;
        gen := gen + 1;
        var promoted := Promote();
      } else {
        var i := -1;
        for j := 0 to |voices|
          invariant i == LastVoiceOf(voices[..j], cuePos)
        {
          assert voices[..j + 1][..j] == voices[..j];
          if voices[j].cuePos == cuePos { i := j; }
        }
        assert voices[..|voices|] == voices;
        if i < 0 { return false, [], []; }
        p := voices[i].p;
        RemoveVoice(i);
      }
      if fade { return true, [], [p]; }
      return true, [p], [];
    }

    /** stopVoices. */
    method StopVoices(fade: bool) returns (retire: seq<int>, outs: seq<int>)
      modifies this`voices
      ensures Outcome(Now(), retire, outs) == VoicesStopped(old(Now()), fade)
    {
      var vs := TakeVoices();
      retire, outs := [], [];
      for i := 0 to |vs|
        invariant retire == if fade then [] else PipelinesOf(vs[..i])
        invariant outs == if fade then PipelinesOf(vs[..i]) else []
      {
        assert vs[..i + 1][..i] == vs[..i];
        if fade { outs := outs + [vs[i].p]; } else { retire := retire + [vs[i].p]; }
      }
      assert vs[..|vs|] == vs;
    }

    /** The section of Panic that takes the focus and the warm slot. */
    method Panic() returns (retire: seq<int>)
      modifies this
      ensures Outcome(Now(), retire, []) == Panicked(old(Now()))
    {
      halts := halts + 1;
      retire := [];
      if clip.p != 0 {
        retire := [clip.p];
        clip := Cleared(clip).(p := 0);
        gen := gen + 1;
      } else {
        clip := clip.(live := false, cuePos := 0, starting := false);
      }
      var w := TakeWarm();
      retire := retire + Some(w);
    }

    /** The first section of Stop. */
    method NoteHalt() returns (p: int)
      modifies this`halts
      ensures p == clip.p && Now() == Halted(old(Now()))
    {
      halts := halts + 1;
      p := clip.p;
    }

    /** The last section of Stop. */
    method Forget() returns (retire: seq<int>)
      modifies this
      ensures Outcome(Now(), retire, []) == StopForgot(old(Now()))
    {
      clip := clip.(live := false, cuePos := 0, starting := false);
      var w := TakeWarm();
      gen := gen + 1;
      return Some(w);
    }

    /** Warm's second section: a build made under an older decision is refused. */
    method InstallBuild(p: int, file: string, o: Opts, buildGen: nat) returns (current: bool, retire: seq<int>)
      modifies this
      ensures current <==> old(gen) == buildGen
      ensures Outcome(Now(), retire, []) == WarmPut(old(Now()), p, file, o, buildGen)
    {
      current := gen == buildGen;
      if !current { return false, [p]; }
      var displaced := TakeWarm();
      warm := Slot(p, file, o);
      retire := Some(displaced);
    }

    /** InstallWarm's claim. */
    method ClaimWarm(file: string, o: Opts) returns (ok: bool, p: int)
      modifies this`warm
      ensures ok <==> old(warm.file) == file && old(warm.opts) == o
      ensures p == (if ok then old(warm.p) else 0)
      ensures Now() == if ok then WarmTaken(old(Now())) else old(Now())
    {
      ok := warm.file == file && warm.opts == o;
      p := 0;
      if ok { p := TakeWarm(); }
    }

    /** handleEnd's first section; told is the cue whose end the app layer hears of. */
    method EndOfFocus(p: int) returns (act: EndAct, told: int)
      modifies this
      ensures Ending(Now(), act) == EndSection(old(Now()), p)
      ensures told == if (act == Hold || act == Over) && old(clip.cuePos) > 0 then old(clip.cuePos) else 0
    {
      if clip.p != p { return Stale, 0; }
      if clip.live { return PageFailed, 0; }
      var hold, remaining, pos := clip.hold, clip.loopRemain, clip.cuePos;
      if clip.loop {
        var step := LoopSteps(remaining);
        clip := clip.(loopRemain := step.next);
        if step.restart { return Restart, 0; }
      }
      return if hold then Hold else Over, if pos > 0 then pos else 0;
    }

    /** handleEnd's last section, after a restart or a hold. */
    method NoteEnd(held: bool)
      modifies this`clip
      ensures Now() == Marked(old(Now()), if held then MarkHeld else MarkPlaying)
    {
      if held {
        clip := clip.(paused := true, heldEnd := true);
      } else {
        clip := clip.(paused := false);
      }
    }

    /** handleEnd while nothing else runs. */
    method HandleEnd(p: int) returns (retire: seq<int>, told: int)
      modifies this
      ensures Outcome(Now(), retire, []) == FocusEnded(old(Now()), p)
    {
      var act;
      act, told := EndOfFocus(p);
      retire := [];
      match act
      case Stale =>
      case Restart => NoteEnd(false);
      case Hold => NoteEnd(true);
      case PageFailed => retire := EndpointFailed(p);
      case Over =>
        var cleared, promoted := ClearFocus(p);
        if cleared { retire := [p]; }
    }

    /** endpointFailed. */
    method EndpointFailed(p: int) returns (retire: seq<int>)
      modifies this
      ensures Outcome(Now(), retire, []) == PageLost(old(Now()), p)
    {
      var i := IndexOfVoice(p);
      if i >= 0 {
        retire := VoiceFailed(p);
        return;
      }
      if clip.p != p || !clip.live { return []; }
      var cleared, promoted := ClearFocus(p);
      retire := if cleared then [p] else [];
    }

    /** Play's first sections; the pipeline to set playing, 0 for none. */
    method Play() returns (p: int)
      modifies this`clip
      ensures Now() == Played(old(Now()))
      ensures p == if old(clip.starting) then 0 else old(clip.p)
    {
      p := clip.p;
      if p == 0 || clip.starting { return 0; }
      clip := clip.(paused := false);
      clip := clip.(heldEnd := false);
    }

    /** pauseVoices' section, and the pipelines it goes on to pause. */
    method PauseVoices() returns (ps: seq<int>)
      modifies this`voices
      ensures voices == AllPaused(old(voices)) && ps == PipelinesOf(Unpaused(old(voices)))
    {
      ps := [];
      ghost var was := voices;
      for i := 0 to |voices|
        invariant |voices| == |was|
        invariant forall k :: 0 <= k < |was| ==> voices[k] == if k < i then was[k].(paused := true) else was[k]
        invariant ps == PipelinesOf(Unpaused(was[..i]))
      {
        assert was[..i + 1][..i] == was[..i];
        if !voices[i].paused {
          ps := ps + [voices[i].p];
          voices := voices[i := voices[i].(paused := true)];
        }
      }
      assert was[..|was|] == was;
    }

    /** resumeVoices' section, and the pipelines it sets playing. */
    method ResumeVoices() returns (ps: seq<int>)
      modifies this`voices
      ensures voices == AllResumed(old(voices)) && ps == PipelinesOf(Resumable(old(voices)))
    {
      ps := [];
      ghost var was := voices;
      for i := 0 to |voices|
        invariant |voices| == |was| && voices == AllResumed(was[..i]) + was[i..]
        invariant ps == PipelinesOf(Resumable(was[..i]))
      {
        ResumableSnoc(was, i);
        WokenSnoc(was, i);
        if voices[i].paused && !voices[i].heldEnd {
          ps := ps + [voices[i].p];
          voices := voices[i := voices[i].(paused := false)];
        }
      }
      assert was[..|was|] == was && was[|was|..] == [];
    }
  }
}
