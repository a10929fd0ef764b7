/** The playback manager (gsp/gsp.go, gsp/voices.go): one focus clip, the voices
    below it, a warm slot.  Each function here is one section under the manager's
    lock; what it hands out is torn down or faded after the lock is dropped. */
module Transport {

  /** Where a cue's layer goes when it is shown; Beneath another running cue's. */
  datatype Place = OnTop | AtBottom | Beneath

  /** One cue's playback state; p is its pipeline, 0 for none. */
  datatype Clip = Clip(p: int, cuePos: int, fired: nat, live: bool, hold: bool, loop: bool, loopRemain: int,
                       paused: bool, heldEnd: bool, starting: bool, layerAt: Place, layerRef: int)

  const NO_CLIP := Clip(0, 0, 0, false, false, false, 0, false, false, false, OnTop, 0)

  /** The load options that decide ownership and ends; crossfade in milliseconds. */
  datatype Opts = Opts(cuePos: int, keepOthers: bool, crossfade: int, live: bool, hold: bool, loop: bool, loopCount: int,
                       layer: Place, under: int)

  datatype Slot = Slot(p: int, file: string, opts: Opts)

  const NO_OPTS := Opts(0, false, 0, false, false, false, 0, OnTop, 0)
  const NO_SLOT := Slot(0, "", NO_OPTS)

  datatype Manager = Manager(focus: Clip, voices: seq<Clip>, warm: Slot, gen: nat, halts: nat, loads: nat, fireSeq: nat)

  /** A section's result: the new state, what must be retired, what may fade. */
  datatype Outcome = Outcome(m: Manager, retire: seq<int>, fade: seq<int>)

  function Some(p: int): seq<int> {
    if p == 0 then [] else [p]
  }

  // --------------------------------------------------------------- sections

  /** clearPlayback, on the focus fields. */
  function Cleared(c: Clip): Clip {
    c.(cuePos := 0, live := false, hold := false, loop := false, loopRemain := 0, paused := false, heldEnd := false, starting := false)
  }

  /** The most recently fired voice, the first of them on a tie. */
  function Newest(voices: seq<Clip>): (best: nat)
    requires |voices| > 0
    ensures best < |voices|
    ensures forall i :: 0 <= i < |voices| ==> voices[i].fired <= voices[best].fired
  {
    if |voices| == 1 then 0
    else var b := Newest(voices[..|voices| - 1]);
      if voices[|voices| - 1].fired > voices[b].fired then |voices| - 1 else b
  }

  function Without(voices: seq<Clip>, i: nat): seq<Clip>
    requires i < |voices|
  {
    voices[..i] + voices[i + 1..]
  }

  function Promoted(m: Manager): Manager {
    if m.focus.p != 0 || |m.voices| == 0 then m
    else m.(focus := m.voices[Newest(m.voices)], voices := Without(m.voices, Newest(m.voices)))
  }

  function Demoted(m: Manager): Manager {
    m.(focus := NO_CLIP, voices := m.voices + [m.focus])
  }

  function WarmTaken(m: Manager): Manager {
    m.(warm := NO_SLOT)
  }

  /** The pipelines of the clips that are faded, and of those that are cut. */
  function Fading(cs: seq<Clip>, fade: bool, layered: set<int>): seq<int> {
    if |cs| == 0 then []
    else Fading(cs[..|cs| - 1], fade, layered) + if fade && cs[|cs| - 1].p in layered then [cs[|cs| - 1].p] else []
  }

  function Cut(cs: seq<Clip>, fade: bool, layered: set<int>): seq<int> {
    if |cs| == 0 then []
    else Cut(cs[..|cs| - 1], fade, layered) + if fade && cs[|cs| - 1].p in layered then [] else [cs[|cs| - 1].p]
  }

  function Loaded(c: Clip, p: int, o: Opts, fired: nat): Clip {
    Cleared(c).(p := p, cuePos := o.cuePos, fired := fired, live := o.live, hold := o.hold, loop := o.loop, loopRemain := o.loopCount,
                starting := true)
  }

  function Stopping(m: Manager, p: int): seq<Clip> {
    m.voices + if m.focus.p != 0 && m.focus.p != p then [m.focus] else []
  }

  /** The pipeline of the last clip that plays cue under, among the running ones. */
  function Playing(cs: seq<Clip>, p: int, under: int): int {
    if |cs| == 0 then 0
    else
      var c := cs[|cs| - 1];
      if c.p != 0 && c.p != p && under > 0 && c.cuePos == under then c.p else Playing(cs[..|cs| - 1], p, under)
  }

  /** Where swap puts the new layer: below everything when it replaces, and on top
      when the cue to go beneath is not running. */
  function PlaceOf(m: Manager, p: int, o: Opts, keep: bool): (Place, int) {
    var ref := if keep && o.layer == Beneath then Playing([m.focus] + m.voices, p, o.under) else 0;
    (if !keep then AtBottom else if o.layer == Beneath && ref == 0 then OnTop else o.layer, ref)
  }

  /** swap: installs p; keep is KeepOthers on a wall that stacks. */
  function Swapped(m: Manager, p: int, o: Opts, keep: bool, layered: set<int>): Outcome {
    var a := WarmTaken(m);
    var b := if keep then if m.focus.p != 0 && m.focus.p != p then Demoted(a) else a
      else a.(voices := []);
    var fade := o.crossfade > 0 || o.live;
    var place := PlaceOf(m, p, o, keep);
    Outcome(b.(focus := Loaded(b.focus, p, o, m.fireSeq + 1).(layerAt := place.0, layerRef := place.1),
               fireSeq := m.fireSeq + 1, gen := m.gen + 1, loads := m.loads + 1),
            Some(m.warm.p) + (if keep then [] else Cut(Stopping(m, p), fade, layered)),
            if keep then [] else Fading(Stopping(m, p), fade, layered))
  }

  /** clearIfCurrent, when p is the focus: torn down, the newest voice takes over. */
  function FocusCleared(m: Manager, p: int): Outcome {
    if p == 0 || m.focus.p != p then Outcome(m, [], [])
    else Outcome(Promoted(m.(focus := Cleared(m.focus).(p := 0), gen := m.gen + 1)), [p], [])
  }

  function VoiceIndex(voices: seq<Clip>, p: int): (i: int)
    ensures -1 <= i < |voices|
    ensures i >= 0 ==> voices[i].p == p && forall k :: 0 <= k < i ==> voices[k].p != p
    ensures i < 0 ==> forall k :: 0 <= k < |voices| ==> voices[k].p != p
  {
    if |voices| == 0 then -1
    else var i := VoiceIndex(voices[..|voices| - 1], p);
      if i >= 0 then i else if voices[|voices| - 1].p == p then |voices| - 1 else -1
  }

  /** voiceFailed. */
  function VoiceDropped(m: Manager, p: int): Outcome {
    var i := VoiceIndex(m.voices, p);
    if i < 0 then Outcome(m, [], []) else Outcome(m.(voices := Without(m.voices, i)), [p], [])
  }

  datatype LoopStep = LoopStep(restart: bool, next: int)

  /** loopSteps: what a looping clip does at its end; 0 means without end. */
  function LoopSteps(remaining: int): LoopStep {
    if remaining == 0 then LoopStep(true, 0)
    else if remaining > 1 then LoopStep(true, remaining - 1)
    else LoopStep(false, 0)
  }

  datatype Fate = Leaves | Stays(v: Clip)

  /** What the end of a voice does to it: loop, hold the last frame, or leave. */
  function EndOf(v: Clip): Fate {
    var loops := v.loop && !v.live;
    var w := if loops then v.(loopRemain := LoopSteps(v.loopRemain).next) else v;
    if loops && LoopSteps(v.loopRemain).restart then Stays(w)
    else if v.hold && !v.live then Stays(w.(paused := true, heldEnd := true))
    else Leaves
  }

  /** voiceEnd. */
  function VoiceEnded(m: Manager, p: int): Outcome {
    var i := VoiceIndex(m.voices, p);
    if i < 0 then Outcome(m, [], [])
    else match EndOf(m.voices[i])
      case Stays(v) => Outcome(m.(voices := m.voices[i := v]), [], [])
      case Leaves => Outcome(m.(voices := Without(m.voices, i)), [p], [])
  }

  /** The last voice that plays the cue, as the search loop leaves it. */
  function LastVoiceOf(voices: seq<Clip>, cuePos: int): (i: int)
    ensures -1 <= i < |voices|
    ensures i >= 0 ==> voices[i].cuePos == cuePos
    ensures i < 0 ==> forall k :: 0 <= k < |voices| ==> voices[k].cuePos != cuePos
  {
    if |voices| == 0 then -1
    else if voices[|voices| - 1].cuePos == cuePos then |voices| - 1
    else LastVoiceOf(voices[..|voices| - 1], cuePos)
  }

  /** StopCue: one running cue out of the stack; fade when asked for and possible. */
  function CueStopped(m: Manager, cuePos: int, fade: bool): Outcome {
    if cuePos <= 0 then Outcome(m, [], [])
    else if m.focus.p != 0 && m.focus.cuePos == cuePos then
      Parted(Promoted(m.(focus := NO_CLIP, gen := m.gen + 1)), m.focus.p, fade)
    else
      var i := LastVoiceOf(m.voices, cuePos);
      if i < 0 then Outcome(m, [], [])
      else Parted(m.(voices := Without(m.voices, i)), m.voices[i].p, fade)
  }

  function Parted(m: Manager, p: int, fade: bool): Outcome {
    if fade then Outcome(m, [], [p]) else Outcome(m, [p], [])
  }

  function PipelinesOf(cs: seq<Clip>): (r: seq<int>)
    ensures |r| == |cs| && forall i :: 0 <= i < |cs| ==> r[i] == cs[i].p
  {
    if |cs| == 0 then [] else PipelinesOf(cs[..|cs| - 1]) + [cs[|cs| - 1].p]
  }

  /** stopVoices. */
  function VoicesStopped(m: Manager, fade: bool): Outcome {
    var ps := PipelinesOf(m.voices);
    Outcome(m.(voices := []), if fade then [] else ps, if fade then ps else [])
  }

  /** The locked part of Panic: the focus and the warm slot. */
  function Panicked(m: Manager): Outcome {
    var halted := WarmTaken(m.(halts := m.halts + 1));
    if m.focus.p != 0 then
      Outcome(halted.(focus := Cleared(m.focus).(p := 0), gen := m.gen + 1), [m.focus.p] + Some(m.warm.p), [])
    else Outcome(halted.(focus := m.focus.(live := false, cuePos := 0, starting := false)), Some(m.warm.p), [])
  }

  /** The first section of Stop, and of a cut to the armed picture. */
  function Halted(m: Manager): Manager {
    m.(halts := m.halts + 1)
  }

  /** The last section of Stop: the nulled pipeline stays for a resume. */
  function StopForgot(m: Manager): Outcome {
    Outcome(WarmTaken(m).(focus := m.focus.(live := false, cuePos := 0, starting := false), gen := m.gen + 1), Some(m.warm.p), [])
  }

  /** Installing a warm build: refused when a newer decision was taken meanwhile. */
  function WarmPut(m: Manager, p: int, file: string, o: Opts, buildGen: nat): Outcome {
    if m.gen != buildGen then Outcome(m, [p], []) else Outcome(m.(warm := Slot(p, file, o)), Some(m.warm.p), [])
  }

  function WarmMatches(m: Manager, file: string, o: Opts): bool {
    m.warm.file == file && m.warm.opts == o
  }

  // --------------------------------------------------- pausing the voices

  function AllPaused(voices: seq<Clip>): (r: seq<Clip>)
    ensures |r| == |voices| && forall i :: 0 <= i < |r| ==> r[i] == voices[i].(paused := true)
  {
    if |voices| == 0 then [] else AllPaused(voices[..|voices| - 1]) + [voices[|voices| - 1].(paused := true)]
  }

  function Unpaused(voices: seq<Clip>): seq<Clip> {
    if |voices| == 0 then []
    else Unpaused(voices[..|voices| - 1]) + if voices[|voices| - 1].paused then [] else [voices[|voices| - 1]]
  }

  /** Play wakes every paused voice but one parked on its last frame. */
  function Woken(v: Clip): Clip {
    if v.paused && !v.heldEnd then v.(paused := false) else v
  }

  function AllResumed(voices: seq<Clip>): (r: seq<Clip>)
    ensures |r| == |voices| && forall i :: 0 <= i < |r| ==> r[i] == Woken(voices[i])
  {
    if |voices| == 0 then [] else AllResumed(voices[..|voices| - 1]) + [Woken(voices[|voices| - 1])]
  }

  function Resumable(voices: seq<Clip>): seq<Clip> {
    if |voices| == 0 then []
    else
      var v := voices[|voices| - 1];
      Resumable(voices[..|voices| - 1]) + if v.paused && !v.heldEnd then [v] else []
  }

  lemma ResumableSnoc(voices: seq<Clip>, i: nat)
    requires i < |voices|
    ensures var v := voices[i];
      PipelinesOf(Resumable(voices[..i + 1])) == PipelinesOf(Resumable(voices[..i])) + if v.paused && !v.heldEnd then [v.p] else []
  {
    assert voices[..i + 1][..i] == voices[..i];
  }

  lemma WokenSnoc(voices: seq<Clip>, i: nat)
    requires i < |voices|
    ensures var now := AllResumed(voices[..i]) + voices[i..]; var next := AllResumed(voices[..i + 1]) + voices[i + 1..];
      |now| == |voices| && now[i] == voices[i] && now[i := Woken(voices[i])] == next && (Woken(voices[i]) == voices[i] ==> now == next)
  {
    assert voices[..i + 1][..i] == voices[..i];
  }

  /** Pause and then Play leave the voices as they were exactly when those paused before
      were the ones parked on their last frame: Play also wakes a cue that was paused on
      its own. */
  lemma PauseThenPlayIff(voices: seq<Clip>)
    ensures AllResumed(AllPaused(voices)) == voices <==> forall i :: 0 <= i < |voices| ==> voices[i].paused == voices[i].heldEnd
  {
    var r := AllResumed(AllPaused(voices));
    forall i | 0 <= i < |voices| ensures r[i] == voices[i] <==> voices[i].paused == voices[i].heldEnd {
      assert r[i] == Woken(voices[i].(paused := true));
    }
  }

  // ------------------------------------------------- the end of the focus

  /** What handleEnd goes on to do once its first section is over. */
  datatype EndAct = Stale | PageFailed | Restart | Hold | Over

  datatype Ending = Ending(m: Manager, act: EndAct)

  /** handleEnd's first section: count a pass of a loop, decide. */
  function EndSection(m: Manager, p: int): Ending {
    if m.focus.p != p then Ending(m, Stale)
    else if m.focus.live then Ending(m, PageFailed)
    else
      var f := m.focus;
      var counted := if f.loop then m.(focus := f.(loopRemain := LoopSteps(f.loopRemain).next)) else m;
      Ending(counted, if f.loop && LoopSteps(f.loopRemain).restart then Restart else if f.hold then Hold else Over)
  }

  /** What is written on the focus outside such a decision.  None of the later sections
      asks which clip the focus is by then. */
  datatype Mark = Counted(p: int) | MarkPlaying | MarkHeld | MarkResumed

  function Marked(m: Manager, k: Mark): Manager {
    match k
    case Counted(p) => EndSection(m, p).m
    case MarkPlaying => m.(focus := m.focus.(paused := false))
    case MarkHeld => m.(focus := m.focus.(paused := true, heldEnd := true))
    case MarkResumed => m.(focus := m.focus.(paused := false, heldEnd := false))
  }

  /** endpointFailed: a live page on a lower layer, or the focus. */
  function PageLost(m: Manager, p: int): Outcome {
    if VoiceIndex(m.voices, p) >= 0 then VoiceDropped(m, p)
    else if m.focus.p == p && m.focus.live then FocusCleared(m, p)
    else Outcome(m, [], [])
  }

  /** handleEnd with nothing between its sections. */
  function FocusEnded(m: Manager, p: int): Outcome {
    var e := EndSection(m, p);
    match e.act
    case Stale => Outcome(m, [], [])
    case PageFailed => PageLost(m, p)
    case Restart => Outcome(Marked(e.m, MarkPlaying), [], [])
    case Hold => Outcome(Marked(e.m, MarkHeld), [], [])
    case Over => FocusCleared(e.m, p)
  }

  /** Play's sections, on the focus: nothing while the clip is starting. */
  function Played(m: Manager): Manager {
    if m.focus.p == 0 || m.focus.starting then m else Marked(m, MarkResumed)
  }

  // ------------------------------------------------------- the loop count

  /** A clip that ends restarts exactly when it loops, is no page, and its count is not
      on its last pass; 0 counts as endless. */
  lemma RestartsIff(m: Manager, p: int)
    ensures EndSection(m, p).act == Restart
      <==> m.focus.p == p && !m.focus.live && m.focus.loop && (m.focus.loopRemain == 0 || m.focus.loopRemain > 1)
  {
  }

  /** The focus after k ends of it, each followed by Play, as the operator does with a
      clip that is parked on its last frame. */
  function AfterEnds(m: Manager, p: int, k: nat): Manager {
    if k == 0 then m else Played(FocusEnded(AfterEnds(m, p, k - 1), p).m)
  }

  ghost predicate Looping(m: Manager, p: int, n: nat) {
    p != 0 && m.focus.p == p && !m.focus.live && !m.focus.starting && m.focus.loop && m.focus.loopRemain == n
  }

  /** Passes left after k ends of a clip set to play n times, 0 for ever. */
  function Left(n: nat, k: nat): nat {
    if n > k then n - k else 0
  }

  lemma EndsOnce(m: Manager, p: int, n: nat)
    requires Looping(m, p, n) && (m.focus.hold || n != 1)
    ensures Looping(Played(FocusEnded(m, p).m), p, Left(n, 1)) && Played(FocusEnded(m, p).m).focus.hold == m.focus.hold
    ensures FocusEnded(m, p).retire == []
  {
  }

  lemma {:induction false} EndsLeave(m: Manager, p: int, n: nat, k: nat)
    requires Looping(m, p, n) && (m.focus.hold || n == 0 || k < n)
    ensures Looping(AfterEnds(m, p, k), p, Left(n, k)) && AfterEnds(m, p, k).focus.hold == m.focus.hold
  {
    if k > 0 {
      EndsLeave(m, p, n, k - 1);
      EndsOnce(AfterEnds(m, p, k - 1), p, Left(n, k - 1));
    }
  }

  /** A clip that holds its last frame, set to play n times and played again whenever it
      is parked: it is parked at its n-th end and at no other.  After n ends its stored
      count is 0, and from then on it loops without end. */
  lemma HeldLoop(m: Manager, p: int, n: nat, k: nat)
    requires Looping(m, p, n) && m.focus.hold
    ensures AfterEnds(m, p, k).focus.loopRemain == Left(n, k)
    ensures EndSection(AfterEnds(m, p, k), p).act == if k + 1 == n then Hold else Restart
    ensures EndSection(AfterEnds(m, p, n), p).act == Restart && AfterEnds(m, p, n).focus.loopRemain == 0
  {
    EndsLeave(m, p, n, k);
    EndsLeave(m, p, n, n);
  }

  /** One that does not hold plays n times: it restarts at every end before the n-th,
      and at the n-th it is torn down. */
  lemma FinitePlays(m: Manager, p: int, n: nat, k: nat)
    requires Looping(m, p, n) && !m.focus.hold && k < n
    ensures var t := AfterEnds(m, p, k);
      && EndSection(t, p).act == (if k + 1 == n then Over else Restart)
      && FocusEnded(t, p).retire == if k + 1 == n then [p] else []
  {
    EndsLeave(m, p, n, k);
  }

  /** The voices after k ends of one of them. */
  function AfterVoiceEnds(m: Manager, p: int, k: nat): Manager {
    if k == 0 then m else VoiceEnded(AfterVoiceEnds(m, p, k - 1), p).m
  }

  lemma VoiceEndsOnce(m: Manager, p: int, i: nat)
    requires VoiceIndex(m.voices, p) == i && m.voices[i].loop && !m.voices[i].live && m.voices[i].loopRemain > 1
    ensures var r := VoiceEnded(m, p);
      r.m.voices == m.voices[i := m.voices[i].(loopRemain := m.voices[i].loopRemain - 1)] && VoiceIndex(r.m.voices, p) == i && r.retire == []
  {
    var r := VoiceEnded(m, p);
    assert forall k :: 0 <= k < |m.voices| ==> r.m.voices[k].p == m.voices[k].p;
  }

  /** A voice counts the same way: n - 1 ends restart it, and after the n-th it is held
      with the count at 0, or leaves. */
  lemma {:induction false} VoicePlays(m: Manager, p: int, i: nat, k: nat)
    requires VoiceIndex(m.voices, p) == i && m.voices[i].loop && !m.voices[i].live && k < m.voices[i].loopRemain
    ensures var n := m.voices[i].loopRemain; var t := AfterVoiceEnds(m, p, k);
      && VoiceIndex(t.voices, p) == i && t.voices[i] == m.voices[i].(loopRemain := n - k)
      && (if k + 1 < n then EndOf(t.voices[i]) == Stays(t.voices[i].(loopRemain := n - k - 1))
          else if m.voices[i].hold then EndOf(t.voices[i]) == Stays(t.voices[i].(loopRemain := 0, paused := true, heldEnd := true))
          else VoiceEnded(t, p).retire == [p])
  {
    if k > 0 {
      VoicePlays(m, p, i, k - 1);
      VoiceEndsOnce(AfterVoiceEnds(m, p, k - 1), p, i);
    }
  }

  /** handleEnd looks at the focus again only to tear it down: the hold it writes last
      falls on whatever cue was fired meanwhile. */
  lemma HoldMarksTheNewCue(m: Manager, p: int, q: int, o: Opts, keep: bool, layered: set<int>)
    requires EndSection(m, p).act == Hold && q != p
    ensures var t := Marked(Swapped(EndSection(m, p).m, q, o, keep, layered).m, MarkHeld);
      t.focus.p == q && t.focus.heldEnd && t.focus.paused
      && (keep && p != 0 ==> |t.voices| > 0 && t.voices[|t.voices| - 1].p == p && t.voices[|t.voices| - 1].heldEnd == m.focus.heldEnd)
  {
  }

  // -------------------------------------------------------- conservation

  function Pipes(cs: seq<Clip>): multiset<int> {
    multiset(PipelinesOf(cs))
  }

  /** Every pipeline the manager owns, as often as it owns it. */
  function Owned(m: Manager): multiset<int> {
    multiset(Some(m.focus.p)) + Pipes(m.voices) + multiset(Some(m.warm.p))
  }

  function Given(o: Outcome): multiset<int> {
    multiset(o.retire) + multiset(o.fade)
  }

  lemma {:induction false} PipesAppend(a: seq<Clip>, b: seq<Clip>)
    ensures Pipes(a + b) == Pipes(a) + Pipes(b)
  {
    assert PipelinesOf(a + b) == PipelinesOf(a) + PipelinesOf(b);
  }

  lemma PipesWithout(voices: seq<Clip>, i: nat)
    requires i < |voices|
    ensures Pipes(voices) == Pipes(Without(voices, i)) + multiset{voices[i].p}
  {
    assert voices == voices[..i] + [voices[i]] + voices[i + 1..];
    PipesAppend(voices[..i] + [voices[i]], voices[i + 1..]);
    PipesAppend(voices[..i], [voices[i]]);
    PipesAppend(voices[..i], voices[i + 1..]);
    assert Pipes([voices[i]]) == multiset{voices[i].p};
  }

  lemma {:induction false} CutAndFade(cs: seq<Clip>, fade: bool, layered: set<int>)
    ensures multiset(Cut(cs, fade, layered)) + multiset(Fading(cs, fade, layered)) == Pipes(cs)
  {
    if |cs| > 0 {
      CutAndFade(cs[..|cs| - 1], fade, layered);
      assert PipelinesOf(cs) == PipelinesOf(cs[..|cs| - 1]) + [cs[|cs| - 1].p];
    }
  }

  ghost predicate NoNil(m: Manager) {
    forall i :: 0 <= i < |m.voices| ==> m.voices[i].p != 0
  }

  lemma PromotedOwns(m: Manager)
    requires NoNil(m)
    ensures Owned(Promoted(m)) == Owned(m) && NoNil(Promoted(m))
  {
    if m.focus.p == 0 && |m.voices| > 0 {
      PipesWithout(m.voices, Newest(m.voices));
    }
  }

  /** A section gives out what it no longer owns, and keeps the rest. */
  ghost predicate Keeps(before: multiset<int>, o: Outcome) {
    NoNil(o.m) && Owned(o.m) + Given(o) == before
  }

  lemma MsConcat(a: seq<int>, b: seq<int>)
    ensures multiset(a + b) == multiset(a) + multiset(b)
  {
  }

  lemma StoppingPipes(m: Manager, p: int)
    requires m.focus.p != p
    ensures Pipes(Stopping(m, p)) == Pipes(m.voices) + multiset(Some(m.focus.p))
  {
    PipesAppend(m.voices, [m.focus]);
    assert m.voices + [] == m.voices;
    assert Pipes([m.focus]) == multiset{m.focus.p};
  }

  lemma SwapGives(m: Manager, p: int, o: Opts, keep: bool, layered: set<int>)
    requires m.focus.p != p
    ensures Given(Swapped(m, p, o, keep, layered)) ==
      multiset(Some(m.warm.p)) + if keep then multiset{} else Pipes(m.voices) + multiset(Some(m.focus.p))
  {
    var fade := o.crossfade > 0 || o.live;
    var stopping := Stopping(m, p);
    if keep {
      MsConcat(Some(m.warm.p), []);
    } else {
      StoppingPipes(m, p);
      CutAndFade(stopping, fade, layered);
      MsConcat(Some(m.warm.p), Cut(stopping, fade, layered));
    }
  }

  lemma SwapHolds(m: Manager, p: int, o: Opts, keep: bool, layered: set<int>)
    requires NoNil(m) && p != 0 && m.focus.p != p
    ensures var r := Swapped(m, p, o, keep, layered).m;
      && NoNil(r) && r.focus.p == p && r.warm.p == 0
      && Pipes(r.voices) == if keep then Pipes(m.voices) + multiset(Some(m.focus.p)) else multiset{}
  {
    if keep && m.focus.p != 0 {
      PipesAppend(m.voices, [m.focus]);
      assert Pipes([m.focus]) == multiset{m.focus.p};
    }
  }

  lemma SwapKeeps(m: Manager, p: int, o: Opts, keep: bool, layered: set<int>)
    requires NoNil(m) && p != 0 && m.focus.p != p
    ensures Keeps(Owned(m) + multiset{p}, Swapped(m, p, o, keep, layered))
  {
    SwapGives(m, p, o, keep, layered);
    SwapHolds(m, p, o, keep, layered);
  }

  lemma ClearKeeps(m: Manager, p: int)
    requires NoNil(m)
    ensures Keeps(Owned(m), FocusCleared(m, p))
  {
    if p != 0 && m.focus.p == p {
      PromotedOwns(m.(focus := Cleared(m.focus).(p := 0), gen := m.gen + 1));
    }
  }

  lemma DropKeeps(m: Manager, p: int)
    requires NoNil(m)
    ensures Keeps(Owned(m), VoiceDropped(m, p))
  {
    var i := VoiceIndex(m.voices, p);
    if i >= 0 { PipesWithout(m.voices, i); }
  }

  lemma EndKeeps(m: Manager, p: int)
    requires NoNil(m)
    ensures Keeps(Owned(m), VoiceEnded(m, p))
  {
    var i := VoiceIndex(m.voices, p);
    if i >= 0 {
      match EndOf(m.voices[i])
      case Stays(v) => RelabelledKeeps(m, i, v);
      case Leaves => RemovedKeeps(m, i);
    }
  }

  lemma RelabelledKeeps(m: Manager, i: nat, v: Clip)
    requires NoNil(m) && i < |m.voices| && v.p == m.voices[i].p
    ensures var r := m.(voices := m.voices[i := v]); NoNil(r) && Owned(r) == Owned(m)
  {
    SamePipes(m.voices, m.voices[i := v]);
  }

  lemma RemovedKeeps(m: Manager, i: nat)
    requires NoNil(m) && i < |m.voices|
    ensures var r := m.(voices := Without(m.voices, i)); NoNil(r) && Owned(r) + multiset{m.voices[i].p} == Owned(m)
  {
    PipesWithout(m.voices, i);
    SumMoves(multiset(Some(m.focus.p)), Pipes(Without(m.voices, i)), multiset(Some(m.warm.p)), multiset{m.voices[i].p});
  }

  lemma SumMoves(a: multiset<int>, b: multiset<int>, c: multiset<int>, x: multiset<int>)
    ensures (a + b + c) + x == a + (b + x) + c
  {
  }

  lemma SamePipes(a: seq<Clip>, b: seq<Clip>)
    ensures |a| == |b| && (forall k :: 0 <= k < |a| ==> a[k].p == b[k].p) ==> Pipes(a) == Pipes(b)
  {
    if |a| == |b| && (forall k :: 0 <= k < |a| ==> a[k].p == b[k].p) {
      assert PipelinesOf(a) == PipelinesOf(b);
    }
  }

  lemma StopFocusKeeps(m: Manager, fade: bool)
    requires NoNil(m) && m.focus.p != 0
    ensures Keeps(Owned(m), Parted(Promoted(m.(focus := NO_CLIP, gen := m.gen + 1)), m.focus.p, fade))
  {
    PromotedOwns(m.(focus := NO_CLIP, gen := m.gen + 1));
  }

  lemma StopVoiceKeeps(m: Manager, i: nat, fade: bool)
    requires NoNil(m) && i < |m.voices|
    ensures Keeps(Owned(m), Parted(m.(voices := Without(m.voices, i)), m.voices[i].p, fade))
  {
    RemovedKeeps(m, i);
  }

  lemma StopCueKeeps(m: Manager, cuePos: int, fade: bool)
    requires NoNil(m)
    ensures Keeps(Owned(m), CueStopped(m, cuePos, fade))
  {
    if cuePos > 0 && m.focus.p != 0 && m.focus.cuePos == cuePos {
      StopFocusKeeps(m, fade);
    } else if cuePos > 0 && LastVoiceOf(m.voices, cuePos) >= 0 {
      StopVoiceKeeps(m, LastVoiceOf(m.voices, cuePos), fade);
    } else {
      assert CueStopped(m, cuePos, fade) == Outcome(m, [], []);
    }
  }

  lemma StopVoicesKeeps(m: Manager, fade: bool)
    requires NoNil(m)
    ensures Keeps(Owned(m), VoicesStopped(m, fade))
  {
  }

  lemma PanicKeeps(m: Manager)
    requires NoNil(m)
    ensures Keeps(Owned(m), Panicked(m))
  {
    assert multiset([m.focus.p] + Some(m.warm.p)) == multiset{m.focus.p} + multiset(Some(m.warm.p));
  }

  lemma StopKeeps(m: Manager)
    requires NoNil(m)
    ensures Keeps(Owned(m), StopForgot(m))
  {
  }

  lemma WarmPutKeeps(m: Manager, p: int, file: string, o: Opts, buildGen: nat)
    requires NoNil(m) && p != 0
    ensures Keeps(Owned(m) + multiset{p}, WarmPut(m, p, file, o, buildGen))
  {
  }

  lemma WarmTakenKeeps(m: Manager)
    requires NoNil(m)
    ensures Owned(WarmTaken(m)) + multiset(Some(m.warm.p)) == Owned(m) && NoNil(WarmTaken(m))
  {
  }

  // ----------------------------------------------------------- fire order

  /** Fire numbers are handed out once, so the running cues' are distinct and none
      lies in the future; a focus was fired after every voice. */
  ghost predicate FireOrder(m: Manager) {
    && (forall i :: 0 <= i < |m.voices| ==> m.voices[i].fired <= m.fireSeq)
    && (forall i, j :: 0 <= i < j < |m.voices| ==> m.voices[i].fired != m.voices[j].fired)
    && (m.focus.p != 0 ==> m.focus.fired <= m.fireSeq)
    && (m.focus.p != 0 ==> forall i :: 0 <= i < |m.voices| ==> m.voices[i].fired < m.focus.fired)
  }

  lemma PromotedOrder(m: Manager)
    requires FireOrder(m)
    ensures FireOrder(Promoted(m))
  {
  }

  lemma WithoutOrder(m: Manager, i: nat)
    requires FireOrder(m) && i < |m.voices|
    ensures FireOrder(m.(voices := Without(m.voices, i)))
  {
  }

  lemma SwapOrder(m: Manager, p: int, o: Opts, keep: bool, layered: set<int>)
    requires FireOrder(m) && m.focus.p != p
    ensures FireOrder(Swapped(m, p, o, keep, layered).m)
  {
  }

  lemma ClearOrder(m: Manager, p: int)
    requires FireOrder(m)
    ensures FireOrder(FocusCleared(m, p).m)
  {
    if p != 0 && m.focus.p == p {
      PromotedOrder(m.(focus := Cleared(m.focus).(p := 0), gen := m.gen + 1));
    }
  }

  lemma DropOrder(m: Manager, p: int)
    requires FireOrder(m)
    ensures FireOrder(VoiceDropped(m, p).m)
  {
    if VoiceIndex(m.voices, p) >= 0 { WithoutOrder(m, VoiceIndex(m.voices, p)); }
  }

  lemma EndOrder(m: Manager, p: int)
    requires FireOrder(m)
    ensures FireOrder(VoiceEnded(m, p).m)
  {
    if VoiceIndex(m.voices, p) >= 0 { WithoutOrder(m, VoiceIndex(m.voices, p)); }
  }

  lemma StopCueOrder(m: Manager, cuePos: int, fade: bool)
    requires FireOrder(m)
    ensures FireOrder(CueStopped(m, cuePos, fade).m)
  {
    if cuePos > 0 && m.focus.p != 0 && m.focus.cuePos == cuePos {
      PromotedOrder(m.(focus := NO_CLIP, gen := m.gen + 1));
    } else if LastVoiceOf(m.voices, cuePos) >= 0 {
      WithoutOrder(m, LastVoiceOf(m.voices, cuePos));
    }
  }

  lemma HaltsOrder(m: Manager, fade: bool)
    requires FireOrder(m)
    ensures FireOrder(VoicesStopped(m, fade).m) && FireOrder(Panicked(m).m) && FireOrder(StopForgot(m).m)
  {
  }

  // ---------------------------------------------------------- the takeover

  /** When the focus goes, by an end, a failure or StopCue, the most recently fired
      remaining cue takes over, and it keeps its own playback state. */
  lemma NewestTakesOver(m: Manager, cuePos: int, fade: bool, i: nat)
    requires FireOrder(m) && NoNil(m) && m.focus.p != 0 && i < |m.voices|
    requires forall k :: 0 <= k < |m.voices| && k != i ==> m.voices[k].fired < m.voices[i].fired
    ensures FocusCleared(m, m.focus.p).m.focus == m.voices[i]
    ensures FocusCleared(m, m.focus.p).m.voices == Without(m.voices, i)
    ensures m.focus.cuePos == cuePos && cuePos > 0 ==> CueStopped(m, cuePos, fade).m.focus == m.voices[i]
  {
  }

  /** Voices are never left without a focus. */
  predicate HasFocus(m: Manager) {
    |m.voices| > 0 ==> m.focus.p != 0
  }

  lemma SwapFocus(m: Manager, p: int, o: Opts, keep: bool, layered: set<int>)
    requires p != 0
    ensures HasFocus(Swapped(m, p, o, keep, layered).m)
  {
  }

  lemma PromotedFocus(m: Manager)
    requires NoNil(m)
    ensures HasFocus(Promoted(m))
  {
  }

  lemma RemovalFocus(m: Manager, p: int)
    requires HasFocus(m) && NoNil(m)
    ensures HasFocus(FocusCleared(m, p).m) && HasFocus(VoiceDropped(m, p).m) && HasFocus(VoiceEnded(m, p).m)
  {
    PromotedFocus(m.(focus := Cleared(m.focus).(p := 0), gen := m.gen + 1));
  }

  lemma StopFocus(m: Manager, cuePos: int, fade: bool)
    requires HasFocus(m) && NoNil(m)
    ensures HasFocus(CueStopped(m, cuePos, fade).m) && HasFocus(VoicesStopped(m, fade).m) && HasFocus(StopForgot(m).m)
  {
    PromotedFocus(m.(focus := NO_CLIP, gen := m.gen + 1));
  }

  /** Panic takes the voices in an earlier section than the focus: it leaves voices
      without a focus exactly when some were demoted in between. */
  lemma PanicKeepsFocusIff(m: Manager)
    requires HasFocus(m)
    ensures HasFocus(Panicked(m).m) <==> |m.voices| == 0
  {
  }

  // --------------------------------------------------------- what goes where

  lemma {:induction false} FadedAreLayered(cs: seq<Clip>, fade: bool, layered: set<int>, p: int)
    requires p in Fading(cs, fade, layered)
    ensures fade && p in layered && p in PipelinesOf(cs)
  {
    var init := cs[..|cs| - 1];
    if p in Fading(init, fade, layered) { FadedAreLayered(init, fade, layered, p); }
  }

  /** A cue that replaces the others fades only what has a layer, and only for a
      crossfade or a live page; one that joins them stops nobody, and the cue that
      was the focus runs on as the newest voice. */
  lemma SwapStopsOrJoins(m: Manager, p: int, o: Opts, layered: set<int>, q: int)
    requires m.focus.p != p
    ensures var r := Swapped(m, p, o, false, layered);
      r.m.voices == [] && (q in r.fade ==> (o.crossfade > 0 || o.live) && q in layered)
    ensures var r := Swapped(m, p, o, true, layered);
      r.fade == [] && r.retire == Some(m.warm.p)
      && r.m.voices == (if m.focus.p == 0 then m.voices else m.voices + [m.focus])
    ensures forall keep :: var f := Swapped(m, p, o, keep, layered).m.focus; f.p == p && f.cuePos == o.cuePos && f.starting
  {
    var fade := o.crossfade > 0 || o.live;
    if q in Fading(Stopping(m, p), fade, layered) { FadedAreLayered(Stopping(m, p), fade, layered, q); }
  }

  lemma {:induction false} PlayingIs(cs: seq<Clip>, p: int, under: int)
    ensures var r := Playing(cs, p, under);
      if r == 0 then forall i :: 0 <= i < |cs| && cs[i].p != 0 && cs[i].p != p && under > 0 ==> cs[i].cuePos != under
      else r != p && exists i :: 0 <= i < |cs| && cs[i].p == r && cs[i].cuePos == under
  {
    if |cs| > 0 { PlayingIs(cs[..|cs| - 1], p, under); }
  }

  /** A cue asked to go beneath another one does exactly when it joins the running cues
      and that cue runs, as focus or as voice; it is then a voice below the new focus. */
  lemma GoesBeneathIff(m: Manager, p: int, o: Opts, keep: bool, layered: set<int>)
    requires NoNil(m) && m.focus.p != p && forall i :: 0 <= i < |m.voices| ==> m.voices[i].p != p
    ensures var f := Swapped(m, p, o, keep, layered).m.focus;
      && (f.layerAt == Beneath <==>
            keep && o.layer == Beneath && o.under > 0
            && ((m.focus.p != 0 && m.focus.cuePos == o.under) || exists i :: 0 <= i < |m.voices| && m.voices[i].cuePos == o.under))
      && (f.layerAt == Beneath ==> RunsBelow(Swapped(m, p, o, keep, layered).m, f.layerRef, o.under))
      && (!keep ==> f.layerAt == AtBottom)
  {
    var cs := [m.focus] + m.voices;
    PlayingIs(cs, p, o.under);
    assert cs[0] == m.focus && forall i :: 0 <= i < |m.voices| ==> cs[i + 1] == m.voices[i];
    if keep && o.layer == Beneath && Playing(cs, p, o.under) != 0 {
      var r := Playing(cs, p, o.under);
      NotPlayedUnder(cs, p, o.under);
      var i :| 0 <= i < |cs| && cs[i].p == r && cs[i].cuePos == o.under;
      JoinedRuns(m, p, o, layered, i);
    }
  }

  lemma {:induction false} NotPlayedUnder(cs: seq<Clip>, p: int, under: int)
    requires Playing(cs, p, under) != 0
    ensures under > 0
  {
    if |cs| > 0 && Playing(cs[..|cs| - 1], p, under) != 0 { NotPlayedUnder(cs[..|cs| - 1], p, under); }
  }

  ghost predicate RunsBelow(m: Manager, ref: int, cuePos: int) {
    exists i :: 0 <= i < |m.voices| && m.voices[i].p == ref && m.voices[i].cuePos == cuePos
  }

  lemma JoinedRuns(m: Manager, p: int, o: Opts, layered: set<int>, i: nat)
    requires m.focus.p != p && i <= |m.voices| && ([m.focus] + m.voices)[i].p != 0
    ensures var c := ([m.focus] + m.voices)[i]; RunsBelow(Swapped(m, p, o, true, layered).m, c.p, c.cuePos)
  {
    var c := ([m.focus] + m.voices)[i];
    var t := Swapped(m, p, o, true, layered).m;
    assert t.voices == if m.focus.p != 0 then m.voices + [m.focus] else m.voices;
    if i == 0 { assert t.voices[|m.voices|] == c; } else { assert t.voices[i - 1] == c; }
  }

  /** The clips that run: the focus and the voices. */
  function Running(m: Manager): multiset<Clip> {
    (if m.focus.p == 0 then multiset{} else multiset{m.focus}) + multiset(m.voices)
  }

  lemma WithoutRuns(voices: seq<Clip>, i: nat)
    requires i < |voices|
    ensures multiset(voices) == multiset(Without(voices, i)) + multiset{voices[i]}
  {
    assert voices == voices[..i] + [voices[i]] + voices[i + 1..];
  }

  lemma PromotedRuns(m: Manager)
    requires NoNil(m)
    ensures Running(Promoted(m)) == Running(m)
  {
    if m.focus.p == 0 && |m.voices| > 0 { WithoutRuns(m.voices, Newest(m.voices)); }
  }

  /** What StopCue leaves of a deck from which it takes the clip c. */
  ghost predicate TakesOut(m: Manager, o: Outcome, c: Clip, fade: bool) {
    && Running(m) == Running(o.m) + multiset{c}
    && o.retire == (if fade then [] else [c.p]) && o.fade == (if fade then [c.p] else [])
  }

  lemma StopsFocus(m: Manager, cuePos: int, fade: bool)
    requires NoNil(m) && cuePos > 0 && m.focus.p != 0 && m.focus.cuePos == cuePos
    ensures TakesOut(m, CueStopped(m, cuePos, fade), m.focus, fade)
  {
    var cleared := m.(focus := NO_CLIP, gen := m.gen + 1);
    PromotedRuns(cleared);
    assert Running(m) == Running(cleared) + multiset{m.focus};
  }

  lemma StopsVoice(m: Manager, cuePos: int, fade: bool, i: nat)
    requires cuePos > 0 && !(m.focus.p != 0 && m.focus.cuePos == cuePos) && i < |m.voices| && LastVoiceOf(m.voices, cuePos) == i
    ensures TakesOut(m, CueStopped(m, cuePos, fade), m.voices[i], fade) && CueStopped(m, cuePos, fade).m.focus == m.focus
  {
    WithoutRuns(m.voices, i);
    var o := CueStopped(m, cuePos, fade);
    assert o.m.voices == Without(m.voices, i);
    assert Running(m) == Running(o.m) + multiset{m.voices[i]};
  }

  /** Stopping one cue takes out one clip that played that cue, and every other running
      clip runs on as it was, whichever of them is the focus afterwards; the focus
      changes only when it was the cue stopped. */
  lemma StopCueAlone(m: Manager, cuePos: int, fade: bool)
    requires NoNil(m)
    ensures var o := CueStopped(m, cuePos, fade);
      if cuePos > 0 && exists c :: c in Running(m) && c.cuePos == cuePos
      then exists c :: c in Running(m) && c.cuePos == cuePos && TakesOut(m, o, c, fade) && (o.m.focus == m.focus || c == m.focus)
      else o == Outcome(m, [], [])
  {
    if cuePos > 0 && m.focus.p != 0 && m.focus.cuePos == cuePos {
      StopsFocus(m, cuePos, fade);
      assert m.focus in Running(m);
    } else if cuePos > 0 && LastVoiceOf(m.voices, cuePos) >= 0 {
      var i := LastVoiceOf(m.voices, cuePos);
      StopsVoice(m, cuePos, fade, i);
      assert m.voices[i] in Running(m);
    }
  }
}
