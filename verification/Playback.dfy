/** Every interleaving of the playback manager's locked sections (gsp/gsp.go,
    gsp/voices.go, gsp/panichold.go, gsp/wall.go): who owns each pipeline.

    A pipeline that was built is the focus, a voice, the warm slot or the armed
    panic picture; or some running operation holds it (built or claimed, not yet
    installed), is about to retire it, is about to fade it, or is fading it; or it
    has been retired. */
module Playback {
  import opened Transport

  /** The panic picture kept ready; p is 0 when none is. */
  datatype Armed = Armed(p: int, file: string, stamp: string)

  const NOT_ARMED := Armed(0, "", "")

  datatype Sys = Sys(m: Manager, standby: Armed, arming: bool, built: set<int>, held: multiset<int>, doomed: multiset<int>,
                     parting: multiset<int>, fading: multiset<int>, retired: multiset<int>, log: seq<int>)

  const START := Sys(Manager(NO_CLIP, [], NO_SLOT, 0, 0, 0, 0), NOT_ARMED, false, {}, multiset{}, multiset{}, multiset{},
                     multiset{}, multiset{}, [])

  datatype Step =
    | Build(p: int)
    | Discard(p: int)
    | Swap(p: int, o: Opts, keep: bool, layered: set<int>)
    | Clear(p: int)
    | Fail(p: int)
    | End(p: int)
    | StopOne(cuePos: int, fade: bool)
    | StopVoices(fade: bool)
    | PanicLock
    | StopLock
    | Halt
    | DropWarm
    | PutWarm(p: int, file: string, o: Opts, gen: nat)
    | ClaimWarm(file: string, o: Opts)
    | WarmError(p: int)
    | ArmTake
    | ArmPut(p: int, file: string, stamp: string)
    | ArmGiveUp
    | ClaimStandby(file: string, stamp: string)
    | Retire(p: int)
    | StartFade(p: int)
    | EndFade(p: int)
    | Note(k: Mark)
    | Touch(focus: Clip, voices: seq<Clip>)

  function Opt(p: int): multiset<int> {
    multiset(Some(p))
  }

  // ------------------------------------------------------------- the steps

  function After(s: Sys, o: Outcome): Sys {
    s.(m := o.m, doomed := s.doomed + multiset(o.retire), parting := s.parting + multiset(o.fade))
  }

  function LetGo(s: Sys, p: int): Sys {
    s.(held := s.held - multiset{p})
  }

  /** Playback flags change, ownership does not. */
  ghost predicate SameCues(m: Manager, focus: Clip, voices: seq<Clip>) {
    && focus.p == m.focus.p && focus.fired == m.focus.fired && |voices| == |m.voices|
    && forall i :: 0 <= i < |voices| ==> voices[i].p == m.voices[i].p && voices[i].fired == m.voices[i].fired
  }

  /** A step can be taken: it acts on what its operation holds. */
  ghost predicate Enabled(s: Sys, st: Step) {
    match st
    case Build(p) => p != 0 && p !in s.built
    case Discard(p) => p in s.held
    case Swap(p, _, _, _) => p in s.held
    case PutWarm(p, _, _, _) => p in s.held
    case ArmTake => !s.arming
    case ArmPut(p, _, _) => s.arming && p in s.held
    case ArmGiveUp => s.arming
    case Retire(p) => p in s.doomed
    case StartFade(p) => p in s.parting
    case EndFade(p) => p in s.fading
    case Touch(focus, voices) => SameCues(s.m, focus, voices)
    case _ => true
  }

  function Next(s: Sys, st: Step): Sys {
    match st
    case Build(p) => s.(built := s.built + {p}, held := s.held + multiset{p})
    case Discard(p) => LetGo(s, p).(doomed := s.doomed + multiset{p})
    case Swap(p, o, keep, layered) => After(LetGo(s, p), Swapped(s.m, p, o, keep, layered)).(log := s.log + [p])
    case Clear(p) => After(s, FocusCleared(s.m, p))
    case Fail(p) => After(s, VoiceDropped(s.m, p))
    case End(p) => After(s, VoiceEnded(s.m, p))
    case StopOne(cuePos, fade) => After(s, CueStopped(s.m, cuePos, fade))
    case StopVoices(fade) => After(s, VoicesStopped(s.m, fade))
    case PanicLock => After(s, Panicked(s.m))
    case StopLock => After(s, StopForgot(s.m))
    case Halt => s.(m := Halted(s.m))
    case DropWarm => s.(m := WarmTaken(s.m), doomed := s.doomed + Opt(s.m.warm.p))
    case PutWarm(p, file, o, gen) => After(LetGo(s, p), WarmPut(s.m, p, file, o, gen))
    case ClaimWarm(file, o) =>
      if WarmMatches(s.m, file, o) then s.(m := WarmTaken(s.m), held := s.held + Opt(s.m.warm.p)) else s
    case WarmError(p) =>
      if s.m.warm.p == p then s.(m := WarmTaken(s.m), doomed := s.doomed + Opt(s.m.warm.p)) else s
    case ArmTake => s.(standby := NOT_ARMED, arming := true, doomed := s.doomed + Opt(s.standby.p))
    case ArmPut(p, file, stamp) => LetGo(s, p).(standby := Armed(p, file, stamp), arming := false)
    case ArmGiveUp => s.(arming := false)
    case ClaimStandby(file, stamp) =>
      if s.standby.p != 0 && s.standby.file == file && s.standby.stamp == stamp
      then s.(standby := NOT_ARMED, held := s.held + Opt(s.standby.p)) else s
    case Retire(p) => s.(doomed := s.doomed - multiset{p}, retired := s.retired + multiset{p})
    case StartFade(p) => s.(parting := s.parting - multiset{p}, fading := s.fading + multiset{p})
    case EndFade(p) => s.(fading := s.fading - multiset{p}, retired := s.retired + multiset{p})
    case Note(k) => s.(m := Marked(s.m, k))
    case Touch(focus, voices) => s.(m := s.m.(focus := focus, voices := voices))
  }

  // ---------------------------------------------------------- conservation

  function Gone(s: Sys): multiset<int> {
    s.doomed + s.parting + s.fading + s.retired
  }

  /** Everything any place or operation owns, counted. */
  function Total(s: Sys): multiset<int> {
    Owned(s.m) + Opt(s.standby.p) + s.held + Gone(s)
  }

  ghost predicate Conserved(s: Sys) {
    && 0 !in s.built
    && NoNil(s.m)
    && Total(s) == multiset(s.built)
    && (s.arming ==> s.standby.p == 0)
  }

  lemma OnceEach(s: Sys, p: int)
    requires Conserved(s)
    ensures Total(s)[p] <= 1
    ensures Owned(s.m)[p] + Opt(s.standby.p)[p] + s.held[p] + Gone(s)[p] <= 1
  {
  }

  lemma HeldIsFree(s: Sys, p: int)
    requires Conserved(s) && p in s.held
    ensures p != 0 && s.m.focus.p != p && s.held - multiset{p} + multiset{p} == s.held
    ensures s.m.warm.p != p && s.standby.p != p && forall i :: 0 <= i < |s.m.voices| ==> s.m.voices[i].p != p
  {
    OnceEach(s, p);
    assert p in Total(s);
    NotOwned(s.m, p);
    assert Opt(s.standby.p)[p] == 0;
  }

  lemma NotOwned(m: Manager, p: int)
    requires p != 0 && Owned(m)[p] == 0
    ensures m.focus.p != p && m.warm.p != p && forall i :: 0 <= i < |m.voices| ==> m.voices[i].p != p
  {
    forall i | 0 <= i < |m.voices| ensures m.voices[i].p != p {
      assert PipelinesOf(m.voices)[i] in Pipes(m.voices);
    }
    assert Opt(m.focus.p)[p] == 0 && Opt(m.warm.p)[p] == 0;
  }

  lemma SectionConserves(s: Sys, o: Outcome)
    requires Conserved(s) && Keeps(Owned(s.m), o)
    ensures Conserved(After(s, o))
  {
  }

  lemma SwapSum(a: multiset<int>, b: multiset<int>, c: multiset<int>, d: multiset<int>, e: multiset<int>, f: multiset<int>, p: int)
    requires p in c && e + f == a + multiset{p}
    ensures e + b + (c - multiset{p}) + (d + f) == a + b + c + d
  {
    assert (c - multiset{p}) + multiset{p} == c;
    assert e + b + (c - multiset{p}) + (d + f) == (e + f) + b + (c - multiset{p}) + d;
    assert (a + multiset{p}) + b + (c - multiset{p}) + d == a + b + ((c - multiset{p}) + multiset{p}) + d;
  }

  lemma GoneAfter(s: Sys, o: Outcome)
    ensures Gone(After(s, o)) == Gone(s) + Given(o)
  {
  }

  lemma InstallConserves(s: Sys, p: int, o: Outcome)
    requires Conserved(s) && p in s.held && Keeps(Owned(s.m) + multiset{p}, o)
    ensures Conserved(After(LetGo(s, p), o))
  {
    GoneAfter(LetGo(s, p), o);
    SwapSum(Owned(s.m), Opt(s.standby.p), s.held, Gone(s), Owned(o.m), Given(o), p);
  }

  lemma ManagerStepConserves(s: Sys, st: Step)
    requires Conserved(s) && Enabled(s, st)
    requires st.Clear? || st.Fail? || st.End? || st.StopOne? || st.StopVoices? || st.PanicLock? || st.StopLock?
    ensures Conserved(Next(s, st))
  {
    match st
    case Clear(p) => ClearKeeps(s.m, p); SectionConserves(s, FocusCleared(s.m, p));
    case Fail(p) => DropKeeps(s.m, p); SectionConserves(s, VoiceDropped(s.m, p));
    case End(p) => EndKeeps(s.m, p); SectionConserves(s, VoiceEnded(s.m, p));
    case StopOne(cuePos, fade) => StopCueKeeps(s.m, cuePos, fade); SectionConserves(s, CueStopped(s.m, cuePos, fade));
    case StopVoices(fade) => StopVoicesKeeps(s.m, fade); SectionConserves(s, VoicesStopped(s.m, fade));
    case PanicLock => PanicKeeps(s.m); SectionConserves(s, Panicked(s.m));
    case StopLock => StopKeeps(s.m); SectionConserves(s, StopForgot(s.m));
  }

  lemma InstallStepConserves(s: Sys, st: Step)
    requires Conserved(s) && Enabled(s, st) && (st.Swap? || st.PutWarm?)
    ensures Conserved(Next(s, st))
  {
    HeldIsFree(s, st.p);
    match st
    case Swap(p, o, keep, layered) =>
      SwapKeeps(s.m, p, o, keep, layered);
      InstallConserves(s, p, Swapped(s.m, p, o, keep, layered));
    case PutWarm(p, file, o, gen) =>
      WarmPutKeeps(s.m, p, file, o, gen);
      InstallConserves(s, p, WarmPut(s.m, p, file, o, gen));
  }

  lemma WarmOutSum(w: multiset<int>, x: multiset<int>, a: multiset<int>, b: multiset<int>, c: multiset<int>, d: multiset<int>)
    requires w + x == a
    ensures w + b + (c + x) + d == a + b + c + d && w + b + c + (d + x) == a + b + c + d
  {
    assert w + b + (c + x) + d == (w + x) + b + c + d;
    assert w + b + c + (d + x) == (w + x) + b + c + d;
  }

  lemma GoneMore(s: Sys, x: multiset<int>, t: Sys)
    requires t.doomed == s.doomed + x && t.parting == s.parting && t.fading == s.fading && t.retired == s.retired
    ensures Gone(t) == Gone(s) + x
  {
  }

  lemma WarmDoomed(s: Sys)
    requires Conserved(s)
    ensures Conserved(s.(m := WarmTaken(s.m), doomed := s.doomed + Opt(s.m.warm.p)))
  {
    var x := Opt(s.m.warm.p);
    WarmTakenKeeps(s.m);
    WarmOutSum(Owned(WarmTaken(s.m)), x, Owned(s.m), Opt(s.standby.p), s.held, Gone(s));
    GoneMore(s, x, s.(m := WarmTaken(s.m), doomed := s.doomed + x));
  }

  lemma WarmClaimed(s: Sys)
    requires Conserved(s)
    ensures Conserved(s.(m := WarmTaken(s.m), held := s.held + Opt(s.m.warm.p)))
  {
    var x := Opt(s.m.warm.p);
    WarmTakenKeeps(s.m);
    WarmOutSum(Owned(WarmTaken(s.m)), x, Owned(s.m), Opt(s.standby.p), s.held, Gone(s));
  }

  /** Taking the warm slot, to be retired or to be played. */
  lemma WarmStepConserves(s: Sys, st: Step)
    requires Conserved(s) && (st.DropWarm? || st.ClaimWarm? || st.WarmError?)
    ensures Conserved(Next(s, st))
  {
    WarmDoomed(s);
    WarmClaimed(s);
  }

  lemma OutSum(a: multiset<int>, b: multiset<int>, c: multiset<int>, d: multiset<int>)
    ensures a + multiset{} + (c + b) + d == a + b + c + d && a + multiset{} + c + (d + b) == a + b + c + d
  {
  }

  lemma InSum(a: multiset<int>, c: multiset<int>, d: multiset<int>, p: int)
    requires p in c
    ensures a + multiset{p} + (c - multiset{p}) + d == a + multiset{} + c + d
  {
    assert (c - multiset{p}) + multiset{p} == c;
  }

  /** The armed picture: armMu keeps a second arming out between take and put. */
  lemma ArmStepConserves(s: Sys, st: Step)
    requires Conserved(s) && Enabled(s, st) && (st.ArmTake? || st.ArmPut? || st.ArmGiveUp? || st.ClaimStandby?)
    ensures Conserved(Next(s, st))
  {
    var x := Opt(s.standby.p);
    OutSum(Owned(s.m), x, s.held, Gone(s));
    if st.ArmTake? { GoneMore(s, x, Next(s, st)); }
    if st.ArmPut? {
      HeldIsFree(s, st.p);
      InSum(Owned(s.m), s.held, Gone(s), st.p);
      assert Opt(st.p) == multiset{st.p} && Opt(0) == multiset{};
    }
  }

  lemma MoveSum(a: multiset<int>, b: multiset<int>, p: int)
    requires p in a
    ensures (a - multiset{p}) + (b + multiset{p}) == a + b
  {
    assert (a - multiset{p}) + multiset{p} == a;
  }

  lemma BuildSum(a: multiset<int>, b: multiset<int>, c: multiset<int>, d: multiset<int>, x: multiset<int>)
    ensures a + b + (c + x) + d == (a + b + c + d) + x
  {
  }

  lemma BuiltMore(built: set<int>, p: int)
    requires p !in built
    ensures multiset(built + {p}) == multiset(built) + multiset{p}
  {
  }

  lemma BuildConserves(s: Sys, p: int)
    requires Conserved(s) && p != 0 && p !in s.built
    ensures Conserved(Next(s, Build(p)))
  {
    BuiltMore(s.built, p);
    BuildSum(Owned(s.m), Opt(s.standby.p), s.held, Gone(s), multiset{p});
  }

  lemma DiscardConserves(s: Sys, p: int)
    requires Conserved(s) && p in s.held
    ensures Conserved(Next(s, Discard(p)))
  {
    var t := Next(s, Discard(p));
    GoneMore(s, multiset{p}, t);
    MoveSum(s.held, Gone(s), p);
    assert Total(t) == (Owned(s.m) + Opt(s.standby.p)) + ((s.held - multiset{p}) + (Gone(s) + multiset{p}));
  }

  lemma TeardownSum(d: multiset<int>, pt: multiset<int>, f: multiset<int>, r: multiset<int>, p: int)
    ensures p in d ==> (d - multiset{p}) + pt + f + (r + multiset{p}) == d + pt + f + r
    ensures p in pt ==> d + (pt - multiset{p}) + (f + multiset{p}) + r == d + pt + f + r
    ensures p in f ==> d + pt + (f - multiset{p}) + (r + multiset{p}) == d + pt + f + r
  {
    if p in d { assert (d - multiset{p}) + multiset{p} == d; }
    if p in pt { assert (pt - multiset{p}) + multiset{p} == pt; }
    if p in f { assert (f - multiset{p}) + multiset{p} == f; }
  }

  /** Tearing down moves a pipeline within what has been given up. */
  lemma TeardownKeepsGone(s: Sys, st: Step)
    requires Enabled(s, st) && (st.Retire? || st.StartFade? || st.EndFade?)
    ensures Gone(Next(s, st)) == Gone(s)
  {
    TeardownSum(s.doomed, s.parting, s.fading, s.retired, st.p);
  }

  lemma TouchOwns(m: Manager, focus: Clip, voices: seq<Clip>)
    requires NoNil(m) && SameCues(m, focus, voices)
    ensures var r := m.(focus := focus, voices := voices); NoNil(r) && Owned(r) == Owned(m)
  {
    SamePipes(m.voices, voices);
  }

  lemma TouchConserves(s: Sys, focus: Clip, voices: seq<Clip>)
    requires Conserved(s) && SameCues(s.m, focus, voices)
    ensures Conserved(Next(s, Touch(focus, voices)))
  {
    TouchOwns(s.m, focus, voices);
  }

  /** Counting a pass, or marking the focus playing or held, changes flags only. */
  lemma NoteIsTouch(s: Sys, k: Mark)
    ensures var f := Marked(s.m, k).focus; SameCues(s.m, f, s.m.voices) && Next(s, Note(k)) == Next(s, Touch(f, s.m.voices))
  {
    MarkedKeeps(s.m, k);
  }

  lemma MarkedKeeps(m: Manager, k: Mark)
    ensures var r := Marked(m, k); r == m.(focus := r.focus) && r.focus.p == m.focus.p && r.focus.fired == m.focus.fired
  {
  }

  lemma FlagStepConserves(s: Sys, st: Step)
    requires Conserved(s) && Enabled(s, st) && (st.Touch? || st.Note? || st.Halt?)
    ensures Conserved(Next(s, st))
  {
    if st.Touch? {
      TouchConserves(s, st.focus, st.voices);
    } else if st.Note? {
      NoteIsTouch(s, st.k);
      TouchConserves(s, Marked(s.m, st.k).focus, s.m.voices);
    }
  }

  lemma TeardownConserves(s: Sys, st: Step)
    requires Conserved(s) && Enabled(s, st) && (st.Retire? || st.StartFade? || st.EndFade?)
    ensures Conserved(Next(s, st))
  {
    TeardownKeepsGone(s, st);
  }

  lemma HandStepConserves(s: Sys, st: Step)
    requires Conserved(s) && Enabled(s, st)
    requires st.Build? || st.Discard? || st.Retire? || st.StartFade? || st.EndFade?
    ensures Conserved(Next(s, st))
  {
    if st.Build? {
      BuildConserves(s, st.p);
    } else if st.Discard? {
      DiscardConserves(s, st.p);
    } else {
      TeardownConserves(s, st);
    }
  }

  /** Every step conserves pipelines: none is lost, none is owned twice. */
  lemma StepConserves(s: Sys, st: Step)
    requires Conserved(s) && Enabled(s, st)
    ensures Conserved(Next(s, st))
  {
    if st.Clear? || st.Fail? || st.End? || st.StopOne? || st.StopVoices? || st.PanicLock? || st.StopLock? {
      ManagerStepConserves(s, st);
    } else if st.Swap? || st.PutWarm? {
      InstallStepConserves(s, st);
    } else if st.DropWarm? || st.ClaimWarm? || st.WarmError? {
      WarmStepConserves(s, st);
    } else if st.ArmTake? || st.ArmPut? || st.ArmGiveUp? || st.ClaimStandby? {
      ArmStepConserves(s, st);
    } else if st.Touch? || st.Note? || st.Halt? {
      FlagStepConserves(s, st);
    } else {
      HandStepConserves(s, st);
    }
  }

  // ------------------------------------------------------------ over runs

  /** A run: each step is taken when it can be. */
  ghost function Run(s: Sys, steps: seq<Step>): Sys {
    if |steps| == 0 then s
    else var before := Run(s, steps[..|steps| - 1]);
      if Enabled(before, steps[|steps| - 1]) then Next(before, steps[|steps| - 1]) else before
  }

  lemma {:induction false} RunConserves(s: Sys, steps: seq<Step>)
    requires Conserved(s)
    ensures Conserved(Run(s, steps))
  {
    if |steps| > 0 {
      RunConserves(s, steps[..|steps| - 1]);
      var before := Run(s, steps[..|steps| - 1]);
      if Enabled(before, steps[|steps| - 1]) { StepConserves(before, steps[|steps| - 1]); }
    }
  }

  /** In every interleaving from an empty deck, every pipeline ever built is owned
      by exactly one place. */
  lemma EveryPipelineOwnedOnce(steps: seq<Step>, p: int)
    ensures var s := Run(START, steps);
      Owned(s.m)[p] + Opt(s.standby.p)[p] + s.held[p] + s.doomed[p] + s.parting[p] + s.fading[p] + s.retired[p]
      == if p in s.built then 1 else 0
  {
    assert Conserved(START) by { assert Total(START) == multiset(START.built); }
    RunConserves(START, steps);
    var s := Run(START, steps);
    assert Total(s)[p] == multiset(s.built)[p];
  }

  /** When no operation is under way, whatever is not running, armed or warm has
      been retired, exactly once. */
  lemma IdleMeansRetired(steps: seq<Step>, p: int)
    requires var s := Run(START, steps); s.held == multiset{} && s.doomed == multiset{} && s.parting == multiset{} && s.fading == multiset{}
    requires p in Run(START, steps).built
    ensures var s := Run(START, steps);
      s.retired[p] == if p in Owned(s.m) || s.standby.p == p then 0 else 1
  {
    EveryPipelineOwnedOnce(steps, p);
    var s := Run(START, steps);
    assert (Opt(s.standby.p)[p] > 0) <==> p == s.standby.p && p != 0;
    BuiltIsNotNil(steps);
  }

  lemma BuiltIsNotNil(steps: seq<Step>)
    ensures 0 !in Run(START, steps).built
  {
    assert Conserved(START) by { assert Total(START) == multiset(START.built); }
    RunConserves(START, steps);
  }

  /** What has been given up is never taken back. */
  lemma StepNeverRevives(s: Sys, st: Step)
    requires Enabled(s, st)
    ensures Gone(s) <= Gone(Next(s, st))
  {
    if st.Retire? || st.StartFade? || st.EndFade? { TeardownKeepsGone(s, st); }
  }

  lemma {:induction false} NeverRevived(s: Sys, steps: seq<Step>, p: int)
    requires Conserved(s) && p in Gone(s)
    ensures var r := Run(s, steps); p in Gone(r) && p !in Owned(r.m) && p != r.standby.p && p !in r.held
  {
    if |steps| > 0 {
      NeverRevived(s, steps[..|steps| - 1], p);
      var before := Run(s, steps[..|steps| - 1]);
      if Enabled(before, steps[|steps| - 1]) { StepNeverRevives(before, steps[|steps| - 1]); }
    }
    RunConserves(s, steps);
    OnceEach(Run(s, steps), p);
  }

  /** The panic picture armed is claimed for the same file with the same stamp and for no
      other, and then it is the claimer's alone. */
  lemma StandbyBackIff(s: Sys, p: int, file: string, stamp: string, asked: string, now: string)
    requires Conserved(s) && Enabled(s, ArmPut(p, file, stamp))
    ensures var t := Next(s, ArmPut(p, file, stamp)); var u := Next(t, ClaimStandby(asked, now));
      && t.standby == Armed(p, file, stamp) && t.held == s.held - multiset{p}
      && if asked == file && now == stamp then u == t.(standby := NOT_ARMED, held := s.held) else u == t
  {
    HeldIsFree(s, p);
  }
}
