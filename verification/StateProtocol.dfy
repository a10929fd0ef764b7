/** setStateIfCurrent (gsp/gsp.go) against teardown: the write-then-check protocol
    on one pipeline, in every interleaving of any number of calls.

    A call writes the state first and only then looks whether the pipeline still
    runs; a removal clears "running" under the lock and sends the pipeline to NULL
    after it.  NeverRevived (module Playback) is why running, once cleared, stays
    cleared. */
module StateProtocol {

  datatype Gst = Null | Paused | Playing

  /** Where one call is: about to write, written, found itself the loser, returned. */
  datatype Pc = Called(target: Gst) | Wrote | Losing | Returned

  datatype Removal = NotRemoved | Removed | TornDown

  datatype Sys = Sys(state: Gst, removal: Removal, calls: map<int, Pc>)

  datatype Step =
    | Call(c: int, target: Gst)
    | Write(c: int)
    | Check(c: int)
    | GiveUp(c: int)
    | Remove
    | TearDown
    | StopNull
    | Unchecked(target: Gst)

  /** Calls ask for PAUSED or PLAYING; so do the unchecked writes of pauseVoices,
      resumeVoices and voiceEnd. */
  predicate Enabled(s: Sys, st: Step) {
    match st
    case Call(c, target) => c !in s.calls && target != Null
    case Write(c) => c in s.calls && s.calls[c].Called?
    case Check(c) => c in s.calls && s.calls[c].Wrote?
    case GiveUp(c) => c in s.calls && s.calls[c].Losing?
    case Remove => s.removal.NotRemoved?
    case TearDown => s.removal.Removed?
    case StopNull => true
    case Unchecked(target) => target != Null
  }

  function Next(s: Sys, st: Step): Sys
    requires Enabled(s, st)
  {
    match st
    case Call(c, target) => s.(calls := s.calls[c := Called(target)])
    case Write(c) => s.(state := s.calls[c].target, calls := s.calls[c := Wrote])
    case Check(c) => s.(calls := s.calls[c := if s.removal.NotRemoved? then Returned else Losing])
    case GiveUp(c) => s.(state := Null, calls := s.calls[c := Returned])
    case Remove => s.(removal := Removed)
    case TearDown => s.(removal := TornDown, state := Null)
    case StopNull => s.(state := Null)
    case Unchecked(target) => s.(state := target)
  }

  /** A call that has written but not yet come back will still look. */
  predicate InFlight(pc: Pc) {
    pc.Wrote? || pc.Losing?
  }

  ghost predicate SomeInFlight(s: Sys) {
    exists c {:trigger s.calls[c]} :: c in s.calls && InFlight(s.calls[c])
  }

  /** The steps that write NULL, and the last unchecked write, if nothing has
      written NULL since. */
  predicate WritesNull(st: Step) {
    st.TearDown? || st.GiveUp? || st.StopNull?
  }

  function Dangling(steps: seq<Step>): bool {
    if |steps| == 0 then false
    else if steps[|steps| - 1].Unchecked? then true
    else if WritesNull(steps[|steps| - 1]) then false
    else Dangling(steps[..|steps| - 1])
  }

  ghost predicate Valid(s: Sys, steps: seq<Step>)
    decreases |steps|, 0
  {
    |steps| > 0 ==> Valid(s, steps[..|steps| - 1]) && Enabled(Run(s, steps[..|steps| - 1]), steps[|steps| - 1])
  }

  ghost function Run(s: Sys, steps: seq<Step>): Sys
    requires Valid(s, steps)
    decreases |steps|, 1
  {
    if |steps| == 0 then s else Next(Run(s, steps[..|steps| - 1]), steps[|steps| - 1])
  }

  /** A running pipeline in any state, no call on it yet. */
  predicate Fresh(s: Sys) {
    s.removal.NotRemoved? && s.calls == map[]
  }

  /** Torn down, and every call has come back. */
  predicate Quiet(s: Sys) {
    s.removal.TornDown? && forall c | c in s.calls :: s.calls[c].Returned?
  }

  /** The invariant: once torn down, a state other than NULL is either about to be
      undone by a call in flight or was left by an unchecked write. */
  ghost predicate Guarded(s: Sys, dangling: bool) {
    && (s.removal.TornDown? && s.state != Null ==> dangling || SomeInFlight(s))
    && (dangling ==> s.state != Null)
    && forall c :: c in s.calls && s.calls[c].Called? ==> s.calls[c].target != Null
  }

  lemma StepGuarded(s: Sys, st: Step, dangling: bool)
    requires Guarded(s, dangling) && Enabled(s, st)
    ensures Guarded(Next(s, st), st.Unchecked? || (!WritesNull(st) && dangling))
  {
    var t := Next(s, st);
    match st
    case Call(c, target) =>
      forall k | k in s.calls ensures k in t.calls && t.calls[k] == s.calls[k] {}
    case Write(c) => assert InFlight(t.calls[c]);
    case Check(c) =>
      if s.removal.TornDown? { assert InFlight(t.calls[c]); }
    case _ =>
      assert t.calls == s.calls || st.GiveUp?;
  }

  lemma {:induction false} RunGuarded(s: Sys, steps: seq<Step>)
    requires Fresh(s) && Valid(s, steps)
    ensures Guarded(Run(s, steps), Dangling(steps))
  {
    if |steps| > 0 {
      RunGuarded(s, steps[..|steps| - 1]);
      StepGuarded(Run(s, steps[..|steps| - 1]), steps[|steps| - 1], Dangling(steps[..|steps| - 1]));
    }
  }

  /** In every interleaving of checked calls with a removal, the pipeline is in NULL
      once it has been torn down and no call is in flight. */
  lemma CheckedCallsEndInNull(s: Sys, steps: seq<Step>)
    requires Fresh(s) && Valid(s, steps) && Quiet(Run(s, steps))
    requires forall i :: 0 <= i < |steps| ==> !steps[i].Unchecked?
    ensures Run(s, steps).state == Null
  {
    RunGuarded(s, steps);
    NoUncheckedNoDangling(steps);
  }

  lemma {:induction false} NoUncheckedNoDangling(steps: seq<Step>)
    requires forall i :: 0 <= i < |steps| ==> !steps[i].Unchecked?
    ensures !Dangling(steps)
  {
    if |steps| > 0 { NoUncheckedNoDangling(steps[..|steps| - 1]); }
  }

  /** With unchecked writes as well, it ends in NULL exactly when some write of NULL
      follows the last of them. */
  lemma EndsInNullIff(s: Sys, steps: seq<Step>)
    requires Fresh(s) && Valid(s, steps) && Quiet(Run(s, steps))
    ensures Run(s, steps).state == Null <==> !Dangling(steps)
  {
    RunGuarded(s, steps);
  }

  /** One unchecked write after the teardown brings a retired pipeline back. */
  lemma UncheckedRevives(s: Sys, target: Gst)
    requires Fresh(s) && target != Null
    ensures var steps := [Remove, TearDown, Unchecked(target)];
      Valid(s, steps) && Quiet(Run(s, steps)) && Run(s, steps).state == target
  {
    var one, two, three := [Remove], [Remove, TearDown], [Remove, TearDown, Unchecked(target)];
    assert one[..0] == [] && two[..1] == one && three[..2] == two;
    assert Valid(s, []) && Valid(s, one) && Valid(s, two) && Valid(s, three);
    assert Run(s, []) == s && Run(s, one) == Next(s, Remove);
    assert Run(s, two) == Next(Next(s, Remove), TearDown);
  }
}
