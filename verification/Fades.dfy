/** Crossfades waiting for the incoming cue (gsp/wall.go: awaitIncoming,
    incomingShown, fadeOutgoing, retireOutgoing): two channels per fade, each to be
    closed once, in every interleaving.  Closing one twice would crash the program. */
module Fades {

  /** pending: fades parked under an incoming pipeline; releasing: taken off the
      table, start not closed yet; started, stopped: how often the start and the done
      channel were closed; ran: fades whose goroutine has begun; outgoers: those of them
      still fading.  calls: retireOutgoing calls so far; listed: fades a call has still
      to look at, as (call, fade); looked: fades whose done channel a call found open
      and is about to close. */
  datatype Sys = Sys(parked: set<int>, pending: map<int, multiset<int>>, releasing: multiset<int>, started: multiset<int>,
                     ran: set<int>, outgoers: set<int>,
                     calls: set<int>, listed: set<(int, int)>, looked: set<(int, int)>, stopped: multiset<int>)

  const START := Sys({}, map[], multiset{}, multiset{}, {}, {}, {}, {}, {}, multiset{})

  datatype Step =
    | Park(incoming: int, o: int)
    | Shown(incoming: int)
    | Release(o: int)
    | Begin(o: int)
    | End(o: int)
    | List(call: int)
    | Look(call: int, o: int)
    | Close(call: int, o: int)

  /** A fade is one object with one goroutine, started after it is parked; a call
      looks at the fades of its list one after the other. */
  predicate Enabled(s: Sys, st: Step) {
    match st
    case Park(_, o) => o !in s.parked && o !in s.ran
    case Release(o) => o in s.releasing
    case Begin(o) => o !in s.ran
    case End(o) => o in s.outgoers
    case List(call) => call !in s.calls
    case Look(call, o) => (call, o) in s.listed && forall x :: x in s.looked ==> x.0 != call
    case Close(call, o) => (call, o) in s.looked
    case Shown(_) => true
  }

  function Next(s: Sys, st: Step): Sys {
    match st
    case Park(incoming, o) =>
      s.(parked := s.parked + {o},
         pending := s.pending[incoming := (if incoming in s.pending then s.pending[incoming] else multiset{}) + multiset{o}])
    case Shown(incoming) =>
      if incoming in s.pending then s.(pending := s.pending - {incoming}, releasing := s.releasing + s.pending[incoming]) else s
    case Release(o) => s.(releasing := s.releasing - multiset{o}, started := s.started + multiset{o})
    case Begin(o) => s.(ran := s.ran + {o}, outgoers := s.outgoers + {o})
    case End(o) => s.(outgoers := s.outgoers - {o})
    case List(call) => s.(calls := s.calls + {call}, listed := s.listed + set o | o in s.outgoers :: (call, o))
    case Look(call, o) =>
      s.(listed := s.listed - {(call, o)}, looked := if s.stopped[o] == 0 then s.looked + {(call, o)} else s.looked)
    case Close(call, o) => s.(looked := s.looked - {(call, o)}, stopped := s.stopped + multiset{o})
  }

  /** A fade waits under at most one incoming pipeline, or is being released, or has
      been started; never two of these, never one of them twice. */
  ghost predicate Once(s: Sys) {
    && (forall o :: o in s.releasing || o in s.started ==> o in s.parked)
    && (forall p, o {:trigger s.pending[p][o]} :: p in s.pending && s.pending[p][o] > 0 ==> o in s.parked)
    && (forall o :: s.releasing[o] + s.started[o] <= 1)
    && (forall p, o {:trigger s.pending[p][o]} :: p in s.pending ==> s.pending[p][o] + s.releasing[o] + s.started[o] <= 1)
    && (forall p, q, o {:trigger s.pending[p][o], s.pending[q][o]} :: p in s.pending && q in s.pending && p != q ==>
          s.pending[p][o] + s.pending[q][o] <= 1)
  }

  lemma StepOnce(s: Sys, st: Step)
    requires Once(s) && Enabled(s, st)
    ensures Once(Next(s, st))
  {
    match st
    case Shown(incoming) => if incoming in s.pending { ShownOnce(s, incoming); }
    case Park(incoming, o) => assert s.releasing[o] == 0 && s.started[o] == 0;
    case _ =>
  }

  lemma ShownOnce(s: Sys, incoming: int)
    requires Once(s) && incoming in s.pending
    ensures Once(Next(s, Shown(incoming)))
  {
    var t := Next(s, Shown(incoming));
    forall o ensures t.releasing[o] == s.releasing[o] + s.pending[incoming][o] {}
    forall p, o | p in t.pending ensures t.pending[p][o] + t.releasing[o] + t.started[o] <= 1 {
      assert s.pending[p][o] + s.pending[incoming][o] <= 1;
      assert s.pending[incoming][o] + s.releasing[o] + s.started[o] <= 1;
    }
  }

  ghost function Run(steps: seq<Step>): Sys {
    if |steps| == 0 then START
    else var s := Run(steps[..|steps| - 1]);
      if Enabled(s, steps[|steps| - 1]) then Next(s, steps[|steps| - 1]) else s
  }

  /** However shows, failures and retirements of incoming cues race, no fade's start
      channel is closed twice. */
  lemma {:induction false} StartedAtMostOnce(steps: seq<Step>)
    ensures Once(Run(steps)) && forall o :: Run(steps).started[o] <= 1
  {
    if |steps| > 0 {
      StartedAtMostOnce(steps[..|steps| - 1]);
      var s := Run(steps[..|steps| - 1]);
      if Enabled(s, steps[|steps| - 1]) { StepOnce(s, steps[|steps| - 1]); }
    }
  }

  // ------------------------------------------------------------ the done channel

  /** Two calls have both found the fade's done channel open and not closed it yet. */
  ghost predicate Overlap(s: Sys, o: int) {
    exists a, b :: a != b && (a, o) in s.looked && (b, o) in s.looked
  }

  ghost predicate OverlapAt(steps: seq<Step>, k: nat, o: int)
    requires k <= |steps|
  {
    Overlap(Run(steps[..k]), o)
  }

  ghost predicate Overlapped(steps: seq<Step>, o: int) {
    exists k :: 0 <= k <= |steps| && OverlapAt(steps, k, o)
  }

  lemma OverlappedSnoc(steps: seq<Step>, o: int)
    requires |steps| > 0
    ensures Overlapped(steps, o) <==> Overlapped(steps[..|steps| - 1], o) || Overlap(Run(steps), o)
  {
    var n := |steps| - 1;
    var init := steps[..n];
    forall k | 0 <= k <= n ensures OverlapAt(init, k, o) == OverlapAt(steps, k, o) {
      assert init[..k] == steps[..k];
    }
    assert OverlapAt(steps, n + 1, o) == Overlap(Run(steps), o) by { assert steps[..n + 1] == steps; }
  }

  ghost predicate NobodyPast(s: Sys, o: int) {
    forall a :: (a, o) !in s.looked
  }

  /** What one channel has been through: untouched by an overlap it is closed at most
      once and is nobody's to close afterwards; after one, two closes are made or due. */
  ghost predicate ClosesOf(s: Sys, o: int, overlapped: bool) {
    if overlapped then s.stopped[o] >= 2 || (s.stopped[o] == 1 && !NobodyPast(s, o)) || Overlap(s, o)
    else s.stopped[o] == 0 || (s.stopped[o] == 1 && NobodyPast(s, o))
  }

  lemma ClosesStep(s: Sys, st: Step, o: int, overlapped: bool)
    requires Enabled(s, st) && ClosesOf(s, o, overlapped) && (Overlap(s, o) ==> overlapped)
    ensures var t := Next(s, st); ClosesOf(t, o, overlapped || Overlap(t, o))
  {
    var t := Next(s, st);
    match st
    case Look(_, q) => assert t.stopped == s.stopped;
    case Close(call, q) =>
      if q == o {
        assert (call, o) in s.looked;
        if overlapped && s.stopped[o] == 0 {
          var a, b :| a != b && (a, o) in s.looked && (b, o) in s.looked;
          assert (if a == call then b else a, o) in t.looked;
        }
      } else {
        assert forall a :: (a, o) in t.looked <==> (a, o) in s.looked;
      }
    case _ => assert t.looked == s.looked && t.stopped == s.stopped;
  }

  lemma {:induction false} RunCloses(steps: seq<Step>, o: int)
    ensures ClosesOf(Run(steps), o, Overlapped(steps, o)) && (Overlap(Run(steps), o) ==> Overlapped(steps, o))
  {
    if |steps| == 0 {
      assert steps[..0] == steps;
    } else {
      var init := steps[..|steps| - 1];
      RunCloses(init, o);
      OverlappedSnoc(steps, o);
      if Enabled(Run(init), steps[|steps| - 1]) { ClosesStep(Run(init), steps[|steps| - 1], o, Overlapped(init, o)); }
    }
  }

  /** In every run, once no call is between its look and its close: a fade's done
      channel has been closed twice exactly when at some moment two retireOutgoing
      calls were both between their look at it and their close. */
  lemma ClosedTwiceIff(steps: seq<Step>, o: int)
    requires NobodyPast(Run(steps), o)
    ensures Run(steps).stopped[o] >= 2 <==> Overlapped(steps, o)
  {
    RunCloses(steps, o);
  }

  /** No call makes its list while another has fades left to look at or to close. */
  ghost predicate OneAtATime(steps: seq<Step>) {
    forall k :: 0 <= k < |steps| && steps[k].List? ==> var s := Run(steps[..k]); s.listed == {} && s.looked == {}
  }

  lemma {:induction false} OneCaller(steps: seq<Step>) returns (call: int)
    requires OneAtATime(steps)
    ensures forall x :: x in Run(steps).listed || x in Run(steps).looked ==> x.0 == call
  {
    if |steps| == 0 {
      call := 0;
    } else {
      var init := steps[..|steps| - 1];
      assert forall k :: 0 <= k < |init| ==> init[..k] == steps[..k];
      call := OneCaller(init);
      var st := steps[|steps| - 1];
      if st.List? && Enabled(Run(init), st) { call := st.call; }
    }
  }

  /** While retireOutgoing calls do not overlap, every done channel is closed at most
      once, however the fades themselves come and go. */
  lemma OneAtATimeIsSafe(steps: seq<Step>, o: int)
    requires OneAtATime(steps)
    ensures Run(steps).stopped[o] <= 1
  {
    RunCloses(steps, o);
    forall k | 0 <= k <= |steps| ensures !OverlapAt(steps, k, o) {
      assert forall i :: 0 <= i < k ==> steps[..k][..i] == steps[..i];
      var call := OneCaller(steps[..k]);
    }
  }

  lemma RunSnoc(steps: seq<Step>, st: Step)
    ensures Run(steps + [st]) == if Enabled(Run(steps), st) then Next(Run(steps), st) else Run(steps)
  {
    assert (steps + [st])[..|steps|] == steps;
  }

  /** Stop and Panic at once, over one cue fading out: both find its channel open. */
  function BothPast(a: int, b: int, o: int): seq<Step> {
    [Begin(o)] + [List(a)] + [List(b)] + [Look(a, o)] + [Look(b, o)]
  }

  lemma BothListed(a: int, b: int, o: int)
    requires a != b
    ensures var s := Run([Begin(o)] + [List(a)] + [List(b)]);
      s.listed == {(a, o), (b, o)} && s.looked == {} && s.stopped == multiset{}
  {
    assert [] + [Begin(o)] == [Begin(o)];
    RunSnoc([], Begin(o));
    RunSnoc([Begin(o)], List(a));
    RunSnoc([Begin(o)] + [List(a)], List(b));
    assert Run([Begin(o)]).outgoers == {o};
  }

  /** And then the same channel is closed twice. */
  lemma StopAndPanicCollide(a: int, b: int, o: int)
    requires a != b
    ensures Run(BothPast(a, b, o) + [Close(a, o)] + [Close(b, o)]).stopped[o] == 2
  {
    BothListed(a, b, o);
    RunSnoc([Begin(o)] + [List(a)] + [List(b)], Look(a, o));
    RunSnoc([Begin(o)] + [List(a)] + [List(b)] + [Look(a, o)], Look(b, o));
    assert Run(BothPast(a, b, o)).looked == {(a, o), (b, o)} && Run(BothPast(a, b, o)).stopped == multiset{};
    RunSnoc(BothPast(a, b, o), Close(a, o));
    RunSnoc(BothPast(a, b, o) + [Close(a, o)], Close(b, o));
  }
}
