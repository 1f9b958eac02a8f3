/**
 * The audio intake in terms of its events: what its history records, how far back an onset's pre-roll reaches, and
 * what the pushed-frame counter makes of it.
 */
module VoicePreRoll {
  import opened VoiceAudio

  lemma {:induction false} ExecSnoc(s: Intake, events: seq<Event>, e: Event)
    ensures Exec(s, events + [e]) == Step(Exec(s, events), e)
    decreases |events|
  {
    if events == [] {
      assert events + [e] == [e] && [e][1..] == [];
      assert Exec(Step(s, e), []) == Step(s, e);
    } else {
      assert (events + [e])[1..] == events[1..] + [e];
      ExecSnoc(Step(s, events[0]), events[1..], e);
    }
  }

  /** The intake as the i-th event finds it. */
  function Before(events: seq<Event>, i: nat): Intake
    requires i <= |events|
  {
    Exec(QUIET, events[..i])
  }

  lemma BeforeNext(events: seq<Event>, i: nat)
    requires i < |events|
    ensures Before(events, i + 1) == Step(Before(events, i), events[i])
  {
    assert events[..i + 1] == events[..i] + [events[i]];
    ExecSnoc(QUIET, events[..i], events[i]);
  }

  // ---------------------------------------------------------------------
  // The history is that of the events

  /** The i-th event is frame `f`. */
  ghost predicate Arrives(events: seq<Event>, i: nat, f: nat) {
    i < |events| && events[i].Frame? && Accepts(Before(events, i)) && Before(events, i).received == f
  }

  /** The i-th event empties the buffer, or passes it by. */
  ghost predicate Cuts(events: seq<Event>, i: nat)
    requires i < |events|
  {
    var s := Before(events, i);
    if events[i].Finalize? then s.live
    else events[i].Frame? && Accepts(s) && (s.speaking || events[i].vad == SpeechStarted)
  }

  /** The i-th event is a cut, after `p` frames. */
  ghost predicate IsCut(events: seq<Event>, i: nat, p: nat) {
    i < |events| && Cuts(events, i) && Before(events, i + 1).received == p
  }

  /** A cut took place when so many frames had been accepted. */
  ghost predicate CutAt(events: seq<Event>, p: nat) {
    exists i: nat :: IsCut(events, i, p)
  }

  ghost predicate IsFinalize(events: seq<Event>, i: nat, p: nat) {
    i < |events| && events[i] == Finalize && Before(events, i).live && Before(events, i).received == p
  }

  /** So did a finalize that found a session. */
  ghost predicate FinalizedAt(events: seq<Event>, p: nat) {
    exists i: nat :: IsFinalize(events, i, p)
  }

  lemma StepCuts(s: Intake, e: Event)
    ensures var cuts := if e.Finalize? then s.live
                        else e.Frame? && Accepts(s) && (s.speaking || e.vad == SpeechStarted);
      Step(s, e).cuts == if cuts then s.cuts + {Step(s, e).received} else s.cuts
    ensures Step(s, e).finalizes == if e.Finalize? && s.live then s.finalizes + {s.received} else s.finalizes
  {}

  lemma {:induction false} CutsUpTo(events: seq<Event>, n: nat, p: nat)
    requires n <= |events|
    ensures p in Before(events, n).cuts <==> exists i: nat | i < n :: IsCut(events, i, p)
    decreases n
  {
    if n > 0 {
      CutsUpTo(events, n - 1, p);
      BeforeNext(events, n - 1);
      StepCuts(Before(events, n - 1), events[n - 1]);
      assert p in Before(events, n).cuts <==> p in Before(events, n - 1).cuts || IsCut(events, n - 1, p);
    }
  }

  lemma {:induction false} FinalizesUpTo(events: seq<Event>, n: nat, p: nat)
    requires n <= |events|
    ensures p in Before(events, n).finalizes <==> exists i: nat | i < n :: IsFinalize(events, i, p)
    decreases n
  {
    if n > 0 {
      FinalizesUpTo(events, n - 1, p);
      BeforeNext(events, n - 1);
      StepCuts(Before(events, n - 1), events[n - 1]);
      assert p in Before(events, n).finalizes
        <==> p in Before(events, n - 1).finalizes || IsFinalize(events, n - 1, p);
    }
  }

  /** The recorded positions are those of the run's cuts and finalizes. */
  lemma CutsAreEvents(events: seq<Event>, p: nat)
    ensures p in Exec(QUIET, events).cuts <==> CutAt(events, p)
    ensures p in Exec(QUIET, events).finalizes <==> FinalizedAt(events, p)
  {
    assert events[..|events|] == events;
    CutsUpTo(events, |events|, p);
    FinalizesUpTo(events, |events|, p);
  }

  /** What was recorded of the frames received so far stays. */
  ghost predicate Grows(s: Intake, s': Intake) {
    && s.received <= s'.received && s.spokenAt <= s'.spokenAt && s.liveAt <= s'.liveAt
    && forall o | 0 <= o < s.received :: o in s'.onsets <==> o in s.onsets
  }

  lemma StepGrows(s: Intake, e: Event)
    ensures Grows(s, Step(s, e))
  {}

  lemma {:induction false} LaterGrows(events: seq<Event>, i: nat, n: nat)
    requires i <= n <= |events|
    ensures Grows(Before(events, i), Before(events, n))
    decreases n - i
  {
    if i < n {
      LaterGrows(events, i, n - 1);
      BeforeNext(events, n - 1);
      StepGrows(Before(events, n - 1), events[n - 1]);
    }
  }

  lemma ArrivalIsRecorded(s: Intake, vad: Vad)
    requires Sound(s) && Accepts(s)
    ensures var s' := Step(s, Frame(vad)); var f := s.received;
      && s'.received == f + 1 && |s'.spokenAt| == |s'.liveAt| == f + 1
      && s'.spokenAt[f] == s.speaking && s'.liveAt[f] == s.live
      && (f in s'.onsets <==> !s.speaking && vad == SpeechStarted)
  {}

  /** What is recorded of a frame is what its event found. */
  lemma FramesAreEvents(events: seq<Event>, i: nat, f: nat)
    requires Arrives(events, i, f)
    ensures var (s, found) := (Exec(QUIET, events), Before(events, i));
      && f < s.received == |s.spokenAt| == |s.liveAt|
      && s.spokenAt[f] == found.speaking && s.liveAt[f] == found.live
      && (f in s.onsets <==> !found.speaking && events[i].vad == SpeechStarted)
  {
    var n := |events|;
    assert events[..n] == events;
    ExecKeepsSound(QUIET, events);
    ExecKeepsSound(QUIET, events[..i]);
    BeforeNext(events, i);
    ArrivalIsRecorded(Before(events, i), events[i].vad);
    LaterGrows(events, i + 1, n);
    var s1, s := Before(events, i + 1), Before(events, n);
    assert s1.spokenAt[f] == s.spokenAt[f] && s1.liveAt[f] == s.liveAt[f];
  }

  lemma StepReceives(s: Intake, e: Event)
    ensures Step(s, e).received == s.received + if e.Frame? && Accepts(s) then 1 else 0
  {}

  lemma {:induction false} ArrivedUpTo(events: seq<Event>, n: nat, f: nat) returns (i: nat)
    requires n <= |events| && f < Before(events, n).received
    ensures Arrives(events, i, f)
    decreases n
  {
    assert n > 0;
    BeforeNext(events, n - 1);
    StepReceives(Before(events, n - 1), events[n - 1]);
    if f < Before(events, n - 1).received {
      i := ArrivedUpTo(events, n - 1, f);
    } else {
      i := n - 1;
    }
  }

  /** And every accepted frame came with an event. */
  lemma EveryFrameArrives(events: seq<Event>, f: nat) returns (i: nat)
    requires f < Exec(QUIET, events).received
    ensures Arrives(events, i, f)
  {
    assert events[..|events|] == events;
    i := ArrivedUpTo(events, |events|, f);
  }

  // ---------------------------------------------------------------------
  // How far back a window reaches

  /** `n` is the last cut of the run up to frame `at`. */
  ghost predicate IsLastCut(events: seq<Event>, n: nat, at: nat) {
    n <= at && (n == 0 || CutAt(events, n)) && forall p: nat | CutAt(events, p) :: p <= at ==> p <= n
  }

  lemma LastCutIsUnique(events: seq<Event>, a: nat, b: nat, at: nat)
    requires IsLastCut(events, a, at) && IsLastCut(events, b, at)
    ensures a == b
  {}

  /**
   * Each window reaches back to the third frame ending at its onset, but not past the last cut up to the onset; and
   * no finalize falls between its onset and its end.
   */
  lemma WindowsReachBack(events: seq<Event>, i: nat)
    requires i < |Exec(QUIET, events).windows|
    ensures var w := Exec(QUIET, events).windows[i];
      && w.start == Max(w.floor, w.onset - (PRE_SPEECH_BUFFER_FRAMES - 1))
      && (forall n: nat :: IsLastCut(events, n, w.onset) <==> n == w.floor)
      && (forall p: nat | FinalizedAt(events, p) :: p <= w.floor || w.end <= p)
  {
    var s := Exec(QUIET, events);
    var w := s.windows[i];
    ExecKeepsSound(QUIET, events);
    assert w in s.windows && WindowOk(s, w);
    FloorIsLastCut(events, w.floor, w.onset);
    forall p: nat | FinalizedAt(events, p) ensures p in s.finalizes { CutsAreEvents(events, p); }
  }

  lemma FloorIsLastCut(events: seq<Event>, floor: nat, at: nat)
    requires IsFloor(Exec(QUIET, events).cuts, floor, at)
    ensures forall n: nat :: IsLastCut(events, n, at) <==> n == floor
  {
    CutsAreEvents(events, floor);
    forall p: nat | CutAt(events, p) ensures p in Exec(QUIET, events).cuts { CutsAreEvents(events, p); }
    forall n: nat | IsLastCut(events, n, at) ensures n == floor { LastCutIsUnique(events, n, floor, at); }
  }

  // ---------------------------------------------------------------------
  // The counter

  /** The frames of pre-roll this event pushes. */
  function PreRoll(s: Intake, e: Event): nat {
    if e == Frame(SpeechStarted) && Accepts(s) && s.live then |Stored(s).buffer| else 0
  }

  /** A frame spoken while no session is live is counted, and goes nowhere. */
  function Lost(s: Intake, e: Event): nat {
    if e.Frame? && Accepts(s) && s.speaking && !s.live then 1 else 0
  }

  /** A finalize that finds a session resets the counter. */
  predicate Resets(s: Intake, e: Event) {
    e.Finalize? && s.live
  }

  /** The frames of pre-roll pushed since the last such finalize, `total` of them before these events. */
  function PreRollsSince(s: Intake, events: seq<Event>, total: nat): nat
    decreases |events|
  {
    if events == [] then total
    else PreRollsSince(Step(s, events[0]), events[1..],
                       if Resets(s, events[0]) then 0 else total + PreRoll(s, events[0]))
  }

  /** The frames lost since then, `total` of them before these events. */
  function LostSince(s: Intake, events: seq<Event>, total: nat): nat
    decreases |events|
  {
    if events == [] then total
    else LostSince(Step(s, events[0]), events[1..], if Resets(s, events[0]) then 0 else total + Lost(s, events[0]))
  }

  /** How many frames had been pushed at the last such finalize, `mark` of them before these events. */
  function PushedAtFinalize(s: Intake, events: seq<Event>, mark: nat): nat
    decreases |events|
  {
    if events == [] then mark
    else PushedAtFinalize(Step(s, events[0]), events[1..], if Resets(s, events[0]) then |s.pushed| else mark)
  }

  lemma StepPushes(s: Intake, e: Event)
    requires !Resets(s, e)
    ensures |Step(s, e).pushed| + Lost(s, e) + s.pushedCount
         == |s.pushed| + PreRoll(s, e) + Step(s, e).pushedCount
  {}

  /** A reset starts the balance anew, and every other event keeps it. */
  lemma StepBalances(s: Intake, e: Event, mark: nat, lost: nat, preRolls: nat)
    requires |s.pushed| + lost == mark + s.pushedCount + preRolls
    ensures var s' := Step(s, e);
      |s'.pushed| + (if Resets(s, e) then 0 else lost + Lost(s, e))
      == (if Resets(s, e) then |s.pushed| else mark) + s'.pushedCount
         + (if Resets(s, e) then 0 else preRolls + PreRoll(s, e))
  {
    if !Resets(s, e) { StepPushes(s, e); }
  }

  lemma {:induction false} CounterBalances(s: Intake, events: seq<Event>, mark: nat, lost: nat, preRolls: nat)
    requires |s.pushed| + lost == mark + s.pushedCount + preRolls
    ensures var s' := Exec(s, events);
      |s'.pushed| + LostSince(s, events, lost)
      == PushedAtFinalize(s, events, mark) + s'.pushedCount + PreRollsSince(s, events, preRolls)
    decreases |events|
  {
    if events != [] {
      var e := events[0];
      StepBalances(s, e, mark, lost, preRolls);
      CounterBalances(Step(s, e), events[1..], if Resets(s, e) then |s.pushed| else mark,
                      if Resets(s, e) then 0 else lost + Lost(s, e),
                      if Resets(s, e) then 0 else preRolls + PreRoll(s, e));
    }
  }

  /**
   * The counter leaves out the pre-rolls pushed since the last finalize and counts the frames lost since then, so it
   * is the number of frames pushed since then exactly when those are equally many.
   */
  lemma CounterIsRightIff(events: seq<Event>)
    ensures var s := Exec(QUIET, events); var since := |s.pushed| - PushedAtFinalize(QUIET, events, 0);
      && since == s.pushedCount - LostSince(QUIET, events, 0) + PreRollsSince(QUIET, events, 0)
      && (s.pushedCount == since <==> LostSince(QUIET, events, 0) == PreRollsSince(QUIET, events, 0))
  {
    CounterBalances(QUIET, events, 0, 0, 0);
  }

  /** It can be short of the pre-roll. */
  lemma AnOnsetIsNotCounted(s: Intake)
    requires Sound(s) && s.live && !s.speaking && Accepts(s)
    ensures var s' := Step(s, Frame(SpeechStarted));
      && s'.pushedCount == s.pushedCount && |s.pushed| < |s'.pushed| <= |s.pushed| + PRE_SPEECH_BUFFER_FRAMES
      && s'.pushed[|s'.pushed| - 1] == s.received
  {
    SameHistory(s, Admitted(s));
    StoreKeepsSound(Admitted(s));
    var kept := Stored(s);
    assert kept.buffer[|kept.buffer| - 1] == s.received;
  }

  /** And it can be too high: after a finalize in mid-speech, a frame is counted that no session gets. */
  lemma AFrameIsLostButCounted(s: Intake)
    requires s.live && s.speaking
    ensures var s' := Step(Step(s, Finalize), Frame(NoChange));
      s'.pushedCount == 1 && s'.pushed == s.pushed
  {}
}
