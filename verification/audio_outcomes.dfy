/** What one audio frame, one finalize and one new speech session come to: what is pushed, kept and counted. */
module AudioOutcomes {
  import opened VoiceAudio

  function LastThree(frames: seq<nat>): seq<nat> {
    if |frames| <= 3 then frames else frames[|frames| - 3..]
  }

  /** One frame more has arrived, and been counted; without a session it asks for one. */
  ghost predicate Counted(s: Intake, s': Intake) {
    && s'.received == s.received + 1 && s'.sinceFinalize == s.sinceFinalize + 1 && s'.live == s.live
    && s'.starting == if s.live then s.starting else s.starting + 1
  }

  /** A frame that comes while the user speaks is given to the session there is, and counted even without one. */
  lemma SpokenFrameIsPushed(s: Intake, vad: Vad)
    requires s.sinceFinalize < 2000 && s.speaking && vad != SpeechStarted
    ensures var s' := Step(s, Frame(vad));
      && Counted(s, s') && s'.speaking == (vad == NoChange) && s'.buffer == s.buffer
      && s'.pushed == (if s.live then s.pushed + [s.received] else s.pushed) && s'.pushedCount == s.pushedCount + 1
  {}

  /** One that comes before is kept, the last three at a time. */
  lemma SilentFrameIsKept(s: Intake, vad: Vad)
    requires s.sinceFinalize < 2000 && !s.speaking && vad != SpeechStarted && |s.buffer| <= 3
    ensures var s' := Step(s, Frame(vad));
      && Counted(s, s') && !s'.speaking && s'.buffer == LastThree(s.buffer + [s.received])
      && s'.pushed == s.pushed && s'.pushedCount == s.pushedCount
  {}

  /** Where speech starts those kept are given to the session there is, this frame last, and none is kept. */
  lemma OnsetPushesTheKept(s: Intake)
    requires s.sinceFinalize < 2000 && !s.speaking && |s.buffer| <= 3
    ensures var s' := Step(s, Frame(SpeechStarted));
      && Counted(s, s') && s'.speaking && s'.buffer == [] && s'.pushedCount == s.pushedCount
      && s'.pushed == if s.live then s.pushed + LastThree(s.buffer + [s.received]) else s.pushed
  {}

  /** A frame over the two thousand of a turn is counted, and goes nowhere. */
  lemma FramesPastTheCapAreRefused(s: Intake, vad: Vad)
    requires s.sinceFinalize >= 2000
    ensures Step(s, Frame(vad)) == s.(sinceFinalize := s.sinceFinalize + 1)
  {}

  /** A finalize takes the session there is, and starts all counts anew; without one it does nothing. */
  lemma FinalizeClears(s: Intake)
    ensures var s' := Step(s, Finalize);
      if !s.live then s' == s
      else
        && !s'.live && s'.buffer == [] && s'.pushedCount == 0 && s'.sinceFinalize == 0
        && s'.starting == s.starting && s'.speaking == s.speaking && s'.pushed == s.pushed
        && s'.received == s.received
  {}

  /** An answer nobody waits for is ignored; one that is waited for opens the session, if there is a provider. */
  lemma SessionArrives(s: Intake, found: bool)
    ensures s.starting == 0 ==> Step(s, SttReady(found)) == s
    ensures s.starting > 0 ==>
      Step(s, SttReady(found)) == s.(starting := s.starting - 1, live := s.live || found)
  {}

  /** In every run no more than three are kept. */
  lemma {:induction false} BufferStaysSmall(s: Intake, events: seq<Event>)
    requires |s.buffer| <= 3
    ensures |Exec(s, events).buffer| <= 3
    decreases |events|
  {
    if events != [] { BufferStaysSmall(Step(s, events[0]), events[1..]); }
  }
}
