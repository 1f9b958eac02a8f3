/**
 * The audio side of a connection and its protocol side are one handler: run together they agree on the speech session,
 * on who is speaking, and on which turns' sessions were given audio.
 */
module VoiceAgreement {
  import opened Wrappers
  import opened VoiceProtocol
  import Audio = VoiceAudio

  /** What happens to the connection: audio, a finalize by a new turn, or something that concerns no audio. */
  datatype Happening = Sound(vad: Audio.Vad) | Ready(found: bool) | Ending(turn: nat) | Apart(e: Event)

  /** Both sides; `mark` frames had been pushed when the live session was opened. */
  datatype Joint = Joint(a: Audio.Intake, w: World, mark: nat)

  function VadOf(vad: Audio.Vad): Vad {
    match vad
    case NoChange => Silent
    case SpeechStarted => SpeechStarted
    case SpeechEnded => SpeechEnded
  }

  predicate Concerned(e: Event) {
    e.Frame? || e.SttReady? || e.Finalize?
  }

  /** A frame over the cap is counted on the audio side and goes no further. */
  function Next(j: Joint, h: Happening): Joint {
    match h
    case Sound(vad) =>
      Joint(Audio.Step(j.a, Audio.Frame(vad)), if Audio.Accepts(j.a) then Step(j.w, Frame(VadOf(vad))) else j.w, j.mark)
    case Ready(found) =>
      var a := Audio.Step(j.a, Audio.SttReady(found));
      Joint(a, Step(j.w, SttReady(found)), if a.live && !j.a.live then |a.pushed| else j.mark)
    case Ending(turn) =>
      if turn in j.w.tasks then j
      else Joint(Audio.Step(j.a, Audio.Finalize), Step(j.w, Finalize(turn)), j.mark)
    case Apart(e) => if Concerned(e) then j else j.(w := Step(j.w, e))
  }

  function Run(j: Joint, happenings: seq<Happening>): Joint
    decreases |happenings|
  {
    if happenings == [] then j else Run(Next(j, happenings[0]), happenings[1..])
  }

  const OPENED := Joint(Audio.QUIET, START, 0)

  /** `fed` says that the live session was pushed something. */
  ghost predicate Matches(a: Audio.Intake, s: Session, mark: nat) {
    && a.live == s.stt && a.starting == s.sttStarting && a.speaking == s.userSpeaking
    && (a.live ==> mark <= |a.pushed|)
    && (s.fed <==> a.live && mark < |a.pushed|)
  }

  ghost predicate Agree(j: Joint) {
    Matches(j.a, j.w.s, j.mark) && j.w.s.given <= j.w.tasks.Keys && Audio.Sound(j.a)
  }

  /** What a session has to do with audio. */
  predicate SameAudio(s: Session, s': Session) {
    && s'.stt == s.stt && s'.sttStarting == s.sttStarting && s'.userSpeaking == s.userSpeaking && s'.fed == s.fed
    && s'.given == s.given
  }

  lemma BeginRunLeavesAudio(s: Session, t: nat, task: Task, intent: Intent)
    ensures SameAudio(s, BeginRun(s, t, task, intent).s)
  {}

  lemma FinalizeStepLeavesAudio(s: Session, t: nat, task: Task, answer: Answer)
    ensures SameAudio(s, FinalizeStep(s, t, task, answer).s)
  {
    if task.pc.StartingTurn? { BeginRunLeavesAudio(s, t, task, task.pc.intent); }
  }

  lemma SpeakStepLeavesAudio(s: Session, t: nat, task: Task, answer: Answer)
    requires Speaking(task.pc)
    ensures SameAudio(s, SpeakStep(s, t, task, answer).s)
  {}

  lemma OrchestratorLeavesAudio(s: Session, t: nat, task: Task, answer: Answer)
    ensures SameAudio(s, OrchestratorAnswered(s, t, task, answer).s)
  {}

  lemma RunStepLeavesAudio(s: Session, t: nat, task: Task, answer: Answer)
    requires !Finalizing(task.pc) && !Speaking(task.pc)
    ensures SameAudio(s, RunStep(s, t, task, answer).s)
  {
    if task.pc.Orchestrating? { OrchestratorLeavesAudio(s, t, task, answer); }
  }

  lemma TurnLeavesAudio(s: Session, t: nat, task: Task, answer: Answer)
    ensures SameAudio(s, TurnStep(s, t, task, answer).s)
  {
    if Finalizing(task.pc) {
      FinalizeStepLeavesAudio(s, t, task, answer);
    } else if Speaking(task.pc) {
      SpeakStepLeavesAudio(s, t, task, answer);
    } else {
      RunStepLeavesAudio(s, t, task, answer);
    }
  }

  lemma ApartLeavesAudio(w: World, e: Event)
    requires !Concerned(e)
    ensures SameAudio(w.s, Step(w, e).s) && w.tasks.Keys == Step(w, e).tasks.Keys
  {
    if e.Resume? && e.task in w.tasks { TurnLeavesAudio(w.s, e.task, w.tasks[e.task], e.answer); }
  }

  /** A frame reaches the session that is live, if it is spoken or starts speech. */
  lemma FramePushes(a: Audio.Intake, vad: Audio.Vad)
    requires Audio.Sound(a) && Audio.Accepts(a)
    ensures var a' := Audio.Step(a, Audio.Frame(vad));
      && a'.live == a.live && a'.starting == (if a.live then a.starting else a.starting + 1)
      && a'.speaking == (if vad == Audio.NoChange then a.speaking else vad == Audio.SpeechStarted)
      && |a.pushed| <= |a'.pushed|
      && (|a.pushed| < |a'.pushed| <==> a.live && (a.speaking || vad == Audio.SpeechStarted))
  {}

  lemma FrameOnAudio(s: Session, vad: Vad)
    ensures var s' := HandleFrame(s, vad);
      && s'.given == s.given
      && s'.stt == s.stt && s'.sttStarting == (if s.stt then s.sttStarting else s.sttStarting + 1)
      && s'.userSpeaking == (if vad == Silent then s.userSpeaking else vad == SpeechStarted)
      && s'.fed == (if s.stt then s.fed || s.userSpeaking || vad == SpeechStarted else s.fed)
  {}

  lemma FrameMatches(a: Audio.Intake, s: Session, mark: nat, vad: Audio.Vad)
    requires Matches(a, s, mark) && Audio.Sound(a) && Audio.Accepts(a)
    ensures Matches(Audio.Step(a, Audio.Frame(vad)), HandleFrame(s, VadOf(vad)), mark)
  {
    FramePushes(a, vad);
    FrameOnAudio(s, VadOf(vad));
  }

  lemma ReadyMatches(a: Audio.Intake, s: Session, mark: nat, found: bool)
    requires Matches(a, s, mark)
    ensures var a' := Audio.SessionReady(a, found);
      Matches(a', HandleSttReady(s, found), if a'.live && !a.live then |a'.pushed| else mark)
    ensures HandleSttReady(s, found).given == s.given
  {}

  lemma EndingMatches(a: Audio.Intake, s: Session, mark: nat, turn: nat)
    requires Matches(a, s, mark) && a.live
    ensures Matches(Audio.TakeSession(a), TakeStt(s, turn), mark) && TakeStt(s, turn).given <= s.given + {turn}
  {}

  lemma NextAgrees(j: Joint, h: Happening)
    requires Agree(j)
    ensures Agree(Next(j, h))
  {
    match h
    case Sound(vad) =>
      Audio.StepKeepsSound(j.a, Audio.Frame(vad));
      FrameOnAudio(j.w.s, VadOf(vad));
      if Audio.Accepts(j.a) { FrameMatches(j.a, j.w.s, j.mark, vad); }
    case Ready(found) =>
      Audio.StepKeepsSound(j.a, Audio.SttReady(found));
      ReadyMatches(j.a, j.w.s, j.mark, found);
    case Ending(turn) =>
      Audio.StepKeepsSound(j.a, Audio.Finalize);
      if j.a.live { EndingMatches(j.a, j.w.s, j.mark, turn); }
    case Apart(e) => if !Concerned(e) { ApartLeavesAudio(j.w, e); }
  }

  /** In every run of the two, whatever is interleaved. */
  lemma {:induction false} SidesAgree(j: Joint, happenings: seq<Happening>)
    requires Agree(j)
    ensures Agree(Run(j, happenings))
    decreases |happenings|
  {
    if happenings != [] {
      NextAgrees(j, happenings[0]);
      SidesAgree(Next(j, happenings[0]), happenings[1..]);
    }
  }

  /** So a turn's speech session was given audio exactly when frames were pushed since that session was opened. */
  lemma GivenMeansPushed(happenings: seq<Happening>, turn: nat)
    requires turn !in Run(OPENED, happenings).w.tasks
    ensures var j := Run(OPENED, happenings); var j' := Next(j, Ending(turn));
      && (turn in j'.w.tasks <==> j.a.live)
      && (turn in j'.w.s.given <==> j.a.live && j.mark < |j.a.pushed|)
  {
    SidesAgree(OPENED, happenings);
  }
}
