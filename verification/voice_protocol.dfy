/**
 * One voice connection. Audio frames, interrupts, delayed finalizes and
 * in-flight turns all change one session state; a turn is suspended at every
 * await, and anything may happen before it resumes.
 *
 * Generation ids are minted in order, so the current one is also the newest.
 */
module VoiceProtocol {
  import opened Wrappers

  datatype Intent = Affirm | Deny | Other

  datatype EventKind =
    | TranscriptFinal | ThinkingStarted | SpeakingStarted | AudioChunk | SpeakingEnded | PendingConfirmation
    | ActionExecuted | ClarificationNeeded | LatencyMetrics | Error

  /** A message handed to the client's socket on behalf of a turn. */
  datatype Sent = Sent(task: nat, generation: nat, kind: EventKind)

  /** VoiceRuntimeState, and after it the history the properties speak of. */
  datatype Session = Session(
    generation: nat,
    stt: bool,
    sttStarting: nat,
    sttGeneration: Option<nat>,
    userSpeaking: bool,
    tts: Option<nat>,                // whose abort controller is installed
    aborted: set<nat>,               // whose abort controllers were aborted
    currentTurn: Option<nat>,
    currentMessage: Option<nat>,
    currentPending: Option<nat>,
    recentInterruption: bool,
    open: set<nat>,
    nextAction: nat,
    sent: seq<Sent>,
    announced: set<nat>,             // ids the client was asked about
    dropped: set<nat>,               // ids a stale turn obtained, and goes on to cancel
    resolved: set<nat>,              // ids taken out of `open` to be approved or rejected
    bargeCancelled: set<nat>,        // ids cancelled by stopActiveGeneration
    taken: set<nat>,                 // generations some finalize has captured
    fed: bool,                       // has the live STT session been given any audio?
    given: set<nat>)                 // turns whose STT session had been given some

  /** Where speak() returns to. */
  datatype Then = AfterConfirmation | AfterAnswer

  datatype Pc =
    // finalizeTurn
    | Transitioning | Transcribing | BackToListening
    | EnteringThinking(intent: Intent) | StartingTurn(intent: Intent) | DiscardingTurn
    // VoiceTurnRunner.run
    | Approving(action: nat) | Rejecting(action: nat)
    | FindingUser | Orchestrating
    | CancellingStale | MarkingStale | InterruptingStale
    | AfterSpeak(next: Then) | Completing | CompletingAnswer | Returning
    // VoiceTurnRunner.speak
    | CreatingTts(next: Then) | LoadingProfile(next: Then)
    | Streaming(next: Then, parts: nat) | Delivering(next: Then, audio: bool)
    | Finished

  datatype Task = Task(generation: Option<nat>, pc: Pc)

  datatype World = World(s: Session, tasks: map<nat, Task>)

  datatype Answer =
    | Yes | No                       // an operation succeeds, or fails / finds nothing / ends
    | Heard(text: Option<Intent>)    // STT: nothing intelligible, or a transcript and its confirmation intent
    | Confirm                        // the orchestrator proposes an action that needs confirmation
    | Chunk                          // one more TTS chunk

  datatype Vad = Silent | SpeechStarted | SpeechEnded

  datatype Event =
    | Frame(vad: Vad)
    | SttReady(found: bool)
    | Interrupt
    | Finalize(task: nat)
    | Resume(task: nat, answer: Answer)
    | Reject(task: nat)              // the operation a turn awaits throws

  // ---------------------------------------------------------------------
  // Gateway handlers

  function StopActiveGeneration(s: Session): Session {
    s.(aborted := if s.tts.Some? then s.aborted + {s.tts.value} else s.aborted,
       tts := None, currentTurn := None, currentMessage := None, currentPending := None,
       bargeCancelled := if s.currentPending.Some? && s.currentPending.value !in s.open
                         then s.bargeCancelled + {s.currentPending.value} else s.bargeCancelled)
  }

  function InterruptSession(s: Session, bump: bool): Session {
    var s' := StopActiveGeneration(s.(recentInterruption := true));
    if bump then s'.(generation := s.generation + 1) else s'
  }

  /** A frame is pushed during speech; an onset pushes what was kept before it, this frame at least. */
  function HandleFrame(s: Session, vad: Vad): Session {
    var s1 := if s.stt then s.(fed := s.fed || s.userSpeaking || vad == SpeechStarted)
              else s.(sttStarting := s.sttStarting + 1);
    match vad
    case Silent => s1
    case SpeechEnded => s1.(userSpeaking := false)
    case SpeechStarted =>
      var s2 := s1.(generation := s.generation + 1, sttGeneration := Some(s.generation + 1), userSpeaking := true);
      if s2.tts.Some? || s2.currentTurn.Some? then InterruptSession(s2, false) else s2
  }

  function HandleSttReady(s: Session, found: bool): Session {
    if s.sttStarting == 0 then s
    else
      var s1 := s.(sttStarting := s.sttStarting - 1);
      if found && !s.stt then
        s1.(stt := true, fed := false,
            sttGeneration := if s.sttGeneration.Some? then s.sttGeneration else Some(s.generation))
      else s1
  }

  /** finalizeTurn up to its first await: it takes the STT session and the generation it was recorded under. */
  function TakeStt(s: Session, t: nat): Session {
    s.(stt := false, sttGeneration := None, fed := false, given := if s.fed then s.given + {t} else s.given,
       taken := if s.sttGeneration.Some? then s.taken + {s.sttGeneration.value} else s.taken)
  }

  // ---------------------------------------------------------------------
  // Turn steps

  predicate Current(s: Session, task: Task) {
    task.generation == Some(s.generation)
  }

  /**
   * What one step of a turn does: the session it leaves, where it waits next, and the messages it hands to the socket.
   */
  datatype Out = Out(s: Session, pc: Pc, says: seq<EventKind>)

  /** `if (!isStale()) events.on…` */
  function IfCurrent(s: Session, task: Task, kind: EventKind): seq<EventKind> {
    if Current(s, task) then [kind] else []
  }

  /** `if (!isStale()) await this.speak(…)`, then the turn row is completed. */
  function SpeakConfirmation(s: Session, task: Task): Pc {
    if Current(s, task) then CreatingTts(AfterConfirmation) else Completing
  }

  /** run() up to its first await: a spoken yes or no is bound to the one open action, or is a new message. */
  function BeginRun(s: Session, t: nat, task: Task, intent: Intent): Out {
    var s1 := s.(currentTurn := Some(t), recentInterruption := false);
    if s1.open != {} && intent != Other then
      if |s1.open| > 1 then Out(s1, Completing, IfCurrent(s, task, ClarificationNeeded))
      else
        var action := Sole(s1.open);
        Out(s1.(open := s1.open - {action}, resolved := s1.resolved + {action}),
            if intent == Affirm then Approving(action) else Rejecting(action), [])
    else Out(s1, FindingUser, IfCurrent(s, task, ThinkingStarted))
  }

  function Sole(ids: set<nat>): (id: nat)
    requires |ids| == 1
    ensures ids == {id}
  {
    SoleIsUnique(ids);
    var id :| id in ids; id
  }

  lemma SoleIsUnique(ids: set<nat>)
    requires |ids| == 1
    ensures forall x, y | x in ids && y in ids :: x == y
    ensures exists x :: x in ids
    ensures forall x | x in ids :: ids == {x}
  {
    var x :| x in ids;
    assert |ids - {x}| == 0;
    assert ids == {x};
  }

  /** The orchestrator answered: a stale turn cancels what it was given, a current one announces it. */
  function OrchestratorAnswered(s: Session, t: nat, task: Task, answer: Answer): Out {
    if answer == No then Out(s, Completing, IfCurrent(s, task, Error))
    else
      var action := if answer == Confirm then Some(s.nextAction) else None;
      var s1 := s.(currentMessage := Some(t), currentPending := action,
                   nextAction := if answer == Confirm then s.nextAction + 1 else s.nextAction);
      if !Current(s, task) then
        if action.Some? then Out(s1.(dropped := s1.dropped + {action.value}), CancellingStale, [])
        else Out(s1, MarkingStale, [])
      else if action.Some? then
        Out(s1.(open := s1.open + {action.value}, announced := s1.announced + {action.value}),
            CreatingTts(AfterAnswer), [PendingConfirmation])
      else Out(s1, CreatingTts(AfterAnswer), [])
  }

  predicate Cut(s: Session, t: nat, task: Task) {
    t in s.aborted || !Current(s, task)
  }

  /** speak(): provider, profile, buffered synthesis, one audio message. */
  function SpeakStep(s: Session, t: nat, task: Task, answer: Answer): Out {
    match task.pc
    case CreatingTts(next) =>
      Out(s, if answer == Yes && Current(s, task) then LoadingProfile(next) else AfterSpeak(next), [])
    case LoadingProfile(next) =>
      if Current(s, task) then Out(s.(tts := Some(t)), Streaming(next, 0), [SpeakingStarted])
      else Out(s, AfterSpeak(next), [])
    case Streaming(next, parts) =>
      if answer == Chunk then
        Out(s, if Cut(s, t, task) then Delivering(next, false) else Streaming(next, parts + 1), [])
      else Out(s, Delivering(next, answer == Yes && !Cut(s, t, task) && parts > 0), [])
    case Delivering(next, audio) =>
      Out(if s.tts == Some(t) then s.(tts := None) else s, AfterSpeak(next),
          (if audio && !Cut(s, t, task) then [AudioChunk] else []) + IfCurrent(s, task, SpeakingEnded))
    case _ => Out(s, task.pc, [])
  }

  /** finalizeTurn, from the STT answer to the start of the turn. */
  function FinalizeStep(s: Session, t: nat, task: Task, answer: Answer): Out {
    match task.pc
    case Transitioning => Out(s, Transcribing, [])
    case Transcribing =>
      if !Current(s, task) || !answer.Heard? then Out(s, Finished, [])
      else if answer.text.None? then Out(s, BackToListening, [])
      else Out(s, EnteringThinking(answer.text.value), [TranscriptFinal])
    case EnteringThinking(intent) =>
      if Current(s, task) then Out(StopActiveGeneration(s), StartingTurn(intent), []) else Out(s, Finished, [])
    case StartingTurn(intent) =>
      if Current(s, task) then BeginRun(s, t, task, intent) else Out(s, DiscardingTurn, [])
    case Returning => Out(if s.currentTurn == Some(t) then s.(currentTurn := None) else s, Finished, [])
    case _ => Out(s, Finished, [])
  }

  predicate Finalizing(pc: Pc) {
    pc.Transitioning? || pc.Transcribing? || pc.BackToListening? || pc.EnteringThinking? || pc.StartingTurn?
    || pc.DiscardingTurn? || pc.Returning? || pc.Finished?
  }

  predicate Speaking(pc: Pc) {
    pc.CreatingTts? || pc.LoadingProfile? || pc.Streaming? || pc.Delivering?
  }

  function RunStep(s: Session, t: nat, task: Task, answer: Answer): Out {
    match task.pc
    case Approving(_) =>
      Out(s, SpeakConfirmation(s, task), if answer == Yes then IfCurrent(s, task, ActionExecuted) else [])
    case Rejecting(_) => Out(s, SpeakConfirmation(s, task), [])
    case FindingUser => Out(s, Orchestrating, [])
    case Orchestrating => OrchestratorAnswered(s, t, task, answer)
    case CancellingStale => Out(s, MarkingStale, [])
    case MarkingStale => Out(s.(currentMessage := None, currentPending := None), InterruptingStale, [])
    case AfterSpeak(next) =>
      if next == AfterConfirmation then Out(s, Completing, [])
      else Out(s, CompletingAnswer, IfCurrent(s, task, LatencyMetrics))
    case CompletingAnswer => Out(s.(currentMessage := None, currentPending := None), Returning, [])
    case _ => Out(s, Returning, [])
  }

  function TurnStep(s: Session, t: nat, task: Task, answer: Answer): Out {
    if Finalizing(task.pc) then FinalizeStep(s, t, task, answer)
    else if Speaking(task.pc) then SpeakStep(s, t, task, answer)
    else RunStep(s, t, task, answer)
  }

  /** Awaits whose rejection is not caught: it ends the turn, and everything stays as the turn left it. */
  predicate MayReject(pc: Pc) {
    pc.StartingTurn? || pc.Approving? || pc.Rejecting? || pc.FindingUser? || pc.CancellingStale? || pc.MarkingStale?
    || pc.InterruptingStale? || pc.Completing? || pc.CompletingAnswer? || pc.CreatingTts? || pc.LoadingProfile?
  }

  /** The messages of one step, in order, on behalf of turn `t`. */
  function Stamp(t: nat, g: nat, says: seq<EventKind>): seq<Sent> {
    seq(|says|, i requires 0 <= i < |says| => Sent(t, g, says[i]))
  }

  function Step(w: World, e: Event): World {
    match e
    case Frame(vad) => w.(s := HandleFrame(w.s, vad))
    case SttReady(found) => w.(s := HandleSttReady(w.s, found))
    case Interrupt => w.(s := InterruptSession(w.s, true))
    case Finalize(t) =>
      if t in w.tasks || !w.s.stt then w
      else World(TakeStt(w.s, t), w.tasks[t := Task(w.s.sttGeneration, Transitioning)])
    case Resume(t, answer) =>
      if t !in w.tasks then w
      else
        var out := TurnStep(w.s, t, w.tasks[t], answer);
        World(out.s.(sent := out.s.sent + Stamp(t, w.s.generation, out.says)), w.tasks[t := w.tasks[t].(pc := out.pc)])
    case Reject(t) =>
      if t !in w.tasks || !MayReject(w.tasks[t].pc) then w
      else w.(tasks := w.tasks[t := w.tasks[t].(pc := Finished)])
  }

  function Exec(w: World, events: seq<Event>): World
    decreases |events|
  {
    if events == [] then w else Exec(Step(w, events[0]), events[1..])
  }

  /** A session just created by session.start. */
  const FRESH_SESSION := Session(0, false, 0, None, false, None, {}, None, None, None, false, {}, 0, [], {}, {}, {}, {},
                                 {}, false, {})

  const START := World(FRESH_SESSION, map[])
}
