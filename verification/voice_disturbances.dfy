/**
 * What each await of a turn comes to when something went wrong or somebody else spoke meanwhile: what is still said,
 * and where the turn goes on.
 */
module VoiceDisturbances {
  import opened Wrappers
  import opened VoiceProtocol

  /** Turn `t` waits at `pc`, and its generation is still the newest one, or is not. */
  ghost predicate Waits(w: World, t: nat, pc: Pc, current: bool) {
    && t in w.tasks && w.tasks[t].pc == pc
    && (current <==> w.tasks[t].generation == Some(w.s.generation))
  }

  /** Only the turn moves, without a word. */
  ghost predicate Moves(w: World, w': World, t: nat, pc: Pc)
    requires t in w.tasks
  {
    w'.s == w.s && w'.tasks == w.tasks[t := Task(w.tasks[t].generation, pc)]
  }

  /** The turn moves on and says one thing; the session is otherwise `s'`. */
  ghost predicate MovesSaying(w: World, w': World, t: nat, pc: Pc, s': Session, kind: EventKind)
    requires t in w.tasks
  {
    && w'.s == s'.(sent := w.s.sent + [Sent(t, w.s.generation, kind)])
    && w'.tasks == w.tasks[t := Task(w.tasks[t].generation, pc)]
  }

  /** A step that says nothing and leaves the session. */
  lemma SilentStep(w: World, t: nat, answer: Answer, pc: Pc)
    requires t in w.tasks && TurnStep(w.s, t, w.tasks[t], answer) == Out(w.s, pc, [])
    ensures Moves(w, Step(w, Resume(t, answer)), t, pc)
  {
    assert w.s.sent + [] == w.s.sent;
  }

  // ---------------------------------------------------------------------
  // Before the turn

  /** A turn waits for its state to be stored, and for its transcript after that. */
  lemma ThenItIsTranscribed(w: World, t: nat, answer: Answer)
    requires t in w.tasks && w.tasks[t].pc == Transitioning
    ensures Moves(w, Step(w, Resume(t, answer)), t, Transcribing)
  {
    SilentStep(w, t, answer, Transcribing);
  }

  /** A transcript that comes too late, or not at all, ends the turn without a word. */
  lemma NoTranscriptEndsTheTurn(w: World, t: nat, current: bool, answer: Answer)
    requires Waits(w, t, Transcribing, current) && (!current || !answer.Heard?)
    ensures Moves(w, Step(w, Resume(t, answer)), t, Finished)
  {
    SilentStep(w, t, answer, Finished);
  }

  /** So does having been overtaken before the turn starts; one that was stored is discarded first. */
  lemma OvertakenBeforeItStarts(w: World, t: nat, intent: Intent, answer: Answer)
    ensures Waits(w, t, EnteringThinking(intent), false) ==> Moves(w, Step(w, Resume(t, answer)), t, Finished)
    ensures Waits(w, t, StartingTurn(intent), false) ==> Moves(w, Step(w, Resume(t, answer)), t, DiscardingTurn)
    ensures t in w.tasks && (w.tasks[t].pc == DiscardingTurn || w.tasks[t].pc == BackToListening) ==>
              Moves(w, Step(w, Resume(t, answer)), t, Finished)
  {
    if Waits(w, t, EnteringThinking(intent), false) {
      SilentStep(w, t, answer, Finished);
    } else if Waits(w, t, StartingTurn(intent), false) {
      SilentStep(w, t, answer, DiscardingTurn);
    } else if t in w.tasks && (w.tasks[t].pc == DiscardingTurn || w.tasks[t].pc == BackToListening) {
      SilentStep(w, t, answer, Finished);
    }
  }

  // ---------------------------------------------------------------------
  // Confirmations

  /** With several open actions a yes or no is asked about, and closes none of them. */
  lemma AmbiguousAnswerAsksBack(w: World, t: nat, intent: Intent, answer: Answer)
    requires Waits(w, t, StartingTurn(intent), true) && intent != Other && |w.s.open| > 1
    ensures MovesSaying(w, Step(w, Resume(t, answer)), t, Completing,
                        w.s.(currentTurn := Some(t), recentInterruption := false), ClarificationNeeded)
  {}

  /** With none open, yes and no are words like any others. */
  lemma NothingToConfirm(w: World, t: nat, intent: Intent, answer: Answer)
    requires Waits(w, t, StartingTurn(intent), true) && w.s.open == {}
    ensures MovesSaying(w, Step(w, Resume(t, answer)), t, FindingUser,
                        w.s.(currentTurn := Some(t), recentInterruption := false), ThinkingStarted)
  {}

  /** An approval that did not execute, and a rejection, are only spoken about. */
  lemma RefusalIsOnlySpoken(w: World, t: nat, pc: Pc, answer: Answer)
    requires Waits(w, t, pc, true) && ((pc.Approving? && answer != Yes) || pc.Rejecting?)
    ensures Moves(w, Step(w, Resume(t, answer)), t, CreatingTts(AfterConfirmation))
  {
    SilentStep(w, t, answer, CreatingTts(AfterConfirmation));
  }

  /** Whoever spoke meanwhile hears nothing of it: the turn is only completed. */
  lemma OvertakenConfirmationIsSilent(w: World, t: nat, pc: Pc, answer: Answer)
    requires Waits(w, t, pc, false) && (pc.Approving? || pc.Rejecting?)
    ensures Moves(w, Step(w, Resume(t, answer)), t, Completing)
  {
    SilentStep(w, t, answer, Completing);
  }

  // ---------------------------------------------------------------------
  // The assistant

  lemma ThenTheAssistantIsAsked(w: World, t: nat, answer: Answer)
    requires t in w.tasks && w.tasks[t].pc == FindingUser
    ensures Moves(w, Step(w, Resume(t, answer)), t, Orchestrating)
  {
    SilentStep(w, t, answer, Orchestrating);
  }

  /** A failed answer is reported by a current turn, and by no other. */
  lemma FailureIsReported(w: World, t: nat, current: bool)
    requires Waits(w, t, Orchestrating, current)
    ensures var w' := Step(w, Resume(t, No));
      if current then MovesSaying(w, w', t, Completing, w.s, Error) else Moves(w, w', t, Completing)
  {
    if !current { SilentStep(w, t, No, Completing); }
  }

  /** The answer's message and action become the session's; a new action gets a new id. */
  function WithAnswer(s: Session, t: nat, confirm: bool): Session {
    s.(currentMessage := Some(t), currentPending := if confirm then Some(s.nextAction) else None,
       nextAction := if confirm then s.nextAction + 1 else s.nextAction)
  }

  /** A current turn announces the action it was given, and opens it to an answer. */
  lemma CurrentAnswerIsAnnounced(w: World, t: nat)
    requires Waits(w, t, Orchestrating, true)
    ensures var w' := Step(w, Resume(t, Yes));
      && w'.s == WithAnswer(w.s, t, false)
      && w'.tasks == w.tasks[t := Task(w.tasks[t].generation, CreatingTts(AfterAnswer))]
    ensures var s1 := WithAnswer(w.s, t, true);
      MovesSaying(w, Step(w, Resume(t, Confirm)), t, CreatingTts(AfterAnswer),
                  s1.(open := w.s.open + {w.s.nextAction}, announced := w.s.announced + {w.s.nextAction}),
                  PendingConfirmation)
  {
    assert w.s.sent + [] == w.s.sent;
  }

  /** One that was overtaken says nothing, and goes on to cancel it. */
  lemma OvertakenAnswerIsDropped(w: World, t: nat)
    requires Waits(w, t, Orchestrating, false)
    ensures var w' := Step(w, Resume(t, Yes));
      && w'.s == WithAnswer(w.s, t, false) && w'.tasks == w.tasks[t := Task(w.tasks[t].generation, MarkingStale)]
    ensures var w' := Step(w, Resume(t, Confirm));
      && w'.s == WithAnswer(w.s, t, true).(dropped := w.s.dropped + {w.s.nextAction})
      && w'.tasks == w.tasks[t := Task(w.tasks[t].generation, CancellingStale)]
  {
    assert w.s.sent + [] == w.s.sent;
  }

  /** Message and action are forgotten at the end of an answer, spoken or dropped. */
  lemma AnswerIsForgotten(w: World, t: nat, answer: Answer)
    requires t in w.tasks && (w.tasks[t].pc == CompletingAnswer || w.tasks[t].pc == MarkingStale)
    ensures var w' := Step(w, Resume(t, answer));
      && w'.s == w.s.(currentMessage := None, currentPending := None)
      && w'.tasks == w.tasks[t := Task(w.tasks[t].generation,
                                       if w.tasks[t].pc == CompletingAnswer then Returning else InterruptingStale)]
  {
    assert w.s.sent + [] == w.s.sent;
  }

  /** A turn that was overtaken cancels its action, marks its message, forgets both and is marked itself. */
  lemma OvertakenTurnCleansUp(w: World, t: nat, answer: Answer)
    requires t in w.tasks
    ensures w.tasks[t].pc == CancellingStale ==> Moves(w, Step(w, Resume(t, answer)), t, MarkingStale)
    ensures w.tasks[t].pc == InterruptingStale || w.tasks[t].pc == Completing ==>
              Moves(w, Step(w, Resume(t, answer)), t, Returning)
  {
    if w.tasks[t].pc == CancellingStale {
      SilentStep(w, t, answer, MarkingStale);
    } else if w.tasks[t].pc == InterruptingStale || w.tasks[t].pc == Completing {
      SilentStep(w, t, answer, Returning);
    }
  }

  /** After the reply a confirmation is completed; an answer is measured first, if it is still current. */
  lemma AfterTheReply(w: World, t: nat, next: Then, current: bool, answer: Answer)
    requires Waits(w, t, AfterSpeak(next), current)
    ensures var w' := Step(w, Resume(t, answer));
      if next == AfterConfirmation then Moves(w, w', t, Completing)
      else if current then MovesSaying(w, w', t, CompletingAnswer, w.s, LatencyMetrics)
      else Moves(w, w', t, CompletingAnswer)
  {
    if next == AfterConfirmation {
      SilentStep(w, t, answer, Completing);
    } else if !current {
      SilentStep(w, t, answer, CompletingAnswer);
    }
  }

  /** A turn gives up its place only if it still has it. */
  lemma ReturningLeavesOthersTheirPlace(w: World, t: nat, answer: Answer)
    requires t in w.tasks && w.tasks[t].pc == Returning
    ensures var w' := Step(w, Resume(t, answer));
      && w'.s == w.s.(currentTurn := if w.s.currentTurn == Some(t) then None else w.s.currentTurn)
      && w'.tasks == w.tasks[t := Task(w.tasks[t].generation, Finished)]
  {
    assert w.s.sent + [] == w.s.sent;
  }

  // ---------------------------------------------------------------------
  // Speaking

  /** Without a provider, or overtaken before the speech has begun, nothing is said. */
  lemma NoSpeechWithoutAProvider(w: World, t: nat, next: Then, current: bool, answer: Answer)
    ensures Waits(w, t, CreatingTts(next), current) && (!current || answer != Yes) ==>
              Moves(w, Step(w, Resume(t, answer)), t, AfterSpeak(next))
    ensures Waits(w, t, LoadingProfile(next), current) && !current ==>
              Moves(w, Step(w, Resume(t, answer)), t, AfterSpeak(next))
  {
    if Waits(w, t, CreatingTts(next), current) && (!current || answer != Yes) {
      SilentStep(w, t, answer, AfterSpeak(next));
    } else if Waits(w, t, LoadingProfile(next), current) && !current {
      SilentStep(w, t, answer, AfterSpeak(next));
    }
  }

  /** Speech is cut when its controller was aborted, or a newer generation has begun. */
  ghost predicate IsCut(w: World, t: nat, current: bool) {
    t in w.s.aborted || !current
  }

  /** Audio that arrives is kept until the speech is cut; what was kept until then is thrown away. */
  lemma AudioIsKeptUntilCut(w: World, t: nat, next: Then, parts: nat, current: bool)
    requires Waits(w, t, Streaming(next, parts), current)
    ensures Moves(w, Step(w, Resume(t, Chunk)), t,
                  if IsCut(w, t, current) then Delivering(next, false) else Streaming(next, parts + 1))
  {
    SilentStep(w, t, Chunk, if IsCut(w, t, current) then Delivering(next, false) else Streaming(next, parts + 1));
  }

  /** There is audio to play exactly when the synthesis ended well, uncut, with something to play. */
  lemma WholeAudioOrNone(w: World, t: nat, next: Then, parts: nat, current: bool, answer: Answer)
    requires Waits(w, t, Streaming(next, parts), current) && answer != Chunk
    ensures Moves(w, Step(w, Resume(t, answer)), t,
                  Delivering(next, answer == Yes && !IsCut(w, t, current) && parts != 0))
  {
    SilentStep(w, t, answer, Delivering(next, answer == Yes && !IsCut(w, t, current) && parts != 0));
  }

  /** It is played unless the speech was cut meanwhile; a current turn says that it ended either way. */
  lemma SpeechIsOver(w: World, t: nat, next: Then, audio: bool, current: bool, answer: Answer)
    requires Waits(w, t, Delivering(next, audio), current)
    ensures var w' := Step(w, Resume(t, answer)); var g := w.s.generation;
      && w'.tasks == w.tasks[t := Task(w.tasks[t].generation, AfterSpeak(next))]
      && w'.s == w.s.(tts := if w.s.tts == Some(t) then None else w.s.tts, sent := w'.s.sent)
      && (!current ==> w'.s.sent == w.s.sent)
      && (current && (!audio || t in w.s.aborted) ==> w'.s.sent == w.s.sent + [Sent(t, g, SpeakingEnded)])
      && (current && audio && t !in w.s.aborted ==>
            w'.s.sent == w.s.sent + [Sent(t, g, AudioChunk), Sent(t, g, SpeakingEnded)])
  {
    assert w.s.sent + [] == w.s.sent;
  }

  // ---------------------------------------------------------------------
  // Throwing

  /** The awaits nobody guards: an exception there ends the turn and leaves the session as it was. */
  ghost predicate IsUnguarded(pc: Pc) {
    || pc.StartingTurn? || pc.Approving? || pc.Rejecting? || pc == FindingUser
    || pc == CancellingStale || pc == MarkingStale || pc == InterruptingStale
    || pc == Completing || pc == CompletingAnswer || pc.CreatingTts? || pc.LoadingProfile?
  }

  lemma ThrowingEndsTheTurn(w: World, t: nat)
    ensures if t in w.tasks && IsUnguarded(w.tasks[t].pc) then Moves(w, Step(w, Reject(t)), t, Finished)
            else Step(w, Reject(t)) == w
  {}

  /** What was heard of a turn nobody knows changes nothing. */
  lemma StrangersAreIgnored(w: World, t: nat, answer: Answer)
    requires t !in w.tasks
    ensures Step(w, Resume(t, answer)) == w
  {}
}
