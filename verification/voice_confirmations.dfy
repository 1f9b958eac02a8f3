/** What a spoken yes or no does, and what a turn says from its first await to its last. */
module VoiceConfirmations {
  import opened Sequences
  import opened Wrappers
  import opened VoiceProtocol
  import opened VoiceSafety

  // ---------------------------------------------------------------------
  // Yes approves, no rejects, and nothing else does either

  /** The turn `t` is current, about to act on a transcript of this intent, and `id` is the one action it can mean. */
  ghost predicate Answering(w: World, t: nat, intent: Intent, id: nat) {
    t in w.tasks && Current(w.s, w.tasks[t]) && w.tasks[t].pc == StartingTurn(intent) && w.s.open == {id}
  }

  /** A yes goes on to approve the open action, a no to reject it, and neither says anything yet. */
  lemma SpokenAnswerIsBound(w: World, t: nat, intent: Intent, id: nat, answer: Answer)
    requires Answering(w, t, intent, id) && intent != Other
    ensures var w' := Step(w, Resume(t, answer));
      && w'.tasks[t].pc == (if intent == Affirm then Approving(id) else Rejecting(id))
      && w'.s.open == {} && w'.s.resolved == w.s.resolved + {id}
      && w'.s.sent == w.s.sent && w'.s.currentTurn == Some(t)
  {
    assert |w.s.open| == 1;
  }

  /** Anything else is a new message for the assistant, and leaves the action open. */
  lemma OtherWordsLeaveItOpen(w: World, t: nat, answer: Answer)
    requires t in w.tasks && Current(w.s, w.tasks[t]) && w.tasks[t].pc == StartingTurn(Other)
    ensures var w' := Step(w, Resume(t, answer));
      && w'.tasks[t].pc == FindingUser && w'.s.open == w.s.open && w'.s.resolved == w.s.resolved
      && w'.s.sent == w.s.sent + [Sent(t, w.s.generation, ThinkingStarted)] && w'.s.currentTurn == Some(t)
  {}

  /** The intent a turn acts on, as far as it has one. */
  ghost predicate ActsOn(pc: Pc, intent: Intent) {
    || pc == EnteringThinking(intent) || pc == StartingTurn(intent)
    || (intent == Affirm && pc.Approving?) || (intent == Deny && pc.Rejecting?)
  }

  ghost predicate At(w: World, t: nat, intent: Intent) {
    t in w.tasks && ActsOn(w.tasks[t].pc, intent)
  }

  lemma SpeakingActsOnNothing(s: Session, t: nat, task: Task, answer: Answer, intent: Intent)
    requires Speaking(task.pc)
    ensures !ActsOn(SpeakStep(s, t, task, answer).pc, intent)
  {}

  lemma RunningActsOnNothing(s: Session, t: nat, task: Task, answer: Answer, intent: Intent)
    requires !Speaking(task.pc)
    ensures !ActsOn(RunStep(s, t, task, answer).pc, intent)
  {}

  lemma BeginRunActsOnIts(s: Session, t: nat, task: Task, intent: Intent, heard: Intent)
    requires ActsOn(BeginRun(s, t, task, heard).pc, intent)
    ensures heard == intent
  {}

  lemma FinalizingActsOnItsIntent(s: Session, t: nat, task: Task, answer: Answer, intent: Intent)
    requires ActsOn(FinalizeStep(s, t, task, answer).pc, intent)
    ensures ActsOn(task.pc, intent) || (task.pc.Transcribing? && Current(s, task) && answer == Heard(Some(intent)))
  {
    if task.pc.StartingTurn? && Current(s, task) { BeginRunActsOnIts(s, t, task, intent, task.pc.intent); }
  }

  lemma TurnActsOnItsIntent(s: Session, t: nat, task: Task, answer: Answer, intent: Intent)
    requires ActsOn(TurnStep(s, t, task, answer).pc, intent)
    ensures ActsOn(task.pc, intent) || (task.pc.Transcribing? && Current(s, task) && answer == Heard(Some(intent)))
  {
    if Finalizing(task.pc) {
      FinalizingActsOnItsIntent(s, t, task, answer, intent);
    } else if Speaking(task.pc) {
      SpeakingActsOnNothing(s, t, task, answer, intent);
    } else {
      RunningActsOnNothing(s, t, task, answer, intent);
    }
  }

  lemma IntentComesFromTheTranscript(w: World, e: Event, t: nat, intent: Intent)
    requires At(Step(w, e), t, intent)
    ensures At(w, t, intent)
         || (e == Resume(t, Heard(Some(intent))) && t in w.tasks && w.tasks[t].pc.Transcribing?)
  {
    if e.Resume? && e.task == t && t in w.tasks {
      TurnActsOnItsIntent(w.s, t, w.tasks[t], e.answer, intent);
    }
  }

  /** The i-th event told turn `t` its transcript, and this intent. */
  ghost predicate HeardAt(events: seq<Event>, i: nat, t: nat, intent: Intent) {
    && i < |events| && events[i] == Resume(t, Heard(Some(intent)))
    && t in Exec(START, events[..i]).tasks && Exec(START, events[..i]).tasks[t].pc.Transcribing?
  }

  /** In every run a turn approves only if its own transcript was a yes, and rejects only if it was a no. */
  lemma {:induction false} OnlyTheOwnAnswerCounts(events: seq<Event>, t: nat, intent: Intent) returns (i: nat)
    requires At(Exec(START, events), t, intent)
    ensures HeardAt(events, i, t, intent)
    decreases |events|
  {
    assert events != [];
    var init, last := events[..|events| - 1], events[|events| - 1];
    assert events == init + [last];
    ExecSnoc(START, init, last);
    IntentComesFromTheTranscript(Exec(START, init), last, t, intent);
    if At(Exec(START, init), t, intent) {
      i := OnlyTheOwnAnswerCounts(init, t, intent);
      assert events[..i] == init[..i];
    } else {
      i := |init|;
      assert events[..i] == init;
    }
  }

  ghost predicate HasTranscribed(w: World, t: nat) {
    t in w.tasks && !w.tasks[t].pc.Transitioning? && !w.tasks[t].pc.Transcribing?
  }

  lemma TranscribedStays(w: World, e: Event, t: nat)
    requires t in w.tasks && (HasTranscribed(w, t) || (e.Resume? && e.task == t && w.tasks[t].pc.Transcribing?))
    ensures HasTranscribed(Step(w, e), t)
  {
    if e.Resume? && e.task == t { TurnStepOnActions(w.s, t, w.tasks[t], e.answer); }
  }

  lemma {:induction false} TranscribedForGood(w: World, events: seq<Event>, t: nat)
    requires HasTranscribed(w, t)
    ensures HasTranscribed(Exec(w, events), t)
    decreases |events|
  {
    if events != [] {
      TranscribedStays(w, events[0], t);
      TranscribedForGood(Step(w, events[0]), events[1..], t);
    }
  }

  /** And a turn has one transcript only. */
  lemma OneTranscript(events: seq<Event>, i: nat, j: nat, t: nat, one: Intent, other: Intent)
    requires HeardAt(events, i, t, one) && HeardAt(events, j, t, other) && i <= j
    ensures i == j && one == other
  {
    if i < j {
      var w := Exec(START, events[..i]);
      var between := events[i + 1..j];
      assert events[..j] == (events[..i] + [events[i]]) + between;
      ExecSnoc(START, events[..i], events[i]);
      ExecConcat(START, events[..i] + [events[i]], between);
      TranscribedStays(w, events[i], t);
      TranscribedForGood(Step(w, events[i]), between, t);
    }
  }

  /** So what is being approved was answered yes and nothing else, and what is being rejected no. */
  lemma ApprovingMeansYes(events: seq<Event>, t: nat, i: nat, heard: Intent)
    requires t in Exec(START, events).tasks && HeardAt(events, i, t, heard)
    ensures Exec(START, events).tasks[t].pc.Approving? ==> heard == Affirm
    ensures Exec(START, events).tasks[t].pc.Rejecting? ==> heard == Deny
  {
    var pc := Exec(START, events).tasks[t].pc;
    if pc.Approving? || pc.Rejecting? {
      var intent := if pc.Approving? then Affirm else Deny;
      var k := OnlyTheOwnAnswerCounts(events, t, intent);
      if i <= k {
        OneTranscript(events, i, k, t, heard, intent);
      } else {
        OneTranscript(events, k, i, t, intent, heard);
      }
    }
  }

  // ---------------------------------------------------------------------
  // What stops a turn

  /** Speech, turn, message and pending action are let go and speech under way is aborted; nothing is sent or closed. */
  ghost predicate Stopped(s: Session, s': Session) {
    && s'.tts == None && s'.currentTurn == None && s'.currentMessage == None && s'.currentPending == None
    && s'.aborted == (if s.tts.Some? then s.aborted + {s.tts.value} else s.aborted)
    && s'.open == s.open && s'.sent == s.sent && s'.resolved == s.resolved
  }

  /** session.interrupt stops whatever is active, and every turn's generation is then an old one. */
  lemma InterruptStops(w: World)
    ensures var s' := Step(w, Interrupt).s;
      && Stopped(w.s, s') && s'.recentInterruption && s'.generation == w.s.generation + 1
      && s'.stt == w.s.stt && s'.sttGeneration == w.s.sttGeneration && s'.userSpeaking == w.s.userSpeaking
  {}

  /** New speech gets a new generation, which its transcript will carry, and stops whatever is active. */
  lemma OnsetStopsWhatIsActive(w: World)
    ensures var (s, s') := (w.s, Step(w, Frame(SpeechStarted)).s);
      && s'.generation == s.generation + 1 && s'.sttGeneration == Some(s'.generation) && s'.userSpeaking
      && if s.tts.Some? || s.currentTurn.Some? then Stopped(s, s') && s'.recentInterruption
         else
           && s'.tts == s.tts && s'.currentTurn == s.currentTurn && s'.aborted == s.aborted && s'.sent == s.sent
           && s'.currentMessage == s.currentMessage && s'.currentPending == s.currentPending && s'.open == s.open
           && s'.recentInterruption == s.recentInterruption
  {}

  /** Frames that start no speech move no generation and stop nothing. */
  lemma OtherFramesStopNothing(w: World, vad: Vad)
    requires vad != SpeechStarted
    ensures var (s, s') := (w.s, Step(w, Frame(vad)).s);
      && s'.generation == s.generation && s'.sttGeneration == s.sttGeneration && s'.tts == s.tts
      && s'.currentTurn == s.currentTurn && s'.aborted == s.aborted && s'.sent == s.sent
      && s'.userSpeaking == (vad == Silent && s.userSpeaking)
      && s'.sttStarting == if s.stt then s.sttStarting else s.sttStarting + 1
  {}

  /** A speech session that opens keeps the generation its speech already has, and else takes the current one. */
  lemma SessionKeepsItsGeneration(w: World, found: bool)
    ensures var (s, s') := (w.s, Step(w, SttReady(found)).s);
      if s.sttStarting > 0 && found && !s.stt then
        s'.stt && s'.sttGeneration == (if s.sttGeneration.Some? then s.sttGeneration else Some(s.generation))
      else s'.stt == s.stt && s'.sttGeneration == s.sttGeneration
    ensures Step(w, SttReady(found)).s.generation == w.s.generation && Step(w, SttReady(found)).s.sent == w.s.sent
  {}

  /** A finalize hands session and generation over to its turn. */
  lemma FinalizeTakesTheGeneration(w: World, t: nat)
    requires w.s.stt && t !in w.tasks
    ensures var w' := Step(w, Finalize(t));
      && w'.tasks == w.tasks[t := Task(w.s.sttGeneration, Transitioning)]
      && !w'.s.stt && w'.s.sttGeneration == None && w'.s.generation == w.s.generation && w'.s.sent == w.s.sent
      && w'.s.userSpeaking == w.s.userSpeaking && w'.s.tts == w.s.tts && w'.s.currentTurn == w.s.currentTurn
  {}

  // ---------------------------------------------------------------------
  // A turn nobody disturbs

  /** The turn's awaits complete one after the other, with these answers. */
  function Answered(w: World, t: nat, answers: seq<Answer>): World
    decreases |answers|
  {
    if answers == [] then w else Answered(Step(w, Resume(t, answers[0])), t, answers[1..])
  }

  lemma {:induction false} AnsweredConcat(w: World, t: nat, a: seq<Answer>, b: seq<Answer>)
    ensures Answered(w, t, a + b) == Answered(Answered(w, t, a), t, b)
    decreases |a|
  {
    if a == [] {
      assert a + b == b;
    } else {
      assert (a + b)[0] == a[0] && (a + b)[1..] == a[1..] + b;
      AnsweredConcat(Step(w, Resume(t, a[0])), t, a[1..], b);
    }
  }

  /** With these answers the current turn comes from `pc` to `pc'`, and says these things for its generation. */
  ghost predicate Goes(w: World, t: nat, pc: Pc, answers: seq<Answer>, w': World, pc': Pc, says: seq<EventKind>) {
    && w' == Answered(w, t, answers)
    && t in w.tasks && w.tasks[t].pc == pc && Current(w.s, w.tasks[t]) && t !in w.s.aborted
    && t in w'.tasks && w'.tasks[t] == w.tasks[t].(pc := pc') && Current(w'.s, w'.tasks[t]) && t !in w'.s.aborted
    && w'.s.generation == w.s.generation && w'.s.sent == w.s.sent + Stamp(t, w.s.generation, says)
  }

  lemma StampConcat(sent: seq<Sent>, t: nat, g: nat, a: seq<EventKind>, b: seq<EventKind>)
    ensures sent + Stamp(t, g, a + b) == (sent + Stamp(t, g, a)) + Stamp(t, g, b)
  {
    assert Stamp(t, g, a + b) == Stamp(t, g, a) + Stamp(t, g, b);
    Regroup(sent, Stamp(t, g, a), Stamp(t, g, b));
  }

  lemma GoesThen(w: World, t: nat, pc: Pc, a: seq<Answer>, mid: World, pc1: Pc, b: seq<Answer>, w': World, pc2: Pc,
                 say: seq<EventKind>, more: seq<EventKind>)
    requires Goes(w, t, pc, a, mid, pc1, say) && Goes(mid, t, pc1, b, w', pc2, more)
    ensures Goes(w, t, pc, a + b, w', pc2, say + more)
  {
    AnsweredConcat(w, t, a, b);
    StampConcat(w.s.sent, t, w.s.generation, say, more);
  }

  /** One await of a current turn. */
  lemma GoesOnce(w: World, t: nat, pc: Pc, answer: Answer, s': Session, pc': Pc, says: seq<EventKind>)
    returns (w': World)
    requires t in w.tasks && w.tasks[t].pc == pc && Current(w.s, w.tasks[t]) && t !in w.s.aborted
    requires TurnStep(w.s, t, w.tasks[t], answer) == Out(s', pc', says)
    requires s'.generation == w.s.generation && s'.sent == w.s.sent && t !in s'.aborted
    ensures Goes(w, t, pc, [answer], w', pc', says) && w'.s == s'.(sent := w'.s.sent)
  {
    w' := Step(w, Resume(t, answer));
    assert [answer][1..] == [];
    assert Answered(w', t, []) == w';
  }

  /** One await of speak(). */
  lemma SpeaksOnce(w: World, t: nat, pc: Pc, answer: Answer, s': Session, pc': Pc, says: seq<EventKind>)
    returns (w': World)
    requires t in w.tasks && w.tasks[t].pc == pc && Current(w.s, w.tasks[t]) && t !in w.s.aborted
    requires Speaking(pc) && SpeakStep(w.s, t, w.tasks[t], answer) == Out(s', pc', says)
    requires s'.generation == w.s.generation && s'.sent == w.s.sent && t !in s'.aborted
    ensures Goes(w, t, pc, [answer], w', pc', says) && w'.s == s'.(sent := w'.s.sent)
  {
    w' := GoesOnce(w, t, pc, answer, s', pc', says);
  }

  /** One await of run(). */
  lemma RunsOnce(w: World, t: nat, pc: Pc, answer: Answer, s': Session, pc': Pc, says: seq<EventKind>)
    returns (w': World)
    requires t in w.tasks && w.tasks[t].pc == pc && Current(w.s, w.tasks[t]) && t !in w.s.aborted
    requires !Finalizing(pc) && !Speaking(pc) && RunStep(w.s, t, w.tasks[t], answer) == Out(s', pc', says)
    requires s'.generation == w.s.generation && s'.sent == w.s.sent && t !in s'.aborted
    ensures Goes(w, t, pc, [answer], w', pc', says) && w'.s == s'.(sent := w'.s.sent)
  {
    w' := GoesOnce(w, t, pc, answer, s', pc', says);
  }

  lemma SpeechStarts(w: World, t: nat, next: Then) returns (w': World)
    requires t in w.tasks && w.tasks[t].pc == CreatingTts(next) && Current(w.s, w.tasks[t]) && t !in w.s.aborted
    ensures Goes(w, t, CreatingTts(next), [Yes] + [Yes], w', Streaming(next, 0), [] + [SpeakingStarted])
    ensures w'.s == w.s.(tts := Some(t), sent := w'.s.sent)
  {
    var w1 := SpeaksOnce(w, t, CreatingTts(next), Yes, w.s, LoadingProfile(next), []);
    w' := SpeaksOnce(w1, t, LoadingProfile(next), Yes, w1.s.(tts := Some(t)), Streaming(next, 0), [SpeakingStarted]);
    GoesThen(w, t, CreatingTts(next), [Yes], w1, LoadingProfile(next), [Yes], w', Streaming(next, 0),
             [], [SpeakingStarted]);
  }

  lemma SpeechStreams(w: World, t: nat, next: Then) returns (w': World)
    requires t in w.tasks && w.tasks[t].pc == Streaming(next, 0) && Current(w.s, w.tasks[t]) && t !in w.s.aborted
    ensures Goes(w, t, Streaming(next, 0), [Chunk] + [Yes], w', Delivering(next, true), [] + [])
    ensures w'.s == w.s.(sent := w'.s.sent)
  {
    var w1 := SpeaksOnce(w, t, Streaming(next, 0), Chunk, w.s, Streaming(next, 1), []);
    w' := SpeaksOnce(w1, t, Streaming(next, 1), Yes, w1.s, Delivering(next, true), []);
    GoesThen(w, t, Streaming(next, 0), [Chunk], w1, Streaming(next, 1), [Yes], w', Delivering(next, true), [], []);
  }

  lemma SpeechEnds(w: World, t: nat, next: Then) returns (w': World)
    requires t in w.tasks && w.tasks[t].pc == Streaming(next, 0) && Current(w.s, w.tasks[t]) && t !in w.s.aborted
    requires w.s.tts == Some(t)
    ensures Goes(w, t, Streaming(next, 0), [Chunk] + [Yes] + [Yes], w', AfterSpeak(next),
                 [] + [] + [AudioChunk, SpeakingEnded])
    ensures w'.s == w.s.(tts := None, sent := w'.s.sent)
  {
    var delivering, said := Delivering(next, true), [AudioChunk, SpeakingEnded];
    var mid := SpeechStreams(w, t, next);
    w' := SpeaksOnce(mid, t, delivering, Yes, mid.s.(tts := None), AfterSpeak(next), said);
    GoesThen(w, t, Streaming(next, 0), [Chunk] + [Yes], mid, delivering, [Yes], w', AfterSpeak(next), [] + [], said);
  }

  const PLAYED: seq<Answer> := [Yes] + [Yes] + ([Chunk] + [Yes] + [Yes])
  const PLAYING: seq<EventKind> := [] + [SpeakingStarted] + ([] + [] + [AudioChunk, SpeakingEnded])

  /** With a provider, a profile and a chunk of audio the reply is played as one message, and the controller let go. */
  lemma ReplyIsPlayed(w: World, t: nat, next: Then) returns (w': World)
    requires t in w.tasks && w.tasks[t].pc == CreatingTts(next) && Current(w.s, w.tasks[t]) && t !in w.s.aborted
    ensures PLAYING == [SpeakingStarted, AudioChunk, SpeakingEnded]
    ensures Goes(w, t, CreatingTts(next), PLAYED, w', AfterSpeak(next), PLAYING)
    ensures w'.s == w.s.(tts := None, sent := w'.s.sent)
  {
    var w1 := SpeechStarts(w, t, next);
    w' := SpeechEnds(w1, t, next);
    GoesThen(w, t, CreatingTts(next), [Yes] + [Yes], w1, Streaming(next, 0), [Chunk] + [Yes] + [Yes], w',
             AfterSpeak(next), [] + [SpeakingStarted], [] + [] + [AudioChunk, SpeakingEnded]);
  }

  /** A yes: the action is approved, the client told, and the answer spoken. A no is only spoken. */
  lemma ConfirmationIsSpoken(w: World, t: nat, pc: Pc) returns (w': World)
    requires t in w.tasks && w.tasks[t].pc == pc && Current(w.s, w.tasks[t]) && t !in w.s.aborted
    requires pc.Approving? || pc.Rejecting?
    ensures Goes(w, t, pc, [Yes] + PLAYED + [Yes], w', Completing,
                 (if pc.Approving? then [ActionExecuted] else []) + PLAYING + [])
    ensures w'.s == w.s.(tts := None, sent := w'.s.sent)
  {
    var first := if pc.Approving? then [ActionExecuted] else [];
    var w1 := RunsOnce(w, t, pc, Yes, w.s, CreatingTts(AfterConfirmation), first);
    var w2 := ReplyIsPlayed(w1, t, AfterConfirmation);
    GoesThen(w, t, pc, [Yes], w1, CreatingTts(AfterConfirmation), PLAYED, w2, AfterSpeak(AfterConfirmation),
             first, PLAYING);
    w' := RunsOnce(w2, t, AfterSpeak(AfterConfirmation), Yes, w2.s, Completing, []);
    GoesThen(w, t, pc, [Yes] + PLAYED, w2, AfterSpeak(AfterConfirmation), [Yes], w', Completing, first + PLAYING, []);
  }

  lemma AnswerArrives(w: World, t: nat, answer: Answer) returns (w': World)
    requires t in w.tasks && w.tasks[t].pc == Orchestrating && Current(w.s, w.tasks[t]) && t !in w.s.aborted
    requires answer == Yes || answer == Confirm
    ensures Goes(w, t, Orchestrating, [answer], w', CreatingTts(AfterAnswer),
                 if answer == Confirm then [PendingConfirmation] else [])
    ensures w'.s.currentMessage == Some(t)
    ensures w'.s.currentPending == if answer == Confirm then Some(w.s.nextAction) else None
    ensures w'.s.open == if answer == Confirm then w.s.open + {w.s.nextAction} else w.s.open
  {
    w' := RunsOnce(w, t, Orchestrating, answer, OrchestratorAnswered(w.s, t, w.tasks[t], answer).s,
                   CreatingTts(AfterAnswer), if answer == Confirm then [PendingConfirmation] else []);
  }

  lemma AnswerIsPlayed(w: World, t: nat) returns (w': World)
    requires t in w.tasks && w.tasks[t].pc == CreatingTts(AfterAnswer) && Current(w.s, w.tasks[t]) && t !in w.s.aborted
    ensures Goes(w, t, CreatingTts(AfterAnswer), PLAYED + [Yes], w', CompletingAnswer, PLAYING + [LatencyMetrics])
    ensures w'.s == w.s.(tts := None, sent := w'.s.sent)
  {
    var mid := ReplyIsPlayed(w, t, AfterAnswer);
    w' := RunsOnce(mid, t, AfterSpeak(AfterAnswer), Yes, mid.s, CompletingAnswer, [LatencyMetrics]);
    GoesThen(w, t, CreatingTts(AfterAnswer), PLAYED, mid, AfterSpeak(AfterAnswer), [Yes], w', CompletingAnswer,
             PLAYING, [LatencyMetrics]);
  }

  /** What the orchestrator answered is put to the user if it needs a yes, spoken, and measured. */
  lemma AnswerIsSpoken(w: World, t: nat, answer: Answer) returns (w': World)
    requires t in w.tasks && w.tasks[t].pc == Orchestrating && Current(w.s, w.tasks[t]) && t !in w.s.aborted
    requires answer == Yes || answer == Confirm
    ensures Goes(w, t, Orchestrating, [answer] + (PLAYED + [Yes]), w', CompletingAnswer,
                 (if answer == Confirm then [PendingConfirmation] else []) + (PLAYING + [LatencyMetrics]))
    ensures w'.s.currentMessage == Some(t) && w'.s.tts == None
    ensures w'.s.currentPending == if answer == Confirm then Some(w.s.nextAction) else None
    ensures w'.s.open == if answer == Confirm then w.s.open + {w.s.nextAction} else w.s.open
  {
    var first := if answer == Confirm then [PendingConfirmation] else [];
    var mid := AnswerArrives(w, t, answer);
    w' := AnswerIsPlayed(mid, t);
    GoesThen(w, t, Orchestrating, [answer], mid, CreatingTts(AfterAnswer), PLAYED + [Yes], w', CompletingAnswer, first,
             PLAYING + [LatencyMetrics]);
  }

  /** At its end the turn forgets its message and action, which stays open, and is no longer the current one. */
  lemma TurnEnds(w: World, t: nat) returns (w': World)
    requires t in w.tasks && w.tasks[t].pc == CompletingAnswer && Current(w.s, w.tasks[t]) && t !in w.s.aborted
    ensures Goes(w, t, CompletingAnswer, [Yes] + [Yes], w', Finished, [] + [])
    ensures w'.s == w.s.(currentMessage := None, currentPending := None, sent := w'.s.sent,
                         currentTurn := if w.s.currentTurn == Some(t) then None else w.s.currentTurn)
  {
    var s1 := w.s.(currentMessage := None, currentPending := None);
    var w1 := RunsOnce(w, t, CompletingAnswer, Yes, s1, Returning, []);
    w' := GoesOnce(w1, t, Returning, Yes,
                   if w1.s.currentTurn == Some(t) then w1.s.(currentTurn := None) else w1.s, Finished, []);
    GoesThen(w, t, CompletingAnswer, [Yes], w1, Returning, [Yes], w', Finished, [], []);
  }

  /** A transcript is sent and taken up while it is current; no words, and the session just listens again. */
  lemma TranscriptIsTakenUp(w: World, t: nat, text: Option<Intent>)
    requires t in w.tasks && w.tasks[t].pc == Transcribing && Current(w.s, w.tasks[t])
    ensures var w' := Step(w, Resume(t, Heard(text)));
      && w'.tasks[t].pc == (if text.Some? then EnteringThinking(text.value) else BackToListening)
      && w'.s.sent == (if text.Some? then w.s.sent + [Sent(t, w.s.generation, TranscriptFinal)] else w.s.sent)
  {}

  /** Before the turn starts, whatever is still active is stopped. */
  lemma NewTurnStopsTheOld(w: World, t: nat, answer: Answer)
    requires t in w.tasks && w.tasks[t].pc.EnteringThinking? && Current(w.s, w.tasks[t])
    ensures var w' := Step(w, Resume(t, answer));
      && w'.tasks[t].pc == StartingTurn(w.tasks[t].pc.intent) && Stopped(w.s, w'.s)
      && w'.s.generation == w.s.generation
  {
    assert Step(w, Resume(t, answer)).s.sent == w.s.sent;
  }
}
