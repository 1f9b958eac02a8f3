/**
 * The live connection: the session object, whose fields the handlers and the turns change in place, and the turns in
 * flight. Each handler, and each stretch of a turn between two awaits, is one step of the protocol, so everything
 * that holds of its runs holds here; the rest of the file is the audio side of the same handler.
 */
module VoiceRuntime {
  import opened Wrappers
  import opened VoiceProtocol
  import opened VoiceSafety
  import Audio = VoiceAudio

  class SessionState {
    var generation: nat
    var stt: bool
    var sttStarting: nat
    var sttGeneration: Option<nat>
    var userSpeaking: bool
    var tts: Option<nat>
    var currentTurn: Option<nat>
    var currentMessage: Option<nat>
    var currentPending: Option<nat>
    var recentInterruption: bool
    var open: set<nat>
    var sent: seq<Sent>
    var aborted: set<nat>
    ghost var nextAction: nat
    ghost var announced: set<nat>
    ghost var dropped: set<nat>
    ghost var resolved: set<nat>
    ghost var bargeCancelled: set<nat>
    ghost var taken: set<nat>
    ghost var fed: bool
    ghost var given: set<nat>

    ghost function View(): Session
      reads this
    {
      Session(generation, stt, sttStarting, sttGeneration, userSpeaking, tts, aborted, currentTurn, currentMessage,
              currentPending, recentInterruption, open, nextAction, sent, announced, dropped, resolved, bargeCancelled,
              taken, fed, given)
    }

    constructor ()
      ensures View() == FRESH_SESSION
    {
      generation, stt, sttStarting, sttGeneration, userSpeaking := 0, false, 0, None, false;
      tts, currentTurn, currentMessage, currentPending, recentInterruption := None, None, None, None, false;
      open, sent, aborted, nextAction := {}, [], {}, 0;
      announced, dropped, resolved, bargeCancelled, taken := {}, {}, {}, {}, {};
      fed, given := false, {};
    }

    method NewGeneration() returns (id: nat)
      modifies this`generation
      ensures View() == old(View()).(generation := id) && id == old(generation) + 1
    {
      generation := generation + 1;
      id := generation;
    }

    method AbortTts()
      modifies this`tts, this`aborted
      ensures tts == None && aborted == if old(tts).Some? then old(aborted) + {old(tts).value} else old(aborted)
    {
      if tts.Some? { aborted := aborted + {tts.value}; }
      tts := None;
    }

    /** A pending action the user was asked about stays open; only one the client never heard of is cancelled. */
    method CancelUnheard()
      modifies this`currentPending, this`bargeCancelled
      ensures currentPending == None
      ensures var id := old(currentPending);
        bargeCancelled
          == if id.Some? && id.value !in open then old(bargeCancelled) + {id.value} else old(bargeCancelled)
    {
      if currentPending.Some? {
        if currentPending.value !in open { bargeCancelled := bargeCancelled + {currentPending.value}; }
        currentPending := None;
      }
    }

    method StopActiveGeneration()
      modifies this`tts, this`aborted, this`currentTurn, this`currentMessage, this`currentPending, this`bargeCancelled
      ensures View() == VoiceProtocol.StopActiveGeneration(old(View()))
    {
      AbortTts();
      currentTurn := None;
      currentMessage := None;
      CancelUnheard();
    }

    method Interrupt(bumpGeneration: bool)
      modifies this`generation, this`recentInterruption
      modifies this`tts, this`aborted, this`currentTurn, this`currentMessage, this`currentPending, this`bargeCancelled
      ensures View() == InterruptSession(old(View()), bumpGeneration)
    {
      recentInterruption := true;
      StopActiveGeneration();
      if bumpGeneration { var id := NewGeneration(); }
    }

    /** The frame goes to the STT session, if there is one and the user speaks; without one, one is asked for. */
    method FeedStt(onset: bool)
      modifies this`sttStarting, this`fed
      ensures View() == if old(stt) then old(View()).(fed := old(fed) || userSpeaking || onset)
                        else old(View()).(sttStarting := old(sttStarting) + 1)
    {
      if stt { fed := fed || userSpeaking || onset; } else { sttStarting := sttStarting + 1; }
    }

    /** speech_started: a generation of its own, and whatever is active is interrupted. */
    method StartSpeech()
      modifies this`generation, this`sttGeneration, this`userSpeaking, this`recentInterruption
      modifies this`tts, this`aborted, this`currentTurn, this`currentMessage, this`currentPending, this`bargeCancelled
      ensures var next := old(generation) + 1;
        var s := old(View()).(generation := next, sttGeneration := Some(next), userSpeaking := true);
        View() == if s.tts.Some? || s.currentTurn.Some? then InterruptSession(s, false) else s
    {
      var inputGeneration := NewGeneration();
      sttGeneration := Some(inputGeneration);
      userSpeaking := true;
      if tts.Some? || currentTurn.Some? { Interrupt(false); }
    }

    method HandleFrame(vad: Vad)
      modifies this
      ensures View() == VoiceProtocol.HandleFrame(old(View()), vad)
    {
      FeedStt(vad == SpeechStarted);
      match vad
      case Silent =>
      case SpeechEnded => userSpeaking := false;
      case SpeechStarted => StartSpeech();
    }

    /** `sttGenerationId ??= generationId` */
    method OpenStt()
      modifies this`stt, this`sttGeneration, this`fed
      ensures View() == old(View()).(stt := true, fed := false,
        sttGeneration := if old(sttGeneration).Some? then old(sttGeneration) else Some(generation))
    {
      stt, fed := true, false;
      sttGeneration := if sttGeneration.Some? then sttGeneration else Some(generation);
    }

    /** createStt(...).then(...) */
    method SttReady(found: bool)
      modifies this`stt, this`sttStarting, this`sttGeneration, this`fed
      ensures View() == HandleSttReady(old(View()), found)
    {
      if sttStarting == 0 { return; }
      sttStarting := sttStarting - 1;
      if found && !stt { OpenStt(); }
    }

    ghost method RecordTaken(t: nat)
      modifies this`taken, this`given
      ensures View() == old(View()).(
        given := if fed then old(given) + {t} else old(given),
        taken := if sttGeneration.Some? then old(taken) + {sttGeneration.value} else old(taken))
    {
      taken := if sttGeneration.Some? then taken + {sttGeneration.value} else taken;
      given := if fed then given + {t} else given;
    }

    /** finalizeTurn up to its first await. */
    method TakeStt(t: nat) returns (captured: Option<nat>)
      requires stt
      modifies this`stt, this`sttGeneration, this`taken, this`fed, this`given
      ensures View() == VoiceProtocol.TakeStt(old(View()), t) && captured == old(sttGeneration)
    {
      RecordTaken(t);
      captured := sttGeneration;
      stt, sttGeneration, fed := false, None, false;
    }

    method Emit(t: nat, says: seq<EventKind>)
      modifies this`sent
      ensures View() == old(View()).(sent := old(sent) + Stamp(t, generation, says))
    {
      var i := 0;
      while i < |says|
        invariant 0 <= i <= |says|
        invariant sent == old(sent) + Stamp(t, generation, says[..i])
      {
        assert says[..i + 1] == says[..i] + [says[i]];
        sent := sent + [Sent(t, generation, says[i])];
        i := i + 1;
      }
      assert says[..i] == says;
    }

    // ------------------------------------------------------------------
    // Stretches of a turn: each answers where the turn waits next, and what it says

    /** The one open action leaves the open set, to be approved or rejected. */
    method TakeSoleOpen() returns (action: nat)
      requires |open| == 1
      modifies this`open, this`resolved
      ensures action == Sole(old(open))
      ensures View() == old(View()).(open := old(open) - {action}, resolved := old(resolved) + {action})
    {
      action := Sole(open);
      open := open - {action};
      resolved := resolved + {action};
    }

    /** run() up to its first await. */
    method BeginRun(t: nat, task: Task, intent: Intent) returns (pc: Pc, says: seq<EventKind>)
      modifies this`currentTurn, this`recentInterruption, this`open, this`resolved
      ensures Out(View(), pc, says) == VoiceProtocol.BeginRun(old(View()), t, task, intent)
    {
      currentTurn := Some(t);
      recentInterruption := false;
      var current := task.generation == Some(generation);
      if open != {} && intent != Other {
        if |open| > 1 { return Completing, if current then [ClarificationNeeded] else []; }
        var action := TakeSoleOpen();
        return if intent == Affirm then Approving(action) else Rejecting(action), [];
      }
      return FindingUser, if current then [ThinkingStarted] else [];
    }

    /** finalizeTurn, from the STT answer to the start of the turn. */
    method FinalizeStretch(t: nat, task: Task, answer: Answer) returns (pc: Pc, says: seq<EventKind>)
      modifies this
      ensures Out(View(), pc, says) == FinalizeStep(old(View()), t, task, answer)
    {
      var current := task.generation == Some(generation);
      pc, says := Finished, [];
      match task.pc {
        case Transitioning => pc := Transcribing;
        case Transcribing =>
          if current && answer.Heard? {
            if answer.text.None? { return BackToListening, []; }
            return EnteringThinking(answer.text.value), [TranscriptFinal];
          }
        case EnteringThinking(intent) =>
          if current {
            StopActiveGeneration();
            pc := StartingTurn(intent);
          }
        case StartingTurn(intent) =>
          if current { pc, says := BeginRun(t, task, intent); } else { pc := DiscardingTurn; }
        case Returning =>
          if currentTurn == Some(t) { currentTurn := None; }
        case _ =>
      }
    }

    /** One more chunk is buffered, unless the speech was cut; the end of the stream hands over what there is. */
    method Stream(t: nat, task: Task, answer: Answer) returns (pc: Pc)
      requires task.pc.Streaming?
      ensures Out(View(), pc, []) == SpeakStep(View(), t, task, answer)
    {
      var cut := t in aborted || task.generation != Some(generation);
      if answer == Chunk {
        pc := if cut then Delivering(task.pc.next, false) else Streaming(task.pc.next, task.pc.parts + 1);
      } else {
        pc := Delivering(task.pc.next, answer == Yes && !cut && task.pc.parts > 0);
      }
    }

    /** The whole reply goes out as one audio message unless it was cut; only the turn's own controller is released. */
    method Deliver(t: nat, task: Task) returns (pc: Pc, says: seq<EventKind>)
      requires task.pc.Delivering?
      modifies this`tts
      ensures Out(View(), pc, says) == SpeakStep(old(View()), t, task, Yes)
    {
      var current := task.generation == Some(generation);
      says := (if task.pc.audio && t !in aborted && current then [AudioChunk] else [])
              + if current then [SpeakingEnded] else [];
      if tts == Some(t) { tts := None; }
      pc := AfterSpeak(task.pc.next);
    }

    /** speak(): provider, profile, buffered synthesis, delivery. */
    method SpeakStretch(t: nat, task: Task, answer: Answer) returns (pc: Pc, says: seq<EventKind>)
      requires Speaking(task.pc)
      modifies this`tts
      ensures Out(View(), pc, says) == SpeakStep(old(View()), t, task, answer)
    {
      var current := task.generation == Some(generation);
      says := [];
      match task.pc {
        case CreatingTts(next) => pc := if answer == Yes && current then LoadingProfile(next) else AfterSpeak(next);
        case LoadingProfile(next) =>
          if !current { return AfterSpeak(next), []; }
          tts := Some(t);
          return Streaming(next, 0), [SpeakingStarted];
        case Streaming(_, _) => pc := Stream(t, task, answer);
        case Delivering(_, _) => pc, says := Deliver(t, task);
      }
    }

    /** The action is put to the user: it is open from now on. */
    method Announce(action: nat)
      modifies this`nextAction, this`open, this`announced
      ensures View() == old(View()).(nextAction := old(nextAction) + 1, open := old(open) + {action},
                                     announced := old(announced) + {action})
    {
      nextAction := nextAction + 1;
      open := open + {action};
      announced := announced + {action};
    }

    /** The action came to a turn already superseded: it is cancelled unasked. */
    method Drop(action: nat)
      modifies this`nextAction, this`dropped
      ensures View() == old(View()).(nextAction := old(nextAction) + 1, dropped := old(dropped) + {action})
    {
      nextAction := nextAction + 1;
      dropped := dropped + {action};
    }

    /** The orchestrator's answer, up to the next await. `action` is the new pending action's id, if it made one. */
    method OrchestratorAnswered(t: nat, task: Task, answer: Answer, action: nat) returns (pc: Pc, says: seq<EventKind>)
      requires answer == Confirm ==> action == nextAction
      modifies this`currentMessage, this`currentPending, this`nextAction, this`open, this`announced, this`dropped
      ensures Out(View(), pc, says) == VoiceProtocol.OrchestratorAnswered(old(View()), t, task, answer)
    {
      var current := task.generation == Some(generation);
      says := [];
      if answer == No { return Completing, if current then [Error] else []; }
      currentMessage := Some(t);
      if answer != Confirm {
        currentPending := None;
        pc := if current then CreatingTts(AfterAnswer) else MarkingStale;
      } else {
        currentPending := Some(action);
        if current {
          Announce(action);
          pc, says := CreatingTts(AfterAnswer), [PendingConfirmation];
        } else {
          Drop(action);
          pc := CancellingStale;
        }
      }
    }

    method ForgetAnswer()
      modifies this`currentMessage, this`currentPending
      ensures View() == old(View()).(currentMessage := None, currentPending := None)
    {
      currentMessage := None;
      currentPending := None;
    }

    /** run(), outside speak(). */
    method RunStretch(t: nat, task: Task, answer: Answer, action: nat) returns (pc: Pc, says: seq<EventKind>)
      requires !Finalizing(task.pc) && !Speaking(task.pc)
      requires task.pc.Orchestrating? && answer == Confirm ==> action == nextAction
      modifies this`currentMessage, this`currentPending, this`nextAction, this`open, this`announced, this`dropped
      ensures Out(View(), pc, says) == RunStep(old(View()), t, task, answer)
    {
      var current := task.generation == Some(generation);
      says := [];
      match task.pc {
        case Approving(_) =>
          if answer == Yes && current { says := [ActionExecuted]; }
          pc := if current then CreatingTts(AfterConfirmation) else Completing;
        case Rejecting(_) => pc := if current then CreatingTts(AfterConfirmation) else Completing;
        case FindingUser => pc := Orchestrating;
        case Orchestrating => pc, says := OrchestratorAnswered(t, task, answer, action);
        case CancellingStale => pc := MarkingStale;
        case MarkingStale =>
          ForgetAnswer();
          pc := InterruptingStale;
        case AfterSpeak(next) =>
          if next == AfterConfirmation { return Completing, []; }
          return CompletingAnswer, if current then [LatencyMetrics] else [];
        case CompletingAnswer =>
          ForgetAnswer();
          pc := Returning;
        case _ => pc := Returning;
      }
    }

    method TurnStretch(t: nat, task: Task, answer: Answer, action: nat) returns (pc: Pc, says: seq<EventKind>)
      requires task.pc.Orchestrating? && answer == Confirm ==> action == nextAction
      modifies this
      ensures Out(View(), pc, says) == TurnStep(old(View()), t, task, answer)
    {
      if Finalizing(task.pc) { pc, says := FinalizeStretch(t, task, answer); }
      else if Speaking(task.pc) { pc, says := SpeakStretch(t, task, answer); }
      else { pc, says := RunStretch(t, task, answer, action); }
    }
  }

  class Connection {
    const state: SessionState
    var tasks: map<nat, Task>

    ghost function View(): World
      reads this, state
    {
      World(state.View(), tasks)
    }

    /** What is sent is attributed, no generation is ahead of the current one, and every action is accounted for. */
    ghost predicate Valid()
      reads this, state
    {
      Attributed(View()) && ActionsOk(state.View())
    }

    /** The current generation is one no turn has ever had. */
    ghost predicate GenerationIsNew()
      reads this, state
    {
      forall t <- tasks :: tasks[t].generation.Some? ==> tasks[t].generation.value < state.generation
    }

    constructor ()
      ensures Valid() && View() == START && fresh(state)
    {
      state := new SessionState();
      tasks := map[];
    }

    /** An audio frame. New speech gets a generation no turn has had, and no open action is cancelled. */
    method OnFrame(vad: Vad)
      requires Valid()
      modifies state
      ensures Valid() && View() == Step(old(View()), Frame(vad))
      ensures vad == SpeechStarted ==> GenerationIsNew()
      ensures state.open == old(state.open) && SparesOpen(old(state.View()), state.View())
    {
      StepSendsCurrent(View(), Frame(vad));
      StepKeepsActions(View(), Frame(vad));
      FrameSparesOpen(state.View(), vad);
      state.HandleFrame(vad);
    }

    method OnSttReady(found: bool)
      requires Valid()
      modifies state
      ensures Valid() && View() == Step(old(View()), Event.SttReady(found))
    {
      StepSendsCurrent(View(), Event.SttReady(found));
      StepKeepsActions(View(), Event.SttReady(found));
      state.SttReady(found);
    }

    /** session.interrupt: every turn is left behind, and no open action is cancelled. */
    method OnInterrupt()
      requires Valid()
      modifies state
      ensures Valid() && View() == Step(old(View()), Event.Interrupt)
      ensures GenerationIsNew()
      ensures state.open == old(state.open) && SparesOpen(old(state.View()), state.View())
    {
      StepSendsCurrent(View(), Event.Interrupt);
      StepKeepsActions(View(), Event.Interrupt);
      InterruptSparesOpen(state.View());
      state.Interrupt(true);
    }

    /** A finalize of the live STT session, as turn `t`; without one nothing happens. */
    method OnFinalize(t: nat)
      requires Valid()
      modifies this`tasks, state
      ensures Valid() && View() == Step(old(View()), Event.Finalize(t))
    {
      StepSendsCurrent(View(), Event.Finalize(t));
      StepKeepsActions(View(), Event.Finalize(t));
      if t in tasks || !state.stt { return; }
      var captured := state.TakeStt(t);
      tasks := tasks[t := Task(captured, Transitioning)];
    }

    /** The operation turn `t` awaits completes: its next stretch runs, and its messages go out in order. */
    method OnResume(t: nat, answer: Answer, action: nat)
      requires Valid() && action == state.nextAction
      modifies this`tasks, state
      ensures Valid() && View() == Step(old(View()), Event.Resume(t, answer))
    {
      StepSendsCurrent(View(), Event.Resume(t, answer));
      StepKeepsActions(View(), Event.Resume(t, answer));
      if t !in tasks { return; }
      var task := tasks[t];
      TurnStepSpeaksCurrent(state.View(), t, task, answer);
      var pc, says := state.TurnStretch(t, task, answer, action);
      state.Emit(t, says);
      tasks := tasks[t := task.(pc := pc)];
    }

    /** The operation turn `t` awaits throws where nothing catches it: the turn is over, the session as it left it. */
    method OnReject(t: nat)
      requires Valid()
      modifies this`tasks
      ensures Valid() && View() == Step(old(View()), Event.Reject(t))
    {
      StepSendsCurrent(View(), Event.Reject(t));
      StepKeepsActions(View(), Event.Reject(t));
      if t in tasks && MayReject(tasks[t].pc) { tasks := tasks[t := tasks[t].(pc := Finished)]; }
    }
  }

  /** No action the user was asked about and can still answer is cancelled. */
  ghost predicate SparesOpen(s: Session, s': Session) {
    forall id <- s.open :: id in s'.bargeCancelled ==> id in s.bargeCancelled
  }

  lemma FrameSparesOpen(s: Session, vad: Vad)
    ensures HandleFrame(s, vad).open == s.open && SparesOpen(s, HandleFrame(s, vad))
    ensures vad == SpeechStarted ==> HandleFrame(s, vad).generation == s.generation + 1
  {}

  lemma InterruptSparesOpen(s: Session)
    ensures InterruptSession(s, true).open == s.open && SparesOpen(s, InterruptSession(s, true))
    ensures InterruptSession(s, true).generation == s.generation + 1
  {}

  /** handleAudioFrame's audio side: the flood guard, the rolling pre-speech buffer and the flush at an onset. */
  class AudioIntake {
    var live: bool
    var starting: nat
    var speaking: bool
    var buffer: seq<nat>
    var pushedCount: nat
    var sinceFinalize: nat
    var received: nat
    var pushed: seq<nat>
    ghost var spokenAt: seq<bool>
    ghost var liveAt: seq<bool>
    ghost var onsets: set<nat>
    ghost var cuts: set<nat>
    ghost var finalizes: set<nat>
    ghost var floor: nat
    ghost var windows: seq<Audio.Window>

    ghost function View(): Audio.Intake
      reads this
    {
      Audio.Intake(live, starting, speaking, buffer, pushedCount, sinceFinalize, received, pushed, spokenAt, liveAt,
                   onsets, cuts, finalizes, floor, windows)
    }

    /** What was pushed are whole windows, and the buffer holds what the last frames before an onset need. */
    ghost predicate Valid()
      reads this
    {
      Audio.Sound(View())
    }

    constructor ()
      ensures Valid() && View() == Audio.QUIET
    {
      live, starting, speaking, buffer, pushedCount := false, 0, false, [], 0;
      sinceFinalize, received, pushed := 0, 0, [];
      spokenAt, liveAt, onsets, cuts, finalizes, floor, windows := [], [], {}, {}, {}, 0, [];
    }

    method RegisterFrame() returns (accepted: bool)
      modifies this`sinceFinalize
      ensures View() == old(View()).(sinceFinalize := old(sinceFinalize) + 1)
      ensures accepted <==> Audio.Accepts(old(View()))
    {
      sinceFinalize := sinceFinalize + 1;
      accepted := sinceFinalize <= Audio.MAX_FRAMES_PER_TURN;
    }

    /** Without a session one is asked for, and what is pushed meanwhile is dropped. */
    method PushAudio(frame: nat)
      modifies this`pushed
      ensures pushed == if live then old(pushed) + [frame] else old(pushed)
    {
      if live { pushed := pushed + [frame]; }
    }

    method FlushBuffer()
      modifies this`pushed
      ensures pushed == if live then old(pushed) + buffer else old(pushed)
    {
      var i := 0;
      while i < |buffer|
        invariant 0 <= i <= |buffer|
        invariant pushed == if live then old(pushed) + buffer[..i] else old(pushed)
      {
        PushAudio(buffer[i]);
        i := i + 1;
      }
    }

    ghost method RecordFrame()
      modifies this`spokenAt, this`liveAt
      ensures spokenAt == old(spokenAt) + [speaking] && liveAt == old(liveAt) + [live]
    {
      spokenAt, liveAt := spokenAt + [speaking], liveAt + [live];
    }

    ghost method RecordSpoken(frame: nat)
      modifies this`windows, this`floor, this`cuts
      ensures var s := old(View()).(received := frame);
        && windows == (if live then Audio.Extended(s) else old(windows))
        && floor == frame + 1 && cuts == old(cuts) + {frame + 1}
    {
      windows := if live then Audio.Extended(View().(received := frame)) else windows;
      floor := frame + 1;
      cuts := cuts + {frame + 1};
    }

    method Speak()
      requires speaking
      modifies this`received, this`pushed, this`pushedCount
      modifies this`spokenAt, this`liveAt, this`windows, this`floor, this`cuts
      ensures View() == Audio.Speak(old(View()))
    {
      var frame := received;
      RecordFrame();
      received := received + 1;
      RecordSpoken(frame);
      PushAudio(frame);
      pushedCount := pushedCount + 1;
    }

    method Keep()
      requires !speaking
      modifies this`received, this`buffer, this`spokenAt, this`liveAt
      ensures View() == Audio.Keep(old(View()))
    {
      RecordFrame();
      buffer := buffer + [received];
      received := received + 1;
      if |buffer| > Audio.PRE_SPEECH_BUFFER_FRAMES { buffer := buffer[1..]; }
    }

    /** The frame is pushed, or kept in the rolling buffer. */
    method Store()
      modifies this`received, this`pushed, this`pushedCount, this`buffer
      modifies this`spokenAt, this`liveAt, this`windows, this`floor, this`cuts
      ensures View() == Audio.Store(old(View()))
    {
      if speaking { Speak(); } else { Keep(); }
    }

    ghost method RecordOnset()
      requires 0 < received
      modifies this`windows, this`floor, this`cuts, this`onsets
      ensures var s := old(View());
        && windows == (if live && buffer != [] then s.windows + [Audio.Opening(s)] else s.windows)
        && floor == received && cuts == s.cuts + {received}
        && onsets == if speaking then s.onsets else s.onsets + {received - 1}
    {
      windows := if live && buffer != [] then windows + [Audio.Opening(View())] else windows;
      floor, cuts := received, cuts + {received};
      onsets := if speaking then onsets else onsets + {received - 1};
    }

    method Onset()
      requires 0 < received
      modifies this`speaking, this`pushed, this`buffer, this`windows, this`floor, this`cuts, this`onsets
      ensures View() == Audio.Onset(old(View()))
    {
      RecordOnset();
      speaking := true;
      FlushBuffer();
      buffer := [];
    }

    method HandleFrame(vad: Audio.Vad)
      requires Valid()
      modifies this
      ensures Valid() && View() == Audio.Step(old(View()), Audio.Frame(vad))
    {
      Audio.StepKeepsSound(View(), Audio.Frame(vad));
      TakeIn(vad);
    }

    method TakeIn(vad: Audio.Vad)
      modifies this
      ensures View() == Audio.Step(old(View()), Audio.Frame(vad))
    {
      var accepted := RegisterFrame();
      if !accepted { return; }
      if !live { starting := starting + 1; }
      assert View() == Audio.Admitted(old(View()));
      Store();
      match vad
      case NoChange =>
      case SpeechStarted => Onset();
      case SpeechEnded => speaking := false;
    }

    /** createStt(...).then(...) */
    method SttReady(found: bool)
      requires Valid()
      modifies this`live, this`starting
      ensures Valid() && View() == Audio.Step(old(View()), Audio.SttReady(found))
    {
      Audio.StepKeepsSound(View(), Audio.SttReady(found));
      OpenSession(found);
    }

    method OpenSession(found: bool)
      modifies this`live, this`starting
      ensures View() == Audio.SessionReady(old(View()), found)
    {
      if starting > 0 {
        starting := starting - 1;
        live := live || found;
      }
    }

    /** finalizeTurn: without a session nothing happens, else the session and everything counted are gone. */
    method Finalize()
      requires Valid()
      modifies this
      ensures Valid() && View() == Audio.Step(old(View()), Audio.Finalize)
    {
      Audio.StepKeepsSound(View(), Audio.Finalize);
      TakeSession();
    }

    ghost method RecordFinalize()
      modifies this`floor, this`cuts, this`finalizes
      ensures floor == received && cuts == old(cuts) + {received} && finalizes == old(finalizes) + {received}
    {
      floor, cuts, finalizes := received, cuts + {received}, finalizes + {received};
    }

    method TakeSession()
      modifies this`live, this`buffer, this`pushedCount, this`sinceFinalize, this`floor, this`cuts, this`finalizes
      ensures View() == Audio.TakeSession(old(View()))
    {
      if live {
        RecordFinalize();
        live, buffer, pushedCount, sinceFinalize := false, [], 0, 0;
      }
    }
  }
}
