/** What barge-in guarantees, over every run of one voice connection. */
module VoiceSafety {
  import opened Wrappers
  import opened VoiceProtocol

  // ---------------------------------------------------------------------
  // A superseded generation stays silent

  /** Every message on the wire belongs to the generation of the turn it was sent for. */
  ghost predicate Attributed(w: World) {
    && (forall m <- w.s.sent :: m.task in w.tasks && w.tasks[m.task].generation == Some(m.generation))
    && (forall t <- w.tasks :: w.tasks[t].generation.Some? ==> w.tasks[t].generation.value <= w.s.generation)
    && (w.s.sttGeneration.Some? ==> w.s.sttGeneration.value <= w.s.generation)
  }

  /**
   * A turn step only speaks for the current generation, plays no audio once aborted, and never changes a generation.
   */
  ghost predicate SpeaksCurrent(s: Session, t: nat, task: Task, out: Out) {
    && (out.says != [] ==> Current(s, task))
    && (AudioChunk in out.says ==> t !in s.aborted)
    && out.s.sent == s.sent && out.s.generation == s.generation && out.s.sttGeneration == s.sttGeneration
    && out.s.taken == s.taken && s.aborted <= out.s.aborted
  }

  lemma BeginRunSpeaksCurrent(s: Session, t: nat, task: Task, intent: Intent)
    ensures SpeaksCurrent(s, t, task, BeginRun(s, t, task, intent))
  {}

  lemma StoppingSpeaksNothing(s: Session, t: nat, task: Task, pc: Pc)
    ensures SpeaksCurrent(s, t, task, Out(StopActiveGeneration(s), pc, []))
  {}

  lemma FinalizeStepSpeaksCurrent(s: Session, t: nat, task: Task, answer: Answer)
    ensures SpeaksCurrent(s, t, task, FinalizeStep(s, t, task, answer))
  {
    match task.pc
    case StartingTurn(intent) => BeginRunSpeaksCurrent(s, t, task, intent);
    case EnteringThinking(intent) => StoppingSpeaksNothing(s, t, task, StartingTurn(intent));
    case _ =>
  }

  lemma DeliverySpeaksCurrent(s: Session, t: nat, task: Task, answer: Answer)
    requires task.pc.Delivering?
    ensures SpeaksCurrent(s, t, task, SpeakStep(s, t, task, answer))
  {}

  lemma SpeakStepSpeaksCurrent(s: Session, t: nat, task: Task, answer: Answer)
    ensures SpeaksCurrent(s, t, task, SpeakStep(s, t, task, answer))
  {
    if task.pc.Delivering? { DeliverySpeaksCurrent(s, t, task, answer); }
  }

  lemma OrchestratorSpeaksCurrent(s: Session, t: nat, task: Task, answer: Answer)
    ensures SpeaksCurrent(s, t, task, OrchestratorAnswered(s, t, task, answer))
  {}

  lemma RunStepSpeaksCurrent(s: Session, t: nat, task: Task, answer: Answer)
    ensures SpeaksCurrent(s, t, task, RunStep(s, t, task, answer))
  {
    if task.pc.Orchestrating? { OrchestratorSpeaksCurrent(s, t, task, answer); }
  }

  lemma TurnStepSpeaksCurrent(s: Session, t: nat, task: Task, answer: Answer)
    ensures SpeaksCurrent(s, t, task, TurnStep(s, t, task, answer))
  {
    if Finalizing(task.pc) { FinalizeStepSpeaksCurrent(s, t, task, answer); }
    else if Speaking(task.pc) { SpeakStepSpeaksCurrent(s, t, task, answer); }
    else { RunStepSpeaksCurrent(s, t, task, answer); }
  }

  /** What a step adds to the wire is for the current generation, and no audio of an aborted turn. */
  ghost predicate SendsCurrent(w: World, w': World) {
    && w.s.sent <= w'.s.sent && w.s.generation <= w'.s.generation && w.s.aborted <= w'.s.aborted
    && (forall i | |w.s.sent| <= i < |w'.s.sent| :: w'.s.sent[i].generation == w.s.generation)
    && (forall i | |w.s.sent| <= i < |w'.s.sent| ::
        w'.s.sent[i].kind == AudioChunk ==> w'.s.sent[i].task !in w.s.aborted)
  }

  lemma ResumeSendsCurrent(w: World, t: nat, answer: Answer)
    requires Attributed(w) && t in w.tasks
    ensures Attributed(Step(w, Resume(t, answer))) && SendsCurrent(w, Step(w, Resume(t, answer)))
  {
    var out := TurnStep(w.s, t, w.tasks[t], answer);
    TurnStepSpeaksCurrent(w.s, t, w.tasks[t], answer);
    var w' := Step(w, Resume(t, answer));
    assert w'.s.sent == w.s.sent + Stamp(t, w.s.generation, out.says);
    assert w'.s.generation == w.s.generation && w'.s.sttGeneration == w.s.sttGeneration;
    forall m | m in w'.s.sent ensures m.task in w'.tasks && w'.tasks[m.task].generation == Some(m.generation) {
      if m !in w.s.sent { assert m.task == t && m.generation == w.s.generation && Current(w.s, w.tasks[t]); }
    }
  }

  /** The gateway's own handlers send nothing for a turn, and only move the generation forward. */
  ghost predicate Quiet(s: Session, s': Session) {
    && s'.sent == s.sent && s.aborted <= s'.aborted && s.generation <= s'.generation
    && (s'.sttGeneration == s.sttGeneration || s'.sttGeneration.None? || s'.sttGeneration.value <= s'.generation)
  }

  lemma FrameIsQuiet(s: Session, vad: Vad)
    ensures Quiet(s, HandleFrame(s, vad))
  {}

  lemma InterruptIsQuiet(s: Session)
    ensures Quiet(s, InterruptSession(s, true))
  {}

  lemma SttIsQuiet(s: Session, found: bool, t: nat)
    ensures Quiet(s, HandleSttReady(s, found)) && Quiet(s, TakeStt(s, t))
  {}

  lemma HandlersSendNothing(w: World, e: Event)
    requires Attributed(w) && !e.Resume?
    ensures Attributed(Step(w, e)) && SendsCurrent(w, Step(w, e))
  {
    match e
    case Frame(vad) => FrameIsQuiet(w.s, vad);
    case SttReady(found) => SttIsQuiet(w.s, found, 0);
    case Interrupt => InterruptIsQuiet(w.s);
    case Finalize(t) => SttIsQuiet(w.s, true, t);
    case Reject(_) =>
  }

  lemma StepSendsCurrent(w: World, e: Event)
    requires Attributed(w)
    ensures Attributed(Step(w, e)) && SendsCurrent(w, Step(w, e))
  {
    if e.Resume? {
      if e.task in w.tasks { ResumeSendsCurrent(w, e.task, e.answer); }
    } else {
      HandlersSendNothing(w, e);
    }
  }

  lemma {:induction false} ExecSendsCurrent(w: World, events: seq<Event>)
    requires Attributed(w)
    ensures var w' := Exec(w, events);
      && Attributed(w')
      && w.s.sent <= w'.s.sent && w.s.generation <= w'.s.generation && w.s.aborted <= w'.s.aborted
      && (forall i | |w.s.sent| <= i < |w'.s.sent| :: w.s.generation <= w'.s.sent[i].generation)
      && (forall i | |w.s.sent| <= i < |w'.s.sent| ::
          w'.s.sent[i].kind == AudioChunk ==> w'.s.sent[i].task !in w.s.aborted)
    decreases |events|
  {
    if events != [] {
      StepSendsCurrent(w, events[0]);
      ExecSendsCurrent(Step(w, events[0]), events[1..]);
    }
  }

  lemma {:induction false} ExecConcat(w: World, a: seq<Event>, b: seq<Event>)
    ensures Exec(w, a + b) == Exec(Exec(w, a), b)
    decreases |a|
  {
    if a == [] {
      assert a + b == b;
    } else {
      assert (a + b)[0] == a[0] && (a + b)[1..] == a[1..] + b;
      ExecConcat(Step(w, a[0]), a[1..], b);
    }
  }

  /**
   * New speech or an interrupt silences every generation minted so far: whatever the providers answer, and
   * whenever, no later message belongs to a turn of such a generation.
   */
  lemma SupersededTurnsAreSilent(before: seq<Event>, e: Event, after: seq<Event>, i: nat)
    requires e == Interrupt || e == Frame(SpeechStarted)
    requires |Exec(START, before + [e]).s.sent| <= i < |Exec(START, before + [e] + after).s.sent|
    ensures var (was, now) := (Exec(START, before), Exec(START, before + [e] + after)); var m := now.s.sent[i];
      && was.s.generation < m.generation
      && m.task in now.tasks && now.tasks[m.task].generation == Some(m.generation)
  {
    var was := Exec(START, before);
    ExecSendsCurrent(START, before);
    StepSendsCurrent(was, e);
    ExecConcat(START, before, [e]);
    assert Exec(was, [e]) == Step(was, e) by { assert Exec(Step(was, e), []) == Step(was, e); }
    ExecConcat(START, before + [e], after);
    ExecSendsCurrent(Step(was, e), after);
    var now := Exec(START, before + [e] + after);
    assert now.s.sent[i] in now.s.sent;
  }

  /** Aborting a turn's TTS stops its audio even while its generation is still the current one. */
  lemma AbortedTurnsPlayNothing(before: seq<Event>, after: seq<Event>, i: nat)
    requires |Exec(START, before).s.sent| <= i < |Exec(START, before + after).s.sent|
    requires Exec(START, before + after).s.sent[i].kind == AudioChunk
    ensures Exec(START, before + after).s.sent[i].task !in Exec(START, before).s.aborted
  {
    ExecSendsCurrent(START, before);
    ExecConcat(START, before, after);
    ExecSendsCurrent(Exec(START, before), after);
  }

  // ---------------------------------------------------------------------
  // Pending actions obtained by voice turns

  /**
   * Ids handed out so far are below `nextAction`; each was
   * announced or dropped, and an announced one is open or resolved.
   */
  ghost predicate ActionsOk(s: Session) {
    && (forall id: nat :: id < s.nextAction <==> id in s.announced + s.dropped)
    && s.announced !! s.dropped
    && s.announced == s.open + s.resolved
    && s.open !! s.resolved
    && (s.currentPending.Some? ==> s.currentPending.value < s.nextAction)
    && s.bargeCancelled <= s.announced + s.dropped
  }

  ghost predicate HistoryGrows(s: Session, s': Session) {
    s.announced <= s'.announced && s.dropped <= s'.dropped && s.resolved <= s'.resolved
  }

  lemma BeginRunKeepsActions(s: Session, t: nat, task: Task, intent: Intent)
    requires ActionsOk(s)
    ensures ActionsOk(BeginRun(s, t, task, intent).s) && HistoryGrows(s, BeginRun(s, t, task, intent).s)
  {}

  lemma StoppingKeepsActions(s: Session)
    requires ActionsOk(s)
    ensures ActionsOk(StopActiveGeneration(s)) && HistoryGrows(s, StopActiveGeneration(s))
  {}

  /** An id just handed out is announced and opened, or dropped. */
  lemma NewActionKeepsActions(s: Session, s': Session)
    requires ActionsOk(s) && s'.nextAction == s.nextAction + 1 && s'.resolved == s.resolved
      && s'.bargeCancelled == s.bargeCancelled
    requires s'.currentPending == Some(s.nextAction)
    requires
      || (s'.announced == s.announced + {s.nextAction} && s'.open == s.open + {s.nextAction} && s'.dropped == s.dropped)
      || (s'.announced == s.announced && s'.open == s.open && s'.dropped == s.dropped + {s.nextAction})
    ensures ActionsOk(s') && HistoryGrows(s, s')
  {
    assert s.nextAction !in s.announced + s.dropped;
    forall id: nat ensures id < s'.nextAction <==> id in s'.announced + s'.dropped {
      assert id < s.nextAction <==> id in s.announced + s.dropped;
    }
  }

  lemma OrchestratorKeepsActions(s: Session, t: nat, task: Task, answer: Answer)
    requires ActionsOk(s)
    ensures ActionsOk(OrchestratorAnswered(s, t, task, answer).s)
    ensures HistoryGrows(s, OrchestratorAnswered(s, t, task, answer).s)
  {
    if answer == Confirm { NewActionKeepsActions(s, OrchestratorAnswered(s, t, task, answer).s); }
  }

  /** The step touches no action, except that it may forget which one is current. */
  ghost predicate LeavesActions(s: Session, s': Session) {
    && s'.nextAction == s.nextAction && s'.open == s.open && s'.announced == s.announced && s'.dropped == s.dropped
    && s'.resolved == s.resolved && s'.bargeCancelled == s.bargeCancelled
    && (s'.currentPending == s.currentPending || s'.currentPending.None?)
  }

  lemma SpeakStepLeavesActions(s: Session, t: nat, task: Task, answer: Answer)
    ensures LeavesActions(s, SpeakStep(s, t, task, answer).s)
  {}

  lemma RunStepLeavesActions(s: Session, t: nat, task: Task, answer: Answer)
    requires !task.pc.Orchestrating?
    ensures LeavesActions(s, RunStep(s, t, task, answer).s) && !RunStep(s, t, task, answer).pc.StartingTurn?
  {}

  lemma FinalizeStepLeavesActions(s: Session, t: nat, task: Task, answer: Answer)
    requires !(Current(s, task) && (task.pc.StartingTurn? || task.pc.EnteringThinking?))
    ensures LeavesActions(s, FinalizeStep(s, t, task, answer).s) && !FinalizeStep(s, t, task, answer).pc.StartingTurn?
  {}

  /** A turn step either leaves the actions alone or is one of the three that handle them. */
  lemma TurnStepOnActions(s: Session, t: nat, task: Task, answer: Answer)
    ensures var out := TurnStep(s, t, task, answer);
      || (task.pc.Orchestrating? && out == OrchestratorAnswered(s, t, task, answer))
      || (task.pc.StartingTurn? && Current(s, task) && out == BeginRun(s, t, task, task.pc.intent))
      || (task.pc.EnteringThinking? && Current(s, task) && out.s == StopActiveGeneration(s))
      || (LeavesActions(s, out.s) && !out.pc.StartingTurn?)
  {
    if Speaking(task.pc) { SpeakStepLeavesActions(s, t, task, answer); }
    else if Finalizing(task.pc) {
      if !(Current(s, task) && (task.pc.StartingTurn? || task.pc.EnteringThinking?)) {
        FinalizeStepLeavesActions(s, t, task, answer);
      }
    } else if !task.pc.Orchestrating? { RunStepLeavesActions(s, t, task, answer); }
  }

  lemma TurnStepKeepsActions(s: Session, t: nat, task: Task, answer: Answer)
    requires ActionsOk(s)
    ensures ActionsOk(TurnStep(s, t, task, answer).s) && HistoryGrows(s, TurnStep(s, t, task, answer).s)
  {
    TurnStepOnActions(s, t, task, answer);
    if task.pc.Orchestrating? { OrchestratorKeepsActions(s, t, task, answer); }
    else if task.pc.StartingTurn? { BeginRunKeepsActions(s, t, task, task.pc.intent); }
    else if task.pc.EnteringThinking? { StoppingKeepsActions(s); }
  }

  lemma QuietFrameOnActions(s: Session, vad: Vad)
    requires vad != SpeechStarted
    ensures LeavesActions(s, HandleFrame(s, vad))
  {}

  lemma OnsetOnActions(s: Session)
    ensures
      if s.tts.Some? || s.currentTurn.Some? then LeavesActions(StopActiveGeneration(s), HandleFrame(s, SpeechStarted))
      else LeavesActions(s, HandleFrame(s, SpeechStarted))
  {}

  /** A frame stops the active generation, or leaves the actions alone. */
  lemma FrameOnActions(s: Session, vad: Vad)
    ensures LeavesActions(StopActiveGeneration(s), HandleFrame(s, vad)) || LeavesActions(s, HandleFrame(s, vad))
  {
    if vad == SpeechStarted { OnsetOnActions(s); } else { QuietFrameOnActions(s, vad); }
  }

  lemma InterruptOnActions(s: Session)
    ensures LeavesActions(StopActiveGeneration(s), InterruptSession(s, true))
  {}

  lemma SttOnActions(s: Session, found: bool, t: nat)
    ensures LeavesActions(s, HandleSttReady(s, found)) && LeavesActions(s, TakeStt(s, t))
  {}

  /** The gateway's own handlers either leave the actions alone or stop the active generation. */
  lemma HandlersOnActions(w: World, e: Event)
    requires !e.Resume?
    ensures LeavesActions(StopActiveGeneration(w.s), Step(w, e).s) || LeavesActions(w.s, Step(w, e).s)
  {
    match e
    case Frame(vad) => FrameOnActions(w.s, vad);
    case SttReady(found) => SttOnActions(w.s, found, 0);
    case Interrupt => InterruptOnActions(w.s);
    case Finalize(t) => SttOnActions(w.s, true, t);
    case Reject(_) =>
  }

  lemma StepKeepsActions(w: World, e: Event)
    requires ActionsOk(w.s)
    ensures ActionsOk(Step(w, e).s) && HistoryGrows(w.s, Step(w, e).s)
  {
    if e.Resume? {
      if e.task in w.tasks { TurnStepKeepsActions(w.s, e.task, w.tasks[e.task], e.answer); }
    } else {
      HandlersOnActions(w, e);
      StoppingKeepsActions(w.s);
    }
  }

  lemma {:induction false} ExecKeepsActions(w: World, events: seq<Event>)
    requires ActionsOk(w.s)
    ensures ActionsOk(Exec(w, events).s)
    decreases |events|
  {
    if events != [] {
      StepKeepsActions(w, events[0]);
      ExecKeepsActions(Step(w, events[0]), events[1..]);
    }
  }

  /** Every action a voice turn ever obtained was put to the user or cancelled, and never both. */
  lemma EveryActionIsAnnouncedOrDropped(events: seq<Event>, id: nat)
    ensures var s := Exec(START, events).s;
      && (id < s.nextAction <==> id in s.announced || id in s.dropped)
      && !(id in s.announced && id in s.dropped)
      && (id in s.announced <==> id in s.open || id in s.resolved)
      && !(id in s.open && id in s.resolved)
  {
    ExecKeepsActions(START, events);
  }

  lemma OrchestratorObtains(s: Session, t: nat, task: Task, answer: Answer)
    requires TurnStep(s, t, task, answer).s.nextAction != s.nextAction
    ensures var out := TurnStep(s, t, task, answer); var (id, s') := (s.nextAction, out.s);
      && s'.nextAction == id + 1 && s'.sent == s.sent
      && if Current(s, task) then
           && s'.open == s.open + {id} && s'.announced == s.announced + {id} && s'.dropped == s.dropped
           && out.says == [PendingConfirmation]
         else
           && s'.dropped == s.dropped + {id} && s'.open == s.open && s'.announced == s.announced
           && out.says == [] && out.pc == CancellingStale
  {
    TurnStepOnActions(s, t, task, answer);
  }

  /**
   * An announcement opens the id in the same step as it reaches
   * the socket; a stale turn's id goes straight to cancel().
   */
  lemma ObtainingIsAtomic(w: World, e: Event)
    requires Step(w, e).s.nextAction != w.s.nextAction
    ensures var (s, s') := (w.s, Step(w, e).s); var id := s.nextAction;
      && e.Resume? && e.task in w.tasks && s'.nextAction == id + 1
      && var task := w.tasks[e.task];
      if Current(s, task) then
        s'.open == s.open + {id} && s'.announced == s.announced + {id} && s'.dropped == s.dropped
        && s'.sent == s.sent + [Sent(e.task, s.generation, PendingConfirmation)]
      else
        s'.dropped == s.dropped + {id} && s'.open == s.open && s'.announced == s.announced && s'.sent == s.sent
        && Step(w, e).tasks[e.task].pc == CancellingStale
  {
    if e.Resume? && e.task in w.tasks {
      OrchestratorObtains(w.s, e.task, w.tasks[e.task], e.answer);
    } else if !e.Resume? {
      HandlersOnActions(w, e);
    }
  }

  lemma TurnStepCloses(s: Session, t: nat, task: Task, answer: Answer, id: nat)
    requires id in s.open && id !in TurnStep(s, t, task, answer).s.open
    ensures s.open == {id} && Current(s, task)
    ensures var out := TurnStep(s, t, task, answer);
      (out.pc == Approving(id) || out.pc == Rejecting(id)) && out.s.resolved == s.resolved + {id}
  {
    TurnStepOnActions(s, t, task, answer);
  }

  /** An id leaves the open set only to be approved or rejected, and only when no other id was open. */
  lemma OnlyConfirmationsCloseActions(w: World, e: Event, id: nat)
    requires id in w.s.open && id !in Step(w, e).s.open
    ensures w.s.open == {id}
    ensures e.Resume? && e.task in w.tasks && Current(w.s, w.tasks[e.task])
    ensures var pc := Step(w, e).tasks[e.task].pc; pc == Approving(id) || pc == Rejecting(id)
    ensures Step(w, e).s.resolved == w.s.resolved + {id}
  {
    if e.Resume? && e.task in w.tasks {
      TurnStepCloses(w.s, e.task, w.tasks[e.task], e.answer, id);
    }
  }

  /** While two actions or more are open, nothing closes one: a bare yes or no approves and rejects nothing. */
  lemma AmbiguousConfirmationChangesNothing(w: World, e: Event, t: nat)
    requires |w.s.open| > 1
    ensures w.s.open <= Step(w, e).s.open && Step(w, e).s.resolved == w.s.resolved
    ensures t in Step(w, e).tasks && (Step(w, e).tasks[t].pc.Approving? || Step(w, e).tasks[t].pc.Rejecting?) ==>
              t in w.tasks && Step(w, e).tasks[t] == w.tasks[t]
    ensures e.Resume? && e.task in w.tasks && Current(w.s, w.tasks[e.task])
            && (w.tasks[e.task].pc == StartingTurn(Affirm) || w.tasks[e.task].pc == StartingTurn(Deny)) ==>
              Step(w, e).s.sent == w.s.sent + [Sent(e.task, w.s.generation, ClarificationNeeded)]
  {
    if e.Resume? && e.task in w.tasks {
      AmbiguousTurnStep(w.s, e.task, w.tasks[e.task], e.answer);
    } else if !e.Resume? {
      HandlersOnActions(w, e);
    }
  }

  lemma OnlyBeginningsConfirm(s: Session, t: nat, task: Task, answer: Answer)
    requires !(task.pc.StartingTurn? && Current(s, task))
    ensures var pc := TurnStep(s, t, task, answer).pc; !pc.Approving? && !pc.Rejecting?
  {}

  lemma AmbiguousBeginning(s: Session, t: nat, task: Task, intent: Intent)
    requires |s.open| > 1
    ensures var out := BeginRun(s, t, task, intent);
      && out.s.open == s.open && out.s.resolved == s.resolved && !out.pc.Approving? && !out.pc.Rejecting?
      && (Current(s, task) && intent != Other ==> out.says == [ClarificationNeeded])
  {
    assert |s.open| != 0;
  }

  lemma AmbiguousTurnStep(s: Session, t: nat, task: Task, answer: Answer)
    requires |s.open| > 1
    ensures var out := TurnStep(s, t, task, answer);
      && s.open <= out.s.open && out.s.resolved == s.resolved && out.s.sent == s.sent
      && !out.pc.Approving? && !out.pc.Rejecting?
      && (Current(s, task) && (task.pc == StartingTurn(Affirm) || task.pc == StartingTurn(Deny)) ==>
            out.says == [ClarificationNeeded])
  {
    TurnStepSpeaksCurrent(s, t, task, answer);
    if task.pc.StartingTurn? && Current(s, task) {
      AmbiguousBeginning(s, t, task, task.pc.intent);
    } else {
      TurnStepOnActions(s, t, task, answer);
      OnlyBeginningsConfirm(s, t, task, answer);
    }
  }

  // ---------------------------------------------------------------------
  // Barge-in and announced actions

  ghost predicate CancelsAnnounced(s: Session, s': Session) {
    exists id :: id in s'.bargeCancelled && id !in s.bargeCancelled && id in s.announced
  }

  /** Stopping a generation cancels an action the user was asked about exactly when that action was already resolved. */
  lemma StoppingCancelsAnnouncedIff(s: Session)
    requires ActionsOk(s) && s.currentPending.Some? && s.currentPending.value !in s.bargeCancelled
    ensures CancelsAnnounced(s, StopActiveGeneration(s)) <==> s.currentPending.value in s.resolved
  {
    var id := s.currentPending.value;
    if id in s.resolved {
      assert id in StopActiveGeneration(s).bargeCancelled;
    }
  }

  /** The finalize captures a generation no earlier finalize has captured. */
  ghost predicate FreshEvent(w: World, e: Event) {
    e.Finalize? && e.task !in w.tasks && w.s.stt && w.s.sttGeneration.Some? ==> w.s.sttGeneration.value !in w.s.taken
  }

  ghost predicate FreshRun(w: World, events: seq<Event>)
    decreases |events|
  {
    events == [] || (FreshEvent(w, events[0]) && FreshRun(Step(w, events[0]), events[1..]))
  }

  /** The pending id a barge-in may cancel is never one the user has answered. */
  ghost predicate PendingOk(s: Session) {
    && (s.currentPending.Some? ==> s.currentPending.value !in s.resolved)
    && s.bargeCancelled !! s.announced
  }

  /** No announced id is current: what stopActiveGeneration leaves behind, until some turn of this generation speaks. */
  ghost predicate NothingAsked(s: Session) {
    s.currentPending.Some? ==> s.currentPending.value !in s.announced
  }

  /** Turns' generations were taken, each by one turn. */
  ghost predicate TurnsApart(w: World) {
    && (forall t <- w.tasks :: w.tasks[t].generation.Some? ==> w.tasks[t].generation.value in w.s.taken)
    && (forall t, u | t in w.tasks && u in w.tasks ::
          w.tasks[t].generation.Some? && w.tasks[t].generation == w.tasks[u].generation ==> t == u)
  }

  /** No turn that is about to bind a confirmation has an announced id current. */
  ghost predicate NoStartAsked(w: World) {
    forall t <- w.tasks :: w.tasks[t].pc.StartingTurn? && Current(w.s, w.tasks[t]) ==> NothingAsked(w.s)
  }

  ghost predicate DistinctTurns(w: World) {
    Attributed(w) && ActionsOk(w.s) && TurnsApart(w) && PendingOk(w.s) && NoStartAsked(w)
  }

  lemma StoppingKeepsPending(s: Session)
    requires ActionsOk(s) && PendingOk(s)
    ensures PendingOk(StopActiveGeneration(s)) && NothingAsked(StopActiveGeneration(s))
  {}

  lemma OrchestratorKeepsPending(s: Session, t: nat, task: Task, answer: Answer)
    requires ActionsOk(s) && PendingOk(s)
    ensures PendingOk(OrchestratorAnswered(s, t, task, answer).s)
    ensures NothingAsked(s) && !Current(s, task) ==> NothingAsked(OrchestratorAnswered(s, t, task, answer).s)
  {
    assert s.nextAction !in s.announced + s.dropped;
  }

  lemma BeginRunKeepsPending(s: Session, t: nat, task: Task, intent: Intent)
    requires ActionsOk(s) && PendingOk(s) && NothingAsked(s)
    ensures PendingOk(BeginRun(s, t, task, intent).s)
  {}

  lemma TurnStepKeepsPending(s: Session, t: nat, task: Task, answer: Answer)
    requires ActionsOk(s) && PendingOk(s)
    requires task.pc.StartingTurn? && Current(s, task) ==> NothingAsked(s)
    ensures var out := TurnStep(s, t, task, answer);
      && PendingOk(out.s)
      && (out.pc.StartingTurn? ==> NothingAsked(out.s))
      && (NothingAsked(s) && !Current(s, task) ==> NothingAsked(out.s))
  {
    TurnStepOnActions(s, t, task, answer);
    if task.pc.Orchestrating? { OrchestratorKeepsPending(s, t, task, answer); }
    else if task.pc.EnteringThinking? { StoppingKeepsPending(s); }
    else if task.pc.StartingTurn? && Current(s, task) { BeginRunKeepsPending(s, t, task, task.pc.intent); }
  }

  lemma ResumeKeepsDistinctTurns(w: World, t: nat, answer: Answer)
    requires DistinctTurns(w) && t in w.tasks
    ensures DistinctTurns(Step(w, Resume(t, answer)))
  {
    var out := TurnStep(w.s, t, w.tasks[t], answer);
    var w' := Step(w, Resume(t, answer));
    StepSendsCurrent(w, Resume(t, answer));
    StepKeepsActions(w, Resume(t, answer));
    TurnStepSpeaksCurrent(w.s, t, w.tasks[t], answer);
    TurnStepKeepsPending(w.s, t, w.tasks[t], answer);
    forall u | u in w'.tasks && w'.tasks[u].pc.StartingTurn? && Current(w'.s, w'.tasks[u])
      ensures NothingAsked(w'.s)
    {
      if u != t { assert !Current(w.s, w.tasks[t]); }
    }
  }

  lemma OtherStepsKeepPending(w: World, e: Event)
    requires ActionsOk(w.s) && PendingOk(w.s) && !e.Resume?
    ensures PendingOk(Step(w, e).s)
    ensures NothingAsked(w.s) ==> NothingAsked(Step(w, e).s)
  {
    HandlersOnActions(w, e);
    StoppingKeepsPending(w.s);
  }

  /** A frame, an answer or an interrupt leaves the turns and what they took alone; a generation only ever grows. */
  lemma HandlersLeaveTurns(w: World, e: Event)
    requires e.Frame? || e.SttReady? || e.Interrupt?
    ensures var w' := Step(w, e); w'.tasks == w.tasks && w'.s.taken == w.s.taken && w.s.generation <= w'.s.generation
  {}

  /** A turn that throws keeps its generation, and starts nothing. */
  lemma RejectLeavesTurns(w: World, t: nat)
    ensures var w' := Step(w, Reject(t));
      && w'.s == w.s && w'.tasks.Keys == w.tasks.Keys
      && (forall u <- w.tasks :: w'.tasks[u].generation == w.tasks[u].generation)
      && (forall u <- w.tasks :: w'.tasks[u].pc.StartingTurn? ==> w'.tasks[u] == w.tasks[u])
  {}

  lemma FinalizeKeepsTurnsApart(w: World, t: nat)
    requires TurnsApart(w) && FreshEvent(w, Finalize(t))
    ensures TurnsApart(Step(w, Finalize(t)))
  {}

  /** When the generation moves on, every turn is left behind. */
  lemma OtherStepsKeepStarts(w: World, e: Event)
    requires Attributed(w) && NoStartAsked(w) && !e.Resume?
    requires NothingAsked(w.s) ==> NothingAsked(Step(w, e).s)
    ensures NoStartAsked(Step(w, e))
  {
    var w' := Step(w, e);
    if e.Reject? { RejectLeavesTurns(w, e.task); } else if !e.Finalize? { HandlersLeaveTurns(w, e); }
    forall t | t in w'.tasks && w'.tasks[t].pc.StartingTurn? && Current(w'.s, w'.tasks[t]) ensures NothingAsked(w'.s) {
      assert t in w.tasks && w.tasks[t] == w'.tasks[t];
    }
  }

  lemma StepKeepsDistinctTurns(w: World, e: Event)
    requires DistinctTurns(w) && FreshEvent(w, e)
    ensures DistinctTurns(Step(w, e))
  {
    if e.Resume? {
      if e.task in w.tasks { ResumeKeepsDistinctTurns(w, e.task, e.answer); }
    } else {
      StepSendsCurrent(w, e);
      StepKeepsActions(w, e);
      OtherStepsKeepPending(w, e);
      OtherStepsKeepStarts(w, e);
      if e.Finalize? {
        FinalizeKeepsTurnsApart(w, e.task);
      } else if e.Reject? {
        RejectLeavesTurns(w, e.task);
      } else {
        HandlersLeaveTurns(w, e);
      }
    }
  }

  lemma {:induction false} ExecKeepsDistinctTurns(w: World, events: seq<Event>)
    requires DistinctTurns(w) && FreshRun(w, events)
    ensures DistinctTurns(Exec(w, events))
    decreases |events|
  {
    if events != [] {
      StepKeepsDistinctTurns(w, events[0]);
      ExecKeepsDistinctTurns(Step(w, events[0]), events[1..]);
    }
  }

  /** While no two finalizes share a generation, barge-in never cancels an action the user was asked about. */
  lemma BargeInSparesAnnounced(events: seq<Event>)
    requires FreshRun(START, events)
    ensures Exec(START, events).s.bargeCancelled !! Exec(START, events).s.announced
  {
    ExecKeepsDistinctTurns(START, events);
  }

  /** And one generation speaks for one turn only. */
  lemma OneTurnPerGeneration(events: seq<Event>, i: nat, j: nat)
    requires FreshRun(START, events)
    requires i < |Exec(START, events).s.sent| && j < |Exec(START, events).s.sent|
    requires Exec(START, events).s.sent[i].generation == Exec(START, events).s.sent[j].generation
    ensures Exec(START, events).s.sent[i].task == Exec(START, events).s.sent[j].task
  {
    ExecKeepsDistinctTurns(START, events);
    var sent := Exec(START, events).s.sent;
    assert sent[i] in sent && sent[j] in sent;
  }

  // ---------------------------------------------------------------------
  // When generations are fresh

  /** Each finalize that takes an STT session comes after a speech_started of its own. */
  ghost predicate SpokenRun(w: World, events: seq<Event>, spoken: bool)
    decreases |events|
  {
    events == [] ||
    var e := events[0];
    var takes := e.Finalize? && e.task !in w.tasks && w.s.stt;
    && (takes ==> spoken)
    && SpokenRun(Step(w, e), events[1..], e == Frame(SpeechStarted) || (spoken && !takes))
  }

  ghost predicate TakenOk(w: World, spoken: bool) {
    && (forall g <- w.s.taken :: g <= w.s.generation)
    && (w.s.sttGeneration.Some? ==> w.s.sttGeneration.value <= w.s.generation)
    && (spoken ==> w.s.sttGeneration.Some? && w.s.sttGeneration.value !in w.s.taken)
  }

  lemma StepKeepsTaken(w: World, e: Event, spoken: bool)
    requires TakenOk(w, spoken)
    ensures var takes := e.Finalize? && e.task !in w.tasks && w.s.stt;
      TakenOk(Step(w, e), e == Frame(SpeechStarted) || (spoken && !takes))
  {
    if e.Resume? && e.task in w.tasks {
      TurnStepSpeaksCurrent(w.s, e.task, w.tasks[e.task], e.answer);
    }
  }

  lemma {:induction false} SpokenRunsAreFresh(w: World, events: seq<Event>, spoken: bool)
    requires TakenOk(w, spoken) && SpokenRun(w, events, spoken)
    ensures FreshRun(w, events)
    decreases |events|
  {
    if events != [] {
      var e := events[0];
      var takes := e.Finalize? && e.task !in w.tasks && w.s.stt;
      StepKeepsTaken(w, e, spoken);
      SpokenRunsAreFresh(Step(w, e), events[1..], e == Frame(SpeechStarted) || (spoken && !takes));
    }
  }

  /** So a user who speaks before every finalize never loses an action they were asked about to a barge-in. */
  lemma SpeakingFirstSparesAnnounced(events: seq<Event>)
    requires SpokenRun(START, events, false)
    ensures Exec(START, events).s.bargeCancelled !! Exec(START, events).s.announced
  {
    SpokenRunsAreFresh(START, events, false);
    BargeInSparesAnnounced(events);
  }

  // ---------------------------------------------------------------------
  // Why freshness is needed

  lemma ExecSnoc(w: World, events: seq<Event>, e: Event)
    ensures Exec(w, events + [e]) == Step(Exec(w, events), e)
  {
    ExecConcat(w, events, [e]);
    var w' := Exec(w, events);
    assert Exec(Step(w', e), []) == Step(w', e);
    assert [e][1..] == [];
  }

  /**
   * While the user is taken to be speaking: a frame that starts an STT session, one it is given, and an audio.end.
   * The finalize leaves the user speaking, so the next one needs no speech_started of its own.
   */
  lemma SpokenFinalize(events: seq<Event>, t: nat) returns (events': seq<Event>)
    requires var s := Exec(START, events).s;
      s.userSpeaking && !s.stt && (s.sttGeneration.Some? ==> s.sttGeneration.value == s.generation)
    requires t !in Exec(START, events).tasks
    ensures var (w, w') := (Exec(START, events), Exec(START, events'));
      && w'.tasks == w.tasks[t := Task(Some(w.s.generation), Transitioning)]
      && w'.s == w.s.(sttGeneration := None, taken := w.s.taken + {w.s.generation}, fed := false,
                      given := w.s.given + {t})
  {
    events' := events + [Frame(Silent)] + [SttReady(true)] + [Frame(Silent)] + [Finalize(t)];
    ExecSnoc(START, events, Frame(Silent));
    ExecSnoc(START, events + [Frame(Silent)], SttReady(true));
    ExecSnoc(START, events + [Frame(Silent)] + [SttReady(true)], Frame(Silent));
    ExecSnoc(START, events + [Frame(Silent)] + [SttReady(true)] + [Frame(Silent)], Finalize(t));
    var w, w3 := Exec(START, events), Exec(START, events + [Frame(Silent)] + [SttReady(true)] + [Frame(Silent)]);
    assert w3.tasks == w.tasks && w3.s == w.s.(stt := true, sttGeneration := Some(w.s.generation), fed := true);
  }

  /** A finalize whose transcript is heard while its generation is current gets as far as starting its turn. */
  lemma HeardFinalize(events: seq<Event>, t: nat, intent: Intent) returns (events': seq<Event>)
    requires var w := Exec(START, events); t in w.tasks && w.tasks[t] == Task(Some(w.s.generation), Transitioning)
    ensures var (w, w') := (Exec(START, events), Exec(START, events'));
      && w'.tasks == w.tasks[t := Task(Some(w.s.generation), StartingTurn(intent))]
      && w'.s.(sent := w.s.sent) == StopActiveGeneration(w.s)
  {
    var (e1, e2, e3) := (Resume(t, Yes), Resume(t, Heard(Some(intent))), Resume(t, Yes));
    events' := events + [e1] + [e2] + [e3];
    var w := Exec(START, events);
    ExecSnoc(START, events, e1);
    ExecSnoc(START, events + [e1], e2);
    ExecSnoc(START, events + [e1] + [e2], e3);
    var w2 := Exec(START, events + [e1] + [e2]);
    assert w2.tasks == w.tasks[t := Task(Some(w.s.generation), EnteringThinking(intent))];
  }

  /** A turn with an ordinary message reaches the orchestrator. */
  lemma AsksOrchestrator(events: seq<Event>, t: nat) returns (events': seq<Event>)
    requires var w := Exec(START, events); t in w.tasks && w.tasks[t] == Task(Some(w.s.generation), StartingTurn(Other))
    ensures var (w, w') := (Exec(START, events), Exec(START, events'));
      && w'.tasks == w.tasks[t := Task(Some(w.s.generation), Orchestrating)]
      && w'.s.(sent := w.s.sent) == w.s.(currentTurn := Some(t), recentInterruption := false)
  {
    var e := Resume(t, Yes);
    events' := events + [e] + [e];
    var w := Exec(START, events);
    ExecSnoc(START, events, e);
    ExecSnoc(START, events + [e], e);
    assert Exec(START, events + [e]).tasks == w.tasks[t := Task(Some(w.s.generation), FindingUser)];
  }

  /** Turn 0 is given action 0 while current, and asks. */
  lemma Asks(w: World, w': World)
    requires 0 in w.tasks && w.tasks[0] == Task(Some(w.s.generation), Orchestrating) && w.s.open == {}
      && w.s.nextAction == 0
    requires w' == Step(w, Resume(0, Confirm))
    ensures w'.s.open == {0} && w'.s.currentPending == Some(0) && 0 in w'.s.announced
      && w'.s.generation == w.s.generation
    ensures w'.tasks == w.tasks[0 := Task(Some(w.s.generation), CreatingTts(AfterAnswer))] && w'.s.given == w.s.given
  {}

  /** Turn 1, of the same generation, hears the yes. */
  lemma Answers(w: World, w': World)
    requires 1 in w.tasks && w.tasks[1] == Task(Some(w.s.generation), StartingTurn(Affirm)) && w.s.open == {0}
    requires w' == Step(w, Resume(1, Yes))
    ensures w'.s.open == {} && w'.s.currentPending == w.s.currentPending && w'.s.announced == w.s.announced
    ensures 1 in w'.tasks && w'.tasks[1].pc == Approving(0) && w'.s.given == w.s.given
  {
    assert |w.s.open| == 1;
  }

  /**
   * Two finalizes of one generation, each of an STT session that was given audio: turn 0 asks about action 0, turn 1
   * hears the yes and starts to approve it, and an interrupt then cancels the action the user was asked about and has
   * just confirmed.
   */
  lemma SharedGenerationCancelsAnnounced() returns (events: seq<Event>)
    ensures var w := Exec(START, events);
      && 0 in w.s.announced && 0 in w.s.bargeCancelled
      && 1 in w.tasks && w.tasks[1].pc == Approving(0)
      && w.s.given == {0, 1}
  {
    ExecSnoc(START, [], Frame(SpeechStarted));
    var first := SpokenFinalize([] + [Frame(SpeechStarted)], 0);
    var second := SpokenFinalize(first, 1);
    var heard := HeardFinalize(second, 0, Other);
    var asking := AsksOrchestrator(heard, 0);
    var ready := HeardFinalize(asking, 1, Affirm);
    var w := Exec(START, ready);
    events := ready + [Resume(0, Confirm)] + [Resume(1, Yes)] + [Interrupt];
    ExecSnoc(START, ready, Resume(0, Confirm));
    ExecSnoc(START, ready + [Resume(0, Confirm)], Resume(1, Yes));
    ExecSnoc(START, ready + [Resume(0, Confirm)] + [Resume(1, Yes)], Interrupt);
    var w1 := Exec(START, ready + [Resume(0, Confirm)]);
    Asks(w, w1);
    Answers(w1, Exec(START, ready + [Resume(0, Confirm)] + [Resume(1, Yes)]));
  }
}
