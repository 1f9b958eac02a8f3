# Mora backend: verified models

Mora is a personal assistant backend. This project models its two concurrent protocols (pending-action approval and
voice barge-in) and its algorithmic cores, and proves the guarantees they are built for. `dafny verify dfyconfig.toml`
checks everything.

How the models are built:

- **Protocols are step machines.** Every `await` is a yield point: a step runs from one await to the next, any number of
  calls are in flight, and whatever a foreign service answers (tools, the orchestrator, speech services, the language
  model, the clock) is part of the schedule. Theorems quantify over every schedule. The approval gate, the voice turns,
  conversation summaries and memory commits are modelled this way.
- **Services that update rows or session state in place are classes** whose methods are proved equal to specification
  functions. Where the specification is a machine, theorems about its runs carry over to the methods: any sequence of
  requests the approval services serve is proved to be a run, so is a lone summary call and a memory batch
  (`...IsARun`), and each handler of a voice connection, and each stretch of a turn, is proved to be one of its steps.
- **Tables are maps or sequences**; ids are numbers in order of creation. The database's freedom (unordered queries,
  `take` without `orderBy`, equal timestamps) stays free: an answer is any list that satisfies the query.
- **What an operation comes to is stated apart from how it is specified.** The `..._outcomes` modules and their kin say
  it in the terms of a caller (whose row, which field, which constant, which character) and prove it of the
  specification functions the methods are equal to.
- **Text** is a sequence of characters. Case folding is ASCII only. Lengths count characters where JavaScript counts
  UTF-16 code units.

| file | what it holds |
|---|---|
| `tool_gate.dfy`, `pending_actions.dfy`, `pending_action_steps.dfy` | the tool gate, the step machine of `approve`, `reject`, `cancel`, `requestExecution`, `executeNow` and drafts, and what each of its awaits comes to |
| `pending_action_safety.dfy`, `tool_execution_policy.dfy`, `claim_timing.dfy` | what every run of that machine keeps, and when a claim is in time |
| `pending_action_service.dfy`, `pending_action_outcomes.dfy` | the services as methods; what they serve is a run of the machine, and what a caller is promised |
| `voice_protocol.dfy`, `voice_safety.dfy` | the step machine of one voice connection: generations, turns and confirmations, and what every run keeps |
| `voice_confirmations.dfy`, `voice_disturbances.dfy` | what a spoken yes or no does, what an undisturbed turn says, and what becomes of one that is overtaken or fails |
| `voice_audio.dfy`, `voice_preroll.dfy`, `audio_outcomes.dfy` | the audio intake as speech sessions come and go: which frames are pushed, how far back a pre-roll reaches, what the counter counts |
| `voice_agreement.dfy` | the audio intake and the machine of the connection agree |
| `voice_runtime.dfy` | the connection and its session as objects, each handler a step of the machine |
| `contact_import.dfy`, `contact_keys.dfy`, `contact_outcomes.dfy` | Google contact import over two keys: which keys a person has, and what happens to names, links and identities |
| `free_slots.dfy`, `slot_outcomes.dfy` | the two free-slot finders, and what their callers get |
| `document_chunker.dfy`, `chunk_resplit.dfy`, `chunk_conservation.dfy` | the chunker, and what it conserves |
| `chunk_headings.dfy`, `chunk_sentences.dfy` | what is a heading, where sentences end, and that every other character is kept |
| `vision_image.dfy`, `image_outcomes.dfy` | the image validator and its JPEG walker, and which bytes it reads |
| `conversation_summary.dfy`, `conversation_losses.dfy`, `summary_outcomes.dfy` | progressive summaries against arriving messages, which messages are lost, and what a summary and the history hold |
| `memory_supersession.dfy`, `memory_outcomes.dfy` | long-term memories, and what a commit does to them |
| `profile_facts.dfy`, `profile_outcomes.dfy` | essential facts, and what a lesson changes |
| `context_packing.dfy`, `context_reach.dfy` | budgeted packing, and which messages reach the model |
| `provider_selection.dfy`, `provider_outcomes.dfy` | provider choice, as ranks and as preferences |
| `whatsapp_missions.dfy`, `mission_outcomes.dfy` | bounded missions, and what each operation comes to |
| `text.dfy`, `sequences.dfy`, `wrappers.dfy` | string operations, a sequence fact, value types |

## Where the code differs from what is said of it

- `approve` answers `expired` even when its expiry update changed no row. `ExpiredAnswerIsExact` gives the exact
  condition under which the row it carries is expired; `ExpiredAnswerCanCarryARejectedRow` is a schedule where it is not.
- Expiry is checked some awaits before the claim, so an action can be claimed after it expired:
  `AnActionCanBeClaimedLate` is such a schedule for every pending action that expires. A claim is in time exactly when
  no more time passed since its call's own read than the row had left then (`ClaimIsInTimeIff`).
- Barge-in is meant to spare an action the user was asked about. It does when every finalize captures a generation of
  its own (`BargeInSparesAnnounced`), which holds when each follows its own `speech_started`
  (`SpeakingFirstSparesAnnounced`). Because `sttGenerationId ??= generationId` can hand one generation to two finalizes,
  it can fail: finalize leaves `isUserSpeaking` set, so a second one can follow without a `speech_started`.
  `SharedGenerationCancelsAnnounced` is such a run, in which both speech sessions were given audio, and
  `StoppingCancelsAnnouncedIff` says exactly when stopping a generation cancels an announced action.
- The comment on `sttPushedFrameCount` calls it what was sent, pre-roll included. It leaves out the pre-rolls pushed
  and counts the frames spoken while no speech session is live, which go nowhere; so since the last finalize it is
  right exactly when those two are equally many (`CounterIsRightIff`). It can be too low (`AnOnsetIsNotCounted`) and,
  after a finalize in mid-speech, too high (`AFrameIsLostButCounted`).
- `MAX_CHUNK_CHARS` is not the bound on a chunk, since separators are not counted (`SeparatorsAreNotCounted`,
  `AChunkOverTheConstant`); `ChunksKeepTheBound` gives the real one.
- The JPEG walker does not know the fill bytes of section B.1.1.2 of ITU-T T.81: after one it reads the marker as a
  length of at least 0xC000 and goes on that far behind the frame header, or gives up (`FillByteHidesTheFrame`).
- A message stamped in the same millisecond as a summary's last message, or earlier, and stored after the summary was
  read is in neither the summary nor the history (`EqualTimesLoseAMessage`); `MessageIsLostIff` is the exact condition,
  over every run and any clock. History is also cut at 20 messages, so the two together are complete only as
  `HistoryCompletesSummary` says.
- History leaves out what the summary covers even when the summary block did not fit the budget, so then a covered
  message reaches the model in no way (`CoveredMessageReachesIff`).
- A gap that starts outside working hours is dropped whole by both slot finders, and Mora offers only the beginning of
  each gap: `FreeIntervalIsAnsweredIff` and `MoraOffersExactly` say which free intervals are offered.

## Model

| member | source | states |
|---|---|---|
| ToolGate.Check | src/tools/permission.service.ts:39-55 | a tool is allowed exactly when it exists, its scopes hold the context's scope and it is not N4 |
| PendingActionSafety.StepKeepsInv | src/pending-actions/pending-action.service.ts:72-209 | every step of every call keeps the protocol's invariant: one claim winner a row, each call's position agrees with the row, the log agrees with the winner |
| PendingActionSafety.ExecKeepsInv | src/pending-actions/pending-action.service.ts:72-209 | so does every schedule, whatever it interleaves |
| PendingActionSafety.StepMovesStatus | src/pending-actions/pending-action.service.ts:75-151 | a step moves a row's status at most along pending to approved, rejected, cancelled or expired, or approved to executed or failed |
| PendingActionSafety.RunMovesStatus | src/pending-actions/pending-action.service.ts:75-151 | between any two moments a status has followed those moves and the rest of the row is the same |
| PendingActionSafety.AtMostOneRun | src/pending-actions/pending-action.service.ts:94-140 | in every interleaving, an action's tool is started at most once |
| PendingActionSafety.NeverRunsOnceRefused | src/pending-actions/pending-action.service.ts:154-209 | the tool of an action that was rejected, cancelled or expired is never started, before or after |
| PendingActionSafety.WonClaimStartsTheTool | src/pending-actions/pending-action.service.ts:118-140 | whatever the others do, a call that won its claim and whose next three awaits succeed has started the row's tool, with the row's input, for its owner in its scope and space |
| PendingActionSteps.ClaimsAreWonOnce | src/pending-actions/pending-action.service.ts:94-116 | whoever was at the row meanwhile, a claim succeeds only if it is pending at that moment, and the loser answers the row as it then is |
| PendingActionSteps.ExpiryIsAnswered | src/pending-actions/pending-action.service.ts:75-92 | whether or not the expiry was written the call answers expired |
| PendingActionSteps.TheLastWriteIsUnconditional | src/pending-actions/pending-action.service.ts:118-149 | the write that ends an approval sets executed or failed whatever the row has become, and answers it |
| PendingActionSteps.ExceptionsLeaveTheCall | src/tools/tool-executor.service.ts:155-217 | an exception is caught exactly at the awaits of the try block and leaves the call anywhere else, writing nothing |
| PendingActionSafety.OverwritesBelongToTheWinner | src/pending-actions/pending-action.service.ts:118-149 | the unconditional final writes are made only by the call that won the claim, on a row still approved |
| PendingActionSafety.AnswersAreFinal | src/pending-actions/pending-action.service.ts:91-208 | every finished call answers a row that is no longer pending, and at most one call answers executed |
| PendingActionSafety.ApprovedRowsWereUnexpiredWhenRead | src/pending-actions/pending-action.service.ts:73-98 | a claim is only won by a call that saw the row unexpired when it read it |
| PendingActionSafety.ExpiredAnswerIsExact | src/pending-actions/pending-action.service.ts:75-92 | an expired answer carries an expired row exactly when the row was still pending, or already expired, at the call's own expiry update |
| PendingActionSafety.ExpiredAnswerCanCarryARejectedRow | src/pending-actions/pending-action.service.ts:76-91 | a schedule whose expired answer carries a rejected row |
| PendingActionSafety.EveryCallFinishes | src/pending-actions/pending-action.service.ts:72-209 | whatever the others do, a call ends after at most thirteen of its own awaits |
| ClaimTiming.ClaimFollowsItsRead | src/pending-actions/pending-action.service.ts:73-95 | the run up to a claim splits at the call's own read, whose clock is the one the expiry check used |
| ClaimTiming.ClaimIsInTimeIff | src/pending-actions/pending-action.service.ts:73-98 | over every run, a winning claim's row is still unexpired exactly when the time that passed since its call's read is at most what the row had left then |
| ClaimTiming.AnActionCanBeClaimedLate | src/pending-actions/pending-action.service.ts:75-98 | a schedule that claims any given pending, expiring action after its expiry |
| ToolExecutionPolicy.StepKeepsGate | src/tools/tool-executor.service.ts:65-141 | every step keeps what the gate promises of calls, rows and executions |
| ToolExecutionPolicy.EveryRunIsAllowed | src/tools/tool-executor.service.ts:65-217 | over every schedule, each execution that starts has a non-N4 tool, an allowed scope, validated input and a passed skill check, and runs unasked only if N1 and confirmation-free, otherwise under an approved action |
| ToolExecutionPolicy.DraftIsJustified | src/tools/impl/draft-action.tool.ts:56-99 | a drafted action would have passed the gate itself |
| PendingActionServices.ApproveEndIsARun | src/pending-actions/pending-action.service.ts:72-152 | approve with nobody interfering is a run of the machine with the outcome ApproveEndIsApproved spells out |
| PendingActionServices.WithdrawEndIsARun | src/pending-actions/pending-action.service.ts:154-209 | so are reject and cancel |
| PendingActionServices.RequestEndIsARun | src/tools/tool-executor.service.ts:46-141 | so is requestExecution, refusals included, with the outcome RequestEndIsRequested spells out |
| PendingActionServices.ApproveEndIsApproved | src/pending-actions/pending-action.service.ts:72-152 | approving a pending, unexpired action of one's own whose tool is there and enabled adds exactly one job to the log, that tool on the row's input for its owner in its scope and space, and leaves the row executed exactly when tool and records succeeded; a missing tool or disabled skill runs nothing and leaves it failed; all other cases, field by field |
| PendingActionServices.WithdrawEndIsWithdrawn | src/pending-actions/pending-action.service.ts:154-209 | reject and cancel change only the status of a pending action of the caller, and run nothing |
| PendingActionServices.RequestEndIsRequested | src/tools/tool-executor.service.ts:46-141 | five refusals in order; then an N1 tool free of confirmation runs once on the validated input, and any other becomes a pending action of the caller, in its scope and space, with the tool's level and the validated input, for half an hour |
| PendingActionServices.ProposerApproves | src/tools/tool-executor.service.ts:110-136 | after a proposal its proposer's approval within half an hour runs exactly that input under that user, scope and space; later it expires; anybody else is answered forbidden |
| PendingActionServices.DrafterApproves | src/tools/impl/draft-action.tool.ts:56-99 | the same of what draft_action leaves waiting, for the tool it drafts |
| PendingActionServices.ExecuteNowIsARun | src/tools/tool-executor.service.ts:149-217 | so is executeNow, with its catch block: a failing or throwing tool or draft, and a result that cannot be recorded, end as a failed one |
| PendingActionServices.ServedIsARun | src/pending-actions/pending-action.service.ts:72-209 | serving any request, with any calls served before, is a run of the machine from its arrival to its answer |
| PendingActionServices.Services.Serve | src/pending-actions/pending-action.service.ts:72-209 | serves a request as its lone run does, keeps all that was served one run of the machine, and moves rows only along the lifecycle |
| PendingActionServices.ServicesRunAnActionOnce | src/pending-actions/pending-action.service.ts:94-140 | whatever was served, an action's tool was started at most once |
| PendingActionServices.ServicesNeverRunARefusedAction | src/pending-actions/pending-action.service.ts:154-209 | and never for an action that is rejected, cancelled or expired |
| PendingActionServices.ServicesRunOnlyWhatIsAllowed | src/tools/tool-executor.service.ts:65-217 | and every tool started was allowed, unasked only if it may be, else for the approved row it names |
| PendingActionServices.Services.UpdateWherePending | src/pending-actions/pending-action.service.ts:95-98 | the conditional update changes the row exactly when it is pending, and says so |
| PendingActionServices.Services.DraftAction | src/tools/impl/draft-action.tool.ts:56-99 | the draft tool inserts exactly the row the machine does, the caller's own in the space asked for, or fails and inserts none, also when the insert throws |
| PendingActionServices.Services.ExecuteNow | src/tools/tool-executor.service.ts:149-217 | logs the execution and leaves what its run leaves; the answer is the tool's own unless recording it fails, and then a failure |
| PendingActionServices.Services.Approve | src/pending-actions/pending-action.service.ts:72-152 | approve leaves the table, log and answer of its run, which are those promised: one job with the row's tool and input for its owner, and the row executed exactly when it succeeded |
| PendingActionServices.Services.Withdraw | src/pending-actions/pending-action.service.ts:154-209 | reject and cancel leave the table and answer of their run, which are those promised |
| PendingActionServices.Services.RequestExecution | src/tools/tool-executor.service.ts:46-141 | requestExecution leaves the table, log and answer of its run, which are those promised: a refusal, a run on the validated input, or a pending action of the caller |
| VoiceSafety.SupersededTurnsAreSilent | src/voice/voice-turn-runner.service.ts:71-303 | once a generation is superseded, no message is ever sent again for a turn carrying it, whatever the services answer and whenever |
| VoiceSafety.AbortedTurnsPlayNothing | src/voice/voice-turn-runner.service.ts:239-302 | once its speech is aborted a turn plays no audio |
| VoiceSafety.EveryActionIsAnnouncedOrDropped | src/voice/voice-turn-runner.service.ts:150-188 | each action a turn obtains is announced and opened, or cancelled, never both; announced ones are open or resolved |
| VoiceSafety.ObtainingIsAtomic | src/voice/voice-turn-runner.service.ts:150-188 | a current turn opens and announces an action in the step that obtains it; a stale one goes on to cancel it |
| VoiceSafety.OnlyConfirmationsCloseActions | src/voice/voice-turn-runner.service.ts:81-124 | an id leaves the open set only as it is approved or rejected by a current turn, and only when it was the sole open one; which of the two is for SpokenAnswerIsBound |
| VoiceConfirmations.SpokenAnswerIsBound | src/voice/voice-turn-runner.service.ts:97-117 | with one open action a current turn that heard yes goes on to approve it, one that heard no to reject it, and it is open no more |
| VoiceConfirmations.OtherWordsLeaveItOpen | src/voice/voice-turn-runner.service.ts:123-127 | any other words become a new message, and the action stays open |
| VoiceConfirmations.OnlyTheOwnAnswerCounts | src/voice/voice-turn-runner.service.ts:81-117 | in every run a turn that acts on a yes or no, up to approving or rejecting, was told just that as its own transcript |
| VoiceConfirmations.OneTranscript | src/voice/voice.gateway.ts:395-420 | a turn has one transcript only |
| VoiceConfirmations.ApprovingMeansYes | src/voice/voice-turn-runner.service.ts:97-117 | so no turn is ever approving unless its own transcript was a yes, nor rejecting unless it was a no |
| VoiceDisturbances.AmbiguousAnswerAsksBack | src/voice/voice-turn-runner.service.ts:84-95 | with several open actions a yes or no is answered by asking which, and closes none |
| VoiceDisturbances.RefusalIsOnlySpoken | src/voice/voice-turn-runner.service.ts:105-119 | an approval that did not execute, and a rejection, announce nothing and are only spoken about |
| VoiceDisturbances.OvertakenConfirmationIsSilent | src/voice/voice-turn-runner.service.ts:105-119 | the turn of one that was overtaken is completed without a word |
| VoiceConfirmations.ConfirmationIsSpoken | src/voice/voice-turn-runner.service.ts:105-119 | an undisturbed yes announces the execution, then plays the reply as one audio message between the start and the end of speaking, and is completed; a no only plays |
| VoiceConfirmations.AnswerIsSpoken | src/voice/voice-turn-runner.service.ts:150-208 | an undisturbed answer announces the action it needs confirmed, opens it, plays the reply, and measures |
| VoiceDisturbances.CurrentAnswerIsAnnounced | src/voice/voice-turn-runner.service.ts:150-188 | the exact session a current turn leaves when the assistant answers |
| VoiceDisturbances.OvertakenAnswerIsDropped | src/voice/voice-turn-runner.service.ts:158-172 | the exact session an overtaken one leaves: nothing said, its action on the way to be cancelled |
| VoiceDisturbances.FailureIsReported | src/voice/voice-turn-runner.service.ts:143-148 | a failed answer is reported by a current turn, and by no other |
| VoiceDisturbances.AudioIsKeptUntilCut | src/voice/voice-turn-runner.service.ts:250-268 | audio that arrives is kept until the speech is cut, and then thrown away |
| VoiceDisturbances.WholeAudioOrNone | src/voice/voice-turn-runner.service.ts:250-272 | there is audio to play exactly when the synthesis ended well, uncut, with something to play |
| VoiceDisturbances.SpeechIsOver | src/voice/voice-turn-runner.service.ts:276-302 | it is played unless the speech was cut meanwhile; a current turn says that it ended, and only its own controller is released |
| VoiceDisturbances.ThrowingEndsTheTurn | src/voice/voice-turn-runner.service.ts:71-303 | an exception at an unguarded await ends the turn and changes nothing else |
| VoiceConfirmations.InterruptStops | src/voice/voice.gateway.ts:530-588 | an interrupt aborts speech, lets turn, message and action go, and starts a generation no turn has |
| VoiceConfirmations.OnsetStopsWhatIsActive | src/voice/voice.gateway.ts:334-358 | new speech gets a new generation, which its transcript will carry, and stops whatever is active |
| VoiceConfirmations.FinalizeTakesTheGeneration | src/voice/voice.gateway.ts:373-384 | a finalize hands session and generation over to its turn |
| VoiceSafety.AmbiguousConfirmationChangesNothing | src/voice/voice-turn-runner.service.ts:84-95 | while two or more actions are open, no event whatever closes one or starts to approve or reject; a yes or no of a current turn only asks which |
| VoiceSafety.StoppingCancelsAnnouncedIff | src/voice/voice.gateway.ts:530-559 | stopping a generation cancels an announced action exactly when its current one was already resolved |
| VoiceSafety.BargeInSparesAnnounced | src/voice/voice.gateway.ts:548-559 | when each finalize captures a new generation, barge-in never cancels an announced action |
| VoiceSafety.OneTurnPerGeneration | src/voice/voice.gateway.ts:373-461 | in such runs the messages of one generation all come from one turn |
| VoiceSafety.SpokenRunsAreFresh | src/voice/voice.gateway.ts:336-342 | a run where each finalize follows its own speech_started is such a run |
| VoiceSafety.SpeakingFirstSparesAnnounced | src/voice/voice.gateway.ts:336-358 | so in it barge-in never cancels an announced action |
| VoiceSafety.SharedGenerationCancelsAnnounced | src/voice/voice.gateway.ts:305-315 | a run where two finalizes, both of audio that was spoken, share a generation, and an announced action is cancelled while it is being approved |
| VoiceAudio.PushedFramesAreWindows | src/voice/voice.gateway.ts:305-384 | as sessions come and go, the frames pushed are exactly the windows: each contiguous and disjoint from the others, from the last frames kept at an onset or from mid-speech when a session has just become live, then speech, with a live session throughout |
| VoiceAudio.PushedInOrder | src/voice/voice.gateway.ts:326-342 | frames are pushed in order of arrival, each at most once |
| VoiceAudio.PushedIff | src/voice/voice.gateway.ts:326-384 | a frame is pushed exactly when it was spoken while a session was live, or was among the last three still kept at an onset that found a session live |
| VoicePreRoll.FramesAreEvents | src/voice/voice.gateway.ts:296-361 | what is recorded of a frame, whether it was spoken, found a session or started speech, is what its own event found |
| VoicePreRoll.EveryFrameArrives | src/voice/voice-runtime.registry.ts:120-126 | every accepted frame has such an event |
| AudioOutcomes.OnsetPushesTheKept | src/voice/voice.gateway.ts:326-342 | where speech starts the last three frames, this one last, are given to the session there is, and none is kept |
| AudioOutcomes.FramesPastTheCapAreRefused | src/voice/voice-runtime.registry.ts:120-126 | a frame over the two thousand of a turn is counted, and goes nowhere |
| VoicePreRoll.CutsAreEvents | src/voice/voice.gateway.ts:326-384 | the recorded cuts and finalizes are exactly those of the run |
| VoicePreRoll.WindowsReachBack | src/voice/voice.gateway.ts:326-384 | a window starts at the third frame ending at its onset, but not before the last cut up to the onset, which is the unique such number; and no finalize falls inside a window |
| VoicePreRoll.CounterIsRightIff | src/voice/voice.gateway.ts:326-384 | the frames pushed since the last finalize are the counter less the frames counted without a session plus the pre-rolls pushed, so the counter is right exactly when the last two are equal |
| VoicePreRoll.AnOnsetIsNotCounted | src/voice/voice.gateway.ts:326-342 | an onset pushes one to three frames without counting them |
| VoicePreRoll.AFrameIsLostButCounted | src/voice/voice.gateway.ts:326-384 | after a finalize in mid-speech the next frame is counted and pushed nowhere |
| VoiceAgreement.SidesAgree | src/voice/voice.gateway.ts:296-384 | in every run, whatever is interleaved, the audio intake and the connection's machine agree on the live session, on who speaks and on whether the session was given audio |
| VoiceAgreement.GivenMeansPushed | src/voice/voice.gateway.ts:326-379 | a turn's session was given audio exactly when frames were pushed since it was opened |
| VoiceRuntime.Connection.OnFrame | src/voice/voice.gateway.ts:296-361 | an audio frame is a step of the machine; an onset leaves a generation no turn has had, and no open action is cancelled |
| VoiceRuntime.Connection.OnSttReady | src/voice/voice.gateway.ts:305-315 | so is the arrival of a speech session |
| VoiceRuntime.Connection.OnInterrupt | src/voice/voice.gateway.ts:565-588 | so is an interrupt; it leaves a generation no turn has had, and cancels no open action |
| VoiceRuntime.Connection.OnFinalize | src/voice/voice.gateway.ts:373-379 | so is a finalize, whose turn takes the session's generation, or nothing when there is no session |
| VoiceRuntime.Connection.OnResume | src/voice/voice-turn-runner.service.ts:71-303 | so is every stretch of a turn between two awaits, its messages going out in order under the generation then current; what each stretch does is spelled out by the lemmas on confirmations and disturbances |
| VoiceRuntime.Connection.OnReject | src/voice/voice-turn-runner.service.ts:71-303 | so is an operation that throws where nothing catches it: the turn is over, the session as it left it |
| VoiceRuntime.SessionState.StopActiveGeneration | src/voice/voice.gateway.ts:530-563 | aborts speech, turn and message and cancels only an action not open |
| VoiceRuntime.SessionState.StartSpeech | src/voice/voice.gateway.ts:334-358 | an onset takes a new generation for the input and interrupts whatever is active |
| VoiceRuntime.SessionState.OrchestratorAnswered | src/voice/voice-turn-runner.service.ts:150-188 | records the answer's message and action, then announces or drops the action |
| VoiceRuntime.SessionState.Deliver | src/voice/voice-turn-runner.service.ts:283-301 | sends the whole audio only if not aborted and current, and releases only its own controller |
| VoiceRuntime.AudioIntake.RegisterFrame | src/voice/voice-runtime.registry.ts:120-126 | counts every frame and refuses those past the cap |
| VoiceRuntime.AudioIntake.HandleFrame | src/voice/voice.gateway.ts:296-361 | pushes only to a live session, and is the audio model's step, so what was pushed stays whole windows |
| VoiceRuntime.AudioIntake.SttReady | src/voice/voice.gateway.ts:305-315 | opens the session there was none of, as the audio model's step |
| VoiceRuntime.AudioIntake.Finalize | src/voice/voice.gateway.ts:373-384 | without a session does nothing, else takes the session and clears pre-roll and counters, as the audio model's step |
| ContactImport.KeysAreUsable | src/google/google-contacts-sync.service.ts:78-83 | a person's keys are numbers first, each in international form and one of the person's, then addresses, each with an at sign; each is a fixed point of the address book's own normalisation |
| ContactImport.KeysAreComplete | src/google/google-contacts-sync.service.ts:78-83 | every number of the person in international form and every address with an at sign is among them |
| ContactKeys.NumbersAreKeysIff | src/google/google-contacts-sync.service.ts:78-80 | a number is a key exactly when it is a plus sign and 8 to 15 digits, left of one the person has without white space, parentheses, hyphens and dots |
| ContactKeys.AddressesAreKeysIff | src/google/google-contacts-sync.service.ts:81-83 | an address is a key exactly when it has an at sign and is one the person has, trimmed and in lower case |
| ContactKeys.NumbersAreFiledUnder | src/contacts/contact.types.ts:10-13 | the address book files a number under its digits and plus signs |
| ContactKeys.ReadsPagesIff | src/google/google-contacts-sync.service.ts:52-69 | a sync reads up to twenty pages, and stops after the first that announces no other |
| ContactKeys.EveryoneIsRead | src/google/google-contacts-sync.service.ts:61-63 | everyone on the pages read is imported, page after page, each in their place |
| ContactOutcomes.PersonIsRead | src/google/google-contacts-sync.service.ts:72-132 | the name is the first display name that is not empty, trimmed; the company the first organization's |
| ContactOutcomes.RenamedIff | src/google/google-contacts-sync.service.ts:28-31 | a person is counted as renamed exactly when the first of their known identities belongs to a contact whose name holds nothing but plus signs, digits, white space, parentheses, hyphens and dots |
| ContactOutcomes.NamesTheUserSetStay | src/google/google-contacts-sync.service.ts:121-128 | a contact's name changes in no other case, and then to the person's |
| ContactOutcomes.ImportKeepsNames | src/google/google-contacts-sync.service.ts:28-31 | over a whole import a name with any other character in it stays; one that changes is that of somebody counted as renamed |
| ContactOutcomes.LinksAreOnlyAdded | src/google/google-contacts-sync.service.ts:114-119 | a contact gets a Google name only if it had none, and then the person's |
| ContactOutcomes.GoogleNamesAreUnique | src/google/google-contacts-sync.service.ts:85-140 | after every person no two contacts share a Google name, and every identity leads to a contact |
| ContactOutcomes.RecognisedByNameIff | src/google/google-contacts-sync.service.ts:95-105 | somebody with a Google name and no key is recognised exactly by an unlinked contact without identities of that name, which gets the Google name |
| ContactOutcomes.ImportedIff | src/google/google-contacts-sync.service.ts:73-132 | a contact is made exactly for a named person with no link, no identity on file and no such name to go by |
| ContactOutcomes.NewcomersAreFiled | src/google/google-contacts-sync.service.ts:132-149 | and it is made with that name, Google name and company, and every key |
| ContactOutcomes.NobodyElseIsFiled | src/google/google-contacts-sync.service.ts:73-129 | whoever is counted otherwise adds no contact and no identity |
| ContactOutcomes.TallyCounts | src/google/google-contacts-sync.service.ts:50-149 | each of the four counters is the number of people of its kind |
| ContactImport.ImportIsSoundStep | src/google/google-contacts-sync.service.ts:71-150 | importing one person keeps the book's invariant, loses nothing and adds a contact exactly when it counts one |
| ContactImport.ImportIsSound | src/google/google-contacts-sync.service.ts:48-150 | an import keeps Google names injective, adds exactly the imported count, and the four counters sum to the people seen |
| ContactImport.EveryoneIsRecognised | src/google/google-contacts-sync.service.ts:87-131 | every named person with a resource name or usable key is recognised afterwards |
| ContactImport.SecondImportIsExact | src/google/google-contacts-sync.service.ts:85-150 | a second import creates exactly one contact for each named person with neither; none exactly when there is no such person |
| ContactImport.ContactBook.AddIdentity | src/contacts/contact.service.ts:91-106 | attaches a free identity, keeps one already its own, and refuses exactly one that belongs to another contact |
| ContactImport.ContactBook.FindByIdentities | src/google/google-contacts-sync.service.ts:109-115 | finds the contact of the first known key, phones first |
| ContactImport.ContactBook.AddIdentities | src/google/google-contacts-sync.service.ts:143-148 | the loops raise the conflict exactly when some key belongs to another contact, else attach every key |
| ContactImport.ContactBook.CreateFrom | src/google/google-contacts-sync.service.ts:132-148 | creating a contact raises the conflict exactly when one of its keys is already on file |
| ContactImport.ContactBook.ImportPerson | src/google/google-contacts-sync.service.ts:71-150 | one person's import takes the step specified, whose names, links and identities the outcomes spell out, and, though a conflict would be passed on, never raises it |
| ContactImport.ContactBook.ImportAll | src/google/google-contacts-sync.service.ts:61-63 | a page's people are imported in order, none raising the conflict |
| ContactImport.ContactBook.Sync | src/google/google-contacts-sync.service.ts:48-69 | a sync imports the people of the pages it reads, up to the last or the twentieth, and answers that import's counters |
| ContactImport.ContactBook.SyncTwice | src/google/google-contacts-sync.service.ts:48-150 | a second sync over the same pages creates contacts only for people without resource name and key |
| FreeSlots.ListEvents | src/calendar/mora-calendar.provider.ts:72-91 | lists exactly the events of the user, scope and space, not cancelled, that touch the window |
| FreeSlots.SortSorts | src/calendar/mora-calendar.provider.ts:114 | sorting yields a permutation ordered by start |
| FreeSlots.MoraFindFreeSlots | src/calendar/mora-calendar.provider.ts:105-131 | the cursor loop answers the gaps between blocks that start in working hours, cut to the duration, at most 20 |
| FreeSlots.GoogleFindFreeSlots | src/google/google-calendar.provider.ts:104-137 | the cursor loop answers the gaps between blocks that start in working hours |
| FreeSlots.MoraSlotsAreFree | src/calendar/mora-calendar.provider.ts:105-142 | each slot lies in the window, lasts as asked, starts in working hours and overlaps no event of the calendar; slots are increasing and disjoint |
| FreeSlots.GapsAreComplete | src/google/google-calendar.provider.ts:121-132 | the sweep's gaps hold every free interval of the duration |
| FreeSlots.GoogleGapsHoldEveryFreeInterval | src/google/google-calendar.provider.ts:121-132 | Google's unfiltered gaps contain every free interval of the duration in the window |
| FreeSlots.GoogleAnswersWorkdayGaps | src/google/google-calendar.provider.ts:121-136 | what Google answers starts in working hours, is long enough and overlaps no block |
| FreeSlots.FreeIntervalIsAnsweredIff | src/google/google-calendar.provider.ts:119-136 | a free interval of the window lies in an answer exactly when the last block ending before it, or else the window's start, ends in working hours |
| FreeSlots.MoraOffersExactly | src/calendar/mora-calendar.provider.ts:116-142 | before the cut at twenty a slot is offered exactly when it is free, starts at such an end and in working hours |
| SlotOutcomes.ListsOwnEvents | src/calendar/mora-calendar.provider.ts:72-91 | an event is listed exactly when it is the user's, of the scope and of the space if one is given, not cancelled, and touches the window |
| SlotOutcomes.WorkingHours | src/calendar/mora-calendar.provider.ts:140-143 | working hours are from 8:00 up to 18:00 UTC |
| SlotOutcomes.MoraAnswersTheFirstTwenty | src/calendar/mora-calendar.provider.ts:105-131 | of the calendar's rows alone: each answer is a slot to offer, free of the user's own events and begun with the window or where one ends; none overlap; and any other such slot begins after twenty answered ones have ended |
| FreeSlots.FindersAgree | src/calendar/mora-calendar.provider.ts:113-130 | on the same blocks Mora's slots start where Google's gaps do, up to the twentieth, and lie inside them |
| DocumentChunker.SplitLongParagraph | src/documents/extraction/document-chunker.service.ts:81-94 | the sentence loop yields the specified pieces |
| DocumentChunker.ChunkText | src/documents/extraction/document-chunker.service.ts:23-78 | the paragraph loop yields the specified chunks, numbered: what they keep, and of which paragraphs, is proved of them below |
| ChunkResplit.ParagraphsOfJoined | src/documents/extraction/document-chunker.service.ts:24-36 | paragraphs joined by blank lines split into themselves again |
| ChunkResplit.SentencesOfJoined | src/documents/extraction/document-chunker.service.ts:82-91 | sentences joined by spaces are one paragraph that splits into themselves again |
| ChunkResplit.SentencesAreSentences | src/documents/extraction/document-chunker.service.ts:82 | the split yields whole trimmed sentences, each but the last ended by a full stop |
| ChunkConservation.FillKeeps | src/documents/extraction/document-chunker.service.ts:81-94 | pieces of a long paragraph keep its sentences in order, each at most one character over the limit or a single sentence |
| ChunkConservation.NothingIsLost | src/documents/extraction/document-chunker.service.ts:23-94 | the chunks, split again, give back every sentence of every paragraph that is no heading, in order, in the section of the last heading before it |
| ChunkHeadings.HeadingIff | src/documents/extraction/document-chunker.service.ts:11-50 | a paragraph is a heading exactly when it is under 120 characters and is one to six marks, white space and a line, or 5 to 81 unaccented capitals, digits and five signs |
| ChunkHeadings.ProseIsKept | src/documents/extraction/document-chunker.service.ts:23-94 | a text whose paragraphs start with no mark and hold another character is in its chunks sentence by sentence, and character by character |
| ChunkHeadings.EveryCharacterIsKept | src/documents/extraction/document-chunker.service.ts:23-94 | white space apart, the chunks hold exactly the characters of the paragraphs that are no headings, in order |
| ChunkHeadings.MarkedTitleNamesTheSection | src/documents/extraction/document-chunker.service.ts:50-54 | a marked title is in no chunk and becomes, without its marks, the section of what follows |
| ChunkHeadings.CapitalsNameTheSection | src/documents/extraction/document-chunker.service.ts:50-54 | so does a line in capitals |
| ChunkHeadings.OverflowStartsAnew | src/documents/extraction/document-chunker.service.ts:69-73 | a paragraph that does not fit beside what waits starts a chunk of its own |
| ChunkHeadings.FittingSentencesStayTogether | src/documents/extraction/document-chunker.service.ts:81-92 | sentences of a long paragraph that fit together stay in one piece |
| ChunkHeadings.ShortProseIsOneChunk | src/documents/extraction/document-chunker.service.ts:23-78 | a text of one such paragraph of at most 1500 characters is one chunk, itself |
| ChunkSentences.SentenceEndsBeforeSpace | src/documents/extraction/document-chunker.service.ts:82 | a sentence ends at a full stop, exclamation or question mark before white space |
| ChunkSentences.OneSentenceIsNotCut | src/documents/extraction/document-chunker.service.ts:82 | and nowhere else |
| ChunkSentences.BlankParagraphIsCut | src/documents/extraction/document-chunker.service.ts:93 | a blank paragraph has no sentence to keep and is cut off at the limit |
| ChunkConservation.ChunksKeepTheBound | src/documents/extraction/document-chunker.service.ts:34-94 | a chunk's index is its position; one of k paragraphs has at most 1500 + 2(k-1) characters, or is one piece of at most 1501, or one sentence |
| ChunkConservation.HeadingsSeparate | src/documents/extraction/document-chunker.service.ts:50-54 | no chunk spans a heading: what follows one is chunked as if alone |
| ChunkConservation.FittingParagraphsStayTogether | src/documents/extraction/document-chunker.service.ts:69-73 | paragraphs that fit the budget together make one chunk |
| ChunkConservation.SeparatorsAreNotCounted | src/documents/extraction/document-chunker.service.ts:69-73 | any list of such paragraphs makes one chunk, over the constant exactly when they leave less than two characters free for each separator |
| ChunkConservation.AChunkOverTheConstant | src/documents/extraction/document-chunker.service.ts:69-73 | a text whose chunk has 1502 characters |
| VisionImage.ParseJpeg | src/vision/vision-image-validator.util.ts:36-63 | the walk terminates and reads in bounds on every buffer, and answers what is specified |
| VisionImage.FrameIsRead | src/vision/vision-image-validator.util.ts:36-71 | after SOI and any stray bytes and non-frame segments, a frame header (section B.2.2 of ITU-T T.81) is read as written, whatever follows |
| VisionImage.JpegIsExact | src/vision/vision-image-validator.util.ts:36-71 | the walk answers dimensions if and only if the buffer is SOI, whole pieces, and a frame header with those dimensions whose length fits |
| ImageOutcomes.JpegIff | src/vision/vision-image-validator.util.ts:36-71 | byte by byte: a JPEG is accepted exactly when stepping from behind SOI over bytes that are no markers and whole segments reaches one of the thirteen frame markers with a length that fits, and height and width are the big-endian pairs at 5 and 7 |
| ImageOutcomes.PngIff | src/vision/vision-image-validator.util.ts:23-34 | a PNG is accepted exactly for its eight-byte signature and 24 bytes, and read as big-endian width and height at 16 and 20 |
| ImageOutcomes.WebpIff | src/vision/vision-image-validator.util.ts:73-98 | a WebP is accepted exactly for its three codecs |
| ImageOutcomes.ExtendedWebpIsRead | src/vision/vision-image-validator.util.ts:77-82 | an extended one is read as two little-endian triples plus one |
| ImageOutcomes.LossyWebpIsRead | src/vision/vision-image-validator.util.ts:84-88 | a lossy one as the low fourteen bits of two little-endian pairs |
| VisionImage.FillByteHidesTheFrame | src/vision/vision-image-validator.util.ts:46-48 | after a fill byte before the frame marker the walk goes on behind the frame header, at least 0xC000 further, or gives up at the end of the file |
| VisionImage.FormatsAreDisjoint | src/vision/vision-image-validator.util.ts:10-21 | an image is accepted exactly when one parser accepts it, and the order of trying does not matter |
| VisionImage.LosslessWebpIsRead | src/vision/vision-image-validator.util.ts:90-95 | both dimensions of a lossless WebP header are read back through the signed shift |
| ConversationSummary.NothingIsCoveredTwice | src/memory/conversation-summary.service.ts:51-127 | in every interleaving, whatever the clock, a summary counts exactly what it covers, covers nothing twice, and nothing covered is sent again |
| ConversationSummary.CountIsExact | src/memory/conversation-summary.service.ts:57-126 | with strictly increasing times a summary covers, in order, exactly the messages of its scope up to its last one, and counts them |
| ConversationSummary.WatermarkPartitionsHistory | src/context/context-builder.service.ts:84-99 | a summary read at any moment and messages read later split each message of the scope to exactly one side |
| ConversationLosses.MessageIsLostIff | src/memory/conversation-summary.service.ts:57-126 | in every run, whatever the clock, a message is in neither summary nor history exactly when some query of the summary was the first to reach its time and read before it was stored |
| ConversationLosses.StoredMessagesAreNotNewlyLost | src/memory/conversation-summary.service.ts:57-126 | so an update loses no message that was stored when its query read, unless the row it read had lost it |
| ConversationSummary.LateMessageIsLostIff | src/conversations/conversations.service.ts:159-167 | a message stored after a summary is lost exactly when its time is not after the watermark's |
| ConversationSummary.EqualTimesLoseAMessage | src/memory/conversation-summary.service.ts:58-67 | a run that loses a message to equal times |
| ConversationSummary.HistoryIsUncovered | src/conversations/conversations.service.ts:153-185 | raw history never repeats a covered message |
| ConversationSummary.HistoryCompletesSummary | src/conversations/conversations.service.ts:153-185 | summary and history together show everything exactly when the limit cuts off nothing shown |
| ConversationSummary.ThresholdCountsUncovered | src/memory/conversation-summary.service.ts:29-39 | a summary is due exactly when the scope's messages exceed its count by the threshold |
| ConversationSummary.Conversation.AddMessage | src/conversations/conversations.service.ts:80-103 | appends the message |
| ConversationSummary.Conversation.Summarize | src/memory/conversation-summary.service.ts:51-127 | leaves the row its lone run leaves: unchanged without new messages or model, else extended |
| ConversationSummary.LoneCallIsARun | src/memory/conversation-summary.service.ts:51-127 | a lone call is a run of the machine |
| SummaryOutcomes.QueryFindsTheNew | src/memory/conversation-summary.service.ts:57-71 | a call asks for exactly the messages of its scope or of none, later than the last one summarized, oldest first, and is done if there are none |
| SummaryOutcomes.AnswerExtendsTheRow | src/memory/conversation-summary.service.ts:100-126 | it then writes only its own row: the model's text, the last message found, the count it read plus those found, and the first message already stored there |
| SummaryOutcomes.LoneCallExtends | src/memory/conversation-summary.service.ts:51-127 | undisturbed, the summary stored is extended by what is new, if there is anything new and a model |
| SummaryOutcomes.HistoryStaysInItsScope | src/conversations/conversations.service.ts:153-185 | history is exactly the finished turns of its own scope or of none that are read and that no summary given has reached |
| SummaryOutcomes.HistoryReadsTheNewest | src/conversations/conversations.service.ts:153-171 | what is read is the newest of the new, as many as the limit, in their order |
| SummaryOutcomes.DueIff | src/memory/conversation-summary.service.ts:29-39 | whatever the clock, a summary is due exactly when the new messages reach the threshold |
| MemorySupersession.JaccardSimilarity | src/memory/memory.service.ts:186-194 | the counting loop yields the exact size of intersection and union |
| MemorySupersession.Memories.FindSupersessionCandidate | src/memory/memory.service.ts:142-163 | answers the first listed memory of the highest similarity of at least three fifths, or none exactly when none reaches it |
| MemorySupersession.Memories.Archive | src/memory/memory.service.ts:97-100 | archives an own memory, and refuses a missing one or another user's |
| MemorySupersession.Memories.CommitCandidate | src/memory/memory-extraction.service.ts:255-311 | one candidate is skipped, created, or created with the old row marked |
| MemorySupersession.Memories.CommitCandidates | src/memory/memory-extraction.service.ts:246-317 | a batch commits its candidates one after the other |
| MemoryOutcomes.CommitMeansThis | src/memory/memory-extraction.service.ts:255-311 | a fact goes to its own scope's cell, a space holding only in the batch's scope; if no live memory listed there shares three fifths of its tokens it is added, else it takes the place of the first closest one, unless it has fewer digits |
| MemoryOutcomes.LookupFindsTheClosest | src/memory/memory.service.ts:142-163 | in every interleaving the memory found is the first listed one that shares most tokens, at least three fifths, or there is none |
| MemoryOutcomes.BatchGoesInOrder | src/memory/memory-extraction.service.ts:246-317 | a batch commits its facts in the order given, each to the table the one before it left |
| MemoryOutcomes.ArchiveMarksOnlyThat | src/memory/memory.service.ts:97-100 | archiving changes the status of one memory, and nothing else |
| MemorySupersession.StepKeepsInv | src/memory/memory-extraction.service.ts:246-317 | every step keeps pointers forward, within a cell and never losing digits, and personal rows in the personal space |
| MemorySupersession.DetailIsNeverLost | src/memory/memory-extraction.service.ts:280-311 | in every interleaving of commits and archives, every row leads through later rows of its cell to one not superseded with at least as many digits |
| MemorySupersession.FinishedCommitIsCovered | src/memory/memory-extraction.service.ts:286-311 | a finished commit leaves its content in its cell, or a row with more digits |
| MemorySupersession.CommitsNeverShrinkACell | src/memory/memory.service.ts:107-139 | between quiet moments a cell loses at most as many active rows as were archived from it while active |
| MemorySupersession.BatchIsARun | src/memory/memory-extraction.service.ts:246-317 | a batch on its own is a run of the machine |
| MemorySupersession.BatchKeepsMemories | src/memory/memory-extraction.service.ts:246-317 | so it keeps every row and chain and reduces no cell |
| ProfileFacts.ProfileFactsService.UpsertEssential | src/memory/profile-facts.service.ts:94-148 | acts on the active rows as a map update: a repeated value only raises confidence, another replaces it |
| ProfileFacts.ProfileFactsService.ArchiveEssentialByKey | src/memory/profile-facts.service.ts:151-157 | removes the key from the map, answering its row, or none exactly when it is absent |
| ProfileFacts.RepeatingOnlyRaisesConfidence | src/memory/profile-facts.service.ts:122-127 | however often a value is repeated, its wording stays and its confidence is the highest ever given |
| ProfileFacts.CorrectionReplaces | src/memory/profile-facts.service.ts:129-147 | the stored value becomes the new one exactly when it differs beyond case and spacing, or not at all; other keys stay |
| ProfileOutcomes.LessonMeansThis | src/memory/profile-facts.service.ts:94-148 | a lesson that says what is known in other letters or spacing keeps the wording and can only raise the confidence to its own; any other is taken as it is; no other fact changes |
| ProfileOutcomes.KeysAreOneIff | src/memory/profile-facts.service.ts:95-103 | two keys are one exactly when users and letters agree, case apart |
| ContextPacking.Pack | src/context/context-builder.service.ts:131-215 | the blocks pushed stay within the budget, and the newest-first walk keeps the turns that dropping the oldest until the rest fits would keep |
| ContextPacking.FittingSnoc | src/context/context-builder.service.ts:133-138 | a block is pushed exactly when it fits beside those pushed before it |
| ContextPacking.KeptIsTheLongestFit | src/context/context-builder.service.ts:208-215 | the turns kept are a suffix; it holds a given suffix exactly when that one fits or is the latest turn alone; with two or more it fits the budget |
| ContextReach.SummaryIsPushedIff | src/context/context-builder.service.ts:133-195 | the summary block is pushed exactly when it fits beside the blocks before it, and the later ones fit beside both |
| ContextReach.CoveredMessageReachesIff | src/context/context-builder.service.ts:84-99 | a message the summary covers reaches the model exactly when that block fits, whatever the clock |
| ContextReach.UncoveredMessageReachesIff | src/context/context-builder.service.ts:197-215 | one it does not cover reaches it exactly when it is among the shown messages read, and it and all later ones fit, or it is the latest |
| ContextReach.TurnsSayWhoSpoke | src/conversations/conversations.service.ts:181-184 | the user's messages reach the model as the user's, every other shown one as the assistant's |
| ProviderSelection.SelectProviderRow | src/ai-providers/ai-provider.service.ts:414-447 | answers none exactly when no row is eligible, else a least row in one lexicographic order, the first of equals |
| ProviderSelection.OrderDoesNotMatter | src/ai-providers/ai-provider.service.ts:425-446 | the answer is the same for any input order when no two eligible rows share a rank |
| ProviderSelection.OwnRowsComeFirst | src/ai-providers/ai-provider.service.ts:420-423 | an eligible own row is never passed over for a system one |
| ProviderOutcomes.LeastIsChosen | src/ai-providers/ai-provider.service.ts:414-447 | the answer is preferred to every other row that may serve: own before system, exact scope and space before scope before neither, default first, higher priority, older; among equals it stands first |
| ProviderOutcomes.EligibleMeansMayServe | src/ai-providers/ai-provider.service.ts:419-434 | a row may serve exactly if it is active, of the kind, the user's or the system's, and fits the request exactly, by scope, or is for any |
| WhatsAppMissions.StepKeeps | src/whatsapp/whatsapp-mission.service.ts:61-257 | every operation keeps the budget of each mission, one active mission a conversation, ended missions and findings |
| WhatsAppMissions.MissionsStayWithinTheirBudget | src/whatsapp/whatsapp-mission.service.ts:61-159 | over every run a mission sends at most ten messages, opening and closing included, and is notified once exactly when ended |
| WhatsAppMissions.EndedMissionsStayEnded | src/whatsapp/whatsapp-mission.service.ts:190-257 | an ended mission never changes again and gets no further message or notification, and no finding key is lost |
| WhatsAppMissions.RepliesUseUpTheBudget | src/whatsapp/whatsapp-mission.service.ts:144-158 | a non-final reply uses one of the remaining messages, and the mission goes on exactly while some remain |
| WhatsAppMissions.SweepEndsTheOverdue | src/whatsapp/whatsapp-mission.service.ts:179-187 | a sweep ends exactly the overdue missions |
| MissionOutcomes.StartedMission | src/whatsapp/whatsapp-mission.service.ts:61-85 | a mission starts with its opening message sent, ten messages in all and 48 hours to run |
| MissionOutcomes.OneActiveMission | src/whatsapp/whatsapp-mission.service.ts:61-67 | in every run no conversation has two active missions |
| MissionOutcomes.TurnIsForTheRunningMission | src/whatsapp/whatsapp-mission.service.ts:95-98 | a turn is for the active mission of its conversation, if any |
| MissionOutcomes.CancelIsForTheOwnMission | src/whatsapp/whatsapp-mission.service.ts:167-174 | only the user who owns the mission can cancel it |
| MissionOutcomes.LateTurnStops | src/whatsapp/whatsapp-mission.service.ts:99-102 | a turn out of time or messages only stops the mission, with the fallback report |
| MissionOutcomes.FailedTurnStops | src/whatsapp/whatsapp-mission.service.ts:128-137 | without a model, or with an unreadable answer, the mission stops and says why |
| MissionOutcomes.ConcludingTurnCompletes | src/whatsapp/whatsapp-mission.service.ts:139-149 | a concluding turn sends its reply, completes the mission with all that was learned and the model's report or the fallback, tells the user, and books an agreed date exactly when it lies ahead and the reminder is accepted |
| MissionOutcomes.ContinuingTurnGoesOn | src/whatsapp/whatsapp-mission.service.ts:151-155 | another sends its reply, counts it, and the mission goes on with all that was learned |
| MissionOutcomes.LastMessageStops | src/whatsapp/whatsapp-mission.service.ts:151-158 | one that uses the last message stops the mission, and reports what it learned |
| MissionOutcomes.CancelStops | src/whatsapp/whatsapp-mission.service.ts:167-176 | cancelling stops the mission with that notice, and sends and books nothing |
| MissionOutcomes.SweepStopsTheOverdue | src/whatsapp/whatsapp-mission.service.ts:179-187 | a sweep stops exactly the active missions past their deadline, each with the fallback report, and sends and books nothing |
| WhatsAppMissions.MissionService.StartMission | src/whatsapp/whatsapp-mission.service.ts:61-85 | refuses, before sending, exactly when a mission runs on the conversation |
| WhatsAppMissions.MissionService.RunTurn | src/whatsapp/whatsapp-mission.service.ts:95-159 | a turn leaves the specified state on every branch |
| WhatsAppMissions.MissionService.CancelMission | src/whatsapp/whatsapp-mission.service.ts:167-176 | stops the user's own running mission, or nothing |
| WhatsAppMissions.MissionService.Finish | src/whatsapp/whatsapp-mission.service.ts:190-257 | ends an active mission with its report, reminder and one notification, and leaves an ended one alone |
| WhatsAppMissions.MissionService.SweepOverdue | src/whatsapp/whatsapp-mission.service.ts:179-187 | finishes the listed missions one after the other |

## Left out

- Controllers, DTO validation, queues, OAuth, mail, language-model and embedding adapters: foreign calls, whose answers are free values here.
- Approval protocol: timestamps, stored results, tool versions, conversation ids, tool-call and audit rows are not kept; the tool registry is fixed during a run; an operation that rejects has written nothing.
- Voice: one connection, from session start until its socket closes; closing and the persisted session and turn rows are not part of the model. Pending-action ids handed to voice turns are new ones. The confirmation intent is a free three-way value.
- Contact import: one user's book, only the fields the import reads or writes, and no concurrent edits.
- Calendar: creating, moving and cancelling events, and time zones (the code itself reads UTC hours).
- Chunker: lengths in characters, not UTF-16 code units.
- Image validation: PNG and the lossy and extended WebP headers are read at fixed offsets, which are stated but not proved against an encoder.
- Summaries: the summary text is whatever the model says; deletion of a conversation is not modelled.
- Memories: `update` may rewrite content and has no such guarantees; entity links, embeddings, importance and confidence are left out. What `tokenize` answers is a free set, since Unicode decomposition is the library's. The floating-point comparison with 0.6 is the exact fraction 3/5, which agrees for sets of these sizes.
- Profile facts: calls run one at a time; two concurrent first upserts of a key could both insert.
- Context packing: the wording of the blocks; they are the texts offered, in order.
- Missions: operations run one at a time and sends do not fail. Two operations that both read a mission as active before either writes could each notify.
- Avatar expressions, delivery ranks, tag and bug-report cleaning, intent and language keyword tables: easy or nothing to prove.
