/**
 * What each mission operation comes to, field by field: which mission it touches, how long a mission may run, what is
 * sent, and what the user is told when it ends.
 */
module MissionOutcomes {
  import opened Wrappers
  import opened Text
  import opened WhatsAppMissions

  /** One line a question, with the answer obtained or the words for none. */
  ghost predicate IsLine(line: string, question: string, findings: map<string, string>) {
    && (question in findings ==> line == "• " + question + " — " + findings[question])
    && (question !in findings ==> line == "• " + question + " — " + "non obtenu")
  }

  /** The report written when neither the model nor a notice gives one. */
  ghost predicate IsFallback(text: string, questions: seq<string>, findings: map<string, string>) {
    if questions == [] then text == "Mission terminée."
    else exists lines: seq<string> ::
      && |lines| == |questions| && text == Join(lines, "\n")
      && forall i | 0 <= i < |lines| :: IsLine(lines[i], questions[i], findings)
  }

  /** What the turn learned lies over what was known. */
  ghost predicate IsLearned(known: map<string, string>, news: map<string, string>, all: map<string, string>) {
    && all.Keys == known.Keys + news.Keys
    && forall q <- all :: all[q] == if q in news then news[q] else known[q]
  }

  /** Only mission `id` changes, and it becomes m. */
  ghost predicate OnlyMission(s: State, s': State, id: nat, m: Mission) {
    && |s'.missions| == |s.missions| && id < |s.missions| && s'.missions[id] == m
    && forall k: nat | k < |s.missions| && k != id :: s'.missions[k] == s.missions[k]
  }

  /** A mission that ends keeps the report, tells the user once, and says how it ended. */
  ghost predicate IsEnded(s: State, s': State, id: nat, ending: Ending, report: Report, findings: map<string, string>,
                          confirmedAt: Option<int>)
    requires id < |s.missions|
  {
    var m := s.missions[id];
    && OnlyMission(s, s', id, Mission(m.user, m.conversation, m.questions,
         if ending == Completed then Done else Stopped, m.messagesSent, m.maxMessages, m.deadlineAt, findings,
         Some(report), confirmedAt))
    && s'.notes == s.notes + [Note(id, ending, report)]
  }

  /** Nothing is sent, and no reminder is booked. */
  ghost predicate OnlyTold(s: State, s': State) {
    s'.sends == s.sends && s'.reminders == s.reminders
  }

  predicate IsActive(s: State, id: nat) {
    id < |s.missions| && s.missions[id].status == Active
  }

  predicate OutOfTimeOrMessages(m: Mission, now: int) {
    m.deadlineAt < now || m.messagesSent >= m.maxMessages
  }

  // ---------------------------------------------------------------------
  // Which missions an event is about

  /** A mission starts only where none runs; a turn is for the one that runs on the conversation, if any. */
  lemma TurnIsForTheRunningMission(s: State, conversation: string, found: Option<nat>, now: int, answer: Answer,
                                   booked: bool)
    requires Enabled(s, Turn(conversation, found, now, answer, booked))
    ensures found.Some? ==> IsActive(s, found.value) && s.missions[found.value].conversation == conversation
    ensures found.None? ==> forall m <- s.missions :: m.status == Active ==> m.conversation != conversation
  {
    if found.None? {
      forall m | m in s.missions && m.status == Active ensures m.conversation != conversation {
        var id: nat :| id < |s.missions| && s.missions[id] == m;
        assert !Running(s, conversation, id);
      }
    }
  }

  lemma StartNeedsAFreeConversation(s: State, input: StartInput, now: int)
    requires Enabled(s, Start(input, now))
    ensures forall m <- s.missions :: m.status == Active ==> m.conversation != input.conversation
  {
    TurnIsForTheRunningMission(s, input.conversation, None, now, NotConfigured, false);
  }

  /** Only the user who owns the mission can cancel it. */
  lemma CancelIsForTheOwnMission(s: State, user: string, conversation: string, found: Option<nat>, now: int)
    requires Enabled(s, Cancel(user, conversation, found, now))
    ensures found.Some? ==>
      && IsActive(s, found.value) && s.missions[found.value].conversation == conversation
      && s.missions[found.value].user == user
    ensures found.None? ==>
      forall m <- s.missions :: m.status == Active && m.conversation == conversation ==> m.user != user
  {
    if found.None? {
      forall m | m in s.missions && m.status == Active && m.conversation == conversation ensures m.user != user {
        var id: nat :| id < |s.missions| && s.missions[id] == m;
        assert Running(s, conversation, id);
      }
    }
  }

  lemma SweepIsForTheOverdue(s: State, ids: seq<nat>, now: int, id: nat)
    requires Enabled(s, Sweep(ids, now))
    ensures id in ids <==> IsActive(s, id) && s.missions[id].deadlineAt < now
  {
    assert id in ids <==> Overdue(s, id, now);
  }

  /** In every run no conversation has two active missions. */
  lemma OneActiveMission(events: seq<Event>, s: State, i: nat, j: nat)
    requires Run(EMPTY, events, s) && IsActive(s, i) && IsActive(s, j)
    requires s.missions[i].conversation == s.missions[j].conversation
    ensures i == j
  {
    RunKeeps(EMPTY, events, s);
  }

  // ---------------------------------------------------------------------
  // What becomes of it

  /** A mission starts with its opening message sent, ten messages in all and two days to run. */
  lemma StartedMission(s: State, input: StartInput, now: int)
    ensures var s' := Started(s, input, now); var id := |s.missions|;
      && s'.missions == s.missions + [Mission(input.user, input.conversation, input.questions, Active, 1, 10,
           now + 172_800_000, map[], None, None)]
      && s'.sends == s.sends + [Send(id, input.openingMessage)]
      && s'.notes == s.notes && s'.reminders == s.reminders
  {}

  lemma FallbackIs(questions: seq<string>, findings: map<string, string>)
    ensures IsFallback(BuildReport(questions, findings), questions, findings)
  {
    var lines := ReportLines(questions, findings);
    forall i | 0 <= i < |lines| ensures IsLine(lines[i], questions[i], findings) {}
  }

  /** Ending without a notice or findings of its own: the fallback report over what was known. */
  lemma LimitEnds(s: State, id: nat, now: int, booked: bool)
    requires IsActive(s, id)
    ensures var m := s.missions[id]; var text := BuildReport(m.questions, m.findings);
      var s' := Finished(s, id, LimitReached, None, None, None, now, booked);
      && IsFallback(text, m.questions, m.findings)
      && IsEnded(s, s', id, LimitReached, Report(text, None), m.findings, m.confirmedAt) && OnlyTold(s, s')
  {
    FallbackIs(s.missions[id].questions, s.missions[id].findings);
  }

  lemma NoticeEnds(s: State, id: nat, ending: Ending, notice: string, now: int, booked: bool)
    requires IsActive(s, id) && ending != Completed
    ensures var m := s.missions[id];
      var s' := Finished(s, id, ending, Some(notice), None, None, now, booked);
      && IsEnded(s, s', id, ending, Report(notice, None), m.findings, m.confirmedAt) && OnlyTold(s, s')
  {}

  /** A reply that comes when the mission is out of time or messages is not answered: the mission stops. */
  lemma LateTurnStops(s: State, id: nat, now: int, answer: Answer, booked: bool) returns (text: string)
    requires IsActive(s, id) && OutOfTimeOrMessages(s.missions[id], now)
    ensures var m := s.missions[id]; var s' := TurnEnds(s, Some(id), now, answer, booked);
      && IsFallback(text, m.questions, m.findings)
      && IsEnded(s, s', id, LimitReached, Report(text, None), m.findings, m.confirmedAt) && OnlyTold(s, s')
  {
    LimitEnds(s, id, now, booked);
    text := BuildReport(s.missions[id].questions, s.missions[id].findings);
  }

  /** Without a model, or with an answer that cannot be read, the mission stops and says why. */
  lemma FailedTurnStops(s: State, id: nat, now: int, answer: Answer, booked: bool)
    requires IsActive(s, id) && !OutOfTimeOrMessages(s.missions[id], now) && !answer.Said?
    ensures var m := s.missions[id]; var s' := TurnEnds(s, Some(id), now, answer, booked);
      var notice := if answer.NotConfigured? then "Aucun fournisseur IA configuré : la mission a été arrêtée."
                    else "La réponse de l’IA était illisible : la mission a été arrêtée.";
      IsEnded(s, s', id, Failed, Report(notice, None), m.findings, m.confirmedAt) && OnlyTold(s, s')
  {}

  lemma LearnedIs(s: State, id: nat, turn: MissionTurn)
    requires id < |s.missions|
    ensures IsLearned(s.missions[id].findings, turn.findings, Learned(s, id, turn))
  {}

  /** The text of the report: the model's own, or the fallback. */
  ghost predicate IsConclusion(text: string, turn: MissionTurn, questions: seq<string>, all: map<string, string>) {
    if turn.report.Some? then text == turn.report.value else IsFallback(text, questions, all)
  }

  /** A date agreed on is booked when it lies ahead and the reminder service takes it. */
  predicate Books(turn: MissionTurn, now: int, booked: bool) {
    turn.confirmedAt.Some? && now < turn.confirmedAt.value && booked
  }

  /** The state after a reply, if there is one, went out. */
  ghost predicate ReplyWent(s: State, s': State, id: nat, reply: string) {
    s'.sends == if reply != "" then s.sends + [Send(id, reply)] else s.sends
  }

  /**
   * A turn that concludes: the reply goes out, the mission is done with all that was learned, the user is told, and an
   * agreed date that lies ahead is booked.
   */
  lemma ConcludingTurnCompletes(s: State, id: nat, now: int, turn: MissionTurn, booked: bool)
    returns (text: string, all: map<string, string>)
    requires IsActive(s, id) && !OutOfTimeOrMessages(s.missions[id], now) && turn.done
    ensures var m := s.missions[id]; var s' := TurnEnds(s, Some(id), now, Said(turn), booked);
      var reminder := if Books(turn, now, booked) then turn.confirmedAt else None;
      && IsLearned(m.findings, turn.findings, all) && IsConclusion(text, turn, m.questions, all)
      && IsEnded(s, s', id, Completed, Report(text, reminder), all,
                 if turn.confirmedAt.Some? then turn.confirmedAt else m.confirmedAt)
      && ReplyWent(s, s', id, turn.reply)
      && s'.reminders == if reminder.Some? then s.reminders + [(id, reminder.value)] else s.reminders
  {
    LearnedIs(s, id, turn);
    all := Learned(s, id, turn);
    FallbackIs(s.missions[id].questions, all);
    text := if turn.report.Some? then turn.report.value else BuildReport(s.missions[id].questions, all);
  }

  /** A reply counts as one message, silence as none. */
  function CountAfter(m: Mission, turn: MissionTurn): nat {
    if turn.reply != "" then m.messagesSent + 1 else m.messagesSent
  }

  /** A turn that neither concludes nor uses the last message: the mission goes on with all it learned. */
  lemma ContinuingTurnGoesOn(s: State, id: nat, now: int, turn: MissionTurn, booked: bool)
    returns (all: map<string, string>)
    requires IsActive(s, id) && !OutOfTimeOrMessages(s.missions[id], now) && !turn.done
    requires CountAfter(s.missions[id], turn) < s.missions[id].maxMessages
    ensures var m := s.missions[id]; var s' := TurnEnds(s, Some(id), now, Said(turn), booked);
      && IsLearned(m.findings, turn.findings, all)
      && OnlyMission(s, s', id, Mission(m.user, m.conversation, m.questions, Active, CountAfter(m, turn),
           m.maxMessages, m.deadlineAt, all, m.report, m.confirmedAt))
      && ReplyWent(s, s', id, turn.reply) && s'.notes == s.notes && s'.reminders == s.reminders
  {
    LearnedIs(s, id, turn);
    all := Learned(s, id, turn);
  }

  lemma LearnedAndEnded(s: State, id: nat, all: map<string, string>, now: int, booked: bool)
    requires IsActive(s, id)
    ensures var m := s.missions[id]; var text := BuildReport(m.questions, all);
      var s' := Finished(s, id, LimitReached, None, Some(all), None, now, booked);
      IsEnded(s, s', id, LimitReached, Report(text, None), all, m.confirmedAt) && OnlyTold(s, s')
  {}

  lemma ReplyIsCounted(s: State, id: nat, turn: MissionTurn)
    requires IsActive(s, id)
    ensures var m := s.missions[id]; var counted := Counted(s, id, turn);
      && OnlyMission(s, counted, id, m.(messagesSent := CountAfter(m, turn), findings := Learned(s, id, turn)))
      && ReplyWent(s, counted, id, turn.reply) && counted.notes == s.notes && counted.reminders == s.reminders
  {}

  /** A turn that uses the last message without concluding: the mission stops, with what it learned reported. */
  lemma LastMessageStops(s: State, id: nat, now: int, turn: MissionTurn, booked: bool)
    returns (text: string, all: map<string, string>)
    requires IsActive(s, id) && !OutOfTimeOrMessages(s.missions[id], now) && !turn.done
    requires CountAfter(s.missions[id], turn) >= s.missions[id].maxMessages
    ensures var m := s.missions[id]; var s' := TurnEnds(s, Some(id), now, Said(turn), booked);
      && IsLearned(m.findings, turn.findings, all) && IsFallback(text, m.questions, all)
      && OnlyMission(s, s', id, Mission(m.user, m.conversation, m.questions, Stopped, CountAfter(m, turn),
           m.maxMessages, m.deadlineAt, all, Some(Report(text, None)), m.confirmedAt))
      && s'.notes == s.notes + [Note(id, LimitReached, Report(text, None))]
      && ReplyWent(s, s', id, turn.reply) && s'.reminders == s.reminders
  {
    LearnedIs(s, id, turn);
    all := Learned(s, id, turn);
    FallbackIs(s.missions[id].questions, all);
    text := BuildReport(s.missions[id].questions, all);
    ReplyIsCounted(s, id, turn);
    LearnedAndEnded(Counted(s, id, turn), id, all, now, booked);
  }

  /** Cancelling stops the user's own mission, and says that they did. */
  lemma CancelStops(s: State, user: string, conversation: string, id: nat, now: int)
    requires Enabled(s, Cancel(user, conversation, Some(id), now))
    ensures var m := s.missions[id]; var s' := CancelEnds(s, Some(id), now);
      && IsEnded(s, s', id, Cancelled, Report("Mission annulée par l’utilisateur.", None), m.findings, m.confirmedAt)
      && OnlyTold(s, s')
  {}

  /** With no mission to act on, neither a turn nor a cancel does anything. */
  lemma NothingToDo(s: State, now: int, answer: Answer, booked: bool)
    ensures TurnEnds(s, None, now, answer, booked) == s && CancelEnds(s, None, now) == s
  {}

  /** A swept mission, as it stands afterwards. */
  ghost predicate IsSwept(m: Mission, m': Mission, text: string) {
    && IsFallback(text, m.questions, m.findings)
    && m' == Mission(m.user, m.conversation, m.questions, Stopped, m.messagesSent, m.maxMessages, m.deadlineAt,
                     m.findings, Some(Report(text, None)), m.confirmedAt)
  }

  lemma {:induction false} SweptMission(s: State, ids: seq<nat>, now: int, id: nat) returns (text: string)
    requires (forall i | 0 <= i < |ids| :: ids[i] < |s.missions|) && id in ids && IsActive(s, id)
    ensures IsSwept(s.missions[id], SweepEnds(s, ids, now).missions[id], text)
    decreases |ids|
  {
    var last := |ids| - 1;
    var mid := SweepEnds(s, ids[..last], now);
    SweepReaches(s, ids[..last], now, id);
    assert ids == ids[..last] + [ids[last]];
    if id in ids[..last] {
      text := SweptMission(s, ids[..last], now, id);
    } else {
      LimitEnds(mid, id, now, false);
      text := BuildReport(s.missions[id].questions, s.missions[id].findings);
    }
  }

  lemma {:induction false} SweepOnlyTells(s: State, ids: seq<nat>, now: int)
    requires forall i | 0 <= i < |ids| :: ids[i] < |s.missions|
    ensures OnlyTold(s, SweepEnds(s, ids, now))
    decreases |ids|
  {
    if ids != [] { SweepOnlyTells(s, ids[..|ids| - 1], now); }
  }

  /** A sweep stops each active mission past its deadline with the fallback report, and sends and books nothing. */
  lemma SweepStopsTheOverdue(s: State, ids: seq<nat>, now: int, id: nat) returns (text: string)
    requires Enabled(s, Sweep(ids, now)) && id < |s.missions|
    ensures var s' := SweepEnds(s, ids, now); var m := s.missions[id];
      && OnlyTold(s, s')
      && (m.status == Active && m.deadlineAt < now ==> IsSwept(m, s'.missions[id], text))
      && (m.status != Active || m.deadlineAt >= now ==> s'.missions[id] == m)
  {
    SweepIsForTheOverdue(s, ids, now, id);
    SweepOnlyTells(s, ids, now);
    SweepReaches(s, ids, now, id);
    text := "";
    if id in ids { text := SweptMission(s, ids, now, id); }
  }
}
