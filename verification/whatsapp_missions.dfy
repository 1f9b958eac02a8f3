/** Goal-driven WhatsApp missions: started, run one turn per reply, cancelled or swept, one operation at a time. */
module WhatsAppMissions {
  import opened Wrappers
  import opened Text

  const MISSION_MAX_MESSAGES := 10
  const MISSION_TTL_MS := 48 * 60 * 60 * 1000

  const NOT_CONFIGURED_NOTICE := "Aucun fournisseur IA configuré : la mission a été arrêtée."
  const UNREADABLE_NOTICE := "La réponse de l’IA était illisible : la mission a été arrêtée."
  const CANCELLED_NOTICE := "Mission annulée par l’utilisateur."
  const STOPPED_NOTICE := "Mission arrêtée."

  datatype Status = Active | Done | Stopped

  /** The report's text, and the reminder it announces. */
  datatype Report = Report(text: string, reminder: Option<int>)

  datatype Mission = Mission(
    user: string, conversation: string, questions: seq<string>, status: Status, messagesSent: nat, maxMessages: nat,
    deadlineAt: int, findings: map<string, string>, report: Option<Report>, confirmedAt: Option<int>)

  datatype Ending = Completed | LimitReached | Failed | Cancelled

  datatype Send = Send(mission: nat, text: string)
  datatype Note = Note(mission: nat, ending: Ending, report: Report)

  /** Missions by order of creation, and the messages, notifications and reminders that went out. */
  datatype State = State(missions: seq<Mission>, sends: seq<Send>, notes: seq<Note>, reminders: seq<(nat, int)>)

  /** What the model said; `confirmedAt` is the date it gave, when it parses. */
  datatype MissionTurn = MissionTurn(
    reply: string, done: bool, findings: map<string, string>, report: Option<string>, confirmedAt: Option<int>)

  datatype Answer = NotConfigured | Unreadable | Said(turn: MissionTurn)

  datatype StartInput = StartInput(user: string, conversation: string, questions: seq<string>, openingMessage: string)

  // ---------------------------------------------------------------------
  // The operations as functions

  function ReportLines(questions: seq<string>, findings: map<string, string>): (r: seq<string>)
    ensures |r| == |questions|
  {
    seq(|questions|, i requires 0 <= i < |questions| =>
      "• " + questions[i] + " — " + if questions[i] in findings then findings[questions[i]] else "non obtenu")
  }

  function BuildReport(questions: seq<string>, findings: map<string, string>): string {
    if questions == [] then "Mission terminée." else Join(ReportLines(questions, findings), "\n")
  }

  /** The new mission's row. */
  function NewMission(input: StartInput, now: int): Mission {
    Mission(input.user, input.conversation, input.questions, Active, 1, MISSION_MAX_MESSAGES,
            now + MISSION_TTL_MS, map[], None, None)
  }

  predicate Running(s: State, conversation: string, id: nat) {
    id < |s.missions| && s.missions[id].status == Active && s.missions[id].conversation == conversation
  }

  /** What findFirst may answer. */
  ghost predicate Finds(s: State, conversation: string, found: Option<nat>) {
    match found
    case Some(id) => Running(s, conversation, id)
    case None => forall id: nat :: !Running(s, conversation, id)
  }

  function Started(s: State, input: StartInput, now: int): State {
    s.(missions := s.missions + [NewMission(input, now)], sends := s.sends + [Send(|s.missions|, input.openingMessage)])
  }

  /** `booked` is whether the reminder service accepts the date. */
  function Finished(s: State, id: nat, ending: Ending, notice: Option<string>, findings: Option<map<string, string>>,
      confirmedAt: Option<int>, now: int, booked: bool): State
    requires id < |s.missions|
  {
    var m := s.missions[id];
    if m.status != Active then s
    else
      var stored := if findings.Some? then findings.value else m.findings;
      var reminder := if ending == Completed && confirmedAt.Some? && confirmedAt.value > now && booked
        then confirmedAt else None;
      var text := if notice.Some? then notice.value
                  else if ending == Failed then STOPPED_NOTICE
                  else BuildReport(m.questions, stored);
      var report := Report(text, reminder);
      State(
        s.missions[id := m.(status := if ending == Completed then Done else Stopped,
                            report := Some(report), findings := stored,
                            confirmedAt := if confirmedAt.Some? then confirmedAt else m.confirmedAt)],
        s.sends,
        s.notes + [Note(id, ending, report)],
        if reminder.Some? then s.reminders + [(id, reminder.value)] else s.reminders)
  }

  predicate OutOfTime(m: Mission, now: int) {
    m.deadlineAt < now || m.messagesSent >= m.maxMessages
  }

  function Sent(s: State, id: nat, text: string): State {
    if text == "" then s else s.(sends := s.sends + [Send(id, text)])
  }

  function TurnEnds(s: State, found: Option<nat>, now: int, answer: Answer, booked: bool): State
    requires found.Some? ==> found.value < |s.missions|
  {
    if found.None? then s
    else
      var id := found.value;
      var m := s.missions[id];
      if OutOfTime(m, now) then Finished(s, id, LimitReached, None, None, None, now, booked)
      else match answer
        case NotConfigured => Finished(s, id, Failed, Some(NOT_CONFIGURED_NOTICE), None, None, now, booked)
        case Unreadable => Finished(s, id, Failed, Some(UNREADABLE_NOTICE), None, None, now, booked)
        case Said(turn) => SaidEnds(s, id, turn, now, booked)
  }

  /** The stored findings with the turn's on top. */
  function Learned(s: State, id: nat, turn: MissionTurn): map<string, string>
    requires id < |s.missions|
  {
    s.missions[id].findings + turn.findings
  }

  /** After the reply of a turn that does not conclude. */
  function Counted(s: State, id: nat, turn: MissionTurn): State
    requires id < |s.missions|
  {
    var m := s.missions[id];
    var count := m.messagesSent + if turn.reply != "" then 1 else 0;
    Sent(s, id, turn.reply).(missions := s.missions[id := m.(messagesSent := count, findings := Learned(s, id, turn))])
  }

  function SaidEnds(s: State, id: nat, turn: MissionTurn, now: int, booked: bool): State
    requires id < |s.missions|
  {
    if turn.done then
      var notice := if turn.report.Some? then turn.report
        else Some(BuildReport(s.missions[id].questions, Learned(s, id, turn)));
      Finished(Sent(s, id, turn.reply), id, Completed, notice, Some(Learned(s, id, turn)), turn.confirmedAt, now,
               booked)
    else
      var counted := Counted(s, id, turn);
      if counted.missions[id].messagesSent >= counted.missions[id].maxMessages then
        Finished(counted, id, LimitReached, None, Some(Learned(s, id, turn)), None, now, booked)
      else counted
  }

  /** What cancel's findFirst may answer: it also asks for the user. */
  ghost predicate FindsOwn(s: State, user: string, conversation: string, found: Option<nat>) {
    match found
    case Some(id) => Running(s, conversation, id) && s.missions[id].user == user
    case None => forall id: nat :: Running(s, conversation, id) ==> s.missions[id].user != user
  }

  function CancelEnds(s: State, found: Option<nat>, now: int): State
    requires found.Some? ==> found.value < |s.missions|
  {
    if found.None? then s
    else Finished(s, found.value, Cancelled, Some(CANCELLED_NOTICE), None, None, now, false)
  }

  predicate Overdue(s: State, id: nat, now: int) {
    id < |s.missions| && s.missions[id].status == Active && s.missions[id].deadlineAt < now
  }

  function SweepEnds(s: State, ids: seq<nat>, now: int): (r: State)
    requires forall i | 0 <= i < |ids| :: ids[i] < |s.missions|
    ensures |r.missions| == |s.missions|
    decreases |ids|
  {
    if ids == [] then s
    else
      var last := |ids| - 1;
      Finished(SweepEnds(s, ids[..last], now), ids[last], LimitReached, None, None, None, now, false)
  }

  /** What the sweep's query answers. */
  ghost predicate ListsOverdue(s: State, ids: seq<nat>, now: int) {
    forall id: nat :: id in ids <==> Overdue(s, id, now)
  }

  datatype Event =
    | Start(input: StartInput, now: int)
    | Turn(conversation: string, found: Option<nat>, now: int, answer: Answer, booked: bool)
    | Cancel(user: string, conversation: string, found: Option<nat>, now: int)
    | Sweep(ids: seq<nat>, now: int)

  /** Start is enabled when no mission runs on the conversation: otherwise it throws before it sends. */
  ghost predicate Enabled(s: State, e: Event) {
    match e
    case Start(input, _) => Finds(s, input.conversation, None)
    case Turn(conversation, found, _, _, _) => Finds(s, conversation, found)
    case Cancel(user, conversation, found, _) => FindsOwn(s, user, conversation, found)
    case Sweep(ids, now) => (forall i | 0 <= i < |ids| :: ids[i] < |s.missions|) && ListsOverdue(s, ids, now)
  }

  function Next(s: State, e: Event): State
    requires Enabled(s, e)
  {
    match e
    case Start(input, now) => Started(s, input, now)
    case Turn(_, found, now, answer, booked) => TurnEnds(s, found, now, answer, booked)
    case Cancel(_, _, found, now) => CancelEnds(s, found, now)
    case Sweep(ids, now) => SweepEnds(s, ids, now)
  }

  ghost predicate Run(s: State, events: seq<Event>, s': State)
    decreases |events|
  {
    if events == [] then s == s'
    else Enabled(s, events[0]) && Run(Next(s, events[0]), events[1..], s')
  }

  const EMPTY := State([], [], [], [])

  // ---------------------------------------------------------------------
  // What every run keeps

  function SendsOf(sends: seq<Send>, id: nat): nat {
    if sends == [] then 0
    else SendsOf(sends[..|sends| - 1], id) + if sends[|sends| - 1].mission == id then 1 else 0
  }

  function NotesOf(notes: seq<Note>, id: nat): nat {
    if notes == [] then 0
    else NotesOf(notes[..|notes| - 1], id) + if notes[|notes| - 1].mission == id then 1 else 0
  }

  lemma SendsSnoc(sends: seq<Send>, send: Send, id: nat)
    ensures SendsOf(sends + [send], id) == SendsOf(sends, id) + if send.mission == id then 1 else 0
  {
    assert (sends + [send])[..|sends|] == sends;
  }

  lemma NotesSnoc(notes: seq<Note>, note: Note, id: nat)
    ensures NotesOf(notes + [note], id) == NotesOf(notes, id) + if note.mission == id then 1 else 0
  {
    assert (notes + [note])[..|notes|] == notes;
  }

  /**
   * The budget of one mission: what was sent is counted, save a
   * closing message there was room for; one notification at the end.
   */
  ghost predicate InvMission(m: Mission, sends: nat, notes: nat) {
    && 1 <= sends && m.maxMessages == MISSION_MAX_MESSAGES
    && (if m.status == Active then sends == m.messagesSent < m.maxMessages && notes == 0 && m.report.None?
        else sends <= m.maxMessages && notes == 1 && m.report.Some?)
  }

  ghost predicate Inv(s: State) {
    && (forall id: nat | id < |s.missions| :: InvMission(s.missions[id], SendsOf(s.sends, id), NotesOf(s.notes, id)))
    && (forall id: nat | id >= |s.missions| :: SendsOf(s.sends, id) == 0 && NotesOf(s.notes, id) == 0)
    && OnePerConversation(s)
  }

  ghost predicate OnePerConversation(s: State) {
    forall i, j | 0 <= i < j < |s.missions| && s.missions[i].status == Active && s.missions[j].status == Active ::
      s.missions[i].conversation != s.missions[j].conversation
  }

  /** Missions are never removed; an ended one never changes, and no finding is ever forgotten. */
  ghost predicate Keeps(s: State, s': State) {
    && |s.missions| <= |s'.missions|
    && forall id: nat | id < |s.missions| :: KeepsMission(s.missions[id], s'.missions[id])
  }

  ghost predicate KeepsMission(m: Mission, m': Mission) {
    && (m.status != Active ==> m' == m)
    && m.findings.Keys <= m'.findings.Keys && m.messagesSent <= m'.messagesSent
    && m'.conversation == m.conversation && m'.user == m.user && m'.maxMessages == m.maxMessages
  }

  lemma KeepsTransitive(a: State, b: State, c: State)
    requires Keeps(a, b) && Keeps(b, c)
    ensures Keeps(a, c)
  {
    forall id: nat | id < |a.missions| ensures KeepsMission(a.missions[id], c.missions[id]) {
      assert KeepsMission(a.missions[id], b.missions[id]) && KeepsMission(b.missions[id], c.missions[id]);
    }
  }

  lemma StartedKeeps(s: State, input: StartInput, now: int)
    requires Inv(s) && Finds(s, input.conversation, None)
    ensures Inv(Started(s, input, now)) && Keeps(s, Started(s, input, now))
  {
    var s' := Started(s, input, now);
    var n := |s.missions|;
    forall id: nat ensures SendsOf(s'.sends, id) == SendsOf(s.sends, id) + if id == n then 1 else 0 {
      SendsSnoc(s.sends, Send(n, input.openingMessage), id);
    }
    forall i | 0 <= i < n && s.missions[i].status == Active ensures s.missions[i].conversation != input.conversation {
      assert !Running(s, input.conversation, i);
    }
  }

  /** Inv, except that mission `id` has sent its closing message uncounted, or its last counted one. */
  ghost predicate InvBut(s: State, id: nat) {
    && id < |s.missions| && s.missions[id].status == Active
    && s.missions[id].maxMessages == MISSION_MAX_MESSAGES && s.missions[id].report.None?
    && 1 <= SendsOf(s.sends, id) <= MISSION_MAX_MESSAGES && NotesOf(s.notes, id) == 0
    && (forall k: nat | k < |s.missions| && k != id ::
        InvMission(s.missions[k], SendsOf(s.sends, k), NotesOf(s.notes, k)))
    && (forall k: nat | k >= |s.missions| :: SendsOf(s.sends, k) == 0 && NotesOf(s.notes, k) == 0)
    && OnePerConversation(s)
  }

  lemma FinishedKeeps(s: State, id: nat, ending: Ending, notice: Option<string>, findings: Option<map<string, string>>,
      confirmedAt: Option<int>, now: int, booked: bool)
    requires InvBut(s, id)
    requires findings.Some? ==> s.missions[id].findings.Keys <= findings.value.Keys
    ensures var s' := Finished(s, id, ending, notice, findings, confirmedAt, now, booked);
      Inv(s') && Keeps(s, s') && s'.missions[id].status != Active && s'.sends == s.sends
  {
    var s' := Finished(s, id, ending, notice, findings, confirmedAt, now, booked);
    var note := s'.notes[|s.notes|];
    forall k: nat ensures NotesOf(s'.notes, k) == NotesOf(s.notes, k) + if k == id then 1 else 0 {
      NotesSnoc(s.notes, note, k);
    }
    forall k: nat | k < |s'.missions| ensures InvMission(s'.missions[k], SendsOf(s'.sends, k), NotesOf(s'.notes, k)) {
      if k != id { assert InvMission(s.missions[k], SendsOf(s.sends, k), NotesOf(s.notes, k)); }
    }
  }

  lemma InvIsInvBut(s: State, id: nat)
    requires Inv(s) && id < |s.missions| && s.missions[id].status == Active
    ensures InvBut(s, id)
  {
    assert InvMission(s.missions[id], SendsOf(s.sends, id), NotesOf(s.notes, id));
  }

  lemma SentKeeps(s: State, id: nat, text: string)
    requires Inv(s) && id < |s.missions| && s.missions[id].status == Active
    ensures var s' := Sent(s, id, text);
      && InvBut(s', id) && s'.missions == s.missions && s'.notes == s.notes
      && SendsOf(s'.sends, id) == SendsOf(s.sends, id) + if text != "" then 1 else 0
  {
    InvIsInvBut(s, id);
    assert InvMission(s.missions[id], SendsOf(s.sends, id), NotesOf(s.notes, id));
    forall k: nat ensures SendsOf(s.sends + [Send(id, text)], k) == SendsOf(s.sends, k) + if k == id then 1 else 0 {
      SendsSnoc(s.sends, Send(id, text), k);
    }
  }

  /** A turn that concludes: the reply it sends, if any, had room. */
  lemma ConcludingKeeps(s: State, id: nat, turn: MissionTurn, now: int, booked: bool)
    requires Inv(s) && id < |s.missions| && s.missions[id].status == Active && turn.done
    ensures Inv(SaidEnds(s, id, turn, now, booked)) && Keeps(s, SaidEnds(s, id, turn, now, booked))
  {
    SentKeeps(s, id, turn.reply);
    var notice := if turn.report.Some? then turn.report
      else Some(BuildReport(s.missions[id].questions, Learned(s, id, turn)));
    FinishedKeeps(Sent(s, id, turn.reply), id, Completed, notice, Some(Learned(s, id, turn)), turn.confirmedAt, now,
                  booked);
  }

  /** A turn that does not conclude, before the limit is looked at. */
  lemma CountedKeeps(s: State, id: nat, turn: MissionTurn)
    requires Inv(s) && id < |s.missions| && s.missions[id].status == Active
    ensures var counted := Counted(s, id, turn);
      && InvBut(counted, id) && Keeps(s, counted) && SendsOf(counted.sends, id) == counted.missions[id].messagesSent
      && counted.missions[id].findings == Learned(s, id, turn)
  {
    SentKeeps(s, id, turn.reply);
    assert InvMission(s.missions[id], SendsOf(s.sends, id), NotesOf(s.notes, id));
    var counted := Counted(s, id, turn);
    forall k: nat | k < |s.missions| ensures KeepsMission(s.missions[k], counted.missions[k]) {}
  }

  lemma ContinuingKeeps(s: State, id: nat, turn: MissionTurn, now: int, booked: bool)
    requires Inv(s) && id < |s.missions| && s.missions[id].status == Active && !turn.done
    ensures Inv(SaidEnds(s, id, turn, now, booked)) && Keeps(s, SaidEnds(s, id, turn, now, booked))
  {
    CountedKeeps(s, id, turn);
    LimitKeeps(s, Counted(s, id, turn), id, Learned(s, id, turn), now, booked);
  }

  /** The limit is looked at after a reply was counted. */
  lemma LimitKeeps(s: State, counted: State, id: nat, findings: map<string, string>, now: int, booked: bool)
    requires InvBut(counted, id) && Keeps(s, counted)
    requires SendsOf(counted.sends, id) == counted.missions[id].messagesSent
      && counted.missions[id].findings == findings
    ensures var s' := if counted.missions[id].messagesSent >= counted.missions[id].maxMessages
                      then Finished(counted, id, LimitReached, None, Some(findings), None, now, booked) else counted;
      Inv(s') && Keeps(s, s')
  {
    if counted.missions[id].messagesSent >= counted.missions[id].maxMessages {
      FinishedKeeps(counted, id, LimitReached, None, Some(findings), None, now, booked);
      KeepsTransitive(s, counted, Finished(counted, id, LimitReached, None, Some(findings), None, now, booked));
    } else {
      StillActive(counted, id);
    }
  }

  lemma StillActive(s: State, id: nat)
    requires InvBut(s, id) && SendsOf(s.sends, id) == s.missions[id].messagesSent < s.missions[id].maxMessages
    ensures Inv(s)
  {
    assert InvMission(s.missions[id], SendsOf(s.sends, id), NotesOf(s.notes, id));
  }

  /** A turn's answer: the reply is sent at most once, and the mission goes on only with its count below the limit. */
  lemma SaidKeeps(s: State, id: nat, turn: MissionTurn, now: int, booked: bool)
    requires Inv(s) && id < |s.missions| && s.missions[id].status == Active
    ensures Inv(SaidEnds(s, id, turn, now, booked)) && Keeps(s, SaidEnds(s, id, turn, now, booked))
  {
    if turn.done { ConcludingKeeps(s, id, turn, now, booked); } else { ContinuingKeeps(s, id, turn, now, booked); }
  }

  lemma TurnKeeps(s: State, conversation: string, found: Option<nat>, now: int, answer: Answer, booked: bool)
    requires Inv(s) && Finds(s, conversation, found)
    ensures Inv(TurnEnds(s, found, now, answer, booked)) && Keeps(s, TurnEnds(s, found, now, answer, booked))
  {
    if found.Some? {
      var id := found.value;
      InvIsInvBut(s, id);
      if !OutOfTime(s.missions[id], now) && answer.Said? {
        SaidKeeps(s, id, answer.turn, now, booked);
      } else if OutOfTime(s.missions[id], now) {
        FinishedKeeps(s, id, LimitReached, None, None, None, now, booked);
      } else if answer.NotConfigured? {
        FinishedKeeps(s, id, Failed, Some(NOT_CONFIGURED_NOTICE), None, None, now, booked);
      } else {
        FinishedKeeps(s, id, Failed, Some(UNREADABLE_NOTICE), None, None, now, booked);
      }
    }
  }

  lemma OneSwept(s: State, id: nat, now: int)
    requires Inv(s) && id < |s.missions|
    ensures var s' := Finished(s, id, LimitReached, None, None, None, now, false);
      && Inv(s') && Keeps(s, s') && s'.sends == s.sends && s'.missions[id].status != Active
      && (forall k: nat | k < |s.missions| && k != id :: s'.missions[k] == s.missions[k])
  {
    if s.missions[id].status == Active {
      InvIsInvBut(s, id);
      FinishedKeeps(s, id, LimitReached, None, None, None, now, false);
    }
  }

  lemma {:induction false} SweepKeeps(s: State, ids: seq<nat>, now: int)
    requires Inv(s) && forall i | 0 <= i < |ids| :: ids[i] < |s.missions|
    ensures Inv(SweepEnds(s, ids, now)) && Keeps(s, SweepEnds(s, ids, now))
    decreases |ids|
  {
    if ids != [] {
      var last := |ids| - 1;
      SweepKeeps(s, ids[..last], now);
      var mid := SweepEnds(s, ids[..last], now);
      OneSwept(mid, ids[last], now);
      KeepsTransitive(s, mid, SweepEnds(s, ids, now));
    }
  }

  /** A swept mission is stopped; the others are left alone. */
  lemma {:induction false} SweepReaches(s: State, ids: seq<nat>, now: int, id: nat)
    requires (forall i | 0 <= i < |ids| :: ids[i] < |s.missions|) && id < |s.missions|
    ensures var m := SweepEnds(s, ids, now).missions[id];
      && (id !in ids ==> m == s.missions[id])
      && (m == s.missions[id] || m.status == Stopped)
      && (id in ids ==> m.status != Active)
    decreases |ids|
  {
    if ids != [] {
      var last := |ids| - 1;
      SweepReaches(s, ids[..last], now, id);
      assert ids == ids[..last] + [ids[last]];
    }
  }

  lemma StepKeeps(s: State, e: Event)
    requires Inv(s) && Enabled(s, e)
    ensures Inv(Next(s, e)) && Keeps(s, Next(s, e))
  {
    match e
    case Start(input, now) => StartedKeeps(s, input, now);
    case Turn(conversation, found, now, answer, booked) => TurnKeeps(s, conversation, found, now, answer, booked);
    case Cancel(user, conversation, found, now) =>
      if found.Some? {
        InvIsInvBut(s, found.value);
        FinishedKeeps(s, found.value, Cancelled, Some(CANCELLED_NOTICE), None, None, now, false);
      }
    case Sweep(ids, now) => SweepKeeps(s, ids, now);
  }

  /** Nothing is sent for a mission that has ended. */
  ghost predicate EndedSendNothing(s: State, s': State) {
    forall id: nat | id < |s.missions| && s.missions[id].status != Active ::
      SendsOf(s'.sends, id) == SendsOf(s.sends, id)
  }

  lemma StartSendsForItself(s: State, input: StartInput, now: int)
    ensures EndedSendNothing(s, Started(s, input, now))
  {
    forall id: nat | id < |s.missions| ensures SendsOf(Started(s, input, now).sends, id) == SendsOf(s.sends, id) {
      SendsSnoc(s.sends, Send(|s.missions|, input.openingMessage), id);
    }
  }

  lemma TurnSendsForActive(s: State, conversation: string, found: Option<nat>, now: int, answer: Answer, booked: bool)
    requires Finds(s, conversation, found)
    ensures EndedSendNothing(s, TurnEnds(s, found, now, answer, booked))
  {
    if found.Some? && answer.Said? {
      forall id: nat | id < |s.missions| && s.missions[id].status != Active
        ensures SendsOf(Sent(s, found.value, answer.turn.reply).sends, id) == SendsOf(s.sends, id)
      {
        SendsSnoc(s.sends, Send(found.value, answer.turn.reply), id);
      }
    }
  }

  lemma {:induction false} SweepSendsNothing(s: State, ids: seq<nat>, now: int)
    requires forall i | 0 <= i < |ids| :: ids[i] < |s.missions|
    ensures SweepEnds(s, ids, now).sends == s.sends
    decreases |ids|
  {
    if ids != [] { SweepSendsNothing(s, ids[..|ids| - 1], now); }
  }

  lemma StepSendsForActive(s: State, e: Event)
    requires Enabled(s, e)
    ensures EndedSendNothing(s, Next(s, e))
  {
    match e
    case Start(input, now) => StartSendsForItself(s, input, now);
    case Turn(conversation, found, now, answer, booked) =>
      TurnSendsForActive(s, conversation, found, now, answer, booked);
    case Cancel(_, _, _, _) =>
    case Sweep(ids, now) => SweepSendsNothing(s, ids, now);
  }

  lemma EndedStayQuiet(a: State, b: State, c: State)
    requires Keeps(a, b) && EndedSendNothing(a, b) && EndedSendNothing(b, c)
    ensures EndedSendNothing(a, c)
  {
    forall id: nat | id < |a.missions| && a.missions[id].status != Active
      ensures SendsOf(c.sends, id) == SendsOf(a.sends, id)
    {
      assert KeepsMission(a.missions[id], b.missions[id]);
    }
  }

  lemma {:induction false} RunKeeps(s: State, events: seq<Event>, s': State)
    requires Inv(s) && Run(s, events, s')
    ensures Inv(s') && Keeps(s, s') && EndedSendNothing(s, s')
    decreases |events|
  {
    if events != [] {
      StepKeeps(s, events[0]);
      StepSendsForActive(s, events[0]);
      RunKeeps(Next(s, events[0]), events[1..], s');
      KeepsTransitive(s, Next(s, events[0]), s');
      EndedStayQuiet(s, Next(s, events[0]), s');
    }
  }

  /**
   * Whatever the model says and the clock shows: at most ten messages, opening and closing ones included, and one
   * notification exactly when the mission has ended.
   */
  lemma MissionsStayWithinTheirBudget(events: seq<Event>, s: State, id: nat)
    requires Run(EMPTY, events, s) && id < |s.missions|
    ensures 1 <= SendsOf(s.sends, id) <= MISSION_MAX_MESSAGES
    ensures NotesOf(s.notes, id) == if s.missions[id].status == Active then 0 else 1
    ensures s.missions[id].report.Some? <==> s.missions[id].status != Active
  {
    RunKeeps(EMPTY, events, s);
    assert InvMission(s.missions[id], SendsOf(s.sends, id), NotesOf(s.notes, id));
  }

  /** An ended mission stays as it ended, with no further message or notification; and findings are never lost. */
  lemma EndedMissionsStayEnded(before: seq<Event>, s: State, after: seq<Event>, s': State, id: nat)
    requires Run(EMPTY, before, s) && Run(s, after, s') && id < |s.missions|
    ensures id < |s'.missions| && s.missions[id].findings.Keys <= s'.missions[id].findings.Keys
    ensures s.missions[id].status != Active ==>
              && s'.missions[id] == s.missions[id] && NotesOf(s'.notes, id) == 1
              && SendsOf(s'.sends, id) == SendsOf(s.sends, id)
  {
    RunKeeps(EMPTY, before, s);
    RunKeeps(s, after, s');
    assert KeepsMission(s.missions[id], s'.missions[id]);
    assert InvMission(s'.missions[id], SendsOf(s'.sends, id), NotesOf(s'.notes, id));
  }

  /** What a mission may still send. */
  function Remaining(s: State, id: nat): int
    requires id < |s.missions|
  {
    s.missions[id].maxMessages - s.missions[id].messagesSent
  }

  /**
   * A reply that does not conclude uses up one message; the
   * mission goes on exactly when some remain, with all it learned.
   */
  lemma RepliesUseUpTheBudget(s: State, conversation: string, id: nat, now: int, turn: MissionTurn, booked: bool)
    requires Inv(s) && Finds(s, conversation, Some(id)) && s.missions[id].deadlineAt >= now
    requires !turn.done && turn.reply != ""
    ensures var s' := TurnEnds(s, Some(id), now, Said(turn), booked);
      && |s'.missions| == |s.missions| && Remaining(s', id) == Remaining(s, id) - 1
      && (s'.missions[id].status == Active <==> Remaining(s', id) > 0)
      && s'.sends == s.sends + [Send(id, turn.reply)]
      && s'.missions[id].findings == s.missions[id].findings + turn.findings
  {
    assert InvMission(s.missions[id], SendsOf(s.sends, id), NotesOf(s.notes, id));
  }

  /** A sweep ends exactly the missions whose deadline has passed, and leaves the others alone. */
  lemma SweepEndsTheOverdue(s: State, ids: seq<nat>, now: int, id: nat)
    requires Enabled(s, Sweep(ids, now)) && id < |s.missions|
    ensures var m := SweepEnds(s, ids, now).missions[id];
      && (Overdue(s, id, now) ==> m.status == Stopped)
      && (!Overdue(s, id, now) ==> m == s.missions[id])
  {
    assert id in ids <==> Overdue(s, id, now);
    SweepReaches(s, ids, now, id);
  }

  // ---------------------------------------------------------------------
  // The service

  datatype StartError = AlreadyRunning

  class MissionService {
    var missions: seq<Mission>
    var sends: seq<Send>
    var notes: seq<Note>
    var reminders: seq<(nat, int)>

    ghost function View(): State
      reads this
    {
      State(missions, sends, notes, reminders)
    }

    constructor ()
      ensures View() == EMPTY
    {
      missions, sends, notes, reminders := [], [], [], [];
    }

    method FindFirst(conversation: string, user: Option<string>) returns (found: Option<nat>)
      ensures user.None? ==> Finds(View(), conversation, found)
      ensures user.Some? ==> FindsOwn(View(), user.value, conversation, found)
    {
      found := None;
      for id := 0 to |missions|
        invariant forall k: nat | k < id && Running(View(), conversation, k) ::
          user.Some? && missions[k].user != user.value
      {
        if missions[id].status == Active && missions[id].conversation == conversation
           && (user.None? || missions[id].user == user.value) {
          return Some(id);
        }
      }
    }

    method StartMission(input: StartInput, now: int) returns (r: Result<nat, StartError>)
      modifies this
      ensures r.Ok? <==> Finds(old(View()), input.conversation, None)
      ensures View() == if r.Ok? then Started(old(View()), input, now) else old(View())
      ensures r.Ok? ==>
        Enabled(old(View()), Start(input, now)) && View() == Next(old(View()), Start(input, now))
      ensures r.Ok? ==> r.value == |old(missions)|
    {
      var running := FindFirst(input.conversation, None);
      if running.Some? { return Err(AlreadyRunning); }
      r := Ok(|missions|);
      sends := sends + [Send(|missions|, input.openingMessage)];
      missions := missions + [NewMission(input, now)];
    }

    method Finish(id: nat, ending: Ending, notice: Option<string>, findings: Option<map<string, string>>,
        confirmedAt: Option<int>, now: int, booked: bool)
      requires id < |missions|
      modifies this
      ensures View() == Finished(old(View()), id, ending, notice, findings, confirmedAt, now, booked)
    {
      var m := missions[id];
      if m.status != Active { return; }
      var stored := if findings.Some? then findings.value else m.findings;
      var text;
      if notice.Some? {
        text := notice.value;
      } else if ending == Failed {
        text := STOPPED_NOTICE;
      } else {
        text := BuildReport(m.questions, stored);
      }
      var reminder: Option<int> := None;
      if ending == Completed && confirmedAt.Some? && confirmedAt.value > now && booked {
        reminder := confirmedAt;
        reminders := reminders + [(id, reminder.value)];
      }
      var report := Report(text, reminder);
      missions := missions[id := m.(
        status := if ending == Completed then Done else Stopped, report := Some(report), findings := stored,
        confirmedAt := if confirmedAt.Some? then confirmedAt else m.confirmedAt)];
      notes := notes + [Note(id, ending, report)];
    }

    method RunTurn(conversation: string, now: int, answer: Answer, booked: bool) returns (ghost found: Option<nat>)
      modifies this
      ensures Finds(old(View()), conversation, found)
      ensures View() == TurnEnds(old(View()), found, now, answer, booked)
      ensures View() == Next(old(View()), Turn(conversation, found, now, answer, booked))
    {
      var mission := FindFirst(conversation, None);
      found := mission;
      if mission.None? { return; }
      var id := mission.value;
      var m := missions[id];
      if m.deadlineAt < now || m.messagesSent >= m.maxMessages {
        Finish(id, LimitReached, None, None, None, now, booked);
        return;
      }
      match answer
      case NotConfigured =>
        Finish(id, Failed, Some(NOT_CONFIGURED_NOTICE), None, None, now, booked);
      case Unreadable =>
        Finish(id, Failed, Some(UNREADABLE_NOTICE), None, None, now, booked);
      case Said(turn) =>
        Conclude(id, turn, now, booked);
    }

    /** The rest of a turn, once the model has answered. */
    method Conclude(id: nat, turn: MissionTurn, now: int, booked: bool)
      requires id < |missions|
      modifies this
      ensures View() == SaidEnds(old(View()), id, turn, now, booked)
    {
      var m := missions[id];
      var findings := m.findings + turn.findings;
      if turn.reply != "" { sends := sends + [Send(id, turn.reply)]; }
      if turn.done {
        var notice := if turn.report.Some? then turn.report else Some(BuildReport(m.questions, findings));
        Finish(id, Completed, notice, Some(findings), turn.confirmedAt, now, booked);
        return;
      }
      var messagesSent := m.messagesSent + if turn.reply != "" then 1 else 0;
      missions := missions[id := m.(messagesSent := messagesSent, findings := findings)];
      if messagesSent >= m.maxMessages {
        Finish(id, LimitReached, None, Some(findings), None, now, booked);
      }
    }

    method CancelMission(user: string, conversation: string, now: int)
      returns (cancelled: bool, ghost found: Option<nat>)
      modifies this
      ensures FindsOwn(old(View()), user, conversation, found) && cancelled == found.Some?
      ensures View() == CancelEnds(old(View()), found, now)
      ensures View() == Next(old(View()), Cancel(user, conversation, found, now))
    {
      var mission := FindFirst(conversation, Some(user));
      found := mission;
      if mission.None? { return false, found; }
      Finish(mission.value, Cancelled, Some(CANCELLED_NOTICE), None, None, now, false);
      cancelled := true;
    }

    /** `overdue` is what the query for overdue missions answers. */
    method SweepOverdue(overdue: seq<nat>, now: int)
      requires Enabled(View(), Sweep(overdue, now))
      modifies this
      ensures View() == SweepEnds(old(View()), overdue, now)
      ensures View() == Next(old(View()), Sweep(overdue, now))
    {
      for i := 0 to |overdue|
        invariant View() == SweepEnds(old(View()), overdue[..i], now)
      {
        Finish(overdue[i], LimitReached, None, None, None, now, false);
        assert overdue[..i + 1][..i] == overdue[..i];
      }
      assert overdue[..|overdue|] == overdue;
    }
  }
}
