/**
 * Progressive conversation summaries. Any number of summarize calls run at once with new messages arriving, one await
 * at a time; a summary's last message is the watermark that splits history into what it covers and what is sent raw.
 */
module ConversationSummary {
  import opened Wrappers

  datatype Role = User | Assistant | System

  /** A message's id is its place in the table, in order of insertion; createdAt is whatever the clock said. */
  datatype Message = Message(role: Role, content: string, scope: string, interrupted: bool, createdAt: int)

  /** One query for new messages: how many were stored when it read, and the last one it answered. */
  datatype Query = Query(seen: nat, last: nat)

  /**
   * `covered` records whose words went into the text: the previous summary's, then the messages sent with it;
   * `queries` are the ones that found them.
   */
  datatype Summary = Summary(text: string, fromMessage: nat, toMessage: nat, messageCount: nat, covered: seq<nat>,
                             queries: seq<Query>)

  datatype Key = Key(scope: string, space: string)

  const DIRECT := "direct"

  predicate InScope(m: Message, scope: string) {
    m.scope == scope || m.scope == DIRECT
  }

  // ---------------------------------------------------------------------
  // Queries

  /** `since ? { createdAt: { gt: since } } : {}` */
  predicate Eligible(messages: seq<Message>, scope: string, summary: Option<Summary>, id: nat)
    requires summary.Some? ==> summary.value.toMessage < |messages|
  {
    && id < |messages| && InScope(messages[id], scope)
    && (summary.Some? ==> messages[id].createdAt > messages[summary.value.toMessage].createdAt)
  }

  ghost predicate InTimeOrder(messages: seq<Message>, ids: seq<nat>) {
    && (forall i | 0 <= i < |ids| :: ids[i] < |messages|)
    && (forall i, j | 0 <= i < j < |ids| :: messages[ids[i]].createdAt <= messages[ids[j]].createdAt)
  }

  ghost predicate Distinct(ids: seq<nat>) {
    forall i, j | 0 <= i < j < |ids| :: ids[i] != ids[j]
  }

  /** What the query for new messages may answer: each eligible message once, oldest first, equal times in any order. */
  ghost predicate Answers(messages: seq<Message>, scope: string, summary: Option<Summary>, ids: seq<nat>)
    requires summary.Some? ==> summary.value.toMessage < |messages|
  {
    && Distinct(ids) && InTimeOrder(messages, ids)
    && forall id: nat :: id in ids <==> Eligible(messages, scope, summary, id)
  }

  /** The row the upsert leaves. */
  function Extended(row: Option<Summary>, existing: Option<Summary>, ids: seq<nat>, seen: nat, text: string): Summary
    requires ids != []
  {
    var last := ids[|ids| - 1];
    var before := if existing.Some? then existing.value.messageCount else 0;
    var covered := (if existing.Some? then existing.value.covered else []) + ids;
    var queries := (if existing.Some? then existing.value.queries else []) + [Query(seen, last)];
    Summary(text, if row.Some? then row.value.fromMessage else ids[0], last, before + |ids|, covered, queries)
  }

  // ---------------------------------------------------------------------
  // The machine

  datatype Pc =
    | Reading
    | Reviewing(existing: Option<Summary>)
    | Composing(existing: Option<Summary>, ids: seq<nat>, seen: nat)
    | Done(answer: Option<Summary>)

  datatype Call = Call(key: Key, pc: Pc)

  datatype World = World(messages: seq<Message>, rows: map<Key, Summary>, calls: map<nat, Call>)

  datatype Event =
    | Append(message: Message)
    | Begin(call: nat, key: Key)
    | ReadRow(call: nat)
    | ReadMessages(call: nat, ids: seq<nat>)
    | Answer(call: nat, text: Option<string>)

  function Row(w: World, key: Key): Option<Summary> {
    if key in w.rows then Some(w.rows[key]) else None
  }

  ghost predicate Enabled(w: World, e: Event) {
    match e
    case Append(_) => true
    case Begin(call, _) => call !in w.calls
    case ReadRow(call) => call in w.calls && w.calls[call].pc == Reading
    case ReadMessages(call, ids) =>
      && call in w.calls && w.calls[call].pc.Reviewing?
      && var existing := w.calls[call].pc.existing;
        && (existing.Some? ==> existing.value.toMessage < |w.messages|)
        && Answers(w.messages, w.calls[call].key.scope, existing, ids)
    case Answer(call, _) => call in w.calls && w.calls[call].pc.Composing? && w.calls[call].pc.ids != []
  }

  function At(w: World, call: nat, pc: Pc): World
    requires call in w.calls
  {
    w.(calls := w.calls[call := w.calls[call].(pc := pc)])
  }

  function Next(w: World, e: Event): World
    requires Enabled(w, e)
  {
    match e
    case Append(m) => w.(messages := w.messages + [m])
    case Begin(call, key) => w.(calls := w.calls[call := Call(key, Reading)])
    case ReadRow(call) => At(w, call, Reviewing(Row(w, w.calls[call].key)))
    case ReadMessages(call, ids) =>
      var existing := w.calls[call].pc.existing;
      At(w, call, if ids == [] then Done(existing) else Composing(existing, ids, |w.messages|))
    case Answer(call, text) =>
      var c := w.calls[call];
      if text.None? then At(w, call, Done(c.pc.existing))
      else
        var row := Extended(Row(w, c.key), c.pc.existing, c.pc.ids, c.pc.seen, text.value);
        At(w.(rows := w.rows[c.key := row]), call, Done(Some(row)))
  }

  ghost predicate Run(w: World, events: seq<Event>, w': World)
    decreases |events|
  {
    if events == [] then w == w'
    else Enabled(w, events[0]) && Run(Next(w, events[0]), events[1..], w')
  }

  /** A run goes on with one more event. */
  lemma {:induction false} RunSnoc(w: World, events: seq<Event>, mid: World, e: Event)
    requires Run(w, events, mid) && Enabled(mid, e)
    ensures Run(w, events + [e], Next(mid, e))
    decreases |events|
  {
    var all := events + [e];
    if events == [] {
      assert all[0] == e && all[1..] == [];
    } else {
      assert all[0] == events[0] && all[1..] == events[1..] + [e];
      RunSnoc(Next(w, events[0]), events[1..], mid, e);
    }
  }

  // ---------------------------------------------------------------------
  // What always holds

  /** Messages of the scope, none after this instant. */
  ghost predicate Within(messages: seq<Message>, scope: string, ids: seq<nat>, instant: int) {
    forall i | 0 <= i < |ids| ::
      ids[i] < |messages| && InScope(messages[ids[i]], scope) && messages[ids[i]].createdAt <= instant
  }

  /** Messages of the scope, all after this instant. */
  ghost predicate After(messages: seq<Message>, ids: seq<nat>, instant: int) {
    forall i | 0 <= i < |ids| :: ids[i] < |messages| && messages[ids[i]].createdAt > instant
  }

  /** A summary counts what it covers, each message once, all of its scope and none after its watermark. */
  ghost predicate Sound(messages: seq<Message>, scope: string, s: Summary) {
    && s.toMessage < |messages| && s.covered != [] && s.covered[|s.covered| - 1] == s.toMessage
    && s.messageCount == |s.covered|
    && Distinct(s.covered) && InTimeOrder(messages, s.covered)
    && Within(messages, scope, s.covered, messages[s.toMessage].createdAt)
  }

  ghost predicate SoundCall(messages: seq<Message>, c: Call) {
    match c.pc
    case Reading => true
    case Reviewing(existing) => existing.Some? ==> Sound(messages, c.key.scope, existing.value)
    case Composing(existing, ids, _) =>
      && ids != [] && InTimeOrder(messages, ids) && Distinct(ids)
      && Within(messages, c.key.scope, ids, messages[ids[|ids| - 1]].createdAt)
      && (existing.Some? ==> (
           && Sound(messages, c.key.scope, existing.value)
           && After(messages, ids, messages[existing.value.toMessage].createdAt)))
    case Done(answer) => answer.Some? ==> Sound(messages, c.key.scope, answer.value)
  }

  ghost predicate SoundWorld(w: World) {
    && (forall key <- w.rows :: Sound(w.messages, key.scope, w.rows[key]))
    && (forall call <- w.calls :: SoundCall(w.messages, w.calls[call]))
  }

  lemma SoundStays(messages: seq<Message>, m: Message, scope: string, s: Summary)
    requires Sound(messages, scope, s)
    ensures Sound(messages + [m], scope, s)
  {}

  lemma SoundCallStays(messages: seq<Message>, m: Message, c: Call)
    requires SoundCall(messages, c)
    ensures SoundCall(messages + [m], c)
  {}

  /** Messages up to an instant, then messages after it. */
  lemma Appended(messages: seq<Message>, scope: string, a: seq<nat>, b: seq<nat>, instant: int, later: int)
    requires Distinct(a) && InTimeOrder(messages, a) && Within(messages, scope, a, instant)
    requires Distinct(b) && InTimeOrder(messages, b) && Within(messages, scope, b, later) && After(messages, b, instant)
    requires instant <= later
    ensures Distinct(a + b) && InTimeOrder(messages, a + b) && Within(messages, scope, a + b, later)
  {
    var all := a + b;
    forall i, j | 0 <= i < j < |all|
      ensures all[i] != all[j] && messages[all[i]].createdAt <= messages[all[j]].createdAt
    {
      if i >= |a| { assert all[i] == b[i - |a|]; }
      if j >= |a| { assert all[j] == b[j - |a|]; }
    }
  }

  lemma ExtendedIsSound(messages: seq<Message>, c: Call, row: Option<Summary>, text: string)
    requires SoundCall(messages, c) && c.pc.Composing?
    ensures Sound(messages, c.key.scope, Extended(row, c.pc.existing, c.pc.ids, c.pc.seen, text))
  {
    var ids, existing := c.pc.ids, c.pc.existing;
    var last := ids[|ids| - 1];
    var covered := Extended(row, existing, ids, c.pc.seen, text).covered;
    assert covered[|covered| - 1] == last;
    if existing.Some? {
      Appended(messages, c.key.scope, existing.value.covered, ids,
               messages[existing.value.toMessage].createdAt, messages[last].createdAt);
    } else {
      assert [] + ids == ids;
    }
  }

  /** What the query for new messages answers can be composed. */
  lemma AnswerIsSound(messages: seq<Message>, scope: string, existing: Option<Summary>, ids: seq<nat>)
    requires (existing.Some? ==> existing.value.toMessage < |messages|) && Answers(messages, scope, existing, ids)
      && ids != []
    ensures Within(messages, scope, ids, messages[ids[|ids| - 1]].createdAt)
    ensures existing.Some? ==> After(messages, ids, messages[existing.value.toMessage].createdAt)
  {
    forall i | 0 <= i < |ids| ensures Eligible(messages, scope, existing, ids[i]) { assert ids[i] in ids; }
  }

  lemma AppendKeepsSound(w: World, m: Message)
    requires SoundWorld(w)
    ensures SoundWorld(Next(w, Append(m)))
  {
    forall key | key in w.rows ensures Sound(w.messages + [m], key.scope, w.rows[key]) {
      SoundStays(w.messages, m, key.scope, w.rows[key]);
    }
    forall call | call in w.calls ensures SoundCall(w.messages + [m], w.calls[call]) {
      SoundCallStays(w.messages, m, w.calls[call]);
    }
  }

  /** A call moves on to what holds of it. */
  lemma CallMoves(w: World, call: nat, pc: Pc)
    requires SoundWorld(w) && call in w.calls && SoundCall(w.messages, w.calls[call].(pc := pc))
    ensures SoundWorld(At(w, call, pc))
  {}

  /** What the step of a call leaves of it. */
  lemma CallStepIsSound(w: World, e: Event)
    requires SoundWorld(w) && Enabled(w, e) && (e.ReadRow? || e.ReadMessages?)
    ensures SoundCall(w.messages, Next(w, e).calls[e.call])
  {
    assert SoundCall(w.messages, w.calls[e.call]);
    if e.ReadMessages? && e.ids != [] {
      AnswerIsSound(w.messages, w.calls[e.call].key.scope, w.calls[e.call].pc.existing, e.ids);
    }
  }

  lemma AnswerKeepsSound(w: World, call: nat, text: Option<string>)
    requires SoundWorld(w) && Enabled(w, Answer(call, text))
    ensures SoundWorld(Next(w, Answer(call, text)))
  {
    var c := w.calls[call];
    assert SoundCall(w.messages, c);
    if text.None? {
      CallMoves(w, call, Done(c.pc.existing));
    } else {
      var row := Extended(Row(w, c.key), c.pc.existing, c.pc.ids, c.pc.seen, text.value);
      ExtendedIsSound(w.messages, c, Row(w, c.key), text.value);
      CallMoves(w.(rows := w.rows[c.key := row]), call, Done(Some(row)));
    }
  }

  lemma StepKeepsSound(w: World, e: Event)
    requires SoundWorld(w) && Enabled(w, e)
    ensures SoundWorld(Next(w, e))
  {
    match e
    case Append(m) => AppendKeepsSound(w, m);
    case Begin(call, key) =>
    case ReadRow(call) =>
      CallStepIsSound(w, e);
      CallMoves(w, call, Next(w, e).calls[call].pc);
    case ReadMessages(call, ids) =>
      CallStepIsSound(w, e);
      CallMoves(w, call, Next(w, e).calls[call].pc);
    case Answer(call, text) => AnswerKeepsSound(w, call, text);
  }

  ghost predicate Fresh(w: World) {
    w.rows == map[] && w.calls == map[]
  }

  lemma {:induction false} RunKeepsSound(w: World, events: seq<Event>, w': World)
    requires SoundWorld(w) && Run(w, events, w')
    ensures SoundWorld(w') && w.messages <= w'.messages
    decreases |events|
  {
    if events != [] {
      StepKeepsSound(w, events[0]);
      RunKeepsSound(Next(w, events[0]), events[1..], w');
    }
  }

  /**
   * In every run, whatever the clock: a summary counts exactly the messages it covers, covers none twice, only those
   * of its scope, and none that history would send again.
   */
  lemma NothingIsCoveredTwice(w: World, events: seq<Event>, w': World, key: Key)
    requires Fresh(w) && Run(w, events, w') && key in w'.rows
    ensures var s := w'.rows[key];
      && s.toMessage < |w'.messages| && s.messageCount == |s.covered| && Distinct(s.covered)
      && forall id <- s.covered :: id < |w'.messages| && InScope(w'.messages[id], key.scope)
                                   && !Eligible(w'.messages, key.scope, Some(s), id)
  {
    RunKeepsSound(w, events, w');
    var s := w'.rows[key];
    forall id | id in s.covered
      ensures id < |w'.messages| && InScope(w'.messages[id], key.scope)
        && !Eligible(w'.messages, key.scope, Some(s), id)
    {
      var k :| 0 <= k < |s.covered| && s.covered[k] == id;
    }
  }

  // ---------------------------------------------------------------------
  // What holds when times strictly increase

  ghost predicate StrictTimes(messages: seq<Message>) {
    forall i, j | 0 <= i < j < |messages| :: messages[i].createdAt < messages[j].createdAt
  }

  ghost predicate Increasing(ids: seq<nat>) {
    forall i, j | 0 <= i < j < |ids| :: ids[i] < ids[j]
  }

  /** The ids in scope below `n`, in order. */
  function UpTo(messages: seq<Message>, scope: string, n: nat): seq<nat>
    requires n <= |messages|
  {
    if n == 0 then []
    else UpTo(messages, scope, n - 1) + if InScope(messages[n - 1], scope) then [n - 1] else []
  }

  lemma {:induction false} UpToHolds(messages: seq<Message>, scope: string, n: nat)
    requires n <= |messages|
    ensures Increasing(UpTo(messages, scope, n))
    ensures forall id: nat :: id in UpTo(messages, scope, n) <==> id < n && InScope(messages[id], scope)
  {
    if n > 0 {
      UpToHolds(messages, scope, n - 1);
      var init := UpTo(messages, scope, n - 1);
      forall i | 0 <= i < |init| ensures init[i] < n - 1 { assert init[i] in init; }
    }
  }

  lemma HeadsAgree(a: seq<nat>, b: seq<nat>)
    requires Increasing(a) && Increasing(b) && a != [] && b != []
    requires a[0] in b && b[0] in a
    ensures a[0] == b[0]
  {
    var i :| 0 <= i < |b| && b[i] == a[0];
    var j :| 0 <= j < |a| && a[j] == b[0];
    assert b[0] <= b[i] && a[0] <= a[j];
  }

  lemma TailMembers(ids: seq<nat>, x: nat)
    requires Increasing(ids) && ids != []
    ensures x in ids[1..] <==> x in ids && x != ids[0]
  {
    if x in ids && x != ids[0] {
      var i :| 0 <= i < |ids| && ids[i] == x;
      assert ids[1..][i - 1] == x;
    }
  }

  lemma SomeMember(ids: seq<nat>)
    requires ids != []
    ensures exists x: nat :: x in ids
  {
    assert ids[0] in ids;
  }

  lemma {:induction false} IncreasingIsUnique(a: seq<nat>, b: seq<nat>)
    requires Increasing(a) && Increasing(b) && forall x: nat :: x in a <==> x in b
    ensures a == b
    decreases |a|
  {
    if a == [] || b == [] {
      if a != [] { SomeMember(a); }
      if b != [] { SomeMember(b); }
    } else {
      HeadsAgree(a, b);
      forall x: nat ensures x in a[1..] <==> x in b[1..] {
        TailMembers(a, x);
        TailMembers(b, x);
      }
      IncreasingIsUnique(a[1..], b[1..]);
      assert a == [a[0]] + a[1..] == [b[0]] + b[1..] == b;
    }
  }

  /** A summary covers everything in its scope up to its watermark, and starts at the first of them. */
  ghost predicate Exact(messages: seq<Message>, scope: string, s: Summary) {
    && s.toMessage < |messages| && Increasing(s.covered)
    && (forall id: nat :: id in s.covered <==> id <= s.toMessage && InScope(messages[id], scope))
    && s.fromMessage in s.covered && forall id <- s.covered :: s.fromMessage <= id
  }

  /** The messages on their way to the model are the next ones in scope. */
  ghost predicate ExactIds(messages: seq<Message>, scope: string, existing: Option<Summary>, ids: seq<nat>) {
    && ids != [] && Increasing(ids) && ids[|ids| - 1] < |messages|
    && forall id: nat :: id in ids <==> (
         && id <= ids[|ids| - 1] && InScope(messages[id], scope)
         && (existing.Some? ==> existing.value.toMessage < id))
  }

  ghost predicate ExactCall(messages: seq<Message>, c: Call) {
    match c.pc
    case Reading => true
    case Reviewing(existing) => existing.Some? ==> Exact(messages, c.key.scope, existing.value)
    case Composing(existing, ids, _) =>
      && ExactIds(messages, c.key.scope, existing, ids)
      && (existing.Some? ==> Exact(messages, c.key.scope, existing.value))
    case Done(answer) => answer.Some? ==> Exact(messages, c.key.scope, answer.value)
  }

  /** A row was read; rows are never deleted. */
  predicate HasRow(c: Call) {
    (c.pc.Reviewing? || c.pc.Composing?) && c.pc.existing.Some?
  }

  ghost predicate ExactWorld(w: World) {
    && (forall key <- w.rows :: Exact(w.messages, key.scope, w.rows[key]))
    && (forall call <- w.calls :: ExactCall(w.messages, w.calls[call]))
    && (forall call <- w.calls :: HasRow(w.calls[call]) ==> w.calls[call].key in w.rows)
  }

  lemma ExactStays(messages: seq<Message>, m: Message, scope: string, s: Summary)
    requires Exact(messages, scope, s)
    ensures Exact(messages + [m], scope, s)
  {}

  lemma ExactCallStays(messages: seq<Message>, m: Message, c: Call)
    requires ExactCall(messages, c)
    ensures ExactCall(messages + [m], c)
  {}

  /** In strict time the query for new messages has one answer: the ids after the watermark, in order. */
  lemma AnswerIsExact(messages: seq<Message>, scope: string, existing: Option<Summary>, ids: seq<nat>)
    requires StrictTimes(messages) && ids != []
    requires existing.Some? ==> existing.value.toMessage < |messages|
    requires Answers(messages, scope, existing, ids)
    ensures ExactIds(messages, scope, existing, ids)
  {
    forall i, j | 0 <= i < j < |ids| ensures ids[i] < ids[j] {
      assert messages[ids[i]].createdAt <= messages[ids[j]].createdAt && ids[i] != ids[j];
    }
    forall id | id in ids ensures id <= ids[|ids| - 1] {
      var k :| 0 <= k < |ids| && ids[k] == id;
    }
  }

  lemma ExtendedIsExact(messages: seq<Message>, c: Call, row: Option<Summary>, text: string)
    requires ExactCall(messages, c) && c.pc.Composing?
    requires row.Some? ==> Exact(messages, c.key.scope, row.value)
    requires c.pc.existing.Some? ==> row.Some?
    ensures Exact(messages, c.key.scope, Extended(row, c.pc.existing, c.pc.ids, c.pc.seen, text))
  {
    var scope, ids, existing := c.key.scope, c.pc.ids, c.pc.existing;
    var s := Extended(row, existing, ids, c.pc.seen, text);
    var last := ids[|ids| - 1];
    assert last in ids;
    if existing.Some? {
      forall k | 0 <= k < |existing.value.covered| ensures existing.value.covered[k] <= existing.value.toMessage {
        assert existing.value.covered[k] in existing.value.covered;
      }
      forall k | 0 <= k < |ids| ensures existing.value.toMessage < ids[k] {
        assert ids[k] in ids;
      }
    }
    assert Increasing(s.covered);
    FirstIsLeast(s.covered);
    if row.Some? {
      var from := row.value.fromMessage;
      assert forall id: nat :: id <= last && InScope(messages[id], scope) <==> id in s.covered;
      forall id | id in s.covered ensures from <= id {
        if id <= row.value.toMessage { assert id in row.value.covered; }
      }
      assert s.covered[0] in s.covered;
    }
  }

  lemma FirstIsLeast(ids: seq<nat>)
    requires ids != [] && Increasing(ids)
    ensures ids[0] in ids && forall id <- ids :: ids[0] <= id
  {}

  lemma AppendKeepsExact(w: World, m: Message)
    requires ExactWorld(w)
    ensures ExactWorld(Next(w, Append(m)))
  {
    forall key | key in w.rows ensures Exact(w.messages + [m], key.scope, w.rows[key]) {
      ExactStays(w.messages, m, key.scope, w.rows[key]);
    }
    forall call | call in w.calls ensures ExactCall(w.messages + [m], w.calls[call]) {
      ExactCallStays(w.messages, m, w.calls[call]);
    }
  }

  lemma ExactCallMoves(w: World, call: nat, pc: Pc)
    requires ExactWorld(w) && call in w.calls && ExactCall(w.messages, w.calls[call].(pc := pc))
    requires HasRow(w.calls[call].(pc := pc)) ==> w.calls[call].key in w.rows
    ensures ExactWorld(At(w, call, pc))
  {}

  lemma CallStepIsExact(w: World, e: Event)
    requires ExactWorld(w) && Enabled(w, e) && StrictTimes(w.messages) && (e.ReadRow? || e.ReadMessages?)
    ensures var c := Next(w, e).calls[e.call]; ExactCall(w.messages, c) && (HasRow(c) ==> c.key in w.rows)
  {
    assert ExactCall(w.messages, w.calls[e.call]);
    if e.ReadMessages? && e.ids != [] {
      AnswerIsExact(w.messages, w.calls[e.call].key.scope, w.calls[e.call].pc.existing, e.ids);
    }
  }

  lemma AnswerKeepsExact(w: World, call: nat, text: Option<string>)
    requires ExactWorld(w) && Enabled(w, Answer(call, text))
    ensures ExactWorld(Next(w, Answer(call, text)))
  {
    var c := w.calls[call];
    assert ExactCall(w.messages, c);
    if text.None? {
      ExactCallMoves(w, call, Done(c.pc.existing));
    } else {
      var row := Extended(Row(w, c.key), c.pc.existing, c.pc.ids, c.pc.seen, text.value);
      ExtendedIsExact(w.messages, c, Row(w, c.key), text.value);
      ExactCallMoves(w.(rows := w.rows[c.key := row]), call, Done(Some(row)));
    }
  }

  lemma StepKeepsExact(w: World, e: Event)
    requires ExactWorld(w) && Enabled(w, e) && StrictTimes(w.messages)
    ensures ExactWorld(Next(w, e))
  {
    match e
    case Append(m) => AppendKeepsExact(w, m);
    case Begin(call, key) =>
    case ReadRow(call) =>
      CallStepIsExact(w, e);
      ExactCallMoves(w, call, Next(w, e).calls[call].pc);
    case ReadMessages(call, ids) =>
      CallStepIsExact(w, e);
      ExactCallMoves(w, call, Next(w, e).calls[call].pc);
    case Answer(call, text) => AnswerKeepsExact(w, call, text);
  }

  lemma {:induction false} RunGrows(w: World, events: seq<Event>, w': World)
    requires Run(w, events, w')
    ensures w.messages <= w'.messages
    decreases |events|
  {
    if events != [] { RunGrows(Next(w, events[0]), events[1..], w'); }
  }

  lemma {:induction false} RunKeepsExact(w: World, events: seq<Event>, w': World)
    requires ExactWorld(w) && Run(w, events, w') && StrictTimes(w'.messages)
    ensures ExactWorld(w') && w.messages <= w'.messages
    decreases |events|
  {
    RunGrows(w, events, w');
    if events != [] {
      StepKeepsExact(w, events[0]);
      RunKeepsExact(Next(w, events[0]), events[1..], w');
    }
  }

  /**
   * With strictly increasing times a summary counts exactly the messages
   * of its scope up to its watermark, and covers those in order.
   */
  lemma CountIsExact(w: World, events: seq<Event>, w': World, key: Key)
    requires Fresh(w) && Run(w, events, w') && StrictTimes(w'.messages) && key in w'.rows
    ensures var s := w'.rows[key];
      && s.toMessage < |w'.messages|
      && s.covered == UpTo(w'.messages, key.scope, s.toMessage + 1)
      && s.messageCount == |s.covered|
      && 0 < |s.covered| && s.fromMessage == s.covered[0]
  {
    RunKeepsExact(w, events, w');
    RunKeepsSound(w, events, w');
    var s := w'.rows[key];
    UpToHolds(w'.messages, key.scope, s.toMessage + 1);
    IncreasingIsUnique(s.covered, UpTo(w'.messages, key.scope, s.toMessage + 1));
    FirstIsLeast(s.covered);
  }

  /**
   * A summary read at any moment still splits history exactly when messages have arrived since: each message of its
   * scope is covered, or is sent raw, never both and never neither.
   */
  lemma WatermarkPartitionsHistory(w: World, before: seq<Event>, read: World, after: seq<Event>, now: World, key: Key,
                                   id: nat)
    requires Fresh(w) && Run(w, before, read) && Run(read, after, now) && StrictTimes(now.messages)
    requires key in read.rows && id < |now.messages| && InScope(now.messages[id], key.scope)
    ensures read.rows[key].toMessage < |now.messages|
    ensures id in read.rows[key].covered <==> !Eligible(now.messages, key.scope, Some(read.rows[key]), id)
  {
    RunGrows(read, after, now);
    assert StrictTimes(read.messages);
    RunKeepsExact(w, before, read);
    var s := read.rows[key];
    assert Exact(read.messages, key.scope, s);
    if id <= s.toMessage {
      assert now.messages[id] == read.messages[id];
    }
  }

  // ---------------------------------------------------------------------
  // When times are equal

  /** In nobody's sight: neither in the summary nor in the history sent beside it. */
  ghost predicate Lost(messages: seq<Message>, scope: string, s: Summary, id: nat)
    requires s.toMessage < |messages|
  {
    id < |messages| && InScope(messages[id], scope) && id !in s.covered && !Eligible(messages, scope, Some(s), id)
  }

  /** A message that arrives after a summary is lost exactly when the clock puts it no later than the watermark. */
  lemma LateMessageIsLostIff(messages: seq<Message>, m: Message, scope: string, s: Summary)
    requires Sound(messages, scope, s) && InScope(m, scope)
    ensures Lost(messages + [m], scope, s, |messages|) <==> m.createdAt <= messages[s.toMessage].createdAt
  {
    assert forall id <- s.covered :: id < |messages|;
  }

  /** One message, summarised. */
  lemma SummaryOfOne(m: Message, key: Key) returns (start: World, events: seq<Event>, w: World)
    requires InScope(m, key.scope)
    ensures Fresh(start) && Run(start, events, w) && w.messages == [m]
    ensures key in w.rows && w.rows[key].toMessage == 0 && w.rows[key].covered == [0]
  {
    start := World([], map[], map[]);
    var w1 := Next(start, Append(m));
    assert Answers(w1.messages, key.scope, None, [0]);
    var rest;
    rest, w := LoneCallIsARun(w1, 0, key, [0], Some("resume"));
    events := [Append(m)] + rest;
    assert events[1..] == rest;
    assert [] + [0] == [0];
  }

  /** It happens: two messages in the same millisecond, a summary between them. */
  lemma EqualTimesLoseAMessage() returns (w: World, key: Key)
    ensures exists start, events :: Fresh(start) && Run(start, events, w)
    ensures key in w.rows && w.rows[key].toMessage < |w.messages| && Lost(w.messages, key.scope, w.rows[key], 1)
  {
    key := Key("personal", "personal");
    var m := Message(User, "bonjour", "personal", false, 5);
    var start, events, between := SummaryOfOne(m, key);
    RunSnoc(start, events, between, Append(m));
    w := Next(between, Append(m));
    assert Fresh(start) && Run(start, events + [Append(m)], w);
  }

  // ---------------------------------------------------------------------
  // Raw history and the threshold

  /** What getScopedHistory reads: the newest `limit` of an answer, oldest first. */
  ghost predicate Newest(messages: seq<Message>, scope: string, summary: Option<Summary>, limit: nat, ids: seq<nat>,
                         all: seq<nat>)
    requires summary.Some? ==> summary.value.toMessage < |messages|
  {
    Answers(messages, scope, summary, all) && ids == if |all| <= limit then all else all[|all| - limit..]
  }

  predicate Shown(m: Message) {
    m.role != System && !(m.role == Assistant && m.interrupted)
  }

  function Filtered(messages: seq<Message>, ids: seq<nat>): (r: seq<nat>)
    requires forall i | 0 <= i < |ids| :: ids[i] < |messages|
    ensures forall id: nat :: id in r <==> id in ids && Shown(messages[id])
  {
    if ids == [] then []
    else (if Shown(messages[ids[0]]) then [ids[0]] else []) + Filtered(messages, ids[1..])
  }

  /** Where a message of the query's answer stands in what is read. */
  lemma ReadOrCutOff(messages: seq<Message>, scope: string, summary: Option<Summary>, limit: nat, ids: seq<nat>,
                     all: seq<nat>, k: nat)
    requires summary.Some? ==> summary.value.toMessage < |messages|
    requires Newest(messages, scope, summary, limit, ids, all) && k < |all|
    ensures all[k] in ids <==> k >= |all| - limit
  {
    var cut := if |all| <= limit then 0 else |all| - limit;
    assert forall j | 0 <= j < |ids| :: ids[j] == all[cut + j];
    if k >= cut { assert ids[k - cut] == all[k]; }
  }

  /** Every shown message of the scope is in the summary or in the history beside it. */
  ghost predicate NothingMissing(messages: seq<Message>, scope: string, s: Summary, ids: seq<nat>) {
    forall id: nat | id < |messages| && InScope(messages[id], scope) && Shown(messages[id]) ::
      id in s.covered || id in ids
  }

  lemma AnswersAreUncovered(messages: seq<Message>, scope: string, s: Summary, all: seq<nat>, id: nat)
    requires Exact(messages, scope, s) && StrictTimes(messages) && Answers(messages, scope, Some(s), all)
    ensures id in all <==> id < |messages| && InScope(messages[id], scope) && id !in s.covered
  {
    assert id in all <==> Eligible(messages, scope, Some(s), id);
    assert id in s.covered <==> id <= s.toMessage && InScope(messages[id], scope);
  }

  lemma ReadIsAnswered(messages: seq<Message>, scope: string, summary: Option<Summary>, limit: nat, ids: seq<nat>,
                       all: seq<nat>, id: nat)
    requires summary.Some? ==> summary.value.toMessage < |messages|
    requires Newest(messages, scope, summary, limit, ids, all) && id in ids
    ensures id in all
  {
    var cut := if |all| <= limit then 0 else |all| - limit;
    assert ids == all[cut..];
  }

  /** Raw history never repeats the summary. */
  lemma HistoryIsUncovered(messages: seq<Message>, scope: string, s: Summary, limit: nat, ids: seq<nat>, all: seq<nat>,
                           id: nat)
    requires Exact(messages, scope, s) && StrictTimes(messages) && Newest(messages, scope, Some(s), limit, ids, all)
    requires id in Filtered(messages, ids)
    ensures id < |messages| && id !in s.covered
  {
    ReadIsAnswered(messages, scope, Some(s), limit, ids, all, id);
    AnswersAreUncovered(messages, scope, s, all, id);
  }

  lemma CutOffIsMissing(messages: seq<Message>, scope: string, s: Summary, limit: nat, ids: seq<nat>, all: seq<nat>,
                        k: nat)
    requires Exact(messages, scope, s) && StrictTimes(messages) && Newest(messages, scope, Some(s), limit, ids, all)
    requires k < |all| - limit && Shown(messages[all[k]])
    ensures !NothingMissing(messages, scope, s, Filtered(messages, ids))
  {
    ReadOrCutOff(messages, scope, Some(s), limit, ids, all, k);
    assert all[k] in all;
    AnswersAreUncovered(messages, scope, s, all, all[k]);
  }

  lemma NoCutOffMissesNothing(messages: seq<Message>, scope: string, s: Summary, limit: nat, ids: seq<nat>,
                              all: seq<nat>)
    requires Exact(messages, scope, s) && StrictTimes(messages) && Newest(messages, scope, Some(s), limit, ids, all)
    requires forall k | 0 <= k < |all| - limit :: !Shown(messages[all[k]])
    ensures NothingMissing(messages, scope, s, Filtered(messages, ids))
  {
    forall id: nat | id < |messages| && InScope(messages[id], scope) && Shown(messages[id])
      ensures id in s.covered || id in Filtered(messages, ids)
    {
      AnswersAreUncovered(messages, scope, s, all, id);
      if id !in s.covered {
        var k :| 0 <= k < |all| && all[k] == id;
        ReadOrCutOff(messages, scope, Some(s), limit, ids, all, k);
      }
    }
  }

  /** Summary and raw history together show everything exactly when the limit cuts off nothing shown. */
  lemma HistoryCompletesSummary(messages: seq<Message>, scope: string, s: Summary, limit: nat, ids: seq<nat>,
                                all: seq<nat>)
    requires Exact(messages, scope, s) && StrictTimes(messages) && Newest(messages, scope, Some(s), limit, ids, all)
    ensures NothingMissing(messages, scope, s, Filtered(messages, ids))
       <==> forall k | 0 <= k < |all| - limit :: !Shown(messages[all[k]])
  {
    if k :| 0 <= k < |all| - limit && Shown(messages[all[k]]) {
      CutOffIsMissing(messages, scope, s, limit, ids, all, k);
    } else {
      NoCutOffMissesNothing(messages, scope, s, limit, ids, all);
    }
  }

  /** The count query of shouldSummarize, over the first `n` messages. */
  function CountEligible(messages: seq<Message>, scope: string, summary: Option<Summary>, n: nat): nat
    requires n <= |messages| && (summary.Some? ==> summary.value.toMessage < |messages|)
  {
    if n == 0 then 0
    else CountEligible(messages, scope, summary, n - 1) + if Eligible(messages, scope, summary, n - 1) then 1 else 0
  }

  predicate ShouldSummarize(messages: seq<Message>, scope: string, summary: Option<Summary>, threshold: nat)
    requires summary.Some? ==> summary.value.toMessage < |messages|
  {
    CountEligible(messages, scope, summary, |messages|) >= threshold
  }

  lemma {:induction false} EligibleIsWhatIsLeft(messages: seq<Message>, scope: string, s: Summary, n: nat)
    requires s.toMessage < |messages| && StrictTimes(messages) && n <= |messages|
    ensures CountEligible(messages, scope, Some(s), n)
         == |UpTo(messages, scope, n)| - |UpTo(messages, scope, if n <= s.toMessage + 1 then n else s.toMessage + 1)|
  {
    if n > 0 { EligibleIsWhatIsLeft(messages, scope, s, n - 1); }
  }

  /** A new summary is due exactly when the conversation has outgrown the last one's count by the threshold. */
  lemma ThresholdCountsUncovered(messages: seq<Message>, scope: string, s: Summary, threshold: nat)
    requires StrictTimes(messages) && Sound(messages, scope, s) && Exact(messages, scope, s)
    ensures ShouldSummarize(messages, scope, Some(s), threshold)
       <==> |UpTo(messages, scope, |messages|)| >= s.messageCount + threshold
  {
    EligibleIsWhatIsLeft(messages, scope, s, |messages|);
    UpToHolds(messages, scope, s.toMessage + 1);
    IncreasingIsUnique(s.covered, UpTo(messages, scope, s.toMessage + 1));
  }

  // ---------------------------------------------------------------------
  // One call on its own

  function RowAfter(row: Option<Summary>, ids: seq<nat>, seen: nat, reply: Option<string>): Option<Summary> {
    if ids == [] || reply.None? then row else Some(Extended(row, row, ids, seen, reply.value))
  }

  /** The tables a lone call reads and writes. */
  class Conversation {
    var messages: seq<Message>
    var rows: map<Key, Summary>

    constructor ()
      ensures messages == [] && rows == map[]
    {
      messages, rows := [], map[];
    }

    ghost function View(): World
      reads this
    {
      World(messages, rows, map[])
    }

    method AddMessage(m: Message)
      modifies this
      ensures View() == Next(old(View()), Append(m))
      ensures messages == old(messages) + [m] && rows == old(rows)
    {
      messages := messages + [m];
    }

    /**
     * `ids` is what the query for new messages answers and `reply` what the model does, None when none is configured.
     */
    method Summarize(key: Key, ids: seq<nat>, reply: Option<string>) returns (answer: Option<Summary>)
      requires key in rows ==> rows[key].toMessage < |messages|
      requires Answers(messages, key.scope, Row(View(), key), ids)
      modifies this
      ensures messages == old(messages)
      ensures answer == RowAfter(old(Row(View(), key)), ids, |messages|, reply)
      ensures rows == if answer.Some? then old(rows)[key := answer.value] else old(rows)
    {
      var existing := if key in rows then Some(rows[key]) else None;
      if |ids| == 0 {
        assert existing.Some? ==> rows == rows[key := existing.value];
        return existing;
      }
      if reply.None? {
        assert existing.Some? ==> rows == rows[key := existing.value];
        return existing;
      }
      var last := ids[|ids| - 1];
      var messageCount := (if existing.Some? then existing.value.messageCount else 0) + |ids|;
      var covered := (if existing.Some? then existing.value.covered else []) + ids;
      var queries := (if existing.Some? then existing.value.queries else []) + [Query(|messages|, last)];
      if key in rows {
        rows := rows[key := rows[key].(text := reply.value, toMessage := last, messageCount := messageCount,
                                       covered := covered, queries := queries)];
      } else {
        rows := rows[key := Summary(reply.value, ids[0], last, messageCount, covered, queries)];
      }
      answer := Some(rows[key]);
    }
  }

  /** What a lone call leaves is where a run of the machine ends. */
  lemma LoneCallIsARun(w: World, call: nat, key: Key, ids: seq<nat>, reply: Option<string>)
    returns (events: seq<Event>, w': World)
    requires call !in w.calls && SoundWorld(w)
    requires key in w.rows ==> w.rows[key].toMessage < |w.messages|
    requires Answers(w.messages, key.scope, Row(w, key), ids)
    ensures Run(w, events, w') && w'.messages == w.messages
    ensures var answer := RowAfter(Row(w, key), ids, |w.messages|, reply);
      && w'.rows == (if answer.Some? then w.rows[key := answer.value] else w.rows)
      && call in w'.calls && w'.calls[call] == Call(key, Done(answer))
  {
    var w1 := Next(w, Begin(call, key));
    RunSnoc(w, [], w, Begin(call, key));
    RunSnoc(w, [] + [Begin(call, key)], w1, ReadRow(call));
    var w2 := Next(w1, ReadRow(call));
    var row := Row(w, key);
    assert w2 == World(w.messages, w.rows, w.calls[call := Call(key, Reviewing(row))]);
    if key in w.rows { assert w.rows[key := w.rows[key]] == w.rows; }
    events, w' := ReadingEnds(w, [] + [Begin(call, key)] + [ReadRow(call)], w2, call, key, row, ids, reply);
  }

  /** The rest of a lone call that has read its row. */
  lemma ReadingEnds(start: World, before: seq<Event>, w: World, call: nat, key: Key, row: Option<Summary>,
                    ids: seq<nat>, reply: Option<string>)
    returns (events: seq<Event>, w': World)
    requires Run(start, before, w) && call in w.calls && w.calls[call] == Call(key, Reviewing(row))
      && row == Row(w, key)
    requires (row.Some? ==> row.value.toMessage < |w.messages|) && Answers(w.messages, key.scope, row, ids)
    ensures Run(start, events, w') && w'.messages == w.messages
    ensures var answer := RowAfter(row, ids, |w.messages|, reply);
      && w'.rows == (if ids != [] && reply.Some? then w.rows[key := answer.value] else w.rows)
      && call in w'.calls && w'.calls[call] == Call(key, Done(answer))
  {
    var read := ReadMessages(call, ids);
    RunSnoc(start, before, w, read);
    events, w' := before + [read], Next(w, read);
    if ids != [] {
      RunSnoc(start, events, w', Answer(call, reply));
      events, w' := events + [Answer(call, reply)], Next(w', Answer(call, reply));
    }
  }
}
