/**
 * What summaries lose, whatever the clock says: a message is in nobody's sight exactly when it was stored too late for
 * the first query whose watermark reached its time.
 */
module ConversationLosses {
  import opened Wrappers
  import opened ConversationSummary

  function Reach(messages: seq<Message>, q: Query): int
    requires q.last < |messages|
  {
    messages[q.last].createdAt
  }

  ghost predicate InTable(messages: seq<Message>, queries: seq<Query>) {
    forall k | 0 <= k < |queries| :: queries[k].last < queries[k].seen <= |messages|
  }

  /** Each query reached further than those before it. */
  ghost predicate Advancing(messages: seq<Message>, queries: seq<Query>)
    requires InTable(messages, queries)
  {
    forall j, k | 0 <= j < k < |queries| :: Reach(messages, queries[j]) < Reach(messages, queries[k])
  }

  /** The k-th query is the first to reach this instant. */
  ghost predicate FirstReaches(messages: seq<Message>, queries: seq<Query>, k: nat, instant: int)
    requires InTable(messages, queries)
  {
    && k < |queries| && instant <= Reach(messages, queries[k])
    && forall j | 0 <= j < k :: Reach(messages, queries[j]) < instant
  }

  /** The first query to reach its time found the message stored. */
  ghost predicate InTimeFor(messages: seq<Message>, queries: seq<Query>, id: nat)
    requires InTable(messages, queries) && id < |messages|
  {
    exists k: nat :: FirstReaches(messages, queries, k, messages[id].createdAt) && id < queries[k].seen
  }

  /** What is covered is what was in time. */
  ghost predicate CoversInTime(messages: seq<Message>, scope: string, queries: seq<Query>, covered: seq<nat>)
    requires InTable(messages, queries)
  {
    && (forall id <- covered :: id < |messages|)
    && forall id: nat | id < |messages| ::
         id in covered <==> InScope(messages[id], scope) && InTimeFor(messages, queries, id)
  }

  ghost predicate Traced(messages: seq<Message>, scope: string, s: Summary) {
    && s.queries != [] && s.queries[|s.queries| - 1].last == s.toMessage
    && InTable(messages, s.queries) && Advancing(messages, s.queries)
    && CoversInTime(messages, scope, s.queries, s.covered)
  }

  /** What the query for new messages answered when `seen` messages were stored. */
  ghost predicate Asked(messages: seq<Message>, scope: string, existing: Option<Summary>, ids: seq<nat>, seen: nat) {
    && ids != [] && seen <= |messages| && (existing.Some? ==> existing.value.toMessage < |messages|)
    && ids[|ids| - 1] < |messages|
    && (forall id <- ids :: id < seen && messages[id].createdAt <= messages[ids[|ids| - 1]].createdAt)
    && forall id: nat | id < seen :: id in ids <==> Eligible(messages, scope, existing, id)
  }

  ghost predicate TracedCall(messages: seq<Message>, c: Call) {
    match c.pc
    case Reading => true
    case Reviewing(existing) => existing.Some? ==> Traced(messages, c.key.scope, existing.value)
    case Composing(existing, ids, seen) =>
      && (existing.Some? ==> Traced(messages, c.key.scope, existing.value))
      && Asked(messages, c.key.scope, existing, ids, seen)
    case Done(answer) => answer.Some? ==> Traced(messages, c.key.scope, answer.value)
  }

  ghost predicate TracedWorld(w: World) {
    && (forall key <- w.rows :: Traced(w.messages, key.scope, w.rows[key]))
    && (forall call <- w.calls :: TracedCall(w.messages, w.calls[call]))
  }

  // ---------------------------------------------------------------------
  // A new message

  lemma ReachStays(messages: seq<Message>, m: Message, queries: seq<Query>, k: nat, instant: int)
    requires InTable(messages, queries)
    ensures InTable(messages + [m], queries)
    ensures FirstReaches(messages + [m], queries, k, instant) <==> FirstReaches(messages, queries, k, instant)
  {}

  lemma InTimeStays(messages: seq<Message>, m: Message, queries: seq<Query>, id: nat)
    requires InTable(messages, queries) && id <= |messages|
    ensures InTable(messages + [m], queries)
    ensures InTimeFor(messages + [m], queries, id) <==> id < |messages| && InTimeFor(messages, queries, id)
  {
    var more := messages + [m];
    assert InTable(more, queries);
    forall k: nat ensures FirstReaches(more, queries, k, more[id].createdAt)
                     <==> FirstReaches(messages, queries, k, more[id].createdAt)
    {
      ReachStays(messages, m, queries, k, more[id].createdAt);
    }
  }

  lemma TracedStays(messages: seq<Message>, m: Message, scope: string, s: Summary)
    requires Traced(messages, scope, s)
    ensures Traced(messages + [m], scope, s)
  {
    assert InTable(messages + [m], s.queries);
    forall id: nat | id < |messages + [m]|
      ensures id in s.covered <==> InScope((messages + [m])[id], scope) && InTimeFor(messages + [m], s.queries, id)
    {
      InTimeStays(messages, m, s.queries, id);
    }
  }

  lemma AskedStays(messages: seq<Message>, m: Message, scope: string, existing: Option<Summary>, ids: seq<nat>,
                   seen: nat)
    requires Asked(messages, scope, existing, ids, seen)
    ensures Asked(messages + [m], scope, existing, ids, seen)
  {
    var more := messages + [m];
    assert ids[|ids| - 1] in ids;
    forall id: nat | id < seen ensures id in ids <==> Eligible(more, scope, existing, id) {
      assert more[id] == messages[id];
    }
  }

  lemma AppendKeepsTraced(w: World, m: Message)
    requires TracedWorld(w)
    ensures TracedWorld(Next(w, Append(m)))
  {
    forall key | key in w.rows ensures Traced(w.messages + [m], key.scope, w.rows[key]) {
      TracedStays(w.messages, m, key.scope, w.rows[key]);
    }
    forall call | call in w.calls ensures TracedCall(w.messages + [m], w.calls[call]) {
      TracedCallStays(w.messages, m, w.calls[call]);
    }
  }

  lemma TracedCallStays(messages: seq<Message>, m: Message, c: Call)
    requires TracedCall(messages, c)
    ensures TracedCall(messages + [m], c)
  {
    match c.pc
    case Reading =>
    case Reviewing(existing) => if existing.Some? { TracedStays(messages, m, c.key.scope, existing.value); }
    case Composing(existing, ids, seen) =>
      if existing.Some? { TracedStays(messages, m, c.key.scope, existing.value); }
      AskedStays(messages, m, c.key.scope, existing, ids, seen);
    case Done(answer) => if answer.Some? { TracedStays(messages, m, c.key.scope, answer.value); }
  }

  // ---------------------------------------------------------------------
  // A call

  lemma AnswerIsAsked(messages: seq<Message>, scope: string, existing: Option<Summary>, ids: seq<nat>)
    requires (existing.Some? ==> existing.value.toMessage < |messages|) && Answers(messages, scope, existing, ids)
    requires ids != []
    ensures Asked(messages, scope, existing, ids, |messages|)
  {
    forall id | id in ids
      ensures id < |messages| && messages[id].createdAt <= messages[ids[|ids| - 1]].createdAt
    {
      var i :| 0 <= i < |ids| && ids[i] == id;
    }
  }

  function Queries(existing: Option<Summary>): seq<Query> {
    if existing.Some? then existing.value.queries else []
  }

  function Covered(existing: Option<Summary>): seq<nat> {
    if existing.Some? then existing.value.covered else []
  }

  /** The queries so far, and one more that reaches further. */
  lemma OneMoreReaches(messages: seq<Message>, queries: seq<Query>, q: Query, k: nat, instant: int)
    requires InTable(messages, queries + [q])
    ensures InTable(messages, queries) && q.last < |messages|
    ensures k < |queries| ==>
              (FirstReaches(messages, queries + [q], k, instant) <==> FirstReaches(messages, queries, k, instant))
    ensures FirstReaches(messages, queries + [q], |queries|, instant)
       <==> instant <= Reach(messages, q) && forall j | 0 <= j < |queries| :: Reach(messages, queries[j]) < instant
  {
    assert (queries + [q])[|queries|] == q && forall j | 0 <= j < |queries| :: (queries + [q])[j] == queries[j];
  }

  /** With advancing queries an instant is behind all of them when it is behind the last. */
  lemma BehindTheLast(messages: seq<Message>, queries: seq<Query>, instant: int)
    requires InTable(messages, queries) && Advancing(messages, queries) && queries != []
    ensures (forall j | 0 <= j < |queries| :: Reach(messages, queries[j]) < instant)
       <==> Reach(messages, queries[|queries| - 1]) < instant
  {}

  lemma TableGrows(messages: seq<Message>, scope: string, existing: Option<Summary>, ids: seq<nat>, seen: nat)
    requires existing.Some? ==> Traced(messages, scope, existing.value)
    requires Asked(messages, scope, existing, ids, seen)
    ensures var queries := Queries(existing) + [Query(seen, ids[|ids| - 1])];
      InTable(messages, Queries(existing)) && InTable(messages, queries) && Advancing(messages, queries)
  {
    var (last, before) := (ids[|ids| - 1], Queries(existing));
    assert last in ids && Eligible(messages, scope, existing, last);
    var queries := before + [Query(seen, last)];
    assert forall k | 0 <= k < |queries| :: queries[k] == if k < |before| then before[k] else Query(seen, last);
    if before != [] { BehindTheLast(messages, before, messages[last].createdAt); }
  }

  lemma ExtendedInTime(messages: seq<Message>, scope: string, existing: Option<Summary>, ids: seq<nat>, seen: nat,
                       id: nat)
    requires existing.Some? ==> Traced(messages, scope, existing.value)
    requires Asked(messages, scope, existing, ids, seen) && id < |messages| && InScope(messages[id], scope)
    ensures var queries := Queries(existing) + [Query(seen, ids[|ids| - 1])];
      && InTable(messages, Queries(existing)) && InTable(messages, queries)
      && (InTimeFor(messages, queries, id) <==> InTimeFor(messages, Queries(existing), id) || id in ids)
  {
    var before, q := Queries(existing), Query(seen, ids[|ids| - 1]);
    var t := messages[id].createdAt;
    TableGrows(messages, scope, existing, ids, seen);
    forall k: nat | k < |before|
      ensures FirstReaches(messages, before + [q], k, t) <==> FirstReaches(messages, before, k, t)
      ensures (before + [q])[k] == before[k]
    {
      OneMoreReaches(messages, before, q, k, t);
    }
    OneMoreReaches(messages, before, q, |before|, t);
    if before != [] { BehindTheLast(messages, before, t); }
    assert id in ids <==> FirstReaches(messages, before + [q], |before|, t) && id < seen;
    assert (before + [q])[|before|] == q;
  }

  lemma ExtendedIsTraced(messages: seq<Message>, c: Call, row: Option<Summary>, text: string)
    requires TracedCall(messages, c) && c.pc.Composing?
    ensures Traced(messages, c.key.scope, Extended(row, c.pc.existing, c.pc.ids, c.pc.seen, text))
  {
    var (existing, ids, seen) := (c.pc.existing, c.pc.ids, c.pc.seen);
    var s := Extended(row, existing, ids, seen, text);
    TableGrows(messages, c.key.scope, existing, ids, seen);
    assert s.queries == Queries(existing) + [Query(seen, ids[|ids| - 1])] && s.covered == Covered(existing) + ids;
    forall id: nat | id < |messages|
      ensures id in s.covered <==> InScope(messages[id], c.key.scope) && InTimeFor(messages, s.queries, id)
    {
      if InScope(messages[id], c.key.scope) {
        ExtendedInTime(messages, c.key.scope, existing, ids, seen, id);
        if existing.None? { assert !InTimeFor(messages, [], id); }
      }
    }
  }

  lemma CallMovesOn(w: World, call: nat, pc: Pc)
    requires TracedWorld(w) && call in w.calls && TracedCall(w.messages, w.calls[call].(pc := pc))
    ensures TracedWorld(At(w, call, pc))
  {}

  lemma AnswerKeepsTraced(w: World, call: nat, text: Option<string>)
    requires TracedWorld(w) && Enabled(w, Answer(call, text))
    ensures TracedWorld(Next(w, Answer(call, text)))
  {
    var c := w.calls[call];
    assert TracedCall(w.messages, c);
    if text.None? {
      CallMovesOn(w, call, Done(c.pc.existing));
    } else {
      var row := Extended(Row(w, c.key), c.pc.existing, c.pc.ids, c.pc.seen, text.value);
      ExtendedIsTraced(w.messages, c, Row(w, c.key), text.value);
      CallMovesOn(w.(rows := w.rows[c.key := row]), call, Done(Some(row)));
    }
  }

  lemma StepKeepsTraced(w: World, e: Event)
    requires TracedWorld(w) && Enabled(w, e)
    ensures TracedWorld(Next(w, e))
  {
    match e
    case Append(m) => AppendKeepsTraced(w, m);
    case Begin(_, _) =>
    case ReadRow(call) => CallMovesOn(w, call, Reviewing(Row(w, w.calls[call].key)));
    case ReadMessages(call, ids) =>
      var c := w.calls[call];
      assert TracedCall(w.messages, c);
      if ids != [] { AnswerIsAsked(w.messages, c.key.scope, c.pc.existing, ids); }
      CallMovesOn(w, call, Next(w, e).calls[call].pc);
    case Answer(call, text) => AnswerKeepsTraced(w, call, text);
  }

  lemma {:induction false} RunKeepsTraced(w: World, events: seq<Event>, w': World)
    requires TracedWorld(w) && Run(w, events, w')
    ensures TracedWorld(w')
    decreases |events|
  {
    if events != [] {
      StepKeepsTraced(w, events[0]);
      RunKeepsTraced(Next(w, events[0]), events[1..], w');
    }
  }

  /** Some query reached an instant exactly when the last one did, and then one was the first. */
  lemma {:induction false} SomeFirstReaches(messages: seq<Message>, queries: seq<Query>, n: nat, instant: int)
    returns (k: nat)
    requires InTable(messages, queries) && n < |queries| && instant <= Reach(messages, queries[n])
    ensures FirstReaches(messages, queries, k, instant)
    decreases n
  {
    if j: nat :| j < n && instant <= Reach(messages, queries[j]) {
      k := SomeFirstReaches(messages, queries, j, instant);
    } else {
      k := n;
    }
  }

  /**
   * In every run, whatever the clock: a message of the scope is in nobody's sight exactly when some query of the
   * summary was the first to reach its time, and the message was stored only after that query read.
   */
  lemma MessageIsLostIff(w: World, events: seq<Event>, w': World, key: Key, id: nat)
    requires Fresh(w) && Run(w, events, w') && key in w'.rows
    requires id < |w'.messages| && InScope(w'.messages[id], key.scope)
    ensures var (s, messages) := (w'.rows[key], w'.messages);
      && s.toMessage < |messages| && InTable(messages, s.queries)
      && (Lost(messages, key.scope, s, id)
          <==> exists k: nat ::
                 FirstReaches(messages, s.queries, k, messages[id].createdAt) && s.queries[k].seen <= id)
  {
    RunKeepsTraced(w, events, w');
    var (s, messages) := (w'.rows[key], w'.messages);
    var t := messages[id].createdAt;
    assert Traced(messages, key.scope, s);
    if t <= messages[s.toMessage].createdAt {
      var k := SomeFirstReaches(messages, s.queries, |s.queries| - 1, t);
      forall j: nat | FirstReaches(messages, s.queries, j, t) ensures j == k {}
    } else {
      BehindTheLast(messages, s.queries, t);
    }
  }

  /** So nothing that was stored when a query read is newly lost by it. */
  lemma StoredMessagesAreNotNewlyLost(w: World, events: seq<Event>, w': World, call: nat, text: string, id: nat)
    requires Fresh(w) && Run(w, events, w') && Enabled(w', Answer(call, Some(text)))
    requires var c := w'.calls[call]; id < c.pc.seen <= |w'.messages| && InScope(w'.messages[id], c.key.scope)
    ensures var c := w'.calls[call]; var after := Next(w', Answer(call, Some(text))).rows[c.key];
      && after.toMessage < |w'.messages| && (c.pc.existing.Some? ==> c.pc.existing.value.toMessage < |w'.messages|)
      && (Lost(w'.messages, c.key.scope, after, id)
          ==> c.pc.existing.Some? && Lost(w'.messages, c.key.scope, c.pc.existing.value, id))
  {
    RunKeepsTraced(w, events, w');
    var c := w'.calls[call];
    assert TracedCall(w'.messages, c);
    ExtendedIsTraced(w'.messages, c, Row(w', c.key), text);
    assert id in c.pc.ids <==> Eligible(w'.messages, c.key.scope, c.pc.existing, id);
  }
}
