/**
 * What a summary and the history beside it are made of, field by field: whose messages they are, which ones are new,
 * what the stored row becomes, and when a new summary is due.
 */
module SummaryOutcomes {
  import opened Wrappers
  import opened ConversationSummary

  /** A conversation's scopes never see one another; small talk belongs to all of them. */
  predicate BelongsTo(m: Message, scope: string) {
    m.scope == scope || m.scope == "direct"
  }

  /** A message of the scope, after the last one summarized if there is one. */
  predicate IsNew(messages: seq<Message>, scope: string, existing: Option<Summary>, id: nat) {
    && id < |messages| && BelongsTo(messages[id], scope)
    && (existing.Some? && existing.value.toMessage < |messages| ==>
          messages[existing.value.toMessage].createdAt < messages[id].createdAt)
  }

  /** Every new message once, oldest first. */
  ghost predicate AreTheNew(messages: seq<Message>, scope: string, existing: Option<Summary>, ids: seq<nat>) {
    && (forall id: nat :: id in ids <==> IsNew(messages, scope, existing, id))
    && (forall i, j | 0 <= i < j < |ids| :: ids[i] != ids[j])
    && (forall i, j | 0 <= i < j < |ids| && ids[i] < |messages| && ids[j] < |messages| ::
          messages[ids[i]].createdAt <= messages[ids[j]].createdAt)
  }

  lemma EligibleIsNew(messages: seq<Message>, scope: string, existing: Option<Summary>, id: nat)
    requires existing.Some? ==> existing.value.toMessage < |messages|
    ensures Eligible(messages, scope, existing, id) <==> IsNew(messages, scope, existing, id)
  {}

  lemma AnswersAreTheNew(messages: seq<Message>, scope: string, existing: Option<Summary>, ids: seq<nat>)
    requires existing.Some? ==> existing.value.toMessage < |messages|
    ensures Answers(messages, scope, existing, ids) <==> AreTheNew(messages, scope, existing, ids)
  {
    forall id: nat ensures Eligible(messages, scope, existing, id) <==> IsNew(messages, scope, existing, id) {
      EligibleIsNew(messages, scope, existing, id);
    }
    if AreTheNew(messages, scope, existing, ids) {
      forall i | 0 <= i < |ids| ensures ids[i] < |messages| { assert ids[i] in ids; }
    }
  }

  // ---------------------------------------------------------------------
  // The stored row

  /**
   * The row written extends the summary that was read by the messages found after it; the first message of a row
   * already stored stays.
   */
  ghost predicate Extends(stored: Option<Summary>, read: Option<Summary>, ids: seq<nat>, text: string, row: Summary)
    requires ids != []
  {
    && row.text == text && row.toMessage == ids[|ids| - 1]
    && row.fromMessage == (if stored.None? then ids[0] else stored.value.fromMessage)
    && (read.None? ==> row.messageCount == |ids| && row.covered == ids)
    && (read.Some? ==> row.messageCount == read.value.messageCount + |ids| && row.covered == read.value.covered + ids)
  }

  lemma ExtendedExtends(stored: Option<Summary>, read: Option<Summary>, ids: seq<nat>, seen: nat, text: string)
    requires ids != []
    ensures Extends(stored, read, ids, text, Extended(stored, read, ids, seen, text))
  {
    assert [] + ids == ids;
  }

  /** Only this call moves. */
  ghost predicate OnlyCall(w: World, w': World, call: nat, c: Call) {
    w'.calls == w.calls[call := c]
  }

  /** A call begins by reading, and a message arrives at the end of the table. */
  lemma BeginningsAre(w: World, call: nat, key: Key, m: Message)
    requires Enabled(w, Begin(call, key))
    ensures Next(w, Begin(call, key)) == World(w.messages, w.rows, w.calls[call := Call(key, Reading)])
    ensures Next(w, Append(m)) == World(w.messages + [m], w.rows, w.calls)
  {}

  /** A call reads the row as it is stored at that moment. */
  lemma ReadingTakesTheRow(w: World, call: nat)
    requires Enabled(w, ReadRow(call))
    ensures var w' := Next(w, ReadRow(call)); var key := w.calls[call].key;
      && w'.messages == w.messages && w'.rows == w.rows
      && OnlyCall(w, w', call, Call(key, Reviewing(if key in w.rows then Some(w.rows[key]) else None)))
  {}

  /** It then asks for all that came after, and is done if that is nothing. */
  lemma QueryFindsTheNew(w: World, call: nat, ids: seq<nat>)
    requires Enabled(w, ReadMessages(call, ids))
    ensures var w' := Next(w, ReadMessages(call, ids)); var c := w.calls[call];
      && AreTheNew(w.messages, c.key.scope, c.pc.existing, ids)
      && w'.messages == w.messages && w'.rows == w.rows
      && OnlyCall(w, w', call, Call(c.key, if ids == [] then Done(c.pc.existing)
                                           else Composing(c.pc.existing, ids, |w.messages|)))
  {
    AnswersAreTheNew(w.messages, w.calls[call].key.scope, w.calls[call].pc.existing, ids);
  }

  /** Without a model nothing is written. */
  lemma NoModelWritesNothing(w: World, call: nat)
    requires Enabled(w, Answer(call, None))
    ensures var w' := Next(w, Answer(call, None)); var c := w.calls[call];
      && w'.messages == w.messages && w'.rows == w.rows && OnlyCall(w, w', call, Call(c.key, Done(c.pc.existing)))
  {}

  /** With one, the call's own row is extended, whoever else wrote it meanwhile, and no other. */
  lemma AnswerExtendsTheRow(w: World, call: nat, text: string)
    requires Enabled(w, Answer(call, Some(text)))
    ensures var w' := Next(w, Answer(call, Some(text))); var c := w.calls[call];
      && w'.messages == w.messages && c.key in w'.rows && w'.rows == w.rows[c.key := w'.rows[c.key]]
      && Extends(if c.key in w.rows then Some(w.rows[c.key]) else None, c.pc.existing, c.pc.ids, text, w'.rows[c.key])
      && OnlyCall(w, w', call, Call(c.key, Done(Some(w'.rows[c.key]))))
  {
    var c := w.calls[call];
    ExtendedExtends(Row(w, c.key), c.pc.existing, c.pc.ids, c.pc.seen, text);
  }

  /** A call on its own: the answer is what was stored, extended if there is something new and a model. */
  lemma LoneCallExtends(row: Option<Summary>, ids: seq<nat>, seen: nat, reply: Option<string>)
    ensures var answer := RowAfter(row, ids, seen, reply);
      if ids == [] || reply.None? then answer == row
      else answer.Some? && Extends(row, row, ids, reply.value, answer.value)
  {
    if ids != [] && reply.Some? { ExtendedExtends(row, row, ids, seen, reply.value); }
  }

  // ---------------------------------------------------------------------
  // History

  /** What the user said, and what the assistant finished saying. */
  predicate IsTurn(m: Message) {
    m.role == User || (m.role == Assistant && !m.interrupted)
  }

  lemma ShownIsTurn(m: Message)
    ensures Shown(m) <==> IsTurn(m)
  {}

  /** History is made of turns of its own scope that no summary given has reached: no scope ever sees another's. */
  lemma HistoryStaysInItsScope(messages: seq<Message>, scope: string, summary: Option<Summary>, limit: nat,
                               ids: seq<nat>, all: seq<nat>, id: nat)
    requires summary.Some? ==> summary.value.toMessage < |messages|
    requires Newest(messages, scope, summary, limit, ids, all)
    ensures forall i | 0 <= i < |ids| :: ids[i] < |messages|
    ensures id in Filtered(messages, ids)
       <==> id in ids && IsNew(messages, scope, summary, id) && IsTurn(messages[id])
  {
    AnswersAreTheNew(messages, scope, summary, all);
    forall i | 0 <= i < |ids| ensures ids[i] < |messages| && ids[i] in all {
      assert ids[i] in ids;
      ReadIsAnswered(messages, scope, summary, limit, ids, all, ids[i]);
    }
    if id < |messages| { ShownIsTurn(messages[id]); }
  }

  /** What is read is the newest of the new, as many as the limit lets through, in their order. */
  lemma HistoryReadsTheNewest(messages: seq<Message>, scope: string, summary: Option<Summary>, limit: nat,
                              ids: seq<nat>, all: seq<nat>)
    requires summary.Some? ==> summary.value.toMessage < |messages|
    requires Newest(messages, scope, summary, limit, ids, all)
    ensures AreTheNew(messages, scope, summary, all)
    ensures |ids| == (if |all| < limit then |all| else limit)
    ensures forall i | 0 <= i < |ids| :: ids[i] == all[|all| - |ids| + i]
  {
    AnswersAreTheNew(messages, scope, summary, all);
  }

  /** The filter keeps the order: one more message comes last, or not at all. */
  lemma {:induction false} FilterKeepsOrder(messages: seq<Message>, ids: seq<nat>, id: nat)
    requires id < |messages| && forall i | 0 <= i < |ids| :: ids[i] < |messages|
    ensures Filtered(messages, ids + [id]) == Filtered(messages, ids) + if IsTurn(messages[id]) then [id] else []
    decreases |ids|
  {
    if ids == [] {
      assert (ids + [id])[1..] == [];
    } else {
      assert (ids + [id])[1..] == ids[1..] + [id];
      FilterKeepsOrder(messages, ids[1..], id);
      var first := if Shown(messages[ids[0]]) then [ids[0]] else [];
      var last := if IsTurn(messages[id]) then [id] else [];
      assert first + (Filtered(messages, ids[1..]) + last) == (first + Filtered(messages, ids[1..])) + last;
    }
  }

  // ---------------------------------------------------------------------
  // When a summary is due

  function NewUpTo(messages: seq<Message>, scope: string, existing: Option<Summary>, n: nat): set<nat> {
    set id: nat | id < n && IsNew(messages, scope, existing, id)
  }

  lemma OneMoreNew(messages: seq<Message>, scope: string, existing: Option<Summary>, n: nat)
    requires n > 0
    ensures |NewUpTo(messages, scope, existing, n)|
         == |NewUpTo(messages, scope, existing, n - 1)| + if IsNew(messages, scope, existing, n - 1) then 1 else 0
  {
    var before := NewUpTo(messages, scope, existing, n - 1);
    assert n - 1 !in before;
    assert NewUpTo(messages, scope, existing, n)
        == before + if IsNew(messages, scope, existing, n - 1) then {n - 1} else {};
  }

  lemma {:induction false} CountIsOfTheNew(messages: seq<Message>, scope: string, existing: Option<Summary>, n: nat)
    requires n <= |messages| && (existing.Some? ==> existing.value.toMessage < |messages|)
    ensures CountEligible(messages, scope, existing, n) == |NewUpTo(messages, scope, existing, n)|
    decreases n
  {
    if n > 0 {
      CountIsOfTheNew(messages, scope, existing, n - 1);
      EligibleIsNew(messages, scope, existing, n - 1);
      OneMoreNew(messages, scope, existing, n);
    }
  }

  /** A summary is due exactly when the new messages reach the threshold, whatever the clock. */
  lemma DueIff(messages: seq<Message>, scope: string, existing: Option<Summary>, threshold: nat)
    requires existing.Some? ==> existing.value.toMessage < |messages|
    ensures ShouldSummarize(messages, scope, existing, threshold)
       <==> |set id: nat | id < |messages| && IsNew(messages, scope, existing, id)| >= threshold
  {
    CountIsOfTheNew(messages, scope, existing, |messages|);
    assert NewUpTo(messages, scope, existing, |messages|)
        == set id: nat | id < |messages| && IsNew(messages, scope, existing, id);
  }
}
