/** Which messages of a conversation reach the model at all: inside the summary, or raw, as far as the budget goes. */
module ContextReach {
  import opened Wrappers
  import opened Sequences
  import S = ConversationSummary
  import opened ContextPacking

  // ---------------------------------------------------------------------
  // The summary block

  /** `usedSummary`: the block fits beside the blocks pushed before it. */
  predicate SummaryFits(before: seq<string>, block: string, budget: nat) {
    Chars(Fitting(before, 0, budget)) + |block| <= budget
  }

  lemma {:induction false} FittingConcat(a: seq<string>, b: seq<string>, used: nat, budget: nat)
    ensures Fitting(a + b, used, budget)
         == Fitting(a, used, budget) + Fitting(b, used + Chars(Fitting(a, used, budget)), budget)
    decreases |a|
  {
    if a == [] {
      assert a + b == b;
      assert [] + Fitting(b, used, budget) == Fitting(b, used, budget);
    } else {
      assert (a + b)[1..] == a[1..] + b;
      var taken := used + |a[0]| <= budget;
      var next := if taken then used + |a[0]| else used;
      FittingConcat(a[1..], b, next, budget);
      if taken {
        var first := [Message(SystemRole, a[0])];
        assert Fitting(a, used, budget)[1..] == Fitting(a[1..], next, budget);
        Regroup(first, Fitting(a[1..], next, budget), Fitting(b, next + Chars(Fitting(a[1..], next, budget)), budget));
      }
    }
  }

  /** What is pushed: the blocks before the summary, the summary if it fits, and what then fits of the rest. */
  lemma SummaryIsPushedIff(before: seq<string>, block: string, after: seq<string>, budget: nat)
    ensures var early := Fitting(before, 0, budget);
      var summary := if SummaryFits(before, block, budget) then [Message(SystemRole, block)] else [];
      Fitting(before + [block] + after, 0, budget)
      == early + summary + Fitting(after, Chars(early + summary), budget)
  {
    FittingSnoc(before, block, 0, budget);
    FittingConcat(before + [block], after, 0, budget);
  }

  // ---------------------------------------------------------------------
  // A message of the conversation

  predicate Known(messages: seq<S.Message>, ids: seq<nat>) {
    forall i | 0 <= i < |ids| :: ids[i] < |messages|
  }

  /** The turns offered: the shown messages of what getScopedHistory reads. */
  function Turns(messages: seq<S.Message>, ids: seq<nat>): (r: seq<Message>)
    requires Known(messages, ids)
    ensures |r| == |ids|
  {
    seq(|ids|, i requires 0 <= i < |ids| =>
      Message(if messages[ids[i]].role == S.User then UserRole else AssistantRole, messages[ids[i]].content))
  }

  /** The user speaks as the user; every other shown message is the assistant's. */
  lemma TurnsSayWhoSpoke(messages: seq<S.Message>, ids: seq<nat>, i: nat)
    requires Known(messages, ids) && i < |ids|
    ensures var turn, m := Turns(messages, ids)[i], messages[ids[i]];
      && turn.content == m.content
      && (m.role == S.User ==> turn.role == UserRole) && (m.role != S.User ==> turn.role == AssistantRole)
  {}

  /** The k-th turn is kept. */
  predicate TurnIsKept(history: seq<Message>, used: nat, budget: nat, k: nat) {
    |history| - |KeptTurns(history, used, budget)| <= k < |history|
  }

  /** It and all later turns fit beside the blocks, or it is the latest. */
  predicate TurnFits(history: seq<Message>, used: nat, budget: nat, k: nat)
    requires k < |history|
  {
    used + Chars(history[k..]) <= budget || k == |history| - 1
  }

  /** In the summary, when that is pushed, or among the turns kept. */
  ghost predicate ReachesModel(s: S.Summary, summaryFits: bool, shown: seq<nat>, history: seq<Message>, used: nat,
                               budget: nat, id: nat) {
    (summaryFits && id in s.covered)
    || exists k: nat :: k < |shown| && shown[k] == id && TurnIsKept(history, used, budget, k)
  }

  lemma ReadsAreKnown(messages: seq<S.Message>, scope: string, summary: Option<S.Summary>, limit: nat, ids: seq<nat>,
                      all: seq<nat>)
    requires summary.Some? ==> summary.value.toMessage < |messages|
    requires S.Newest(messages, scope, summary, limit, ids, all)
    ensures Known(messages, ids)
  {
    var cut := if |all| <= limit then 0 else |all| - limit;
    assert ids == all[cut..];
  }

  lemma ShownAreKnown(messages: seq<S.Message>, ids: seq<nat>)
    requires Known(messages, ids)
    ensures Known(messages, S.Filtered(messages, ids))
  {
    var shown := S.Filtered(messages, ids);
    forall i | 0 <= i < |shown| ensures shown[i] < |messages| { assert shown[i] in shown; }
  }

  lemma CoveredIsNotEligible(messages: seq<S.Message>, scope: string, s: S.Summary, id: nat)
    requires S.Sound(messages, scope, s) && id in s.covered
    ensures !S.Eligible(messages, scope, Some(s), id)
  {
    var k :| 0 <= k < |s.covered| && s.covered[k] == id;
  }

  /**
   * A message the summary covers reaches the model exactly when the summary block fits: history leaves it out either
   * way.
   */
  lemma CoveredMessageReachesIff(messages: seq<S.Message>, scope: string, s: S.Summary, limit: nat, ids: seq<nat>,
                                 all: seq<nat>, summaryFits: bool, history: seq<Message>, used: nat, budget: nat,
                                 id: nat)
    requires S.Sound(messages, scope, s)
    requires S.Newest(messages, scope, Some(s), limit, ids, all) && id in s.covered
    ensures Known(messages, ids)
    ensures ReachesModel(s, summaryFits, S.Filtered(messages, ids), history, used, budget, id) <==> summaryFits
  {
    ReadsAreKnown(messages, scope, Some(s), limit, ids, all);
    var shown := S.Filtered(messages, ids);
    CoveredIsNotEligible(messages, scope, s, id);
    if id in shown { S.ReadIsAnswered(messages, scope, Some(s), limit, ids, all, id); }
  }

  /**
   * One it does not cover reaches it exactly when it is among the shown messages of what is read, and it and all later
   * ones fit beside the blocks, or it is the latest.
   */
  lemma UncoveredMessageReachesIff(messages: seq<S.Message>, s: S.Summary, ids: seq<nat>, summaryFits: bool, used: nat,
                                   budget: nat, id: nat)
    requires Known(messages, ids) && id !in s.covered
    ensures Known(messages, S.Filtered(messages, ids))
    ensures var shown := S.Filtered(messages, ids); var history := Turns(messages, shown);
      ReachesModel(s, summaryFits, shown, history, used, budget, id)
      <==> exists k: nat :: k < |shown| && shown[k] == id && TurnFits(history, used, budget, k)
  {
    ShownAreKnown(messages, ids);
    var history := Turns(messages, S.Filtered(messages, ids));
    forall k: nat | k < |history|
      ensures TurnIsKept(history, used, budget, k) <==> TurnFits(history, used, budget, k)
    {
      KeptIsTheLongestFit(history, used, budget, k);
    }
  }
}
