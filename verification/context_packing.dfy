/** The budgeted part of the context builder: greedy system blocks, then as many of the latest turns as fit. */
module ContextPacking {
  datatype Role = SystemRole | UserRole | AssistantRole

  datatype Message = Message(role: Role, content: string)

  function Chars(ms: seq<Message>): nat {
    if ms == [] then 0 else |ms[0].content| + Chars(ms[1..])
  }

  lemma {:induction false} CharsConcat(a: seq<Message>, b: seq<Message>)
    ensures Chars(a + b) == Chars(a) + Chars(b)
    decreases |a|
  {
    if a == [] { assert a + b == b; } else {
      assert (a + b)[1..] == a[1..] + b;
      CharsConcat(a[1..], b);
    }
  }

  /** The blocks pushed: each one offered is taken exactly when it fits beside those already taken. */
  function Fitting(blocks: seq<string>, used: nat, budget: nat): seq<Message> {
    if blocks == [] then []
    else if used + |blocks[0]| > budget then Fitting(blocks[1..], used, budget)
    else [Message(SystemRole, blocks[0])] + Fitting(blocks[1..], used + |blocks[0]|, budget)
  }

  lemma {:induction false} FittingFits(blocks: seq<string>, used: nat, budget: nat)
    requires used <= budget
    ensures used + Chars(Fitting(blocks, used, budget)) <= budget
    decreases |blocks|
  {
    if blocks != [] {
      if used + |blocks[0]| > budget {
        FittingFits(blocks[1..], used, budget);
      } else {
        FittingFits(blocks[1..], used + |blocks[0]|, budget);
        assert Fitting(blocks, used, budget)[1..] == Fitting(blocks[1..], used + |blocks[0]|, budget);
      }
    }
  }

  /** Whether a block is pushed depends only on those offered before it, and on nothing but whether it still fits. */
  lemma {:induction false} FittingSnoc(blocks: seq<string>, block: string, used: nat, budget: nat)
    ensures Fitting(blocks + [block], used, budget)
         == Fitting(blocks, used, budget)
            + if used + Chars(Fitting(blocks, used, budget)) + |block| <= budget
              then [Message(SystemRole, block)]
              else []
    decreases |blocks|
  {
    var all := blocks + [block];
    if blocks == [] {
      assert all[1..] == [] && all == [block];
    } else {
      assert all[1..] == blocks[1..] + [block];
      if used + |blocks[0]| > budget {
        FittingSnoc(blocks[1..], block, used, budget);
      } else {
        FittingSnoc(blocks[1..], block, used + |blocks[0]|, budget);
        assert Fitting(blocks, used, budget)[1..] == Fitting(blocks[1..], used + |blocks[0]|, budget);
      }
    }
  }

  /** The turns kept: the oldest go one by one until the rest fits beside what is used, but the latest always stays. */
  function KeptTurns(history: seq<Message>, used: nat, budget: nat): seq<Message> {
    if |history| <= 1 || used + Chars(history) <= budget then history else KeptTurns(history[1..], used, budget)
  }

  lemma {:induction false} LongerSuffixIsNoShorter(history: seq<Message>, j: nat, k: nat)
    requires j <= k <= |history|
    ensures Chars(history[j..]) >= Chars(history[k..])
    decreases k - j
  {
    if j < k {
      assert history[j..][1..] == history[j + 1..];
      LongerSuffixIsNoShorter(history, j + 1, k);
    }
  }

  /** A suffix that fits, or is the latest turn alone, and that no longer one that fits extends, is the one kept. */
  lemma {:induction false} LongestFitIsKept(history: seq<Message>, used: nat, budget: nat, from: nat)
    requires from <= |history| && (history != [] ==> from < |history|)
    requires from + 1 < |history| ==> used + Chars(history[from..]) <= budget
    requires from > 0 ==> used + Chars(history[from - 1..]) > budget
    ensures KeptTurns(history, used, budget) == history[from..]
    decreases |history|
  {
    if from > 0 {
      LongerSuffixIsNoShorter(history, 0, from - 1);
      assert history[0..] == history;
      assert history[1..][from - 1..] == history[from..];
      if from > 1 { assert history[1..][from - 2..] == history[from - 1..]; }
      LongestFitIsKept(history[1..], used, budget, from - 1);
    } else {
      assert history[0..] == history;
    }
  }

  /**
   * The turns kept are a suffix of the history. It holds the latest turn and every suffix that fits the budget, so it
   * is the longest such one; and with two turns or more it fits.
   */
  lemma {:induction false} KeptIsTheLongestFit(history: seq<Message>, used: nat, budget: nat, k: nat)
    requires k < |history|
    ensures var kept := KeptTurns(history, used, budget);
      && 1 <= |kept| <= |history| && kept == history[|history| - |kept|..]
      && (|kept| > 1 ==> used + Chars(kept) <= budget)
      && (|history| - k <= |kept| <==> used + Chars(history[k..]) <= budget || k == |history| - 1)
    decreases |history|
  {
    if |history| <= 1 || used + Chars(history) <= budget {
      assert history[0..] == history;
      LongerSuffixIsNoShorter(history, 0, k);
    } else {
      var rest := history[1..];
      KeptIsTheLongestFit(rest, used, budget, if k == 0 then 0 else k - 1);
      var kept := KeptTurns(rest, used, budget);
      assert rest[|rest| - |kept|..] == history[|history| - |kept|..];
      if k == 0 { assert history[0..] == history; } else { assert rest[k - 1..] == history[k..]; }
    }
  }

  /**
   * Packs what competes for the budget after the fixed system messages: `blocks` are the retrieved texts in the order
   * they are offered, `history` the raw turns, oldest first.
   */
  method Pack(fixed: seq<Message>, blocks: seq<string>, history: seq<Message>, budget: nat)
    returns (messages: seq<Message>)
    ensures var pushed := Fitting(blocks, 0, budget);
      Chars(pushed) <= budget && messages == fixed + pushed + KeptTurns(history, Chars(pushed), budget)
  {
    messages := fixed;
    var usedChars := 0;
    FittingFits(blocks, 0, budget);
    for i := 0 to |blocks|
      invariant messages == fixed + Fitting(blocks[..i], 0, budget)
      invariant usedChars == Chars(Fitting(blocks[..i], 0, budget))
    {
      var block := blocks[i];
      FittingSnoc(blocks[..i], block, 0, budget);
      assert blocks[..i] + [block] == blocks[..i + 1];
      if usedChars + |block| <= budget {
        CharsConcat(Fitting(blocks[..i], 0, budget), [Message(SystemRole, block)]);
        assert Chars([Message(SystemRole, block)]) == |block| + Chars([Message(SystemRole, block)][1..]);
        messages := messages + [Message(SystemRole, block)];
        usedChars := usedChars + |block|;
      } else {
        assert Fitting(blocks[..i], 0, budget) + [] == Fitting(blocks[..i], 0, budget);
      }
    }
    assert blocks[..|blocks|] == blocks;
    ghost var used := usedChars;
    var keptTurns: seq<Message> := [];
    var i := |history|;
    while i > 0
      invariant 0 <= i <= |history| && keptTurns == history[i..]
      invariant usedChars == used + Chars(history[i..])
      invariant i + 1 < |history| ==> usedChars <= budget
      decreases i
    {
      assert history[i - 1..][1..] == history[i..];
      if |keptTurns| > 0 && usedChars + |history[i - 1].content| > budget { break; }
      keptTurns := [history[i - 1]] + keptTurns;
      usedChars := usedChars + |history[i - 1].content|;
      i := i - 1;
    }
    LongestFitIsKept(history, used, budget, i);
    messages := messages + keptTurns;
  }
}
