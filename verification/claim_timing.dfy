/** Expiry is checked when an approval reads its row, and the row is claimed some awaits later: what that is worth. */
module ClaimTiming {
  import opened PendingActions
  import opened PendingActionSafety

  /** The time that passes during a schedule. */
  function Elapsed(events: seq<Event>): nat {
    if events == [] then 0 else (if events[0].Tick? then events[0].elapsed else 0) + Elapsed(events[1..])
  }

  lemma StepAdvancesClock(w: World, e: Event)
    ensures Step(w, e).now == w.now + if e.Tick? then e.elapsed else 0
  {}

  lemma {:induction false} ClockAdvances(w: World, events: seq<Event>)
    ensures Exec(w, events).now == w.now + Elapsed(events)
    decreases |events|
  {
    if events != [] {
      StepAdvancesClock(w, events[0]);
      ClockAdvances(Step(w, events[0]), events[1..]);
    }
  }

  lemma ExecSnoc(w: World, events: seq<Event>, e: Event)
    ensures Exec(w, events + [e]) == Step(Exec(w, events), e)
  {
    ExecConcat(w, events, [e]);
    ExecCons(Exec(w, events), e, []);
    assert [e] + [] == [e];
  }

  /** The call is about to claim, having checked the expiry at `at`. */
  ghost predicate WillClaim(w: World, c: nat, at: int) {
    c in w.calls && w.calls[c].req.Approve? && w.calls[c].pc.Claiming? && w.calls[c].pc.checkedAt == at
  }

  ghost predicate AboutToRead(w: World, c: nat) {
    c in w.calls && w.calls[c].req.Approve? && w.calls[c].pc == Reading
  }

  /** A call comes to its claim from its read, and checks the expiry then. */
  lemma ClaimingComesFromReading(w: World, e: Event, c: nat, at: int)
    requires WillClaim(Step(w, e), c, at)
    ensures WillClaim(w, c, at) || (e.Resume? && e.call == c && AboutToRead(w, c) && w.now == at)
  {}

  /** The run up to a claim, split at the read that led to it. */
  lemma {:induction false} ClaimFollowsItsRead(w: World, events: seq<Event>, c: nat, at: int)
    returns (before: seq<Event>, answer: bool, between: seq<Event>)
    requires Initial(w) && WillClaim(Exec(w, events), c, at)
    ensures events == before + [Resume(c, answer)] + between
    ensures AboutToRead(Exec(w, before), c) && Exec(w, before).now == at
    ensures Exec(w, events).now == at + Elapsed(between)
    decreases |events|
  {
    var init, last := events[..|events| - 1], events[|events| - 1];
    assert events == init + [last];
    ExecSnoc(w, init, last);
    ClaimingComesFromReading(Exec(w, init), last, c, at);
    if WillClaim(Exec(w, init), c, at) {
      var rest;
      before, answer, rest := ClaimFollowsItsRead(w, init, c, at);
      between := rest + [last];
      ClockAdvances(w, events);
      ClockAdvances(w, init);
      ElapsedSnoc(init, last);
      ElapsedSnoc(rest, last);
    } else {
      before, answer, between := init, last.answer, [];
      StepAdvancesClock(Exec(w, init), last);
    }
  }

  lemma {:induction false} ElapsedSnoc(events: seq<Event>, e: Event)
    ensures Elapsed(events + [e]) == Elapsed(events) + if e.Tick? then e.elapsed else 0
    decreases |events|
  {
    if events == [] {
      assert events + [e] == [e] && [e][1..] == [];
    } else {
      assert (events + [e])[1..] == events[1..] + [e];
      ElapsedSnoc(events[1..], e);
    }
  }

  /**
   * Every winning claim goes back to its call's own read, and the row is still unexpired at the claim exactly when no
   * more time passed between the two than the row had left at the read.
   */
  lemma ClaimIsInTimeIff(w: World, events: seq<Event>, e: Event, id: nat)
    returns (before: seq<Event>, answer: bool, between: seq<Event>)
    requires Initial(w) && id in Exec(w, events).rows && Exec(w, events).rows[id].status == Pending
    requires Step(Exec(w, events), e).rows[id].status == Approved
    ensures e.Resume? && events == before + [Resume(e.call, answer)] + between
    ensures AboutToRead(Exec(w, before), e.call) && Exec(w, before).calls[e.call].req.id == id
    ensures var (read, claim) := (Exec(w, before), Exec(w, events)); var expiresAt := claim.rows[id].expiresAt;
      && id in read.rows && SameAction(read.rows[id], claim.rows[id]) && Unexpired(read.rows[id], read.now)
      && (Unexpired(claim.rows[id], claim.now)
          <==> expiresAt.None? || Elapsed(between) <= expiresAt.value - read.now)
  {
    ApprovedRowsWereUnexpiredWhenRead(w, events, e, id);
    var c := e.call;
    before, answer, between := ClaimFollowsItsRead(w, events, c, Exec(w, events).calls[c].pc.checkedAt);
    RowAtRead(w, before, answer, between, c, id);
  }

  /** A call keeps its request, and a row seen after a read by it was there, as the same action, before it. */
  lemma RowAtRead(w: World, before: seq<Event>, answer: bool, between: seq<Event>, c: nat, id: nat)
    requires Initial(w) && AboutToRead(Exec(w, before), c)
    requires var claim := Exec(w, before + [Resume(c, answer)] + between);
      && c in claim.calls && claim.calls[c].req.Approve? && claim.calls[c].req.id == id && id in claim.rows
      && !claim.calls[c].pc.Done?
    ensures var (read, claim) := (Exec(w, before), Exec(w, before + [Resume(c, answer)] + between));
      read.calls[c].req.id == id && id in read.rows && SameAction(read.rows[id], claim.rows[id])
  {
    var read := Exec(w, before);
    var after := [Resume(c, answer)] + between;
    assert before + [Resume(c, answer)] + between == before + after;
    ExecConcat(w, before, after);
    ExecCons(read, Resume(c, answer), between);
    InitialInv(w);
    ExecKeepsInv(w, before);
    RequestStays(read, after, c);
    if id in read.rows {
      RunMovesStatus(read, after, id);
    } else {
      NotFoundStays(Step(read, Resume(c, answer)), between, c);
    }
  }

  lemma {:induction false} RequestStays(w: World, events: seq<Event>, c: nat)
    requires c in w.calls
    ensures c in Exec(w, events).calls && Exec(w, events).calls[c].req == w.calls[c].req
    decreases |events|
  {
    if events != [] { RequestStays(Step(w, events[0]), events[1..], c); }
  }

  /** A call that found no row has answered for good. */
  lemma {:induction false} NotFoundStays(w: World, events: seq<Event>, c: nat)
    requires c in w.calls && !w.calls[c].req.Propose? && w.calls[c].pc.Done?
    ensures c in Exec(w, events).calls && Exec(w, events).calls[c].pc == w.calls[c].pc
    decreases |events|
  {
    if events != [] { NotFoundStays(Step(w, events[0]), events[1..], c); }
  }

  /** So an action can be claimed after it expired: it is read in time, and the time runs out before the claim. */
  lemma AnActionCanBeClaimedLate(w: World, id: nat) returns (events: seq<Event>)
    requires Initial(w) && id in w.rows && w.rows[id].status == Pending
    requires w.rows[id].expiresAt.Some? && w.now <= w.rows[id].expiresAt.value
    ensures var w' := Exec(w, events);
      && id in w'.rows && w'.rows[id] == w.rows[id].(status := Approved)
      && w'.rows[id].expiresAt.value < w'.now
  {
    var req := Approve(w.rows[id].userId, id);
    var late := w.rows[id].expiresAt.value - w.now + 1;
    var w1 := Step(w, Arrive(0, req));
    var w2 := Step(w1, Resume(0, true));
    assert w2.calls[0] == Call(req, Claiming(w.rows[id], w.now));
    var w3 := Step(w2, Tick(late));
    var claim := [Resume(0, true)] + [];
    ExecCons(w3, Resume(0, true), []);
    ExecCons(w2, Tick(late), claim);
    ExecCons(w1, Resume(0, true), [Tick(late)] + claim);
    events := [Arrive(0, req)] + ([Resume(0, true)] + ([Tick(late)] + claim));
    ExecCons(w, Arrive(0, req), [Resume(0, true)] + ([Tick(late)] + claim));
  }
}
