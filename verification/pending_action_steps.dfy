/**
 * What each await of an approval call comes to whoever else has been at the row meanwhile: which single write it makes,
 * on what condition, and where the call goes on.
 */
module PendingActionSteps {
  import opened Wrappers
  import opened ToolGate
  import opened PendingActions

  /** The world after the operation that call `c` awaits completed. */
  function After(w: World, c: nat, answer: bool): World {
    Step(w, Resume(c, answer))
  }

  ghost predicate Waits(w: World, c: nat, pc: Pc) {
    c in w.calls && w.calls[c].pc == pc
  }

  /** Only the call moves. */
  ghost predicate Moves(w: World, w': World, c: nat, pc: Pc)
    requires c in w.calls
  {
    w' == w.(calls := w.calls[c := Call(w.calls[c].req, pc)])
  }

  /** And one action changes its status. */
  ghost predicate MovesSetting(w: World, w': World, c: nat, id: nat, status: Status, pc: Pc)
    requires c in w.calls && id in w.rows
  {
    w' == w.(rows := w.rows[id := w.rows[id].(status := status)], calls := w.calls[c := Call(w.calls[c].req, pc)])
  }

  /** The request is about a row that is there. */
  ghost predicate IsAbout(w: World, c: nat, id: nat) {
    c in w.calls && !w.calls[c].req.Propose? && w.calls[c].req.id == id && id in w.rows
  }

  // ---------------------------------------------------------------------
  // Settling an action

  /** A missing row and another user's are told apart; only approve() looks at the clock. */
  lemma ReadingDecides(w: World, c: nat, answer: bool)
    requires Waits(w, c, Reading) && !w.calls[c].req.Propose?
    ensures var (req, w') := (w.calls[c].req, After(w, c, answer));
      if req.id !in w.rows then Moves(w, w', c, Done(NotFound))
      else if w.rows[req.id].userId != req.userId then Moves(w, w', c, Done(Forbidden))
      else if req.Approve? && w.rows[req.id].status == Pending && w.rows[req.id].expiresAt.Some?
              && w.rows[req.id].expiresAt.value < w.now then Moves(w, w', c, Expiring(w.rows[req.id]))
      else Moves(w, w', c, Claiming(w.rows[req.id], w.now))
  {}

  /** The expiry is written only if the row is pending still. */
  lemma OnlyPendingActionsExpire(w: World, c: nat, id: nat, snap: Row, answer: bool)
    requires Waits(w, c, Expiring(snap)) && IsAbout(w, c, id)
    ensures var w' := After(w, c, answer);
      if w.rows[id].status == Pending then MovesSetting(w, w', c, id, Expired, ExpiryReread(true))
      else Moves(w, w', c, ExpiryReread(false))
  {}

  /** Whether it was or not, the call answers expired, with the row as it then is. */
  lemma ExpiryIsAnswered(w: World, c: nat, id: nat, answer: bool)
    requires IsAbout(w, c, id)
    ensures Waits(w, c, ExpiryReread(false)) ==> Moves(w, After(w, c, answer), c, Done(ActionExpired(w.rows[id])))
    ensures Waits(w, c, ExpiryReread(true)) ==> Moves(w, After(w, c, answer), c, ExpiryAudit(w.rows[id]))
    ensures w.calls[c].pc.ExpiryAudit? ==>
              Moves(w, After(w, c, answer), c, Done(ActionExpired(w.calls[c].pc.row)))
  {}

  /** What the request makes of a pending action. */
  ghost predicate Settles(req: Request, status: Status) {
    (req.Approve? && status == Approved) || (req.Reject? && status == Rejected) || (req.Cancel? && status == Cancelled)
  }

  /** A claim succeeds only on a row that is pending at that moment; the loser answers the row as it then is. */
  lemma ClaimsAreWonOnce(w: World, c: nat, id: nat, snap: Row, checkedAt: int, status: Status, answer: bool)
    requires IsAbout(w, c, id) && Settles(w.calls[c].req, status)
    ensures Waits(w, c, Claiming(snap, checkedAt)) && w.rows[id].status == Pending ==>
              MovesSetting(w, After(w, c, answer), c, id, status, ClaimAudit(snap, checkedAt))
    ensures Waits(w, c, Claiming(snap, checkedAt)) && w.rows[id].status != Pending ==>
              Moves(w, After(w, c, answer), c, LostReread)
    ensures Waits(w, c, LostReread) ==> Moves(w, After(w, c, answer), c, Done(AlreadyProcessed(w.rows[id])))
  {}

  /** A rejection or cancellation is over then; an approval goes on to the tool it read. */
  lemma WinnersGoOn(w: World, c: nat, id: nat, snap: Row, checkedAt: int, answer: bool)
    requires IsAbout(w, c, id) && Waits(w, c, ClaimAudit(snap, checkedAt))
    ensures var w' := After(w, c, answer);
      if !w.calls[c].req.Approve? then Moves(w, w', c, SettledReread)
      else if snap.toolName in w.registry then Moves(w, w', c, SkillLookup(snap, w.registry[snap.toolName]))
      else Moves(w, w', c, Failing)
  {}

  lemma SettledIsAnswered(w: World, c: nat, id: nat, answer: bool)
    requires IsAbout(w, c, id) && Waits(w, c, SettledReread)
    ensures w.calls[c].req.Reject? ==> Moves(w, After(w, c, answer), c, Done(ActionRejected(w.rows[id])))
    ensures w.calls[c].req.Cancel? ==> Moves(w, After(w, c, answer), c, Done(ActionCancelled(w.rows[id])))
  {}

  /** The tool runs on what the approved row said, for the caller; with its skill disabled it does not. */
  lemma EnabledToolsRun(w: World, c: nat, id: nat, snap: Row, tool: Tool)
    requires IsAbout(w, c, id) && Waits(w, c, SkillLookup(snap, tool))
    ensures Moves(w, After(w, c, false), c, Failing)
    ensures var ctx := Context(w.calls[c].req.userId, snap.scope, snap.space, Some(id));
      Moves(w, After(w, c, true), c, Opening(Job(tool, ctx, snap.input, true)))
  {}

  /** The last write does not ask what the row has become meanwhile. */
  lemma TheLastWriteIsUnconditional(w: World, c: nat, id: nat, ok: bool, answer: bool)
    requires IsAbout(w, c, id)
    ensures Waits(w, c, Failing) ==>
      MovesSetting(w, After(w, c, answer), c, id, Failed, Done(ActionExecuted(w.rows[id].(status := Failed), false)))
    ensures Waits(w, c, FinalWrite(ok)) ==>
      var status := if ok then Executed else Failed;
      MovesSetting(w, After(w, c, answer), c, id, status, Done(ActionExecuted(w.rows[id].(status := status), ok)))
  {}

  // ---------------------------------------------------------------------
  // Running a tool

  /** The tool starts, and is on the log, the moment its call row is there. */
  lemma OpeningStartsTheTool(w: World, c: nat, job: Job, answer: bool)
    requires Waits(w, c, Opening(job))
    ensures var w' := After(w, c, answer);
      && w'.log == w.log + [job] && w'.rows == w.rows && w'.nextRow == w.nextRow
      && c in w'.calls && w'.calls == w.calls[c := Call(w.calls[c].req, w'.calls[c].pc)]
      && (w'.calls[c].pc == Running(job) || (job.tool.name == "draft_action" && w'.calls[c].pc.Drafting?))
  {}

  /** The result is the tool's own; draft_action's is a success only behind its insert. */
  lemma ResultIsTheTools(w: World, c: nat, job: Job, answer: bool)
    requires Waits(w, c, Running(job))
    ensures Moves(w, After(w, c, answer), c, Closing(job, answer && job.tool.name != "draft_action"))
  {}

  lemma DraftIsInserted(w: World, c: nat, job: Job, row: Row, answer: bool)
    ensures Waits(w, c, Drafting(job, row)) ==>
      After(w, c, answer) == w.(rows := w.rows[w.nextRow := row], nextRow := w.nextRow + 1,
                                calls := w.calls[c := Call(w.calls[c].req, DraftAudit(job))])
    ensures Waits(w, c, DraftAudit(job)) ==> Moves(w, After(w, c, answer), c, Closing(job, true))
  {}

  /** Then the result is recorded twice, and goes back to whoever asked for the run. */
  lemma ResultIsRecorded(w: World, c: nat, job: Job, ok: bool, answer: bool)
    ensures Waits(w, c, Closing(job, ok)) ==> Moves(w, After(w, c, answer), c, RunAudit(job, ok))
    ensures Waits(w, c, RunAudit(job, ok)) && w.calls[c].req.Propose? ==>
              Moves(w, After(w, c, answer), c, Done(ToolExecuted(ok)))
    ensures Waits(w, c, RunAudit(job, ok)) && !w.calls[c].req.Propose? ==>
              Moves(w, After(w, c, answer), c, FinalWrite(ok))
  {}

  /** A failure that was caught is recorded and goes back as a failed result. */
  lemma CaughtFailureIsAResult(w: World, c: nat, job: Job, answer: bool)
    ensures Waits(w, c, Recovering(job)) ==> Moves(w, After(w, c, answer), c, RecoveryAudit(job))
    ensures Waits(w, c, RecoveryAudit(job)) && w.calls[c].req.Propose? ==>
              Moves(w, After(w, c, answer), c, Done(ToolExecuted(false)))
    ensures Waits(w, c, RecoveryAudit(job)) && !w.calls[c].req.Propose? ==>
              Moves(w, After(w, c, answer), c, FinalWrite(false))
  {}

  /** The awaits inside the try block. */
  ghost predicate IsGuarded(pc: Pc) {
    pc.Running? || pc.Drafting? || pc.DraftAudit? || pc.Closing? || pc.RunAudit?
  }

  /** An exception is caught there, and leaves the call anywhere else; it writes nothing itself. */
  lemma ExceptionsLeaveTheCall(w: World, c: nat)
    ensures c in w.calls && IsGuarded(w.calls[c].pc) ==>
              Moves(w, Step(w, Abort(c)), c, Recovering(w.calls[c].pc.job))
    ensures c in w.calls && !IsGuarded(w.calls[c].pc) && !w.calls[c].pc.Done? ==>
              Moves(w, Step(w, Abort(c)), c, Done(Threw))
    ensures c !in w.calls || w.calls[c].pc.Done? ==> Step(w, Abort(c)) == w
  {}

  // ---------------------------------------------------------------------
  // Asking for a tool

  /** The refusals that need no await, in this order. */
  ghost predicate IsRefused(reg: Registry, toolName: string, raw: Input, ctx: Context, reason: string) {
    if toolName !in reg then reason == "unknown_tool"
    else if reg[toolName].validate(raw).None? then reason == "invalid_arguments"
    else if ctx.scope !in reg[toolName].scopes then reason == "scope_not_allowed"
    else reg[toolName].level == N4 && reason == "security_level_n4_blocked"
  }

  lemma RequestsAreChecked(w: World, c: nat, toolName: string, raw: Input, ctx: Context, reason: string, answer: bool)
    requires Waits(w, c, Requested) && w.calls[c].req == Propose(toolName, raw, ctx)
    ensures var w' := After(w, c, answer);
      && (IsRefused(w.registry, toolName, raw, ctx, reason) ==> Moves(w, w', c, Refusing(reason)))
      && (w'.calls[c].pc.Refusing? || (
            && toolName in w.registry && w.registry[toolName].validate(raw).Some?
            && Moves(w, w', c, GateSkillLookup(w.registry[toolName], w.registry[toolName].validate(raw).value))))
  {}

  /** With the skill enabled an N1 tool free of confirmation runs; any other waits, for half an hour from then on. */
  lemma AllowedRequestsRunOrWait(w: World, c: nat, tool: Tool, value: Input, answer: bool)
    requires Waits(w, c, GateSkillLookup(tool, value)) && w.calls[c].req.Propose? && tool.level != N4
    ensures var (w', ctx) := (After(w, c, answer), w.calls[c].req.ctx);
      if !answer then Moves(w, w', c, Refusing("skill_disabled"))
      else if tool.level == N1 && !tool.requiresConfirmation then
        Moves(w, w', c, Opening(Job(tool, ctx, value, true)))
      else
        Moves(w, w', c, Creating(Row(ctx.userId, tool.name, ctx.scope, ctx.space, tool.level, value, Pending,
                                     Some(w.now + 30 * 60 * 1000))))
  {}

  lemma RequestsAreAnswered(w: World, c: nat, reason: string, row: Row, id: nat, answer: bool)
    requires c in w.calls && w.calls[c].req.Propose?
    ensures Waits(w, c, Refusing(reason)) ==> Moves(w, After(w, c, answer), c, Done(ToolRefused(reason)))
    ensures Waits(w, c, Creating(row)) ==>
      After(w, c, answer) == w.(rows := w.rows[w.nextRow := row], nextRow := w.nextRow + 1,
                                calls := w.calls[c := Call(w.calls[c].req, CreationAudit(w.nextRow))])
    ensures Waits(w, c, CreationAudit(id)) ==> Moves(w, After(w, c, answer), c, Done(PendingConfirmation(id)))
  {}

  // ---------------------------------------------------------------------
  // Whatever else happens

  /** A request arrives once, and carries no action id of its own; time passes; finished calls stay finished. */
  lemma NothingElseHappens(w: World, c: nat, req: Request, elapsed: nat, answer: bool)
    ensures c in w.calls ==> Step(w, Arrive(c, req)) == w
    ensures c !in w.calls && !req.Propose? ==> Step(w, Arrive(c, req)) == w.(calls := w.calls[c := Call(req, Reading)])
    ensures c !in w.calls && req.Propose? ==>
      var ctx := Context(req.ctx.userId, req.ctx.scope, req.ctx.space, None);
      Step(w, Arrive(c, req)) == w.(calls := w.calls[c := Call(Propose(req.toolName, req.raw, ctx), Requested)])
    ensures Step(w, Tick(elapsed)) == w.(now := w.now + elapsed)
    ensures c !in w.calls || w.calls[c].pc.Done? ==> After(w, c, answer) == w
  {
    if c in w.calls && w.calls[c].pc.Done? { assert w.calls == w.calls[c := w.calls[c]]; }
  }
}
