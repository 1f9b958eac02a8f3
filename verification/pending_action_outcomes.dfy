/**
 * What the approval services promise a caller, spelled out: which tool runs, with what, for whom, and what is left in
 * the tables afterwards.
 */
module PendingActionOutcomes {
  import opened Wrappers
  import opened ToolGate
  import opened PendingActions

  /**
   * What the awaited operations of a call answer: the skill lookup, the tool itself (for a draft its insert, and then
   * its audit), and the row and the audit that record a result. Everything else succeeds.
   */
  datatype Replies = Replies(skillEnabled: bool, draftStored: bool, toolOk: bool, callUpdated: bool, callAudited: bool)

  /** A new action is its owner's, in the space it was asked for in, and may be approved for half an hour. */
  ghost predicate IsProposal(row: Row, userId: string, scope: Scope, space: string, tool: Tool, input: Input, now: int)
  {
    && row.userId == userId && row.scope == scope && row.space == space
    && row.toolName == tool.name && row.level == tool.level && row.input == input
    && row.status == Pending && row.expiresAt == Some(now + 30 * 60 * 1000)
  }

  /** Nothing but the table of actions and the log differs. */
  ghost predicate SameSurroundings(w: World, w': World) {
    w'.registry == w.registry && w'.calls == w.calls && w'.now == w.now
  }

  /** One new row, under the next id. */
  ghost predicate OneMore(w: World, w': World, row: Row) {
    w'.rows == w.rows[w.nextRow := row] && w'.nextRow == w.nextRow + 1
  }

  /** A draft names a registered tool that is open to this scope and not N4, with arguments that tool accepts. */
  ghost predicate DraftIsAccepted(reg: Registry, ctx: Context, input: Input) {
    && input.Draft? && input.targetTool in reg
    && var target := reg[input.targetTool];
    ctx.scope in target.scopes && target.level != N4 && target.validate(input.targetInput).Some?
  }

  /** The accepted draft's row. */
  ghost predicate IsDraftOf(reg: Registry, ctx: Context, input: Input, row: Row, now: int)
    requires DraftIsAccepted(reg, ctx, input)
  {
    var target := reg[input.targetTool];
    IsProposal(row, ctx.userId, ctx.scope, ctx.space, target, target.validate(input.targetInput).value, now)
  }

  /**
   * The tool was started once, on this job. Only draft_action touches the table, and only to add an accepted draft;
   * the run is a success exactly when the tool's is and both records of it could be written.
   */
  ghost predicate ToolRan(w: World, job: Job, replies: Replies, w': World, ok: bool) {
    && SameSurroundings(w, w') && w'.log == w.log + [job]
    && var drafts := job.tool.name == "draft_action";
       var stored := drafts && DraftIsAccepted(w.registry, job.ctx, job.input) && replies.draftStored;
    && (if stored then w.nextRow in w'.rows && OneMore(w, w', w'.rows[w.nextRow])
                       && IsDraftOf(w.registry, job.ctx, job.input, w'.rows[w.nextRow], w.now)
        else w'.rows == w.rows && w'.nextRow == w.nextRow)
    && (ok <==> replies.toolOk && replies.callUpdated && replies.callAudited && (drafts ==> stored))
  }

  /** Only the status of one action changes. */
  ghost predicate OnlyStatus(w: World, w': World, id: nat, status: Status)
    requires id in w.rows
  {
    w' == w.(rows := w.rows[id := w.rows[id].(status := status)])
  }

  /**
   * approve(): a pending action that has not expired and whose tool is there and enabled is run exactly once, with its
   * own input, for its owner in its own scope and space; it ends executed exactly when the run succeeded. A missing
   * tool or a disabled skill runs nothing and leaves the action failed.
   */
  ghost predicate Approved(w: World, userId: string, id: nat, replies: Replies, w': World, outcome: Outcome) {
    if id !in w.rows then w' == w && outcome == NotFound
    else
      var row := w.rows[id];
      if row.userId != userId then w' == w && outcome == Forbidden
      else if row.status != Pending then w' == w && outcome == AlreadyProcessed(row)
      else if row.expiresAt.Some? && row.expiresAt.value < w.now then
        OnlyStatus(w, w', id, Expired) && outcome == ActionExpired(w'.rows[id])
      else if row.toolName !in w.registry || !replies.skillEnabled then
        OnlyStatus(w, w', id, Failed) && outcome == ActionExecuted(w'.rows[id], false)
      else
        var job := Job(w.registry[row.toolName], Context(row.userId, row.scope, row.space, Some(id)), row.input, true);
        && id in w'.rows && outcome.ActionExecuted? && outcome.row == w'.rows[id]
        && w'.rows[id] == row.(status := if outcome.toolResultOk then Executed else Failed)
        && ToolRan(w.(rows := w.rows[id := w'.rows[id]]), job, replies, w', outcome.toolResultOk)
  }

  /** reject() and cancel() settle a pending action of the caller, and run nothing. */
  ghost predicate Withdrawn(w: World, req: Request, w': World, outcome: Outcome)
    requires req.Reject? || req.Cancel?
  {
    if req.id !in w.rows then w' == w && outcome == NotFound
    else if w.rows[req.id].userId != req.userId then w' == w && outcome == Forbidden
    else if w.rows[req.id].status != Pending then w' == w && outcome == AlreadyProcessed(w.rows[req.id])
    else if req.Reject? then OnlyStatus(w, w', req.id, Rejected) && outcome == ActionRejected(w'.rows[req.id])
    else OnlyStatus(w, w', req.id, Cancelled) && outcome == ActionCancelled(w'.rows[req.id])
  }

  /**
   * requestExecution(): five refusals in this order; then an N1 tool free of confirmation runs at once on the validated
   * input, and any other becomes an action of the caller that waits for an answer.
   */
  ghost predicate Requested(w: World, toolName: string, raw: Input, ctx: Context, replies: Replies, w': World,
                            outcome: Outcome) {
    if toolName !in w.registry then w' == w && outcome == ToolRefused("unknown_tool")
    else
      var tool := w.registry[toolName];
      if tool.validate(raw).None? then w' == w && outcome == ToolRefused("invalid_arguments")
      else if ctx.scope !in tool.scopes then w' == w && outcome == ToolRefused("scope_not_allowed")
      else if tool.level == N4 then w' == w && outcome == ToolRefused("security_level_n4_blocked")
      else if !replies.skillEnabled then w' == w && outcome == ToolRefused("skill_disabled")
      else
        var input := tool.validate(raw).value;
        if tool.level == N1 && !tool.requiresConfirmation then
          outcome.ToolExecuted? && ToolRan(w, Job(tool, ctx, input, true), replies, w', outcome.ok)
        else
          && outcome == PendingConfirmation(w.nextRow) && SameSurroundings(w, w') && w'.log == w.log
          && w.nextRow in w'.rows && OneMore(w, w', w'.rows[w.nextRow])
          && IsProposal(w'.rows[w.nextRow], ctx.userId, ctx.scope, ctx.space, tool, input, w.now)
  }
}
