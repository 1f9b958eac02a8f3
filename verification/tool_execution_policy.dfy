/**
 * Nothing runs that the pipeline would not allow, whichever of the three ways
 * it got there: run at once by requestExecution, approved after a request, or
 * approved after a draft.
 */
module ToolExecutionPolicy {
  import opened ToolGate
  import opened PendingActions
  import opened PendingActionSafety

  /** The tool is registered, not N4, open to this scope, and these are arguments its validator produced. */
  ghost predicate Permitted(reg: Registry, tool: Tool, scope: Scope, input: Input) {
    && tool.name in reg && reg[tool.name] == tool
    && tool.level != N4
    && scope in tool.scopes
    && Validated(tool, input)
  }

  ghost predicate Justified(reg: Registry, row: Row) {
    row.toolName in reg && Permitted(reg, reg[row.toolName], row.scope, row.input)
  }

  ghost predicate Allowed(reg: Registry, job: Job) {
    Permitted(reg, job.tool, job.ctx.scope, job.input) && job.skillEnabled
  }

  ghost predicate GateCallOk(reg: Registry, call: Call) {
    && (call.pc.Drafting? ==> Justified(reg, call.pc.draft))
    && (call.pc.Creating? ==> Justified(reg, call.pc.action))
    && (call.pc.GateSkillLookup? && call.req.Propose?
        ==> Permitted(reg, call.pc.tool, call.req.ctx.scope, call.pc.value))
    && (IsRunPc(call.pc) ==> Allowed(reg, JobOf(call.pc)))
    && (IsRunPc(call.pc) && call.req.Propose? ==> RunsUnasked(JobOf(call.pc).tool))
  }

  /** Every job in the log was allowed, and ran unasked only if it might. */
  ghost predicate LogAllowed(reg: Registry, log: seq<Job>) {
    forall job <- log :: Allowed(reg, job) && (RunsUnasked(job.tool) || job.ctx.pendingActionId.Some?)
  }

  ghost predicate GateInv(w: World) {
    && (forall id <- w.rows :: Justified(w.registry, w.rows[id]))
    && (forall c <- w.calls :: GateCallOk(w.registry, w.calls[c]))
    && LogAllowed(w.registry, w.log)
  }

  lemma FreshActionIsJustified(reg: Registry, tool: Tool, ctx: Context, input: Input, now: int)
    requires Permitted(reg, tool, ctx.scope, input)
    ensures Justified(reg, FreshAction(tool, ctx, input, now))
  {}

  /** draft_action checks its target itself; the skill check is left to the approval. */
  lemma DraftIsJustified(reg: Registry, job: Job, now: int)
    requires WellFormed(reg) && DraftRow(reg, job, now).Some?
    ensures Justified(reg, DraftRow(reg, job, now).value)
  {
    var target := reg[job.input.targetTool];
    assert target.validate(job.input.targetInput).Some?;
  }

  lemma LookupKeepsGate(w: World, call: Call, answer: bool)
    requires GateCallOk(w.registry, call) && call.req.Propose? && call.pc.GateSkillLookup?
    ensures GateCallOk(w.registry, call.(pc := ProposeEffect(w, call.req, call.pc, answer).pc))
  {
    FreshActionIsJustified(w.registry, call.pc.tool, call.req.ctx, call.pc.value, w.now);
  }

  lemma RequestedKeepsGate(w: World, call: Call, answer: bool)
    requires WellFormed(w.registry) && call.req.Propose? && call.pc.Requested?
    ensures GateCallOk(w.registry, call.(pc := ProposeEffect(w, call.req, call.pc, answer).pc))
  {
    if call.req.toolName in w.registry {
      var checked := w.registry[call.req.toolName].validate(call.req.raw);
      assert checked == w.registry[call.req.toolName].validate(call.req.raw);
    }
  }

  lemma RequestStepKeepsGate(w: World, call: Call, answer: bool)
    requires WellFormed(w.registry) && GateCallOk(w.registry, call) && call.req.Propose? && !IsRunPc(call.pc)
    ensures GateCallOk(w.registry, call.(pc := CallEffect(w, call, answer).pc))
  {
    if call.pc.GateSkillLookup? { LookupKeepsGate(w, call, answer); }
    else if call.pc.Requested? { RequestedKeepsGate(w, call, answer); }
  }

  /** A draft about to be inserted is justified. */
  lemma DraftingIsJustified(w: World, call: Call, answer: bool)
    requires WellFormed(w.registry) && IsRunPc(call.pc) && RunEffect(w, call.req, call.pc, answer).pc.Drafting?
    ensures Justified(w.registry, RunEffect(w, call.req, call.pc, answer).pc.draft)
  {
    DraftIsJustified(w.registry, call.pc.job, w.now);
  }

  lemma RunStepKeepsGate(w: World, call: Call, answer: bool)
    requires WellFormed(w.registry) && CallOk(w, call) && GateCallOk(w.registry, call) && IsRunPc(call.pc)
    ensures GateCallOk(w.registry, call.(pc := CallEffect(w, call, answer).pc))
  {
    RunStepShape(w, call, answer);
    if RunEffect(w, call.req, call.pc, answer).pc.Drafting? { DraftingIsJustified(w, call, answer); }
  }

  /** An action on a claimed row is allowed to run once its skill is enabled. */
  lemma SkilledActionIsAllowed(w: World, call: Call, answer: bool)
    requires WellFormed(w.registry) && CallOk(w, call) && !call.req.Propose? && call.pc.SkillLookup?
    requires call.req.id in w.rows ==> Justified(w.registry, w.rows[call.req.id])
    ensures GateCallOk(w.registry, call.(pc := ActionEffect(w, call.req, call.pc, answer).pc))
  {
    assert ActionCallOk(w, call.req, call.pc);
  }

  lemma ActionStepKeepsGate(w: World, call: Call, answer: bool)
    requires WellFormed(w.registry) && CallOk(w, call) && !call.req.Propose? && !IsRunPc(call.pc)
    requires GateCallOk(w.registry, call) && (call.req.id in w.rows ==> Justified(w.registry, w.rows[call.req.id]))
    ensures GateCallOk(w.registry, call.(pc := CallEffect(w, call, answer).pc))
  {
    if call.pc.SkillLookup? { SkilledActionIsAllowed(w, call, answer); }
    else { OtherActionsStayOutside(w, call, answer); }
  }

  lemma OtherActionsStayOutside(w: World, call: Call, answer: bool)
    requires !call.req.Propose? && !IsRunPc(call.pc) && !call.pc.SkillLookup?
    ensures var pc := ActionEffect(w, call.req, call.pc, answer).pc;
      pc == call.pc || !(IsRunPc(pc) || pc.Drafting? || pc.Creating?)
  {}

  lemma SelfStepKeepsGate(w: World, c: nat, answer: bool)
    requires Inv(w) && GateInv(w) && c in w.calls
    ensures GateCallOk(w.registry, w.calls[c].(pc := CallEffect(w, w.calls[c], answer).pc))
  {
    var call := w.calls[c];
    assert CallOk(w, call) && GateCallOk(w.registry, call);
    if IsRunPc(call.pc) { RunStepKeepsGate(w, call, answer); }
    else if call.req.Propose? { RequestStepKeepsGate(w, call, answer); }
    else { ActionStepKeepsGate(w, call, answer); }
  }

  /** An inserted row is justified. */
  lemma InsertIsJustified(w: World, call: Call, answer: bool)
    requires GateCallOk(w.registry, call) && CallEffect(w, call, answer).write.Insert?
    ensures Justified(w.registry, CallEffect(w, call, answer).write.row)
  {}

  /** A job that starts is allowed, and is unasked only if it may be. */
  lemma StartIsAllowed(w: World, call: Call, answer: bool)
    requires GateCallOk(w.registry, call) && CallOk(w, call) && CallEffect(w, call, answer).write.Run?
    ensures var job := CallEffect(w, call, answer).write.job;
      Allowed(w.registry, job) && (RunsUnasked(job.tool) || job.ctx.pendingActionId.Some?)
  {
    assert IsRunPc(call.pc) && RunCallOk(w, call.req, call.pc);
  }

  lemma WriteKeepsRows(w: World, write: Write)
    requires forall id <- w.rows :: Justified(w.registry, w.rows[id])
    requires write.Insert? ==> Justified(w.registry, write.row)
    ensures forall id <- Perform(w, write).rows :: Justified(w.registry, Perform(w, write).rows[id])
  {
    var w' := Perform(w, write);
    forall id | id in w'.rows ensures Justified(w.registry, w'.rows[id]) {
      if id in w.rows { assert Justified(w.registry, w.rows[id]); }
    }
  }

  /** Every inserted row is justified, and every job that starts is allowed. */
  lemma WritesKeepGate(w: World, c: nat, answer: bool)
    requires Inv(w) && GateInv(w) && c in w.calls
    ensures var w' := Perform(w, CallEffect(w, w.calls[c], answer).write);
      (forall id <- w'.rows :: Justified(w.registry, w'.rows[id])) && LogAllowed(w.registry, w'.log)
  {
    var call, write := w.calls[c], CallEffect(w, w.calls[c], answer).write;
    assert GateCallOk(w.registry, call) && CallOk(w, call);
    if write.Insert? { InsertIsJustified(w, call, answer); }
    if write.Run? { StartIsAllowed(w, call, answer); }
    WriteKeepsRows(w, write);
  }

  lemma ResumeKeepsGate(w: World, c: nat, answer: bool)
    requires Inv(w) && GateInv(w) && c in w.calls
    ensures GateInv(Step(w, Resume(c, answer)))
  {
    WritesKeepGate(w, c, answer);
    SelfStepKeepsGate(w, c, answer);
    GateFollows(w, c, CallEffect(w, w.calls[c], answer));
  }

  lemma GateFollows(w: World, c: nat, eff: Effect)
    requires GateInv(w) && c in w.calls && GateCallOk(w.registry, w.calls[c].(pc := eff.pc))
    requires forall id <- Perform(w, eff.write).rows :: Justified(w.registry, Perform(w, eff.write).rows[id])
    requires LogAllowed(w.registry, Perform(w, eff.write).log)
    ensures GateInv(Apply(w, c, eff))
  {
    var w' := Apply(w, c, eff);
    assert w'.registry == w.registry && w'.rows == Perform(w, eff.write).rows && w'.log == Perform(w, eff.write).log;
    forall d | d in w'.calls ensures GateCallOk(w'.registry, w'.calls[d]) {
      if d != c { assert GateCallOk(w.registry, w.calls[d]); }
    }
  }

  lemma StepKeepsGate(w: World, e: Event)
    requires Inv(w) && GateInv(w)
    ensures GateInv(Step(w, e))
  {
    if e.Resume? {
      if e.call in w.calls { ResumeKeepsGate(w, e.call, e.answer); }
    } else {
      var w' := Step(w, e);
      forall c | c in w'.calls ensures GateCallOk(w'.registry, w'.calls[c]) {
        if c in w.calls { assert GateCallOk(w.registry, w.calls[c]); }
      }
    }
  }

  lemma {:induction false} ExecKeepsGate(w: World, events: seq<Event>)
    requires Inv(w) && GateInv(w)
    ensures GateInv(Exec(w, events))
    decreases |events|
  {
    if events != [] {
      StepKeepsGate(w, events[0]);
      StepKeepsInv(w, events[0]);
      ExecKeepsGate(Step(w, events[0]), events[1..]);
    }
  }

  lemma StepKeepsRegistry(w: World, e: Event)
    ensures Step(w, e).registry == w.registry
  {}

  lemma {:induction false} RegistryIsFixed(w: World, events: seq<Event>)
    ensures Exec(w, events).registry == w.registry
    decreases |events|
  {
    if events != [] {
      StepKeepsRegistry(w, events[0]);
      RegistryIsFixed(Step(w, events[0]), events[1..]);
    }
  }

  /**
   * Every execution of every run is of a registered non-N4 tool, in a scope it allows, on arguments its own
   * validator produced, after the skill service said yes; and a tool that is not N1-and-confirmation-free runs
   * only as the approved action of a row whose claim was won.
   */
  lemma EveryRunIsAllowed(w: World, events: seq<Event>, i: nat)
    requires Initial(w) && forall id <- w.rows :: Justified(w.registry, w.rows[id])
    requires i < |Exec(w, events).log|
    ensures Allowed(w.registry, Exec(w, events).log[i])
    ensures var w' := Exec(w, events); var job := w'.log[i];
      RunsUnasked(job.tool)
      || (job.ctx.pendingActionId.Some?
          && job.ctx.pendingActionId.value in w'.rows
          && var row := w'.rows[job.ctx.pendingActionId.value];
          RanOrMayRun(row.status) && row.toolName == job.tool.name && row.input == job.input
          && row.userId == job.ctx.userId && row.scope == job.ctx.scope)
  {
    InitialInv(w);
    ExecKeepsInv(w, events);
    ExecKeepsGate(w, events);
    RegistryIsFixed(w, events);
    var w' := Exec(w, events);
    assert w'.log[i] in w'.log;
    assert LogOk(w');
  }
}
