/**
 * The approval protocol: any number of approve, reject, cancel and tool-request
 * calls in flight at once over one table of pending actions. Every database
 * access or foreign call a service awaits is one step; between two steps of a
 * call, every other call may run.
 */
module PendingActions {
  import opened Wrappers
  import opened ToolGate

  const ACTION_TTL_MS := 30 * 60 * 1000

  datatype Status = Pending | Approved | Executed | Failed | Rejected | Expired | Cancelled

  datatype Row = Row(userId: string, toolName: string, scope: Scope, space: string, level: SecurityLevel,
                     input: Input, status: Status, expiresAt: Option<int>)

  datatype Request =
    | Approve(userId: string, id: nat)
    | Reject(userId: string, id: nat)
    | Cancel(userId: string, id: nat)
    | Propose(toolName: string, raw: Input, ctx: Context)

  /** One tool run: the tool found in the registry, its context and input, and what the skill service answered. */
  datatype Job = Job(tool: Tool, ctx: Context, input: Input, skillEnabled: bool)

  datatype Outcome =
    | NotFound | Forbidden | Threw
    | ActionExecuted(row: Row, toolResultOk: bool)
    | AlreadyProcessed(row: Row)
    | ActionExpired(row: Row)
    | ActionRejected(row: Row)
    | ActionCancelled(row: Row)
    | ToolRefused(reason: string)
    | ToolExecuted(ok: bool)
    | PendingConfirmation(actionId: nat)

  /** Where a call is: the await it is suspended on, with the locals it still needs. */
  datatype Pc =
    // approve, reject, cancel
    | Reading
    | Expiring(snap: Row)
    | ExpiryReread(won: bool)
    | ExpiryAudit(row: Row)
    | Claiming(snap: Row, checkedAt: int)
    | LostReread
    | ClaimAudit(snap: Row, checkedAt: int)
    | SettledReread
    | SkillLookup(snap: Row, tool: Tool)
    | Failing
    // executeNow
    | Opening(job: Job)
    | Running(job: Job)
    | Drafting(job: Job, draft: Row)
    | DraftAudit(job: Job)
    | Closing(job: Job, ok: bool)
    | RunAudit(job: Job, ok: bool)
    | Recovering(job: Job)
    | RecoveryAudit(job: Job)
    | FinalWrite(ok: bool)
    // requestExecution
    | Requested
    | Refusing(reason: string)
    | GateSkillLookup(tool: Tool, value: Input)
    | Creating(action: Row)
    | CreationAudit(actionId: nat)
    | Done(outcome: Outcome)

  datatype Call = Call(req: Request, pc: Pc)

  datatype World = World(registry: Registry, rows: map<nat, Row>, nextRow: nat,
                         calls: map<nat, Call>, log: seq<Job>, now: int)

  datatype Event =
    | Arrive(call: nat, req: Request)
    | Resume(call: nat, answer: bool)  // the awaited operation completes; `answer` is what a foreign call said
    | Abort(call: nat)                 // the awaited operation rejects
    | Tick(elapsed: nat)

  // ---------------------------------------------------------------------
  // One step

  /** The single database write a step performs, if any. */
  datatype Write = NoWrite | SetStatus(id: nat, status: Status) | Insert(row: Row) | Run(job: Job)

  datatype Effect = Effect(write: Write, pc: Pc)

  /** `updateMany({ where: { id, status: 'pending' } })`: the write it makes, or none when no row matches. */
  function Claim(w: World, id: nat, to: Status): Write {
    if id in w.rows && w.rows[id].status == Pending then SetStatus(id, to) else NoWrite
  }

  function Overdue(row: Row, now: int): bool {
    row.status == Pending && row.expiresAt.Some? && row.expiresAt.value < now
  }

  function Target(req: Request): Status {
    match req
    case Approve(_, _) => Approved
    case Reject(_, _) => Rejected
    case _ => Cancelled
  }

  function FreshAction(tool: Tool, ctx: Context, input: Input, now: int): Row {
    Row(ctx.userId, tool.name, ctx.scope, ctx.space, tool.level, input, Pending, Some(now + ACTION_TTL_MS))
  }

  /** The steps of approve, reject and cancel. */
  function ActionEffect(w: World, req: Request, pc: Pc, answer: bool): Effect
    requires !req.Propose?
  {
    var id := req.id;
    match pc
    case Reading =>
      if id !in w.rows then Effect(NoWrite, Done(NotFound))
      else if w.rows[id].userId != req.userId then Effect(NoWrite, Done(Forbidden))
      else if req.Approve? && Overdue(w.rows[id], w.now) then Effect(NoWrite, Expiring(w.rows[id]))
      else Effect(NoWrite, Claiming(w.rows[id], w.now))
    case Expiring(_) =>
      var write := Claim(w, id, Expired);
      Effect(write, ExpiryReread(write.SetStatus?))
    case ExpiryReread(won) =>
      if id !in w.rows then Effect(NoWrite, Done(Threw))
      else if won then Effect(NoWrite, ExpiryAudit(w.rows[id]))
      else Effect(NoWrite, Done(ActionExpired(w.rows[id])))
    case ExpiryAudit(row) => Effect(NoWrite, Done(ActionExpired(row)))
    case Claiming(snap, checkedAt) =>
      var write := Claim(w, id, Target(req));
      Effect(write, if write.SetStatus? then ClaimAudit(snap, checkedAt) else LostReread)
    case LostReread =>
      Effect(NoWrite, Done(if id in w.rows then AlreadyProcessed(w.rows[id]) else Threw))
    case ClaimAudit(snap, _) =>
      if !req.Approve? then Effect(NoWrite, SettledReread)
      else if snap.toolName in w.registry then Effect(NoWrite, SkillLookup(snap, w.registry[snap.toolName]))
      else Effect(NoWrite, Failing)
    case SettledReread =>
      if id !in w.rows then Effect(NoWrite, Done(Threw))
      else Effect(NoWrite, Done(if req.Reject? then ActionRejected(w.rows[id]) else ActionCancelled(w.rows[id])))
    case SkillLookup(snap, tool) =>
      var ctx := Context(req.userId, snap.scope, snap.space, Some(id));
      if answer then Effect(NoWrite, Opening(Job(tool, ctx, snap.input, answer)))
      else Effect(NoWrite, Failing)
    case Failing => Overwrite(w, id, false, Failed)
    case FinalWrite(ok) => Overwrite(w, id, ok, if ok then Executed else Failed)
    case _ => Effect(NoWrite, pc)
  }

  /** The unconditional `update({ where: { id } })` that ends an approval. */
  function Overwrite(w: World, id: nat, ok: bool, status: Status): Effect {
    if id in w.rows then Effect(SetStatus(id, status), Done(ActionExecuted(w.rows[id].(status := status), ok)))
    else Effect(NoWrite, Done(Threw))
  }

  /** The steps of requestExecution: lookup, validation, permission, skill, N4, then run or ask. */
  function ProposeEffect(w: World, req: Request, pc: Pc, answer: bool): Effect
    requires req.Propose?
  {
    match pc
    case Requested =>
      if req.toolName !in w.registry then Effect(NoWrite, Refusing("unknown_tool"))
      else
        var tool := w.registry[req.toolName];
        var checked := tool.validate(req.raw);
        if checked.None? then Effect(NoWrite, Refusing("invalid_arguments"))
        else (match Check(req.ctx, Some(tool))
              case Denied(reason) => Effect(NoWrite, Refusing(reason))
              case Allowed => Effect(NoWrite, GateSkillLookup(tool, checked.value)))
    case Refusing(reason) => Effect(NoWrite, Done(ToolRefused(reason)))
    case GateSkillLookup(tool, value) =>
      if !answer then Effect(NoWrite, Refusing("skill_disabled"))
      else if tool.level == N4 then Effect(NoWrite, Refusing("security_level_n4_blocked"))
      else if RunsUnasked(tool) then Effect(NoWrite, Opening(Job(tool, req.ctx, value, answer)))
      else Effect(NoWrite, Creating(FreshAction(tool, req.ctx, value, w.now)))
    case Creating(action) => Effect(Insert(action), CreationAudit(w.nextRow))
    case CreationAudit(actionId) => Effect(NoWrite, Done(PendingConfirmation(actionId)))
    case _ => Effect(NoWrite, pc)
  }

  /** DraftActionTool.execute up to its first await: the row it will insert, or a failed result. */
  function DraftRow(reg: Registry, job: Job, now: int): Option<Row> {
    if !job.input.Draft? || job.input.targetTool !in reg then None
    else
      var target := reg[job.input.targetTool];
      if job.ctx.scope !in target.scopes || target.level == N4 then None
      else
        match target.validate(job.input.targetInput)
        case None => None
        case Some(value) => Some(FreshAction(target, job.ctx, value, now))
  }

  /** Where the tool is once it has started. */
  function Started(w: World, job: Job): Pc {
    var draft := if job.tool.name == DRAFT_ACTION then DraftRow(w.registry, job, w.now) else None;
    if draft.Some? then Drafting(job, draft.value) else Running(job)
  }

  /**
   * Where a call goes when the operation it awaits rejects. Inside executeNow's try block the catch block records a
   * failed call; anywhere else, and in the catch block itself, the exception leaves the call.
   */
  function Thrown(pc: Pc): Pc {
    if InTry(pc) then Recovering(pc.job) else Done(Threw)
  }

  /** The awaits of the tool, of its own insert and audit, and of the two writes that record its result. */
  predicate InTry(pc: Pc) {
    pc.Running? || pc.Drafting? || pc.DraftAudit? || pc.Closing? || pc.RunAudit?
  }

  /** Where executeNow returns to. */
  function RunReturns(req: Request, ok: bool): Pc {
    if req.Propose? then Done(ToolExecuted(ok)) else FinalWrite(ok)
  }

  /**
   * The steps of executeNow. The tool starts, and is logged as run, as soon as its call row is there; draft_action
   * then gets as far as its insert, and a draft it refuses is a failed result.
   */
  function RunEffect(w: World, req: Request, pc: Pc, answer: bool): Effect {
    match pc
    case Opening(job) => Effect(Run(job), Started(w, job))
    case Running(job) => Effect(NoWrite, Closing(job, answer && job.tool.name != DRAFT_ACTION))
    case Drafting(job, row) => Effect(Insert(row), DraftAudit(job))
    case DraftAudit(job) => Effect(NoWrite, Closing(job, true))
    case Closing(job, ok) => Effect(NoWrite, RunAudit(job, ok))
    case RunAudit(job, ok) => Effect(NoWrite, RunReturns(req, ok))
    case Recovering(job) => Effect(NoWrite, RecoveryAudit(job))
    case RecoveryAudit(_) => Effect(NoWrite, RunReturns(req, false))
    case _ => Effect(NoWrite, pc)
  }

  predicate IsRunPc(pc: Pc) {
    pc.Opening? || pc.Running? || pc.Drafting? || pc.DraftAudit? || pc.Closing? || pc.RunAudit?
    || pc.Recovering? || pc.RecoveryAudit?
  }

  function CallEffect(w: World, call: Call, answer: bool): Effect {
    if IsRunPc(call.pc) then RunEffect(w, call.req, call.pc, answer)
    else if call.req.Propose? then ProposeEffect(w, call.req, call.pc, answer)
    else ActionEffect(w, call.req, call.pc, answer)
  }

  function Perform(w: World, write: Write): World {
    match write
    case NoWrite => w
    case SetStatus(id, status) => if id in w.rows then w.(rows := w.rows[id := w.rows[id].(status := status)]) else w
    case Insert(row) => w.(rows := w.rows[w.nextRow := row], nextRow := w.nextRow + 1)
    case Run(job) => w.(log := w.log + [job])
  }

  function Apply(w: World, c: nat, eff: Effect): World
    requires c in w.calls
  {
    Perform(w, eff.write).(calls := w.calls[c := w.calls[c].(pc := eff.pc)])
  }

  /** A request carries no pending action id of its own: only approve() puts one in a context. */
  function Start(req: Request): Call {
    if req.Propose? then Call(req.(ctx := req.ctx.(pendingActionId := None)), Requested) else Call(req, Reading)
  }

  function Step(w: World, e: Event): World {
    match e
    case Arrive(c, req) => if c in w.calls then w else w.(calls := w.calls[c := Start(req)])
    case Resume(c, answer) => if c in w.calls then Apply(w, c, CallEffect(w, w.calls[c], answer)) else w
    case Abort(c) =>
      if c in w.calls && !w.calls[c].pc.Done? then Apply(w, c, Effect(NoWrite, Thrown(w.calls[c].pc))) else w
    case Tick(elapsed) => w.(now := w.now + elapsed)
  }

  function Exec(w: World, events: seq<Event>): World
    decreases |events|
  {
    if events == [] then w else Exec(Step(w, events[0]), events[1..])
  }

  /** A service that has just started: any table of actions, no call in flight, nothing run yet. */
  ghost predicate Initial(w: World) {
    && WellFormed(w.registry)
    && w.calls == map[]
    && w.log == []
    && (forall id <- w.rows :: id < w.nextRow)
  }
}
