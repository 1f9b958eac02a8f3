/**
 * The services as they are written: methods that update the table of actions and the log of tool runs in place. A
 * method called with nobody interfering is one schedule of the step machine, and whatever sequence of requests is
 * served is a run of it, so what holds of every run holds of the services.
 */
module PendingActionServices {
  import opened Wrappers
  import opened ToolGate
  import opened PendingActions
  import Outcomes = PendingActionOutcomes
  import opened PendingActionSafety
  import Policy = ToolExecutionPolicy

  /** The world with call `c` in flight, suspended at `pc`. */
  ghost function Lone(w: World, c: nat, req: Request, pc: Pc): World {
    w.(calls := w.calls[c := Call(req, pc)])
  }

  lemma EffectIgnoresCalls(w: World, calls: map<nat, Call>, call: Call, answer: bool)
    ensures CallEffect(w.(calls := calls), call, answer) == CallEffect(w, call, answer)
  {}

  lemma PerformIgnoresCalls(w: World, calls: map<nat, Call>, calls': map<nat, Call>, write: Write)
    ensures Perform(w.(calls := calls), write).(calls := calls') == Perform(w, write).(calls := calls')
    ensures Perform(w, write).calls == w.calls
  {}

  /** One await of the call completes. */
  lemma LoneStep(w: World, c: nat, req: Request, pc: Pc, answer: bool)
    ensures var eff := CallEffect(w, Call(req, pc), answer);
      Step(Lone(w, c, req, pc), Resume(c, answer)) == Lone(Perform(w, eff.write), c, req, eff.pc)
  {
    var calls := w.calls[c := Call(req, pc)];
    EffectIgnoresCalls(w, calls, Call(req, pc), answer);
    var eff := CallEffect(w, Call(req, pc), answer);
    PerformIgnoresCalls(w, calls, w.calls[c := Call(req, eff.pc)], eff.write);
    assert calls[c := Call(req, eff.pc)] == w.calls[c := Call(req, eff.pc)];
  }

  /** One await, as a run of length one from `w` suspended at `pc` to `w'` suspended at `pc'`. */
  lemma One(w: World, c: nat, req: Request, pc: Pc, answer: bool, w': World, pc': Pc) returns (events: seq<Event>)
    requires var eff := CallEffect(w, Call(req, pc), answer); Perform(w, eff.write) == w' && eff.pc == pc'
    ensures Exec(Lone(w, c, req, pc), events) == Lone(w', c, req, pc')
  {
    var e := Resume(c, answer);
    LoneStep(w, c, req, pc, answer);
    events := [e] + [];
    ExecCons(Lone(w, c, req, pc), e, []);
  }

  /** The awaited operation rejects. */
  lemma Throwing(w: World, c: nat, req: Request, pc: Pc) returns (events: seq<Event>)
    requires !pc.Done?
    ensures Exec(Lone(w, c, req, pc), events) == Lone(w, c, req, Thrown(pc))
  {
    events := [Abort(c)] + [];
    ExecCons(Lone(w, c, req, pc), Abort(c), []);
    assert w.calls[c := Call(req, pc)][c := Call(req, Thrown(pc))] == w.calls[c := Call(req, Thrown(pc))];
  }

  /** Runs compose. */
  lemma Then(a: World, es: seq<Event>, b: World, fs: seq<Event>, c: World) returns (events: seq<Event>)
    requires Exec(a, es) == b && Exec(b, fs) == c
    ensures Exec(a, events) == c
  {
    ExecConcat(a, es, fs);
    events := es + fs;
  }

  // ---------------------------------------------------------------------
  // executeNow

  function Draft(w: World, job: Job): Option<Row> {
    if job.tool.name == DRAFT_ACTION then DraftRow(w.registry, job, w.now) else None
  }

  /** What executeNow leaves behind: the log gains the job, and only a draft that could be stored adds an action. */
  function Ran(w: World, job: Job, replies: Outcomes.Replies): World {
    var w' := Perform(w, Write.Run(job));
    if Draft(w, job).Some? && replies.draftStored then Perform(w', Insert(Draft(w, job).value)) else w'
  }

  /** The tool's own result. */
  function ToolOk(w: World, job: Job, replies: Outcomes.Replies): bool {
    replies.toolOk && (job.tool.name == DRAFT_ACTION ==> Draft(w, job).Some? && replies.draftStored)
  }

  /** What executeNow answers: a result that could not be recorded counts as failed. */
  function RanOk(w: World, job: Job, replies: Outcomes.Replies): bool {
    ToolOk(w, job, replies) && replies.callUpdated && replies.callAudited
  }

  /** Where the tool leaves executeNow: with a result, or in the catch block. */
  function ToolEnds(w: World, job: Job, replies: Outcomes.Replies): Pc {
    if Draft(w, job).Some? && !ToolOk(w, job, replies) then Recovering(job) else Closing(job, ToolOk(w, job, replies))
  }

  /** A draft that was accepted is stored and audited. */
  lemma StoringIsARun(w: World, c: nat, req: Request, job: Job, row: Row, replies: Outcomes.Replies)
    returns (events: seq<Event>)
    ensures Exec(Lone(w, c, req, Drafting(job, row)), events)
         == Lone(if replies.draftStored then Perform(w, Insert(row)) else w, c, req,
                 if replies.draftStored && replies.toolOk then Closing(job, true) else Recovering(job))
  {
    if !replies.draftStored {
      events := Throwing(w, c, req, Drafting(job, row));
    } else {
      var (w', audit) := (Perform(w, Insert(row)), DraftAudit(job));
      var a := One(w, c, req, Drafting(job, row), true, w', audit);
      var end := if replies.toolOk then Closing(job, true) else Recovering(job);
      var b: seq<Event>;
      if replies.toolOk { b := One(w', c, req, audit, true, w', end); } else { b := Throwing(w', c, req, audit); }
      events := Then(Lone(w, c, req, Drafting(job, row)), a, Lone(w', c, req, audit), b, Lone(w', c, req, end));
    }
  }

  lemma RunToolIsARun(w: World, c: nat, req: Request, job: Job, replies: Outcomes.Replies)
    returns (events: seq<Event>)
    ensures Exec(Lone(w, c, req, Opening(job)), events)
         == Lone(Ran(w, job, replies), c, req, ToolEnds(w, job, replies))
  {
    var (w1, started) := (Perform(w, Write.Run(job)), Started(w, job));
    var end := Lone(Ran(w, job, replies), c, req, ToolEnds(w, job, replies));
    var a := One(w, c, req, Opening(job), true, w1, started);
    var b: seq<Event>;
    if Draft(w, job).Some? {
      b := StoringIsARun(w1, c, req, job, Draft(w, job).value, replies);
    } else {
      b := One(w1, c, req, Running(job), replies.toolOk, w1, Closing(job, ToolOk(w, job, replies)));
    }
    events := Then(Lone(w, c, req, Opening(job)), a, Lone(w1, c, req, started), b, end);
  }

  /** The catch block of executeNow. */
  lemma RecoveryIsARun(w: World, c: nat, req: Request, job: Job) returns (events: seq<Event>)
    ensures Exec(Lone(w, c, req, Recovering(job)), events) == Lone(w, c, req, RunReturns(req, false))
  {
    var end := RunReturns(req, false);
    var a := One(w, c, req, Recovering(job), true, w, RecoveryAudit(job));
    var b := One(w, c, req, RecoveryAudit(job), true, w, end);
    events := Then(Lone(w, c, req, Recovering(job)), a, Lone(w, c, req, RecoveryAudit(job)), b, Lone(w, c, req, end));
  }

  /** A write inside the try block succeeds, or ends in the catch block. */
  lemma WriteOrRecover(w: World, c: nat, req: Request, pc: Pc, job: Job, done: bool, next: Pc)
    returns (events: seq<Event>)
    requires InTry(pc) && pc.job == job && CallEffect(w, Call(req, pc), true) == Effect(NoWrite, next)
    ensures Exec(Lone(w, c, req, pc), events) == Lone(w, c, req, if done then next else RunReturns(req, false))
  {
    if done {
      events := One(w, c, req, pc, true, w, next);
    } else {
      var a := Throwing(w, c, req, pc);
      var b := RecoveryIsARun(w, c, req, job);
      events := Then(Lone(w, c, req, pc), a, Lone(w, c, req, Recovering(job)), b,
                     Lone(w, c, req, RunReturns(req, false)));
    }
  }

  /** The two writes that record a result. */
  lemma RecordingIsARun(w: World, c: nat, req: Request, job: Job, ok: bool, replies: Outcomes.Replies)
    returns (events: seq<Event>)
    ensures Exec(Lone(w, c, req, Closing(job, ok)), events)
         == Lone(w, c, req, RunReturns(req, ok && replies.callUpdated && replies.callAudited))
  {
    var (closing, audit) := (Closing(job, ok), RunAudit(job, ok));
    var a := WriteOrRecover(w, c, req, closing, job, replies.callUpdated, audit);
    if !replies.callUpdated {
      events := a;
    } else {
      var b := WriteOrRecover(w, c, req, audit, job, replies.callAudited, RunReturns(req, ok));
      events := Then(Lone(w, c, req, closing), a, Lone(w, c, req, audit), b,
                     Lone(w, c, req, RunReturns(req, ok && replies.callAudited)));
    }
  }

  lemma ReturningIsARun(w: World, w1: World, c: nat, req: Request, job: Job, replies: Outcomes.Replies)
    returns (events: seq<Event>)
    ensures Exec(Lone(w1, c, req, ToolEnds(w, job, replies)), events)
         == Lone(w1, c, req, RunReturns(req, RanOk(w, job, replies)))
  {
    if ToolEnds(w, job, replies).Recovering? {
      events := RecoveryIsARun(w1, c, req, job);
    } else {
      events := RecordingIsARun(w1, c, req, job, ToolOk(w, job, replies), replies);
    }
  }

  /** executeNow, from its first await to the point where it returns. */
  lemma ExecuteNowIsARun(w: World, c: nat, req: Request, job: Job, replies: Outcomes.Replies)
    returns (events: seq<Event>)
    ensures Exec(Lone(w, c, req, Opening(job)), events)
         == Lone(Ran(w, job, replies), c, req, RunReturns(req, RanOk(w, job, replies)))
  {
    var w1 := Ran(w, job, replies);
    var a := RunToolIsARun(w, c, req, job, replies);
    var b := ReturningIsARun(w, w1, c, req, job, replies);
    events := Then(Lone(w, c, req, Opening(job)), a, Lone(w1, c, req, ToolEnds(w, job, replies)), b,
                   Lone(w1, c, req, RunReturns(req, RanOk(w, job, replies))));
  }

  // ---------------------------------------------------------------------
  // What each service method does when nobody interferes

  function Mark(w: World, id: nat, status: Status): World {
    Perform(w, SetStatus(id, status))
  }

  /** approve() after a won claim. */
  function ClaimedEnd(w: World, userId: string, id: nat, action: Row, replies: Outcomes.Replies): (World, Outcome)
    requires id in w.rows
  {
    if action.toolName !in w.registry || !replies.skillEnabled then
      (Mark(w, id, Failed), ActionExecuted(w.rows[id].(status := Failed), false))
    else
      var ctx := Context(userId, action.scope, action.space, Some(id));
      var job := Job(w.registry[action.toolName], ctx, action.input, true);
      var (ok, w') := (RanOk(w, job, replies), Ran(w, job, replies));
      var status := if ok then Executed else Failed;
      (Mark(w', id, status), ActionExecuted(w'.rows[id].(status := status), ok))
  }

  function ApproveEnd(w: World, userId: string, id: nat, replies: Outcomes.Replies): (World, Outcome) {
    if id !in w.rows then (w, NotFound)
    else if w.rows[id].userId != userId then (w, Forbidden)
    else if Overdue(w.rows[id], w.now) then (Mark(w, id, Expired), ActionExpired(w.rows[id].(status := Expired)))
    else if w.rows[id].status != Pending then (w, AlreadyProcessed(w.rows[id]))
    else ClaimedEnd(Mark(w, id, Approved), userId, id, w.rows[id], replies)
  }

  function WithdrawEnd(w: World, req: Request): (World, Outcome)
    requires req.Reject? || req.Cancel?
  {
    if req.id !in w.rows then (w, NotFound)
    else if w.rows[req.id].userId != req.userId then (w, Forbidden)
    else if w.rows[req.id].status != Pending then (w, AlreadyProcessed(w.rows[req.id]))
    else
      var row := w.rows[req.id].(status := Target(req));
      (Mark(w, req.id, Target(req)), if req.Reject? then ActionRejected(row) else ActionCancelled(row))
  }

  function RequestEnd(w: World, toolName: string, raw: Input, ctx: Context, replies: Outcomes.Replies)
    : (World, Outcome)
  {
    if toolName !in w.registry then (w, ToolRefused("unknown_tool"))
    else
      var tool := w.registry[toolName];
      var checked := tool.validate(raw);
      if checked.None? then (w, ToolRefused("invalid_arguments"))
      else
        match Check(ctx, Some(tool))
        case Denied(reason) => (w, ToolRefused(reason))
        case Allowed =>
          if !replies.skillEnabled then (w, ToolRefused("skill_disabled"))
          else if RunsUnasked(tool) then
            var job := Job(tool, ctx, checked.value, true);
            (Ran(w, job, replies), ToolExecuted(RanOk(w, job, replies)))
          else (Perform(w, Insert(FreshAction(tool, ctx, checked.value, w.now))), PendingConfirmation(w.nextRow))
  }

  // ---------------------------------------------------------------------
  // Which is what was promised

  lemma RanIsToolRan(w: World, job: Job, replies: Outcomes.Replies)
    ensures Outcomes.ToolRan(w, job, replies, Ran(w, job, replies), RanOk(w, job, replies))
  {}

  /** approve() runs the approved action, once, and answers how that went. */
  lemma ApproveEndIsApproved(w: World, userId: string, id: nat, replies: Outcomes.Replies)
    requires forall k <- w.rows :: k < w.nextRow
    ensures var (end, outcome) := ApproveEnd(w, userId, id, replies);
      Outcomes.Approved(w, userId, id, replies, end, outcome)
  {
    if id in w.rows && w.rows[id].userId == userId && w.rows[id].status == Pending && !Overdue(w.rows[id], w.now) {
      ClaimedEndRuns(w, id, replies);
    }
  }

  lemma ClaimedEndRuns(w: World, id: nat, replies: Outcomes.Replies)
    requires id in w.rows && id < w.nextRow && w.rows[id].status == Pending && !Overdue(w.rows[id], w.now)
    ensures var (end, outcome) := ClaimedEnd(Mark(w, id, Approved), w.rows[id].userId, id, w.rows[id], replies);
      Outcomes.Approved(w, w.rows[id].userId, id, replies, end, outcome)
  {
    var (row, claimed) := (w.rows[id], Mark(w, id, Approved));
    var (end, outcome) := ClaimedEnd(claimed, row.userId, id, row, replies);
    if row.toolName !in w.registry || !replies.skillEnabled {
      assert end.rows == w.rows[id := row.(status := Failed)];
    } else {
      var job := Job(w.registry[row.toolName], Context(row.userId, row.scope, row.space, Some(id)), row.input, true);
      RunUnderAnyStatus(w, id, Approved, end.rows[id].status, job, replies);
    }
  }

  /** The status of the action being approved makes no difference to its run. */
  lemma RunUnderAnyStatus(w: World, id: nat, during: Status, final: Status, job: Job, replies: Outcomes.Replies)
    requires id in w.rows && id < w.nextRow
    ensures Outcomes.ToolRan(Mark(w, id, final), job, replies, Mark(Ran(Mark(w, id, during), job, replies), id, final),
                             RanOk(Mark(w, id, during), job, replies))
  {
    var (w0, w1) := (Mark(w, id, final), Mark(w, id, during));
    RanIsToolRan(w0, job, replies);
    assert Mark(Ran(w1, job, replies), id, final).rows == Ran(w0, job, replies).rows;
  }

  lemma WithdrawEndIsWithdrawn(w: World, req: Request)
    requires req.Reject? || req.Cancel?
    ensures var (end, outcome) := WithdrawEnd(w, req); Outcomes.Withdrawn(w, req, end, outcome)
  {}

  lemma RequestEndIsRequested(w: World, toolName: string, raw: Input, ctx: Context, replies: Outcomes.Replies)
    ensures var (end, outcome) := RequestEnd(w, toolName, raw, ctx, replies);
      Outcomes.Requested(w, toolName, raw, ctx, replies, end, outcome)
  {
    if toolName in w.registry && w.registry[toolName].validate(raw).Some? {
      RanIsToolRan(w, Job(w.registry[toolName], ctx, w.registry[toolName].validate(raw).value, true), replies);
    }
  }

  // ---------------------------------------------------------------------
  // Each is a run

  lemma FailIsARun(w: World, c: nat, userId: string, id: nat) returns (events: seq<Event>)
    requires id in w.rows
    ensures var req := Approve(userId, id);
      Exec(Lone(w, c, req, Failing), events)
      == Lone(Mark(w, id, Failed), c, req, Done(ActionExecuted(w.rows[id].(status := Failed), false)))
  {
    events := One(w, c, Approve(userId, id), Failing, true, Mark(w, id, Failed),
                  Done(ActionExecuted(w.rows[id].(status := Failed), false)));
  }

  /** The write that ends an approval. */
  lemma ClosingIsARun(w: World, c: nat, req: Request, ok: bool) returns (events: seq<Event>)
    requires req.Approve? && req.id in w.rows
    ensures var status := if ok then Executed else Failed;
      Exec(Lone(w, c, req, FinalWrite(ok)), events)
      == Lone(Mark(w, req.id, status), c, req, Done(ActionExecuted(w.rows[req.id].(status := status), ok)))
  {
    var status := if ok then Executed else Failed;
    events := One(w, c, req, FinalWrite(ok), true, Mark(w, req.id, status),
                  Done(ActionExecuted(w.rows[req.id].(status := status), ok)));
  }

  lemma RanKeepsRow(w: World, job: Job, replies: Outcomes.Replies, id: nat)
    requires id in w.rows && id < w.nextRow
    ensures id in Ran(w, job, replies).rows && Ran(w, job, replies).rows[id] == w.rows[id]
  {}

  /** A claimed action whose tool is enabled: the tool runs, then the action's own row is written. */
  lemma ApprovedJobIsARun(w: World, c: nat, req: Request, job: Job, replies: Outcomes.Replies)
    returns (events: seq<Event>)
    requires req.Approve? && req.id in w.rows && req.id < w.nextRow
    ensures var (ok, w1) := (RanOk(w, job, replies), Ran(w, job, replies));
      var status := if ok then Executed else Failed;
      && req.id in w1.rows
      && Exec(Lone(w, c, req, Opening(job)), events)
         == Lone(Mark(w1, req.id, status), c, req, Done(ActionExecuted(w1.rows[req.id].(status := status), ok)))
  {
    var (ok, w1) := (RanOk(w, job, replies), Ran(w, job, replies));
    RanKeepsRow(w, job, replies, req.id);
    var a := ExecuteNowIsARun(w, c, req, job, replies);
    var b := ClosingIsARun(w1, c, req, ok);
    events := Then(Lone(w, c, req, Opening(job)), a, Lone(w1, c, req, FinalWrite(ok)), b,
                   Exec(Lone(w1, c, req, FinalWrite(ok)), b));
  }

  lemma ApprovedRunIsARun(w: World, c: nat, userId: string, id: nat, action: Row, replies: Outcomes.Replies)
    returns (events: seq<Event>)
    requires id in w.rows && id < w.nextRow && action.toolName in w.registry && replies.skillEnabled
    ensures var req := Approve(userId, id); var (end, outcome) := ClaimedEnd(w, userId, id, action, replies);
      Exec(Lone(w, c, req, SkillLookup(action, w.registry[action.toolName])), events)
      == Lone(end, c, req, Done(outcome))
  {
    var req := Approve(userId, id);
    var tool := w.registry[action.toolName];
    var job := Job(tool, Context(userId, action.scope, action.space, Some(id)), action.input, true);
    var (end, outcome) := ClaimedEnd(w, userId, id, action, replies);
    var lookup := SkillLookup(action, tool);
    var a := One(w, c, req, lookup, true, w, Opening(job));
    var b := ApprovedJobIsARun(w, c, req, job, replies);
    events := Then(Lone(w, c, req, lookup), a, Lone(w, c, req, Opening(job)), b, Lone(end, c, req, Done(outcome)));
  }

  lemma BlockedIsARun(w: World, c: nat, userId: string, id: nat, action: Row) returns (events: seq<Event>)
    requires id in w.rows && action.toolName in w.registry
    ensures var req := Approve(userId, id);
      Exec(Lone(w, c, req, SkillLookup(action, w.registry[action.toolName])), events)
      == Lone(Mark(w, id, Failed), c, req, Done(ActionExecuted(w.rows[id].(status := Failed), false)))
  {
    var (req, lookup) := (Approve(userId, id), SkillLookup(action, w.registry[action.toolName]));
    var a := One(w, c, req, lookup, false, w, Failing);
    var b := FailIsARun(w, c, userId, id);
    events := Then(Lone(w, c, req, lookup), a, Lone(w, c, req, Failing), b, Exec(Lone(w, c, req, Failing), b));
  }

  lemma ClaimedEndIsARun(w: World, c: nat, userId: string, id: nat, action: Row, at: int, replies: Outcomes.Replies)
    returns (events: seq<Event>)
    requires id in w.rows && id < w.nextRow
    ensures var req := Approve(userId, id); var (end, outcome) := ClaimedEnd(w, userId, id, action, replies);
      Exec(Lone(w, c, req, ClaimAudit(action, at)), events) == Lone(end, c, req, Done(outcome))
  {
    var req := Approve(userId, id);
    var (end, outcome) := ClaimedEnd(w, userId, id, action, replies);
    var start := Lone(w, c, req, ClaimAudit(action, at));
    if action.toolName !in w.registry {
      var a := One(w, c, req, ClaimAudit(action, at), true, w, Failing);
      var b := FailIsARun(w, c, userId, id);
      events := Then(start, a, Lone(w, c, req, Failing), b, Lone(end, c, req, Done(outcome)));
    } else {
      var lookup := SkillLookup(action, w.registry[action.toolName]);
      var a := One(w, c, req, ClaimAudit(action, at), true, w, lookup);
      if replies.skillEnabled {
        var b := ApprovedRunIsARun(w, c, userId, id, action, replies);
        events := Then(start, a, Lone(w, c, req, lookup), b, Lone(end, c, req, Done(outcome)));
      } else {
        var b := BlockedIsARun(w, c, userId, id, action);
        events := Then(start, a, Lone(w, c, req, lookup), b, Lone(end, c, req, Done(outcome)));
      }
    }
  }

  lemma ExpiryIsARun(w: World, c: nat, userId: string, id: nat) returns (events: seq<Event>)
    requires id in w.rows && w.rows[id].userId == userId && Overdue(w.rows[id], w.now)
    ensures var req := Approve(userId, id);
      Exec(Lone(w, c, req, Reading), events)
      == Lone(Mark(w, id, Expired), c, req, Done(ActionExpired(w.rows[id].(status := Expired))))
  {
    var (req, row) := (Approve(userId, id), w.rows[id]);
    var (w1, gone) := (Mark(w, id, Expired), row.(status := Expired));
    var a := One(w, c, req, Reading, true, w, Expiring(row));
    var b := One(w, c, req, Expiring(row), true, w1, ExpiryReread(true));
    var e3 := One(w1, c, req, ExpiryReread(true), true, w1, ExpiryAudit(gone));
    var e4 := One(w1, c, req, ExpiryAudit(gone), true, w1, Done(ActionExpired(gone)));
    var ab := Then(Lone(w, c, req, Reading), a, Lone(w, c, req, Expiring(row)), b,
                   Lone(w1, c, req, ExpiryReread(true)));
    var cd := Then(Lone(w1, c, req, ExpiryReread(true)), e3, Lone(w1, c, req, ExpiryAudit(gone)), e4,
                   Lone(w1, c, req, Done(ActionExpired(gone))));
    events := Then(Lone(w, c, req, Reading), ab, Lone(w1, c, req, ExpiryReread(true)), cd,
                   Lone(w1, c, req, Done(ActionExpired(gone))));
  }

  /** A claim that finds the row taken, for any of the three calls. */
  lemma LostIsARun(w: World, c: nat, req: Request, row: Row, at: int) returns (events: seq<Event>)
    requires !req.Propose? && req.id in w.rows && w.rows[req.id].status != Pending
    ensures Exec(Lone(w, c, req, Claiming(row, at)), events) == Lone(w, c, req, Done(AlreadyProcessed(w.rows[req.id])))
  {
    var end := Done(AlreadyProcessed(w.rows[req.id]));
    var a := One(w, c, req, Claiming(row, at), true, w, LostReread);
    var b := One(w, c, req, LostReread, true, w, end);
    events := Then(Lone(w, c, req, Claiming(row, at)), a, Lone(w, c, req, LostReread), b, Lone(w, c, req, end));
  }

  lemma LostClaimIsARun(w: World, c: nat, req: Request) returns (events: seq<Event>)
    requires !req.Propose? && req.id in w.rows && w.rows[req.id].userId == req.userId
      && w.rows[req.id].status != Pending
    ensures Exec(Lone(w, c, req, Reading), events) == Lone(w, c, req, Done(AlreadyProcessed(w.rows[req.id])))
  {
    var row := w.rows[req.id];
    var (claiming, end) := (Claiming(row, w.now), Done(AlreadyProcessed(row)));
    var a := One(w, c, req, Reading, true, w, claiming);
    var b := LostIsARun(w, c, req, row, w.now);
    events := Then(Lone(w, c, req, Reading), a, Lone(w, c, req, claiming), b, Lone(w, c, req, end));
  }

  lemma WonClaimIsARun(w: World, c: nat, req: Request) returns (events: seq<Event>)
    requires !req.Propose? && req.id in w.rows && w.rows[req.id].userId == req.userId
      && w.rows[req.id].status == Pending
    requires req.Approve? ==> !Overdue(w.rows[req.id], w.now)
    ensures Exec(Lone(w, c, req, Reading), events)
      == Lone(Mark(w, req.id, Target(req)), c, req, ClaimAudit(w.rows[req.id], w.now))
  {
    var row := w.rows[req.id];
    var (w1, claiming, claimed) := (Mark(w, req.id, Target(req)), Claiming(row, w.now), ClaimAudit(row, w.now));
    var a := One(w, c, req, Reading, true, w, claiming);
    var b := One(w, c, req, claiming, true, w1, claimed);
    events := Then(Lone(w, c, req, Reading), a, Lone(w, c, req, claiming), b, Lone(w1, c, req, claimed));
  }

  /** approve() run alone is one schedule of the machine. */
  lemma ApproveEndIsARun(w: World, c: nat, userId: string, id: nat, replies: Outcomes.Replies)
    returns (events: seq<Event>)
    requires forall k <- w.rows :: k < w.nextRow
    ensures var req := Approve(userId, id); var (end, outcome) := ApproveEnd(w, userId, id, replies);
      Exec(Lone(w, c, req, Reading), events) == Lone(end, c, req, Done(outcome))
  {
    var req := Approve(userId, id);
    var (end, outcome) := ApproveEnd(w, userId, id, replies);
    if id !in w.rows || w.rows[id].userId != userId {
      events := One(w, c, req, Reading, true, w, Done(outcome));
    } else if Overdue(w.rows[id], w.now) {
      events := ExpiryIsARun(w, c, userId, id);
    } else if w.rows[id].status != Pending {
      events := LostClaimIsARun(w, c, req);
    } else {
      var claimed := Mark(w, id, Approved);
      var a := WonClaimIsARun(w, c, req);
      var b := ClaimedEndIsARun(claimed, c, userId, id, w.rows[id], w.now, replies);
      events := Then(Lone(w, c, req, Reading), a, Lone(claimed, c, req, ClaimAudit(w.rows[id], w.now)), b,
                     Lone(end, c, req, Done(outcome)));
    }
  }

  /** What follows a won claim that runs nothing. */
  lemma WithdrawalIsARun(w: World, c: nat, req: Request, row: Row, at: int) returns (events: seq<Event>)
    requires (req.Reject? || req.Cancel?) && req.id in w.rows
    ensures var outcome := if req.Reject? then ActionRejected(w.rows[req.id]) else ActionCancelled(w.rows[req.id]);
      Exec(Lone(w, c, req, ClaimAudit(row, at)), events) == Lone(w, c, req, Done(outcome))
  {
    var outcome := if req.Reject? then ActionRejected(w.rows[req.id]) else ActionCancelled(w.rows[req.id]);
    var claimed := ClaimAudit(row, at);
    var b := One(w, c, req, claimed, true, w, SettledReread);
    var e3 := One(w, c, req, SettledReread, true, w, Done(outcome));
    events := Then(Lone(w, c, req, claimed), b, Lone(w, c, req, SettledReread), e3, Lone(w, c, req, Done(outcome)));
  }

  /** So are reject() and cancel(). */
  lemma WithdrawEndIsARun(w: World, c: nat, req: Request) returns (events: seq<Event>)
    requires req.Reject? || req.Cancel?
    ensures var (end, outcome) := WithdrawEnd(w, req);
      Exec(Lone(w, c, req, Reading), events) == Lone(end, c, req, Done(outcome))
  {
    var (end, outcome) := WithdrawEnd(w, req);
    if req.id !in w.rows || w.rows[req.id].userId != req.userId {
      events := One(w, c, req, Reading, true, w, Done(outcome));
    } else if w.rows[req.id].status != Pending {
      events := LostClaimIsARun(w, c, req);
    } else {
      var claimed := ClaimAudit(w.rows[req.id], w.now);
      var a := WonClaimIsARun(w, c, req);
      var b := WithdrawalIsARun(end, c, req, w.rows[req.id], w.now);
      events := Then(Lone(w, c, req, Reading), a, Lone(end, c, req, claimed), b, Lone(end, c, req, Done(outcome)));
    }
  }

  lemma RefusalIsARun(w: World, c: nat, req: Request, pc: Pc, answer: bool, reason: string) returns (events: seq<Event>)
    requires req.Propose? && CallEffect(w, Call(req, pc), answer) == Effect(NoWrite, Refusing(reason))
    ensures Exec(Lone(w, c, req, pc), events) == Lone(w, c, req, Done(ToolRefused(reason)))
  {
    var a := One(w, c, req, pc, answer, w, Refusing(reason));
    var b := One(w, c, req, Refusing(reason), true, w, Done(ToolRefused(reason)));
    events := Then(Lone(w, c, req, pc), a, Lone(w, c, req, Refusing(reason)), b,
                   Lone(w, c, req, Done(ToolRefused(reason))));
  }

  lemma UnaskedIsARun(w: World, c: nat, req: Request, job: Job, replies: Outcomes.Replies)
    returns (events: seq<Event>)
    requires req.Propose? && RunsUnasked(job.tool) && job == Job(job.tool, req.ctx, job.input, true)
    ensures Exec(Lone(w, c, req, GateSkillLookup(job.tool, job.input)), events)
         == Lone(Ran(w, job, replies), c, req, Done(ToolExecuted(RanOk(w, job, replies))))
  {
    var (w1, lookup) := (Ran(w, job, replies), GateSkillLookup(job.tool, job.input));
    var end := Done(ToolExecuted(RanOk(w, job, replies)));
    var a := One(w, c, req, lookup, true, w, Opening(job));
    var b := ExecuteNowIsARun(w, c, req, job, replies);
    events := Then(Lone(w, c, req, lookup), a, Lone(w, c, req, Opening(job)), b, Lone(w1, c, req, end));
  }

  lemma CreationIsARun(w: World, c: nat, req: Request, action: Row) returns (events: seq<Event>)
    requires req.Propose?
    ensures Exec(Lone(w, c, req, Creating(action)), events)
         == Lone(Perform(w, Insert(action)), c, req, Done(PendingConfirmation(w.nextRow)))
  {
    var (end, created, outcome) := (Perform(w, Insert(action)), CreationAudit(w.nextRow),
                                    Done(PendingConfirmation(w.nextRow)));
    var a := One(w, c, req, Creating(action), true, end, created);
    var b := One(end, c, req, created, true, end, outcome);
    events := Then(Lone(w, c, req, Creating(action)), a, Lone(end, c, req, created), b, Lone(end, c, req, outcome));
  }

  lemma ProposalIsARun(w: World, c: nat, req: Request, tool: Tool, value: Input) returns (events: seq<Event>)
    requires req.Propose? && !RunsUnasked(tool) && tool.level != N4
    ensures Exec(Lone(w, c, req, GateSkillLookup(tool, value)), events)
         == Lone(Perform(w, Insert(FreshAction(tool, req.ctx, value, w.now))), c, req,
                 Done(PendingConfirmation(w.nextRow)))
  {
    var action := FreshAction(tool, req.ctx, value, w.now);
    var (lookup, end) := (GateSkillLookup(tool, value), Perform(w, Insert(action)));
    var a := One(w, c, req, lookup, true, w, Creating(action));
    var b := CreationIsARun(w, c, req, action);
    events := Then(Lone(w, c, req, lookup), a, Lone(w, c, req, Creating(action)), b,
                   Lone(end, c, req, Done(PendingConfirmation(w.nextRow))));
  }

  lemma PermittedRequestIsARun(w: World, c: nat, req: Request, replies: Outcomes.Replies) returns (events: seq<Event>)
    requires req.Propose? && req.toolName in w.registry
    requires var tool := w.registry[req.toolName];
      tool.validate(req.raw).Some? && Check(req.ctx, Some(tool)).Allowed?
    ensures var (end, outcome) := RequestEnd(w, req.toolName, req.raw, req.ctx, replies);
      var tool := w.registry[req.toolName];
      Exec(Lone(w, c, req, GateSkillLookup(tool, tool.validate(req.raw).value)), events)
      == Lone(end, c, req, Done(outcome))
  {
    var tool := w.registry[req.toolName];
    var value := tool.validate(req.raw).value;
    if !replies.skillEnabled {
      events := RefusalIsARun(w, c, req, GateSkillLookup(tool, value), false, "skill_disabled");
    } else if RunsUnasked(tool) {
      events := UnaskedIsARun(w, c, req, Job(tool, req.ctx, value, true), replies);
    } else {
      events := ProposalIsARun(w, c, req, tool, value);
    }
  }

  /** And requestExecution. */
  lemma RequestEndIsARun(w: World, c: nat, toolName: string, raw: Input, ctx: Context, replies: Outcomes.Replies)
    returns (events: seq<Event>)
    ensures var req := Propose(toolName, raw, ctx); var (end, outcome) := RequestEnd(w, toolName, raw, ctx, replies);
      Exec(Lone(w, c, req, Requested), events) == Lone(end, c, req, Done(outcome))
  {
    var req := Propose(toolName, raw, ctx);
    var (end, outcome) := RequestEnd(w, toolName, raw, ctx, replies);
    if outcome.ToolRefused? && CallEffect(w, Call(req, Requested), true) == Effect(NoWrite, Refusing(outcome.reason)) {
      events := RefusalIsARun(w, c, req, Requested, true, outcome.reason);
    } else {
      var tool := w.registry[toolName];
      var lookup := GateSkillLookup(tool, tool.validate(raw).value);
      var a := One(w, c, req, Requested, true, w, lookup);
      var b := PermittedRequestIsARun(w, c, req, replies);
      events := Then(Lone(w, c, req, Requested), a, Lone(w, c, req, lookup), b, Lone(end, c, req, Done(outcome)));
    }
  }

  /** What serving a request leaves and answers, when nobody interferes. */
  function Served(w: World, req: Request, replies: Outcomes.Replies): (World, Outcome) {
    match req
    case Approve(userId, id) => ApproveEnd(w, userId, id, replies)
    case Propose(toolName, raw, ctx) => RequestEnd(w, toolName, raw, ctx.(pendingActionId := None), replies)
    case _ => WithdrawEnd(w, req)
  }

  /** It is one schedule of the machine, with a call id of its own. */
  lemma ServedIsARun(w: World, c: nat, req: Request, replies: Outcomes.Replies) returns (events: seq<Event>)
    requires c !in w.calls && forall k <- w.rows :: k < w.nextRow
    ensures var (end, outcome) := Served(w, req, replies);
      Exec(w, events) == Lone(end, c, Start(req).req, Done(outcome))
  {
    var rest: seq<Event>;
    match req {
      case Approve(userId, id) => rest := ApproveEndIsARun(w, c, userId, id, replies);
      case Propose(toolName, raw, ctx) =>
        rest := RequestEndIsARun(w, c, toolName, raw, ctx.(pendingActionId := None), replies);
      case _ => rest := WithdrawEndIsARun(w, c, req);
    }
    events := [Arrive(c, req)] + rest;
    ExecCons(w, Arrive(c, req), rest);
  }

  lemma RowsFollowTheLifecycle(w: World, events: seq<Event>)
    requires Inv(w)
    ensures var w' := Exec(w, events); forall id <- w.rows ::
      id in w'.rows && Leads(w.rows[id].status, w'.rows[id].status) && SameAction(w.rows[id], w'.rows[id])
  {
    forall id | id in w.rows
      ensures var w' := Exec(w, events);
        id in w'.rows && Leads(w.rows[id].status, w'.rows[id].status) && SameAction(w.rows[id], w'.rows[id])
    {
      RunMovesStatus(w, events, id);
    }
  }

  // ---------------------------------------------------------------------
  // The services

  class Services {
    const registry: Registry
    var rows: map<nat, Row>
    var nextRow: nat
    var log: seq<Job>
    var now: int
    ghost var start: World
    ghost var events: seq<Event>
    ghost var calls: map<nat, Call>
    ghost var nextCall: nat

    /** The world the services are in, with the calls they have served. */
    ghost function View(): World
      reads this
    {
      World(registry, rows, nextRow, calls, log, now)
    }

    /** What has happened since the start is a run of the machine. */
    ghost predicate Valid()
      reads this
    {
      Initial(start) && Exec(start, events) == View() && forall c <- calls :: c < nextCall
    }

    constructor (registry: Registry, rows: map<nat, Row>, nextRow: nat, now: int)
      requires Initial(World(registry, rows, nextRow, map[], [], now))
      ensures Valid() && View() == World(registry, rows, nextRow, map[], [], now) == start
    {
      this.registry, this.rows, this.nextRow, this.log, this.now := registry, rows, nextRow, [], now;
      start, events, calls, nextCall := World(registry, rows, nextRow, map[], [], now), [], map[], 0;
    }

    /** `updateMany({ where: { id, status: 'pending' } })`. */
    method UpdateWherePending(id: nat, status: Status) returns (count: nat)
      modifies this`rows
      ensures count == if id in old(rows) && old(rows)[id].status == Pending then 1 else 0
      ensures View() == if count == 1 then Mark(old(View()), id, status) else old(View())
    {
      count := 0;
      if id in rows && rows[id].status == Pending {
        rows := rows[id := rows[id].(status := status)];
        count := 1;
      }
    }

    /** `update({ where: { id } })`. */
    method Update(id: nat, status: Status) returns (row: Row)
      requires id in rows
      modifies this`rows
      ensures View() == Mark(old(View()), id, status) && row == old(rows)[id].(status := status)
    {
      row := rows[id].(status := status);
      rows := rows[id := row];
    }

    method CreatePending(row: Row) returns (id: nat)
      modifies this`rows, this`nextRow
      ensures id == old(nextRow) && View() == Perform(old(View()), Insert(row))
    {
      id := nextRow;
      rows := rows[id := row];
      nextRow := nextRow + 1;
    }

    /** DraftActionTool.execute; an insert that throws leaves it, as a failed tool. */
    method DraftAction(job: Job, stored: bool) returns (ok: bool)
      modifies this`rows, this`nextRow
      ensures var row := DraftRow(registry, job, now);
        ok == (row.Some? && stored) && View() == if ok then Perform(old(View()), Insert(row.value)) else old(View())
    {
      if !job.input.Draft? || job.input.targetTool !in registry { return false; }
      var target := registry[job.input.targetTool];
      if job.ctx.scope !in target.scopes { return false; }
      if target.level == N4 { return false; }
      var checked := target.validate(job.input.targetInput);
      if checked.None? { return false; }
      if !stored { return false; }
      var id := CreatePending(FreshAction(target, job.ctx, checked.value, now));
      ok := true;
    }

    method ExecuteNow(job: Job, replies: Outcomes.Replies) returns (ok: bool)
      modifies this`rows, this`nextRow, this`log
      ensures View() == Ran(old(View()), job, replies) && ok == RanOk(old(View()), job, replies)
      ensures Outcomes.ToolRan(old(View()), job, replies, View(), ok)
    {
      RanIsToolRan(View(), job, replies);
      log := log + [job];
      var result := replies.toolOk;
      if job.tool.name == DRAFT_ACTION {
        var drafted := DraftAction(job, replies.draftStored);
        result := result && drafted;
      }
      if !replies.callUpdated || !replies.callAudited { return false; }
      ok := result;
    }

    /** approve() after a won claim. */
    method RunClaimed(userId: string, id: nat, action: Row, replies: Outcomes.Replies) returns (outcome: Outcome)
      requires id in rows && id < nextRow
      modifies this`rows, this`nextRow, this`log
      ensures (View(), outcome) == ClaimedEnd(old(View()), userId, id, action, replies)
    {
      if action.toolName !in registry {
        var failed := Update(id, Failed);
        return ActionExecuted(failed, false);
      }
      if !replies.skillEnabled {
        var blocked := Update(id, Failed);
        return ActionExecuted(blocked, false);
      }
      var ctx := Context(userId, action.scope, action.space, Some(id));
      var job := Job(registry[action.toolName], ctx, action.input, true);
      var ok := ExecuteNow(job, replies);
      var final := Update(id, if ok then Executed else Failed);
      outcome := ActionExecuted(final, ok);
    }

    method Approve(userId: string, id: nat, replies: Outcomes.Replies) returns (outcome: Outcome)
      requires forall k <- rows :: k < nextRow
      modifies this`rows, this`nextRow, this`log
      ensures (View(), outcome) == ApproveEnd(old(View()), userId, id, replies)
      ensures Outcomes.Approved(old(View()), userId, id, replies, View(), outcome)
    {
      ApproveEndIsApproved(View(), userId, id, replies);
      if id !in rows { return NotFound; }
      var action := rows[id];
      if action.userId != userId { return Forbidden; }

      if action.status == Pending && action.expiresAt.Some? && action.expiresAt.value < now {
        var expired := UpdateWherePending(id, Expired);
        return ActionExpired(rows[id]);
      }

      var claimed := UpdateWherePending(id, Approved);
      if claimed == 0 { return AlreadyProcessed(rows[id]); }

      outcome := RunClaimed(userId, id, action, replies);
    }

    /** reject() and cancel(): the same claim and the same answers, for another status. */
    method Withdraw(req: Request) returns (outcome: Outcome)
      requires req.Reject? || req.Cancel?
      modifies this`rows
      ensures (View(), outcome) == WithdrawEnd(old(View()), req)
      ensures Outcomes.Withdrawn(old(View()), req, View(), outcome)
    {
      WithdrawEndIsWithdrawn(View(), req);
      if req.id !in rows { return NotFound; }
      if rows[req.id].userId != req.userId { return Forbidden; }
      var claimed := UpdateWherePending(req.id, if req.Reject? then Rejected else Cancelled);
      if claimed == 0 { return AlreadyProcessed(rows[req.id]); }
      var current := rows[req.id];
      outcome := if req.Reject? then ActionRejected(current) else ActionCancelled(current);
    }

    method RequestExecution(toolName: string, raw: Input, ctx: Context, replies: Outcomes.Replies)
      returns (outcome: Outcome)
      modifies this`rows, this`nextRow, this`log
      ensures (View(), outcome) == RequestEnd(old(View()), toolName, raw, ctx, replies)
      ensures Outcomes.Requested(old(View()), toolName, raw, ctx, replies, View(), outcome)
    {
      RequestEndIsRequested(View(), toolName, raw, ctx, replies);
      if toolName !in registry { return ToolRefused("unknown_tool"); }
      var tool := registry[toolName];
      var checked := tool.validate(raw);
      if checked.None? { return ToolRefused("invalid_arguments"); }
      var permission := Check(ctx, Some(tool));
      if permission.Denied? { return ToolRefused(permission.reason); }
      if !replies.skillEnabled { return ToolRefused("skill_disabled"); }
      if tool.level == N4 { return ToolRefused("security_level_n4_blocked"); }
      if RunsUnasked(tool) {
        var ok := ExecuteNow(Job(tool, ctx, checked.value, true), replies);
        return ToolExecuted(ok);
      }
      var id := CreatePending(FreshAction(tool, ctx, checked.value, now));
      outcome := PendingConfirmation(id);
    }

    method Wait(elapsed: nat)
      requires Valid()
      modifies this`now, this`events
      ensures Valid() && View() == old(View()).(now := old(now) + elapsed)
    {
      ExecConcat(start, events, [Tick(elapsed)]);
      ExecCons(View(), Tick(elapsed), []);
      assert [Tick(elapsed)] + [] == [Tick(elapsed)];
      events := events + [Tick(elapsed)];
      now := now + elapsed;
    }

    /**
     * A request comes in and is answered. Whatever sequence of requests a client makes, the services stay on a run of
     * the machine, and rows once refused stay as they are.
     */
    method Serve(req: Request, replies: Outcomes.Replies) returns (outcome: Outcome)
      requires Valid()
      modifies this
      ensures Valid() && start == old(start)
      ensures var (end, answer) := Served(old(View()), req, replies);
        outcome == answer && View() == Lone(end, old(nextCall), Start(req).req, Done(answer))
      ensures forall id <- old(rows) ::
        id in rows && Leads(old(rows)[id].status, rows[id].status) && SameAction(old(rows)[id], rows[id])
    {
      ghost var w := View();
      InitialInv(start);
      ExecKeepsInv(start, events);
      ghost var run := ServedIsARun(w, nextCall, req, replies);
      ExecConcat(start, events, run);
      RowsFollowTheLifecycle(w, run);
      outcome := Dispatch(req, replies);
      calls := calls[nextCall := Call(Start(req).req, Done(outcome))];
      nextCall := nextCall + 1;
      events := events + run;
    }

    method Dispatch(req: Request, replies: Outcomes.Replies) returns (outcome: Outcome)
      requires forall k <- rows :: k < nextRow
      modifies this`rows, this`nextRow, this`log
      ensures (View(), outcome) == Served(old(View()), req, replies)
    {
      match req
      case Approve(userId, id) => outcome := Approve(userId, id, replies);
      case Propose(toolName, raw, ctx) =>
        outcome := RequestExecution(toolName, raw, ctx.(pendingActionId := None), replies);
      case _ => outcome := Withdraw(req);
    }
  }

  // ---------------------------------------------------------------------
  // So what holds of every run holds of the services, whatever they have served

  lemma ServicesRunAnActionOnce(s: Services, id: nat, i: nat, j: nat)
    requires s.Valid() && i < |s.log| && j < |s.log| && RunFor(s.log[i], id) && RunFor(s.log[j], id)
    ensures i == j
  {
    AtMostOneRun(s.start, s.events, id, i, j);
  }

  lemma ServicesNeverRunARefusedAction(s: Services, id: nat)
    requires s.Valid() && id in s.rows && s.rows[id].status in {Rejected, Cancelled, Expired}
    ensures forall job <- s.log :: !RunFor(job, id)
  {
    NeverRunsOnceRefused(s.start, s.events, [], id);
    assert s.events + [] == s.events;
  }

  lemma ServicesRunOnlyWhatIsAllowed(s: Services, i: nat)
    requires s.Valid() && i < |s.log|
    requires forall id <- s.start.rows :: Policy.Justified(s.start.registry, s.start.rows[id])
    ensures Policy.Allowed(s.registry, s.log[i])
    ensures var job := s.log[i];
      RunsUnasked(job.tool)
      || (job.ctx.pendingActionId.Some?
          && var id := job.ctx.pendingActionId.value;
          id in s.rows && RanOrMayRun(s.rows[id].status) && RunsRow(s.View(), job, id))
  {
    Policy.EveryRunIsAllowed(s.start, s.events, i);
    Policy.RegistryIsFixed(s.start, s.events);
    InitialInv(s.start);
    ExecKeepsInv(s.start, s.events);
    assert s.View().log[i] == s.log[i] && LogOk(s.View());
  }

  // ---------------------------------------------------------------------
  // From a proposal to its approval

  /** Whoever else asks is refused. In time the owner's yes runs the input, and after that it only lets it expire. */
  lemma ProposalIsItsOwners(w: World, id: nat, tool: Tool, ctx: Context, input: Input, asked: int, who: string,
                            replies: Outcomes.Replies)
    requires (forall k <- w.rows :: k < w.nextRow) && id in w.rows && asked <= w.now
    requires Outcomes.IsProposal(w.rows[id], ctx.userId, ctx.scope, ctx.space, tool, input, asked)
    requires tool.name in w.registry && w.registry[tool.name] == tool
    ensures var (end, outcome) := ApproveEnd(w, who, id, replies);
      if who != ctx.userId then end == w && outcome == Forbidden
      else if w.now > asked + 30 * 60 * 1000 then
        end.log == w.log && outcome == ActionExpired(w.rows[id].(status := Expired)) && end.rows[id] == outcome.row
      else if !replies.skillEnabled then
        end.log == w.log && outcome == ActionExecuted(w.rows[id].(status := Failed), false)
      else
        && end.log == w.log + [Job(tool, Context(ctx.userId, ctx.scope, ctx.space, Some(id)), input, true)]
        && outcome.ActionExecuted? && id in end.rows && end.rows[id] == outcome.row
        && outcome.row == w.rows[id].(status := if outcome.toolResultOk then Executed else Failed)
  {
    ApproveEndIsApproved(w, who, id, replies);
  }

  lemma NumberedStays(w: World, w': World, row: Row)
    requires (forall k <- w.rows :: k < w.nextRow) && Outcomes.OneMore(w, w', row)
    ensures forall k <- w'.rows :: k < w'.nextRow
  {}

  /**
   * What requestExecution leaves waiting is the caller's own: the answered id is a pending action with the validated
   * input, and for half an hour the caller's yes runs exactly that, in the caller's scope and space.
   */
  lemma ProposerApproves(w: World, toolName: string, raw: Input, ctx: Context, replies: Outcomes.Replies, elapsed: nat,
                         who: string, replies': Outcomes.Replies)
    requires WellFormed(w.registry) && forall k <- w.rows :: k < w.nextRow
    requires RequestEnd(w, toolName, raw, ctx, replies).1.PendingConfirmation?
    ensures var (w1, asked) := RequestEnd(w, toolName, raw, ctx, replies); var id := asked.actionId;
      && toolName in w.registry && w.registry[toolName].validate(raw).Some?
      && var tool := w.registry[toolName]; var input := tool.validate(raw).value;
      && id !in w.rows && id in w1.rows && w1.log == w.log
      && Outcomes.IsProposal(w1.rows[id], ctx.userId, ctx.scope, ctx.space, tool, input, w.now)
      && var (end, outcome) := ApproveEnd(w1.(now := w.now + elapsed), who, id, replies');
      if who != ctx.userId then outcome == Forbidden && end.log == w.log
      else if elapsed > 30 * 60 * 1000 then
        outcome == ActionExpired(w1.rows[id].(status := Expired)) && end.log == w.log
      else if replies'.skillEnabled then
        end.log == w.log + [Job(tool, Context(ctx.userId, ctx.scope, ctx.space, Some(id)), input, true)]
      else end.log == w.log
  {
    RequestEndIsRequested(w, toolName, raw, ctx, replies);
    var (w1, asked) := RequestEnd(w, toolName, raw, ctx, replies);
    var (tool, id) := (w.registry[toolName], asked.actionId);
    NumberedStays(w, w1, w1.rows[id]);
    ProposalIsItsOwners(w1.(now := w.now + elapsed), id, tool, ctx, tool.validate(raw).value, w.now, who, replies');
  }

  /** The same of what draft_action leaves waiting, for the tool it drafts. */
  lemma DrafterApproves(w: World, job: Job, replies: Outcomes.Replies, elapsed: nat, who: string,
                        replies': Outcomes.Replies)
    requires WellFormed(w.registry) && forall k <- w.rows :: k < w.nextRow
    requires Ran(w, job, replies).nextRow == w.nextRow + 1
    ensures Outcomes.DraftIsAccepted(w.registry, job.ctx, job.input)
    ensures var (w1, id, ctx) := (Ran(w, job, replies), w.nextRow, job.ctx);
      var tool := w.registry[job.input.targetTool];
      var input := tool.validate(job.input.targetInput).value;
      && id !in w.rows && id in w1.rows && w1.log == w.log + [job]
      && Outcomes.IsProposal(w1.rows[id], ctx.userId, ctx.scope, ctx.space, tool, input, w.now)
      && var (end, outcome) := ApproveEnd(w1.(now := w.now + elapsed), who, id, replies');
      if who != ctx.userId then outcome == Forbidden && end.log == w1.log
      else if elapsed > 30 * 60 * 1000 then
        outcome == ActionExpired(w1.rows[id].(status := Expired)) && end.log == w1.log
      else if replies'.skillEnabled then
        end.log == w1.log + [Job(tool, Context(ctx.userId, ctx.scope, ctx.space, Some(id)), input, true)]
      else end.log == w1.log
  {
    RanIsToolRan(w, job, replies);
    var (w1, id) := (Ran(w, job, replies), w.nextRow);
    var tool := w.registry[job.input.targetTool];
    NumberedStays(w, w1, w1.rows[id]);
    ProposalIsItsOwners(w1.(now := w.now + elapsed), id, tool, job.ctx, tool.validate(job.input.targetInput).value,
                        w.now, who, replies');
  }
}
