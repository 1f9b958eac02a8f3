/** What every interleaving of approval calls keeps, and the safety theorems that follow. */
module PendingActionSafety {
  import opened Wrappers
  import opened ToolGate
  import opened PendingActions

  // ---------------------------------------------------------------------
  // The invariant

  /** The two rows are the same action, whatever their statuses. */
  ghost predicate SameAction(a: Row, b: Row) {
    a.(status := b.status) == b
  }

  /** The row of `id` exists, belongs to `userId`, and is the action the call read. */
  ghost predicate Known(w: World, id: nat, userId: string, snap: Row) {
    id in w.rows && SameAction(snap, w.rows[id]) && snap.userId == userId
  }

  ghost predicate Unexpired(row: Row, at: int) {
    row.expiresAt.Some? ==> at <= row.expiresAt.value
  }

  ghost predicate HasStatus(w: World, id: nat, s: Status) {
    id in w.rows && w.rows[id].status == s
  }

  ghost predicate Settled(w: World, id: nat) {
    id in w.rows && w.rows[id].status != Pending
  }

  /** The statuses only an approval that won its claim can leave behind. */
  ghost predicate RanOrMayRun(s: Status) {
    s == Approved || s == Executed || s == Failed
  }

  /** The job an approval of `id` runs is the action of that row, for the caller who owns it. */
  ghost predicate RunsRow(w: World, job: Job, id: nat) {
    && id in w.rows
    && var row := w.rows[id];
    && row.toolName in w.registry
    && job == Job(w.registry[row.toolName], Context(row.userId, row.scope, row.space, Some(id)), row.input, true)
  }

  function JobOf(pc: Pc): Job
    requires IsRunPc(pc)
  {
    pc.job
  }

  /** A call inside executeNow: a request runs without an action id, an approval runs exactly its claimed row. */
  ghost predicate RunCallOk(w: World, req: Request, pc: Pc)
    requires IsRunPc(pc)
  {
    if req.Propose? then
      req.ctx.pendingActionId.None? && JobOf(pc).ctx.pendingActionId.None?
    else
      && req.Approve? && HasStatus(w, req.id, Approved) && w.rows[req.id].userId == req.userId
      && RunsRow(w, JobOf(pc), req.id)
  }

  ghost predicate ActionCallOk(w: World, req: Request, pc: Pc)
    requires !req.Propose? && !IsRunPc(pc)
  {
    match pc
    case Expiring(snap) => req.Approve? && Known(w, req.id, req.userId, snap)
    case ExpiryReread(_) => req.Approve? && Settled(w, req.id)
    case ExpiryAudit(row) => req.Approve? && row.status != Pending
    case Claiming(snap, checkedAt) =>
      && Known(w, req.id, req.userId, snap)
      && (snap.status != Pending ==> Settled(w, req.id))
      && (req.Approve? && snap.status == Pending ==> Unexpired(snap, checkedAt))
      && checkedAt <= w.now
    case ClaimAudit(snap, checkedAt) =>
      && Known(w, req.id, req.userId, snap) && snap.status == Pending && HasStatus(w, req.id, Target(req))
      && (req.Approve? ==> Unexpired(snap, checkedAt))
    case LostReread => Settled(w, req.id)
    case SettledReread => !req.Approve? && HasStatus(w, req.id, Target(req))
    case SkillLookup(snap, tool) =>
      && req.Approve? && Known(w, req.id, req.userId, snap) && HasStatus(w, req.id, Approved)
      && snap.toolName in w.registry && tool == w.registry[snap.toolName]
    case Failing => req.Approve? && HasStatus(w, req.id, Approved)
    case FinalWrite(_) => req.Approve? && HasStatus(w, req.id, Approved)
    case Done(outcome) => OutcomeOk(w, req, outcome)
    case _ => true
  }

  ghost predicate CallOk(w: World, call: Call) {
    && (call.pc.Drafting? ==> call.pc.draft.status == Pending)
    && (call.pc.Creating? ==> call.pc.action.status == Pending)
    && if IsRunPc(call.pc) then RunCallOk(w, call.req, call.pc)
       else if call.req.Propose? then
         call.req.ctx.pendingActionId.None? && (call.pc.Done? ==> !call.pc.outcome.ActionExecuted?)
       else ActionCallOk(w, call.req, call.pc)
  }

  ghost predicate OutcomeOk(w: World, req: Request, outcome: Outcome)
    requires !req.Propose?
  {
    match outcome
    case ActionExecuted(row, ok) =>
      req.Approve? && (HasStatus(w, req.id, Executed) || HasStatus(w, req.id, Failed)) && row == w.rows[req.id]
      && (ok ==> row.status == Executed)
    case AlreadyProcessed(row) => row.status != Pending
    case ActionExpired(row) => req.Approve? && row.status != Pending
    case ActionRejected(row) => row.status == Rejected
    case ActionCancelled(row) => row.status == Cancelled
    case _ => true
  }

  /** The call that won the claim of its action, from the claim to the answer `executed`. */
  ghost predicate Winner(call: Call) {
    && call.req.Approve?
    && (IsRunPc(call.pc) || call.pc.ClaimAudit? || call.pc.SkillLookup? || call.pc.Failing? || call.pc.FinalWrite?
        || (call.pc.Done? && call.pc.outcome.ActionExecuted?))
  }

  ghost predicate BeforeRun(pc: Pc) {
    pc.ClaimAudit? || pc.SkillLookup? || pc.Opening?
  }

  ghost predicate RunFor(job: Job, id: nat) {
    job.ctx.pendingActionId == Some(id)
  }

  ghost predicate LogOk(w: World) {
    && (forall i | 0 <= i < |w.log| && w.log[i].ctx.pendingActionId.Some? ::
          var id := w.log[i].ctx.pendingActionId.value;
          RunsRow(w, w.log[i], id) && RanOrMayRun(w.rows[id].status))
    && (forall i, j | 0 <= i < j < |w.log| && w.log[i].ctx.pendingActionId.Some? ::
          w.log[i].ctx.pendingActionId != w.log[j].ctx.pendingActionId)
  }

  ghost predicate OneWinner(w: World) {
    forall c, d | c in w.calls && d in w.calls && Winner(w.calls[c]) && Winner(w.calls[d]) ::
      w.calls[c].req.id == w.calls[d].req.id ==> c == d
  }

  ghost predicate NoEarlyRun(w: World) {
    forall c, i | c in w.calls && 0 <= i < |w.log| ::
      Winner(w.calls[c]) && BeforeRun(w.calls[c].pc) ==> !RunFor(w.log[i], w.calls[c].req.id)
  }

  ghost predicate Inv(w: World) {
    && WellFormed(w.registry)
    && (forall id <- w.rows :: id < w.nextRow)
    && (forall c <- w.calls :: CallOk(w, w.calls[c]))
    && OneWinner(w)
    && LogOk(w)
    && NoEarlyRun(w)
  }

  // ---------------------------------------------------------------------
  // One step keeps it

  /** The only status writes there are: a claim of a pending row, or the claim winner closing an approved one. */
  ghost predicate LegalWrite(w: World, call: Call, write: Write) {
    match write
    case NoWrite => true
    case SetStatus(id, s) =>
      && !call.req.Propose? && id == call.req.id && id in w.rows
      && (|| (w.rows[id].status == Pending && (s == Target(call.req) || (s == Expired && call.req.Approve?)))
          || (w.rows[id].status == Approved && (s == Executed || s == Failed) && Winner(call)))
    case Insert(row) => row.status == Pending
    case Run(job) => call.pc == Opening(job)
  }

  lemma EffectIsLegal(w: World, c: nat, answer: bool)
    requires Inv(w) && c in w.calls
    ensures LegalWrite(w, w.calls[c], CallEffect(w, w.calls[c], answer).write)
  {
    assert CallOk(w, w.calls[c]);
  }

  /** Nobody else's facts are disturbed: a status write needs a pending row, or is the winner's own. */
  lemma StatusWriteSparesOthers(w: World, c: nat, d: nat, s: Status, pc: Pc)
    requires Inv(w) && c in w.calls && d in w.calls && c != d && !w.calls[c].req.Propose?
    requires LegalWrite(w, w.calls[c], SetStatus(w.calls[c].req.id, s))
    ensures CallOk(Apply(w, c, Effect(SetStatus(w.calls[c].req.id, s), pc)), w.calls[d])
  {
    var call := w.calls[d];
    assert CallOk(w, call);
    if IsRunPc(call.pc) {
      assert RunCallOk(w, call.req, call.pc);
    } else if !call.req.Propose? {
      assert ActionCallOk(w, call.req, call.pc);
    }
  }

  lemma OtherWritesSpareOthers(w: World, c: nat, d: nat, write: Write, pc: Pc)
    requires Inv(w) && c in w.calls && d in w.calls && c != d
    requires !write.SetStatus?
    ensures CallOk(Apply(w, c, Effect(write, pc)), w.calls[d])
  {
    var call := w.calls[d];
    assert CallOk(w, call);
  }

  lemma OthersStayOk(w: World, c: nat, d: nat, answer: bool)
    requires Inv(w) && c in w.calls && d in w.calls && c != d
    ensures CallOk(Apply(w, c, CallEffect(w, w.calls[c], answer)), w.calls[d])
  {
    EffectIsLegal(w, c, answer);
    var eff := CallEffect(w, w.calls[c], answer);
    if eff.write.SetStatus? {
      StatusWriteSparesOthers(w, c, d, eff.write.status, eff.pc);
    } else {
      OtherWritesSpareOthers(w, c, d, eff.write, eff.pc);
    }
  }

  /** What a call leaves of itself when it has written a status, or nothing. */
  lemma ActionStepOk(w: World, c: nat, answer: bool)
    requires c in w.calls && CallOk(w, w.calls[c]) && !w.calls[c].req.Propose? && !IsRunPc(w.calls[c].pc)
    ensures var w' := Apply(w, c, CallEffect(w, w.calls[c], answer)); CallOk(w', w'.calls[c])
  {
    var call := w.calls[c];
    assert ActionCallOk(w, call.req, call.pc);
    match call.pc
    case Reading =>
    case SkillLookup(_, _) => SkilledActionRuns(w, c, answer);
    case Failing => OverwriteOk(w, c, answer);
    case FinalWrite(_) => OverwriteOk(w, c, answer);
    case Expiring(_) => ExpiryStepOk(w, c, answer);
    case ExpiryReread(_) => ExpiryStepOk(w, c, answer);
    case ExpiryAudit(_) => ExpiryStepOk(w, c, answer);
    case Claiming(_, _) => ClaimStepOk(w, c, answer);
    case ClaimAudit(_, _) => ClaimStepOk(w, c, answer);
    case _ =>
  }

  lemma SkilledActionRuns(w: World, c: nat, answer: bool)
    requires c in w.calls && CallOk(w, w.calls[c]) && !w.calls[c].req.Propose? && w.calls[c].pc.SkillLookup?
    ensures var w' := Apply(w, c, CallEffect(w, w.calls[c], answer)); CallOk(w', w'.calls[c])
  {
    assert ActionCallOk(w, w.calls[c].req, w.calls[c].pc);
  }

  lemma OverwriteOk(w: World, c: nat, answer: bool)
    requires c in w.calls && CallOk(w, w.calls[c]) && !w.calls[c].req.Propose?
    requires w.calls[c].pc.Failing? || w.calls[c].pc.FinalWrite?
    ensures var w' := Apply(w, c, CallEffect(w, w.calls[c], answer)); CallOk(w', w'.calls[c])
  {
    assert ActionCallOk(w, w.calls[c].req, w.calls[c].pc);
  }

  lemma ExpiryStepOk(w: World, c: nat, answer: bool)
    requires c in w.calls && CallOk(w, w.calls[c]) && !w.calls[c].req.Propose?
    requires w.calls[c].pc.Expiring? || w.calls[c].pc.ExpiryReread? || w.calls[c].pc.ExpiryAudit?
    ensures var w' := Apply(w, c, CallEffect(w, w.calls[c], answer)); CallOk(w', w'.calls[c])
  {
    assert ActionCallOk(w, w.calls[c].req, w.calls[c].pc);
  }

  lemma ClaimStepOk(w: World, c: nat, answer: bool)
    requires c in w.calls && CallOk(w, w.calls[c]) && !w.calls[c].req.Propose?
    requires w.calls[c].pc.Claiming? || w.calls[c].pc.ClaimAudit?
    ensures var w' := Apply(w, c, CallEffect(w, w.calls[c], answer)); CallOk(w', w'.calls[c])
  {
    assert ActionCallOk(w, w.calls[c].req, w.calls[c].pc);
  }

  /** A step inside executeNow stays inside it, on the same job, or returns; it changes no existing row. */
  lemma RunStepShape(w: World, call: Call, answer: bool)
    requires IsRunPc(call.pc) && CallOk(w, call)
    ensures var eff := RunEffect(w, call.req, call.pc, answer);
      && !eff.write.SetStatus? && (eff.write.Insert? ==> eff.write.row.status == Pending)
      && (eff.write.Run? ==> call.pc.Opening? && eff.write == Write.Run(call.pc.job))
      && if IsRunPc(eff.pc) then
           && JobOf(eff.pc) == JobOf(call.pc) && (eff.pc.Drafting? ==> eff.pc.draft.status == Pending)
           && !BeforeRun(eff.pc)
         else exists ok :: eff.pc == RunReturns(call.req, ok)
  {
    match call.pc
    case RunAudit(_, ok) => assert answer ==> RunEffect(w, call.req, call.pc, answer).pc == RunReturns(call.req, ok);
    case RecoveryAudit(_) => assert RunEffect(w, call.req, call.pc, answer).pc == RunReturns(call.req, false);
    case _ =>
  }

  lemma RunStepOk(w: World, c: nat, answer: bool)
    requires c in w.calls && CallOk(w, w.calls[c]) && IsRunPc(w.calls[c].pc) && forall id <- w.rows :: id < w.nextRow
    ensures var w' := Apply(w, c, CallEffect(w, w.calls[c], answer)); CallOk(w', w'.calls[c])
  {
    var call := w.calls[c];
    var eff := RunEffect(w, call.req, call.pc, answer);
    RunStepShape(w, call, answer);
    var w' := Apply(w, c, eff);
    assert RunCallOk(w, call.req, call.pc);
    assert !call.req.Propose? ==> w'.rows[call.req.id] == w.rows[call.req.id];
  }

  lemma ProposeStepOk(w: World, c: nat, answer: bool)
    requires c in w.calls && CallOk(w, w.calls[c]) && w.calls[c].req.Propose? && !IsRunPc(w.calls[c].pc)
    ensures var w' := Apply(w, c, CallEffect(w, w.calls[c], answer)); CallOk(w', w'.calls[c])
  {}

  lemma SelfStaysOk(w: World, c: nat, answer: bool)
    requires Inv(w) && c in w.calls
    ensures var w' := Apply(w, c, CallEffect(w, w.calls[c], answer)); CallOk(w', w'.calls[c])
  {
    assert CallOk(w, w.calls[c]);
    if IsRunPc(w.calls[c].pc) { RunStepOk(w, c, answer); }
    else if w.calls[c].req.Propose? { ProposeStepOk(w, c, answer); }
    else { ActionStepOk(w, c, answer); }
  }

  // ---------------------------------------------------------------------
  // Winners

  lemma WinnerHoldsItsRow(w: World, call: Call)
    requires CallOk(w, call) && Winner(call)
    ensures call.req.id in w.rows && RanOrMayRun(w.rows[call.req.id].status)
  {}

  /** A call becomes a winner only on a pending row. */
  lemma NewWinnerClaims(w: World, call: Call, answer: bool)
    requires CallOk(w, call) && !Winner(call) && Winner(call.(pc := CallEffect(w, call, answer).pc))
    ensures call.req.id in w.rows && w.rows[call.req.id].status == Pending && call.pc.Claiming?
  {}

  /** A claim can only be won on a row nobody has won before. */
  lemma WinnersStayUnique(w: World, c: nat, answer: bool)
    requires (forall d <- w.calls :: CallOk(w, w.calls[d])) && OneWinner(w) && c in w.calls
    ensures OneWinner(Apply(w, c, CallEffect(w, w.calls[c], answer)))
  {
    var call, eff := w.calls[c], CallEffect(w, w.calls[c], answer);
    forall d | d in w.calls && d != c
      ensures Winner(w.calls[d]) && Winner(call.(pc := eff.pc)) ==> w.calls[d].req.id != call.req.id
    {
      if Winner(w.calls[d]) && Winner(call.(pc := eff.pc)) {
        WinnerHoldsItsRow(w, w.calls[d]);
        if !Winner(call) { NewWinnerClaims(w, call, answer); }
      }
    }
    UpdatedWinners(w, Apply(w, c, eff), c);
  }

  lemma UpdatedWinners(w: World, w': World, c: nat)
    requires OneWinner(w) && c in w.calls && w'.calls.Keys == w.calls.Keys
    requires forall d <- w.calls :: d != c ==> w'.calls[d] == w.calls[d]
    requires forall d <- w.calls ::
      d != c && Winner(w.calls[d]) && Winner(w'.calls[c]) ==> w.calls[d].req.id != w'.calls[c].req.id
    ensures OneWinner(w')
  {}

  // ---------------------------------------------------------------------
  // The log

  /** What the log says of a run stays true as long as rows keep their action and move along the lifecycle. */
  lemma LogSurvives(w: World, w': World)
    requires LogOk(w) && w'.log == w.log && w'.registry == w.registry
    requires forall id <- w.rows :: id in w'.rows && SameAction(w.rows[id], w'.rows[id])
    requires forall id <- w.rows :: RanOrMayRun(w.rows[id].status) ==> RanOrMayRun(w'.rows[id].status)
    ensures LogOk(w')
  {
    forall i | 0 <= i < |w.log| && w.log[i].ctx.pendingActionId.Some?
      ensures var id := w.log[i].ctx.pendingActionId.value; RunsRow(w', w.log[i], id) && RanOrMayRun(w'.rows[id].status)
    {
      var id := w.log[i].ctx.pendingActionId.value;
      assert RunsRow(w, w.log[i], id);
    }
  }

  lemma LogGrows(w: World, job: Job)
    requires LogOk(w) && (job.ctx.pendingActionId.Some? ==>
      var id := job.ctx.pendingActionId.value;
      && RunsRow(w, job, id) && RanOrMayRun(w.rows[id].status)
      && forall i | 0 <= i < |w.log| :: !RunFor(w.log[i], id))
    ensures LogOk(w.(log := w.log + [job]))
  {
    var w' := w.(log := w.log + [job]);
    forall i | 0 <= i < |w'.log| && w'.log[i].ctx.pendingActionId.Some?
      ensures var id := w'.log[i].ctx.pendingActionId.value;
        RunsRow(w', w'.log[i], id) && RanOrMayRun(w'.rows[id].status)
    {
      if i < |w.log| { assert RunsRow(w, w.log[i], w.log[i].ctx.pendingActionId.value); }
    }
  }

  lemma LogIgnoresCalls(w: World, calls: map<nat, Call>)
    requires LogOk(w)
    ensures LogOk(w.(calls := calls))
  {
    LogSurvives(w, w.(calls := calls));
  }

  /** A job that starts is not in the log yet. */
  lemma StartingJobIsNew(w: World, c: nat)
    requires c in w.calls && CallOk(w, w.calls[c]) && NoEarlyRun(w) && w.calls[c].pc.Opening?
    ensures var job := w.calls[c].pc.job;
      job.ctx.pendingActionId.Some? ==>
        var id := job.ctx.pendingActionId.value;
        && RunsRow(w, job, id) && RanOrMayRun(w.rows[id].status)
        && forall i | 0 <= i < |w.log| :: !RunFor(w.log[i], id)
  {
    assert RunCallOk(w, w.calls[c].req, w.calls[c].pc);
  }

  lemma LogStaysOk(w: World, c: nat, answer: bool)
    requires Inv(w) && c in w.calls
    ensures LogOk(Apply(w, c, CallEffect(w, w.calls[c], answer)))
  {
    EffectIsLegal(w, c, answer);
    assert CallOk(w, w.calls[c]);
    var eff := CallEffect(w, w.calls[c], answer);
    if eff.write.Run? {
      StartingJobIsNew(w, c);
      LogGrows(w, eff.write.job);
    } else {
      LogSurvives(w, Perform(w, eff.write));
    }
    LogIgnoresCalls(Perform(w, eff.write), w.calls[c := w.calls[c].(pc := eff.pc)]);
  }

  /** Nothing in the log is for a row that is still pending. */
  lemma PendingRowsHaveNotRun(w: World, id: nat, i: nat)
    requires LogOk(w) && i < |w.log| && id in w.rows && w.rows[id].status == Pending
    ensures !RunFor(w.log[i], id)
  {}

  /** No other winner waits to run the row whose job starts. */
  lemma OtherWinnersRunOthers(w: World, c: nat, d: nat)
    requires OneWinner(w) && c in w.calls && d in w.calls && c != d && CallOk(w, w.calls[c])
    requires w.calls[c].pc.Opening? && Winner(w.calls[d])
    ensures !RunFor(w.calls[c].pc.job, w.calls[d].req.id)
  {
    assert RunCallOk(w, w.calls[c].req, w.calls[c].pc);
  }

  /** A call that is about to run after its step was about to before, or has just claimed a row nobody ran. */
  lemma BeforeRunComesFrom(w: World, c: nat, answer: bool, i: nat)
    requires Inv(w) && c in w.calls && i < |w.log|
    requires var call := w.calls[c].(pc := CallEffect(w, w.calls[c], answer).pc); Winner(call) && BeforeRun(call.pc)
    ensures !RunFor(w.log[i], w.calls[c].req.id) && !CallEffect(w, w.calls[c], answer).write.Run?
  {
    assert CallOk(w, w.calls[c]);
    var call := w.calls[c];
    if IsRunPc(call.pc) {
      RunStepShape(w, call, answer);
    } else if !Winner(call) {
      NewWinnerClaims(w, call, answer);
      PendingRowsHaveNotRun(w, call.req.id, i);
    }
  }

  lemma NoEarlyRunStays(w: World, c: nat, answer: bool)
    requires Inv(w) && c in w.calls
    ensures NoEarlyRun(Apply(w, c, CallEffect(w, w.calls[c], answer)))
  {
    var eff := CallEffect(w, w.calls[c], answer);
    var w' := Apply(w, c, eff);
    EffectIsLegal(w, c, answer);
    assert CallOk(w, w.calls[c]);
    forall d, i | d in w'.calls && 0 <= i < |w'.log|
      ensures Winner(w'.calls[d]) && BeforeRun(w'.calls[d].pc) ==> !RunFor(w'.log[i], w'.calls[d].req.id)
    {
      if Winner(w'.calls[d]) && BeforeRun(w'.calls[d].pc) {
        if d == c {
          NoRunOfOwnRow(w, c, answer, i);
        } else if i == |w.log| {
          OtherWinnersRunOthers(w, c, d);
        }
      }
    }
  }

  lemma NoRunOfOwnRow(w: World, c: nat, answer: bool, i: nat)
    requires Inv(w) && c in w.calls
    requires var w' := Apply(w, c, CallEffect(w, w.calls[c], answer));
      i < |w'.log| && Winner(w'.calls[c]) && BeforeRun(w'.calls[c].pc)
    ensures var w' := Apply(w, c, CallEffect(w, w.calls[c], answer)); !RunFor(w'.log[i], w'.calls[c].req.id)
  {
    if CallEffect(w, w.calls[c], answer).write.Run? {
      EffectIsLegal(w, c, answer);
      assert CallOk(w, w.calls[c]);
      RunStepShape(w, w.calls[c], answer);
    } else {
      BeforeRunComesFrom(w, c, answer, i);
    }
  }

  lemma CallsStayOk(w: World, c: nat, answer: bool)
    requires Inv(w) && c in w.calls
    ensures var w' := Apply(w, c, CallEffect(w, w.calls[c], answer)); forall d <- w'.calls :: CallOk(w', w'.calls[d])
  {
    var w' := Apply(w, c, CallEffect(w, w.calls[c], answer));
    forall d | d in w'.calls ensures CallOk(w', w'.calls[d]) {
      if d == c { SelfStaysOk(w, c, answer); } else { OthersStayOk(w, c, d, answer); }
    }
  }

  lemma RowsStayNumbered(w: World, c: nat, answer: bool)
    requires c in w.calls && forall id <- w.rows :: id < w.nextRow
    ensures var w' := Apply(w, c, CallEffect(w, w.calls[c], answer));
      w'.registry == w.registry && forall id <- w'.rows :: id < w'.nextRow
  {}

  lemma ResumeKeepsInv(w: World, c: nat, answer: bool)
    requires Inv(w) && c in w.calls
    ensures Inv(Step(w, Resume(c, answer)))
  {
    CallsStayOk(w, c, answer);
    RowsStayNumbered(w, c, answer);
    WinnersStayUnique(w, c, answer);
    LogStaysOk(w, c, answer);
    NoEarlyRunStays(w, c, answer);
  }

  /** A step that writes no row and wins no claim. */
  lemma QuietStepKeepsInv(w: World, c: nat, call: Call)
    requires Inv(w) && CallOk(w, call)
    requires Winner(call) ==> c in w.calls && Winner(w.calls[c]) && w.calls[c].req == call.req && !BeforeRun(call.pc)
    ensures Inv(w.(calls := w.calls[c := call]))
  {
    var w' := w.(calls := w.calls[c := call]);
    forall d | d in w'.calls ensures CallOk(w', w'.calls[d]) {
      if d != c { assert CallOk(w, w.calls[d]); }
    }
  }

  /** A call that throws is over, or goes on in its catch block with the same job. */
  lemma ThrowingStaysOk(w: World, call: Call)
    requires CallOk(w, call)
    ensures CallOk(w, call.(pc := Thrown(call.pc)))
    ensures Winner(call.(pc := Thrown(call.pc))) ==> Winner(call) && !BeforeRun(Thrown(call.pc))
  {
    if InTry(call.pc) { assert RunCallOk(w, call.req, call.pc); }
  }

  lemma TickKeepsInv(w: World, elapsed: nat)
    requires Inv(w)
    ensures Inv(Step(w, Tick(elapsed)))
  {
    var w' := Step(w, Tick(elapsed));
    forall d | d in w'.calls ensures CallOk(w', w'.calls[d]) {
      assert CallOk(w, w.calls[d]);
    }
  }

  lemma StepKeepsInv(w: World, e: Event)
    requires Inv(w)
    ensures Inv(Step(w, e))
  {
    match e
    case Resume(c, answer) => if c in w.calls { ResumeKeepsInv(w, c, answer); }
    case Arrive(c, req) => if c !in w.calls { QuietStepKeepsInv(w, c, Start(req)); }
    case Abort(c) =>
      if c in w.calls && !w.calls[c].pc.Done? {
        assert CallOk(w, w.calls[c]);
        ThrowingStaysOk(w, w.calls[c]);
        QuietStepKeepsInv(w, c, w.calls[c].(pc := Thrown(w.calls[c].pc)));
      }
    case Tick(elapsed) => TickKeepsInv(w, elapsed);
  }

  lemma {:induction false} ExecKeepsInv(w: World, events: seq<Event>)
    requires Inv(w)
    ensures Inv(Exec(w, events))
    decreases |events|
  {
    if events != [] {
      StepKeepsInv(w, events[0]);
      ExecKeepsInv(Step(w, events[0]), events[1..]);
    }
  }

  lemma InitialInv(w: World)
    requires Initial(w)
    ensures Inv(w)
  {}

  lemma {:induction false} ExecConcat(w: World, a: seq<Event>, b: seq<Event>)
    ensures Exec(w, a + b) == Exec(Exec(w, a), b)
    decreases |a|
  {
    if a == [] {
      assert a + b == b;
    } else {
      assert (a + b)[0] == a[0] && (a + b)[1..] == a[1..] + b;
      ExecConcat(Step(w, a[0]), a[1..], b);
    }
  }

  // ---------------------------------------------------------------------
  // How rows move

  ghost predicate Moves(a: Status, b: Status) {
    || a == b
    || (a == Pending && (b == Approved || b == Rejected || b == Cancelled || b == Expired))
    || (a == Approved && (b == Executed || b == Failed))
  }

  /** The same, over any number of steps. */
  ghost predicate Leads(a: Status, b: Status) {
    a == b || a == Pending || (a == Approved && (b == Executed || b == Failed))
  }

  /** No step deletes a row, edits an action, or moves a status against the lifecycle. */
  lemma StepMovesStatus(w: World, e: Event, id: nat)
    requires Inv(w) && id in w.rows
    ensures id in Step(w, e).rows
    ensures SameAction(w.rows[id], Step(w, e).rows[id])
    ensures Moves(w.rows[id].status, Step(w, e).rows[id].status)
  {
    if e.Resume? && e.call in w.calls { EffectIsLegal(w, e.call, e.answer); }
  }

  lemma {:induction false} RunMovesStatus(w: World, events: seq<Event>, id: nat)
    requires Inv(w) && id in w.rows
    ensures id in Exec(w, events).rows
    ensures SameAction(w.rows[id], Exec(w, events).rows[id])
    ensures Leads(w.rows[id].status, Exec(w, events).rows[id].status)
    decreases |events|
  {
    if events != [] {
      StepMovesStatus(w, events[0], id);
      StepKeepsInv(w, events[0]);
      RunMovesStatus(Step(w, events[0]), events[1..], id);
    }
  }

  // ---------------------------------------------------------------------
  // Safety over whole runs

  /** However the calls interleave, the tool of one action runs at most once. */
  lemma AtMostOneRun(w: World, events: seq<Event>, id: nat, i: nat, j: nat)
    requires Initial(w)
    requires i < |Exec(w, events).log| && j < |Exec(w, events).log|
    requires RunFor(Exec(w, events).log[i], id) && RunFor(Exec(w, events).log[j], id)
    ensures i == j
  {
    InitialInv(w);
    ExecKeepsInv(w, events);
  }

  /** Once a reject, a cancel or an expiry has won the row, its tool has not run and never will. */
  lemma NeverRunsOnceRefused(w: World, before: seq<Event>, after: seq<Event>, id: nat)
    requires Initial(w)
    requires id in Exec(w, before).rows
    requires Exec(w, before).rows[id].status in {Rejected, Cancelled, Expired}
    ensures forall job <- Exec(w, before + after).log :: !RunFor(job, id)
    ensures id in Exec(w, before + after).rows
    ensures Exec(w, before + after).rows[id] == Exec(w, before).rows[id]
  {
    InitialInv(w);
    ExecKeepsInv(w, before);
    ExecKeepsInv(w, before + after);
    ExecConcat(w, before, after);
    RunMovesStatus(Exec(w, before), after, id);
    var w' := Exec(w, before + after);
    forall i | 0 <= i < |w'.log| ensures !RunFor(w'.log[i], id) {
      assert LogOk(w');
    }
  }

  /** The unconditional writes are made by the one claim winner, on a row still approved. */
  lemma OverwritesBelongToTheWinner(w: World, events: seq<Event>, c: nat, d: nat)
    requires Initial(w)
    requires c in Exec(w, events).calls && d in Exec(w, events).calls
    requires var call := Exec(w, events).calls[c]; call.req.Approve? && (call.pc.Failing? || call.pc.FinalWrite?)
    ensures var w' := Exec(w, events);
      && HasStatus(w', w'.calls[c].req.id, Approved)
      && (Winner(w'.calls[d]) && w'.calls[d].req.id == w'.calls[c].req.id ==> c == d)
  {
    InitialInv(w);
    ExecKeepsInv(w, events);
    assert CallOk(Exec(w, events), Exec(w, events).calls[c]);
  }

  /** The row a finished approve, reject or cancel hands back. */
  function AnsweredRow(outcome: Outcome): Option<Row> {
    match outcome
    case ActionExecuted(row, _) => Some(row)
    case AlreadyProcessed(row) => Some(row)
    case ActionExpired(row) => Some(row)
    case ActionRejected(row) => Some(row)
    case ActionCancelled(row) => Some(row)
    case _ => None
  }

  /** Nobody is answered with a row that is still pending, and at most one call is told it executed the action. */
  lemma AnswersAreFinal(w: World, events: seq<Event>, c: nat, d: nat)
    requires Initial(w)
    requires c in Exec(w, events).calls && d in Exec(w, events).calls
    requires Exec(w, events).calls[c].pc.Done? && Exec(w, events).calls[d].pc.Done?
    requires !Exec(w, events).calls[c].req.Propose? && !Exec(w, events).calls[d].req.Propose?
    ensures var w' := Exec(w, events); var row := AnsweredRow(w'.calls[c].pc.outcome);
      row.Some? ==> row.value.status != Pending
    ensures var w' := Exec(w, events); var (a, b) := (w'.calls[c], w'.calls[d]);
      a.pc.outcome.ActionExecuted? && b.pc.outcome.ActionExecuted? && a.req.id == b.req.id ==> c == d
    ensures var w' := Exec(w, events); var a := w'.calls[c];
      a.pc.outcome.ActionExecuted? ==> a.req.Approve? && a.req.id in w'.rows && w'.rows[a.req.id] == a.pc.outcome.row
    ensures var a := Exec(w, events).calls[c];
      && (a.pc.outcome.ActionRejected? ==> a.pc.outcome.row.status == Rejected)
      && (a.pc.outcome.ActionCancelled? ==> a.pc.outcome.row.status == Cancelled)
  {
    InitialInv(w);
    ExecKeepsInv(w, events);
    assert CallOk(Exec(w, events), Exec(w, events).calls[c]);
    assert CallOk(Exec(w, events), Exec(w, events).calls[d]);
  }

  /** A row becomes approved only through an approve call that had seen it pending and unexpired when it read it. */
  lemma ApprovedRowsWereUnexpiredWhenRead(w: World, events: seq<Event>, e: Event, id: nat)
    requires Initial(w)
    requires id in Exec(w, events).rows && Exec(w, events).rows[id].status == Pending
    requires Step(Exec(w, events), e).rows[id].status == Approved
    ensures var w' := Exec(w, events);
      && e.Resume? && e.call in w'.calls
      && w'.calls[e.call].req == Approve(w'.rows[id].userId, id)
      && w'.calls[e.call].pc.Claiming?
      && Unexpired(w'.rows[id], w'.calls[e.call].pc.checkedAt)
      && w'.calls[e.call].pc.checkedAt <= w'.now
  {
    InitialInv(w);
    ExecKeepsInv(w, events);
    var w' := Exec(w, events);
    if e.Resume? && e.call in w'.calls {
      EffectIsLegal(w', e.call, e.answer);
      assert CallOk(w', w'.calls[e.call]);
    }
  }

  // ---------------------------------------------------------------------
  // The answer `expired`

  /** What is left of an approve call after its expiry update: whether its answer will carry an expired row. */
  ghost predicate ExpiryTrack(w: World, c: nat, req: Request, expired: bool) {
    && c in w.calls && w.calls[c].req == req && req.Approve?
    && match w.calls[c].pc
       case ExpiryReread(_) => Settled(w, req.id) && (w.rows[req.id].status == Expired <==> expired)
       case ExpiryAudit(row) => row.status == Expired <==> expired
       case Done(outcome) => outcome.Threw? || (outcome.ActionExpired? && (outcome.row.status == Expired <==> expired))
       case _ => false
  }

  lemma ExpiryTrackStep(w: World, e: Event, c: nat, req: Request, expired: bool)
    requires Inv(w) && ExpiryTrack(w, c, req, expired)
    ensures ExpiryTrack(Step(w, e), c, req, expired)
  {
    if w.calls[c].pc.ExpiryReread? { StepMovesStatus(w, e, req.id); }
    if e.Resume? && e.call == c {
      assert !IsRunPc(w.calls[c].pc);
    }
  }

  lemma {:induction false} ExpiryTrackStays(w: World, events: seq<Event>, c: nat, req: Request, expired: bool)
    requires Inv(w) && ExpiryTrack(w, c, req, expired)
    ensures ExpiryTrack(Exec(w, events), c, req, expired)
    decreases |events|
  {
    if events != [] {
      StepKeepsInv(w, events[0]);
      ExpiryTrackStep(w, events[0], c, req, expired);
      ExpiryTrackStays(Step(w, events[0]), events[1..], c, req, expired);
    }
  }

  /**
   * An approve that found its row overdue answers `expired` with whatever the row has become. The row it hands
   * back is an expired one exactly when the row was still pending, or already expired, at its own expiry update.
   */
  lemma ExpiredAnswerIsExact(w: World, before: seq<Event>, c: nat, answer: bool, after: seq<Event>)
    requires Initial(w)
    requires c in Exec(w, before).calls && Exec(w, before).calls[c].req.Approve?
      && Exec(w, before).calls[c].pc.Expiring?
    requires var w' := Exec(w, before + [Resume(c, answer)] + after);
      c in w'.calls && w'.calls[c].pc.Done? && w'.calls[c].pc.outcome.ActionExpired?
    ensures var (u, w') := (Exec(w, before), Exec(w, before + [Resume(c, answer)] + after));
      && u.calls[c].req.id in u.rows
      && (w'.calls[c].pc.outcome.row.status == Expired <==> u.rows[u.calls[c].req.id].status in {Pending, Expired})
  {
    var u, e := Exec(w, before), Resume(c, answer);
    InitialInv(w);
    ExecKeepsInv(w, before);
    assert CallOk(u, u.calls[c]);
    StepKeepsInv(u, e);
    var expired := u.rows[u.calls[c].req.id].status in {Pending, Expired};
    assert before + [e] + after == before + ([e] + after);
    ExecConcat(w, before, [e] + after);
    assert ([e] + after)[1..] == after;
    ExpiryTrackStays(Step(u, e), after, c, u.calls[c].req, expired);
  }

  lemma ExecCons(w: World, e: Event, rest: seq<Event>)
    ensures Exec(w, [e] + rest) == Exec(Step(w, e), rest)
  {
    assert ([e] + rest)[1..] == rest;
  }

  lemma ApproveFindsOverdueRow(w: World, id: nat, req: Request) returns (events: seq<Event>)
    requires id in w.rows && Overdue(w.rows[id], w.now) && req == Approve(w.rows[id].userId, id) && w.calls == map[]
    ensures Exec(w, events) == w.(calls := map[0 := Call(req, Expiring(w.rows[id]))])
  {
    events := [Arrive(0, req)] + ([Resume(0, true)] + []);
    var w1 := Step(w, Arrive(0, req));
    ExecCons(w, Arrive(0, req), [Resume(0, true)] + []);
    ExecCons(w1, Resume(0, true), []);
    assert Step(w1, Resume(0, true)).calls == map[0 := Call(req, Expiring(w.rows[id]))];
  }

  lemma RejectClaims(w: World, id: nat, req: Request) returns (events: seq<Event>)
    requires id in w.rows && w.rows[id].status == Pending && req == Reject(w.rows[id].userId, id) && 1 !in w.calls
    ensures Exec(w, events)
         == w.(calls := w.calls[1 := Call(req, ClaimAudit(w.rows[id], w.now))],
               rows := w.rows[id := w.rows[id].(status := Rejected)])
  {
    events := [Arrive(1, req)] + ([Resume(1, true)] + ([Resume(1, true)] + []));
    var w1 := Step(w, Arrive(1, req));
    var w2 := Step(w1, Resume(1, true));
    ExecCons(w, Arrive(1, req), [Resume(1, true)] + ([Resume(1, true)] + []));
    ExecCons(w1, Resume(1, true), [Resume(1, true)] + []);
    ExecCons(w2, Resume(1, true), []);
    assert w2.calls == w.calls[1 := Call(req, Claiming(w.rows[id], w.now))];
    assert Step(w2, Resume(1, true)).calls == w.calls[1 := Call(req, ClaimAudit(w.rows[id], w.now))];
  }

  lemma LateExpiryAnswersExpired(w: World, req: Request, snap: Row) returns (events: seq<Event>)
    requires req.Approve? && req.id in w.rows && w.rows[req.id].status != Pending
    requires 0 in w.calls && w.calls[0] == Call(req, Expiring(snap))
    ensures 0 in Exec(w, events).calls && Exec(w, events).calls[0] == Call(req, Done(ActionExpired(w.rows[req.id])))
  {
    events := [Resume(0, true)] + ([Resume(0, true)] + []);
    var w1 := Step(w, Resume(0, true));
    ExecCons(w, Resume(0, true), [Resume(0, true)] + []);
    ExecCons(w1, Resume(0, true), []);
    assert w1.calls[0] == Call(req, ExpiryReread(false));
  }

  /** The race behind it: a reject slips in between the expiry check and the expiry update. */
  lemma ExpiredAnswerCanCarryARejectedRow(w: World, id: nat) returns (events: seq<Event>)
    requires Initial(w) && id in w.rows && Overdue(w.rows[id], w.now)
    ensures var w' := Exec(w, events);
      && 0 in w'.calls
      && w'.calls[0] == Call(Approve(w.rows[id].userId, id), Done(ActionExpired(w.rows[id].(status := Rejected))))
  {
    var read := ApproveFindsOverdueRow(w, id, Approve(w.rows[id].userId, id));
    var refuse := RejectClaims(Exec(w, read), id, Reject(w.rows[id].userId, id));
    ExecConcat(w, read, refuse);
    var answer := LateExpiryAnswersExpired(Exec(w, read + refuse), Approve(w.rows[id].userId, id), w.rows[id]);
    ExecConcat(w, read + refuse, answer);
    events := read + refuse + answer;
  }

  // ---------------------------------------------------------------------
  // Every call ends

  /** How many awaits a call has left at most. */
  function AwaitsLeft(pc: Pc): nat {
    match pc
    case Reading => 13
    case Requested => 13
    case Expiring(_) => 3
    case ExpiryReread(_) => 2
    case ExpiryAudit(_) => 1
    case Claiming(_, _) => 12
    case ClaimAudit(_, _) => 11
    case LostReread => 1
    case SettledReread => 1
    case SkillLookup(_, _) => 10
    case GateSkillLookup(_, _) => 10
    case Failing => 1
    case Opening(_) => 9
    case Running(_) => 8
    case Drafting(_, _) => 7
    case DraftAudit(_) => 6
    case Closing(_, _) => 5
    case RunAudit(_, _) => 4
    case Recovering(_) => 3
    case RecoveryAudit(_) => 2
    case FinalWrite(_) => 1
    case Refusing(_) => 1
    case Creating(_) => 2
    case CreationAudit(_) => 1
    case Done(_) => 0
  }

  function ResumesOf(c: nat, events: seq<Event>): nat {
    if events == [] then 0 else (if events[0].Resume? && events[0].call == c then 1 else 0) + ResumesOf(c, events[1..])
  }

  /** The program counter belongs to a call of this kind. */
  ghost predicate PcFits(call: Call) {
    if IsRunPc(call.pc) then true
    else if call.req.Propose? then
      call.pc.Requested? || call.pc.Refusing? || call.pc.GateSkillLookup? || call.pc.Creating? || call.pc.CreationAudit?
        || call.pc.Done?
    else
      !(call.pc.Requested? || call.pc.Refusing? || call.pc.GateSkillLookup? || call.pc.Creating?
        || call.pc.CreationAudit?)
  }

  ghost predicate Nearer(call: Call, pc: Pc) {
    PcFits(call.(pc := pc)) && if call.pc.Done? then pc.Done? else AwaitsLeft(pc) < AwaitsLeft(call.pc)
  }

  lemma RunIsNearer(w: World, call: Call, answer: bool)
    requires PcFits(call) && IsRunPc(call.pc)
    ensures Nearer(call, RunEffect(w, call.req, call.pc, answer).pc)
  {}

  lemma ProposeIsNearer(w: World, call: Call, answer: bool)
    requires PcFits(call) && !IsRunPc(call.pc) && call.req.Propose?
    ensures Nearer(call, ProposeEffect(w, call.req, call.pc, answer).pc)
  {}

  lemma ActionIsNearer(w: World, call: Call, answer: bool)
    requires PcFits(call) && !IsRunPc(call.pc) && !call.req.Propose?
    ensures Nearer(call, ActionEffect(w, call.req, call.pc, answer).pc)
  {}

  lemma EffectIsNearer(w: World, call: Call, answer: bool)
    requires PcFits(call)
    ensures Nearer(call, CallEffect(w, call, answer).pc)
  {
    if IsRunPc(call.pc) { RunIsNearer(w, call, answer); }
    else if call.req.Propose? { ProposeIsNearer(w, call, answer); }
    else { ActionIsNearer(w, call, answer); }
  }

  lemma ResumeUsesAnAwait(w: World, e: Event, c: nat)
    requires c in w.calls && PcFits(w.calls[c])
    ensures c in Step(w, e).calls && PcFits(Step(w, e).calls[c])
    ensures AwaitsLeft(Step(w, e).calls[c].pc) <= AwaitsLeft(w.calls[c].pc)
    ensures e.Resume? && e.call == c && !w.calls[c].pc.Done?
      ==> AwaitsLeft(Step(w, e).calls[c].pc) < AwaitsLeft(w.calls[c].pc)
  {
    if e.Resume? && e.call == c { EffectIsNearer(w, w.calls[c], e.answer); }
  }

  /** Whatever the others do, a call is finished once its own awaits, thirteen at most, have completed. */
  lemma {:induction false} EveryCallFinishes(w: World, events: seq<Event>, c: nat)
    requires c in w.calls && PcFits(w.calls[c])
    requires AwaitsLeft(w.calls[c].pc) <= ResumesOf(c, events)
    ensures c in Exec(w, events).calls && Exec(w, events).calls[c].pc.Done?
    decreases |events|
  {
    if events != [] {
      ResumeUsesAnAwait(w, events[0], c);
      EveryCallFinishes(Step(w, events[0]), events[1..], c);
    }
  }

  // ---------------------------------------------------------------------
  // An approved action does run

  /** No await of this call rejects, and its skill is found enabled. */
  ghost predicate GoesWell(c: nat, events: seq<Event>) {
    forall e <- events :: (e.Abort? ==> e.call != c) && (e.Resume? && e.call == c ==> e.answer)
  }

  /** The call still has `left` awaits to go until the tool starts, or has started it. */
  ghost predicate OnItsWay(w: World, c: nat, req: Request, left: nat) {
    && c in w.calls && w.calls[c].req == req && req.Approve? && req.id in w.rows
    && w.rows[req.id].toolName in w.registry
    && var (row, pc) := (w.rows[req.id], w.calls[c].pc);
       var ctx := Context(row.userId, row.scope, row.space, Some(req.id));
       var job := Job(w.registry[row.toolName], ctx, row.input, true);
    || (left == 3 && pc.ClaimAudit?) || (left == 2 && pc.SkillLookup?) || (left == 1 && pc == Opening(job))
    || job in w.log
  }

  lemma StepOnItsWay(w: World, e: Event, c: nat, req: Request, left: nat)
    requires Inv(w) && OnItsWay(w, c, req, left) && GoesWell(c, [e])
    ensures var own := e.Resume? && e.call == c;
      OnItsWay(Step(w, e), c, req, if own && left > 0 then left - 1 else left)
  {
    assert e in [e];
    assert CallOk(w, w.calls[c]);
    StepMovesStatus(w, e, req.id);
    if e.Resume? && e.call == c { OwnStepOnItsWay(w, c, req, left, e.answer); } else { OthersKeepOnItsWay(w, e, c); }
  }

  lemma OthersKeepOnItsWay(w: World, e: Event, c: nat)
    requires c in w.calls && (e.Resume? || e.Abort? || e.Arrive? ==> e.call != c || e.Arrive?)
    ensures c in Step(w, e).calls && Step(w, e).calls[c] == w.calls[c] && Step(w, e).registry == w.registry
    ensures w.log <= Step(w, e).log
  {}

  lemma OwnStepOnItsWay(w: World, c: nat, req: Request, left: nat, answer: bool)
    requires Inv(w) && OnItsWay(w, c, req, left) && answer
    requires req.id in Step(w, Resume(c, answer)).rows
    requires SameAction(w.rows[req.id], Step(w, Resume(c, answer)).rows[req.id])
    ensures OnItsWay(Step(w, Resume(c, answer)), c, req, if left > 0 then left - 1 else left)
  {
    assert CallOk(w, w.calls[c]);
  }

  /**
   * However the calls interleave: once an approval has won its claim, and nothing it awaits throws or is disabled, the
   * third of its own awaits starts the action's tool on the action's own input, for its owner, scope and space.
   */
  lemma {:induction false} ApprovedActionRuns(w: World, events: seq<Event>, c: nat, req: Request, left: nat)
    requires Inv(w) && OnItsWay(w, c, req, left) && GoesWell(c, events) && left <= ResumesOf(c, events)
    ensures OnItsWay(Exec(w, events), c, req, 0)
    decreases |events|
  {
    if events != [] {
      var (e, rest) := (events[0], events[1..]);
      assert events == [e] + rest && e in events && forall x <- rest :: x in events;
      StepOnItsWay(w, e, c, req, left);
      StepKeepsInv(w, e);
      var own := e.Resume? && e.call == c;
      ApprovedActionRuns(Step(w, e), rest, c, req, if own && left > 0 then left - 1 else left);
    }
  }

  /** So after a won claim the log holds the job. */
  lemma WonClaimStartsTheTool(w: World, before: seq<Event>, c: nat, after: seq<Event>)
    requires Initial(w) && c in Exec(w, before).calls
    requires var u := Exec(w, before); var call := u.calls[c];
      call.req.Approve? && call.pc.ClaimAudit? && call.req.id in u.rows && u.rows[call.req.id].toolName in u.registry
    requires GoesWell(c, after) && 3 <= ResumesOf(c, after)
    ensures var (u, w') := (Exec(w, before), Exec(w, before + after));
      var id := u.calls[c].req.id; var row := u.rows[id];
      Job(u.registry[row.toolName], Context(row.userId, row.scope, row.space, Some(id)), row.input, true) in w'.log
  {
    InitialInv(w);
    ExecKeepsInv(w, before);
    ExecConcat(w, before, after);
    var u := Exec(w, before);
    var req := u.calls[c].req;
    ApprovedActionRuns(u, after, c, req, 3);
    RunMovesStatus(u, after, req.id);
    RegistryStays(u, after);
    NotAtAnAwait(Exec(u, after), c, req);
  }

  lemma {:induction false} RegistryStays(w: World, events: seq<Event>)
    ensures Exec(w, events).registry == w.registry
    decreases |events|
  {
    if events != [] { RegistryStays(Step(w, events[0]), events[1..]); }
  }

  lemma NotAtAnAwait(w: World, c: nat, req: Request)
    requires OnItsWay(w, c, req, 0)
    ensures var row := w.rows[req.id];
      Job(w.registry[row.toolName], Context(row.userId, row.scope, row.space, Some(req.id)), row.input, true) in w.log
  {}
}
