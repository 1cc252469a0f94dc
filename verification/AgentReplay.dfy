/** Reading an action's history back from its audit rows, and exactly when that works. */
module AgentReplay {
  import opened Wrappers
  import opened AgentActions
  import opened AgentProtocol
  import opened AgentInvariant
  import opened AgentSafety
  import opened AgentTheorems

  /** Where the audit rows say an action is. The three failure outcomes share one event. */
  datatype Life = Unborn | At(status: Status) | Broken

  function Next(life: Life, e: Event): Life {
    match (life, e)
    case (Unborn, EvStaged) => At(Pending)
    case (At(Pending), EvSubmitted) => At(ApprovalPending)
    case (At(ApprovalPending), EvApproved) => At(Approved)
    case (At(ApprovalPending), EvRejected) => At(Rejected)
    case (At(Pending), EvExecuting) => At(Executing)
    case (At(Approved), EvExecuting) => At(Executing)
    case (At(Executing), EvExecuted) => At(Executed)
    case (At(Executing), EvFailed) => At(Failed)
    case (At(s), EvCancelled) => if Open(s) then At(Cancelled) else Broken
    case _ => Broken
  }

  function Replay(log: seq<Audit>): Life {
    if log == [] then Unborn else Next(Replay(log[..|log| - 1]), log[|log| - 1].event)
  }

  function Recorded(s: Status): Status {
    if s == RolledBack || s == RollbackPending then Failed else s
  }

  /** The step cancels `id` without an audit row: dropping an incomplete deployment, or
      staging the same creation again inside an agent turn. */
  predicate Silences(s: State, step: Step, id: nat) {
    && id in s.db.actions && s.db.actions[id].status == Pending
    && (step == DropIncomplete(id)
        || (step.Advance? && step.r in s.requests && s.requests[step.r].StageReady?
            && var q := s.requests[step.r];
               && q.inTurn && step.o.ok && step.o.row.userId == q.actor && step.o.row.conversation == q.conversation
               && SameCreation(s.db.actions[id], step.o.row)
               && StageTx(s.db, step.o.pick, step.o.row, q.version, true).Some?))
  }

  /** Both were staged in the same conversation, by the same user, to create the same thing. */
  predicate SameCreation(a: Action, b: Action) {
    && a.conversation.Some? && a.conversation == b.conversation && a.userId == b.userId && a.cluster == b.cluster
    && a.resourceType == b.resourceType && a.namespace == b.namespace && a.resourceName == b.resourceName
  }

  /** Some step of the run did. */
  predicate Silenced(s: State, steps: seq<Step>, id: nat) {
    steps != [] && (var front := steps[..|steps| - 1];
                    Silenced(s, front, id) || Silences(Exec(s, front), steps[|steps| - 1], id))
  }

  // ---------- one step ----------

  /** `id` gained exactly one lifecycle row if its status changed, and none if it did not. */
  ghost predicate RowPerChange(db: Db, db': Db, id: nat) {
    if id in db'.actions && (id !in db.actions || db.actions[id].status != db'.actions[id].status)
    then exists a: Audit :: LogOf(db'.audits, id) == LogOf(db.audits, id) + [a]
    else LogOf(db'.audits, id) == LogOf(db.audits, id)
  }

  lemma WriteRow(db: Db, k: nat, row: Action, a: Audit, id: nat)
    requires k in db.actions && a.action == k && Lifecycle(a.event) && row.status != db.actions[k].status
    ensures RowPerChange(db, Write(db, k, row, [a]), id)
  {
    LogOfSnoc(db.audits, a, id);
  }

  lemma ConfirmRows(db: Db, q: Request, o: Oracle, id: nat)
    requires RequestOk(db, q) && !q.Decide? && !q.DecideWithRow? && !q.DecideReady? && !q.ConfirmRun?
    ensures RowPerChange(db, AdvanceConfirm(db, q, o).0, id)
  {
    if q.ConfirmSubmit? {
      if SubmitTx(db, q.id, q.actor, q.proof).Some? {
        WriteRow(db, q.id, db.actions[q.id].(status := ApprovalPending, evidence := q.proof),
                 Audit(q.id, q.actor, EvSubmitted, "production change submitted for independent approval"), id);
      }
    } else if q.ConfirmClaim? {
      var claimed := ClaimTx(db, q.id, q.actor, q.expected, q.evidence);
      if claimed.Some? {
        WriteRow(db, q.id, claimed.value.actions[q.id], Audit(q.id, q.actor, EvExecuting, "confirmed staged change"), id);
      }
    } else {
      ConfirmReads(db, q, o);
    }
  }

  lemma RunRows(db: Db, q: Request, o: Oracle, id: nat)
    requires Logged(db) && RequestOk(db, q) && q.ConfirmRun?
    ensures RowPerChange(db, AdvanceConfirm(db, q, o).0, id)
  {
    var (saved, event, detail) := Finish(q.row, q.production, o.execution, o.now);
    FinishRow(q.row, q.production, o.execution, o.now);
    OutcomeLogs(db, q.id, saved, q.actor, event, detail, id);
  }

  lemma DecideRows(db: Db, q: Request, o: Oracle, id: nat)
    requires RequestOk(db, q) && (q.Decide? || q.DecideWithRow? || q.DecideReady?)
    ensures RowPerChange(db, AdvanceDecide(db, q, o).0, id)
  {
    if q.DecideReady? && db.actions[q.id].status == ApprovalPending {
      var row := db.actions[q.id];
      if o.ok {
        WriteRow(db, q.id, row.(status := Approved, approvedBy := Some(q.actor), approvedAt := Some(o.now)),
                 Audit(q.id, q.actor, EvApproved, o.text), id);
      } else {
        WriteRow(db, q.id, row.(status := Rejected), Audit(q.id, q.actor, EvRejected, o.text), id);
      }
    }
  }

  lemma ConversationRows(db: Db, q: Request, o: Oracle, id: nat)
    requires RequestOk(db, q) && (q.Clear? || q.ClearBumped? || q.CancelListed? || q.Sweep?)
    ensures RowPerChange(db, AdvanceConversation(db, q, o).0, id)
  {
    if q.Sweep? && o.pick in q.todo {
      SweepRow(db, o.pick, q.actor, q.todo[o.pick], q.clearing, id);
    }
  }

  lemma SweepRow(db: Db, k: nat, actor: nat, seen: Status, clearing: bool, id: nat)
    requires Open(seen)
    ensures RowPerChange(db, SweepRowTx(db, k, actor, seen, clearing), id)
  {
    if k in db.actions && SweepRowTx(db, k, actor, seen, clearing) != db {
      var detail := if clearing then "conversation cleared or deleted" else "requester cancelled staged change";
      WriteRow(db, k, db.actions[k].(status := Cancelled), Audit(k, actor, EvCancelled, detail), id);
    }
  }

  lemma StageRows(db: Db, k: nat, row: Action, version: nat, supersede: bool, id: nat)
    requires Logged(db) && StageTx(db, k, row, version, supersede).Some?
    ensures var db' := StageTx(db, k, row, version, supersede).value;
            if supersede && id in db.actions && Superseded(db.actions[id], row)
            then LogOf(db'.audits, id) == LogOf(db.audits, id) && db'.actions[id].status == Cancelled
            else RowPerChange(db, db', id)
  {
    LogOfSnoc(db.audits, Audit(k, row.userId, EvStaged, "server dry-run preview created"), id);
  }

  lemma RequestRows(db: Db, q: Request, o: Oracle, id: nat)
    requires Logged(db) && RequestOk(db, q) && !q.StageReady?
    ensures RowPerChange(db, AdvanceRequest(db, q, o).0, id)
  {
    if q.Decide? || q.DecideWithRow? || q.DecideReady? { DecideRows(db, q, o, id); }
    else if q.Clear? || q.ClearBumped? || q.CancelListed? || q.Sweep? { ConversationRows(db, q, o, id); }
    else if q.ConfirmRun? { RunRows(db, q, o, id); }
    else if !q.Stage? { ConfirmRows(db, q, o, id); }
  }

  lemma StagesWhen(db: Db, q: Request, o: Oracle)
    requires q.StageReady?
    ensures var staged := StageTx(db, o.pick, o.row, q.version, q.inTurn && o.ok);
            AdvanceStage(db, q, o).0
            == if o.row.userId == q.actor && o.row.conversation == q.conversation && staged.Some? then staged.value else db
  {
  }

  lemma SilencesWhen(s: State, r: nat, o: Oracle, id: nat)
    requires r in s.requests && s.requests[r].StageReady?
    requires o.row.userId == s.requests[r].actor && o.row.conversation == s.requests[r].conversation
    requires var q := s.requests[r]; StageTx(s.db, o.pick, o.row, q.version, q.inTurn && o.ok).Some?
    ensures Silences(s, Advance(r, o), id)
            <==> s.requests[r].inTurn && o.ok && id in s.db.actions && Superseded(s.db.actions[id], o.row)
  {
  }

  lemma StagingRows(s: State, r: nat, o: Oracle, id: nat)
    requires Inv(s) && r in s.requests && s.requests[r].StageReady?
    ensures var db' := AdvanceStage(s.db, s.requests[r], o).0;
            if Silences(s, Advance(r, o), id)
            then LogOf(db'.audits, id) == LogOf(s.db.audits, id)
                 && id in db'.actions && db'.actions[id].status == Cancelled
            else RowPerChange(s.db, db', id)
  {
    var q := s.requests[r];
    var silent := q.inTurn && o.ok;
    var staged := StageTx(s.db, o.pick, o.row, q.version, silent);
    StagesWhen(s.db, q, o);
    if o.row.userId == q.actor && o.row.conversation == q.conversation && staged.Some? {
      StageRows(s.db, o.pick, o.row, q.version, silent, id);
      SilencesWhen(s, r, o, id);
    }
  }

  lemma AdvanceRows(s: State, r: nat, o: Oracle, id: nat)
    requires Inv(s) && r in s.requests
    ensures var db' := Apply(s, Advance(r, o)).db;
            if Silences(s, Advance(r, o), id)
            then LogOf(db'.audits, id) == LogOf(s.db.audits, id)
                 && id in db'.actions && db'.actions[id].status == Cancelled
            else RowPerChange(s.db, db', id)
  {
    assert RequestOk(s.db, s.requests[r]);
    if s.requests[r].StageReady? {
      StagingRows(s, r, o, id);
    } else {
      RequestRows(s.db, s.requests[r], o, id);
    }
  }

  /** Dropping an incomplete deployment and changes of settings write no audit row at all. */
  lemma QuietRows(s: State, step: Step, id: nat)
    requires !(step.Advance? && step.r in s.requests)
    requires step.CancelChange? ==> CancelTx(s.db, step.id, step.actor) == None
    ensures var db' := Apply(s, step).db;
            && db'.audits == s.db.audits && db'.actions.Keys == s.db.actions.Keys
            && (Silences(s, step, id) ==> db'.actions[id].status == Cancelled)
            && (!Silences(s, step, id) && id in s.db.actions ==> db'.actions[id] == s.db.actions[id])
  {
  }

  /** Every step adds exactly one lifecycle row per status change, except the two silent
      cancellations, which add none. */
  lemma OneRowPerChange(s: State, step: Step, id: nat)
    requires Inv(s)
    ensures var db' := Apply(s, step).db;
            if Silences(s, step, id)
            then LogOf(db'.audits, id) == LogOf(s.db.audits, id)
                 && id in db'.actions && db'.actions[id].status == Cancelled
            else RowPerChange(s.db, db', id)
  {
    if step.Advance? && step.r in s.requests {
      AdvanceRows(s, step.r, step.o, id);
    } else if step.CancelChange? && CancelTx(s.db, step.id, step.actor).Some? {
      WriteRow(s.db, step.id, s.db.actions[step.id].(status := Cancelled),
               Audit(step.id, step.actor, EvCancelled, "requester cancelled staged change"), id);
    } else {
      QuietRows(s, step, id);
    }
  }

  // ---------- a whole run ----------

  /** The state of affairs a silent cancellation leaves behind. */
  ghost predicate Unrecorded(db: Db, id: nat) {
    id in db.actions && db.actions[id].status == Cancelled && |LogOf(db.audits, id)| == 1
  }

  /** A step leaves an action unrecorded just when it was, or when the step silences it. */
  lemma UnrecordedStep(s: State, step: Step, id: nat)
    requires Inv(s)
    ensures Unrecorded(Apply(s, step).db, id) <==> Unrecorded(s.db, id) || Silences(s, step, id)
  {
    var db' := Apply(s, step).db;
    OneRowPerChange(s, step, id);
    if id in s.db.actions {
      StepOrder(s, step, id);
      LogNotEmpty(s.db, id);
      SilencedLog(s.db, id);
      UnrecordedChange(s.db, db', id, Silences(s, step, id));
    } else if id in db'.actions {
      NewRowIsPending(s, step, id);
    }
  }

  /** The same for the tables before and after. */
  lemma UnrecordedChange(db: Db, db': Db, id: nat, silenced: bool)
    requires id in db.actions && id in db'.actions && |LogOf(db.audits, id)| >= 1
    requires db.actions[id].status == Pending ==> |LogOf(db.audits, id)| == 1
    requires silenced ==> db.actions[id].status == Pending
    requires if silenced then LogOf(db'.audits, id) == LogOf(db.audits, id) && db'.actions[id].status == Cancelled
             else RowPerChange(db, db', id)
    requires db.actions[id].status == db'.actions[id].status || Rank(db.actions[id].status) < Rank(db'.actions[id].status)
    ensures Unrecorded(db', id) <==> Unrecorded(db, id) || silenced
  {
  }

  lemma SilencedLog(db: Db, id: nat)
    requires Logged(db) && id in db.actions
    ensures db.actions[id].status == Pending ==> |LogOf(db.audits, id)| == 1
  {
    assert LogOk(db.actions[id], LogOf(db.audits, id));
  }

  lemma {:induction false} UnrecordedIffSilenced(s: State, steps: seq<Step>, id: nat)
    requires Initial(s)
    ensures Unrecorded(Exec(s, steps).db, id) <==> Silenced(s, steps, id)
  {
    if steps != [] {
      var n := |steps| - 1;
      var before, step := Exec(s, steps[..n]), steps[n];
      UnrecordedIffSilenced(s, steps[..n], id);
      InvAlways(s, steps[..n]);
      UnrecordedStep(before, step, id);
    }
  }

  lemma LogNotEmpty(db: Db, id: nat)
    requires Logged(db) && id in db.actions
    ensures LogOf(db.audits, id) != []
  {
    assert LogOk(db.actions[id], LogOf(db.audits, id));
  }

  lemma ReplayShort(row: Action, log: seq<Audit>)
    ensures StagedLog(row, log) ==> Replay(log) == At(Pending)
    ensures SubmittedLog(row, log) ==> Replay(log) == At(ApprovalPending)
    ensures ApprovedLog(row, log) ==> Replay(log) == At(Approved)
  {
    if |log| == 3 { assert log[..2][..1] == log[..1]; }
    if |log| >= 1 { assert log[..1][..0] == []; assert Replay(log[..1]) == Next(Unborn, log[0].event); }
    if |log| >= 2 { assert log[..2][..1] == log[..1]; assert Replay(log[..2]) == Next(Replay(log[..1]), log[1].event); }
  }

  lemma ReplayExecuting(row: Action, log: seq<Audit>)
    requires ExecutingLog(row, log)
    ensures Replay(log) == At(Executing)
  {
    ReplayShort(row, log[..|log| - 1]);
  }

  lemma ReplayOutcome(row: Action, log: seq<Audit>, event: Event)
    requires OutcomeLog(row, log, event) && (event == EvExecuted || event == EvFailed)
    ensures Replay(log) == At(if event == EvExecuted then Executed else Failed)
  {
    ReplayExecuting(row, log[..|log| - 1]);
  }

  lemma ReplayClosed(row: Action, log: seq<Audit>)
    ensures RejectedLog(row, log) ==> Replay(log) == At(Rejected)
    ensures CancelledLog(row, log) ==> Replay(log) == At(Cancelled) && |log| > 1
  {
    if log != [] { ReplayShort(row, log[..|log| - 1]); }
  }

  /** Replaying the log of a reachable action gives its status, unless it was cancelled
      silently; then the log still says it is pending. */
  lemma ReplayLog(row: Action, log: seq<Audit>)
    requires LogOk(row, log)
    ensures Replay(log) == if row.status == Cancelled && |log| == 1 then At(Pending) else At(Recorded(row.status))
  {
    if row.status == Executing { ReplayExecuting(row, log); }
    else if row.status == Executed { ReplayOutcome(row, log, EvExecuted); }
    else if Outcome(row.status) { ReplayOutcome(row, log, EvFailed); }
    else {
      ReplayShort(row, log);
      ReplayClosed(row, log);
    }
  }

  /** In every reachable state the audit rows of an action replay to its current status if
      and only if no step of the run cancelled it silently. */
  lemma {:induction false} ReplayIffNotSilenced(s: State, steps: seq<Step>, id: nat)
    requires Initial(s) && id in Exec(s, steps).db.actions
    ensures var db := Exec(s, steps).db;
            && (Replay(LogOf(db.audits, id)) == At(Recorded(db.actions[id].status)) <==> !Silenced(s, steps, id))
            && (Silenced(s, steps, id) ==> Replay(LogOf(db.audits, id)) == At(Pending))
  {
    InvAlways(s, steps);
    UnrecordedIffSilenced(s, steps, id);
    var db := Exec(s, steps).db;
    ReplayLog(db.actions[id], LogOf(db.audits, id));
  }

  /** A run in which it does not: an agent turn stages a deployment and drops it at its end,
      because the mounts the user asked for are missing. */
  function DroppedRow(): Action {
    Action(7, None, 1, "default", "create_deployment", "web", "", "", Pending, None, None, "", "", "", None)
  }

  function DroppedRun(): (State, seq<Step>) {
    var o := Oracle(true, "", 0, 5, DroppedRow(), Execution(None, None, "", "", ""));
    (State(Db(map[], [], map[], false, map[]), map[]),
     [Arrive(0, Stage(None, 7, true)), Advance(0, o), Advance(0, o), DropIncomplete(5)])
  }

  lemma BeforeDropping()
    ensures var (s, steps) := DroppedRun();
            var now := Exec(s, steps[..3]);
            Initial(s) && 5 in now.db.actions && now.db.actions[5].status == Pending
  {
    var (s, steps) := DroppedRun();
    assert steps[..1] == [steps[0]] && steps[..2] == steps[..1] + [steps[1]] && steps[..3] == steps[..2] + [steps[2]];
    assert Exec(s, steps[..1]) == Apply(s, steps[0]);
    assert Exec(s, steps[..2]) == Apply(Exec(s, steps[..1]), steps[1]);
    assert Exec(s, steps[..3]) == Apply(Exec(s, steps[..2]), steps[2]);
  }

  lemma ReplayCanFail()
    ensures var (s, steps) := DroppedRun();
            && Initial(s) && Silenced(s, steps, 5) && 5 in Exec(s, steps).db.actions
            && Exec(s, steps).db.actions[5].status == Cancelled
            && Replay(LogOf(Exec(s, steps).db.audits, 5)) == At(Pending)
  {
    var (s, steps) := DroppedRun();
    BeforeDropping();
    assert Exec(s, steps) == Apply(Exec(s, steps[..3]), steps[3]);
    ReplayIffNotSilenced(s, steps, 5);
  }
}
