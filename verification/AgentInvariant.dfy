/** What every step of the approval protocol keeps: the audit log of an action determines
    its life so far, a request's snapshot is an earlier version of its row, and at most one
    request is executing an action. */
module AgentInvariant {
  import opened Wrappers
  import opened AgentActions
  import opened AgentProtocol

  // ---------- the lifecycle rows of one action ----------

  predicate Lifecycle(e: Event) {
    e != EvObserved && e != EvRollback
  }

  /** The lifecycle rows of action `id`, oldest first. */
  function LogOf(audits: seq<Audit>, id: nat): seq<Audit> {
    if audits == [] then []
    else
      var last := audits[|audits| - 1];
      LogOf(audits[..|audits| - 1], id) + (if last.action == id && Lifecycle(last.event) then [last] else [])
  }

  lemma LogOfSnoc(audits: seq<Audit>, a: Audit, id: nat)
    ensures LogOf(audits + [a], id)
         == LogOf(audits, id) + (if a.action == id && Lifecycle(a.event) then [a] else [])
  {
    assert (audits + [a])[..|audits|] == audits;
  }

  lemma {:induction false} LogOfConcat(audits: seq<Audit>, more: seq<Audit>, id: nat)
    ensures LogOf(audits + more, id) == LogOf(audits, id) + LogOf(more, id)
  {
    if more == [] {
      assert audits + more == audits;
    } else {
      var front, last := more[..|more| - 1], more[|more| - 1];
      assert audits + more == (audits + front) + [last];
      assert more == front + [last];
      LogOfSnoc(audits + front, last, id);
      LogOfConcat(audits, front, id);
      LogOfSnoc(front, last, id);
    }
  }

  predicate StagedLog(row: Action, log: seq<Audit>) {
    |log| == 1 && log[0].event == EvStaged && row.approvedBy == None
  }

  predicate SubmittedLog(row: Action, log: seq<Audit>) {
    |log| == 2 && log[0].event == EvStaged && log[1].event == EvSubmitted && log[1].actor == row.userId
    && row.approvedBy == None
  }

  predicate ApprovedLog(row: Action, log: seq<Audit>) {
    && |log| == 3 && log[0].event == EvStaged && log[1].event == EvSubmitted && log[2].event == EvApproved
    && log[1].actor == row.userId
    && row.approvedBy == Some(log[2].actor) && log[2].actor != row.userId
  }

  /** A claim straight from `pending`, or one by the requester after an approval. */
  predicate ExecutingLog(row: Action, log: seq<Audit>) {
    && log != [] && log[|log| - 1].event == EvExecuting
    && var before := log[..|log| - 1];
       StagedLog(row, before) || (ApprovedLog(row, before) && log[|log| - 1].actor == row.userId)
  }

  predicate OutcomeLog(row: Action, log: seq<Audit>, event: Event) {
    log != [] && log[|log| - 1].event == event && ExecutingLog(row, log[..|log| - 1])
  }

  predicate RejectedLog(row: Action, log: seq<Audit>) {
    && log != [] && log[|log| - 1].event == EvRejected && log[|log| - 1].actor != row.userId
    && SubmittedLog(row, log[..|log| - 1])
  }

  predicate CancelledLog(row: Action, log: seq<Audit>) {
    && log != [] && log[|log| - 1].event == EvCancelled && log[|log| - 1].actor == row.userId
    && var before := log[..|log| - 1];
       StagedLog(row, before) || SubmittedLog(row, before) || ApprovedLog(row, before)
  }

  /** The only shapes the log of an action can have, by status. A cancelled action whose
      log is still the staged one was cancelled without an audit row. */
  predicate LogOk(row: Action, log: seq<Audit>) {
    match row.status
    case Pending => StagedLog(row, log)
    case ApprovalPending => SubmittedLog(row, log)
    case Approved => ApprovedLog(row, log)
    case Executing => ExecutingLog(row, log)
    case Executed => OutcomeLog(row, log, EvExecuted)
    case Failed => OutcomeLog(row, log, EvFailed)
    case RolledBack => OutcomeLog(row, log, EvFailed)
    case RollbackPending => OutcomeLog(row, log, EvFailed)
    case Rejected => RejectedLog(row, log)
    case Cancelled => CancelledLog(row, log) || StagedLog(row, log)
  }

  // ---------- versions of a row ----------

  /** `b` is a later version of `a`: the staged columns are the same, the status has moved
      up, or nothing at all has changed. */
  predicate Evolves(a: Action, b: Action) {
    && b == a.(evidence := b.evidence, status := b.status, approvedBy := b.approvedBy, approvedAt := b.approvedAt,
               observation := b.observation, rollbackResult := b.rollbackResult, result := b.result,
               executedAt := b.executedAt)
    && Rank(a.status) <= Rank(b.status)
    && (Rank(a.status) == Rank(b.status) ==> a == b)
  }

  predicate Snapshot(db: Db, id: nat, row: Action) {
    id in db.actions && Evolves(row, db.actions[id])
  }

  /** A new row is pending; a row being executed is left alone, and only saving gives an
      outcome. */
  predicate Fits(db: Db, db': Db, id: nat)
    requires id in db'.actions
  {
    if id !in db.actions then db'.actions[id].status == Pending
    else db.actions[id].status == Executing || Outcome(db'.actions[id].status) ==> db'.actions[id] == db.actions[id]
  }

  /** What one step may do to the tables apart from saving an outcome. */
  ghost predicate Extends(db: Db, db': Db) {
    && db.audits <= db'.audits
    && (forall id :: id in db.actions ==> Snapshot(db', id, db.actions[id]))
    && (forall id :: id in db'.actions ==> Fits(db, db', id))
    && (forall c :: c in db.conversations ==>
          c in db'.conversations && db.conversations[c].version <= db'.conversations[c].version
          && db.conversations[c].userId == db'.conversations[c].userId)
  }

  // ---------- what a request knows ----------

  /** The programs that carry the row they read. */
  predicate HoldsRow(q: Request) {
    q.ConfirmWithRow? || q.ConfirmWithEnv? || q.ConfirmScoped? || q.ConfirmReady? || q.ConfirmSubmit?
    || q.ConfirmClaim? || q.DecideWithRow?
  }

  /** What the tests passed so far say about that row. */
  predicate Passed(q: Request) {
    match q
    case ConfirmWithEnv(_, actor, row, production) => production ==> row.userId == actor
    case ConfirmScoped(_, actor, row, production) => production ==> row.userId == actor
    case ConfirmReady(_, actor, row, production, _) => production ==> row.userId == actor
    case ConfirmSubmit(_, actor, row, _) => row.userId == actor && row.status == Pending
    case ConfirmClaim(_, actor, row, _, expected, evidence) =>
      && row.status == expected
      && (expected == Pending
          || (expected == Approved && row.approvedBy.Some? && row.approvedBy != Some(row.userId)
              && row.userId == actor && evidence == None))
    case DecideReady(_, actor, owner) => actor != owner
    case Sweep(_, todo, _) => forall k :: k in todo ==> Open(todo[k])
    case _ => true
  }

  predicate RequestOk(db: Db, q: Request) {
    && Passed(q)
    && (HoldsRow(q) ==> Snapshot(db, q.id, q.row))
    && (q.ConfirmRun? ==> q.id in db.actions && db.actions[q.id] == q.row.(status := Executing))
    && (q.DecideReady? ==> q.id in db.actions && db.actions[q.id].userId == q.owner)
    && (q.Sweep? ==> forall k :: k in q.todo ==> k in db.actions && db.actions[k].userId == q.actor)
  }

  /** Tables in which every action's log has one of the allowed shapes. */
  ghost predicate Logged(db: Db) {
    && (forall id :: id in db.actions ==> LogOk(db.actions[id], LogOf(db.audits, id)))
    && (forall id :: id !in db.actions ==> LogOf(db.audits, id) == [])
  }

  predicate SameRun(q: Request, p: Request) {
    q.ConfirmRun? && p.ConfirmRun? && q.id == p.id
  }

  ghost predicate Inv(s: State) {
    && Logged(s.db)
    && (forall r :: r in s.requests ==> RequestOk(s.db, s.requests[r]))
    && (forall r, t :: r in s.requests && t in s.requests && r != t ==> !SameRun(s.requests[r], s.requests[t]))
  }

  /** Open are exactly the statuses from which an action has neither run nor been closed. */
  lemma OpenIff(s: Status)
    ensures Open(s) <==> !Ran(s) && s != Rejected && s != Cancelled
    ensures Ran(s) <==> s in {Executing, Executed, Failed, RolledBack, RollbackPending}
  {
  }

  lemma EvolvesTransitive(a: Action, b: Action, c: Action)
    requires Evolves(a, b) && Evolves(b, c)
    ensures Evolves(a, c)
  {
  }

  /** A request keeps what it knows while other steps extend the tables. */
  lemma RequestStable(db: Db, db': Db, q: Request)
    requires Extends(db, db') && RequestOk(db, q)
    ensures RequestOk(db', q)
  {
    if HoldsRow(q) {
      assert Snapshot(db', q.id, db.actions[q.id]);
      EvolvesTransitive(q.row, db.actions[q.id], db'.actions[q.id]);
    } else if q.ConfirmRun? {
      assert Snapshot(db', q.id, db.actions[q.id]) && Fits(db, db', q.id);
    } else if q.DecideReady? {
      assert Snapshot(db', q.id, db.actions[q.id]);
    } else if q.Sweep? {
      forall k | k in q.todo ensures k in db'.actions && db'.actions[k].userId == q.actor {
        assert Snapshot(db', k, db.actions[k]);
      }
    }
  }

  // ---------- the effect of each transaction ----------

  lemma WriteKeepsLogs(db: Db, id: nat, row: Action, a: Audit)
    requires Logged(db) && id in db.actions && a.action == id && Lifecycle(a.event)
    requires LogOk(row, LogOf(db.audits, id) + [a])
    ensures Logged(Write(db, id, row, [a]))
  {
    var db' := Write(db, id, row, [a]);
    assert db'.audits == db.audits + [a] && db'.actions == db.actions[id := row];
    assert db'.actions.Keys == db.actions.Keys + {id};
    LoggedAfter(db, db', id, a);
  }

  /** Appending one lifecycle row for `id` keeps every log allowed, provided the other
      rows are unchanged and the new row of `id` goes with its longer log. */
  lemma LoggedAfter(db: Db, db': Db, id: nat, a: Audit)
    requires Logged(db) && a.action == id && Lifecycle(a.event)
    requires db'.audits == db.audits + [a] && db'.actions.Keys == db.actions.Keys + {id}
    requires LogOk(db'.actions[id], LogOf(db.audits, id) + [a])
    requires forall k :: k in db.actions && k != id ==>
               db'.actions[k] == db.actions[k]
               || (db.actions[k].status == Pending && db'.actions[k] == db.actions[k].(status := Cancelled))
    ensures Logged(db')
  {
    forall k ensures LogOf(db'.audits, k) == LogOf(db.audits, k) + (if k == id then [a] else []) {
      LogOfSnoc(db.audits, a, k);
    }
    forall k | k in db'.actions ensures LogOk(db'.actions[k], LogOf(db'.audits, k)) {
      if k != id {
        assert LogOf(db'.audits, k) == LogOf(db.audits, k);
      }
    }
  }

  lemma WriteExtends(db: Db, id: nat, row: Action, a: Audit)
    requires id in db.actions && db.actions[id].status != Executing && Evolves(db.actions[id], row)
    requires !Outcome(row.status)
    ensures Extends(db, Write(db, id, row, [a]))
  {
    var db' := Write(db, id, row, [a]);
    forall k | k in db.actions ensures Snapshot(db', k, db.actions[k]) && Fits(db, db', k) {}
  }

  lemma ExtendsItself(db: Db)
    ensures Extends(db, db)
  {
    forall k | k in db.actions ensures Snapshot(db, k, db.actions[k]) && Fits(db, db, k) {}
  }

  lemma SubmitKeeps(db: Db, id: nat, actor: nat, evidence: string)
    requires Logged(db) && SubmitTx(db, id, actor, evidence).Some?
    ensures var db' := SubmitTx(db, id, actor, evidence).value; Logged(db') && Extends(db, db')
  {
    var row := db.actions[id].(status := ApprovalPending, evidence := evidence);
    var a := Audit(id, actor, EvSubmitted, "production change submitted for independent approval");
    WriteKeepsLogs(db, id, row, a);
    WriteExtends(db, id, row, a);
  }

  lemma DecideKeeps(db: Db, id: nat, actor: nat, approve: bool, now: nat, reason: string)
    requires Logged(db) && DecideTx(db, id, actor, approve, now, reason).Some?
    requires actor != db.actions[id].userId
    ensures var db' := DecideTx(db, id, actor, approve, now, reason).value; Logged(db') && Extends(db, db')
  {
    var log := LogOf(db.audits, id);
    if approve {
      var row := db.actions[id].(status := Approved, approvedBy := Some(actor), approvedAt := Some(now));
      var a := Audit(id, actor, EvApproved, reason);
      WriteKeepsLogs(db, id, row, a);
      WriteExtends(db, id, row, a);
    } else {
      var row := db.actions[id].(status := Rejected);
      var a := Audit(id, actor, EvRejected, reason);
      assert (log + [a])[..|log|] == log;
      WriteKeepsLogs(db, id, row, a);
      WriteExtends(db, id, row, a);
    }
  }

  /** Every cancellation that leaves an audit row by the owner. */
  lemma CancelKeeps(db: Db, id: nat, a: Audit)
    requires Logged(db) && id in db.actions && Open(db.actions[id].status)
    requires a.action == id && a.event == EvCancelled && a.actor == db.actions[id].userId
    ensures var db' := Write(db, id, db.actions[id].(status := Cancelled), [a]); Logged(db') && Extends(db, db')
  {
    var log := LogOf(db.audits, id);
    var row := db.actions[id].(status := Cancelled);
    assert (log + [a])[..|log|] == log;
    WriteKeepsLogs(db, id, row, a);
    WriteExtends(db, id, row, a);
  }

  lemma ClaimKeeps(db: Db, id: nat, actor: nat, expected: Status, evidence: Option<string>)
    requires Logged(db) && ClaimTx(db, id, actor, expected, evidence).Some?
    requires expected == Pending || (expected == Approved && actor == db.actions[id].userId)
    ensures var db' := ClaimTx(db, id, actor, expected, evidence).value; Logged(db') && Extends(db, db')
  {
    var log := LogOf(db.audits, id);
    var row := ClaimTx(db, id, actor, expected, evidence).value.actions[id];
    var a := Audit(id, actor, EvExecuting, "confirmed staged change");
    assert (log + [a])[..|log|] == log;
    WriteKeepsLogs(db, id, row, a);
    WriteExtends(db, id, row, a);
  }

  lemma StageExtends(db: Db, id: nat, row: Action, version: nat, supersede: bool)
    requires StageTx(db, id, row, version, supersede).Some?
    ensures Extends(db, StageTx(db, id, row, version, supersede).value)
  {
    var db' := StageTx(db, id, row, version, supersede).value;
    forall k | k in db.actions ensures Snapshot(db', k, db.actions[k]) && Fits(db, db', k) {
      assert k != id;
    }
  }

  lemma StageKeeps(db: Db, id: nat, row: Action, version: nat, supersede: bool)
    requires Logged(db) && StageTx(db, id, row, version, supersede).Some?
    ensures var db' := StageTx(db, id, row, version, supersede).value; Logged(db') && Extends(db, db')
  {
    var db' := StageTx(db, id, row, version, supersede).value;
    var a := Audit(id, row.userId, EvStaged, "server dry-run preview created");
    assert LogOf(db.audits, id) + [a] == [a];
    LoggedAfter(db, db', id, a);
    StageExtends(db, id, row, version, supersede);
  }

  lemma DropLogs(db: Db, id: nat)
    requires Logged(db)
    ensures Logged(DropTx(db, id))
  {
    var db' := DropTx(db, id);
    forall k | k in db'.actions ensures LogOk(db'.actions[k], LogOf(db'.audits, k)) {
      assert LogOk(db.actions[k], LogOf(db.audits, k));
    }
  }

  lemma DropExtends(db: Db, id: nat)
    ensures Extends(db, DropTx(db, id))
  {
    var db' := DropTx(db, id);
    forall k | k in db.actions ensures Snapshot(db', k, db.actions[k]) && Fits(db, db', k) {}
  }

  lemma LogOfNotes(audits: seq<Audit>, notes: seq<Audit>, id: nat)
    requires forall i :: 0 <= i < |notes| ==> !Lifecycle(notes[i].event)
    ensures LogOf(audits + notes, id) == LogOf(audits, id)
  {
    if notes == [] {
      assert audits + notes == audits;
    } else {
      var front, last := notes[..|notes| - 1], notes[|notes| - 1];
      assert audits + notes == (audits + front) + [last];
      LogOfSnoc(audits + front, last, id);
      LogOfNotes(audits, front, id);
    }
  }

  /** An outcome adds one lifecycle row; the observation and rollback notes are not. */
  lemma OutcomeLogs(db: Db, id: nat, row: Action, actor: nat, event: Event, detail: string, k: nat)
    requires Lifecycle(event)
    ensures LogOf(OutcomeTx(db, id, row, actor, event, detail).audits, k)
         == LogOf(db.audits, k) + (if k == id then [Audit(id, actor, event, detail)] else [])
  {
    var a := Audit(id, actor, event, detail);
    var notes := (if row.observation != "" then [Audit(id, actor, EvObserved, row.observation)] else [])
               + (if row.rollbackResult != "" then [Audit(id, actor, EvRollback, row.rollbackResult)] else []);
    assert OutcomeTx(db, id, row, actor, event, detail).audits == (db.audits + [a]) + notes;
    LogOfNotes(db.audits + [a], notes, k);
    LogOfSnoc(db.audits, a, k);
  }

  /** What is saved is the claimed row with its outcome columns filled in. */
  lemma FinishRow(row: Action, production: bool, x: Execution, now: nat)
    ensures var (saved, event, _) := Finish(row, production, x, now);
            && Outcome(saved.status)
            && event == (if saved.status == Executed then EvExecuted else EvFailed)
            && saved == row.(status := saved.status, result := saved.result, observation := saved.observation,
                             rollbackResult := saved.rollbackResult, executedAt := saved.executedAt)
    ensures var (saved, _, detail) := Finish(row, production, x, now);
            Reports(row, production, x, now, saved) && detail == saved.result
  {
    RollbackTexts(x.rollback);
  }

  lemma RollbackTexts(text: string)
    ensures !("rollback submitted" <= text && "rollback verified" <= text)
  {
    assert "rollback submitted"[9] != "rollback verified"[9];
  }

  /** What the saved row says is what the executor answered: executed exactly on a success; after
      an error, by how the rollback text of a production change begins; and failed otherwise. */
  predicate Reports(row: Action, production: bool, x: Execution, now: nat, saved: Action) {
    && (saved.status == Executed <==> x.error == None && x.success == Some(true))
    && (saved.status == RollbackPending <==> x.error.Some? && production && "rollback submitted" <= x.rollback)
    && (saved.status == RolledBack <==> x.error.Some? && production && "rollback verified" <= x.rollback)
    && (saved.status == Failed <==>
          if x.error.Some? then !production || !("rollback submitted" <= x.rollback || "rollback verified" <= x.rollback)
          else x.success != Some(true))
    && saved.result == (if x.error.Some? then x.error.value
                        else if x.success == None then "execution failed" else x.message)
    && saved.executedAt == (if x.error == None && x.success == Some(true) then Some(now) else row.executedAt)
    && saved.observation == (if production then x.observation else "")
    && saved.rollbackResult == (if production then x.rollback else "")
  }

  lemma OutcomeKeeps(db: Db, id: nat, saved: Action, actor: nat, event: Event, detail: string)
    requires Logged(db) && id in db.actions && Lifecycle(event)
    requires LogOk(saved, LogOf(db.audits, id) + [Audit(id, actor, event, detail)])
    ensures Logged(OutcomeTx(db, id, saved, actor, event, detail))
  {
    var db' := OutcomeTx(db, id, saved, actor, event, detail);
    forall k ensures LogOf(db'.audits, k)
                  == LogOf(db.audits, k) + (if k == id then [Audit(id, actor, event, detail)] else []) {
      OutcomeLogs(db, id, saved, actor, event, detail, k);
    }
    forall k | k in db'.actions ensures LogOk(db'.actions[k], LogOf(db'.audits, k)) {
      if k != id {
        assert LogOf(db'.audits, k) == LogOf(db.audits, k);
      }
    }
  }

  /** Saving the outcome of the row this request claimed. */
  lemma FinishKeeps(db: Db, id: nat, actor: nat, row: Action, production: bool, x: Execution, now: nat)
    requires Logged(db) && id in db.actions && db.actions[id] == row.(status := Executing)
    ensures var (saved, event, detail) := Finish(row, production, x, now);
            && Logged(OutcomeTx(db, id, saved, actor, event, detail))
            && Evolves(db.actions[id], saved) && Outcome(saved.status)
  {
    var (saved, event, detail) := Finish(row, production, x, now);
    FinishRow(row, production, x, now);
    var log, a := LogOf(db.audits, id), Audit(id, actor, event, detail);
    assert (log + [a])[..|log|] == log;
    assert ExecutingLog(saved, log);
    OutcomeKeeps(db, id, saved, actor, event, detail);
  }
}
