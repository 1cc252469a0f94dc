/** The guarantees of the approval protocol, over every run: any number of requests, any
    interleaving, settings and environments changing at any moment. */
module AgentTheorems {
  import opened Wrappers
  import opened AgentActions
  import opened AgentProtocol
  import opened AgentInvariant
  import opened AgentSafety

  // ---------- from positions in a log to positions in the audit table ----------

  lemma {:induction false} LogMember(audits: seq<Audit>, id: nat, a: Audit)
    requires a in LogOf(audits, id)
    ensures exists i :: 0 <= i < |audits| && audits[i] == a
  {
    if audits != [] {
      var front := audits[..|audits| - 1];
      if a in LogOf(front, id) {
        LogMember(front, id, a);
        var i :| 0 <= i < |front| && front[i] == a;
        assert audits[i] == a;
      } else {
        assert audits[|audits| - 1] == a;
      }
    }
  }

  /** The log up to row `j` of the audit table is the part of the log before that row. */
  lemma LogSplit(audits: seq<Audit>, id: nat, j: nat)
    requires j < |audits| && audits[j].action == id && Lifecycle(audits[j].event)
    ensures var before := LogOf(audits[..j], id);
            && |before| < |LogOf(audits, id)|
            && before == LogOf(audits, id)[..|before|]
            && LogOf(audits, id)[|before|] == audits[j]
  {
    assert audits == audits[..j + 1] + audits[j + 1..];
    assert audits[..j + 1] == audits[..j] + [audits[j]];
    LogOfSnoc(audits[..j], audits[j], id);
    LogOfConcat(audits[..j + 1], audits[j + 1..], id);
  }

  lemma LogPrefix(early: seq<Audit>, late: seq<Audit>, id: nat)
    requires early <= late
    ensures LogOf(early, id) <= LogOf(late, id)
  {
    assert late == early + late[|early|..];
    LogOfConcat(early, late[|early|..], id);
  }

  // ---------- independent approval ----------

  predicate IsRow(a: Audit, id: nat, event: Event) {
    a.action == id && a.event == event
  }

  lemma {:induction false} LogMemberOf(audits: seq<Audit>, id: nat, a: Audit)
    requires a in LogOf(audits, id)
    ensures a.action == id && Lifecycle(a.event)
  {
    if audits != [] && a in LogOf(audits[..|audits| - 1], id) {
      LogMemberOf(audits[..|audits| - 1], id, a);
    }
  }

  /** In a log with one claim at position `p`, every claim row of the audit table follows a
      row equal to each earlier entry of the log. */
  lemma ClaimFollows(db: Db, id: nat, p: nat, a: Audit, j: nat)
    requires var log := LogOf(db.audits, id);
             && p < |log| && a in log[..p]
             && (forall i :: 0 <= i < |log| && log[i].event == EvExecuting ==> i == p)
    requires j < |db.audits| && IsRow(db.audits[j], id, EvExecuting)
    ensures db.audits[j] == LogOf(db.audits, id)[p]
    ensures exists i :: 0 <= i < j && db.audits[i] == a
  {
    LogSplit(db.audits, id, j);
    LogMember(db.audits[..j], id, a);
    var i :| 0 <= i < j && db.audits[..j][i] == a;
    assert db.audits[i] == a;
  }

  /** An action that ever waited for approval and ran carries an approver other than its
      requester, and that approver's row precedes every claim of it. */
  lemma {:induction false} IndependentApproval(s: State, steps: seq<Step>, k: nat, id: nat)
    requires Initial(s) && k <= |steps|
    requires id in Exec(s, steps[..k]).db.actions
    requires Exec(s, steps[..k]).db.actions[id].status == ApprovalPending
    requires id in Exec(s, steps).db.actions && Ran(Exec(s, steps).db.actions[id].status)
    ensures var db := Exec(s, steps).db;
            && db.actions[id].approvedBy.Some?
            && db.actions[id].approvedBy.value != db.actions[id].userId
            && (exists j :: 0 <= j < |db.audits| && IsRow(db.audits[j], id, EvExecuting))
            && (forall j :: 0 <= j < |db.audits| && IsRow(db.audits[j], id, EvExecuting) ==>
                  db.audits[j].actor == db.actions[id].userId
                  && exists i :: 0 <= i < j && IsRow(db.audits[i], id, EvApproved)
                                 && db.audits[i].actor == db.actions[id].approvedBy.value)
  {
    var early, db := Exec(s, steps[..k]).db, Exec(s, steps).db;
    InvAlways(s, steps[..k]);
    InvAlways(s, steps);
    RunLater(s, steps, k);
    SubmissionStays(early, db, id);
    ApprovalInTables(db, id);
  }

  /** The submission stays the second row of the log. */
  lemma SubmissionStays(early: Db, db: Db, id: nat)
    requires Logged(early) && id in early.actions && early.actions[id].status == ApprovalPending
    requires early.audits <= db.audits
    ensures var log := LogOf(db.audits, id); |log| > 1 && log[1].event == EvSubmitted
  {
    assert LogOk(early.actions[id], LogOf(early.audits, id));
    LogPrefix(early.audits, db.audits, id);
    assert LogOf(db.audits, id)[1] == LogOf(early.audits, id)[1];
  }

  lemma ApprovalInTables(db: Db, id: nat)
    requires Logged(db) && id in db.actions && Ran(db.actions[id].status)
    requires var log := LogOf(db.audits, id); |log| > 1 && log[1].event == EvSubmitted
    ensures db.actions[id].approvedBy.Some?
    ensures db.actions[id].approvedBy.value != db.actions[id].userId
    ensures exists j :: 0 <= j < |db.audits| && IsRow(db.audits[j], id, EvExecuting)
    ensures forall j :: 0 <= j < |db.audits| && IsRow(db.audits[j], id, EvExecuting) ==>
              db.audits[j].actor == db.actions[id].userId
              && exists i :: 0 <= i < j && IsRow(db.audits[i], id, EvApproved)
                             && db.audits[i].actor == db.actions[id].approvedBy.value
  {
    var log, row := LogOf(db.audits, id), db.actions[id];
    RanLog(row, log);
    LogMember(db.audits, id, log[3]);
    LogMemberOf(db.audits, id, log[3]);
    LogMemberOf(db.audits, id, log[2]);
    forall j | 0 <= j < |db.audits| && IsRow(db.audits[j], id, EvExecuting)
      ensures db.audits[j].actor == row.userId
      ensures exists i :: 0 <= i < j && IsRow(db.audits[i], id, EvApproved)
                          && db.audits[i].actor == row.approvedBy.value
    {
      assert log[2] in log[..3];
      ClaimFollows(db, id, 3, log[2], j);
      var i :| 0 <= i < j && db.audits[i] == log[2];
      assert IsRow(db.audits[i], id, EvApproved);
    }
  }

  /** The log of an action that ran after being submitted. */
  lemma RanLog(row: Action, log: seq<Audit>)
    requires Ran(row.status) && LogOk(row, log) && |log| > 1 && log[1].event == EvSubmitted
    ensures |log| > 3 && log[2].event == EvApproved && log[3].event == EvExecuting && log[3].actor == row.userId
    ensures row.approvedBy == Some(log[2].actor) && log[2].actor != row.userId
    ensures forall i :: 0 <= i < |log| && log[i].event == EvExecuting ==> i == 3
  {
    var claimed := if row.status == Executing then log else log[..|log| - 1];
    assert ExecutingLog(row, claimed);
    var before := claimed[..|claimed| - 1];
    assert ApprovedLog(row, before);
    assert log[..3] == before;
  }

  // ---------- saving an outcome loses nothing ----------

  /** The unconditional save, made from a snapshot read before the claim, changes no column
      but the outcome's own, in no row but the one this request claimed. */
  lemma {:induction false} OutcomeLosesNothing(s: State, steps: seq<Step>, r: nat, o: Oracle)
    requires Initial(s) && r in Exec(s, steps).requests && Exec(s, steps).requests[r].ConfirmRun?
    ensures var q, db, db' := Exec(s, steps).requests[r], Exec(s, steps).db, Apply(Exec(s, steps), Advance(r, o)).db;
            && q.id in db.actions && db.actions[q.id].status == Executing && q.id in db'.actions
            && Outcome(db'.actions[q.id].status)
            && db'.actions == db.actions[q.id := db.actions[q.id].(
                 status := db'.actions[q.id].status, result := db'.actions[q.id].result,
                 observation := db'.actions[q.id].observation, rollbackResult := db'.actions[q.id].rollbackResult,
                 executedAt := db'.actions[q.id].executedAt)]
  {
    InvAlways(s, steps);
    var q := Exec(s, steps).requests[r];
    assert RequestOk(Exec(s, steps).db, q);
    FinishRow(q.row, q.production, o.execution, o.now);
  }

  // ---------- the time of execution ----------

  predicate Stamped(row: Action) {
    row.executedAt.Some? <==> row.status == Executed
  }

  predicate AllStamped(db: Db) {
    forall id :: id in db.actions ==> Stamped(db.actions[id])
  }

  lemma ConfirmStamps(db: Db, q: Request, o: Oracle)
    requires AllStamped(db) && RequestOk(db, q) && !q.Decide? && !q.DecideWithRow? && !q.DecideReady?
    ensures AllStamped(AdvanceConfirm(db, q, o).0)
  {
    if q.ConfirmClaim? {
      ClaimStamps(db, q.id, q.actor, q.expected, q.evidence);
    } else if q.ConfirmSubmit? {
      SubmitEither(db, q, o);
      SubmitStamps(db, q.id, q.actor, q.proof);
    } else if q.ConfirmRun? {
      FinishRow(q.row, q.production, o.execution, o.now);
    } else {
      ConfirmReads(db, q, o);
    }
  }

  lemma ClaimStamps(db: Db, id: nat, actor: nat, expected: Status, evidence: Option<string>)
    requires AllStamped(db) && Open(expected)
    ensures ClaimTx(db, id, actor, expected, evidence).Some? ==> AllStamped(ClaimTx(db, id, actor, expected, evidence).value)
  {
  }

  lemma SubmitStamps(db: Db, id: nat, actor: nat, proof: string)
    requires AllStamped(db)
    ensures SubmitTx(db, id, actor, proof).Some? ==> AllStamped(SubmitTx(db, id, actor, proof).value)
  {
  }

  lemma DecideStamps(db: Db, q: Request, o: Oracle)
    requires AllStamped(db) && (q.Decide? || q.DecideWithRow? || q.DecideReady?)
    ensures AllStamped(AdvanceDecide(db, q, o).0)
  {
  }

  lemma SweepStamps(db: Db, id: nat, actor: nat, seen: Status, clearing: bool)
    requires AllStamped(db) && Open(seen)
    ensures AllStamped(SweepRowTx(db, id, actor, seen, clearing))
  {
  }

  lemma ConversationStamps(db: Db, q: Request, o: Oracle)
    requires AllStamped(db) && RequestOk(db, q) && (q.Clear? || q.ClearBumped? || q.CancelListed? || q.Sweep?)
    ensures AllStamped(AdvanceConversation(db, q, o).0)
  {
    if q.Sweep? {
      if o.pick in q.todo { SweepStamps(db, o.pick, q.actor, q.todo[o.pick], q.clearing); }
    } else {
      assert AdvanceConversation(db, q, o).0.actions == db.actions;
    }
  }

  lemma StageStamps(db: Db, q: Request, o: Oracle)
    requires AllStamped(db) && (q.Stage? || q.StageReady?)
    ensures AllStamped(AdvanceStage(db, q, o).0)
  {
    StageEither(db, q, o);
  }

  lemma RequestStamps(db: Db, q: Request, o: Oracle)
    requires AllStamped(db) && RequestOk(db, q)
    ensures AllStamped(AdvanceRequest(db, q, o).0)
  {
    hide AllStamped, RequestOk;
    if q.Decide? || q.DecideWithRow? || q.DecideReady? { DecideStamps(db, q, o); }
    else if q.Clear? || q.ClearBumped? || q.CancelListed? || q.Sweep? { ConversationStamps(db, q, o); }
    else if q.Stage? || q.StageReady? { StageStamps(db, q, o); }
    else { ConfirmStamps(db, q, o); }
  }

  lemma StepStamps(s: State, step: Step)
    requires Inv(s) && AllStamped(s.db)
    ensures AllStamped(Apply(s, step).db)
  {
    if step.Advance? && step.r in s.requests { RequestStamps(s.db, s.requests[step.r], step.o); }
  }

  /** In every reachable state an action has a time of execution exactly if it was executed. */
  lemma {:induction false} StampedIffExecuted(s: State, steps: seq<Step>, id: nat)
    requires Initial(s) && id in Exec(s, steps).db.actions
    ensures var row := Exec(s, steps).db.actions[id]; row.executedAt.Some? <==> row.status == Executed
  {
    AlwaysStamped(s, steps);
  }

  lemma {:induction false} AlwaysStamped(s: State, steps: seq<Step>)
    requires Initial(s)
    ensures AllStamped(Exec(s, steps).db)
  {
    if steps != [] {
      AlwaysStamped(s, steps[..|steps| - 1]);
      InvAlways(s, steps[..|steps| - 1]);
      StepStamps(Exec(s, steps[..|steps| - 1]), steps[|steps| - 1]);
    }
  }

  // ---------- at most one claim ----------

  /** The audit table never holds two claims of the same action. */
  lemma {:induction false} OneClaimRow(s: State, steps: seq<Step>, id: nat, i: nat, j: nat)
    requires Initial(s) && i < j < |Exec(s, steps).db.audits|
    requires IsRow(Exec(s, steps).db.audits[i], id, EvExecuting)
    ensures !IsRow(Exec(s, steps).db.audits[j], id, EvExecuting)
  {
    InvAlways(s, steps);
    var db := Exec(s, steps).db;
    var log := LogOf(db.audits, id);
    if IsRow(db.audits[j], id, EvExecuting) {
      LogSplit(db.audits, id, i);
      LogSplit(db.audits, id, j);
      var p, q := |LogOf(db.audits[..i], id)|, |LogOf(db.audits[..j], id)|;
      assert id in db.actions;
      OneClaimInLog(db.actions[id], log, p, q);
      assert db.audits[..j][..i] == db.audits[..i];
      LogSplit(db.audits[..j], id, i);
      assert false;
    }
  }

  lemma OneClaimInLog(row: Action, log: seq<Audit>, p: nat, q: nat)
    requires LogOk(row, log) && p < |log| && q < |log|
    requires log[p].event == EvExecuting == log[q].event
    ensures p == q
  {
    var last := |log| - 1;
    if row.status == Executing {
      assert log[..last][..last] == log[..last];
    } else {
      var claimed := log[..last];
      if Outcome(row.status) {
        assert ExecutingLog(row, claimed);
        assert forall i :: 0 <= i < |claimed| - 1 ==> claimed[..|claimed| - 1][i] == log[i];
      }
    }
  }

  /** How many steps of the run moved the status of `id`, and how many of them to executing. */
  function StatusWrites(s: State, steps: seq<Step>, id: nat): nat {
    if steps == [] then 0
    else
      var front := steps[..|steps| - 1];
      StatusWrites(s, front, id) + (if Moved(Exec(s, front).db, Exec(s, steps).db, id) then 1 else 0)
  }

  function Claims(s: State, steps: seq<Step>, id: nat): nat {
    if steps == [] then 0
    else
      var front := steps[..|steps| - 1];
      Claims(s, front, id)
      + (if Moved(Exec(s, front).db, Exec(s, steps).db, id) && Exec(s, steps).db.actions[id].status == Executing
         then 1 else 0)
  }

  predicate Moved(db: Db, db': Db, id: nat) {
    id in db.actions && id in db'.actions && db.actions[id].status != db'.actions[id].status
  }

  /** An action gets an outcome only from executing, and leaves executing only so. */
  predicate Ordered(a: Status, b: Status) {
    && (a != b && Outcome(b) ==> a == Executing)
    && (a == Executing && a != b ==> Outcome(b))
  }

  lemma StepOrder(s: State, step: Step, id: nat)
    requires Inv(s) && id in s.db.actions
    ensures id in Apply(s, step).db.actions
    ensures var a, b := s.db.actions[id].status, Apply(s, step).db.actions[id].status;
            (a == b || Rank(a) < Rank(b)) && Ordered(a, b)
  {
    StepEffect(s, step);
    var db' := Apply(s, step).db;
    if !Saves(s, step) { assert Snapshot(db', id, s.db.actions[id]) && Fits(s.db, db', id); }
  }

  predicate HasRun(db: Db, id: nat) {
    id in db.actions && Ran(db.actions[id].status)
  }

  /** A claim is the one step at which an action starts to count as run. */
  lemma ClaimStarts(db: Db, db': Db, id: nat)
    requires id in db.actions ==>
               id in db'.actions && Ordered(db.actions[id].status, db'.actions[id].status)
               && (db.actions[id].status == db'.actions[id].status
                   || Rank(db.actions[id].status) < Rank(db'.actions[id].status))
    requires id !in db.actions && id in db'.actions ==> db'.actions[id].status == Pending
    ensures HasRun(db, id) ==> HasRun(db', id)
    ensures !HasRun(db, id) && HasRun(db', id) <==> Moved(db, db', id) && db'.actions[id].status == Executing
  {
  }

  lemma {:induction false} ClaimsCounted(s: State, steps: seq<Step>, id: nat)
    requires Initial(s)
    ensures var db := Exec(s, steps).db;
            Claims(s, steps, id) == if HasRun(db, id) then 1 else 0
  {
    if steps != [] {
      var front, last := steps[..|steps| - 1], steps[|steps| - 1];
      ClaimsCounted(s, front, id);
      InvAlways(s, front);
      if id in Exec(s, front).db.actions { StepOrder(Exec(s, front), last, id); }
      else if id in Exec(s, steps).db.actions { NewRowIsPending(Exec(s, front), last, id); }
      ClaimStarts(Exec(s, front).db, Exec(s, steps).db, id);
    }
  }

  lemma {:induction false} WritesCounted(s: State, steps: seq<Step>, id: nat)
    requires Initial(s)
    ensures var db := Exec(s, steps).db;
            StatusWrites(s, steps, id) <= if id in db.actions then Rank(db.actions[id].status) else 0
  {
    if steps != [] {
      var front, last := steps[..|steps| - 1], steps[|steps| - 1];
      WritesCounted(s, front, id);
      InvAlways(s, front);
      if id in Exec(s, front).db.actions { StepOrder(Exec(s, front), last, id); }
    }
  }

  /** Over a whole run an action is claimed exactly once if it ever ran and never otherwise,
      and its status is written at most as often as its rank, which is at most four. */
  lemma {:induction false} AtMostOneClaim(s: State, steps: seq<Step>, id: nat)
    requires Initial(s)
    ensures var db := Exec(s, steps).db;
            if id in db.actions
            then && Claims(s, steps, id) == (if Ran(db.actions[id].status) then 1 else 0)
                 && StatusWrites(s, steps, id) <= Rank(db.actions[id].status) <= 4
            else Claims(s, steps, id) == 0 == StatusWrites(s, steps, id)
  {
    ClaimsCounted(s, steps, id);
    WritesCounted(s, steps, id);
  }

  lemma NewRowIsPending(s: State, step: Step, id: nat)
    requires Inv(s) && id !in s.db.actions && id in Apply(s, step).db.actions
    ensures Apply(s, step).db.actions[id].status == Pending
  {
    StepEffect(s, step);
    if !Saves(s, step) { assert Fits(s.db, Apply(s, step).db, id); }
  }

  /** Outcomes, rejections and cancellations are final: the row never changes again. */
  lemma {:induction false} FinishedStays(s: State, steps: seq<Step>, k: nat, id: nat)
    requires Initial(s) && k <= |steps| && id in Exec(s, steps[..k]).db.actions
    requires var status := Exec(s, steps[..k]).db.actions[id].status;
             Outcome(status) || status == Rejected || status == Cancelled
    ensures var db := Exec(s, steps).db;
            id in db.actions && db.actions[id] == Exec(s, steps[..k]).db.actions[id]
  {
    RunLater(s, steps, k);
    assert Snapshot(Exec(s, steps).db, id, Exec(s, steps[..k]).db.actions[id]);
  }

  // ---------- clearing a conversation while other requests run ----------

  predicate NoCancellation(log: seq<Audit>) {
    forall i :: 0 <= i < |log| ==> log[i].event != EvCancelled
  }

  predicate OneCancellation(log: seq<Audit>) {
    |log| > 0 && log[|log| - 1].event == EvCancelled && NoCancellation(log[..|log| - 1])
  }

  /** One update of a clear or of a bulk cancellation, in any reachable state: the row it
      picks is cancelled with exactly one audit row if it still has the status that was
      listed, and every row is otherwise exactly as other requests left it. In particular no
      executing or finished action changes. */
  lemma {:induction false} SweepChangesOnlyWhatItListed(s: State, steps: seq<Step>, r: nat, o: Oracle, id: nat)
    requires Initial(s) && r in Exec(s, steps).requests && Exec(s, steps).requests[r].Sweep?
    requires id in Exec(s, steps).db.actions
    ensures var q, db := Exec(s, steps).requests[r], Exec(s, steps).db;
            var db' := Apply(Exec(s, steps), Advance(r, o)).db;
            var cancels := id == o.pick && id in q.todo && q.todo[id] == db.actions[id].status;
            && id in db'.actions
            && (cancels ==> Open(db.actions[id].status) && db.actions[id].userId == q.actor)
            && db'.actions[id] == (if cancels then db.actions[id].(status := Cancelled) else db.actions[id])
            && (cancels ==> OneCancellation(LogOf(db'.audits, id)))
            && |LogOf(db'.audits, id)| == |LogOf(db.audits, id)| + (if cancels then 1 else 0)
  {
    InvAlways(s, steps);
    var q, db := Exec(s, steps).requests[r], Exec(s, steps).db;
    assert RequestOk(db, q);
    OpenLogHasNoCancellation(db, id);
    if o.pick in q.todo {
      SweepRowEffect(db, o.pick, q.actor, q.todo[o.pick], q.clearing, id);
    }
  }

  lemma SweepRowEffect(db: Db, k: nat, actor: nat, seen: Status, clearing: bool, id: nat)
    requires id in db.actions && k in db.actions && db.actions[k].userId == actor && Open(seen)
    requires Open(db.actions[id].status) ==> NoCancellation(LogOf(db.audits, id))
    ensures var db' := SweepRowTx(db, k, actor, seen, clearing);
            var cancels := id == k && seen == db.actions[id].status;
            && id in db'.actions
            && db'.actions[id] == (if cancels then db.actions[id].(status := Cancelled) else db.actions[id])
            && (cancels ==> OneCancellation(LogOf(db'.audits, id)))
            && |LogOf(db'.audits, id)| == |LogOf(db.audits, id)| + (if cancels then 1 else 0)
  {
    SweepRowWrites(db, k, actor, seen, clearing);
    if db.actions[k].status == seen {
      CancellationRow(db, SweepDetail(k, actor, clearing), id);
    }
  }

  function SweepDetail(k: nat, actor: nat, clearing: bool): Audit {
    Audit(k, actor, EvCancelled, if clearing then "conversation cleared or deleted" else "requester cancelled staged change")
  }

  lemma SweepRowWrites(db: Db, k: nat, actor: nat, seen: Status, clearing: bool)
    requires k in db.actions && db.actions[k].userId == actor
    ensures var db' := SweepRowTx(db, k, actor, seen, clearing);
            if db.actions[k].status == seen
            then db'.actions == db.actions[k := db.actions[k].(status := Cancelled)]
                 && db'.audits == db.audits + [SweepDetail(k, actor, clearing)]
            else db' == db
  {
  }

  lemma CancellationRow(db: Db, a: Audit, id: nat)
    requires a.event == EvCancelled
    ensures var log, log' := LogOf(db.audits, id), LogOf(db.audits + [a], id);
            if a.action == id then |log'| == |log| + 1 && (NoCancellation(log) ==> OneCancellation(log'))
            else log' == log
  {
    var log := LogOf(db.audits, id);
    LogOfSnoc(db.audits, a, id);
    if a.action == id { assert (log + [a])[..|log|] == log; }
  }

  lemma OpenLogHasNoCancellation(db: Db, id: nat)
    requires Logged(db) && id in db.actions
    ensures Open(db.actions[id].status) ==> NoCancellation(LogOf(db.audits, id))
  {
    var row, log := db.actions[id], LogOf(db.audits, id);
    assert LogOk(row, log);
    if Open(row.status) { OpenShape(row, log); }
  }

  lemma OpenShape(row: Action, log: seq<Audit>)
    requires Open(row.status) && LogOk(row, log)
    ensures NoCancellation(log)
  {
  }

  /** A turn that read the conversation before it was cleared can never stage a change. */
  lemma {:induction false} StaleTurnStagesNothing(s: State, steps: seq<Step>, k: nat, r: nat, o: Oracle)
    requires Initial(s) && k <= |steps|
    requires r in Exec(s, steps).requests && Exec(s, steps).requests[r].StageReady?
    requires Exec(s, steps).requests[r].conversation.Some?
    requires var q, db := Exec(s, steps).requests[r], Exec(s, steps[..k]).db;
             var c := q.conversation.value;
             c in db.conversations && (db.conversations[c].version > q.version)
    ensures Apply(Exec(s, steps), Advance(r, o)).db == Exec(s, steps).db
  {
    RunLater(s, steps, k);
    var q, db := Exec(s, steps).requests[r], Exec(s, steps).db;
    assert db.conversations[q.conversation.value].version > q.version;
    if o.row.conversation == q.conversation {
      assert StageTx(db, o.pick, o.row, q.version, q.inTurn && o.ok) == None;
    }
  }
}
