/** The policy behind dual approval: while the setting stays on and a cluster stays a
    production cluster, nothing runs on it that was not approved by somebody else. */
module AgentPolicy {
  import opened Wrappers
  import opened AgentActions
  import opened AgentProtocol
  import opened AgentInvariant
  import opened AgentSafety
  import opened AgentTheorems

  predicate Guarded(db: Db, cluster: nat) {
    db.dualApproval && (cluster in db.environments ==> IsProduction(db.environments[cluster]))
  }

  /** In every state of the run, the first and the last included. */
  predicate AlwaysGuarded(s: State, steps: seq<Step>, cluster: nat) {
    Guarded(Exec(s, steps).db, cluster) && (steps != [] ==> AlwaysGuarded(s, steps[..|steps| - 1], cluster))
  }

  /** What a confirmation of `id` has concluded from what it read: that the change needs
      approval. Other requests, and confirmations that have not read yet, pass. */
  predicate Careful(q: Request, id: nat) {
    match q
    case ConfirmWithEnv(k, _, _, production) => k == id ==> production
    case ConfirmScoped(k, _, _, production) => k == id ==> production
    case ConfirmReady(k, _, _, production, dual) => k == id ==> production && dual
    case ConfirmClaim(k, _, _, _, expected, _) => k == id ==> expected == Approved
    case _ => true
  }

  /** A confirmation under way has concluded that the pending change `id` may run at once. */
  predicate Exposed(s: State, id: nat) {
    && id in s.db.actions && s.db.actions[id].status == Pending
    && exists r :: r in s.requests && !Careful(s.requests[r], id)
  }

  predicate RanUnapproved(db: Db, id: nat) {
    id in db.actions && Ran(db.actions[id].status) && db.actions[id].approvedBy == None
  }

  predicate Safe(s: State, id: nat) {
    !RanUnapproved(s.db, id) && !Exposed(s, id)
  }

  // ---------- steps that claim nothing ----------

  /** No row starts executing. */
  ghost predicate Calm(db: Db, db': Db) {
    forall id :: id in db'.actions && db'.actions[id].status == Executing ==>
      id in db.actions && db'.actions[id] == db.actions[id]
  }

  lemma DecideCalm(db: Db, q: Request, o: Oracle)
    requires q.Decide? || q.DecideWithRow? || q.DecideReady?
    ensures Calm(db, AdvanceDecide(db, q, o).0)
  {
  }

  lemma SweepRowCalm(db: Db, id: nat, actor: nat, seen: Status, clearing: bool)
    ensures Calm(db, SweepRowTx(db, id, actor, seen, clearing))
  {
  }

  lemma ConversationCalm(db: Db, q: Request, o: Oracle)
    requires q.Clear? || q.ClearBumped? || q.CancelListed? || q.Sweep?
    ensures Calm(db, AdvanceConversation(db, q, o).0)
  {
    if q.Sweep? && o.pick in q.todo {
      SweepRowCalm(db, o.pick, q.actor, q.todo[o.pick], q.clearing);
    } else {
      assert AdvanceConversation(db, q, o).0.actions == db.actions;
    }
  }

  lemma StageCalm(db: Db, q: Request, o: Oracle)
    requires q.Stage? || q.StageReady?
    ensures Calm(db, AdvanceStage(db, q, o).0)
  {
    StageEither(db, q, o);
  }

  lemma SubmitCalm(db: Db, q: Request, o: Oracle)
    requires q.ConfirmSubmit?
    ensures Calm(db, AdvanceConfirm(db, q, o).0) && AdvanceConfirm(db, q, o).1 == Done
  {
  }

  lemma RequestCalm(db: Db, q: Request, o: Oracle)
    requires RequestOk(db, q) && !q.ConfirmClaim? && !q.ConfirmRun?
    ensures Calm(db, AdvanceRequest(db, q, o).0)
  {
    if q.Decide? || q.DecideWithRow? || q.DecideReady? { DecideCalm(db, q, o); }
    else if q.Clear? || q.ClearBumped? || q.CancelListed? || q.Sweep? { ConversationCalm(db, q, o); }
    else if q.Stage? || q.StageReady? { StageCalm(db, q, o); }
    else if q.ConfirmSubmit? { SubmitCalm(db, q, o); }
    else { ConfirmReads(db, q, o); }
  }

  /** Extending the tables without a claim makes nothing run. */
  lemma CalmKeeps(db: Db, db': Db, id: nat)
    requires !RanUnapproved(db, id) && Extends(db, db') && Calm(db, db')
    ensures !RanUnapproved(db', id)
  {
    assert id in db'.actions ==> Fits(db, db', id);
  }

  // ---------- the two steps that matter ----------

  lemma ClaimApproved(db: Db, q: Request, o: Oracle, id: nat)
    requires Logged(db) && RequestOk(db, q) && q.ConfirmClaim? && !RanUnapproved(db, id)
    requires id in db.actions && db.actions[id].status == Pending ==> Careful(q, id)
    ensures !RanUnapproved(AdvanceConfirm(db, q, o).0, id)
  {
    var claimed := ClaimTx(db, q.id, q.actor, q.expected, q.evidence);
    if claimed.Some? && q.id == id {
      assert db.actions[id] == q.row;
      assert ApprovedLog(q.row, LogOf(db.audits, id));
    }
  }

  lemma RunApproved(db: Db, q: Request, o: Oracle, id: nat)
    requires RequestOk(db, q) && q.ConfirmRun? && !RanUnapproved(db, id)
    ensures !RanUnapproved(AdvanceConfirm(db, q, o).0, id)
  {
    FinishRow(q.row, q.production, o.execution, o.now);
  }

  /** A confirmation draws the careful conclusion from guarded tables. */
  lemma StaysCareful(db: Db, q: Request, o: Oracle, cluster: nat, id: nat)
    requires RequestOk(db, q) && Careful(q, id) && Guarded(db, cluster)
    requires id in db.actions ==> db.actions[id].cluster == cluster
    ensures Careful(AdvanceRequest(db, q, o).1, id)
  {
    if q.Decide? || q.DecideWithRow? || q.DecideReady? {
      assert !AdvanceDecide(db, q, o).1.ConfirmClaim?;
    } else if q.Stage? || q.StageReady? {
      StageEither(db, q, o);
    } else if q.Clear? || q.ClearBumped? || q.CancelListed? || q.Sweep? {
      assert !HoldsRow(AdvanceConversation(db, q, o).1);
    } else {
      assert Careful(AdvanceConfirm(db, q, o).1, id);
    }
  }

  /** A row that is pending after a step was pending before it, or is new. */
  lemma PendingBefore(s: State, step: Step, id: nat)
    requires Inv(s) && id in s.db.actions && id in Apply(s, step).db.actions
    requires Apply(s, step).db.actions[id].status == Pending
    ensures s.db.actions[id].status == Pending
  {
    StepOrder(s, step, id);
  }

  /** Nobody holds a row that does not exist. */
  lemma NewIsCareful(s: State, r: nat, id: nat)
    requires Inv(s) && r in s.requests && id !in s.db.actions
    ensures Careful(s.requests[r], id)
  {
    assert RequestOk(s.db, s.requests[r]);
  }

  lemma BeforeCareful(s: State, step: Step, r: nat, id: nat)
    requires Inv(s) && Safe(s, id) && r in s.requests && id in Apply(s, step).db.actions
    requires Apply(s, step).db.actions[id].status == Pending
    ensures Careful(s.requests[r], id)
  {
    if id in s.db.actions { PendingBefore(s, step, id); } else { NewIsCareful(s, r, id); }
  }

  /** The cluster of an action never changes. */
  predicate OnCluster(s: State, id: nat, cluster: nat) {
    id in s.db.actions ==> s.db.actions[id].cluster == cluster
  }

  lemma AdvanceRan(s: State, r: nat, o: Oracle, id: nat)
    requires Inv(s) && Safe(s, id) && r in s.requests
    ensures !RanUnapproved(Apply(s, Advance(r, o)).db, id)
  {
    var q := s.requests[r];
    if q.ConfirmClaim? {
      ClaimApproved(s.db, q, o, id);
    } else if q.ConfirmRun? {
      RunApproved(s.db, q, o, id);
    } else {
      RequestStep(s.db, q, o);
      RequestCalm(s.db, q, o);
      CalmKeeps(s.db, AdvanceRequest(s.db, q, o).0, id);
    }
  }

  lemma OtherStepCalm(s: State, step: Step)
    requires !(step.Advance? && step.r in s.requests)
    ensures Calm(s.db, Apply(s, step).db)
    ensures forall r :: r in Apply(s, step).requests && r in s.requests ==>
              Apply(s, step).requests[r] == s.requests[r] || Apply(s, step).requests[r] == Done
    ensures forall r :: r in Apply(s, step).requests && r !in s.requests ==> Arriving(Apply(s, step).requests[r])
  {
  }

  lemma StepUnexposed(s: State, step: Step, cluster: nat, id: nat, r: nat)
    requires Inv(s) && Safe(s, id) && Guarded(s.db, cluster) && OnCluster(s, id, cluster)
    requires id in Apply(s, step).db.actions && Apply(s, step).db.actions[id].status == Pending
    requires r in Apply(s, step).requests
    ensures Careful(Apply(s, step).requests[r], id)
  {
    if r in s.requests { BeforeCareful(s, step, r, id); }
    if step.Advance? && step.r in s.requests {
      if r == step.r { StaysCareful(s.db, s.requests[r], step.o, cluster, id); }
    } else {
      OtherStepCalm(s, step);
    }
  }

  /** Under the guard a safe change stays safe. */
  lemma StepSafe(s: State, step: Step, cluster: nat, id: nat)
    requires Inv(s) && Safe(s, id) && Guarded(s.db, cluster) && OnCluster(s, id, cluster)
    ensures Safe(Apply(s, step), id)
  {
    if step.Advance? && step.r in s.requests {
      AdvanceRan(s, step.r, step.o, id);
    } else {
      StepEffect(s, step);
      OtherStepCalm(s, step);
      CalmKeeps(s.db, Apply(s, step).db, id);
    }
    if Exposed(Apply(s, step), id) {
      var r :| r in Apply(s, step).requests && !Careful(Apply(s, step).requests[r], id);
      StepUnexposed(s, step, cluster, id, r);
    }
  }

  /** The cluster an action is on at the end is the one it was always on. */
  lemma ClusterBefore(s: State, step: Step, id: nat, cluster: nat)
    requires Inv(s) && OnCluster(Apply(s, step), id, cluster)
    ensures OnCluster(s, id, cluster)
  {
    StepLater(s, step);
    if id in s.db.actions { assert Snapshot(Apply(s, step).db, id, s.db.actions[id]); }
  }

  lemma GuardedNow(s: State, steps: seq<Step>, cluster: nat)
    requires AlwaysGuarded(s, steps, cluster)
    ensures Guarded(Exec(s, steps).db, cluster)
  {
  }

  /** From any reachable state on, for as long as the guard is up: a safe change stays safe. */
  lemma {:induction false} PolicyAlways(s: State, steps: seq<Step>, cluster: nat, id: nat)
    requires Inv(s) && Safe(s, id) && AlwaysGuarded(s, steps, cluster) && OnCluster(Exec(s, steps), id, cluster)
    ensures Safe(Exec(s, steps), id)
  {
    if steps != [] {
      var front := steps[..|steps| - 1];
      InvFrom(s, front);
      GuardedNow(s, front, cluster);
      ClusterBefore(Exec(s, front), steps[|steps| - 1], id, cluster);
      PolicyAlways(s, front, cluster, id);
      StepSafe(Exec(s, front), steps[|steps| - 1], cluster, id);
    }
  }

  /** From the moment dual approval is on and the cluster is a production one, for as long as
      both stay so: an action on it that had not run by then, and that no confirmation under way
      had already cleared to run, is approved by somebody other than its requester, before its
      claim, if it runs. */
  lemma {:induction false} NothingRunsUnapproved(s: State, steps: seq<Step>, k: nat, cluster: nat, id: nat)
    requires Initial(s) && k <= |steps|
    requires AlwaysGuarded(Exec(s, steps[..k]), steps[k..], cluster)
    requires !HasRun(Exec(s, steps[..k]).db, id) && !Exposed(Exec(s, steps[..k]), id)
    requires id in Exec(s, steps).db.actions && Exec(s, steps).db.actions[id].cluster == cluster
    requires Ran(Exec(s, steps).db.actions[id].status)
    ensures IndependentlyApproved(Exec(s, steps).db, id)
  {
    InvAlways(s, steps[..k]);
    InvAlways(s, steps);
    ExecSplit(s, steps, k);
    PolicyAlways(Exec(s, steps[..k]), steps[k..], cluster, id);
    var db := Exec(s, steps).db;
    WasSubmitted(db.actions[id], LogOf(db.audits, id));
    ApprovalInTables(db, id);
  }

  /** The action carries an approver other than its requester, it was claimed, and a row of
      that approver precedes every claim of it. */
  ghost predicate IndependentlyApproved(db: Db, id: nat)
    requires id in db.actions
  {
    && db.actions[id].approvedBy.Some?
    && db.actions[id].approvedBy.value != db.actions[id].userId
    && (exists j :: 0 <= j < |db.audits| && IsRow(db.audits[j], id, EvExecuting))
    && (forall j :: 0 <= j < |db.audits| && IsRow(db.audits[j], id, EvExecuting) ==>
          exists i :: 0 <= i < j && IsRow(db.audits[i], id, EvApproved)
                      && db.audits[i].actor == db.actions[id].approvedBy.value)
  }

  /** With the guard up from the start nothing has to be excepted. */
  lemma {:induction false} NothingEverRunsUnapproved(s: State, steps: seq<Step>, cluster: nat, id: nat)
    requires Initial(s) && AlwaysGuarded(s, steps, cluster)
    requires id in Exec(s, steps).db.actions && Exec(s, steps).db.actions[id].cluster == cluster
    requires Ran(Exec(s, steps).db.actions[id].status)
    ensures IndependentlyApproved(Exec(s, steps).db, id)
  {
    assert steps[..0] == [] && steps[0..] == steps;
    NothingRunsUnapproved(s, steps, 0, cluster, id);
  }

  /** The log of an action that ran with an approver begins with its submission. */
  lemma WasSubmitted(row: Action, log: seq<Audit>)
    requires LogOk(row, log) && Ran(row.status) && row.approvedBy.Some?
    ensures |log| > 1 && log[1].event == EvSubmitted
  {
    var claimed := if row.status == Executing then log else log[..|log| - 1];
    assert ExecutingLog(row, claimed);
    assert ApprovedLog(row, claimed[..|claimed| - 1]);
  }

  // ---------- the exception is exact ----------

  lemma {:induction false} ExecCons(s: State, step: Step, steps: seq<Step>)
    ensures Exec(s, [step] + steps) == Exec(Apply(s, step), steps)
  {
    ExecSplit(s, [step] + steps, 1);
    assert ([step] + steps)[..1] == [step] && ([step] + steps)[1..] == steps && [step][..0] == [];
    assert Exec(s, [step]) == Apply(s, step);
  }

  lemma {:induction false} GuardedCons(s: State, step: Step, steps: seq<Step>, cluster: nat)
    requires Guarded(s.db, cluster) && AlwaysGuarded(Apply(s, step), steps, cluster)
    ensures AlwaysGuarded(s, [step] + steps, cluster)
  {
    ExecCons(s, step, steps);
    var all := [step] + steps;
    if steps == [] {
      assert all[..0] == [];
    } else {
      GuardedCons(s, step, steps[..|steps| - 1], cluster);
      assert all[..|all| - 1] == [step] + steps[..|steps| - 1];
    }
  }

  /** How many steps a confirmation is away from its claim. */
  function Distance(q: Request): nat {
    if q.ConfirmWithEnv? then 3 else if q.ConfirmScoped? then 2 else if q.ConfirmReady? then 1 else 0
  }

  /** The request has cleared the change to run and is about to read more, or to claim it. */
  predicate Cleared(s: State, r: nat, id: nat) {
    id in s.db.actions && s.db.actions[id].status == Pending && r in s.requests && !Careful(s.requests[r], id)
  }

  lemma ClearedHolds(s: State, r: nat, id: nat)
    requires Inv(s) && Cleared(s, r, id)
    ensures s.requests[r].id == id && s.db.actions[id] == s.requests[r].row && s.db.actions[id].approvedBy == None
  {
    assert RequestOk(s.db, s.requests[r]);
    assert StagedLog(s.db.actions[id], LogOf(s.db.audits, id));
  }

  /** A confirmation that cleared the change and has not reached its claim goes on. */
  lemma ClearedReads(db: Db, q: Request, o: Oracle, id: nat)
    requires !Careful(q, id) && Distance(q) > 0 && q.row.status == Pending && o.ok && o.pick > 0
    ensures var (db', q') := AdvanceRequest(db, q, o);
            db' == db && !Careful(q', id) && Distance(q') == Distance(q) - 1
  {
  }

  lemma ClearedClaims(db: Db, q: Request, o: Oracle, id: nat)
    requires !Careful(q, id) && q.ConfirmClaim? && Passed(q) && id in db.actions && db.actions[id] == q.row
    requires q.row.status == Pending && q.row.approvedBy == None
    ensures var db' := AdvanceRequest(db, q, o).0;
            RanUnapproved(db', id) && db'.dualApproval == db.dualApproval && db'.environments == db.environments
  {
  }

  /** The confirmation that cleared the change takes one more step towards running it. */
  lemma ExposedAdvances(s: State, r: nat, o: Oracle, id: nat)
    requires Inv(s) && Cleared(s, r, id) && o.ok && o.pick > 0
    ensures var s' := Apply(s, Advance(r, o));
            if Distance(s.requests[r]) == 0 then RanUnapproved(s'.db, id) && s'.db.dualApproval == s.db.dualApproval
                                                 && s'.db.environments == s.db.environments
            else s'.db == s.db && Cleared(s', r, id) && Distance(s'.requests[r]) == Distance(s.requests[r]) - 1
  {
    ClearedHolds(s, r, id);
    assert RequestOk(s.db, s.requests[r]);
    if Distance(s.requests[r]) == 0 { ClearedClaims(s.db, s.requests[r], o, id); }
    else { ClearedReads(s.db, s.requests[r], o, id); }
  }

  lemma {:induction false} ExposedRuns(s: State, r: nat, cluster: nat, id: nat) returns (more: seq<Step>)
    requires Inv(s) && Guarded(s.db, cluster) && Cleared(s, r, id)
    ensures AlwaysGuarded(s, more, cluster) && RanUnapproved(Exec(s, more).db, id)
    decreases Distance(s.requests[r])
  {
    var o := Oracle(true, "", 0, 1, s.db.actions[id], Execution(None, None, "", "", ""));
    var step := Advance(r, o);
    ExposedAdvances(s, r, o, id);
    var rest := [];
    if Distance(s.requests[r]) > 0 {
      StepKeeps(s, step);
      rest := ExposedRuns(Apply(s, step), r, cluster, id);
    }
    more := [step] + rest;
    ExecCons(s, step, rest);
    GuardedCons(s, step, rest, cluster);
  }

  /** A run that goes on from `s` with the guard up all along and ends with `id` run unapproved. */
  ghost predicate SlipsThrough(s: State, more: seq<Step>, cluster: nat, id: nat) {
    AlwaysGuarded(s, more, cluster) && RanUnapproved(Exec(s, more).db, id)
  }

  lemma SafeNeverSlips(s: State, more: seq<Step>, cluster: nat, id: nat)
    requires Inv(s) && Safe(s, id) && id in s.db.actions && s.db.actions[id].cluster == cluster
    ensures !SlipsThrough(s, more, cluster, id)
  {
    if AlwaysGuarded(s, more, cluster) {
      ClusterStays(s, more, id);
      PolicyAlways(s, more, cluster, id);
    }
  }

  /** In any reachable state in which the guard is up, a change on the cluster that has not run
      can still run unapproved, with the guard up all along, if and only if it is pending and a
      confirmation under way has already cleared it. */
  lemma {:induction false} RunsUnapprovedIff(s: State, steps: seq<Step>, cluster: nat, id: nat)
    requires Initial(s) && Guarded(Exec(s, steps).db, cluster)
    requires id in Exec(s, steps).db.actions && Exec(s, steps).db.actions[id].cluster == cluster
    requires !HasRun(Exec(s, steps).db, id)
    ensures (exists more :: SlipsThrough(Exec(s, steps), more, cluster, id)) <==> Exposed(Exec(s, steps), id)
  {
    var now := Exec(s, steps);
    InvAlways(s, steps);
    if Exposed(now, id) {
      var r :| r in now.requests && !Careful(now.requests[r], id);
      var more := ExposedRuns(now, r, cluster, id);
      assert SlipsThrough(now, more, cluster, id);
    } else {
      forall more ensures !SlipsThrough(now, more, cluster, id) {
        SafeNeverSlips(now, more, cluster, id);
      }
    }
  }

  lemma {:induction false} ClusterStays(s: State, steps: seq<Step>, id: nat)
    requires Inv(s) && id in s.db.actions
    ensures id in Exec(s, steps).db.actions && Exec(s, steps).db.actions[id].cluster == s.db.actions[id].cluster
  {
    if steps != [] {
      var front := Exec(s, steps[..|steps| - 1]);
      ClusterStays(s, steps[..|steps| - 1], id);
      InvFrom(s, steps[..|steps| - 1]);
      StepLater(front, steps[|steps| - 1]);
      assert Snapshot(Exec(s, steps).db, id, front.db.actions[id]);
    }
  }
}
