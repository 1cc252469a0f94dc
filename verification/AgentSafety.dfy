/** The invariant is inductive: every step of every request keeps it, so it holds in every
    state of every run. */
module AgentSafety {
  import opened Wrappers
  import opened AgentActions
  import opened AgentProtocol
  import opened AgentInvariant

  /** The effect of saving an outcome on everything but the row that is saved. */
  ghost predicate SavesOnly(db: Db, db': Db, id: nat) {
    && id in db.actions && db.actions[id].status == Executing
    && db'.actions.Keys == db.actions.Keys
    && db.audits <= db'.audits
    && Evolves(db.actions[id], db'.actions[id]) && Outcome(db'.actions[id].status)
    && (forall k :: k in db.actions && k != id ==> db'.actions[k] == db.actions[k])
    && db'.conversations == db.conversations
  }

  /** The steps of a confirmation that only read. */
  lemma ConfirmReads(db: Db, q: Request, o: Oracle)
    requires RequestOk(db, q) && !q.ConfirmRun? && !q.ConfirmSubmit? && !q.ConfirmClaim?
    requires !q.Decide? && !q.DecideWithRow? && !q.DecideReady?
    ensures var (db', q') := AdvanceConfirm(db, q, o);
            db' == db && RequestOk(db, q') && !q'.ConfirmRun?
  {
  }

  lemma SubmitEither(db: Db, q: Request, o: Oracle)
    requires q.ConfirmSubmit?
    ensures var (db', q') := AdvanceConfirm(db, q, o);
            q' == Done && (db' == db || SubmitTx(db, q.id, q.actor, q.proof) == Some(db'))
  {
  }

  lemma SubmitStep(db: Db, q: Request, o: Oracle)
    requires Logged(db) && RequestOk(db, q) && q.ConfirmSubmit?
    ensures var (db', q') := AdvanceConfirm(db, q, o); Logged(db') && Extends(db, db') && q' == Done
  {
    SubmitEither(db, q, o);
    if SubmitTx(db, q.id, q.actor, q.proof).Some? {
      SubmitKeeps(db, q.id, q.actor, q.proof);
    }
    ExtendsItself(db);
  }

  lemma ClaimStep(db: Db, q: Request, o: Oracle)
    requires Logged(db) && RequestOk(db, q) && q.ConfirmClaim?
    ensures var (db', q') := AdvanceConfirm(db, q, o);
            && Logged(db') && Extends(db, db') && RequestOk(db', q')
            && (q'.ConfirmRun? ==> q'.id in db.actions && db.actions[q'.id].status != Executing)
  {
    if ClaimTx(db, q.id, q.actor, q.expected, q.evidence).Some? {
      assert db.actions[q.id] == q.row;
      ClaimKeeps(db, q.id, q.actor, q.expected, q.evidence);
    } else {
      ExtendsItself(db);
    }
  }

  lemma ConfirmStep(db: Db, q: Request, o: Oracle)
    requires Logged(db) && RequestOk(db, q) && !q.ConfirmRun?
    requires !q.Decide? && !q.DecideWithRow? && !q.DecideReady?
    ensures var (db', q') := AdvanceConfirm(db, q, o);
            && Logged(db') && Extends(db, db') && RequestOk(db', q')
            && (q'.ConfirmRun? ==> q'.id in db.actions && db.actions[q'.id].status != Executing)
  {
    if q.ConfirmSubmit? {
      SubmitStep(db, q, o);
    } else if q.ConfirmClaim? {
      ClaimStep(db, q, o);
    } else {
      ExtendsItself(db);
      ConfirmReads(db, q, o);
    }
  }

  lemma RunStep(db: Db, q: Request, o: Oracle)
    requires Logged(db) && RequestOk(db, q) && q.ConfirmRun?
    ensures var (db', q') := AdvanceConfirm(db, q, o);
            Logged(db') && SavesOnly(db, db', q.id) && q' == Done
  {
    FinishKeeps(db, q.id, q.actor, q.row, q.production, o.execution, o.now);
    var (saved, event, detail) := Finish(q.row, q.production, o.execution, o.now);
    SaveTouchesOne(db, q.id, saved, q.actor, event, detail);
  }

  lemma SaveTouchesOne(db: Db, id: nat, saved: Action, actor: nat, event: Event, detail: string)
    requires id in db.actions && db.actions[id].status == Executing
    requires Evolves(db.actions[id], saved) && Outcome(saved.status)
    ensures SavesOnly(db, OutcomeTx(db, id, saved, actor, event, detail), id)
  {
  }

  lemma DecideReads(db: Db, q: Request, o: Oracle)
    requires RequestOk(db, q) && (q.Decide? || q.DecideWithRow?)
    ensures var (db', q') := AdvanceDecide(db, q, o);
            db' == db && RequestOk(db, q') && !q'.ConfirmRun?
  {
  }

  lemma DecisionStep(db: Db, q: Request, o: Oracle)
    requires Logged(db) && RequestOk(db, q) && q.DecideReady?
    ensures var (db', q') := AdvanceDecide(db, q, o); Logged(db') && Extends(db, db') && q' == Done
  {
    if DecideTx(db, q.id, q.actor, o.ok, o.now, o.text).Some? {
      DecideKeeps(db, q.id, q.actor, o.ok, o.now, o.text);
    } else {
      ExtendsItself(db);
    }
  }

  lemma DecideStep(db: Db, q: Request, o: Oracle)
    requires Logged(db) && RequestOk(db, q)
    requires q.Decide? || q.DecideWithRow? || q.DecideReady?
    ensures var (db', q') := AdvanceDecide(db, q, o);
            Logged(db') && Extends(db, db') && RequestOk(db', q') && !q'.ConfirmRun?
  {
    if q.DecideReady? {
      DecisionStep(db, q, o);
    } else {
      ExtendsItself(db);
      DecideReads(db, q, o);
    }
  }

  lemma SweepStep(db: Db, id: nat, actor: nat, seen: Status, clearing: bool)
    requires Logged(db) && id in db.actions && db.actions[id].userId == actor && Open(seen)
    ensures var db' := SweepRowTx(db, id, actor, seen, clearing); Logged(db') && Extends(db, db')
  {
    ExtendsItself(db);
    if db.actions[id].status == seen {
      var detail := if clearing then "conversation cleared or deleted" else "requester cancelled staged change";
      CancelKeeps(db, id, Audit(id, actor, EvCancelled, detail));
    }
  }

  lemma ConversationStep(db: Db, q: Request, o: Oracle)
    requires Logged(db) && RequestOk(db, q)
    requires q.Clear? || q.ClearBumped? || q.CancelListed? || q.Sweep?
    ensures var (db', q') := AdvanceConversation(db, q, o);
            Logged(db') && Extends(db, db') && RequestOk(db', q') && !q'.ConfirmRun?
  {
    if q.Clear? {
      BumpStep(db, q.conv, q.actor);
    } else if q.Sweep? {
      SweepRequestStep(db, q, o);
    } else {
      ExtendsItself(db);
    }
  }

  lemma BumpStep(db: Db, conv: nat, actor: nat)
    requires Logged(db)
    ensures BumpTx(db, conv, actor).Some?
            ==> var db' := BumpTx(db, conv, actor).value; Logged(db') && Extends(db, db')
    ensures Extends(db, db)
  {
    ExtendsItself(db);
  }

  lemma FewerListed(db: Db, q: Request, id: nat)
    requires RequestOk(db, q) && q.Sweep?
    ensures RequestOk(db, Sweep(q.actor, q.todo - {id}, q.clearing))
  {
  }

  lemma SweepRequestStep(db: Db, q: Request, o: Oracle)
    requires Logged(db) && RequestOk(db, q) && q.Sweep?
    ensures var (db', q') := AdvanceConversation(db, q, o);
            Logged(db') && Extends(db, db') && RequestOk(db', q') && !q'.ConfirmRun?
  {
    if o.pick in q.todo {
      var db' := SweepRowTx(db, o.pick, q.actor, q.todo[o.pick], q.clearing);
      SweepStep(db, o.pick, q.actor, q.todo[o.pick], q.clearing);
      RequestStable(db, db', q);
      FewerListed(db', q, o.pick);
    } else {
      ExtendsItself(db);
    }
  }

  lemma StageEither(db: Db, q: Request, o: Oracle)
    requires q.Stage? || q.StageReady?
    ensures var (db', q') := AdvanceStage(db, q, o);
            && !HoldsRow(q') && !q'.ConfirmRun? && !q'.DecideReady? && !q'.Sweep?
            && (db' == db || (q.StageReady? && StageTx(db, o.pick, o.row, q.version, q.inTurn && o.ok) == Some(db')))
  {
  }

  lemma StageStep(db: Db, q: Request, o: Oracle)
    requires Logged(db) && RequestOk(db, q) && (q.Stage? || q.StageReady?)
    ensures var (db', q') := AdvanceStage(db, q, o);
            Logged(db') && Extends(db, db') && RequestOk(db', q') && !q'.ConfirmRun?
  {
    ExtendsItself(db);
    StageEither(db, q, o);
    if AdvanceStage(db, q, o).0 != db {
      StageKeeps(db, o.pick, o.row, q.version, q.inTurn && o.ok);
    }
  }

  /** One step of one request: it extends the tables, unless it saves an outcome, and it
      starts running an action only if nobody is running it. */
  lemma RequestStep(db: Db, q: Request, o: Oracle)
    requires Logged(db) && RequestOk(db, q)
    ensures var (db', q') := AdvanceRequest(db, q, o);
            && Logged(db') && RequestOk(db', q')
            && (if q.ConfirmRun? then SavesOnly(db, db', q.id) && q' == Done else Extends(db, db'))
            && (q'.ConfirmRun? ==> q'.id in db.actions && db.actions[q'.id].status != Executing)
  {
    if q.Decide? || q.DecideWithRow? || q.DecideReady? { DecideStep(db, q, o); }
    else if q.Clear? || q.ClearBumped? || q.CancelListed? || q.Sweep? { ConversationStep(db, q, o); }
    else if q.Stage? || q.StageReady? { StageStep(db, q, o); }
    else if q.ConfirmRun? { RunStep(db, q, o); }
    else { ConfirmStep(db, q, o); }
  }

  /** Requests that are not running `id` keep what they know when its outcome is saved. */
  lemma RequestStableUnderSave(db: Db, db': Db, id: nat, q: Request)
    requires SavesOnly(db, db', id) && RequestOk(db, q) && !(q.ConfirmRun? && q.id == id)
    ensures RequestOk(db', q)
  {
    if HoldsRow(q) && q.id == id { EvolvesTransitive(q.row, db.actions[id], db'.actions[id]); }
  }

  /** What the other requests know survives the step of request `r`. */
  lemma OthersKeep(s: State, r: nat, db': Db)
    requires Inv(s) && r in s.requests
    requires if s.requests[r].ConfirmRun? then SavesOnly(s.db, db', s.requests[r].id) else Extends(s.db, db')
    ensures forall t :: t in s.requests && t != r ==> RequestOk(db', s.requests[t])
  {
    var q := s.requests[r];
    forall t | t in s.requests && t != r ensures RequestOk(db', s.requests[t]) {
      if q.ConfirmRun? {
        assert !SameRun(s.requests[t], q);
        RequestStableUnderSave(s.db, db', q.id, s.requests[t]);
      } else {
        RequestStable(s.db, db', s.requests[t]);
      }
    }
  }

  /** A request that has just claimed an action runs it alone. */
  lemma NewRunnerApart(db: Db, q: Request, other: Request)
    requires RequestOk(db, other)
    requires q.ConfirmRun? ==> q.id in db.actions && db.actions[q.id].status != Executing
    ensures !SameRun(q, other) && !SameRun(other, q)
  {
  }

  lemma AdvanceKeeps(s: State, r: nat, o: Oracle)
    requires Inv(s) && r in s.requests
    ensures Inv(Apply(s, Advance(r, o)))
  {
    var q := s.requests[r];
    var (db', q') := AdvanceRequest(s.db, q, o);
    var s' := Apply(s, Advance(r, o));
    RequestStep(s.db, q, o);
    OthersKeep(s, r, db');
    RunnersAfter(s, r, q');
    assert s'.requests == s.requests[r := q'];
  }

  /** No two requests run one action after request `r` has become `q`. */
  lemma RunnersAfter(s: State, r: nat, q: Request)
    requires Inv(s) && r in s.requests
    requires q.ConfirmRun? ==> q.id in s.db.actions && s.db.actions[q.id].status != Executing
    ensures var after := s.requests[r := q];
            forall t, u :: t in after && u in after && t != u ==> !SameRun(after[t], after[u])
  {
    var after := s.requests[r := q];
    forall t, u | t in after && u in after && t != u ensures !SameRun(after[t], after[u]) {
      if t == r {
        NewRunnerApart(s.db, q, s.requests[u]);
      } else if u == r {
        NewRunnerApart(s.db, q, s.requests[t]);
      } else {
        assert !SameRun(s.requests[t], s.requests[u]);
      }
    }
  }

  /** The steps that save an outcome. */
  predicate Saves(s: State, step: Step) {
    step.Advance? && step.r in s.requests && s.requests[step.r].ConfirmRun?
  }

  /** What any step does to the tables. */
  lemma StepEffect(s: State, step: Step)
    requires Inv(s)
    ensures var db' := Apply(s, step).db;
            Logged(db') && if Saves(s, step) then SavesOnly(s.db, db', s.requests[step.r].id) else Extends(s.db, db')
  {
    if step.Advance? && step.r in s.requests {
      RequestStep(s.db, s.requests[step.r], step.o);
    } else if step.CancelChange? && CancelTx(s.db, step.id, step.actor).Some? {
      CancelKeeps(s.db, step.id, Audit(step.id, step.actor, EvCancelled, "requester cancelled staged change"));
    } else if step.DropIncomplete? {
      DropLogs(s.db, step.id);
      DropExtends(s.db, step.id);
    } else {
      SettingStep(s, step);
    }
  }

  lemma SameActionsExtend(db: Db, db': Db)
    requires Logged(db) && db'.actions == db.actions && db'.audits == db.audits
    requires forall c :: c in db.conversations ==>
               c in db'.conversations && db.conversations[c].version <= db'.conversations[c].version
               && db.conversations[c].userId == db'.conversations[c].userId
    ensures Logged(db') && Extends(db, db')
  {
    forall k | k in db.actions ensures Snapshot(db', k, db.actions[k]) && Fits(db, db', k) {}
  }

  /** Steps that write neither actions nor audit rows. */
  lemma SettingStep(s: State, step: Step)
    requires Logged(s.db) && !(step.Advance? && step.r in s.requests) && !step.DropIncomplete?
    requires step.CancelChange? ==> CancelTx(s.db, step.id, step.actor) == None
    ensures var db' := Apply(s, step).db; Logged(db') && Extends(s.db, db')
  {
    SameActionsExtend(s.db, Apply(s, step).db);
  }

  /** Other steps stop a request, let one arrive, or leave the requests alone. */
  lemma OnlyStopOrArrive(s: State, step: Step)
    requires !step.Advance?
    ensures var s' := Apply(s, step); forall r :: r in s'.requests ==> StopsOrArrives(s, s', r)
  {
  }

  predicate StopsOrArrives(s: State, s': State, r: nat)
    requires r in s'.requests
  {
    (r in s.requests && s'.requests[r] == s.requests[r]) || s'.requests[r] == Done || Arriving(s'.requests[r])
  }

  lemma RequestsKeep(s: State, s': State)
    requires Inv(s) && Logged(s'.db) && Extends(s.db, s'.db)
    requires forall r :: r in s'.requests ==> StopsOrArrives(s, s', r)
    ensures Inv(s')
  {
    forall r | r in s'.requests ensures RequestOk(s'.db, s'.requests[r]) {
      RequestKept(s, s', r);
    }
    forall r, t | r in s'.requests && t in s'.requests && r != t ensures !SameRun(s'.requests[r], s'.requests[t]) {
      RunnersStayApart(s, s', r, t);
    }
  }

  lemma RequestKept(s: State, s': State, r: nat)
    requires r in s.requests ==> RequestOk(s.db, s.requests[r])
    requires Extends(s.db, s'.db) && r in s'.requests && StopsOrArrives(s, s', r)
    ensures RequestOk(s'.db, s'.requests[r])
  {
    if r in s.requests && s'.requests[r] == s.requests[r] { RequestStable(s.db, s'.db, s.requests[r]); }
  }

  lemma RunnersStayApart(s: State, s': State, r: nat, t: nat)
    requires r in s.requests && t in s.requests ==> !SameRun(s.requests[r], s.requests[t])
    requires r in s'.requests && t in s'.requests && StopsOrArrives(s, s', r) && StopsOrArrives(s, s', t)
    ensures !SameRun(s'.requests[r], s'.requests[t])
  {
  }

  lemma StepKeeps(s: State, step: Step)
    requires Inv(s)
    ensures Inv(Apply(s, step))
  {
    if step.Advance? {
      if step.r in s.requests { AdvanceKeeps(s, step.r, step.o); }
    } else {
      StepEffect(s, step);
      OnlyStopOrArrive(s, step);
      RequestsKeep(s, Apply(s, step));
    }
  }

  /** The invariant holds after every run of every length. */
  lemma {:induction false} InvAlways(s: State, steps: seq<Step>)
    requires Initial(s)
    ensures Inv(Exec(s, steps))
  {
    if steps == [] {
      assert Logged(s.db);
    } else {
      InvAlways(s, steps[..|steps| - 1]);
      StepKeeps(Exec(s, steps[..|steps| - 1]), steps[|steps| - 1]);
    }
  }

  lemma {:induction false} InvFrom(s: State, steps: seq<Step>)
    requires Inv(s)
    ensures Inv(Exec(s, steps))
  {
    if steps != [] {
      InvFrom(s, steps[..|steps| - 1]);
      StepKeeps(Exec(s, steps[..|steps| - 1]), steps[|steps| - 1]);
    }
  }

  lemma {:induction false} ExecSplit(s: State, steps: seq<Step>, k: nat)
    requires k <= |steps|
    ensures Exec(s, steps) == Exec(Exec(s, steps[..k]), steps[k..])
    decreases |steps|
  {
    if k == |steps| {
      assert steps[..k] == steps && steps[k..] == [];
    } else {
      var front := steps[..|steps| - 1];
      ExecSplit(s, front, k);
      assert front[..k] == steps[..k] && steps[k..][..|steps| - k - 1] == front[k..];
    }
  }

  lemma ExecConcat(s: State, first: seq<Step>, rest: seq<Step>)
    ensures Exec(s, first + rest) == Exec(Exec(s, first), rest)
  {
    ExecSplit(s, first + rest, |first|);
    assert (first + rest)[..|first|] == first && (first + rest)[|first|..] == rest;
  }

  // ---------- how far apart states of a run relate ----------

  /** Later tables hold later versions of the same rows, and more audit rows. */
  ghost predicate Later(db: Db, db': Db) {
    && db.audits <= db'.audits
    && (forall id :: id in db.actions ==> Snapshot(db', id, db.actions[id]))
    && (forall c :: c in db.conversations ==>
          c in db'.conversations && db.conversations[c].version <= db'.conversations[c].version)
  }

  lemma ItselfLater(db: Db)
    ensures Later(db, db)
  {
    forall id | id in db.actions ensures Snapshot(db, id, db.actions[id]) {}
  }

  lemma SaveIsLater(db: Db, db': Db, id: nat)
    requires SavesOnly(db, db', id)
    ensures Later(db, db')
  {
    forall k | k in db.actions ensures Snapshot(db', k, db.actions[k]) {}
  }

  lemma StepLater(s: State, step: Step)
    requires Inv(s)
    ensures Later(s.db, Apply(s, step).db)
  {
    StepEffect(s, step);
    if Saves(s, step) { SaveIsLater(s.db, Apply(s, step).db, s.requests[step.r].id); }
  }

  lemma LaterTransitive(a: Db, b: Db, c: Db)
    requires Later(a, b) && Later(b, c)
    ensures Later(a, c)
  {
    forall id | id in a.actions ensures Snapshot(c, id, a.actions[id]) {
      assert Snapshot(b, id, a.actions[id]) && Snapshot(c, id, b.actions[id]);
    }
  }

  /** Statuses only move up along a run, and audit rows are never lost. */
  lemma {:induction false} RunLater(s: State, steps: seq<Step>, k: nat)
    requires Initial(s) && k <= |steps|
    ensures Later(Exec(s, steps[..k]).db, Exec(s, steps).db)
  {
    if k == |steps| {
      assert steps[..k] == steps;
      InvAlways(s, steps);
      ItselfLater(Exec(s, steps).db);
    } else {
      var front := steps[..|steps| - 1];
      assert front[..k] == steps[..k];
      RunLater(s, front, k);
      InvAlways(s, front);
      StepLater(Exec(s, front), steps[|steps| - 1]);
      LaterTransitive(Exec(s, steps[..k]).db, Exec(s, front).db, Exec(s, steps).db);
    }
  }

  /** The same from any state in which the invariant holds. */
  lemma {:induction false} LaterFrom(s: State, steps: seq<Step>)
    requires Inv(s)
    ensures Later(s.db, Exec(s, steps).db)
  {
    if steps == [] {
      ItselfLater(s.db);
    } else {
      var front := steps[..|steps| - 1];
      LaterFrom(s, front);
      InvFrom(s, front);
      StepLater(Exec(s, front), steps[|steps| - 1]);
      LaterTransitive(s.db, Exec(s, front).db, Exec(s, steps).db);
    }
  }
}
