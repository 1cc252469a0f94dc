/** How one request is served: its own steps, each after some steps of other requests. */
module AgentServing {
  import opened Wrappers
  import opened AgentActions
  import opened AgentProtocol
  import opened AgentInvariant
  import opened AgentSafety

  /** Steps that are not request `r`'s own. */
  predicate ByOthers(steps: seq<Step>, r: nat) {
    forall i :: 0 <= i < |steps| ==> steps[i] != Crash(r) && !(steps[i].Advance? && steps[i].r == r)
  }

  /** Before its own step `k`, request `r` lets the others take the steps `others[k]`; at that
      step it is told `own[k]` about what is not part of the model. */
  datatype Serving = Serving(r: nat, others: seq<seq<Step>>, own: seq<Oracle>)

  predicate Proper(v: Serving) {
    |v.own| == |v.others| && forall k :: 0 <= k < |v.others| ==> ByOthers(v.others[k], v.r)
  }

  function Turn(v: Serving, k: nat): seq<Step>
    requires Proper(v) && k < |v.own|
  {
    v.others[k] + [Advance(v.r, v.own[k])]
  }

  /** The state after its step `k`, and the one in which it takes that step. */
  function After(s: State, v: Serving, k: nat): State
    requires Proper(v) && k < |v.own|
    decreases |v.own|, k
  {
    Exec(if k == 0 then s else After(s, v, k - 1), Turn(v, k))
  }

  function Before(s: State, v: Serving, k: nat): State
    requires Proper(v) && k < |v.own|
  {
    Exec(if k == 0 then s else After(s, v, k - 1), v.others[k])
  }

  lemma {:induction false} ExecSnoc(s: State, steps: seq<Step>, step: Step)
    ensures Exec(s, steps + [step]) == Apply(Exec(s, steps), step)
  {
    assert (steps + [step])[..|steps|] == steps;
  }

  lemma {:induction false} OwnStep(s: State, v: Serving, k: nat)
    requires Proper(v) && k < |v.own|
    ensures After(s, v, k) == Apply(Before(s, v, k), Advance(v.r, v.own[k]))
  {
    ExecSnoc(if k == 0 then s else After(s, v, k - 1), v.others[k], Advance(v.r, v.own[k]));
  }

  /** All those steps in one list. */
  function Script(v: Serving, k: nat): seq<Step>
    requires Proper(v) && k < |v.own|
  {
    (if k == 0 then [] else Script(v, k - 1)) + Turn(v, k)
  }

  lemma {:induction false} OneMore(s: State, first: seq<Step>, at: State, turn: seq<Step>, all: seq<Step>)
    requires at == Exec(s, first) && all == first + turn
    ensures Exec(at, turn) == Exec(s, all)
  {
    ExecConcat(s, first, turn);
  }

  lemma {:induction false} ServedSteps(s: State, v: Serving, k: nat)
    requires Proper(v) && k < |v.own|
    ensures After(s, v, k) == Exec(s, Script(v, k))
  {
    if k == 0 {
      assert Script(v, 0) == Turn(v, 0);
    } else {
      ServedSteps(s, v, k - 1);
      OneMore(s, Script(v, k - 1), After(s, v, k - 1), Turn(v, k), Script(v, k));
    }
  }

  /** Serving a request after a run is a longer run. */
  lemma {:induction false} ServedIsRun(s: State, steps: seq<Step>, v: Serving, k: nat)
    requires Proper(v) && k < |v.own|
    ensures After(Exec(s, steps), v, k) == Exec(s, steps + Script(v, k))
  {
    ServedSteps(Exec(s, steps), v, k);
    ExecConcat(s, steps, Script(v, k));
  }

  lemma ServedLater(s: State, v: Serving, k: nat)
    requires Inv(s) && Proper(v) && k < |v.own|
    ensures Inv(After(s, v, k)) && Later(s.db, After(s, v, k).db)
  {
    ServedIsRun(s, [], v, k);
    InvFrom(s, [] + Script(v, k));
    LaterFrom(s, [] + Script(v, k));
  }

  // ---------- the single steps ----------

  /** Request `v.r` is about to take its step `k` as `q`. */
  ghost predicate Due(start: State, v: Serving, k: nat, now: State, q: Request) {
    && Proper(v) && k < |v.own| && now == Before(start, v, k) && Inv(now)
    && v.r in now.requests && now.requests[v.r] == q
  }

  /** It has taken it: the tables are `db`, and it goes on as `q`. */
  ghost predicate Taken(start: State, v: Serving, k: nat, now: State, db: Db, q: Request)
    requires Proper(v) && k < |v.own|
  {
    After(start, v, k) == State(db, now.requests[v.r := q]) && Inv(After(start, v, k))
  }

  lemma Takes(start: State, v: Serving, k: nat, now: State, q: Request, db: Db, q': Request)
    requires Due(start, v, k, now, q) && AdvanceRequest(now.db, q, v.own[k]) == (db, q')
    ensures Taken(start, v, k, now, db, q')
  {
    OwnStep(start, v, k);
    AdvanceKeeps(now, v.r, v.own[k]);
  }

  function Found(db: Db, id: nat, actor: nat): Request {
    if id in db.actions then ConfirmWithRow(id, actor, db.actions[id]) else Done
  }

  lemma ConfirmTakes(start: State, v: Serving, k: nat, now: State, id: nat, actor: nat)
    requires Due(start, v, k, now, Confirm(id, actor))
    ensures Taken(start, v, k, now, now.db, Found(now.db, id, actor))
  {
    ConfirmAdvances(now.db, id, actor, v.own[k]);
    Takes(start, v, k, now, Confirm(id, actor), now.db, Found(now.db, id, actor));
  }

  lemma ConfirmAdvances(db: Db, id: nat, actor: nat, o: Oracle)
    ensures AdvanceRequest(db, Confirm(id, actor), o) == (db, Found(db, id, actor))
  {
  }

  function Placed(db: Db, id: nat, actor: nat, row: Action): Request {
    if row.cluster !in db.environments then Done
    else if IsProduction(db.environments[row.cluster]) && row.userId != actor then Done
    else ConfirmWithEnv(id, actor, row, IsProduction(db.environments[row.cluster]))
  }

  lemma EnvironmentTakes(start: State, v: Serving, k: nat, now: State, id: nat, actor: nat, row: Action)
    requires Due(start, v, k, now, ConfirmWithRow(id, actor, row))
    ensures Taken(start, v, k, now, now.db, Placed(now.db, id, actor, row))
  {
    EnvironmentAdvances(now.db, id, actor, row, v.own[k]);
    Takes(start, v, k, now, ConfirmWithRow(id, actor, row), now.db, Placed(now.db, id, actor, row));
  }

  lemma EnvironmentAdvances(db: Db, id: nat, actor: nat, row: Action, o: Oracle)
    ensures AdvanceRequest(db, ConfirmWithRow(id, actor, row), o) == (db, Placed(db, id, actor, row))
  {
  }

  predicate Barred(row: Action, actor: nat, isAdmin: bool, inScope: bool) {
    (row.userId != 0 && row.userId != actor && !isAdmin) || !inScope
  }

  lemma TestsTake(start: State, v: Serving, k: nat, now: State, id: nat, actor: nat, row: Action, production: bool)
    requires Due(start, v, k, now, ConfirmWithEnv(id, actor, row, production))
    ensures Taken(start, v, k, now, now.db,
                  if Barred(row, actor, v.own[k].pick != 0, v.own[k].ok) then Done else ConfirmScoped(id, actor, row, production))
  {
    TestsAdvance(now.db, id, actor, row, production, v.own[k]);
    Takes(start, v, k, now, ConfirmWithEnv(id, actor, row, production), now.db,
          if Barred(row, actor, v.own[k].pick != 0, v.own[k].ok) then Done else ConfirmScoped(id, actor, row, production));
  }

  lemma TestsAdvance(db: Db, id: nat, actor: nat, row: Action, production: bool, o: Oracle)
    ensures AdvanceRequest(db, ConfirmWithEnv(id, actor, row, production), o)
         == (db, if Barred(row, actor, o.pick != 0, o.ok) then Done else ConfirmScoped(id, actor, row, production))
  {
  }

  lemma SettingTakes(start: State, v: Serving, k: nat, now: State, id: nat, actor: nat, row: Action, production: bool)
    requires Due(start, v, k, now, ConfirmScoped(id, actor, row, production))
    ensures Taken(start, v, k, now, now.db, ConfirmReady(id, actor, row, production, production && now.db.dualApproval))
  {
    SettingAdvances(now.db, id, actor, row, production, v.own[k]);
    Takes(start, v, k, now, ConfirmScoped(id, actor, row, production), now.db,
          ConfirmReady(id, actor, row, production, production && now.db.dualApproval));
  }

  lemma SettingAdvances(db: Db, id: nat, actor: nat, row: Action, production: bool, o: Oracle)
    ensures AdvanceRequest(db, ConfirmScoped(id, actor, row, production), o)
         == (db, ConfirmReady(id, actor, row, production, production && db.dualApproval))
  {
  }

  /** The refusal, the submission or the claim that follows from what was read. */
  function Chosen(id: nat, actor: nat, row: Action, production: bool, dual: bool, proof: Option<string>): Request {
    var evidence := if production && row.status == Pending then proof else None;
    if production && row.status == Pending && proof == None then Done
    else if production && row.status == Pending && dual then ConfirmSubmit(id, actor, row, proof.value)
    else if production && row.status == Approved && (row.approvedBy == None || row.approvedBy == Some(row.userId)) then Done
    else if row.status == Pending || (production && row.status == Approved)
    then ConfirmClaim(id, actor, row, production, row.status, evidence)
    else Done
  }

  function Given(o: Oracle): Option<string> {
    if o.ok then Some(o.text) else None
  }

  lemma ReadyTakes(start: State, v: Serving, k: nat, now: State, id: nat, actor: nat, row: Action, production: bool, dual: bool)
    requires Due(start, v, k, now, ConfirmReady(id, actor, row, production, dual))
    ensures Taken(start, v, k, now, now.db, Chosen(id, actor, row, production, dual, Given(v.own[k])))
  {
    ReadyAdvances(now.db, id, actor, row, production, dual, v.own[k]);
    Takes(start, v, k, now, ConfirmReady(id, actor, row, production, dual), now.db,
          Chosen(id, actor, row, production, dual, Given(v.own[k])));
  }

  lemma ReadyAdvances(db: Db, id: nat, actor: nat, row: Action, production: bool, dual: bool, o: Oracle)
    ensures AdvanceRequest(db, ConfirmReady(id, actor, row, production, dual), o)
         == (db, Chosen(id, actor, row, production, dual, Given(o)))
  {
  }

  /** The tables after a transaction that may have been rolled back. */
  function Committed(tx: Option<Db>, db: Db): Db {
    if tx.Some? then tx.value else db
  }

  lemma SubmitTakes(start: State, v: Serving, k: nat, now: State, id: nat, actor: nat, row: Action, proof: string)
    requires Due(start, v, k, now, ConfirmSubmit(id, actor, row, proof))
    ensures Taken(start, v, k, now, Committed(SubmitTx(now.db, id, actor, proof), now.db), Done)
  {
    SubmitAdvances(now.db, id, actor, row, proof, v.own[k]);
    Takes(start, v, k, now, ConfirmSubmit(id, actor, row, proof), Committed(SubmitTx(now.db, id, actor, proof), now.db), Done);
  }

  /** The requester's own change can be submitted for as long as it is pending. */
  lemma SubmitWhilePending(now: State, r: nat)
    requires Inv(now) && r in now.requests && now.requests[r].ConfirmSubmit?
    ensures var q := now.requests[r];
            SubmitTx(now.db, q.id, q.actor, q.proof).Some? <==> q.id in now.db.actions && now.db.actions[q.id].status == Pending
  {
    assert RequestOk(now.db, now.requests[r]);
  }

  lemma SubmitAdvances(db: Db, id: nat, actor: nat, row: Action, proof: string, o: Oracle)
    ensures AdvanceRequest(db, ConfirmSubmit(id, actor, row, proof), o)
         == (Committed(SubmitTx(db, id, actor, proof), db), Done)
  {
  }

  function Claimed(row: Action, evidence: Option<string>): Action {
    if evidence.Some? then row.(evidence := evidence.value) else row
  }

  lemma ClaimTakes(start: State, v: Serving, k: nat, now: State, id: nat, actor: nat, row: Action, production: bool,
                   expected: Status, evidence: Option<string>)
    requires Due(start, v, k, now, ConfirmClaim(id, actor, row, production, expected, evidence))
    ensures var claim := ClaimTx(now.db, id, actor, expected, evidence);
            Taken(start, v, k, now, Committed(claim, now.db),
                  if claim.None? then Done else ConfirmRun(id, actor, Claimed(row, evidence), production))
  {
    var claim := ClaimTx(now.db, id, actor, expected, evidence);
    ClaimAdvances(now.db, id, actor, row, production, expected, evidence, v.own[k]);
    Takes(start, v, k, now, ConfirmClaim(id, actor, row, production, expected, evidence), Committed(claim, now.db),
          if claim.None? then Done else ConfirmRun(id, actor, Claimed(row, evidence), production));
  }

  lemma ClaimAdvances(db: Db, id: nat, actor: nat, row: Action, production: bool, expected: Status,
                      evidence: Option<string>, o: Oracle)
    ensures var claim := ClaimTx(db, id, actor, expected, evidence);
            var next := if claim.None? then Done else ConfirmRun(id, actor, Claimed(row, evidence), production);
            AdvanceRequest(db, ConfirmClaim(id, actor, row, production, expected, evidence), o) == (Committed(claim, db), next)
  {
  }

  function Recorded(db: Db, id: nat, actor: nat, outcome: (Action, Event, string)): Db {
    OutcomeTx(db, id, outcome.0, actor, outcome.1, outcome.2)
  }

  lemma RunTakes(start: State, v: Serving, k: nat, now: State, id: nat, actor: nat, row: Action, production: bool)
    requires Due(start, v, k, now, ConfirmRun(id, actor, row, production))
    ensures Taken(start, v, k, now,
                  Recorded(now.db, id, actor, Finish(row, production, v.own[k].execution, v.own[k].now)), Done)
  {
    RunAdvances(now.db, id, actor, row, production, v.own[k]);
    Takes(start, v, k, now, ConfirmRun(id, actor, row, production),
          Recorded(now.db, id, actor, Finish(row, production, v.own[k].execution, v.own[k].now)), Done);
  }

  lemma RunAdvances(db: Db, id: nat, actor: nat, row: Action, production: bool, o: Oracle)
    ensures AdvanceRequest(db, ConfirmRun(id, actor, row, production), o)
         == (Recorded(db, id, actor, Finish(row, production, o.execution, o.now)), Done)
  {
  }

  function Reviewable(db: Db, id: nat, actor: nat): Request {
    if id in db.actions && db.actions[id].status == ApprovalPending then DecideWithRow(id, actor, db.actions[id]) else Done
  }

  lemma DecideTakes(start: State, v: Serving, k: nat, now: State, id: nat, actor: nat)
    requires Due(start, v, k, now, Decide(id, actor))
    ensures Taken(start, v, k, now, now.db, Reviewable(now.db, id, actor))
  {
    DecideAdvances(now.db, id, actor, v.own[k]);
    Takes(start, v, k, now, Decide(id, actor), now.db, Reviewable(now.db, id, actor));
  }

  lemma DecideAdvances(db: Db, id: nat, actor: nat, o: Oracle)
    ensures AdvanceRequest(db, Decide(id, actor), o) == (db, Reviewable(db, id, actor))
  {
  }

  lemma ReviewTakes(start: State, v: Serving, k: nat, now: State, id: nat, actor: nat, row: Action)
    requires Due(start, v, k, now, DecideWithRow(id, actor, row))
    ensures Taken(start, v, k, now, now.db,
                  if actor == 0 || actor == row.userId || !v.own[k].ok then Done else DecideReady(id, actor, row.userId))
  {
    ReviewAdvances(now.db, id, actor, row, v.own[k]);
    Takes(start, v, k, now, DecideWithRow(id, actor, row), now.db,
          if actor == 0 || actor == row.userId || !v.own[k].ok then Done else DecideReady(id, actor, row.userId));
  }

  lemma ReviewAdvances(db: Db, id: nat, actor: nat, row: Action, o: Oracle)
    ensures AdvanceRequest(db, DecideWithRow(id, actor, row), o)
         == (db, if actor == 0 || actor == row.userId || !o.ok then Done else DecideReady(id, actor, row.userId))
  {
  }

  lemma DecisionTakes(start: State, v: Serving, k: nat, now: State, id: nat, actor: nat, owner: nat)
    requires Due(start, v, k, now, DecideReady(id, actor, owner))
    ensures var o := v.own[k];
            Taken(start, v, k, now, Committed(DecideTx(now.db, id, actor, o.ok, o.now, o.text), now.db), Done)
  {
    var o := v.own[k];
    DecisionAdvances(now.db, id, actor, owner, o);
    Takes(start, v, k, now, DecideReady(id, actor, owner),
          Committed(DecideTx(now.db, id, actor, o.ok, o.now, o.text), now.db), Done);
  }

  lemma DecisionAdvances(db: Db, id: nat, actor: nat, owner: nat, o: Oracle)
    ensures AdvanceRequest(db, DecideReady(id, actor, owner), o)
         == (Committed(DecideTx(db, id, actor, o.ok, o.now, o.text), db), Done)
  {
  }
}
