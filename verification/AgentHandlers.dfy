/** The handlers as the program runs them: statements over shared tables. A confirmation and a
    decision are served with other requests at work before each of their steps, and each is the
    machine's own request: what it leaves behind is the state that the machine reaches by the same
    steps, so that whatever holds over every run of the machine holds of these statements. */
module AgentHandlers {
  import opened Wrappers
  import opened AgentActions
  import opened AgentProtocol
  import opened AgentInvariant
  import opened AgentSafety
  import opened AgentServing
  import NamespaceAuthz

  datatype Reply = NotFound | Forbidden | BadRequest | AwaitingApproval | Decided(status: Status) | Finished(status: Status)

  /** What other requests may do to the tables while one request holds the actions it has
      claimed in `claimed`. */
  ghost predicate Rely(db: Db, db': Db, claimed: set<nat>) {
    && Later(db, db')
    && (Logged(db) ==> Logged(db'))
    && (forall id :: id in claimed && id in db.actions && db.actions[id].status == Executing ==>
          db'.actions[id] == db.actions[id])
  }

  /** Every step of the machine by another request keeps to `Rely`. */
  lemma OthersKeepRely(s: State, step: Step, r: nat)
    requires Inv(s) && r in s.requests && step != Crash(r) && !(step.Advance? && step.r == r)
    ensures Rely(s.db, Apply(s, step).db, if s.requests[r].ConfirmRun? then {s.requests[r].id} else {})
  {
    StepLater(s, step);
    StepKeeps(s, step);
    StillThere(s, step, r);
    if s.requests[r].ConfirmRun? { RunnerKeepsRow(s, Apply(s, step), r); }
  }

  /** While a request is running an action, the row is the one it claimed. */
  lemma RunnerKeepsRow(s: State, s': State, r: nat)
    requires Inv(s) && Inv(s') && r in s.requests && r in s'.requests && s'.requests[r] == s.requests[r]
    requires s.requests[r].ConfirmRun?
    ensures var id := s.requests[r].id; id in s.db.actions && id in s'.db.actions && s'.db.actions[id] == s.db.actions[id]
  {
    assert RequestOk(s.db, s.requests[r]) && RequestOk(s'.db, s'.requests[r]);
  }

  lemma RelyTransitive(a: Db, b: Db, c: Db, claimed: set<nat>)
    requires Rely(a, b, claimed) && Rely(b, c, claimed)
    ensures Rely(a, c, claimed)
  {
    LaterTransitive(a, b, c);
    forall id | id in claimed && id in a.actions && a.actions[id].status == Executing
      ensures c.actions[id] == a.actions[id]
    {
      assert Snapshot(b, id, a.actions[id]);
      assert b.actions[id] == a.actions[id];
    }
  }

  /** Any number of steps of other requests keep to it too, and leave the request as it was. */
  lemma {:induction false} OthersRunKeepsRely(s: State, steps: seq<Step>, r: nat)
    requires Inv(s) && r in s.requests && ByOthers(steps, r)
    ensures var now := Exec(s, steps);
            && Inv(now) && r in now.requests && now.requests[r] == s.requests[r]
            && Rely(s.db, now.db, if s.requests[r].ConfirmRun? then {s.requests[r].id} else {})
  {
    if steps == [] {
      ItselfLater(s.db);
    } else {
      var n := |steps| - 1;
      var before := Exec(s, steps[..n]);
      OthersRunKeepsRely(s, steps[..n], r);
      OthersKeepRely(before, steps[n], r);
      StepKeeps(before, steps[n]);
      StillThere(before, steps[n], r);
      RelyTransitive(s.db, before.db, Exec(s, steps).db, if s.requests[r].ConfirmRun? then {s.requests[r].id} else {});
    }
  }

  lemma StillThere(s: State, step: Step, r: nat)
    requires r in s.requests && step != Crash(r) && !(step.Advance? && step.r == r)
    ensures r in Apply(s, step).requests && Apply(s, step).requests[r] == s.requests[r]
  {
  }

  lemma SnapshotLater(db: Db, db': Db, id: nat, row: Action)
    requires Later(db, db') && Snapshot(db, id, row)
    ensures Snapshot(db', id, row)
  {
    EvolvesTransitive(row, db.actions[id], db'.actions[id]);
  }

  /** What a confirmation learns from outside the model: whether its caller is an administrator
      and in scope, the evidence if it could be collected, and what the executor did when. */
  datatype Answers = Answers(isAdmin: bool, inScope: bool, proof: Option<string>, execution: Execution, now: nat)

  const NO_ROW := Action(0, None, 0, "", "", "", "", "", Pending, None, None, "", "", "", None)
  const NO_EXECUTION := Execution(None, None, "", "", "")

  /** The answers at its seven steps: the tests are its third step. */
  function Confirming(r: nat, others: seq<seq<Step>>, a: Answers): Serving {
    var tests := Oracle(a.inScope, "", 0, if a.isAdmin then 1 else 0, NO_ROW, NO_EXECUTION);
    var run := Oracle(a.proof.Some?, if a.proof.Some? then a.proof.value else "", a.now, 0, NO_ROW, a.execution);
    Serving(r, others, [run, run, tests, run, run, run, run])
  }

  lemma ConfirmingOwn(r: nat, others: seq<seq<Step>>, a: Answers)
    ensures var own := Confirming(r, others, a).own;
            && |own| == 7 && own[2].ok == a.inScope && (own[2].pick != 0 <==> a.isAdmin)
            && Given(own[4]) == a.proof && own[6].execution == a.execution && own[6].now == a.now
  {
  }

  /** The answers at the three steps of a decision: the review check is its second step. */
  function Deciding(r: nat, others: seq<seq<Step>>, mayReview: bool, approve: bool, now: nat, reason: string): Serving {
    var review := Oracle(mayReview, "", 0, 0, NO_ROW, NO_EXECUTION);
    var decision := Oracle(approve, reason, now, 0, NO_ROW, NO_EXECUTION);
    Serving(r, others, [review, review, decision])
  }

  /** The tables, and in `requests` how far each request under way has got. */
  class Handler {
    var actions: map<nat, Action>
    var audits: seq<Audit>
    var environments: map<nat, string>
    var dualApproval: bool
    var conversations: map<nat, Conversation>
    var requests: map<nat, Request>

    function View(): Db
      reads this
    {
      Db(actions, audits, environments, dualApproval, conversations)
    }

    function Now(): State
      reads this
    {
      State(View(), requests)
    }

    /** The steps that other requests take before step `k` of the request being served. */
    method Others(v: Serving, k: nat, ghost start: State)
      requires Proper(v) && k < |v.own| && v.r in requests && Inv(Now())
      requires Now() == if k == 0 then start else After(start, v, k - 1)
      modifies this
      ensures Now() == Before(start, v, k) && Inv(Now()) && Later(old(View()), View())
      ensures v.r in requests && requests[v.r] == old(requests[v.r])
    {
      hide Apply, Inv, Later, Logged;
      OthersRunKeepsRely(Now(), v.others[k], v.r);
      var s := Exec(Now(), v.others[k]);
      actions, audits, environments := s.db.actions, s.db.audits, s.db.environments;
      dualApproval, conversations, requests := s.db.dualApproval, s.db.conversations, s.requests;
    }

    /** The request being served goes on as `q`. */
    method GoOn(r: nat, q: Request)
      modifies this`requests
      ensures requests == old(requests)[r := q]
    {
      requests := requests[r := q];
    }

    /** The transaction that stages a change by hand: under the conversation's version, if it
        has one, the row and its first audit row. */
    method StageChange(id: nat, row: Action, version: nat) returns (ok: bool)
      requires Fresh(row)
      modifies this`actions, this`audits
      ensures ok == StageTx(old(View()), id, row, version, false).Some?
      ensures View() == if ok then StageTx(old(View()), id, row, version, false).value else old(View())
      ensures ok <==> id !in old(actions)
                      && (row.conversation.Some? ==>
                            var c := row.conversation.value;
                            c in conversations && conversations[c].userId == row.userId && !conversations[c].deleted
                            && conversations[c].version == version)
      ensures ok ==> actions == old(actions)[id := row]
                     && audits == old(audits) + [Audit(id, row.userId, EvStaged, "server dry-run preview created")]
      ensures !ok ==> View() == old(View())
    {
      if row.conversation.Some? {
        var c := row.conversation.value;
        if c !in conversations || conversations[c].userId != row.userId || conversations[c].deleted { return false; }
        if conversations[c].version != version { return false; }
      }
      if id in actions { return false; }
      assert Kept(actions, row, false) == actions;
      actions := actions[id := row];
      audits := audits + [Audit(id, row.userId, EvStaged, "server dry-run preview created")];
      return true;
    }

    method SubmitActionForApproval(id: nat, actor: nat, evidence: string) returns (ok: bool)
      modifies this`actions, this`audits
      ensures ok == SubmitTx(old(View()), id, actor, evidence).Some?
      ensures View() == if ok then SubmitTx(old(View()), id, actor, evidence).value else old(View())
      ensures ok <==> id in old(actions) && old(actions)[id].status == Pending && old(actions)[id].userId == actor
      ensures ok ==> actions == old(actions)[id := old(actions)[id].(status := ApprovalPending, evidence := evidence)]
                     && audits == old(audits)
                                  + [Audit(id, actor, EvSubmitted, "production change submitted for independent approval")]
    {
      ok := id in actions && actions[id].status == Pending && actions[id].userId == actor;
      if ok {
        actions := actions[id := actions[id].(status := ApprovalPending, evidence := evidence)];
        audits := audits + [Audit(id, actor, EvSubmitted, "production change submitted for independent approval")];
      }
    }

    /** The transaction at the end of AgentDecideChange. */
    method RecordDecision(id: nat, actor: nat, approve: bool, now: nat, reason: string) returns (ok: bool)
      modifies this`actions, this`audits
      ensures ok == DecideTx(old(View()), id, actor, approve, now, reason).Some?
      ensures View() == if ok then DecideTx(old(View()), id, actor, approve, now, reason).value else old(View())
      ensures ok <==> id in old(actions) && old(actions)[id].status == ApprovalPending
      ensures ok && approve ==>
                actions == old(actions)[id := old(actions)[id].(status := Approved, approvedBy := Some(actor), approvedAt := Some(now))]
                && audits == old(audits) + [Audit(id, actor, EvApproved, reason)]
      ensures ok && !approve ==> actions == old(actions)[id := old(actions)[id].(status := Rejected)]
                                 && audits == old(audits) + [Audit(id, actor, EvRejected, reason)]
    {
      ok := id in actions && actions[id].status == ApprovalPending;
      if ok {
        var row := actions[id].(status := if approve then Approved else Rejected);
        if approve {
          row := row.(approvedBy := Some(actor), approvedAt := Some(now));
        }
        actions := actions[id := row];
        audits := audits + [Audit(id, actor, if approve then EvApproved else EvRejected, reason)];
      }
    }

    /** The transaction, for an approver who has been checked against the row `action`. */
    method DecideChecked(id: nat, action: Action, actor: nat, approve: bool, now: nat, reason: string)
      returns (ok: bool)
      requires Inv(Now()) && Snapshot(View(), id, action) && actor != action.userId
      modifies this`actions, this`audits
      ensures ok == DecideTx(old(View()), id, actor, approve, now, reason).Some?
      ensures View() == if ok then DecideTx(old(View()), id, actor, approve, now, reason).value else old(View())
      ensures ok ==> DecisionStored(actions, audits, id, action, actor, approve, now, reason)
    {
      ghost var seen := View();
      ok := RecordDecision(id, actor, approve, now, reason);
      if ok {
        DecideKeeps(seen, id, actor, approve, now, reason);
        ExtendsLater(seen, View());
        SnapshotLater(seen, View(), id, action);
      }
    }

    /** The review check and the decision, once the row has been read. */
    method ReviewAndDecide(v: Serving, id: nat, action: Action, actor: nat, mayReview: bool, approve: bool, now: nat,
                           reason: string, ghost start: State)
      returns (reply: Reply, ghost last: nat)
      requires Proper(v) && v == Deciding(v.r, v.others, mayReview, approve, now, reason)
      requires mayReview ==> actor != 0 && actor != action.userId
      requires Now() == After(start, v, 0) && Inv(Now()) && Snapshot(View(), id, action)
      requires v.r in requests && requests[v.r] == DecideWithRow(id, actor, action)
      modifies this
      ensures last < 3 && Now() == After(start, v, last) && v.r in requests && requests[v.r] == Done
      ensures reply == if !mayReview then Forbidden
                       else if !Waiting(Before(start, v, 2).db, id) then BadRequest
                       else Decided(if approve then Approved else Rejected)
      ensures reply.Decided? ==> DecisionStored(actions, audits, id, action, actor, approve, now, reason)
    {
      hide Exec, Apply, Inv, Later, After, Before, Proper, DecisionStored, Evolves;
      ghost var seen := View();
      Others(v, 1, start);
      SnapshotLater(seen, View(), id, action);
      ReviewTakes(start, v, 1, Now(), id, actor, action);
      if !mayReview {
        GoOn(v.r, Done);
        return Forbidden, 1;
      }
      GoOn(v.r, DecideReady(id, actor, action.userId));
      seen := View();
      Others(v, 2, start);
      SnapshotLater(seen, View(), id, action);
      DecisionTakes(start, v, 2, Now(), id, actor, action.userId);
      var ok := DecideChecked(id, action, actor, approve, now, reason);
      GoOn(v.r, Done);
      return if ok then Decided(if approve then Approved else Rejected) else BadRequest, 2;
    }

    /** A decision, with other requests at work before each of its steps: the handler is the
        machine's request, step by step. It is recorded exactly if the decider may review that
        very change, did not request it, and it still waits when the update comes. */
    method AgentDecideChange(r: nat, others: seq<seq<Step>>, id: nat, actor: nat, g: NamespaceAuthz.Grants,
                             role: Option<NamespaceAuthz.Role>, approve: bool, now: nat, reason: string)
      returns (reply: Reply, ghost last: nat)
      requires |others| == 3 && (forall k :: 0 <= k < 3 ==> ByOthers(others[k], r))
      requires Inv(Now()) && r in requests && requests[r] == Decide(id, actor)
      modifies this
      ensures var read := Exec(old(Now()), others[0]).db.actions;
              var mayReview := id in read && CanReview(g, actor, role, read[id]);
              var v := Deciding(r, others, mayReview, approve, now, reason);
              && last < 3 && Now() == After(old(Now()), v, last) && r in requests && requests[r] == Done
              && reply == (if id !in read then NotFound
                           else if read[id].status != ApprovalPending then BadRequest
                           else if !mayReview then Forbidden
                           else if !Waiting(Before(old(Now()), v, 2).db, id) then BadRequest
                           else Decided(if approve then Approved else Rejected))
              && (reply.Decided? ==> DecisionStored(actions, audits, id, read[id], actor, approve, now, reason))
      ensures Inv(Now()) && Later(old(View()), View())
    {
      hide Exec, Apply, Inv, Later;
      ghost var start := Now();
      Others(Deciding(r, others, false, approve, now, reason), 0, start);
      var mayReview := id in actions && CanReview(g, actor, role, actions[id]);
      var v := Deciding(r, others, mayReview, approve, now, reason);
      DecideTakes(start, v, 0, Now(), id, actor);
      if id !in actions {
        GoOn(r, Done);
        ServedLater(start, v, 0);
        return NotFound, 0;
      }
      var action := actions[id];
      if action.status != ApprovalPending {
        GoOn(r, Done);
        ServedLater(start, v, 0);
        return BadRequest, 0;
      }
      GoOn(r, DecideWithRow(id, actor, action));
      reply, last := ReviewAndDecide(v, id, action, actor, mayReview, approve, now, reason, start);
      ServedLater(start, v, last);
    }

    method AgentCancelChange(id: nat, actor: nat) returns (ok: bool)
      modifies this`actions, this`audits
      ensures ok == CancelTx(old(View()), id, actor).Some?
      ensures View() == if ok then CancelTx(old(View()), id, actor).value else old(View())
      ensures ok <==> id in old(actions) && old(actions)[id].userId == actor
                      && old(actions)[id].status in {Pending, ApprovalPending, Approved}
      ensures ok ==> actions == old(actions)[id := old(actions)[id].(status := Cancelled)]
                     && audits == old(audits) + [Audit(id, actor, EvCancelled, "requester cancelled staged change")]
    {
      ok := id in actions && actions[id].userId == actor && Open(actions[id].status);
      if ok {
        actions := actions[id := actions[id].(status := Cancelled)];
        audits := audits + [Audit(id, actor, EvCancelled, "requester cancelled staged change")];
      }
    }

    /** The transaction that claims an action for execution. */
    method Claim(id: nat, actor: nat, expected: Status, evidence: Option<string>) returns (ok: bool)
      modifies this`actions, this`audits
      ensures ok == ClaimTx(old(View()), id, actor, expected, evidence).Some?
      ensures View() == if ok then ClaimTx(old(View()), id, actor, expected, evidence).value else old(View())
      ensures ok <==> id in old(actions) && old(actions)[id].status == expected
      ensures ok ==> actions == old(actions)[id := Claimed(old(actions)[id], evidence).(status := Executing)]
                     && audits == old(audits) + [Audit(id, actor, EvExecuting, "confirmed staged change")]
    {
      ok := id in actions && actions[id].status == expected;
      if ok {
        var row := actions[id].(status := Executing);
        if evidence.Some? {
          row := row.(evidence := evidence.value);
        }
        actions := actions[id := row];
        audits := audits + [Audit(id, actor, EvExecuting, "confirmed staged change")];
      }
    }

    method RecordActionOutcome(id: nat, row: Action, actor: nat, event: Event, detail: string)
      modifies this`actions, this`audits
      ensures View() == OutcomeTx(old(View()), id, row, actor, event, detail)
      ensures actions == old(actions)[id := row]
      ensures old(audits) + [Audit(id, actor, event, detail)] <= audits
      ensures audits[|old(audits)| + 1..]
           == (if row.observation == "" then [] else [Audit(id, actor, EvObserved, row.observation)])
              + (if row.rollbackResult == "" then [] else [Audit(id, actor, EvRollback, row.rollbackResult)])
    {
      actions := actions[id := row];
      audits := audits + [Audit(id, actor, event, detail)];
      if row.observation != "" {
        audits := audits + [Audit(id, actor, EvObserved, row.observation)];
      }
      if row.rollbackResult != "" {
        audits := audits + [Audit(id, actor, EvRollback, row.rollbackResult)];
      }
      assert audits == OutcomeTx(old(View()), id, row, actor, event, detail).audits;
    }

    /** The execution of a claimed action, with other requests at work, and its outcome. */
    method ExecuteClaimed(v: Serving, id: nat, actor: nat, action: Action, production: bool, a: Answers, ghost start: State)
      returns (status: Status)
      requires Proper(v) && v == Confirming(v.r, v.others, a)
      requires Now() == After(start, v, 5) && Inv(Now())
      requires v.r in requests && requests[v.r] == ConfirmRun(id, actor, action, production)
      modifies this
      ensures Now() == After(start, v, 6) && v.r in requests && requests[v.r] == Done
      ensures Saved(actions, id, action, production, a.execution, a.now, status)
    {
      hide Exec, Apply, Inv, Later, After, Before, Proper, OutcomeTx, Finish, Reports;
      Others(v, 6, start);
      RunTakes(start, v, 6, Now(), id, actor, action, production);
      var (saved, event, detail) := Finish(action, production, a.execution, a.now);
      RecordActionOutcome(id, saved, actor, event, detail);
      GoOn(v.r, Done);
      FinishRow(action, production, a.execution, a.now);
      return saved.status;
    }

    /** The claim, the execution and the saving of its outcome. Other requests run before the
        claim and while the change is executed. */
    method ClaimAndExecute(v: Serving, id: nat, actor: nat, row: Action, production: bool, expected: Status,
                           evidence: Option<string>, a: Answers, ghost start: State)
      returns (reply: Reply, ghost last: nat)
      requires Proper(v) && v == Confirming(v.r, v.others, a)
      requires Now() == After(start, v, 4) && Inv(Now())
      requires v.r in requests && requests[v.r] == ConfirmClaim(id, actor, row, production, expected, evidence)
      modifies this
      ensures last < 7 && Now() == After(start, v, last) && v.r in requests && requests[v.r] == Done
      ensures if StillAt(Before(start, v, 5).db, id, expected)
              then reply.Finished? && Saved(actions, id, Claimed(row, evidence), production, a.execution, a.now, reply.status)
              else reply == BadRequest
    {
      hide Exec, Apply, Inv, Later, After, Before;
      Others(v, 5, start);
      ClaimTakes(start, v, 5, Now(), id, actor, row, production, expected, evidence);
      var claimed := Claim(id, actor, expected, evidence);
      if !claimed {
        GoOn(v.r, Done);
        return BadRequest, 5;
      }
      var action := Claimed(row, evidence);
      GoOn(v.r, ConfirmRun(id, actor, action, production));
      var status := ExecuteClaimed(v, id, actor, action, production, a, start);
      return Finished(status), 6;
    }

    /** The submission of a production change with its evidence. */
    method Submit(v: Serving, id: nat, actor: nat, action: Action, a: Answers, ghost start: State)
      returns (reply: Reply)
      requires Proper(v) && v == Confirming(v.r, v.others, a) && a.proof.Some?
      requires Now() == After(start, v, 4) && Inv(Now())
      requires v.r in requests && requests[v.r] == ConfirmSubmit(id, actor, action, a.proof.value)
      modifies this
      ensures Now() == After(start, v, 5) && v.r in requests && requests[v.r] == Done
      ensures if StillAt(Before(start, v, 5).db, id, Pending)
              then reply == AwaitingApproval && id in actions && actions[id].status == ApprovalPending
              else reply == BadRequest
    {
      hide Exec, Apply, Inv, Later, After, Before;
      Others(v, 5, start);
      SubmitWhilePending(Now(), v.r);
      SubmitTakes(start, v, 5, Now(), id, actor, action, a.proof.value);
      var ok := SubmitActionForApproval(id, actor, a.proof.value);
      GoOn(v.r, Done);
      return if ok then AwaitingApproval else BadRequest;
    }

    /** The tests of a change that is not submitted: it is pending, or it is an approved
        production change with an independent approver. */
    method ExecuteReady(v: Serving, id: nat, actor: nat, action: Action, production: bool, approvalEnabled: bool,
                        evidence: Option<string>, a: Answers, ghost start: State)
      returns (reply: Reply, ghost last: nat)
      requires Proper(v) && v == Confirming(v.r, v.others, a)
      requires Due(start, v, 4, Now(), ConfirmReady(id, actor, action, production, approvalEnabled))
      requires evidence == if production && action.status == Pending then a.proof else None
      requires production && action.status == Pending ==> a.proof.Some? && !approvalEnabled
      modifies this
      ensures last < 7 && Now() == After(start, v, last) && v.r in requests && requests[v.r] == Done
      ensures Answered(action, production, approvalEnabled, a.proof, Before(start, v, 5).db, id, reply)
      ensures reply.Finished? ==> Saved(actions, id, Claimed(action, evidence), production, a.execution, a.now, reply.status)
    {
      hide Exec, Apply, Inv, Later, After, Before, Saved, Finish, Proper, Confirming, Given, Claimed, StillAt;
      ConfirmingOwn(v.r, v.others, a);
      ReadyTakes(start, v, 4, Now(), id, actor, action, production, approvalEnabled);
      var expected := Pending;
      if production && action.status == Approved {
        expected := Approved;
        if action.approvedBy == None || action.approvedBy.value == action.userId {
          GoOn(v.r, Done);
          return Forbidden, 4;
        }
      }
      if action.status != expected {
        GoOn(v.r, Done);
        return BadRequest, 4;
      }
      GoOn(v.r, ConfirmClaim(id, actor, action, production, expected, evidence));
      reply, last := ClaimAndExecute(v, id, actor, action, production, expected, evidence, a, start);
    }

    /** A production change still pending needs evidence, and is submitted instead of run while
        dual approval is on. */
    method SubmitPending(v: Serving, id: nat, actor: nat, action: Action, approvalEnabled: bool, a: Answers, ghost start: State)
      returns (reply: Option<Reply>, ghost last: nat)
      requires Proper(v) && v == Confirming(v.r, v.others, a) && action.status == Pending
      requires Due(start, v, 4, Now(), ConfirmReady(id, actor, action, true, approvalEnabled))
      modifies this
      ensures reply == None <==> a.proof.Some? && !approvalEnabled
      ensures reply == None ==> Now() == old(Now())
      ensures reply.Some? ==> last < 7 && Now() == After(start, v, last) && v.r in requests && requests[v.r] == Done
      ensures reply.Some? ==> Answered(action, true, approvalEnabled, a.proof, Before(start, v, 5).db, id, reply.value)
      ensures reply == Some(AwaitingApproval) ==> id in actions && actions[id].status == ApprovalPending
    {
      hide Exec, Apply, Inv, Later, After, Before, Proper, Confirming, Given;
      ConfirmingOwn(v.r, v.others, a);
      if a.proof == None {
        ReadyTakes(start, v, 4, Now(), id, actor, action, true, approvalEnabled);
        GoOn(v.r, Done);
        return Some(BadRequest), 4;
      }
      if approvalEnabled {
        ReadyTakes(start, v, 4, Now(), id, actor, action, true, approvalEnabled);
        GoOn(v.r, ConfirmSubmit(id, actor, action, a.proof.value));
        var answer := Submit(v, id, actor, action, a, start);
        return Some(answer), 5;
      }
      return None, 4;
    }

    /** What follows from what was read: the submission of a pending production change while
        approval is on, or else the execution of a pending change, or of a production change
        approved by somebody else. */
    method SubmitOrExecute(v: Serving, id: nat, actor: nat, action: Action, production: bool, approvalEnabled: bool,
                           a: Answers, ghost start: State)
      returns (reply: Reply, ghost last: nat)
      requires Proper(v) && v == Confirming(v.r, v.others, a)
      requires Now() == After(start, v, 3) && Inv(Now())
      requires v.r in requests && requests[v.r] == ConfirmReady(id, actor, action, production, approvalEnabled)
      modifies this
      ensures last < 7 && Now() == After(start, v, last) && v.r in requests && requests[v.r] == Done
      ensures Answered(action, production, approvalEnabled, a.proof, Before(start, v, 5).db, id, reply)
      ensures reply.AwaitingApproval? ==> id in actions && actions[id].status == ApprovalPending
      ensures reply.Finished? ==>
                Saved(actions, id, Claimed(action, if production && action.status == Pending then a.proof else None),
                      production, a.execution, a.now, reply.status)
    {
      hide Exec, Apply, Inv, Later, After, Before, Saved, Finish, Proper, Confirming;
      ConfirmingOwn(v.r, v.others, a);
      Others(v, 4, start);
      var evidence := None;
      if production && action.status == Pending {
        var answer;
        answer, last := SubmitPending(v, id, actor, action, approvalEnabled, a, start);
        if answer.Some? { return answer.value, last; }
        evidence := a.proof;
      }
      reply, last := ExecuteReady(v, id, actor, action, production, approvalEnabled, evidence, a, start);
    }

    /** The environment of the action's cluster, and the first test: a production change is its
        requester's own business. */
    method ReadEnvironment(v: Serving, id: nat, actor: nat, action: Action, ghost start: State)
      returns (refused: Option<Reply>, production: bool)
      requires Proper(v) && |v.own| == 7
      requires Now() == After(start, v, 0) && Inv(Now())
      requires v.r in requests && requests[v.r] == ConfirmWithRow(id, actor, action)
      modifies this
      ensures Now() == After(start, v, 1) && Inv(Now()) && v.r in requests
      ensures var environments := Before(start, v, 1).db.environments;
              if action.cluster !in environments then refused == Some(BadRequest)
              else production == (environments[action.cluster] in {"", "production"})
                   && refused == if production && action.userId != actor then Some(Forbidden) else None
      ensures requests[v.r] == if refused.Some? then Done else ConfirmWithEnv(id, actor, action, production)
    {
      hide Exec, Apply, Inv, Later, After, Before;
      Others(v, 1, start);
      EnvironmentTakes(start, v, 1, Now(), id, actor, action);
      production := false;
      if action.cluster !in environments {
        GoOn(v.r, Done);
        return Some(BadRequest), production;
      }
      production := IsProduction(environments[action.cluster]);
      if production && action.userId != actor {
        GoOn(v.r, Done);
        return Some(Forbidden), production;
      }
      GoOn(v.r, ConfirmWithEnv(id, actor, action, production));
      refused := None;
    }

    /** The caller's role and scope. */
    method CheckCaller(v: Serving, id: nat, actor: nat, action: Action, production: bool, a: Answers, ghost start: State)
      returns (refused: bool)
      requires Proper(v) && v == Confirming(v.r, v.others, a)
      requires Now() == After(start, v, 1) && Inv(Now())
      requires v.r in requests && requests[v.r] == ConfirmWithEnv(id, actor, action, production)
      modifies this
      ensures Now() == After(start, v, 2) && Inv(Now()) && v.r in requests
      ensures refused <==> (action.userId != 0 && action.userId != actor && !a.isAdmin) || !a.inScope
      ensures requests[v.r] == if refused then Done else ConfirmScoped(id, actor, action, production)
    {
      hide Exec, Apply, Inv, Later, After, Before, Confirming, Given;
      ConfirmingOwn(v.r, v.others, a);
      Others(v, 2, start);
      TestsTake(start, v, 2, Now(), id, actor, action, production);
      refused := (action.userId != 0 && action.userId != actor && !a.isAdmin) || !a.inScope;
      GoOn(v.r, if refused then Done else ConfirmScoped(id, actor, action, production));
    }

    /** The approval setting, which matters for a production change only. */
    method ReadSetting(v: Serving, id: nat, actor: nat, action: Action, production: bool, ghost start: State)
      returns (approvalEnabled: bool)
      requires Proper(v) && |v.own| == 7
      requires Now() == After(start, v, 2) && Inv(Now())
      requires v.r in requests && requests[v.r] == ConfirmScoped(id, actor, action, production)
      modifies this
      ensures Now() == After(start, v, 3) && Inv(Now()) && v.r in requests
      ensures approvalEnabled == (production && Before(start, v, 3).db.dualApproval)
      ensures requests[v.r] == ConfirmReady(id, actor, action, production, approvalEnabled)
    {
      hide Exec, Apply, Inv, Later, After, Before;
      Others(v, 3, start);
      SettingTakes(start, v, 3, Now(), id, actor, action, production);
      approvalEnabled := production && dualApproval;
      GoOn(v.r, ConfirmReady(id, actor, action, production, approvalEnabled));
    }

    /** The reads and the permission tests of a confirmation that has found its action: the
        cluster's environment, the caller's role and scope, and the approval setting, each of
        the tables as the others left them right before. */
    method ReadForConfirm(v: Serving, id: nat, actor: nat, action: Action, a: Answers, ghost start: State)
      returns (refused: Option<Reply>, production: bool, approvalEnabled: bool, ghost last: nat)
      requires Proper(v) && v == Confirming(v.r, v.others, a)
      requires Now() == After(start, v, 0) && Inv(Now())
      requires v.r in requests && requests[v.r] == ConfirmWithRow(id, actor, action)
      modifies this
      ensures last < 4 && Now() == After(start, v, last) && Inv(Now()) && v.r in requests
      ensures var x := Reads(action, Before(start, v, 1).db.environments, Before(start, v, 3).db.dualApproval);
              && refused == (if !Known(x) then Some(BadRequest)
                             else if !Permitted(action, actor, Production(x), a.isAdmin, a.inScope) then Some(Forbidden)
                             else None)
              && (refused == None ==> last == 3 && production == Production(x) && approvalEnabled == ApprovalOn(x))
      ensures requests[v.r] == if refused.Some? then Done else ConfirmReady(id, actor, action, production, approvalEnabled)
    {
      hide Exec, Apply, Inv, Later, After, Before;
      refused, production := ReadEnvironment(v, id, actor, action, start);
      approvalEnabled := false;
      if refused.Some? { return refused, production, approvalEnabled, 1; }
      var barred := CheckCaller(v, id, actor, action, production, a, start);
      if barred { return Some(Forbidden), production, approvalEnabled, 2; }
      approvalEnabled := ReadSetting(v, id, actor, action, production, start);
      last := 3;
    }

    /** The handler is the machine's request, step by step, whatever steps other requests take
        before each of its own. Its answer is: not found, a bad request or forbidden
        exactly when what it read at its own moments says so, submitted or run exactly when that
        allows it and the stored row still has the status that was read. */
    method AgentConfirmAction(r: nat, others: seq<seq<Step>>, id: nat, actor: nat, a: Answers)
      returns (reply: Reply, ghost last: nat)
      requires |others| == 7 && Proper(Confirming(r, others, a))
      requires Inv(Now()) && r in requests && requests[r] == Confirm(id, actor)
      modifies this
      ensures last < 7 && Now() == After(old(Now()), Confirming(r, others, a), last)
      ensures r in requests && requests[r] == Done
      ensures Gated(old(Now()), Confirming(r, others, a), id, actor, a, reply)
      ensures reply.AwaitingApproval? ==> id in actions && actions[id].status == ApprovalPending
      ensures reply.Finished? ==>
                FinishedAs(actions, id, ReadBy(old(Now()), Confirming(r, others, a), id), a, reply.status)
      ensures reply.Finished? ==> (reply.status == Executed <==> a.execution.error == None && a.execution.success == Some(true))
      ensures Inv(Now()) && Later(old(View()), View())
    {
      hide Exec, Apply, Inv, Later, After, Before;
      ghost var start := Now();
      var v := Confirming(r, others, a);
      Others(v, 0, start);
      ConfirmTakes(start, v, 0, Now(), id, actor);
      if id !in actions {
        GoOn(v.r, Done);
        ServedLater(start, v, 0);
        return NotFound, 0;
      }
      var action := actions[id];
      GoOn(v.r, ConfirmWithRow(id, actor, action));
      var refused, production, approvalEnabled;
      refused, production, approvalEnabled, last := ReadForConfirm(v, id, actor, action, a, start);
      if refused.Some? {
        ServedLater(start, v, last);
        return refused.value, last;
      }
      reply, last := SubmitOrExecute(v, id, actor, action, production, approvalEnabled, a, start);
      ServedLater(start, v, last);
    }

    /** One iteration of the clearing loop. */
    method SweepRow(id: nat, actor: nat, seen: Status)
      modifies this`actions, this`audits
      ensures View() == SweepRowTx(old(View()), id, actor, seen, true)
    {
      if id in actions && actions[id].userId == actor && actions[id].status == seen {
        actions := actions[id := actions[id].(status := Cancelled)];
        audits := audits + [Audit(id, actor, EvCancelled, "conversation cleared or deleted")];
      }
    }

    /** The same, with an account of the rows cancelled since `before`. */
    method SweepTracked(ghost before: Db, ghost added: seq<Audit>, ghost done: set<nat>, id: nat, actor: nat, seen: Status)
      requires SweptSoFar(before, actions, audits, added, done, actor) && id !in done && id in before.actions
      requires before.actions[id].userId == actor && before.actions[id].status == seen
      modifies this`actions, this`audits
      ensures SweptSoFar(before, actions, audits, added + [SweepAudit(id, actor)], done + {id}, actor)
    {
      SweepOne(before, View(), added, done, id, actor);
      SweepRow(id, actor, seen);
    }

    /** Cancel every listed action, one conditional update at a time. */
    method SweepListed(conv: nat, actor: nat) returns (ghost added: seq<Audit>)
      modifies this`actions, this`audits
      ensures audits == old(audits) + added
      ensures Swept(old(actions), actions, added, conv, actor)
    {
      ghost var before := View();
      var listed := ListedRows(actions, conv, actor);
      var todo := listed.Keys;
      ghost var done := {};
      added := [];
      NothingSwept(before, actor);
      while todo != {}
        invariant todo <= listed.Keys && done == listed.Keys - todo
        invariant SweptSoFar(before, actions, audits, added, done, actor)
        decreases todo
      {
        var id :| id in todo;
        SweepTracked(before, added, done, id, actor, listed[id]);
        todo, done, added := todo - {id}, done + {id}, added + [SweepAudit(id, actor)];
      }
      assert done == listed.Keys;
      SweptAll(before, actions, audits, added, conv, actor);
    }

    /** Run undisturbed, clearing raises the version by one, cancels every open action of
        this owner and conversation with one audit row each, and touches nothing else. */
    method ClearConversationContent(conv: nat, actor: nat) returns (ok: bool)
      modifies this`actions, this`audits, this`conversations
      ensures ok <==> conv in old(conversations) && old(conversations)[conv].userId == actor && !old(conversations)[conv].deleted
      ensures !ok ==> View() == old(View())
      ensures ok ==> actions.Keys == old(actions).Keys && forall k :: k in actions ==>
                actions[k] == if old(actions)[k].conversation == Some(conv) && old(actions)[k].userId == actor
                                 && old(actions)[k].status in {Pending, ApprovalPending, Approved}
                              then old(actions)[k].(status := Cancelled) else old(actions)[k]
      ensures ok ==>
        var c := old(conversations)[conv];
        && conversations == old(conversations)[conv := c.(version := c.version + 1)]
        && old(audits) <= audits
        && Swept(old(actions), actions, audits[|old(audits)|..], conv, actor)
    {
      ok := conv in conversations && conversations[conv].userId == actor && !conversations[conv].deleted;
      if ok {
        var c := conversations[conv];
        conversations := conversations[conv := c.(version := c.version + 1)];
        ghost var added := SweepListed(conv, actor);
        assert audits[|old(audits)|..] == added;
      }
    }
  }

  lemma ExtendsLater(db: Db, db': Db)
    requires Extends(db, db')
    ensures Later(db, db')
  {
  }

  /** An independent approver: a different user who is an administrator or may write in the
      change's namespace. */
  predicate CanReview(g: NamespaceAuthz.Grants, actor: nat, role: Option<NamespaceAuthz.Role>, row: Action) {
    && actor != 0 && actor != row.userId && role.Some?
    && (NamespaceAuthz.Bypass(role.value)
        || NamespaceAuthz.Authorize(g, actor, row.cluster, if row.namespace == "" then "*" else row.namespace, "write"))
  }

  /** In the terms of the tables: another user, who is an administrator or holds a grant to write in
      the change's namespace. */
  lemma CanReviewIff(g: NamespaceAuthz.Grants, actor: nat, role: Option<NamespaceAuthz.Role>, row: Action)
    ensures CanReview(g, actor, role, row)
            <==> && actor != 0 && actor != row.userId && role.Some?
                 && (role.value.isSystem || role.value.name == "admin"
                     || exists grant :: grant in g.rows && grant.user == actor && grant.cluster == row.cluster
                          && (grant.namespace == "*" || (row.namespace != "" && grant.namespace == row.namespace))
                          && (grant.level == "write" || grant.level == "admin"))
  {
    NamespaceAuthz.AuthorizeIff(g, actor, row.cluster, if row.namespace == "" then "*" else row.namespace, "write");
    if grant :| grant in g.rows && grant.user == actor && grant.cluster == row.cluster
                && (grant.namespace == "*" || (row.namespace != "" && grant.namespace == row.namespace))
                && (grant.level == "write" || grant.level == "admin") {
      assert NamespaceAuthz.Covers(grant, actor, row.cluster, if row.namespace == "" then "*" else row.namespace, 2);
    }
  }

  /** The decision is in the row, which is otherwise the reviewed change, and in its last
      audit row. */
  predicate DecisionStored(actions: map<nat, Action>, audits: seq<Audit>, id: nat, action: Action, actor: nat,
                           approve: bool, now: nat, reason: string)
  {
    && id in actions && Evolves(action, actions[id])
    && actions[id].status == (if approve then Approved else Rejected)
    && (approve ==> actions[id].approvedBy == Some(actor) && actions[id].approvedAt == Some(now))
    && audits != []
    && audits[|audits| - 1] == Audit(id, actor, if approve then EvApproved else EvRejected, reason)
  }

  /** A production change is executed by its requester, any other by its owner, an
      administrator, or anybody if it has no owner; always within the caller's scope. */
  predicate Permitted(row: Action, actor: nat, production: bool, isAdmin: bool, inScope: bool) {
    inScope && (production ==> row.userId == actor) && (row.userId == 0 || row.userId == actor || isAdmin)
  }

  predicate Independent(row: Action) {
    row.approvedBy.Some? && row.approvedBy.value != row.userId
  }

  /** What a confirmation read: its row, the environments and the approval setting. */
  datatype Reads = Reads(row: Action, environments: map<nat, string>, dualApproval: bool)

  predicate Known(x: Reads) {
    x.row.cluster in x.environments
  }

  predicate Production(x: Reads) {
    Known(x) && x.environments[x.row.cluster] in {"", "production"}
  }

  predicate ApprovalOn(x: Reads) {
    Production(x) && x.dualApproval
  }

  /** Each as stored right before the step that reads it. */
  function ReadBy(start: State, v: Serving, id: nat): Reads
    requires Proper(v) && |v.own| == 7 && id in Before(start, v, 0).db.actions
  {
    Reads(Before(start, v, 0).db.actions[id], Before(start, v, 1).db.environments, Before(start, v, 3).db.dualApproval)
  }

  predicate StillAt(db: Db, id: nat, status: Status) {
    id in db.actions && db.actions[id].status == status
  }

  predicate Waiting(db: Db, id: nat) {
    StillAt(db, id, ApprovalPending)
  }

  /** The answer to a permitted caller, on the tables at the moment of the submission or claim. */
  predicate Answered(row: Action, production: bool, approvalEnabled: bool, proof: Option<string>, at: Db, id: nat, reply: Reply) {
    var still := StillAt(at, id, row.status);
    && (reply == Forbidden <==> production && row.status == Approved && !Independent(row))
    && (reply.Finished? <==> MayRun(row, production, approvalEnabled, proof) && still)
    && (reply.AwaitingApproval? <==> production && approvalEnabled && row.status == Pending && proof.Some? && still)
    && (reply.Forbidden? || reply.Finished? || reply.AwaitingApproval? || reply == BadRequest)
  }

  /** The answer of a confirmation, in terms of the tables at its reads and at its transaction. */
  predicate Gated(start: State, v: Serving, id: nat, actor: nat, a: Answers, reply: Reply)
    requires Proper(v) && |v.own| == 7
  {
    if id !in Before(start, v, 0).db.actions then reply == NotFound
    else
      var x := ReadBy(start, v, id);
      if !Known(x) then reply == BadRequest
      else if !Permitted(x.row, actor, Production(x), a.isAdmin, a.inScope) then reply == Forbidden
      else Answered(x.row, Production(x), ApprovalOn(x), a.proof, Before(start, v, 5).db, id, reply)
  }

  predicate FinishedAs(actions: map<nat, Action>, id: nat, x: Reads, a: Answers, status: Status) {
    var evidence := if Production(x) && x.row.status == Pending then a.proof else None;
    Saved(actions, id, Claimed(x.row, evidence), Production(x), a.execution, a.now, status)
  }

  /** What must hold of the row that was read for it to be executed at all. */
  predicate MayRun(row: Action, production: bool, approvalEnabled: bool, proof: Option<string>) {
    if production && row.status == Pending then proof.Some? && !approvalEnabled
    else if production && row.status == Approved then Independent(row)
    else row.status == Pending
  }

  /** The stored row is the claimed one with the outcome of its execution: what the executor
      answered is in its outcome columns, and every other column is the claimed row's. */
  predicate Saved(actions: map<nat, Action>, id: nat, row: Action, production: bool, x: Execution, now: nat, status: Status) {
    && id in actions && actions[id].status == status && Outcome(status)
    && actions[id] == row.(status := status, result := actions[id].result, observation := actions[id].observation,
                           rollbackResult := actions[id].rollbackResult, executedAt := actions[id].executedAt)
    && Reports(row, production, x, now, actions[id])
  }

  function SweepAudit(id: nat, actor: nat): Audit {
    Audit(id, actor, EvCancelled, "conversation cleared or deleted")
  }

  /** The audit rows of a sweep: one cancellation for each action in `done`, in some order. */
  ghost predicate Cancels(added: seq<Audit>, done: set<nat>, actor: nat) {
    if added == [] then done == {}
    else
      var front, last := added[..|added| - 1], added[|added| - 1];
      last.action in done && last == SweepAudit(last.action, actor) && Cancels(front, done - {last.action}, actor)
  }

  lemma CancelsSnoc(added: seq<Audit>, done: set<nat>, id: nat, actor: nat)
    requires Cancels(added, done, actor) && id !in done
    ensures Cancels(added + [SweepAudit(id, actor)], done + {id}, actor)
  {
    assert (added + [SweepAudit(id, actor)])[..|added|] == added;
    assert (done + {id}) - {id} == done;
  }

  /** So a sweep adds one cancellation to the log of each action it cancels, and nothing to
      any other log. */
  lemma {:induction false} CancelsLog(added: seq<Audit>, done: set<nat>, actor: nat, k: nat)
    requires Cancels(added, done, actor)
    ensures LogOf(added, k) == if k in done then [SweepAudit(k, actor)] else []
  {
    if added != [] {
      var front, last := added[..|added| - 1], added[|added| - 1];
      CancelsLog(front, done - {last.action}, actor, k);
      assert added == front + [last];
      LogOfSnoc(front, last, k);
    }
  }

  function CancelRows(rows: map<nat, Action>, done: set<nat>): map<nat, Action> {
    map k | k in rows :: if k in done then rows[k].(status := Cancelled) else rows[k]
  }

  /** Exactly the listed rows were cancelled, so none of them is listed any more, and each
      left exactly one audit row. */
  ghost predicate Swept(was: map<nat, Action>, now: map<nat, Action>, added: seq<Audit>, conv: nat, actor: nat) {
    var listed := ListedRows(was, conv, actor).Keys;
    && now == CancelRows(was, listed)
    && (forall k :: k in now ==> !Listed(now[k], conv, actor))
    && Cancels(added, listed, actor)
  }

  lemma NothingSwept(db: Db, actor: nat)
    ensures SweptSoFar(db, db.actions, db.audits, [], {}, actor)
  {
    assert CancelRows(db.actions, {}) == db.actions;
  }

  lemma SweptAll(before: Db, rows: map<nat, Action>, audits: seq<Audit>, added: seq<Audit>, conv: nat, actor: nat)
    requires SweptSoFar(before, rows, audits, added, ListedRows(before.actions, conv, actor).Keys, actor)
    ensures Swept(before.actions, rows, added, conv, actor)
  {
  }

  lemma CancelOneMore(rows: map<nat, Action>, done: set<nat>, id: nat)
    requires id in rows && id !in done
    ensures CancelRows(rows, done)[id] == rows[id]
    ensures CancelRows(rows, done)[id := rows[id].(status := Cancelled)] == CancelRows(rows, done + {id})
  {
  }

  /** The rows in `done` have been cancelled since `before`, and `added` is what that wrote
      to the audit table. */
  ghost predicate SweptSoFar(before: Db, rows: map<nat, Action>, audits: seq<Audit>, added: seq<Audit>,
                             done: set<nat>, actor: nat)
  {
    && audits == before.audits + added
    && rows == CancelRows(before.actions, done)
    && Cancels(added, done, actor)
  }

  lemma SweepOne(before: Db, at: Db, added: seq<Audit>, done: set<nat>, id: nat, actor: nat)
    requires SweptSoFar(before, at.actions, at.audits, added, done, actor) && id !in done && id in before.actions
    requires before.actions[id].userId == actor
    ensures var next := SweepRowTx(at, id, actor, before.actions[id].status, true);
            SweptSoFar(before, next.actions, next.audits, added + [SweepAudit(id, actor)], done + {id}, actor)
  {
    CancelOneMore(before.actions, done, id);
    CancelsSnoc(added, done, id, actor);
  }
}
