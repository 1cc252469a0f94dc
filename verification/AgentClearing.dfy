/** Clearing a conversation while other requests run, from the read of its open actions to the
    end of the clear. */
module AgentClearing {
  import opened Wrappers
  import opened AgentActions
  import opened AgentProtocol
  import opened AgentInvariant
  import opened AgentSafety
  import opened AgentTheorems

  /** The clear still has action `id` on its list, with the status `seen`. */
  predicate ToDo(q: Request, actor: nat, id: nat, seen: Status) {
    q.Sweep? && q.clearing && q.actor == actor && id in q.todo && q.todo[id] == seen
  }

  predicate ToDoAt(s: State, steps: seq<Step>, r: nat, k: nat, actor: nat, id: nat, seen: Status) {
    && k <= |steps| && r in Exec(s, steps[..k]).requests
    && ToDo(Exec(s, steps[..k]).requests[r], actor, id, seen)
  }

  /** Step `k` is the clear's own update of `id`. */
  predicate UpdateAt(s: State, steps: seq<Step>, r: nat, k: nat, actor: nat, id: nat, seen: Status) {
    k < |steps| && ToDoAt(s, steps, r, k, actor, id, seen) && Updates(steps[k], r, id)
  }

  predicate Updates(step: Step, r: nat, id: nat) {
    step.Advance? && step.r == r && step.o.pick == id
  }

  predicate MovesAt(s: State, steps: seq<Step>, j: nat, id: nat)
    requires j < |steps|
  {
    Moved(Exec(s, steps[..j]).db, Exec(s, steps[..j + 1]).db, id)
  }

  predicate Own(step: Step, r: nat) {
    step.Advance? && step.r == r
  }

  /** Some step from position `a` on and before position `b` moved the status of `id`. */
  ghost predicate MovedWithin(s: State, steps: seq<Step>, a: nat, b: nat, id: nat)
    requires b <= |steps|
  {
    exists j :: a <= j < b && MovesAt(s, steps, j, id)
  }

  /** Such a step, and not one of request `r`. */
  ghost predicate MovedByOthers(s: State, steps: seq<Step>, r: nat, a: nat, b: nat, id: nat)
    requires b <= |steps|
  {
    exists j :: a <= j < b && MovesAt(s, steps, j, id) && !Own(steps[j], r)
  }

  lemma {:induction false} ExecNext(s: State, steps: seq<Step>, k: nat)
    requires k < |steps|
    ensures Exec(s, steps[..k + 1]) == Apply(Exec(s, steps[..k]), steps[k])
  {
    assert steps[..k + 1][..k] == steps[..k];
  }

  // ---------- one step ----------

  lemma RequestStays(s: State, step: Step, r: nat)
    requires r in s.requests
    ensures r in Apply(s, step).requests
  {
  }

  /** An action leaves the list only by its own update. */
  lemma LeavesByUpdate(s: State, step: Step, r: nat, actor: nat, id: nat, seen: Status)
    requires r in s.requests && ToDo(s.requests[r], actor, id, seen) && step != Crash(r)
    ensures r in Apply(s, step).requests
    ensures !ToDo(Apply(s, step).requests[r], actor, id, seen) <==> Updates(step, r, id)
  {
  }

  /** The clear's other updates leave the status alone. */
  lemma OtherUpdateMovesNothing(s: State, step: Step, r: nat, actor: nat, id: nat, seen: Status)
    requires r in s.requests && ToDo(s.requests[r], actor, id, seen) && Own(step, r) && !Updates(step, r, id)
    ensures !Moved(s.db, Apply(s, step).db, id)
  {
  }

  lemma UpdateIsSweep(s: State, step: Step, r: nat, actor: nat, id: nat, seen: Status)
    requires r in s.requests && ToDo(s.requests[r], actor, id, seen) && Updates(step, r, id)
    ensures Apply(s, step).db == SweepRowTx(s.db, id, actor, seen, true)
  {
  }

  // ---------- the run ----------

  /** An action that is on the list and later is not was updated in between, once. */
  lemma {:induction false} FindUpdate(s: State, steps: seq<Step>, r: nat, a: nat, actor: nat, id: nat, seen: Status)
    returns (k: nat)
    requires a <= |steps| && ToDoAt(s, steps, r, a, actor, id, seen) && !ToDoAt(s, steps, r, |steps|, actor, id, seen)
    requires forall i :: a <= i < |steps| ==> steps[i] != Crash(r)
    ensures a <= k && UpdateAt(s, steps, r, k, actor, id, seen)
    ensures forall j :: a <= j < k ==> ToDoAt(s, steps, r, j, actor, id, seen) && !Updates(steps[j], r, id)
    decreases |steps| - a
  {
    hide Exec, Apply;
    ExecNext(s, steps, a);
    LeavesByUpdate(Exec(s, steps[..a]), steps[a], r, actor, id, seen);
    if Updates(steps[a], r, id) {
      k := a;
    } else {
      k := FindUpdate(s, steps, r, a + 1, actor, id, seen);
    }
  }

  lemma MovedOneMore(s: State, steps: seq<Step>, a: nat, b: nat, id: nat)
    requires a <= b < |steps|
    ensures MovedWithin(s, steps, a, b + 1, id) <==> MovedWithin(s, steps, a, b, id) || MovesAt(s, steps, b, id)
  {
    hide MovesAt;
  }

  lemma NextStatus(s: State, steps: seq<Step>, k: nat, id: nat)
    requires Initial(s) && k < |steps| && id in Exec(s, steps[..k]).db.actions
    ensures id in Exec(s, steps[..k + 1]).db.actions
    ensures var a, b := Exec(s, steps[..k]).db.actions[id].status, Exec(s, steps[..k + 1]).db.actions[id].status;
            if MovesAt(s, steps, k, id) then Rank(a) < Rank(b) else a == b
  {
    hide Exec, Apply, Inv;
    ExecNext(s, steps, k);
    InvAlways(s, steps[..k]);
    StepOrder(Exec(s, steps[..k]), steps[k], id);
  }

  /** Statuses never come back, so an unchanged status means that no step moved it. */
  lemma {:induction false} SameStatusIff(s: State, steps: seq<Step>, a: nat, b: nat, id: nat)
    requires Initial(s) && a <= b <= |steps| && id in Exec(s, steps[..a]).db.actions
    ensures id in Exec(s, steps[..b]).db.actions
    ensures var was, now := Exec(s, steps[..a]).db.actions[id].status, Exec(s, steps[..b]).db.actions[id].status;
            if MovedWithin(s, steps, a, b, id) then Rank(was) < Rank(now) else was == now
    decreases b
  {
    hide Exec, MovesAt;
    if a < b {
      SameStatusIff(s, steps, a, b - 1, id);
      NextStatus(s, steps, b - 1, id);
      MovedOneMore(s, steps, a, b - 1, id);
      assert MovedWithin(s, steps, a, b, id)
        <==> MovedWithin(s, steps, a, b - 1, id) || MovesAt(s, steps, b - 1, id);
    }
  }

  /** While an action is on the list, only other requests move it. */
  lemma {:induction false} OthersMoveIt(s: State, steps: seq<Step>, r: nat, a: nat, b: nat, actor: nat, id: nat, seen: Status)
    requires a <= b <= |steps|
    requires forall j :: a <= j < b ==> ToDoAt(s, steps, r, j, actor, id, seen) && !Updates(steps[j], r, id)
    ensures MovedWithin(s, steps, a, b, id) <==> MovedByOthers(s, steps, r, a, b, id)
  {
    hide Exec, MovesAt, Apply;
    forall j | a <= j < b && Own(steps[j], r) ensures !MovesAt(s, steps, j, id) {
      OwnUpdateElsewhere(s, steps, r, j, actor, id, seen);
    }
  }

  lemma OwnUpdateElsewhere(s: State, steps: seq<Step>, r: nat, j: nat, actor: nat, id: nat, seen: Status)
    requires j < |steps| && ToDoAt(s, steps, r, j, actor, id, seen) && Own(steps[j], r) && !Updates(steps[j], r, id)
    ensures !MovesAt(s, steps, j, id)
  {
    hide Apply, Exec;
    ExecNext(s, steps, j);
    OtherUpdateMovesNothing(Exec(s, steps[..j]), steps[j], r, actor, id, seen);
  }

  /** The action `id` was listed with the status it had at step `listed`. Step `k`, the clear's
      own update of it, cancels it, for good and with one audit row, exactly if no step of
      another request had moved its status since; else it leaves it as it is, open if it is. */
  ghost predicate Settled(s: State, steps: seq<Step>, r: nat, listed: nat, k: nat, actor: nat, id: nat)
    requires listed < k < |steps| && id in Exec(s, steps[..listed]).db.actions
  {
    var at, next, end := Exec(s, steps[..k]).db, Exec(s, steps[..k + 1]).db, Exec(s, steps).db;
    var moved := MovedByOthers(s, steps, r, listed, k, id);
    && UpdateAt(s, steps, r, k, actor, id, Exec(s, steps[..listed]).db.actions[id].status)
    && id in at.actions && id in next.actions && id in end.actions
    && next.actions[id] == (if moved then at.actions[id] else at.actions[id].(status := Cancelled))
    && (Open(next.actions[id].status) <==> moved && Open(at.actions[id].status))
    && (!moved ==> OneCancellation(LogOf(next.audits, id)) && end.actions[id] == next.actions[id])
    && (Open(end.actions[id].status) ==> moved)
  }

  lemma ListRead(s: State, steps: seq<Step>, r: nat, listed: nat, conv: nat, actor: nat, id: nat)
    requires listed < |steps| && Own(steps[listed], r)
    requires r in Exec(s, steps[..listed]).requests && Exec(s, steps[..listed]).requests[r] == ClearBumped(conv, actor)
    requires id in Exec(s, steps[..listed]).db.actions && Listed(Exec(s, steps[..listed]).db.actions[id], conv, actor)
    ensures ToDoAt(s, steps, r, listed + 1, actor, id, Exec(s, steps[..listed]).db.actions[id].status)
    ensures Exec(s, steps[..listed + 1]).db == Exec(s, steps[..listed]).db
  {
    ExecNext(s, steps, listed);
  }

  /** An open action of this owner and conversation. */
  predicate IsOpenIn(row: Action, conv: nat, actor: nat) {
    row.conversation == Some(conv) && row.userId == actor && row.status in {Pending, ApprovalPending, Approved}
  }

  /** The update in itself, in terms of the status that was listed. */
  lemma UpdateEffect(s: State, steps: seq<Step>, r: nat, k: nat, actor: nat, id: nat, seen: Status)
    requires Initial(s) && UpdateAt(s, steps, r, k, actor, id, seen)
    ensures var at, next := Exec(s, steps[..k]).db, Exec(s, steps[..k + 1]).db;
            && id in at.actions && id in next.actions
            && next.actions[id] == (if at.actions[id].status == seen then at.actions[id].(status := Cancelled) else at.actions[id])
            && (at.actions[id].status == seen ==> OneCancellation(LogOf(next.audits, id)))
  {
    hide Exec, Apply;
    var now := Exec(s, steps[..k]);
    InvAlways(s, steps[..k]);
    assert RequestOk(now.db, now.requests[r]);
    ExecNext(s, steps, k);
    UpdateIsSweep(now, steps[k], r, actor, id, seen);
    OpenLogHasNoCancellation(now.db, id);
    SweepRowEffect(now.db, id, actor, seen, true, id);
  }

  /** From the read of the list to the end of a clear that does not die, with anything else going
      on: every listed action gets an update, and is settled by it. */
  lemma {:induction false} ClearSettles(s: State, steps: seq<Step>, r: nat, listed: nat, conv: nat, actor: nat, id: nat)
    requires Initial(s) && listed < |steps| && Own(steps[listed], r)
    requires r in Exec(s, steps[..listed]).requests && Exec(s, steps[..listed]).requests[r] == ClearBumped(conv, actor)
    requires id in Exec(s, steps[..listed]).db.actions && IsOpenIn(Exec(s, steps[..listed]).db.actions[id], conv, actor)
    requires forall i :: listed < i < |steps| ==> steps[i] != Crash(r)
    requires r in Exec(s, steps).requests && Exec(s, steps).requests[r] == Done
    ensures exists k :: listed < k < |steps| && Settled(s, steps, r, listed, k, actor, id)
  {
    hide Exec, Apply, Inv;
    var seen := Exec(s, steps[..listed]).db.actions[id].status;
    ListRead(s, steps, r, listed, conv, actor, id);
    assert steps[..|steps|] == steps;
    var k := FindUpdate(s, steps, r, listed + 1, actor, id, seen);
    ListedIsSettled(s, steps, r, listed, k, actor, id, seen);
  }

  lemma ListedIsSettled(s: State, steps: seq<Step>, r: nat, listed: nat, k: nat, actor: nat, id: nat, seen: Status)
    requires Initial(s) && listed < k && UpdateAt(s, steps, r, k, actor, id, seen)
    requires id in Exec(s, steps[..listed]).db.actions && Exec(s, steps[..listed]).db.actions[id].status == seen && Open(seen)
    requires Exec(s, steps[..listed + 1]).db == Exec(s, steps[..listed]).db
    requires forall j :: listed < j < k ==> ToDoAt(s, steps, r, j, actor, id, seen) && !Updates(steps[j], r, id)
    ensures Settled(s, steps, r, listed, k, actor, id)
  {
    hide Exec, Apply, Inv, MovesAt;
    SinceListed(s, steps, r, listed, k, actor, id, seen);
    UpdateEffect(s, steps, r, k, actor, id, seen);
    var next := Exec(s, steps[..k + 1]).db;
    SameStatusIff(s, steps, k + 1, |steps|, id);
    assert steps[..|steps|] == steps;
    if next.actions[id].status == Cancelled { FinishedStays(s, steps, k + 1, id); }
  }

  /** The status is still the listed one exactly if no other request has moved it. */
  lemma SinceListed(s: State, steps: seq<Step>, r: nat, listed: nat, k: nat, actor: nat, id: nat, seen: Status)
    requires Initial(s) && listed < k < |steps|
    requires id in Exec(s, steps[..listed]).db.actions && Exec(s, steps[..listed]).db.actions[id].status == seen
    requires Exec(s, steps[..listed + 1]).db == Exec(s, steps[..listed]).db
    requires forall j :: listed < j < k ==> ToDoAt(s, steps, r, j, actor, id, seen) && !Updates(steps[j], r, id)
    ensures id in Exec(s, steps[..k]).db.actions
    ensures Exec(s, steps[..k]).db.actions[id].status == seen <==> !MovedByOthers(s, steps, r, listed, k, id)
  {
    hide Exec, Apply, Inv;
    SameStatusIff(s, steps, listed + 1, k, id);
    OthersMoveIt(s, steps, r, listed + 1, k, actor, id, seen);
    assert !MovesAt(s, steps, listed, id);
  }

  // ---------- and nothing else is cancelled ----------

  /** The request is done, or is working on a part of `list`. */
  predicate OnlyFrom(q: Request, actor: nat, list: map<nat, Status>) {
    q == Done || (q.Sweep? && q.clearing && q.actor == actor && forall k :: k in q.todo ==> k in list && q.todo[k] == list[k])
  }

  lemma StaysOnList(s: State, step: Step, r: nat, actor: nat, list: map<nat, Status>)
    requires r in s.requests && OnlyFrom(s.requests[r], actor, list)
    ensures r in Apply(s, step).requests && OnlyFrom(Apply(s, step).requests[r], actor, list)
  {
  }

  lemma {:induction false} AlwaysOnList(s: State, steps: seq<Step>, r: nat, a: nat, b: nat, actor: nat, list: map<nat, Status>)
    requires a <= b <= |steps|
    requires r in Exec(s, steps[..a]).requests && OnlyFrom(Exec(s, steps[..a]).requests[r], actor, list)
    ensures r in Exec(s, steps[..b]).requests && OnlyFrom(Exec(s, steps[..b]).requests[r], actor, list)
    decreases b
  {
    hide Exec, Apply, OnlyFrom;
    if a < b {
      AlwaysOnList(s, steps, r, a, b - 1, actor, list);
      ExecNext(s, steps, b - 1);
      StaysOnList(Exec(s, steps[..b - 1]), steps[b - 1], r, actor, list);
    }
  }

  lemma MovesItsPick(s: State, step: Step, r: nat, actor: nat, list: map<nat, Status>, id: nat)
    requires r in s.requests && OnlyFrom(s.requests[r], actor, list) && Own(step, r) && Moved(s.db, Apply(s, step).db, id)
    ensures id in list && ToDo(s.requests[r], actor, id, list[id]) && Updates(step, r, id)
  {
  }

  lemma ListIs(s: State, steps: seq<Step>, r: nat, listed: nat, conv: nat, actor: nat)
    requires listed < |steps| && Own(steps[listed], r)
    requires r in Exec(s, steps[..listed]).requests && Exec(s, steps[..listed]).requests[r] == ClearBumped(conv, actor)
    ensures var list := ListedRows(Exec(s, steps[..listed]).db.actions, conv, actor);
            && r in Exec(s, steps[..listed + 1]).requests && OnlyFrom(Exec(s, steps[..listed + 1]).requests[r], actor, list)
            && (forall id :: id in list ==> id in Exec(s, steps[..listed]).db.actions
                                            && IsOpenIn(Exec(s, steps[..listed]).db.actions[id], conv, actor)
                                            && list[id] == Exec(s, steps[..listed]).db.actions[id].status)
  {
    ExecNext(s, steps, listed);
  }

  /** What a clear cancels was an open action of this owner and conversation when it was listed, and
      is cancelled by its own update. */
  lemma {:induction false} ClearCancelsNothingElse(s: State, steps: seq<Step>, r: nat, listed: nat, conv: nat, actor: nat,
                                                   k: nat, id: nat)
    requires listed < k < |steps| && Own(steps[listed], r) && Own(steps[k], r)
    requires r in Exec(s, steps[..listed]).requests && Exec(s, steps[..listed]).requests[r] == ClearBumped(conv, actor)
    requires MovesAt(s, steps, k, id)
    ensures id in Exec(s, steps[..listed]).db.actions && IsOpenIn(Exec(s, steps[..listed]).db.actions[id], conv, actor)
    ensures UpdateAt(s, steps, r, k, actor, id, Exec(s, steps[..listed]).db.actions[id].status)
  {
    hide Exec, Apply;
    var list := ListedRows(Exec(s, steps[..listed]).db.actions, conv, actor);
    ListIs(s, steps, r, listed, conv, actor);
    AlwaysOnList(s, steps, r, listed + 1, k, actor, list);
    ExecNext(s, steps, k);
    MovesItsPick(Exec(s, steps[..k]), steps[k], r, actor, list, id);
  }

  /** A clear begins by raising the version of a conversation that is the caller's own. */
  lemma ClearBegins(s: State, r: nat, o: Oracle)
    requires r in s.requests && s.requests[r].Clear?
    ensures var q, s' := s.requests[r], Apply(s, Advance(r, o));
            var owned := q.conv in s.db.conversations && s.db.conversations[q.conv].userId == q.actor
                         && !s.db.conversations[q.conv].deleted;
            && s'.requests == s.requests[r := if owned then ClearBumped(q.conv, q.actor) else Done]
            && (if owned then s'.db == s.db.(conversations := s.db.conversations[
                                q.conv := s.db.conversations[q.conv].(version := s.db.conversations[q.conv].version + 1)])
                else s'.db == s.db)
  {
  }

  /** Cancelling by hand lists the open actions of the conversation, or those that were named. */
  lemma BulkList(s: State, r: nat, o: Oracle)
    requires r in s.requests && s.requests[r].CancelListed?
    ensures var q, s' := s.requests[r], Apply(s, Advance(r, o));
            && s'.db == s.db && s'.requests[r].Sweep? && s'.requests[r].actor == q.actor && !s'.requests[r].clearing
            && (forall id :: id in s'.requests[r].todo <==>
                  id in s.db.actions && IsOpenIn(s.db.actions[id], q.conv, q.actor) && (q.ids == {} || id in q.ids))
            && (forall id :: id in s'.requests[r].todo ==> s'.requests[r].todo[id] == s.db.actions[id].status)
  {
  }

  // ---------- staging ----------

  /** A turn that reads the conversation and later stages a change: with anything else in between,
      the change is staged exactly if the conversation was the user's own at both moments and its
      version has not moved; a change outside a conversation always is. */
  lemma StagesIff(s: State, r: nat, first: Oracle, others: seq<Step>, o: Oracle)
    requires r in s.requests && s.requests[r].Stage?
    requires forall i :: 0 <= i < |others| ==> others[i] != Crash(r) && !Own(others[i], r)
    requires o.row.userId == s.requests[r].actor && o.row.conversation == s.requests[r].conversation
    requires o.row.status == Pending && o.row.approvedBy == None && o.row.approvedAt == None && o.row.executedAt == None
    ensures var q, at := s.requests[r], Exec(Apply(s, Advance(r, first)), others);
            var end := Apply(at, Advance(r, o));
            o.pick !in at.db.actions ==>
              (o.pick in end.db.actions <==>
                 q.conversation.Some? ==>
                   var c := q.conversation.value;
                   && OwnedBy(s.db, c, q.actor) && OwnedBy(at.db, c, q.actor)
                   && at.db.conversations[c].version == s.db.conversations[c].version)
              && (o.pick in end.db.actions ==> end.db.actions[o.pick] == o.row)
  {
    hide Exec, Apply;
    var read := Apply(s, Advance(r, first));
    StageReads(s, r, first);
    OthersLeave(read, others, r);
    StageWrites(Exec(read, others), r, o);
  }

  predicate OwnedBy(db: Db, conv: nat, actor: nat) {
    conv in db.conversations && db.conversations[conv].userId == actor && !db.conversations[conv].deleted
  }

  lemma StageReads(s: State, r: nat, o: Oracle)
    requires r in s.requests && s.requests[r].Stage?
    ensures var q, read := s.requests[r], Apply(s, Advance(r, o));
            && r in read.requests
            && read.requests[r] == (if q.conversation == None then StageReady(None, q.actor, 0, q.inTurn)
                                    else if OwnedBy(s.db, q.conversation.value, q.actor)
                                    then StageReady(q.conversation, q.actor, s.db.conversations[q.conversation.value].version, q.inTurn)
                                    else Done)
  {
  }

  lemma {:induction false} OthersLeave(s: State, others: seq<Step>, r: nat)
    requires r in s.requests && forall i :: 0 <= i < |others| ==> others[i] != Crash(r) && !Own(others[i], r)
    ensures r in Exec(s, others).requests && Exec(s, others).requests[r] == s.requests[r]
  {
    if others != [] { OthersLeave(s, others[..|others| - 1], r); }
  }

  lemma StageWrites(at: State, r: nat, o: Oracle)
    requires r in at.requests && (at.requests[r].StageReady? || at.requests[r] == Done)
    requires at.requests[r].StageReady? ==> o.row.userId == at.requests[r].actor && o.row.conversation == at.requests[r].conversation
    requires o.row.status == Pending && o.row.approvedBy == None && o.row.approvedAt == None && o.row.executedAt == None
    ensures var q, end := at.requests[r], Apply(at, Advance(r, o));
            o.pick !in at.db.actions ==>
              (o.pick in end.db.actions <==>
                 q.StageReady? && (q.conversation.Some? ==>
                                     var c := q.conversation.value;
                                     OwnedBy(at.db, c, q.actor) && at.db.conversations[c].version == q.version))
              && (o.pick in end.db.actions ==> end.db.actions[o.pick] == o.row)
  {
  }

  // ---------- an action that a clear leaves open ----------

  /** A production change of user 7 in conversation 3. */
  function Change(): Action {
    Action(7, Some(3), 1, "shop", "deployment", "web", "", "", Pending, None, None, "", "", "", None)
  }

  function Answer(pick: nat): Oracle {
    Oracle(true, "dry run", 0, pick, Change(), Execution(None, None, "", "", ""))
  }

  function Quiet(): State {
    State(Db(map[], [], map[1 := "production"], true, map[3 := Conversation(7, 0, false)]), map[])
  }

  function Tables(row: Action, audits: seq<Audit>, version: nat): Db {
    Db(map[5 := row], audits, map[1 := "production"], true, map[3 := Conversation(7, version, false)])
  }

  function Staged(): seq<Audit> {
    [Audit(5, 7, EvStaged, "server dry-run preview created")]
  }

  function Submitted(): seq<Audit> {
    Staged() + [Audit(5, 7, EvSubmitted, "production change submitted for independent approval")]
  }

  /** The change is staged; its confirmation reads row and environment, then the setting; the
      conversation is cleared up to the list; the change is submitted, and the clear goes on. */
  function Turn(n: nat): seq<Step> {
    if n == 0 then [Arrive(0, Stage(Some(3), 7, false)), Advance(0, Answer(0)), Advance(0, Answer(5))]
    else if n == 1 then [Arrive(1, Confirm(5, 7)), Advance(1, Answer(0)), Advance(1, Answer(0))]
    else if n == 2 then [Advance(1, Answer(0)), Advance(1, Answer(1)), Advance(1, Answer(1))]
    else if n == 3 then [Arrive(2, Clear(3, 7)), Advance(2, Answer(0)), Advance(2, Answer(0))]
    else [Advance(1, Answer(0)), Advance(2, Answer(5)), Advance(2, Answer(0))]
  }

  /** Where each of these leads. */
  function At(n: nat): State {
    if n == 0 then Quiet()
    else if n == 1 then State(Tables(Change(), Staged(), 0), map[0 := Done])
    else if n == 2 then State(Tables(Change(), Staged(), 0), map[0 := Done, 1 := ConfirmWithEnv(5, 7, Change(), true)])
    else if n == 3 then State(Tables(Change(), Staged(), 0), map[0 := Done, 1 := ConfirmSubmit(5, 7, Change(), "dry run")])
    else if n == 4 then
      State(Tables(Change(), Staged(), 1),
            map[0 := Done, 1 := ConfirmSubmit(5, 7, Change(), "dry run"), 2 := Sweep(7, map[5 := Pending], true)])
    else
      State(Tables(Change().(status := ApprovalPending, evidence := "dry run"), Submitted(), 1),
            map[0 := Done, 1 := Done, 2 := Done])
  }

  lemma ThreeSteps(s: State, a: Step, b: Step, c: Step)
    ensures Exec(s, [a, b, c]) == Apply(Apply(Apply(s, a), b), c)
  {
    hide Apply;
    assert [a, b, c][..2] == [a, b] && [a, b][..1] == [a] && [a][..0] == [];
    assert Exec(s, [a]) == Apply(Exec(s, []), a);
    assert Exec(s, [a, b]) == Apply(Exec(s, [a]), b);
  }

  lemma TurnLeads(n: nat)
    requires n < 5
    ensures Exec(At(n), Turn(n)) == At(n + 1)
  {
    hide Exec;
    ThreeSteps(At(n), Turn(n)[0], Turn(n)[1], Turn(n)[2]);
    if n == 0 { StagesIt(); }
    else if n == 1 { ReadsIt(); }
    else if n == 2 { ChecksIt(); }
    else if n == 3 { ListsIt(); }
    else { MissesIt(); }
  }

  lemma StagesIt()
    ensures Apply(Apply(Apply(At(0), Turn(0)[0]), Turn(0)[1]), Turn(0)[2]) == At(1)
  {
  }

  lemma ReadsIt()
    ensures Apply(Apply(Apply(At(1), Turn(1)[0]), Turn(1)[1]), Turn(1)[2]) == At(2)
  {
  }

  lemma Leads(s: State, r: nat, o: Oracle, db: Db, q: Request)
    requires r in s.requests && AdvanceRequest(s.db, s.requests[r], o) == (db, q)
    ensures Apply(s, Advance(r, o)) == State(db, s.requests[r := q])
  {
  }

  lemma ChecksIt()
    ensures Apply(Apply(Apply(At(2), Turn(2)[0]), Turn(2)[1]), Turn(2)[2]) == At(3)
  {
    hide Apply, AdvanceRequest;
    var db, was := At(2).db, map[0 := Done];
    CheckSteps();
    var scoped, ready := ConfirmScoped(5, 7, Change(), true), ConfirmReady(5, 7, Change(), true, true);
    Leads(At(2), 1, Answer(0), db, scoped);
    assert At(2).requests[1 := scoped] == was[1 := scoped];
    Leads(State(db, was[1 := scoped]), 1, Answer(1), db, ready);
    assert was[1 := scoped][1 := ready] == was[1 := ready];
    Leads(State(db, was[1 := ready]), 1, Answer(1), db, ConfirmSubmit(5, 7, Change(), "dry run"));
    assert was[1 := ready][1 := ConfirmSubmit(5, 7, Change(), "dry run")] == At(3).requests;
  }

  lemma CheckSteps()
    ensures var db, scoped := At(2).db, ConfirmScoped(5, 7, Change(), true);
            var ready := ConfirmReady(5, 7, Change(), true, true);
            && AdvanceRequest(db, ConfirmWithEnv(5, 7, Change(), true), Answer(0)) == (db, scoped)
            && AdvanceRequest(db, scoped, Answer(1)) == (db, ready)
            && AdvanceRequest(db, ready, Answer(1)) == (db, ConfirmSubmit(5, 7, Change(), "dry run"))
  {
  }

  lemma ListsIt()
    ensures Apply(Apply(Apply(At(3), Turn(3)[0]), Turn(3)[1]), Turn(3)[2]) == At(4)
  {
    var was := At(3).requests;
    var arrived := Apply(At(3), Arrive(2, Clear(3, 7)));
    assert arrived == State(At(3).db, was[2 := Clear(3, 7)]);
    BumpStep();
    ListStep();
    hide Apply, AdvanceRequest;
    Leads(arrived, 2, Answer(0), At(4).db, ClearBumped(3, 7));
    Leads(State(At(4).db, was[2 := ClearBumped(3, 7)]), 2, Answer(0), At(4).db, Sweep(7, map[5 := Pending], true));
    assert arrived.requests[2 := ClearBumped(3, 7)] == was[2 := ClearBumped(3, 7)];
    assert was[2 := ClearBumped(3, 7)][2 := Sweep(7, map[5 := Pending], true)] == At(4).requests;
  }

  lemma BumpStep()
    ensures AdvanceRequest(At(3).db, Clear(3, 7), Answer(0)) == (At(4).db, ClearBumped(3, 7))
  {
    var c := At(3).db.conversations[3];
    assert At(3).db.conversations[3 := c.(version := 1)] == At(4).db.conversations;
  }

  lemma ListStep()
    ensures AdvanceRequest(At(4).db, ClearBumped(3, 7), Answer(0)) == (At(4).db, Sweep(7, map[5 := Pending], true))
  {
    assert ListedRows(At(4).db.actions, 3, 7) == map[5 := Pending];
  }

  lemma MissesIt()
    ensures Apply(Apply(Apply(At(4), Turn(4)[0]), Turn(4)[1]), Turn(4)[2]) == At(5)
  {
    hide Apply, AdvanceRequest;
    var db, was := At(5).db, map[0 := Done, 1 := Done];
    SubmissionStep();
    MissSteps();
    Leads(At(4), 1, Answer(0), db, Done);
    assert At(4).requests[1 := Done] == was[2 := Sweep(7, map[5 := Pending], true)];
    Leads(State(db, was[2 := Sweep(7, map[5 := Pending], true)]), 2, Answer(5), db, Sweep(7, map[], true));
    assert was[2 := Sweep(7, map[5 := Pending], true)][2 := Sweep(7, map[], true)] == was[2 := Sweep(7, map[], true)];
    Leads(State(db, was[2 := Sweep(7, map[], true)]), 2, Answer(0), db, Done);
    assert was[2 := Sweep(7, map[], true)][2 := Done] == At(5).requests;
  }

  lemma SubmissionStep()
    ensures AdvanceRequest(At(4).db, ConfirmSubmit(5, 7, Change(), "dry run"), Answer(0)) == (At(5).db, Done)
  {
    var row := At(4).db.actions[5].(status := ApprovalPending, evidence := "dry run");
    assert At(4).db.actions[5 := row] == At(5).db.actions;
    assert SubmitTx(At(4).db, 5, 7, "dry run") == Some(At(5).db);
  }

  lemma MissSteps()
    ensures AdvanceRequest(At(5).db, Sweep(7, map[5 := Pending], true), Answer(5)) == (At(5).db, Sweep(7, map[], true))
    ensures AdvanceRequest(At(5).db, Sweep(7, map[], true), Answer(0)) == (At(5).db, Done)
  {
    var q := Sweep(7, map[5 := Pending], true);
    assert q.todo - {5} == map[];
    assert AdvanceConversation(At(5).db, q, Answer(5)) == (At(5).db, Sweep(7, q.todo - {5}, true));
  }

  lemma Joined(s: State, first: seq<Step>, at: State, turn: seq<Step>, next: State)
    requires Exec(s, first) == at && Exec(at, turn) == next
    ensures Exec(s, first + turn) == next
  {
    ExecConcat(s, first, turn);
  }

  /** A clear from beginning to end, and in the cleared conversation the change still waits for
      approval: it was pending when it was listed, and submitted before its update. */
  lemma ClearMisses()
    ensures var upToList := Turn(0) + Turn(1) + Turn(2) + Turn(3);
            var list, end := Exec(Quiet(), upToList), Exec(Quiet(), upToList + Turn(4));
            && Initial(Quiet())
            && 2 in list.requests && list.requests[2] == Sweep(7, map[5 := Pending], true)
            && 2 in end.requests && end.requests[2] == Done
            && 5 in end.db.actions && end.db.actions[5].conversation == Some(3)
            && end.db.actions[5].status == ApprovalPending
            && 3 in end.db.conversations && end.db.conversations[3].version == 1
  {
    Reached();
    hide Exec;
  }

  lemma Reached()
    ensures var upToList := Turn(0) + Turn(1) + Turn(2) + Turn(3);
            Exec(Quiet(), upToList) == At(4) && Exec(Quiet(), upToList + Turn(4)) == At(5)
  {
    hide Exec, At, Turn, Quiet;
    ReachedSubmission();
    TurnLeads(3);
    TurnLeads(4);
    var before := Turn(0) + Turn(1) + Turn(2);
    Joined(Quiet(), before, At(3), Turn(3), At(4));
    Joined(Quiet(), before + Turn(3), At(4), Turn(4), At(5));
  }

  lemma ReachedSubmission()
    ensures Exec(Quiet(), Turn(0) + Turn(1) + Turn(2)) == At(3)
  {
    assert At(0) == Quiet();
    hide Exec, At, Turn, Quiet;
    TurnLeads(0);
    TurnLeads(1);
    TurnLeads(2);
    Joined(Quiet(), Turn(0), At(1), Turn(1), At(2));
    Joined(Quiet(), Turn(0) + Turn(1), At(2), Turn(2), At(3));
  }
}
