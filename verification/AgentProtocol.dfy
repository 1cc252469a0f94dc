/** The approval protocol as a state machine. Every HTTP request is a small program whose
    reads and transactions are separate steps, and the steps of all requests interleave in
    any order. Whatever a request learns from tables or services outside the model (roles,
    grants, evidence, the executor) comes from an arbitrary `Oracle` value. */
module AgentProtocol {
  import opened Wrappers
  import opened AgentActions

  datatype Request =
    // AgentConfirmAction
    | Confirm(id: nat, actor: nat)
    | ConfirmWithRow(id: nat, actor: nat, row: Action)
    | ConfirmWithEnv(id: nat, actor: nat, row: Action, production: bool)
    | ConfirmScoped(id: nat, actor: nat, row: Action, production: bool)
    | ConfirmReady(id: nat, actor: nat, row: Action, production: bool, dual: bool)
    | ConfirmSubmit(id: nat, actor: nat, row: Action, proof: string)
    | ConfirmClaim(id: nat, actor: nat, row: Action, production: bool, expected: Status, evidence: Option<string>)
    | ConfirmRun(id: nat, actor: nat, row: Action, production: bool)
    // AgentDecideChange
    | Decide(id: nat, actor: nat)
    | DecideWithRow(id: nat, actor: nat, row: Action)
    | DecideReady(id: nat, actor: nat, owner: nat)
    // clearConversationContent and CancelPendingActions
    | Clear(conv: nat, actor: nat)
    | ClearBumped(conv: nat, actor: nat)
    | CancelListed(conv: nat, actor: nat, ids: set<nat>)
    | Sweep(actor: nat, todo: map<nat, Status>, clearing: bool)
    // AgentExecute and staging from inside an agent turn
    | Stage(conversation: Option<nat>, actor: nat, inTurn: bool)
    | StageReady(conversation: Option<nat>, actor: nat, version: nat, inTurn: bool)
    | Done

  predicate Arriving(q: Request) {
    q.Confirm? || q.Decide? || q.Clear? || q.CancelListed? || q.Stage?
  }

  datatype Oracle = Oracle(ok: bool, text: string, now: nat, pick: nat, row: Action, execution: Execution)

  datatype State = State(db: Db, requests: map<nat, Request>)

  datatype Step =
    | Arrive(r: nat, q: Request)
    | Advance(r: nat, o: Oracle)
    | Crash(r: nat)
    | CancelChange(id: nat, actor: nat)
    | DropIncomplete(id: nat)
    | SetDualApproval(enabled: bool)
    | SetEnvironment(cluster: nat, environment: string)
    | CreateConversation(conv: nat, owner: nat)
    | DeleteConversation(conv: nat)

  // ---------- the request programs ----------

  function AdvanceConfirm(db: Db, q: Request, o: Oracle): (Db, Request) {
    match q
    case Confirm(id, actor) =>
      if id in db.actions then (db, ConfirmWithRow(id, actor, db.actions[id])) else (db, Done)
    case ConfirmWithRow(id, actor, row) =>
      if row.cluster !in db.environments then (db, Done)
      else
        var production := IsProduction(db.environments[row.cluster]);
        if production && row.userId != actor then (db, Done)
        else (db, ConfirmWithEnv(id, actor, row, production))
    case ConfirmWithEnv(id, actor, row, production) =>
      // o.pick stands for the administrator test, o.ok for the scope test
      if row.userId != 0 && row.userId != actor && o.pick == 0 then (db, Done)
      else if !o.ok then (db, Done)
      else (db, ConfirmScoped(id, actor, row, production))
    case ConfirmScoped(id, actor, row, production) =>
      (db, ConfirmReady(id, actor, row, production, production && db.dualApproval))
    case ConfirmReady(id, actor, row, production, dual) =>
      if production && row.status == Pending then
        if !o.ok then (db, Done)
        else if dual then (db, ConfirmSubmit(id, actor, row, o.text))
        else (db, ConfirmClaim(id, actor, row, production, Pending, Some(o.text)))
      else if production && row.status == Approved then
        if row.approvedBy == None || row.approvedBy == Some(row.userId) then (db, Done)
        else (db, ConfirmClaim(id, actor, row, production, Approved, None))
      else if row.status == Pending then (db, ConfirmClaim(id, actor, row, production, Pending, None))
      else (db, Done)
    case ConfirmSubmit(id, actor, row, proof) =>
      (match SubmitTx(db, id, actor, proof) case Some(db') => (db', Done) case None => (db, Done))
    case ConfirmClaim(id, actor, row, production, expected, evidence) =>
      (match ClaimTx(db, id, actor, expected, evidence)
       case Some(db') =>
         (db', ConfirmRun(id, actor, if evidence.Some? then row.(evidence := evidence.value) else row, production))
       case None => (db, Done))
    case ConfirmRun(id, actor, row, production) =>
      var (saved, event, detail) := Finish(row, production, o.execution, o.now);
      (OutcomeTx(db, id, saved, actor, event, detail), Done)
    case _ => (db, q)
  }

  function AdvanceDecide(db: Db, q: Request, o: Oracle): (Db, Request) {
    match q
    case Decide(id, actor) =>
      if id in db.actions && db.actions[id].status == ApprovalPending
      then (db, DecideWithRow(id, actor, db.actions[id])) else (db, Done)
    case DecideWithRow(id, actor, row) =>
      if actor == 0 || actor == row.userId || !o.ok then (db, Done) else (db, DecideReady(id, actor, row.userId))
    case DecideReady(id, actor, owner) =>
      (match DecideTx(db, id, actor, o.ok, o.now, o.text) case Some(db') => (db', Done) case None => (db, Done))
    case _ => (db, q)
  }

  function AdvanceConversation(db: Db, q: Request, o: Oracle): (Db, Request) {
    match q
    case Clear(conv, actor) =>
      (match BumpTx(db, conv, actor) case Some(db') => (db', ClearBumped(conv, actor)) case None => (db, Done))
    case ClearBumped(conv, actor) =>
      (db, Sweep(actor, ListedRows(db.actions, conv, actor), true))
    case CancelListed(conv, actor, ids) =>
      var listed := ListedRows(db.actions, conv, actor);
      (db, Sweep(actor, if ids == {} then listed else listed - (listed.Keys - ids), false))
    case Sweep(actor, todo, clearing) =>
      if o.pick in todo
      then (SweepRowTx(db, o.pick, actor, todo[o.pick], clearing), Sweep(actor, todo - {o.pick}, clearing))
      else if todo == map[] then (db, Done) else (db, q)
    case _ => (db, q)
  }

  function AdvanceStage(db: Db, q: Request, o: Oracle): (Db, Request) {
    match q
    case Stage(conversation, actor, inTurn) =>
      if conversation == None then (db, StageReady(None, actor, 0, inTurn))
      else if Owns(db, conversation.value, actor)
      then (db, StageReady(conversation, actor, db.conversations[conversation.value].version, inTurn))
      else (db, Done)
    case StageReady(conversation, actor, version, inTurn) =>
      if o.row.userId != actor || o.row.conversation != conversation then (db, q)
      else
        (match StageTx(db, o.pick, o.row, version, inTurn && o.ok) case Some(db') => (db', Done) case None => (db, Done))
    case _ => (db, q)
  }

  function AdvanceRequest(db: Db, q: Request, o: Oracle): (Db, Request) {
    if q.Decide? || q.DecideWithRow? || q.DecideReady? then AdvanceDecide(db, q, o)
    else if q.Clear? || q.ClearBumped? || q.CancelListed? || q.Sweep? then AdvanceConversation(db, q, o)
    else if q.Stage? || q.StageReady? then AdvanceStage(db, q, o)
    else AdvanceConfirm(db, q, o)
  }

  // ---------- the machine ----------

  /** One step; a step that is not possible in `s` leaves it unchanged. */
  function Apply(s: State, step: Step): State {
    match step
    case Arrive(r, q) =>
      if r !in s.requests && Arriving(q) then s.(requests := s.requests[r := q]) else s
    case Advance(r, o) =>
      if r in s.requests then
        var (db, q) := AdvanceRequest(s.db, s.requests[r], o);
        State(db, s.requests[r := q])
      else s
    case Crash(r) => if r in s.requests then s.(requests := s.requests[r := Done]) else s
    case CancelChange(id, actor) =>
      (match CancelTx(s.db, id, actor) case Some(db) => s.(db := db) case None => s)
    case DropIncomplete(id) => s.(db := DropTx(s.db, id))
    case SetDualApproval(enabled) => s.(db := s.db.(dualApproval := enabled))
    case SetEnvironment(cluster, environment) =>
      s.(db := s.db.(environments := s.db.environments[cluster := environment]))
    case CreateConversation(conv, owner) =>
      if conv in s.db.conversations then s
      else s.(db := s.db.(conversations := s.db.conversations[conv := Conversation(owner, 0, false)]))
    case DeleteConversation(conv) =>
      if conv !in s.db.conversations then s
      else s.(db := s.db.(conversations := s.db.conversations[conv := s.db.conversations[conv].(deleted := true)]))
  }

  function Exec(s: State, steps: seq<Step>): State {
    if steps == [] then s else Apply(Exec(s, steps[..|steps| - 1]), steps[|steps| - 1])
  }

  /** No staged change yet; settings, clusters and conversations are arbitrary. */
  predicate Initial(s: State) {
    s.db.actions == map[] && s.db.audits == [] && s.requests == map[]
  }
}
