/** The tables behind staged cluster changes and the transactions that write them.
    A transaction is a function from the database before to the database after it
    commits; `None` is a transaction that was rolled back. */
module AgentActions {
  import opened Wrappers

  datatype Status =
    | Pending
    | ApprovalPending
    | Approved
    | Executing
    | Executed
    | Failed
    | RolledBack
    | RollbackPending
    | Rejected
    | Cancelled

  /** One row of agent_actions. `content` stands for the columns no statement updates. */
  datatype Action = Action(
    userId: nat,
    conversation: Option<nat>,
    cluster: nat,
    namespace: string,
    resourceType: string,
    resourceName: string,
    content: string,
    evidence: string,
    status: Status,
    approvedBy: Option<nat>,
    approvedAt: Option<nat>,
    observation: string,
    rollbackResult: string,
    result: string,
    executedAt: Option<nat>)

  datatype Event =
    | EvStaged
    | EvSubmitted
    | EvApproved
    | EvRejected
    | EvCancelled
    | EvExecuting
    | EvExecuted
    | EvFailed
    | EvObserved
    | EvRollback

  datatype Audit = Audit(action: nat, actor: nat, event: Event, detail: string)

  /** `deleted` keeps a removed conversation's id from being used again. */
  datatype Conversation = Conversation(userId: nat, version: nat, deleted: bool)

  datatype Db = Db(
    actions: map<nat, Action>,
    audits: seq<Audit>,
    environments: map<nat, string>,
    dualApproval: bool,
    conversations: map<nat, Conversation>)

  /** The statuses a requester may still cancel. */
  predicate Open(s: Status) {
    s == Pending || s == ApprovalPending || s == Approved
  }

  /** Statuses reached only through a claim. */
  predicate Ran(s: Status) {
    s == Executing || Outcome(s)
  }

  predicate Outcome(s: Status) {
    s == Executed || s == Failed || s == RolledBack || s == RollbackPending
  }

  function Rank(s: Status): nat {
    match s
    case Pending => 0
    case ApprovalPending => 1
    case Approved => 2
    case Executing => 3
    case _ => 4
  }

  predicate IsProduction(environment: string) {
    environment == "" || environment == "production"
  }

  // ---------- transactions ----------

  function Write(db: Db, id: nat, row: Action, rows: seq<Audit>): Db {
    db.(actions := db.actions[id := row], audits := db.audits + rows)
  }

  function SubmitTx(db: Db, id: nat, actor: nat, evidence: string): Option<Db> {
    if id in db.actions && db.actions[id].status == Pending && db.actions[id].userId == actor then
      Some(Write(db, id, db.actions[id].(status := ApprovalPending, evidence := evidence),
                 [Audit(id, actor, EvSubmitted, "production change submitted for independent approval")]))
    else None
  }

  function DecideTx(db: Db, id: nat, actor: nat, approve: bool, now: nat, reason: string): Option<Db> {
    if id !in db.actions || db.actions[id].status != ApprovalPending then None
    else if approve then
      Some(Write(db, id, db.actions[id].(status := Approved, approvedBy := Some(actor), approvedAt := Some(now)),
                 [Audit(id, actor, EvApproved, reason)]))
    else
      Some(Write(db, id, db.actions[id].(status := Rejected), [Audit(id, actor, EvRejected, reason)]))
  }

  function CancelTx(db: Db, id: nat, actor: nat): Option<Db> {
    if id in db.actions && db.actions[id].userId == actor && Open(db.actions[id].status) then
      Some(Write(db, id, db.actions[id].(status := Cancelled),
                 [Audit(id, actor, EvCancelled, "requester cancelled staged change")]))
    else None
  }

  /** The claim: evidence is written only by a production claim made from `pending`. */
  function ClaimTx(db: Db, id: nat, actor: nat, expected: Status, evidence: Option<string>): Option<Db> {
    if id in db.actions && db.actions[id].status == expected then
      var row := db.actions[id].(status := Executing);
      Some(Write(db, id, if evidence.Some? then row.(evidence := evidence.value) else row,
                 [Audit(id, actor, EvExecuting, "confirmed staged change")]))
    else None
  }

  /** The outcome: an unconditional save of every column of `row`. */
  function OutcomeTx(db: Db, id: nat, row: Action, actor: nat, event: Event, detail: string): Db {
    Write(db, id, row,
          [Audit(id, actor, event, detail)]
          + (if row.observation != "" then [Audit(id, actor, EvObserved, row.observation)] else [])
          + (if row.rollbackResult != "" then [Audit(id, actor, EvRollback, row.rollbackResult)] else []))
  }

  /** One iteration of the loop shared by clearing a conversation and cancelling its
      pending actions: a compare-and-swap from the status seen by the list read.
      Only clearing repeats the owner in its condition. Losing the race is not an error. */
  function SweepRowTx(db: Db, id: nat, actor: nat, seen: Status, clearing: bool): Db {
    var detail := if clearing then "conversation cleared or deleted" else "requester cancelled staged change";
    if id in db.actions && db.actions[id].status == seen && (clearing ==> db.actions[id].userId == actor) then
      Write(db, id, db.actions[id].(status := Cancelled), [Audit(id, actor, EvCancelled, detail)])
    else db
  }

  predicate Listed(row: Action, conversation: nat, actor: nat) {
    row.conversation == Some(conversation) && row.userId == actor && Open(row.status)
  }

  /** The list read of a clear: each open action of this owner and conversation, with its
      status at the time. */
  function ListedRows(rows: map<nat, Action>, conversation: nat, actor: nat): (m: map<nat, Status>)
    ensures forall k :: k in m <==> k in rows && Listed(rows[k], conversation, actor)
    ensures forall k :: k in m ==> m[k] == rows[k].status && rows[k].userId == actor && Open(m[k])
  {
    map k | k in rows && Listed(rows[k], conversation, actor) :: rows[k].status
  }

  predicate Owns(db: Db, conversation: nat, actor: nat) {
    && conversation in db.conversations
    && db.conversations[conversation].userId == actor
    && !db.conversations[conversation].deleted
  }

  /** Bumping the version of a conversation that `actor` owns. */
  function BumpTx(db: Db, conversation: nat, actor: nat): Option<Db> {
    if Owns(db, conversation, actor) then
      var c := db.conversations[conversation];
      Some(db.(conversations := db.conversations[conversation := c.(version := c.version + 1)]))
    else None
  }

  /** The pending rows that staging the same creation again replaces. */
  predicate Superseded(earlier: Action, row: Action) {
    && row.conversation.Some?
    && earlier.conversation == row.conversation
    && earlier.userId == row.userId
    && earlier.cluster == row.cluster
    && earlier.status == Pending
    && earlier.resourceType == row.resourceType
    && earlier.resourceName == row.resourceName
    && earlier.namespace == row.namespace
  }

  /** A freshly staged row. */
  predicate Fresh(row: Action) {
    row.status == Pending && row.approvedBy == None && row.approvedAt == None && row.executedAt == None
  }

  /** The earlier rows, with those that staging `row` replaces cancelled. */
  function Kept(rows: map<nat, Action>, row: Action, supersede: bool): (kept: map<nat, Action>)
    ensures kept.Keys == rows.Keys
    ensures forall k :: k in rows ==>
              kept[k] == if supersede && Superseded(rows[k], row) then rows[k].(status := Cancelled) else rows[k]
  {
    map k | k in rows :: if supersede && Superseded(rows[k], row) then rows[k].(status := Cancelled) else rows[k]
  }

  /** Insert a staged row under the conversation's version check. Staging from inside an
      agent turn first cancels the rows it replaces, without an audit row. */
  function StageTx(db: Db, id: nat, row: Action, version: nat, supersede: bool): Option<Db> {
    if id in db.actions || !Fresh(row) then None
    else if row.conversation.Some?
            && !(Owns(db, row.conversation.value, row.userId)
                 && db.conversations[row.conversation.value].version == version) then None
    else
      Some(db.(actions := Kept(db.actions, row, supersede)[id := row],
               audits := db.audits + [Audit(id, row.userId, EvStaged, "server dry-run preview created")]))
  }

  /** Dropping an incomplete deployment at the end of an agent turn: no audit row either. */
  function DropTx(db: Db, id: nat): Db {
    if id in db.actions && db.actions[id].status == Pending then
      db.(actions := db.actions[id := db.actions[id].(status := Cancelled)])
    else db
  }

  // ---------- the outcome of an execution ----------

  /** What the executor returned: an error or not, a result or none, and the two texts
      only the observed production path fills in. */
  datatype Execution = Execution(
    error: Option<string>,
    success: Option<bool>,
    message: string,
    observation: string,
    rollback: string)

  predicate HasPrefix(s: string, prefix: string) {
    prefix <= s
  }

  /** The row that AgentConfirmAction saves after execution, the event and its detail. */
  function Finish(row: Action, production: bool, x: Execution, now: nat): (r: (Action, Event, string)) {
    var observed := row.(observation := if production then x.observation else "",
                         rollbackResult := if production then x.rollback else "");
    if x.error.Some? then
      var status := if HasPrefix(observed.rollbackResult, "rollback submitted") then RollbackPending
                    else if HasPrefix(observed.rollbackResult, "rollback verified") then RolledBack
                    else Failed;
      (observed.(status := status, result := x.error.value), EvFailed, x.error.value)
    else if x.success != Some(true) then
      var msg := if x.success.Some? then x.message else "execution failed";
      (observed.(status := Failed, result := msg), EvFailed, msg)
    else
      (observed.(status := Executed, result := x.message, executedAt := Some(now)), EvExecuted, x.message)
  }
}
