# KubePilot protocol verification

A Dafny model of the parts of KubePilot in which correctness depends on several requests,
processes or pieces of text coming together, with proofs of what those parts promise. Verify
everything with `dafny verify dfyconfig.toml`.

## What is modelled

* **Agent change approval** (`AgentActions`, `AgentProtocol`, `AgentInvariant`, `AgentSafety`,
  `AgentTheorems`, `AgentPolicy`, `AgentReplay`, `AgentClearing`, `AgentServing`, `AgentHandlers`).
  A staged cluster change moves through pending, approval_pending, approved and executing to an
  outcome, or is rejected or cancelled. The database is a map of actions with an append-only audit
  table; each transaction is a function on it. `AgentProtocol` is a state machine in which every
  request is a program whose reads and transactions are separate steps, interleaved arbitrarily with
  those of all other requests, with changes of the approval setting and of cluster environments, and
  with requests that die half-way. Roles, scopes, evidence and the executor answer arbitrarily.
  `AgentHandlers` has the same transactions and handlers as statements over fields, with other
  requests at work before each step of a confirmation or a decision; `AgentServing` shows that such
  a handler is a run of the machine. `AgentClearing` follows a clear from the read of its list to
  its end.
* **Module registry and leader election** (`Names`, `TopoSort`, `Lifecycle`, `LeaderElection`).
  Kahn's algorithm with a sorted queue; ordered start and stop with partial failures; and N
  replicas that compete for one PostgreSQL session advisory lock while sessions die, answers are
  lost and unlocks fail.
* **Cron indexes** (`CronIndex`, `BackupScheduler`, `InspectionScheduler`). Two maps that shadow the
  live cron table and are reconciled with the database.
* **Rate limiter** (`RateLimiter`). The in-memory limiter with its cleanup pass.
* **Second-factor codes** (`TwoFactor`). Concurrent logins that consume backup codes by
  compare-and-swap, interleaved with new setups.
* **Agent event stream** (`EventStream`). The server's printer and the browser's incremental parser.
  The format is a subset of server-sent events, section 9.2 of the WHATWG HTML Living Standard.
* **Namespace authorization** (`NamespaceAuthz`). The precomputed namespace filter against the
  pointwise check, over an arbitrary grant table.
* **Message translation** (`AnthropicMessages`) and the **single default LLM configuration**
  (`LlmDefault`).

Cryptography, JSON, cron expressions, lower-casing and key decryption are function parameters.
Where a law needs something of such a parameter, its lemma says so in a `requires`: the JSON
decoder inverts the encoder, encoded events are one line in braces, the clock does not go back.

Some properties one would expect do not hold of the code, or not for all inputs. Each is stated with
the exact condition under which it holds:

* Replaying an action's audit rows gives its status unless a step cancelled it silently. Two places
  cancel a pending action without writing an audit row: dropping an incomplete deployment at the end
  of an agent turn (`internal/service/aiops/agent_stream.go:699`) and staging the same creation again
  (`internal/service/aiops/tools.go:1005`). See `ReplayIffNotSilenced` and `ReplayCanFail`.
* At most one replica runs leader-only modules only among those whose lock session is alive. A
  replica that has lost its session keeps its modules running until its next ping, and another can
  be elected meanwhile: exactly when no session of another replica holds the lock. See
  `AtMostOneLiveLeader`, `SecondLeaderIff` and `TwoLeadersAfterSessionLoss`.
* Switching dual approval on does not reach a confirmation that read the setting, or the cluster's
  environment, before: it can still run its change unapproved. See `NothingRunsUnapproved` and
  `RunsUnapprovedIff`.
* Clearing a conversation cancels a listed action only if no other request has moved its status
  since it was listed; one that is submitted meanwhile still waits for approval afterwards. See
  `ClearSettles` and `ClearMisses`.
* The configured rate bounds the requests of a window only if it is at least one. See
  `RateIsBoundIff`.
* A namespace filter agrees with the check on every list only if the request named no namespace, or
  the caller is unrestricted. See `FilterExactlyWhen`.

## Model

| member | source | states |
|---|---|---|
| AgentTheorems.IndependentApproval | internal/handler/aiops/handler.go:858-906 | Over every interleaving: an action that ever waited for approval and has run carries an approver other than its requester, was claimed by its requester, and an 'approved' row by that approver precedes every 'executing' row, however the setting and the environments changed meanwhile. |
| AgentPolicy.NothingRunsUnapproved | internal/handler/aiops/handler.go:861-891 | From any position of any run on, for as long as dual approval is on and the cluster is a production one: an action on it that had not run by then, and that no confirmation under way had already cleared to run, is approved by somebody other than its requester, before its claim, if it runs. |
| AgentPolicy.NothingEverRunsUnapproved | internal/handler/aiops/handler.go:861-891 | With the setting on and the cluster a production one from the start, nothing has to be excepted. |
| AgentPolicy.RunsUnapprovedIff | internal/handler/aiops/handler.go:834-891 | The exception is exact: in a reachable state in which both hold, a change on the cluster that has not run can still run unapproved, with both holding all along, if and only if it is pending and a confirmation under way has read the environment or the setting before and cleared it. |
| AgentPolicy.PolicyAlways | internal/handler/aiops/handler.go:834-891 | From any reachable state on, while both hold: a change that has not run unapproved, and that no confirmation under way has cleared while it is pending, stays so. |
| AgentTheorems.OutcomeLosesNothing | internal/handler/aiops/change.go:356-376 | The unconditional full-row save, made from a snapshot read before the claim, changes no column but status, result, observation, rollback_result and executed_at, and no other row. |
| AgentTheorems.StampedIffExecuted | internal/handler/aiops/handler.go:951-955 | In every reachable state an action has a time of execution if and only if its status is executed. |
| AgentTheorems.AtMostOneClaim | internal/handler/aiops/handler.go:893-911 | Over a whole run an action is moved to executing exactly once if it ran and never otherwise, and its status is written at most four times. |
| AgentTheorems.OneClaimRow | internal/handler/aiops/handler.go:893-906 | The audit table never holds two 'executing' rows of one action. |
| AgentTheorems.StepOrder | internal/handler/aiops/change.go:253-262 | Every step leaves a status alone or raises its rank; outcomes come only from executing, and executing ends only in an outcome. |
| AgentTheorems.FinishedStays | internal/handler/aiops/change.go:275-290 | Outcomes, rejections and cancellations are absorbing: the whole row never changes again in any continuation. |
| AgentTheorems.NewRowIsPending | internal/handler/aiops/handler.go:1048-1085 | A row that appears is pending, whatever step made it appear. |
| AgentTheorems.SweepChangesOnlyWhatItListed | internal/handler/aiops/conversation.go:304-318 | With other requests interleaved: one update of a clear cancels its row, with exactly one 'cancelled' row in its whole log, only if the row still has the listed status, and leaves every other row as the others put it. |
| AgentClearing.ClearSettles | internal/handler/aiops/conversation.go:304-318 | Over a whole clear, with anything else interleaved: every listed action gets an update of its own, which cancels it, for good and with one audit row, if and only if no step of another request has moved its status since it was listed. It is open after that update exactly if such a step moved it to another open status, and open at the end only if one moved it. |
| AgentClearing.FindUpdate | internal/handler/aiops/conversation.go:307-313 | An action leaves the list of a clear by its own update and in no other way. |
| AgentClearing.ClearCancelsNothingElse | internal/handler/aiops/conversation.go:304-318 | With anything else interleaved, what a clear cancels was an open action of this owner and conversation when it was listed, and is cancelled by its own update. |
| AgentClearing.ClearBegins | internal/handler/aiops/conversation.go:295-303 | A clear goes on exactly for the owner of a conversation that is not deleted, whose version it raises by one. |
| AgentClearing.BulkList | internal/service/aiops/agent_stream.go:361-372 | Cancelling by hand lists exactly the open actions of the caller in the conversation, or those of them that were named. |
| AgentClearing.ClearMisses | internal/handler/aiops/conversation.go:304-318 | A concrete run of a whole clear after which a pending action, submitted between the read of the list and its update, still waits for approval in the cleared conversation. |
| AgentTheorems.StaleTurnStagesNothing | internal/service/aiops/conversation_run.go:39-58 | A turn that read the conversation's version before a clear can never stage a change afterwards. |
| AgentClearing.StagesIff | internal/service/aiops/conversation_run.go:29-58 | With anything in between, a turn that has read its conversation stages its change if and only if the conversation was the user's own at both moments and its version has not moved; the row staged is the one given. |
| AgentSafety.InvAlways | internal/handler/aiops/handler.go:817-968 | The inductive invariant holds after every run: each action's audit log has one of the shapes its status allows, every snapshot a request holds is an earlier version of the row, and no two requests run one action. |
| AgentSafety.StepEffect | internal/handler/aiops/change.go:161-173 | Any step either extends the tables, never touching a row being executed, or saves the outcome of the one row its request claimed. |
| AgentSafety.RunLater | internal/handler/aiops/change.go:275-299 | Along a run rows only evolve, audit rows are never lost and context versions never fall. |
| AgentReplay.ReplayIffNotSilenced | internal/handler/aiops/change.go:356-376 | Replaying an action's audit rows from 'staged' gives its status, up to the failures that share one event, if and only if no step of the run cancelled it silently; after a silent cancellation it gives pending. |
| AgentReplay.OneRowPerChange | internal/handler/aiops/change.go:253-264 | Every step adds exactly one lifecycle row for each status change and none otherwise, but for the two silent cancellations. |
| AgentReplay.UnrecordedIffSilenced | internal/service/aiops/tools.go:1003-1015 | An action is cancelled with only its 'staged' row in every run in which a step silenced it, and in no other. |
| AgentReplay.ReplayCanFail | internal/service/aiops/agent_stream.go:690-703 | A concrete run, in which an agent turn stages a deployment and drops it for want of mounts: the audit rows say pending while the action is cancelled. |
| AgentHandlers.Handler.AgentConfirmAction | internal/handler/aiops/handler.go:817-968 | For every choice of steps that other requests take before each of its seven: the handler leaves exactly the state that the machine's confirmation reaches by those steps. It answers not found, bad request or forbidden exactly when the row, environment and setting stored right before its reads say so; it submits or runs exactly when they allow it and the stored status is still the one it read; what it reports is stored; and it reports 'executed' exactly when the executor reported success. |
| AgentHandlers.Handler.ReadForConfirm | internal/handler/aiops/handler.go:827-867 | Its steps are the machine's; environment and setting are those stored right before it reads them, a missing cluster is a bad request, and on a known one it refuses exactly the callers who may not act on that row. |
| AgentHandlers.Handler.SubmitOrExecute | internal/handler/aiops/handler.go:868-906 | Its steps are the machine's. A change is submitted exactly if it is a pending production change with evidence while approval is on, run exactly if it is pending or independently approved otherwise, each only if its stored status has not moved meanwhile; forbidden exactly without an independent approver. |
| AgentHandlers.Handler.ClaimAndExecute | internal/handler/aiops/handler.go:892-968 | Its steps are the machine's. It runs exactly when the status stored right before the claim is still the expected one; the stored row ends as the claimed row with its outcome columns saying what the executor answered. |
| AgentHandlers.Handler.ExecuteClaimed | internal/handler/aiops/handler.go:912-968 | Its step is the machine's, and with others at work during the execution the row saved is the claimed one, with its outcome columns saying what the executor answered. |
| AgentHandlers.Handler.RecordActionOutcome | internal/handler/aiops/change.go:356-376 | The saved row replaces the stored one; the audit rows added are the outcome's and then one for each non-empty note. |
| AgentHandlers.Handler.SubmitActionForApproval | internal/handler/aiops/change.go:161-173 | It succeeds exactly on the actor's own pending row, which then waits for approval with the evidence, with one audit row; otherwise nothing changes. |
| AgentHandlers.Handler.AgentDecideChange | internal/handler/aiops/change.go:220-273 | For every choice of steps that other requests take before each of its three, the state it leaves is the machine's, and each answer is given exactly when it must: a decision is recorded if and only if its author may review the very change that was read, did not request it, and it still waits when the update comes; then it is in the row and in the last audit row. |
| AgentHandlers.CanReviewIff | internal/handler/aiops/change.go:199-218 | The reviewers of a change are exactly the other users who are administrators or hold a grant to write, or to administer, on its cluster in its namespace or in all. |
| AgentHandlers.Handler.RecordDecision | internal/handler/aiops/change.go:253-264 | It succeeds exactly on a row that waits for approval: an approval stores status, approver and time, a rejection the status alone, each with its audit row; otherwise nothing changes. |
| AgentHandlers.Handler.AgentCancelChange | internal/handler/aiops/change.go:275-293 | It succeeds exactly on the actor's own row that is pending, waiting or approved, which is cancelled with one audit row; otherwise nothing changes. |
| AgentHandlers.Handler.Claim | internal/handler/aiops/handler.go:893-907 | It succeeds exactly at the expected status: the row is executing, with the evidence if there is any, with one audit row; otherwise nothing changes. |
| AgentHandlers.Handler.StageChange | internal/handler/aiops/handler.go:1077-1085 | It succeeds exactly for a new id and, in a conversation, one that is the user's own and at the version that was read: the row and its 'staged' audit row; otherwise nothing changes. |
| AgentHandlers.Handler.ClearConversationContent | internal/handler/aiops/conversation.go:295-319 | Undisturbed, for the owner of a conversation that is not deleted: the version rises by one, exactly the rows of that owner and conversation that are pending, waiting or approved are cancelled, with one audit row each, and nothing else changes; for anybody else nothing does. |
| AgentHandlers.CancelsLog | internal/handler/aiops/conversation.go:314-316 | The rows a clear adds put exactly one cancellation in the log of each cancelled action and nothing in any other log. |
| AgentHandlers.OthersKeepRely | internal/handler/aiops/handler.go:893-911 | Every step of every other request keeps to what the handlers rely on: rows only evolve, logs stay well formed, a claimed row is left alone. |
| AgentHandlers.OthersRunKeepsRely | internal/handler/aiops/handler.go:893-911 | So does any number of such steps, and the request stays where it was. |
| AgentServing.ServedIsRun | internal/handler/aiops/handler.go:817-968 | Serving a request after any run, with the others' steps in between, is one longer run of the machine; so every result about runs holds of the handlers. |
| AgentInvariant.FinishRow | internal/handler/aiops/handler.go:920-955 | What is saved is the claimed row with its outcome columns filled in from the executor's answer: executed exactly on a success without an error, with the time of execution; after an error rolled back, rollback pending or failed, exactly by how the rollback text of a production change begins; failed otherwise; the result is the error, the message or 'execution failed'; the notes are empty off production. The event is 'executed' exactly for an executed row. |
| AgentInvariant.OutcomeLogs | internal/handler/aiops/change.go:356-376 | Saving an outcome adds one lifecycle row to the log of its action; the observation and rollback notes add none. |
| TopoSort.TopoSort | internal/module/registry.go:91-136 | It succeeds exactly when every dependency is present and there is no cycle; then every module is there once, after its dependencies, duplicates in the lists included, and at every position stands the ready module whose name sorts first; a cycle error means a cycle exists. |
| TopoSort.LexicographicallyLeast | internal/module/registry.go:110-131 | The result is the least of all dependency orders: where another one first differs, the name here is a proper beginning of the name there, or has the smaller character where the two first differ. |
| Names.BeforeIff | internal/module/registry.go:99-99 | The order of the names is that of sort.Strings: a proper beginning comes first, and else the first different character decides. |
| TopoSort.GreedyIsUnique | internal/module/registry.go:95-99 | Hence it does not depend on the order in which Go walks its maps. |
| TopoSort.OrderedIsAcyclic | internal/module/registry.go:132-134 | A dependency order exists only for graphs without missing dependencies and cycles. |
| TopoSort.NothingReady | internal/module/registry.go:132-134 | When the queue runs empty before all modules are out, what is left holds a cycle. |
| TopoSort.BuildGraph | internal/module/registry.go:100-109 | The in-degrees and reverse lists describe the dependency lists with multiplicity, or a missing dependency is named. |
| TopoSort.Release | internal/module/registry.go:122-130 | Lowering the counts occurrence by occurrence queues each dependent once, exactly when its last dependency is out. |
| TopoSort.ResolveEnabled | internal/module/registry.go:73-89 | The same for the enabled modules only. |
| Lifecycle.FullOrderSorted | internal/module/registry.go:182-194 | Starting everywhere-modules before leader-only ones keeps every dependency in order but that of an everywhere-module on a leader-only one. |
| Lifecycle.ObeysAt | internal/module/registry.go:175-231 | In a well-formed log every start finds what it needs running and every stop finds nothing running that needs it. |
| Lifecycle.Registry.constructor | internal/module/registry.go:175-186 | A fresh registry over a resolved order is valid, with nothing running. |
| Lifecycle.UpToFailureIs | internal/module/registry.go:182-194 | What gets started is the one beginning of the list in which no hook fails and after which nothing is left or the next hook fails. |
| Lifecycle.Registry.Start | internal/module/registry.go:175-208 | It fails exactly if some everywhere-module's start hook fails or the database does while there are leader-only modules. The modules before the first failure are started in order; on a failure exactly those are stopped again in reverse, else all stay running. Modules still listed from an earlier start are forgotten, and a new epoch of the log begins. |
| Lifecycle.Registry.Stop | internal/module/registry.go:210-231 | After the leader loop has ended, everything started is stopped in reverse start order; after a timeout nothing is stopped. |
| Lifecycle.Registry.ServeLeader | internal/module/leader.go:39-74 | A term starts the leader's modules up to the first whose hook fails, and stops exactly those in reverse, whether a start fails or the connection is lost. |
| Lifecycle.Registry.RunLeader | internal/module/leader.go:15-37 | The log grows by one term for each attempt that gets the lock and by nothing for any other: the modules before that attempt's first failure started in order and stopped in reverse, before the next term begins. |
| LeaderElection.LockIsExclusive | internal/module/leader.go:17-24 | In every run of N replicas at most one session holds the lock. |
| LeaderElection.LeaderHoldsLock | internal/module/leader.go:39-58 | A replica that runs a leader-only module under a live session holds the lock with that session. |
| LeaderElection.AtMostOneLiveLeader | internal/module/leader.go:13-37 | Hence two replicas run leader-only modules at once only while one of them has lost the session it was elected under. |
| LeaderElection.SecondLeaderIff | internal/module/leader.go:17-58 | Exactly when: beside a replica that runs leader-only modules, one that has not started or is between two attempts can come to run them too, by its own steps alone, if and only if no session of another replica holds the lock. |
| LeaderElection.LiveLeaderShutsOut | internal/module/leader.go:13-37 | A leader whose session is alive therefore shuts every such replica out. |
| LeaderElection.TwoLeadersAfterSessionLoss | internal/module/leader.go:61-72 | A concrete run in which two lead, after the first has lost its session. |
| LeaderElection.ActiveMeansAllStarted | internal/module/leader.go:52-59 | leaderActive implies that every leader-only module was started in this term and none stopped. |
| LeaderElection.ClosingProgress | internal/module/registry.go:210-231 | In every reachable cluster a replica that was told to stop gets there: whatever step comes next, with any answers of hooks and database, it has fewer acts left or is as it was. |
| LeaderElection.ClosingNeverStuck | internal/module/registry.go:210-231 | Until it is done, it has an act that leaves it fewer, whatever others do; done, it runs nothing. |
| LeaderElection.TermBeginsIff | internal/module/leader.go:21-31 | A term begins exactly when the election query finds the lock free and its answer arrives; the lock may have been taken without that. |
| LeaderElection.TimeoutStopsNothing | internal/module/registry.go:211-221 | A Stop whose deadline passes first stops nothing and leaves the leader loop cancelled. |
| LeaderElection.TickUnwinds | internal/module/leader.go:61-72 | A leader leaves its term at a tick exactly if it is cancelled or its ping fails. |
| LeaderElection.UnwindsAll | internal/module/leader.go:41-51 | Leaving a term clears the flag, stops the term's modules in reverse start order and then unlocks. |
| LeaderElection.LifecycleOrder | internal/module/registry.go:210-231 | In every run, of every replica: modules stop in reverse start order and once per start, and start after and stop before what they need. |
| LeaderElection.InvAlways | internal/module/leader.go:15-74 | The invariant behind these holds after every run with start failures, session losses, lost answers, failed unlocks and repeated terms. |
| LeaderElection.ResolvedIsProper | internal/module/registry.go:84-88 | Any resolved dependency order is a configuration these theorems apply to. |
| CronIndex.AlwaysValid | internal/handler/backup/scheduler.go:124-172 | After any sequence of critical sections: entries is injective, its values are exactly the live cron entries, each live entry runs specs of its row, and only parseable expressions are registered, though specs may hold stale keys. |
| CronIndex.RefreshAgrees | internal/handler/backup/scheduler.go:74-101 | From any such state one undisturbed refresh makes the registered ids exactly the wanted rows, each running its row's expression. |
| CronIndex.RefreshTwice | internal/handler/backup/scheduler.go:137-139 | A second refresh changes nothing, not even an entry id. |
| CronIndex.RefreshKeepsEntries | internal/handler/backup/scheduler.go:137-144 | A row whose expression did not change keeps its cron entry through a refresh. |
| CronIndex.RegisterIs | internal/handler/backup/scheduler.go:135-160 | Registering succeeds exactly if the expression parses or is the registered one; then the row runs it, on the entry it had if the expression is unchanged and on a new one otherwise; one that does not parse costs the row its entry. |
| CronIndex.RegisterKeepsOthers | internal/handler/backup/scheduler.go:135-160 | Registering touches no other row's entry, job or expression. |
| CronIndex.RemoveIs | internal/handler/backup/scheduler.go:162-172 | A removed row runs nothing, and no other row is touched. |
| CronIndex.Table.RegisterEntry | internal/handler/backup/scheduler.go:135-160 | The registering critical section: what it leaves in the maps and whether it fails, with the invariant kept. |
| CronIndex.Table.RemoveEntry | internal/handler/backup/scheduler.go:162-172 | The removing critical section: the new maps, stale specs included. |
| CronIndex.Table.RemoveStale | internal/handler/backup/scheduler.go:89-99 | Removing the stale ids one by one leaves exactly the entries of the active ones. |
| BackupScheduler.Scheduler.Refresh | internal/handler/backup/scheduler.go:74-101 | The index holds exactly the active rows with a non-blank parseable expression, and another refresh would change nothing. |
| BackupScheduler.Scheduler.Add | internal/handler/backup/scheduler.go:124-160 | The new index and the error for each status and expression. |
| BackupScheduler.Scheduler.Sync | internal/handler/backup/scheduler.go:116-122 | A row is registered if active and not blank and unregistered otherwise. |
| BackupScheduler.Scheduler.Trigger | internal/handler/backup/scheduler.go:174-195 | A firing entry runs only if its row is still scheduled, and unregisters a row that is not. |
| BackupScheduler.WantedIsScheduled | internal/handler/backup/scheduler.go:75-88 | The rows a refresh registers are, in the table's own terms, the active ones whose trimmed expression is not empty and parses. |
| InspectionScheduler.WantedIsScheduled | internal/handler/inspection/scheduler.go:75-85 | The same for enabled rules, white space included. |
| InspectionScheduler.Scheduler.Refresh | internal/handler/inspection/scheduler.go:74-98 | The same for inspection rules, where a refresh also removes rules whose expression is only white space. |
| InspectionScheduler.Scheduler.Add | internal/handler/inspection/scheduler.go:120-156 | The new index and the error; a blank expression is not an error here. |
| InspectionScheduler.Scheduler.Sync | internal/handler/inspection/scheduler.go:112-118 | A rule is registered if enabled and not blank and unregistered otherwise. |
| InspectionScheduler.Scheduler.Trigger | internal/handler/inspection/scheduler.go:169-187 | A firing entry runs only if its rule is still scheduled, and unregisters a rule that is not. |
| RateLimiter.SlidingWindow | internal/middleware/ratelimit.go:97-120 | For every client and every closed interval as long as the window, with cleanup passes anywhere: at most max(rate, 1) requests are let through. |
| RateLimiter.RefusedIff | internal/middleware/ratelimit.go:97-120 | After any run, cleanup included, a client's next request is refused if and only if its check comes within the window of its last accepted stamp and the current burst, the accepted requests since the last one that came more than a window after the stamp before it, has `rate` requests already. |
| RateLimiter.RateIsBoundIff | internal/middleware/ratelimit.go:101-115 | The configured rate is that bound for all runs if and only if it is at least one. |
| RateLimiter.CleanupNeverMatters | internal/middleware/ratelimit.go:49-62 | Every request gets the answer it would get had no cleanup ever run. |
| RateLimiter.AlwaysGood | internal/middleware/ratelimit.go:97-120 | A visitor's count is the size of its last burst, bursts are more than a window apart, and a missing visitor's last request is more than a window ago. |
| RateLimiter.Limiter.AllowWithMemory | internal/middleware/ratelimit.go:97-120 | A request is let through exactly if its client has no visitor, or one last seen more than a window ago, or one that has not used up the rate; the stamp is then stored, and a refusal changes nothing. |
| RateLimiter.Limiter.CleanupPass | internal/middleware/ratelimit.go:54-60 | A pass that deletes while walking removes exactly the expired visitors. |
| TwoFactor.SingleUse | internal/handler/auth/twofactor.go:246-275 | Over all interleavings of reads, swaps and setups: accepted backup logins with a code never exceed its multiplicity in the list issued with that secret. |
| TwoFactor.RemainingPlusAccepted | internal/handler/auth/twofactor.go:259-268 | While a secret is in force, remaining and accepted codes add up to the issued ones, code by code and in number. |
| TwoFactor.NothingRestored | internal/handler/auth/twofactor.go:259-267 | No step, a TOTP login from an old read included, ever brings a removed code back under the same secret. |
| TwoFactor.CountsUntouched | internal/handler/auth/twofactor.go:261-267 | Every step but a setup and a use of one of the secret's own codes leaves its list and its accepted codes alone. |
| TwoFactor.LetInIff | internal/handler/auth/twofactor.go:246-275 | A login reads the row, others do anything, and it commits: it is let in if and only if two-factor login was enabled and the time-based check passed or the code, trimmed and in any case, was on the list it read, and the row is by then still enabled, with the same secret and, for a backup code, the same list; a backup login takes the first such entry, and no other changes the row. |
| TwoFactor.SwitchAndSetup | internal/handler/auth/twofactor.go:259-268 | Switching touches the flag of the row with that secret alone; a setup stores secret and codes and keeps the flag. |
| TwoFactor.ValidateBackupCode | internal/handler/auth/twofactor.go:341-359 | It succeeds exactly if some listed code is the entered one, trimmed and in any case, and then the first such entry is removed and nothing else. |
| TwoFactor.WithoutKey | internal/handler/auth/twofactor.go:349-353 | Removing a code from the list removes one occurrence of its key and keeps all others. |
| TwoFactor.Account.ConsumeTwoFactorCode | internal/handler/auth/twofactor.go:246-275 | A whole login undisturbed: let in exactly if two-factor login is enabled and the time-based check passes or some listed code is the entered one, trimmed and in any case; a backup login removes the first such entry, and no other login changes the row. |
| EventStream.AgentChatStream | frontend/src/api/agent.ts:194-226 | However the text is cut into chunks, the events delivered are those of the whole text, and the stream ends normally exactly if one of them is 'done'. |
| EventStream.Deliver | frontend/src/api/agent.ts:204-223 | The parts a chunk completed are read in order, at most one event each, malformed ones skipped. |
| EventStream.ReadPartIs | frontend/src/api/agent.ts:205-220 | A part is read by its first line that, trimmed, begins with 'data:': the rest, trimmed, is the event, unless it is empty, the end marker or not JSON; a part without such a line gives nothing. |
| EventStream.LinesJoin | frontend/src/api/agent.ts:205-206 | The lines of a part are what stands between its newlines. |
| EventStream.SplitConcat | frontend/src/api/agent.ts:202-203 | Splitting x + y on blank lines is the complete parts of x followed by splitting the last part of x plus y. |
| EventStream.SplitJoins | frontend/src/api/agent.ts:202-202 | Splitting loses nothing but the separators. |
| EventStream.PartsAreWhole | frontend/src/api/agent.ts:202-202 | No part contains a separator. |
| EventStream.RoundTrip | internal/handler/aiops/handler.go:739-743 | Every list of events that is printed is read back exactly, in order. |
| EventStream.TruncatedText | frontend/src/api/agent.ts:197-203 | Cut off anywhere, the printed text yields exactly the events whose frames are whole. |
| EventStream.PrintEvents | internal/handler/aiops/handler.go:739-743 | Writing frame by frame gives the printed text of the list. |
| EventStream.ReadPrinted | frontend/src/api/agent.ts:194-226 | Both sides together: from any chunks of the printed text, or of a beginning of it, the browser delivers the first k events, and all of them from the whole text. |
| NamespaceAuthz.FilterEqualsCheck | internal/authz/authorizer.go:154-202 | For a caller admitted without an explicit namespace, the filter keeps, in order, exactly the names for which the pointwise check succeeds. |
| NamespaceAuthz.FilterExactlyWhen | internal/authz/authorizer.go:160-171 | Over all admitted namespace-list requests the two agree on every list if and only if no namespace was named, or the caller is an administrator or holds a wildcard grant. |
| NamespaceAuthz.NamedNamespaceIsNotFiltered | internal/authz/authorizer.go:160-171 | A concrete request on the failing side: a viewer of team-a alone who names team-a gets team-b unfiltered, which the check denies. |
| NamespaceAuthz.UnrestrictedIffWildcard | internal/authz/authorizer.go:173-201 | No restriction is left exactly for an administrator or the holder of a wildcard grant of the required level. |
| NamespaceAuthz.AdmissionIsCheck | internal/authz/authorizer.go:115-207 | On every scope the middleware admits exactly the requests whose target passes the pointwise check. |
| NamespaceAuthz.CheckIff | internal/authz/authorizer.go:210-239 | The pointwise check in the terms of the tables: an administrator passes; anybody else needs the resource and the action among the role's permissions and, inside a cluster, a row that covers the namespace with at least the strength the action needs. |
| NamespaceAuthz.AuthorizeIff | internal/authz/grants.go:23-42 | A grant query succeeds exactly if some row of the user and cluster is for all namespaces or this one and at least as strong. |
| NamespaceAuthz.LevelsByStrength | internal/authz/grants.go:58-69 | The accepted levels are those at least as strong as the required one, in the order read, write, admin. |
| NamespaceAuthz.ActionStrength | internal/authz/policy.go:90-101 | Viewing needs read, every change write, administration admin, and an unknown action nothing that exists. |
| NamespaceAuthz.ExplicitIs | internal/authz/policy.go:154-161 | The namespace a request names is the first of path, long and short query key that is not blank, trimmed. |
| NamespaceAuthz.AdmittedKeys | internal/authz/authorizer.go:115-207 | An admitted request carries its cluster and the namespace it named, all namespaces, or none. |
| NamespaceAuthz.RefusalReason | internal/authz/authorizer.go:36-207 | A refusal names the first test that failed. |
| NamespaceAuthz.CheckReason | internal/authz/authorizer.go:210-239 | The pointwise check gives the same reasons. |
| NamespaceAuthz.RestrictionIsCheck | internal/authz/authorizer.go:210-239 | The restriction left in the context contains exactly the names that pass the pointwise check. |
| NamespaceAuthz.NarrowGrants | internal/authz/grants.go:23-56 | Without a wildcard grant, what Authorize accepts is exactly what AllowedNamespaces lists. |
| NamespaceAuthz.Authorizer.AuthorizeScope | internal/authz/authorizer.go:115-207 | The keys set and the outcome on every path, the filtering loop included. |
| NamespaceAuthz.Authorizer.Middleware | internal/authz/authorizer.go:36-113 | The keys set and the outcome of a whole admission. |
| NamespaceAuthz.Context.AllowedNamespaceSet | internal/authz/context.go:47-69 | The set is the concrete names of the key, and none for a missing, empty or wildcard key. |
| NamespaceAuthz.Context.FilterNamespaces | internal/authz/context.go:83-96 | The names in the set, in order, or all of them if there is no set. |
| NamespaceAuthz.Context.NamespaceAllowed | internal/authz/context.go:72-79 | One name passes exactly if there is no set or it is in the set. |
| NamespaceAuthz.ListNamespaceNames | internal/handler/workload/handler.go:1795-1821 | Admission followed by filtering returns exactly the names that pass the pointwise check, or the whole list if the request names a namespace. |
| AnthropicMessages.ToAnthropicMessages | internal/llm/anthropic.go:98-148 | Read with its roles, the output says exactly what the messages say, in order; the system text joins the non-blank system messages; the k-th assistant turn is the k-th assistant message, its text unless blank and then each call with its own id, name and, if valid, its own arguments; no message is empty, and none that opens with a tool result follows a user message. |
| AnthropicMessages.TranslationIsUnique | internal/llm/anthropic.go:129-137 | There is only one list of messages with that content, those turns and that shape. |
| AnthropicMessages.CallsInOrder | internal/llm/anthropic.go:111-122 | Each tool call of an assistant message has its own block, in order, after the text: with the call's id and name, and its arguments if they are valid JSON and an empty object otherwise; nothing else is there. |
| AnthropicMessages.SaidInPlace | internal/llm/anthropic.go:127-144 | A user's message and a tool's result are said by the user, with their own content, where their turn comes. |
| AnthropicMessages.SystemInOrder | internal/llm/anthropic.go:102-105 | Each system message that is not blank gives its own text, in order. |
| AnthropicMessages.JoinConcat | internal/llm/anthropic.go:146-146 | Joining puts a blank line between any two parts. |
| AnthropicMessages.InputsAreValid | internal/llm/anthropic.go:112-115 | Whatever arguments a model produced, every tool input sent is valid JSON. |
| AnthropicMessages.TranslateAssistant | internal/llm/anthropic.go:106-126 | One assistant message: its text unless blank, then each call with its own id, name and, if valid, its own arguments; an empty text if there is neither. |
| LlmDefault.AtMostOneAtEveryBoundary | internal/model/llm_config.go:6-13 | From the first normalisation on, at every statement boundary of every run at most one config is active, in the committed table and in the open transaction's. |
| LlmDefault.DefaultStays | internal/handler/aiops/handler.go:425-430 | Once a save or a change of default has committed, every later committed state has exactly one active config, whatever is deleted, fails or is rolled back. |
| LlmDefault.DeleteHandsOver | internal/handler/aiops/handler.go:529-550 | A committed delete of the default leaves the highest other id, whose key opens, as the only active one. |
| LlmDefault.NormaliseKeepsHighest | internal/model/llm_config.go:15-23 | Of several active rows exactly the one with the highest id stays; a table with at most one is not changed. |
| LlmDefault.Boundaries | internal/handler/aiops/handler.go:564-576 | At every statement boundary of every planned transaction at most one row is active, if there was at most one before or the transaction is a normalisation past its first statement; at its end exactly one, if there was one before or the request chooses one. |
| LlmDefault.Database.EnsureSingleActiveLLMConfig | internal/model/llm_config.go:15-23 | Every row stays, active exactly if it was the highest of the active ones, after the update and then the index, or a fault of either left no trace; without a fault the index never refuses. |
| LlmDefault.Database.SaveLLMConfig | internal/handler/aiops/handler.go:425-430 | The new row has the given columns and is the only active one, and no other row's columns change, or a fault left no trace. |
| LlmDefault.Database.UpdateLLMConfig | internal/handler/aiops/handler.go:503-515 | The given columns of an existing row have the given values, all else is as it was, the flag too, or a fault left no trace; with no columns given it writes nothing. |
| LlmDefault.Database.DeleteLLMConfig | internal/handler/aiops/handler.go:529-550 | The row is gone, the highest of the others is active as well if it was the default, and all else is as it was, or a fault left no trace; without faults it succeeds exactly if the row exists and is not the default, or another config can take over. |
| LlmDefault.Database.SetDefaultLLMConfig | internal/handler/aiops/handler.go:564-576 | For an existing row whose key opens: that row is the only active one and no columns change, or a fault left no trace. |

## Left out

- HTTP, gin, JSON binding, GORM and SQL mechanics, Kubernetes, Velero, LLM and OAuth calls. A
  transaction is atomic, and one that the database refuses is no step at all.
- Statement-level visibility inside the transactions of a clear and of CancelPendingActions: each of
  their row updates is a step of its own, which allows more interleavings than the database does.
  Deleting the conversation's messages, states and tool traces is not part of this model.
- The executor, evidence collection, previews and the texts shown to the user: arbitrary answers.
  That the executor does not edit approval fields of the action in memory is assumed.
- Migration of stored secrets and of staged parameters at startup, and configuration secrets.
- Errors of single database reads: the request stops there, which the machine has as a request that
  dies.
- A replica that crashes takes no further steps and its session dies; in the machine of N replicas
  Start is only called on a stopped registry; the errors that module stop hooks return are not
  collected.
- The schedulers' Start, Stop and ticker loops, their logging, and the update of last_backup.
- The limiter's cache-backed variant, whose expiry rules lie in a package that is not part of this
  model, and the wrap-around of 64-bit durations.
- Time-based codes, secret generation and the login's pending token. A new secret is one that was
  never used before; a list of codes has one encoding; two-factor rows are not deleted.
- UTF-8 decoding of the event stream: chunks are text. A payload that is valid JSON but not an object
  is not part of this model.
- Registration and lookup of route policies, missing principals, and database errors of the grant
  queries. The filter and the check are compared on the same grant table.
- The other provider's message format, tool definitions and the HTTP exchange with the provider.
- Connection checks before an LLM configuration is saved. Once created, the unique index is not used
  in any proof, since no statement would violate it.
- The scheduler module's task life cycle, event-forward watchers, batch deletes, inspection
  summaries, menus, seed data and pages.
