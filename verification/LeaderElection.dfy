/** N replicas of the registry and one PostgreSQL session advisory lock. Each replica runs
    Start and Stop on one thread and the leader loop on another; sessions may die, answers may
    be lost and unlocks may fail at any moment. */
module LeaderElection {
  import opened Wrappers
  import opened TopoSort
  import opened Lifecycle

  datatype Config = Config(mods: Mods, everywhere: seq<string>, leaders: seq<string>)

  ghost predicate Proper(cfg: Config) {
    DepSorted(cfg.mods, cfg.everywhere + cfg.leaders)
  }

  /** `holds` counts how often the session has taken the lock; the lock is re-entrant. */
  datatype Session = Session(owner: nat, alive: bool, holds: nat)

  datatype Main = Ready | Starting | Up | Waiting | Stopping

  datatype Leader =
    | Off
    | Connect
    | Elect(sess: nat)
    | Serve(sess: nat)
    | Unwind(sess: nat)
    | Unlock(sess: nat)
    | Close(sess: nat)
    | Sleep
    | Finished

  datatype Replica = Replica(
    main: Main,
    started: seq<string>,
    cancelled: bool,
    leader: Leader,
    leaderStarted: seq<string>,
    active: bool,
    term: nat,
    log: seq<Hook>)

  datatype Cluster = Cluster(replicas: map<nat, Replica>, sessions: map<nat, Session>)

  datatype Act =
    // Start and Stop
    | Begin
    | StartModule(ok: bool)
    | FinishStart(databaseOk: bool)
    | CallStop
    | StopTimesOut
    | LeaderGone
    | StopModule
    // the leader loop
    | Dial(sess: nat, ok: bool)
    | TryLock(answered: bool, taken: bool)
    | StartLeader(ok: bool)
    | Activate
    | Tick(lost: bool)
    | UnwindNext
    | ReleaseLock(reached: bool)
    | CloseConn
    | Wake

  /** A replica acts, or the database loses a session. */
  datatype Step = By(r: nat, act: Act) | SessionDies(sess: nat)

  predicate HoldsOther(sessions: map<nat, Session>, sess: nat) {
    exists t :: t in sessions && t != sess && sessions[t].holds > 0
  }

  /** pg_try_advisory_lock succeeds for a live session unless another session has the lock. */
  predicate Grantable(sessions: map<nat, Session>, sess: nat) {
    sess in sessions && sessions[sess].alive && !HoldsOther(sessions, sess)
  }

  // ---------- one replica ----------

  function StartStep(cfg: Config, a: Replica, ok: bool): Replica {
    if a.main == Starting && |a.started| < |cfg.everywhere| then
      var name := cfg.everywhere[|a.started|];
      if ok then a.(started := a.started + [name], log := a.log + [Started(name)]) else a.(main := Stopping)
    else a
  }

  function FinishStartStep(cfg: Config, a: Replica, databaseOk: bool): Replica {
    if a.main == Starting && a.started == cfg.everywhere then
      if cfg.leaders == [] then a.(main := Up)
      else if databaseOk then a.(main := Up, leader := Connect, cancelled := false)
      else a.(main := Stopping)
    else a
  }

  function StopStep(a: Replica): Replica {
    if a.main != Stopping then a
    else if a.started == [] then a.(main := Ready)
    else
      var name := a.started[|a.started| - 1];
      a.(started := a.started[..|a.started| - 1], log := a.log + [Stopped(name)])
  }

  function StartLeaderStep(cfg: Config, a: Replica, ok: bool): Replica {
    if a.leader.Serve? && !a.active && |a.leaderStarted| < |cfg.leaders| then
      var name := cfg.leaders[|a.leaderStarted|];
      if ok then a.(leaderStarted := a.leaderStarted + [name], log := a.log + [Started(name)])
      else a.(leader := Unwind(a.leader.sess))
    else a
  }

  /** The deferred part of a term: clear the flag, stop in reverse, then unlock. */
  function UnwindStep(a: Replica): Replica {
    if !a.leader.Unwind? then a
    else if a.active then a.(active := false)
    else if a.leaderStarted == [] then a.(leader := Unlock(a.leader.sess))
    else
      var name := a.leaderStarted[|a.leaderStarted| - 1];
      a.(leaderStarted := a.leaderStarted[..|a.leaderStarted| - 1], log := a.log + [Stopped(name)])
  }

  /** Acts that touch only the replica itself. */
  function Local(cfg: Config, a: Replica, act: Act): Replica {
    match act
    case Begin => if a.main == Ready then a.(main := Starting, started := []) else a
    case StartModule(ok) => StartStep(cfg, a, ok)
    case FinishStart(databaseOk) => FinishStartStep(cfg, a, databaseOk)
    case CallStop =>
      if a.main != Up then a
      else if a.leader == Off then a.(main := Stopping)
      else a.(main := Waiting, cancelled := true)
    case StopTimesOut => if a.main == Waiting then a.(main := Up) else a
    case LeaderGone => if a.main == Waiting && a.leader == Finished then a.(main := Stopping, leader := Off) else a
    case StopModule => StopStep(a)
    case StartLeader(ok) => StartLeaderStep(cfg, a, ok)
    case Activate => if a.leader.Serve? && a.leaderStarted == cfg.leaders then a.(active := true) else a
    case Tick(lost) =>
      if a.leader.Serve? && a.active && (a.cancelled || lost) then a.(leader := Unwind(a.leader.sess)) else a
    case UnwindNext => UnwindStep(a)
    case CloseConn => if a.leader.Close? then a.(leader := Sleep) else a
    case Wake => if a.leader == Sleep then a.(leader := if a.cancelled then Finished else Connect) else a
    case _ => a
  }

  // ---------- the cluster ----------

  function DialStep(c: Cluster, r: nat, sess: nat, ok: bool): Cluster
    requires r in c.replicas
  {
    var a := c.replicas[r];
    if a.leader != Connect then c
    else if a.cancelled then c.(replicas := c.replicas[r := a.(leader := Finished)])
    else if !ok then c.(replicas := c.replicas[r := a.(leader := Sleep)])
    else if sess !in c.sessions then
      Cluster(c.replicas[r := a.(leader := Elect(sess))], c.sessions[sess := Session(r, true, 0)])
    else if c.sessions[sess].owner == r then c.(replicas := c.replicas[r := a.(leader := Elect(sess))])
    else c
  }

  /** The election query. A lost answer may or may not have taken the lock. */
  function TryLockStep(c: Cluster, r: nat, answered: bool, taken: bool): Cluster
    requires r in c.replicas
  {
    var a := c.replicas[r];
    if !a.leader.Elect? then c
    else
      var sess := a.leader.sess;
      if Grantable(c.sessions, sess) && (answered || taken) then
        var next := if answered then a.(leader := Serve(sess), leaderStarted := [], term := |a.log|)
                    else a.(leader := Close(sess));
        Cluster(c.replicas[r := next], c.sessions[sess := c.sessions[sess].(holds := c.sessions[sess].holds + 1)])
      else c.(replicas := c.replicas[r := a.(leader := Close(sess))])
  }

  function ReleaseStep(c: Cluster, r: nat, reached: bool): Cluster
    requires r in c.replicas
  {
    var a := c.replicas[r];
    if !a.leader.Unlock? then c
    else
      var sess := a.leader.sess;
      var sessions := if reached && sess in c.sessions && c.sessions[sess].holds > 0
                      then c.sessions[sess := c.sessions[sess].(holds := c.sessions[sess].holds - 1)] else c.sessions;
      Cluster(c.replicas[r := a.(leader := Close(sess))], sessions)
  }

  function ActStep(cfg: Config, c: Cluster, r: nat, act: Act): Cluster
    requires r in c.replicas
  {
    if act.Dial? then DialStep(c, r, act.sess, act.ok)
    else if act.TryLock? then TryLockStep(c, r, act.answered, act.taken)
    else if act.ReleaseLock? then ReleaseStep(c, r, act.reached)
    else c.(replicas := c.replicas[r := Local(cfg, c.replicas[r], act)])
  }

  function DieStep(c: Cluster, sess: nat): Cluster {
    if sess in c.sessions then c.(sessions := c.sessions[sess := c.sessions[sess].(alive := false, holds := 0)]) else c
  }

  function Apply(cfg: Config, c: Cluster, step: Step): Cluster {
    match step
    case SessionDies(sess) => DieStep(c, sess)
    case By(r, act) => if r in c.replicas then ActStep(cfg, c, r, act) else c
  }

  function Exec(cfg: Config, c: Cluster, steps: seq<Step>): Cluster {
    if steps == [] then c else Apply(cfg, Exec(cfg, c, steps[..|steps| - 1]), steps[|steps| - 1])
  }

  function Fresh(): Replica {
    Replica(Ready, [], false, Off, [], false, 0, [])
  }

  /** Any number of replicas, none of them started, and no session yet. */
  predicate Initial(c: Cluster) {
    c.sessions == map[] && forall r :: r in c.replicas ==> c.replicas[r] == Fresh()
  }

  // ---------- the invariant ----------

  predicate InTerm(l: Leader) {
    l.Serve? || l.Unwind?
  }

  predicate HasSession(l: Leader) {
    l.Elect? || InTerm(l) || l.Unlock? || l.Close?
  }

  ghost predicate LogOk(cfg: Config, log: seq<Hook>, running: seq<string>) {
    RunsPrefix(cfg.mods, cfg.everywhere + cfg.leaders, log, running)
  }

  /** What one replica keeps, whatever the lock does. */
  ghost predicate LocalOk(cfg: Config, a: Replica) {
    LogOk(cfg, a.log, a.started + a.leaderStarted) && PlaceOk(cfg, a)
  }

  predicate PlaceOk(cfg: Config, a: Replica) {
    && a.started <= cfg.everywhere && a.leaderStarted <= cfg.leaders
    && (a.leaderStarted != [] || a.active ==> InTerm(a.leader))
    && (a.leader != Off ==> a.started == cfg.everywhere && (a.main == Up || a.main == Waiting))
    && (a.main == Ready ==> a.started == [])
    && (a.active ==> a.leaderStarted == cfg.leaders)
    && (a.leader.Serve? || a.active ==> a.term <= |a.log| && a.log[a.term..] == Starts(a.leaderStarted))
  }

  predicate OneHolder(sessions: map<nat, Session>) {
    forall s, t :: s in sessions && t in sessions && sessions[s].holds > 0 && sessions[t].holds > 0 ==> s == t
  }

  /** The session of the leader loop belongs to the replica, and from the moment a term
      starts until it is over the session holds the lock unless it has died. */
  predicate SessionOk(c: Cluster, r: nat)
    requires r in c.replicas
  {
    var l := c.replicas[r].leader;
    HasSession(l) ==>
      && l.sess in c.sessions && c.sessions[l.sess].owner == r
      && (InTerm(l) || l.Unlock? ==> c.sessions[l.sess].alive ==> c.sessions[l.sess].holds > 0)
  }

  /** One holder at most, and none among the dead sessions. */
  predicate LocksOk(sessions: map<nat, Session>) {
    OneHolder(sessions) && forall s :: s in sessions && !sessions[s].alive ==> sessions[s].holds == 0
  }

  ghost predicate Inv(cfg: Config, c: Cluster) {
    LocksOk(c.sessions) && forall r :: r in c.replicas ==> LocalOk(cfg, c.replicas[r]) && SessionOk(c, r)
  }

  // ---------- local steps keep it ----------

  lemma StartKeeps(cfg: Config, a: Replica, ok: bool)
    requires Proper(cfg) && LocalOk(cfg, a)
    ensures LocalOk(cfg, StartStep(cfg, a, ok))
  {
    if a.main == Starting && |a.started| < |cfg.everywhere| && ok {
      var name := cfg.everywhere[|a.started|];
      assert a.leaderStarted == [] && a.started + a.leaderStarted == a.started;
      StartNext(cfg.mods, cfg.everywhere + cfg.leaders, a.log, a.started, name);
      assert (a.started + [name]) + a.leaderStarted == a.started + [name];
    }
  }

  lemma StopKeeps(cfg: Config, a: Replica)
    requires Proper(cfg) && LocalOk(cfg, a)
    ensures LocalOk(cfg, StopStep(a))
  {
    if a.main == Stopping && a.started != [] {
      var rest, name := a.started[..|a.started| - 1], a.started[|a.started| - 1];
      assert rest + [name] == a.started + a.leaderStarted && rest + a.leaderStarted == rest;
      StopLast(cfg.mods, cfg.everywhere + cfg.leaders, a.log, rest, name);
    }
  }

  lemma StartLeaderKeeps(cfg: Config, a: Replica, ok: bool)
    requires Proper(cfg) && LocalOk(cfg, a)
    ensures LocalOk(cfg, StartLeaderStep(cfg, a, ok))
  {
    if a.leader.Serve? && !a.active && |a.leaderStarted| < |cfg.leaders| && ok {
      var name := cfg.leaders[|a.leaderStarted|];
      PrefixAppend(cfg.everywhere, a.leaderStarted + [name], cfg.leaders);
      assert (a.started + a.leaderStarted) + [name] == a.started + (a.leaderStarted + [name]);
      StartNext(cfg.mods, cfg.everywhere + cfg.leaders, a.log, a.started + a.leaderStarted, name);
      StartsSnoc(a.leaderStarted, name);
      DropSnoc(a.log, Started(name), a.term);
    }
  }

  lemma UnwindKeeps(cfg: Config, a: Replica)
    requires Proper(cfg) && LocalOk(cfg, a)
    ensures LocalOk(cfg, UnwindStep(a))
  {
    if a.leader.Unwind? && !a.active && a.leaderStarted != [] {
      var rest, name := a.leaderStarted[..|a.leaderStarted| - 1], a.leaderStarted[|a.leaderStarted| - 1];
      assert (a.started + rest) + [name] == a.started + a.leaderStarted;
      StopLast(cfg.mods, cfg.everywhere + cfg.leaders, a.log, a.started + rest, name);
    }
  }

  predicate ChangesLog(act: Act) {
    act.StartModule? || act.StopModule? || act.StartLeader? || act.UnwindNext?
  }

  /** The other acts move between places and start or stop nothing. */
  lemma PlaceKeeps(cfg: Config, a: Replica, act: Act)
    requires PlaceOk(cfg, a) && !ChangesLog(act)
    ensures var b := Local(cfg, a, act);
            PlaceOk(cfg, b) && b.log == a.log && b.started == a.started && b.leaderStarted == a.leaderStarted
  {
  }

  lemma LocalKeeps(cfg: Config, a: Replica, act: Act)
    requires Proper(cfg) && LocalOk(cfg, a)
    ensures LocalOk(cfg, Local(cfg, a, act))
  {
    match act
    case StartModule(ok) => StartKeeps(cfg, a, ok);
    case StopModule => StopKeeps(cfg, a);
    case StartLeader(ok) => StartLeaderKeeps(cfg, a, ok);
    case UnwindNext => UnwindKeeps(cfg, a);
    case _ => PlaceKeeps(cfg, a, act);
  }

  /** A local act changes neither the session in use nor, before the unlock, the need for it. */
  lemma LocalSession(cfg: Config, a: Replica, act: Act)
    ensures var l, l' := a.leader, Local(cfg, a, act).leader;
            HasSession(l') ==> HasSession(l) && l'.sess == l.sess && (InTerm(l') || l'.Unlock? ==> InTerm(l) || l.Unlock?)
  {
  }

  // ---------- lock steps keep it ----------

  /** Moving the leader loop between states outside a term. */
  lemma LeaderMoves(cfg: Config, a: Replica, l: Leader)
    requires LocalOk(cfg, a) && a.leader != Off && a.leaderStarted == [] && !a.active && !InTerm(l)
    ensures LocalOk(cfg, a.(leader := l))
  {
  }

  lemma TermBegins(cfg: Config, a: Replica, sess: nat)
    requires LocalOk(cfg, a) && a.leader.Elect?
    ensures LocalOk(cfg, a.(leader := Serve(sess), leaderStarted := [], term := |a.log|))
  {
    assert a.log[|a.log|..] == Starts([]);
  }

  /** Only a session that no other session shuts out gets the lock. */
  lemma GrantKeepsLocks(sessions: map<nat, Session>, sess: nat)
    requires LocksOk(sessions) && Grantable(sessions, sess)
    ensures LocksOk(sessions[sess := sessions[sess].(holds := sessions[sess].holds + 1)])
  {
  }

  /** How one step may change the sessions, seen by every replica but `r`. */
  predicate OthersKeep(before: map<nat, Session>, after: map<nat, Session>, r: nat) {
    forall s :: s in before && before[s].owner != r ==> s in after && after[s] == before[s]
  }

  /** What is left to show after a step of `r`: the others are untouched. */
  lemma Reassemble(cfg: Config, c: Cluster, c': Cluster, r: nat)
    requires Inv(cfg, c) && r in c.replicas && r in c'.replicas && LocksOk(c'.sessions)
    requires c'.replicas == c.replicas[r := c'.replicas[r]]
    requires OthersKeep(c.sessions, c'.sessions, r)
    requires LocalOk(cfg, c'.replicas[r]) && SessionOk(c', r)
    ensures Inv(cfg, c')
  {
    forall t | t in c'.replicas ensures LocalOk(cfg, c'.replicas[t]) && SessionOk(c', t) {
      assert LocalOk(cfg, c.replicas[t]) && SessionOk(c, t);
    }
  }

  /** Dialling touches no session but a new one of the replica's own. */
  lemma DialSessions(c: Cluster, r: nat, sess: nat, ok: bool)
    requires r in c.replicas && LocksOk(c.sessions)
    ensures var c' := DialStep(c, r, sess, ok);
            LocksOk(c'.sessions) && OthersKeep(c.sessions, c'.sessions, r) && SameBut(c, c', r)
  {
  }

  lemma DialKeeps(cfg: Config, c: Cluster, r: nat, sess: nat, ok: bool)
    requires Inv(cfg, c) && r in c.replicas
    ensures Inv(cfg, DialStep(c, r, sess, ok))
  {
    var a, c' := c.replicas[r], DialStep(c, r, sess, ok);
    assert LocalOk(cfg, a) && SessionOk(c, r);
    if a.leader == Connect && c' != c {
      DialSessions(c, r, sess, ok);
      LeaderMoves(cfg, a, c'.replicas[r].leader);
      Reassemble(cfg, c, c', r);
    }
  }

  lemma TryLockKeeps(cfg: Config, c: Cluster, r: nat, answered: bool, taken: bool)
    requires Inv(cfg, c) && r in c.replicas
    ensures Inv(cfg, TryLockStep(c, r, answered, taken))
  {
    var a, c' := c.replicas[r], TryLockStep(c, r, answered, taken);
    assert LocalOk(cfg, a) && SessionOk(c, r);
    if a.leader.Elect? {
      var sess := a.leader.sess;
      if Grantable(c.sessions, sess) { GrantKeepsLocks(c.sessions, sess); }
      TermBegins(cfg, a, sess);
      LeaderMoves(cfg, a, Close(sess));
      Reassemble(cfg, c, c', r);
    }
  }

  lemma ReleaseKeeps(cfg: Config, c: Cluster, r: nat, reached: bool)
    requires Inv(cfg, c) && r in c.replicas
    ensures Inv(cfg, ReleaseStep(c, r, reached))
  {
    var a, c' := c.replicas[r], ReleaseStep(c, r, reached);
    assert LocalOk(cfg, a) && SessionOk(c, r);
    if a.leader.Unlock? {
      LeaderMoves(cfg, a, Close(a.leader.sess));
      Reassemble(cfg, c, c', r);
    }
  }

  lemma ActKeeps(cfg: Config, c: Cluster, r: nat, act: Act)
    requires Proper(cfg) && Inv(cfg, c) && r in c.replicas
    ensures Inv(cfg, ActStep(cfg, c, r, act))
  {
    if act.Dial? { DialKeeps(cfg, c, r, act.sess, act.ok); }
    else if act.TryLock? { TryLockKeeps(cfg, c, r, act.answered, act.taken); }
    else if act.ReleaseLock? { ReleaseKeeps(cfg, c, r, act.reached); }
    else {
      var c' := c.(replicas := c.replicas[r := Local(cfg, c.replicas[r], act)]);
      assert LocalOk(cfg, c.replicas[r]) && SessionOk(c, r);
      LocalKeeps(cfg, c.replicas[r], act);
      LocalSession(cfg, c.replicas[r], act);
      Reassemble(cfg, c, c', r);
    }
  }

  lemma DieKeeps(cfg: Config, c: Cluster, sess: nat)
    requires Inv(cfg, c)
    ensures Inv(cfg, DieStep(c, sess))
  {
    var c' := DieStep(c, sess);
    forall t | t in c'.replicas ensures LocalOk(cfg, c'.replicas[t]) && SessionOk(c', t) {
      assert LocalOk(cfg, c.replicas[t]) && SessionOk(c, t);
    }
  }

  lemma StepKeeps(cfg: Config, c: Cluster, step: Step)
    requires Proper(cfg) && Inv(cfg, c)
    ensures Inv(cfg, Apply(cfg, c, step))
  {
    match step
    case SessionDies(sess) => DieKeeps(cfg, c, sess);
    case By(r, act) => if r in c.replicas { ActKeeps(cfg, c, r, act); }
  }

  lemma {:induction false} InvAlways(cfg: Config, c: Cluster, steps: seq<Step>)
    requires Proper(cfg) && Initial(c)
    ensures Inv(cfg, Exec(cfg, c, steps))
  {
    if steps == [] {
      assert Fresh().started + Fresh().leaderStarted == [];
      assert LocalOk(cfg, Fresh());
    } else {
      InvAlways(cfg, c, steps[..|steps| - 1]);
      StepKeeps(cfg, Exec(cfg, c, steps[..|steps| - 1]), steps[|steps| - 1]);
    }
  }

  // ---------- the guarantees, over every run ----------

  /** The replica has started a leader-only module and not stopped it. */
  predicate RunsLeaderModule(c: Cluster, r: nat) {
    r in c.replicas && c.replicas[r].leaderStarted != []
  }

  /** The session under which the replica's current term was won is still alive. */
  predicate SessionAlive(c: Cluster, r: nat) {
    && r in c.replicas && HasSession(c.replicas[r].leader)
    && c.replicas[r].leader.sess in c.sessions && c.sessions[c.replicas[r].leader.sess].alive
  }

  lemma {:induction false} LockIsExclusive(cfg: Config, c: Cluster, steps: seq<Step>)
    requires Proper(cfg) && Initial(c)
    ensures OneHolder(Exec(cfg, c, steps).sessions)
  {
    InvAlways(cfg, c, steps);
  }

  /** A replica that runs a leader-only module under a live session holds the lock. */
  lemma {:induction false} LeaderHoldsLock(cfg: Config, c: Cluster, steps: seq<Step>, r: nat)
    requires Proper(cfg) && Initial(c)
    requires RunsLeaderModule(Exec(cfg, c, steps), r) && SessionAlive(Exec(cfg, c, steps), r)
    ensures var now := Exec(cfg, c, steps);
            && now.sessions[now.replicas[r].leader.sess].owner == r
            && now.sessions[now.replicas[r].leader.sess].holds > 0
  {
    InvAlways(cfg, c, steps);
    var now := Exec(cfg, c, steps);
    assert LocalOk(cfg, now.replicas[r]) && SessionOk(now, r);
  }

  /** Hence two replicas run leader-only modules at once only while one of them has lost
      the session it was elected under. */
  lemma {:induction false} AtMostOneLiveLeader(cfg: Config, c: Cluster, steps: seq<Step>, r: nat, t: nat)
    requires Proper(cfg) && Initial(c) && r != t
    requires RunsLeaderModule(Exec(cfg, c, steps), r) && RunsLeaderModule(Exec(cfg, c, steps), t)
    ensures !SessionAlive(Exec(cfg, c, steps), r) || !SessionAlive(Exec(cfg, c, steps), t)
  {
    var now := Exec(cfg, c, steps);
    if SessionAlive(now, r) && SessionAlive(now, t) {
      LeaderHoldsLock(cfg, c, steps, r);
      LeaderHoldsLock(cfg, c, steps, t);
      LockIsExclusive(cfg, c, steps);
      assert false;
    }
  }

  /** A replica that calls itself active has started every leader-only module in this term
      and stopped none since. */
  lemma {:induction false} ActiveMeansAllStarted(cfg: Config, c: Cluster, steps: seq<Step>, r: nat)
    requires Proper(cfg) && Initial(c)
    requires r in Exec(cfg, c, steps).replicas && Exec(cfg, c, steps).replicas[r].active
    ensures var a := Exec(cfg, c, steps).replicas[r];
            && a.leaderStarted == cfg.leaders
            && a.term <= |a.log| && a.log[a.term..] == Starts(cfg.leaders)
  {
    InvAlways(cfg, c, steps);
    assert LocalOk(cfg, Exec(cfg, c, steps).replicas[r]);
  }

  /** In every run, of every replica: modules stop in reverse start order and once per
      start, start after and stop before what they need, and what runs is a prefix of the
      start order. */
  lemma {:induction false} LifecycleOrder(cfg: Config, c: Cluster, steps: seq<Step>, r: nat)
    requires Proper(cfg) && Initial(c) && r in Exec(cfg, c, steps).replicas
    ensures var a := Exec(cfg, c, steps).replicas[r];
            && Obeys(cfg.mods, a.log)
            && Stack(a.log) == Some(a.started + a.leaderStarted)
            && a.started + a.leaderStarted <= cfg.everywhere + cfg.leaders
  {
    InvAlways(cfg, c, steps);
    assert LocalOk(cfg, Exec(cfg, c, steps).replicas[r]);
  }

  /** The configuration that the registry works with is proper whenever the dependency
      order was resolved. */
  lemma ResolvedIsProper(mods: Mods, order: seq<string>)
    requires IsOrder(DepsOf(mods), order)
    ensures Proper(Config(mods, Pick(mods, order, false), Pick(mods, order, true)))
  {
    FullOrderSorted(mods, order);
  }

  // ---------- exactly when a second leader can join ----------

  lemma ExecSnoc(cfg: Config, c: Cluster, steps: seq<Step>, step: Step)
    ensures Exec(cfg, c, steps + [step]) == Apply(cfg, Exec(cfg, c, steps), step)
  {
    assert (steps + [step])[..|steps|] == steps;
  }

  lemma {:induction false} ExecConcat(cfg: Config, c: Cluster, a: seq<Step>, b: seq<Step>)
    ensures Exec(cfg, c, a + b) == Exec(cfg, Exec(cfg, c, a), b)
  {
    if b == [] {
      assert a + b == a;
    } else {
      var front, last := b[..|b| - 1], b[|b| - 1];
      assert a + b == (a + front) + [last];
      ExecSnoc(cfg, c, a + front, last);
      ExecConcat(cfg, c, a, front);
    }
  }

  /** A replica that has not started, or whose leader loop is between two attempts. */
  predicate StandsBy(a: Replica) {
    a == Fresh() || ((a.leader == Connect || a.leader == Sleep) && !a.cancelled)
  }

  predicate OnlyBy(steps: seq<Step>, t: nat) {
    forall i :: 0 <= i < |steps| ==> steps[i].By? && steps[i].r == t
  }

  /** By its own steps alone, `t` comes to run leader-only modules beside `r`. */
  ghost predicate Joins(cfg: Config, c: Cluster, more: seq<Step>, r: nat, t: nat) {
    OnlyBy(more, t) && RunsLeaderModule(Exec(cfg, c, more), r) && RunsLeaderModule(Exec(cfg, c, more), t)
  }

  /** No session of another replica holds the lock. */
  predicate LockOpenTo(sessions: map<nat, Session>, t: nat) {
    forall s :: s in sessions && sessions[s].holds > 0 ==> sessions[s].owner == t
  }

  /** Nothing but replica `t` differs. */
  predicate SameBut(c: Cluster, c': Cluster, t: nat) {
    t in c'.replicas && c'.replicas == c.replicas[t := c'.replicas[t]]
  }

  lemma ExecOne(cfg: Config, c: Cluster, step: Step)
    ensures Exec(cfg, c, [step]) == Apply(cfg, c, step)
  {
    ExecSnoc(cfg, c, [], step);
    assert [] + [step] == [step];
  }

  lemma ExecFirst(cfg: Config, c: Cluster, step: Step, rest: seq<Step>)
    ensures Exec(cfg, c, [step] + rest) == Exec(cfg, Apply(cfg, c, step), rest)
  {
    ExecConcat(cfg, c, [step], rest);
    ExecOne(cfg, c, step);
  }

  predicate Dialling(a: Replica) {
    a.leader == Connect && !a.cancelled && !a.active
  }

  lemma {:induction false} StartAll(cfg: Config, c: Cluster, t: nat) returns (more: seq<Step>)
    requires t in c.replicas && cfg.leaders != [] && c.replicas[t].main == Starting && !c.replicas[t].active
    requires c.replicas[t].started <= cfg.everywhere
    ensures OnlyBy(more, t)
    ensures var now := Exec(cfg, c, more); SameBut(c, now, t) && now.sessions == c.sessions && Dialling(now.replicas[t])
    decreases |cfg.everywhere| - |c.replicas[t].started|
  {
    if c.replicas[t].started == cfg.everywhere {
      more := [By(t, FinishStart(true))];
      ExecOne(cfg, c, By(t, FinishStart(true)));
    } else {
      var step := By(t, StartModule(true));
      var rest := StartAll(cfg, Apply(cfg, c, step), t);
      more := [step] + rest;
      ExecFirst(cfg, c, step, rest);
    }
  }

  /** A replica that stands by can get to its next attempt without anybody noticing. */
  lemma {:induction false} GetsToDial(cfg: Config, c: Cluster, t: nat) returns (more: seq<Step>)
    requires t in c.replicas && cfg.leaders != [] && StandsBy(c.replicas[t]) && !c.replicas[t].active
    ensures OnlyBy(more, t)
    ensures var now := Exec(cfg, c, more); SameBut(c, now, t) && now.sessions == c.sessions && Dialling(now.replicas[t])
  {
    if c.replicas[t].leader == Connect {
      more := [];
    } else if c.replicas[t].leader == Sleep {
      more := [By(t, Wake)];
      ExecOne(cfg, c, By(t, Wake));
    } else {
      var rest := StartAll(cfg, Apply(cfg, c, By(t, Begin)), t);
      more := [By(t, Begin)] + rest;
      ExecFirst(cfg, c, By(t, Begin), rest);
    }
  }

  lemma {:induction false} Unused(ids: set<nat>) returns (sess: nat)
    ensures forall s :: s in ids ==> s < sess
    decreases |ids|
  {
    if ids == {} {
      sess := 0;
    } else {
      var s :| s in ids;
      sess := Unused(ids - {s});
      if sess <= s { sess := s + 1; }
      forall x | x in ids ensures x < sess {
        if x != s { assert x in ids - {s}; }
      }
    }
  }

  /** The session for the attempt: the one of its own that has the lock, or a new one. */
  lemma OpenSession(sessions: map<nat, Session>, t: nat) returns (sess: nat)
    requires LocksOk(sessions) && LockOpenTo(sessions, t)
    ensures sess in sessions ==> sessions[sess].owner == t && sessions[sess].alive
    ensures !HoldsOther(sessions, sess)
  {
    if s :| s in sessions && sessions[s].holds > 0 {
      sess := s;
    } else {
      sess := Unused(sessions.Keys);
    }
  }

  /** The attempt that gets the lock, and the first start of the term. */
  function WinRun(t: nat, sess: nat): seq<Step> {
    [By(t, Dial(sess, true))] + ([By(t, TryLock(true, true))] + [By(t, StartLeader(true))])
  }

  /** The sessions once `t` has taken the lock with `sess`. */
  function Taken(sessions: map<nat, Session>, t: nat, sess: nat): map<nat, Session> {
    sessions[sess := Session(t, true, if sess in sessions then sessions[sess].holds + 1 else 1)]
  }

  lemma DialAndLock(cfg: Config, c: Cluster, t: nat, sess: nat)
    requires t in c.replicas && Dialling(c.replicas[t]) && !HoldsOther(c.sessions, sess)
    requires sess in c.sessions ==> c.sessions[sess].owner == t && c.sessions[sess].alive
    ensures var c2 := Apply(cfg, Apply(cfg, c, By(t, Dial(sess, true))), By(t, TryLock(true, true)));
            SameBut(c, c2, t) && c2.sessions == Taken(c.sessions, t, sess)
            && c2.replicas[t].leader == Serve(sess) && c2.replicas[t].leaderStarted == [] && !c2.replicas[t].active
  {
    var c1 := Apply(cfg, c, By(t, Dial(sess, true)));
    assert c1.replicas[t].leader == Elect(sess) && Grantable(c1.sessions, sess);
  }

  lemma {:induction false} WinRunWins(cfg: Config, c: Cluster, t: nat, sess: nat)
    requires t in c.replicas && cfg.leaders != [] && Dialling(c.replicas[t]) && !HoldsOther(c.sessions, sess)
    requires sess in c.sessions ==> c.sessions[sess].owner == t && c.sessions[sess].alive
    ensures OnlyBy(WinRun(t, sess), t)
    ensures var now := Exec(cfg, c, WinRun(t, sess));
            SameBut(c, now, t) && now.sessions == Taken(c.sessions, t, sess)
            && RunsLeaderModule(now, t) && now.replicas[t].leader == Serve(sess)
  {
    var dial, lock, start := By(t, Dial(sess, true)), By(t, TryLock(true, true)), By(t, StartLeader(true));
    DialAndLock(cfg, c, t, sess);
    ExecFirst(cfg, c, dial, [lock] + [start]);
    ExecFirst(cfg, Apply(cfg, c, dial), lock, [start]);
    ExecOne(cfg, Apply(cfg, Apply(cfg, c, dial), lock), start);
  }

  lemma {:induction false} OpenLockLetsIn(cfg: Config, c: Cluster, r: nat, t: nat) returns (more: seq<Step>)
    requires Inv(cfg, c) && RunsLeaderModule(c, r) && t in c.replicas && t != r
    requires StandsBy(c.replicas[t]) && cfg.leaders != [] && LockOpenTo(c.sessions, t)
    ensures Joins(cfg, c, more, r, t)
  {
    assert LocalOk(cfg, c.replicas[t]);
    var first := GetsToDial(cfg, c, t);
    var sess := OpenSession(c.sessions, t);
    WinRunWins(cfg, Exec(cfg, c, first), t, sess);
    more := first + WinRun(t, sess);
    ExecConcat(cfg, c, first, WinRun(t, sess));
  }

  /** `t` is in no term and cannot enter one: `lock` is another's and holds the lock. */
  predicate ShutOut(c: Cluster, t: nat, lock: nat) {
    && lock in c.sessions && c.sessions[lock].holds > 0 && c.sessions[lock].owner != t
    && t in c.replicas && c.replicas[t].leaderStarted == []
    && var l := c.replicas[t].leader;
       !InTerm(l) && (HasSession(l) ==> l.sess in c.sessions && c.sessions[l.sess].owner == t)
  }

  lemma LocalShutOut(cfg: Config, a: Replica, act: Act)
    requires !InTerm(a.leader) && a.leaderStarted == []
    ensures var b := Local(cfg, a, act);
            !InTerm(b.leader) && b.leaderStarted == [] && (HasSession(b.leader) ==> HasSession(a.leader) && b.leader.sess == a.leader.sess)
  {
  }

  lemma ActShutOut(cfg: Config, c: Cluster, t: nat, act: Act, lock: nat)
    requires ShutOut(c, t, lock)
    ensures ShutOut(ActStep(cfg, c, t, act), t, lock)
  {
    if act.TryLock? {
      if c.replicas[t].leader.Elect? { assert HoldsOther(c.sessions, c.replicas[t].leader.sess); }
    } else if !act.Dial? && !act.ReleaseLock? {
      LocalShutOut(cfg, c.replicas[t], act);
    }
  }

  lemma {:induction false} StaysShutOut(cfg: Config, c: Cluster, more: seq<Step>, t: nat, lock: nat)
    requires ShutOut(c, t, lock) && OnlyBy(more, t)
    ensures ShutOut(Exec(cfg, c, more), t, lock)
  {
    if more != [] {
      var n := |more| - 1;
      StaysShutOut(cfg, c, more[..n], t, lock);
      ActShutOut(cfg, Exec(cfg, c, more[..n]), t, more[n].act, lock);
    }
  }

  /** In any reachable cluster in which `r` runs leader-only modules, a replica that stands by
      can come to run them too, by its own steps alone, if and only if no session of another
      replica holds the lock. */
  lemma {:induction false} SecondLeaderIff(cfg: Config, c: Cluster, steps: seq<Step>, r: nat, t: nat)
    requires Proper(cfg) && Initial(c) && cfg.leaders != [] && r != t
    requires RunsLeaderModule(Exec(cfg, c, steps), r)
    requires t in Exec(cfg, c, steps).replicas && StandsBy(Exec(cfg, c, steps).replicas[t])
    ensures (exists more :: Joins(cfg, Exec(cfg, c, steps), more, r, t)) <==> LockOpenTo(Exec(cfg, c, steps).sessions, t)
  {
    var now := Exec(cfg, c, steps);
    InvAlways(cfg, c, steps);
    if LockOpenTo(now.sessions, t) {
      var more := OpenLockLetsIn(cfg, now, r, t);
    } else {
      var lock :| lock in now.sessions && now.sessions[lock].holds > 0 && now.sessions[lock].owner != t;
      assert LocalOk(cfg, now.replicas[t]);
      forall more ensures !Joins(cfg, now, more, r, t) {
        if OnlyBy(more, t) { StaysShutOut(cfg, now, more, t, lock); }
      }
    }
  }

  /** So a leader whose session is alive shuts every replica out that stands by; only one that
      has lost its session can be joined. */
  lemma {:induction false} LiveLeaderShutsOut(cfg: Config, c: Cluster, steps: seq<Step>, r: nat, t: nat, more: seq<Step>)
    requires Proper(cfg) && Initial(c) && cfg.leaders != [] && r != t
    requires RunsLeaderModule(Exec(cfg, c, steps), r) && SessionAlive(Exec(cfg, c, steps), r)
    requires t in Exec(cfg, c, steps).replicas && StandsBy(Exec(cfg, c, steps).replicas[t])
    ensures !Joins(cfg, Exec(cfg, c, steps), more, r, t)
  {
    LeaderHoldsLock(cfg, c, steps, r);
    SecondLeaderIff(cfg, c, steps, r, t);
  }

  // ---------- shutting down ----------

  /** The replica has been told to stop: its Stop waits for the cancelled leader loop, or is
      stopping modules, or is done. */
  predicate Closing(a: Replica) {
    || a.main == Ready
    || (a.main == Stopping && a.leader == Off)
    || (a.main == Waiting && a.cancelled && a.leader != Off)
  }

  /** How many acts its leader loop has left at most, once it is cancelled. */
  function LoopLeft(cfg: Config, a: Replica): int {
    match a.leader
    case Off => 0
    case Finished => 0
    case Sleep => 1
    case Connect => 1
    case Close(_) => 2
    case Unlock(_) => 3
    case Unwind(_) => 4 + |a.leaderStarted| + (if a.active then 1 else 0)
    case Serve(_) => 6 + 2 * |cfg.leaders| - |a.leaderStarted| + (if a.active then 0 else 1)
    case Elect(_) => 8 + 2 * |cfg.leaders|
  }

  function ActsLeft(cfg: Config, a: Replica): int {
    match a.main
    case Ready => 0
    case Stopping => 1 + |a.started|
    case _ => 2 + |a.started| + LoopLeft(cfg, a)
  }

  /** The acts of Stop and of the leader loop; giving up the wait and starting again are the
      caller's. */
  predicate Winds(act: Act) {
    !act.StopTimesOut? && !act.Begin?
  }

  lemma ClosingLocally(cfg: Config, a: Replica, act: Act)
    requires PlaceOk(cfg, a) && Closing(a) && Winds(act)
    ensures var b := Local(cfg, a, act);
            Closing(b) && (b == a || ActsLeft(cfg, b) < ActsLeft(cfg, a))
  {
  }

  lemma ClosingDials(cfg: Config, c: Cluster, r: nat, act: Act)
    requires r in c.replicas && PlaceOk(cfg, c.replicas[r]) && Closing(c.replicas[r])
    requires act.Dial? || act.TryLock? || act.ReleaseLock?
    ensures var a, b := c.replicas[r], ActStep(cfg, c, r, act).replicas[r];
            Closing(b) && (b == a || ActsLeft(cfg, b) < ActsLeft(cfg, a))
  {
  }

  lemma PlaceAlways(cfg: Config, c: Cluster, steps: seq<Step>, r: nat)
    requires Proper(cfg) && Initial(c) && r in Exec(cfg, c, steps).replicas
    ensures PlaceOk(cfg, Exec(cfg, c, steps).replicas[r])
  {
    InvAlways(cfg, c, steps);
    assert LocalOk(cfg, Exec(cfg, c, steps).replicas[r]);
  }

  lemma OthersApart(cfg: Config, c: Cluster, r: nat, step: Step)
    requires r in c.replicas && !(step.By? && step.r == r)
    ensures r in Apply(cfg, c, step).replicas && Apply(cfg, c, step).replicas[r] == c.replicas[r]
  {
  }

  /** In every reachable cluster, a replica that has been told to stop gets there: whatever step
      comes next, answers of hooks and of the database included, it has fewer acts left or is as it
      was; */
  lemma {:induction false} ClosingProgress(cfg: Config, c: Cluster, steps: seq<Step>, r: nat, step: Step)
    requires Proper(cfg) && Initial(c) && r in Exec(cfg, c, steps).replicas && Closing(Exec(cfg, c, steps).replicas[r])
    requires step.By? && step.r == r ==> Winds(step.act)
    ensures r in Apply(cfg, Exec(cfg, c, steps), step).replicas
    ensures var a, b := Exec(cfg, c, steps).replicas[r], Apply(cfg, Exec(cfg, c, steps), step).replicas[r];
            Closing(b) && (b == a || 0 <= ActsLeft(cfg, b) < ActsLeft(cfg, a))
  {
    hide Exec;
    var now := Exec(cfg, c, steps);
    PlaceAlways(cfg, c, steps, r);
    if step.By? && step.r == r {
      if step.act.Dial? || step.act.TryLock? || step.act.ReleaseLock? {
        ClosingDials(cfg, now, r, step.act);
      } else {
        ClosingLocally(cfg, now.replicas[r], step.act);
      }
      StepKept(cfg, c, steps, step);
      LeftIsNatural(cfg, Apply(cfg, now, step).replicas[r]);
    } else {
      OthersApart(cfg, now, r, step);
    }
  }

  lemma StepKept(cfg: Config, c: Cluster, steps: seq<Step>, step: Step)
    requires Proper(cfg) && Initial(c)
    ensures Inv(cfg, Apply(cfg, Exec(cfg, c, steps), step))
  {
    InvAlways(cfg, c, steps);
    StepKeeps(cfg, Exec(cfg, c, steps), step);
  }

  lemma LeftIsNatural(cfg: Config, a: Replica)
    requires LocalOk(cfg, a)
    ensures ActsLeft(cfg, a) >= 0
  {
  }

  /** and until it is done it has an act that leaves it fewer, whatever others do. Done, it runs
      nothing. */
  lemma {:induction false} ClosingNeverStuck(cfg: Config, c: Cluster, steps: seq<Step>, r: nat)
    requires Proper(cfg) && Initial(c) && r in Exec(cfg, c, steps).replicas && Closing(Exec(cfg, c, steps).replicas[r])
    ensures var now := Exec(cfg, c, steps);
            if now.replicas[r].main == Ready then now.replicas[r].started == [] && now.replicas[r].leaderStarted == []
            else exists act :: Winds(act) && Advances(cfg, now, r, act)
  {
    hide Exec;
    var now := Exec(cfg, c, steps);
    PlaceAlways(cfg, c, steps, r);
    if now.replicas[r].main != Ready {
      var act := NextAct(cfg, now.replicas[r]);
      NextAdvances(cfg, now, r);
      assert Winds(act) && Advances(cfg, now, r, act);
    }
  }

  predicate Advances(cfg: Config, c: Cluster, r: nat, act: Act) {
    && r in c.replicas && r in Apply(cfg, c, By(r, act)).replicas
    && ActsLeft(cfg, Apply(cfg, c, By(r, act)).replicas[r]) < ActsLeft(cfg, c.replicas[r])
  }

  function NextAct(cfg: Config, a: Replica): Act {
    if a.main == Stopping then StopModule
    else match a.leader
      case Connect => Dial(0, true)
      case Elect(_) => TryLock(true, true)
      case Serve(_) => if a.active then Tick(false) else if a.leaderStarted == cfg.leaders then Activate else StartLeader(true)
      case Unwind(_) => UnwindNext
      case Unlock(_) => ReleaseLock(true)
      case Close(_) => CloseConn
      case Sleep => Wake
      case _ => LeaderGone
  }

  lemma NextAdvances(cfg: Config, c: Cluster, r: nat)
    requires r in c.replicas && PlaceOk(cfg, c.replicas[r]) && Closing(c.replicas[r]) && c.replicas[r].main != Ready
    ensures Winds(NextAct(cfg, c.replicas[r])) && Advances(cfg, c, r, NextAct(cfg, c.replicas[r]))
  {
  }

  /** A leader that finds its connection lost, or is cancelled, unwinds at that tick, and goes on as
      before at any other. */
  lemma TickUnwinds(cfg: Config, c: Cluster, r: nat, lost: bool)
    requires r in c.replicas && c.replicas[r].leader.Serve? && c.replicas[r].active
    ensures var a, b := c.replicas[r], Apply(cfg, c, By(r, Tick(lost))).replicas[r];
            b == if lost || a.cancelled then a.(leader := Unwind(a.leader.sess)) else a
  {
  }

  /** Unwinding first clears the flag, then stops the term's modules in reverse start order, and
      then unlocks. */
  lemma {:induction false} UnwindsAll(cfg: Config, a: Replica, n: nat)
    requires a.leader.Unwind? && n == |a.leaderStarted| + 1 + (if a.active then 1 else 0)
    ensures var b := Unwound(a, n);
            && b.leader == Unlock(a.leader.sess) && b.leaderStarted == [] && !b.active
            && b.log == a.log + Stops(a.leaderStarted) && b.started == a.started && b.main == a.main
    decreases n
  {
    if n > 1 {
      var next := Local(cfg, a, UnwindNext);
      UnwindsAll(cfg, next, n - 1);
      if !a.active { StopsPeel(a.log, a.leaderStarted); }
    }
  }

  function Unwound(a: Replica, n: nat): Replica
    decreases n
  {
    if n == 0 then a else Unwound(UnwindStep(a), n - 1)
  }

  /** A Stop that gives up waiting leaves the replica as it was, up and cancelled. */
  lemma TimeoutStopsNothing(cfg: Config, c: Cluster, r: nat)
    requires r in c.replicas
    ensures var a, b := c.replicas[r], Apply(cfg, c, By(r, StopTimesOut)).replicas[r];
            b == if a.main == Waiting then a.(main := Up) else a
  {
  }

  /** A term begins exactly when the query finds the lock free and its answer arrives; the lock may
      have been taken without that. */
  lemma TermBeginsIff(cfg: Config, c: Cluster, r: nat, answered: bool, taken: bool)
    requires r in c.replicas && c.replicas[r].leader.Elect?
    ensures var sess, next := c.replicas[r].leader.sess, Apply(cfg, c, By(r, TryLock(answered, taken)));
            && (next.replicas[r].leader == Serve(sess) <==> answered && Grantable(c.sessions, sess))
            && (next.replicas[r].leader == Close(sess) <==> !(answered && Grantable(c.sessions, sess)))
            && next.sessions == if Grantable(c.sessions, sess) && (answered || taken)
                                then c.sessions[sess := c.sessions[sess].(holds := c.sessions[sess].holds + 1)] else c.sessions
  {
  }

  // ---------- losing a session ----------

  /** One leader-only module, and a run that elects replica `r` and starts it. */
  function OneModule(): Config {
    Config(map["x" := Meta([], true)], [], ["x"])
  }

  function ElectRun(r: nat, sess: nat): seq<Step> {
    [By(r, Begin)] + [By(r, FinishStart(true))] + WinRun(r, sess)
  }

  lemma FinishDials(c: Cluster, r: nat)
    requires r in c.replicas && c.replicas[r] == Fresh().(main := Starting)
    ensures var now := Apply(OneModule(), c, By(r, FinishStart(true)));
            SameBut(c, now, r) && now.sessions == c.sessions && Dialling(now.replicas[r])
  {
  }

  lemma FreshDials(c: Cluster, r: nat)
    requires r in c.replicas && c.replicas[r] == Fresh()
    ensures var now := Exec(OneModule(), c, [By(r, Begin)] + [By(r, FinishStart(true))]);
            SameBut(c, now, r) && now.sessions == c.sessions && Dialling(now.replicas[r])
  {
    var begun := Apply(OneModule(), c, By(r, Begin));
    assert begun.replicas[r] == Fresh().(main := Starting) && SameBut(c, begun, r) && begun.sessions == c.sessions;
    FinishDials(begun, r);
    ExecFirst(OneModule(), c, By(r, Begin), [By(r, FinishStart(true))]);
    ExecOne(OneModule(), begun, By(r, FinishStart(true)));
  }

  lemma ElectRunElects(c: Cluster, r: nat, sess: nat)
    requires r in c.replicas && c.replicas[r] == Fresh() && sess !in c.sessions && !HoldsOther(c.sessions, sess)
    ensures var now := Exec(OneModule(), c, ElectRun(r, sess));
            SameBut(c, now, r) && now.sessions == Taken(c.sessions, r, sess)
            && RunsLeaderModule(now, r) && now.replicas[r].leader == Serve(sess)
  {
    var first := [By(r, Begin)] + [By(r, FinishStart(true))];
    FreshDials(c, r);
    WinRunWins(OneModule(), Exec(OneModule(), c, first), r, sess);
    ExecConcat(OneModule(), c, first, WinRun(r, sess));
  }

  function TwoReplicas(): Cluster {
    Cluster(map[1 := Fresh(), 2 := Fresh()], map[])
  }

  /** The first replica is elected and loses its session. */
  lemma FirstLosesSession()
    ensures var lost := Exec(OneModule(), TwoReplicas(), ElectRun(1, 10) + [SessionDies(10)]);
            && RunsLeaderModule(lost, 1) && lost.replicas[1].leader == Serve(10)
            && 2 in lost.replicas && lost.replicas[2] == Fresh()
            && lost.sessions == map[10 := Session(1, false, 0)]
  {
    ElectRunElects(TwoReplicas(), 1, 10);
    ExecSnoc(OneModule(), TwoReplicas(), ElectRun(1, 10), SessionDies(10));
  }

  /** Without live sessions the bound fails: one replica keeps its modules running while its
      session has died and another replica has been elected. */
  lemma TwoLeadersAfterSessionLoss()
    ensures var now := Exec(OneModule(), TwoReplicas(), ElectRun(1, 10) + [SessionDies(10)] + ElectRun(2, 20));
            && Proper(OneModule()) && Initial(TwoReplicas())
            && RunsLeaderModule(now, 1) && RunsLeaderModule(now, 2)
            && !SessionAlive(now, 1) && SessionAlive(now, 2)
  {
    var lost := Exec(OneModule(), TwoReplicas(), ElectRun(1, 10) + [SessionDies(10)]);
    FirstLosesSession();
    ElectRunElects(lost, 2, 20);
    ExecConcat(OneModule(), TwoReplicas(), ElectRun(1, 10) + [SessionDies(10)], ElectRun(2, 20));
  }
}
