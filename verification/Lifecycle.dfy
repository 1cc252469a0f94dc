/** Starting and stopping modules. A log records every start that succeeded and every stop;
    replaying it as a stack says which modules are running, and fails unless modules stop in
    reverse start order, each once per start. */
module Lifecycle {
  import opened Wrappers
  import opened TopoSort

  datatype Meta = Meta(deps: seq<string>, leaderOnly: bool)

  type Mods = map<string, Meta>

  datatype Hook = Started(name: string) | Stopped(name: string)

  function DepsOf(mods: Mods): Deps {
    map n | n in mods :: mods[n].deps
  }

  // ---------- the log ----------

  function Push(stack: Option<seq<string>>, h: Hook): Option<seq<string>> {
    match (stack, h)
    case (None, _) => None
    case (Some(s), Started(n)) => Some(s + [n])
    case (Some(s), Stopped(n)) => if s != [] && s[|s| - 1] == n then Some(s[..|s| - 1]) else None
  }

  /** The running modules after a log, in start order; `None` if a stop was out of order. */
  function Stack(log: seq<Hook>): Option<seq<string>> {
    if log == [] then Some([]) else Push(Stack(log[..|log| - 1]), log[|log| - 1])
  }

  lemma StackSnoc(log: seq<Hook>, h: Hook)
    ensures Stack(log + [h]) == Push(Stack(log), h)
  {
    assert (log + [h])[..|log|] == log;
  }

  /** A module that runs on every replica may depend on one that runs on the leader only;
      that is the one dependency the life cycle does not order. */
  predicate Excepted(mods: Mods, m: string, d: string) {
    m in mods && d in mods && !mods[m].leaderOnly && mods[d].leaderOnly
  }

  predicate Needs(mods: Mods, m: string, d: string) {
    m in mods && d in mods[m].deps && !Excepted(mods, m, d)
  }

  /** Every module starts while all it needs is running, and stops when nothing that needs
      it is running. */
  ghost predicate Obeys(mods: Mods, log: seq<Hook>) {
    log == [] || (var front := log[..|log| - 1];
                  Obeys(mods, front) && Stack(front).Some? && HookObeys(mods, Stack(front).value, log[|log| - 1]))
  }

  ghost predicate HookObeys(mods: Mods, running: seq<string>, h: Hook) {
    match h
    case Started(m) => m !in running && forall d :: Needs(mods, m, d) ==> d in running
    case Stopped(d) => running != [] && running[|running| - 1] == d && forall m :: m in running ==> !Needs(mods, m, d)
  }

  lemma ObeysSnoc(mods: Mods, log: seq<Hook>, h: Hook)
    requires Obeys(mods, log) && Stack(log).Some? && HookObeys(mods, Stack(log).value, h)
    ensures Obeys(mods, log + [h])
  {
    assert (log + [h])[..|log|] == log;
  }

  /** The same at every position of the log. */
  lemma {:induction false} ObeysAt(mods: Mods, log: seq<Hook>, i: nat)
    requires Obeys(mods, log) && i < |log|
    ensures Stack(log[..i]).Some? && HookObeys(mods, Stack(log[..i]).value, log[i])
    decreases |log|
  {
    var front := log[..|log| - 1];
    if i < |front| {
      ObeysAt(mods, front, i);
      assert front[..i] == log[..i];
    }
  }

  // ---------- the start order ----------

  function Pick(mods: Mods, order: seq<string>, leaderOnly: bool): seq<string> {
    if order == [] then []
    else
      var last := order[|order| - 1];
      Pick(mods, order[..|order| - 1], leaderOnly)
      + (if last in mods && mods[last].leaderOnly == leaderOnly then [last] else [])
  }

  /** Modules of every replica first, then the leader's, each group in dependency order. */
  function FullOrder(mods: Mods, order: seq<string>): seq<string> {
    Pick(mods, order, false) + Pick(mods, order, true)
  }

  /** No duplicates, and whatever a module needs stands before it. */
  ghost predicate DepSorted(mods: Mods, s: seq<string>) {
    && NoDup(s)
    && (forall i, d :: 0 <= i < |s| && Needs(mods, s[i], d) ==> d in s[..i])
  }

  lemma {:induction false} PickElems(mods: Mods, order: seq<string>, leaderOnly: bool, x: string)
    ensures x in Pick(mods, order, leaderOnly) <==> x in order && x in mods && mods[x].leaderOnly == leaderOnly
  {
    if order != [] {
      PickElems(mods, order[..|order| - 1], leaderOnly, x);
      assert order == order[..|order| - 1] + [order[|order| - 1]];
    }
  }

  lemma {:induction false} PickNoDup(mods: Mods, order: seq<string>, leaderOnly: bool)
    requires NoDup(order)
    ensures NoDup(Pick(mods, order, leaderOnly))
  {
    if order != [] {
      var front, last := order[..|order| - 1], order[|order| - 1];
      PickNoDup(mods, front, leaderOnly);
      PickElems(mods, front, leaderOnly, last);
      assert last !in front;
    }
  }

  /** What is picked from the part of `order` before a picked module stands before it. */
  lemma {:induction false} PickSplit(mods: Mods, order: seq<string>, leaderOnly: bool, k: nat)
    requires k < |order| && order[k] in mods && mods[order[k]].leaderOnly == leaderOnly
    ensures Pick(mods, order[..k], leaderOnly) + [order[k]] <= Pick(mods, order, leaderOnly)
    decreases |order|
  {
    var front := order[..|order| - 1];
    if k < |front| {
      assert front[..k] == order[..k];
      PickSplit(mods, front, leaderOnly, k);
    }
  }

  /** A dependency of the same group stands earlier in the group. */
  lemma PickKeepsOrder(mods: Mods, order: seq<string>, leaderOnly: bool, i: nat, d: string)
    requires IsOrder(DepsOf(mods), order)
    requires i < |Pick(mods, order, leaderOnly)|
    requires Pick(mods, order, leaderOnly)[i] in mods && d in mods[Pick(mods, order, leaderOnly)[i]].deps
    requires d in mods && mods[d].leaderOnly == leaderOnly
    ensures d in Pick(mods, order, leaderOnly)[..i]
  {
    var p := Pick(mods, order, leaderOnly);
    var m := p[i];
    PickNoDup(mods, order, leaderOnly);
    PickElems(mods, order, leaderOnly, m);
    var k :| 0 <= k < |order| && order[k] == m;
    PickSplit(mods, order, leaderOnly, k);
    var before := Pick(mods, order[..k], leaderOnly);
    assert p[|before|] == m;
    assert |before| == i && p[..i] == before;
    assert d in DepsOf(mods)[order[k]] && d in order[..k];
    PickElems(mods, order[..k], leaderOnly, d);
  }

  /** The start order respects every dependency but the excepted ones. */
  lemma FullOrderSorted(mods: Mods, order: seq<string>)
    requires IsOrder(DepsOf(mods), order)
    ensures DepSorted(mods, FullOrder(mods, order))
  {
    var a, b, full := Pick(mods, order, false), Pick(mods, order, true), FullOrder(mods, order);
    PickNoDup(mods, order, false);
    PickNoDup(mods, order, true);
    forall i, j | 0 <= i < j < |full| ensures full[i] != full[j] {
      PickElems(mods, order, false, full[i]);
      PickElems(mods, order, true, full[j]);
      if i < |a| <= j { assert full[i] in a && full[j] in b; }
    }
    forall i, d | 0 <= i < |full| && Needs(mods, full[i], d) ensures d in full[..i] {
      NeededIsEarlier(mods, order, i, d);
    }
  }

  lemma NeededIsEarlier(mods: Mods, order: seq<string>, i: nat, d: string)
    requires IsOrder(DepsOf(mods), order) && i < |FullOrder(mods, order)|
    requires Needs(mods, FullOrder(mods, order)[i], d)
    ensures d in FullOrder(mods, order)[..i]
  {
    var a, b, full := Pick(mods, order, false), Pick(mods, order, true), FullOrder(mods, order);
    OrderedIsAcyclic(DepsOf(mods), order);
    assert Listed(DepsOf(mods), full[i]);
    assert d in Elems(order);
    PickElems(mods, order, false, d);
    if i < |a| {
      PickElems(mods, order, false, a[i]);
      assert a[i] in a;
      PickKeepsOrder(mods, order, false, i, d);
      assert full[..i] == a[..i];
    } else {
      assert full[..i] == a + b[..i - |a|];
      if mods[d].leaderOnly {
        PickKeepsOrder(mods, order, true, i - |a|, d);
      }
    }
  }

  // ---------- running a prefix of the start order ----------

  /** The log is well formed and the modules `running`, a prefix of `full`, are running. */
  ghost predicate RunsPrefix(mods: Mods, full: seq<string>, log: seq<Hook>, running: seq<string>) {
    running <= full && Stack(log) == Some(running) && Obeys(mods, log)
  }

  lemma StartNext(mods: Mods, full: seq<string>, log: seq<Hook>, running: seq<string>, name: string)
    requires DepSorted(mods, full) && RunsPrefix(mods, full, log, running) && running + [name] <= full
    ensures RunsPrefix(mods, full, log + [Started(name)], running + [name])
  {
    assert full[|running|] == name && full[..|running|] == running;
    ObeysSnoc(mods, log, Started(name));
    StackSnoc(log, Started(name));
  }

  lemma StopLast(mods: Mods, full: seq<string>, log: seq<Hook>, running: seq<string>, name: string)
    requires DepSorted(mods, full) && RunsPrefix(mods, full, log, running + [name])
    ensures RunsPrefix(mods, full, log + [Stopped(name)], running)
  {
    var all := running + [name];
    forall m | m in all ensures !Needs(mods, m, name) {
      var i :| 0 <= i < |all| && full[i] == m;
      assert full[|running|] == name;
      assert name !in full[..i];
    }
    ObeysSnoc(mods, log, Stopped(name));
    StackSnoc(log, Stopped(name));
    assert all[..|running|] == running;
  }

  lemma DropSnoc(log: seq<Hook>, h: Hook, k: nat)
    requires k <= |log|
    ensures (log + [h])[k..] == log[k..] + [h]
  {
  }

  lemma StartLogged(mods: Mods, full: seq<string>, log: seq<Hook>, epoch: nat, running: seq<string>, name: string)
    requires epoch <= |log| && DepSorted(mods, full) && RunsPrefix(mods, full, log[epoch..], running)
    requires running + [name] <= full
    ensures RunsPrefix(mods, full, (log + [Started(name)])[epoch..], running + [name])
  {
    StartNext(mods, full, log[epoch..], running, name);
    DropSnoc(log, Started(name), epoch);
  }

  lemma StopLogged(mods: Mods, full: seq<string>, log: seq<Hook>, epoch: nat, running: seq<string>, name: string)
    requires epoch <= |log| && DepSorted(mods, full) && RunsPrefix(mods, full, log[epoch..], running + [name])
    ensures RunsPrefix(mods, full, (log + [Stopped(name)])[epoch..], running)
  {
    StopLast(mods, full, log[epoch..], running, name);
    DropSnoc(log, Stopped(name), epoch);
  }

  lemma PrefixAppend<T>(a: seq<T>, b: seq<T>, c: seq<T>)
    requires b <= c
    ensures a + b <= a + c
  {
    assert c == b + c[|b|..];
    assert a + c == (a + b) + c[|b|..];
  }

  // ---------- the registry ----------

  /** What the registry of one replica keeps. `everywhere` and `leaders` are the enabled
      modules in dependency order, split by where they run. `startFails` answers for the
      modules' own start hooks, which are not part of this model. `epoch` is where in the log
      the current list of started modules began: a Start forgets whatever was listed. */
  class Registry {
    const mods: Mods
    const everywhere: seq<string>
    const leaders: seq<string>
    var started: seq<string>
    var leaderStarted: seq<string>
    var leaderActive: bool
    var log: seq<Hook>
    ghost var epoch: nat

    ghost predicate Valid()
      reads this
    {
      && DepSorted(mods, everywhere + leaders)
      && started <= everywhere && leaderStarted <= leaders
      && (leaderStarted != [] ==> started == everywhere)
      && (leaderActive ==> leaderStarted == leaders)
      && epoch <= |log|
      && RunsPrefix(mods, everywhere + leaders, log[epoch..], started + leaderStarted)
    }

    constructor (mods: Mods, order: seq<string>)
      requires IsOrder(DepsOf(mods), order)
      ensures Valid() && this.mods == mods && started == [] && leaderStarted == [] && log == [] && !leaderActive
      ensures epoch == 0
      ensures everywhere == Pick(mods, order, false) && leaders == Pick(mods, order, true)
    {
      this.mods, everywhere, leaders := mods, Pick(mods, order, false), Pick(mods, order, true);
      started, leaderStarted, leaderActive, log, epoch := [], [], false, [], 0;
      FullOrderSorted(mods, order);
    }

    ghost predicate Idle()
      reads this
    {
      leaderStarted == [] && !leaderActive
    }

    method StartNextEverywhere()
      requires Valid() && Idle() && |started| < |everywhere|
      modifies this`started, this`log
      ensures Valid() && started == old(started) + [everywhere[|old(started)|]]
      ensures log == old(log) + [Started(everywhere[|old(started)|])]
    {
      var name := everywhere[|started|];
      assert started + leaderStarted == started && (started + [name]) + leaderStarted == started + [name];
      StartLogged(mods, everywhere + leaders, log, epoch, started, name);
      started := started + [name];
      log := log + [Started(name)];
    }

    method StartNextLeader()
      requires Valid() && !leaderActive && started == everywhere && |leaderStarted| < |leaders|
      modifies this`leaderStarted, this`log
      ensures Valid() && leaderStarted == old(leaderStarted) + [leaders[|old(leaderStarted)|]]
      ensures log == old(log) + [Started(leaders[|old(leaderStarted)|])]
    {
      var name := leaders[|leaderStarted|];
      PrefixAppend(everywhere, leaderStarted + [name], leaders);
      assert (everywhere + leaderStarted) + [name] == everywhere + (leaderStarted + [name]);
      StartLogged(mods, everywhere + leaders, log, epoch, everywhere + leaderStarted, name);
      leaderStarted := leaderStarted + [name];
      log := log + [Started(name)];
    }

    method StopLastEverywhere()
      requires Valid() && Idle() && started != []
      modifies this`started, this`log
      ensures Valid() && started == old(started)[..|old(started)| - 1]
      ensures log == old(log) + [Stopped(old(started)[|old(started)| - 1])]
    {
      var rest, name := started[..|started| - 1], started[|started| - 1];
      assert rest + [name] == started + leaderStarted && rest + leaderStarted == rest;
      StopLogged(mods, everywhere + leaders, log, epoch, rest, name);
      started := rest;
      log := log + [Stopped(name)];
    }

    method StopLastLeader()
      requires Valid() && !leaderActive && leaderStarted != []
      modifies this`leaderStarted, this`log
      ensures Valid() && leaderStarted == old(leaderStarted)[..|old(leaderStarted)| - 1]
      ensures log == old(log) + [Stopped(old(leaderStarted)[|old(leaderStarted)| - 1])]
    {
      var rest, name := leaderStarted[..|leaderStarted| - 1], leaderStarted[|leaderStarted| - 1];
      assert (started + rest) + [name] == started + leaderStarted;
      StopLogged(mods, everywhere + leaders, log, epoch, started + rest, name);
      leaderStarted := rest;
      log := log + [Stopped(name)];
    }

    /** One round of the loop below: the next module starts, or its start hook fails. */
    method TryStartEverywhere(startFails: string -> bool, ghost start: seq<Hook>) returns (failed: bool)
      requires Valid() && Idle() && |started| < |everywhere|
      requires log == start + Starts(started) && Remaining(startFails, everywhere, started, false)
      modifies this`started, this`log
      ensures Valid() && log == start + Starts(started) && Remaining(startFails, everywhere, started, failed)
      ensures |started| == |old(started)| + (if failed then 0 else 1)
    {
      OneFurther(startFails, everywhere, started);
      failed := startFails(everywhere[|started|]);
      if !failed {
        StartsSnoc(started, everywhere[|started|]);
        StartNextEverywhere();
      }
    }

    /** The loop of Start over the modules of every replica. */
    method StartEverywhere(startFails: string -> bool) returns (failed: bool)
      requires Valid() && Idle() && started == []
      modifies this`started, this`log
      ensures Valid() && log == old(log) + Starts(started)
      ensures started == UpToFailure(startFails, everywhere) && failed == (started != everywhere)
    {
      failed := false;
      NothingYet(startFails, everywhere);
      NoStarts(log);
      while |started| < |everywhere| && !failed
        invariant Valid() && log == old(log) + Starts(started)
        invariant Remaining(startFails, everywhere, started, failed)
        decreases |everywhere| - |started|, !failed
      {
        failed := TryStartEverywhere(startFails, old(log));
      }
      AllRemaining(startFails, everywhere, started, failed);
    }

    /** One round of the loop below: the next module starts, or its start hook fails. */
    method TryStartLeader(startFails: string -> bool, ghost start: seq<Hook>) returns (failed: bool)
      requires Valid() && !leaderActive && started == everywhere && |leaderStarted| < |leaders|
      requires log == start + Starts(leaderStarted) && Remaining(startFails, leaders, leaderStarted, false)
      modifies this`leaderStarted, this`log
      ensures Valid() && log == start + Starts(leaderStarted) && Remaining(startFails, leaders, leaderStarted, failed)
      ensures |leaderStarted| == |old(leaderStarted)| + (if failed then 0 else 1)
    {
      OneFurther(startFails, leaders, leaderStarted);
      failed := startFails(leaders[|leaderStarted|]);
      if !failed {
        StartsSnoc(leaderStarted, leaders[|leaderStarted|]);
        StartNextLeader();
      }
    }

    /** The loop of a leader term over the modules that run on the leader only. */
    method StartLeaders(startFails: string -> bool) returns (failed: bool)
      requires Valid() && Idle() && started == everywhere
      modifies this`leaderStarted, this`log
      ensures Valid() && log == old(log) + Starts(leaderStarted)
      ensures leaderStarted == UpToFailure(startFails, leaders) && failed == (leaderStarted != leaders)
    {
      failed := false;
      NothingYet(startFails, leaders);
      NoStarts(log);
      while |leaderStarted| < |leaders| && !failed
        invariant Valid() && !leaderActive && log == old(log) + Starts(leaderStarted)
        invariant Remaining(startFails, leaders, leaderStarted, failed)
        decreases |leaders| - |leaderStarted|, !failed
      {
        failed := TryStartLeader(startFails, old(log));
      }
      AllRemaining(startFails, leaders, leaderStarted, failed);
    }

    method StopEverywhere()
      requires Valid() && Idle()
      modifies this`started, this`log
      ensures Valid() && started == [] && log == old(log) + Stops(old(started))
    {
      while started != []
        invariant Valid() && Idle() && log + Stops(started) == old(log) + Stops(old(started))
        decreases |started|
      {
        StopsPeel(log, started);
        StopLastEverywhere();
      }
    }

    method StopLeaders()
      requires Valid() && !leaderActive
      modifies this`leaderStarted, this`log
      ensures Valid() && leaderStarted == [] && log == old(log) + Stops(old(leaderStarted))
    {
      while leaderStarted != []
        invariant Valid() && !leaderActive && log + Stops(leaderStarted) == old(log) + Stops(old(leaderStarted))
        decreases |leaderStarted|
      {
        StopsPeel(log, leaderStarted);
        StopLastLeader();
      }
    }

    /** Start the modules of every replica, up to the first that fails; on a failure, that or
        one of the database, stop what was started. What an earlier Start left running is
        forgotten, and will not be stopped. */
    method Start(startFails: string -> bool, databaseFails: bool) returns (err: bool)
      requires Valid() && Idle()
      modifies this
      ensures Valid() && Idle()
      ensures epoch == if old(started) == [] then old(epoch) else |old(log)|
      ensures err <==> UpToFailure(startFails, everywhere) != everywhere || (leaders != [] && databaseFails)
      ensures started == if err then [] else everywhere
      ensures var run := UpToFailure(startFails, everywhere);
              log == old(log) + Starts(run) + (if err then Stops(run) else [])
    {
      if |started| != 0 {
        epoch := |log|;
        assert log[epoch..] == [];
      }
      started := [];
      err := StartEverywhere(startFails);
      err := err || (leaders != [] && databaseFails);
      if err {
        var _ := Stop(true);
      }
    }

    /** Once the leader goroutine is done, stop everything in reverse start order; if the
        caller's deadline passes first, stop nothing. */
    method Stop(leaderDone: bool) returns (stopped: bool)
      requires Valid() && (leaderDone ==> Idle())
      modifies this
      ensures Valid() && stopped == leaderDone && leaderStarted == old(leaderStarted) && leaderActive == old(leaderActive)
      ensures epoch == old(epoch)
      ensures stopped ==> started == [] && log == old(log) + Stops(old(started))
      ensures !stopped ==> started == old(started) && log == old(log)
    {
      if leaderDone {
        StopEverywhere();
      }
      stopped := leaderDone;
    }

    /** One term: start the leader's modules up to the first that fails, hold until the tick
        loop ends, then stop the started ones in reverse order. `alive` is the sequence of
        ticker answers. */
    method ServeLeader(startFails: string -> bool, alive: seq<bool>)
      requires Valid() && Idle() && started == everywhere
      modifies this
      ensures Valid() && Idle() && started == old(started) && epoch == old(epoch)
      ensures log == old(log) + TermHooks(startFails, leaders)
    {
      var failed := StartLeaders(startFails);
      if !failed {
        leaderActive := true;
        var tick := 0;
        while tick < |alive| && alive[tick]
        {
          tick := tick + 1;
        }
      }
      leaderActive := false;
      StopLeaders();
      TermOnLog(old(log), startFails, leaders);
    }

    /** The leader loop until it is cancelled: each attempt that gets the lock is one term, and
        every term stops what it started before the next one begins. */
    method RunLeader(attempts: seq<Attempt>)
      requires Valid() && Idle() && started == everywhere
      modifies this
      ensures Valid() && Idle() && started == old(started) && epoch == old(epoch)
      ensures log == old(log) + LoopHooks(attempts, leaders)
    {
      assert old(log) + LoopHooks(attempts[..0], leaders) == old(log);
      for n := 0 to |attempts|
        invariant Valid() && Idle() && started == everywhere && epoch == old(epoch)
        invariant log == old(log) + LoopHooks(attempts[..n], leaders)
      {
        LoopNext(old(log), attempts, leaders, n);
        if attempts[n].connected {
          if attempts[n].answered && attempts[n].acquired {
            ServeLeader(attempts[n].startFails, attempts[n].alive);
          }
        }
      }
      assert attempts[..|attempts|] == attempts;
    }
  }

  /** One round of the leader loop: whether a connection was made, the election query answered
      and the lock acquired, and what a term would meet with. */
  datatype Attempt = Attempt(connected: bool, answered: bool, acquired: bool, startFails: string -> bool, alive: seq<bool>)

  predicate Wins(a: Attempt) {
    a.connected && a.answered && a.acquired
  }

  /** The modules of `names` that get started: those before the first that fails. */
  function UpToFailure(fails: string -> bool, names: seq<string>): seq<string> {
    if names == [] || fails(names[0]) then [] else [names[0]] + UpToFailure(fails, names[1..])
  }

  predicate NoneFails(fails: string -> bool, names: seq<string>) {
    forall i :: 0 <= i < |names| ==> !fails(names[i])
  }

  /** It is the one beginning of `names` in which nothing fails and after which either all are
      started or the next one fails. */
  lemma {:induction false} UpToFailureIs(fails: string -> bool, names: seq<string>, run: seq<string>)
    ensures run == UpToFailure(fails, names)
            <==> run <= names && NoneFails(fails, run) && (run == names || fails(names[|run|]))
  {
    if names != [] && !fails(names[0]) {
      var rest := names[1..];
      if run != [] && run[0] == names[0] {
        UpToFailureIs(fails, rest, run[1..]);
        assert run == [run[0]] + run[1..] && names == [names[0]] + rest;
        assert run <= names <==> run[1..] <= rest;
        assert NoneFails(fails, run) <==> NoneFails(fails, run[1..]) by {
          assert forall i :: 1 <= i < |run| ==> run[i] == run[1..][i - 1];
          assert forall i :: 0 <= i < |run| - 1 ==> run[1..][i] == run[i + 1];
        }
      }
    }
  }

  /** `run` has been started; if nothing failed, the run goes on with what follows. */
  predicate Remaining(fails: string -> bool, names: seq<string>, run: seq<string>, failed: bool) {
    && run <= names && (failed ==> run != names)
    && UpToFailure(fails, names) == if failed then run else run + UpToFailure(fails, names[|run|..])
  }

  lemma NothingYet(fails: string -> bool, names: seq<string>)
    ensures Remaining(fails, names, [], false)
  {
    assert names[0..] == names;
  }

  lemma OneFurther(fails: string -> bool, names: seq<string>, run: seq<string>)
    requires Remaining(fails, names, run, false) && |run| < |names|
    ensures var next := names[|run|];
            if fails(next) then Remaining(fails, names, run, true) else Remaining(fails, names, run + [next], false)
  {
    var next, rest := names[|run|], names[|run|..];
    assert rest[0] == next && rest[1..] == names[|run| + 1..];
    assert run + ([next] + UpToFailure(fails, rest[1..])) == (run + [next]) + UpToFailure(fails, rest[1..]);
  }

  lemma AllRemaining(fails: string -> bool, names: seq<string>, run: seq<string>, failed: bool)
    requires Remaining(fails, names, run, failed) && (failed || run == names)
    ensures run == UpToFailure(fails, names)
  {
  }

  lemma TermOnLog(log: seq<Hook>, fails: string -> bool, leaders: seq<string>)
    ensures var run := UpToFailure(fails, leaders); log + TermHooks(fails, leaders) == log + Starts(run) + Stops(run)
  {
  }

  /** What one term starts and stops. */
  function TermHooks(fails: string -> bool, leaders: seq<string>): seq<Hook> {
    Starts(UpToFailure(fails, leaders)) + Stops(UpToFailure(fails, leaders))
  }

  /** The hooks of the leader loop: a term for each attempt that gets the lock. */
  function LoopHooks(attempts: seq<Attempt>, leaders: seq<string>): seq<Hook> {
    if attempts == [] then []
    else
      var last := attempts[|attempts| - 1];
      LoopHooks(attempts[..|attempts| - 1], leaders) + (if Wins(last) then TermHooks(last.startFails, leaders) else [])
  }

  lemma LoopNext(log: seq<Hook>, attempts: seq<Attempt>, leaders: seq<string>, n: nat)
    requires n < |attempts|
    ensures log + LoopHooks(attempts[..n + 1], leaders)
         == if Wins(attempts[n]) then log + LoopHooks(attempts[..n], leaders) + TermHooks(attempts[n].startFails, leaders)
            else log + LoopHooks(attempts[..n], leaders)
  {
    assert attempts[..n + 1][..n] == attempts[..n];
  }

  /** The hooks of starting `names` in order, and of stopping them in reverse. */
  function Starts(names: seq<string>): seq<Hook> {
    seq(|names|, i requires 0 <= i < |names| => Started(names[i]))
  }

  function Stops(names: seq<string>): seq<Hook> {
    if names == [] then [] else [Stopped(names[|names| - 1])] + Stops(names[..|names| - 1])
  }

  lemma NoStarts(log: seq<Hook>)
    ensures log + Starts([]) == log
  {
  }

  lemma StartsSnoc(names: seq<string>, n: string)
    ensures Starts(names + [n]) == Starts(names) + [Started(n)]
  {
  }

  lemma HooksAssociate(a: seq<Hook>, b: seq<Hook>, c: seq<Hook>)
    ensures a + (b + c) == (a + b) + c
  {
  }

  lemma StopsPeel(log: seq<Hook>, names: seq<string>)
    requires names != []
    ensures log + Stops(names) == (log + [Stopped(names[|names| - 1])]) + Stops(names[..|names| - 1])
  {
    HooksAssociate(log, [Stopped(names[|names| - 1])], Stops(names[..|names| - 1]));
  }
}
