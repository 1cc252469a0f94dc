/** The table of LLM configurations and its default. Every change runs inside a transaction
    that first takes the table's exclusive lock, so only one transaction writes at a time;
    others read what is committed. `opens` stands for whether a stored key can be decrypted. */
module LlmDefault {
  import opened Wrappers

  /** `columns` are all the stored columns but the id and the flag. */
  datatype Config = Config(columns: map<string, string>, active: bool) {
    function Key(): string {
      if "api_key" in columns then columns["api_key"] else ""
    }
  }

  type Table = map<nat, Config>

  datatype Request =
    | Normalise
    | Save(newId: nat, columns: map<string, string>)
    | Update(id: nat, updates: map<string, string>)
    | Delete(id: nat)
    | SetDefault(id: nat)

  /** The writing statements. */
  datatype Write =
    | ClearActive
    | KeepHighest
    | CreateIndex
    | Insert(id: nat, columns: map<string, string>)
    | SetActive(id: nat, active: bool)
    | SetColumns(id: nat, updates: map<string, string>)
    | Remove(id: nat)

  function Active(t: Table): (ids: set<nat>)
    ensures forall id :: id in ids <==> id in t && t[id].active
  {
    set id | id in t && t[id].active
  }

  predicate AtMostOne(t: Table) {
    forall a, b :: a in Active(t) && b in Active(t) ==> a == b
  }

  predicate HasOne(t: Table) {
    AtMostOne(t) && Active(t) != {}
  }

  predicate HighestActive(t: Table, id: nat) {
    id in t && t[id].active && forall other :: other in t && t[other].active ==> other <= id
  }

  function Highest(t: Table): (ids: set<nat>)
    ensures forall id :: id in ids <==> HighestActive(t, id)
  {
    set id | id in t && HighestActive(t, id)
  }

  function WithActive(t: Table, ids: set<nat>): (r: Table)
    ensures r.Keys == t.Keys
    ensures forall id :: id in t ==> r[id] == t[id].(active := id in ids)
  {
    map id | id in t :: t[id].(active := id in ids)
  }

  /** The effect of one statement. An insert of an id already present is an error, and so is
      the unique index on the active rows if there are two of them. */
  function Perform(t: Table, w: Write): Option<Table> {
    match w
    case ClearActive => Some(WithActive(t, {}))
    case KeepHighest => Some(WithActive(t, Highest(t)))
    case CreateIndex => if AtMostOne(t) then Some(t) else None
    case Insert(id, columns) => if id in t then None else Some(t[id := Config(columns, true)])
    case SetActive(id, active) => Some(if id in t then t[id := t[id].(active := active)] else t)
    case SetColumns(id, updates) => Some(if id in t then t[id := t[id].(columns := t[id].columns + updates)] else t)
    case Remove(id) => Some(t - {id})
  }

  // ---------- requests ----------

  predicate HighestOther(t: Table, id: nat, r: nat) {
    r in t && r != id && forall other :: other in t && other != id ==> other <= r
  }

  lemma OtherExists(t: Table, id: nat)
    requires id in t && t.Keys != {id}
    ensures exists r :: HighestOther(t, id, r)
  {
    assert t.Keys == (t.Keys - {id}) + {id};
    var r := Largest(t.Keys - {id});
    forall other | other in t && other != id ensures other <= r { assert other in t.Keys - {id}; }
    assert HighestOther(t, id, r);
  }

  lemma {:induction false} Largest(s: set<nat>) returns (r: nat)
    requires s != {}
    ensures r in s && forall x :: x in s ==> x <= r
    decreases |s|
  {
    r :| r in s;
    if s != {r} {
      var rest := Largest(s - {r});
      forall x | x in s ensures x <= if r < rest then rest else r {
        if x != r { assert x in s - {r}; }
      }
      if r < rest { r := rest; }
    }
  }

  /** What a request does once it holds the lock: nothing but an error, or its writes. All its
      reads come before its first write. */
  ghost predicate Plans(request: Request, t: Table, opens: string -> bool, writes: seq<Write>) {
    match request
    case Normalise => writes == [KeepHighest, CreateIndex]
    case Save(id, columns) => writes == [ClearActive, Insert(id, columns)]
    case Update(id, updates) => if updates == map[] then writes == [] else id in t && writes == [SetColumns(id, updates)]
    case Delete(id) =>
      && id in t
      && (if !t[id].active then writes == [Remove(id)]
          else exists r :: HighestOther(t, id, r) && opens(t[r].Key())
                           && writes == [SetActive(id, false), SetActive(r, true), Remove(id)])
    case SetDefault(id) => id in t && opens(t[id].Key()) && writes == [ClearActive, SetActive(id, true)]
  }

  /** The table a transaction sees after its first `k` writes. */
  function After(t: Table, writes: seq<Write>, k: nat): Option<Table>
    requires k <= |writes|
  {
    if k == 0 then Some(t)
    else match After(t, writes, k - 1) case None => None case Some(before) => Perform(before, writes[k - 1])
  }

  // ---------- the effect on the active rows ----------

  function ActiveAfter(ids: set<nat>, w: Write): set<nat>
    requires w != KeepHighest
  {
    match w
    case ClearActive => {}
    case Insert(id, _) => ids + {id}
    case SetActive(id, active) => if active then ids + {id} else ids - {id}
    case CreateIndex => ids
    case SetColumns(_, _) => ids
    case Remove(id) => ids - {id}
    case KeepHighest => assert false; ids
  }

  lemma PerformActive(t: Table, w: Write)
    requires Perform(t, w).Some? && w != KeepHighest && (w.SetActive? ==> w.id in t)
    ensures Active(Perform(t, w).value) == ActiveAfter(Active(t), w)
  {
  }

  /** Of several active rows the normalisation keeps the one with the highest id. */
  lemma NormaliseKeepsHighest(t: Table)
    ensures var after := Perform(t, KeepHighest).value;
            && AtMostOne(after) && after.Keys == t.Keys
            && (forall id :: id in Active(after) <==> HighestActive(t, id))
            && (Active(t) != {} ==> HasOne(after))
            && (AtMostOne(t) ==> after == t)
  {
    var after := Perform(t, KeepHighest).value;
    if Active(t) != {} {
      var top := Largest(Active(t));
      assert HighestActive(t, top);
      assert top in Active(after);
    }
    if AtMostOne(t) {
      forall id | id in t ensures after[id] == t[id] {
        if t[id].active {
          assert id in Active(t);
          forall other | other in t && t[other].active ensures other <= id { assert other in Active(t); }
          assert HighestActive(t, id);
        }
      }
    }
  }

  /** Clearing and then choosing leaves exactly the chosen row. */
  lemma ChooseOne(t: Table, w: Write)
    requires w.Insert? || (w.SetActive? && w.active && w.id in t)
    ensures var cleared := Perform(t, ClearActive).value;
            && Active(cleared) == {}
            && (Perform(cleared, w).Some? ==> Active(Perform(cleared, w).value) == {w.id})
  {
    PerformActive(t, ClearActive);
    var cleared := Perform(t, ClearActive).value;
    if Perform(cleared, w).Some? { PerformActive(cleared, w); }
  }

  /** Deleting the default hands it to the highest of the others, and at no statement are two
      rows active. */
  lemma ReplaceDefault(t: Table, id: nat, r: nat)
    requires id in t && t[id].active && AtMostOne(t) && HighestOther(t, id, r)
    ensures var t1 := Perform(t, SetActive(id, false)).value;
            var t2 := Perform(t1, SetActive(r, true)).value;
            var t3 := Perform(t2, Remove(id)).value;
            Active(t1) == {} && Active(t2) == {r} && Active(t3) == {r} && t3.Keys == t.Keys - {id}
  {
    assert Active(t) == {id};
    var t1 := Perform(t, SetActive(id, false)).value;
    PerformActive(t, SetActive(id, false));
    assert Active(t1) == {};
    var t2 := Perform(t1, SetActive(r, true)).value;
    PerformActive(t1, SetActive(r, true));
    PerformActive(t2, Remove(id));
  }

  /** What holds at the k-th statement boundary of a transaction that began on `t`. */
  ghost predicate BoundaryOk(request: Request, t: Table, writes: seq<Write>, k: nat)
    requires k <= |writes|
  {
    var now := After(t, writes, k);
    now.Some? ==>
      && (AtMostOne(t) || (request.Normalise? && k > 0) ==> AtMostOne(now.value))
      && (k == |writes| && (request.Save? || request.SetDefault?) ==> HasOne(now.value))
      && (k == |writes| && HasOne(t) ==> HasOne(now.value))
  }

  lemma ChoosingBoundaries(request: Request, t: Table, w: Write, k: nat)
    requires k <= 2 && (request.Save? || request.SetDefault?)
    requires w.Insert? || (w.SetActive? && w.active && w.id in t)
    ensures BoundaryOk(request, t, [ClearActive, w], k)
  {
    var writes := [ClearActive, w];
    ChooseOne(t, w);
    assert After(t, writes, 0) == Some(t);
    assert After(t, writes, 1) == Perform(t, writes[0]);
    assert After(t, writes, 2) == Perform(After(t, writes, 1).value, writes[1]);
  }

  lemma ReplacingBoundaries(t: Table, id: nat, r: nat, k: nat)
    requires id in t && t[id].active && HighestOther(t, id, r) && k <= 3
    ensures BoundaryOk(Delete(id), t, [SetActive(id, false), SetActive(r, true), Remove(id)], k)
  {
    if AtMostOne(t) {
      var writes := [SetActive(id, false), SetActive(r, true), Remove(id)];
      ReplaceDefault(t, id, r);
      assert After(t, writes, 0) == Some(t);
      assert After(t, writes, 1) == Perform(t, writes[0]);
      assert After(t, writes, 2) == Perform(After(t, writes, 1).value, writes[1]);
      assert k == 3 ==> After(t, writes, 3) == Perform(After(t, writes, 2).value, writes[2]);
    }
  }

  /** The normalisation's index finds nothing to object to. */
  lemma NormaliseBoundaries(t: Table, k: nat)
    requires k <= 2
    ensures After(t, [KeepHighest, CreateIndex], k).Some? && BoundaryOk(Normalise, t, [KeepHighest, CreateIndex], k)
  {
    var writes := [KeepHighest, CreateIndex];
    NormaliseKeepsHighest(t);
    assert After(t, writes, 0) == Some(t);
    assert After(t, writes, 1) == Perform(t, writes[0]);
    assert After(t, writes, 2) == Perform(After(t, writes, 1).value, writes[1]);
  }

  lemma SingleBoundaries(request: Request, t: Table, w: Write, k: nat)
    requires k <= 1
    requires (request.Update? && w.SetColumns?)
             || (request.Delete? && w == Remove(request.id) && request.id in t && !t[request.id].active)
    ensures BoundaryOk(request, t, [w], k)
  {
    assert After(t, [w], 0) == Some(t);
    if k == 1 {
      assert After(t, [w], 1) == Perform(t, w);
      PerformActive(t, w);
    }
  }

  /** Every boundary of every planned transaction. */
  lemma Boundaries(request: Request, t: Table, opens: string -> bool, writes: seq<Write>, k: nat)
    requires Plans(request, t, opens, writes) && k <= |writes|
    ensures BoundaryOk(request, t, writes, k)
  {
    match request
    case Normalise => NormaliseBoundaries(t, k);
    case Save(id, columns) => ChoosingBoundaries(request, t, Insert(id, columns), k);
    case SetDefault(id) => ChoosingBoundaries(request, t, SetActive(id, true), k);
    case Update(id, updates) => if updates != map[] { SingleBoundaries(request, t, SetColumns(id, updates), k); }
    case Delete(id) =>
      if !t[id].active {
        SingleBoundaries(request, t, Remove(id), k);
      } else {
        var r :| HighestOther(t, id, r) && opens(t[r].Key())
                 && writes == [SetActive(id, false), SetActive(r, true), Remove(id)];
        ReplacingBoundaries(t, id, r, k);
      }
  }

  // ---------- runs ----------

  datatype Open = Open(request: Request, writes: seq<Write>, done: nat, work: Table)

  /** `open` is the transaction that holds the lock. `started` records that a normalisation
      has committed, `chosen` that a save or a change of default has since then. */
  datatype State = State(committed: Table, open: Option<Open>, started: bool, chosen: bool)

  /** `Statement` runs the next write of the open transaction; `Abort` is any failure, of the
      statement, the connection or the process. */
  datatype Step = Begin(request: Request, writes: seq<Write>) | Statement | Commit | Abort

  ghost function Apply(opens: string -> bool, s: State, step: Step): State {
    match step
    case Begin(request, writes) =>
      if s.open.Some? || !(s.started || request.Normalise?) || !Plans(request, s.committed, opens, writes) then s
      else s.(open := Some(Open(request, writes, 0, s.committed)))
    case Statement =>
      if s.open == None || s.open.value.done >= |s.open.value.writes| then s
      else
        var x := s.open.value;
        (match Perform(x.work, x.writes[x.done])
         case None => s.(open := None)
         case Some(work) => s.(open := Some(x.(done := x.done + 1, work := work))))
    case Commit =>
      if s.open == None || s.open.value.done != |s.open.value.writes| then s
      else
        var x := s.open.value;
        State(x.work, None, s.started || x.request.Normalise?,
              s.chosen || x.request.Save? || x.request.SetDefault?)
    case Abort => s.(open := None)
  }

  ghost function Exec(opens: string -> bool, s: State, steps: seq<Step>): State {
    if steps == [] then s else Apply(opens, Exec(opens, s, steps[..|steps| - 1]), steps[|steps| - 1])
  }

  /** Any table at all, before the service has started. */
  predicate Initial(s: State) {
    s.open == None && !s.started && !s.chosen
  }

  ghost predicate OpenOk(opens: string -> bool, t: Table, x: Open) {
    && Plans(x.request, t, opens, x.writes) && x.done <= |x.writes|
    && After(t, x.writes, x.done) == Some(x.work)
  }

  ghost predicate Inv(opens: string -> bool, s: State) {
    && (s.started ==> AtMostOne(s.committed))
    && (s.chosen ==> s.started && HasOne(s.committed))
    && (s.open.Some? ==> OpenOk(opens, s.committed, s.open.value) && (s.started || s.open.value.request.Normalise?))
  }

  lemma StepKeeps(opens: string -> bool, s: State, step: Step)
    requires Inv(opens, s)
    ensures Inv(opens, Apply(opens, s, step))
  {
    if step.Commit? && s.open.Some? && s.open.value.done == |s.open.value.writes| {
      var x := s.open.value;
      Boundaries(x.request, s.committed, opens, x.writes, x.done);
    }
  }

  lemma {:induction false} InvAlways(opens: string -> bool, s: State, steps: seq<Step>)
    requires Initial(s)
    ensures Inv(opens, Exec(opens, s, steps))
  {
    if steps != [] {
      InvAlways(opens, s, steps[..|steps| - 1]);
      StepKeeps(opens, Exec(opens, s, steps[..|steps| - 1]), steps[|steps| - 1]);
    }
  }

  /** From the first normalisation on, at every statement boundary of every run, at most one
      row is active, in the committed table and in the one a transaction is working on. So the
      unique index that the normalisation creates never refuses a statement. */
  lemma {:induction false} AtMostOneAtEveryBoundary(opens: string -> bool, s: State, steps: seq<Step>)
    requires Initial(s)
    ensures var now := Exec(opens, s, steps);
            now.started ==> AtMostOne(now.committed) && (now.open.Some? ==> AtMostOne(now.open.value.work))
  {
    InvAlways(opens, s, steps);
    var now := Exec(opens, s, steps);
    if now.started && now.open.Some? {
      var x := now.open.value;
      Boundaries(x.request, now.committed, opens, x.writes, x.done);
    }
  }

  lemma {:induction false} FlagsStay(opens: string -> bool, s: State, steps: seq<Step>, i: nat)
    requires i <= |steps|
    ensures Exec(opens, s, steps[..i]).chosen ==> Exec(opens, s, steps).chosen
  {
    if i == |steps| {
      assert steps[..i] == steps;
    } else {
      var front := steps[..|steps| - 1];
      assert front[..i] == steps[..i];
      FlagsStay(opens, s, front, i);
    }
  }

  /** The commits after which there must be a default. */
  ghost predicate Chooses(opens: string -> bool, s: State, step: Step) {
    && step.Commit? && s.open.Some? && s.open.value.done == |s.open.value.writes|
    && (s.open.value.request.Save? || s.open.value.request.SetDefault?)
  }

  /** Once a save or a change of default has committed, every later committed state has exactly
      one active row, whatever is deleted, fails or is rolled back. */
  lemma {:induction false} DefaultStays(opens: string -> bool, s: State, steps: seq<Step>, i: nat)
    requires Initial(s) && i < |steps| && Chooses(opens, Exec(opens, s, steps[..i]), steps[i])
    ensures HasOne(Exec(opens, s, steps).committed)
    ensures exists id :: Active(Exec(opens, s, steps).committed) == {id}
  {
    assert steps[..i + 1][..i] == steps[..i];
    assert Exec(opens, s, steps[..i + 1]).chosen;
    FlagsStay(opens, s, steps, i + 1);
    InvAlways(opens, s, steps);
    var t := Exec(opens, s, steps).committed;
    var id :| id in Active(t);
    assert Active(t) == {id};
  }

  /** A committed delete of the default leaves the highest remaining id as the default. */
  lemma {:induction false} DeleteHandsOver(opens: string -> bool, s: State, steps: seq<Step>, id: nat)
    requires Initial(s)
    requires var now := Exec(opens, s, steps);
             && now.started && now.open.Some? && now.open.value.request == Delete(id)
             && now.open.value.done == |now.open.value.writes| && id in now.committed && now.committed[id].active
    ensures var before, after := Exec(opens, s, steps).committed, Apply(opens, Exec(opens, s, steps), Commit).committed;
            && after.Keys == before.Keys - {id}
            && exists r :: Active(after) == {r} && HighestOther(before, id, r) && opens(before[r].Key())
  {
    InvAlways(opens, s, steps);
    var now := Exec(opens, s, steps);
    var x, t := now.open.value, now.committed;
    var r :| HighestOther(t, id, r) && opens(t[r].Key()) && x.writes == [SetActive(id, false), SetActive(r, true), Remove(id)];
    AfterReplacing(t, id, r);
    assert Active(x.work) == {r};
  }

  lemma AfterReplacing(t: Table, id: nat, r: nat)
    requires id in t && t[id].active && AtMostOne(t) && HighestOther(t, id, r)
    ensures var after := After(t, [SetActive(id, false), SetActive(r, true), Remove(id)], 3);
            after.Some? && Active(after.value) == {r} && after.value.Keys == t.Keys - {id}
  {
    var writes := [SetActive(id, false), SetActive(r, true), Remove(id)];
    ReplaceDefault(t, id, r);
    assert After(t, writes, 0) == Some(t);
    assert After(t, writes, 1) == Perform(t, writes[0]);
    assert After(t, writes, 2) == Perform(After(t, writes, 1).value, writes[1]);
    assert After(t, writes, 3) == Perform(After(t, writes, 2).value, writes[2]);
  }

  // ---------- the handlers ----------

  lemma AfterMore(t: Table, writes: seq<Write>, w: Write)
    ensures After(t, writes + [w], |writes|) == After(t, writes, |writes|)
    ensures After(t, writes, |writes|).Some?
            ==> After(t, writes + [w], |writes| + 1) == Perform(After(t, writes, |writes|).value, w)
  {
    AfterPrefix(t, writes, [w], |writes|);
  }

  lemma {:induction false} AfterPrefix(t: Table, writes: seq<Write>, more: seq<Write>, k: nat)
    requires k <= |writes|
    ensures After(t, writes + more, k) == After(t, writes, k)
  {
    if k > 0 { AfterPrefix(t, writes, more, k - 1); }
  }

  lemma NormaliseWrites(t: Table)
    ensures Perform(t, KeepHighest).Some?
    ensures var after := Perform(t, KeepHighest).value;
            && AtMostOne(after) && Perform(after, CreateIndex) == Some(after) && after.Keys == t.Keys
            && forall k :: k in after ==>
                 after[k] == t[k].(active := t[k].active && forall other :: other in t && t[other].active ==> other <= k)
  {
    NormaliseKeepsHighest(t);
  }

  /** The given columns of the row, and nothing else, have been written. */
  predicate Updated(was: Table, now: Table, id: nat, updates: map<string, string>) {
    && id in was && id in now && now == was[id := was[id].(columns := now[id].columns)]
    && now[id].columns.Keys == was[id].columns.Keys + updates.Keys
    && (forall c :: c in now[id].columns ==>
          now[id].columns[c] == if c in updates then updates[c] else if c in was[id].columns then was[id].columns[c] else "")
  }

  lemma UpdateIs(t: Table, id: nat, updates: map<string, string>)
    requires id in t
    ensures Perform(t, SetColumns(id, updates)).Some? && Updated(t, Perform(t, SetColumns(id, updates)).value, id, updates)
    ensures updates == map[] ==> Updated(t, t, id, updates)
  {
    assert t == t[id := t[id]];
    var after := Perform(t, SetColumns(id, updates)).value;
    assert after[id].columns.Keys == t[id].columns.Keys + updates.Keys;
    assert updates == map[] ==> t[id].columns.Keys == t[id].columns.Keys + updates.Keys;
  }

  /** The row is gone; if it was the default, the highest of the others has become active too. */
  predicate Deleted(was: Table, now: Table, id: nat) {
    && id in was && now.Keys == was.Keys - {id}
    && (forall k :: k in now ==>
          now[k] == was[k].(active := was[k].active || (was[id].active && forall other :: other in now ==> other <= k)))
  }

  lemma NotRefused(t: Table, w: Write)
    requires w.SetActive? || w.Remove?
    ensures Perform(t, w).Some?
  {
  }

  lemma DeletePlain(t: Table, id: nat)
    requires id in t
    ensures !t[id].active ==> Deleted(t, Perform(t, Remove(id)).value, id)
  {
  }

  lemma DeleteHands(t: Table, id: nat, r: nat)
    requires id in t && t[id].active && HighestOther(t, id, r)
    ensures var t1 := Perform(t, SetActive(id, false)).value;
            var t2 := Perform(t1, SetActive(r, true)).value;
            Deleted(t, Perform(t2, Remove(id)).value, id)
  {
    var t1 := Perform(t, SetActive(id, false)).value;
    var now := Perform(Perform(t1, SetActive(r, true)).value, Remove(id)).value;
    assert r in now && now.Keys == t.Keys - {id};
    forall k | k in now ensures (forall other :: other in now ==> other <= k) <==> k == r {
      assert forall other :: other in now ==> other in t && other != id;
    }
  }

  /** Anything but the default may go; the default only if another config can take over. */
  ghost predicate Deletable(t: Table, id: nat, opens: string -> bool) {
    id in t && (!t[id].active || exists r :: HighestOther(t, id, r) && opens(t[r].Key()))
  }

  /** A transaction in progress: the table as its statements have left it, and the statements. */
  class Transaction {
    ghost const begun: Table
    var work: Table
    var log: seq<Write>

    ghost predicate Valid()
      reads this
    {
      After(begun, log, |log|) == Some(work)
    }

    constructor (t: Table)
      ensures Valid() && begun == t && work == t && log == []
    {
      begun, work, log := t, t, [];
    }

    /** One writing statement; `fault` says that the database refuses it. */
    method Execute(w: Write, fault: bool) returns (ok: bool)
      requires Valid()
      modifies this
      ensures Valid() && ok == (!fault && Perform(old(work), w).Some?)
      ensures ok ==> log == old(log) + [w] && Perform(old(work), w) == Some(work)
      ensures !ok ==> log == old(log) && work == old(work)
    {
      if fault || (w.Insert? && w.id in work) || (w.CreateIndex? && !AtMostOne(work)) { return false; }
      AfterMore(begun, log, w);
      match w {
        case ClearActive => work := map id | id in work :: work[id].(active := false);
        case KeepHighest => work := map id | id in work :: work[id].(active := HighestActive(work, id));
        case CreateIndex =>
        case Insert(id, columns) => work := work[id := Config(columns, true)];
        case SetActive(id, active) => if id in work { work := work[id := work[id].(active := active)]; }
        case SetColumns(id, updates) =>
          if id in work { work := work[id := work[id].(columns := work[id].columns + updates)]; }
        case Remove(id) => work := work - {id};
      }
      assert work == Perform(old(work), w).value;
      log := log + [w];
      return true;
    }
  }

  /** The stored table. Each method is one transaction; `faults` are the numbers of the writing
      statements that the database refuses. A refused transaction leaves no trace; one that
      commits ran exactly the planned statements, in that order. */
  class Database {
    var rows: Table

    ghost predicate Ran(before: Table, request: Request, opens: string -> bool, log: seq<Write>)
      reads this
    {
      Plans(request, before, opens, log) && After(before, log, |log|) == Some(rows)
    }

    /** Without a fault it always commits: the index never refuses what the update has left. */
    method EnsureSingleActiveLLMConfig(faults: set<nat>) returns (ok: bool, log: seq<Write>)
      modifies this
      ensures ok == (0 !in faults && 1 !in faults)
      ensures ok ==> Ran(old(rows), Normalise, _ => true, log)
      ensures ok ==> rows.Keys == old(rows).Keys && forall k :: k in rows ==>
                rows[k] == old(rows)[k].(active := old(rows)[k].active
                                                   && forall other :: other in old(rows) && old(rows)[other].active ==> other <= k)
      ensures !ok ==> rows == old(rows)
    {
      hide Perform, AtMostOne;
      NormaliseWrites(rows);
      var tx := new Transaction(rows);
      ok := tx.Execute(KeepHighest, 0 in faults);
      if !ok { return false, tx.log; }
      ok := tx.Execute(CreateIndex, 1 in faults);
      if !ok { return false, tx.log; }
      rows := tx.work;
      return true, tx.log;
    }

    method SaveLLMConfig(id: nat, columns: map<string, string>, faults: set<nat>) returns (ok: bool, log: seq<Write>)
      modifies this
      ensures ok == (0 !in faults && 1 !in faults && id !in old(rows))
      ensures ok ==> Ran(old(rows), Save(id, columns), _ => true, log)
      ensures ok ==> rows.Keys == old(rows).Keys + {id} && rows[id] == Config(columns, true)
                     && forall k :: k in old(rows) ==> rows[k] == old(rows)[k].(active := false)
      ensures !ok ==> rows == old(rows)
    {
      var tx := new Transaction(rows);
      ok := tx.Execute(ClearActive, 0 in faults);
      if !ok { return false, tx.log; }
      ok := tx.Execute(Insert(id, columns), 1 in faults);
      if !ok { return false, tx.log; }
      rows := tx.work;
      return true, tx.log;
    }

    /** `updates` are the columns the request gives; with none nothing is written. */
    method UpdateLLMConfig(id: nat, updates: map<string, string>, fault: bool) returns (ok: bool, log: seq<Write>)
      modifies this
      ensures ok == (id in old(rows) && (updates == map[] || !fault))
      ensures ok ==> Ran(old(rows), Update(id, updates), _ => true, log)
      ensures ok ==> Updated(old(rows), rows, id, updates)
      ensures !ok ==> rows == old(rows)
    {
      if id !in rows { return false, []; }
      UpdateIs(rows, id, updates);
      var tx := new Transaction(rows);
      if |updates| != 0 {
        ok := tx.Execute(SetColumns(id, updates), fault);
        if !ok { return false, tx.log; }
      }
      rows := tx.work;
      return true, tx.log;
    }

    /** The query for the row that would become the default: the highest of the other ids. */
    method Replacement(id: nat) returns (r: Option<nat>)
      requires id in rows
      ensures r.Some? ==> HighestOther(rows, id, r.value)
      ensures forall other: nat :: HighestOther(rows, id, other) ==> r == Some(other)
    {
      if rows.Keys == {id} { return None; }
      OtherExists(rows, id);
      var highest :| highest in rows.Keys && HighestOther(rows, id, highest);
      return Some(highest);
    }

    method DeleteLLMConfig(id: nat, opens: string -> bool, faults: set<nat>) returns (ok: bool, log: seq<Write>)
      modifies this
      ensures ok ==> Ran(old(rows), Delete(id), opens, log)
      ensures ok ==> Deleted(old(rows), rows, id)
      ensures !ok ==> rows == old(rows)
      ensures faults == {} ==> (ok <==> Deletable(old(rows), id, opens))
    {
      hide Deleted, Perform, HighestOther;
      if id !in rows { return false, []; }
      DeletePlain(rows, id);
      var tx := new Transaction(rows);
      var n := 0;
      if rows[id].active {
        var r := Replacement(id);
        if r == None || !opens(rows[r.value].Key()) { return false, []; }
        DeleteHands(rows, id, r.value);
        NotRefused(tx.work, SetActive(id, false));
        ok := tx.Execute(SetActive(id, false), 0 in faults);
        if !ok { return false, tx.log; }
        NotRefused(tx.work, SetActive(r.value, true));
        ok := tx.Execute(SetActive(r.value, true), 1 in faults);
        if !ok { return false, tx.log; }
        n := 2;
      }
      NotRefused(tx.work, Remove(id));
      ok := tx.Execute(Remove(id), n in faults);
      if !ok { return false, tx.log; }
      rows := tx.work;
      return true, tx.log;
    }

    method SetDefaultLLMConfig(id: nat, opens: string -> bool, faults: set<nat>) returns (ok: bool, log: seq<Write>)
      modifies this
      ensures ok == (id in old(rows) && opens(old(rows)[id].Key()) && 0 !in faults && 1 !in faults)
      ensures ok && "api_key" in old(rows)[id].columns ==> opens(old(rows)[id].columns["api_key"])
      ensures ok && "api_key" !in old(rows)[id].columns ==> opens("")
      ensures ok ==> Ran(old(rows), SetDefault(id), opens, log)
      ensures ok ==> rows.Keys == old(rows).Keys && forall k :: k in rows ==> rows[k] == old(rows)[k].(active := k == id)
      ensures !ok ==> rows == old(rows)
    {
      if id !in rows || !opens(rows[id].Key()) { return false, []; }
      var tx := new Transaction(rows);
      ok := tx.Execute(ClearActive, 0 in faults);
      if !ok { return false, tx.log; }
      ok := tx.Execute(SetActive(id, true), 1 in faults);
      if !ok { return false, tx.log; }
      rows := tx.work;
      return true, tx.log;
    }
  }
}
