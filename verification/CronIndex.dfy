/** The index that both schedulers keep over the live cron table: `entries` maps a row id to
    its cron entry, `specs` to the expression that entry was registered with. */
module CronIndex {
  import opened Wrappers

  /** What a cron entry runs: the trigger of one row id, on one expression. */
  datatype Job = Job(id: nat, expr: string)

  datatype Index = Index(entries: map<nat, nat>, specs: map<nat, string>, cron: map<nat, Job>, next: nat)

  /** `entries` is injective, its values are exactly the live cron entries, and each live
      entry runs the expression recorded for its row. `specs` may hold more. */
  predicate Valid(x: Index) {
    && (forall a, b :: a in x.entries && b in x.entries && x.entries[a] == x.entries[b] ==> a == b)
    && (forall a :: a in x.entries ==>
          a in x.specs && x.entries[a] in x.cron && x.cron[x.entries[a]] == Job(a, x.specs[a]))
    && (forall e :: e in x.cron ==> e < x.next && x.cron[e].id in x.entries && x.entries[x.cron[e].id] == e)
  }

  /** Only parseable expressions are ever registered. */
  predicate Parsed(x: Index, parses: string -> bool) {
    forall id :: id in x.entries && id in x.specs ==> parses(x.specs[id])
  }

  // ---------- the critical sections ----------

  /** Registering under the lock: nothing if the same expression is already registered;
      otherwise the previous entry goes, and a new one comes if the expression parses. */
  function Register(x: Index, id: nat, expr: string, parses: string -> bool): (Index, bool) {
    if id in x.entries && id in x.specs && x.specs[id] == expr then (x, true)
    else
      var y := Released(x, id);
      if parses(expr) then
        (Index(y.entries[id := y.next], y.specs[id := expr], y.cron[y.next := Job(id, expr)], y.next + 1), true)
      else (y, false)
  }

  function Remove(x: Index, id: nat): Index {
    if id in x.entries then
      Index(x.entries - {id}, x.specs - {id}, x.cron - {x.entries[id]}, x.next)
    else x.(specs := x.specs - {id})
  }

  /** A registered id gives up its entry. */
  function Released(x: Index, id: nat): Index {
    if id in x.entries then x.(entries := x.entries - {id}, cron := x.cron - {x.entries[id]}) else x
  }

  /** Registering succeeds if the expression parses or is already the registered one. Then the row
      runs it: on the entry it had, if the expression was that, or else on a new one. An expression
      that does not parse costs the row its entry. */
  lemma RegisterIs(x: Index, id: nat, expr: string, parses: string -> bool)
    requires Valid(x)
    ensures var (y, ok) := Register(x, id, expr, parses);
            var kept := id in x.entries && x.specs[id] == expr;
            && (ok <==> kept || parses(expr))
            && (ok <==> id in y.entries)
            && (ok ==> id in y.specs && y.specs[id] == expr && y.entries[id] in y.cron && y.cron[y.entries[id]] == Job(id, expr))
            && (if kept then y == x else ok ==> y.entries[id] == x.next && y.next == x.next + 1)
  {
  }

  lemma RegisterKeepsOthers(x: Index, id: nat, expr: string, parses: string -> bool)
    requires Valid(x)
    ensures OthersAsBefore(x, Register(x, id, expr, parses).0, id)
  {
    hide OthersAsBefore, EntryKept;
    if id in x.entries && id in x.specs && x.specs[id] == expr {
      NothingChanged(x, id);
    } else {
      var y := Released(x, id);
      ReleasedKeepsOthers(x, id);
      ReleasedValid(x, id);
      AddedKeepsOthers(y, id, expr);
      NothingChanged(y, id);
      OthersTransitive(x, y, Register(x, id, expr, parses).0, id);
    }
  }

  lemma NothingChanged(x: Index, id: nat)
    ensures OthersAsBefore(x, x, id)
  {
  }

  lemma ReleasedKeepsOthers(x: Index, id: nat)
    requires Valid(x)
    ensures OthersAsBefore(x, Released(x, id), id)
  {
  }

  lemma AddedKeepsOthers(x: Index, id: nat, expr: string)
    requires Valid(x)
    ensures OthersAsBefore(x, Index(x.entries[id := x.next], x.specs[id := expr], x.cron[x.next := Job(id, expr)], x.next + 1), id)
  {
    assert x.specs[id := expr] - {id} == x.specs - {id};
  }

  lemma OthersTransitive(x: Index, y: Index, z: Index, id: nat)
    requires OthersAsBefore(x, y, id) && OthersAsBefore(y, z, id)
    ensures OthersAsBefore(x, z, id)
  {
    forall other | other in x.entries && other != id ensures EntryKept(x, z, other) {
      assert EntryKept(x, y, other) && EntryKept(y, z, other);
    }
  }

  /** A removed row runs nothing. */
  lemma RemoveIs(x: Index, id: nat)
    requires Valid(x)
    ensures var y := Remove(x, id);
            && id !in y.entries && id !in y.specs && (forall e :: e in y.cron ==> y.cron[e].id != id)
            && OthersAsBefore(x, y, id)
  {
    assert (x.specs - {id}) - {id} == x.specs - {id};
  }

  /** Every row but `id` has the entry, the job and the expression it had. */
  predicate OthersAsBefore(x: Index, y: Index, id: nat) {
    && (forall other :: other in x.entries && other != id ==> EntryKept(x, y, other))
    && (forall other :: other in y.entries && other != id ==> other in x.entries)
    && y.specs - {id} == x.specs - {id}
  }

  predicate EntryKept(x: Index, y: Index, id: nat)
    requires id in x.entries
  {
    && id in y.entries && y.entries[id] == x.entries[id]
    && (x.entries[id] in x.cron ==> x.entries[id] in y.cron && y.cron[x.entries[id]] == x.cron[x.entries[id]])
  }

  lemma ReleasedValid(x: Index, id: nat)
    requires Valid(x)
    ensures Valid(Released(x, id)) && id !in Released(x, id).entries
  {
  }

  /** An unregistered id gets a new entry. */
  lemma AddedValid(x: Index, id: nat, expr: string)
    requires Valid(x) && id !in x.entries
    ensures Valid(Index(x.entries[id := x.next], x.specs[id := expr], x.cron[x.next := Job(id, expr)], x.next + 1))
  {
  }

  lemma RegisterValid(x: Index, id: nat, expr: string, parses: string -> bool)
    requires Valid(x)
    ensures Valid(Register(x, id, expr, parses).0)
  {
    ReleasedValid(x, id);
    AddedValid(Released(x, id), id, expr);
  }

  lemma RemoveValid(x: Index, id: nat)
    requires Valid(x)
    ensures Valid(Remove(x, id))
  {
  }

  lemma RegisterParsed(x: Index, id: nat, expr: string, parses: string -> bool)
    requires Parsed(x, parses)
    ensures Parsed(Register(x, id, expr, parses).0, parses)
  {
  }

  /** One critical section of any caller. */
  datatype Op = Put(id: nat, expr: string) | Drop(id: nat)

  function Perform(x: Index, op: Op, parses: string -> bool): Index {
    match op
    case Put(id, expr) => Register(x, id, expr, parses).0
    case Drop(id) => Remove(x, id)
  }

  function Run(x: Index, ops: seq<Op>, parses: string -> bool): Index {
    if ops == [] then x else Perform(Run(x, ops[..|ops| - 1], parses), ops[|ops| - 1], parses)
  }

  lemma PerformKeeps(x: Index, op: Op, parses: string -> bool)
    requires Valid(x)
    ensures Valid(Perform(x, op, parses)) && (Parsed(x, parses) ==> Parsed(Perform(x, op, parses), parses))
  {
    if op.Put? {
      RegisterValid(x, op.id, op.expr, parses);
      if Parsed(x, parses) { RegisterParsed(x, op.id, op.expr, parses); }
    } else {
      RemoveValid(x, op.id);
    }
  }

  /** Whatever refreshes, handlers and triggers interleave, the index agrees with the cron
      table after every critical section. */
  lemma {:induction false} AlwaysValid(x: Index, ops: seq<Op>, parses: string -> bool)
    requires Valid(x)
    ensures Valid(Run(x, ops, parses)) && (Parsed(x, parses) ==> Parsed(Run(x, ops, parses), parses))
  {
    if ops != [] {
      AlwaysValid(x, ops[..|ops| - 1], parses);
      PerformKeeps(Run(x, ops[..|ops| - 1], parses), ops[|ops| - 1], parses);
    }
  }

  // ---------- refresh ----------

  /** A row as a refresh sees it: its id and its trimmed expression. */
  datatype Item = Item(id: nat, expr: string)

  function Place(x: Index, item: Item, parses: string -> bool): Index {
    if item.expr == "" then Remove(x, item.id) else Register(x, item.id, item.expr, parses).0
  }

  function PlaceAll(x: Index, items: seq<Item>, parses: string -> bool): Index {
    if items == [] then x else Place(PlaceAll(x, items[..|items| - 1], parses), items[|items| - 1], parses)
  }

  function Ids(items: seq<Item>): set<nat> {
    set i | 0 <= i < |items| :: items[i].id
  }

  predicate Distinct(items: seq<Item>) {
    forall i, j :: 0 <= i < j < |items| ==> items[i].id != items[j].id
  }

  /** The index without the registered ids in `gone`. */
  function Without(x: Index, gone: set<nat>): Index {
    Index(x.entries - gone, x.specs - gone, map e | e in x.cron && x.cron[e].id !in gone :: x.cron[e], x.next)
  }

  /** Unregister every id outside `keep`. */
  function Prune(x: Index, keep: set<nat>): Index {
    Without(x, x.entries.Keys - keep)
  }

  function Refresh(x: Index, items: seq<Item>, parses: string -> bool): Index {
    Prune(PlaceAll(x, items, parses), Ids(items))
  }

  lemma PlaceValid(x: Index, item: Item, parses: string -> bool)
    requires Valid(x)
    ensures Valid(Place(x, item, parses))
  {
    if item.expr == "" { RemoveValid(x, item.id); } else { RegisterValid(x, item.id, item.expr, parses); }
  }

  lemma {:induction false} PlaceAllValid(x: Index, items: seq<Item>, parses: string -> bool)
    requires Valid(x)
    ensures Valid(PlaceAll(x, items, parses))
  {
    if items != [] {
      PlaceAllValid(x, items[..|items| - 1], parses);
      PlaceValid(PlaceAll(x, items[..|items| - 1], parses), items[|items| - 1], parses);
    }
  }

  lemma PruneValid(x: Index, keep: set<nat>)
    requires Valid(x)
    ensures Valid(Prune(x, keep))
  {
  }

  /** The row with this id and expression needs nothing more done. */
  predicate Settled(x: Index, item: Item, parses: string -> bool) {
    if item.expr == "" then item.id !in x.entries && item.id !in x.specs
    else if parses(item.expr) then item.id in x.entries && item.id in x.specs && x.specs[item.id] == item.expr
    else item.id !in x.entries || (item.id in x.specs && x.specs[item.id] == item.expr)
  }

  lemma PlaceSettles(x: Index, item: Item, other: Item, parses: string -> bool)
    requires Valid(x)
    ensures Settled(Place(x, item, parses), item, parses)
    ensures item.id != other.id && Settled(x, other, parses) ==> Settled(Place(x, item, parses), other, parses)
    ensures Parsed(x, parses) ==> Parsed(Place(x, item, parses), parses)
  {
  }

  lemma {:induction false} PlaceAllSettles(x: Index, items: seq<Item>, parses: string -> bool, k: nat)
    requires Valid(x) && Distinct(items) && k < |items|
    ensures Settled(PlaceAll(x, items, parses), items[k], parses)
    decreases |items|
  {
    var front, last := items[..|items| - 1], items[|items| - 1];
    PlaceAllValid(x, front, parses);
    if k < |front| {
      PlaceAllSettles(x, front, parses, k);
      PlaceSettles(PlaceAll(x, front, parses), last, items[k], parses);
    } else {
      PlaceSettles(PlaceAll(x, front, parses), last, last, parses);
    }
  }

  lemma {:induction false} PlaceAllParsed(x: Index, items: seq<Item>, parses: string -> bool)
    requires Valid(x) && Parsed(x, parses)
    ensures Parsed(PlaceAll(x, items, parses), parses)
  {
    if items != [] {
      var front := items[..|items| - 1];
      PlaceAllParsed(x, front, parses);
      PlaceAllValid(x, front, parses);
      PlaceSettles(PlaceAll(x, front, parses), items[|items| - 1], items[|items| - 1], parses);
    }
  }

  predicate Wanted(items: seq<Item>, parses: string -> bool, id: nat, expr: string) {
    expr != "" && parses(expr) && Item(id, expr) in items
  }

  /** The index and the cron table are exactly the ids and expressions that `should` names. */
  ghost predicate Holds(x: Index, should: (nat, string) -> bool) {
    && Valid(x)
    && (forall id :: id in x.entries <==> exists expr :: should(id, expr))
    && (forall id, expr :: should(id, expr) ==> id in x.entries && x.cron[x.entries[id]] == Job(id, expr))
  }

  lemma HoldsSame(x: Index, p: (nat, string) -> bool, q: (nat, string) -> bool)
    requires Holds(x, p) && forall id, expr :: p(id, expr) == q(id, expr)
    ensures Holds(x, q)
  {
    forall id: nat ensures id in x.entries <==> exists expr :: q(id, expr) {
      if id in x.entries {
        var expr :| p(id, expr);
        assert q(id, expr);
      }
      if expr :| q(id, expr) { assert p(id, expr); }
    }
    forall id: nat, expr | q(id, expr) ensures id in x.entries && x.cron[x.entries[id]] == Job(id, expr) {
      assert p(id, expr);
    }
  }

  function WantedBy(items: seq<Item>, parses: string -> bool): (nat, string) -> bool {
    (id: nat, expr) => Wanted(items, parses, id, expr)
  }

  ghost predicate Agrees(x: Index, items: seq<Item>, parses: string -> bool) {
    Holds(x, WantedBy(items, parses))
  }

  /** From any state the callers can reach, one undisturbed refresh makes the registered ids
      exactly the active rows with a non-blank parseable expression. */
  lemma RefreshAgrees(x: Index, items: seq<Item>, parses: string -> bool)
    requires Valid(x) && Parsed(x, parses) && Distinct(items)
    ensures Agrees(Refresh(x, items, parses), items, parses)
  {
    PlaceAllValid(x, items, parses);
    PlaceAllParsed(x, items, parses);
    var y := PlaceAll(x, items, parses);
    PruneValid(y, Ids(items));
    var z := Refresh(x, items, parses);
    forall id: nat, expr | WantedBy(items, parses)(id, expr) ensures id in z.entries && z.cron[z.entries[id]] == Job(id, expr) {
      var k :| 0 <= k < |items| && items[k] == Item(id, expr);
      PlaceAllSettles(x, items, parses, k);
      assert items[k].id in Ids(items);
    }
    forall id | id in z.entries ensures exists expr :: WantedBy(items, parses)(id, expr) {
      assert id in Ids(items);
      var k :| 0 <= k < |items| && items[k].id == id;
      PlaceAllSettles(x, items, parses, k);
      assert parses(y.specs[id]) && y.specs[id] == items[k].expr;
      assert WantedBy(items, parses)(id, items[k].expr);
    }
  }

  lemma SettledIsStill(x: Index, item: Item, parses: string -> bool)
    requires Valid(x) && Parsed(x, parses) && Settled(x, item, parses)
    ensures Place(x, item, parses) == x
  {
  }

  lemma {:induction false} AllSettledIsStill(x: Index, items: seq<Item>, parses: string -> bool)
    requires Valid(x) && Parsed(x, parses) && forall k :: 0 <= k < |items| ==> Settled(x, items[k], parses)
    ensures PlaceAll(x, items, parses) == x
  {
    if items != [] {
      AllSettledIsStill(x, items[..|items| - 1], parses);
      SettledIsStill(x, items[|items| - 1], parses);
    }
  }

  /** A second refresh over the same rows changes nothing, not even an entry id. */
  lemma RefreshTwice(x: Index, items: seq<Item>, parses: string -> bool)
    requires Valid(x) && Parsed(x, parses) && Distinct(items)
    ensures var once := Refresh(x, items, parses);
            Valid(once) && Refresh(once, items, parses) == once
  {
    var y, once := PlaceAll(x, items, parses), Refresh(x, items, parses);
    PlaceAllValid(x, items, parses);
    PlaceAllParsed(x, items, parses);
    PruneValid(y, Ids(items));
    forall k | 0 <= k < |items| ensures Settled(once, items[k], parses) {
      PlaceAllSettles(x, items, parses, k);
      assert items[k].id in Ids(items);
    }
    AllSettledIsStill(once, items, parses);
    assert once.entries.Keys - Ids(items) == {};
    WithoutNothing(once);
  }

  /** A row whose expression did not change keeps its cron entry. */
  lemma {:induction false} PlaceAllKeeps(x: Index, items: seq<Item>, parses: string -> bool, id: nat)
    requires Valid(x) && id in x.entries && forall i :: 0 <= i < |items| && items[i].id == id ==> items[i].expr == x.specs[id]
    requires x.specs[id] != ""
    ensures var y := PlaceAll(x, items, parses);
            id in y.entries && y.entries[id] == x.entries[id] && id in y.specs && y.specs[id] == x.specs[id]
  {
    if items != [] {
      PlaceAllKeeps(x, items[..|items| - 1], parses, id);
    }
  }

  lemma RefreshKeepsEntries(x: Index, items: seq<Item>, parses: string -> bool, id: nat)
    requires Valid(x) && Distinct(items) && id in x.entries && x.specs[id] != "" && Item(id, x.specs[id]) in items
    ensures var y := Refresh(x, items, parses); id in y.entries && y.entries[id] == x.entries[id]
  {
    var k :| 0 <= k < |items| && items[k] == Item(id, x.specs[id]);
    assert items[k].id in Ids(items);
    PlaceAllKeeps(x, items, parses, id);
  }

  lemma IdsSnoc(items: seq<Item>, item: Item)
    ensures Ids(items + [item]) == Ids(items) + {item.id}
  {
    forall id ensures id in Ids(items + [item]) <==> id in Ids(items) || id == item.id {
      if id in Ids(items) {
        var i :| 0 <= i < |items| && items[i].id == id;
        assert (items + [item])[i].id == id;
      }
      if id == item.id { assert (items + [item])[|items|].id == id; }
    }
  }

  lemma PlaceAllSnoc(x: Index, items: seq<Item>, item: Item, parses: string -> bool)
    ensures PlaceAll(x, items + [item], parses) == Place(PlaceAll(x, items, parses), item, parses)
  {
    assert (items + [item])[..|items|] == items;
  }

  // ---------- from table rows to items ----------

  /** The items of the rows that `pick` selects. */
  function Items<R>(rows: seq<R>, pick: R -> Option<Item>): seq<Item> {
    if rows == [] then []
    else
      var last := pick(rows[|rows| - 1]);
      Items(rows[..|rows| - 1], pick) + (if last.Some? then [last.value] else [])
  }

  lemma {:induction false} ItemsFrom<R>(rows: seq<R>, pick: R -> Option<Item>, item: Item)
    ensures item in Items(rows, pick) <==> exists i :: 0 <= i < |rows| && pick(rows[i]) == Some(item)
  {
    if rows != [] {
      var n := |rows| - 1;
      ItemsFrom(rows[..n], pick, item);
      if item in Items(rows[..n], pick) {
        var i :| 0 <= i < n && pick(rows[..n][i]) == Some(item);
        assert pick(rows[i]) == Some(item);
      }
      if i :| 0 <= i < n && pick(rows[i]) == Some(item) {
        assert pick(rows[..n][i]) == Some(item);
      }
    }
  }

  predicate PicksDistinct<R>(rows: seq<R>, pick: R -> Option<Item>) {
    forall i, j :: 0 <= i < j < |rows| && pick(rows[i]).Some? && pick(rows[j]).Some? ==>
                     pick(rows[i]).value.id != pick(rows[j]).value.id
  }

  lemma {:induction false} ItemsDistinct<R>(rows: seq<R>, pick: R -> Option<Item>)
    requires PicksDistinct(rows, pick)
    ensures Distinct(Items(rows, pick))
  {
    if rows != [] {
      var n := |rows| - 1;
      ItemsDistinct(rows[..n], pick);
      var items := Items(rows[..n], pick);
      if pick(rows[n]).Some? {
        forall k | 0 <= k < |items| ensures items[k].id != pick(rows[n]).value.id {
          ItemsFrom(rows[..n], pick, items[k]);
          var i :| 0 <= i < n && pick(rows[..n][i]) == Some(items[k]);
        }
      }
    }
  }

  lemma ItemsNext<R>(rows: seq<R>, pick: R -> Option<Item>, i: nat)
    requires i < |rows|
    ensures pick(rows[i]) == None ==> Items(rows[..i + 1], pick) == Items(rows[..i], pick)
    ensures pick(rows[i]).Some? ==> Items(rows[..i + 1], pick) == Items(rows[..i], pick) + [pick(rows[i]).value]
  {
    assert rows[..i + 1][..i] == rows[..i];
  }

  // ---------- the index in memory ----------

  class Table {
    const parses: string -> bool
    var entries: map<nat, nat>
    var specs: map<nat, string>
    var cron: map<nat, Job>
    var next: nat

    function View(): Index
      reads this
    {
      Index(entries, specs, cron, next)
    }

    constructor (parses: string -> bool)
      ensures View() == Index(map[], map[], map[], 0) && Valid(View()) && Parsed(View(), parses)
      ensures this.parses == parses
    {
      this.parses := parses;
      entries, specs, cron, next := map[], map[], map[], 0;
    }

    method RegisterEntry(id: nat, expr: string) returns (ok: bool)
      requires Valid(View())
      modifies this
      ensures (View(), ok) == Register(old(View()), id, expr, parses) && Valid(View())
    {
      RegisterValid(View(), id, expr, parses);
      if id in entries && id in specs && specs[id] == expr { return true; }
      if id in entries {
        cron := cron - {entries[id]};
        entries := entries - {id};
      }
      if !parses(expr) { return false; }
      cron := cron[next := Job(id, expr)];
      entries := entries[id := next];
      specs := specs[id := expr];
      next := next + 1;
      return true;
    }

    method RemoveEntry(id: nat)
      requires Valid(View())
      modifies this
      ensures View() == Remove(old(View()), id) && Valid(View())
    {
      RemoveValid(View(), id);
      if id in entries {
        cron := cron - {entries[id]};
        entries := entries - {id};
        specs := specs - {id};
      }
      specs := specs - {id};
    }

    /** The last part of a refresh: collect the stale ids, then remove them one by one. */
    method RemoveStale(active: set<nat>)
      requires Valid(View())
      modifies this
      ensures View() == Prune(old(View()), active) && Valid(View())
    {
      var stale := entries.Keys - active;
      ghost var was, gone := View(), {};
      WithoutNothing(was);
      while stale != {}
        invariant gone !! stale && gone + stale == was.entries.Keys - active
        invariant Valid(View()) && View() == Without(was, gone)
        decreases stale
      {
        var id :| id in stale;
        WithoutOneMore(was, gone, id);
        RemoveEntry(id);
        stale, gone := stale - {id}, gone + {id};
      }
    }
  }

  /** What the two schedulers rely on: a refresh leaves the index in agreement with the
      rows, and another one from the same rows would leave it alone. */
  lemma RefreshResult(x: Index, items: seq<Item>, parses: string -> bool)
    requires Valid(x) && Parsed(x, parses) && Distinct(items)
    ensures var y := Refresh(x, items, parses);
            Agrees(y, items, parses) && Parsed(y, parses) && Refresh(y, items, parses) == y
  {
    PlaceAllParsed(x, items, parses);
    PlaceAllValid(x, items, parses);
    RefreshAgrees(x, items, parses);
    RefreshTwice(x, items, parses);
  }

  lemma WithoutNothing(x: Index)
    ensures Without(x, {}) == x
  {
  }

  lemma CronWithoutOneMore(cron: map<nat, Job>, gone: set<nat>, id: nat, entry: nat)
    requires id !in gone && forall e :: e in cron ==> (cron[e].id == id <==> e == entry)
    ensures (map e | e in cron && cron[e].id !in gone :: cron[e]) - {entry}
         == map e | e in cron && cron[e].id !in gone + {id} :: cron[e]
  {
  }

  /** Removing ids one at a time removes them all. */
  lemma WithoutOneMore(x: Index, gone: set<nat>, id: nat)
    requires Valid(x) && id in x.entries && id !in gone
    ensures Remove(Without(x, gone), id) == Without(x, gone + {id})
  {
    var y, z := Without(x, gone), Without(x, gone + {id});
    EntryIsOwn(x, id);
    CronWithoutOneMore(x.cron, gone, id, x.entries[id]);
    assert y.entries - {id} == z.entries && y.specs - {id} == z.specs;
  }

  lemma EntryIsOwn(x: Index, id: nat)
    requires Valid(x) && id in x.entries
    ensures forall e :: e in x.cron ==> (x.cron[e].id == id <==> e == x.entries[id])
  {
  }
}
