/** The inspection scheduler: the same index over inspection rules. A refresh also sees rules
    whose expression is only white space, and removes them by way of Add. */
module InspectionScheduler {
  import opened Wrappers
  import opened Text
  import opened CronIndex

  datatype Rule = Rule(id: nat, enabled: bool, expr: string)

  predicate UniqueIds(rows: seq<Rule>) {
    forall i, j :: 0 <= i < j < |rows| ==> rows[i].id != rows[j].id
  }

  /** The rows a refresh looks at: enabled and not empty. */
  function Pick(row: Rule): Option<Item> {
    if row.enabled && row.expr != "" then Some(Item(row.id, TrimSpace(row.expr))) else None
  }

  /** The row `id` should be registered with `expr`. */
  predicate Scheduled(rows: seq<Rule>, parses: string -> bool, id: nat, expr: string) {
    exists i :: 0 <= i < |rows| && rows[i].id == id && rows[i].enabled
                && TrimSpace(rows[i].expr) == expr && expr != "" && parses(expr)
  }

  function ScheduledBy(rows: seq<Rule>, parses: string -> bool): (nat, string) -> bool {
    (id: nat, expr) => Scheduled(rows, parses, id, expr)
  }

  /** The index holds exactly the scheduled rows, and each live cron entry runs its row's
      current expression. */
  ghost predicate InStep(x: Index, rows: seq<Rule>, parses: string -> bool) {
    Holds(x, ScheduledBy(rows, parses))
  }

  lemma WantedIsScheduled(rows: seq<Rule>, parses: string -> bool, id: nat, expr: string)
    ensures Wanted(Items(rows, Pick), parses, id, expr) <==> Scheduled(rows, parses, id, expr)
  {
    ItemsFrom(rows, Pick, Item(id, expr));
    if i :| 0 <= i < |rows| && Pick(rows[i]) == Some(Item(id, expr)) {
      assert rows[i].id == id;
    }
    if Scheduled(rows, parses, id, expr) {
      var i :| 0 <= i < |rows| && rows[i].id == id && rows[i].enabled
               && TrimSpace(rows[i].expr) == expr && expr != "" && parses(expr);
      assert Pick(rows[i]) == Some(Item(id, expr));
    }
  }

  class Scheduler {
    const index: Table

    constructor (parses: string -> bool)
      ensures fresh(index) && index.parses == parses && Valid(index.View()) && Parsed(index.View(), parses)
    {
      index := new Table(parses);
    }

    method Remove(id: nat)
      requires Valid(index.View())
      modifies index
      ensures Valid(index.View()) && index.View() == CronIndex.Remove(old(index.View()), id)
    {
      index.RemoveEntry(id);
    }

    method Add(rule: Rule) returns (ok: bool)
      requires Valid(index.View())
      modifies index
      ensures Valid(index.View())
      ensures var x, expr := old(index.View()), TrimSpace(rule.expr);
              if expr == "" || !rule.enabled then index.View() == CronIndex.Remove(x, rule.id) && ok
              else (index.View(), ok) == Register(x, rule.id, expr, index.parses)
    {
      var expr := TrimSpace(rule.expr);
      if expr == "" {
        Remove(rule.id);
        return true;
      }
      if !rule.enabled {
        Remove(rule.id);
        return true;
      }
      ok := index.RegisterEntry(rule.id, expr);
    }

    method Sync(rule: Rule) returns (ok: bool)
      requires Valid(index.View())
      modifies index
      ensures Valid(index.View())
      ensures if !rule.enabled || TrimSpace(rule.expr) == "" then ok && index.View() == CronIndex.Remove(old(index.View()), rule.id)
              else (index.View(), ok) == Register(old(index.View()), rule.id, TrimSpace(rule.expr), index.parses)
    {
      if !rule.enabled || TrimSpace(rule.expr) == "" {
        Remove(rule.id);
        return true;
      }
      ok := Add(rule);
    }

    /** The loop of a refresh over the rows. */
    method AddRows(rows: seq<Rule>) returns (active: set<nat>)
      requires Valid(index.View())
      modifies index
      ensures Valid(index.View()) && index.View() == PlaceAll(old(index.View()), Items(rows, Pick), index.parses)
      ensures active == Ids(Items(rows, Pick))
    {
      ghost var was := index.View();
      active := {};
      for i := 0 to |rows|
        invariant Valid(index.View()) && index.View() == PlaceAll(was, Items(rows[..i], Pick), index.parses)
        invariant active == Ids(Items(rows[..i], Pick))
      {
        ItemsNext(rows, Pick, i);
        if rows[i].enabled && rows[i].expr != "" {
          IdsSnoc(Items(rows[..i], Pick), Pick(rows[i]).value);
          PlaceAllSnoc(was, Items(rows[..i], Pick), Pick(rows[i]).value, index.parses);
          active := active + {rows[i].id};
          var _ := Add(rows[i]);
        }
      }
      assert rows[..|rows|] == rows;
    }

    /** One undisturbed refresh from the table rows, invalid expressions skipped. Another one
        from the same rows would change nothing, not even an entry id. */
    method Refresh(rows: seq<Rule>)
      requires Valid(index.View()) && Parsed(index.View(), index.parses) && UniqueIds(rows)
      modifies index
      ensures InStep(index.View(), rows, index.parses) && Parsed(index.View(), index.parses)
      ensures index.View() == CronIndex.Refresh(old(index.View()), Items(rows, Pick), index.parses)
      ensures CronIndex.Refresh(index.View(), Items(rows, Pick), index.parses) == index.View()
    {
      ghost var was := index.View();
      var active := AddRows(rows);
      ItemsDistinct(rows, Pick);
      CronIndex.RefreshResult(was, Items(rows, Pick), index.parses);
      forall id: nat, expr ensures WantedBy(Items(rows, Pick), index.parses)(id, expr) == ScheduledBy(rows, index.parses)(id, expr) {
        WantedIsScheduled(rows, index.parses, id, expr);
      }
      HoldsSame(CronIndex.Refresh(was, Items(rows, Pick), index.parses), WantedBy(Items(rows, Pick), index.parses),
                ScheduledBy(rows, index.parses));
      index.RemoveStale(active);
    }

    /** What a cron entry does when it fires: run the inspection only if the row still exists
        and is still scheduled; unregister a row that is not. */
    method Trigger(id: nat, row: Option<Rule>) returns (run: bool)
      requires Valid(index.View()) && (row.Some? ==> row.value.id == id)
      modifies index
      ensures Valid(index.View()) && run == (row.Some? && row.value.enabled && TrimSpace(row.value.expr) != "")
      ensures index.View() == if row.Some? && !run then CronIndex.Remove(old(index.View()), id) else old(index.View())
    {
      if row == None { return false; }
      if !row.value.enabled || TrimSpace(row.value.expr) == "" {
        Remove(id);
        return false;
      }
      return true;
    }
  }
}
