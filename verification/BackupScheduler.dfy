/** The backup scheduler: rows of backup_schedules kept in step with the cron index. */
module BackupScheduler {
  import opened Wrappers
  import opened Text
  import opened CronIndex

  datatype Schedule = Schedule(id: nat, status: string, expr: string)

  predicate UniqueIds(rows: seq<Schedule>) {
    forall i, j :: 0 <= i < j < |rows| ==> rows[i].id != rows[j].id
  }

  /** The rows a refresh looks at: active and not blank. */
  function Pick(row: Schedule): Option<Item> {
    if row.status == "active" && TrimSpace(row.expr) != "" then Some(Item(row.id, TrimSpace(row.expr))) else None
  }

  /** The row `id` should be registered with `expr`. */
  predicate Scheduled(rows: seq<Schedule>, parses: string -> bool, id: nat, expr: string) {
    exists i :: 0 <= i < |rows| && rows[i].id == id && rows[i].status == "active"
                && TrimSpace(rows[i].expr) == expr && expr != "" && parses(expr)
  }

  function ScheduledBy(rows: seq<Schedule>, parses: string -> bool): (nat, string) -> bool {
    (id: nat, expr) => Scheduled(rows, parses, id, expr)
  }

  /** The index holds exactly the scheduled rows, and each live cron entry runs its row's
      current expression. */
  ghost predicate InStep(x: Index, rows: seq<Schedule>, parses: string -> bool) {
    Holds(x, ScheduledBy(rows, parses))
  }

  lemma WantedIsScheduled(rows: seq<Schedule>, parses: string -> bool, id: nat, expr: string)
    ensures Wanted(Items(rows, Pick), parses, id, expr) <==> Scheduled(rows, parses, id, expr)
  {
    ItemsFrom(rows, Pick, Item(id, expr));
    if i :| 0 <= i < |rows| && Pick(rows[i]) == Some(Item(id, expr)) {
      assert rows[i].id == id;
    }
    if Scheduled(rows, parses, id, expr) {
      var i :| 0 <= i < |rows| && rows[i].id == id && rows[i].status == "active"
               && TrimSpace(rows[i].expr) == expr && expr != "" && parses(expr);
      assert Pick(rows[i]) == Some(Item(id, expr));
    }
  }

  class Scheduler {
    const index: Table

    constructor (parses: string -> bool)
      ensures fresh(index) && index.parses == parses && Valid(index.View()) && Parsed(index.View(), parses)
    {
      index := new Table(parses);
    }

    method Remove(id: nat)
      requires Valid(index.View())
      modifies index
      ensures Valid(index.View()) && index.View() == CronIndex.Remove(old(index.View()), id)
    {
      index.RemoveEntry(id);
    }

    /** A missing status counts as active here. */
    method Add(schedule: Schedule) returns (ok: bool)
      requires Valid(index.View())
      modifies index
      ensures Valid(index.View())
      ensures var x, expr := old(index.View()), TrimSpace(schedule.expr);
              if schedule.status != "" && schedule.status != "active" then index.View() == CronIndex.Remove(x, schedule.id) && ok
              else if expr == "" then index.View() == CronIndex.Remove(x, schedule.id) && !ok
              else (index.View(), ok) == Register(x, schedule.id, expr, index.parses)
    {
      if schedule.status != "" && schedule.status != "active" {
        Remove(schedule.id);
        return true;
      }
      var expr := TrimSpace(schedule.expr);
      if expr == "" {
        Remove(schedule.id);
        return false;
      }
      ok := index.RegisterEntry(schedule.id, expr);
    }

    method Sync(schedule: Schedule) returns (ok: bool)
      requires Valid(index.View())
      modifies index
      ensures Valid(index.View())
      ensures if Pick(schedule) == None then ok && index.View() == CronIndex.Remove(old(index.View()), schedule.id)
              else (index.View(), ok) == Register(old(index.View()), schedule.id, TrimSpace(schedule.expr), index.parses)
    {
      if schedule.status != "active" || TrimSpace(schedule.expr) == "" {
        Remove(schedule.id);
        return true;
      }
      ok := Add(schedule);
    }

    /** The loop of a refresh over the rows; blank rows are skipped before the index. */
    method AddRows(rows: seq<Schedule>) returns (active: set<nat>)
      requires Valid(index.View())
      modifies index
      ensures Valid(index.View()) && index.View() == PlaceAll(old(index.View()), Items(rows, Pick), index.parses)
      ensures active == Ids(Items(rows, Pick))
    {
      ghost var was := index.View();
      active := {};
      for i := 0 to |rows|
        invariant Valid(index.View()) && index.View() == PlaceAll(was, Items(rows[..i], Pick), index.parses)
        invariant active == Ids(Items(rows[..i], Pick))
      {
        ItemsNext(rows, Pick, i);
        if rows[i].status == "active" && TrimSpace(rows[i].expr) != "" {
          IdsSnoc(Items(rows[..i], Pick), Pick(rows[i]).value);
          PlaceAllSnoc(was, Items(rows[..i], Pick), Pick(rows[i]).value, index.parses);
          active := active + {rows[i].id};
          var _ := Add(rows[i]);
        }
      }
      assert rows[..|rows|] == rows;
    }

    /** One undisturbed refresh from the table rows, invalid expressions skipped. Another one
        from the same rows would change nothing, not even an entry id. */
    method Refresh(rows: seq<Schedule>)
      requires Valid(index.View()) && Parsed(index.View(), index.parses) && UniqueIds(rows)
      modifies index
      ensures InStep(index.View(), rows, index.parses) && Parsed(index.View(), index.parses)
      ensures index.View() == CronIndex.Refresh(old(index.View()), Items(rows, Pick), index.parses)
      ensures CronIndex.Refresh(index.View(), Items(rows, Pick), index.parses) == index.View()
    {
      ghost var was := index.View();
      var active := AddRows(rows);
      ItemsDistinct(rows, Pick);
      CronIndex.RefreshResult(was, Items(rows, Pick), index.parses);
      forall id: nat, expr ensures WantedBy(Items(rows, Pick), index.parses)(id, expr) == ScheduledBy(rows, index.parses)(id, expr) {
        WantedIsScheduled(rows, index.parses, id, expr);
      }
      HoldsSame(CronIndex.Refresh(was, Items(rows, Pick), index.parses), WantedBy(Items(rows, Pick), index.parses),
                ScheduledBy(rows, index.parses));
      index.RemoveStale(active);
    }

    /** What a cron entry does when it fires: run the backup only if the row still exists
        and is still scheduled; unregister a row that is not. */
    method Trigger(id: nat, row: Option<Schedule>) returns (run: bool)
      requires Valid(index.View()) && (row.Some? ==> row.value.id == id)
      modifies index
      ensures Valid(index.View()) && run == (row.Some? && Pick(row.value).Some?)
      ensures index.View() == if row.Some? && !run then CronIndex.Remove(old(index.View()), id) else old(index.View())
    {
      if row == None { return false; }
      if row.value.status != "active" || TrimSpace(row.value.expr) == "" {
        Remove(id);
        return false;
      }
      return true;
    }
  }
}
