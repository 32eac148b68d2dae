module Upgrader {
  /** The upgrade tools at work on an application's files, one file operation at a time. */

  import opened Common
  import opened TemplateUpgrade

  lemma {:induction false} StoppedStays(step: (Progress, Row) -> Step, p: Progress, rows: seq<Row>, k: nat, n: nat)
    requires k <= n <= |rows| && ApplyRows(step, p, rows, k).Stopped?
    ensures ApplyRows(step, p, rows, n) == ApplyRows(step, p, rows, k)
    decreases n
  {
    if k < n {
      StoppedStays(step, p, rows, k, n - 1);
    }
  }

  lemma {:induction false} NoneStays(t: Tools, files: Files, before: Files, changes: seq<DoneRow>, k: nat)
    requires k <= |changes| && RestoreFrom(t, files, before, changes, k).None?
    ensures RestoreFrom(t, files, before, changes, 0).None?
    decreases k
  {
    if k > 0 {
      NoneStays(t, files, before, changes, k - 1);
    }
  }

  lemma ActionableGrows(rows: seq<Row>, k: nat)
    requires k < |rows|
    ensures Actionable(rows[..k + 1]) ==
      Actionable(rows[..k]) + (if rows[k].action == Update || rows[k].action == Remove then [rows[k]] else [])
  {
    assert rows[..k + 1][..k] == rows[..k];
  }

  /** An application directory. */
  class Application {
    const tools: Tools
    /** Which file operations raise, by their number. */
    const faults: Faults
    var files: Files
    var links: set<string>
    var lock: LockFile
    var journals: map<string, JournalDir>
    /** The rows of the journal dictionary held in memory. */
    var changes: seq<DoneRow>
    var tick: nat

    function State(): App
      reads this
    {
      App(files, links, lock, journals)
    }

    function Now(): Progress
      reads this
    {
      Progress(State(), changes, tick)
    }

    constructor (tools: Tools, faults: Faults, app: App)
      ensures this.tools == tools && this.faults == faults && State() == app && changes == [] && tick == 0
    {
      this.tools, this.faults := tools, faults;
      files, links, lock, journals := app.files, app.links, app.lock, app.journals;
      changes, tick := [], 0;
    }

    /** Attempt one file operation; when it raises, nothing has happened. */
    method Attempt() returns (ok: bool)
      modifies this`tick
      ensures tick == old(tick) + 1 && ok == !faults(old(tick))
    {
      ok := !faults(tick);
      tick := tick + 1;
    }

    /** `upgrade_plan` */
    method UpgradePlan(template: Template) returns (plan: Result<seq<Row>>)
      ensures plan == Plan(tools, State(), template)
    {
      if !ValidLock(lock) || !ValidLock(template.lock) {
        return Err("Template lock is invalid.");
      }
      var paths := ManagedPaths(tools, State(), template);
      plan := PlanEach(lock.lock.managed, Manifest(tools, template), paths);
    }

    method PlanEach(previous: map<string, Digest>, next: map<string, Digest>, paths: seq<string>) returns (plan: Result<seq<Row>>)
      ensures plan ==
        if AllSafe(tools, links, paths) then Ok(PlanRows(tools, State(), previous, next, paths, |paths|))
        else Err("Invalid managed file path.")
    {
      var rows := [];
      for i := 0 to |paths|
        invariant forall k | 0 <= k < i :: Safe(tools, links, paths[k])
        invariant rows == PlanRows(tools, State(), previous, next, paths, i)
      {
        if !Safe(tools, links, paths[i]) {
          return Err("Invalid managed file path.");
        }
        var row := PlanOne(previous, next, paths[i]);
        rows := rows + row;
      }
      plan := Ok(rows);
    }

    method PlanOne(previous: map<string, Digest>, next: map<string, Digest>, path: string) returns (row: seq<Row>)
      ensures row == PlanRow(tools, State(), previous, next, path)
    {
      var base, current, incoming := Lookup(previous, path), DigestAt(tools, files, path), Lookup(next, path);
      if current == incoming {
        return [];
      }
      var action;
      if current == base {
        action := if incoming.Some? then Update else Remove;
      } else if base == incoming {
        action := PreserveLocal;
      } else {
        action := Conflict;
      }
      row := [Row(path, action, base, current, incoming)];
    }

    method SelectActionable(rows: seq<Row>) returns (selected: seq<Row>)
      ensures selected == Actionable(rows)
    {
      selected := [];
      for i := 0 to |rows|
        invariant selected == Actionable(rows[..i])
      {
        ActionableGrows(rows, i);
        if rows[i].action == Update || rows[i].action == Remove {
          selected := selected + [rows[i]];
        }
      }
      assert rows[..|rows|] == rows;
    }

    method SaveJournal(stamp: string, journal: Journal)
      requires stamp in journals
      modifies this`journals
      ensures State() == WriteJournal(old(State()), stamp, journal)
    {
      journals := journals[stamp := journals[stamp].(journal := Some(journal))];
    }

    method KeepCopy(stamp: string, path: string) returns (ok: bool)
      requires stamp in journals
      modifies this`journals, this`tick
      ensures stamp in journals
      ensures BackUp(old(Now()), stamp, path, faults) == if ok then Going(Now()) else Stopped(Now())
    {
      if path !in files {
        return true;
      }
      ok := Attempt();
      if ok {
        journals := journals[stamp := journals[stamp].(before := journals[stamp].before[path := files[path]])];
      }
    }

    method Replace(template: Template, row: Row) returns (ok: bool)
      modifies this`files, this`tick
      ensures Put(tools, old(Now()), template, row, faults) == if ok then Going(Now()) else Stopped(Now())
    {
      if row.path in template.links {
        tick := tick + 1;
        return false;
      }
      ok := Attempt();
      if !ok {
        return;
      }
      if row.action == Update {
        if row.path !in template.files || DigestAt(tools, template.files, row.path) != row.incoming {
          return false;
        }
        ok := Attempt();
        if ok {
          files := files[row.path := template.files[row.path]];
        }
      } else {
        files := files - {row.path};
      }
    }

    method PerformRow(template: Template, stamp: string, planHash: string, row: Row, hadBefore: bool) returns (ok: bool)
      requires stamp in journals
      modifies this`files, this`journals, this`changes, this`tick
      ensures stamp in journals
      ensures Perform(tools, old(Now()), template, stamp, planHash, row, hadBefore, faults) == if ok then Going(Now()) else Stopped(Now())
    {
      ok := Replace(template, row);
      if !ok {
        return;
      }
      changes := changes + [DoneRow(row.path, row.action, row.current, row.incoming, hadBefore)];
      ok := Attempt();
      if ok {
        SaveJournal(stamp, Journal(Applying, planHash, changes));
      }
    }

    /** One iteration of the loop of `upgrade_apply`. */
    method ApplyOne(template: Template, stamp: string, planHash: string, row: Row) returns (ok: bool)
      requires stamp in journals
      modifies this`files, this`journals, this`changes, this`tick
      ensures stamp in journals
      ensures ApplyRow(tools, old(Now()), template, stamp, planHash, row, faults) == if ok then Going(Now()) else Stopped(Now())
    {
      if !Safe(tools, links, row.path) {
        tick := tick + 1;
        return false;
      }
      ok := Attempt();
      var current := DigestAt(tools, files, row.path);
      if !ok || current != row.current {
        return false;
      }
      ok := KeepCopy(stamp, row.path);
      if ok {
        ok := PerformRow(template, stamp, planHash, row, current.Some?);
      }
    }

    method ApplyEach(template: Template, stamp: string, planHash: string, rows: seq<Row>) returns (ok: bool)
      requires stamp in journals
      modifies this`files, this`journals, this`changes, this`tick
      ensures stamp in journals
      ensures ApplyRows(RowStep(tools, template, stamp, planHash, faults), old(Now()), rows, |rows|)
        == if ok then Going(Now()) else Stopped(Now())
    {
      ghost var step, start := RowStep(tools, template, stamp, planHash, faults), Now();
      for i := 0 to |rows|
        invariant stamp in journals
        invariant ApplyRows(step, start, rows, i) == Going(Now())
      {
        ghost var before := Now();
        ok := ApplyOne(template, stamp, planHash, rows[i]);
        assert step(before, rows[i]) == if ok then Going(Now()) else Stopped(Now());
        if !ok {
          StoppedStays(step, start, rows, i + 1, |rows|);
          return;
        }
      }
      ok := true;
    }

    method Seal(template: Template, stamp: string, planHash: string) returns (ok: bool)
      requires stamp in journals && lock.Readable?
      modifies this`lock, this`journals, this`tick
      ensures stamp in journals
      ensures Finish(tools, old(Now()), template, stamp, planHash, faults) == if ok then Going(Now()) else Stopped(Now())
    {
      if !ValidLock(template.lock) {
        tick := tick + 1;
        return false;
      }
      ok := Attempt();
      if !ok {
        return;
      }
      lock := Readable(NewLock(tools, lock.lock, template), tools.layout);
      ok := Attempt();
      if ok {
        SaveJournal(stamp, Journal(Applied, planHash, changes));
      }
    }

    /** The guarded part of `upgrade_apply`, and its exception handler. */
    method Carry(template: Template, stamp: string, planHash: string, rows: seq<Row>) returns (ok: bool)
      requires stamp in journals && lock.Readable? && changes == [] && tick == 3
      modifies this
      ensures Work(tools, old(State()), template, stamp, planHash, rows, faults)
        == if ok then Completed(State()) else StoppedMidway(State())
    {
      ok := ApplyEach(template, stamp, planHash, rows);
      if ok {
        ok := Seal(template, stamp, planHash);
      }
      if !ok {
        SaveJournal(stamp, Journal(Partial, planHash, changes));
      }
    }

    method Open(stamp: string, planHash: string, ghost rows: seq<Row>) returns (ok: bool)
      requires stamp !in journals && tick == 1
      modifies this`journals, this`tick
      ensures OpenJournal(old(State()), stamp, planHash, rows, faults)
        == if ok then Started(State(), planHash, rows) else NotStarted(State())
      ensures ok ==> stamp in journals && tick == 3
    {
      journals := journals[stamp := JournalDir(None, map[], None)];
      ok := Attempt();
      if !ok {
        return;
      }
      journals := journals[stamp := journals[stamp].(lockBackup := Some(lock))];
      ok := Attempt();
      if ok {
        SaveJournal(stamp, Journal(Applying, planHash, []));
      }
    }

    /** `upgrade_apply`; `started` says whether the guarded part was reached. */
    method UpgradeApply(template: Template, expected: string, maintenance: string, stamp: string) returns (ok: bool, started: bool)
      requires changes == [] && tick == 0
      modifies this
      ensures Apply(tools, old(State()), template, expected, maintenance, stamp, faults)
        == if !started then Refused(State()) else if ok then Completed(State()) else StoppedMidway(State())
      ensures ok ==> started
    {
      ok, started := false, false;
      if maintenance != "APP-STOPPED" {
        return;
      }
      var plan := UpgradePlan(template);
      if plan.Err? {
        return;
      }
      var conflicts := CountConflicts(plan.value);
      var planHash := tools.planHash(plan.value);
      if conflicts > 0 || expected == "" || expected != planHash {
        return;
      }
      var rows := SelectActionable(plan.value);
      if stamp in journals {
        return;
      }
      ok := Attempt();
      if !ok {
        return;
      }
      ok := Open(stamp, planHash, rows);
      if !ok {
        return;
      }
      started := true;
      ok := Carry(template, stamp, planHash, rows);
    }

    method CountConflicts(rows: seq<Row>) returns (n: nat)
      ensures n > 0 <==> HasConflict(rows)
    {
      n := 0;
      for i := 0 to |rows|
        invariant n > 0 <==> exists k | 0 <= k < i :: rows[k].action == Conflict
      {
        if rows[i].action == Conflict {
          n := n + 1;
        }
      }
    }

    method CheckUntouched(done: seq<DoneRow>) returns (ok: bool)
      ensures ok == Untouched(tools, files, links, done)
    {
      for i := 0 to |done|
        invariant forall k | 0 <= k < i :: Safe(tools, links, done[k].path) && DigestAt(tools, files, done[k].path) == done[k].after
      {
        if !Safe(tools, links, done[i].path) || DigestAt(tools, files, done[i].path) != done[i].after {
          return false;
        }
      }
      ok := true;
    }

    method RestoreEach(before: Files, done: seq<DoneRow>) returns (ok: bool)
      modifies this`files
      ensures ok ==> RestoreFrom(tools, old(files), before, done, 0) == Some(files)
      ensures !ok ==> RestoreFrom(tools, old(files), before, done, 0).None?
    {
      for k := |done| downto 0
        invariant RestoreFrom(tools, old(files), before, done, k) == Some(files)
      {
        if done[k].hadBefore {
          if done[k].path !in before || Some(tools.hash(before[done[k].path])) != done[k].before {
            NoneStays(tools, old(files), before, done, k);
            return false;
          }
          files := files[done[k].path := before[done[k].path]];
        } else {
          files := files - {done[k].path};
        }
      }
      ok := true;
    }

    /** `upgrade_rollback` */
    method UpgradeRollback(stamp: string, maintenance: string) returns (ok: bool)
      modifies this`files, this`lock, this`journals
      ensures ok == Rollback(tools, old(State()), stamp, maintenance).Ok?
      ensures ok ==> State() == Rollback(tools, old(State()), stamp, maintenance).value
      ensures !ok ==> lock == old(lock) && journals == old(journals)
    {
      if maintenance != "APP-STOPPED" || stamp !in journals || !Rollbackable(journals[stamp]) {
        return false;
      }
      var dir := journals[stamp];
      ok := CheckUntouched(dir.journal.value.changes);
      if !ok {
        return;
      }
      ok := RestoreEach(dir.before, dir.journal.value.changes);
      if !ok {
        return;
      }
      if dir.lockBackup.None? {
        return false;
      }
      lock := dir.lockBackup.value;
      SaveJournal(stamp, dir.journal.value.(status := RolledBack));
    }
  }
}
