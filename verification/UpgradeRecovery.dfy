module UpgradeRecovery {
  /** Whatever an upgrade did, complete or stopped at any file operation, rolling back undoes it. */

  import opened Common
  import opened TemplateUpgrade

  // ---- files that agree

  predicate AgreeAt(f: Files, g: Files, path: string) {
    (path in f <==> path in g) && (path in f ==> f[path] == g[path])
  }

  /** `path` belongs to one of the rows from `k` on. */
  predicate DoneFrom(done: seq<DoneRow>, k: nat, path: string) {
    exists i | k <= i < |done| :: done[i].path == path
  }

  ghost predicate DistinctRows(done: seq<DoneRow>) {
    forall i, j :: 0 <= i < j < |done| ==> done[i].path != done[j].path
  }

  /** Row `row` records truthfully what happened to its file between `start` and `files`. */
  ghost predicate RowTrue(t: Tools, start: App, files: Files, before: Files, row: DoneRow) {
    && Safe(t, start.links, row.path)
    && row.hadBefore == (row.path in start.files)
    && row.before == DigestAt(t, start.files, row.path)
    && (row.hadBefore ==> row.path in before && before[row.path] == start.files[row.path])
    && row.after == DigestAt(t, files, row.path)
    && row.before != row.after
  }

  /** The files, the backups and the journal rows of an unfinished apply that began in `start`. */
  ghost predicate Tracks(t: Tools, start: App, files: Files, before: Files, done: seq<DoneRow>) {
    && DistinctRows(done)
    && (forall i :: 0 <= i < |done| ==> RowTrue(t, start, files, before, done[i]))
    && (forall path {:trigger AgreeAt(files, start.files, path)} ::
          !DoneFrom(done, 0, path) ==> AgreeAt(files, start.files, path))
  }

  /** Everything outside the managed files and this apply's own journal is as it was. */
  ghost predicate Surroundings(start: App, app: App, stamp: string) {
    && stamp in app.journals && stamp !in start.journals
    && app.links == start.links
    && app.journals.Keys == start.journals.Keys + {stamp}
    && (forall s :: s in start.journals ==> app.journals[s] == start.journals[s])
    && app.journals[stamp].lockBackup == Some(start.lock)
  }

  ghost predicate InProgress(t: Tools, start: App, p: Progress, stamp: string) {
    && Surroundings(start, p.app, stamp)
    && p.app.lock == start.lock
    && Tracks(t, start, p.app.files, p.app.journals[stamp].before, p.done)
  }

  // ---- what the plan guarantees about the rows to apply

  ghost predicate RowsReady(rows: seq<Row>) {
    && DistinctPaths(rows)
    && (forall i :: 0 <= i < |rows| ==> RowReady(rows[i]))
  }

  ghost predicate RowReady(row: Row) {
    && (row.action == Update || row.action == Remove)
    && (row.action == Update <==> row.incoming.Some?)
    && row.current != row.incoming
  }

  lemma {:induction false} PlannedRows(
    t: Tools, app: App, previous: map<string, Digest>, next: map<string, Digest>, paths: seq<string>, k: nat, i: nat)
    requires k <= |paths| && i < |PlanRows(t, app, previous, next, paths, k)|
    requires forall a, b :: 0 <= a < b < |paths| ==> paths[a] != paths[b]
    ensures var row := PlanRows(t, app, previous, next, paths, k)[i];
      && row.path in paths[..k]
      && PlanRow(t, app, previous, next, row.path) == [row]
    ensures forall j :: 0 <= j < i ==>
      PlanRows(t, app, previous, next, paths, k)[j].path != PlanRows(t, app, previous, next, paths, k)[i].path
    decreases k
  {
    var front := PlanRows(t, app, previous, next, paths, k - 1);
    assert paths[..k] == paths[..k - 1] + [paths[k - 1]];
    if i < |front| {
      PlannedRows(t, app, previous, next, paths, k - 1, i);
    } else {
      forall j | 0 <= j < i
        ensures front[j].path != paths[k - 1]
      {
        PlannedRows(t, app, previous, next, paths, k - 1, j);
      }
    }
  }

  lemma {:induction false} ActionableMembers(rows: seq<Row>)
    ensures forall row :: row in Actionable(rows) <==> row in rows && (row.action == Update || row.action == Remove)
  {
    if rows != [] {
      ActionableMembers(rows[..|rows| - 1]);
      assert rows == rows[..|rows| - 1] + [rows[|rows| - 1]];
    }
  }

  predicate DistinctPaths(rows: seq<Row>) {
    forall i, j | 0 <= i < j < |rows| :: rows[i].path != rows[j].path
  }

  lemma {:induction false} ActionableDistinct(rows: seq<Row>)
    requires DistinctPaths(rows)
    ensures DistinctPaths(Actionable(rows))
  {
    if rows != [] {
      var front, last := rows[..|rows| - 1], rows[|rows| - 1];
      ActionableDistinct(front);
      ActionableMembers(front);
      forall row | row in Actionable(front)
        ensures row.path != last.path
      {
        var i :| 0 <= i < |front| && front[i] == row;
        assert rows[i].path != rows[|rows| - 1].path;
      }
    }
  }

  lemma PlannedRowIsReady(t: Tools, app: App, previous: map<string, Digest>, next: map<string, Digest>, path: string, row: Row)
    requires PlanRow(t, app, previous, next, path) == [row] && (row.action == Update || row.action == Remove)
    ensures RowReady(row)
  {
  }

  lemma PlannedDistinct(t: Tools, app: App, previous: map<string, Digest>, next: map<string, Digest>, paths: seq<string>)
    requires forall a, b :: 0 <= a < b < |paths| ==> paths[a] != paths[b]
    ensures DistinctPaths(PlanRows(t, app, previous, next, paths, |paths|))
  {
    var rows := PlanRows(t, app, previous, next, paths, |paths|);
    forall i, j | 0 <= i < j < |rows|
      ensures rows[i].path != rows[j].path
    {
      PlannedRows(t, app, previous, next, paths, |paths|, j);
    }
  }

  lemma PlannedRowsAreReady(
    t: Tools, app: App, previous: map<string, Digest>, next: map<string, Digest>, paths: seq<string>)
    requires forall a, b :: 0 <= a < b < |paths| ==> paths[a] != paths[b]
    ensures RowsReady(Actionable(PlanRows(t, app, previous, next, paths, |paths|)))
  {
    var rows := PlanRows(t, app, previous, next, paths, |paths|);
    PlannedDistinct(t, app, previous, next, paths);
    ActionableDistinct(rows);
    ActionableMembers(rows);
    forall i | 0 <= i < |Actionable(rows)|
      ensures RowReady(Actionable(rows)[i])
    {
      var row := Actionable(rows)[i];
      assert row in Actionable(rows);
      var j :| 0 <= j < |rows| && rows[j] == row;
      PlannedRows(t, app, previous, next, paths, |paths|, j);
      PlannedRowIsReady(t, app, previous, next, row.path, row);
    }
  }

  // ---- every step of an apply keeps its record true

  lemma BackUpKeeps(t: Tools, start: App, p: Progress, stamp: string, path: string, faults: Faults)
    requires InProgress(t, start, p, stamp) && !DoneFrom(p.done, 0, path)
    ensures var r := BackUp(p, stamp, path, faults).p;
      && InProgress(t, start, r, stamp) && r.done == p.done && r.app.files == p.app.files
      && (BackUp(p, stamp, path, faults).Going? && path in start.files ==>
            path in r.app.journals[stamp].before && r.app.journals[stamp].before[path] == start.files[path])
  {
    assert AgreeAt(p.app.files, start.files, path);
  }

  /** Only the file of the row changes, to what the row says. */
  lemma PutChangesOneFile(t: Tools, p: Progress, template: Template, row: Row, faults: Faults)
    requires RowReady(row)
    ensures var r := Put(t, p, template, row, faults);
      && r.p.done == p.done && r.p.app == p.app.(files := r.p.app.files)
      && (r.Stopped? ==> r.p.app.files == p.app.files)
      && (r.Going? ==> DigestAt(t, r.p.app.files, row.path) == row.incoming)
      && forall path {:trigger AgreeAt(r.p.app.files, p.app.files, path)} ::
           path != row.path ==> AgreeAt(r.p.app.files, p.app.files, path)
  {
  }

  lemma DoneGrows(done: seq<DoneRow>, row: DoneRow, path: string)
    ensures DoneFrom(done + [row], 0, path) <==> DoneFrom(done, 0, path) || path == row.path
  {
    var more := done + [row];
    if DoneFrom(done, 0, path) {
      var i :| 0 <= i < |done| && done[i].path == path;
      assert more[i].path == path;
    }
    assert more[|done|].path == row.path;
  }

  lemma ExtendRecord(t: Tools, start: App, was: Files, now: Files, before: Files, done: seq<DoneRow>, row: DoneRow)
    requires Tracks(t, start, was, before, done) && !DoneFrom(done, 0, row.path)
    requires RowTrue(t, start, now, before, row)
    requires forall path {:trigger AgreeAt(now, was, path)} :: path != row.path ==> AgreeAt(now, was, path)
    ensures Tracks(t, start, now, before, done + [row])
  {
    var more := done + [row];
    forall i | 0 <= i < |more|
      ensures RowTrue(t, start, now, before, more[i])
    {
      if i < |done| {
        assert done[i].path != row.path;
        assert AgreeAt(now, was, done[i].path);
        assert RowTrue(t, start, was, before, done[i]);
      }
    }
    forall path | !DoneFrom(more, 0, path)
      ensures AgreeAt(now, start.files, path)
    {
      DoneGrows(done, row, path);
      assert AgreeAt(now, was, path) && AgreeAt(was, start.files, path);
    }
  }

  /** A step goes on with one more true row, or stops with the record as true as before. */
  ghost predicate Extended(t: Tools, start: App, done: seq<DoneRow>, stamp: string, row: Row, r: Step) {
    && InProgress(t, start, r.p, stamp)
    && (r.Going? ==> |r.p.done| == |done| + 1 && r.p.done[|done|].path == row.path && r.p.done[..|done|] == done)
  }

  lemma StoppingKeeps(t: Tools, start: App, p: Progress, stamp: string, row: Row)
    requires InProgress(t, start, p, stamp)
    ensures Extended(t, start, p.done, stamp, row, Stopped(p.(tick := p.tick + 1)))
  {
  }

  /** The file of the row is as it was at the start, and backed up if there was one. */
  ghost predicate BackedUp(t: Tools, start: App, p: Progress, stamp: string, row: Row) {
    && InProgress(t, start, p, stamp)
    && !DoneFrom(p.done, 0, row.path)
    && Safe(t, start.links, row.path) && row.current == DigestAt(t, start.files, row.path)
    && (row.path in start.files ==>
          row.path in p.app.journals[stamp].before && p.app.journals[stamp].before[row.path] == start.files[row.path])
  }

  lemma BackUpReady(t: Tools, start: App, p: Progress, stamp: string, row: Row, faults: Faults)
    requires InProgress(t, start, p, stamp) && !DoneFrom(p.done, 0, row.path)
    requires Safe(t, p.app.links, row.path) && row.current == DigestAt(t, p.app.files, row.path)
    ensures var r := BackUp(p, stamp, row.path, faults);
      && r.p.done == p.done
      && (r.Stopped? ==> Extended(t, start, p.done, stamp, row, r))
      && (r.Going? ==> BackedUp(t, start, r.p, stamp, row))
  {
    assert AgreeAt(p.app.files, start.files, row.path);
    BackUpKeeps(t, start, p, stamp, row.path, faults);
  }

  lemma PutKeeps(t: Tools, start: App, p: Progress, template: Template, stamp: string, row: Row, faults: Faults)
    requires BackedUp(t, start, p, stamp, row) && RowReady(row)
    ensures var put := Put(t, p, template, row, faults);
      && put.p.done == p.done
      && (put.Stopped? ==> InProgress(t, start, put.p, stamp))
      && (put.Going? ==>
            InProgress(t, start, put.p.(done := p.done + [DoneRow(row.path, row.action, row.current, row.incoming, row.current.Some?)]), stamp))
  {
    PutChangesOneFile(t, p, template, row, faults);
    var put := Put(t, p, template, row, faults);
    if put.Going? {
      var doneRow := DoneRow(row.path, row.action, row.current, row.incoming, row.current.Some?);
      ExtendRecord(t, start, p.app.files, put.p.app.files, put.p.app.journals[stamp].before, p.done, doneRow);
    }
  }

  lemma PerformKeeps(
    t: Tools, start: App, p: Progress, template: Template, stamp: string, planHash: string, row: Row, faults: Faults)
    requires BackedUp(t, start, p, stamp, row) && RowReady(row)
    ensures Extended(t, start, p.done, stamp, row, Perform(t, p, template, stamp, planHash, row, row.current.Some?, faults))
  {
    PutKeeps(t, start, p, template, stamp, row, faults);
  }

  lemma ApplyRowIs(t: Tools, p: Progress, template: Template, stamp: string, planHash: string, row: Row, faults: Faults)
    requires stamp in p.app.journals
    ensures var backed := BackUp(p.(tick := p.tick + 1), stamp, row.path, faults);
      ApplyRow(t, p, template, stamp, planHash, row, faults)
      == if !Safe(t, p.app.links, row.path) || faults(p.tick) || DigestAt(t, p.app.files, row.path) != row.current
         then Stopped(p.(tick := p.tick + 1))
         else if backed.Stopped? then backed
         else Perform(t, backed.p, template, stamp, planHash, row, row.current.Some?, faults)
  {
  }

  lemma BackedRowKeeps(
    t: Tools, start: App, p: Progress, template: Template, stamp: string, planHash: string, row: Row, faults: Faults)
    requires InProgress(t, start, p, stamp) && RowReady(row) && !DoneFrom(p.done, 0, row.path)
    requires Safe(t, p.app.links, row.path) && DigestAt(t, p.app.files, row.path) == row.current
    ensures var backed := BackUp(p, stamp, row.path, faults);
      if backed.Stopped? then Extended(t, start, p.done, stamp, row, backed)
      else
        && stamp in backed.p.app.journals
        && Extended(t, start, p.done, stamp, row, Perform(t, backed.p, template, stamp, planHash, row, row.current.Some?, faults))
  {
    BackUpReady(t, start, p, stamp, row, faults);
    var backed := BackUp(p, stamp, row.path, faults);
    if backed.Going? {
      PerformKeeps(t, start, backed.p, template, stamp, planHash, row, faults);
    }
  }

  lemma ApplyRowKeeps(
    t: Tools, start: App, p: Progress, template: Template, stamp: string, planHash: string, row: Row, faults: Faults)
    requires InProgress(t, start, p, stamp) && RowReady(row) && !DoneFrom(p.done, 0, row.path)
    ensures Extended(t, start, p.done, stamp, row, ApplyRow(t, p, template, stamp, planHash, row, faults))
  {
    if !Safe(t, p.app.links, row.path) || faults(p.tick) || DigestAt(t, p.app.files, row.path) != row.current {
      StoppingKeeps(t, start, p, stamp, row);
    } else {
      ApplyRowIs(t, p, template, stamp, planHash, row, faults);
      BackedRowKeeps(t, start, p.(tick := p.tick + 1), template, stamp, planHash, row, faults);
    }
  }

  ghost predicate StepKeeps(t: Tools, start: App, stamp: string, step: (Progress, Row) -> Step) {
    forall p: Progress, row: Row {:trigger step(p, row)} ::
      InProgress(t, start, p, stamp) && RowReady(row) && !DoneFrom(p.done, 0, row.path) ==>
        Extended(t, start, p.done, stamp, row, step(p, row))
  }

  lemma RowStepKeeps(t: Tools, start: App, template: Template, stamp: string, planHash: string, faults: Faults)
    ensures StepKeeps(t, start, stamp, RowStep(t, template, stamp, planHash, faults))
  {
    var step := RowStep(t, template, stamp, planHash, faults);
    forall p: Progress, row: Row {:trigger step(p, row)} |
      InProgress(t, start, p, stamp) && RowReady(row) && !DoneFrom(p.done, 0, row.path)
      ensures Extended(t, start, p.done, stamp, row, step(p, row))
    {
      ApplyRowKeeps(t, start, p, template, stamp, planHash, row, faults);
    }
  }

  lemma {:induction false} ApplyRowsKeep(
    t: Tools, start: App, step: (Progress, Row) -> Step, p: Progress, stamp: string, rows: seq<Row>, k: nat)
    requires StepKeeps(t, start, stamp, step)
    requires InProgress(t, start, p, stamp) && p.done == [] && RowsReady(rows) && k <= |rows|
    ensures var r := ApplyRows(step, p, rows, k);
      && InProgress(t, start, r.p, stamp)
      && (r.Going? ==> |r.p.done| == k && forall i :: 0 <= i < k ==> r.p.done[i].path == rows[i].path)
    decreases k
  {
    if k > 0 {
      ApplyRowsKeep(t, start, step, p, stamp, rows, k - 1);
      var before := ApplyRows(step, p, rows, k - 1);
      if before.Going? {
        assert !DoneFrom(before.p.done, 0, rows[k - 1].path);
        var after := step(before.p, rows[k - 1]);
        assert Extended(t, start, before.p.done, stamp, rows[k - 1], after);
        if after.Going? {
          forall i | 0 <= i < k
            ensures after.p.done[i].path == rows[i].path
          {
            if i < k - 1 {
              assert after.p.done[i] == after.p.done[..k - 1][i];
            }
          }
        }
      }
    }
  }

  // ---- the record an apply leaves behind

  /** `app` is what an apply that began in `start` left behind, with a journal that can be rolled back. */
  ghost predicate Recorded(t: Tools, start: App, app: App, stamp: string) {
    && Surroundings(start, app, stamp)
    && Rollbackable(app.journals[stamp])
    && Tracks(t, start, app.files, app.journals[stamp].before, app.journals[stamp].journal.value.changes)
  }

  lemma FinishIsRecorded(t: Tools, start: App, p: Progress, template: Template, stamp: string, planHash: string, faults: Faults)
    requires InProgress(t, start, p, stamp)
    ensures match Finish(t, p, template, stamp, planHash, faults)
      case Going(q) => Recorded(t, start, q.app, stamp)
      case Stopped(q) => Recorded(t, start, EndPartial(q, stamp, planHash), stamp)
  {
  }

  lemma WorkIsRecorded(
    t: Tools, start: App, app: App, template: Template, stamp: string, planHash: string, rows: seq<Row>, faults: Faults)
    requires RowsReady(rows) && InProgress(t, start, Progress(app, [], 3), stamp)
    ensures Recorded(t, start, Work(t, app, template, stamp, planHash, rows, faults).app, stamp)
  {
    var p, step := Progress(app, [], 3), RowStep(t, template, stamp, planHash, faults);
    RowStepKeeps(t, start, template, stamp, planHash, faults);
    ApplyRowsKeep(t, start, step, p, stamp, rows, |rows|);
    var looped := ApplyRows(step, p, rows, |rows|);
    if looped.Going? {
      FinishIsRecorded(t, start, looped.p, template, stamp, planHash, faults);
    }
  }

  lemma OpenJournalKeeps(t: Tools, app: App, stamp: string, planHash: string, rows: seq<Row>, faults: Faults)
    requires stamp !in app.journals
    ensures var r := OpenJournal(app, stamp, planHash, rows, faults);
      && r.app == app.(journals := r.app.journals)
      && (forall s :: s in app.journals ==> s in r.app.journals && r.app.journals[s] == app.journals[s])
      && (r.Started? ==> InProgress(t, app, Progress(r.app, [], 3), stamp))
  {
  }

  lemma BeginKeeps(t: Tools, app: App, template: Template, expected: string, maintenance: string, stamp: string, faults: Faults)
    ensures var r := Begin(t, app, template, expected, maintenance, stamp, faults);
      && r.app == app.(journals := r.app.journals)
      && (forall s :: s in app.journals ==> s in r.app.journals && r.app.journals[s] == app.journals[s])
      && (r.Started? ==> InProgress(t, app, Progress(r.app, [], 3), stamp) && RowsReady(r.rows))
  {
    var plan := Plan(t, app, template);
    if plan.Ok? && stamp !in app.journals {
      OpenJournalKeeps(t, app, stamp, t.planHash(plan.value), Actionable(plan.value), faults);
      PlannedRowsAreReady(t, app, app.lock.lock.managed, Manifest(t, template), ManagedPaths(t, app, template));
    }
  }

  /** An apply is refused without touching managed files, the lock or an older journal, or it leaves a
      journal that can be rolled back, whichever file operation raised. */
  lemma ApplyIsRecorded(
    t: Tools, app: App, template: Template, expected: string, maintenance: string, stamp: string, faults: Faults)
    ensures var r := Apply(t, app, template, expected, maintenance, stamp, faults);
      if r.Refused? then
        && r.app == app.(journals := r.app.journals)
        && forall s :: s in app.journals ==> s in r.app.journals && r.app.journals[s] == app.journals[s]
      else Recorded(t, app, r.app, stamp)
  {
    BeginKeeps(t, app, template, expected, maintenance, stamp, faults);
    var begun := Begin(t, app, template, expected, maintenance, stamp, faults);
    if begun.Started? {
      WorkIsRecorded(t, app, begun.app, template, stamp, begun.planHash, begun.rows, faults);
    }
  }

  // ---- rolling back

  /** Restoring the rows from `k` on, whatever the files hold by now. */
  lemma {:induction false} RestoreReturns(
    t: Tools, start: App, applied: Files, files: Files, before: Files, done: seq<DoneRow>, k: nat)
    requires Tracks(t, start, applied, before, done) && k <= |done|
    ensures var r := RestoreFrom(t, files, before, done, k);
      && r.Some?
      && forall path {:trigger DoneFrom(done, k, path)} ::
           AgreeAt(r.value, if DoneFrom(done, k, path) then start.files else files, path)
    decreases |done| - k
  {
    if k < |done| {
      RestoreReturns(t, start, applied, files, before, done, k + 1);
      var rest := RestoreFrom(t, files, before, done, k + 1).value;
      var row := done[k];
      assert RowTrue(t, start, applied, before, row);
      var restored := Restore(t, rest, before, row).value;
      forall path
        ensures AgreeAt(restored, if DoneFrom(done, k, path) then start.files else files, path)
      {
        assert DoneFrom(done, k, path) <==> path == row.path || DoneFrom(done, k + 1, path);
        assert AgreeAt(rest, if DoneFrom(done, k + 1, path) then start.files else files, path);
      }
    }
  }

  /** Rolling back right after an apply restores every file, the links and the lock; the other journals
      are left alone. */
  lemma RollbackUndoes(t: Tools, start: App, app: App, stamp: string)
    requires Recorded(t, start, app, stamp)
    ensures var r := Rollback(t, app, stamp, "APP-STOPPED");
      && r.Ok? && r.value.files == start.files && r.value.lock == start.lock && r.value.links == start.links
      && r.value.journals.Keys == start.journals.Keys + {stamp}
      && forall s :: s in start.journals ==> r.value.journals[s] == start.journals[s]
  {
    var dir := app.journals[stamp];
    var changes := dir.journal.value.changes;
    forall i | 0 <= i < |changes|
      ensures Safe(t, app.links, changes[i].path) && DigestAt(t, app.files, changes[i].path) == changes[i].after
    {
      assert RowTrue(t, start, app.files, dir.before, changes[i]);
    }
    RestoreReturns(t, start, app.files, app.files, dir.before, changes, 0);
    var files := RestoreFrom(t, app.files, dir.before, changes, 0).value;
    forall path
      ensures AgreeAt(files, start.files, path)
    {
      assert AgreeAt(files, if DoneFrom(changes, 0, path) then start.files else app.files, path);
      assert !DoneFrom(changes, 0, path) ==> AgreeAt(app.files, start.files, path);
    }
    SameFiles(files, start.files);
  }

  lemma SameFiles(f: Files, g: Files)
    requires forall path :: AgreeAt(f, g, path)
    ensures f == g
  {
    forall path
      ensures path in f <==> path in g
    {
      assert AgreeAt(f, g, path);
    }
    forall path | path in f
      ensures f[path] == g[path]
    {
      assert AgreeAt(f, g, path);
    }
  }

  // ---- the undo stack

  datatype Attempt = Attempt(template: Template, expected: string, maintenance: string, stamp: string, faults: Faults)

  /** Applications and the stamps of the upgrades that can be rolled back, oldest first. */
  datatype History = History(app: App, stack: seq<string>)

  function Upgrade(t: Tools, h: History, a: Attempt): History {
    match Apply(t, h.app, a.template, a.expected, a.maintenance, a.stamp, a.faults)
    case Refused(app) => History(app, h.stack)
    case Completed(app) => History(app, h.stack + [a.stamp])
    case StoppedMidway(app) => History(app, h.stack + [a.stamp])
  }

  function UpgradeAll(t: Tools, app: App, attempts: seq<Attempt>): History {
    if attempts == [] then History(app, [])
    else Upgrade(t, UpgradeAll(t, app, attempts[..|attempts| - 1]), attempts[|attempts| - 1])
  }

  /** Roll back the newest upgrade first. */
  function UndoAll(t: Tools, h: History): Result<App>
    decreases |h.stack|
  {
    if h.stack == [] then Ok(h.app)
    else
      match Rollback(t, h.app, h.stack[|h.stack| - 1], "APP-STOPPED")
      case Err(reason) => Err(reason)
      case Ok(app) => UndoAll(t, History(app, h.stack[..|h.stack| - 1]))
  }

  /** Two applications that differ at most in journals outside `stack`. */
  ghost predicate Alike(a: App, b: App, stack: seq<string>) {
    && a.files == b.files && a.lock == b.lock && a.links == b.links
    && forall s :: s in stack ==> s in a.journals && s in b.journals && a.journals[s] == b.journals[s]
  }

  ghost predicate SameState(r: Result<App>, q: Result<App>) {
    r.Ok? && q.Ok? ==> r.value.files == q.value.files && r.value.lock == q.value.lock && r.value.links == q.value.links
  }

  /** Undoing reads no journal outside its stack. */
  lemma {:induction false} UndoIsLocal(t: Tools, a: App, b: App, stack: seq<string>)
    requires Alike(a, b, stack)
    requires forall i, j :: 0 <= i < j < |stack| ==> stack[i] != stack[j]
    ensures UndoAll(t, History(a, stack)).Ok? == UndoAll(t, History(b, stack)).Ok?
    ensures SameState(UndoAll(t, History(a, stack)), UndoAll(t, History(b, stack)))
    decreases |stack|
  {
    if stack != [] {
      var front, last := stack[..|stack| - 1], stack[|stack| - 1];
      assert last in stack;
      var x, y := Rollback(t, a, last, "APP-STOPPED"), Rollback(t, b, last, "APP-STOPPED");
      if x.Ok? {
        forall s | s in front
          ensures s != last && s in stack
        {
          var i :| 0 <= i < |front| && front[i] == s;
          assert stack[i] == s;
        }
        UndoIsLocal(t, x.value, y.value, front);
      }
    }
  }

  ghost predicate StackFresh(h: History) {
    && (forall s :: s in h.stack ==> s in h.app.journals)
    && (forall i, j :: 0 <= i < j < |h.stack| ==> h.stack[i] != h.stack[j])
  }

  lemma UpgradeKeepsFresh(t: Tools, h: History, a: Attempt)
    requires StackFresh(h)
    ensures StackFresh(Upgrade(t, h, a))
  {
    ApplyIsRecorded(t, h.app, a.template, a.expected, a.maintenance, a.stamp, a.faults);
    var r := Apply(t, h.app, a.template, a.expected, a.maintenance, a.stamp, a.faults);
    if !r.Refused? {
      assert Surroundings(h.app, r.app, a.stamp);
    }
  }

  lemma {:induction false} StackIsFresh(t: Tools, app: App, attempts: seq<Attempt>)
    ensures StackFresh(UpgradeAll(t, app, attempts))
  {
    if attempts != [] {
      var front := attempts[..|attempts| - 1];
      StackIsFresh(t, app, front);
      UpgradeKeepsFresh(t, UpgradeAll(t, app, front), attempts[|attempts| - 1]);
    }
  }

  /** Undoing an upgrade and then the older ones ends where undoing the older ones alone would. */
  lemma UndoOneMore(t: Tools, h: History, a: Attempt)
    requires StackFresh(h)
    ensures UndoAll(t, Upgrade(t, h, a)).Ok? == UndoAll(t, h).Ok?
    ensures SameState(UndoAll(t, Upgrade(t, h, a)), UndoAll(t, h))
  {
    ApplyIsRecorded(t, h.app, a.template, a.expected, a.maintenance, a.stamp, a.faults);
    var r := Apply(t, h.app, a.template, a.expected, a.maintenance, a.stamp, a.faults);
    if r.Refused? {
      UndoIsLocal(t, h.app, r.app, h.stack);
    } else {
      RollbackUndoes(t, h.app, r.app, a.stamp);
      var undone := Rollback(t, r.app, a.stamp, "APP-STOPPED").value;
      assert (h.stack + [a.stamp])[..|h.stack|] == h.stack;
      UndoIsLocal(t, h.app, undone, h.stack);
    }
  }

  /** For every sequence of upgrades, each completed, refused, or stopped by any file operation that
      raised, rolling back newest first restores every file, every link and the lock file. */
  lemma {:induction false} UndoRestoresEverything(t: Tools, app: App, attempts: seq<Attempt>)
    ensures var r := UndoAll(t, UpgradeAll(t, app, attempts));
      r.Ok? && r.value.files == app.files && r.value.lock == app.lock && r.value.links == app.links
  {
    if attempts != [] {
      var front := attempts[..|attempts| - 1];
      UndoRestoresEverything(t, app, front);
      StackIsFresh(t, app, front);
      UndoOneMore(t, UpgradeAll(t, app, front), attempts[|attempts| - 1]);
    }
  }
}
