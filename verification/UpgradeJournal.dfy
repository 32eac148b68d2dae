module UpgradeJournal {
  /** What the journals of upgrades and rollbacks say. */

  import opened Common
  import opened TemplateUpgrade
  import opened UpgradeRecovery
  import opened UpgradeMerge
  import opened UpgradeApproval

  // ---- the rows of an apply

  ghost predicate Records(d: DoneRow, row: Row) {
    && d.path == row.path && d.action == row.action
    && d.before == row.current && d.after == row.incoming && d.hadBefore == row.current.Some?
  }

  /** The journal rows are those of the first `n` planned rows. */
  ghost predicate RecordsFirst(done: seq<DoneRow>, rows: seq<Row>, n: nat) {
    |done| == n <= |rows| && forall i :: 0 <= i < n ==> Records(done[i], rows[i])
  }

  ghost predicate OneMore(done: seq<DoneRow>, row: Row, more: seq<DoneRow>) {
    |more| == |done| + 1 && more[..|done|] == done && Records(more[|done|], row)
  }

  lemma BackUpRecordsNothing(p: Progress, stamp: string, path: string, faults: Faults)
    requires stamp in p.app.journals
    ensures var r := BackUp(p, stamp, path, faults); r.p.done == p.done && stamp in r.p.app.journals
  {
  }

  lemma PutRecordsNothing(t: Tools, p: Progress, template: Template, row: Row, faults: Faults)
    ensures var r := Put(t, p, template, row, faults); r.p.done == p.done && r.p.app.journals == p.app.journals
  {
  }

  lemma PerformRecords(t: Tools, p: Progress, template: Template, stamp: string, planHash: string, row: Row, faults: Faults)
    requires stamp in p.app.journals
    ensures var r := Perform(t, p, template, stamp, planHash, row, row.current.Some?, faults);
      && stamp in r.p.app.journals
      && (r.Going? ==> OneMore(p.done, row, r.p.done))
      && (r.Stopped? ==> r.p.done == p.done || OneMore(p.done, row, r.p.done))
  {
    PutRecordsNothing(t, p, template, row, faults);
  }

  lemma RowIsRecorded(
    t: Tools, p: Progress, template: Template, stamp: string, planHash: string, row: Row, faults: Faults)
    requires stamp in p.app.journals
    ensures var r := ApplyRow(t, p, template, stamp, planHash, row, faults);
      && stamp in r.p.app.journals
      && (r.Going? ==> OneMore(p.done, row, r.p.done))
      && (r.Stopped? ==> r.p.done == p.done || OneMore(p.done, row, r.p.done))
  {
    var ticked := p.(tick := p.tick + 1);
    ApplyRowIs(t, p, template, stamp, planHash, row, faults);
    BackUpRecordsNothing(ticked, stamp, row.path, faults);
    PerformRecords(t, BackUp(ticked, stamp, row.path, faults).p, template, stamp, planHash, row, faults);
  }

  lemma {:induction false} RowsAreRecorded(
    t: Tools, p: Progress, template: Template, stamp: string, planHash: string, rows: seq<Row>, faults: Faults, k: nat)
    requires stamp in p.app.journals && p.done == [] && k <= |rows|
    ensures var r := ApplyRows(RowStep(t, template, stamp, planHash, faults), p, rows, k);
      && stamp in r.p.app.journals
      && (r.Going? ==> RecordsFirst(r.p.done, rows, k))
      && exists n: nat :: n <= k && RecordsFirst(r.p.done, rows, n)
    decreases k
  {
    var step := RowStep(t, template, stamp, planHash, faults);
    if k == 0 {
      assert RecordsFirst(p.done, rows, 0);
    } else {
      RowsAreRecorded(t, p, template, stamp, planHash, rows, faults, k - 1);
      var before := ApplyRows(step, p, rows, k - 1);
      if before.Going? {
        RowIsRecorded(t, before.p, template, stamp, planHash, rows[k - 1], faults);
        NextIsRecorded(before.p.done, rows, k - 1, ApplyRows(step, p, rows, k).p.done);
      }
    }
  }

  lemma NextIsRecorded(done: seq<DoneRow>, rows: seq<Row>, k: nat, more: seq<DoneRow>)
    requires k < |rows| && RecordsFirst(done, rows, k) && (more == done || OneMore(done, rows[k], more))
    ensures more == done ==> RecordsFirst(more, rows, k)
    ensures OneMore(done, rows[k], more) ==> RecordsFirst(more, rows, k + 1)
  {
    if OneMore(done, rows[k], more) {
      forall i | 0 <= i < k
        ensures more[i] == done[i]
      {
        assert more[..|done|][i] == more[i];
      }
    }
  }

  /** What the journal says of one file: the digests before and after, and which of the two actions it was. */
  ghost predicate Tells(t: Tools, app: App, template: Template, d: DoneRow) {
    var incoming := if d.path in template.files && t.managed(d.path) then Some(t.hash(template.files[d.path])) else None;
    && d.before == (if d.path in app.files then Some(t.hash(app.files[d.path])) else None)
    && d.hadBefore == (d.path in app.files)
    && d.after == incoming
    && d.action == if incoming.Some? then Update else Remove
  }

  /** The journal that the guarded part leaves. */
  ghost predicate Leaves(left: Outcome, stamp: string, planHash: string, rows: seq<Row>) {
    && !left.Refused? && stamp in left.app.journals && left.app.journals[stamp].journal.Some?
    && var journal := left.app.journals[stamp].journal.value;
       && journal.planHash == planHash
       && journal.status == (if left.Completed? then Applied else Partial)
       && RecordsFirst(journal.changes, rows, |journal.changes|)
       && (left.Completed? ==> |journal.changes| == |rows|)
  }

  lemma WorkLeaves(
    t: Tools, app: App, template: Template, stamp: string, planHash: string, rows: seq<Row>, faults: Faults)
    requires stamp in app.journals
    ensures Leaves(Work(t, app, template, stamp, planHash, rows, faults), stamp, planHash, rows)
  {
    RowsAreRecorded(t, Progress(app, [], 3), template, stamp, planHash, rows, faults, |rows|);
  }

  lemma PlannedChangeTells(t: Tools, app: App, template: Template, d: DoneRow, row: Row)
    requires Plan(t, app, template).Ok? && row in Actionable(Plan(t, app, template).value) && Records(d, row)
    ensures Tells(t, app, template, d)
  {
    ActionableMembers(Plan(t, app, template).value);
    RowInPlan(t, app, template, row);
  }

  /** The journal of an apply names the approved plan, says whether it was completed, and lists files in the order
      of the plan, all of them in the end, with what they held and hold. */
  lemma JournalSays(
    t: Tools, app: App, template: Template, expected: string, maintenance: string, stamp: string, faults: Faults)
    requires !Apply(t, app, template, expected, maintenance, stamp, faults).Refused?
    ensures Plan(t, app, template).Ok?
    ensures var left := Apply(t, app, template, expected, maintenance, stamp, faults);
      && Leaves(left, stamp, expected, Actionable(Plan(t, app, template).value))
      && var changes := left.app.journals[stamp].journal.value.changes;
         forall i :: 0 <= i < |changes| ==> Tells(t, app, template, changes[i])
  {
    var begun := Begin(t, app, template, expected, maintenance, stamp, faults);
    var left := Apply(t, app, template, expected, maintenance, stamp, faults);
    ApprovedBegins(t, app, template, expected, maintenance, stamp, faults);
    BeginKeeps(t, app, template, expected, maintenance, stamp, faults);
    BegunRows(t, app, template, expected, maintenance, stamp, faults);
    WorkLeaves(t, begun.app, template, stamp, begun.planHash, begun.rows, faults);
    var changes := left.app.journals[stamp].journal.value.changes;
    forall i | 0 <= i < |changes|
      ensures Tells(t, app, template, changes[i])
    {
      assert Records(changes[i], begun.rows[i]);
      PlannedChangeTells(t, app, template, changes[i], begun.rows[i]);
    }
  }

  lemma BegunRows(t: Tools, app: App, template: Template, expected: string, maintenance: string, stamp: string, faults: Faults)
    requires Begin(t, app, template, expected, maintenance, stamp, faults).Started?
    ensures var begun := Begin(t, app, template, expected, maintenance, stamp, faults);
      && Plan(t, app, template).Ok? && begun.planHash == expected
      && begun.rows == Actionable(Plan(t, app, template).value)
  {
  }

  // ---- rollbacks

  /** A rollback marks its journal and can be done once. */
  lemma RollsBackOnce(t: Tools, app: App, stamp: string, maintenance: string)
    requires Rollback(t, app, stamp, maintenance).Ok?
    ensures stamp in app.journals && app.journals[stamp].journal.Some?
    ensures var left := Rollback(t, app, stamp, maintenance).value;
      && left.journals == app.journals[stamp := app.journals[stamp].(
           journal := Some(app.journals[stamp].journal.value.(status := RolledBack)))]
      && forall again :: Rollback(t, left, stamp, again).Err?
  {
  }
}
