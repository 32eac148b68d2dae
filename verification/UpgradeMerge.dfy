module UpgradeMerge {
  /** What an upgrade does to each path: a three-way merge of base, local and incoming content. */

  import opened Common
  import opened TemplateUpgrade
  import opened UpgradeRecovery

  /** Three-way merge of one path by its digests; Err when both sides moved to different contents. */
  function Merge(base: Option<Digest>, local: Option<Digest>, incoming: Option<Digest>): Result<Option<Digest>> {
    if local == base || local == incoming then Ok(incoming)
    else if incoming == base then Ok(local)
    else Err("conflict")
  }

  function BaseOf(app: App, path: string): Option<Digest>
    requires app.lock.Readable?
  {
    Lookup(app.lock.lock.managed, path)
  }

  function IncomingOf(t: Tools, template: Template, path: string): Option<Digest> {
    Lookup(Manifest(t, template), path)
  }

  predicate IsManaged(t: Tools, app: App, template: Template, path: string)
    requires app.lock.Readable?
  {
    path in app.lock.lock.managed || path in Manifest(t, template)
  }

  // ---- the plan and the merge agree

  lemma {:induction false} PathsArePlanned(
    t: Tools, app: App, previous: map<string, Digest>, next: map<string, Digest>, paths: seq<string>, k: nat, path: string, row: Row)
    requires k <= |paths| && path in paths[..k] && PlanRow(t, app, previous, next, path) == [row]
    ensures row in PlanRows(t, app, previous, next, paths, k)
    decreases k
  {
    assert paths[..k] == paths[..k - 1] + [paths[k - 1]];
    if path in paths[..k - 1] {
      PathsArePlanned(t, app, previous, next, paths, k - 1, path, row);
    }
  }

  /** A row is in the plan exactly when its path is managed and differs from the incoming template, and
      then it carries the three digests and their classification. */
  lemma RowInPlan(t: Tools, app: App, template: Template, row: Row)
    requires Plan(t, app, template).Ok?
    ensures row in Plan(t, app, template).value <==>
      && IsManaged(t, app, template, row.path)
      && row.base == BaseOf(app, row.path) && row.current == DigestAt(t, app.files, row.path)
      && row.incoming == IncomingOf(t, template, row.path)
      && Classify(row.base, row.current, row.incoming) == Some(row.action)
  {
    var previous, next := app.lock.lock.managed, Manifest(t, template);
    var paths := ManagedPaths(t, app, template);
    var rows := PlanRows(t, app, previous, next, paths, |paths|);
    assert paths[..|paths|] == paths;
    if row in rows {
      var i :| 0 <= i < |rows| && rows[i] == row;
      PlannedRows(t, app, previous, next, paths, |paths|, i);
    }
    if row.path in paths && PlanRow(t, app, previous, next, row.path) == [row] {
      PathsArePlanned(t, app, previous, next, paths, |paths|, row.path, row);
    }
  }

  /** A conflict is reported for a path exactly when the local and the incoming content both moved away
      from the base, to different contents. */
  lemma ConflictIff(t: Tools, app: App, template: Template, path: string)
    requires Plan(t, app, template).Ok?
    ensures (exists row :: row in Plan(t, app, template).value && row.path == path && row.action == Conflict) <==>
      var base, local, incoming := BaseOf(app, path), DigestAt(t, app.files, path), IncomingOf(t, template, path);
      IsManaged(t, app, template, path) && local != base && incoming != base && local != incoming
    ensures (exists row :: row in Plan(t, app, template).value && row.path == path && row.action == Conflict) <==>
      IsManaged(t, app, template, path) && Merge(BaseOf(app, path), DigestAt(t, app.files, path), IncomingOf(t, template, path)).Err?
  {
    var rows := Plan(t, app, template).value;
    forall row | row in rows && row.path == path
      ensures IsManaged(t, app, template, path) && row.base == BaseOf(app, path)
        && row.current == DigestAt(t, app.files, path) && row.incoming == IncomingOf(t, template, path)
        && Classify(row.base, row.current, row.incoming) == Some(row.action)
    {
      RowInPlan(t, app, template, row);
    }
    RowInPlan(t, app, template,
              Row(path, Conflict, BaseOf(app, path), DigestAt(t, app.files, path), IncomingOf(t, template, path)));
  }

  // ---- a completed apply did every row

  /** The rows done so far have the contents of the template, where the template has any. */
  ghost predicate Delivered(t: Tools, template: Template, files: Files, rows: seq<Row>, k: nat)
    requires k <= |rows|
  {
    forall i :: 0 <= i < k ==> Delivers(t, template, files, rows[i])
  }

  ghost predicate Delivers(t: Tools, template: Template, files: Files, row: Row) {
    && DigestAt(t, files, row.path) == row.incoming
    && (row.incoming.Some? ==> row.path in template.files && row.path in files && files[row.path] == template.files[row.path])
  }

  ghost predicate StepDelivers(t: Tools, template: Template, step: (Progress, Row) -> Step) {
    forall p: Progress, row: Row {:trigger step(p, row)} ::
      RowReady(row) && step(p, row).Going? ==> DidRow(t, template, p, row, step(p, row).p)
  }

  ghost predicate DidRow(t: Tools, template: Template, p: Progress, row: Row, q: Progress) {
    && Delivers(t, template, q.app.files, row)
    && q.app.lock == p.app.lock && q.app.links == p.app.links
    && (forall path {:trigger AgreeAt(q.app.files, p.app.files, path)} :: path != row.path ==> AgreeAt(q.app.files, p.app.files, path))
  }

  lemma RowStepDelivers(t: Tools, template: Template, stamp: string, planHash: string, faults: Faults)
    ensures StepDelivers(t, template, RowStep(t, template, stamp, planHash, faults))
  {
  }

  ghost predicate SameOutside(files: Files, was: Files, rows: seq<Row>) {
    forall path {:trigger AgreeAt(files, was, path)} :: (forall i :: 0 <= i < |rows| ==> rows[i].path != path) ==> AgreeAt(files, was, path)
  }

  lemma {:induction false} RowsDeliver(
    t: Tools, template: Template, step: (Progress, Row) -> Step, p: Progress, rows: seq<Row>, k: nat)
    requires StepDelivers(t, template, step) && RowsReady(rows) && k <= |rows|
    requires ApplyRows(step, p, rows, k).Going?
    ensures var q := ApplyRows(step, p, rows, k).p;
      && Delivered(t, template, q.app.files, rows, k)
      && q.app.lock == p.app.lock && q.app.links == p.app.links
      && SameOutside(q.app.files, p.app.files, rows)
    decreases k
  {
    if k > 0 {
      RowsDeliver(t, template, step, p, rows, k - 1);
      var q := ApplyRows(step, p, rows, k - 1).p;
      var r := step(q, rows[k - 1]).p;
      assert DidRow(t, template, q, rows[k - 1], r);
      forall i | 0 <= i < k
        ensures Delivers(t, template, r.app.files, rows[i])
      {
        if i < k - 1 {
          assert AgreeAt(r.app.files, q.app.files, rows[i].path);
          assert Delivers(t, template, q.app.files, rows[i]);
        }
      }
      forall path | forall i :: 0 <= i < |rows| ==> rows[i].path != path
        ensures AgreeAt(r.app.files, p.app.files, path)
      {
        assert AgreeAt(r.app.files, q.app.files, path) && AgreeAt(q.app.files, p.app.files, path);
      }
    }
  }

  /** What a completed apply leaves, in terms of the rows it worked through. */
  ghost predicate Landed(t: Tools, app: App, template: Template, done: App, rows: seq<Row>) {
    && app.lock.Readable? && ValidLock(template.lock)
    && Delivered(t, template, done.files, rows, |rows|)
    && SameOutside(done.files, app.files, rows)
    && done.links == app.links
    && done.lock == Readable(NewLock(t, app.lock.lock, template), t.layout)
  }

  lemma CompletedLands(
    t: Tools, app: App, template: Template, expected: string, maintenance: string, stamp: string, faults: Faults)
    requires Apply(t, app, template, expected, maintenance, stamp, faults).Completed?
    ensures Plan(t, app, template).Ok? && !HasConflict(Plan(t, app, template).value)
    ensures var rows := Actionable(Plan(t, app, template).value);
      RowsReady(rows) && Landed(t, app, template, Apply(t, app, template, expected, maintenance, stamp, faults).app, rows)
  {
    BeginKeeps(t, app, template, expected, maintenance, stamp, faults);
    var begun := Begin(t, app, template, expected, maintenance, stamp, faults);
    RowStepDelivers(t, template, stamp, begun.planHash, faults);
    RowsDeliver(t, template, RowStep(t, template, stamp, begun.planHash, faults), Progress(begun.app, [], 3), begun.rows, |begun.rows|);
  }

  // ---- main results

  /** After a completed apply every managed path holds its merge: the template's own bytes where the
      local file had not moved, the local bytes otherwise.  Every other file is untouched, and the lock
      names exactly the incoming template. */
  lemma CompletedIsMerge(
    t: Tools, app: App, template: Template, expected: string, maintenance: string, stamp: string, faults: Faults, path: string)
    requires Apply(t, app, template, expected, maintenance, stamp, faults).Completed?
    ensures app.lock.Readable?
    ensures var done := Apply(t, app, template, expected, maintenance, stamp, faults).app;
      var base, local, incoming := BaseOf(app, path), DigestAt(t, app.files, path), IncomingOf(t, template, path);
      if IsManaged(t, app, template, path) && local == base && local != incoming then
        (path in done.files <==> incoming.Some?)
        && (incoming.Some? ==> path in template.files && done.files[path] == template.files[path])
      else AgreeAt(done.files, app.files, path)
    ensures var done := Apply(t, app, template, expected, maintenance, stamp, faults).app;
      IsManaged(t, app, template, path) ==>
        Merge(BaseOf(app, path), DigestAt(t, app.files, path), IncomingOf(t, template, path)) == Ok(DigestAt(t, done.files, path))
  {
    CompletedLands(t, app, template, expected, maintenance, stamp, faults);
    var plan := Plan(t, app, template).value;
    var rows := Actionable(plan);
    var base, local, incoming := BaseOf(app, path), DigestAt(t, app.files, path), IncomingOf(t, template, path);
    var done := Apply(t, app, template, expected, maintenance, stamp, faults).app;
    ActionableMembers(plan);
    if IsManaged(t, app, template, path) && local == base && local != incoming {
      var row := Row(path, if incoming.Some? then Update else Remove, base, local, incoming);
      RowInPlan(t, app, template, row);
      assert row in rows;
      assert Delivers(t, template, done.files, row);
    } else {
      forall i | 0 <= i < |rows|
        ensures rows[i].path != path
      {
        assert rows[i] in rows;
        RowInPlan(t, app, template, rows[i]);
      }
      assert AgreeAt(done.files, app.files, path);
      var row := Row(path, Conflict, base, local, incoming);
      RowInPlan(t, app, template, row);
      NoConflictRow(plan, row);
    }
  }

  lemma NoConflictRow(rows: seq<Row>, row: Row)
    requires !HasConflict(rows)
    ensures row in rows ==> row.action != Conflict
  {
  }

  /** Re-planning against the same template after a completed apply reports exactly the local changes
      the first plan decided to preserve, and nothing else. */
  lemma ReplanIsFixpoint(
    t: Tools, app: App, template: Template, expected: string, maintenance: string, stamp: string, faults: Faults)
    requires Apply(t, app, template, expected, maintenance, stamp, faults).Completed?
    ensures var done := Apply(t, app, template, expected, maintenance, stamp, faults).app;
      && Plan(t, app, template).Ok? && Plan(t, done, template).Ok?
      && (forall row :: row in Plan(t, done, template).value <==> row in Plan(t, app, template).value && row.action == PreserveLocal)
      && Actionable(Plan(t, done, template).value) == []
  {
    CompletedLands(t, app, template, expected, maintenance, stamp, faults);
    var done := Apply(t, app, template, expected, maintenance, stamp, faults).app;
    ReplanIsAllowed(t, app, done, template);
    forall row: Row
      ensures row in Plan(t, done, template).value <==> row in Plan(t, app, template).value && row.action == PreserveLocal
    {
      RowIsReplanned(t, app, template, expected, maintenance, stamp, faults, row);
    }
    NothingIsActionable(Plan(t, done, template).value);
  }

  lemma RowIsReplanned(
    t: Tools, app: App, template: Template, expected: string, maintenance: string, stamp: string, faults: Faults, row: Row)
    requires Apply(t, app, template, expected, maintenance, stamp, faults).Completed?
    requires Plan(t, app, template).Ok?
    requires Plan(t, Apply(t, app, template, expected, maintenance, stamp, faults).app, template).Ok?
    ensures var done := Apply(t, app, template, expected, maintenance, stamp, faults).app;
      row in Plan(t, done, template).value <==> row in Plan(t, app, template).value && row.action == PreserveLocal
  {
    CompletedLands(t, app, template, expected, maintenance, stamp, faults);
    RowInPlan(t, app, template, row);
    RowInPlan(t, Apply(t, app, template, expected, maintenance, stamp, faults).app, template, row);
    CompletedIsMerge(t, app, template, expected, maintenance, stamp, faults, row.path);
  }

  lemma NothingIsActionable(rows: seq<Row>)
    requires forall row :: row in rows ==> row.action == PreserveLocal
    ensures Actionable(rows) == []
  {
    ActionableMembers(rows);
  }

  lemma ReplanIsAllowed(t: Tools, app: App, done: App, template: Template)
    requires Plan(t, app, template).Ok? && done.links == app.links
    requires done.lock == Readable(NewLock(t, app.lock.lock, template), t.layout)
    ensures Plan(t, done, template).Ok?
  {
    var paths, again := ManagedPaths(t, app, template), ManagedPaths(t, done, template);
    forall i | 0 <= i < |again|
      ensures Safe(t, done.links, again[i])
    {
      assert again[i] in again;
      assert again[i] in paths;
    }
  }

  // ---- rolling back after edits, and rolling back twice

  /** The state an apply recorded, with some files, or the lock, edited since. */
  ghost predicate EditedSince(app: App, edited: App) {
    edited.links == app.links && edited.journals == app.journals
  }

  /** After edits, rollback is refused exactly when a file the upgrade changed no longer has the content
      the upgrade left; otherwise those files are restored and edits elsewhere survive.  Edits of the lock
      are neither noticed nor kept: it is what it was before the upgrade. */
  lemma RollbackRefusesEdits(t: Tools, start: App, app: App, edited: App, stamp: string)
    requires Recorded(t, start, app, stamp) && EditedSince(app, edited)
    ensures var changes := app.journals[stamp].journal.value.changes;
      var r := Rollback(t, edited, stamp, "APP-STOPPED");
      && (r.Ok? <==> forall i :: 0 <= i < |changes| ==> DigestAt(t, edited.files, changes[i].path) == DigestAt(t, app.files, changes[i].path))
      && (r.Ok? ==> r.value.lock == start.lock && forall path :: AgreeAt(r.value.files, if DoneFrom(changes, 0, path) then start.files else edited.files, path))
  {
    var dir := app.journals[stamp];
    var changes := dir.journal.value.changes;
    forall i | 0 <= i < |changes|
      ensures Safe(t, app.links, changes[i].path) && changes[i].after == DigestAt(t, app.files, changes[i].path)
    {
      assert RowTrue(t, start, app.files, dir.before, changes[i]);
    }
    RestoreReturns(t, start, app.files, edited.files, dir.before, changes, 0);
    var files := RestoreFrom(t, edited.files, dir.before, changes, 0).value;
    forall path
      ensures AgreeAt(files, if DoneFrom(changes, 0, path) then start.files else edited.files, path)
    {
      assert DoneFrom(changes, 0, path) || !DoneFrom(changes, 0, path);
    }
  }

  /** A rollback that stopped after restoring the rows from `k` on. */
  function Interrupted(t: Tools, app: App, stamp: string, k: nat): Option<App>
    requires stamp in app.journals && app.journals[stamp].journal.Some? && k <= |app.journals[stamp].journal.value.changes|
  {
    match RestoreFrom(t, app.files, app.journals[stamp].before, app.journals[stamp].journal.value.changes, k)
    case None => None
    case Some(files) => Some(app.(files := files))
  }

  /** An interrupted rollback cannot be resumed: running it again succeeds exactly when the first run had
      restored nothing, because a restored file no longer has the content the upgrade left. */
  lemma InterruptedRollbackIsRefused(t: Tools, start: App, app: App, stamp: string, k: nat)
    requires Recorded(t, start, app, stamp) && k <= |app.journals[stamp].journal.value.changes|
    ensures Interrupted(t, app, stamp, k).Some?
    ensures Rollback(t, Interrupted(t, app, stamp, k).value, stamp, "APP-STOPPED").Ok? <==>
      k == |app.journals[stamp].journal.value.changes|
  {
    var dir := app.journals[stamp];
    var changes := dir.journal.value.changes;
    RestoreReturns(t, start, app.files, app.files, dir.before, changes, k);
    var halfway := Interrupted(t, app, stamp, k).value;
    if k < |changes| {
      assert RowTrue(t, start, app.files, dir.before, changes[k]);
      assert DoneFrom(changes, k, changes[k].path);
      assert AgreeAt(halfway.files, start.files, changes[k].path);
      assert !Untouched(t, halfway.files, app.links, changes);
    } else {
      RollbackUndoes(t, start, app, stamp);
    }
  }

  // ---- the repository's own tools

  /** An upgrade with the paths this repository manages leaves every file outside them as it is. */
  lemma OwnUpgradeKeepsOthers(
    hash: Bytes -> Digest, planHash: seq<Row> -> string, layout: string, app: App, template: Template,
    expected: string, maintenance: string, stamp: string, faults: Faults, path: string)
    requires Apply(TemplateTools(hash, planHash, layout), app, template, expected, maintenance, stamp, faults).Completed?
    requires !UnderManaged(MANAGED, path)
    ensures AgreeAt(Apply(TemplateTools(hash, planHash, layout), app, template, expected, maintenance, stamp, faults).app.files,
                    app.files, path)
  {
    var t := TemplateTools(hash, planHash, layout);
    CompletedIsMerge(t, app, template, expected, maintenance, stamp, faults, path);
    CompletedLands(t, app, template, expected, maintenance, stamp, faults);
    if IsManaged(t, app, template, path) {
      ManagedIsOwned(t, app, template, path);
    }
  }

  /** A plan names only paths the tools own. */
  lemma ManagedIsOwned(t: Tools, app: App, template: Template, path: string)
    requires Plan(t, app, template).Ok? && IsManaged(t, app, template, path)
    ensures t.managed(path)
  {
    var paths := ManagedPaths(t, app, template);
    assert path in paths;
    var i :| 0 <= i < |paths| && paths[i] == path;
    assert Safe(t, app.links, paths[i]);
  }

  /** The application's own configuration, written when it was created, is not managed. */
  lemma ConfigurationIsOwn()
    ensures !UnderManaged(MANAGED, APPLICATION_CONFIG) && !UnderManaged(MANAGED, RUNTIME_CONFIG)
  {
    assert APPLICATION_CONFIG[12] == 'c' && MANAGED[0][12] == 'p' && APPLICATION_CONFIG[0] == 'b' && MANAGED[1][0] == 'f';
    assert RUNTIME_CONFIG[9] == 'p' && MANAGED[1][9] == 's';
    forall i | 0 <= i < |MANAGED|
      ensures !StartsWith(APPLICATION_CONFIG, MANAGED[i]) && !StartsWith(RUNTIME_CONFIG, MANAGED[i])
    {
      assert i > 1 ==> MANAGED[i][0] == 'e';
    }
  }

  const APPLICATION_CONFIG := "backend/app/config/application.json"
  const RUNTIME_CONFIG := "frontend/public/runtime-config.json"

  /** So an application keeps its identifier, name and theme through every upgrade. */
  lemma ConfigurationSurvives(
    hash: Bytes -> Digest, planHash: seq<Row> -> string, layout: string, app: App, template: Template,
    expected: string, maintenance: string, stamp: string, faults: Faults)
    requires Apply(TemplateTools(hash, planHash, layout), app, template, expected, maintenance, stamp, faults).Completed?
    ensures var done := Apply(TemplateTools(hash, planHash, layout), app, template, expected, maintenance, stamp, faults).app;
      AgreeAt(done.files, app.files, APPLICATION_CONFIG) && AgreeAt(done.files, app.files, RUNTIME_CONFIG)
  {
    ConfigurationIsOwn();
    OwnUpgradeKeepsOthers(hash, planHash, layout, app, template, expected, maintenance, stamp, faults, APPLICATION_CONFIG);
    OwnUpgradeKeepsOthers(hash, planHash, layout, app, template, expected, maintenance, stamp, faults, RUNTIME_CONFIG);
  }
}
