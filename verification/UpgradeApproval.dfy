module UpgradeApproval {
  /** When an upgrade may start and when it is carried out, in the terms of what the operator reviewed. */

  import opened Common
  import opened Ordering
  import opened TemplateUpgrade
  import opened UpgradeRecovery
  import opened UpgradeMerge

  // ---- what the template owns

  /** The paths of a generated application that belong to the template, written out. */
  ghost predicate Owned(path: string) {
    || "backend/app/platform/" <= path || "frontend/src/platform/" <= path
    || "experience-lab/src/base.ts" <= path || "experience-lab/src/dialog.ts" <= path
    || "experience-lab/src/icons.ts" <= path || "experience-lab/src/presentation.ts" <= path
    || "experience-lab/src/model.ts" <= path || "experience-lab/src/validation.ts" <= path
    || "experience-lab/src/table.ts" <= path || "experience-lab/src/scheduling.ts" <= path
    || "experience-lab/src/spatial.ts" <= path || "experience-lab/src/charts.ts" <= path
    || "experience-lab/src/editors.ts" <= path || "experience-lab/src/windows.ts" <= path
    || "experience-lab/src/manufacturing" <= path || "experience-lab/src/composition.ts" <= path
  }

  lemma OwnedIff(path: string, hash: Bytes -> Digest, planHash: seq<Row> -> string, layout: string)
    ensures TemplateTools(hash, planHash, layout).managed(path) <==> Owned(path)
  {
    if UnderManaged(MANAGED, path) {
      var i :| 0 <= i < |MANAGED| && StartsWith(path, MANAGED[i]);
      assert MANAGED[i] <= path;
    }
    if Owned(path) {
      OwnedIsManaged(path);
    }
  }

  lemma OwnedIsManaged(path: string)
    requires Owned(path)
    ensures UnderManaged(MANAGED, path)
  {
    assert |MANAGED| == 16;
    assert exists i: int :: 0 <= i < |MANAGED| && MANAGED[i] <= path by {
      assert (MANAGED[0] <= path || MANAGED[1] <= path || MANAGED[2] <= path || MANAGED[3] <= path
              || MANAGED[4] <= path || MANAGED[5] <= path || MANAGED[6] <= path || MANAGED[7] <= path
              || MANAGED[8] <= path || MANAGED[9] <= path || MANAGED[10] <= path || MANAGED[11] <= path
              || MANAGED[12] <= path || MANAGED[13] <= path || MANAGED[14] <= path || MANAGED[15] <= path);
    }
    var i: int :| 0 <= i < |MANAGED| && MANAGED[i] <= path;
    assert StartsWith(path, MANAGED[i]);
  }

  // ---- what can be planned

  /** Hexadecimal digits, exactly `n` of them. */
  ghost predicate HexOf(s: string, n: nat) {
    |s| == n && forall i :: 0 <= i < n ==> s[i] in "0123456789abcdefABCDEF"
  }

  /** A lock of the second schema that names a full commit and a full source digest. */
  ghost predicate LockInOrder(file: LockFile) {
    file.Readable? && file.lock.schemaVersion == 2 && HexOf(file.lock.commit, 40) && HexOf(file.lock.digest, 64)
  }

  lemma HexDigitIff(c: char)
    ensures c in "0123456789abcdefABCDEF" <==> '0' <= c <= '9' || 'a' <= c <= 'f' || 'A' <= c <= 'F'
  {
    var hex := "0123456789abcdefABCDEF";
    if '0' <= c <= '9' {
      assert hex[c as int - '0' as int] == c;
    } else if 'a' <= c <= 'f' {
      assert hex[10 + (c as int - 'a' as int)] == c;
    } else if 'A' <= c <= 'F' {
      assert hex[16 + (c as int - 'A' as int)] == c;
    }
  }

  lemma LockInOrderIff(file: LockFile)
    ensures ValidLock(file) <==> LockInOrder(file)
  {
    forall c: char
      ensures c in "0123456789abcdefABCDEF" <==> '0' <= c <= '9' || 'a' <= c <= 'f' || 'A' <= c <= 'F'
    {
      HexDigitIff(c);
    }
  }

  /** A path the two manifests speak of: recorded in the application's lock, or owned in the template. */
  ghost predicate Compared(t: Tools, app: App, template: Template, path: string) {
    (app.lock.Readable? && path in app.lock.lock.managed) || (path in template.files && t.managed(path))
  }

  ghost predicate Reachable(t: Tools, app: App, path: string) {
    t.managed(path) && !t.climbs(path) && path !in app.links
  }

  /** Both locks are in order and no compared path leads out of what the template owns. */
  ghost predicate Plannable(t: Tools, app: App, template: Template) {
    && LockInOrder(app.lock) && LockInOrder(template.lock)
    && forall path :: Compared(t, app, template, path) ==> Reachable(t, app, path)
  }

  lemma AllSafeIff(t: Tools, app: App, paths: seq<string>)
    ensures AllSafe(t, app.links, paths) <==> forall path :: path in paths ==> Reachable(t, app, path)
  {
    if AllSafe(t, app.links, paths) {
      forall path | path in paths
        ensures Reachable(t, app, path)
      {
        var i :| 0 <= i < |paths| && paths[i] == path;
        assert Safe(t, app.links, paths[i]);
      }
    } else {
      var i :| 0 <= i < |paths| && !Safe(t, app.links, paths[i]);
      assert paths[i] in paths && !Reachable(t, app, paths[i]);
    }
  }

  /** A plan exists exactly then. */
  lemma PlanExistsIff(t: Tools, app: App, template: Template)
    ensures Plan(t, app, template).Ok? <==> Plannable(t, app, template)
  {
    LockInOrderIff(app.lock);
    LockInOrderIff(template.lock);
    if ValidLock(app.lock) {
      var paths := ManagedPaths(t, app, template);
      forall path
        ensures path in paths <==> Compared(t, app, template, path)
      {
      }
      AllSafeIff(t, app, paths);
    }
  }

  /** Its rows are in the order of their paths. */
  lemma PlanIsOrdered(t: Tools, app: App, template: Template, i: nat, j: nat)
    requires Plan(t, app, template).Ok? && i < j < |Plan(t, app, template).value|
    ensures Precedes(Plan(t, app, template).value[i].path, Plan(t, app, template).value[j].path)
    ensures Plan(t, app, template).value[i].path != Plan(t, app, template).value[j].path
  {
    var paths := ManagedPaths(t, app, template);
    forall a, b | 0 <= a < b < |paths|
      ensures Precedes(paths[a], paths[b])
    {
      SortedIsOrdered(app.lock.lock.managed.Keys + Manifest(t, template).Keys, a, b);
    }
    RowsAreOrdered(t, app, app.lock.lock.managed, Manifest(t, template), paths, |paths|, i, j);
    PlannedRows(t, app, app.lock.lock.managed, Manifest(t, template), paths, |paths|, j);
  }

  lemma {:induction false} RowsAreOrdered(
    t: Tools, app: App, previous: map<string, Digest>, next: map<string, Digest>, paths: seq<string>, k: nat, i: nat, j: nat)
    requires k <= |paths| && i < j < |PlanRows(t, app, previous, next, paths, k)|
    requires forall a, b :: 0 <= a < b < |paths| ==> Precedes(paths[a], paths[b]) && paths[a] != paths[b]
    ensures Precedes(PlanRows(t, app, previous, next, paths, k)[i].path, PlanRows(t, app, previous, next, paths, k)[j].path)
    decreases k
  {
    var front := PlanRows(t, app, previous, next, paths, k - 1);
    if j < |front| {
      RowsAreOrdered(t, app, previous, next, paths, k - 1, i, j);
    } else {
      PlannedRows(t, app, previous, next, paths, k - 1, i);
      var a :| 0 <= a < k - 1 && paths[..k - 1][a] == front[i].path;
      assert Precedes(paths[a], paths[k - 1]);
    }
  }

  // ---- what is approved

  /** The application and the template both moved this path away from what the lock records, apart. */
  ghost predicate Clashes(t: Tools, app: App, template: Template, path: string)
    requires app.lock.Readable?
  {
    var base := if path in app.lock.lock.managed then Some(app.lock.lock.managed[path]) else None;
    var local := if path in app.files then Some(t.hash(app.files[path])) else None;
    var incoming := if path in template.files && t.managed(path) then Some(t.hash(template.files[path])) else None;
    local != base && incoming != base && local != incoming
  }

  lemma ConflictClashes(t: Tools, app: App, template: Template, row: Row)
    requires Plan(t, app, template).Ok? && row in Plan(t, app, template).value && row.action == Conflict
    ensures Compared(t, app, template, row.path) && Clashes(t, app, template, row.path)
  {
    ConflictIff(t, app, template, row.path);
  }

  lemma ClashIsConflict(t: Tools, app: App, template: Template, path: string)
    requires Plan(t, app, template).Ok? && Compared(t, app, template, path) && Clashes(t, app, template, path)
    ensures HasConflict(Plan(t, app, template).value)
  {
    var rows := Plan(t, app, template).value;
    ConflictIff(t, app, template, path);
    var row :| row in rows && row.path == path && row.action == Conflict;
    var i :| 0 <= i < |rows| && rows[i] == row;
  }

  lemma NoConflictIff(t: Tools, app: App, template: Template)
    requires Plan(t, app, template).Ok?
    ensures HasConflict(Plan(t, app, template).value) <==>
      exists path :: Compared(t, app, template, path) && Clashes(t, app, template, path)
  {
    var rows := Plan(t, app, template).value;
    if HasConflict(rows) {
      var i :| 0 <= i < |rows| && rows[i].action == Conflict;
      ConflictClashes(t, app, template, rows[i]);
    }
    forall path | Compared(t, app, template, path) && Clashes(t, app, template, path)
      ensures HasConflict(rows)
    {
      ClashIsConflict(t, app, template, path);
    }
  }

  /** The application is stopped, the plan exists without conflict, the hash that was reviewed is the hash of
      exactly this plan, and no journal has the stamp yet. */
  ghost predicate Approved(t: Tools, app: App, template: Template, expected: string, maintenance: string, stamp: string) {
    && maintenance == "APP-STOPPED"
    && Plannable(t, app, template) && Plan(t, app, template).Ok?
    && (forall path :: Compared(t, app, template, path) ==> !Clashes(t, app, template, path))
    && expected != "" && expected == t.planHash(Plan(t, app, template).value)
    && stamp !in app.journals
  }

  lemma ApprovedBegins(
    t: Tools, app: App, template: Template, expected: string, maintenance: string, stamp: string, faults: Faults)
    ensures Begin(t, app, template, expected, maintenance, stamp, faults).Started? ==>
      Approved(t, app, template, expected, maintenance, stamp)
    ensures !Approved(t, app, template, expected, maintenance, stamp) ==>
      Begin(t, app, template, expected, maintenance, stamp, faults) == NotStarted(app)
    ensures Approved(t, app, template, expected, maintenance, stamp) && !faults(0) && !faults(1) && !faults(2) ==>
      Begin(t, app, template, expected, maintenance, stamp, faults).Started?
  {
    PlanExistsIff(t, app, template);
    if Plan(t, app, template).Ok? {
      NoConflictIff(t, app, template);
    }
  }

  /** An upgrade that is not approved is refused, whatever else is the case, and touches nothing at all. */
  lemma UnapprovedIsRefused(
    t: Tools, app: App, template: Template, expected: string, maintenance: string, stamp: string, faults: Faults)
    requires !Approved(t, app, template, expected, maintenance, stamp)
    ensures Apply(t, app, template, expected, maintenance, stamp, faults) == Refused(app)
  {
    ApprovedBegins(t, app, template, expected, maintenance, stamp, faults);
  }

  // ---- what is carried out

  /** The template has no link where a row takes its file from. */
  ghost predicate PlainSources(t: Tools, app: App, template: Template)
    requires app.lock.Readable?
  {
    forall path :: Compared(t, app, template, path) && path in template.links ==>
      var local := if path in app.files then Some(t.hash(app.files[path])) else None;
      var base := if path in app.lock.lock.managed then Some(app.lock.lock.managed[path]) else None;
      var incoming := if path in template.files && t.managed(path) then Some(t.hash(template.files[path])) else None;
      local != base || local == incoming
  }

  /** A row that nothing keeps from being carried out. */
  ghost predicate RowPossible(t: Tools, start: App, template: Template, row: Row) {
    && RowReady(row) && Safe(t, start.links, row.path) && row.current == DigestAt(t, start.files, row.path)
    && row.path !in template.links
    && (row.incoming.Some? ==> row.incoming == DigestAt(t, template.files, row.path))
  }

  lemma PossibleRowGoes(
    t: Tools, start: App, p: Progress, template: Template, stamp: string, planHash: string, row: Row, faults: Faults)
    requires InProgress(t, start, p, stamp) && !DoneFrom(p.done, 0, row.path) && RowPossible(t, start, template, row)
    requires forall n :: !faults(n)
    ensures ApplyRow(t, p, template, stamp, planHash, row, faults).Going?
  {
    assert AgreeAt(p.app.files, start.files, row.path);
    ApplyRowIs(t, p, template, stamp, planHash, row, faults);
    BackUpKeeps(t, start, p.(tick := p.tick + 1), stamp, row.path, faults);
  }

  ghost predicate StepGoes(t: Tools, start: App, template: Template, stamp: string, step: (Progress, Row) -> Step) {
    forall p: Progress, row: Row {:trigger step(p, row)} ::
      InProgress(t, start, p, stamp) && !DoneFrom(p.done, 0, row.path) && RowPossible(t, start, template, row) ==>
        step(p, row).Going?
  }

  lemma {:induction false} PossibleRowsGo(
    t: Tools, start: App, template: Template, step: (Progress, Row) -> Step, p: Progress, stamp: string, rows: seq<Row>, k: nat)
    requires StepKeeps(t, start, stamp, step) && StepGoes(t, start, template, stamp, step)
    requires InProgress(t, start, p, stamp) && p.done == [] && RowsReady(rows) && k <= |rows|
    requires forall i :: 0 <= i < |rows| ==> RowPossible(t, start, template, rows[i])
    ensures ApplyRows(step, p, rows, k).Going?
    decreases k
  {
    if k > 0 {
      PossibleRowsGo(t, start, template, step, p, stamp, rows, k - 1);
      ApplyRowsKeep(t, start, step, p, stamp, rows, k - 1);
      assert !DoneFrom(ApplyRows(step, p, rows, k - 1).p.done, 0, rows[k - 1].path);
    }
  }

  /** What went through came from plain files. */
  lemma {:induction false} DoneRowsArePlain(
    t: Tools, template: Template, stamp: string, planHash: string, faults: Faults, p: Progress, rows: seq<Row>, k: nat, i: nat)
    requires k <= |rows| && i < k
    requires ApplyRows(RowStep(t, template, stamp, planHash, faults), p, rows, k).Going?
    ensures rows[i].path !in template.links
    decreases k
  {
    if i < k - 1 {
      DoneRowsArePlain(t, template, stamp, planHash, faults, p, rows, k - 1, i);
    }
  }

  /** The row of a path that is carried out, if there is one. */
  lemma CarriedOut(t: Tools, app: App, template: Template, path: string)
    requires Plan(t, app, template).Ok?
    ensures (exists row :: row in Actionable(Plan(t, app, template).value) && row.path == path) <==>
      && IsManaged(t, app, template, path)
      && DigestAt(t, app.files, path) == BaseOf(app, path) && DigestAt(t, app.files, path) != IncomingOf(t, template, path)
  {
    var rows := Plan(t, app, template).value;
    ActionableMembers(rows);
    var base, local, incoming := BaseOf(app, path), DigestAt(t, app.files, path), IncomingOf(t, template, path);
    RowInPlan(t, app, template, Row(path, if incoming.Some? then Update else Remove, base, local, incoming));
    forall row | row in Actionable(rows) && row.path == path
      ensures IsManaged(t, app, template, path) && local == base && local != incoming
    {
      RowInPlan(t, app, template, row);
    }
  }

  lemma PlannedRowsArePossible(t: Tools, app: App, template: Template)
    requires Plan(t, app, template).Ok? && PlainSources(t, app, template)
    ensures var rows := Actionable(Plan(t, app, template).value);
      RowsReady(rows) && forall i :: 0 <= i < |rows| ==> RowPossible(t, app, template, rows[i])
  {
    var rows := Actionable(Plan(t, app, template).value);
    PlannedRowsAreReady(t, app, app.lock.lock.managed, Manifest(t, template), ManagedPaths(t, app, template));
    ActionableMembers(Plan(t, app, template).value);
    forall i | 0 <= i < |rows|
      ensures RowPossible(t, app, template, rows[i])
    {
      assert rows[i] in rows && RowReady(rows[i]);
      PlannedRowIsPossible(t, app, template, rows[i]);
    }
  }

  lemma PlannedRowIsPossible(t: Tools, app: App, template: Template, row: Row)
    requires Plan(t, app, template).Ok? && PlainSources(t, app, template)
    requires row in Plan(t, app, template).value && RowReady(row)
    ensures RowPossible(t, app, template, row)
  {
    RowInPlan(t, app, template, row);
    PlanExistsIff(t, app, template);
    assert Compared(t, app, template, row.path);
  }

  lemma ApprovedRowsGo(
    t: Tools, app: App, template: Template, expected: string, maintenance: string, stamp: string, faults: Faults)
    requires Begin(t, app, template, expected, maintenance, stamp, faults).Started?
    requires PlainSources(t, app, template) && forall n :: !faults(n)
    ensures Apply(t, app, template, expected, maintenance, stamp, faults).Completed?
  {
    var begun := Begin(t, app, template, expected, maintenance, stamp, faults);
    var step := RowStep(t, template, stamp, begun.planHash, faults);
    var p := Progress(begun.app, [], 3);
    BeginKeeps(t, app, template, expected, maintenance, stamp, faults);
    PlannedRowsArePossible(t, app, template);
    RowStepKeeps(t, app, template, stamp, begun.planHash, faults);
    forall q: Progress, row: Row {:trigger step(q, row)} |
      InProgress(t, app, q, stamp) && !DoneFrom(q.done, 0, row.path) && RowPossible(t, app, template, row)
      ensures step(q, row).Going?
    {
      PossibleRowGoes(t, app, q, template, stamp, begun.planHash, row, faults);
    }
    PossibleRowsGo(t, app, template, step, p, stamp, begun.rows, |begun.rows|);
    ApplyRowsKeep(t, app, step, p, stamp, begun.rows, |begun.rows|);
  }

  lemma CompletedIsPlain(
    t: Tools, app: App, template: Template, expected: string, maintenance: string, stamp: string, faults: Faults)
    requires Apply(t, app, template, expected, maintenance, stamp, faults).Completed?
    ensures Approved(t, app, template, expected, maintenance, stamp) && PlainSources(t, app, template)
  {
    ApprovedBegins(t, app, template, expected, maintenance, stamp, faults);
    var begun := Begin(t, app, template, expected, maintenance, stamp, faults);
    var rows := begun.rows;
    forall path | Compared(t, app, template, path) && path in template.links
      ensures DigestAt(t, app.files, path) != BaseOf(app, path) || DigestAt(t, app.files, path) == IncomingOf(t, template, path)
    {
      CarriedOut(t, app, template, path);
      forall row | row in rows && row.path == path
        ensures false
      {
        var i :| 0 <= i < |rows| && rows[i] == row;
        DoneRowsArePlain(t, template, stamp, begun.planHash, faults, Progress(begun.app, [], 3), rows, |rows|, i);
      }
    }
  }

  /** An upgrade during which no file operation raises completes exactly when it is approved and takes its files
      from plain sources; any completed one was approved. */
  lemma CompletedIff(
    t: Tools, app: App, template: Template, expected: string, maintenance: string, stamp: string, faults: Faults)
    ensures Apply(t, app, template, expected, maintenance, stamp, faults).Completed? ==>
      Approved(t, app, template, expected, maintenance, stamp) && PlainSources(t, app, template)
    ensures (forall n :: !faults(n)) && Approved(t, app, template, expected, maintenance, stamp) && PlainSources(t, app, template) ==>
      Apply(t, app, template, expected, maintenance, stamp, faults).Completed?
  {
    if Apply(t, app, template, expected, maintenance, stamp, faults).Completed? {
      CompletedIsPlain(t, app, template, expected, maintenance, stamp, faults);
    }
    if (forall n :: !faults(n)) && Approved(t, app, template, expected, maintenance, stamp) && PlainSources(t, app, template) {
      ApprovedBegins(t, app, template, expected, maintenance, stamp, faults);
      ApprovedRowsGo(t, app, template, expected, maintenance, stamp, faults);
    }
  }

  /** The lock then names the incoming template, with the digests of what it owns. */
  lemma CompletedLock(
    t: Tools, app: App, template: Template, expected: string, maintenance: string, stamp: string, faults: Faults)
    requires Apply(t, app, template, expected, maintenance, stamp, faults).Completed?
    ensures app.lock.Readable? && template.lock.Readable?
    ensures var lock := Apply(t, app, template, expected, maintenance, stamp, faults).app.lock;
      && lock.Readable? && lock.layout == t.layout
      && lock.lock == Lock(2, template.lock.lock.platformVersion, template.lock.lock.commit, template.lock.lock.digest,
                           lock.lock.managed, app.lock.lock.rest)
      && (forall path :: path in lock.lock.managed <==> path in template.files && t.managed(path))
      && (forall path :: path in lock.lock.managed ==> lock.lock.managed[path] == t.hash(template.files[path]))
  {
    CompletedLands(t, app, template, expected, maintenance, stamp, faults);
  }

  // ---- what can be rolled back

  /** Every file is as the upgrade left it, and its earlier content is still in the backup. */
  ghost predicate Reversible(t: Tools, app: App, dir: JournalDir, changes: seq<DoneRow>) {
    forall i :: 0 <= i < |changes| ==>
      var row := changes[i];
      && Reachable(t, app, row.path)
      && (if row.path in app.files then Some(t.hash(app.files[row.path])) else None) == row.after
      && (row.hadBefore ==> row.path in dir.before && Some(t.hash(dir.before[row.path])) == row.before)
  }

  lemma {:induction false} RestoresIff(t: Tools, files: Files, before: Files, changes: seq<DoneRow>, k: nat)
    requires k <= |changes|
    ensures RestoreFrom(t, files, before, changes, k).Some? <==>
      forall i :: k <= i < |changes| && changes[i].hadBefore ==>
        changes[i].path in before && Some(t.hash(before[changes[i].path])) == changes[i].before
    decreases |changes| - k
  {
    if k < |changes| {
      RestoresIff(t, files, before, changes, k + 1);
    }
  }

  /** A rollback goes through exactly when the application is stopped, the journal is one of a finished or a
      stopped apply with its backups, and nothing has moved since. */
  lemma RollbackIff(t: Tools, app: App, stamp: string, maintenance: string)
    ensures Rollback(t, app, stamp, maintenance).Ok? <==>
      && maintenance == "APP-STOPPED"
      && stamp in app.journals && app.journals[stamp].journal.Some? && app.journals[stamp].lockBackup.Some?
      && (app.journals[stamp].journal.value.status == Applied || app.journals[stamp].journal.value.status == Partial)
      && Reversible(t, app, app.journals[stamp], app.journals[stamp].journal.value.changes)
  {
    if stamp in app.journals && Rollbackable(app.journals[stamp]) {
      var dir := app.journals[stamp];
      RestoresIff(t, app.files, dir.before, dir.journal.value.changes, 0);
    }
  }

  // ---- paths that climb

  /** `..` stands alone between slashes. */
  ghost predicate ParentAt(path: string, i: nat) {
    && i + 2 <= |path| && path[i] == '.' && path[i + 1] == '.'
    && (i == 0 || path[i - 1] == '/') && (i + 2 == |path| || path[i + 2] == '/')
  }

  lemma {:induction false} FirstSegmentIsPlain(path: string)
    ensures forall i :: 0 <= i < FirstSegment(path) ==> path[i] != '/'
  {
    if path != "" && path[0] != '/' {
      FirstSegmentIsPlain(path[1..]);
    }
  }

  lemma FirstSegmentIff(path: string)
    ensures path[..FirstSegment(path)] == ".." <==> ParentAt(path, 0)
  {
    FirstSegmentIsPlain(path);
    var n := FirstSegment(path);
    if path[..n] == ".." {
      assert path[0] == path[..n][0] && path[1] == path[..n][1];
    }
    if ParentAt(path, 0) {
      assert n == 2;
    }
  }

  /** A path climbs exactly when one of its segments is `..`. */
  lemma {:induction false} ClimbsUpIff(path: string)
    ensures ClimbsUp(path) <==> exists i :: ParentAt(path, i)
    decreases |path|
  {
    var n := FirstSegment(path);
    FirstSegmentIff(path);
    FirstSegmentIsPlain(path);
    if n < |path| {
      var rest := path[n + 1..];
      ClimbsUpIff(rest);
      forall i: nat
        ensures ParentAt(rest, i) <==> ParentAt(path, n + 1 + i)
      {
      }
      forall i: nat | ParentAt(path, i)
        ensures i == 0 || ParentAt(rest, i - n - 1)
      {
      }
    }
  }
}
