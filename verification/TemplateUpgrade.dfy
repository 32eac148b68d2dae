/** Three-way template upgrades: plan, journaled apply that may stop at any file operation, rollback.

    File contents are byte strings, hashed by a function given with the tools.  A file operation either
    takes effect or raises without effect; which ones raise is decided by a fault schedule. */
module TemplateUpgrade {
  import opened Common
  import opened Ordering

  type Bytes = seq<bv8>
  type Digest = string
  type Files = map<string, Bytes>
  type Faults = nat -> bool

  // ---- locks, journals, applications

  datatype Lock = Lock(
    schemaVersion: int, platformVersion: string, commit: string, digest: string,
    managed: map<string, Digest>, rest: string)

  /** The lock file: absent or not JSON, or a lock with the layout of its text. */
  datatype LockFile = Unreadable(text: string) | Readable(lock: Lock, layout: string)

  datatype Action = Update | Remove | PreserveLocal | Conflict

  datatype Row = Row(path: string, action: Action, base: Option<Digest>, current: Option<Digest>, incoming: Option<Digest>)

  datatype DoneRow = DoneRow(path: string, action: Action, before: Option<Digest>, after: Option<Digest>, hadBefore: bool)

  datatype Status = Applying | Applied | Partial | RolledBack

  datatype Journal = Journal(status: Status, planHash: string, changes: seq<DoneRow>)

  /** One directory below `.template-upgrades`. */
  datatype JournalDir = JournalDir(journal: Option<Journal>, before: Files, lockBackup: Option<LockFile>)

  datatype App = App(files: Files, links: set<string>, lock: LockFile, journals: map<string, JournalDir>)

  /** The incoming template; `files` are the ones `source_files` yields. */
  datatype Template = Template(files: Files, links: set<string>, lock: LockFile)

  /** What the tools are built with: which paths the template owns, which paths climb out of a directory,
      SHA-256 of file contents and of plans, and the layout of lock files they write. */
  datatype Tools = Tools(
    managed: string -> bool, climbs: string -> bool, hash: Bytes -> Digest, planHash: seq<Row> -> string, layout: string)

  // ---- safe paths

  predicate UnderManaged(prefixes: seq<string>, path: string) {
    exists i | 0 <= i < |prefixes| :: StartsWith(path, prefixes[i])
  }

  function FirstSegment(path: string): (n: nat)
    ensures n <= |path| && (n < |path| ==> path[n] == '/')
  {
    if path == "" || path[0] == '/' then 0 else 1 + FirstSegment(path[1..])
  }

  /** `'..' in Path(path).parts` */
  predicate ClimbsUp(path: string)
    decreases |path|
  {
    var n := FirstSegment(path);
    path[..n] == ".." || (n < |path| && ClimbsUp(path[n + 1..]))
  }

  /** `_safe_managed_path` */
  predicate Safe(t: Tools, links: set<string>, path: string) {
    t.managed(path) && !t.climbs(path) && path !in links
  }

  /** What the template tools own in a generated application. */
  const MANAGED: seq<string> := [
    "backend/app/platform/", "frontend/src/platform/", "experience-lab/src/base.ts", "experience-lab/src/dialog.ts",
    "experience-lab/src/icons.ts", "experience-lab/src/presentation.ts", "experience-lab/src/model.ts",
    "experience-lab/src/validation.ts", "experience-lab/src/table.ts", "experience-lab/src/scheduling.ts",
    "experience-lab/src/spatial.ts", "experience-lab/src/charts.ts", "experience-lab/src/editors.ts",
    "experience-lab/src/windows.ts", "experience-lab/src/manufacturing", "experience-lab/src/composition.ts"]

  function TemplateTools(hash: Bytes -> Digest, planHash: seq<Row> -> string, layout: string): Tools {
    Tools((path: string) => UnderManaged(MANAGED, path), ClimbsUp, hash, planHash, layout)
  }

  // ---- validation and planning

  predicate IsHex(s: string) {
    forall i | 0 <= i < |s| :: '0' <= s[i] <= '9' || 'a' <= s[i] <= 'f' || 'A' <= s[i] <= 'F'
  }

  /** `validate_template_lock` */
  predicate ValidLock(file: LockFile) {
    && file.Readable?
    && file.lock.schemaVersion == 2
    && |file.lock.commit| == 40 && IsHex(file.lock.commit)
    && |file.lock.digest| == 64 && IsHex(file.lock.digest)
  }

  /** `core_manifest` */
  function Manifest(t: Tools, template: Template): map<string, Digest> {
    map path | path in template.files && t.managed(path) :: t.hash(template.files[path])
  }

  function DigestAt(t: Tools, files: Files, path: string): Option<Digest> {
    if path in files then Some(t.hash(files[path])) else None
  }

  function Lookup(m: map<string, Digest>, path: string): Option<Digest> {
    if path in m then Some(m[path]) else None
  }

  /** What the plan does with a path, given its base, local and incoming digests. */
  function Classify(base: Option<Digest>, current: Option<Digest>, incoming: Option<Digest>): Option<Action> {
    if current == incoming then None
    else if current == base then Some(if incoming.Some? then Update else Remove)
    else if base == incoming then Some(PreserveLocal)
    else Some(Conflict)
  }

  function PlanRow(t: Tools, app: App, previous: map<string, Digest>, next: map<string, Digest>, path: string): seq<Row> {
    var base, current, incoming := Lookup(previous, path), DigestAt(t, app.files, path), Lookup(next, path);
    match Classify(base, current, incoming)
    case None => []
    case Some(action) => [Row(path, action, base, current, incoming)]
  }

  /** The rows of the first `k` paths. */
  function PlanRows(t: Tools, app: App, previous: map<string, Digest>, next: map<string, Digest>, paths: seq<string>, k: nat): seq<Row>
    requires k <= |paths|
  {
    if k == 0 then []
    else PlanRows(t, app, previous, next, paths, k - 1) + PlanRow(t, app, previous, next, paths[k - 1])
  }

  predicate AllSafe(t: Tools, links: set<string>, paths: seq<string>) {
    forall i | 0 <= i < |paths| :: Safe(t, links, paths[i])
  }

  function ManagedPaths(t: Tools, app: App, template: Template): seq<string>
    requires app.lock.Readable?
  {
    Sorted(app.lock.lock.managed.Keys + Manifest(t, template).Keys)
  }

  /** `upgrade_plan` */
  function Plan(t: Tools, app: App, template: Template): Result<seq<Row>> {
    if !ValidLock(app.lock) || !ValidLock(template.lock) then Err("Template lock is invalid.")
    else
      var paths := ManagedPaths(t, app, template);
      if !AllSafe(t, app.links, paths) then Err("Invalid managed file path.")
      else Ok(PlanRows(t, app, app.lock.lock.managed, Manifest(t, template), paths, |paths|))
  }

  predicate HasConflict(rows: seq<Row>) {
    exists i | 0 <= i < |rows| :: rows[i].action == Conflict
  }

  function Actionable(rows: seq<Row>): (r: seq<Row>)
  {
    if rows == [] then []
    else
      var front, last := Actionable(rows[..|rows| - 1]), rows[|rows| - 1];
      if last.action == Update || last.action == Remove then front + [last] else front
  }

  // ---- applying

  /** An apply in progress: the application, the journal rows held in memory, and the number of file
      operations attempted so far. */
  datatype Progress = Progress(app: App, done: seq<DoneRow>, tick: nat)

  datatype Step = Going(p: Progress) | Stopped(p: Progress)

  function SetDir(app: App, stamp: string, dir: JournalDir): App {
    app.(journals := app.journals[stamp := dir])
  }

  function WriteJournal(app: App, stamp: string, journal: Journal): App
    requires stamp in app.journals
  {
    SetDir(app, stamp, app.journals[stamp].(journal := Some(journal)))
  }

  function RemoveFile(files: Files, path: string): Files {
    files - {path}
  }

  /** Back up the current content of a file, if there is one. */
  function BackUp(p: Progress, stamp: string, path: string, faults: Faults): Step
    requires stamp in p.app.journals
  {
    if path !in p.app.files then Going(p)
    else if faults(p.tick) then Stopped(p.(tick := p.tick + 1))
    else
      var dir := p.app.journals[stamp];
      Going(p.(app := SetDir(p.app, stamp, dir.(before := dir.before[path := p.app.files[path]])), tick := p.tick + 1))
  }

  /** Write the incoming content over a file, or remove it. */
  function Put(t: Tools, p: Progress, template: Template, row: Row, faults: Faults): Step {
    if row.path in template.links || faults(p.tick) then Stopped(p.(tick := p.tick + 1))
    else if row.action == Update then
      if row.path !in template.files || DigestAt(t, template.files, row.path) != row.incoming
      then Stopped(p.(tick := p.tick + 1))
      else if faults(p.tick + 1) then Stopped(p.(tick := p.tick + 2))
      else Going(p.(app := p.app.(files := p.app.files[row.path := template.files[row.path]]), tick := p.tick + 2))
    else Going(p.(app := p.app.(files := RemoveFile(p.app.files, row.path)), tick := p.tick + 1))
  }

  /** The rest of an iteration, once the current content is backed up: put the new content and journal the row. */
  function Perform(t: Tools, p: Progress, template: Template, stamp: string, planHash: string, row: Row, hadBefore: bool, faults: Faults): Step
    requires stamp in p.app.journals
  {
    match Put(t, p, template, row, faults)
    case Stopped(u) => Stopped(u)
    case Going(u) =>
      var done := u.done + [DoneRow(row.path, row.action, row.current, row.incoming, hadBefore)];
      if faults(u.tick) then Stopped(u.(done := done, tick := u.tick + 1))
      else Going(Progress(WriteJournal(u.app, stamp, Journal(Applying, planHash, done)), done, u.tick + 1))
  }

  /** One iteration of the apply loop. */
  function ApplyRow(t: Tools, p: Progress, template: Template, stamp: string, planHash: string, row: Row, faults: Faults): Step
    requires stamp in p.app.journals
  {
    var current := DigestAt(t, p.app.files, row.path);
    if !Safe(t, p.app.links, row.path) || faults(p.tick) || current != row.current then Stopped(p.(tick := p.tick + 1))
    else
      match BackUp(p.(tick := p.tick + 1), stamp, row.path, faults)
      case Stopped(q) => Stopped(q)
      case Going(q) => Perform(t, q, template, stamp, planHash, row, current.Some?, faults)
  }

  /** One iteration as a function of what is in progress and the row. */
  function RowStep(t: Tools, template: Template, stamp: string, planHash: string, faults: Faults): (Progress, Row) -> Step {
    (p: Progress, row: Row) => if stamp in p.app.journals then ApplyRow(t, p, template, stamp, planHash, row, faults) else Stopped(p)
  }

  /** The first `k` iterations; nothing runs after one stops. */
  function ApplyRows(step: (Progress, Row) -> Step, p: Progress, rows: seq<Row>, k: nat): Step
    requires k <= |rows|
  {
    if k == 0 then Going(p)
    else
      match ApplyRows(step, p, rows, k - 1)
      case Stopped(q) => Stopped(q)
      case Going(q) => step(q, rows[k - 1])
  }

  function NewLock(t: Tools, previous: Lock, template: Template): Lock
    requires template.lock.Readable?
  {
    var incoming := template.lock.lock;
    Lock(2, incoming.platformVersion, incoming.commit, incoming.digest, Manifest(t, template), previous.rest)
  }

  /** After the rows: the new lock and the final journal. */
  function Finish(t: Tools, p: Progress, template: Template, stamp: string, planHash: string, faults: Faults): Step {
    if !ValidLock(template.lock) || faults(p.tick) || !p.app.lock.Readable? || stamp !in p.app.journals
    then Stopped(p.(tick := p.tick + 1))
    else
      var written := p.app.(lock := Readable(NewLock(t, p.app.lock.lock, template), t.layout));
      if faults(p.tick + 1) then Stopped(p.(app := written, tick := p.tick + 2))
      else Going(p.(app := WriteJournal(written, stamp, Journal(Applied, planHash, p.done)), tick := p.tick + 2))
  }

  /** Refused: raised before the first managed file was touched.  Otherwise the journal says how it ended. */
  datatype Outcome = Refused(app: App) | Completed(app: App) | StoppedMidway(app: App)

  /** An apply that may proceed, with the rows to work through. */
  datatype Start = NotStarted(app: App) | Started(app: App, planHash: string, rows: seq<Row>)

  /** The checks and the first writes, before the guarded part. */
  function Begin(t: Tools, app: App, template: Template, expected: string, maintenance: string, stamp: string, faults: Faults): Start {
    if maintenance != "APP-STOPPED" then NotStarted(app)
    else
      match Plan(t, app, template)
      case Err(_) => NotStarted(app)
      case Ok(rows) =>
        var planHash := t.planHash(rows);
        if HasConflict(rows) || expected == "" || expected != planHash || stamp in app.journals || faults(0) then NotStarted(app)
        else OpenJournal(app, stamp, planHash, Actionable(rows), faults)
  }

  function OpenJournal(app: App, stamp: string, planHash: string, rows: seq<Row>, faults: Faults): Start {
    if faults(1) then NotStarted(SetDir(app, stamp, JournalDir(None, map[], None)))
    else if faults(2) then NotStarted(SetDir(app, stamp, JournalDir(None, map[], Some(app.lock))))
    else Started(SetDir(app, stamp, JournalDir(Some(Journal(Applying, planHash, [])), map[], Some(app.lock))), planHash, rows)
  }

  /** `upgrade_apply`; the write of the journal in the exception handler succeeds. */
  function Apply(t: Tools, app: App, template: Template, expected: string, maintenance: string, stamp: string, faults: Faults): Outcome {
    match Begin(t, app, template, expected, maintenance, stamp, faults)
    case NotStarted(left) => Refused(left)
    case Started(begun, planHash, rows) => Work(t, begun, template, stamp, planHash, rows, faults)
  }

  /** The guarded part, with its exception handler. */
  function Work(t: Tools, app: App, template: Template, stamp: string, planHash: string, rows: seq<Row>, faults: Faults): Outcome {
    match ApplyRows(RowStep(t, template, stamp, planHash, faults), Progress(app, [], 3), rows, |rows|)
    case Stopped(p) => StoppedMidway(EndPartial(p, stamp, planHash))
    case Going(p) =>
      match Finish(t, p, template, stamp, planHash, faults)
      case Stopped(q) => StoppedMidway(EndPartial(q, stamp, planHash))
      case Going(q) => Completed(q.app)
  }

  function EndPartial(p: Progress, stamp: string, planHash: string): App {
    if stamp in p.app.journals then WriteJournal(p.app, stamp, Journal(Partial, planHash, p.done)) else p.app
  }

  // ---- rolling back

  predicate Untouched(t: Tools, files: Files, links: set<string>, changes: seq<DoneRow>) {
    forall i | 0 <= i < |changes| ::
      Safe(t, links, changes[i].path) && DigestAt(t, files, changes[i].path) == changes[i].after
  }

  /** Restore one file; None when its backup is missing or altered. */
  function Restore(t: Tools, files: Files, before: Files, row: DoneRow): Option<Files> {
    if row.hadBefore then
      if row.path in before && Some(t.hash(before[row.path])) == row.before
      then Some(files[row.path := before[row.path]])
      else None
    else Some(RemoveFile(files, row.path))
  }

  /** The rows from `k` on, restored in reverse order. */
  function RestoreFrom(t: Tools, files: Files, before: Files, changes: seq<DoneRow>, k: nat): Option<Files>
    requires k <= |changes|
    decreases |changes| - k
  {
    if k == |changes| then Some(files)
    else
      match RestoreFrom(t, files, before, changes, k + 1)
      case None => None
      case Some(restored) => Restore(t, restored, before, changes[k])
  }

  predicate Rollbackable(dir: JournalDir) {
    dir.journal.Some? && (dir.journal.value.status == Applied || dir.journal.value.status == Partial)
  }

  /** `upgrade_rollback` when no file operation raises. */
  function Rollback(t: Tools, app: App, stamp: string, maintenance: string): Result<App> {
    if maintenance != "APP-STOPPED" then Err("Rollback requires --maintenance APP-STOPPED.")
    else if stamp !in app.journals || !Rollbackable(app.journals[stamp]) then Err("Journal is not rollbackable.")
    else
      var dir := app.journals[stamp];
      var journal := dir.journal.value;
      if !Untouched(t, app.files, app.links, journal.changes) then Err("Managed file changed after upgrade; rollback refused.")
      else
        match RestoreFrom(t, app.files, dir.before, journal.changes, 0)
        case None => Err("Upgrade backup is invalid.")
        case Some(files) =>
          if dir.lockBackup.None? then Err("Template lock backup is missing.")
          else
            var restored := app.(files := files, lock := dir.lockBackup.value);
            Ok(WriteJournal(restored, stamp, journal.(status := RolledBack)))
  }
}
