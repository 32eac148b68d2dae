module ReleaseProgression {
  /** Which version a commit may carry, given the commit it was built on. */

  import opened Common
  import opened ReleaseVersions
  import opened StableRelease
  import opened VersionGrammar

  /** A commit: what its VERSION file says, and its executable source. */
  datatype Commit = Commit(version: Option<Version>, source: Snapshot)

  datatype Mode = OrdinaryBuild | StackedOrdinaryBuild | StablePromotion | EvidenceOnly

  datatype Progression = Progression(
    allowed: bool, mode: Mode, base: string, candidate: string, sourceChanged: bool, projectionOnly: bool)

  /** How a commit is checked against its base: what VERSION says in each commit in between that touched
      it, the version given on the command line if any (an inner None is one that is not supported), and
      the promotion flag. */
  datatype Request = Request(log: seq<Option<Version>>, argument: Option<Option<Version>>, promotion: bool)

  /** `_ancestor_candidate_versions` on the first `k` commits of the log; None when one is invalid. */
  function Ancestors(log: seq<Option<Version>>, k: nat): Option<set<string>>
    requires k <= |log|
  {
    Collected((v: Version) => Print(v), log, k)
  }

  function Collected(text: Version -> string, log: seq<Option<Version>>, k: nat): Option<set<string>>
    requires k <= |log|
  {
    if k == 0 then Some({})
    else
      match Collected(text, log, k - 1)
      case None => None
      case Some(versions) =>
        match log[k - 1]
        case None => None
        case Some(v) => Some(versions + {text(v)})
  }

  function WithOrdinal(v: Version, n: nat): ReleaseVersion {
    v.(ordinal := Some(n))
  }

  /** `previous.ordinal or 0`, plus one. */
  function NextOrdinal(v: Version): nat {
    (if v.ordinal.Some? then v.ordinal.value else 0) + 1
  }

  predicate NoneMissing(v: Version, low: nat, high: nat, preserved: set<string>) {
    forall n | low <= n < high :: Print(WithOrdinal(v, n)) in preserved
  }

  function Refused(previous: Version, candidate: Version, base: Commit, head: Commit): Progression {
    Progression(false, OrdinaryBuild, Print(previous), Print(candidate), head.source.hashes != base.source.hashes, false)
  }

  /** The stable branch. */
  function CheckStable(
    rules: Rules, previous: Version, candidate: Version, base: Commit, head: Commit, request: Request): Result<Progression>
  {
    var refused := Refused(previous, candidate, base, head).(mode := StablePromotion);
    if request.argument.Some? && head.version.None? then Err("VERSION is unavailable or unsupported.")
    else if request.argument.Some? && head.version != Some(candidate) then Ok(refused)
    else if !request.promotion then Ok(refused.(mode := OrdinaryBuild))
    else if previous.IsStable() || !candidate.SameTrain(previous) then Ok(refused)
    else
      var verdict := Compare(rules, base.source, head.source, previous, candidate);
      Ok(refused.(allowed := verdict.allowed, projectionOnly := verdict.allowed && verdict.changed != []))
  }

  /** The prerelease branch. */
  function CheckPrerelease(previous: Version, candidate: Version, base: Commit, head: Commit, request: Request): Result<Progression> {
    var changed := head.source.hashes != base.source.hashes;
    var refused := Refused(previous, candidate, base, head);
    if request.promotion then Ok(refused.(mode := StablePromotion))
    else if !candidate.SameTrain(previous) then Ok(refused)
    else if Print(candidate) == Print(previous) then
      Ok(if changed then refused else refused.(allowed := true, mode := EvidenceOnly))
    else if previous.IsStable() then Ok(refused)
    else
      var next := NextOrdinal(previous);
      if candidate == WithOrdinal(previous, next) then Ok(refused.(allowed := true))
      else if candidate.channel == previous.channel && candidate.ordinal.Some? && candidate.ordinal.value > next then
        CheckStacked(previous, next, candidate.ordinal.value, refused, request.log)
      else Ok(refused)
  }

  /** The branch for an ordinal that goes on by more than one. */
  function CheckStacked(previous: Version, low: nat, high: nat, refused: Progression, log: seq<Option<Version>>): Result<Progression> {
    match Ancestors(log, |log|)
    case None => Err("An ancestor VERSION is invalid.")
    case Some(preserved) =>
      Ok(if NoneMissing(previous, low, high, preserved) then refused.(allowed := true, mode := StackedOrdinaryBuild) else refused)
  }

  /** `check_candidate_progression`, once the base commit is resolved. */
  function Check(rules: Rules, base: Commit, head: Commit, request: Request): Result<Progression> {
    match (if request.argument.Some? then request.argument.value else head.version)
    case None => Err("Unsupported release version.")
    case Some(candidate) =>
      match base.version
      case None => Err("The exact release base has an invalid VERSION.")
      case Some(previous) =>
        if candidate.IsStable() then CheckStable(rules, previous, candidate, base, head, request)
        else CheckPrerelease(previous, candidate, base, head, request)
  }

  predicate Allowed(rules: Rules, base: Commit, head: Commit, request: Request) {
    var r := Check(rules, base, head, request);
    r.Ok? && r.value.allowed
  }

  /** The loop of `_ancestor_candidate_versions`. */
  method AncestorVersions(log: seq<Option<Version>>) returns (versions: Option<set<string>>)
    ensures versions == Ancestors(log, |log|)
  {
    var found := {};
    ghost var text := (v: Version) => Print(v);
    for i := 0 to |log|
      invariant Collected(text, log, i) == Some(found)
    {
      if log[i].None? {
        CollectedIff(text, log, |log|);
        return None;
      }
      found := found + {Print(log[i].value)};
    }
    versions := Some(found);
  }

  lemma {:induction false} CollectedIff(text: Version -> string, log: seq<Option<Version>>, k: nat)
    requires k <= |log|
    ensures Collected(text, log, k).Some? <==> forall i :: 0 <= i < k ==> log[i].Some?
    decreases k
  {
    if k > 0 {
      CollectedIff(text, log, k - 1);
    }
  }

  /** What is collected are the texts of the versions of the log. */
  lemma {:induction false} CollectedAre(text: Version -> string, log: seq<Option<Version>>, k: nat, s: string)
    requires k <= |log| && Collected(text, log, k).Some?
    ensures forall i :: 0 <= i < k ==> log[i].Some?
    ensures s in Collected(text, log, k).value <==> exists i :: 0 <= i < k && text(log[i].value) == s
    decreases k
  {
    CollectedIff(text, log, k);
    if k > 0 {
      CollectedAre(text, log, k - 1, s);
    }
  }

  /** The version of a commit is the printed form of one its log names. */
  predicate InLog(log: seq<Option<Version>>, v: ReleaseVersion) {
    exists i | 0 <= i < |log| :: log[i] == Some(v)
  }

  // ---- one step

  predicate Advances(v: Version, w: Version) {
    && v.channel.Some? && w.channel == v.channel && w.SameTrain(v)
    && v.ordinal.Some? && w.ordinal.Some? && v.ordinal.value < w.ordinal.value
  }

  predicate Promotes(v: Version, w: Version) {
    v.channel.Some? && w.IsStable() && w.SameTrain(v)
  }

  /** The policy in words: a step keeps version and source; or advances the ordinal on the same channel
      with every skipped version in the log; or promotes to stable by a pure version projection. */
  ghost predicate Policy(rules: Rules, base: Commit, head: Commit, v: Version, w: Version, request: Request) {
    || (w == v && !v.IsStable() && !request.promotion && base.source.hashes == head.source.hashes)
    || (Advances(v, w) && !request.promotion
        && (w.ordinal.value == v.ordinal.value + 1
            || (AllSupported(request.log)
                && forall n :: v.ordinal.value < n < w.ordinal.value ==> InLog(request.log, v.(ordinal := Some(n))))))
    || (Promotes(v, w) && request.promotion && Compare(rules, base.source, head.source, v, w).allowed)
  }

  /** Every commit of the log says a version. */
  ghost predicate AllSupported(log: seq<Option<Version>>) {
    forall i :: 0 <= i < |log| ==> log[i].Some?
  }

  lemma AncestorsIff(log: seq<Option<Version>>)
    ensures Ancestors(log, |log|).Some? <==> AllSupported(log)
  {
    CollectedIff((v: Version) => Print(v), log, |log|);
  }

  lemma AncestorIff(log: seq<Option<Version>>, v: ReleaseVersion)
    requires v.WellFormed() && Ancestors(log, |log|).Some?
    ensures Print(v) in Ancestors(log, |log|).value <==> InLog(log, v)
  {
    CollectedAre((w: Version) => Print(w), log, |log|, Print(v));
    forall i | 0 <= i < |log| && Print(log[i].value) == Print(v)
      ensures log[i].value == v
    {
      PrintIsInjective(log[i].value, v);
    }
  }

  lemma MissingIffUnlogged(v: Version, low: nat, high: nat, log: seq<Option<Version>>)
    requires v.channel.Some? && low > 0 && Ancestors(log, |log|).Some?
    ensures NoneMissing(v, low, high, Ancestors(log, |log|).value) <==>
      forall n :: low <= n < high ==> InLog(log, WithOrdinal(v, n))
  {
    var preserved := Ancestors(log, |log|).value;
    forall n: nat | low <= n < high
      ensures Print(WithOrdinal(v, n)) in preserved <==> InLog(log, WithOrdinal(v, n))
    {
      AncestorIff(log, WithOrdinal(v, n));
    }
  }

  lemma StackedIff(v: Version, low: nat, high: nat, refused: Progression, log: seq<Option<Version>>)
    requires v.channel.Some? && low > 0
    ensures var r := CheckStacked(v, low, high, refused, log);
      && (r.Ok? <==> AllSupported(log))
      && (r.Ok? ==> r.value == if forall n :: low <= n < high ==> InLog(log, v.(ordinal := Some(n)))
                               then refused.(allowed := true, mode := StackedOrdinaryBuild) else refused)
  {
    AncestorsIff(log);
    if AllSupported(log) {
      MissingIffUnlogged(v, low, high, log);
      assert forall n :: low <= n < high ==> WithOrdinal(v, n) == v.(ordinal := Some(n));
    }
  }

  lemma SamePrint(v: Version, w: Version)
    ensures Print(v) == Print(w) <==> v == w
  {
    if Print(v) == Print(w) {
      PrintIsInjective(v, w);
    }
  }

  lemma PrereleaseFollowsPolicy(rules: Rules, base: Commit, head: Commit, v: Version, w: Version, request: Request)
    requires !w.IsStable()
    ensures var r := CheckPrerelease(v, w, base, head, request);
      r.Ok? && r.value.allowed <==> Policy(rules, base, head, v, w, request)
  {
    SamePrint(v, w);
    if Advances(v, w) {
      StackedIff(v, NextOrdinal(v), w.ordinal.value, Refused(v, w, base, head), request.log);
    }
  }

  /** The version that is checked: the one on the command line if there is one, else the one in VERSION. */
  function CandidateOf(head: Commit, request: Request): Option<Version> {
    if request.argument.Some? then request.argument.value else head.version
  }

  /** A commit is allowed exactly when the checked version follows the policy; a stable one from the command
      line must be the one in VERSION. */
  lemma AllowedIffPolicy(rules: Rules, base: Commit, head: Commit, request: Request)
    ensures Allowed(rules, base, head, request) <==>
      && base.version.Some? && CandidateOf(head, request).Some?
      && Policy(rules, base, head, base.version.value, CandidateOf(head, request).value, request)
      && (request.argument.Some? && CandidateOf(head, request).value.IsStable() ==> head.version == request.argument.value)
  {
    if base.version.Some? && CandidateOf(head, request).Some? {
      var v, w := base.version.value, CandidateOf(head, request).value;
      if !w.IsStable() {
        PrereleaseFollowsPolicy(rules, base, head, v, w, request);
      }
    }
  }

  // ---- what is reported beside the decision

  /** The ordinal goes on by more than one. */
  predicate Skips(v: Version, w: Version) {
    Advances(v, w) && w.ordinal.value > v.ordinal.value + 1
  }

  /** The check ends with an error exactly when a version it needs is not supported: the checked one, the
      base's, the one in VERSION when a stable version is given, or one of the log when ordinals are skipped. */
  lemma ErrorIff(rules: Rules, base: Commit, head: Commit, request: Request)
    ensures Check(rules, base, head, request).Err? <==>
      || base.version.None? || CandidateOf(head, request).None?
      || (CandidateOf(head, request).value.IsStable() && request.argument.Some? && head.version.None?)
      || (Skips(base.version.value, CandidateOf(head, request).value) && !request.promotion && !AllSupported(request.log))
  {
    AncestorsIff(request.log);
    if base.version.Some? && CandidateOf(head, request).Some? {
      var v, w := base.version.value, CandidateOf(head, request).value;
      SamePrint(v, w);
    }
  }

  /** The report names the two versions, says whether the source changed, and says how the step was judged. */
  lemma ReportIff(rules: Rules, base: Commit, head: Commit, request: Request)
    requires Check(rules, base, head, request).Ok?
    ensures base.version.Some? && CandidateOf(head, request).Some?
    ensures var v, w, r := base.version.value, CandidateOf(head, request).value, Check(rules, base, head, request).value;
      && Writes(r.base, v) && Writes(r.candidate, w)
      && (r.sourceChanged <==> base.source.hashes != head.source.hashes)
      && (r.projectionOnly <==> r.allowed && w.IsStable())
      && (r.mode == EvidenceOnly <==> r.allowed && w == v)
      && (r.mode == StackedOrdinaryBuild <==> r.allowed && Skips(v, w))
      && (r.mode == StablePromotion <==>
            request.promotion || (w.IsStable() && request.argument.Some? && head.version != Some(w)))
  {
    var v, w := base.version.value, CandidateOf(head, request).value;
    WritesIff(Print(v), v);
    WritesIff(Print(w), w);
    if w.IsStable() {
      PromotionChanges(rules, base, head, v, w);
    } else {
      PrereleaseReport(v, w, base, head, request);
    }
  }

  lemma PrereleaseReport(v: Version, w: Version, base: Commit, head: Commit, request: Request)
    requires !w.IsStable() && CheckPrerelease(v, w, base, head, request).Ok?
    ensures var r := CheckPrerelease(v, w, base, head, request).value;
      && r == Refused(v, w, base, head).(allowed := r.allowed, mode := r.mode)
      && (r.mode == EvidenceOnly <==> r.allowed && w == v)
      && (r.mode == StackedOrdinaryBuild <==> r.allowed && Skips(v, w))
      && (r.mode == StablePromotion <==> request.promotion)
  {
    SamePrint(v, w);
    if Advances(v, w) {
      StackedIff(v, NextOrdinal(v), w.ordinal.value, Refused(v, w, base, head), request.log);
    }
  }

  /** An allowed promotion has changed paths. */
  lemma PromotionChanges(rules: Rules, base: Commit, head: Commit, v: Version, w: Version)
    ensures var verdict := Compare(rules, base.source, head.source, v, w);
      verdict.allowed ==> verdict.changed != [] && base.source.hashes != head.source.hashes
  {
    SameHashes(base.source, head.source);
  }

  /** A version given on the command line is compared with the VERSION file only when it is stable: the
      check then says something about the repository's own version exactly when the version is stable or
      happens to be the one in the file. */
  lemma ArgumentIsTrusted(rules: Rules, base: Commit, head: Commit, request: Request)
    requires request.argument.Some? && Allowed(rules, base, head, request)
    ensures request.argument.value.Some?
    ensures request.argument.value.value.IsStable() ==> head.version == request.argument.value
    ensures !request.argument.value.value.IsStable() ==>
      forall other: Option<Version> :: Allowed(rules, base, head.(version := other), request)
  {
    var v, w := base.version.value, request.argument.value.value;
    if !w.IsStable() {
      forall other: Option<Version>
        ensures Allowed(rules, base, head.(version := other), request)
      {
        var r, q := Check(rules, base, head, request), Check(rules, base, head.(version := other), request);
        assert r == CheckPrerelease(v, w, base, head, request);
        assert q == CheckPrerelease(v, w, base, head.(version := other), request);
      }
    }
  }

  // ---- from the texts of VERSION files

  /** What a VERSION file says; None when it is missing or its text is not supported. */
  function ReadVersion(text: Option<string>): (v: Option<Version>)
    ensures v.Some? <==> text.Some? && exists w: Version :: Writes(Strip(text.value), w)
    ensures v.Some? ==> Writes(Strip(text.value), v.value)
  {
    match text
    case None => None
    case Some(s) =>
      VersionGrammar.AcceptedIff(s);
      if Parse(s).None? then None
      else
        ParseIff(s, Parse(s).value);
        WritesIff(Strip(s), Parse(s).value);
        Some(Parse(s).value)
  }

  /** A commit as it is checked out: the text of its VERSION file, if there is one, and its sources. */
  datatype Tree = Tree(text: Option<string>, source: Snapshot)

  /** What the check is run with: the VERSION texts of the commits in between, the version on the command
      line, and the promotion flag. */
  datatype Order = Order(log: seq<Option<string>>, argument: Option<string>, promotion: bool)

  function CommitOf(tree: Tree): Commit {
    Commit(ReadVersion(tree.text), tree.source)
  }

  function ReadLog(log: seq<Option<string>>): (r: seq<Option<Version>>)
    ensures |r| == |log| && forall i :: 0 <= i < |log| ==> r[i] == ReadVersion(log[i])
  {
    seq(|log|, i requires 0 <= i < |log| => ReadVersion(log[i]))
  }

  function RequestOf(order: Order): Request {
    Request(ReadLog(order.log), if order.argument.Some? then Some(ReadVersion(order.argument)) else None, order.promotion)
  }

  /** `check_candidate_progression` on what is read from the trees. */
  function CheckTrees(rules: Rules, base: Tree, head: Tree, order: Order): Result<Progression> {
    Check(rules, CommitOf(base), CommitOf(head), RequestOf(order))
  }

  predicate Permitted(rules: Rules, base: Tree, head: Tree, order: Order) {
    var r := CheckTrees(rules, base, head, order);
    r.Ok? && r.value.allowed
  }

  /** The VERSION text of a tree writes this version, but for white space around it. */
  ghost predicate Says(tree: Tree, v: Version) {
    tree.text.Some? && Writes(Strip(tree.text.value), v)
  }

  lemma SaysIff(tree: Tree, v: Version)
    ensures Says(tree, v) <==> CommitOf(tree).version == Some(v)
  {
    if tree.text.Some? {
      ParseIff(tree.text.value, v);
    }
  }

  /** A tree checked by its own VERSION text is permitted exactly when both texts say versions and these
      follow the policy. */
  lemma PermittedIff(rules: Rules, base: Tree, head: Tree, order: Order)
    requires order.argument.None?
    ensures Permitted(rules, base, head, order) <==>
      exists v, w :: Says(base, v) && Says(head, w) && Policy(rules, CommitOf(base), CommitOf(head), v, w, RequestOf(order))
  {
    AllowedIffPolicy(rules, CommitOf(base), CommitOf(head), RequestOf(order));
    if Permitted(rules, base, head, order) {
      var v, w := CommitOf(base).version.value, CommitOf(head).version.value;
      SaysIff(base, v);
      SaysIff(head, w);
    }
    forall v, w | Says(base, v) && Says(head, w) && Policy(rules, CommitOf(base), CommitOf(head), v, w, RequestOf(order))
      ensures Permitted(rules, base, head, order)
    {
      SaysIff(base, v);
      SaysIff(head, w);
    }
  }
}
