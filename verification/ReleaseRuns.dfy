module ReleaseRuns {
  /** What the progression check guarantees along a whole run of commits, each checked against the one before. */

  import opened Common
  import opened ReleaseVersions
  import opened ReleaseProgression
  import opened StableRelease
  import opened VersionGrammar

  /** Every commit is allowed on top of the one before it, by its own VERSION file. */
  ghost predicate Run(rules: Rules, commits: seq<Commit>, requests: seq<Request>) {
    && |commits| == |requests| + 1
    && forall i {:trigger requests[i]} :: 0 <= i < |requests| ==>
         requests[i].argument.None? && Allowed(rules, commits[i], commits[i + 1], requests[i])
  }

  // ---- precedence of section 11 of SemVer 2.0.0

  function Rank(c: Channel): nat {
    match c
    case Alpha => 0
    case Beta => 1
    case Rc => 2
  }

  predicate Before3(a: (nat, nat, nat), b: (nat, nat, nat)) {
    a.0 < b.0 || (a.0 == b.0 && (a.1 < b.1 || (a.1 == b.1 && a.2 < b.2)))
  }

  function Train(v: Version): (nat, nat, nat) {
    (v.major, v.minor, v.patch)
  }

  predicate PrereleaseAtMost(v: Version, w: Version)
    requires v.channel.Some? && w.channel.Some?
  {
    Rank(v.channel.value) < Rank(w.channel.value)
    || (v.channel == w.channel && v.ordinal.value <= w.ordinal.value)
  }

  /** `v` has at most the precedence of `w`. */
  predicate AtMost(v: Version, w: Version) {
    Before3(Train(v), Train(w))
    || (Train(v) == Train(w) && (w.IsStable() || (!v.IsStable() && PrereleaseAtMost(v, w))))
  }

  lemma AtMostIsOrder(u: Version, v: Version, w: Version)
    ensures AtMost(v, v)
    ensures AtMost(u, v) && AtMost(v, w) ==> AtMost(u, w)
    ensures AtMost(u, v) && AtMost(v, u) ==> u == v
    ensures AtMost(u, v) || AtMost(v, u)
  {
  }

  // ---- one step of a run

  function VersionOf(c: Commit): Version {
    if c.version.Some? then c.version.value else ReleaseVersion(0, 0, 0, None, None)
  }

  lemma RunStep(rules: Rules, commits: seq<Commit>, requests: seq<Request>, i: nat)
    requires Run(rules, commits, requests) && i < |requests|
    ensures commits[i].version.Some? && commits[i + 1].version.Some?
    ensures Policy(rules, commits[i], commits[i + 1], VersionOf(commits[i]), VersionOf(commits[i + 1]), requests[i])
  {
    assert requests[i].argument.None?;
    AllowedIffPolicy(rules, commits[i], commits[i + 1], requests[i]);
  }

  /** The later commit has the same train, at least the version, and the channel unless it is stable; the
      earlier one is a prerelease; and if they carry the same version they have the same source. */
  ghost predicate Ordered(earlier: Commit, later: Commit) {
    && earlier.version.Some? && later.version.Some?
    && var v, w := earlier.version.value, later.version.value;
       && AtMost(v, w) && v.SameTrain(w)
       && !v.IsStable()
       && (w.channel == v.channel || w.IsStable())
       && (v == w ==> earlier.source.hashes == later.source.hashes)
  }

  lemma StepIsOrdered(rules: Rules, commits: seq<Commit>, requests: seq<Request>, i: nat)
    requires Run(rules, commits, requests) && i < |requests|
    ensures Ordered(commits[i], commits[i + 1])
  {
    RunStep(rules, commits, requests, i);
  }

  lemma OrderedIsTransitive(a: Commit, b: Commit, c: Commit)
    requires Ordered(a, b) && Ordered(b, c)
    ensures Ordered(a, c)
  {
    AtMostIsOrder(a.version.value, b.version.value, c.version.value);
    AtMostIsOrder(b.version.value, c.version.value, a.version.value);
  }

  // ---- whole runs

  /** Along a run the version never decreases; the release train is fixed; the channel changes only to
      stable; nothing follows a stable version; and two commits that carry the same version have the same
      executable source. */
  lemma {:induction false} RunIsMonotone(rules: Rules, commits: seq<Commit>, requests: seq<Request>, i: nat, j: nat)
    requires Run(rules, commits, requests) && i < j < |commits|
    ensures Ordered(commits[i], commits[j])
    decreases j
  {
    StepIsOrdered(rules, commits, requests, j - 1);
    if i < j - 1 {
      RunIsMonotone(rules, commits, requests, i, j - 1);
      OrderedIsTransitive(commits[i], commits[j - 1], commits[j]);
    }
  }

  /** The version with this ordinal is one of the commits from `i` to `j`, or is in the log of a step between. */
  ghost predicate Accounted(commits: seq<Commit>, requests: seq<Request>, i: nat, j: nat, v: Version)
    requires i <= j < |commits| == |requests| + 1
  {
    || (exists k :: i <= k <= j && VersionOf(commits[k]) == v)
    || (exists k :: i <= k < j && InLog(requests[k].log, v))
  }

  lemma AccountedGrows(commits: seq<Commit>, requests: seq<Request>, i: nat, j: nat, v: Version)
    requires i <= j < |requests| && |commits| == |requests| + 1
    requires Accounted(commits, requests, i, j, v) || VersionOf(commits[j + 1]) == v || InLog(requests[j].log, v)
    ensures Accounted(commits, requests, i, j + 1, v)
  {
  }

  /** `v` lies between `u` and `w` on the prerelease channel of `u`. */
  predicate Between(u: Version, v: Version, w: Version) {
    && !v.IsStable() && v.SameTrain(u) && v.channel == u.channel && !w.IsStable()
    && AtMost(u, v) && AtMost(v, w)
  }

  lemma BetweenSplits(u: Version, v: Version, w: Version, middle: Version)
    requires Between(u, v, w) && AtMost(u, middle) && AtMost(middle, w) && u.SameTrain(middle) && middle.SameTrain(w)
    ensures Between(u, v, middle) || Between(middle, v, w)
  {
  }

  lemma PolicyAccounts(rules: Rules, base: Commit, head: Commit, last: Version, next: Version, request: Request, v: Version)
    requires Policy(rules, base, head, last, next, request) && Between(last, v, next)
    ensures v == last || v == next || InLog(request.log, v)
  {
    assert v == last.(ordinal := Some(v.ordinal.value));
  }

  lemma StepAccounts(rules: Rules, commits: seq<Commit>, requests: seq<Request>, i: nat, v: Version)
    requires Run(rules, commits, requests) && i < |requests|
    requires Between(VersionOf(commits[i]), v, VersionOf(commits[i + 1]))
    ensures v == VersionOf(commits[i]) || v == VersionOf(commits[i + 1]) || InLog(requests[i].log, v)
  {
    RunStep(rules, commits, requests, i);
    PolicyAccounts(rules, commits[i], commits[i + 1], VersionOf(commits[i]), VersionOf(commits[i + 1]), requests[i], v);
  }

  /** No ordinal is lost: every version between two commits of a run was carried by a commit of the run or
      is preserved in the VERSION ancestry of one of its steps. */
  lemma {:induction false} NoOrdinalIsLost(
    rules: Rules, commits: seq<Commit>, requests: seq<Request>, i: nat, j: nat, v: Version)
    requires Run(rules, commits, requests) && i < j < |commits|
    requires Between(VersionOf(commits[i]), v, VersionOf(commits[j]))
    ensures Accounted(commits, requests, i, j, v)
    decreases j
  {
    if i == j - 1 {
      StepAccounts(rules, commits, requests, i, v);
    } else {
      StepIsOrdered(rules, commits, requests, j - 1);
      RunIsMonotone(rules, commits, requests, i, j - 1);
      BetweenSplits(VersionOf(commits[i]), v, VersionOf(commits[j]), VersionOf(commits[j - 1]));
      if Between(VersionOf(commits[i]), v, VersionOf(commits[j - 1])) {
        NoOrdinalIsLost(rules, commits, requests, i, j - 1, v);
        AccountedGrows(commits, requests, i, j - 1, v);
      } else {
        StepAccounts(rules, commits, requests, j - 1, v);
      }
    }
  }

  lemma PromotionRebuilds(rules: Rules, base: Commit, head: Commit, v: Version, w: Version, request: Request)
    requires Usable(rules.table) && Policy(rules, base, head, v, w, request) && w.IsStable()
    ensures forall p :: !Required(rules.table, p) ==> HashAt(base.source, p) == HashAt(head.source, p)
    ensures forall e :: 0 <= e < |rules.table| ==> Rebuilt(rules, rules.table[e], base.source, head.source, v, w)
  {
    StableIsReconstruction(rules, base.source, head.source, v, w);
  }

  /** A run ends at its first stable version, and that version's source is the last prerelease's with the
      version fields overwritten. */
  lemma StableEndsRun(rules: Rules, commits: seq<Commit>, requests: seq<Request>, j: nat)
    requires Usable(rules.table)
    requires Run(rules, commits, requests) && 0 < j < |commits| && VersionOf(commits[j]).IsStable()
    ensures j == |requests|
    ensures var base, head := commits[j - 1], commits[j];
      && (forall p :: !Required(rules.table, p) ==> HashAt(base.source, p) == HashAt(head.source, p))
      && (forall e :: 0 <= e < |rules.table| ==>
            Rebuilt(rules, rules.table[e], base.source, head.source, VersionOf(base), VersionOf(head)))
  {
    if j < |requests| {
      StepIsOrdered(rules, commits, requests, j);
    }
    RunStep(rules, commits, requests, j - 1);
    PromotionRebuilds(rules, commits[j - 1], commits[j], VersionOf(commits[j - 1]), VersionOf(commits[j]), requests[j - 1]);
  }

  // ---- runs of trees

  function CommitsOf(trees: seq<Tree>): (r: seq<Commit>)
    ensures |r| == |trees| && forall i :: 0 <= i < |trees| ==> r[i] == CommitOf(trees[i])
  {
    seq(|trees|, i requires 0 <= i < |trees| => CommitOf(trees[i]))
  }

  function RequestsOf(orders: seq<Order>): (r: seq<Request>)
    ensures |r| == |orders| && forall i :: 0 <= i < |orders| ==> r[i] == RequestOf(orders[i])
  {
    seq(|orders|, i requires 0 <= i < |orders| => RequestOf(orders[i]))
  }

  /** Every tree is permitted on top of the one before it, by its own VERSION text. */
  ghost predicate TreeRun(rules: Rules, trees: seq<Tree>, orders: seq<Order>) {
    && |trees| == |orders| + 1
    && forall i {:trigger orders[i]} :: 0 <= i < |orders| ==>
         orders[i].argument.None? && Permitted(rules, trees[i], trees[i + 1], orders[i])
  }

  lemma TreesRun(rules: Rules, trees: seq<Tree>, orders: seq<Order>)
    requires TreeRun(rules, trees, orders)
    ensures Run(rules, CommitsOf(trees), RequestsOf(orders))
  {
    var commits, requests := CommitsOf(trees), RequestsOf(orders);
    forall i {:trigger requests[i]} | 0 <= i < |requests|
      ensures requests[i].argument.None? && Allowed(rules, commits[i], commits[i + 1], requests[i])
    {
      assert orders[i].argument.None?;
    }
  }

  /** Along a run of trees the version their VERSION texts say never falls, keeps its train, and changes its
      channel only to stable; and two trees that say the same version have the same executable source. */
  lemma TextsAreMonotone(rules: Rules, trees: seq<Tree>, orders: seq<Order>, i: nat, j: nat, v: Version, w: Version)
    requires TreeRun(rules, trees, orders) && i < j < |trees|
    requires Says(trees[i], v) && Says(trees[j], w)
    ensures AtMost(v, w) && v.SameTrain(w) && !v.IsStable() && (w.channel == v.channel || w.IsStable())
    ensures Strip(trees[i].text.value) == Strip(trees[j].text.value) ==>
      trees[i].source.hashes == trees[j].source.hashes
  {
    TreesRun(rules, trees, orders);
    RunIsMonotone(rules, CommitsOf(trees), RequestsOf(orders), i, j);
    SaysIff(trees[i], v);
    SaysIff(trees[j], w);
    if Strip(trees[i].text.value) == Strip(trees[j].text.value) {
      WritesIff(Strip(trees[i].text.value), v);
      WritesIff(Strip(trees[j].text.value), w);
      PrintIsInjective(v, w);
    }
  }
}
