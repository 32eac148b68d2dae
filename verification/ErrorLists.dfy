/** Error lists gathered item by item. */
module ErrorLists {
  /** `before`, then what each of the first `k` items adds. */
  function Gather<P>(problemsAt: nat -> seq<P>, before: seq<P>, k: nat): seq<P> {
    if k == 0 then before else Gather(problemsAt, before, k - 1) + problemsAt(k - 1)
  }

  /** Each item adds no problem exactly when it extends the good prefix. */
  ghost predicate Extends<P(!new)>(problemsAt: nat -> seq<P>, good: nat -> bool, n: nat) {
    && good(0)
    && forall k: nat {:trigger problemsAt(k)} :: k < n ==>
         (good(k + 1) ==> good(k)) && (good(k) ==> (problemsAt(k) == [] <==> good(k + 1)))
  }

  lemma {:induction false} GatherIff<P(!new)>(problemsAt: nat -> seq<P>, good: nat -> bool, before: seq<P>, n: nat, k: nat)
    requires Extends(problemsAt, good, n) && k <= n
    ensures Gather(problemsAt, before, k) == [] <==> before == [] && good(k)
    decreases k
  {
    if k > 0 {
      GatherIff(problemsAt, good, before, n, k - 1);
      assert problemsAt(k - 1) == problemsAt(k - 1);
    }
  }

  lemma {:induction false} GatherKeeps<P>(problemsAt: nat -> seq<P>, before: seq<P>, k: nat)
    ensures |before| <= |Gather(problemsAt, before, k)|
  {
    if k > 0 {
      GatherKeeps(problemsAt, before, k - 1);
    }
  }

  /** The problems whose condition holds, in order. */
  function Flagged<P>(flags: seq<(bool, P)>): seq<P> {
    if flags == [] then []
    else
      var front, last := Flagged(flags[..|flags| - 1]), flags[|flags| - 1];
      if last.0 then front + [last.1] else front
  }

  lemma FlaggedSnoc<P>(flags: seq<(bool, P)>, flag: bool, problem: P)
    ensures Flagged(flags + [(flag, problem)]) == Flagged(flags) + if flag then [problem] else []
  {
    assert (flags + [(flag, problem)])[..|flags|] == flags;
  }

  lemma {:induction false} FlaggedIff<P>(flags: seq<(bool, P)>)
    ensures Flagged(flags) == [] <==> forall i :: 0 <= i < |flags| ==> !flags[i].0
  {
    if flags != [] {
      FlaggedIff(flags[..|flags| - 1]);
    }
  }
}
