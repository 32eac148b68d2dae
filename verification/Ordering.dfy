/** Python's order of strings, and `sorted` on a set of them. */
module Ordering {
  predicate Precedes(a: string, b: string) {
    a == "" || (b != "" && (a[0] < b[0] || (a[0] == b[0] && Precedes(a[1..], b[1..]))))
  }

  lemma {:induction false} PrecedesIsTotal(a: string, b: string)
    ensures Precedes(a, b) || Precedes(b, a)
    ensures Precedes(a, b) && Precedes(b, a) ==> a == b
    decreases |a|
  {
    if a != "" && b != "" && a[0] == b[0] {
      PrecedesIsTotal(a[1..], b[1..]);
      assert a == [a[0]] + a[1..] && b == [b[0]] + b[1..];
    }
  }

  lemma {:induction false} PrecedesIsTransitive(a: string, b: string, c: string)
    requires Precedes(a, b) && Precedes(b, c)
    ensures Precedes(a, c)
    decreases |a|
  {
    if a != "" && a[0] == b[0] && b[0] == c[0] {
      PrecedesIsTransitive(a[1..], b[1..], c[1..]);
    }
  }

  predicate IsFirst(x: string, paths: set<string>) {
    x in paths && forall y | y in paths :: Precedes(x, y)
  }

  lemma FirstOfMore(x: string, z: string, rest: set<string>)
    requires IsFirst(x, rest)
    ensures IsFirst(if Precedes(x, z) then x else z, rest + {z})
  {
    PrecedesIsTotal(x, z);
    PrecedesIsTotal(z, z);
    var w := if Precedes(x, z) then x else z;
    forall y | y in rest + {z}
      ensures Precedes(w, y)
    {
      if y in rest && w == z {
        PrecedesIsTransitive(z, x, y);
      }
    }
  }

  lemma {:induction false} FirstExists(paths: set<string>) returns (x: string)
    requires paths != {}
    ensures IsFirst(x, paths)
    decreases |paths|
  {
    var z :| z in paths;
    var rest := paths - {z};
    if rest == {} {
      assert paths == {z};
      PrecedesIsTotal(z, z);
      x := z;
    } else {
      x := FirstExists(rest);
      FirstOfMore(x, z, rest);
      assert rest + {z} == paths;
      x := if Precedes(x, z) then x else z;
    }
  }

  lemma FirstIsUnique(paths: set<string>)
    ensures forall x, y :: IsFirst(x, paths) && IsFirst(y, paths) ==> x == y
  {
    forall x, y | IsFirst(x, paths) && IsFirst(y, paths)
      ensures x == y
    {
      PrecedesIsTotal(x, y);
    }
  }

  function First(paths: set<string>): (x: string)
    requires paths != {}
    ensures IsFirst(x, paths)
  {
    assert exists x :: IsFirst(x, paths) by {
      var x := FirstExists(paths);
    }
    FirstIsUnique(paths);
    var x :| x in paths && IsFirst(x, paths);
    x
  }

  /** `sorted(paths)` */
  function Sorted(paths: set<string>): (s: seq<string>)
    ensures forall p :: p in s <==> p in paths
    ensures forall i, j :: 0 <= i < j < |s| ==> s[i] != s[j]
    decreases |paths|
  {
    if paths == {} then []
    else
      var x := First(paths);
      [x] + Sorted(paths - {x})
  }

  lemma SortedStep(paths: set<string>)
    requires paths != {}
    ensures Sorted(paths) == [First(paths)] + Sorted(paths - {First(paths)})
  {
  }

  lemma FirstIsFirst(paths: set<string>, j: nat)
    requires paths != {} && j < |Sorted(paths)|
    ensures Precedes(First(paths), Sorted(paths)[j])
  {
    assert Sorted(paths)[j] in paths;
  }

  lemma SortedOfNone(paths: set<string>)
    requires |Sorted(paths)| > 0
    ensures paths != {}
  {
  }

  lemma TailAt(s: seq<string>, x: string, rest: seq<string>, i: nat, j: nat)
    requires s == [x] + rest && 0 < i < j < |s|
    ensures j - 1 < |rest| && rest[i - 1] == s[i] && rest[j - 1] == s[j]
  {
  }

  /** It is in order: every path precedes all that follow it. */
  lemma {:induction false} SortedIsOrdered(paths: set<string>, i: nat, j: nat)
    requires i < j < |Sorted(paths)|
    ensures Precedes(Sorted(paths)[i], Sorted(paths)[j])
    decreases i
  {
    SortedOfNone(paths);
    SortedStep(paths);
    if i == 0 {
      FirstIsFirst(paths, j);
    } else {
      var x := First(paths);
      TailAt(Sorted(paths), x, Sorted(paths - {x}), i, j);
      SortedIsOrdered(paths - {x}, i - 1, j - 1);
    }
  }

  lemma FirstAgrees(a: string, b: string, k: int)
    requires 0 < k <= |a| && k <= |b| && a[..k] == b[..k]
    ensures a[0] == b[0]
  {
    assert a[..k][0] == a[0] && b[..k][0] == b[0];
  }

  /** Python's order: a prefix comes first, and otherwise the first difference decides. */
  lemma {:induction false} PrecedesIff(a: string, b: string)
    ensures Precedes(a, b) <==>
      a <= b || exists k: int :: 0 <= k < |a| && k < |b| && a[..k] == b[..k] && a[k] < b[k]
    decreases |a|
  {
    if a != "" && b != "" && a[0] == b[0] {
      PrecedesIff(a[1..], b[1..]);
      assert a == [a[0]] + a[1..] && b == [b[0]] + b[1..];
      if k: int :| 0 <= k < |a[1..]| && k < |b[1..]| && a[1..][..k] == b[1..][..k] && a[1..][k] < b[1..][k] {
        assert a[..k + 1] == [a[0]] + a[1..][..k] && b[..k + 1] == [b[0]] + b[1..][..k];
        assert a[k + 1] < b[k + 1];
      }
      if k: int :| 0 <= k < |a| && k < |b| && a[..k] == b[..k] && a[k] < b[k] {
        assert a[1..][..k - 1] == a[..k][1..] && b[1..][..k - 1] == b[..k][1..];
        assert a[1..][k - 1] < b[1..][k - 1];
      }
      assert a <= b <==> a[1..] <= b[1..];
    } else if a != "" && b != "" {
      if a[0] < b[0] {
        assert a[..0] == b[..0];
      }
      if k: int :| 0 <= k < |a| && k < |b| && a[..k] == b[..k] && a[k] < b[k] {
        if k > 0 {
          FirstAgrees(a, b, k);
        }
      }
    }
  }
}
