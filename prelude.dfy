/** Small shared vocabulary: optional values, results, and Python's list indexing. */
module Prelude {

  datatype Option<+T> = None | Some(value: T) {
    /** The value, or `default` when there is none (Python's `dict.pop(key, default)` shape). */
    function GetOr(default: T): T {
      match this
      case Some(v) => v
      case None => default
    }
  }

  /** A value or the exception the Python code raises instead of returning one. */
  datatype Result<+T, +E> = Success(value: T) | Failure(error: E)

  /** Python's `xs[k]` on a list: negative indices count from the end; None stands for IndexError. */
  function PyIndex<T>(xs: seq<T>, k: int): Option<T> {
    if 0 <= k < |xs| then Some(xs[k])
    else if -|xs| <= k < 0 then Some(xs[|xs| + k])
    else None
  }

  /** `xs[i]` as a term of its own: Distinct's quantifier fires only where a proof names one. */
  function At<T>(xs: seq<T>, i: int): T
    requires 0 <= i < |xs|
  {
    xs[i]
  }

  /** No element occurs twice (the keys of a dict, in insertion order). */
  predicate Distinct<T(==)>(xs: seq<T>) {
    forall i, j :: 0 <= i < j < |xs| ==> At(xs, i) != At(xs, j)
  }

  lemma DistinctByIndex<T>(xs: seq<T>)
    requires forall i, j :: 0 <= i < j < |xs| ==> xs[i] != xs[j]
    ensures Distinct(xs)
  {
  }

  /** One step of a loop over `xs`: element `i` leaves the suffix still to do and joins the prefix done. */
  lemma Advance<T>(xs: seq<T>, i: nat)
    requires i < |xs|
    ensures xs[i..][0] == xs[i] && xs[i..][1..] == xs[i + 1..]
    ensures xs[..i + 1] == xs[..i] + [xs[i]]
  {
  }

  /** The tail of a duplicate-free sequence is duplicate-free and does not hold its head. */
  lemma DistinctTail<T>(xs: seq<T>)
    requires Distinct(xs) && xs != []
    ensures Distinct(xs[1..]) && xs[0] !in xs[1..]
  {
    var t := xs[1..];
    forall i, j | 0 <= i < j < |t|
      ensures At(t, i) != At(t, j)
    {
      assert At(xs, i + 1) != At(xs, j + 1);
    }
    forall i | 0 <= i < |t|
      ensures t[i] != xs[0]
    {
      assert At(xs, 0) != At(xs, i + 1);
    }
  }

  /** The front of a duplicate-free sequence is duplicate-free and does not hold its last element. */
  lemma DistinctInit<T>(xs: seq<T>)
    requires Distinct(xs) && xs != []
    ensures Distinct(xs[..|xs| - 1]) && xs[|xs| - 1] !in xs[..|xs| - 1]
  {
    var f := xs[..|xs| - 1];
    forall i, j | 0 <= i < j < |f|
      ensures At(f, i) != At(f, j)
    {
      assert At(xs, i) != At(xs, j);
    }
    forall i | 0 <= i < |f|
      ensures f[i] != xs[|xs| - 1]
    {
      assert At(xs, i) != At(xs, |xs| - 1);
    }
  }

  /** Appending an element that is not there yet keeps a sequence duplicate-free. */
  lemma DistinctSnoc<T>(xs: seq<T>, x: T)
    requires Distinct(xs) && x !in xs
    ensures Distinct(xs + [x])
  {
    var ys := xs + [x];
    forall i, j | 0 <= i < j < |ys|
      ensures At(ys, i) != At(ys, j)
    {
      if j < |xs| {
        assert At(xs, i) != At(xs, j);
      } else {
        assert ys[i] == xs[i];
      }
    }
  }

  /** The element at `j` of a duplicate-free sequence occurs neither before nor after `j`. */
  lemma DistinctAround<T>(xs: seq<T>, j: nat)
    requires Distinct(xs) && j < |xs|
    ensures xs[j] !in xs[..j] && xs[j] !in xs[j + 1..]
  {
    forall i | 0 <= i < j
      ensures xs[i] != xs[j]
    {
      assert At(xs, i) != At(xs, j);
    }
    forall i | j < i < |xs|
      ensures xs[i] != xs[j]
    {
      assert At(xs, j) != At(xs, i);
    }
  }

  /** The strings of a list, as a set (Python's `x in xs` on a list). */
  function Elements(xs: seq<string>): (r: set<string>)
    ensures forall x :: x in r <==> x in xs
  {
    set x | x in xs
  }

  /** The strings of `xs` that are in `keep`, in their original order. */
  function KeepIn(xs: seq<string>, keep: set<string>): (r: seq<string>)
    ensures forall x :: x in r <==> x in xs && x in keep
    ensures |r| <= |xs|
  {
    if xs == [] then []
    else KeepIn(xs[..|xs| - 1], keep) + (if xs[|xs| - 1] in keep then [xs[|xs| - 1]] else [])
  }

  /** `xs` without the element `x` (Python's `del d[x]` on the key order of a dict). */
  function Remove(xs: seq<string>, x: string): (r: seq<string>)
    ensures forall y :: y in r <==> y in xs && y != x
  {
    if xs == [] then []
    else Remove(xs[..|xs| - 1], x) + (if xs[|xs| - 1] == x then [] else [xs[|xs| - 1]])
  }

  lemma {:induction false} KeepInDistinct(xs: seq<string>, keep: set<string>)
    requires Distinct(xs)
    ensures Distinct(KeepIn(xs, keep))
  {
    if xs != [] {
      var init := xs[..|xs| - 1];
      DistinctInit(xs);
      KeepInDistinct(init, keep);
      if xs[|xs| - 1] in keep {
        DistinctSnoc(KeepIn(init, keep), xs[|xs| - 1]);
      } else {
        assert KeepIn(xs, keep) == KeepIn(init, keep) + [] == KeepIn(init, keep);
      }
    }
  }

  lemma {:induction false} KeepInAll(xs: seq<string>, keep: set<string>)
    requires forall x :: x in xs ==> x in keep
    ensures KeepIn(xs, keep) == xs
  {
    if xs != [] {
      var init, last := xs[..|xs| - 1], xs[|xs| - 1];
      assert last in keep;
      KeepInAll(init, keep);
      assert KeepIn(xs, keep) == init + [last] == xs;
    }
  }

  lemma {:induction false} KeepInTwice(xs: seq<string>, a: set<string>, b: set<string>)
    ensures KeepIn(KeepIn(xs, a), b) == KeepIn(xs, a * b)
  {
    if xs != [] {
      var init := xs[..|xs| - 1];
      var last := xs[|xs| - 1];
      KeepInTwice(init, a, b);
      var ka := KeepIn(init, a);
      assert KeepIn(xs, a * b) == KeepIn(init, a * b) + (if last in a * b then [last] else []);
      if last in a {
        var s := ka + [last];
        assert KeepIn(xs, a) == s;
        assert s[..|s| - 1] == ka && s[|s| - 1] == last;
        assert KeepIn(s, b) == KeepIn(ka, b) + (if last in b then [last] else []);
      } else {
        assert KeepIn(xs, a) == ka + [];
        assert ka + [] == ka;
      }
    }
  }

  lemma {:induction false} RemoveMissing(xs: seq<string>, x: string)
    requires x !in xs
    ensures Remove(xs, x) == xs
  {
    if xs != [] {
      var init := xs[..|xs| - 1];
      RemoveMissing(init, x);
      assert init + [xs[|xs| - 1]] == xs;
    }
  }

  lemma {:induction false} RemoveAppend(a: seq<string>, b: seq<string>, x: string)
    ensures Remove(a + b, x) == Remove(a, x) + Remove(b, x)
  {
    if b != [] {
      var bi := b[..|b| - 1];
      assert (a + b)[..|a + b| - 1] == a + bi;
      RemoveAppend(a, bi, x);
    } else {
      assert a + b == a;
    }
  }
}
