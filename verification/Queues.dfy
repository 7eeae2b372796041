/** The edits the source makes to a list, on sequences. */
module Queues {
  function Insert<T>(queue: seq<T>, at: nat, e: T): seq<T>
    requires at <= |queue|
  {
    queue[..at] + [e] + queue[at..]
  }

  function Without<T>(queue: seq<T>, at: nat): seq<T>
    requires at < |queue|
  {
    queue[..at] + queue[at + 1..]
  }

  lemma InsertLength<T>(queue: seq<T>, at: nat, e: T)
    requires at <= |queue|
    ensures |Insert(queue, at, e)| == |queue| + 1
  {
  }

  /** whole is a and b merged, both in order. */
  predicate Merged<T(==)>(whole: seq<T>, a: seq<T>, b: seq<T>) {
    if whole == [] then a == [] && b == []
    else
      var n, last := |whole| - 1, whole[|whole| - 1];
      || (a != [] && a[|a| - 1] == last && Merged(whole[..n], a[..|a| - 1], b))
      || (b != [] && b[|b| - 1] == last && Merged(whole[..n], a, b[..|b| - 1]))
  }

  lemma MergedLeft<T>(whole: seq<T>, a: seq<T>, b: seq<T>, e: T)
    requires Merged(whole, a, b)
    ensures Merged(whole + [e], a + [e], b)
  {
    assert (whole + [e])[..|whole|] == whole && (a + [e])[..|a|] == a;
  }

  lemma MergedRight<T>(whole: seq<T>, a: seq<T>, b: seq<T>, e: T)
    requires Merged(whole, a, b)
    ensures Merged(whole + [e], a, b + [e])
  {
    assert (whole + [e])[..|whole|] == whole && (b + [e])[..|b|] == b;
  }

  lemma {:induction false} MergedRest<T>(whole: seq<T>, a: seq<T>, b: seq<T>, rest: seq<T>)
    requires Merged(whole, a, b)
    ensures Merged(whole + rest, a + rest, b)
    decreases |rest|
  {
    if rest == [] {
      assert whole + rest == whole && a + rest == a;
    } else {
      var n, e := |rest| - 1, rest[|rest| - 1];
      MergedRest(whole, a, b, rest[..n]);
      MergedLeft(whole + rest[..n], a + rest[..n], b, e);
      assert rest == rest[..n] + [e];
      assert whole + rest[..n] + [e] == whole + rest && a + rest[..n] + [e] == a + rest;
    }
  }

  lemma {:induction false} MergedLength<T>(whole: seq<T>, a: seq<T>, b: seq<T>)
    requires Merged(whole, a, b)
    ensures |whole| == |a| + |b|
    decreases |whole|
  {
    if whole != [] {
      var n, last := |whole| - 1, whole[|whole| - 1];
      if a != [] && a[|a| - 1] == last && Merged(whole[..n], a[..|a| - 1], b) {
        MergedLength(whole[..n], a[..|a| - 1], b);
      } else {
        MergedLength(whole[..n], a, b[..|b| - 1]);
      }
    }
  }

  // ----- sums over a list -----

  function Sum<T>(s: seq<T>, f: T -> nat): nat {
    if s == [] then 0 else Sum(s[..|s| - 1], f) + f(s[|s| - 1])
  }

  lemma {:induction false} SumConcat<T>(a: seq<T>, b: seq<T>, f: T -> nat)
    ensures Sum(a + b, f) == Sum(a, f) + Sum(b, f)
    decreases |b|
  {
    if b == [] { assert a + b == a; return; }
    assert (a + b)[..|a + b| - 1] == a + b[..|b| - 1];
    SumConcat(a, b[..|b| - 1], f);
  }

  lemma {:induction false} SumMerged<T>(whole: seq<T>, a: seq<T>, b: seq<T>, f: T -> nat)
    requires Merged(whole, a, b)
    ensures Sum(whole, f) == Sum(a, f) + Sum(b, f)
    decreases |whole|
  {
    if whole != [] {
      var n, last := |whole| - 1, whole[|whole| - 1];
      if a != [] && a[|a| - 1] == last && Merged(whole[..n], a[..|a| - 1], b) {
        SumMerged(whole[..n], a[..|a| - 1], b, f);
      } else {
        SumMerged(whole[..n], a, b[..|b| - 1], f);
      }
    }
  }

  /** Merged with nothing it is the other one. */
  lemma {:induction false} MergedNothing<T>(whole: seq<T>, b: seq<T>)
    requires Merged(whole, [], b)
    ensures whole == b
    decreases |whole|
  {
    if whole != [] {
      var n := |whole| - 1;
      MergedNothing(whole[..n], b[..|b| - 1]);
      assert whole == whole[..n] + [whole[n]] && b == b[..|b| - 1] + [b[|b| - 1]];
    }
  }

  lemma {:induction false} MergedAlone<T>(whole: seq<T>, a: seq<T>)
    requires Merged(whole, a, [])
    ensures whole == a
    decreases |whole|
  {
    if whole != [] {
      var n := |whole| - 1;
      MergedAlone(whole[..n], a[..|a| - 1]);
      assert whole == whole[..n] + [whole[n]] && a == a[..|a| - 1] + [a[|a| - 1]];
    }
  }

  lemma SumMore<T>(s: seq<T>, e: T, f: T -> nat)
    ensures Sum(s + [e], f) == Sum(s, f) + f(e)
  {
    assert (s + [e])[..|s|] == s;
  }

  lemma SumOne<T>(e: T, f: T -> nat)
    ensures Sum([e], f) == f(e)
  {
    assert Sum([], f) == 0;
    assert [e][..0] == [];
  }

  lemma SumInsert<T>(s: seq<T>, at: nat, e: T, f: T -> nat)
    requires at <= |s|
    ensures Sum(Insert(s, at, e), f) == Sum(s, f) + f(e)
  {
    assert s == s[..at] + s[at..];
    SumConcat(s[..at], s[at..], f);
    SumConcat(s[..at], [e], f);
    SumConcat(s[..at] + [e], s[at..], f);
    SumOne(e, f);
  }

  lemma WithoutInserted<T>(s: seq<T>, at: nat)
    requires at < |s|
    ensures at <= |Without(s, at)| && Insert(Without(s, at), at, s[at]) == s
  {
  }

  lemma SumWithout<T>(s: seq<T>, at: nat, f: T -> nat)
    requires at < |s|
    ensures Sum(s, f) == Sum(Without(s, at), f) + f(s[at])
  {
    WithoutInserted(s, at);
    hide Sum, Insert, Without;
    SumInsert(Without(s, at), at, s[at], f);
  }
}
