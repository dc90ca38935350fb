/** Order-preserving selection and element-wise mapping over sequences,
    the two list-comprehension shapes the scripts use throughout. */
module Seqs {

  /** The elements of `s` that satisfy `p`, in their original order
      (a Python `[x for x in s if p(x)]`). Throughout the model, the
      predicates passed here are zero-argument functions returning a
      lambda (`IsTracked()`, `Built()`, `IsOption()`, ...), so that every
      contract and lemma names the same function value the filter was
      given. */
  function Filter<T(!new)>(p: T -> bool, s: seq<T>): (r: seq<T>)
    ensures |r| <= |s|
    ensures forall x :: x in r <==> x in s && p(x)
    ensures forall k :: 0 <= k < |r| ==> p(r[k])
  {
    if |s| == 0 then []
    else if p(s[|s| - 1]) then Filter(p, s[..|s| - 1]) + [s[|s| - 1]]
    else Filter(p, s[..|s| - 1])
  }

  /** `f` applied to every element of `s`, in order. */
  function Map<A, B>(f: A -> B, s: seq<A>): (r: seq<B>)
    ensures |r| == |s|
    ensures forall k :: 0 <= k < |s| ==> r[k] == f(s[k])
  {
    seq(|s|, k requires 0 <= k < |s| => f(s[k]))
  }

  /** Selection distributes over concatenation: the survivors of `a + b`
      are those of `a` followed by those of `b`, so order is kept. */
  lemma {:induction false} FilterConcat<T(!new)>(p: T -> bool, a: seq<T>, b: seq<T>)
    ensures Filter(p, a + b) == Filter(p, a) + Filter(p, b)
    decreases |b|
  {
    if |b| == 0 {
      assert a + b == a;
    } else {
      var b' := b[..|b| - 1];
      var x := b[|b| - 1];
      assert (a + b)[..|a + b| - 1] == a + b';
      assert (a + b)[|a + b| - 1] == x;
      FilterConcat(p, a, b');
      if p(x) {
        calc {
          Filter(p, a + b);
          Filter(p, a + b') + [x];
          Filter(p, a) + Filter(p, b') + [x];
          Filter(p, a) + (Filter(p, b') + [x]);
        }
      }
    }
  }

  /** Appending one element adds it to the survivors exactly when it passes. */
  lemma FilterSnoc<T(!new)>(p: T -> bool, s: seq<T>, x: T)
    ensures Filter(p, s + [x]) == if p(x) then Filter(p, s) + [x] else Filter(p, s)
  {
  }

  /** Every element that passes keeps all its occurrences and every element
      that fails loses all of them: nothing is dropped, nothing duplicated. */
  lemma {:induction false} FilterCount<T(!new)>(p: T -> bool, s: seq<T>, x: T)
    ensures multiset(Filter(p, s))[x] == if p(x) then multiset(s)[x] else 0
    decreases |s|
  {
    if |s| > 0 {
      var s' := s[..|s| - 1];
      var y := s[|s| - 1];
      assert s == s' + [y];
      FilterCount(p, s', x);
    }
  }

  /** A property holding for every pair of positions in order (such as
      strictly increasing timestamps) survives selection. */
  lemma {:induction false} FilterPairwise<T(!new)>(p: T -> bool, lt: (T, T) -> bool, s: seq<T>)
    requires forall i, j :: 0 <= i < j < |s| ==> lt(s[i], s[j])
    ensures forall i, j :: 0 <= i < j < |Filter(p, s)| ==> lt(Filter(p, s)[i], Filter(p, s)[j])
    decreases |s|
  {
    if |s| > 0 {
      var s' := s[..|s| - 1];
      var y := s[|s| - 1];
      FilterPairwise(p, lt, s');
      var r' := Filter(p, s');
      if p(y) {
        var r := Filter(p, s);
        assert r == r' + [y];
        forall i, j | 0 <= i < j < |r|
          ensures lt(r[i], r[j])
        {
          if j == |r| - 1 {
            assert r[i] in s';
            var k :| 0 <= k < |s'| && s'[k] == r[i];
            assert s[k] == r[i] && s[|s| - 1] == y;
          } else {
            assert r[i] == r'[i] && r[j] == r'[j];
          }
        }
      }
    }
  }

  /** Mapping distributes over concatenation. */
  lemma MapConcat<A, B>(f: A -> B, a: seq<A>, b: seq<A>)
    ensures Map(f, a + b) == Map(f, a) + Map(f, b)
  {
  }
}
