/** Generic facts about sequences: filtering, order-preserving sub-sequences and
    de-duplication by first appearance. */
module Seqs {
  import opened Wrappers

  /** The elements of `s` that satisfy `p`, in their order in `s`. */
  function Filter<T>(p: T -> bool, s: seq<T>): (r: seq<T>)
    ensures |r| <= |s|
  {
    if s == [] then []
    else (if p(s[0]) then [s[0]] else []) + Filter(p, s[1..])
  }

  /** The filtered list holds exactly the elements of `s` that satisfy `p`. */
  lemma {:induction false} FilterMembers<T>(p: T -> bool, s: seq<T>)
    ensures forall x | x in Filter(p, s) :: x in s && p(x)
    ensures forall i | 0 <= i < |s| && p(s[i]) :: s[i] in Filter(p, s)
  {
    if s != [] {
      FilterMembers(p, s[1..]);
      assert forall i | 1 <= i < |s| :: s[i] == s[1..][i - 1];
    }
  }

  /** Filtering a list extended by one element extends the filtered list by at most that element. */
  lemma {:induction false} FilterSnoc<T>(p: T -> bool, s: seq<T>, x: T)
    ensures Filter(p, s + [x]) == Filter(p, s) + (if p(x) then [x] else [])
    decreases |s|
  {
    if s != [] {
      FilterSnoc(p, s[1..], x);
      assert (s + [x])[1..] == s[1..] + [x];
    }
  }

  /** `sub` can be obtained from `s` by deleting elements: it keeps their relative order. */
  ghost predicate Embeds<T>(sub: seq<T>, s: seq<T>)
    decreases |s|
  {
    sub == [] ||
    (s != [] && ((sub[0] == s[0] && Embeds(sub[1..], s[1..])) || Embeds(sub, s[1..])))
  }

  lemma {:induction false} FilterEmbeds<T>(p: T -> bool, s: seq<T>)
    ensures Embeds(Filter(p, s), s)
    decreases |s|
  {
    if s != [] {
      FilterEmbeds(p, s[1..]);
      var rest := Filter(p, s[1..]);
      if p(s[0]) {
        assert Filter(p, s) == [s[0]] + rest;
        assert ([s[0]] + rest)[1..] == rest;
      } else {
        assert Filter(p, s) == rest;
      }
    }
  }

  /** No value occurs twice. */
  predicate NoDup<T(==)>(s: seq<T>)
  {
    forall i, j | 0 <= i < j < |s| :: s[i] != s[j]
  }

  /** The position of the first occurrence of `x` in `s`. */
  function First<T(==)>(s: seq<T>, x: T): (i: nat)
    requires x in s
    ensures i < |s| && s[i] == x
    ensures forall j | 0 <= j < i :: s[j] != x
  {
    if s[0] == x then 0 else 1 + First(s[1..], x)
  }

  /** The distinct values of `s`, each once, in order of first appearance
      (the effect of appending a value to a list only when it is not yet in it). */
  function Dedup<T(==)>(s: seq<T>): (r: seq<T>)
  {
    if s == [] then []
    else
      var d := Dedup(s[..|s| - 1]);
      if s[|s| - 1] in d then d else d + [s[|s| - 1]]
  }

  lemma {:induction false} FirstOfPrefix<T>(s: seq<T>, x: T, y: T)
    requires y in s
    ensures First(s + [x], y) == First(s, y)
  {
    var i := First(s, y);
    var k := First(s + [x], y);
    assert (s + [x])[i] == y;
  }

  /** Dedup keeps exactly the values of `s`, each once, ordered by where each first appears. */
  lemma {:induction false} DedupSpec<T>(s: seq<T>)
    ensures forall x | x in Dedup(s) :: x in s
    ensures forall i | 0 <= i < |s| :: s[i] in Dedup(s)
    ensures NoDup(Dedup(s))
    ensures forall i, j | 0 <= i < j < |Dedup(s)| :: First(s, Dedup(s)[i]) < First(s, Dedup(s)[j])
  {
    if s != [] {
      var init, last := s[..|s| - 1], s[|s| - 1];
      assert s == init + [last];
      DedupSpec(init);
      var d := Dedup(init);
      forall y | y in init ensures First(s, y) == First(init, y) {
        FirstOfPrefix(init, last, y);
      }
      if last !in d {
        assert last !in init;
        assert First(s, last) == |s| - 1;
        var r := d + [last];
        forall i, j | 0 <= i < j < |r| ensures First(s, r[i]) < First(s, r[j]) {
          assert r[i] == d[i] && r[i] in init;
          if j < |d| {
            assert r[j] == d[j] && r[j] in init;
          } else {
            assert First(s, r[i]) == First(init, r[i]) < |init|;
          }
        }
      }
    }
  }

  /** Filtering a duplicate-free list leaves it duplicate-free. */
  lemma {:induction false} FilterNoDup<T>(p: T -> bool, s: seq<T>)
    requires NoDup(s)
    ensures NoDup(Filter(p, s))
    decreases |s|
  {
    if s != [] {
      assert NoDup(s[1..]);
      FilterNoDup(p, s[1..]);
      FilterMembers(p, s[1..]);
      assert s[0] !in s[1..];
    }
  }

  /** Applies `f` to every element in order, stopping at the first failure. */
  function MapAll<T, U, E>(f: T --> Result<U, E>, xs: seq<T>): Result<seq<U>, E>
    requires forall i | 0 <= i < |xs| :: f.requires(xs[i])
  {
    if xs == [] then Success([])
    else
      match MapAll(f, xs[..|xs| - 1])
      case Failure(e) => Failure(e)
      case Success(done) =>
        match f(xs[|xs| - 1])
        case Failure(e) => Failure(e)
        case Success(y) => Success(done + [y])
  }

  /** `MapAll` succeeds exactly when `f` succeeds on every element, and then lists the results
      one for one. */
  lemma {:induction false} MapAllSucceeds<T, U, E>(f: T --> Result<U, E>, xs: seq<T>)
    requires forall i | 0 <= i < |xs| :: f.requires(xs[i])
    ensures MapAll(f, xs).Success? <==> forall i | 0 <= i < |xs| :: f(xs[i]).Success?
    ensures MapAll(f, xs).Success? ==>
            |MapAll(f, xs).value| == |xs| &&
            forall i | 0 <= i < |xs| :: MapAll(f, xs).value[i] == f(xs[i]).value
  {
    if xs != [] {
      var init := xs[..|xs| - 1];
      assert forall i | 0 <= i < |init| :: init[i] == xs[i];
      MapAllSucceeds(f, init);
    }
  }

  /** When `MapAll` fails, it reports the failure of the first element `f` fails on. */
  lemma {:induction false} MapAllFirstError<T, U, E>(f: T --> Result<U, E>, xs: seq<T>)
    requires forall i | 0 <= i < |xs| :: f.requires(xs[i])
    requires MapAll(f, xs).Failure?
    ensures exists i | 0 <= i < |xs| ::
              && (forall j | 0 <= j < i :: f(xs[j]).Success?)
              && f(xs[i]).Failure?
              && MapAll(f, xs) == Failure(f(xs[i]).error)
  {
    var n := |xs|;
    var init := xs[..n - 1];
    assert forall i | 0 <= i < n - 1 :: init[i] == xs[i];
    if MapAll(f, init).Failure? {
      MapAllFirstError(f, init);
      var i :| 0 <= i < |init| && (forall j | 0 <= j < i :: f(init[j]).Success?) && f(init[i]).Failure?
               && MapAll(f, init) == Failure(f(init[i]).error);
      assert forall j | 0 <= j < i :: f(xs[j]).Success?;
    } else {
      MapAllSucceeds(f, init);
      assert forall j | 0 <= j < n - 1 :: f(xs[j]).Success?;
    }
  }

  /** Once a prefix fails, every longer prefix fails the same way. */
  lemma {:induction false} MapAllSticks<T, U, E>(f: T --> Result<U, E>, xs: seq<T>, k: nat, n: nat)
    requires k <= n <= |xs|
    requires forall i | 0 <= i < |xs| :: f.requires(xs[i])
    requires MapAll(f, xs[..k]).Failure?
    ensures MapAll(f, xs[..n]) == MapAll(f, xs[..k])
    decreases n
  {
    if n > k {
      MapAllSticks(f, xs, k, n - 1);
      assert xs[..n][..n - 1] == xs[..n - 1];
    }
  }

  /** One more element that `f` maps successfully extends a successful run by its result. */
  lemma MapAllStep<T, U, E>(f: T --> Result<U, E>, xs: seq<T>, i: nat, ys: seq<U>, y: U)
    requires i < |xs|
    requires forall j | 0 <= j < |xs| :: f.requires(xs[j])
    requires MapAll(f, xs[..i]) == Success(ys)
    requires f(xs[i]) == Success(y)
    ensures MapAll(f, xs[..i + 1]) == Success(ys + [y])
  {
    assert xs[..i + 1][..i] == xs[..i];
  }

  /** Overwriting element `i` with its result keeps a list that holds the results before `i`
      and the inputs from `i` on in that shape, one position further. */
  lemma MapAllInPlace<T, E>(f: T --> Result<T, E>, xs: seq<T>, ys: seq<T>, i: nat, y: T)
    requires i < |xs| == |ys|
    requires forall j | 0 <= j < |xs| :: f.requires(xs[j])
    requires forall j | i <= j < |xs| :: ys[j] == xs[j]
    requires MapAll(f, xs[..i]) == Success(ys[..i])
    requires f(xs[i]) == Success(y)
    ensures forall j | i + 1 <= j < |xs| :: ys[i := y][j] == xs[j]
    ensures MapAll(f, xs[..i + 1]) == Success(ys[i := y][..i + 1])
  {
    MapAllStep(f, xs, i, ys[..i], y);
    assert ys[i := y][..i + 1] == ys[..i] + [y];
  }

  /** The whole run fails with an element's error when it is the first to fail. */
  lemma MapAllStopAt<T, U, E>(f: T --> Result<U, E>, xs: seq<T>, i: nat, e: E)
    requires i < |xs|
    requires forall j | 0 <= j < |xs| :: f.requires(xs[j])
    requires MapAll(f, xs[..i]).Success?
    requires f(xs[i]) == Failure(e)
    ensures MapAll(f, xs) == Failure(e)
  {
    assert xs[..i + 1][..i] == xs[..i];
    MapAllSticks(f, xs, i + 1, |xs|);
    assert xs[..|xs|] == xs;
  }

  /** Threads a state through `f` over `xs` in order, stopping at the first failure. */
  function Fold<S, T, E>(f: (S, T) -> Result<S, E>, s: S, xs: seq<T>): Result<S, E>
  {
    if xs == [] then Success(s)
    else
      match Fold(f, s, xs[..|xs| - 1])
      case Failure(e) => Failure(e)
      case Success(t) => f(t, xs[|xs| - 1])
  }

  /** One more step of a fold that has not failed yet applies `f` once more. */
  lemma FoldStep<S, T, E>(f: (S, T) -> Result<S, E>, s: S, xs: seq<T>, n: nat, t: S)
    requires n < |xs|
    requires Fold(f, s, xs[..n]) == Success(t)
    ensures Fold(f, s, xs[..n + 1]) == f(t, xs[n])
  {
    assert xs[..n + 1][..n] == xs[..n];
  }

  /** Once a prefix of a fold fails, the whole fold fails the same way. */
  lemma {:induction false} FoldSticks<S, T, E>(f: (S, T) -> Result<S, E>, s: S, xs: seq<T>, k: nat)
    requires k <= |xs|
    requires Fold(f, s, xs[..k]).Failure?
    ensures Fold(f, s, xs) == Fold(f, s, xs[..k])
    decreases |xs|
  {
    if k < |xs| {
      var init := xs[..|xs| - 1];
      assert init[..k] == xs[..k];
      FoldSticks(f, s, init, k);
    } else {
      assert xs[..k] == xs;
    }
  }
}
