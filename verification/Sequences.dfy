/** Sequences: concatenation is associative, and sums over the elements. */
module Sequences {

  lemma Associates<T>(a: seq<T>, b: seq<T>, c: seq<T>)
    ensures (a + b) + c == a + (b + c)
  {
  }

  lemma CountConcat<T>(a: seq<T>, b: seq<T>, x: T)
    ensures multiset(a + b)[x] == multiset(a)[x] + multiset(b)[x]
  {
  }

  /** Induction over the natural numbers. */
  predicate Carries(p: nat -> bool, m: nat) {
    p(m) ==> p(m + 1)
  }

  lemma {:induction false} Throughout(p: nat -> bool, since: nat, n: nat)
    requires since <= n && p(since) && forall m: nat :: since <= m < n ==> Carries(p, m)
    ensures p(n)
    decreases n
  {
    if since < n {
      Throughout(p, since, n - 1);
      assert Carries(p, n - 1);
    }
  }

  ghost predicate CountsAt(c: nat -> nat, hit: nat -> bool, k: nat) {
    c(k + 1) == c(k) + if hit(k) then 1 else 0
  }

  /** A count that goes up at one place at most. */
  lemma {:induction false} CountUp(c: nat -> nat, hit: nat -> bool, i: nat, n: nat)
    requires c(0) == 0 && forall k: nat :: k < n ==> CountsAt(c, hit, k) && (hit(k) ==> k == i)
    ensures c(n) == if i < n && hit(i) then 1 else 0
  {
    if n > 0 {
      CountUp(c, hit, i, n - 1);
      assert CountsAt(c, hit, n - 1);
    }
  }

  /** What the first i parts come to, one after the other. */
  function Gather<T>(part: nat -> seq<T>, i: nat): seq<T> {
    if i == 0 then [] else Gather(part, i - 1) + part(i - 1)
  }

  ghost predicate Grows<T>(h: nat -> seq<T>, part: nat -> seq<T>, k: nat) {
    h(k + 1) == h(k) + part(k)
  }

  lemma {:induction false} GrowsToGather<T>(h: nat -> seq<T>, part: nat -> seq<T>, n: nat)
    requires h(0) == [] && forall k: nat :: k < n ==> Grows(h, part, k)
    ensures h(n) == Gather(part, n)
  {
    if n > 0 {
      GrowsToGather(h, part, n - 1);
      assert Grows(h, part, n - 1);
    }
  }

  function Total<T>(f: T -> nat, xs: seq<T>): nat {
    if xs == [] then 0 else f(xs[0]) + Total(f, xs[1..])
  }

  lemma {:induction false} TotalConcat<T>(f: T -> nat, a: seq<T>, b: seq<T>)
    ensures Total(f, a + b) == Total(f, a) + Total(f, b)
  {
    if a == [] {
      assert a + b == b;
    } else {
      assert (a + b)[1..] == a[1..] + b;
      TotalConcat(f, a[1..], b);
    }
  }

  lemma TotalSnoc<T>(f: T -> nat, xs: seq<T>, x: T)
    ensures Total(f, xs + [x]) == Total(f, xs) + f(x)
  {
    TotalConcat(f, xs, [x]);
    assert [x][1..] == [];
  }

  lemma {:induction false} TotalUpdate<T>(f: T -> nat, xs: seq<T>, i: nat, x: T)
    requires i < |xs|
    ensures Total(f, xs[i := x]) + f(xs[i]) == Total(f, xs) + f(x)
  {
    if i == 0 {
      assert xs[i := x][1..] == xs[1..];
    } else {
      assert xs[i := x][1..] == xs[1..][i - 1 := x];
      TotalUpdate(f, xs[1..], i - 1, x);
    }
  }

  lemma {:induction false} TotalHas<T>(f: T -> nat, xs: seq<T>, i: nat)
    requires i < |xs|
    ensures Total(f, xs) >= f(xs[i])
  {
    if i > 0 {
      TotalHas(f, xs[1..], i - 1);
    }
  }

  lemma {:induction false} TotalHasTwo<T>(f: T -> nat, xs: seq<T>, i: nat, j: nat)
    requires i < j < |xs|
    ensures Total(f, xs) >= f(xs[i]) + f(xs[j])
  {
    if i > 0 {
      TotalHasTwo(f, xs[1..], i - 1, j - 1);
    } else {
      TotalHas(f, xs[1..], j - 1);
    }
  }
}
