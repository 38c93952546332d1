/** Facts about sequences that several components need. */
module Seqs {

  /** The sum of a sequence of integers. */
  function Sum(xs: seq<int>): int {
    if xs == [] then 0 else xs[0] + Sum(xs[1..])
  }

  lemma {:induction false} SumUpdate(xs: seq<int>, i: nat, v: int)
    requires i < |xs|
    ensures Sum(xs[i := v]) == Sum(xs) - xs[i] + v
  {
    if i == 0 {
      assert xs[0 := v][1..] == xs[1..];
    } else {
      assert xs[i := v][1..] == xs[1..][i - 1 := v];
      SumUpdate(xs[1..], i - 1, v);
    }
  }

  /** A sequence whose elements all reach `least` sums to at least its length times `least`. */
  lemma {:induction false} SumAtLeast(xs: seq<int>, least: int)
    requires forall i :: 0 <= i < |xs| ==> xs[i] >= least
    ensures Sum(xs) >= |xs| * least
  {
    if xs != [] {
      SumAtLeast(xs[1..], least);
      assert |xs| * least == least + |xs[1..]| * least;
    }
  }

  lemma {:induction false} SumAtMost(xs: seq<int>, most: int)
    requires forall i :: 0 <= i < |xs| ==> xs[i] <= most
    ensures Sum(xs) <= |xs| * most
  {
    if xs != [] {
      SumAtMost(xs[1..], most);
      assert |xs| * most == most + |xs[1..]| * most;
    }
  }

  ghost predicate Distinct<T>(xs: seq<T>) {
    forall i, j :: 0 <= i < j < |xs| ==> xs[i] != xs[j]
  }

  lemma DistinctCons<T>(x: T, xs: seq<T>)
    requires Distinct(xs) && x !in xs
    ensures Distinct([x] + xs)
  {
    var all := [x] + xs;
    forall i, j | 0 <= i < j < |all| ensures all[i] != all[j] {
      assert all[j] == xs[j - 1];
    }
  }

  lemma DistinctSnoc<T>(xs: seq<T>, x: T)
    requires Distinct(xs) && x !in xs
    ensures Distinct(xs + [x])
  {
  }

  /** The sequence without the element at position i. */
  function Without<T>(xs: seq<T>, i: nat): (r: seq<T>)
    requires i < |xs|
    ensures |r| == |xs| - 1
    ensures forall k :: 0 <= k < |r| ==> r[k] == if k < i then xs[k] else xs[k + 1]
  {
    xs[..i] + xs[i + 1..]
  }

  lemma WithoutAmong<T>(xs: seq<T>, i: nat)
    requires i < |xs|
    ensures forall x :: x in Without(xs, i) ==> x in xs
    ensures forall x :: x in xs && x != xs[i] ==> x in Without(xs, i)
  {
    forall x | x in xs && x != xs[i] ensures x in Without(xs, i) {
      var k :| 0 <= k < |xs| && xs[k] == x;
      assert Without(xs, i)[if k < i then k else k - 1] == x;
    }
  }

  function Reverse<T>(xs: seq<T>): (r: seq<T>)
    ensures |r| == |xs|
  {
    if xs == [] then [] else Reverse(xs[1..]) + [xs[0]]
  }

  lemma {:induction false} ReverseAppend<T>(xs: seq<T>, ys: seq<T>)
    ensures Reverse(xs + ys) == Reverse(ys) + Reverse(xs)
  {
    if xs == [] {
      assert xs + ys == ys;
    } else {
      assert (xs + ys)[1..] == xs[1..] + ys;
      ReverseAppend(xs[1..], ys);
    }
  }

  lemma {:induction false} ReverseReverse<T>(xs: seq<T>)
    ensures Reverse(Reverse(xs)) == xs
  {
    if xs != [] {
      ReverseAppend(Reverse(xs[1..]), [xs[0]]);
      ReverseReverse(xs[1..]);
    }
  }

  function Flatten<T>(xss: seq<seq<T>>): seq<T> {
    if xss == [] then [] else xss[0] + Flatten(xss[1..])
  }

  lemma {:induction false} FlattenAppend<T>(xss: seq<seq<T>>, yss: seq<seq<T>>)
    ensures Flatten(xss + yss) == Flatten(xss) + Flatten(yss)
  {
    if xss == [] {
      assert xss + yss == yss;
    } else {
      assert (xss + yss)[1..] == xss[1..] + yss;
      FlattenAppend(xss[1..], yss);
    }
  }

  lemma SplitBag<T>(xs: seq<T>, k: nat)
    requires k <= |xs|
    ensures multiset(xs) == multiset(xs[..k]) + multiset(xs[k..])
  {
    assert xs == xs[..k] + xs[k..];
  }

  lemma {:induction false} ReverseBag<T>(xs: seq<T>)
    ensures multiset(Reverse(xs)) == multiset(xs)
  {
    if xs != [] {
      ReverseBag(xs[1..]);
      assert xs == [xs[0]] + xs[1..];
    }
  }

  lemma HeadMoves<T>(a: seq<T>, s: seq<T>)
    requires s != []
    ensures a + [s[0]] + s[1..] == a + s
  {
  }

  /** The sum of the weights of the elements. */
  function Weigh<T>(xs: seq<T>, f: T -> nat): nat {
    if xs == [] then 0 else f(xs[0]) + Weigh(xs[1..], f)
  }

  lemma {:induction false} WeighConcat<T>(a: seq<T>, b: seq<T>, f: T -> nat)
    ensures Weigh(a + b, f) == Weigh(a, f) + Weigh(b, f)
  {
    if a == [] {
      assert a + b == b;
    } else {
      assert (a + b)[1..] == a[1..] + b;
      WeighConcat(a[1..], b, f);
    }
  }

  lemma WeighOne<T>(x: T, f: T -> nat)
    ensures Weigh([x], f) == f(x)
  {
    assert [x][1..] == [];
  }

  lemma WeighSnoc<T>(xs: seq<T>, x: T, f: T -> nat)
    ensures Weigh(xs + [x], f) == Weigh(xs, f) + f(x)
  {
    WeighConcat(xs, [x], f);
    WeighOne(x, f);
  }

  lemma WeighSplit<T>(xs: seq<T>, n: nat, f: T -> nat)
    requires n <= |xs|
    ensures Weigh(xs, f) == Weigh(xs[..n], f) + Weigh(xs[n..], f)
  {
    assert xs == xs[..n] + xs[n..];
    WeighConcat(xs[..n], xs[n..], f);
  }

  lemma WeighUpdate<T>(xs: seq<T>, i: nat, x: T, f: T -> nat)
    requires i < |xs|
    ensures Weigh(xs[i := x], f) + f(xs[i]) == Weigh(xs, f) + f(x)
    ensures Weigh(Without(xs, i), f) + f(xs[i]) == Weigh(xs, f)
  {
    var left, right := xs[..i], xs[i + 1..];
    assert xs == left + [xs[i]] + right && xs[i := x] == left + [x] + right;
    WeighSnoc(left, xs[i], f);
    WeighSnoc(left, x, f);
    WeighConcat(left + [xs[i]], right, f);
    WeighConcat(left + [x], right, f);
    WeighConcat(left, right, f);
  }

  lemma {:induction false} WeighReverse<T>(xs: seq<T>, f: T -> nat)
    ensures Weigh(Reverse(xs), f) == Weigh(xs, f)
  {
    if xs != [] {
      WeighReverse(xs[1..], f);
      WeighSnoc(Reverse(xs[1..]), xs[0], f);
    }
  }

  /** Lists of the same length, element by element of the same weight. */
  lemma {:induction false} WeighSame<S, T>(xs: seq<S>, f: S -> nat, ys: seq<T>, g: T -> nat)
    requires |xs| == |ys| && forall i :: 0 <= i < |xs| ==> f(xs[i]) == g(ys[i])
    ensures Weigh(xs, f) == Weigh(ys, g)
  {
    if xs != [] {
      WeighSame(xs[1..], f, ys[1..], g);
    }
  }

  lemma {:induction false} WeighNothing<T>(xs: seq<T>, f: T -> nat)
    requires forall i :: 0 <= i < |xs| ==> f(xs[i]) == 0
    ensures Weigh(xs, f) == 0
  {
    if xs != [] {
      WeighNothing(xs[1..], f);
    }
  }

  /** Two weightings that differ at one element only. */
  lemma {:induction false} WeighChange<T>(xs: seq<T>, f: T -> nat, g: T -> nat, x: T)
    requires Distinct(xs) && x in xs && forall y :: y in xs && y != x ==> f(y) == g(y)
    ensures Weigh(xs, g) + f(x) == Weigh(xs, f) + g(x)
  {
    if xs[0] == x {
      WeighSame(xs[1..], f, xs[1..], g);
    } else {
      WeighChange(xs[1..], f, g, x);
    }
  }

  lemma {:induction false} WeighAtMost<T>(xs: seq<T>, f: T -> nat, g: T -> nat)
    requires forall i :: 0 <= i < |xs| ==> f(xs[i]) <= g(xs[i])
    ensures Weigh(xs, f) <= Weigh(xs, g)
  {
    if xs != [] {
      WeighAtMost(xs[1..], f, g);
    }
  }

  /** One weighting exceeds the other by d at every element. */
  lemma {:induction false} WeighRaised<T>(xs: seq<T>, f: T -> nat, g: T -> nat, d: nat)
    requires forall i :: 0 <= i < |xs| ==> f(xs[i]) == g(xs[i]) + d
    ensures Weigh(xs, f) == Weigh(xs, g) + d * |xs|
  {
    if xs != [] {
      WeighRaised(xs[1..], f, g, d);
      assert d * |xs| == d + d * |xs[1..]|;
    }
  }

  lemma {:induction false} WeighSome<T>(xs: seq<T>, f: T -> nat) returns (i: nat)
    requires Weigh(xs, f) > 0
    ensures i < |xs| && f(xs[i]) > 0
  {
    if f(xs[0]) > 0 {
      i := 0;
    } else {
      i := WeighSome(xs[1..], f);
      i := i + 1;
    }
  }

  lemma {:induction false} WeighAbove<T>(xs: seq<T>, f: T -> nat, i: nat)
    requires i < |xs|
    ensures f(xs[i]) <= Weigh(xs, f)
  {
    if i > 0 {
      WeighAbove(xs[1..], f, i - 1);
    }
  }
}
