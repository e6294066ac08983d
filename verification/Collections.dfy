/** Sums, counts and orderings over sequences that several components share. */
module Collections {

  datatype Option<+T> = None | Some(value: T)

  predicate Distinct<T(==)>(xs: seq<T>) {
    forall i, j :: 0 <= i < j < |xs| ==> xs[i] != xs[j]
  }

  function Sum(xs: seq<int>): int {
    if xs == [] then 0 else Sum(xs[..|xs| - 1]) + xs[|xs| - 1]
  }

  lemma {:induction false} SubsetSize<T>(a: set<T>, b: set<T>)
    requires a <= b
    ensures |a| <= |b|
    ensures |a| == |b| ==> a == b
  {
    if a == {} {
    } else {
      var x :| x in a;
      SubsetSize(a - {x}, b - {x});
    }
  }

  /** `xs[start:end]` as Python takes it: negative positions count from the end, and both are clipped. */
  function Slice<T>(xs: seq<T>, start: int, end: int): (r: seq<T>)
    ensures 0 <= start <= end <= |xs| ==> r == xs[start..end]
  {
    var lo, hi := Clip(start, |xs|), Clip(end, |xs|);
    if lo < hi then xs[lo..hi] else []
  }

  function Clip(i: int, n: nat): (r: nat)
    ensures r <= n
  {
    var at := if i < 0 then n + i else i;
    if at < 0 then 0 else if at > n then n else at
  }

  /** A negative end leaves out that many elements at the end, down to none; one past the end leaves out nothing. */
  lemma SliceEnds<T>(xs: seq<T>, k: int)
    requires k > 0
    ensures Slice(xs, 0, -k) == if k < |xs| then xs[..|xs| - k] else []
    ensures Slice(xs, 0, |xs| + k) == xs
  {
    assert xs[0..|xs|] == xs;
    assert k < |xs| ==> xs[0..|xs| - k] == xs[..|xs| - k];
  }

  function Members<T>(xs: seq<T>): set<T> {
    set x | x in xs
  }

  lemma {:induction false} MembersSize<T>(xs: seq<T>)
    ensures |Members(xs)| <= |xs|
    ensures |Members(xs)| == |xs| <==> Distinct(xs)
  {
    if xs != [] {
      var n := |xs| - 1;
      MembersSize(xs[..n]);
      assert xs == xs[..n] + [xs[n]];
      if xs[n] in xs[..n] {
        assert Members(xs) == Members(xs[..n]);
        var i :| 0 <= i < n && xs[i] == xs[n];
      } else {
        assert Members(xs) == Members(xs[..n]) + {xs[n]};
        assert Distinct(xs) <==> Distinct(xs[..n]);
      }
    }
  }

  /** A multiple of `m` below `m` is not positive. */
  lemma SmallMultiple(d: int, m: int, product: int)
    requires m > 0 && product == d * m && product < m
    ensures d <= 0
  {
    assert d >= 1 ==> (d - 1) * m >= 0 by {
      if d >= 1 {
        NonNegativeProduct(d - 1, m);
      }
    }
    assert (d - 1) * m == product - m;
  }

  lemma NonNegativeProduct(a: int, b: int)
    requires a >= 0 && b >= 0
    ensures a * b >= 0
  {
  }

  lemma QuotientIs(n: nat, m: nat, q: nat, r: nat)
    requires m > 0 && n == q * m + r && r < m
    ensures n / m == q && n % m == r
  {
    DivisionUnique(n / m, n % m, q, r, m);
  }

  lemma DivisionUnique(a: int, s: int, q: int, r: int, m: int)
    requires m > 0 && 0 <= s < m && 0 <= r < m && a * m + s == q * m + r
    ensures a == q && s == r
  {
    assert (a - q) * m == a * m - q * m;
    assert (q - a) * m == q * m - a * m;
    SmallMultiple(a - q, m, r - s);
    SmallMultiple(q - a, m, s - r);
  }

  lemma QuotientMonotone(v: nat, w: nat, d: nat)
    requires v <= w && d > 0
    ensures v / d <= w / d
  {
    DivisionOrder(v / d, v % d, w / d, w % d, d);
  }

  lemma DivisionOrder(a: int, r: int, b: int, s: int, d: int)
    requires d > 0 && 0 <= r && s < d && a * d + r <= b * d + s
    ensures a <= b
  {
    assert (a - b) * d == a * d - b * d;
    SmallMultiple(a - b, d, (a - b) * d);
  }

  function Range(n: nat): (r: seq<nat>)
    ensures |r| == n
    ensures forall i :: 0 <= i < n ==> r[i] == i
  {
    seq(n, i => i)
  }

  lemma {:induction false} RangeCount(n: nat, i: nat)
    ensures multiset(Range(n))[i] == if i < n then 1 else 0
  {
    if n > 0 {
      RangeCount(n - 1, i);
      assert Range(n) == Range(n - 1) + [n - 1];
    }
  }

  // ---------------------------------------------------------------- totals and counts

  /** Sum of `f` over a sequence. */
  function Total<T>(xs: seq<T>, f: T -> int): int {
    if xs == [] then 0 else Total(xs[..|xs| - 1], f) + f(xs[|xs| - 1])
  }

  lemma {:induction false} TotalAppend<T>(xs: seq<T>, ys: seq<T>, f: T -> int)
    ensures Total(xs + ys, f) == Total(xs, f) + Total(ys, f)
  {
    if ys == [] {
      assert xs + ys == xs;
    } else {
      var n := |ys| - 1;
      TotalAppend(xs, ys[..n], f);
      assert (xs + ys)[..|xs| + n] == xs + ys[..n];
    }
  }

  lemma Rebuilt<T>(xs: seq<T>, k: nat)
    requires k < |xs|
    ensures xs == xs[..k] + [xs[k]] + xs[k + 1..]
  {
  }

  lemma RemoveElement<T>(xs: seq<T>, k: nat)
    requires k < |xs|
    ensures multiset(xs[..k] + xs[k + 1..]) == multiset(xs) - multiset{xs[k]}
  {
    Rebuilt(xs, k);
  }

  lemma TotalMiddle<T>(before: seq<T>, x: T, after: seq<T>, f: T -> int)
    ensures Total(before + [x] + after, f) == Total(before + after, f) + f(x)
  {
    assert (before + [x])[..|before|] == before;
    TotalAppend(before + [x], after, f);
    TotalAppend(before, after, f);
  }

  lemma TotalRemove<T>(xs: seq<T>, k: nat, f: T -> int)
    requires k < |xs|
    ensures Total(xs, f) == Total(xs[..k] + xs[k + 1..], f) + f(xs[k])
  {
    Rebuilt(xs, k);
    TotalMiddle(xs[..k], xs[k], xs[k + 1..], f);
  }

  /** A total does not depend on the order. */
  lemma {:induction false} TotalPermuted<T>(xs: seq<T>, ys: seq<T>, f: T -> int)
    requires multiset(xs) == multiset(ys)
    ensures Total(xs, f) == Total(ys, f)
    decreases |xs|
  {
    assert |xs| == |multiset(xs)| == |multiset(ys)| == |ys|;
    if xs != [] {
      var n := |xs| - 1;
      assert xs[n] in multiset(xs);
      assert xs[n] in ys;
      var k :| 0 <= k < |ys| && ys[k] == xs[n];
      RemoveElement(ys, k);
      RemoveElement(xs, n);
      assert xs[..n] + xs[n + 1..] == xs[..n];
      TotalPermuted(xs[..n], ys[..k] + ys[k + 1..], f);
      TotalRemove(ys, k, f);
    }
  }

  function Indicator<T>(p: T -> bool): T -> int {
    x => if p(x) then 1 else 0
  }

  /** How many elements satisfy `p`. */
  function Count<T>(xs: seq<T>, p: T -> bool): nat {
    if xs == [] then 0 else Count(xs[..|xs| - 1], p) + (if p(xs[|xs| - 1]) then 1 else 0)
  }

  lemma {:induction false} CountIsTotal<T>(xs: seq<T>, p: T -> bool)
    ensures Count(xs, p) == Total(xs, Indicator(p))
  {
    if xs != [] {
      CountIsTotal(xs[..|xs| - 1], p);
    }
  }

  lemma CountAppend<T>(xs: seq<T>, ys: seq<T>, p: T -> bool)
    ensures Count(xs + ys, p) == Count(xs, p) + Count(ys, p)
  {
    CountIsTotal(xs, p);
    CountIsTotal(ys, p);
    CountIsTotal(xs + ys, p);
    TotalAppend(xs, ys, Indicator(p));
  }

  lemma CountPermuted<T>(xs: seq<T>, ys: seq<T>, p: T -> bool)
    requires multiset(xs) == multiset(ys)
    ensures Count(xs, p) == Count(ys, p)
  {
    CountIsTotal(xs, p);
    CountIsTotal(ys, p);
    TotalPermuted(xs, ys, Indicator(p));
  }

  lemma {:induction false} CountAll<T>(xs: seq<T>, p: T -> bool, b: bool)
    requires forall x :: x in xs ==> p(x) == b
    ensures Count(xs, p) == if b then |xs| else 0
  {
    if xs != [] {
      CountAll(xs[..|xs| - 1], p, b);
    }
  }

  // ---------------------------------------------------------------- shuffling

  /** Exchange of positions `i` and `j`. */
  function Swap<T>(xs: seq<T>, i: nat, j: nat): (r: seq<T>)
    requires i < |xs| && j < |xs|
    ensures |r| == |xs| && multiset(r) == multiset(xs)
  {
    xs[i := xs[j]][j := xs[i]]
  }

  /**
   Fisher-Yates over the first `m` positions. `draw(i)` stands for the random number drawn for
   position `i`; every permutation is the result of some draws.
   */
  function ShuffleFirst<T>(xs: seq<T>, m: nat, draw: nat -> nat): (r: seq<T>)
    requires m <= |xs|
    ensures |r| == |xs| && multiset(r) == multiset(xs)
    decreases m
  {
    if m <= 1 then xs else ShuffleFirst(Swap(xs, m - 1, draw(m - 1) % m), m - 1, draw)
  }

  function Shuffle<T>(xs: seq<T>, draw: nat -> nat): (r: seq<T>)
    ensures |r| == |xs| && multiset(r) == multiset(xs)
  {
    ShuffleFirst(xs, |xs|, draw)
  }

  lemma TwiceInMultiset<T>(xs: seq<T>, i: nat, j: nat)
    requires i < j < |xs| && xs[i] == xs[j]
    ensures multiset(xs)[xs[i]] >= 2
  {
    assert xs == xs[..i] + [xs[i]] + xs[i + 1..j] + [xs[j]] + xs[j + 1..];
  }

  // ---------------------------------------------------------------- names

  /** Names in dictionary order, shorter before longer. */
  predicate NameLess(a: string, b: string) {
    b != [] && (a == [] || a[0] < b[0] || (a[0] == b[0] && NameLess(a[1..], b[1..])))
  }

  /** That is: the first is a beginning of the second, or it has the smaller character where they first differ. */
  ghost predicate ComesFirst(a: string, b: string) {
    a != b && exists i: nat :: SameUpTo(a, b, i) && (i == |a| || (i < |b| && a[i] < b[i]))
  }

  predicate SameUpTo(a: string, b: string, i: nat) {
    i <= |a| && i <= |b| && a[..i] == b[..i]
  }

  lemma SameHead(a: string, b: string, i: nat)
    requires SameUpTo(a, b, i) && i > 0
    ensures a[0] == b[0]
  {
    assert a[..i][0] == b[..i][0];
  }

  lemma {:induction false} NameOrder(a: string, b: string)
    ensures NameLess(a, b) <==> ComesFirst(a, b)
  {
    forall i: nat | SameUpTo(a, b, i) && i > 0 ensures a[0] == b[0] {
      SameHead(a, b, i);
    }
    if a == [] {
      assert b != [] ==> SameUpTo(a, b, 0);
    } else if b == [] {
    } else if a[0] != b[0] {
      assert SameUpTo(a, b, 0);
    } else {
      NameOrder(a[1..], b[1..]);
      assert a == [a[0]] + a[1..] && b == [b[0]] + b[1..];
      if ComesFirst(a[1..], b[1..]) {
        var i: nat :| SameUpTo(a[1..], b[1..], i) && (i == |a[1..]| || (i < |b[1..]| && a[1..][i] < b[1..][i]));
        assert a[..i + 1] == [a[0]] + a[1..][..i] && b[..i + 1] == [b[0]] + b[1..][..i];
        assert SameUpTo(a, b, i + 1);
      }
      if ComesFirst(a, b) {
        var i: nat :| SameUpTo(a, b, i) && (i == |a| || (i < |b| && a[i] < b[i]));
        assert i > 0;
        assert a[1..][..i - 1] == a[..i][1..] && b[1..][..i - 1] == b[..i][1..];
        assert SameUpTo(a[1..], b[1..], i - 1);
      }
    }
  }

  lemma {:induction false} NameLessOneWay(a: string, b: string)
    ensures !(NameLess(a, b) && NameLess(b, a))
  {
    if a != [] && b != [] {
      NameLessOneWay(a[1..], b[1..]);
    }
  }

  lemma {:induction false} NameLessTotal(a: string, b: string)
    ensures a == b || NameLess(a, b) || NameLess(b, a)
  {
    if a != [] && b != [] {
      NameLessTotal(a[1..], b[1..]);
      assert a == [a[0]] + a[1..] && b == [b[0]] + b[1..];
    }
  }

  lemma {:induction false} NameLessTransitive(a: string, b: string, c: string)
    ensures NameLess(a, b) && NameLess(b, c) ==> NameLess(a, c)
  {
    if a != [] && b != [] && c != [] {
      NameLessTransitive(a[1..], b[1..], c[1..]);
    }
  }
}
