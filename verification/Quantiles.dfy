/**
 Continuous labels are put into buckets by quantiles before stratifying. The edges may tie when
 labels repeat; every sample still gets one bucket in range, and larger labels never get a
 smaller bucket.
 */
module Quantiles {
  import opened Collections

  ghost predicate Ascending(xs: seq<real>) {
    forall i, j :: 0 <= i <= j < |xs| ==> xs[i] <= xs[j]
  }

  /** The point a fraction `f` of the way from `a` to `b`. */
  function Between(a: real, b: real, f: real): real {
    a + (b - a) * f
  }

  lemma BetweenInRange(a: real, b: real, f: real)
    requires a <= b && 0.0 <= f <= 1.0
    ensures a <= Between(a, b, f) <= b
  {
    Stretch(b - a, f, 1.0);
    Stretch(b - a, 0.0, f);
  }

  lemma BetweenMonotone(a: real, b: real, f: real, f': real)
    requires a <= b && f <= f'
    ensures Between(a, b, f) <= Between(a, b, f')
  {
    Stretch(b - a, f, f');
  }

  lemma Stretch(step: real, f: real, f': real)
    requires 0.0 <= step && f <= f'
    ensures step * f <= step * f'
  {
  }

  /** Linear interpolation in an ascending list at position `h`. */
  function Interpolate(xs: seq<real>, h: real): real
    requires xs != [] && 0.0 <= h <= (|xs| - 1) as real
  {
    var lo := h.Floor;
    if lo == |xs| - 1 then xs[lo] else Between(xs[lo], xs[lo + 1], h - lo as real)
  }

  lemma InterpolateBetween(xs: seq<real>, h: real)
    requires xs != [] && Ascending(xs) && 0.0 <= h <= (|xs| - 1) as real
    ensures xs[h.Floor] <= Interpolate(xs, h)
    ensures h.Floor < |xs| - 1 ==> Interpolate(xs, h) <= xs[h.Floor + 1]
  {
    var lo := h.Floor;
    if lo < |xs| - 1 {
      BetweenInRange(xs[lo], xs[lo + 1], h - lo as real);
    }
  }

  lemma InterpolateMonotone(xs: seq<real>, h: real, h': real)
    requires xs != [] && Ascending(xs) && 0.0 <= h <= h' <= (|xs| - 1) as real
    ensures Interpolate(xs, h) <= Interpolate(xs, h')
  {
    InterpolateBetween(xs, h);
    InterpolateBetween(xs, h');
    var lo := h.Floor;
    if h'.Floor == lo && lo < |xs| - 1 {
      BetweenMonotone(xs[lo], xs[lo + 1], h - lo as real, h' - lo as real);
    } else if lo < h'.Floor {
      assert xs[lo + 1] <= xs[h'.Floor];
    }
  }

  /** Position of the j-th of `bins` quantiles in a list of `n` labels. */
  function Position(j: nat, bins: nat, n: nat): (h: real)
    requires j <= bins && bins > 0 && n > 0
    ensures 0.0 <= h <= (n - 1) as real
  {
    var f := (j as real) / (bins as real);
    assert 0.0 <= f <= 1.0;
    var top := (n - 1) as real;
    assert top * f <= top * 1.0;
    top * f
  }

  lemma Shares(a: real, b: real, c: real)
    requires c > 0.0 && a <= b
    ensures a / c <= b / c && c / c == 1.0 && 0.0 / c == 0.0
  {
  }

  lemma PositionMonotone(i: nat, j: nat, bins: nat, n: nat)
    requires i <= j <= bins && bins > 0 && n > 0
    ensures Position(i, bins, n) <= Position(j, bins, n)
    ensures Position(0, bins, n) == 0.0 && Position(bins, bins, n) == (n - 1) as real
  {
    ShareOrder((n - 1) as real, i as real, j as real, bins as real);
    PositionIs(i, bins, n);
    PositionIs(j, bins, n);
    PositionEnds(bins, n);
  }

  lemma ShareOrder(top: real, a: real, b: real, c: real)
    requires 0.0 <= top && c > 0.0 && a <= b
    ensures top * (a / c) <= top * (b / c)
  {
    Shares(a, b, c);
    Stretch(top, a / c, b / c);
  }

  lemma PositionIs(j: nat, bins: nat, n: nat)
    requires j <= bins && bins > 0 && n > 0
    ensures Position(j, bins, n) == ((n - 1) as real) * ((j as real) / (bins as real))
  {
  }

  lemma PositionEnds(bins: nat, n: nat)
    requires bins > 0 && n > 0
    ensures Position(0, bins, n) == 0.0 && Position(bins, bins, n) == (n - 1) as real
  {
    Shares(0.0, bins as real, bins as real);
    Ends((n - 1) as real);
  }

  lemma Ends(top: real)
    ensures top * 0.0 == 0.0 && top * 1.0 == top
  {
  }

  /** How far the outer edges are moved out, so that no label lies on them. */
  const MARGIN := 0.00001

  /** The bucket edges: quantiles, with the outer two moved out by the margin. */
  function Edges(sorted: seq<real>, bins: nat): (edges: seq<real>)
    requires sorted != [] && bins > 0
    ensures |edges| == bins + 1
  {
    seq(bins + 1, j requires 0 <= j <= bins =>
      Interpolate(sorted, Position(j, bins, |sorted|))
        + (if j == bins then MARGIN else 0.0) - (if j == 0 then MARGIN else 0.0))
  }

  lemma EdgesAscend(sorted: seq<real>, bins: nat)
    requires sorted != [] && Ascending(sorted) && bins > 0
    ensures Ascending(Edges(sorted, bins))
    ensures Edges(sorted, bins)[0] < sorted[0] && sorted[|sorted| - 1] < Edges(sorted, bins)[bins]
  {
    PositionMonotone(0, 0, bins, |sorted|);
    forall i: nat, j: nat | i <= j <= bins ensures Edges(sorted, bins)[i] <= Edges(sorted, bins)[j] {
      PositionMonotone(i, j, bins, |sorted|);
      InterpolateMonotone(sorted, Position(i, bins, |sorted|), Position(j, bins, |sorted|));
    }
  }

  function AtMost(x: real): real -> bool {
    e => e <= x
  }

  /** How many edges are at most `x`: for ascending edges, the index `digitize` returns. */
  function Digitize(x: real, edges: seq<real>): nat {
    Count(edges, AtMost(x))
  }

  lemma {:induction false} CountMonotone(edges: seq<real>, x: real, y: real)
    requires x <= y
    ensures Count(edges, AtMost(x)) <= Count(edges, AtMost(y)) <= |edges|
  {
    if edges != [] {
      CountMonotone(edges[..|edges| - 1], x, y);
    }
  }

  lemma DigitizeInRange(edges: seq<real>, x: real)
    requires |edges| >= 2 && edges[0] <= x < edges[|edges| - 1]
    ensures 1 <= Digitize(x, edges) <= |edges| - 1
  {
    var n := |edges| - 1;
    CountMonotone(edges[..n], x, x);
    assert edges == [edges[0]] + edges[1..];
    CountAppend([edges[0]], edges[1..], AtMost(x));
    assert Count([edges[0]], AtMost(x)) == 1;
  }

  /** Ten bins, or one for each distinct label if there are fewer. */
  function BinCount(labels: seq<real>): nat {
    var distinct := |set x | x in labels|;
    if distinct < 10 then distinct else 10
  }

  /** For ascending edges the index tells between which two of them `x` lies. */
  lemma {:induction false} DigitizeBrackets(edges: seq<real>, x: real)
    requires Ascending(edges)
    ensures forall j :: 0 <= j < |edges| ==> (edges[j] <= x <==> j < Digitize(x, edges))
    ensures Digitize(x, edges) <= |edges|
  {
    if edges != [] {
      DigitizeBrackets(edges[..|edges| - 1], x);
    }
  }

  /** Label `i` lies between the edges of its bucket, and there are as many buckets as bins. */
  ghost predicate BetweenEdges(buckets: seq<int>, labels: seq<real>, edges: seq<real>) {
    && |buckets| == |labels|
    && forall i :: 0 <= i < |labels| ==>
         0 <= buckets[i] < |edges| - 1 && edges[buckets[i]] <= labels[i] < edges[buckets[i] + 1]
  }

  lemma BracketsMonotone(buckets: seq<int>, labels: seq<real>, edges: seq<real>, i: nat, j: nat)
    requires BetweenEdges(buckets, labels, edges) && Ascending(edges) && i < |labels| && j < |labels|
    requires labels[i] <= labels[j]
    ensures buckets[i] <= buckets[j]
  {
    if buckets[j] < buckets[i] {
      assert false;
    }
  }

  /**
   Buckets by quantile: as many bins as distinct labels, but at most ten, and every label between the
   edges of its bucket. With fewer than two distinct labels there is a single bucket.
   */
  method BucketIds(labels: seq<real>, sorted: seq<real>) returns (buckets: seq<int>)
    requires multiset(sorted) == multiset(labels) && Ascending(sorted)
    ensures |buckets| == |labels| && forall i :: 0 <= i < |labels| ==> buckets[i] >= 0
    ensures |Members(labels)| < 2 ==> forall i :: 0 <= i < |labels| ==> buckets[i] == 0
    ensures |Members(labels)| >= 2 ==>
              && sorted != []
              && BetweenEdges(buckets, labels, Edges(sorted, if |Members(labels)| < 10 then |Members(labels)| else 10))
    ensures forall i, j :: 0 <= i < |labels| && 0 <= j < |labels| && labels[i] <= labels[j] ==> buckets[i] <= buckets[j]
  {
    var bins := BinCount(labels);
    assert (set x | x in labels) == Members(labels);
    buckets := [];
    if bins < 2 {
      for i := 0 to |labels|
        invariant |buckets| == i && forall p :: 0 <= p < i ==> buckets[p] == 0
      {
        buckets := buckets + [0];
      }
      return;
    }
    SortedNotEmpty(labels, sorted);
    EdgesAscend(sorted, bins);
    forall i: nat | i < |labels| ensures Edges(sorted, bins)[0] < labels[i] < Edges(sorted, bins)[bins] {
      LabelWithinEdges(labels, sorted, bins, i);
    }
    buckets := DigitizeAll(labels, Edges(sorted, bins));
    forall i: nat, j: nat | i < |labels| && j < |labels| && labels[i] <= labels[j] ensures buckets[i] <= buckets[j] {
      BracketsMonotone(buckets, labels, Edges(sorted, bins), i, j);
    }
  }

  method DigitizeAll(labels: seq<real>, edges: seq<real>) returns (buckets: seq<int>)
    requires |edges| >= 2 && Ascending(edges)
    requires forall i :: 0 <= i < |labels| ==> edges[0] <= labels[i] < edges[|edges| - 1]
    ensures BetweenEdges(buckets, labels, edges)
  {
    buckets := [];
    for i := 0 to |labels|
      invariant BetweenEdges(buckets, labels[..i], edges)
    {
      DigitizeInRange(edges, labels[i]);
      DigitizeBrackets(edges, labels[i]);
      buckets := buckets + [Digitize(labels[i], edges) - 1];
    }
    assert labels[..|labels|] == labels;
  }

  lemma SortedNotEmpty(labels: seq<real>, sorted: seq<real>)
    requires multiset(sorted) == multiset(labels) && |Members(labels)| >= 1
    ensures sorted != []
  {
    assert |sorted| == |multiset(sorted)| == |multiset(labels)| == |labels|;
    MembersSize(labels);
  }

  lemma LabelWithinEdges(labels: seq<real>, sorted: seq<real>, bins: nat, i: nat)
    requires i < |labels| && bins >= 2 && multiset(sorted) == multiset(labels) && Ascending(sorted)
    ensures sorted != [] && Edges(sorted, bins)[0] < labels[i] < Edges(sorted, bins)[bins]
  {
    assert labels[i] in multiset(labels);
    assert labels[i] in sorted;
    EdgesAscend(sorted, bins);
  }

  // ---------------------------------------------------------------- which bucket a label gets

  /** The inner edge j is the label at rank j(n-1)/bins, or lies between its two neighbours. */
  lemma EdgeByRank(sorted: seq<real>, bins: nat, j: nat, i: nat)
    requires sorted != [] && Ascending(sorted) && 0 < j < bins && i < |sorted|
    ensures j * (|sorted| - 1) <= i * bins ==> Edges(sorted, bins)[j] <= sorted[i]
    ensures j * (|sorted| - 1) > i * bins ==>
              i + 1 < |sorted| && Edges(sorted, bins)[j] >= sorted[i]
                && (sorted[i] < sorted[i + 1] ==> Edges(sorted, bins)[j] > sorted[i])
  {
    var h := Position(j, bins, |sorted|);
    PositionByRank(j, bins, |sorted|, i);
    assert Edges(sorted, bins)[j] == Interpolate(sorted, h);
    if j * (|sorted| - 1) <= i * bins {
      InterpolateMonotone(sorted, h, i as real);
      assert Interpolate(sorted, i as real) == sorted[i];
    } else {
      InterpolateAbove(sorted, h, i);
    }
  }

  /**
   The edges in whole numbers: with j(n-1) = lo*bins + rest, the inner edge j lies rest/bins of the way from the
   label at rank lo to the next one; the outer edges are the extreme labels moved out by 0.00001.
   */
  lemma EdgeInterpolates(sorted: seq<real>, bins: nat, j: nat, lo: nat, rest: nat)
    requires sorted != [] && 0 < j < bins && j * (|sorted| - 1) == lo * bins + rest && rest < bins
    ensures lo < |sorted| && (rest > 0 ==> lo + 1 < |sorted|)
    ensures rest == 0 ==> Edges(sorted, bins)[j] == sorted[lo]
    ensures rest > 0 ==>
              Edges(sorted, bins)[j] * (bins as real)
                == sorted[lo] * ((bins - rest) as real) + sorted[lo + 1] * (rest as real)
    ensures Edges(sorted, bins)[0] == sorted[0] - 0.00001
    ensures Edges(sorted, bins)[bins] == sorted[|sorted| - 1] + 0.00001
  {
    var h := Position(j, bins, |sorted|);
    PositionParts(j, bins, |sorted|, lo, rest);
    PositionEnds(bins, |sorted|);
    assert Edges(sorted, bins)[j] == Interpolate(sorted, h);
    if rest > 0 {
      Weighted(sorted[lo], sorted[lo + 1], h - lo as real, bins as real, rest as real);
    } else if lo < |sorted| - 1 {
      Weighted(sorted[lo], sorted[lo + 1], 0.0, bins as real, 0.0);
    }
  }

  lemma PositionParts(j: nat, bins: nat, n: nat, lo: nat, rest: nat)
    requires 0 < j < bins && n > 0 && j * (n - 1) == lo * bins + rest && rest < bins
    ensures lo < n && (rest > 0 ==> lo + 1 < n)
    ensures Position(j, bins, n).Floor == lo && (Position(j, bins, n) - lo as real) * (bins as real) == rest as real
    ensures rest == 0 ==> Position(j, bins, n) == lo as real
  {
    RanksInRange(j, bins, n, lo, rest);
    var h, b := Position(j, bins, n), bins as real;
    ScaledPosition(j, bins, n);
    RealProduct(lo, bins);
    Share(rest as real, b);
    Cancel(h, lo as real, (rest as real) / b, b, rest as real);
  }

  lemma RealProduct(a: nat, b: nat)
    ensures (a as real) * (b as real) == (a * b) as real
  {
  }

  lemma ScaledPosition(j: nat, bins: nat, n: nat)
    requires j <= bins && bins > 0 && n > 0
    ensures Position(j, bins, n) * (bins as real) == (j * (n - 1)) as real
  {
    PositionIs(j, bins, n);
    Scaled((n - 1) as real, j as real, bins as real);
    RealProduct(j, n - 1);
  }

  lemma RanksInRange(j: nat, bins: nat, n: nat, lo: nat, rest: nat)
    requires 0 < j < bins && n > 0 && j * (n - 1) == lo * bins + rest && rest < bins
    ensures lo < n && (rest > 0 ==> lo + 1 < n)
  {
    Monotone(j, bins, n - 1);
    assert (n - 1) * bins == (n - 1) * bins + 0;
    DivisionOrder(lo, rest, n - 1, 0, bins);
    if lo == n - 1 {
      assert lo * bins + rest <= lo * bins;
    }
  }

  lemma Share(rest: real, b: real)
    requires 0.0 <= rest < b
    ensures 0.0 <= rest / b < 1.0 && rest / b * b == rest
    ensures rest == 0.0 ==> rest / b == 0.0
  {
    assert rest / b * b == rest;
    if rest / b >= 1.0 {
      Stretch(b, 1.0, rest / b);
    }
  }

  lemma Cancel(h: real, lo: real, f: real, b: real, rest: real)
    requires b > 0.0 && h * b == lo * b + rest && f * b == rest
    ensures h == lo + f && (h - lo) * b == rest
  {
    assert (h - lo - f) * b == h * b - lo * b - f * b;
    if h - lo - f > 0.0 {
      StrictStretch(b, 0.0, h - lo - f);
    } else if h - lo - f < 0.0 {
      StrictStretch(b, h - lo - f, 0.0);
    }
  }

  lemma Weighted(a: real, c: real, f: real, b: real, rest: real)
    requires b > 0.0 && f * b == rest
    ensures Between(a, c, f) * b == a * (b - rest) + c * rest
    ensures f == 0.0 ==> Between(a, c, f) == a
  {
    assert (c - a) * f * b == (c - a) * rest;
  }

  lemma PositionByRank(j: nat, bins: nat, n: nat, i: nat)
    requires j <= bins && bins > 0 && n > 0
    ensures j * (n - 1) <= i * bins <==> Position(j, bins, n) <= i as real
  {
    var h, b := Position(j, bins, n), bins as real;
    ScaledPosition(j, bins, n);
    RealProduct(i, bins);
    if i as real < h {
      StrictStretch(b, i as real, h);
    } else {
      Stretch(b, h, i as real);
    }
  }

  lemma Scaled(top: real, j: real, b: real)
    requires b > 0.0
    ensures top * (j / b) * b == j * top
  {
    assert (j / b) * b == j;
  }

  lemma StrictStretch(step: real, f: real, f': real)
    requires 0.0 < step && f < f'
    ensures step * f < step * f'
  {
  }

  lemma BetweenAbove(a: real, b: real, f: real)
    requires a < b && 0.0 < f
    ensures Between(a, b, f) > a
  {
    StrictStretch(b - a, 0.0, f);
    assert (b - a) * 0.0 == 0.0;
  }

  lemma InterpolateAbove(xs: seq<real>, h: real, i: nat)
    requires xs != [] && Ascending(xs) && (i as real) < h <= (|xs| - 1) as real
    ensures i + 1 < |xs| && Interpolate(xs, h) >= xs[i]
    ensures xs[i] < xs[i + 1] ==> Interpolate(xs, h) > xs[i]
  {
    InterpolateBetween(xs, h);
    var lo := h.Floor;
    assert i <= lo;
    if lo == i {
      var f := h - lo as real;
      assert Interpolate(xs, h) == Between(xs[i], xs[i + 1], f);
      if xs[i] < xs[i + 1] {
        BetweenAbove(xs[i], xs[i + 1], f);
      }
    } else {
      assert xs[i + 1] <= xs[lo];
    }
  }

  /**
   With all labels different, the i-th smallest of n labels in b bins gets bucket i*b/(n-1), the largest one
   the last bucket.
   */
  lemma BucketByRank(sorted: seq<real>, bins: nat, i: nat, q: nat)
    requires Ascending(sorted) && Distinct(sorted) && |sorted| >= 2 && bins >= 2 && i < |sorted| && q < bins
    requires Edges(sorted, bins)[q] <= sorted[i] < Edges(sorted, bins)[q + 1]
    ensures q == if i == |sorted| - 1 then bins - 1 else i * bins / (|sorted| - 1)
  {
    var n := |sorted| - 1;
    if q > 0 {
      EdgeByRank(sorted, bins, q, i);
    }
    if q + 1 < bins {
      EdgeByRank(sorted, bins, q + 1, i);
    }
    assert q * n <= i * bins && (q + 1 < bins ==> (q + 1) * n > i * bins);
    if i == n {
      LastRank(q, n, bins);
    } else {
      InnerRank(q, n, bins, i);
    }
  }

  lemma LastRank(q: nat, n: nat, bins: nat)
    requires q < bins && n > 0 && (q + 1 < bins ==> (q + 1) * n > n * bins)
    ensures q == bins - 1
  {
    if q + 1 < bins {
      Monotone(q + 1, bins, n);
      assert false;
    }
  }

  lemma Monotone(a: nat, b: nat, n: nat)
    requires a <= b
    ensures a * n <= n * b
  {
  }

  lemma InnerRank(q: nat, n: nat, bins: nat, i: nat)
    requires q < bins && i < n && q * n <= i * bins && (q + 1 < bins ==> (q + 1) * n > i * bins)
    ensures q == i * bins / n
  {
    assert (q + 1) * n == q * n + n;
    if q + 1 == bins {
      assert i * bins < n * bins by {
        Less(i, n, bins);
      }
      assert n * bins == (q + 1) * n;
    }
    QuotientIs(i * bins, n, q, i * bins - q * n);
  }

  lemma Less(i: nat, n: nat, b: nat)
    requires i < n && b > 0
    ensures i * b < n * b
  {
  }

  /** So with at most ten labels, all different, each has a bucket of its own, in order. */
  lemma OwnBucket(sorted: seq<real>, i: nat, q: nat)
    requires Ascending(sorted) && Distinct(sorted) && |sorted| >= 2 && i < |sorted| && q < |sorted|
    requires Edges(sorted, |sorted|)[q] <= sorted[i] < Edges(sorted, |sorted|)[q + 1]
    ensures q == i
  {
    BucketByRank(sorted, |sorted|, i, q);
    var n := |sorted| - 1;
    if i < n {
      assert i * |sorted| == i * n + i;
      QuotientIs(i * |sorted|, n, i, i);
    }
  }

  /**
   Ties included: the largest label is in the last bucket; the smallest is in another one exactly when the label
   at the rank of the last inner edge, rounded up, is larger than it. Otherwise all samples are one class.
   */
  lemma BucketsSpreadExactly(sorted: seq<real>, bins: nat, q: nat, r: nat)
    requires Ascending(sorted) && |sorted| >= 2 && bins >= 2 && q < bins && r < bins
    requires Edges(sorted, bins)[q] <= sorted[0] < Edges(sorted, bins)[q + 1]
    requires Edges(sorted, bins)[r] <= sorted[|sorted| - 1] < Edges(sorted, bins)[r + 1]
    ensures r == bins - 1
    ensures var rank := ((bins - 1) * (|sorted| - 1) + bins - 1) / bins;
            0 <= rank < |sorted| && (q != r <==> sorted[rank] > sorted[0])
  {
    var n := |sorted| - 1;
    EdgesAscend(sorted, bins);
    Monotone(bins - 1, bins, n);
    EdgeByRank(sorted, bins, bins - 1, n);
    assert Edges(sorted, bins)[bins - 1] <= sorted[n];
    if r + 1 < bins {
      assert false;
    }
    LastInnerEdge(sorted, bins);
  }

  lemma LastInnerEdge(sorted: seq<real>, bins: nat)
    requires Ascending(sorted) && |sorted| >= 2 && bins >= 2
    ensures var rank := ((bins - 1) * (|sorted| - 1) + bins - 1) / bins;
            0 < rank < |sorted| && (Edges(sorted, bins)[bins - 1] > sorted[0] <==> sorted[rank] > sorted[0])
  {
    var n := |sorted| - 1;
    var rank := ((bins - 1) * n + bins - 1) / bins;
    RankInRange(n, bins, rank);
    EdgeByRank(sorted, bins, bins - 1, rank);
    EdgeByRank(sorted, bins, bins - 1, rank - 1);
    if sorted[rank] > sorted[0] && sorted[rank - 1] == sorted[0] {
      assert Edges(sorted, bins)[bins - 1] > sorted[0];
    }
  }

  lemma RankInRange(n: nat, bins: nat, rank: nat)
    requires n >= 1 && bins >= 2 && rank == ((bins - 1) * n + bins - 1) / bins
    ensures 0 < rank <= n && (bins - 1) * n <= rank * bins && (rank - 1) * bins < (bins - 1) * n
  {
    var total := (bins - 1) * n + bins - 1;
    var rest := total % bins;
    assert total == rank * bins + rest;
    assert (rank - 1) * bins == rank * bins - bins;
    Monotone(1, n, bins - 1);
    assert rank == 0 ==> total < bins;
    assert (bins - 1) * n == n * bins - n;
    if rank > n {
      Monotone(n + 1, rank, bins);
      assert false;
    }
  }

  /** Such labels: nine zeros and a one. The only inner edge, the median, is zero, so all are in the upper bucket. */
  lemma TiesShareBucket(q: nat, r: nat)
    requires q < 2 && r < 2
    requires var sorted := [0.0, 0.0, 0.0, 0.0, 0.0, 0.0, 0.0, 0.0, 0.0, 1.0];
             && Edges(sorted, 2)[q] <= sorted[0] < Edges(sorted, 2)[q + 1]
             && Edges(sorted, 2)[r] <= sorted[9] < Edges(sorted, 2)[r + 1]
    ensures q == r == 1
  {
    var sorted := [0.0, 0.0, 0.0, 0.0, 0.0, 0.0, 0.0, 0.0, 0.0, 1.0];
    assert Ascending(sorted);
    BucketsSpreadExactly(sorted, 2, q, r);
  }
}
