/**
 What the random strategies can produce: every order of the samples comes out of some draws, and the
 pieces are cut where they should be.
 */
module ShardingEffects {
  import opened Collections
  import opened Sharding
  import opened Apportionment

  // ---------------------------------------------------------------- shuffles

  /** Only the draws for the first `m` positions matter. */
  lemma {:induction false} SameDraws<T>(xs: seq<T>, m: nat, draw: nat -> nat, draw': nat -> nat)
    requires m <= |xs| && forall i :: 0 <= i < m ==> draw(i) == draw'(i)
    ensures ShuffleFirst(xs, m, draw) == ShuffleFirst(xs, m, draw')
    decreases m
  {
    if m > 1 {
      SameDraws(Swap(xs, m - 1, draw(m - 1) % m), m - 1, draw, draw');
    }
  }

  lemma Front<T>(xs: seq<T>, m: nat)
    requires m <= |xs|
    ensures multiset(xs) == multiset(xs[..m]) + multiset(xs[m..])
  {
    assert xs == xs[..m] + xs[m..];
  }

  /** After the swap the two lists agree from position `m` on, and hold the same before it. */
  lemma SwapMatches<T>(xs: seq<T>, ys: seq<T>, m: nat, d: nat)
    requires |xs| == |ys| && d <= m < |xs| && xs[m + 1..] == ys[m + 1..] && xs[d] == ys[m]
    requires multiset(xs) == multiset(ys)
    ensures var zs := Swap(xs, m, d); |zs| == |ys| && zs[m..] == ys[m..] && multiset(zs) == multiset(ys)
  {
    var zs := Swap(xs, m, d);
    assert forall i :: m <= i < |xs| ==> zs[i] == ys[i] by {
      assert forall i :: m < i < |xs| ==> xs[i] == xs[m + 1..][i - m - 1] && ys[i] == ys[m + 1..][i - m - 1];
    }
  }

  lemma SameRest<T>(a: multiset<T>, b: multiset<T>, c: multiset<T>)
    requires a + c == b + c
    ensures a == b
  {
    assert a == (a + c) - c && b == (b + c) - c;
  }

  lemma InFront<T>(xs: seq<T>, ys: seq<T>, m: nat) returns (d: nat)
    requires |xs| == |ys| && m < |xs| && xs[m + 1..] == ys[m + 1..] && multiset(xs) == multiset(ys)
    ensures d <= m && xs[d] == ys[m]
  {
    Front(xs, m + 1);
    Front(ys, m + 1);
    SameRest(multiset(xs[..m + 1]), multiset(ys[..m + 1]), multiset(xs[m + 1..]));
    assert ys[..m + 1][m] in multiset(ys[..m + 1]);
    assert ys[m] in xs[..m + 1];
    d :| d <= m && xs[..m + 1][d] == ys[m];
  }

  lemma SameFromFront<T>(xs: seq<T>, ys: seq<T>, m: nat)
    requires |xs| == |ys| && m <= 1 && m <= |xs| && xs[m..] == ys[m..] && multiset(xs) == multiset(ys)
    ensures xs == ys
  {
    if m == 1 {
      var d := InFront(xs, ys, 0);
    }
    assert xs == xs[..m] + xs[m..] && ys == ys[..m] + ys[m..];
  }

  /** One draw more, for the position before. */
  lemma OneDrawMore<T>(xs: seq<T>, zs: seq<T>, m: nat, d: nat, before: nat -> nat) returns (draw: nat -> nat)
    requires 0 < m < |xs| && d <= m && zs == Swap(xs, m, d)
    ensures ShuffleFirst(xs, m + 1, draw) == ShuffleFirst(zs, m, before)
  {
    draw := i => if i == m then d else before(i);
    SmallRemainder(d, m + 1);
    SameDraws(zs, m, draw, before);
  }

  lemma SmallRemainder(d: nat, m: nat)
    requires d < m
    ensures d % m == d
  {
  }

  lemma {:induction false} FirstReach<T>(xs: seq<T>, ys: seq<T>, m: nat) returns (draw: nat -> nat)
    requires |xs| == |ys| && m <= |xs| && xs[m..] == ys[m..] && multiset(xs) == multiset(ys)
    ensures ShuffleFirst(xs, m, draw) == ys
    decreases m
  {
    if m <= 1 {
      draw := _ => 0;
      SameFromFront(xs, ys, m);
    } else {
      var d := InFront(xs, ys, m - 1);
      SwapMatches(xs, ys, m - 1, d);
      var zs := Swap(xs, m - 1, d);
      var before := FirstReach(zs, ys, m - 1);
      draw := OneDrawMore(xs, zs, m - 1, d, before);
    }
  }

  /** Every order of a list comes out of some draws, and nothing else does. */
  lemma ShuffleReaches<T>(xs: seq<T>, ys: seq<T>)
    ensures multiset(xs) == multiset(ys) <==> exists draw: nat -> nat :: Shuffle(xs, draw) == ys
  {
    if multiset(xs) == multiset(ys) {
      assert |xs| == |multiset(xs)| == |multiset(ys)| == |ys|;
      var draw := FirstReach(xs, ys, |xs|);
      assert Shuffle(xs, draw) == ys;
    }
  }

  // ---------------------------------------------------------------- random and sequential shards

  /** Shard `i` of `k` holds the i-th piece of `q` samples of the list, the last one also what is left over. */
  predicate PieceOf(shard: seq<nat>, xs: seq<nat>, k: nat, q: nat, i: nat) {
    var start := i * q;
    var end := if i + 1 == k then |xs| else start + q;
    0 <= start <= end <= |xs| && shard == xs[start..end]
  }

  function Share(n: nat, k: nat): nat
    requires k > 0
  {
    n / k
  }

  ghost predicate EvenPieces(shards: Shards, xs: seq<nat>, k: nat, q: nat) {
    |shards| == k && forall i: nat :: i < k ==> PieceOf(shards[i], xs, k, q, i)
  }

  lemma PieceAt(xs: seq<nat>, k: nat, q: nat, i: nat)
    requires i < k && q == |xs| / k
    ensures Sum(EvenSizes(|xs|, k)) == |xs| && PieceOf(Cut(xs, EvenSizes(|xs|, k))[i], xs, k, q, i)
  {
    EvenCutPosition(xs, k, q, i);
  }

  /** Random shards are the even pieces of the samples in any order: each order comes out of some draws. */
  lemma RandomShardsReach(n: nat, k: nat, order: seq<nat>) returns (draw: (nat, nat) -> nat)
    requires k > 0 && multiset(order) == multiset(Range(n))
    ensures EvenPieces(RandomShards(n, k, draw), order, k, Share(n, k))
  {
    assert |order| == |multiset(order)| == |multiset(Range(n))| == n;
    var one := FirstReach(Range(n), order, n);
    draw := (c, i) => one(i);
    SameDraws(Range(n), n, DrawsOf(draw, 0), one);
    EvenSizesSum(n, k);
    CutIsEven(order, k, Share(n, k));
  }

  /** And there is always such an order. */
  lemma RandomShardsAre(n: nat, k: nat, draw: (nat, nat) -> nat) returns (order: seq<nat>)
    requires k > 0
    ensures multiset(order) == multiset(Range(n))
    ensures EvenPieces(RandomShards(n, k, draw), order, k, Share(n, k))
  {
    order := Shuffle(Range(n), DrawsOf(draw, 0));
    EvenSizesSum(n, k);
    CutIsEven(order, k, Share(n, k));
  }

  /** Sequential shards are the even pieces of 0..n-1. */
  lemma SequentialShardsAre(n: nat, k: nat)
    requires k > 0
    ensures EvenPieces(SequentialShards(n, k), Range(n), k, Share(n, k))
  {
    EvenSizesSum(n, k);
    CutIsEven(Range(n), k, Share(n, k));
  }

  lemma CutIsEven(xs: seq<nat>, k: nat, q: nat)
    requires k > 0 && q == |xs| / k
    ensures Sum(EvenSizes(|xs|, k)) == |xs| && EvenPieces(Cut(xs, EvenSizes(|xs|, k)), xs, k, q)
  {
    EvenSizesSum(|xs|, k);
    forall i: nat | i < k ensures PieceOf(Cut(xs, EvenSizes(|xs|, k))[i], xs, k, q, i) {
      PieceAt(xs, k, q, i);
    }
  }

  // ---------------------------------------------------------------- shuffles of several lists

  ghost predicate Reordered(xss: Shards, yss: Shards) {
    |xss| == |yss| && forall c :: 0 <= c < |xss| ==> multiset(xss[c]) == multiset(yss[c])
  }

  /** The draws bring each list into the order wanted. */
  ghost predicate Draws(xss: Shards, yss: Shards, draws: seq<nat -> nat>) {
    |xss| == |yss| == |draws| && forall c :: 0 <= c < |xss| ==> Shuffle(xss[c], draws[c]) == yss[c]
  }

  lemma OneList(xs: seq<nat>, ys: seq<nat>) returns (draw: nat -> nat)
    requires multiset(xs) == multiset(ys)
    ensures Shuffle(xs, draw) == ys
  {
    assert |xs| == |multiset(xs)| == |multiset(ys)| == |ys|;
    draw := FirstReach(xs, ys, |xs|);
  }

  lemma {:induction false} DrawsFor(xss: Shards, yss: Shards) returns (draws: seq<nat -> nat>)
    requires Reordered(xss, yss)
    ensures Draws(xss, yss, draws)
  {
    if xss == [] {
      draws := [];
    } else {
      var n := |xss| - 1;
      draws := DrawsFor(xss[..n], yss[..n]);
      var last := OneList(xss[n], yss[n]);
      draws := draws + [last];
    }
  }

  lemma EachReaches(xss: Shards, yss: Shards, draws: seq<nat -> nat>, draw: (nat, nat) -> nat, first: nat)
    requires Draws(xss, yss, draws)
    requires forall c: nat, i: nat :: c < |draws| ==> draw(first + c, i) == draws[c](i)
    ensures ShuffleEach(xss, draw, first) == yss
  {
    forall c: nat | c < |xss| ensures ShuffleEach(xss, draw, first)[c] == yss[c] {
      OneReaches(xss[c], yss[c], draws[c], draw, first + c);
      assert ShuffleEach(xss, draw, first)[c] == Shuffle(xss[c], (i: nat) => draw(first + c, i));
    }
  }

  lemma OneReaches(xs: seq<nat>, ys: seq<nat>, one: nat -> nat, draw: (nat, nat) -> nat, c: nat)
    requires Shuffle(xs, one) == ys && forall i: nat :: draw(c, i) == one(i)
    ensures Shuffle(xs, (i: nat) => draw(c, i)) == ys
  {
    SameDraws(xs, |xs|, (i: nat) => draw(c, i), one);
  }

  /** The draws of two rounds of shuffles, one after the other. */
  lemma TwoRounds(xss: Shards, yss: Shards, zss: Shards, wss: Shards) returns (draw: (nat, nat) -> nat)
    requires Reordered(xss, yss) && Reordered(zss, wss)
    ensures ShuffleEach(xss, draw, 0) == yss && ShuffleEach(zss, draw, |xss|) == wss
  {
    var one := DrawsFor(xss, yss);
    var two := DrawsFor(zss, wss);
    draw := Joined(one, two);
    FirstRound(xss, yss, one, two);
    SecondRound(zss, wss, one, two);
  }

  lemma FirstRound(xss: Shards, yss: Shards, one: seq<nat -> nat>, two: seq<nat -> nat>)
    requires Draws(xss, yss, one)
    ensures ShuffleEach(xss, Joined(one, two), 0) == yss
  {
    JoinedAre(one, two);
    EachReaches(xss, yss, one, Joined(one, two), 0);
  }

  lemma SecondRound(zss: Shards, wss: Shards, one: seq<nat -> nat>, two: seq<nat -> nat>)
    requires Draws(zss, wss, two)
    ensures ShuffleEach(zss, Joined(one, two), |one|) == wss
  {
    JoinedAre(one, two);
    EachReaches(zss, wss, two, Joined(one, two), |one|);
  }

  lemma JoinedAre(one: seq<nat -> nat>, two: seq<nat -> nat>)
    ensures forall c: nat, i: nat :: c < |one| ==> Joined(one, two)(0 + c, i) == one[c](i)
    ensures forall c: nat, i: nat :: c < |two| ==> Joined(one, two)(|one| + c, i) == two[c](i)
  {
  }

  function Joined(one: seq<nat -> nat>, two: seq<nat -> nat>): (nat, nat) -> nat {
    (c: nat, i: nat) =>
      if c < |one| then one[c](i) else if c - |one| < |two| then two[c - |one|](i) else 0
  }

  /**
   Stratified shards: any order of every class may come up, and after dealing any order of every shard.
   */
  lemma StratifiedReach(classes: Shards, k: nat, orders: Shards, shards: Shards) returns (draw: (nat, nat) -> nat)
    requires k > 0 && Reordered(classes, orders) && Reordered(Deal(orders, EvenSizesOf(orders, k), k), shards)
    ensures StratifiedShards(classes, k, draw) == shards
  {
    draw := TwoRounds(classes, orders, Deal(orders, EvenSizesOf(orders, k), k), shards);
  }

  /** Non-IID shards likewise, with the sizes drawn for them. */
  lemma SkewedReach(classes: Shards, sizes: seq<seq<nat>>, k: nat, orders: Shards, shards: Shards)
    returns (draw: (nat, nat) -> nat)
    requires FitsClasses(classes, sizes, k) && Reordered(classes, orders) && FitsClasses(orders, sizes, k)
    requires Reordered(Deal(orders, sizes, k), shards)
    ensures SkewedShards(classes, sizes, k, draw) == shards
  {
    draw := TwoRounds(classes, orders, Deal(orders, sizes, k), shards);
  }

  // ---------------------------------------------------------------- proportions

  /** A shard's quota is its share of the proportions: quota : n = proportion : sum. */
  lemma QuotaIsShare(ws: seq<real>, n: nat, i: nat)
    requires SumReal(ws) > 0.0 && i < |ws|
    ensures Quotas(ws, n)[i] * SumReal(ws) == ws[i] * (n as real)
  {
    var sum := SumReal(ws);
    assert ws[i] / sum * sum == ws[i];
    assert ws[i] / sum * (n as real) * sum == ws[i] / sum * sum * (n as real);
  }
}
