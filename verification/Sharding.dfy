/**
 The four ways to split a dataset of `n` samples over `k` shards. Whatever the labels and the
 random draws, the shards hold every sample index exactly once.

 Random numbers are parameters: `draw(c, i)` is the number drawn for position `i` by the `c`-th
 shuffle, and Dirichlet proportions are arbitrary positive weights.
 */
module Sharding {
  import opened Collections

  type Shards = seq<seq<nat>>

  /** All indices in all shards, with multiplicity. */
  ghost function Contents(shards: Shards): multiset<nat> {
    if shards == [] then multiset{} else Contents(shards[..|shards| - 1]) + multiset(shards[|shards| - 1])
  }

  /** The shards hold each of 0..n-1 once and nothing else. */
  ghost predicate Partition(shards: Shards, n: nat) {
    Contents(shards) == multiset(Range(n))
  }

  // ---------------------------------------------------------------- cutting a list

  /** Consecutive pieces of the given sizes. */
  function Cut(xs: seq<nat>, sizes: seq<nat>): (r: Shards)
    requires Sum(sizes) == |xs|
    ensures |r| == |sizes|
    ensures forall i :: 0 <= i < |r| ==> |r[i]| == sizes[i]
    decreases |sizes|
  {
    if sizes == [] then []
    else
      var n := |sizes| - 1;
      var cut := |xs| - sizes[n];
      SumNonNegative(sizes[..n]);
      Cut(xs[..cut], sizes[..n]) + [xs[cut..]]
  }

  lemma {:induction false} SumNonNegative(sizes: seq<nat>)
    ensures Sum(sizes) >= 0
  {
    if sizes != [] {
      SumNonNegative(sizes[..|sizes| - 1]);
    }
  }

  lemma {:induction false} CutKeepsContents(xs: seq<nat>, sizes: seq<nat>)
    requires Sum(sizes) == |xs|
    ensures Contents(Cut(xs, sizes)) == multiset(xs)
    decreases |sizes|
  {
    if sizes != [] {
      var n := |sizes| - 1;
      var cut := |xs| - sizes[n];
      SumNonNegative(sizes[..n]);
      CutKeepsContents(xs[..cut], sizes[..n]);
      assert xs == xs[..cut] + xs[cut..];
      assert Cut(xs, sizes)[..n] == Cut(xs[..cut], sizes[..n]);
    } else {
      assert xs == [];
    }
  }

  lemma SliceOfPrefix<T>(xs: seq<T>, cut: nat, start: nat, end: nat)
    requires start <= end <= cut <= |xs|
    ensures xs[..cut][start..end] == xs[start..end]
  {
  }

  /** Where piece `i` lies: from the sum of the sizes before it. */
  lemma {:induction false} CutPosition(xs: seq<nat>, sizes: seq<nat>, i: nat)
    requires Sum(sizes) == |xs| && i < |sizes|
    ensures 0 <= Sum(sizes[..i]) <= Sum(sizes[..i]) + sizes[i] <= |xs|
    ensures Cut(xs, sizes)[i] == xs[Sum(sizes[..i])..Sum(sizes[..i]) + sizes[i]]
    decreases |sizes|
  {
    var n := |sizes| - 1;
    var cut := |xs| - sizes[n];
    SumNonNegative(sizes[..n]);
    SumNonNegative(sizes[..i]);
    if i < n {
      CutPosition(xs[..cut], sizes[..n], i);
      assert sizes[..n][..i] == sizes[..i];
      SliceOfPrefix(xs, cut, Sum(sizes[..i]), Sum(sizes[..i]) + sizes[i]);
    } else {
      assert sizes[..i] == sizes[..n];
    }
  }

  /** `n / k` for every shard, and the rest for the last one. */
  function EvenSizes(n: nat, k: nat): (sizes: seq<nat>)
    requires k > 0
    ensures |sizes| == k
    ensures forall i :: 0 <= i < k - 1 ==> sizes[i] == n / k
    ensures sizes[k - 1] == n / k + n % k
  {
    seq(k, i => if i == k - 1 then n / k + n % k else n / k)
  }

  lemma {:induction false} SumConstant(sizes: seq<nat>, c: nat)
    requires forall i :: 0 <= i < |sizes| ==> sizes[i] == c
    ensures Sum(sizes) == |sizes| * c
  {
    if sizes != [] {
      SumConstant(sizes[..|sizes| - 1], c);
    }
  }

  lemma EvenSizesSum(n: nat, k: nat)
    requires k > 0
    ensures Sum(EvenSizes(n, k)) == n
    ensures forall i :: 0 <= i < k ==> Sum(EvenSizes(n, k)[..i]) == i * (n / k)
  {
    forall i | 0 <= i < k ensures Sum(EvenSizes(n, k)[..i]) == i * (n / k) {
      SumConstant(EvenSizes(n, k)[..i], n / k);
    }
    WholePieces(n, k, k - 1);
  }

  /** The slice bounds the source computes, for shards of `q` samples and a last one with the rest. */
  lemma EvenCutPosition(xs: seq<nat>, k: nat, q: nat, i: nat)
    requires i < k && q == |xs| / k
    ensures Sum(EvenSizes(|xs|, k)) == |xs|
    ensures var end := if i == k - 1 then |xs| else i * q + q;
            0 <= i * q <= end <= |xs| && Cut(xs, EvenSizes(|xs|, k))[i] == xs[i * q..end]
  {
    var sizes := EvenSizes(|xs|, k);
    EvenSizesSum(|xs|, k);
    WholePieces(|xs|, k, i);
    CutPosition(xs, sizes, i);
    var start := i * q;
    assert Sum(sizes[..i]) == start;
    assert start + sizes[i] == if i == k - 1 then |xs| else start + q;
  }

  lemma WholePieces(n: nat, k: nat, i: nat)
    requires i < k
    ensures 0 <= i * (n / k) <= i * (n / k) + n / k <= n
    ensures i == k - 1 ==> i * (n / k) + n / k + n % k == n
  {
    var q, r := n / k, n % k;
    assert n == k * q + r;
    Distribute(i, k - 1 - i, q);
  }

  lemma Distribute(a: nat, b: nat, q: nat)
    ensures (a + b) * q == a * q + b * q
    ensures (a + b + 1) * q == a * q + b * q + q
    ensures b * q >= 0 && a * q >= 0
  {
  }

  // ---------------------------------------------------------------- dealing classes to shards

  function Join(a: Shards, b: Shards): (r: Shards)
    requires |a| == |b|
    ensures |r| == |a| && forall i :: 0 <= i < |r| ==> r[i] == a[i] + b[i]
  {
    seq(|a|, i requires 0 <= i < |a| => a[i] + b[i])
  }

  lemma {:induction false} JoinContents(a: Shards, b: Shards)
    requires |a| == |b|
    ensures Contents(Join(a, b)) == Contents(a) + Contents(b)
  {
    if a != [] {
      var n := |a| - 1;
      JoinContents(a[..n], b[..n]);
      assert Join(a, b)[..n] == Join(a[..n], b[..n]);
    }
  }

  ghost predicate FitsClasses(classes: Shards, sizes: seq<seq<nat>>, k: nat) {
    && |sizes| == |classes|
    && forall c :: 0 <= c < |classes| ==> |sizes[c]| == k && Sum(sizes[c]) == |classes[c]|
  }

  /** Every class is cut into `k` pieces and shard `i` collects the i-th piece of each. */
  function Deal(classes: Shards, sizes: seq<seq<nat>>, k: nat): (r: Shards)
    requires FitsClasses(classes, sizes, k)
    ensures |r| == k
  {
    if classes == [] then seq(k, _ => [])
    else
      var n := |classes| - 1;
      Join(Deal(classes[..n], sizes[..n], k), Cut(classes[n], sizes[n]))
  }

  lemma {:induction false} EmptyContents(shards: Shards)
    requires forall i :: 0 <= i < |shards| ==> shards[i] == []
    ensures Contents(shards) == multiset{}
  {
    if shards != [] {
      EmptyContents(shards[..|shards| - 1]);
    }
  }

  /** Dealing loses and duplicates nothing. */
  lemma {:induction false} DealKeepsContents(classes: Shards, sizes: seq<seq<nat>>, k: nat)
    requires FitsClasses(classes, sizes, k)
    ensures Contents(Deal(classes, sizes, k)) == Contents(classes)
  {
    if classes == [] {
      EmptyContents(Deal(classes, sizes, k));
    } else {
      var n := |classes| - 1;
      DealKeepsContents(classes[..n], sizes[..n], k);
      JoinContents(Deal(classes[..n], sizes[..n], k), Cut(classes[n], sizes[n]));
      CutKeepsContents(classes[n], sizes[n]);
    }
  }

  /** Each list shuffled on its own, with the draws of shuffles `first`, `first + 1`, ... */
  function ShuffleEach(xss: Shards, draw: (nat, nat) -> nat, first: nat): (r: Shards)
    ensures |r| == |xss|
    ensures forall i :: 0 <= i < |r| ==> multiset(r[i]) == multiset(xss[i]) && |r[i]| == |xss[i]|
  {
    seq(|xss|, c requires 0 <= c < |xss| => Shuffle(xss[c], i => draw(first + c, i)))
  }

  lemma {:induction false} SameContents(a: Shards, b: Shards)
    requires |a| == |b| && forall i :: 0 <= i < |a| ==> multiset(a[i]) == multiset(b[i])
    ensures Contents(a) == Contents(b)
  {
    if a != [] {
      SameContents(a[..|a| - 1], b[..|b| - 1]);
    }
  }

  // ---------------------------------------------------------------- the strategies

  /** The random numbers of the `c`-th shuffle. */
  function DrawsOf(draw: (nat, nat) -> nat, c: nat): nat -> nat {
    i => draw(c, i)
  }

  /** Shuffled indices, cut evenly. */
  function RandomShards(n: nat, k: nat, draw: (nat, nat) -> nat): Shards
    requires k > 0
  {
    EvenSizesSum(n, k);
    Cut(Shuffle(Range(n), DrawsOf(draw, 0)), EvenSizes(n, k))
  }

  function SequentialShards(n: nat, k: nat): Shards
    requires k > 0
  {
    EvenSizesSum(n, k);
    Cut(Range(n), EvenSizes(n, k))
  }

  function EvenSizesOf(classes: Shards, k: nat): (sizes: seq<seq<nat>>)
    requires k > 0
    ensures FitsClasses(classes, sizes, k)
  {
    assert forall c :: 0 <= c < |classes| ==> Sum(EvenSizes(|classes[c]|, k)) == |classes[c]| by {
      forall c | 0 <= c < |classes| ensures Sum(EvenSizes(|classes[c]|, k)) == |classes[c]| {
        EvenSizesSum(|classes[c]|, k);
      }
    }
    seq(|classes|, c requires 0 <= c < |classes| => EvenSizes(|classes[c]|, k))
  }

  /** Classes shuffled, each cut evenly over the shards, every shard shuffled at the end. */
  function StratifiedShards(classes: Shards, k: nat, draw: (nat, nat) -> nat): Shards
    requires k > 0
  {
    var shuffled := ShuffleEach(classes, draw, 0);
    ShuffleEach(Deal(shuffled, EvenSizesOf(shuffled, k), k), draw, |classes|)
  }

  /** As the stratified shards, with given sizes in place of even ones. */
  function SkewedShards(classes: Shards, sizes: seq<seq<nat>>, k: nat, draw: (nat, nat) -> nat): Shards
    requires FitsClasses(classes, sizes, k)
  {
    ShuffleEach(Deal(ShuffleEach(classes, draw, 0), sizes, k), draw, |classes|)
  }

  lemma EvenShardsPartition(n: nat, k: nat, draw: (nat, nat) -> nat)
    requires k > 0
    ensures Partition(RandomShards(n, k, draw), n) && |RandomShards(n, k, draw)| == k
    ensures Partition(SequentialShards(n, k), n) && |SequentialShards(n, k)| == k
  {
    EvenSizesSum(n, k);
    CutKeepsContents(Shuffle(Range(n), DrawsOf(draw, 0)), EvenSizes(n, k));
    CutKeepsContents(Range(n), EvenSizes(n, k));
  }

  lemma SkewedShardsPartition(classes: Shards, sizes: seq<seq<nat>>, k: nat, draw: (nat, nat) -> nat, n: nat)
    requires FitsClasses(classes, sizes, k) && Partition(classes, n)
    ensures Partition(SkewedShards(classes, sizes, k, draw), n) && |SkewedShards(classes, sizes, k, draw)| == k
  {
    var shuffled := ShuffleEach(classes, draw, 0);
    SameContents(shuffled, classes);
    var dealt := Deal(shuffled, sizes, k);
    DealKeepsContents(shuffled, sizes, k);
    SameContents(ShuffleEach(dealt, draw, |classes|), dealt);
  }

  lemma StratifiedShardsPartition(classes: Shards, k: nat, draw: (nat, nat) -> nat, n: nat)
    requires k > 0 && Partition(classes, n)
    ensures Partition(StratifiedShards(classes, k, draw), n) && |StratifiedShards(classes, k, draw)| == k
  {
    var shuffled := ShuffleEach(classes, draw, 0);
    SkewedShardsPartition(classes, EvenSizesOf(shuffled, k), k, draw, n);
  }

  // ---------------------------------------------------------------- classes within shards

  /** Sample `i` carries the class name `name`. */
  function HasName(names: seq<string>, name: string): nat -> bool {
    (i: nat) => i < |names| && names[i] == name
  }

  /** The groups are the classes of `names`: group `c` holds samples named `order[c]` only. */
  ghost predicate GroupedBy(classes: Shards, order: seq<string>, names: seq<string>) {
    && |classes| == |order| && Distinct(order)
    && forall c :: 0 <= c < |classes| ==> AllNamed(classes[c], names, order[c])
  }

  ghost predicate AllNamed(xs: seq<nat>, names: seq<string>, name: string) {
    forall x :: x in xs ==> x < |names| && names[x] == name
  }

  lemma {:induction false} CutMembers(xs: seq<nat>, sizes: seq<nat>, i: nat)
    requires Sum(sizes) == |xs| && i < |sizes|
    ensures forall x :: x in Cut(xs, sizes)[i] ==> x in xs
  {
    CutPosition(xs, sizes, i);
  }

  /** The part of class `n` in shard `i` counts fully for its own name and not at all for another. */
  lemma PieceCount(xs: seq<nat>, sizes: seq<nat>, names: seq<string>, own: string, i: nat, name: string)
    requires Sum(sizes) == |xs| && i < |sizes| && AllNamed(xs, names, own)
    ensures Count(Cut(xs, sizes)[i], HasName(names, name)) == if name == own then sizes[i] else 0
  {
    CutMembers(xs, sizes, i);
    CountAll(Cut(xs, sizes)[i], HasName(names, name), name == own);
  }

  /** The last class adds its own part to what the others put into shard `i`. */
  lemma LastClassCount(classes: Shards, order: seq<string>, names: seq<string>, sizes: seq<seq<nat>>, k: nat, i: nat,
                       name: string)
    requires GroupedBy(classes, order, names) && FitsClasses(classes, sizes, k) && i < k && classes != []
    ensures var n := |classes| - 1;
            FitsClasses(classes[..n], sizes[..n], k)
            && Count(Deal(classes, sizes, k)[i], HasName(names, name))
                 == Count(Deal(classes[..n], sizes[..n], k)[i], HasName(names, name))
                     + (if name == order[n] then sizes[n][i] else 0)
  {
    var n := |classes| - 1;
    PieceCount(classes[n], sizes[n], names, order[n], i, name);
    CountAppend(Deal(classes[..n], sizes[..n], k)[i], Cut(classes[n], sizes[n])[i], HasName(names, name));
  }

  lemma {:induction false} DealtCount(classes: Shards, order: seq<string>, names: seq<string>, sizes: seq<seq<nat>>,
                                      k: nat, i: nat, c: nat)
    requires GroupedBy(classes, order, names) && FitsClasses(classes, sizes, k) && i < k && c < |order|
    ensures Count(Deal(classes, sizes, k)[i], HasName(names, order[c])) == sizes[c][i]
  {
    var n := |classes| - 1;
    LastClassCount(classes, order, names, sizes, k, i, order[c]);
    GroupedPrefix(classes, order, names);
    if c < n {
      DealtCount(classes[..n], order[..n], names, sizes[..n], k, i, c);
    } else {
      DealtNone(classes[..n], order[..n], names, sizes[..n], k, i, order[c]);
    }
  }

  lemma GroupedPrefix(classes: Shards, order: seq<string>, names: seq<string>)
    requires GroupedBy(classes, order, names) && classes != []
    ensures var n := |classes| - 1;
            GroupedBy(classes[..n], order[..n], names) && order[n] !in order[..n]
    ensures forall o :: o in order[..|classes| - 1] ==> o in order
  {
  }

  lemma {:induction false} DealtNone(classes: Shards, order: seq<string>, names: seq<string>, sizes: seq<seq<nat>>,
                                     k: nat, i: nat, name: string)
    requires GroupedBy(classes, order, names) && FitsClasses(classes, sizes, k) && i < k && name !in order
    ensures Count(Deal(classes, sizes, k)[i], HasName(names, name)) == 0
  {
    if classes != [] {
      var n := |classes| - 1;
      LastClassCount(classes, order, names, sizes, k, i, name);
      GroupedPrefix(classes, order, names);
      DealtNone(classes[..n], order[..n], names, sizes[..n], k, i, name);
    }
  }

  lemma ShuffledGroups(classes: Shards, order: seq<string>, names: seq<string>, draw: (nat, nat) -> nat)
    requires GroupedBy(classes, order, names)
    ensures GroupedBy(ShuffleEach(classes, draw, 0), order, names)
  {
    var shuffled := ShuffleEach(classes, draw, 0);
    forall c: nat | c < |classes| ensures AllNamed(shuffled[c], names, order[c]) {
      SameMembers(shuffled[c], classes[c]);
    }
  }

  lemma SameMembers<T>(xs: seq<T>, ys: seq<T>)
    requires multiset(xs) == multiset(ys)
    ensures forall x :: x in xs <==> x in ys
  {
    assert forall x :: x in xs <==> x in multiset(xs);
    assert forall x :: x in ys <==> x in multiset(ys);
  }

  /** A skewed shard holds of each class exactly the number it was allotted. */
  lemma SkewedClassCount(classes: Shards, order: seq<string>, names: seq<string>, sizes: seq<seq<nat>>,
                         k: nat, draw: (nat, nat) -> nat, i: nat, c: nat)
    requires GroupedBy(classes, order, names) && FitsClasses(classes, sizes, k) && i < k && c < |order|
    ensures Count(SkewedShards(classes, sizes, k, draw)[i], HasName(names, order[c])) == sizes[c][i]
  {
    var shuffled := ShuffleEach(classes, draw, 0);
    var dealt := Deal(shuffled, sizes, k);
    ShuffledGroups(classes, order, names, draw);
    DealtCount(shuffled, order, names, sizes, k, i, c);
    CountPermuted(SkewedShards(classes, sizes, k, draw)[i], dealt[i], HasName(names, order[c]));
  }

  /** Every stratified shard has floor(n_c / k) samples of class c, and the last one also the rest. */
  lemma StratifiedClassCount(classes: Shards, order: seq<string>, names: seq<string>,
                             k: nat, draw: (nat, nat) -> nat, i: nat, c: nat)
    requires GroupedBy(classes, order, names) && i < k && c < |order|
    ensures Count(StratifiedShards(classes, k, draw)[i], HasName(names, order[c]))
              == |classes[c]| / k + (if i == k - 1 then |classes[c]| % k else 0)
  {
    var shuffled := ShuffleEach(classes, draw, 0);
    SkewedClassCount(classes, order, names, EvenSizesOf(shuffled, k), k, draw, i, c);
  }
}
