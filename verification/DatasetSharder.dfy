/**
 The dataset sharder object: it groups the samples by class once, keeps the groups (and shuffles
 them in place), and builds the shards of the configured strategy with running loops.
 */
module DatasetSharding {
  import opened Collections
  import opened Sharding
  import opened Apportionment

  datatype Strategy = Random | Stratified | NonIid | Sequential
  datatype ShardMetadata = ShardMetadata(
    shardId: nat, totalShards: nat, indices: seq<nat>, classDistribution: map<string, nat>, sizeBytes: int)
  datatype Result = Shards(shards: seq<ShardMetadata>) | ValueError

  // ---------------------------------------------------------------- grouping

  lemma {:induction false} AddSample(groups: Shards, g: nat, i: nat)
    requires g < |groups|
    ensures Contents(groups[g := groups[g] + [i]]) == Contents(groups) + multiset{i}
  {
    var n := |groups| - 1;
    var bigger := groups[g := groups[g] + [i]];
    if g < n {
      AddSample(groups[..n], g, i);
      assert bigger[..n] == groups[..n][g := groups[g] + [i]];
    } else {
      assert bigger[..n] == groups[..n];
    }
  }

  /** Groups list their samples in ascending order, and come in the order of their first samples. */
  ghost predicate FirstMet(groups: Shards) {
    && (forall c :: 0 <= c < |groups| ==> groups[c] != [])
    && (forall c, p, q :: 0 <= c < |groups| && 0 <= p < q < |groups[c]| ==> groups[c][p] < groups[c][q])
    && (forall c, d :: 0 <= c < d < |groups| ==> groups[c][0] < groups[d][0])
  }

  ghost predicate InOrder(groups: Shards, i: nat) {
    FirstMet(groups) && forall c :: 0 <= c < |groups| ==> groups[c][|groups[c]| - 1] < i
  }

  lemma FirstMetOld(groups: Shards, g: nat, i: nat)
    requires InOrder(groups, i) && g < |groups|
    ensures InOrder(groups[g := groups[g] + [i]], i + 1)
  {
    var bigger := groups[g := groups[g] + [i]];
    forall c, p, q | 0 <= c < |bigger| && 0 <= p < q < |bigger[c]| ensures bigger[c][p] < bigger[c][q] {
      if c == g && q == |groups[g]| && p < |groups[g]| - 1 {
        assert groups[g][p] < groups[g][|groups[g]| - 1];
      }
    }
  }

  lemma FirstMetNew(groups: Shards, i: nat)
    requires InOrder(groups, i)
    ensures InOrder(groups + [[i]], i + 1)
  {
    forall c | 0 <= c < |groups| ensures groups[c][0] < i {
      if |groups[c]| > 1 {
        assert groups[c][0] < groups[c][|groups[c]| - 1];
      }
    }
  }

  /** The grouping of the first `i` samples, with an index from class name to group. */
  ghost predicate Grouping(order: seq<string>, groups: Shards, positions: map<string, nat>, names: seq<string>, i: nat)
  {
    && |order| == |groups| && i <= |names|
    && (forall c :: c in order ==> c in positions)
    && (forall c :: c in positions ==> positions[c] < |order| && order[positions[c]] == c)
    && GroupedBy(groups, order, names)
    && Partition(groups, i)
  }

  lemma GroupOld(order: seq<string>, groups: Shards, positions: map<string, nat>, names: seq<string>, i: nat)
    requires Grouping(order, groups, positions, names, i) && i < |names| && names[i] in positions
    ensures var g := positions[names[i]];
            Grouping(order, groups[g := groups[g] + [i]], positions, names, i + 1)
  {
    var g := positions[names[i]];
    AddSample(groups, g, i);
    assert Range(i + 1) == Range(i) + [i];
    assert AllNamed(groups[g], names, order[g]);
  }

  lemma GroupNew(order: seq<string>, groups: Shards, positions: map<string, nat>, names: seq<string>, i: nat)
    requires Grouping(order, groups, positions, names, i) && i < |names| && names[i] !in positions
    ensures Grouping(order + [names[i]], groups + [[i]], positions[names[i] := |order|], names, i + 1)
  {
    assert Range(i + 1) == Range(i) + [i];
  }

  // ---------------------------------------------------------------- sums over a distribution

  ghost function ValueSum(m: map<string, nat>): nat {
    if m == map[] then 0 else var c :| c in m; m[c] + ValueSum(m - {c})
  }

  lemma {:induction false} ValueSumSplit(m: map<string, nat>, c: string)
    requires c in m
    ensures ValueSum(m) == m[c] + ValueSum(m - {c})
    decreases |m|
  {
    var d :| d in m && ValueSum(m) == m[d] + ValueSum(m - {d});
    if c != d {
      assert |m - {d}| == |m| - 1 && |m - {c}| == |m| - 1;
      ValueSumSplit(m - {d}, c);
      ValueSumSplit(m - {c}, d);
      assert m - {d} - {c} == m - {c} - {d};
    }
  }

  lemma ValueSumBump(m: map<string, nat>, c: string)
    ensures ValueSum(m[c := (if c in m then m[c] else 0) + 1]) == ValueSum(m) + 1
  {
    var bigger := m[c := (if c in m then m[c] else 0) + 1];
    ValueSumSplit(bigger, c);
    if c in m {
      ValueSumSplit(m, c);
      assert bigger - {c} == m - {c};
    } else {
      assert bigger - {c} == m;
    }
  }

  /** A class name is present exactly when it counts, and its entry is the count. */
  ghost predicate Distribution(dist: map<string, nat>, indices: seq<nat>, names: seq<string>) {
    && (forall c :: c in dist <==> Count(indices, HasName(names, c)) > 0)
    && (forall c :: c in dist ==> dist[c] == Count(indices, HasName(names, c)))
  }

  lemma CountOneMore(dist: map<string, nat>, indices: seq<nat>, names: seq<string>, x: nat)
    requires Distribution(dist, indices, names) && x < |names|
    ensures Distribution(dist[names[x] := (if names[x] in dist then dist[names[x]] else 0) + 1], indices + [x], names)
  {
    var bigger := dist[names[x] := (if names[x] in dist then dist[names[x]] else 0) + 1];
    forall c
      ensures c in bigger <==> Count(indices + [x], HasName(names, c)) > 0
      ensures c in bigger ==> bigger[c] == Count(indices + [x], HasName(names, c))
    {
      CountAppend(indices, [x], HasName(names, c));
      assert Count([x], HasName(names, c)) == if names[x] == c then 1 else 0;
    }
  }

  lemma DistributionNext(dist: map<string, nat>, indices: seq<nat>, names: seq<string>, i: nat)
    requires i < |indices| && indices[i] < |names| && Distribution(dist, indices[..i], names)
    ensures var name := names[indices[i]];
            var next := dist[name := (if name in dist then dist[name] else 0) + 1];
            Distribution(next, indices[..i + 1], names) && ValueSum(next) == ValueSum(dist) + 1
  {
    assert indices[..i + 1] == indices[..i] + [indices[i]];
    CountOneMore(dist, indices[..i], names, indices[i]);
    ValueSumBump(dist, names[indices[i]]);
  }

  // ---------------------------------------------------------------- estimated sizes

  function EstimateShardSize(samples: nat, totalBytes: nat, total: nat): int
    requires total > 0
  {
    ((samples as real) * ((totalBytes as real) / (total as real))).Floor
  }

  function EstimatedSizes(sizes: seq<nat>, totalBytes: nat, total: nat): (r: seq<int>)
    requires total > 0
    ensures |r| == |sizes|
  {
    seq(|sizes|, i requires 0 <= i < |sizes| => EstimateShardSize(sizes[i], totalBytes, total))
  }

  /** `n` estimates add up to at most the exact share and fall short by less than one each. */
  ghost predicate Near(sum: int, exact: real, n: nat) {
    sum as real <= exact && exact - (n as real) <= sum as real && (n > 0 ==> exact - (n as real) < sum as real)
  }

  lemma NearNext(sum: int, exact: real, n: nat, one: int, share: real)
    requires Near(sum, exact, n) && share - 1.0 < one as real <= share
    ensures Near(sum + one, exact + share, n + 1)
  {
  }

  function Share(samples: int, rate: real): real {
    (samples as real) * rate
  }

  lemma {:induction false} EstimatedPrefix(sizes: seq<nat>, totalBytes: nat, total: nat, rate: real)
    requires total > 0 && rate == (totalBytes as real) / (total as real)
    ensures Near(Sum(EstimatedSizes(sizes, totalBytes, total)), Share(Sum(sizes), rate), |sizes|)
  {
    if sizes != [] {
      var n := |sizes| - 1;
      assert EstimatedSizes(sizes, totalBytes, total)[..n] == EstimatedSizes(sizes[..n], totalBytes, total);
      EstimatedPrefix(sizes[..n], totalBytes, total, rate);
      NearNext(Sum(EstimatedSizes(sizes[..n], totalBytes, total)), Share(Sum(sizes[..n]), rate), n,
               EstimateShardSize(sizes[n], totalBytes, total), Share(sizes[n], rate));
    }
  }

  /** The estimates never exceed the dataset's bytes and fall short by less than one per shard. */
  lemma EstimatesAddUp(sizes: seq<nat>, totalBytes: nat, total: nat)
    requires total > 0 && Sum(sizes) == total
    ensures totalBytes - |sizes| < Sum(EstimatedSizes(sizes, totalBytes, total)) <= totalBytes
  {
    var rate := WholeRate(totalBytes, total);
    EstimatedPrefix(sizes, totalBytes, total, rate);
  }

  lemma WholeRate(totalBytes: nat, total: nat) returns (rate: real)
    requires total > 0
    ensures rate == (totalBytes as real) / (total as real) && Share(total, rate) == totalBytes as real
  {
    rate := (totalBytes as real) / (total as real);
  }

  function Lengths(shards: Shards): (r: seq<nat>)
    ensures |r| == |shards| && forall i :: 0 <= i < |r| ==> r[i] == |shards[i]|
  {
    seq(|shards|, i requires 0 <= i < |shards| => |shards[i]|)
  }

  lemma {:induction false} LengthsAddUp(shards: Shards)
    ensures Sum(Lengths(shards)) == |Contents(shards)|
  {
    if shards != [] {
      var n := |shards| - 1;
      LengthsAddUp(shards[..n]);
      assert Lengths(shards)[..n] == Lengths(shards[..n]);
    }
  }

  /** For any partition of the dataset into shards. */
  lemma ShardEstimates(shards: Shards, totalBytes: nat, total: nat)
    requires total > 0 && Partition(shards, total)
    ensures totalBytes - |shards| < Sum(EstimatedSizes(Lengths(shards), totalBytes, total)) <= totalBytes
  {
    LengthsAddUp(shards);
    EstimatesAddUp(Lengths(shards), totalBytes, total);
  }

  // ---------------------------------------------------------------- the sharder

  lemma ConsecutivePieces(n: nat, k: nat, i: nat, j: nat, x: nat, y: nat)
    requires i < j < k && Sum(EvenSizes(n, k)) == n
    requires x in Cut(Range(n), EvenSizes(n, k))[i] && y in Cut(Range(n), EvenSizes(n, k))[j]
    ensures x < y
  {
    var q := n / k;
    EvenCutPosition(Range(n), k, q, i);
    EvenCutPosition(Range(n), k, q, j);
    Distribute(i, j - 1 - i, q);
    assert x < i * q + q;
    assert j * q <= y;
  }

  /** The proportions of class `c` over the `k` shards. */
  function Proportions(dirichlet: (nat, nat) -> real, c: nat, k: nat): (ws: seq<real>)
    ensures |ws| == k && forall i :: 0 <= i < k ==> ws[i] == dirichlet(c, i)
  {
    seq(k, i requires 0 <= i => dirichlet(c, i))
  }

  /** Every shard gets its quota of the `n` samples rounded down, or one more. */
  ghost predicate NearQuota(sizes: seq<nat>, ws: seq<real>, n: nat) {
    && SumReal(ws) > 0.0 && |sizes| == |ws|
    && forall i :: 0 <= i < |ws| ==>
         sizes[i] == Quotas(ws, n)[i].Floor || sizes[i] == Quotas(ws, n)[i].Floor + 1
  }

  /** How many samples of one class each shard holds. */
  function ClassCounts(shards: Shards, names: seq<string>, name: string): (r: seq<nat>)
    ensures |r| == |shards|
  {
    seq(|shards|, i requires 0 <= i < |shards| => Count(shards[i], HasName(names, name)))
  }

  lemma SkewedCounts(classes: Shards, order: seq<string>, names: seq<string>, sizes: seq<seq<nat>>,
                     k: nat, draw: (nat, nat) -> nat, c: nat)
    requires GroupedBy(classes, order, names) && FitsClasses(classes, sizes, k) && c < |order|
    ensures ClassCounts(SkewedShards(classes, sizes, k, draw), names, order[c]) == sizes[c]
  {
    var shards := SkewedShards(classes, sizes, k, draw);
    forall i: nat | i < k ensures ClassCounts(shards, names, order[c])[i] == sizes[c][i] {
      SkewedClassCount(classes, order, names, sizes, k, draw, i, c);
    }
  }

  /** Each shard holds an even share of each class, the last shard also what is left over. */
  ghost predicate EvenlyStratified(shards: Shards, groups: Shards, order: seq<string>, names: seq<string>, k: nat)
    requires |shards| == k && |groups| == |order|
  {
    forall i, c :: 0 <= i < k && 0 <= c < |order| ==>
      Count(shards[i], HasName(names, order[c])) == |groups[c]| / k + (if i == k - 1 then |groups[c]| % k else 0)
  }

  lemma StratifiedResult(classes: Shards, order: seq<string>, names: seq<string>, k: nat, draw: (nat, nat) -> nat,
                         n: nat)
    requires k > 0 && GroupedBy(classes, order, names) && Partition(classes, n)
    ensures var shards := StratifiedShards(classes, k, draw);
            && |shards| == k && Partition(shards, n)
            && EvenlyStratified(shards, ShuffleEach(classes, draw, 0), order, names, k)
  {
    StratifiedShardsPartition(classes, k, draw, n);
    forall i: nat, c: nat | i < k && c < |order|
      ensures Count(StratifiedShards(classes, k, draw)[i], HasName(names, order[c]))
                == |classes[c]| / k + (if i == k - 1 then |classes[c]| % k else 0)
    {
      StratifiedClassCount(classes, order, names, k, draw, i, c);
    }
  }

  lemma SkewedResult(classes: Shards, order: seq<string>, names: seq<string>, sizes: seq<seq<nat>>, k: nat,
                     draw: (nat, nat) -> nat, n: nat)
    requires GroupedBy(classes, order, names) && Partition(classes, n) && FitsClasses(classes, sizes, k)
    ensures var shards := SkewedShards(classes, sizes, k, draw);
            && |shards| == k && Partition(shards, n)
            && forall c :: 0 <= c < |order| ==> ClassCounts(shards, names, order[c]) == sizes[c]
  {
    SkewedShardsPartition(classes, sizes, k, draw, n);
    forall c: nat | c < |order|
      ensures ClassCounts(SkewedShards(classes, sizes, k, draw), names, order[c]) == sizes[c]
    {
      SkewedCounts(classes, order, names, sizes, k, draw, c);
    }
  }

  /** What each strategy promises of its shards, beyond being a partition. */
  ghost predicate ByStrategy(strategy: Strategy, shards: Shards, k: nat, total: nat, names: seq<string>,
                             order: seq<string>, groups: Shards, dirichlet: (nat, nat) -> real,
                             draw: (nat, nat) -> nat)
  {
    match strategy
    case Random => k > 0 && shards == RandomShards(total, k, draw)
    case Sequential => k > 0 && shards == SequentialShards(total, k)
    case Stratified => |shards| == k > 0 && |groups| == |order| && EvenlyStratified(shards, groups, order, names, k)
    case NonIid =>
      && |groups| == |order|
      && forall c :: 0 <= c < |order| ==>
           NearQuota(ClassCounts(shards, names, order[c]), Proportions(dirichlet, c, k), |groups[c]|)
  }

  /** An estimate is the share of the bytes, rounded down. */
  lemma EstimateIsShare(samples: nat, totalBytes: nat, total: nat)
    requires total > 0
    ensures var e := EstimateShardSize(samples, totalBytes, total);
            e * total <= samples * totalBytes < (e + 1) * total
  {
    var e := EstimateShardSize(samples, totalBytes, total);
    var exact := (samples as real) * ((totalBytes as real) / (total as real));
    ExactTotal(samples, totalBytes, total, exact);
    AtMostTotal(e, total, exact, samples * totalBytes);
    AboveTotal(e + 1, total, exact, samples * totalBytes);
  }

  lemma ExactTotal(samples: nat, totalBytes: nat, total: nat, exact: real)
    requires total > 0 && exact == (samples as real) * ((totalBytes as real) / (total as real))
    ensures exact * (total as real) == (samples * totalBytes) as real
  {
    WholeShare(samples as real, totalBytes as real, total as real, exact);
    Product(samples, totalBytes);
  }

  lemma AtMostTotal(e: int, n: nat, exact: real, whole: int)
    requires e as real <= exact && exact * (n as real) == whole as real
    ensures e * n <= whole
  {
    Scale(e as real, exact, n as real);
    Product(e, n);
  }

  lemma AboveTotal(e: int, n: nat, exact: real, whole: int)
    requires n > 0 && exact < e as real && exact * (n as real) == whole as real
    ensures whole < e * n
  {
    StrictScale(exact, e as real, n as real);
    Product(e, n);
  }

  lemma Product(a: int, b: int)
    ensures (a as real) * (b as real) == (a * b) as real
  {
  }

  lemma WholeShare(a: real, b: real, n: real, exact: real)
    requires n > 0.0 && exact == a * (b / n)
    ensures exact * n == a * b
  {
    var f := b / n;
    assert f * n == b;
    assert a * f * n == a * (f * n);
  }

  lemma Scale(a: real, b: real, c: real)
    requires a <= b && c >= 0.0
    ensures a * c <= b * c
  {
  }

  lemma StrictScale(a: real, b: real, c: real)
    requires a < b && c > 0.0
    ensures a * c < b * c
  {
  }

  class DatasetSharder {
    const total: nat
    const totalBytes: nat
    const names: seq<string>   // class or bucket name of every sample
    var order: seq<string>     // class names in the order first met
    var groups: Shards         // their samples, shuffled in place by some strategies
    var cached: bool

    ghost predicate Valid()
      reads this
    {
      |names| == total && (cached ==> GroupedBy(groups, order, names) && Partition(groups, total))
    }

    constructor (names: seq<string>, totalBytes: nat)
      ensures Valid() && !cached && this.names == names && total == |names| && this.totalBytes == totalBytes
    {
      this.names, this.total, this.totalBytes := names, |names|, totalBytes;
      order, groups, cached := [], [], false;
    }

    /** Sample `i` joins the group of its name, or starts a new one. */
    method PlaceSample(known: seq<string>, grouped: Shards, positions: map<string, nat>, i: nat)
      returns (order': seq<string>, groups': Shards, positions': map<string, nat>)
      requires i < |names| && Grouping(known, grouped, positions, names, i) && InOrder(grouped, i)
      ensures Grouping(order', groups', positions', names, i + 1) && InOrder(groups', i + 1)
    {
      if names[i] in positions {
        var g := positions[names[i]];
        GroupOld(known, grouped, positions, names, i);
        FirstMetOld(grouped, g, i);
        return known, grouped[g := grouped[g] + [i]], positions;
      }
      GroupNew(known, grouped, positions, names, i);
      FirstMetNew(grouped, i);
      return known + [names[i]], grouped + [[i]], positions[names[i] := |known|];
    }

    method GroupSamplesByClass()
      requires Valid()
      modifies this
      ensures Valid() && cached
      ensures old(cached) ==> order == old(order) && groups == old(groups)
      ensures !old(cached) ==> FirstMet(groups)
    {
      if cached {
        return;
      }
      order, groups := [], [];
      var positions: map<string, nat> := map[];
      for i := 0 to total
        invariant Grouping(order, groups, positions, names, i) && InOrder(groups, i)
      {
        order, groups, positions := PlaceSample(order, groups, positions, i);
      }
      cached := true;
    }

    /** Counts per class name: positive exactly for the classes present, adding up to the size. */
    method CalculateClassDistribution(indices: seq<nat>) returns (dist: map<string, nat>)
      requires forall x :: x in indices ==> x < |names|
      ensures Distribution(dist, indices, names) && ValueSum(dist) == |indices|
    {
      dist := map[];
      for i := 0 to |indices|
        invariant Distribution(dist, indices[..i], names) && ValueSum(dist) == i
      {
        assert indices[i] in indices;
        var name := names[indices[i]];
        DistributionNext(dist, indices, names, i);
        dist := dist[name := (if name in dist then dist[name] else 0) + 1];
      }
      assert indices[..|indices|] == indices;
    }

    method CreateRandomShards(k: nat, draw: (nat, nat) -> nat) returns (shards: Shards)
      requires 0 < k <= total
      ensures shards == RandomShards(total, k, draw) && |shards| == k && Partition(shards, total)
    {
      shards := CutEvenly(Shuffle(Range(total), DrawsOf(draw, 0)), k);
      EvenShardsPartition(total, k, draw);
    }

    method CreateSequentialShards(k: nat) returns (shards: Shards)
      requires 0 < k <= total
      ensures shards == SequentialShards(total, k) && |shards| == k && Partition(shards, total)
      ensures forall i, j, x, y :: 0 <= i < j < k && x in shards[i] && y in shards[j] ==> x < y
    {
      shards := CutEvenly(Range(total), k);
      CutKeepsContents(Range(total), EvenSizes(total, k));
      forall i: nat, j: nat, x, y | i < j < k && x in shards[i] && y in shards[j] ensures x < y {
        ConsecutivePieces(total, k, i, j, x, y);
      }
    }

    static method CutEvenly(all: seq<nat>, k: nat) returns (shards: Shards)
      requires k > 0
      ensures Sum(EvenSizes(|all|, k)) == |all| && shards == Cut(all, EvenSizes(|all|, k))
    {
      EvenSizesSum(|all|, k);
      var size := |all| / k;
      shards := [];
      for id := 0 to k
        invariant |shards| == id
        invariant forall j :: 0 <= j < id ==> shards[j] == Cut(all, EvenSizes(|all|, k))[j]
      {
        EvenCutPosition(all, k, size, id);
        var start := id * size;
        var end := if id == k - 1 then |all| else start + size;
        shards := shards + [all[start..end]];
      }
    }

    /** Hands the pieces of one class to the shards, the running start index doing the cutting. */
    static method DealClass(shards: Shards, samples: seq<nat>, sizes: seq<nat>) returns (r: Shards)
      requires |shards| == |sizes| && Sum(sizes) == |samples|
      ensures r == Join(shards, Cut(samples, sizes))
    {
      r := shards;
      var start := 0;
      for id := 0 to |sizes|
        invariant |r| == |shards| && start == Sum(sizes[..id]) && 0 <= start <= |samples|
        invariant forall j :: 0 <= j < id ==> r[j] == shards[j] + Cut(samples, sizes)[j]
        invariant forall j :: id <= j < |sizes| ==> r[j] == shards[j]
      {
        CutPosition(samples, sizes, id);
        assert sizes[..id + 1][..id] == sizes[..id];
        var end := start + sizes[id];
        r := r[id := r[id] + samples[start..end]];
        start := end;
      }
    }

    method DealAll(sizes: seq<seq<nat>>, k: nat) returns (shards: Shards)
      requires FitsClasses(groups, sizes, k)
      ensures shards == Deal(groups, sizes, k)
    {
      shards := seq(k, _ => []);
      for c := 0 to |groups|
        invariant FitsClasses(groups[..c], sizes[..c], k)
        invariant shards == Deal(groups[..c], sizes[..c], k)
      {
        assert groups[..c + 1][..c] == groups[..c] && sizes[..c + 1][..c] == sizes[..c];
        shards := DealClass(shards, groups[c], sizes[c]);
      }
      assert groups[..|groups|] == groups && sizes[..|groups|] == sizes;
    }

    /** Every non-last shard gets floor(n_c / k) of each class, the last one also the remainders. */
    method CreateStratifiedShards(k: nat, draw: (nat, nat) -> nat) returns (shards: Shards)
      requires Valid() && 0 < k <= total
      modifies this
      ensures Valid() && cached
      ensures |shards| == k && Partition(shards, total)
      ensures EvenlyStratified(shards, groups, order, names, k)
    {
      GroupSamplesByClass();
      ghost var classes := ShuffleGroups(draw);
      var dealt := DealAll(EvenSizesOf(groups, k), k);
      shards := ShuffleEach(dealt, draw, |groups|);
      StratifiedResult(classes, order, names, k, draw, total);
    }

    /** The cached groups are shuffled in place, one after the other. */
    method ShuffleGroups(draw: (nat, nat) -> nat) returns (ghost classes: Shards)
      requires Valid() && cached
      modifies this`groups
      ensures classes == old(groups) && groups == ShuffleEach(classes, draw, 0)
      ensures Valid() && GroupedBy(classes, order, names) && Partition(classes, total)
    {
      classes := groups;
      groups := ShuffleEach(groups, draw, 0);
      ShuffledGroups(classes, order, names, draw);
      SameContents(groups, classes);
    }

    method ApportionClasses(k: nat, dirichlet: (nat, nat) -> real) returns (sizes: seq<seq<nat>>)
      requires k > 0 && forall c: nat, i: nat :: dirichlet(c, i) > 0.0
      ensures FitsClasses(groups, sizes, k)
      ensures forall c :: 0 <= c < |groups| ==> NearQuota(sizes[c], Proportions(dirichlet, c, k), |groups[c]|)
    {
      sizes := [];
      for c := 0 to |groups|
        invariant FitsClasses(groups[..c], sizes, k)
        invariant forall d :: 0 <= d < c ==> NearQuota(sizes[d], Proportions(dirichlet, d, k), |groups[d]|)
      {
        var ws := Proportions(dirichlet, c, k);
        var counts := Apportion(ws, |groups[c]|, ArgSort(ws, k));
        sizes := sizes + [counts];
      }
      assert groups[..|groups|] == groups;
    }

    /**
     `dirichlet(c, i)` is the proportion drawn for class `c` and shard `i`. Every sample is dealt
     once, and of class `c` shard `i` gets its share of the class rounded down, or one more.
     */
    method CreateNonIidShards(k: nat, dirichlet: (nat, nat) -> real, draw: (nat, nat) -> nat) returns (shards: Shards)
      requires Valid() && 0 < k <= total && forall c: nat, i: nat :: dirichlet(c, i) > 0.0
      modifies this
      ensures Valid() && cached
      ensures |shards| == k && Partition(shards, total)
      ensures forall c :: 0 <= c < |order| ==>
                NearQuota(ClassCounts(shards, names, order[c]), Proportions(dirichlet, c, k), |groups[c]|)
    {
      GroupSamplesByClass();
      ghost var classes := ShuffleGroups(draw);
      var sizes := ApportionClasses(k, dirichlet);
      var dealt := DealAll(sizes, k);
      shards := ShuffleEach(dealt, draw, |groups|);
      SkewedResult(classes, order, names, sizes, k, draw, total);
    }

    method Describe(shards: Shards) returns (r: seq<ShardMetadata>)
      requires total > 0 && |names| == total && Partition(shards, total)
      ensures |r| == |shards|
      ensures forall i :: 0 <= i < |r| ==>
                && r[i].shardId == i && r[i].totalShards == |shards| && r[i].indices == shards[i]
                && Distribution(r[i].classDistribution, shards[i], names)
                && ValueSum(r[i].classDistribution) == |shards[i]|
                && r[i].sizeBytes == EstimateShardSize(|shards[i]|, totalBytes, total)
    {
      r := [];
      for i := 0 to |shards|
        invariant |r| == i
        invariant forall j :: 0 <= j < i ==>
                    && r[j].shardId == j && r[j].totalShards == |shards| && r[j].indices == shards[j]
                    && Distribution(r[j].classDistribution, shards[j], names)
                    && ValueSum(r[j].classDistribution) == |shards[j]|
                    && r[j].sizeBytes == EstimateShardSize(|shards[j]|, totalBytes, total)
      {
        MembersInRange(shards, total, i);
        var dist := CalculateClassDistribution(shards[i]);
        r := r + [ShardMetadata(i, |shards|, shards[i], dist, EstimateShardSize(|shards[i]|, totalBytes, total))];
      }
    }

    /** Any strategy, behind the validation of the configuration. */
    method ShardIndices(strategy: Strategy, k: int, dirichlet: (nat, nat) -> real, draw: (nat, nat) -> nat)
      returns (shards: Shards)
      requires Valid() && 0 < k <= total && forall c: nat, i: nat :: dirichlet(c, i) > 0.0
      modifies this
      ensures Valid() && |shards| == k && Partition(shards, total)
      ensures ByStrategy(strategy, shards, k, total, names, order, groups, dirichlet, draw)
    {
      match strategy {
        case Random =>
          shards := CreateRandomShards(k, draw);
        case Sequential =>
          shards := CreateSequentialShards(k);
        case Stratified =>
          shards := CreateStratifiedShards(k, draw);
        case NonIid =>
          shards := CreateNonIidShards(k, dirichlet, draw);
      }
    }

    method CreateShards(strategy: Strategy, k: int, dirichlet: (nat, nat) -> real, draw: (nat, nat) -> nat)
      returns (r: Result)
      requires Valid() && forall c: nat, i: nat :: dirichlet(c, i) > 0.0
      modifies this
      ensures Valid()
      ensures r.ValueError? <==> k <= 0 || k > total
      ensures r.Shards? ==>
                && |r.shards| == k && Partition(IndicesOf(r.shards), total)
                && ByStrategy(strategy, IndicesOf(r.shards), k, total, names, order, groups, dirichlet, draw)
      ensures r.Shards? ==> forall i :: 0 <= i < k ==>
                && r.shards[i].shardId == i && r.shards[i].totalShards == k
                && Distribution(r.shards[i].classDistribution, r.shards[i].indices, names)
                && r.shards[i].sizeBytes == EstimateShardSize(|r.shards[i].indices|, totalBytes, total)
    {
      if k <= 0 || k > total {
        return ValueError;
      }
      var shards := ShardIndices(strategy, k, dirichlet, draw);
      var described := Describe(shards);
      assert IndicesOf(described) == shards;
      r := Result.Shards(described);
    }
  }

  function IndicesOf(shards: seq<ShardMetadata>): (r: Shards)
    ensures |r| == |shards| && forall i :: 0 <= i < |r| ==> r[i] == shards[i].indices
  {
    seq(|shards|, i requires 0 <= i < |shards| => shards[i].indices)
  }

  lemma {:induction false} MembersOfContents(shards: Shards, i: nat, x: nat)
    requires i < |shards| && x in shards[i]
    ensures x in Contents(shards)
  {
    var n := |shards| - 1;
    if i < n {
      MembersOfContents(shards[..n], i, x);
    } else {
      assert x in multiset(shards[i]);
    }
  }

  lemma MembersInRange(shards: Shards, n: nat, i: nat)
    requires Partition(shards, n) && i < |shards|
    ensures forall x :: x in shards[i] ==> x < n
  {
    forall x | x in shards[i] ensures x < n {
      MembersOfContents(shards, i, x);
      RangeCount(n, x);
    }
  }
}
