/**
 The class name of every sample: continuous labels are put into buckets by quantile, whole numbers
 look up the names of the dataset, and text stands for itself.
 */
module Labels {
  import opened Collections
  import opened Sorting
  import opened BatchIds
  import opened Quantiles
  import opened Sharding
  import opened DatasetSharding

  /** The labels of a dataset, all of one type. */
  datatype Labels = Floats(reals: seq<real>) | Ints(ints: seq<int>) | Texts(texts: seq<string>)
  {
    function Size(): nat {
      match this
      case Floats(rs) => |rs|
      case Ints(ns) => |ns|
      case Texts(ts) => |ts|
    }

    /** Floats, and whole numbers more than half of which differ. */
    predicate Continuous() {
      match this
      case Floats(_) => true
      case Ints(ns) => 2 * |Members(ns)| > |ns|
      case Texts(_) => false
    }

    function Numbers(): (rs: seq<real>)
      requires !Texts?
      ensures |rs| == Size()
      ensures Floats? ==> rs == reals
      ensures Ints? ==> forall i :: 0 <= i < |ints| ==> rs[i] == ints[i] as real
    {
      match this
      case Floats(rs) => rs
      case Ints(ns) => seq(|ns|, i requires 0 <= i < |ns| => ns[i] as real)
    }
  }

  // ---------------------------------------------------------------- buckets

  function BucketName(bucket: nat): string {
    "Bucket_" + Decimal(bucket)
  }

  lemma BucketNamesDiffer(a: nat, b: nat)
    ensures BucketName(a) == BucketName(b) <==> a == b
  {
    assert BucketName(a)[7..] == Decimal(a) && BucketName(b)[7..] == Decimal(b);
    DecimalRoundTrip(a);
    DecimalRoundTrip(b);
  }

  function UpTo(): (real, real) -> bool {
    (a: real, b: real) => a <= b
  }

  lemma SortedAscends(labels: seq<real>)
    ensures Ascending(SortBy(labels, UpTo())) && multiset(SortBy(labels, UpTo())) == multiset(labels)
  {
    SortOrders(labels, UpTo());
    var sorted := SortBy(labels, UpTo());
    forall i, j | 0 <= i < j < |sorted| ensures sorted[i] <= sorted[j] {
      assert UpTo()(sorted[i], sorted[j]);
    }
  }

  /**
   Names by bucket. With two distinct labels or more every label lies between the edges of its bucket,
   which are the quantiles for as many bins as distinct labels, at most ten. A larger label is in no
   smaller bucket.
   */
  ghost predicate Bucketed(names: seq<string>, buckets: seq<int>, labels: seq<real>) {
    && |names| == |buckets| == |labels|
    && (forall i :: 0 <= i < |labels| ==> buckets[i] >= 0 && names[i] == BucketName(buckets[i]))
    && (|Members(labels)| < 2 ==> forall i :: 0 <= i < |labels| ==> buckets[i] == 0)
    && (|Members(labels)| >= 2 ==>
          SortBy(labels, UpTo()) != []
            && BetweenEdges(buckets, labels,
                            Edges(SortBy(labels, UpTo()), if |Members(labels)| < 10 then |Members(labels)| else 10)))
    && (forall i, j :: 0 <= i < |labels| && 0 <= j < |labels| && labels[i] <= labels[j] ==> buckets[i] <= buckets[j])
  }

  /** Samples of one name have one bucket, and a smaller bucket means smaller labels. */
  lemma BucketsByName(names: seq<string>, buckets: seq<int>, labels: seq<real>, i: nat, j: nat)
    requires Bucketed(names, buckets, labels) && i < |names| && j < |names|
    ensures names[i] == names[j] <==> buckets[i] == buckets[j]
    ensures buckets[i] < buckets[j] ==> labels[i] < labels[j]
  {
    BucketNamesDiffer(buckets[i], buckets[j]);
  }

  /** Every label of the first class is below every label of the second. */
  ghost predicate Below(xs: seq<nat>, ys: seq<nat>, labels: seq<real>) {
    forall x, y :: x in xs && y in ys && x < |labels| && y < |labels| ==> labels[x] < labels[y]
  }

  /** The classes of continuous labels are disjoint ranges of labels. */
  lemma BucketClassesApart(classes: Shards, order: seq<string>, names: seq<string>, buckets: seq<int>,
                           labels: seq<real>, c: nat, d: nat)
    requires Bucketed(names, buckets, labels) && GroupedBy(classes, order, names)
    requires c < |classes| && d < |classes| && c != d
    ensures Below(classes[c], classes[d], labels) || Below(classes[d], classes[c], labels)
  {
    if classes[c] != [] && classes[d] != [] {
      var a, b := classes[c][0], classes[d][0];
      OneBucket(classes[c], names, order[c], buckets, labels);
      OneBucket(classes[d], names, order[d], buckets, labels);
      BucketsByName(names, buckets, labels, a, b);
      if buckets[a] < buckets[b] {
        ClassBelow(classes[c], classes[d], names, buckets, labels);
      } else {
        ClassBelow(classes[d], classes[c], names, buckets, labels);
      }
    }
  }

  ghost predicate InBucket(xs: seq<nat>, buckets: seq<int>, bucket: int) {
    forall x :: x in xs ==> x < |buckets| && buckets[x] == bucket
  }

  lemma OneBucket(xs: seq<nat>, names: seq<string>, name: string, buckets: seq<int>, labels: seq<real>)
    requires Bucketed(names, buckets, labels) && AllNamed(xs, names, name) && xs != []
    ensures xs[0] < |names| && InBucket(xs, buckets, buckets[xs[0]])
  {
    assert xs[0] in xs;
    forall x | x in xs ensures x < |buckets| && buckets[x] == buckets[xs[0]] {
      BucketsByName(names, buckets, labels, x, xs[0]);
    }
  }

  lemma ClassBelow(xs: seq<nat>, ys: seq<nat>, names: seq<string>, buckets: seq<int>, labels: seq<real>)
    requires Bucketed(names, buckets, labels) && xs != [] && ys != [] && xs[0] < |names| && ys[0] < |names|
    requires InBucket(xs, buckets, buckets[xs[0]]) && InBucket(ys, buckets, buckets[ys[0]])
    requires buckets[xs[0]] < buckets[ys[0]]
    ensures Below(xs, ys, labels)
  {
    forall x, y | x in xs && y in ys && x < |labels| && y < |labels| ensures labels[x] < labels[y] {
      BucketsByName(names, buckets, labels, x, y);
    }
  }

  // ---------------------------------------------------------------- names of whole numbers

  function Signed(n: int): string {
    if n < 0 then "-" + Decimal(-n) else Decimal(n)
  }

  /** Indices count from the end when negative; below that the lookup fails. */
  function ClassName(n: int, classNames: seq<string>): Option<string> {
    if classNames == [] || n >= |classNames| then Some(Signed(n))
    else if n >= 0 then Some(classNames[n])
    else if |classNames| + n >= 0 then Some(classNames[|classNames| + n])
    else None
  }

  /** Numbers are written out in decimal, negative ones with a sign, and no two alike. */
  lemma SignedDiffer(a: int, b: int)
    ensures Signed(a) == Signed(b) <==> a == b
    ensures Signed(a) == if a >= 0 then Decimal(a) else "-" + Decimal(-a)
  {
    var x: nat, y: nat := if a < 0 then -a else a, if b < 0 then -b else b;
    DecimalRoundTrip(x);
    DecimalRoundTrip(y);
    assert a < 0 ==> Signed(a)[0] == '-' && Signed(a)[1..] == Decimal(x);
    assert b < 0 ==> Signed(b)[0] == '-' && Signed(b)[1..] == Decimal(y);
    assert '0' <= Decimal(x)[0] <= '9' && '0' <= Decimal(y)[0] <= '9';
  }

  /**
   When two labels share a class, names being distinct: a negative one counts from the end and meets
   the one it lands on, or one beyond the names is written like the name the other one has.
   */
  lemma LabelsClashExactly(a: int, b: int, classNames: seq<string>)
    requires a < b && Distinct(classNames) && ClassName(a, classNames).Some? && ClassName(b, classNames).Some?
    ensures ClassName(a, classNames) == ClassName(b, classNames) <==>
            classNames != [] &&
            if b < |classNames| then a + |classNames| == b
            else a < |classNames| && ClassName(a, classNames) == Some(Signed(b))
  {
    SignedDiffer(a, b);
  }

  /** An image without annotations has label -1 and so joins the class of the last name. */
  lemma UnlabelledJoinLastClass(classNames: seq<string>)
    requires classNames != []
    ensures ClassName(-1, classNames) == ClassName(|classNames| - 1, classNames) == Some(classNames[|classNames| - 1])
  {
  }

  // ---------------------------------------------------------------- the names of a dataset

  /** Whole numbers index the names, negative ones from the end; without a name they are written out. */
  predicate NameOfInt(n: int, classNames: seq<string>, name: string) {
    && (classNames == [] || n >= |classNames| ==> name == Signed(n))
    && (0 <= n < |classNames| ==> name == classNames[n])
    && (-|classNames| <= n < 0 ==> name == classNames[|classNames| + n])
  }

  /**
   The names of all samples: buckets for floats and for whole numbers more than half of which differ, with
   the bucket numbers in `buckets`; other whole numbers look up their names, and text stands for itself.
   */
  ghost predicate NamesOf(labels: Labels, classNames: seq<string>, names: seq<string>, buckets: seq<int>) {
    match labels
    case Texts(ts) => names == ts
    case Floats(rs) => Bucketed(names, buckets, rs)
    case Ints(ns) =>
      if 2 * |Members(ns)| > |ns| then Bucketed(names, buckets, labels.Numbers())
      else |names| == |ns| && forall i :: 0 <= i < |ns| ==> NameOfInt(ns[i], classNames, names[i])
  }

  method NameBuckets(labels: seq<real>) returns (names: seq<string>, ghost buckets: seq<int>)
    ensures Bucketed(names, buckets, labels)
  {
    SortedAscends(labels);
    var ids := BucketIds(labels, SortBy(labels, UpTo()));
    buckets := ids;
    names := NameAll(ids);
  }

  method NameAll(ids: seq<int>) returns (names: seq<string>)
    requires forall i :: 0 <= i < |ids| ==> ids[i] >= 0
    ensures |names| == |ids| && forall i :: 0 <= i < |ids| ==> names[i] == BucketName(ids[i])
  {
    names := [];
    for i := 0 to |ids|
      invariant |names| == i && forall k :: 0 <= k < i ==> names[k] == BucketName(ids[k])
    {
      names := names + [BucketName(ids[i])];
    }
  }

  /** The lookup fails exactly for a whole number too far below zero. */
  method NameClasses(labels: seq<int>, classNames: seq<string>) returns (r: Option<seq<string>>)
    ensures r.None? <==> exists i :: 0 <= i < |labels| && classNames != [] && labels[i] < -|classNames|
    ensures r.Some? ==> NamesOfInts(labels, classNames, r.value)
  {
    var names := [];
    for i := 0 to |labels|
      invariant NamesOfInts(labels[..i], classNames, names)
    {
      var name := ClassName(labels[i], classNames);
      if name.None? {
        return None;
      }
      names := names + [name.value];
    }
    assert labels[..|labels|] == labels;
    r := Some(names);
  }

  ghost predicate NamesOfInts(labels: seq<int>, classNames: seq<string>, names: seq<string>) {
    |names| == |labels| && forall i :: 0 <= i < |labels| ==> ClassName(labels[i], classNames) == Some(names[i])
  }

  /** A sharder over labelled samples: its groups are the classes of the names its labels get. */
  method SharderFor(labels: Labels, classNames: seq<string>, totalBytes: nat)
    returns (r: Option<DatasetSharder>, ghost buckets: seq<int>)
    ensures r.None? <==> labels.Ints? && 2 * |Members(labels.ints)| <= |labels.ints| && classNames != []
                         && exists i :: 0 <= i < |labels.ints| && labels.ints[i] < -|classNames|
    ensures r.Some? ==>
              && fresh(r.value) && r.value.Valid() && !r.value.cached && r.value.total == labels.Size()
              && NamesOf(labels, classNames, r.value.names, buckets)
  {
    var names: seq<string>;
    buckets := [];
    if labels.Continuous() {
      names, buckets := NameBuckets(labels.Numbers());
    } else if labels.Ints? {
      var found := NameClasses(labels.ints, classNames);
      if found.None? {
        return None, [];
      }
      names := found.value;
    } else {
      names := labels.texts;
    }
    var sharder := new DatasetSharder(names, totalBytes);
    r := Some(sharder);
  }
}
