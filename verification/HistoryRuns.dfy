/**
 * What the tiers of internal/history/history.go are, for any pushes: the points grouped by
 * bucket and averaged; and that a restart inside a bucket loses nothing of its mean.
 */
module HistoryRuns {
  import opened Wrappers
  import opened History

  // ---- the plain grouping ----

  datatype Group = Group(start: int, pts: seq<Point>)

  datatype Grouping = Nothing | Groups(closed: seq<Group>, open: Group)

  /** A point joins the open group unless its bucket is a later one. */
  function Join(g: Grouping, p: Point, bucket: int): Grouping
    requires bucket > 0
  {
    var start := BucketStart(p.ts, bucket);
    match g
    case Nothing => Groups([], Group(start, [p]))
    case Groups(closed, open) =>
      if start <= open.start then Groups(closed, Group(open.start, open.pts + [p]))
      else Groups(closed + [open], Group(start, [p]))
  }

  function Grouped(ps: seq<Point>, bucket: int): (g: Grouping)
    requires bucket > 0
    ensures g == Nothing <==> ps == []
  {
    if ps == [] then Nothing else Join(Grouped(ps[..|ps| - 1], bucket), ps[|ps| - 1], bucket)
  }

  function Flatten(gs: seq<Group>): seq<Point> {
    if gs == [] then [] else Flatten(gs[..|gs| - 1]) + gs[|gs| - 1].pts
  }

  function Points(g: Grouping): seq<Point> {
    if g == Nothing then [] else Flatten(g.closed) + g.open.pts
  }

  /** The latest bucket any of the points falls into. */
  function LatestBucket(ps: seq<Point>, bucket: int): int
    requires bucket > 0 && ps != []
  {
    var start := BucketStart(ps[|ps| - 1].ts, bucket);
    if |ps| == 1 then start
    else
      var before := LatestBucket(ps[..|ps| - 1], bucket);
      if before > start then before else start
  }

  /** The group starts, point by point. */
  function Starts(gs: seq<Group>): seq<int> {
    if gs == [] then [] else Starts(gs[..|gs| - 1]) + Repeat(gs[|gs| - 1].start, |gs[|gs| - 1].pts|)
  }

  function Repeat(x: int, n: nat): seq<int> {
    if n == 0 then [] else Repeat(x, n - 1) + [x]
  }

  function Owners(g: Grouping): seq<int> {
    if g == Nothing then [] else Starts(g.closed) + Repeat(g.open.start, |g.open.pts|)
  }

  function LatestBuckets(ps: seq<Point>, bucket: int): seq<int>
    requires bucket > 0
  {
    if ps == [] then [] else LatestBuckets(ps[..|ps| - 1], bucket) + [LatestBucket(ps, bucket)]
  }

  ghost predicate Aligned(g: Grouping, bucket: int)
    requires bucket > 0
  {
    g.Groups? ==>
      && g.open.pts != [] && g.open.start % bucket == 0
      && (forall i :: 0 <= i < |g.closed| ==> g.closed[i].pts != [] && g.closed[i].start % bucket == 0)
      && (forall i :: 0 <= i < |g.closed| ==> g.closed[i].start < g.open.start)
      && (forall i, j :: 0 <= i < j < |g.closed| ==> g.closed[i].start < g.closed[j].start)
  }

  lemma JoinAligned(g: Grouping, p: Point, bucket: int)
    requires bucket > 0 && Aligned(g, bucket)
    ensures Aligned(Join(g, p, bucket), bucket)
  {
    BucketStartAligned(p.ts, bucket);
    hide BucketStart;
  }

  lemma JoinGrows(g: Grouping, p: Point, bucket: int)
    requires bucket > 0
    ensures var h := Join(g, p, bucket); Points(h) == Points(g) + [p] && Owners(h) == Owners(g) + [h.open.start]
  {
    hide BucketStart, Flatten, Starts, Repeat;
    var h := Join(g, p, bucket);
    RepeatMore(h.open.start, if h.open.pts == [p] then 0 else |h.open.pts| - 1);
    RepeatNone(h.open.start);
    if g.Nothing? {
      NoGroups();
    } else if h.closed == g.closed {
      assert Points(h) == Flatten(g.closed) + (g.open.pts + [p]);
    } else {
      GroupsMore(g.closed, g.open);
    }
  }

  lemma RepeatMore(x: int, n: nat)
    ensures Repeat(x, n + 1) == Repeat(x, n) + [x]
  {
  }

  lemma RepeatNone(x: int)
    ensures Repeat(x, 0) == []
  {
  }

  lemma NoGroups()
    ensures Flatten([]) == [] && Starts([]) == []
  {
  }

  lemma GroupsMore(gs: seq<Group>, g: Group)
    ensures Flatten(gs + [g]) == Flatten(gs) + g.pts
    ensures Starts(gs + [g]) == Starts(gs) + Repeat(g.start, |g.pts|)
  {
    assert (gs + [g])[..|gs|] == gs;
  }

  /**
   * The groups partition the points in order; a point is in the group of the latest bucket
   * reached up to it, clock steps back included; starts are aligned and strictly ascending.
   */
  lemma {:induction false} GroupsPartition(ps: seq<Point>, bucket: int)
    requires bucket > 0
    ensures var g := Grouped(ps, bucket);
            && Points(g) == ps && Aligned(g, bucket) && Owners(g) == LatestBuckets(ps, bucket)
            && (ps != [] ==> g.open.start == LatestBucket(ps, bucket))
  {
    if ps != [] {
      var n := |ps| - 1;
      GroupsPartition(ps[..n], bucket);
      JoinGrows(Grouped(ps[..n], bucket), ps[n], bucket);
      JoinAligned(Grouped(ps[..n], bucket), ps[n], bucket);
      hide BucketStart, Points, Owners, Aligned;
    }
  }

  // ---- the plain mean ----

  function Values(ss: seq<Series>, k: string): seq<real> {
    if ss == [] then []
    else Values(ss[..|ss| - 1], k) + if k in ss[|ss| - 1] then [ss[|ss| - 1][k]] else []
  }

  function Total(xs: seq<real>): real {
    if xs == [] then 0.0 else Total(xs[..|xs| - 1]) + xs[|xs| - 1]
  }

  function KeysOf(ss: seq<Series>): set<string> {
    if ss == [] then {} else KeysOf(ss[..|ss| - 1]) + ss[|ss| - 1].Keys
  }

  function FoldSeries(ss: seq<Series>): Sums {
    if ss == [] then map[] else Added(FoldSeries(ss[..|ss| - 1]), ss[|ss| - 1])
  }

  /** The sum of a key is the total and the number of its values. */
  lemma {:induction false} FoldAt(ss: seq<Series>, k: string)
    ensures k in FoldSeries(ss) <==> k in KeysOf(ss)
    ensures k in KeysOf(ss) <==> Values(ss, k) != []
    ensures SumOf(FoldSeries(ss), k) == Sum(Total(Values(ss, k)), |Values(ss, k)|)
  {
    if ss != [] {
      var before, s := ss[..|ss| - 1], ss[|ss| - 1];
      FoldAt(before, k);
      if k in s {
        assert Values(ss, k)[..|Values(before, k)|] == Values(before, k);
      } else {
        assert Values(ss, k) == Values(before, k);
      }
    }
  }

  function Average(xs: seq<real>): real {
    if xs == [] then 0.0 else Total(xs) / |xs| as real
  }

  lemma FoldMeans(ss: seq<Series>)
    ensures FoldSeries(ss).Keys == KeysOf(ss)
    ensures forall k :: k in FoldSeries(ss) ==> Mean(FoldSeries(ss)[k]) == Average(Values(ss, k))
  {
    forall k: string
      ensures k in FoldSeries(ss) <==> k in KeysOf(ss)
      ensures k in FoldSeries(ss) ==> Mean(FoldSeries(ss)[k]) == Average(Values(ss, k))
    {
      FoldAt(ss, k);
      hide FoldSeries, KeysOf, Values, Total;
    }
  }

  function Temps(ps: seq<Point>): seq<Series> { seq(|ps|, i requires 0 <= i < |ps| => ps[i].temp) }
  function DutiesOf(ps: seq<Point>): seq<Series> { seq(|ps|, i requires 0 <= i < |ps| => Duties(ps[i].duty)) }
  function Rpms(ps: seq<Point>): seq<Series> { seq(|ps|, i requires 0 <= i < |ps| => Reals(ps[i].rpm)) }
  function Extras(ps: seq<Point>): seq<Series> { seq(|ps|, i requires 0 <= i < |ps| => ps[i].extra) }

  /** Temperatures to three decimals, key by key. */
  function Means3(ss: seq<Series>): Series {
    map k | k in KeysOf(ss) :: Round3(Average(Values(ss, k)))
  }

  function Means0(ss: seq<Series>): map<string, int> {
    map k | k in KeysOf(ss) :: Round(Average(Values(ss, k)))
  }

  /** The arithmetic means of a group's points, key by key; negative duties are no values. */
  function GroupMean(g: Group): Point {
    Point(g.start, Means3(Temps(g.pts)), Means0(DutiesOf(g.pts)), Means0(Rpms(g.pts)), Means3(Extras(g.pts)))
  }

  function Accumulated(start: int, ps: seq<Point>): AccValue {
    if ps == [] then NewAcc(start) else AddPoint(Accumulated(start, ps[..|ps| - 1]), ps[|ps| - 1])
  }

  lemma AccumulatedStep(start: int, ps: seq<Point>, p: Point)
    ensures Accumulated(start, ps + [p]) == AddPoint(Accumulated(start, ps), p)
  {
    assert (ps + [p])[..|ps|] == ps;
  }

  lemma {:induction false} AccumulatedFolds(start: int, ps: seq<Point>)
    ensures Accumulated(start, ps) ==
            AccValue(start, FoldSeries(Temps(ps)), FoldSeries(DutiesOf(ps)), FoldSeries(Rpms(ps)),
              FoldSeries(Extras(ps)))
  {
    if ps != [] {
      var n := |ps| - 1;
      AccumulatedFolds(start, ps[..n]);
      assert Temps(ps)[..n] == Temps(ps[..n]) && DutiesOf(ps)[..n] == DutiesOf(ps[..n]);
      assert Rpms(ps)[..n] == Rpms(ps[..n]) && Extras(ps)[..n] == Extras(ps[..n]);
      hide Added, Duties, Reals;
    }
  }

  /** The mean of the accumulated sums is the mean of the points. */
  lemma AccumulatedMean(g: Group)
    ensures MeanPoint(Accumulated(g.start, g.pts)) == GroupMean(g)
  {
    AccumulatedFolds(g.start, g.pts);
    hide Accumulated, FoldSeries, KeysOf, Values, Round, Round3, Mean, Average, Temps, DutiesOf, Rpms, Extras;
    FoldMeans(Temps(g.pts));
    FoldMeans(DutiesOf(g.pts));
    FoldMeans(Rpms(g.pts));
    FoldMeans(Extras(g.pts));
  }

  // ---- the tier refines grouping and averaging ----

  const EMPTY := TierValue([], None)

  function Means(gs: seq<Group>): seq<Point> {
    seq(|gs|, i requires 0 <= i < |gs| => GroupMean(gs[i]))
  }

  /** A tier as the grouping describes it: the last closed means and the open sums. */
  ghost predicate Describes(g: Grouping, t: TierValue, capacity: nat) {
    g.Groups? && t.pts == LastN(Means(g.closed), capacity) && t.open == Some(Accumulated(g.open.start, g.open.pts))
  }

  ghost predicate IsSuffix<T>(a: seq<T>, b: seq<T>) {
    |a| <= |b| && a == b[|b| - |a|..]
  }

  lemma SuffixAt<T>(a: seq<T>, b: seq<T>)
    requires IsSuffix(a, b)
    ensures |a| <= |b| && a == b[|b| - |a|..]
    ensures forall i :: 0 <= i < |a| ==> a[i] == b[|b| - |a| + i]
  {
  }

  lemma SuffixIn<T>(a: seq<T>, b: seq<T>)
    requires IsSuffix(a, b)
    ensures |a| <= |b| && a == b[|b| - |a|..]
    ensures forall x :: x in a ==> x in b
  {
  }

  lemma SuffixTrans<T>(a: seq<T>, b: seq<T>, c: seq<T>)
    requires IsSuffix(a, b) && IsSuffix(b, c)
    ensures IsSuffix(a, c)
  {
    assert a == c[|c| - |a|..];
  }

  lemma SuffixAppend<T>(a: seq<T>, b: seq<T>, x: T)
    requires IsSuffix(a, b)
    ensures IsSuffix(a + [x], b + [x])
  {
  }

  lemma SuffixInit<T>(a: seq<T>, b: seq<T>, x: T)
    requires a != [] && IsSuffix(a, b + [x])
    ensures a == a[..|a| - 1] + [x] && IsSuffix(a[..|a| - 1], b)
  {
    SuffixAt(a, b + [x]);
    assert a[..|a| - 1] == b[|b| - (|a| - 1)..];
  }

  lemma SuffixLastN<T>(a: seq<T>, b: seq<T>, n: nat)
    requires IsSuffix(a, b)
    ensures IsSuffix(LastN(a, n), LastN(b, n))
  {
  }

  lemma LastNSuffix<T>(b: seq<T>, n: nat)
    ensures IsSuffix(LastN(b, n), b) && |LastN(b, n)| <= n
  {
  }

  lemma DropSuffix<T>(b: seq<T>, d: nat)
    requires d <= |b|
    ensures IsSuffix(b[d..], b)
  {
  }

  lemma LastNStep<T>(s: seq<T>, x: T, n: nat)
    ensures LastN(LastN(s, n) + [x], n) == LastN(s + [x], n)
  {
  }

  lemma {:induction false} AccumulatedStart(start: int, ps: seq<Point>)
    ensures Accumulated(start, ps).start == start
  {
    if ps != [] { AccumulatedStart(start, ps[..|ps| - 1]); }
  }

  lemma MeanStart(a: AccValue)
    ensures MeanPoint(a).ts == a.start
  {
  }

  /** A point of a later bucket closes the open one and starts afresh. */
  lemma PushLater(t: TierValue, bucket: int, capacity: nat, p: Point)
    requires bucket > 0 && t.open.Some? && BucketStart(p.ts, bucket) > t.open.value.start
    ensures Pushed(t, bucket, capacity, p) ==
            TierValue(LastN(t.pts + [MeanPoint(t.open.value)], capacity),
              Some(AddPoint(NewAcc(BucketStart(p.ts, bucket)), p)))
  {
    MeanStart(t.open.value);
    hide BucketStart, MeanPoint, AddPoint, NewAcc;
  }

  lemma PushSame(t: TierValue, bucket: int, capacity: nat, p: Point)
    requires bucket > 0 && t.open.Some? && BucketStart(p.ts, bucket) <= t.open.value.start
    ensures Pushed(t, bucket, capacity, p) == t.(open := Some(AddPoint(t.open.value, p)))
  {
    hide BucketStart, MeanPoint, AddPoint, NewAcc;
  }

  lemma DescribesStep(g: Grouping, t: TierValue, bucket: int, capacity: nat, p: Point)
    requires bucket > 0 && Describes(g, t, capacity)
    ensures Describes(Join(g, p, bucket), Pushed(t, bucket, capacity, p), capacity)
  {
    AccumulatedStart(g.open.start, g.open.pts);
    var start := BucketStart(p.ts, bucket);
    if start <= g.open.start {
      AccumulatedStep(g.open.start, g.open.pts, p);
      hide BucketStart, MeanPoint, AddPoint, NewAcc, Accumulated, Means;
    } else {
      PushLater(t, bucket, capacity, p);
      AccumulatedStep(start, [], p);
      AccumulatedMean(g.open);
      LastNStep(Means(g.closed), GroupMean(g.open), capacity);
      assert Means(g.closed + [g.open]) == Means(g.closed) + [GroupMean(g.open)];
      assert [] + [p] == [p];
      hide BucketStart, MeanPoint, AddPoint, Accumulated, Means, Pushed, LastN, GroupMean;
    }
  }

  /** A tier after any pushes: the last closed groups' means and the accumulated open group. */
  lemma {:induction false} TierIsGroups(ps: seq<Point>, bucket: int, capacity: nat)
    requires bucket > 0 && ps != []
    ensures Describes(Grouped(ps, bucket), PushedAll(EMPTY, bucket, capacity, ps), capacity)
  {
    var n := |ps| - 1;
    if n == 0 {
      assert ps[..n] == [] && ps == [] + [ps[n]];
      AccumulatedStep(BucketStart(ps[n].ts, bucket), [], ps[n]);
      hide BucketStart, AddPoint, MeanPoint;
    } else {
      TierIsGroups(ps[..n], bucket, capacity);
      DescribesStep(Grouped(ps[..n], bucket), PushedAll(EMPTY, bucket, capacity, ps[..n]), bucket, capacity, ps[n]);
      hide Describes, Join, Pushed;
    }
  }

  /**
   * Tier refinement: for a fresh tier and any timestamps the points read are the means of
   * the last `capacity` closed groups and of the open one.
   */
  lemma AllIsGroupMeans(ps: seq<Point>, bucket: int, capacity: nat)
    requires bucket > 0 && ps != []
    ensures var g := Grouped(ps, bucket);
            All(PushedAll(EMPTY, bucket, capacity, ps)) == LastN(Means(g.closed), capacity) + [GroupMean(g.open)]
  {
    TierIsGroups(ps, bucket, capacity);
    AccumulatedMean(Grouped(ps, bucket).open);
    hide PushedAll, Grouped, MeanPoint, Accumulated, GroupMean, Means, LastN;
  }

  // ---- restart ----

  ghost predicate Sorted(ps: seq<Point>) {
    forall i, j :: 0 <= i < j < |ps| ==> ps[i].ts <= ps[j].ts
  }

  lemma SinceSplit(a: seq<Point>, b: seq<Point>, cut: int)
    requires (forall p :: p in a ==> p.ts < cut) && (forall p :: p in b ==> p.ts >= cut)
    ensures Since(a + b, cut) == b
  {
    hide Since;
    SinceFront(a, b, cut);
    assert forall i :: 0 <= i < |b| ==> b[i] in b;
    SinceAll(b, cut);
  }

  lemma {:induction false} SinceAll(b: seq<Point>, cut: int)
    requires forall i :: 0 <= i < |b| ==> b[i].ts >= cut
    ensures Since(b, cut) == b
  {
    if b != [] {
      SinceAll(b[1..], cut);
      assert b == [b[0]] + b[1..];
    }
  }

  /** Of points in order, the young enough ones are a suffix. */
  lemma SinceSuffix(ps: seq<Point>, cut: int) returns (d: nat)
    requires Sorted(ps)
    ensures d <= |ps| && Since(ps, cut) == ps[d..]
    ensures forall i :: 0 <= i < |ps| ==> (ps[i].ts >= cut <==> d <= i)
  {
    d := 0;
    while d < |ps| && ps[d].ts < cut
      invariant d <= |ps| && forall i :: 0 <= i < d ==> ps[i].ts < cut
    {
      d := d + 1;
    }
    assert ps == ps[..d] + ps[d..];
    SinceSplit(ps[..d], ps[d..], cut);
  }

  ghost predicate InBucket(pts: seq<Point>, start: int, bucket: int)
    requires bucket > 0
  {
    forall p :: p in pts ==> p.ts >= start && BucketStart(p.ts, bucket) == start
  }

  /** ps[d..] is the open group, and nothing before it reaches into its bucket. */
  ghost predicate OpensAt(ps: seq<Point>, bucket: int, d: nat)
    requires bucket > 0
  {
    var g := Grouped(ps, bucket);
    && g.Groups? && d < |ps| && g.open.pts == ps[d..] && InBucket(g.open.pts, g.open.start, bucket)
    && forall i :: 0 <= i < d ==> ps[i].ts < g.open.start
  }

  /** With non-decreasing timestamps the open group is what reaches into its bucket. */
  lemma {:induction false} OpenGroup(ps: seq<Point>, bucket: int) returns (d: nat)
    requires bucket > 0 && ps != [] && Sorted(ps)
    ensures OpensAt(ps, bucket, d)
  {
    var n := |ps| - 1;
    var p := ps[n];
    BucketStartAligned(p.ts, bucket);
    if n == 0 {
      d := 0;
    } else {
      var e := OpenGroup(ps[..n], bucket);
      d := OpenGroupStep(ps, bucket, e);
    }
  }

  lemma OpenGroupStep(ps: seq<Point>, bucket: int, e: nat) returns (d: nat)
    requires bucket > 0 && |ps| >= 2 && Sorted(ps) && OpensAt(ps[..|ps| - 1], bucket, e)
    ensures OpensAt(ps, bucket, d)
  {
    hide BucketStart, Grouped, InBucket;
    if BucketStart(ps[|ps| - 1].ts, bucket) <= Grouped(ps[..|ps| - 1], bucket).open.start {
      d := e;
      LastTwo(ps);
      OpenGroupGrows(ps[..|ps| - 1], ps[|ps| - 1], bucket, e);
      assert ps[..|ps| - 1] + [ps[|ps| - 1]] == ps;
    } else {
      d := |ps| - 1;
      OpenGroupStarts(ps, bucket, e);
    }
  }

  lemma OpenGroupGrows(before: seq<Point>, p: Point, bucket: int, e: nat)
    requires bucket > 0 && before != [] && before[|before| - 1].ts <= p.ts && OpensAt(before, bucket, e)
    requires BucketStart(p.ts, bucket) <= Grouped(before, bucket).open.start
    ensures OpensAt(before + [p], bucket, e)
  {
    var n, open := |before|, Grouped(before, bucket).open;
    assert (before + [p])[..n] == before;
    hide BucketStart, InBucket;
    assert Grouped(before + [p], bucket).open == Group(open.start, open.pts + [p]);
    hide Grouped;
    assert open.pts[n - 1 - e] == before[n - 1];
    StaysInBucket(open.pts, open.start, bucket, before[n - 1], p);
    assert (before + [p])[e..] == before[e..] + [p];
  }

  /** A later point of no later bucket than the open one is in the open one. */
  lemma StaysInBucket(pts: seq<Point>, start: int, bucket: int, last: Point, p: Point)
    requires bucket > 0 && InBucket(pts, start, bucket) && last in pts && last.ts <= p.ts
    requires BucketStart(p.ts, bucket) <= start
    ensures InBucket(pts + [p], start, bucket)
  {
    hide BucketStart;
    BucketStartAligned(p.ts, bucket);
    BucketStartMonotone(last.ts, p.ts, bucket);
    BucketGrows(pts, start, bucket, p);
  }

  lemma BucketGrows(pts: seq<Point>, start: int, bucket: int, p: Point)
    requires bucket > 0 && InBucket(pts, start, bucket) && p.ts >= start && BucketStart(p.ts, bucket) == start
    ensures InBucket(pts + [p], start, bucket)
  {
    hide BucketStart;
  }

  lemma OpenGroupStarts(ps: seq<Point>, bucket: int, e: nat)
    requires bucket > 0 && |ps| >= 2 && Sorted(ps) && OpensAt(ps[..|ps| - 1], bucket, e)
    requires BucketStart(ps[|ps| - 1].ts, bucket) > Grouped(ps[..|ps| - 1], bucket).open.start
    ensures OpensAt(ps, bucket, |ps| - 1)
  {
    var n := |ps| - 1;
    var p, before := ps[n], ps[..n];
    hide BucketStart;
    assert Grouped(ps, bucket).open == Group(BucketStart(p.ts, bucket), [p]);
    hide Grouped;
    BucketStartAligned(p.ts, bucket);
    AllEarlier(before, bucket, e, p.ts);
    assert ps[n..] == [p];
    assert forall i :: 0 <= i < n ==> ps[i] == before[i];
  }

  lemma LastTwo(ps: seq<Point>)
    requires |ps| >= 2 && Sorted(ps)
    ensures ps[|ps| - 2].ts <= ps[|ps| - 1].ts
  {
  }

  /** Before a later bucket opens every point is before its start. */
  lemma AllEarlier(ps: seq<Point>, bucket: int, e: nat, ts: int)
    requires bucket > 0 && OpensAt(ps, bucket, e) && Grouped(ps, bucket).open.start < BucketStart(ts, bucket)
    ensures forall i :: 0 <= i < |ps| ==> ps[i].ts < BucketStart(ts, bucket)
  {
    hide BucketStart;
    var open := Grouped(ps, bucket).open;
    hide Grouped;
    forall i | 0 <= i < |ps| ensures ps[i].ts < BucketStart(ts, bucket) {
      if i >= e {
        assert ps[e..][i - e] == ps[i] && ps[i] in open.pts;
        EarlierBucket(ps[i].ts, ts, bucket);
      }
    }
  }

  lemma EarlierBucket(a: int, b: int, bucket: int)
    requires bucket > 0
    ensures BucketStart(a, bucket) < BucketStart(b, bucket) ==> a < BucketStart(b, bucket)
  {
    var s := BucketStart(b, bucket);
    BucketStartAligned(b, bucket);
    BucketStartAligned(s, bucket);
    if s <= a { BucketStartMonotone(s, a, bucket); }
  }

  /** Pushing a whole group onto closed buckets before it opens exactly that group. */
  lemma {:induction false} ReplayGroup(pts: seq<Point>, bucket: int, capacity: nat, start: int, g: seq<Point>)
    requires bucket > 0 && g != [] && (pts != [] ==> pts[|pts| - 1].ts < start)
    requires InBucket(g, start, bucket)
    ensures PushedAll(TierValue(pts, None), bucket, capacity, g) == TierValue(pts, Some(Accumulated(start, g)))
  {
    var n := |g| - 1;
    assert g[n] in g && g == g[..n] + [g[n]];
    AccumulatedStep(start, g[..n], g[n]);
    if n > 0 {
      ReplayGroup(pts, bucket, capacity, start, g[..n]);
      AccumulatedStart(start, g[..n]);
    }
    hide BucketStart, AddPoint, Accumulated, NewAcc;
  }

  /** What pts lacks of all is older than cut, or not among the last trim - 1. */
  ghost predicate Forgets(pts: seq<Point>, all: seq<Point>, cut: int, trim: nat) {
    forall i :: 0 <= i < |all| - |pts| ==> all[i].ts < cut || i + trim <= |all|
  }

  /** The same open bucket, and the same closed ones from the cut on, up to the trim. */
  ghost predicate Continues(l: TierValue, t: TierValue, cut: int, trim: nat) {
    t.open.Some? && l.open == t.open && IsSuffix(l.pts, t.pts) && Forgets(l.pts, t.pts, cut, trim)
  }

  /** What every tier filled by pushes keeps. */
  ghost predicate Orderly(t: TierValue, capacity: nat) {
    && t.open.Some? && |t.pts| <= capacity && Sorted(t.pts)
    && forall i :: 0 <= i < |t.pts| ==> t.pts[i].ts < t.open.value.start
  }

  lemma StartKept(a: AccValue, p: Point)
    ensures AddPoint(a, p).start == a.start
  {
  }

  lemma SortedAppend(ps: seq<Point>, x: Point, n: nat, bound: int)
    requires Sorted(ps) && (forall i :: 0 <= i < |ps| ==> ps[i].ts < x.ts) && x.ts < bound
    ensures var r := LastN(ps + [x], n); Sorted(r) && |r| <= n && forall i :: 0 <= i < |r| ==> r[i].ts < bound
  {
    LastNSuffix(ps + [x], n);
    SuffixAt(LastN(ps + [x], n), ps + [x]);
    hide LastN, IsSuffix;
  }

  lemma OrderlyStep(t: TierValue, bucket: int, capacity: nat, p: Point)
    requires bucket > 0 && Orderly(t, capacity)
    ensures Orderly(Pushed(t, bucket, capacity, p), capacity)
  {
    hide BucketStart, AddPoint, MeanPoint, Pushed, LastN, Sorted;
    var start := BucketStart(p.ts, bucket);
    StartKept(t.open.value, p);
    StartKept(NewAcc(start), p);
    MeanStart(t.open.value);
    if start <= t.open.value.start {
      PushSame(t, bucket, capacity, p);
    } else {
      PushLater(t, bucket, capacity, p);
      SortedAppend(t.pts, MeanPoint(t.open.value), capacity, start);
    }
  }

  lemma {:induction false} TierIsOrderly(ps: seq<Point>, bucket: int, capacity: nat)
    requires bucket > 0 && ps != []
    ensures Orderly(PushedAll(EMPTY, bucket, capacity, ps), capacity)
  {
    var n := |ps| - 1;
    if n == 0 {
      assert ps[..n] == [];
      hide BucketStart, AddPoint, MeanPoint;
    } else {
      TierIsOrderly(ps[..n], bucket, capacity);
      OrderlyStep(PushedAll(EMPTY, bucket, capacity, ps[..n]), bucket, capacity, ps[n]);
      hide Orderly, Pushed;
    }
  }

  lemma AllSorted(t: TierValue, capacity: nat)
    requires Orderly(t, capacity)
    ensures Sorted(All(t)) && All(t) != [] && All(t)[|All(t)| - 1].ts == t.open.value.start
  {
    MeanStart(t.open.value);
    hide MeanPoint;
  }

  /** The raw points that reach into the open bucket are the open group. */
  lemma RawOfOpen(ps: seq<Point>, bucket: int, d: nat, at: nat)
    requires bucket > 0 && OpensAt(ps, bucket, at) && d <= at
    ensures var g := Grouped(ps, bucket).open;
            Since(ps[d..], g.start) == g.pts && ReachesInto(ps[d..], g.start, bucket)
  {
    var g := Grouped(ps, bucket).open;
    hide Grouped, BucketStart;
    assert ps[d..] == ps[d..at] + g.pts;
    assert forall p :: p in ps[d..at] ==> p.ts < g.start;
    SinceSplit(ps[d..at], g.pts, g.start);
    assert g.pts[0] in g.pts && g.pts[0] in ps[d..];
  }

  /** What load keeps of a saved tier ends with the open bucket's mean. */
  lemma KeptEnds(t: TierValue, cut: int, capacity: nat) returns (closed: seq<Point>)
    requires capacity > 0 && Orderly(t, capacity) && t.open.value.start >= cut
    ensures LastN(Since(All(t), cut), capacity) == closed + [MeanPoint(t.open.value)]
    ensures IsSuffix(closed, t.pts) && MeanPoint(t.open.value).ts == t.open.value.start
    ensures Forgets(closed, t.pts, cut, capacity)
    ensures closed != [] ==> closed[|closed| - 1].ts < t.open.value.start
  {
    hide MeanPoint, Since, LastN, IsSuffix, Forgets, Sorted;
    AllSorted(t, capacity);
    var d := SinceSuffix(All(t), cut);
    var young, kept := Since(All(t), cut), LastN(Since(All(t), cut), capacity);
    DropSuffix(All(t), d);
    LastNSuffix(young, capacity);
    SuffixTrans(kept, young, All(t));
    LastNKeepsSome(young, capacity);
    SuffixInit(kept, t.pts, MeanPoint(t.open.value));
    closed := kept[..|kept| - 1];
    SuffixIn(closed, t.pts);
    assert closed != [] ==> closed[|closed| - 1] in t.pts;
    MeanStart(t.open.value);
    LastNLength(young, capacity);
    KeptForgets(t.pts, MeanPoint(t.open.value), closed, d, cut, capacity);
  }

  /** What is missing was before d, where the points are too old, or is trimmed. */
  lemma KeptForgets(pts: seq<Point>, last: Point, closed: seq<Point>, d: nat, cut: int, capacity: nat)
    requires d <= |pts| + 1 && |closed| + 1 == if |pts| + 1 - d <= capacity then |pts| + 1 - d else capacity
    requires forall i :: 0 <= i < |pts| + 1 ==> ((pts + [last])[i].ts >= cut <==> d <= i)
    ensures Forgets(closed, pts, cut, capacity)
  {
    forall i | 0 <= i < |pts| - |closed| ensures pts[i].ts < cut || i + capacity <= |pts| {
      assert (pts + [last])[i] == pts[i];
    }
  }

  lemma LastNLength<T>(s: seq<T>, n: nat)
    ensures |LastN(s, n)| == if |s| <= n then |s| else n
  {
  }

  /** load, when the file ends with the open bucket and raw holds its points. */
  lemma LoadRebuilds(t: TierValue, cut: int, bucket: int, capacity: nat, raw: seq<Point>, g: seq<Point>)
    requires bucket > 0 && capacity > 0 && Orderly(t, capacity) && t.open.value.start >= cut
    requires g != [] && InBucket(g, t.open.value.start, bucket) && t.open.value == Accumulated(t.open.value.start, g)
    requires Since(raw, t.open.value.start) == g && ReachesInto(raw, t.open.value.start, bucket)
    ensures var l := Loaded(All(t), cut, bucket, capacity, raw);
            Continues(l, t, cut, capacity) && l.pts + [MeanPoint(t.open.value)] == LastN(Since(All(t), cut), capacity)
  {
    hide MeanPoint, Accumulated, Since, InBucket, ReachesInto, PushedAll, LastN, IsSuffix, Sorted, All, Forgets;
    var closed := KeptEnds(t, cut, capacity);
    assert (closed + [MeanPoint(t.open.value)])[..|closed|] == closed;
    ReplayGroup(closed, bucket, capacity, t.open.value.start, g);
  }

  lemma LastNKeepsSome<T>(s: seq<T>, n: nat)
    requires s != [] && n > 0
    ensures LastN(s, n) != []
  {
  }

  // ---- what a restart may drop ----

  /** A point that adds nothing to a bucket's sums. */
  predicate Blank(p: Point) {
    p.temp == map[] && p.rpm == map[] && p.extra == map[] && forall k :: k in p.duty ==> p.duty[k] < 0
  }

  /** Of the points of a bucket the last `kept` are left: some, and whatever is not left is blank. */
  predicate Spared(pts: seq<Point>, kept: nat) {
    kept > 0 && forall i :: 0 <= i < |pts| - kept ==> Blank(pts[i])
  }

  lemma BlankAdds(a: AccValue, p: Point)
    requires Blank(p)
    ensures AddPoint(a, p) == a
  {
    assert Duties(p.duty) == map[] && Reals(p.rpm) == map[];
  }

  lemma {:induction false} BlanksInFront(start: int, a: seq<Point>, b: seq<Point>)
    requires forall i :: 0 <= i < |a| ==> Blank(a[i])
    ensures Accumulated(start, a + b) == Accumulated(start, b)
    decreases |a| + |b|
  {
    hide AddPoint;
    if b != [] {
      var n := |b| - 1;
      assert a + b == (a + b[..n]) + [b[n]] && b == b[..n] + [b[n]];
      BlanksInFront(start, a, b[..n]);
      AccumulatedStep(start, a + b[..n], b[n]);
      AccumulatedStep(start, b[..n], b[n]);
    } else if a != [] {
      var n := |a| - 1;
      assert a + b == a && a[..n] + [] == a[..n] && a == a[..n] + [a[n]];
      BlanksInFront(start, a[..n], []);
      AccumulatedStep(start, a[..n], a[n]);
      BlankAdds(Accumulated(start, a[..n]), a[n]);
    }
  }

  lemma {:induction false} ValuesSplit(a: seq<Series>, b: seq<Series>, k: string)
    ensures Values(a + b, k) == Values(a, k) + Values(b, k)
  {
    if b == [] {
      assert a + b == a;
    } else {
      var n := |b| - 1;
      assert (a + b)[..|a| + n] == a + b[..n] && (a + b)[|a| + n] == b[n];
      ValuesSplit(a, b[..n], k);
    }
  }

  lemma {:induction false} NoValues(ss: seq<Series>, k: string)
    requires Values(ss, k) == []
    ensures forall i :: 0 <= i < |ss| ==> k !in ss[i]
  {
    if ss != [] {
      var n := |ss| - 1;
      NoValues(ss[..n], k);
      assert forall i :: 0 <= i < n ==> ss[..n][i] == ss[i];
    }
  }

  /** Series that leave the sums alone are empty. */
  lemma SumsTell(a: seq<Series>, b: seq<Series>)
    requires FoldSeries(a + b) == FoldSeries(b)
    ensures forall i :: 0 <= i < |a| ==> a[i] == map[]
  {
    hide FoldSeries, Values, Total;
    forall i | 0 <= i < |a| ensures a[i] == map[] {
      forall k: string ensures k !in a[i] {
        FoldAt(a + b, k);
        FoldAt(b, k);
        ValuesSplit(a, b, k);
        NoValues(a, k);
      }
    }
  }

  /** Points that leave all four sums alone are blank. */
  lemma OnlyBlanks(start: int, a: seq<Point>, b: seq<Point>)
    requires Accumulated(start, a + b) == Accumulated(start, b)
    ensures forall i :: 0 <= i < |a| ==> Blank(a[i])
  {
    hide FoldSeries, Accumulated;
    AccumulatedFolds(start, a + b);
    AccumulatedFolds(start, b);
    assert Temps(a + b) == Temps(a) + Temps(b) && DutiesOf(a + b) == DutiesOf(a) + DutiesOf(b);
    assert Rpms(a + b) == Rpms(a) + Rpms(b) && Extras(a + b) == Extras(a) + Extras(b);
    SumsTell(Temps(a), Temps(b));
    SumsTell(DutiesOf(a), DutiesOf(b));
    SumsTell(Rpms(a), Rpms(b));
    SumsTell(Extras(a), Extras(b));
    forall i | 0 <= i < |a| ensures Blank(a[i]) {
      assert Temps(a)[i] == a[i].temp && Extras(a)[i] == a[i].extra;
      assert Rpms(a)[i] == Reals(a[i].rpm) && DutiesOf(a)[i] == Duties(a[i].duty);
      EmptySeries(a[i]);
    }
  }

  lemma EmptySeries(p: Point)
    requires p.temp == map[] && p.extra == map[] && Reals(p.rpm) == map[] && Duties(p.duty) == map[]
    ensures Blank(p)
  {
    assert Reals(p.rpm).Keys == p.rpm.Keys;
    forall k | k in p.duty ensures p.duty[k] < 0 {
      assert k !in Duties(p.duty);
    }
  }

  /** load, when the file ends with the open bucket but raw holds only some of its points. */
  lemma LoadFromFewer(t: TierValue, cut: int, bucket: int, capacity: nat, raw: seq<Point>)
    requires bucket > 0 && capacity > 0 && Orderly(t, capacity) && t.open.value.start >= cut
    requires InBucket(raw, t.open.value.start, bucket)
    ensures Loaded(All(t), cut, bucket, capacity, raw).open ==
            if raw == [] then None else Some(Accumulated(t.open.value.start, raw))
  {
    hide MeanPoint, Accumulated, Since, PushedAll, LastN, IsSuffix, Sorted, All;
    var closed := KeptEnds(t, cut, capacity);
    var start := t.open.value.start;
    assert (closed + [MeanPoint(t.open.value)])[..|closed|] == closed;
    assert Since(raw, start) == raw by {
      assert [] + raw == raw;
      SinceSplit([], raw, start);
    }
    if raw == [] {
      PushedNone(TierValue(closed + [MeanPoint(t.open.value)], None), bucket, capacity);
    } else {
      assert raw[0] in raw;
      ReplayGroup(closed, bucket, capacity, start, raw);
    }
  }

  lemma PushedNone(t: TierValue, bucket: int, capacity: nat)
    requires bucket > 0
    ensures PushedAll(t, bucket, capacity, []) == t
  {
  }

  /** Without raw points no bucket is open after a load. */
  lemma LoadWithoutRaw(pts: seq<Point>, cut: int, bucket: int, capacity: nat)
    requires bucket > 0
    ensures Loaded(pts, cut, bucket, capacity, []).open == None
  {
    hide LastN;
    var kept := LastN(Since(pts, cut), capacity);
    if kept != [] {
      PushedNone(TierValue(kept, None), bucket, capacity);
    }
  }

  /** load, when the points kept of the open bucket have its sums. */
  lemma LoadSpared(ps: seq<Point>, bucket: int, capacity: nat, cut: int, d: nat, at: nat)
    requires bucket > 0 && capacity > 0 && Sorted(ps) && d < |ps| && OpensAt(ps, bucket, at)
    requires var g := Grouped(ps, bucket).open; g.start >= cut && Spared(g.pts, |ps| - d)
    ensures var t := PushedAll(EMPTY, bucket, capacity, ps);
            var l := Loaded(All(t), cut, bucket, capacity, ps[d..]);
            && Orderly(t, capacity) && Continues(l, t, cut, capacity)
            && l.pts + [MeanPoint(t.open.value)] == LastN(Since(All(t), cut), capacity)
  {
    hide *;
    var g := Grouped(ps, bucket).open;
    var t := PushedAll(EMPTY, bucket, capacity, ps);
    OpenOf(ps, bucket, capacity);
    TierIsOrderly(ps, bucket, capacity);
    var mine := OpenLeft(ps, bucket, d, at);
    LoadRebuilds(t, cut, bucket, capacity, ps[d..], mine);
  }

  /** The open bucket of a tier is the open group. */
  lemma OpenOf(ps: seq<Point>, bucket: int, capacity: nat)
    requires bucket > 0 && ps != []
    ensures var t, g := PushedAll(EMPTY, bucket, capacity, ps), Grouped(ps, bucket);
            && g.Groups? && t.open.Some? && t.open.value == Accumulated(g.open.start, g.open.pts)
            && t.open.value.start == g.open.start
  {
    TierIsGroups(ps, bucket, capacity);
    var g := Grouped(ps, bucket);
    AccumulatedStart(g.open.start, g.open.pts);
    hide PushedAll, Grouped, Accumulated, LastN, Means;
  }

  /** The points left of the open group have its sums when only blank ones are gone. */
  lemma OpenLeft(ps: seq<Point>, bucket: int, d: nat, at: nat) returns (mine: seq<Point>)
    requires bucket > 0 && d < |ps| && OpensAt(ps, bucket, at) && Spared(Grouped(ps, bucket).open.pts, |ps| - d)
    ensures var g := Grouped(ps, bucket).open;
            && mine != [] && InBucket(mine, g.start, bucket)
            && Accumulated(g.start, mine) == Accumulated(g.start, g.pts)
            && Since(ps[d..], g.start) == mine && ReachesInto(ps[d..], g.start, bucket)
  {
    hide Grouped, Accumulated, Since, ReachesInto, InBucket;
    var g := Grouped(ps, bucket).open;
    if d <= at {
      mine := g.pts;
      RawOfOpen(ps, bucket, d, at);
    } else {
      mine := ps[d..];
      RawInside(ps, bucket, d, at);
      var gone := g.pts[..d - at];
      assert forall i :: 0 <= i < |gone| ==> gone[i] == g.pts[i];
      BlanksInFront(g.start, gone, mine);
      assert g.pts == gone + mine;
    }
  }

  /** Raw points that start inside the open bucket are the end of its group. */
  lemma RawInside(ps: seq<Point>, bucket: int, d: nat, at: nat)
    requires bucket > 0 && OpensAt(ps, bucket, at) && at < d < |ps|
    ensures var g := Grouped(ps, bucket).open;
            && |g.pts| == |ps| - at && ps[d..] == g.pts[d - at..] && InBucket(ps[d..], g.start, bucket)
            && Since(ps[d..], g.start) == ps[d..] && ReachesInto(ps[d..], g.start, bucket)
  {
    hide Grouped, BucketStart, Since, InBucket, ReachesInto;
    var g := Grouped(ps, bucket).open;
    assert g.pts == ps[at..] && ps[at..][d - at..] == ps[d..];
    TailInBucket(g.pts, d - at, g.start, bucket);
    BucketSince(ps[d..], g.start, bucket);
  }

  lemma BucketSince(raw: seq<Point>, start: int, bucket: int)
    requires bucket > 0 && raw != [] && InBucket(raw, start, bucket)
    ensures Since(raw, start) == raw && ReachesInto(raw, start, bucket)
  {
    hide BucketStart, Since;
    assert [] + raw == raw && raw[0] in raw;
    SinceSplit([], raw, start);
  }

  lemma TailInBucket(pts: seq<Point>, k: nat, start: int, bucket: int)
    requires bucket > 0 && k <= |pts| && InBucket(pts, start, bucket)
    ensures InBucket(pts[k..], start, bucket)
  {
    hide BucketStart;
    assert forall p :: p in pts[k..] ==> p in pts;
  }

  /**
   * Restart exactness of one tier: a load continues where the save left off, the same open
   * sums and every closed bucket up to the span and capacity trim, exactly when some raw
   * point of the open bucket is left and every one that is not is blank.
   */
  lemma RestartExactlyWhenKept(ps: seq<Point>, bucket: int, capacity: nat, cut: int, d: nat)
    requires bucket > 0 && capacity > 0 && ps != [] && Sorted(ps) && d <= |ps|
    requires d < |ps| ==> Grouped(ps, bucket).open.start >= cut
    ensures var t := PushedAll(EMPTY, bucket, capacity, ps);
            var l := Loaded(All(t), cut, bucket, capacity, ps[d..]);
            && Orderly(t, capacity)
            && (Continues(l, t, cut, capacity) <==> Spared(Grouped(ps, bucket).open.pts, |ps| - d))
            && (l.open == t.open <==> Spared(Grouped(ps, bucket).open.pts, |ps| - d))
            && (Spared(Grouped(ps, bucket).open.pts, |ps| - d) ==>
                  l.pts + [MeanPoint(t.open.value)] == LastN(Since(All(t), cut), capacity))
  {
    assert Spared(Grouped(ps, bucket).open.pts, |ps| - d) ==> d < |ps|;
    hide *;
    var g := Grouped(ps, bucket).open;
    var at := OpenGroup(ps, bucket);
    TierIsOrderly(ps, bucket, capacity);
    if Spared(g.pts, |ps| - d) {
      LoadSpared(ps, bucket, capacity, cut, d, at);
    } else {
      LoadUnspared(ps, bucket, capacity, cut, d, at);
    }
    var t := PushedAll(EMPTY, bucket, capacity, ps);
    OpenAfterLoad(t, Loaded(All(t), cut, bucket, capacity, ps[d..]), cut, capacity);
  }

  lemma OpenAfterLoad(t: TierValue, l: TierValue, cut: int, trim: nat)
    ensures Continues(l, t, cut, trim) ==> l.open == t.open
  {
  }

  /** A load that lost something of the open bucket does not restore its sums. */
  lemma LoadUnspared(ps: seq<Point>, bucket: int, capacity: nat, cut: int, d: nat, at: nat)
    requires bucket > 0 && capacity > 0 && Sorted(ps) && d <= |ps| && OpensAt(ps, bucket, at)
    requires var g := Grouped(ps, bucket).open; (d < |ps| ==> g.start >= cut) && !Spared(g.pts, |ps| - d)
    ensures var t := PushedAll(EMPTY, bucket, capacity, ps);
            Loaded(All(t), cut, bucket, capacity, ps[d..]).open != t.open
  {
    hide PushedAll, Grouped, Loaded, Accumulated, LastN, All, Sorted, BucketStart, Orderly, InBucket, Since;
    hide ReachesInto, MeanPoint;
    var g := Grouped(ps, bucket).open;
    var t := PushedAll(EMPTY, bucket, capacity, ps);
    OpenOf(ps, bucket, capacity);
    if d == |ps| {
      assert ps[d..] == [];
      LoadWithoutRaw(All(t), cut, bucket, capacity);
    } else {
      assert |g.pts| == |ps| - at && at < d;
      TierIsOrderly(ps, bucket, capacity);
      RawInside(ps, bucket, d, at);
      LoadFromFewer(t, cut, bucket, capacity, ps[d..]);
      var gone := g.pts[..d - at];
      assert forall i :: 0 <= i < |gone| ==> gone[i] == g.pts[i];
      assert g.pts == gone + ps[d..];
      if Accumulated(g.start, ps[d..]) == Accumulated(g.start, g.pts) { OnlyBlanks(g.start, gone, ps[d..]); }
    }
  }

  lemma PushContinues(l: TierValue, t: TierValue, cut: int, trim: nat, bucket: int, capacity: nat, p: Point)
    requires bucket > 0 && capacity <= trim && Orderly(t, capacity) && Continues(l, t, cut, trim)
    ensures Continues(Pushed(l, bucket, capacity, p), Pushed(t, bucket, capacity, p), cut, trim)
  {
    hide BucketStart, AddPoint, MeanPoint, Pushed, LastN, IsSuffix, Forgets, Sorted;
    if BucketStart(p.ts, bucket) <= t.open.value.start {
      PushSame(l, bucket, capacity, p);
      PushSame(t, bucket, capacity, p);
    } else {
      PushLater(l, bucket, capacity, p);
      PushLater(t, bucket, capacity, p);
      var x := MeanPoint(t.open.value);
      SuffixAppend(l.pts, t.pts, x);
      SuffixLastN(l.pts + [x], t.pts + [x], capacity);
      SuffixIn(l.pts, t.pts);
      ForgetsPushed(l.pts, t.pts, cut, trim, capacity, x);
    }
  }

  lemma ForgetsPushed(l: seq<Point>, t: seq<Point>, cut: int, trim: nat, capacity: nat, x: Point)
    requires |l| <= |t| <= capacity <= trim && Forgets(l, t, cut, trim)
    ensures Forgets(LastN(l + [x], capacity), LastN(t + [x], capacity), cut, trim)
  {
  }

  /** When nothing was trimmed, what is read from the cut on is the same, in every window. */
  lemma ReadsAlike(l: TierValue, t: TierValue, cut: int, trim: nat, from: int)
    requires Continues(l, t, cut, trim) && |t.pts| < trim && cut <= from
    ensures Since(All(l), from) == Since(All(t), from)
  {
    hide MeanPoint;
    SuffixAt(l.pts, t.pts);
    var missing := t.pts[..|t.pts| - |l.pts|];
    assert All(t) == missing + All(l);
    SinceFront(missing, All(l), from);
  }

  lemma {:induction false} SinceFront(a: seq<Point>, b: seq<Point>, from: int)
    requires forall i :: 0 <= i < |a| ==> a[i].ts < from
    ensures Since(a + b, from) == Since(b, from)
  {
    if a == [] {
      assert a + b == b;
    } else {
      assert (a + b)[1..] == a[1..] + b;
      SinceFront(a[1..], b, from);
    }
  }

  /**
   * And for every further sequence of pushes the restarted tier continues to hold what the
   * one that never stopped holds: the open sums and every closed bucket from the cut on.
   */
  lemma {:induction false} RestartForever(
    l: TierValue, t: TierValue, cut: int, trim: nat, bucket: int, capacity: nat, qs: seq<Point>)
    requires bucket > 0 && capacity <= trim && Continues(l, t, cut, trim) && Orderly(t, capacity)
    ensures var l1, t1 := PushedAll(l, bucket, capacity, qs), PushedAll(t, bucket, capacity, qs);
            Continues(l1, t1, cut, trim) && Orderly(t1, capacity)
  {
    if qs != [] {
      var n := |qs| - 1;
      RestartForever(l, t, cut, trim, bucket, capacity, qs[..n]);
      PushContinues(PushedAll(l, bucket, capacity, qs[..n]), PushedAll(t, bucket, capacity, qs[..n]), cut, trim,
        bucket, capacity, qs[n]);
      OrderlyStep(PushedAll(t, bucket, capacity, qs[..n]), bucket, capacity, qs[n]);
    }
    hide Pushed, Continues, Orderly;
  }

  // ---- a full tier spans its capacity ----

  /** Neighbouring buckets are a width apart, the open one included. */
  ghost predicate Spaced(t: TierValue, bucket: int)
    requires bucket > 0
  {
    && t.open.Some? && t.open.value.start % bucket == 0
    && (forall i :: 0 <= i < |t.pts| - 1 ==> t.pts[i].ts + bucket <= t.pts[i + 1].ts)
    && (t.pts != [] ==> t.pts[|t.pts| - 1].ts + bucket <= t.open.value.start)
  }

  lemma LaterBucket(start: int, ts: int, bucket: int)
    requires bucket > 0 && start % bucket == 0 && BucketStart(ts, bucket) > start
    ensures BucketStart(ts, bucket) >= start + bucket
  {
    BucketStartAligned(ts, bucket);
    hide BucketStart;
    var p, q := start / bucket, ts / bucket;
    DivMod(start, bucket);
    assert (q - p) * bucket == q * bucket - p * bucket;
    if q - p >= 1 {
      MulAtLeast(q - p, bucket);
    } else if q < p {
      assert (p - q) * bucket == p * bucket - q * bucket;
      MulAtLeast(p - q, bucket);
    }
  }

  lemma SpacedStep(t: TierValue, bucket: int, capacity: nat, p: Point)
    requires bucket > 0 && Spaced(t, bucket)
    ensures Spaced(Pushed(t, bucket, capacity, p), bucket)
  {
    hide BucketStart, AddPoint, MeanPoint, Pushed;
    var start := BucketStart(p.ts, bucket);
    StartKept(t.open.value, p);
    StartKept(NewAcc(start), p);
    MeanStart(t.open.value);
    if start <= t.open.value.start {
      PushSame(t, bucket, capacity, p);
    } else {
      PushLater(t, bucket, capacity, p);
      LaterBucket(t.open.value.start, p.ts, bucket);
      BucketStartAligned(p.ts, bucket);
      var all := t.pts + [MeanPoint(t.open.value)];
      assert forall i :: 0 <= i < |all| - 1 ==> all[i].ts + bucket <= all[i + 1].ts;
    }
  }

  lemma {:induction false} TierIsSpaced(ps: seq<Point>, bucket: int, capacity: nat)
    requires bucket > 0 && ps != []
    ensures Spaced(PushedAll(EMPTY, bucket, capacity, ps), bucket)
  {
    var n := |ps| - 1;
    if n == 0 {
      assert ps[..n] == [];
      BucketStartAligned(ps[0].ts, bucket);
      StartKept(NewAcc(BucketStart(ps[0].ts, bucket)), ps[0]);
      hide BucketStart, AddPoint, MeanPoint;
    } else {
      TierIsSpaced(ps[..n], bucket, capacity);
      SpacedStep(PushedAll(EMPTY, bucket, capacity, ps[..n]), bucket, capacity, ps[n]);
      hide Spaced, Pushed;
    }
  }

  lemma {:induction false} SpacedSpan(t: TierValue, bucket: int, i: nat)
    requires bucket > 0 && Spaced(t, bucket) && i < |t.pts|
    ensures t.pts[0].ts + i * bucket <= t.pts[i].ts
    decreases i
  {
    if i > 0 {
      SpacedSpan(t, bucket, i - 1);
      assert i * bucket == (i - 1) * bucket + bucket;
    }
  }

  /** The oldest bucket of a full tier is its whole capacity older than the open one. */
  lemma FullTierSpan(t: TierValue, bucket: int, capacity: nat)
    requires bucket > 0 && Spaced(t, bucket) && |t.pts| == capacity > 0
    ensures t.pts[0].ts + capacity * bucket <= t.open.value.start
  {
    SpacedSpan(t, bucket, capacity - 1);
    assert capacity * bucket == (capacity - 1) * bucket + bucket;
  }

  // ---- the whole store ----

  function StoreAfter(s: StoreValue, ps: seq<Point>): StoreValue {
    if ps == [] then s else PushStore(StoreAfter(s, ps[..|ps| - 1]), ps[|ps| - 1])
  }

  function FreshStore(rawCap: nat): StoreValue {
    StoreValue([], rawCap, EMPTY, EMPTY)
  }

  lemma {:induction false} StoreParts(s: StoreValue, ps: seq<Point>)
    ensures var r := StoreAfter(s, ps);
            && r.rawCap == s.rawCap
            && (|s.raw| <= s.rawCap ==> r.raw == LastN(s.raw + ps, s.rawCap))
            && (s.raw == [] ==> r.raw == LastN(ps, s.rawCap))
            && r.min1 == PushedAll(s.min1, MIN1_BUCKET, MIN1_SPAN / MIN1_BUCKET, ps)
            && r.min5 == PushedAll(s.min5, MIN5_BUCKET, MIN5_SPAN / MIN5_BUCKET, ps)
  {
    hide Pushed;
    if ps != [] {
      var n := |ps| - 1;
      StoreParts(s, ps[..n]);
      LastNStep(ps[..n], ps[n], s.rawCap);
      LastNStep(s.raw + ps[..n], ps[n], s.rawCap);
      assert ps[..n] + [ps[n]] == ps && s.raw + ps[..n] + [ps[n]] == s.raw + ps;
    }
  }

  /** What survives the two-hour cut and the raw capacity at load. */
  function RawKept(ps: seq<Point>, rawCap: nat, now: int): seq<Point> {
    LastN(Since(LastN(ps, rawCap), now - RAW_SPAN), rawCap)
  }

  lemma KeptIsSuffix(ps: seq<Point>, rawCap: nat, now: int) returns (d: nat)
    requires Sorted(ps)
    ensures d <= |ps| && RawKept(ps, rawCap, now) == ps[d..]
    ensures forall i :: d <= i < |ps| ==> ps[i].ts >= now - RAW_SPAN
  {
    hide LastN, Since, IsSuffix;
    var tail := LastN(ps, rawCap);
    LastNSuffix(ps, rawCap);
    var young, kept := Since(tail, now - RAW_SPAN), RawKept(ps, rawCap, now);
    assert IsSuffix(young, tail) by {
      SuffixIn(tail, ps);
      var k := SinceSuffix(tail, now - RAW_SPAN);
      DropSuffix(tail, k);
    }
    LastNSuffix(young, rawCap);
    SuffixTrans(young, tail, ps);
    SuffixTrans(kept, young, ps);
    SuffixIn(kept, young);
    SuffixIn(kept, ps);
    d := |ps| - |kept|;
    forall i | d <= i < |ps| ensures ps[i].ts >= now - RAW_SPAN {
      assert ps[i] == kept[i - d];
    }
  }

  /** Some raw point of the open bucket survives the load, and whatever does not is blank. */
  ghost predicate OpenKept(ps: seq<Point>, rawCap: nat, now: int, bucket: int)
    requires bucket > 0
  {
    ps != [] && Spared(Grouped(ps, bucket).open.pts, |RawKept(ps, rawCap, now)|)
  }

  /** The restart of one tier of the store. */
  lemma TierOfStore(ps: seq<Point>, rawCap: nat, now: int, bucket: int, span: int, capacity: nat)
    requires 0 < bucket && bucket + RAW_SPAN <= span && capacity > 0 && ps != [] && Sorted(ps)
    ensures var t := PushedAll(EMPTY, bucket, capacity, ps);
            var l := Loaded(All(t), now - span, bucket, capacity, RawKept(ps, rawCap, now));
            && Orderly(t, capacity)
            && (Continues(l, t, now - span, capacity) <==> OpenKept(ps, rawCap, now, bucket))
            && (l.open == t.open <==> OpenKept(ps, rawCap, now, bucket))
  {
    hide PushedAll, Grouped, Loaded, BucketStart, Since, LastN, Orderly, Continues, RawKept, All, Spared, MeanPoint;
    hide Sorted;
    var d := KeptIsSuffix(ps, rawCap, now);
    if d < |ps| { OpenIsYoung(ps, now, bucket, span); }
    RestartExactlyWhenKept(ps, bucket, capacity, now - span, d);
  }

  /** The bucket of a point that survives the raw cut survives the cut of its tier. */
  lemma OpenIsYoung(ps: seq<Point>, now: int, bucket: int, span: int)
    requires 0 < bucket && bucket + RAW_SPAN <= span && ps != [] && Sorted(ps)
    requires ps[|ps| - 1].ts >= now - RAW_SPAN
    ensures Grouped(ps, bucket).open.start >= now - span
  {
    var at := OpenGroup(ps, bucket);
    var g := Grouped(ps, bucket).open;
    hide Grouped, BucketStart;
    var n := |ps| - 1;
    assert g.pts[n - at] == ps[n] && g.pts[n - at] in g.pts;
    BucketStartAligned(ps[n].ts, bucket);
  }

  /**
   * Restart exactness of the store: a load at any moment continues both averaged tiers, the
   * open sums and every closed bucket up to the span and capacity trim, and still does after
   * any further pushes, exactly when some raw point of each open bucket survives and every
   * one that does not is blank.
   */
  lemma StoreRestart(ps: seq<Point>, rawCap: nat, now: int, qs: seq<Point>)
    requires ps != [] && Sorted(ps)
    ensures var stopped := StoreAfter(FreshStore(rawCap), ps);
            var loaded := LoadStore(Saved(stopped), rawCap, now);
            var on, again := StoreAfter(stopped, qs), StoreAfter(loaded, qs);
            && (loaded.min1.open == stopped.min1.open <==> OpenKept(ps, rawCap, now, MIN1_BUCKET))
            && (loaded.min5.open == stopped.min5.open <==> OpenKept(ps, rawCap, now, MIN5_BUCKET))
            && (OpenKept(ps, rawCap, now, MIN1_BUCKET) ==>
                  Continues(again.min1, on.min1, now - MIN1_SPAN, MIN1_SPAN / MIN1_BUCKET))
            && (OpenKept(ps, rawCap, now, MIN5_BUCKET) ==>
                  Continues(again.min5, on.min5, now - MIN5_SPAN, MIN5_SPAN / MIN5_BUCKET))
  {
    var stopped := StoreAfter(FreshStore(rawCap), ps);
    var loaded := LoadStore(Saved(stopped), rawCap, now);
    hide StoreAfter, PushedAll, Loaded, Grouped, All, Since, Continues, Orderly, OpenKept, Sorted;
    StoreParts(FreshStore(rawCap), ps);
    StoreParts(stopped, qs);
    StoreParts(loaded, qs);
    TierOfStore(ps, rawCap, now, MIN1_BUCKET, MIN1_SPAN, MIN1_SPAN / MIN1_BUCKET);
    TierOfStore(ps, rawCap, now, MIN5_BUCKET, MIN5_SPAN, MIN5_SPAN / MIN5_BUCKET);
    if OpenKept(ps, rawCap, now, MIN1_BUCKET) {
      RestartForever(loaded.min1, stopped.min1, now - MIN1_SPAN, MIN1_SPAN / MIN1_BUCKET, MIN1_BUCKET,
        MIN1_SPAN / MIN1_BUCKET, qs);
    }
    if OpenKept(ps, rawCap, now, MIN5_BUCKET) {
      RestartForever(loaded.min5, stopped.min5, now - MIN5_SPAN, MIN5_SPAN / MIN5_BUCKET, MIN5_BUCKET,
        MIN5_SPAN / MIN5_BUCKET, qs);
    }
  }

  /** A load not before the last push trims nothing younger than the span. */
  lemma UntrimmedLater(ps: seq<Point>, rawCap: nat, now: int, bucket: int, span: int, capacity: nat)
    requires 0 < bucket && bucket + RAW_SPAN <= span == capacity * bucket && capacity > 0 && ps != [] && Sorted(ps)
    requires ps[|ps| - 1].ts <= now && OpenKept(ps, rawCap, now, bucket)
    ensures var t := PushedAll(EMPTY, bucket, capacity, ps);
            var l := Loaded(All(t), now - span, bucket, capacity, RawKept(ps, rawCap, now));
            Orderly(t, capacity) && Continues(l, t, now - span + 1, capacity + 1)
  {
    var t := PushedAll(EMPTY, bucket, capacity, ps);
    var l := Loaded(All(t), now - span, bucket, capacity, RawKept(ps, rawCap, now));
    hide PushedAll, Grouped, Loaded, BucketStart, RawKept, All, OpenKept, Sorted, Spaced, IsSuffix;
    TierOfStore(ps, rawCap, now, bucket, span, capacity);
    TierIsSpaced(ps, bucket, capacity);
    OpenStartsBefore(ps, bucket, capacity);
    if |t.pts| == capacity { FullTierSpan(t, bucket, capacity); }
  }

  lemma OpenStartsBefore(ps: seq<Point>, bucket: int, capacity: nat)
    requires bucket > 0 && ps != [] && Sorted(ps)
    ensures var t := PushedAll(EMPTY, bucket, capacity, ps); t.open.Some? && t.open.value.start <= ps[|ps| - 1].ts
  {
    var at := OpenGroup(ps, bucket);
    var g := Grouped(ps, bucket).open;
    TierIsGroups(ps, bucket, capacity);
    AccumulatedStart(g.start, g.pts);
    hide Grouped, BucketStart, PushedAll, Accumulated, LastN, Means;
    var n := |ps| - 1;
    assert g.pts[n - at] == ps[n] && g.pts[n - at] in g.pts;
  }

  /**
   * After a load not before the last push and any further pushes, both averaged tiers hold
   * the same points as without the restart in every window that starts after the cut of the
   * load.
   */
  lemma TiersReadAlike(ps: seq<Point>, rawCap: nat, now: int, qs: seq<Point>, from: int)
    requires ps != [] && Sorted(ps) && ps[|ps| - 1].ts <= now
    ensures var stopped := StoreAfter(FreshStore(rawCap), ps);
            var on, again := StoreAfter(stopped, qs), StoreAfter(LoadStore(Saved(stopped), rawCap, now), qs);
            && (OpenKept(ps, rawCap, now, MIN1_BUCKET) && from > now - MIN1_SPAN ==>
                  Since(All(again.min1), from) == Since(All(on.min1), from))
            && (OpenKept(ps, rawCap, now, MIN5_BUCKET) && from > now - MIN5_SPAN ==>
                  Since(All(again.min5), from) == Since(All(on.min5), from))
  {
    var stopped := StoreAfter(FreshStore(rawCap), ps);
    var loaded := LoadStore(Saved(stopped), rawCap, now);
    hide StoreAfter, PushedAll, Loaded, Grouped, All, Since, Continues, OpenKept, Sorted;
    StoreParts(FreshStore(rawCap), ps);
    StoreParts(stopped, qs);
    StoreParts(loaded, qs);
    if OpenKept(ps, rawCap, now, MIN1_BUCKET) && from > now - MIN1_SPAN {
      UntrimmedLater(ps, rawCap, now, MIN1_BUCKET, MIN1_SPAN, MIN1_SPAN / MIN1_BUCKET);
      LaterReads(loaded.min1, stopped.min1, now - MIN1_SPAN + 1, MIN1_BUCKET, MIN1_SPAN / MIN1_BUCKET, qs, from);
    }
    if OpenKept(ps, rawCap, now, MIN5_BUCKET) && from > now - MIN5_SPAN {
      UntrimmedLater(ps, rawCap, now, MIN5_BUCKET, MIN5_SPAN, MIN5_SPAN / MIN5_BUCKET);
      LaterReads(loaded.min5, stopped.min5, now - MIN5_SPAN + 1, MIN5_BUCKET, MIN5_SPAN / MIN5_BUCKET, qs, from);
    }
  }

  /** The raw points a load drops are older than its cut, now and after any pushes. */
  lemma RawReadsAlike(ps: seq<Point>, rawCap: nat, now: int, qs: seq<Point>, from: int)
    requires Sorted(ps) && from >= now - RAW_SPAN
    ensures
      Since(LastN(RawKept(ps, rawCap, now) + qs, rawCap), from) == Since(LastN(LastN(ps, rawCap) + qs, rawCap), from)
  {
    hide Since, Sorted, LastN;
    var tail := LastN(ps, rawCap);
    LastNSuffix(ps, rawCap);
    TailSorted(ps, |ps| - |tail|);
    var k := SinceSuffix(tail, now - RAW_SPAN);
    var gone, kept := tail[..k], tail[k..];
    assert RawKept(ps, rawCap, now) == kept by { LastNAll(kept, rawCap); }
    assert tail + qs == gone + (kept + qs);
    var m := LastNFront(gone, kept + qs, rawCap);
    SinceFront(gone[k - m..], LastN(kept + qs, rawCap), from);
  }

  lemma LastNAll<T>(s: seq<T>, n: nat)
    requires |s| <= n
    ensures LastN(s, n) == s
  {
  }

  /** Elements in front only take what room is left. */
  lemma LastNFront<T>(gone: seq<T>, rest: seq<T>, n: nat) returns (m: nat)
    ensures m <= |gone| && LastN(gone + rest, n) == gone[|gone| - m..] + LastN(rest, n)
  {
    var all := gone + rest;
    if |rest| > n {
      m := 0;
      assert all[|all| - n..] == rest[|rest| - n..] == [] + rest[|rest| - n..];
    } else {
      m := if |all| <= n then |gone| else n - |rest|;
      assert all[|gone| - m..] == gone[|gone| - m..] + rest;
      assert LastN(all, n) == all[|gone| - m..];
    }
  }

  lemma TailSorted(ps: seq<Point>, d: nat)
    requires Sorted(ps) && d <= |ps|
    ensures Sorted(ps[d..])
  {
  }

  function Later(a: int, b: int): int { if a >= b then a else b }

  /** Range reads the tier from the later of its two bounds on. */
  lemma {:induction false} BetweenIsSince(pts: seq<Point>, cut: int, since: int)
    ensures Between(pts, cut, since) == Since(pts, Later(cut, since + 1))
  {
    if pts != [] {
      var n := |pts| - 1;
      BetweenIsSince(pts[..n], cut, since);
      assert pts == pts[..n] + [pts[n]];
      SinceLast(pts[..n], pts[n], Later(cut, since + 1));
    }
  }

  lemma {:induction false} SinceLast(pts: seq<Point>, p: Point, from: int)
    ensures Since(pts + [p], from) == Since(pts, from) + if p.ts >= from then [p] else []
  {
    if pts == [] {
      assert [] + [p] == [p] && [p][1..] == [];
    } else {
      assert (pts + [p])[1..] == pts[1..] + [p] && (pts + [p])[0] == pts[0];
      SinceLast(pts[1..], p, from);
    }
  }

  /** The tier of the span still has all the points from there on after a load. */
  ghost predicate Reaches(ps: seq<Point>, rawCap: nat, now: int, span: int, from: int) {
    if span <= RAW_SPAN then from >= now - RAW_SPAN
    else if span <= MIN1_SPAN then OpenKept(ps, rawCap, now, MIN1_BUCKET) && from > now - MIN1_SPAN
    else OpenKept(ps, rawCap, now, MIN5_BUCKET) && from > now - MIN5_SPAN
  }

  /**
   * What a reader is told: after a load not before the last push and any further pushes, Range
   * gives the same points as without the restart, for every span, at every time and from
   * every point on, when the window starts after the cut of the load and, for an averaged
   * tier, its open bucket was spared.
   */
  lemma StoreReadsAlike(ps: seq<Point>, rawCap: nat, now: int, qs: seq<Point>, span: int, later: int, since: int)
    requires ps != [] && Sorted(ps) && ps[|ps| - 1].ts <= now
    requires Reaches(ps, rawCap, now, span, Later(later - span, since + 1))
    ensures var stopped := StoreAfter(FreshStore(rawCap), ps);
            var on, again := StoreAfter(stopped, qs), StoreAfter(LoadStore(Saved(stopped), rawCap, now), qs);
            Between(TierFor(again, span), later - span, since) == Between(TierFor(on, span), later - span, since)
  {
    var stopped := StoreAfter(FreshStore(rawCap), ps);
    var loaded := LoadStore(Saved(stopped), rawCap, now);
    var on, again := StoreAfter(stopped, qs), StoreAfter(loaded, qs);
    var from := Later(later - span, since + 1);
    hide StoreAfter, PushedAll, Loaded, All, Since, OpenKept, Sorted, Between, Later, LastN;
    BetweenIsSince(TierFor(again, span), later - span, since);
    BetweenIsSince(TierFor(on, span), later - span, since);
    if span <= RAW_SPAN {
      StoreParts(FreshStore(rawCap), ps);
      StoreParts(stopped, qs);
      StoreParts(loaded, qs);
      LastNSuffix(ps, rawCap);
      LastNSuffix(Since(stopped.raw, now - RAW_SPAN), rawCap);
      RawReadsAlike(ps, rawCap, now, qs, from);
    } else {
      TiersReadAlike(ps, rawCap, now, qs, from);
    }
  }

  lemma LaterReads(l: TierValue, t: TierValue, cut: int, bucket: int, capacity: nat, qs: seq<Point>, from: int)
    requires bucket > 0 && Orderly(t, capacity) && Continues(l, t, cut, capacity + 1) && cut <= from
    ensures Since(All(PushedAll(l, bucket, capacity, qs)), from) == Since(All(PushedAll(t, bucket, capacity, qs)), from)
  {
    hide PushedAll, Continues, Sorted, All, Since;
    RestartForever(l, t, cut, capacity + 1, bucket, capacity, qs);
    ReadsAlike(PushedAll(l, bucket, capacity, qs), PushedAll(t, bucket, capacity, qs), cut, capacity + 1, from);
  }

  const OLD := Point(0, map["cpu" := 50.0], map[], map[], map[])
  const YOUNG := Point(1, map[], map[], map[], map[])

  lemma OneGroup()
    ensures Grouped([OLD, YOUNG], MIN1_BUCKET) == Groups([], Group(0, [OLD, YOUNG]))
  {
    var ps := [OLD, YOUNG];
    assert ps[..1] == [OLD] && [OLD][..0] == [];
    assert BucketStart(0, MIN1_BUCKET) == 0 && BucketStart(1, MIN1_BUCKET) == 0;
    assert Grouped(ps[..1], MIN1_BUCKET) == Groups([], Group(0, [OLD]));
  }

  lemma OldDropped()
    ensures RawKept([OLD, YOUNG], 1000, 7201) == [YOUNG]
  {
    var ps := [OLD, YOUNG];
    assert ps == [OLD] + [YOUNG];
    SinceSplit([OLD], [YOUNG], 1);
    assert LastN(ps, 1000) == ps && LastN([YOUNG], 1000) == [YOUNG];
    hide Since, LastN;
  }

  lemma OldNotSpared()
    ensures !OpenKept([OLD, YOUNG], 1000, 7201, MIN1_BUCKET)
  {
    hide Grouped, RawKept, BucketStart;
    OneGroup();
    OldDropped();
    assert "cpu" in OLD.temp && [OLD, YOUNG][0] == OLD;
  }

  /** A run in which a restart loses part of a bucket: its first point is two hours old, the second is not. */
  lemma RestartLoses()
    ensures var ps, now := [OLD, YOUNG], 7201;
            var stopped := StoreAfter(FreshStore(1000), ps);
            Sorted(ps) && ps[1].ts <= now && LoadStore(Saved(stopped), 1000, now).min1.open != stopped.min1.open
  {
    OldNotSpared();
    assert Sorted([OLD, YOUNG]);
    hide *;
    StoreRestart([OLD, YOUNG], 1000, 7201, []);
  }
}
