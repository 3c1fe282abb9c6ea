/**
 * The tiered history of internal/history/history.go: points, the accumulator of an open
 * bucket, an averaged tier and the store, with the plain grouping they refine.
 */
module History {
  import opened Wrappers

  type Series = map<string, real>

  /** One history entry; the channel series by name, watched sensors by id. */
  datatype Point = Point(ts: int, temp: Series, duty: map<string, int>, rpm: map<string, int>, extra: Series)

  datatype Sum = Sum(total: real, n: nat)

  type Sums = map<string, Sum>

  /** The accumulator of one bucket, as a value. */
  datatype AccValue = AccValue(start: int, temp: Sums, duty: Sums, rpm: Sums, extra: Sums)

  /** The closed buckets of a tier, oldest first, and the open one. */
  datatype TierValue = TierValue(pts: seq<Point>, open: Option<AccValue>)

  // ---- arithmetic ----

  /** Go's % truncates toward zero. */
  function GoRem(a: int, b: int): int
    requires b > 0
  {
    if a >= 0 then a % b else -((-a) % b)
  }

  function BucketStart(ts: int, bucket: int): int
    requires bucket > 0
  {
    ts - GoRem(GoRem(ts, bucket) + bucket, bucket)
  }

  /** math.Round: half away from zero. */
  function Round(x: real): int {
    if x >= 0.0 then (x + 0.5).Floor else -((-x + 0.5).Floor)
  }

  function Round3(x: real): real {
    Round(x * 1000.0) as real / 1000.0
  }

  lemma {:induction false} MulAtLeast(k: int, b: int)
    requires k >= 1 && b > 0
    ensures k * b >= b
    decreases k
  {
    if k > 1 {
      MulAtLeast(k - 1, b);
      assert k * b == (k - 1) * b + b;
    }
  }

  lemma DivMod(x: int, b: int)
    requires b > 0
    ensures x == (x / b) * b + x % b && 0 <= x % b < b
  {
  }

  /** Quotient and remainder are unique. */
  lemma ModIs(x: int, q: int, r: int, b: int)
    requires b > 0 && 0 <= r < b && x == q * b + r
    ensures x % b == r && x / b == q
  {
    DivMod(x, b);
    var d := x / b - q;
    assert d * b == (x / b) * b - q * b;
    if d >= 1 { MulAtLeast(d, b); }
    if d <= -1 { MulAtLeast(-d, b); }
  }

  /** The start of a bucket is the largest multiple of its width not above the timestamp. */
  lemma BucketStartAligned(ts: int, bucket: int)
    requires bucket > 0
    ensures BucketStart(ts, bucket) == ts - ts % bucket == (ts / bucket) * bucket
    ensures BucketStart(ts, bucket) % bucket == 0
    ensures BucketStart(ts, bucket) <= ts < BucketStart(ts, bucket) + bucket
  {
    var q, r := ts / bucket, ts % bucket;
    DivMod(ts, bucket);
    ModIs(q * bucket, q, 0, bucket);
    if ts >= 0 {
      ModIs(r + bucket, 1, r, bucket);
    } else {
      var p, m := (-ts) / bucket, (-ts) % bucket;
      DivMod(-ts, bucket);
      if m == 0 {
        ModIs(ts, -p, 0, bucket);
        ModIs(bucket, 1, 0, bucket);
      } else {
        assert ts == (-p - 1) * bucket + (bucket - m) by { assert (-p - 1) * bucket == -(p * bucket) - bucket; }
        ModIs(ts, -p - 1, bucket - m, bucket);
        ModIs(bucket - m, 0, bucket - m, bucket);
      }
    }
  }

  /** Bucket starts follow the timestamps. */
  lemma BucketStartMonotone(a: int, b: int, bucket: int)
    requires bucket > 0 && a <= b
    ensures BucketStart(a, bucket) <= BucketStart(b, bucket)
  {
    hide BucketStart;
    BucketStartAligned(a, bucket);
    BucketStartAligned(b, bucket);
    MultiplesOrdered(a / bucket, b / bucket, bucket, a, b);
  }

  /** A multiple at or below a is at or below the last multiple that b reaches. */
  lemma MultiplesOrdered(p: int, q: int, bucket: int, a: int, b: int)
    requires bucket > 0 && p * bucket <= a <= b < q * bucket + bucket
    ensures p * bucket <= q * bucket
  {
    assert (p - q) * bucket == p * bucket - q * bucket;
    if p > q { MulAtLeast(p - q, bucket); }
  }

  // ---- accumulating ----

  function SumOf(m: Sums, k: string): Sum {
    if k in m then m[k] else Sum(0.0, 0)
  }

  function Added(m: Sums, s: Series): Sums {
    map k | k in m.Keys + s.Keys :: if k in s then Sum(SumOf(m, k).total + s[k], SumOf(m, k).n + 1) else m[k]
  }

  function Reals(m: map<string, int>): Series {
    map k | k in m :: m[k] as real
  }

  /** A negative duty is the marker of a failed write, not a value. */
  function Duties(m: map<string, int>): Series {
    map k | k in m && m[k] >= 0 :: m[k] as real
  }

  function AddPoint(a: AccValue, p: Point): AccValue {
    AccValue(a.start, Added(a.temp, p.temp), Added(a.duty, Duties(p.duty)), Added(a.rpm, Reals(p.rpm)),
      Added(a.extra, p.extra))
  }

  function NewAcc(start: int): AccValue {
    AccValue(start, map[], map[], map[], map[])
  }

  function Mean(s: Sum): real {
    if s.n == 0 then 0.0 else s.total / s.n as real
  }

  /** The bucket's mean: temperatures to three decimals, duty and rpm to integers. */
  function MeanPoint(a: AccValue): Point {
    Point(a.start,
          map k | k in a.temp :: Round3(Mean(a.temp[k])),
          map k | k in a.duty :: Round(Mean(a.duty[k])),
          map k | k in a.rpm :: Round(Mean(a.rpm[k])),
          map k | k in a.extra :: Round3(Mean(a.extra[k])))
  }

  // ---- a tier, as a value ----

  function LastN<T>(s: seq<T>, n: nat): seq<T> {
    if |s| <= n then s else s[|s| - n..]
  }

  function Close(t: TierValue, capacity: nat): TierValue {
    match t.open
    case None => t
    case Some(a) => TierValue(LastN(t.pts + [MeanPoint(a)], capacity), None)
  }

  /** The bucket a point opens when none is open: a new one, or the last closed one again. */
  function Opened(pts: seq<Point>, start: int): TierValue {
    if pts != [] && start <= pts[|pts| - 1].ts
    then var last := pts[|pts| - 1];
         TierValue(pts[..|pts| - 1], Some(AddPoint(NewAcc(last.ts), last)))
    else TierValue(pts, Some(NewAcc(start)))
  }

  function Pushed(t: TierValue, bucket: int, capacity: nat, p: Point): TierValue
    requires bucket > 0
  {
    var start := BucketStart(p.ts, bucket);
    if t.open.Some? && start <= t.open.value.start
    then t.(open := Some(AddPoint(t.open.value, p)))
    else
      var o := Opened(Close(t, capacity).pts, start);
      o.(open := Some(AddPoint(o.open.value, p)))
  }

  function All(t: TierValue): seq<Point> {
    if t.open.None? then t.pts else t.pts + [MeanPoint(t.open.value)]
  }

  function Since(pts: seq<Point>, cut: int): (r: seq<Point>)
    ensures forall p :: p in r ==> p in pts && p.ts >= cut
  {
    if pts == [] then []
    else if pts[0].ts >= cut then [pts[0]] + Since(pts[1..], cut)
    else Since(pts[1..], cut)
  }

  function PushedAll(t: TierValue, bucket: int, capacity: nat, ps: seq<Point>): TierValue
    requires bucket > 0
  {
    if ps == [] then t else Pushed(PushedAll(t, bucket, capacity, ps[..|ps| - 1]), bucket, capacity, ps[|ps| - 1])
  }

  /** Some raw point falls into the bucket that starts at last. */
  ghost predicate ReachesInto(raw: seq<Point>, last: int, bucket: int)
    requires bucket > 0
  {
    exists p :: p in raw && p.ts >= last && BucketStart(p.ts, bucket) == last
  }

  /** load: the file's points that are young enough, the last bucket rebuilt from raw. */
  ghost function Loaded(pts: seq<Point>, cut: int, bucket: int, capacity: nat, raw: seq<Point>): TierValue
    requires bucket > 0
  {
    var kept := LastN(Since(pts, cut), capacity);
    if kept == [] then TierValue(kept, None)
    else
      var last := kept[|kept| - 1].ts;
      var later := Since(raw, last);
      var rebuild := ReachesInto(raw, last, bucket);
      PushedAll(TierValue(if rebuild then kept[..|kept| - 1] else kept, None), bucket, capacity, later)
  }

  // ---- the classes ----

  class Acc {
    const start: int
    var temp: Sums
    var duty: Sums
    var rpm: Sums
    var extra: Sums

    ghost function View(): AccValue
      reads this
    {
      AccValue(start, temp, duty, rpm, extra)
    }

    constructor (s: int)
      ensures View() == NewAcc(s)
    {
      start, temp, duty, rpm, extra := s, map[], map[], map[], map[];
    }

    method Add(p: Point)
      modifies this
      ensures View() == AddPoint(old(View()), p)
    {
      temp := Fold(temp, p.temp);
      var written := map[];
      var keys := p.duty.Keys;
      while keys != {}
        invariant keys <= p.duty.Keys
        invariant written == map k | k in p.duty && k !in keys && p.duty[k] >= 0 :: p.duty[k] as real
        invariant View() == old(View()).(temp := Added(old(temp), p.temp))
      {
        var k :| k in keys;
        if p.duty[k] >= 0 {
          written := written[k := p.duty[k] as real];
        }
        keys := keys - {k};
      }
      assert written == Duties(p.duty);
      duty := Fold(duty, written);
      rpm := Fold(rpm, Reals(p.rpm));
      extra := Fold(extra, p.extra);
    }

    /** One range loop of add: every value of s joins the sum of its key. */
    method Fold(m: Sums, s: Series) returns (r: Sums)
      ensures r == Added(m, s)
    {
      r := m;
      var keys := s.Keys;
      while keys != {}
        invariant keys <= s.Keys
        invariant r == Added(m, map k | k in s && k !in keys :: s[k])
      {
        var k :| k in keys;
        r := r[k := Sum(SumOf(m, k).total + s[k], SumOf(m, k).n + 1)];
        keys := keys - {k};
      }
      assert (map k | k in s && k !in keys :: s[k]) == s;
    }
  }

  class Tier {
    const bucket: int
    const capacity: nat
    const span: int
    var pts: seq<Point>
    var open: Acc?

    ghost predicate Valid()
      reads this
    {
      bucket > 0
    }

    ghost function View(): TierValue
      reads this, open
    {
      TierValue(pts, if open == null then None else Some(open.View()))
    }

    constructor (b: int, s: int, c: nat)
      requires b > 0
      ensures Valid() && bucket == b && span == s && capacity == c
      ensures View() == TierValue([], None) && open == null
    {
      bucket, span, capacity, pts, open := b, s, c, [], null;
    }

    method CloseOpen()
      requires Valid()
      modifies this
      ensures View() == Close(old(View()), capacity) && open == null
    {
      if open == null { return; }
      var mean := MeanPoint(AccValue(open.start, open.temp, open.duty, open.rpm, open.extra));
      pts := pts + [mean];
      open := null;
      if |pts| > capacity {
        pts := pts[|pts| - capacity..];
      }
    }

    method Push(p: Point)
      requires Valid()
      modifies this, open
      ensures Valid() && View() == Pushed(old(View()), bucket, capacity, p)
      ensures open != null && (open == old(open) || fresh(open))
    {
      var start := BucketStart(p.ts, bucket);
      if open != null {
        if start <= open.start {
          open.Add(p);
          return;
        }
        CloseOpen();
      }
      var acc;
      if |pts| > 0 && start <= pts[|pts| - 1].ts {
        var last := pts[|pts| - 1];
        pts := pts[..|pts| - 1];
        acc := new Acc(last.ts);
        acc.Add(last);
      } else {
        acc := new Acc(start);
      }
      acc.Add(p);
      open := acc;
    }

    method AllPoints() returns (r: seq<Point>)
      ensures r == All(View())
    {
      if open == null { return pts; }
      return pts + [MeanPoint(AccValue(open.start, open.temp, open.duty, open.rpm, open.extra))];
    }

    method Rebuilds(raw: seq<Point>, last: int) returns (rebuild: bool)
      requires Valid()
      ensures rebuild == ReachesInto(raw, last, bucket)
    {
      rebuild := false;
      for i := 0 to |raw|
        invariant rebuild <==> ReachesInto(raw[..i], last, bucket)
      {
        assert raw[..i + 1] == raw[..i] + [raw[i]];
        if raw[i].ts >= last && BucketStart(raw[i].ts, bucket) == last { rebuild := true; }
      }
      assert raw[..|raw|] == raw;
    }

    method Replay(later: seq<Point>)
      requires Valid()
      modifies this, open
      ensures Valid() && View() == PushedAll(old(View()), bucket, capacity, later)
      ensures open == old(open) || fresh(open)
    {
      hide Pushed;
      ghost var base := View();
      for i := 0 to |later|
        invariant Valid() && (open == old(open) || fresh(open))
        invariant View() == PushedAll(base, bucket, capacity, later[..i])
      {
        assert later[..i + 1][..i] == later[..i];
        Push(later[i]);
      }
      assert later[..|later|] == later;
    }

    method Load(file: seq<Point>, now: int, raw: seq<Point>)
      requires Valid()
      modifies this, open
      ensures Valid() && View() == Loaded(file, now - span, bucket, capacity, raw)
      ensures open == null || fresh(open)
    {
      hide PushedAll, ReachesInto, Since;
      open := null;
      pts := LastN(Since(file, now - span), capacity);
      var n := |pts|;
      if n == 0 { return; }
      var last := pts[n - 1].ts;
      var rebuild := Rebuilds(raw, last);
      var later := Since(raw, last);
      if rebuild {
        pts := pts[..n - 1];
      }
      Replay(later);
    }
  }

  // ---- the store ----

  const RAW_SPAN := 7200
  const MIN1_SPAN := 86400
  const MIN1_BUCKET := 60
  const MIN5_SPAN := 604800
  const MIN5_BUCKET := 300
  const SECOND := 1_000_000_000

  /** The raw points kept for a regulation interval in nanoseconds. */
  function RawCapacity(interval: int): (n: nat)
    ensures n >= 1 && (interval <= 0 ==> n == 1)
    ensures interval > 0 && n > 1 ==> n * interval <= RAW_SPAN * SECOND
    ensures interval > 0 ==> RAW_SPAN * SECOND < (n + 1) * interval
  {
    if interval <= 0 || RAW_SPAN * SECOND / interval < 1 then 1 else RAW_SPAN * SECOND / interval
  }

  /** The content of history.json. */
  datatype File = File(raw: seq<Point>, min1: seq<Point>, min5: seq<Point>)

  datatype StoreValue = StoreValue(raw: seq<Point>, rawCap: nat, min1: TierValue, min5: TierValue)

  function PushStore(s: StoreValue, p: Point): StoreValue {
    StoreValue(LastN(s.raw + [p], s.rawCap), s.rawCap,
               Pushed(s.min1, MIN1_BUCKET, MIN1_SPAN / MIN1_BUCKET, p),
               Pushed(s.min5, MIN5_BUCKET, MIN5_SPAN / MIN5_BUCKET, p))
  }

  function Saved(s: StoreValue): File {
    File(s.raw, All(s.min1), All(s.min5))
  }

  ghost function LoadStore(f: File, rawCap: nat, now: int): StoreValue {
    var raw := LastN(Since(f.raw, now - RAW_SPAN), rawCap);
    StoreValue(raw, rawCap,
               Loaded(f.min1, now - MIN1_SPAN, MIN1_BUCKET, MIN1_SPAN / MIN1_BUCKET, raw),
               Loaded(f.min5, now - MIN5_SPAN, MIN5_BUCKET, MIN5_SPAN / MIN5_BUCKET, raw))
  }

  /** The tier a span is read from. */
  function TierFor(s: StoreValue, span: int): seq<Point> {
    if span <= RAW_SPAN then s.raw else if span <= MIN1_SPAN then All(s.min1) else All(s.min5)
  }

  class Store {
    var raw: seq<Point>
    var rawCap: nat
    const min1: Tier
    const min5: Tier

    ghost predicate Valid()
      reads this, min1, min5
    {
      && min1 != min5 && min1.Valid() && min5.Valid()
      && (min1.open != null ==> min1.open != min5.open)
      && min1.bucket == MIN1_BUCKET && min1.span == MIN1_SPAN && min1.capacity == MIN1_SPAN / MIN1_BUCKET
      && min5.bucket == MIN5_BUCKET && min5.span == MIN5_SPAN && min5.capacity == MIN5_SPAN / MIN5_BUCKET
    }

    ghost function View(): StoreValue
      reads this, min1, min5, min1.open, min5.open
    {
      StoreValue(raw, rawCap, min1.View(), min5.View())
    }

    /** A store before Load: empty tiers. */
    constructor (interval: int)
      ensures Valid() && fresh(min1) && fresh(min5) && min1.open == null && min5.open == null
      ensures View() == StoreValue([], RawCapacity(interval), TierValue([], None), TierValue([], None))
    {
      raw, rawCap := [], RawCapacity(interval);
      min1 := new Tier(MIN1_BUCKET, MIN1_SPAN, MIN1_SPAN / MIN1_BUCKET);
      min5 := new Tier(MIN5_BUCKET, MIN5_SPAN, MIN5_SPAN / MIN5_BUCKET);
    }

    method TrimRaw()
      modifies `raw
      ensures raw == LastN(old(raw), rawCap)
    {
      if |raw| > rawCap {
        raw := raw[|raw| - rawCap..];
      }
    }

    method SetInterval(interval: int)
      modifies `raw, `rawCap
      ensures rawCap == RawCapacity(interval) && raw == LastN(old(raw), rawCap)
    {
      rawCap := RawCapacity(interval);
      TrimRaw();
    }

    method Push(p: Point)
      requires Valid()
      modifies this, min1, min5, min1.open, min5.open
      ensures Valid() && View() == PushStore(old(View()), p)
    {
      hide Pushed;
      raw := raw + [p];
      TrimRaw();
      min1.Push(p);
      min5.Push(p);
    }

    /** The last span's points after since, oldest first, from the tier of that span. */
    method Range(span: int, since: int, now: int) returns (out: seq<Point>)
      requires Valid()
      ensures out == Between(TierFor(View(), span), now - span, since)
    {
      var src;
      if span <= RAW_SPAN {
        src := raw;
      } else if span <= MIN1_SPAN {
        src := min1.AllPoints();
      } else {
        src := min5.AllPoints();
      }
      out := [];
      for i := 0 to |src|
        invariant out == Between(src[..i], now - span, since)
      {
        assert src[..i + 1][..i] == src[..i];
        if src[i].ts >= now - span && src[i].ts > since {
          out := out + [src[i]];
        }
      }
      assert src[..|src|] == src;
    }

    method Save() returns (f: File)
      requires Valid()
      ensures f == Saved(View())
    {
      var a := min1.AllPoints();
      var b := min5.AllPoints();
      f := File(raw, a, b);
    }

    method Load(f: File, now: int)
      requires Valid()
      modifies this, min1, min5, min1.open, min5.open
      ensures Valid() && View() == LoadStore(f, rawCap, now) && rawCap == old(rawCap)
    {
      hide Loaded;
      raw := Since(f.raw, now - RAW_SPAN);
      TrimRaw();
      min1.Load(f.min1, now, raw);
      min5.Load(f.min5, now, raw);
    }
  }

  /** Exactly the points in the window, in order. */
  function Between(pts: seq<Point>, cut: int, since: int): seq<Point> {
    if pts == [] then []
    else
      var p := pts[|pts| - 1];
      Between(pts[..|pts| - 1], cut, since) + if p.ts >= cut && p.ts > since then [p] else []
  }
}
