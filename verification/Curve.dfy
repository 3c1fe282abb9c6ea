/** The fan curve and the slew limit of internal/control/controller.go. */
module Curves {
  import opened Numbers

  /** [temp_c, duty] points. */
  type Curve = seq<(int, int)>

  /** What config.ValidateCurve accepts. */
  ghost predicate Valid(c: Curve) {
    && 2 <= |c| <= 8
    && (forall i :: 0 <= i < |c| ==> -20 <= c[i].0 <= 120 && 0 <= c[i].1 <= 255)
    && (forall i, j :: 0 <= i < j < |c| ==> c[i].0 < c[j].0 && c[i].1 <= c[j].1)
  }

  /** Go's int(x) truncates toward zero. */
  function Trunc(x: real): int {
    if x >= 0.0 then x.Floor else -(-x).Floor
  }

  function ClampDuty(d: int): int {
    if d < 0 then 0 else if d > 255 then 255 else d
  }

  /** The exact line through p and q at t. */
  function Line(p: (int, int), q: (int, int), t: real): real
    requires p.0 != q.0
  {
    p.1 as real + (t - p.0 as real) * ((q.1 - p.1) as real) / ((q.0 - p.0) as real)
  }

  function Segment(p: (int, int), q: (int, int), t: real): int {
    if p.0 == q.0 then q.1 else ClampDuty(Trunc(Line(p, q, t) + 0.5))
  }

  /** The segment search from point i on. */
  function Search(c: Curve, i: nat, t: real): int
    requires 1 <= i <= |c|
    decreases |c| - i
  {
    if i == |c| then c[i - 1].1
    else if t <= c[i].0 as real then Segment(c[i - 1], c[i], t)
    else Search(c, i + 1, t)
  }

  /** The duty of a curve at a temperature in millidegrees. */
  function Duty(c: Curve, milli: int): int {
    var t := milli as real / 1000.0;
    if c == [] then 255
    else if t <= c[0].0 as real then c[0].1
    else if t >= c[|c| - 1].0 as real then c[|c| - 1].1
    else Search(c, 1, t)
  }

  method Interpolate(curve: Curve, milli: int) returns (duty: int)
    ensures duty == Duty(curve, milli)
  {
    if |curve| == 0 { return 255; }
    var t := milli as real / 1000.0;
    if t <= curve[0].0 as real { return curve[0].1; }
    var last := curve[|curve| - 1];
    if t >= last.0 as real { return last.1; }
    var i := 1;
    while i < |curve|
      invariant 1 <= i <= |curve|
      invariant Search(curve, 1, t) == Search(curve, i, t)
    {
      if t <= curve[i].0 as real {
        return Segment(curve[i - 1], curve[i], t);
      }
      i := i + 1;
    }
    return last.1;
  }

  // ---- the curve is exact, bracketed and non-decreasing ----

  lemma Slope(p: (int, int), q: (int, int), t: real, u: real)
    requires p.0 < q.0 && p.1 <= q.1 && p.0 as real <= t <= u <= q.0 as real
    ensures p.1 as real <= Line(p, q, t) <= Line(p, q, u) <= q.1 as real
  {
    var w, h := (q.0 - p.0) as real, (q.1 - p.1) as real;
    var a, b := t - p.0 as real, u - p.0 as real;
    assert 0.0 <= a * h <= b * h <= w * h;
    assert 0.0 <= (a * h) / w <= (b * h) / w <= (w * h) / w;
    assert (w * h) / w == h;
  }

  lemma LineEnds(p: (int, int), q: (int, int))
    requires p.0 < q.0
    ensures Line(p, q, p.0 as real) == p.1 as real
    ensures Line(p, q, q.0 as real) == q.1 as real
  {
    var w, h := (q.0 - p.0) as real, (q.1 - p.1) as real;
    assert q.0 as real - p.0 as real == w;
    assert (w * h) / w == h;
  }

  /** Within one segment the duty is the nearest integer to the exact line. */
  lemma NearestToLine(p: (int, int), q: (int, int), t: real)
    requires p.0 < q.0 && 0 <= p.1 <= q.1 <= 255 && p.0 as real <= t <= q.0 as real
    ensures p.1 <= Segment(p, q, t) <= q.1
    ensures -0.5 <= Segment(p, q, t) as real - Line(p, q, t) <= 0.5
    ensures t == p.0 as real ==> Segment(p, q, t) == p.1
    ensures t == q.0 as real ==> Segment(p, q, t) == q.1
  {
    Slope(p, q, t, t);
    LineEnds(p, q);
  }

  /** Between points k-1 and k the search answers with that segment. */
  lemma {:induction false} SearchFinds(c: Curve, i: nat, k: nat, t: real)
    requires Valid(c) && 1 <= i <= k < |c|
    requires c[k - 1].0 as real <= t <= c[k].0 as real
    requires i == k || c[k - 1].0 as real < t
    ensures Search(c, i, t) == Segment(c[k - 1], c[k], t)
    decreases k - i
  {
    if i < k {
      assert c[i].0 <= c[k - 1].0;
      SearchFinds(c, i + 1, k, t);
    }
  }

  /** Between two neighbouring points the duty is the nearest integer to their line. */
  lemma DutyBetween(c: Curve, k: nat, milli: int)
    requires Valid(c) && 1 <= k < |c| && 1000 * c[k - 1].0 <= milli <= 1000 * c[k].0
    ensures Duty(c, milli) == Segment(c[k - 1], c[k], milli as real / 1000.0)
    ensures c[k - 1].1 <= Duty(c, milli) <= c[k].1
    ensures -0.5 <= Duty(c, milli) as real - Line(c[k - 1], c[k], milli as real / 1000.0) <= 0.5
  {
    var t := milli as real / 1000.0;
    NearestToLine(c[k - 1], c[k], t);
    if c[0].0 as real < t < c[|c| - 1].0 as real {
      if t == c[k - 1].0 as real {
        NearestToLine(c[k - 2], c[k - 1], t);
        SearchFinds(c, 1, k - 1, t);
      } else {
        SearchFinds(c, 1, k, t);
      }
    } else if t <= c[0].0 as real {
      assert k == 1;
    } else {
      assert k == |c| - 1;
    }
  }

  /** The two neighbouring points of an inner reading. */
  lemma {:induction false} Neighbours(c: Curve, i: nat, milli: int) returns (k: nat)
    requires Valid(c) && 1 <= i < |c| && 1000 * c[i - 1].0 <= milli < 1000 * c[|c| - 1].0
    ensures 1 <= k < |c| && 1000 * c[k - 1].0 <= milli < 1000 * c[k].0
    decreases |c| - i
  {
    if milli < 1000 * c[i].0 { k := i; } else { k := Neighbours(c, i + 1, milli); }
  }

  /** An accepted curve is exact at its points and constant beyond its ends. */
  lemma DutyExact(c: Curve, k: nat, milli: int)
    requires Valid(c) && k < |c|
    ensures milli == 1000 * c[k].0 ==> Duty(c, milli) == c[k].1
    ensures milli <= 1000 * c[0].0 ==> Duty(c, milli) == c[0].1
    ensures milli >= 1000 * c[|c| - 1].0 ==> Duty(c, milli) == c[|c| - 1].1
    ensures 0 <= c[0].1 <= Duty(c, milli) <= c[|c| - 1].1 <= 255
  {
    if milli == 1000 * c[k].0 && 0 < k {
      NearestToLine(c[k - 1], c[k], milli as real / 1000.0);
      DutyBetween(c, k, milli);
    }
    if 1000 * c[0].0 < milli < 1000 * c[|c| - 1].0 {
      var j := Neighbours(c, 1, milli);
      DutyBetween(c, j, milli);
      DutyOrder(c, 0, j - 1);
      DutyOrder(c, j, |c| - 1);
    }
  }

  lemma DutyOrder(c: Curve, i: nat, j: nat)
    requires Valid(c) && i <= j < |c|
    ensures c[i].1 <= c[j].1
  {
    if i < j { assert c[i].1 <= c[j].1; }
  }

  lemma MonotoneWithin(c: Curve, k: nat, a: int, b: int)
    requires Valid(c) && 1 <= k < |c| && 1000 * c[k - 1].0 <= a <= b <= 1000 * c[k].0
    ensures Duty(c, a) <= Duty(c, b)
  {
    var p, q, t, u := c[k - 1], c[k], a as real / 1000.0, b as real / 1000.0;
    DutyBetween(c, k, a);
    DutyBetween(c, k, b);
    Slope(p, q, t, u);
    assert Segment(p, q, t) <= Segment(p, q, u);
  }

  /** A hotter reading never gets a lower duty. */
  lemma DutyMonotone(c: Curve, a: int, b: int)
    requires Valid(c) && a <= b
    ensures Duty(c, a) <= Duty(c, b)
  {
    DutyExact(c, 0, a);
    DutyExact(c, 0, b);
    if 1000 * c[0].0 < a && b < 1000 * c[|c| - 1].0 {
      var j := Neighbours(c, 1, a);
      var k := Neighbours(c, 1, b);
      if j == k {
        MonotoneWithin(c, j, a, b);
      } else {
        assert j < k;
        DutyBetween(c, j, a);
        DutyOrder(c, j, k - 1);
        DutyBetween(c, k, b);
      }
    }
  }

  // ---- slew ----

  function Slew(cur: int, target: int, stepUp: int, stepDown: int): int {
    if target > cur + stepUp then cur + stepUp
    else if target < cur - stepDown then cur - stepDown
    else target
  }

  /** One slew step never overshoots and closes the gap by the step, or all of it. */
  lemma SlewApproaches(cur: int, target: int, stepUp: int, stepDown: int)
    requires stepUp >= 1 && stepDown >= 1
    ensures var next := Slew(cur, target, stepUp, stepDown);
            && (cur <= target ==> cur <= next <= target && next - cur <= stepUp)
            && (cur >= target ==> cur >= next >= target && cur - next <= stepDown)
            && (next == target
                || Abs(target - next) <= Abs(target - cur) - (if stepUp < stepDown then stepUp else stepDown))
  {
  }
}
