/**
 * cmd/n5-fangov/scheduler.go: the ticker that applies the preset of the active entry on a
 * transition, once, whether or not the apply succeeds.
 */
module Scheduling {
  import opened Wrappers
  import opened Schedule

  /** The last preset switch attempted. */
  datatype Switch = Switch(ts: int, preset: string, ok: bool)

  /** The entry that is active at an instant. */
  function Current(es: seq<Entry>, t: int): Option<Entry> {
    var i := ActiveAt(es, MinuteOf(t));
    if i.Some? then Some(es[i.value]) else None
  }

  predicate Same(a: Option<Entry>, b: Option<Entry>) {
    if a.Some? && b.Some? then Equal(a.value, b.value) else a == b == None
  }

  /** An evaluation at t applies a preset, given the entry the last one found. */
  predicate Applies(es: seq<Entry>, t: int, baseline: Option<Entry>) {
    Current(es, t).Some? && !Same(Current(es, t), baseline)
  }

  class Scheduler {
    var entries: seq<Entry>
    var baseline: Option<Entry>
    var last: Option<Switch>
    const hasStore: bool

    constructor (store: bool)
      ensures entries == [] && baseline == None && last == None && hasStore == store
    {
      entries, baseline, last, hasStore := [], None, None, store;
    }

    method Set(es: seq<Entry>)
      modifies `entries
      ensures entries == es
    {
      entries := es;
    }

    /** One tick at now; ok is what the preset store answers if it is asked. */
    method Evaluate(now: int, ok: bool) returns (applied: Option<string>)
      modifies `baseline, `last
      ensures baseline == Current(entries, now)
      ensures applied.Some? == (hasStore && Applies(entries, now, old(baseline)))
      ensures applied.Some? ==>
        applied.value == Current(entries, now).value.preset && last == Some(Switch(now, applied.value, ok))
      ensures applied.None? ==> last == old(last)
    {
      var idx := Active(entries, now);
      var entry: Option<Entry> := None;
      if idx.Some? { entry := Some(entries[idx.value]); }
      var transition := entry.Some? != baseline.Some? || (entry.Some? && !Equal(entry.value, baseline.value));
      baseline := entry;
      if !transition || entry.None? || !hasStore { return None; }
      last := Some(Switch(now, entry.value.preset, ok));
      return Some(entry.value.preset);
    }
  }

  // ---- a fixed list, ticks less than a minute apart ----

  /** Instants of successive evaluations. */
  ghost predicate Ticking(ts: seq<int>) {
    forall i :: 0 <= i < |ts| - 1 ==> ts[i] < ts[i + 1] < ts[i] + MINUTE
  }

  /** What the evaluation before tick i left as baseline; nothing before the first. */
  function Baseline(es: seq<Entry>, ts: seq<int>, i: nat): Option<Entry>
    requires i < |ts|
  {
    if i == 0 then None else Current(es, ts[i - 1])
  }

  predicate Attempts(es: seq<Entry>, ts: seq<int>, i: nat)
    requires i < |ts|
  {
    Applies(es, ts[i], Baseline(es, ts, i))
  }

  /** The preset tick i applies. */
  function Applied(es: seq<Entry>, ts: seq<int>, i: nat): Option<string>
    requires i < |ts|
  {
    if Attempts(es, ts, i) then Some(Current(es, ts[i]).value.preset) else None
  }

  lemma AppliedIs(es: seq<Entry>, ts: seq<int>, i: nat)
    requires i < |ts|
    ensures Attempts(es, ts, i) == Applies(es, ts[i], Baseline(es, ts, i))
    ensures Attempts(es, ts, i) ==>
      Current(es, ts[i]).Some? && Applied(es, ts, i) == Some(Current(es, ts[i]).value.preset)
    ensures !Attempts(es, ts, i) ==> Applied(es, ts, i) == None
  {
    hide Current;
  }

  /** A whole run of the ticker: what each tick applied, whatever the applies answered. */
  method Run(s: Scheduler, es: seq<Entry>, ts: seq<int>, oks: seq<bool>) returns (applied: seq<Option<string>>)
    requires s.entries == es && s.baseline == None && s.hasStore && |oks| == |ts|
    modifies s`baseline, s`last
    ensures |applied| == |ts| && forall i :: 0 <= i < |ts| ==> applied[i] == Applied(es, ts, i)
  {
    hide Current, Attempts, Applied;
    applied := [];
    for i := 0 to |ts|
      invariant |applied| == i && s.entries == es
      invariant i < |ts| ==> s.baseline == Baseline(es, ts, i)
      invariant forall k :: 0 <= k < i ==> applied[k] == Applied(es, ts, k)
    {
      AppliedIs(es, ts, i);
      var a := s.Evaluate(ts[i], oks[i]);
      applied := applied + [a];
    }
  }

  /** One entry (up to Equal) is active from a to b. */
  ghost predicate Steady(es: seq<Entry>, a: int, b: int) {
    forall t :: a <= t <= b || b <= t <= a ==> Same(Current(es, t), Current(es, a))
  }

  lemma SameIsEquivalence(a: Option<Entry>, b: Option<Entry>, c: Option<Entry>)
    ensures Same(a, a) && (Same(a, b) ==> Same(b, a)) && (Same(a, b) && Same(b, c) ==> Same(a, c))
  {
  }

  lemma SteadySymmetric(es: seq<Entry>, a: int, b: int)
    requires Steady(es, a, b)
    ensures Steady(es, b, a)
  {
    hide Current, Same;
    forall t | a <= t <= b || b <= t <= a ensures Same(Current(es, t), Current(es, b)) {
      SameIsEquivalence(Current(es, b), Current(es, a), Current(es, t));
      SameIsEquivalence(Current(es, t), Current(es, a), Current(es, b));
    }
  }

  lemma SteadyJoin(es: seq<Entry>, a: int, b: int, c: int)
    requires Steady(es, a, b) && Steady(es, b, c)
    ensures Steady(es, a, c)
  {
    hide Current, Same;
    forall t | a <= t <= c || c <= t <= a ensures Same(Current(es, t), Current(es, a)) {
      SameIsEquivalence(Current(es, t), Current(es, b), Current(es, a));
      SameIsEquivalence(Current(es, a), Current(es, a), Current(es, a));
    }
  }

  /** Within one minute, and across one that ends as it begins, nothing changes. */
  lemma SteadyShort(es: seq<Entry>, a: int, b: int)
    requires a <= b < a + MINUTE && Same(Current(es, a), Current(es, b))
    ensures Steady(es, a, b)
  {
    forall t | a <= t <= b ensures Same(Current(es, t), Current(es, a)) {
      assert MinuteOf(t) == MinuteOf(a) || MinuteOf(t) == MinuteOf(b);
      SameIsEquivalence(Current(es, a), Current(es, b), Current(es, b));
      hide ActiveAt, Same;
    }
  }

  /** The last tick not after x. */
  lemma {:induction false} TickBefore(ts: seq<int>, x: int) returns (k: nat)
    requires Ticking(ts) && ts != [] && ts[0] <= x <= ts[|ts| - 1]
    ensures k < |ts| && ts[k] <= x && (k + 1 < |ts| ==> x < ts[k + 1])
    decreases |ts|
  {
    k := 0;
    while k + 1 < |ts| && ts[k + 1] <= x
      invariant k < |ts| && ts[k] <= x
    {
      k := k + 1;
    }
  }

  /** Some tick falls into the steady stretch around any instant of the run. */
  lemma TickInside(es: seq<Entry>, ts: seq<int>, x: int) returns (k: nat)
    requires Ticking(ts) && ts != [] && ts[0] <= x <= ts[|ts| - 1]
    ensures k < |ts| && Steady(es, ts[k], x)
  {
    k := TickBefore(ts, x);
    if MinuteOf(ts[k]) == MinuteOf(x) {
      SameIsEquivalence(Current(es, x), Current(es, x), Current(es, x));
      SteadyShort(es, ts[k], x);
    } else {
      assert k + 1 < |ts|;
      assert MinuteOf(ts[k + 1]) == MinuteOf(x);
      SameIsEquivalence(Current(es, x), Current(es, x), Current(es, x));
      SteadyShort(es, x, ts[k + 1]);
      k := k + 1;
      SteadySymmetric(es, x, ts[k]);
    }
  }

  /** A steady stretch reaches back to a tick that attempts, if an entry is active. */
  lemma {:induction false} FirstTickAttempts(es: seq<Entry>, ts: seq<int>, k: nat) returns (i: nat)
    requires Ticking(ts) && k < |ts| && Current(es, ts[k]).Some?
    ensures i <= k && Attempts(es, ts, i) && Steady(es, ts[i], ts[k])
    decreases k
  {
    hide Current;
    SameIsEquivalence(Current(es, ts[k]), Current(es, ts[k]), Current(es, ts[k]));
    if Attempts(es, ts, k) {
      i := k;
    } else {
      SameIsEquivalence(Current(es, ts[k]), Current(es, ts[k - 1]), Current(es, ts[k]));
      SteadyShort(es, ts[k - 1], ts[k]);
      i := FirstTickAttempts(es, ts, k - 1);
      SteadyJoin(es, ts[i], ts[k - 1], ts[k]);
    }
  }

  lemma {:induction false} TicksAscend(ts: seq<int>, i: nat, j: nat)
    requires Ticking(ts) && i <= j < |ts|
    ensures ts[i] <= ts[j]
    decreases j
  {
    if i < j { TicksAscend(ts, i, j - 1); }
  }

  /** Two ticks of one steady stretch do not both attempt. */
  lemma OneAttempt(es: seq<Entry>, ts: seq<int>, i: nat, j: nat)
    requires Ticking(ts) && i < j < |ts| && Steady(es, ts[i], ts[j])
    ensures !Attempts(es, ts, j)
  {
    TicksAscend(ts, i, j - 1);
    assert Same(Current(es, ts[j - 1]), Current(es, ts[i])) && Same(Current(es, ts[j]), Current(es, ts[i]));
    SameIsEquivalence(Current(es, ts[j - 1]), Current(es, ts[i]), Current(es, ts[j]));
    SameIsEquivalence(Current(es, ts[j]), Current(es, ts[i]), Current(es, ts[j - 1]));
    hide Current, Same;
  }

  /**
   * Once per window: whatever instant of the run an entry is active at, exactly one tick of
   * the stretch it is active for attempts its preset.
   */
  lemma ExactlyOneAttempt(es: seq<Entry>, ts: seq<int>, x: int)
    requires Ticking(ts) && ts != [] && ts[0] <= x <= ts[|ts| - 1] && Current(es, x).Some?
    ensures exists i :: (0 <= i < |ts| && Attempts(es, ts, i) && Steady(es, ts[i], x)
                         && forall j :: 0 <= j < |ts| && Attempts(es, ts, j) && Steady(es, ts[j], x) ==> j == i)
  {
    var k := TickInside(es, ts, x);
    assert Same(Current(es, x), Current(es, ts[k]));
    var i := FirstTickAttempts(es, ts, k);
    SteadyJoin(es, ts[i], ts[k], x);
    hide Current, Attempts, Steady;
    forall j | 0 <= j < |ts| && Attempts(es, ts, j) && Steady(es, ts[j], x) ensures j == i {
      SteadySymmetric(es, ts[j], x);
      SteadySymmetric(es, ts[i], x);
      SteadyJoin(es, ts[i], x, ts[j]);
      SteadyJoin(es, ts[j], x, ts[i]);
      if i < j { OneAttempt(es, ts, i, j); }
      if j < i { OneAttempt(es, ts, j, i); }
    }
  }
}
