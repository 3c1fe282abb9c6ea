/**
 * Regulation comes to rest: with readings that move less than the hysteresis the held
 * temperature changes at most once, and then the duty reaches the curve value and stays.
 */
module Settling {
  import opened Curves
  import opened Numbers
  import opened Wrappers
  import opened Channels
  import opened Control
  import opened CeilingRuns
  import opened LoopRuns

  /**
   * A cycle in which nothing but the curve acts on channel i: a good reading in lo..hi, a
   * band narrower than the hysteresis; auto mode; no ceiling, critical or stalled fan; no
   * min_on; no reload or Stop; every write succeeds.
   */
  ghost predicate Quiet(s: State, inp: Input, i: nat, lo: int, hi: int)
    requires |inp.chans| == |s.chans| && i < |s.chans|
  {
    var r := Sensed(s, inp).chans[i];
    && s.pending.None? && !s.stopped && inp.stop == Never && !s.dryRun
    && (forall k :: 0 <= k < |inp.chans| ==> inp.chans[k].writeOK)
    && r.sense.tempOK && lo <= r.sense.temp <= hi && hi - lo < r.cfg.hysteresis * 1000
    && r.sense.temp < r.cfg.critical * 1000 && !r.heat.hit && !AtCeiling(r.sense)
    && r.cfg.name !in s.overrides && r.cfg.minOn == 0
    && (r.hasTach ==> !r.fan.stalled && r.fan.rpm != 0)
  }

  /** Channel i after a quiet cycle. */
  lemma QuietStep(s: State, inp: Input, i: nat, lo: int, hi: int)
    requires |inp.chans| == |s.chans| && i < |s.chans| && Quiet(s, inp, i, lo, hi)
    ensures var c, f, t := s.chans[i], Cycle(s, inp).chans[i], Sensed(s, inp).chans[i].sense.temp;
            var goal := Duty(c.cfg.curve, f.post.held);
            && f.cfg == c.cfg && f.post.heldOK
            && f.post.held == HeldTemp(c.post, t, c.cfg.hysteresis).held
            && f.drive.target == goal && f.drive.mode == Auto
            && f.drive.cur == if s.n > 0 && c.drive.cur >= 0
                              then Slew(c.drive.cur, goal, s.cfg.daemon.stepUp, s.cfg.daemon.stepDown) else goal
    ensures Cycle(s, inp).cfg == s.cfg && Cycle(s, inp).n == s.n + 1
  {
    var w := AtWrite(s, inp);
    SensedAt(s, inp, i);
    AimedAt(s, inp, i);
    CycleFields(s, inp);
    assert !WriteErr(w, inp) by { hide AtWrite, Tries; }
    QuietFinish(w, inp, i);
    QuietTarget(Sensed(s, inp).chans[i], inp.now, s.cfg.daemon);
    hide ApplyPending, Sensed, Aimed, Finished, TargetOne, Duty, Slew, AtCeiling, WriteErr, HeldTemp;
  }

  lemma QuietTarget(r: Chan, now: int, d: Daemon)
    requires r.sense.tempOK && r.sense.temp < r.cfg.critical * 1000 && !r.heat.hit && !AtCeiling(r.sense)
    requires r.cfg.minOn == 0 && (r.hasTach ==> !r.fan.stalled && r.fan.rpm != 0)
    ensures var t, p := TargetOne(r, None, now, d), HeldTemp(r.post, r.sense.temp, r.cfg.hysteresis);
            && t.post.held == p.held && t.post.heldOK
            && t.drive == Drive(r.drive.cur, r.drive.written, Duty(r.cfg.curve, p.held), Auto)
            && t.cfg == r.cfg
  {
    hide Duty, AtCeiling;
  }

  lemma QuietFinish(w: State, inp: Input, i: nat)
    requires |inp.chans| == |w.chans| && i < |w.chans| && !WriteErr(w, inp) && inp.chans[i].writeOK
    requires !w.stopped && !w.dryRun
    ensures var c, f := w.chans[i], Finished(w, inp).chans[i];
            f.cfg == c.cfg && f.post == c.post && f.drive.target == c.drive.target && f.drive.mode == c.drive.mode
            && f.drive.cur == NextDuty(c.drive, w.cfg.daemon, w.n)
    ensures Finished(w, inp).cfg == w.cfg
  {
    hide NextDuty, AfterFailsafe, WriteErr, Wrote, Counted;
  }

  // ---- the held temperature ----

  ghost predicate QuietRun(s: State, ins: seq<Input>, i: nat, lo: int, hi: int)
    requires i < |s.chans|
    decreases |ins|
  {
    ins == [] || (|ins[0].chans| == |s.chans| && Quiet(s, ins[0], i, lo, hi)
                  && QuietRun(Cycle(s, ins[0]), ins[1..], i, lo, hi))
  }

  predicate HeldIn(p: Post, lo: int, hi: int) {
    p.heldOK && lo <= p.held <= hi
  }

  /** How many cycles of a run change the temperature the curve of channel i is read at. */
  ghost function HeldChanges(s: State, ins: seq<Input>, i: nat): nat
    requires i < |s.chans| && forall inp :: inp in ins ==> |inp.chans| == |s.chans|
    decreases |ins|
  {
    if ins == [] then 0
    else
      var f := Cycle(s, ins[0]);
      (if s.chans[i].post.heldOK && f.chans[i].post.held == s.chans[i].post.held then 0 else 1)
      + HeldChanges(f, ins[1..], i)
  }

  lemma HeldStep(s: State, inp: Input, i: nat, lo: int, hi: int)
    requires |inp.chans| == |s.chans| && i < |s.chans| && Quiet(s, inp, i, lo, hi)
    ensures var p, q := s.chans[i].post, Cycle(s, inp).chans[i].post;
            && (HeldIn(p, lo, hi) ==> q.held == p.held)
            && (HeldIn(q, lo, hi) || (p.heldOK && q.held == p.held))
            && q.heldOK
  {
    QuietStep(s, inp, i, lo, hi);
    SensedAt(s, inp, i);
    assert Sensed(s, inp).chans[i].cfg == s.chans[i].cfg;
    hide Cycle, Sensed, ApplyPending, AtCeiling;
  }

  /** In a quiet run the held temperature changes at most once, and never from within the band. */
  lemma {:induction false} HeldChangesAtMostOnce(s: State, ins: seq<Input>, i: nat, lo: int, hi: int)
    requires i < |s.chans| && (forall inp :: inp in ins ==> |inp.chans| == |s.chans|)
    requires QuietRun(s, ins, i, lo, hi)
    ensures HeldChanges(s, ins, i) <= if HeldIn(s.chans[i].post, lo, hi) then 0 else 1
    decreases |ins|
  {
    if ins != [] {
      HeldStep(s, ins[0], i, lo, hi);
      hide Cycle, Quiet;
      HeldChangesAtMostOnce(Cycle(s, ins[0]), ins[1..], i, lo, hi);
    }
  }

  // ---- the duty ----

  function MinStep(d: Daemon): int {
    if d.stepUp < d.stepDown then d.stepUp else d.stepDown
  }

  /** Cycles the slowest slew needs across the whole duty range. */
  function SettleCycles(d: Daemon): int
    requires d.stepUp >= 1 && d.stepDown >= 1
  {
    (255 + MinStep(d) - 1) / MinStep(d)
  }

  function Gap(c: Chan): nat {
    Abs(Duty(c.cfg.curve, c.post.held) - c.drive.cur)
  }

  lemma GapShrinks(s: State, inp: Input, i: nat, lo: int, hi: int)
    requires |inp.chans| == |s.chans| && i < |s.chans| && Quiet(s, inp, i, lo, hi)
    requires s.cfg.daemon.stepUp >= 1 && s.cfg.daemon.stepDown >= 1
    requires Cycle(s, inp).chans[i].post.held == s.chans[i].post.held
    ensures var f := Cycle(s, inp).chans[i];
            && (Gap(f) == 0 || Gap(f) <= Gap(s.chans[i]) - MinStep(s.cfg.daemon))
            && (s.chans[i].drive.cur < 0 ==> Gap(f) == 0)
            && f.cfg == s.chans[i].cfg && Cycle(s, inp).cfg == s.cfg
  {
    QuietStep(s, inp, i, lo, hi);
    var c := s.chans[i];
    SlewApproaches(c.drive.cur, Duty(c.cfg.curve, c.post.held), s.cfg.daemon.stepUp, s.cfg.daemon.stepDown);
    hide Cycle, Sensed, Duty, Quiet, HeldTemp;
  }

  lemma {:induction false} DutySettles(s: State, ins: seq<Input>, i: nat, lo: int, hi: int)
    requires i < |s.chans| && (forall inp :: inp in ins ==> |inp.chans| == |s.chans|)
    requires QuietRun(s, ins, i, lo, hi) && HeldChanges(s, ins, i) == 0
    requires s.cfg.daemon.stepUp >= 1 && s.cfg.daemon.stepDown >= 1
    requires Gap(s.chans[i]) <= MinStep(s.cfg.daemon) * |ins|
    ensures var f := RunTicks(s, ins).chans[i];
            f.cfg == s.chans[i].cfg && f.post.held == s.chans[i].post.held && Gap(f) == 0
    decreases |ins|
  {
    hide Cycle, Quiet, Gap, MinStep;
    var m := MinStep(s.cfg.daemon);
    if ins != [] {
      GapShrinks(s, ins[0], i, lo, hi);
      OneFewer(m, |ins|);
      assert m >= 1 by { StepAtLeastOne(s.cfg.daemon); }
      assert m * (|ins| - 1) >= 0;
      DutySettles(Cycle(s, ins[0]), ins[1..], i, lo, hi);
    }
  }

  lemma OneFewer(m: int, n: int)
    ensures m * n == m * (n - 1) + m
  {
  }

  lemma StepAtLeastOne(d: Daemon)
    requires d.stepUp >= 1 && d.stepDown >= 1
    ensures MinStep(d) >= 1
  {
  }

  /**
   * Regulation settles: when channel i's held temperature has not changed for
   * ceil(255 / min(step_up, step_down)) quiet cycles, its duty is the curve value at that
   * temperature, and so it is after every further quiet cycle of that kind.
   */
  lemma RegulationSettles(s: State, ins: seq<Input>, i: nat, lo: int, hi: int)
    requires i < |s.chans| && (forall inp :: inp in ins ==> |inp.chans| == |s.chans|)
    requires QuietRun(s, ins, i, lo, hi) && HeldChanges(s, ins, i) == 0
    requires StateOK(s) && |ins| >= SettleCycles(s.cfg.daemon)
    ensures var c, f := s.chans[i], RunTicks(s, ins).chans[i];
            f.post.held == c.post.held && f.drive.cur == Duty(c.cfg.curve, c.post.held)
  {
    hide Cycle, Quiet, Duty;
    var c, m, k := s.chans[i], MinStep(s.cfg.daemon), SettleCycles(s.cfg.daemon);
    assert InRange(c) by { assert c in s.chans; }
    DutyExact(c.cfg.curve, 0, c.post.held);
    hide Valid;
    EnoughSteps(m, k, |ins|);
    if c.drive.cur >= 0 {
      DutySettles(s, ins, i, lo, hi);
    } else {
      GapShrinks(s, ins[0], i, lo, hi);
      assert m * (|ins| - 1) >= 0;
      DutySettles(Cycle(s, ins[0]), ins[1..], i, lo, hi);
    }
  }

  /**
   * Once the held temperature is in the band it never moves again, and from ceil(255 /
   * min(step_up, step_down)) cycles on the duty is the curve value there.
   */
  lemma SettlesInBand(s: State, ins: seq<Input>, i: nat, lo: int, hi: int)
    requires i < |s.chans| && (forall inp :: inp in ins ==> |inp.chans| == |s.chans|)
    requires QuietRun(s, ins, i, lo, hi) && HeldIn(s.chans[i].post, lo, hi)
    requires StateOK(s) && |ins| >= SettleCycles(s.cfg.daemon)
    ensures var c, f := s.chans[i], RunTicks(s, ins).chans[i];
            f.post.held == c.post.held && f.drive.cur == Duty(c.cfg.curve, c.post.held)
  {
    hide Cycle, Quiet, Duty;
    HeldChangesAtMostOnce(s, ins, i, lo, hi);
    RegulationSettles(s, ins, i, lo, hi);
  }

  lemma EnoughSteps(m: int, k: int, n: int)
    requires m >= 1 && k == (255 + m - 1) / m && n >= k
    ensures m * n >= 255 && n >= 1
  {
    assert m * k >= 255;
    assert m * n == m * k + m * (n - k);
    assert m * (n - k) >= 0;
  }

  // ---- min_on ----

  /** One curve output and the time it was computed at. */
  datatype Sample = Sample(now: int, curve: int)

  ghost predicate Ordered(xs: seq<Sample>) {
    forall i, j :: 0 <= i < j < |xs| ==> xs[i].now <= xs[j].now
  }

  /** The hold after an uninterrupted run of good readings from a reset channel. */
  function Held(p: Post, minOn: int, xs: seq<Sample>): Post {
    if xs == [] then p
    else MinOnHold(Held(p, minOn, xs[..|xs| - 1]), minOn, xs[|xs| - 1].curve, xs[|xs| - 1].now)
  }

  function Output(p: Post, minOn: int, xs: seq<Sample>): int
    requires xs != []
  {
    HoldOutput(Held(p, minOn, xs).hold, xs[|xs| - 1].curve)
  }

  predicate Reset(p: Post) {
    !p.haveCurve && !p.hold.on
  }

  /** Sample j starts or restarts a hold: a rise that no running hold covers. */
  predicate StartsHold(p: Post, minOn: int, xs: seq<Sample>, j: nat)
    requires 1 <= j < |xs|
  {
    var before := Held(p, minOn, xs[..j]);
    xs[j].curve > xs[j - 1].curve
    && !(before.hold.on && xs[j].now < before.hold.until && before.hold.target >= xs[j].curve)
  }

  /** A hold on at the end was started by a sample less than min_on ago and ends min_on after it. */
  lemma {:induction false} HoldOrigin(p: Post, minOn: int, xs: seq<Sample>)
    requires Reset(p) && minOn > 0
    ensures var q := Held(p, minOn, xs);
            && (xs != [] ==> q.haveCurve && q.lastCurve == xs[|xs| - 1].curve)
            && (xs == [] ==> q == p)
            && (q.hold.on ==> exists j :: (1 <= j < |xs| && StartsHold(p, minOn, xs, j)
                                           && q.hold == Holding(true, xs[j].curve, xs[j].now, xs[j].now + minOn)
                                           && xs[|xs| - 1].now < xs[j].now + minOn))
  {
    if xs != [] {
      var n := |xs| - 1;
      var before := xs[..n];
      HoldOrigin(p, minOn, before);
      if n > 0 {
        assert before[..n] == before;
        var q, q0 := Held(p, minOn, xs), Held(p, minOn, before);
        if q.hold.on {
          if q.hold == q0.hold {
            var j :| 1 <= j < |before| && StartsHold(p, minOn, before, j)
                     && q.hold == Holding(true, before[j].curve, before[j].now, before[j].now + minOn);
            assert before[..j] == xs[..j];
            assert StartsHold(p, minOn, xs, j);
          } else {
            assert xs[..n] == before;
            assert StartsHold(p, minOn, xs, n);
          }
        }
      }
    }
  }

  /** A hold lasts: until min_on after sample j the running hold is at least its curve value. */
  lemma {:induction false} HoldLasts(p: Post, minOn: int, xs: seq<Sample>, j: nat)
    requires Reset(p) && minOn > 0 && Ordered(xs) && 1 <= j < |xs| && StartsHold(p, minOn, xs, j)
    requires xs[|xs| - 1].now < xs[j].now + minOn
    ensures var h := Held(p, minOn, xs).hold; h.on && h.target >= xs[j].curve && h.until >= xs[j].now + minOn
    decreases |xs|
  {
    var n := |xs| - 1;
    var before := xs[..n];
    HoldOrigin(p, minOn, before);
    assert before[..j] == xs[..j];
    if j < n {
      HoldLasts(p, minOn, before, j);
    } else {
      assert xs[..j] == before;
    }
  }

  /**
   * The two-sided bound of min_on over an uninterrupted run: each output is at least the
   * current curve value and every curve value that started a hold less than min_on ago, and
   * it is one of the curve values of the last min_on.
   */
  lemma MinOnBounds(p: Post, minOn: int, xs: seq<Sample>)
    requires Reset(p) && minOn > 0 && Ordered(xs) && xs != []
    ensures var out, now := Output(p, minOn, xs), xs[|xs| - 1].now;
            && out >= xs[|xs| - 1].curve
            && (forall j :: 1 <= j < |xs| && StartsHold(p, minOn, xs, j) && now < xs[j].now + minOn ==>
              out >= xs[j].curve)
            && (exists j :: 0 <= j < |xs| && now < xs[j].now + minOn && out == xs[j].curve)
  {
    var now := xs[|xs| - 1].now;
    HoldOrigin(p, minOn, xs);
    forall j | 1 <= j < |xs| && StartsHold(p, minOn, xs, j) && now < xs[j].now + minOn
      ensures Output(p, minOn, xs) >= xs[j].curve
    {
      HoldLasts(p, minOn, xs, j);
    }
    if Output(p, minOn, xs) == xs[|xs| - 1].curve {
      assert now < xs[|xs| - 1].now + minOn;
    }
  }

  // ---- min_on over runs of the loop ----

  /** A good reading of channel i with its hold left alone: no ceiling, no override, no reload. */
  ghost predicate HoldTick(s: State, inp: Input, i: nat, minOn: int)
    requires |inp.chans| == |s.chans| && i < |s.chans|
  {
    var r := Sensed(s, inp).chans[i];
    && s.pending.None? && s.chans[i].cfg.minOn == minOn && s.chans[i].cfg.name !in s.overrides
    && r.sense.tempOK && !r.heat.hit && !AtCeiling(r.sense)
  }

  ghost predicate HoldRun(s: State, ins: seq<Input>, i: nat, minOn: int)
    requires i < |s.chans|
    decreases |ins|
  {
    ins == [] || (|ins[0].chans| == |s.chans| && HoldTick(s, ins[0], i, minOn)
      && HoldRun(Cycle(s, ins[0]), ins[1..], i, minOn))
  }

  /** The same curve memory and hold. */
  predicate SameHold(p: Post, q: Post) {
    p.lastCurve == q.lastCurve && p.haveCurve == q.haveCurve && p.hold == q.hold
  }

  /** What the curve gives channel i after a cycle. */
  ghost function CurveNow(c: Chan): int { Duty(c.cfg.curve, c.post.held) }

  /** A cycle does to the hold what min_on says of its curve value. */
  lemma HoldStep(s: State, inp: Input, i: nat, minOn: int)
    requires |inp.chans| == |s.chans| && i < |s.chans| && HoldTick(s, inp, i, minOn)
    ensures var c, f := s.chans[i], Cycle(s, inp).chans[i];
            && f.cfg == c.cfg && SameHold(f.post, MinOnHold(c.post, minOn, CurveNow(f), inp.now))
  {
    var w := AtWrite(s, inp);
    SensedAt(s, inp, i);
    AimedAt(s, inp, i);
    CycleFields(s, inp);
    FinishedAt(w, inp, i);
    HoldTarget(Sensed(s, inp).chans[i], inp.now, Sensed(s, inp).cfg.daemon);
    hide ApplyPending, Sensed, Aimed, Finished, TargetOne, Duty, AtCeiling, HeldTemp, MinOnHold;
  }

  lemma HoldTarget(r: Chan, now: int, d: Daemon)
    requires r.sense.tempOK && !r.heat.hit && !AtCeiling(r.sense)
    ensures var t, p := TargetOne(r, None, now, d), HeldTemp(r.post, r.sense.temp, r.cfg.hysteresis);
            var curve := Duty(r.cfg.curve, p.held);
            && t.cfg == r.cfg && t.post == MinOnHold(p, r.cfg.minOn, curve, now) && t.post.held == p.held
            && SameHold(t.post, MinOnHold(r.post, r.cfg.minOn, curve, now))
            && (r.sense.temp < r.cfg.critical * 1000 && (r.hasTach ==> !r.fan.stalled && r.fan.rpm != 0) ==>
                  t.drive.target == HoldOutput(t.post.hold, curve))
  {
    hide Duty, AtCeiling;
  }

  /** The curve values of a run with their times. */
  ghost function Samples(s: State, ins: seq<Input>, i: nat): (xs: seq<Sample>)
    requires i < |s.chans| && forall inp :: inp in ins ==> |inp.chans| == |s.chans|
    ensures |xs| == |ins|
    decreases |ins|
  {
    if ins == [] then []
    else
      var f := Cycle(s, ins[0]);
      [Sample(ins[0].now, CurveNow(f.chans[i]))] + Samples(f, ins[1..], i)
  }

  lemma HeldSame(p: Post, q: Post, minOn: int, xs: seq<Sample>)
    requires SameHold(p, q)
    ensures SameHold(Held(p, minOn, xs), Held(q, minOn, xs))
  {
  }

  lemma {:induction false} HeldFront(p: Post, minOn: int, x: Sample, xs: seq<Sample>)
    ensures Held(p, minOn, [x] + xs) == Held(MinOnHold(p, minOn, x.curve, x.now), minOn, xs)
  {
    hide MinOnHold;
    var n := |xs|;
    if n == 0 {
      assert ([x] + xs)[..0] == [];
    } else {
      assert ([x] + xs)[..n] == [x] + xs[..n - 1];
      HeldFront(p, minOn, x, xs[..n - 1]);
    }
  }

  /** Over a run the hold of the channel is the hold of its samples. */
  lemma {:induction false} HoldOfRun(s: State, ins: seq<Input>, i: nat, minOn: int)
    requires i < |s.chans| && (forall inp :: inp in ins ==> |inp.chans| == |s.chans|) && HoldRun(s, ins, i, minOn)
    ensures SameHold(RunTicks(s, ins).chans[i].post, Held(s.chans[i].post, minOn, Samples(s, ins, i)))
    decreases |ins|
  {
    if ins != [] {
      hide Cycle, HoldTick, CurveNow, MinOnHold, Held;
      var f, c := Cycle(s, ins[0]), s.chans[i].post;
      HoldStep(s, ins[0], i, minOn);
      HoldOfRun(f, ins[1..], i, minOn);
      var x, xs := Sample(ins[0].now, CurveNow(f.chans[i])), Samples(f, ins[1..], i);
      HeldFront(c, minOn, x, xs);
      HeldSame(f.chans[i].post, MinOnHold(c, minOn, x.curve, x.now), minOn, xs);
    } else {
      assert Held(s.chans[i].post, minOn, []) == s.chans[i].post;
    }
  }

  /** The state the last cycle of a run finds. */
  ghost function BeforeLast(s: State, ins: seq<Input>): (r: State)
    requires ins != [] && forall inp :: inp in ins ==> |inp.chans| == |s.chans|
    ensures |r.chans| == |s.chans|
  {
    assert forall inp :: inp in ins[..|ins| - 1] ==> inp in ins;
    RunTicks(s, ins[..|ins| - 1])
  }

  /** The last cycle of a run. */
  lemma {:induction false} RunEnds(s: State, ins: seq<Input>, i: nat, minOn: int)
    requires ins != [] && i < |s.chans| && (forall inp :: inp in ins ==> |inp.chans| == |s.chans|)
      && HoldRun(s, ins, i, minOn)
    ensures var n := |ins| - 1;
            && HoldTick(BeforeLast(s, ins), ins[n], i, minOn)
            && RunTicks(s, ins) == Cycle(BeforeLast(s, ins), ins[n])
            && Samples(s, ins, i)[n] == Sample(ins[n].now, CurveNow(RunTicks(s, ins).chans[i]))
    decreases |ins|
  {
    hide Cycle, HoldTick, CurveNow;
    var n := |ins| - 1;
    assert forall inp :: inp in ins[..n] ==> inp in ins;
    if n == 0 {
      assert ins[..0] == [] && ins[1..] == [];
      assert RunTicks(s, []) == s && RunTicks(Cycle(s, ins[0]), []) == Cycle(s, ins[0]);
    } else {
      assert ins[1..][..n - 1] == ins[..n][1..];
      RunEnds(Cycle(s, ins[0]), ins[1..], i, minOn);
    }
  }

  /**
   * The two-sided bound of min_on over runs of the loop. From a reset hold, through any
   * cycles with good readings and no ceiling, override or reload, the target of an auto
   * cycle is at least the curve value now and every one that started a hold less than min_on
   * ago, and is one of the curve values of the last min_on.
   */
  lemma MinOnOverRun(s: State, ins: seq<Input>, i: nat, minOn: int)
    requires ins != [] && i < |s.chans| && (forall inp :: inp in ins ==> |inp.chans| == |s.chans|)
      && HoldRun(s, ins, i, minOn)
    requires Reset(s.chans[i].post) && minOn > 0 && forall j, k :: 0 <= j < k < |ins| ==> ins[j].now <= ins[k].now
    requires
      var r := Sensed(BeforeLast(s, ins), ins[|ins| - 1]).chans[i];
      r.sense.temp < r.cfg.critical * 1000 && (r.hasTach ==> !r.fan.stalled && r.fan.rpm != 0)
    ensures
      var p, xs, last := s.chans[i].post, Samples(s, ins, i), ins[|ins| - 1];
      var out := AtWrite(BeforeLast(s, ins), last).chans[i].drive.target;
      && out >= xs[|xs| - 1].curve
      && (forall j :: 1 <= j < |xs| && StartsHold(p, minOn, xs, j) && last.now < xs[j].now + minOn ==>
        out >= xs[j].curve)
      && (exists j :: 0 <= j < |xs| && last.now < xs[j].now + minOn && out == xs[j].curve)
  {
    hide *;
    var p, xs, last := s.chans[i].post, Samples(s, ins, i), ins[|ins| - 1];
    RunEnds(s, ins, i, minOn);
    HoldOfRun(s, ins, i, minOn);
    SampleTimes(s, ins, i);
    TargetIsOutput(BeforeLast(s, ins), last, i, minOn);
    OutputIs(p, minOn, xs, RunTicks(s, ins).chans[i].post);
    MinOnBounds(p, minOn, xs);
  }

  lemma OutputIs(p: Post, minOn: int, xs: seq<Sample>, q: Post)
    requires xs != [] && SameHold(q, Held(p, minOn, xs))
    ensures HoldOutput(q.hold, xs[|xs| - 1].curve) == Output(p, minOn, xs)
  {
  }

  lemma {:induction false} SampleTimes(s: State, ins: seq<Input>, i: nat)
    requires i < |s.chans| && (forall inp :: inp in ins ==> |inp.chans| == |s.chans|)
    requires forall j, k :: 0 <= j < k < |ins| ==> ins[j].now <= ins[k].now
    ensures Ordered(Samples(s, ins, i))
    ensures forall j :: 0 <= j < |ins| ==> Samples(s, ins, i)[j].now == ins[j].now
    decreases |ins|
  {
    hide Cycle, CurveNow;
    if ins != [] {
      SampleTimes(Cycle(s, ins[0]), ins[1..], i);
      var xs := Samples(s, ins, i);
      assert forall j :: 1 <= j < |ins| ==> xs[j] == Samples(Cycle(s, ins[0]), ins[1..], i)[j - 1];
    }
  }

  /** In an auto cycle the target before the writes is the output of the hold. */
  lemma TargetIsOutput(s: State, inp: Input, i: nat, minOn: int)
    requires |inp.chans| == |s.chans| && i < |s.chans| && HoldTick(s, inp, i, minOn)
    requires
      var r := Sensed(s, inp).chans[i];
      r.sense.temp < r.cfg.critical * 1000 && (r.hasTach ==> !r.fan.stalled && r.fan.rpm != 0)
    ensures var f := Cycle(s, inp).chans[i];
            AtWrite(s, inp).chans[i].drive.target == HoldOutput(f.post.hold, CurveNow(f))
  {
    SensedAt(s, inp, i);
    AimedAt(s, inp, i);
    CycleFields(s, inp);
    FinishedAt(AtWrite(s, inp), inp, i);
    HoldTarget(Sensed(s, inp).chans[i], inp.now, Sensed(s, inp).cfg.daemon);
    hide ApplyPending, Sensed, Aimed, Finished, TargetOne, Duty, AtCeiling, HeldTemp, MinOnHold;
  }
}
