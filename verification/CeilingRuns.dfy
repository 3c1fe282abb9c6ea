/**
 * The ceiling rule over whole runs (DESIGN.md section 6, "Ceilings and emergency"): once
 * a part is at its ceiling the channel stays at full speed until a reading clears it.
 */
module CeilingRuns {
  import opened Wrappers
  import opened Channels
  import opened Control

  ghost predicate FitsAll(n: nat, es: seq<Event>) {
    forall e :: e in es && e.Tick? ==> |e.inp.chans| == n
  }

  /** The state after a sequence of events. */
  ghost function Run(s: State, es: seq<Event>): (r: State)
    requires FitsAll(|s.chans|, es)
    ensures |r.chans| == |s.chans|
    decreases |es|
  {
    if es == [] then s else Run(Step(s, es[0]), es[1..])
  }

  // ---- what one cycle does to one channel ----

  /** Channel i after the reload and the reads of a cycle. */
  lemma SensedAt(s: State, inp: Input, i: nat)
    requires |inp.chans| == |s.chans| && i < |s.chans|
    ensures var p, r := ApplyPending(s, inp).chans[i], Sensed(s, inp).chans[i];
            && p == SwapOne(s.chans[i], s.pending, inp.chans[i], inp.swapNow)
            && r == p.(sense := r.sense, fan := p.fan.(rpm := r.fan.rpm))
    ensures Sensed(s, inp) == ApplyPending(s, inp).(chans := Sensed(s, inp).chans, raw := Sensed(s, inp).raw)
  {
    hide SwapOne, ReadSensor, Resolved, Recheck, Tracking, Frozen, FirstSensorChanges;
    var p := ApplyPending(s, inp);
    assert AllRead(p, inp)[i] == ReadOne(p.chans[i], p.n, inp.chans[i]);
  }

  lemma AimedAt(s: State, inp: Input, i: nat)
    requires |inp.chans| == |s.chans| && i < |s.chans|
    ensures var r := Sensed(s, inp);
            Aimed(s, inp).chans[i] == TargetOne(r.chans[i], OverrideOf(r.overrides, r.chans[i].cfg.name), inp.now,
              r.cfg.daemon)
    ensures Aimed(s, inp) == Sensed(s, inp).(chans := Aimed(s, inp).chans)
  {
    hide Sensed, ComputeTarget, CheckStall;
  }

  /** The write phase and the failsafe touch nothing but the drive and the resolved sensor. */
  lemma FinishedAt(w: State, inp: Input, i: nat)
    requires |inp.chans| == |w.chans| && i < |w.chans|
    ensures var c, f := w.chans[i], Finished(w, inp).chans[i];
            && f == c.(drive := f.drive, sense := f.sense)
            && (f.drive == WriteOne(w, c, inp.chans[i]).drive
                || f.drive == FailsafeStep(WriteOne(w, c, inp.chans[i]).drive, w.dryRun, inp.chans[i].failsafeOK))
    ensures Finished(w, inp) ==
            w.(chans := Finished(w, inp).chans, errs := Finished(w, inp).errs, n := w.n + 1,
               stopped := Finished(w, inp).stopped)
    ensures w.stopped ==> Finished(w, inp).stopped && Finished(w, inp).chans[i].drive == w.chans[i].drive
  {
    hide WriteErr, Wrote, AllFailed, WriteStep, FailsafeStep, ShowDuty, Resolved, Counted;
    AtMostStopped(w, inp);
  }

  lemma AtMostStopped(w: State, inp: Input)
    requires |inp.chans| == |w.chans|
    ensures w.stopped ==> !WriteErr(w, inp)
  {
  }

  // ---- the ceiling state, cycle by cycle ----

  /** Channel i is in the ceiling state when the cycle's reload has been applied. */
  ghost predicate HitBefore(s: State, inp: Input, i: nat)
    requires |inp.chans| == |s.chans| && i < |s.chans|
  {
    ApplyPending(s, inp).chans[i].heat.hit
  }

  /** A good reading clears every readable part, or a reload changes the sensor id. */
  ghost predicate Clears(s: State, inp: Input, i: nat)
    requires |inp.chans| == |s.chans| && i < |s.chans|
  {
    || (Sensed(s, inp).chans[i].sense.tempOK && AllClear(Sensed(s, inp).chans[i].sense))
    || ApplyPending(s, inp).chans[i].cfg.sensor != s.chans[i].cfg.sensor
  }

  ghost predicate AtFullSpeed(c: Chan, exempt: bool) {
    c.drive.target == 255 && c.drive.mode != Auto && (exempt || c.drive.cur == 255 || c.drive.cur == -1)
  }

  lemma FullSpeedWritten(w: State, inp: Input, i: nat)
    requires |inp.chans| == |w.chans| && i < |w.chans|
    requires w.chans[i].drive.target == 255 && w.chans[i].drive.mode != Auto
    ensures AtFullSpeed(Finished(w, inp).chans[i], w.dryRun || Finished(w, inp).stopped)
  {
    FinishedAt(w, inp, i);
    hide Finished;
  }

  /** The ceiling fields after a cycle: judged on a good reading, else left alone. */
  lemma HeatStep(s: State, inp: Input, i: nat)
    requires |inp.chans| == |s.chans| && i < |s.chans|
    ensures var p, r, f := ApplyPending(s, inp).chans[i], Sensed(s, inp).chans[i], Cycle(s, inp).chans[i];
            && f.heat == (if r.sense.tempOK
                          then CeilingHeat(p.heat, r.sense, r.hasTach && r.fan.stalled, Sensed(s, inp).cfg.daemon)
                          else p.heat)
            && p.heat == (if p.cfg.sensor == s.chans[i].cfg.sensor then s.chans[i].heat
                          else Heat(false, 0, false, s.chans[i].heat.hookRuns))
            && (f.heat.hit ==>
              AtWrite(s, inp).chans[i].drive.target == 255 && AtWrite(s, inp).chans[i].drive.mode != Auto)
    ensures AtWrite(s, inp).dryRun == s.dryRun
  {
    SensedAt(s, inp, i);
    AimedAt(s, inp, i);
    SwapHeat(s.chans[i], s.pending, inp.chans[i], inp.swapNow);
    FinishedAt(AtWrite(s, inp), inp, i);
    hide ApplyPending, Sensed, Aimed, Finished, SwapOne, CeilingHeat, CurvePost, RegulatedDrive, StallActs, StallFan;
  }

  /** Exactly when a cycle leaves channel i in the ceiling state, and what it does then. */
  lemma CeilingStep(s: State, inp: Input, i: nat)
    requires |inp.chans| == |s.chans| && i < |s.chans|
    ensures var r, f := Sensed(s, inp).chans[i], Cycle(s, inp).chans[i];
            && f.heat.hit == (if r.sense.tempOK then StaysHot(HitBefore(s, inp, i), r.sense) else HitBefore(s, inp, i))
            && (f.heat.hit ==> AtFullSpeed(f, s.dryRun || Cycle(s, inp).stopped))
    ensures HitBefore(s, inp, i) ==> s.chans[i].heat.hit
    ensures s.chans[i].heat.hit && !Clears(s, inp, i) ==> HitBefore(s, inp, i) && Cycle(s, inp).chans[i].heat.hit
  {
    HeatStep(s, inp, i);
    if Cycle(s, inp).chans[i].heat.hit {
      FullSpeedWritten(AtWrite(s, inp), inp, i);
    }
    hide ApplyPending, Sensed, AtWrite, Finished, AllClear, AtCeiling;
  }

  lemma SwapHeat(c: Chan, pending: Option<Config>, cin: ChanInput, now: int)
    ensures var p := SwapOne(c, pending, cin, now);
            && p.heat == (if p.cfg.sensor == c.cfg.sensor then c.heat else Heat(false, 0, false, c.heat.hookRuns))
            && p.cfg == (if pending.None? then c.cfg else ConfigFor(pending.value.channels, c.cfg.name))
  {
  }

  // ---- over whole runs ----

  ghost predicate Latched(s: State, i: nat)
    requires i < |s.chans|
  {
    s.chans[i].heat.hit && AtFullSpeed(s.chans[i], s.dryRun || s.stopped)
  }

  /** No cycle of the run clears channel i's readings or changes its sensor id. */
  ghost predicate Uncleared(s: State, es: seq<Event>, i: nat)
    requires FitsAll(|s.chans|, es) && i < |s.chans|
    decreases |es|
  {
    es == [] || ((es[0].Tick? ==> !Clears(s, es[0].inp, i)) && Uncleared(Step(s, es[0]), es[1..], i))
  }

  lemma StepKeepsLatch(s: State, e: Event, i: nat)
    requires Fits(s, e) && i < |s.chans| && Latched(s, i)
    requires e.Tick? ==> !Clears(s, e.inp, i)
    ensures Latched(Step(s, e), i)
  {
    if e.Tick? {
      hide Cycle, Clears;
      CeilingStep(s, e.inp, i);
      CycleKeepsDryRun(s, e.inp);
    }
  }

  lemma CycleKeepsDryRun(s: State, inp: Input)
    requires |inp.chans| == |s.chans|
    ensures Cycle(s, inp).dryRun == s.dryRun && (s.stopped ==> Cycle(s, inp).stopped)
    ensures Cycle(s, inp).n == s.n + 1
  {
    if |s.chans| > 0 {
      SensedAt(s, inp, 0);
      AimedAt(s, inp, 0);
      FinishedAt(AtWrite(s, inp), inp, 0);
      hide Sensed, Aimed, Finished;
    }
  }

  /**
   * The ceiling latch. Once a good reading has a part at its ceiling, the channel stays at
   * target 255, with duty 255 or an own failed write, whatever happens: sensor errors,
   * overrides, stalls, reloads, write failures. Only Stop and a dry run keep it from being
   * written, and only a clearing reading or a changed sensor id end it.
   */
  lemma CeilingLatch(s: State, first: Input, es: seq<Event>, i: nat)
    requires |first.chans| == |s.chans| && i < |s.chans| && FitsAll(|s.chans|, es)
    requires Sensed(s, first).chans[i].sense.tempOK && AtCeiling(Sensed(s, first).chans[i].sense)
    requires Uncleared(Cycle(s, first), es, i)
    ensures Latched(Run(Cycle(s, first), es), i)
  {
    AtCeilingIsNotClear(Sensed(s, first).chans[i].sense);
    CeilingStep(s, first, i);
    CycleKeepsDryRun(s, first);
    hide Cycle, Sensed;
    LatchOverRun(Cycle(s, first), es, i);
  }

  lemma AtCeilingIsNotClear(s: Sense)
    requires AtCeiling(s)
    ensures !AllClear(s)
  {
  }

  lemma {:induction false} LatchOverRun(s: State, es: seq<Event>, i: nat)
    requires i < |s.chans| && FitsAll(|s.chans|, es) && Latched(s, i) && Uncleared(s, es, i)
    ensures Latched(Run(s, es), i)
    decreases |es|
  {
    if es != [] {
      StepKeepsLatch(s, es[0], i);
      hide Latched, Step;
      LatchOverRun(Step(s, es[0]), es[1..], i);
    }
  }

  // ---- the emergency hook ----

  /** A cycle starts a ceiling episode of channel i. */
  ghost predicate Enters(s: State, inp: Input, i: nat)
    requires |inp.chans| == |s.chans| && i < |s.chans|
  {
    !HitBefore(s, inp, i) && Cycle(s, inp).chans[i].heat.hit
  }

  ghost function Episodes(s: State, es: seq<Event>, i: nat): nat
    requires FitsAll(|s.chans|, es) && i < |s.chans|
    decreases |es|
  {
    if es == [] then 0
    else (if es[0].Tick? && Enters(s, es[0].inp, i) then 1 else 0) + Episodes(Step(s, es[0]), es[1..], i)
  }

  /** Hook runs so far, counting the one a running episode still has. */
  function Budget(h: Heat): nat {
    h.hookRuns + (if h.hit && !h.fired then 1 else 0)
  }

  lemma HookStep(s: State, inp: Input, i: nat)
    requires |inp.chans| == |s.chans| && i < |s.chans|
    ensures Budget(Cycle(s, inp).chans[i].heat) <= Budget(s.chans[i].heat) + (if Enters(s, inp, i) then 1 else 0)
  {
    HeatStep(s, inp, i);
    hide ApplyPending, Sensed, Cycle, AtWrite, StaysHot;
  }

  /** The emergency hook runs at most once per ceiling episode. */
  lemma {:induction false} HookOncePerEpisode(s: State, es: seq<Event>, i: nat)
    requires FitsAll(|s.chans|, es) && i < |s.chans|
    ensures Budget(Run(s, es).chans[i].heat) <= Budget(s.chans[i].heat) + Episodes(s, es, i)
    decreases |es|
  {
    if es != [] {
      HookEvent(s, es[0], i);
      hide Step, Budget, Enters;
      HookOncePerEpisode(Step(s, es[0]), es[1..], i);
    }
  }

  lemma HookEvent(s: State, e: Event, i: nat)
    requires Fits(s, e) && i < |s.chans|
    ensures Budget(Step(s, e).chans[i].heat) <= Budget(s.chans[i].heat)
      + (if e.Tick? && Enters(s, e.inp, i) then 1 else 0)
  {
    if e.Tick? {
      HookStep(s, e.inp, i);
      hide Cycle, Enters;
    }
  }

  /** A cycle that reads channel i well, does not clear it and allows the hook after n cycles. */
  ghost predicate HotTick(s: State, inp: Input, i: nat, n: int)
    requires |inp.chans| == |s.chans| && i < |s.chans|
  {
    var r := Sensed(s, inp);
    && r.chans[i].sense.tempOK && !Clears(s, inp, i)
    && r.cfg.daemon.emergency && r.cfg.daemon.emergencyCycles == n
  }

  ghost predicate HotRun(s: State, ins: seq<Input>, i: nat, n: int)
    requires i < |s.chans|
    decreases |ins|
  {
    ins == [] || (|ins[0].chans| == |s.chans| && HotTick(s, ins[0], i, n) && HotRun(Cycle(s, ins[0]), ins[1..], i, n))
  }

  ghost function RunTicks(s: State, ins: seq<Input>): (r: State)
    requires forall inp :: inp in ins ==> |inp.chans| == |s.chans|
    ensures |r.chans| == |s.chans|
    decreases |ins|
  {
    if ins == [] then s else RunTicks(Cycle(s, ins[0]), ins[1..])
  }

  lemma HotStep(s: State, inp: Input, i: nat, n: int)
    requires |inp.chans| == |s.chans| && i < |s.chans| && s.chans[i].heat.hit && HotTick(s, inp, i, n) && n > 0
    ensures var h := Cycle(s, inp).chans[i].heat;
            && h.hit && h.cycles == s.chans[i].heat.cycles + 1
            && h.fired == (s.chans[i].heat.fired
                           || (Sensed(s, inp).chans[i].hasTach && Sensed(s, inp).chans[i].fan.stalled && h.cycles >= n)
                           || h.cycles >= 3 * n)
  {
    CeilingStep(s, inp, i);
    HeatStep(s, inp, i);
    hide ApplyPending, Sensed, Cycle, AtWrite, AllClear, AtCeiling;
  }

  /** Cooling that stays ineffective for 3 * emergency_cycles cycles does run the hook. */
  lemma {:induction false} HookRunsInTime(s: State, ins: seq<Input>, i: nat, n: int)
    requires i < |s.chans| && (forall inp :: inp in ins ==> |inp.chans| == |s.chans|)
    requires s.chans[i].heat.hit && HotRun(s, ins, i, n) && n > 0
    requires s.chans[i].heat.cycles >= 0 && (s.chans[i].heat.cycles >= 3 * n ==> s.chans[i].heat.fired)
    ensures RunTicks(s, ins).chans[i].heat.cycles == s.chans[i].heat.cycles + |ins|
    ensures s.chans[i].heat.cycles + |ins| >= 3 * n ==> RunTicks(s, ins).chans[i].heat.fired
    decreases |ins|
  {
    if ins != [] {
      HotStep(s, ins[0], i, n);
      hide Cycle, HotTick;
      HookRunsInTime(Cycle(s, ins[0]), ins[1..], i, n);
    }
  }
}
