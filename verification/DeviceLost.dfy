/**
 * When the loop gives the device up: within twelve cycles if no write succeeds any more,
 * and exactly when the failsafe wrote nothing in six consecutive cycles.
 */
module DeviceLoss {
  import opened Channels
  import opened Control
  import opened CeilingRuns
  import opened LoopRuns

  // ---- what one cycle does to the counters ----

  /** The failsafe ran in this cycle and could not write a single channel. */
  ghost predicate Silent(s: State, inp: Input)
    requires |inp.chans| == |s.chans|
  {
    var w := AtWrite(s, inp);
    FailsafeCalled(w, inp) && !w.stopped && inp.stop != BeforeFailsafe && !w.dryRun && |w.chans| > 0
    && forall i :: 0 <= i < |w.chans| ==> !inp.chans[i].failsafeOK
  }

  /** A failing failsafe leaves every duty unknown and two write errors behind it. */
  ghost predicate CountersOK(s: State) {
    s.errs.fsFail > 0 ==> s.errs.wrErr >= 2 && forall c :: c in s.chans ==> c.drive.cur == -1
  }

  lemma CountersStep(s: State, inp: Input)
    requires |inp.chans| == |s.chans| && CountersOK(s)
    ensures CountersOK(Cycle(s, inp))
    ensures Cycle(s, inp).errs.fsFail == if Silent(s, inp) then s.errs.fsFail + 1 else 0
    ensures Lost(s, inp) <==> Silent(s, inp) && s.errs.fsFail + 1 >= DEVICE_LOST_CYCLES
  {
    var w := AtWrite(s, inp);
    CycleFields(s, inp);
    var f := Finished(w, inp);
    if Silent(s, inp) {
      forall i | 0 <= i < |f.chans| ensures f.chans[i].drive.cur == -1 {
        FinishedDrive(w, inp, i);
        hide Finished, AtWrite, WriteErr, WriteOne, AllFailed;
      }
    }
    hide AtWrite, WriteErr, Wrote, WriteOne, FailsafeOne;
  }

  /** The drive after the write phase and, if it is called, the failsafe. */
  lemma FinishedDrive(w: State, inp: Input, i: nat)
    requires |inp.chans| == |w.chans| && i < |w.chans|
    ensures Finished(w, inp).chans[i].drive ==
            var dr := WriteOne(w, w.chans[i], inp.chans[i]).drive;
            if FailsafeCalled(w, inp) && !w.stopped && inp.stop != BeforeFailsafe
            then FailsafeStep(dr, w.dryRun, inp.chans[i].failsafeOK) else dr
  {
    hide WriteErr, Wrote, AllFailed, WriteStep, FailsafeStep, ShowDuty, Resolved, Counted;
    AtMostStopped(w, inp);
  }

  // ---- exactly six silent cycles ----

  /** For every cycle of a run, whether its failsafe ran and wrote nothing. */
  ghost function Silences(s: State, es: seq<Event>): seq<bool>
    requires FitsAll(|s.chans|, es)
    decreases |es|
  {
    if es == [] then []
    else (if es[0].Tick? then [Silent(s, es[0].inp)] else []) + Silences(Step(s, es[0]), es[1..])
  }

  /** How many flags at the end are set, counting on from seed when all are. */
  function Trailing(flags: seq<bool>, seed: nat): nat {
    if flags == [] then seed
    else if flags[|flags| - 1] then Trailing(flags[..|flags| - 1], seed) + 1
    else 0
  }

  lemma {:induction false} TrailingCons(first: bool, rest: seq<bool>, seed: nat)
    ensures Trailing([first] + rest, seed) == Trailing(rest, if first then seed + 1 else 0)
  {
    var all := [first] + rest;
    if rest == [] {
      assert all[..|all| - 1] == [];
    } else {
      assert all[..|all| - 1] == [first] + rest[..|rest| - 1];
      TrailingCons(first, rest[..|rest| - 1], seed);
    }
  }

  lemma {:induction false} TrailingIs(flags: seq<bool>, k: nat)
    ensures Trailing(flags, 0) >= k <==> k <= |flags| && forall i :: |flags| - k <= i < |flags| ==> flags[i]
  {
    if flags != [] && k > 0 {
      TrailingIs(flags[..|flags| - 1], k - 1);
    }
  }

  lemma CountersEvent(s: State, e: Event)
    requires Fits(s, e) && CountersOK(s)
    ensures CountersOK(Step(s, e))
    ensures Step(s, e).errs.fsFail ==
            if e.Tick? then (if Silent(s, e.inp) then s.errs.fsFail + 1 else 0) else s.errs.fsFail
  {
    if e.Tick? {
      CountersStep(s, e.inp);
      hide Cycle, Silent, Lost;
    }
  }

  lemma {:induction false} CounterIsTrailing(s: State, es: seq<Event>)
    requires FitsAll(|s.chans|, es) && CountersOK(s)
    ensures CountersOK(Run(s, es))
    ensures Run(s, es).errs.fsFail == Trailing(Silences(s, es), s.errs.fsFail)
    decreases |es|
  {
    if es != [] {
      var next, rest := Step(s, es[0]), es[1..];
      CountersEvent(s, es[0]);
      hide Step, Silent, CountersOK;
      CounterIsTrailing(next, rest);
      if es[0].Tick? {
        TrailingCons(Silent(s, es[0].inp), Silences(next, rest), s.errs.fsFail);
      } else {
        assert Silences(s, es) == Silences(next, rest);
      }
    }
  }

  /**
   * After any run from a start without failures, a cycle returns ErrDeviceLost exactly when
   * it is the last of six consecutive cycles whose failsafe could not write any channel.
   */
  lemma LostExactlyAfterSixSilent(s: State, es: seq<Event>, inp: Input)
    requires FitsAll(|s.chans|, es) && |inp.chans| == |s.chans| && s.errs.fsFail == 0
    ensures var flags := Silences(s, es) + [Silent(Run(s, es), inp)];
            Lost(Run(s, es), inp) <==>
            DEVICE_LOST_CYCLES <= |flags| && forall i :: |flags| - DEVICE_LOST_CYCLES <= i < |flags| ==> flags[i]
  {
    CounterIsTrailing(s, es);
    CountersStep(Run(s, es), inp);
    var before := Silences(s, es);
    var flags := before + [Silent(Run(s, es), inp)];
    TrailingIs(flags, DEVICE_LOST_CYCLES);
    assert flags[..|flags| - 1] == before;
    hide Silent, Lost, Run;
  }

  // ---- at most twelve failing cycles ----

  /** A cycle in which no write succeeds and Stop does not come. */
  predicate Failing(e: Event) {
    match e
    case Tick(inp) => inp.stop == Never && forall cin :: cin in inp.chans ==> !cin.writeOK && !cin.failsafeOK
    case StopNow => false
    case _ => true
  }

  function Ticks(es: seq<Event>): nat {
    if es == [] then 0 else (if es[0].Tick? then 1 else 0) + Ticks(es[1..])
  }

  ghost predicate SomeLost(s: State, es: seq<Event>)
    requires FitsAll(|s.chans|, es)
    decreases |es|
  {
    es != [] && ((es[0].Tick? && Lost(s, es[0].inp)) || SomeLost(Step(s, es[0]), es[1..]))
  }

  ghost predicate Unknown(s: State) {
    exists c :: c in s.chans && c.drive.cur == -1
  }

  /** Cycles until every channel is written anyway. */
  function UntilRewrite(n: nat): nat {
    (REWRITE_EVERY - n % REWRITE_EVERY) % REWRITE_EVERY
  }

  /** Failing cycles that can still pass before the device is given up. */
  ghost function Patience(s: State): int {
    (if Unknown(s) then 0 else UntilRewrite(s.n))
    + (if s.errs.wrErr >= 1 then DEVICE_LOST_CYCLES - s.errs.fsFail else DEVICE_LOST_CYCLES + 1)
  }

  ghost predicate Alive(s: State) {
    StateOK(s) && CountersOK(s) && |s.chans| > 0 && !s.stopped && !s.dryRun
  }

  /** The write phase finds the duties the last cycle left, and a duty to write. */
  lemma FoundDuty(s: State, inp: Input, i: nat)
    requires |inp.chans| == |s.chans| && i < |s.chans| && StateOK(s)
    ensures var dr := AtWrite(s, inp).chans[i].drive; dr.cur == s.chans[i].drive.cur && dr.target >= 0
  {
    var r := Sensed(s, inp);
    SensedAt(s, inp, i);
    AimedAt(s, inp, i);
    CycleFields(s, inp);
    SwapInRange(s.chans[i], s.pending, inp.chans[i], inp.swapNow);
    TargetInRange(r.chans[i], OverrideOf(r.overrides, r.chans[i].cfg.name), inp.now, r.cfg.daemon);
    hide ApplyPending, Sensed, Aimed, TargetOne, ChannelOK, ConfigOK, Holds;
  }

  /** A failing cycle fails a write as soon as one is due. */
  lemma DueWriteFails(s: State, inp: Input)
    requires |inp.chans| == |s.chans| && Alive(s) && Failing(Tick(inp))
    requires Unknown(s) || s.n % REWRITE_EVERY == 0
    ensures WriteErr(AtWrite(s, inp), inp)
  {
    var w := AtWrite(s, inp);
    CycleFields(s, inp);
    var i: nat :| i < |s.chans| && (s.chans[i].drive.cur == -1 || s.n % REWRITE_EVERY == 0);
    FoundDuty(s, inp, i);
    assert inp.chans[i] in inp.chans;
    hide AtWrite, Finished;
    assert Tries(w, i);
  }

  /** A failed write leaves some duty unknown. */
  lemma FailingDuties(s: State, inp: Input)
    requires |inp.chans| == |s.chans| && Alive(s) && Failing(Tick(inp))
    ensures WriteErr(AtWrite(s, inp), inp) ==> Unknown(Cycle(s, inp))
  {
    var w := AtWrite(s, inp);
    if WriteErr(w, inp) {
      var i: nat :| i < |w.chans| && Tries(w, i) && !inp.chans[i].writeOK;
      FinishedDrive(w, inp, i);
      assert inp.chans[i] in inp.chans;
      UnknownBy(Cycle(s, inp), Cycle(s, inp).chans[i]);
    }
    hide AtWrite, Finished, Unknown, StateOK, CountersOK, FailsafeCalled;
  }

  /** While every write fails the failsafe is silent as soon as it is called. */
  lemma SilentWhenCalled(s: State, inp: Input)
    requires |inp.chans| == |s.chans| && Alive(s) && Failing(Tick(inp))
    ensures Silent(s, inp) <==> WriteErr(AtWrite(s, inp), inp) && s.errs.wrErr >= 1
  {
    CycleFields(s, inp);
    assert forall i :: 0 <= i < |inp.chans| ==> inp.chans[i] in inp.chans;
    hide AtWrite, WriteErr, StateOK, CountersOK, Cycle;
  }

  lemma ErrorsStep(s: State, inp: Input)
    requires |inp.chans| == |s.chans| && Alive(s) && Failing(Tick(inp))
    ensures Cycle(s, inp).errs.wrErr == s.errs.wrErr + if WriteErr(AtWrite(s, inp), inp) then 1 else 0
  {
    var w := AtWrite(s, inp);
    CycleFields(s, inp);
    forall i | 0 <= i < |w.chans| ensures !inp.chans[i].writeOK {
      assert inp.chans[i] in inp.chans;
    }
    hide AtWrite, WriteErr, WriteOne, FailsafeOne, AllFailed, Tries, StateOK;
  }

  lemma PatienceShrinks(s: State, inp: Input)
    requires |inp.chans| == |s.chans| && Alive(s) && Failing(Tick(inp)) && s.errs.fsFail < DEVICE_LOST_CYCLES
    ensures Lost(s, inp) || Patience(Cycle(s, inp)) <= Patience(s) - 1
    ensures !Lost(s, inp) ==> Cycle(s, inp).errs.fsFail < DEVICE_LOST_CYCLES
  {
    hide AtWrite, Cycle, WriteErr, Unknown, Lost, Silent, StateOK;
    if s.errs.fsFail > 0 {
      UnknownBy(s, s.chans[0]);
    }
    hide CountersOK;
    CountersStep(s, inp);
    FailingDuties(s, inp);
    SilentWhenCalled(s, inp);
    CycleFields(s, inp);
    ErrorsStep(s, inp);
    if Unknown(s) || s.n % REWRITE_EVERY == 0 {
      DueWriteFails(s, inp);
    }
    hide Base, Sensed;
    UntilRewriteStep(s.n);
  }

  lemma UntilRewriteStep(n: nat)
    ensures n % REWRITE_EVERY != 0 ==> UntilRewrite(n + 1) == UntilRewrite(n) - 1
    ensures 0 <= UntilRewrite(n) <= 5
  {
  }

  lemma UnknownBy(s: State, c: Chan)
    requires c in s.chans && c.drive.cur == -1
    ensures Unknown(s)
  {
  }

  /** Whatever else happens, twelve cycles without a successful write end the loop. */
  lemma LostWithinTwelve(s: State, es: seq<Event>)
    requires FitsAll(|s.chans|, es) && AllOK(es) && (forall e :: e in es ==> Failing(e))
    requires Alive(s) && s.errs.fsFail < DEVICE_LOST_CYCLES && Ticks(es) >= 12
    ensures SomeLost(s, es)
  {
    assert Patience(s) <= 12;
    LostInTime(s, es);
  }

  lemma {:induction false} LostInTime(s: State, es: seq<Event>)
    requires FitsAll(|s.chans|, es) && AllOK(es) && (forall e :: e in es ==> Failing(e))
    requires Alive(s) && s.errs.fsFail < DEVICE_LOST_CYCLES && Ticks(es) >= Patience(s)
    ensures SomeLost(s, es)
    decreases |es|
  {
    assert Patience(s) >= 1;
    if es != [] {
      AliveStep(s, es[0]);
      if es[0].Tick? { PatienceShrinks(s, es[0].inp); }
      hide Step, Cycle, Alive, Patience, Lost;
      if !(es[0].Tick? && Lost(s, es[0].inp)) {
        LostInTime(Step(s, es[0]), es[1..]);
      }
    }
  }

  lemma AliveStep(s: State, e: Event)
    requires Fits(s, e) && EventOK(e) && Failing(e) && Alive(s)
    ensures Alive(Step(s, e))
    ensures !e.Tick? ==> Patience(Step(s, e)) == Patience(s) && Step(s, e).errs == s.errs
  {
    StepKeeps(s, e);
    if e.Tick? {
      CountersStep(s, e.inp);
      CycleFields(s, e.inp);
      NotStopped(s, e.inp);
      hide Cycle, StateOK, AtWrite, CountersOK, Silent, Lost;
    } else {
      hide StateOK, Find, Accepts, Corrected;
    }
  }

  lemma NotStopped(s: State, inp: Input)
    requires |inp.chans| == |s.chans| && !s.stopped && inp.stop == Never
    ensures !Cycle(s, inp).stopped
  {
    CycleFields(s, inp);
    hide AtWrite, AfterWrite, AfterFailsafe, FailsafeCalled;
    var w := AtWrite(s, inp);
  }
}
