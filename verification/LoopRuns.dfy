/**
 * What every event keeps: duties stay in range and a reload never changes which name and
 * pwm a running channel has; and how long a manual duty of a disk channel keeps its minimum.
 */
module LoopRuns {
  import opened Curves
  import opened Wrappers
  import opened Channels
  import opened Sanitizing
  import opened Control
  import opened CeilingRuns

  // ---- what the config parser guarantees ----

  ghost predicate ChannelOK(cc: ChannelConfig) {
    && Curves.Valid(cc.curve)
    && (cc.stop.Fixed? ==> 60 <= cc.stop.duty <= 255)
    && 0 <= cc.hysteresis <= 10 && 0 <= cc.minOn
  }

  ghost predicate ConfigOK(cfg: Config) {
    && 1 <= cfg.daemon.stepUp <= 255 && 1 <= cfg.daemon.stepDown <= 255
    && forall cc :: cc in cfg.channels ==> ChannelOK(cc)
  }

  ghost predicate EventOK(e: Event) {
    e.Reload? ==> ConfigOK(e.cfg)
  }

  // ---- the invariant ----

  /** cur is a duty or -1; everything a cycle may write is a duty. */
  ghost predicate InRange(c: Chan) {
    && ChannelOK(c.cfg)
    && -1 <= c.drive.cur <= 255 && 0 <= c.drive.target <= 255 && 0 <= c.post.hold.target <= 255
  }

  /** The config has this channel: same name, same pwm. */
  ghost predicate Holds(cs: seq<ChannelConfig>, c: Chan) {
    var r := ByName(cs, c.cfg.name);
    r.Some? && r.value.pwm == c.cfg.pwm
  }

  /** Two channels of one name on different pwms: no reload is ever the same channel set. */
  ghost predicate NoReload(cs: seq<ChannelConfig>) {
    UniquePwms(cs) && !UniqueNames(cs)
  }

  /** Every running channel is in the active and the pending config, or nothing is ever pending. */
  ghost predicate Anchored(s: State) {
    || (forall c :: c in s.chans ==>
      Holds(s.cfg.channels, c) && (s.pending.Some? ==> Holds(s.pending.value.channels, c)))
    || (s.pending.None? && NoReload(s.cfg.channels))
  }

  ghost predicate StateOK(s: State) {
    && ConfigOK(s.cfg) && (s.pending.Some? ==> ConfigOK(s.pending.value))
    && (forall c :: c in s.chans ==> InRange(c)) && Anchored(s)
    && (forall name :: name in s.overrides ==> 0 <= s.overrides[name] <= 255)
  }

  /** A config that repeats a name is never accepted against. */
  lemma NeverAccepted(base: Config, cfg: Config)
    requires NoReload(base.channels)
    ensures !Accepts(base, cfg)
  {
    var b := base.channels;
    var i, j :| 0 <= i < j < |b| && b[i].name == b[j].name;
    hide ByName;
    var ri, rj := ByName(cfg.channels, b[i].name), ByName(cfg.channels, b[j].name);
    assert b[i].pwm != b[j].pwm && ri == rj;
  }

  /** Same name and pwm, channel by channel. */
  ghost predicate SameIdentity(a: seq<Chan>, b: seq<Chan>) {
    |a| == |b| && forall i :: 0 <= i < |a| ==> a[i].cfg.name == b[i].cfg.name && a[i].cfg.pwm == b[i].cfg.pwm
  }

  lemma {:induction false} ByNameIn(cs: seq<ChannelConfig>, name: string)
    ensures ByName(cs, name).Some? ==> ByName(cs, name).value in cs && ByName(cs, name).value.name == name
    ensures ByName(cs, name).None? ==> forall cc :: cc in cs ==> cc.name != name
  {
    if cs != [] {
      assert cs == cs[..|cs| - 1] + [cs[|cs| - 1]];
      ByNameIn(cs[..|cs| - 1], name);
    }
  }

  // ---- one channel, step by step ----

  lemma SwapInRange(c: Chan, pending: Option<Config>, cin: ChanInput, now: int)
    requires InRange(c)
    requires pending.Some? ==> ConfigOK(pending.value) && Holds(pending.value.channels, c)
    ensures var p := SwapOne(c, pending, cin, now);
            InRange(p) && p.cfg.name == c.cfg.name && p.cfg.pwm == c.cfg.pwm
  {
    if pending.Some? { ByNameIn(pending.value.channels, c.cfg.name); }
  }

  lemma PostInRange(c: Chan, override: Option<int>, now: int)
    requires InRange(c) && (override.Some? ==> 0 <= override.value <= 255)
    ensures 0 <= CurvePost(c, override.Some?, now).hold.target <= 255
    ensures 0 <= RegulatedDrive(c, override, now).target <= 255
  {
    var p := HeldTemp(c.post, c.sense.temp, c.cfg.hysteresis);
    DutyExact(c.cfg.curve, 0, p.held);
    hide Duty, HeldTemp, Valid;
  }

  lemma TargetInRange(c: Chan, override: Option<int>, now: int, d: Daemon)
    requires InRange(c) && (override.Some? ==> 0 <= override.value <= 255)
    ensures var t := TargetOne(c, override, now, d);
            InRange(t) && t.cfg == c.cfg && t.drive.cur == c.drive.cur && t.drive.written == c.drive.written
  {
    PostInRange(c, override, now);
    hide CurvePost, RegulatedDrive, CeilingHeat, StallFan, StallActs, Valid;
  }

  lemma WriteInRange(s: State, c: Chan, cin: ChanInput)
    requires InRange(c) && ConfigOK(s.cfg)
    ensures InRange(WriteOne(s, c, cin)) && WriteOne(s, c, cin).cfg == c.cfg
  {
    hide Valid;
  }

  lemma CycleInRange(s: State, inp: Input, i: nat)
    requires |inp.chans| == |s.chans| && i < |s.chans| && StateOK(s)
    ensures var c, f := s.chans[i], Cycle(s, inp).chans[i];
            && InRange(f) && f.cfg == SwapOne(c, s.pending, inp.chans[i], inp.swapNow).cfg
            && f.cfg.name == c.cfg.name && f.cfg.pwm == c.cfg.pwm
  {
    var r := Sensed(s, inp);
    var w := AtWrite(s, inp);
    SensedAt(s, inp, i);
    AimedAt(s, inp, i);
    FinishedAt(w, inp, i);
    SwapInRange(s.chans[i], s.pending, inp.chans[i], inp.swapNow);
    CycleFields(s, inp);
    var override := OverrideOf(r.overrides, r.chans[i].cfg.name);
    TargetInRange(r.chans[i], override, inp.now, r.cfg.daemon);
    WriteInRange(w, w.chans[i], inp.chans[i]);
    hide ApplyPending, Sensed, Aimed, Finished, TargetOne, SwapOne, WriteOne, Valid;
  }

  /** The fields a cycle does not compute. */
  lemma CycleFields(s: State, inp: Input)
    requires |inp.chans| == |s.chans|
    ensures var w, f := AtWrite(s, inp), Cycle(s, inp);
            && f.cfg == w.cfg == Sensed(s, inp).cfg == Base(s) && f.pending.None?
            && f.overrides == Sensed(s, inp).overrides == s.overrides && f.n5pro == s.n5pro
            && f.dryRun == w.dryRun == s.dryRun && w.n == s.n && f.n == s.n + 1 && w.errs == s.errs
            && w.stopped == (s.stopped || inp.stop == BeforeWrite)
  {
    hide SwapOne, ReadOne, SettleOne, TargetOne, WriteOne, FailsafeOne, Counted, AllFailed, WriteErr, Wrote;
    hide FirstSensorChanges, Frozen, Tracking;
  }

  // ---- reload ----

  lemma {:induction false} CorrectAllOK(g: seq<ChannelConfig>, out: seq<ChannelConfig>, defs: seq<ChannelConfig>)
    requires |g| <= |out|
    requires (forall cc :: cc in out ==> ChannelOK(cc)) && (forall d :: d in defs ==> ChannelOK(d))
    ensures forall cc :: cc in CorrectAll(g, out, defs) ==> ChannelOK(cc)
    decreases |defs|
  {
    hide Valid;
    if defs != [] {
      var next := Correct(g, out, defs[0]);
      assert ChannelOK(defs[0]);
      forall i | 0 <= i < |next| ensures ChannelOK(next[i]) {
        assert i < |out| ==> out[i] in out;
      }
      CorrectAllOK(g, next, defs[1..]);
    }
  }

  lemma BuiltinsOK()
    ensures forall d :: d in N5PRO_CHANNELS ==> ChannelOK(d)
  {
    assert ChannelOK(CPU) && ChannelOK(SSD) && ChannelOK(HDD);
  }

  /** An accepted reload has every running channel under its name and pwm. */
  lemma AcceptedHolds(base: Config, cfg: Config, c: Chan)
    requires Accepts(base, cfg) && Holds(base.channels, c)
    ensures Holds(cfg.channels, c)
  {
    ByNameIn(base.channels, c.cfg.name);
    var b := ByName(base.channels, c.cfg.name).value;
    var i :| 0 <= i < |base.channels| && base.channels[i] == b;
  }

  lemma OfferKeeps(s: State, cfg: Config)
    requires StateOK(s) && ConfigOK(cfg)
    ensures StateOK(Offered(s, cfg))
  {
    var cc := Corrected(s.n5pro, cfg);
    if s.n5pro {
      BuiltinsOK();
      CorrectAllOK(cfg.channels, cfg.channels, N5PRO_CHANNELS);
    }
    assert ConfigOK(cc);
    if Accepts(Base(s), cc) {
      if NoReload(s.cfg.channels) && s.pending.None? { NeverAccepted(s.cfg, cc); }
      forall c | c in s.chans ensures Holds(cc.channels, c) {
        AcceptedHolds(Base(s), cc, c);
      }
    }
  }

  // ---- every event, every run ----

  lemma CycleKeeps(s: State, inp: Input)
    requires |inp.chans| == |s.chans| && StateOK(s)
    ensures StateOK(Cycle(s, inp)) && SameIdentity(s.chans, Cycle(s, inp).chans)
  {
    CycleFields(s, inp);
    var f := Cycle(s, inp);
    forall i | 0 <= i < |s.chans|
      ensures InRange(f.chans[i])
      ensures f.chans[i].cfg.name == s.chans[i].cfg.name && f.chans[i].cfg.pwm == s.chans[i].cfg.pwm
    {
      CycleInRange(s, inp, i);
      hide Cycle, InRange, AtWrite, Sensed, ConfigOK, SwapConfig, Anchored;
    }
    hide Cycle, InRange, AtWrite, Sensed, ConfigOK;
    CycleAnchors(s, f);
    hide Anchored;
  }

  /** After a cycle the channels of the pending config are those of the active one. */
  lemma CycleAnchors(s: State, f: State)
    requires Anchored(s) && SameIdentity(s.chans, f.chans) && f.cfg == Base(s) && f.pending.None?
    ensures Anchored(f)
  {
    hide ByName, NoReload;
    if s.pending.Some? || !NoReload(s.cfg.channels) {
      forall c | c in f.chans ensures Holds(f.cfg.channels, c) {
        var i :| 0 <= i < |f.chans| && f.chans[i] == c;
        assert s.chans[i] in s.chans;
      }
    }
  }

  lemma StepKeeps(s: State, e: Event)
    requires Fits(s, e) && EventOK(e) && StateOK(s)
    ensures StateOK(Step(s, e)) && SameIdentity(s.chans, Step(s, e).chans)
  {
    match e
    case Tick(inp) =>
      CycleKeeps(s, inp);
      hide Cycle, StateOK;
    case Reload(cfg) =>
      OfferKeeps(s, cfg);
      hide StateOK;
    case _ => OverridesKeep(s, e);
  }

  /** Overrides and a stop leave the channels and the configs alone. */
  lemma OverridesKeep(s: State, e: Event)
    requires Fits(s, e) && EventOK(e) && StateOK(s) && !e.Tick? && !e.Reload?
    ensures StateOK(Step(s, e)) && SameIdentity(s.chans, Step(s, e).chans)
  {
    hide InRange, Holds, Anchored, ConfigOK, Find, HddLike;
    assert Step(s, e).chans == s.chans && Base(Step(s, e)) == Base(s);
    assert Anchored(Step(s, e)) by { StillAnchored(s, Step(s, e)); }
  }

  lemma StillAnchored(s: State, t: State)
    requires Anchored(s) && t.chans == s.chans && t.cfg == s.cfg && t.pending == s.pending
    ensures Anchored(t)
  {
    hide Holds;
  }

  ghost predicate AllOK(es: seq<Event>) {
    forall e :: e in es ==> EventOK(e)
  }

  /**
   * Over any sequence of cycles, overrides and reloads, accepted or refused, every running
   * channel keeps its name and its pwm, and every duty stays a duty.
   */
  lemma {:induction false} RunKeepsIdentity(s: State, es: seq<Event>)
    requires FitsAll(|s.chans|, es) && AllOK(es) && StateOK(s)
    ensures StateOK(Run(s, es)) && SameIdentity(s.chans, Run(s, es).chans)
    decreases |es|
  {
    if es != [] {
      StepKeeps(s, es[0]);
      hide Step, StateOK;
      RunKeepsIdentity(Step(s, es[0]), es[1..]);
    }
  }

  /**
   * The state New leaves: one fresh channel per configured one the device provides, no two
   * on one pwm, and the valid overrides of the last run.
   */
  ghost predicate Fresh(s: State) {
    && UniquePwms(s.cfg.channels) && ConfigOK(s.cfg) && s.pending.None?
    && (forall name :: name in s.overrides ==> OverrideCheck(s, name, s.overrides[name]).None?)
    && forall c :: c in s.chans ==>
      c.cfg in s.cfg.channels && exists tach, duty, sensor, pcs :: c == Channels.Fresh(c.cfg, tach, duty, sensor, pcs)
  }

  lemma {:induction false} ByNameUnique(cs: seq<ChannelConfig>, cc: ChannelConfig)
    requires UniqueNames(cs) && cc in cs
    ensures ByName(cs, cc.name) == Some(cc)
  {
    var i :| 0 <= i < |cs| && cs[i] == cc;
    if i < |cs| - 1 {
      assert cs[..|cs| - 1][i] == cc;
      ByNameUnique(cs[..|cs| - 1], cc);
    }
  }

  lemma StartOK(s: State)
    requires Fresh(s)
    ensures StateOK(s)
  {
    forall c | c in s.chans ensures InRange(c) {
      hide Valid;
    }
    if UniqueNames(s.cfg.channels) {
      forall c | c in s.chans ensures Holds(s.cfg.channels, c) {
        ByNameUnique(s.cfg.channels, c.cfg);
      }
    }
    hide InRange, ByName;
    forall name | name in s.overrides ensures 0 <= s.overrides[name] <= 255 {
      assert OverrideCheck(s, name, s.overrides[name]).None?;
    }
  }

  /** From any start, with names repeated or not, identity and ranges hold over every run. */
  lemma StartKeepsIdentity(s: State, es: seq<Event>)
    requires Fresh(s) && FitsAll(|s.chans|, es) && AllOK(es)
    ensures StateOK(Run(s, es)) && SameIdentity(s.chans, Run(s, es).chans)
  {
    StartOK(s);
    RunKeepsIdentity(s, es);
  }

  // ---- the minimum of a manual duty ----

  ghost predicate DistinctNames(cs: seq<Chan>) {
    forall i, j :: 0 <= i < j < |cs| ==> cs[i].cfg.name != cs[j].cfg.name
  }

  /** No disk channel runs at a manual duty below the minimum. */
  ghost predicate MinimumKept(s: State) {
    forall c :: c in s.chans && HddLike(s.n5pro, c.cfg) && c.cfg.name in s.overrides ==>
      s.overrides[c.cfg.name] >= MIN_HDD_OVERRIDE
  }

  /** The pending config makes a disk channel of one that runs at a lower manual duty. */
  ghost predicate Tightens(s: State) {
    s.pending.Some? && exists c ::
      c in s.chans && c.cfg.name in s.overrides && s.overrides[c.cfg.name] < MIN_HDD_OVERRIDE
      && HddLike(s.n5pro, ConfigFor(s.pending.value.channels, c.cfg.name))
  }

  lemma {:induction false} FindIs(cs: seq<Chan>, c: Chan)
    requires DistinctNames(cs) && c in cs
    ensures Find(cs, c.cfg.name) == Some(c)
  {
    if cs[0] != c {
      var i :| 0 <= i < |cs| && cs[i] == c;
      assert cs[1..][i - 1] == c;
      FindIs(cs[1..], c);
    }
  }

  /** The config the next cycle gives a channel. */
  function NextConfig(s: State, c: Chan): ChannelConfig {
    if s.pending.None? then c.cfg else ConfigFor(s.pending.value.channels, c.cfg.name)
  }

  /** The config of a channel after a cycle. */
  lemma CycleConfig(s: State, inp: Input, i: nat)
    requires |inp.chans| == |s.chans| && i < |s.chans| && StateOK(s)
    ensures Cycle(s, inp).chans[i].cfg == NextConfig(s, s.chans[i])
    ensures Cycle(s, inp).chans[i].cfg.name == s.chans[i].cfg.name
  {
    CycleInRange(s, inp, i);
    SwapHeat(s.chans[i], s.pending, inp.chans[i], inp.swapNow);
    hide Cycle, InRange, StateOK, SwapOne, ConfigFor;
  }

  lemma MinimumAfter(s: State, f: State)
    requires |f.chans| == |s.chans| && f.overrides == s.overrides && f.n5pro == s.n5pro && MinimumKept(s)
    requires forall i :: 0 <= i < |s.chans| ==>
      f.chans[i].cfg == NextConfig(s, s.chans[i]) && f.chans[i].cfg.name == s.chans[i].cfg.name
    ensures MinimumKept(f) <==> !Tightens(s)
  {
    hide ConfigFor, HddLike;
    if MinimumKept(f) && s.pending.Some? {
      forall c | c in s.chans && c.cfg.name in s.overrides
        && HddLike(s.n5pro, ConfigFor(s.pending.value.channels, c.cfg.name))
        ensures s.overrides[c.cfg.name] >= MIN_HDD_OVERRIDE
      {
        var i :| 0 <= i < |s.chans| && s.chans[i] == c;
        assert f.chans[i] in f.chans;
      }
    }
    if !Tightens(s) {
      forall c | c in f.chans && HddLike(f.n5pro, c.cfg) && c.cfg.name in f.overrides
        ensures f.overrides[c.cfg.name] >= MIN_HDD_OVERRIDE
      {
        var i :| 0 <= i < |f.chans| && f.chans[i] == c;
        assert s.chans[i] in s.chans;
      }
    }
  }

  lemma CycleMinimum(s: State, inp: Input)
    requires |inp.chans| == |s.chans| && StateOK(s) && MinimumKept(s)
    ensures MinimumKept(Cycle(s, inp)) <==> !Tightens(s)
  {
    hide *;
    var f := Cycle(s, inp);
    CycleFields(s, inp);
    forall i | 0 <= i < |s.chans|
      ensures f.chans[i].cfg == NextConfig(s, s.chans[i]) && f.chans[i].cfg.name == s.chans[i].cfg.name
    {
      CycleConfig(s, inp, i);
    }
    MinimumAfter(s, f);
  }

  /**
   * What breaks the minimum: a cycle that applies a tightening config, or an override on a
   * name that a disk channel shares with another channel, which alone is checked.
   */
  ghost predicate Breaks(s: State, e: Event) {
    match e
    case Tick(_) => Tightens(s)
    case SetOverride(name, duty) =>
      OverrideCheck(s, name, duty).None? && duty < MIN_HDD_OVERRIDE
      && exists c :: c in s.chans && c.cfg.name == name && HddLike(s.n5pro, c.cfg)
    case _ => false
  }

  /** With one channel of each name the check of an override is enough. */
  lemma OverrideNeverBreaks(s: State, name: string, duty: int)
    requires DistinctNames(s.chans)
    ensures !Breaks(s, SetOverride(name, duty))
  {
    forall c | c in s.chans && c.cfg.name == name ensures Find(s.chans, name) == Some(c) { FindIs(s.chans, c); }
    hide Find;
  }

  lemma StepMinimum(s: State, e: Event)
    requires Fits(s, e) && EventOK(e) && StateOK(s) && MinimumKept(s)
    ensures MinimumKept(Step(s, e)) <==> !Breaks(s, e)
  {
    match e
    case Tick(inp) =>
      CycleMinimum(s, inp);
      hide Cycle, MinimumKept, Tightens, StateOK;
    case SetOverride(name, duty) => hide StateOK, OverrideCheck, HddLike;
    case Reload(cfg) => hide Accepts, Corrected, StateOK;
    case _ => hide StateOK;
  }

  /** The minimum holds after every event of the run. */
  ghost predicate MinimumThroughout(s: State, es: seq<Event>)
    requires FitsAll(|s.chans|, es)
    decreases |es|
  {
    MinimumKept(s) && (es == [] || MinimumThroughout(Step(s, es[0]), es[1..]))
  }

  ghost predicate NeverBreaks(s: State, es: seq<Event>)
    requires FitsAll(|s.chans|, es)
    decreases |es|
  {
    es == [] || (!Breaks(s, es[0]) && NeverBreaks(Step(s, es[0]), es[1..]))
  }

  /**
   * Over any run a manual duty on a disk channel keeps the minimum exactly when no reload
   * turns a channel into one while a lower override is set, and no lower override is set on
   * a disk channel by way of another channel of its name.
   */
  lemma {:induction false} MinimumExactly(s: State, es: seq<Event>)
    requires FitsAll(|s.chans|, es) && AllOK(es) && StateOK(s) && MinimumKept(s)
    ensures MinimumThroughout(s, es) <==> NeverBreaks(s, es)
    decreases |es|
  {
    if es != [] {
      StepKeeps(s, es[0]);
      StepMinimum(s, es[0]);
      hide Step, StateOK, MinimumKept, Breaks;
      if !Breaks(s, es[0]) { MinimumExactly(Step(s, es[0]), es[1..]); }
    }
  }

  /** Such a reload: stop "auto" becomes a fixed duty under an override of 30. */
  lemma TighteningReload(s: State, inp: Input)
    requires |inp.chans| == |s.chans| == 1 && StateOK(s) && !s.n5pro
    requires s.chans[0].cfg.stop == ToChip && s.overrides == map[s.chans[0].cfg.name := 30]
    requires s.pending == Some(s.cfg.(channels := [s.chans[0].cfg.(stop := Fixed(140))]))
    ensures MinimumKept(s) && !MinimumKept(Cycle(s, inp))
  {
    var c, cs := s.chans[0], s.pending.value.channels;
    assert ByName(cs, c.cfg.name) == Some(cs[0]);
    assert c in s.chans && Tightens(s);
    assert MinimumKept(s) by { assert s.chans == [c]; }
    hide Tightens, MinimumKept, StateOK;
    CycleMinimum(s, inp);
  }
}
