/**
 * The regulation loop of internal/control/controller.go: one cycle over all channels,
 * first as a function of the controller's fields and the inputs of the cycle, then as
 * the class whose methods are the steps of the source.
 */
module Control {
  import opened Wrappers
  import opened Channels
  import opened Sanitizing

  const WRITE_ERRORS_BEFORE_FAILSAFE := 2
  const DEVICE_LOST_CYCLES := 6
  const MIN_HDD_OVERRIDE := 60

  datatype Config = Config(profile: string, daemon: Daemon, channels: seq<ChannelConfig>)

  /** What the environment answers one channel in one cycle, in the order it is asked. */
  datatype ChanInput = ChanInput(
    swap: Resolution, swapCeilings: seq<PartCeiling>, periodic: Resolution, retry: Resolution,
    reading: Reading, again: Resolution, tach: Option<nat>,
    dryDuty: Option<int>, writeOK: bool, late: Resolution, failsafeOK: bool)

  /** Where in the cycle Stop sets the stopped flag, if it does. */
  datatype StopPoint = Never | BeforeWrite | BeforeFailsafe

  datatype Input = Input(swapNow: int, now: int, chans: seq<ChanInput>, stop: StopPoint)

  /** Consecutive cycles with a write error, and with a failsafe that wrote nothing. */
  datatype Errors = Errors(wrErr: nat, fsFail: nat)

  /** The frozen-sensor check of the first channel. */
  datatype RawTrack = RawTrack(have: bool, last: int, same: nat)

  /** The fields of the controller the loop works on. */
  datatype State = State(
    n5pro: bool, cfg: Config, chans: seq<Chan>, overrides: map<string, int>, pending: Option<Config>,
    stopped: bool, dryRun: bool, n: nat, errs: Errors, raw: RawTrack)

  // ---- reload ----

  const ZERO_CONFIG := ChannelConfig("", 0, "", [], 0, ToChip, 0, 0)

  /** The last channel of that name: what a map filled in order holds. */
  function ByName(cs: seq<ChannelConfig>, name: string): Option<ChannelConfig> {
    if cs == [] then None
    else if cs[|cs| - 1].name == name then Some(cs[|cs| - 1])
    else ByName(cs[..|cs| - 1], name)
  }

  function ConfigFor(cs: seq<ChannelConfig>, name: string): ChannelConfig {
    var r := ByName(cs, name);
    if r.Some? then r.value else ZERO_CONFIG
  }

  predicate SameChannelSet(a: seq<ChannelConfig>, b: seq<ChannelConfig>) {
    |a| == |b| && forall i :: 0 <= i < |b| ==>
      var r := ByName(a, b[i].name); r.Some? && r.value.pwm == b[i].pwm
  }

  /** The config a reload is compared with: the pending one, else the active one. */
  function Base(s: State): Config {
    if s.pending.Some? then s.pending.value else s.cfg
  }

  predicate Accepts(base: Config, cfg: Config) {
    cfg.profile == base.profile && SameChannelSet(cfg.channels, base.channels)
  }

  function Corrected(n5pro: bool, cfg: Config): Config {
    cfg.(channels := Sanitize(n5pro, cfg.channels))
  }

  /** Apply: an accepted config waits for the next cycle, any other changes nothing. */
  function Offered(s: State, cfg: Config): State {
    if Accepts(Base(s), Corrected(s.n5pro, cfg)) then s.(pending := Some(Corrected(s.n5pro, cfg))) else s
  }

  predicate FirstSensorChanges(s: State) {
    s.pending.Some? && |s.chans| > 0 &&
    ConfigFor(s.pending.value.channels, s.chans[0].cfg.name).sensor != s.chans[0].cfg.sensor
  }

  function SwapOne(c: Chan, pending: Option<Config>, cin: ChanInput, now: int): Chan {
    if pending.None? then c
    else SwapConfig(c, ConfigFor(pending.value.channels, c.cfg.name), cin.swap, cin.swapCeilings, now)
  }

  ghost function ApplyPending(s: State, inp: Input): (r: State)
    requires |inp.chans| == |s.chans|
    ensures |r.chans| == |s.chans|
  {
    var reset := FirstSensorChanges(s);
    s.(cfg := Base(s), pending := None,
       chans := seq(|s.chans|, i requires 0 <= i < |s.chans| => SwapOne(s.chans[i], s.pending, inp.chans[i],
         inp.swapNow)),
       raw := if reset then RawTrack(false, s.raw.last, 0) else s.raw)
  }

  // ---- readSensors, computeTargets, checkStall ----

  function ReadOne(c: Chan, n: nat, cin: ChanInput): Chan {
    var s1 := if n > 0 && n % RESOLVE_EVERY == 0 then Resolved(c.sense, cin.periodic) else c.sense;
    c.(sense := ReadSensor(s1, c.cfg.sensor, cin.retry, cin.reading))
  }

  /** Whether the frozen-sensor check runs on the first channel, given its reading. */
  predicate Tracked(tempOK: bool, sensor: string) {
    tempOK && sensor == STALE_SENSOR
  }

  function Track(r: RawTrack, temp: int): RawTrack {
    RawTrack(true, temp, if r.have && temp == r.last then r.same + 1 else 0)
  }

  function SettleOne(c: Chan, frozen: bool, cin: ChanInput): Chan {
    var s1 := if frozen then c.sense.(tempOK := false) else c.sense;
    c.(sense := Recheck(s1, cin.again), fan := ReadRpm(c.fan, c.hasTach, cin.tach))
  }

  ghost function AllRead(s: State, inp: Input): (read: seq<Chan>)
    requires |inp.chans| == |s.chans|
    ensures |read| == |s.chans|
  {
    seq(|s.chans|, i requires 0 <= i < |s.chans| => ReadOne(s.chans[i], s.n, inp.chans[i]))
  }

  function Tracking(r: RawTrack, read: seq<Chan>): RawTrack {
    if |read| > 0 && Tracked(read[0].sense.tempOK, read[0].cfg.sensor) then Track(r, read[0].sense.temp) else r
  }

  /** The first channel's sensor has repeated one reading for staleCycles cycles. */
  predicate Frozen(r: RawTrack, read: seq<Chan>, staleCycles: int) {
    |read| > 0 && Tracked(read[0].sense.tempOK, read[0].cfg.sensor) && Tracking(r, read).same >= staleCycles
  }

  ghost function ReadSensors(s: State, inp: Input): (r: State)
    requires |inp.chans| == |s.chans|
    ensures |r.chans| == |s.chans|
  {
    var read := AllRead(s, inp);
    var frozen := Frozen(s.raw, read, s.cfg.daemon.staleCycles);
    s.(chans := seq(|s.chans|, i requires 0 <= i < |s.chans| => SettleOne(read[i], i == 0 && frozen, inp.chans[i])),
       raw := Tracking(s.raw, read))
  }

  function OverrideOf(overrides: map<string, int>, name: string): Option<int> {
    if name in overrides then Some(overrides[name]) else None
  }

  ghost function TargetOne(c: Chan, override: Option<int>, now: int, d: Daemon): Chan {
    CheckStall(ComputeTarget(c, override, now, d), d)
  }

  ghost function ComputeTargets(s: State, now: int): (r: State)
    ensures |r.chans| == |s.chans|
  {
    s.(chans := seq(|s.chans|, i requires 0 <= i < |s.chans| =>
                      TargetOne(s.chans[i], OverrideOf(s.overrides, s.chans[i].cfg.name), now, s.cfg.daemon)))
  }

  /** The state after reload and sensor reads: what the targets are computed from. */
  ghost function Sensed(s: State, inp: Input): (r: State)
    requires |inp.chans| == |s.chans|
    ensures |r.chans| == |s.chans|
  {
    ReadSensors(ApplyPending(s, inp), inp)
  }

  /** The state before the write phase. */
  ghost function Aimed(s: State, inp: Input): (r: State)
    requires |inp.chans| == |s.chans|
    ensures |r.chans| == |s.chans|
  {
    ComputeTargets(Sensed(s, inp), inp.now)
  }

  // ---- writeAndFinish ----

  function WriteOne(s: State, c: Chan, cin: ChanInput): Chan {
    c.(drive := if s.stopped then c.drive
                else if s.dryRun then ShowDuty(c.drive, cin.dryDuty)
                else WriteStep(c.drive, s.cfg.daemon, s.n, cin.writeOK))
  }

  /** The state and stop flag as the write phase finds them. */
  ghost function AtWrite(s: State, inp: Input): (r: State)
    requires |inp.chans| == |s.chans|
    ensures |r.chans| == |s.chans|
  {
    var a := Aimed(s, inp);
    a.(stopped := a.stopped || inp.stop == BeforeWrite)
  }

  /** Channel i is written in this cycle's write phase. */
  ghost predicate Tries(w: State, i: nat)
    requires i < |w.chans|
  {
    !w.stopped && !w.dryRun && Attempts(w.chans[i].drive, w.cfg.daemon, w.n)
  }

  ghost predicate WriteErr(w: State, inp: Input)
    requires |inp.chans| == |w.chans|
  {
    exists i: nat :: i < |w.chans| && Tries(w, i) && !inp.chans[i].writeOK
  }

  ghost predicate Wrote(w: State, inp: Input)
    requires |inp.chans| == |w.chans|
  {
    exists i: nat :: i < |w.chans| && Tries(w, i) && inp.chans[i].writeOK
  }

  /** Only a successful write proves the device is back. */
  function Counted(e: Errors, werr: bool, wrote: bool): Errors {
    if werr then e.(wrErr := e.wrErr + 1) else Errors(if wrote then 0 else e.wrErr, 0)
  }

  ghost function AfterWrite(w: State, inp: Input): (r: State)
    requires |inp.chans| == |w.chans|
    ensures |r.chans| == |w.chans|
  {
    w.(chans := seq(|w.chans|, i requires 0 <= i < |w.chans| => WriteOne(w, w.chans[i], inp.chans[i])),
       errs := Counted(w.errs, WriteErr(w, inp), Wrote(w, inp)))
  }

  /** The all-channel failsafe is called in this cycle. */
  ghost predicate FailsafeCalled(w: State, inp: Input)
    requires |inp.chans| == |w.chans|
  {
    WriteErr(w, inp) && w.errs.wrErr + 1 >= WRITE_ERRORS_BEFORE_FAILSAFE
  }

  function FailsafeOne(s: State, c: Chan, cin: ChanInput): Chan {
    c.(sense := Resolved(c.sense, cin.late),
       drive := if s.stopped then c.drive else FailsafeStep(c.drive, s.dryRun, cin.failsafeOK))
  }

  /** failsafeAll reports that not a single channel could be written. */
  ghost predicate AllFailed(s: State, inp: Input)
    requires |inp.chans| == |s.chans|
  {
    !s.stopped && |s.chans| > 0 && !s.dryRun && forall i :: 0 <= i < |s.chans| ==> !inp.chans[i].failsafeOK
  }

  ghost function AfterFailsafe(a: State, inp: Input): (r: State)
    requires |inp.chans| == |a.chans|
    ensures |r.chans| == |a.chans|
  {
    a.(chans := seq(|a.chans|, i requires 0 <= i < |a.chans| => FailsafeOne(a, a.chans[i], inp.chans[i])),
       errs := a.errs.(fsFail := if AllFailed(a, inp) then a.errs.fsFail + 1 else 0))
  }

  /** writeAndFinish from the state the write phase finds. */
  ghost function Finished(w: State, inp: Input): (r: State)
    requires |inp.chans| == |w.chans|
    ensures |r.chans| == |w.chans|
  {
    var a0 := AfterWrite(w, inp);
    var a := a0.(stopped := a0.stopped || inp.stop == BeforeFailsafe);
    var f := if FailsafeCalled(w, inp) then AfterFailsafe(a, inp) else a;
    f.(n := w.n + 1)
  }

  ghost predicate LostAt(w: State, inp: Input)
    requires |inp.chans| == |w.chans|
  {
    FailsafeCalled(w, inp) && Finished(w, inp).errs.fsFail >= DEVICE_LOST_CYCLES
  }

  /** One regulation cycle. */
  ghost function Cycle(s: State, inp: Input): (r: State)
    requires |inp.chans| == |s.chans|
    ensures |r.chans| == |s.chans|
  {
    Finished(AtWrite(s, inp), inp)
  }

  /** The cycle returns ErrDeviceLost. */
  ghost predicate Lost(s: State, inp: Input)
    requires |inp.chans| == |s.chans|
  {
    LostAt(AtWrite(s, inp), inp)
  }

  // ---- the other entry points ----

  datatype OverrideError = DutyRange | UnknownChannel | BelowMinimum

  /** A channel that must never run at a low manual duty. */
  predicate HddLike(n5pro: bool, cc: ChannelConfig) {
    cc.stop.Fixed? || (n5pro && cc.pwm == 3)
  }

  /** The first running channel of that name. */
  function Find(chans: seq<Chan>, name: string): (r: Option<Chan>)
    ensures r.Some? ==> r.value in chans && r.value.cfg.name == name
  {
    if chans == [] then None
    else if chans[0].cfg.name == name then Some(chans[0])
    else Find(chans[1..], name)
  }

  function OverrideCheck(s: State, name: string, duty: int): Option<OverrideError> {
    var ch := Find(s.chans, name);
    if !(0 <= duty <= 255) then Some(DutyRange)
    else if ch.None? then Some(UnknownChannel)
    else if HddLike(s.n5pro, ch.value.cfg) && duty < MIN_HDD_OVERRIDE then Some(BelowMinimum)
    else None
  }

  /** Everything that happens to a running controller. */
  datatype Event =
    | Tick(inp: Input)
    | SetOverride(name: string, duty: int)
    | ClearOverride(name: string)
    | Reload(cfg: Config)
    | StopNow

  predicate Fits(s: State, e: Event) {
    e.Tick? ==> |e.inp.chans| == |s.chans|
  }

  ghost function Step(s: State, e: Event): (r: State)
    requires Fits(s, e)
    ensures |r.chans| == |s.chans|
  {
    match e
    case Tick(inp) => Cycle(s, inp)
    case SetOverride(name, duty) =>
      if OverrideCheck(s, name, duty).None? then s.(overrides := s.overrides[name := duty]) else s
    case ClearOverride(name) =>
      if Find(s.chans, name).Some? then s.(overrides := s.overrides - {name}) else s
    case Reload(cfg) => Offered(s, cfg)
    case StopNow => s.(stopped := true)
  }

  // ---- the class ----

  class Controller {
    const n5pro: bool
    const dryRun: bool
    const chans: seq<Channel>
    var cfg: Config
    var overrides: map<string, int>
    var pending: Option<Config>
    var stopped: bool
    var n: nat
    var errs: Errors
    var raw: RawTrack

    ghost predicate Valid()
      reads this
    {
      forall i, j :: 0 <= i < j < |chans| ==> chans[i] != chans[j]
    }

    ghost function Views(): (v: seq<Chan>)
      reads chans
      ensures |v| == |chans| && forall i :: 0 <= i < |v| ==> v[i] == chans[i].View()
    {
      seq(|chans|, i requires 0 <= i < |chans| reads chans => chans[i].View())
    }

    ghost function View(): State
      reads this, chans
    {
      State(n5pro, cfg, Views(), overrides, pending, stopped, dryRun, n, errs, raw)
    }

    constructor (c: Config, cs: seq<Channel>, isN5Pro: bool, dry: bool)
      requires forall i, j :: 0 <= i < j < |cs| ==> cs[i] != cs[j]
      ensures Valid() && chans == cs && n5pro == isN5Pro
      ensures View() == State(isN5Pro, c, Views(), map[], None, false, dry, 0, Errors(0, 0), RawTrack(false, 0, 0))
    {
      cfg, chans, n5pro, dryRun := c, cs, isN5Pro, dry;
      overrides, pending, stopped := map[], None, false;
      n, errs, raw := 0, Errors(0, 0), RawTrack(false, 0, 0);
    }

    // ---- the entry points of the API ----

    method FindChannel(name: string) returns (ch: Channel?)
      ensures ch == null <==> Find(Views(), name).None?
      ensures ch != null ==> ch in chans && ch.View() == Find(Views(), name).value
    {
      ghost var v := Views();
      for i := 0 to |chans|
        invariant Find(v, name) == Find(v[i..], name)
      {
        if chans[i].cfg.name == name { return chans[i]; }
      }
      return null;
    }

    method Override(name: string, duty: int) returns (err: Option<OverrideError>)
      requires Valid()
      modifies `overrides
      ensures View() == Step(old(View()), SetOverride(name, duty))
      ensures err == OverrideCheck(old(View()), name, duty)
    {
      if duty < 0 || duty > 255 { return Some(DutyRange); }
      var ch := FindChannel(name);
      if ch == null { return Some(UnknownChannel); }
      if HddLike(n5pro, ch.cfg) && duty < MIN_HDD_OVERRIDE { return Some(BelowMinimum); }
      overrides := overrides[name := duty];
      return None;
    }

    method Clear(name: string) returns (ok: bool)
      requires Valid()
      modifies `overrides
      ensures View() == Step(old(View()), ClearOverride(name)) && ok == Find(Views(), name).Some?
    {
      var ch := FindChannel(name);
      if ch == null { return false; }
      overrides := overrides - {name};
      return true;
    }

    /** Apply: false is ErrRestartRequired. */
    method Apply(config: Config) returns (accepted: bool)
      requires Valid()
      modifies `pending
      ensures View() == Step(old(View()), Reload(config))
      ensures accepted == Accepts(Base(old(View())), Corrected(n5pro, config))
    {
      var channels := SanitizeChannels(n5pro, config.channels);
      var c := config.(channels := channels);
      var base := cfg;
      if pending.Some? { base := pending.value; }
      if c.profile != base.profile || !SameChannelSet(c.channels, base.channels) { return false; }
      pending := Some(c);
      return true;
    }

    // ---- the loops over all channels ----

    method SwapChannels(channels: seq<ChannelConfig>, inp: Input)
      requires Valid() && |inp.chans| == |chans|
      modifies chans
      ensures forall k :: 0 <= k < |chans| ==>
                chans[k].View() == SwapOne(old(chans[k].View()), Some(Config(cfg.profile, cfg.daemon, channels)),
                  inp.chans[k], inp.swapNow)
    {
      hide SwapConfig;
      for i := 0 to |chans|
        invariant forall k :: 0 <= k < i ==>
                    chans[k].View() == SwapOne(old(chans[k].View()), Some(Config(cfg.profile, cfg.daemon, channels)),
                      inp.chans[k], inp.swapNow)
        invariant forall k :: i <= k < |chans| ==> chans[k].View() == old(chans[k].View())
      {
        var cc := ConfigFor(channels, chans[i].cfg.name);
        chans[i].Swap(cc, inp.chans[i].swap, inp.chans[i].swapCeilings, inp.swapNow);
      }
    }

    method ReadChannels(inp: Input)
      requires Valid() && |inp.chans| == |chans|
      modifies chans
      ensures forall k :: 0 <= k < |chans| ==> chans[k].View() == ReadOne(old(chans[k].View()), n, inp.chans[k])
    {
      hide ReadSensor, Resolved;
      for i := 0 to |chans|
        invariant forall k :: 0 <= k < i ==> chans[k].View() == ReadOne(old(chans[k].View()), n, inp.chans[k])
        invariant forall k :: i <= k < |chans| ==> chans[k].View() == old(chans[k].View())
      {
        if n > 0 && n % RESOLVE_EVERY == 0 {
          chans[i].Resolve(inp.chans[i].periodic);
        }
        chans[i].Read(inp.chans[i].retry, inp.chans[i].reading);
      }
    }

    method SettleChannels(inp: Input, frozen: bool)
      requires Valid() && |inp.chans| == |chans|
      modifies chans
      ensures forall k :: 0 <= k < |chans| ==>
                chans[k].View() == SettleOne(old(chans[k].View()), k == 0 && frozen, inp.chans[k])
    {
      hide Recheck, ReadRpm;
      for i := 0 to |chans|
        invariant forall k :: 0 <= k < i ==>
                    chans[k].View() == SettleOne(old(chans[k].View()), k == 0 && frozen, inp.chans[k])
        invariant forall k :: i <= k < |chans| ==> chans[k].View() == old(chans[k].View())
      {
        if i == 0 && frozen {
          chans[i].sense := chans[i].sense.(tempOK := false);
        }
        chans[i].RecheckAndTach(inp.chans[i].again, inp.chans[i].tach);
      }
    }

    method AimChannels(now: int)
      requires Valid()
      modifies chans
      ensures forall k :: 0 <= k < |chans| ==>
                chans[k].View() == ComputeTarget(old(chans[k].View()), OverrideOf(overrides, old(chans[k].cfg.name)),
                  now, cfg.daemon)
    {
      hide ComputeTarget;
      for i := 0 to |chans|
        invariant forall k :: 0 <= k < i ==>
                    chans[k].View() == ComputeTarget(old(chans[k].View()),
                      OverrideOf(overrides, old(chans[k].cfg.name)), now, cfg.daemon)
        invariant forall k :: i <= k < |chans| ==> chans[k].View() == old(chans[k].View())
      {
        chans[i].SetTarget(OverrideOf(overrides, chans[i].cfg.name), now, cfg.daemon);
      }
    }

    method WatchChannels()
      requires Valid()
      modifies chans
      ensures forall k :: 0 <= k < |chans| ==> chans[k].View() == CheckStall(old(chans[k].View()), cfg.daemon)
    {
      hide CheckStall;
      for i := 0 to |chans|
        invariant forall k :: 0 <= k < i ==> chans[k].View() == CheckStall(old(chans[k].View()), cfg.daemon)
        invariant forall k :: i <= k < |chans| ==> chans[k].View() == old(chans[k].View())
      {
        chans[i].WatchFan(cfg.daemon);
      }
    }

    method ReresolveChannels(inp: Input)
      requires Valid() && |inp.chans| == |chans|
      modifies chans
      ensures forall k :: 0 <= k < |chans| ==>
                chans[k].View() == old(chans[k].View()).(sense := Resolved(old(chans[k].sense), inp.chans[k].late))
    {
      hide Resolved;
      for i := 0 to |chans|
        invariant forall k :: 0 <= k < i ==>
                    chans[k].View() == old(chans[k].View()).(sense := Resolved(old(chans[k].sense), inp.chans[k].late))
        invariant forall k :: i <= k < |chans| ==> chans[k].View() == old(chans[k].View())
      {
        chans[i].Resolve(inp.chans[i].late);
      }
    }

    // ---- the steps of a cycle ----

    method SwapPending(inp: Input)
      requires Valid() && |inp.chans| == |chans|
      modifies `cfg, `pending, `raw, chans
      ensures View() == ApplyPending(old(View()), inp)
    {
      hide SwapConfig;
      ghost var s := View();
      if pending.Some? {
        var cs := pending.value.channels;
        var firstChanged := |chans| > 0 && ConfigFor(cs, chans[0].cfg.name).sensor != chans[0].cfg.sensor;
        SwapChannels(cs, inp);
        cfg := pending.value;
        if firstChanged {
          raw := raw.(have := false, same := 0);
        }
        pending := None;
      }
      assert Views() == ApplyPending(s, inp).chans;
    }

    method TrackStale() returns (frozen: bool)
      modifies `raw
      ensures raw == Tracking(old(raw), Views()) && frozen == Frozen(old(raw), Views(), cfg.daemon.staleCycles)
    {
      if |chans| > 0 && Tracked(chans[0].sense.tempOK, chans[0].cfg.sensor) {
        var temp := chans[0].sense.temp;
        if raw.have && temp == raw.last {
          raw := raw.(same := raw.same + 1);
        } else {
          raw := raw.(same := 0);
        }
        raw := raw.(have := true, last := temp);
        return raw.same >= cfg.daemon.staleCycles;
      }
      return false;
    }

    method ReadAll(inp: Input)
      requires Valid() && |inp.chans| == |chans|
      modifies `raw, chans
      ensures View() == ReadSensors(old(View()), inp)
    {
      hide ReadOne, SettleOne, Tracking, Frozen;
      ghost var s := View();
      ReadChannels(inp);
      ghost var read := Views();
      assert read == AllRead(s, inp);
      var frozen := TrackStale();
      SettleChannels(inp, frozen);
      assert Views() == ReadSensors(s, inp).chans;
    }

    method SetTargets(now: int)
      requires Valid()
      modifies chans
      ensures View() == ComputeTargets(old(View()), now)
    {
      hide ComputeTarget, CheckStall;
      ghost var s := View();
      AimChannels(now);
      WatchChannels();
      assert Views() == ComputeTargets(s, now).chans;
    }

    method ShowChannels(inp: Input)
      requires Valid() && |inp.chans| == |chans|
      modifies chans
      ensures forall k :: 0 <= k < |chans| ==>
                chans[k].View() == old(chans[k].View()).(drive := ShowDuty(old(chans[k].drive), inp.chans[k].dryDuty))
    {
      hide ShowDuty;
      for i := 0 to |chans|
        invariant forall k :: 0 <= k < i ==>
                    chans[k].View() == old(chans[k].View()).(drive := ShowDuty(old(chans[k].drive),
                      inp.chans[k].dryDuty))
        invariant forall k :: i <= k < |chans| ==> chans[k].View() == old(chans[k].View())
      {
        chans[i].Show(inp.chans[i].dryDuty);
      }
    }

    method WriteChannels(inp: Input) returns (werr: bool, wrote: bool)
      requires Valid() && |inp.chans| == |chans|
      modifies chans
      ensures forall k :: 0 <= k < |chans| ==>
                chans[k].View() == old(chans[k].View()).(drive := WriteStep(old(chans[k].drive), cfg.daemon, n,
                  inp.chans[k].writeOK))
      ensures werr <==> exists k: nat ::
        k < |chans| && Attempts(old(chans[k].drive), cfg.daemon, n) && !inp.chans[k].writeOK
      ensures wrote <==> exists k: nat ::
        k < |chans| && Attempts(old(chans[k].drive), cfg.daemon, n) && inp.chans[k].writeOK
    {
      hide WriteStep, Attempts;
      werr, wrote := false, false;
      for i := 0 to |chans|
        invariant forall k :: 0 <= k < i ==>
                    chans[k].View() == old(chans[k].View()).(drive := WriteStep(old(chans[k].drive), cfg.daemon, n,
                      inp.chans[k].writeOK))
        invariant forall k :: i <= k < |chans| ==> chans[k].View() == old(chans[k].View())
        invariant werr <==> exists k: nat ::
          k < i && Attempts(old(chans[k].drive), cfg.daemon, n) && !inp.chans[k].writeOK
        invariant wrote <==> exists k: nat ::
          k < i && Attempts(old(chans[k].drive), cfg.daemon, n) && inp.chans[k].writeOK
      {
        var attempted := chans[i].Write(cfg.daemon, n, inp.chans[i].writeOK);
        werr := werr || (attempted && !inp.chans[i].writeOK);
        wrote := wrote || (attempted && inp.chans[i].writeOK);
      }
    }

    method WritePhase(inp: Input) returns (werr: bool, wrote: bool)
      requires Valid() && |inp.chans| == |chans|
      modifies chans
      ensures Views() == AfterWrite(old(View()), inp).chans
      ensures werr == WriteErr(old(View()), inp) && wrote == Wrote(old(View()), inp)
    {
      hide WriteStep, ShowDuty, Attempts;
      ghost var w := View();
      assert forall k :: 0 <= k < |chans| ==> w.chans[k].drive == chans[k].drive;
      werr, wrote := false, false;
      if dryRun && !stopped {
        ShowChannels(inp);
      } else if !stopped {
        werr, wrote := WriteChannels(inp);
      }
      assert Views() == AfterWrite(w, inp).chans;
    }

    method FailsafeAll(inp: Input) returns (allFailed: bool)
      requires Valid() && |inp.chans| == |chans|
      modifies chans
      ensures forall k :: 0 <= k < |chans| ==>
                chans[k].View() == old(chans[k].View()).(drive :=
                  if stopped then old(chans[k].drive)
                    else FailsafeStep(old(chans[k].drive), dryRun, inp.chans[k].failsafeOK))
      ensures allFailed == AllFailed(old(View()), inp)
    {
      hide FailsafeStep;
      if stopped || |chans| == 0 { return false; }
      allFailed := true;
      for i := 0 to |chans|
        invariant forall k :: 0 <= k < i ==>
                    chans[k].View() == old(chans[k].View()).(drive := FailsafeStep(old(chans[k].drive), dryRun,
                      inp.chans[k].failsafeOK))
        invariant forall k :: i <= k < |chans| ==> chans[k].View() == old(chans[k].View())
        invariant allFailed <==> (i > 0 ==> !dryRun) && forall k :: 0 <= k < i ==> !inp.chans[k].failsafeOK
      {
        chans[i].FullSpeed(dryRun, inp.chans[i].failsafeOK);
        if dryRun || inp.chans[i].failsafeOK { allFailed := false; }
      }
    }

    method NoteFailsafe(allFailed: bool) returns (lost: bool)
      modifies `errs
      ensures errs == old(errs).(fsFail := if allFailed then old(errs).fsFail + 1 else 0)
      ensures lost == (errs.fsFail >= DEVICE_LOST_CYCLES)
    {
      if !allFailed {
        errs := errs.(fsFail := 0);
        return false;
      }
      errs := errs.(fsFail := errs.fsFail + 1);
      return errs.fsFail >= DEVICE_LOST_CYCLES;
    }

    /** The failsafe after repeated write errors; returns whether the device is lost. */
    method Rescue(inp: Input) returns (lost: bool)
      requires Valid() && |inp.chans| == |chans|
      modifies `errs, chans
      ensures View() == AfterFailsafe(old(View()), inp)
      ensures lost == (errs.fsFail >= DEVICE_LOST_CYCLES)
    {
      hide FailsafeStep, Resolved;
      ghost var a := View();
      ReresolveChannels(inp);
      var allFailed := FailsafeAll(inp);
      lost := NoteFailsafe(allFailed);
      assert Views() == AfterFailsafe(a, inp).chans;
    }

    method CountErrors(werr: bool, wrote: bool)
      modifies `errs
      ensures errs == Counted(old(errs), werr, wrote)
    {
      if werr {
        errs := errs.(wrErr := errs.wrErr + 1);
      } else {
        errs := errs.(fsFail := 0);
        if wrote { errs := errs.(wrErr := 0); }
      }
    }

    /** Writes, counts write errors and runs the failsafe; returns whether the device is lost. */
    method WriteAndFinish(inp: Input) returns (lost: bool)
      requires Valid() && |inp.chans| == |chans|
      modifies `stopped, `errs, `n, chans
      ensures View() == Finished(old(View()), inp) && lost == LostAt(old(View()), inp)
    {
      hide WriteOne, AfterFailsafe, WriteErr, Wrote, AllFailed, FailsafeOne, AfterWrite;
      var werr := WriteAndCount(inp);
      stopped := stopped || inp.stop == BeforeFailsafe;
      lost := false;
      if werr && errs.wrErr >= WRITE_ERRORS_BEFORE_FAILSAFE {
        lost := Rescue(inp);
      }
      n := n + 1;
    }

    /** Writes and counts the cycles with write errors. */
    method WriteAndCount(inp: Input) returns (werr: bool)
      requires Valid() && |inp.chans| == |chans|
      modifies `stopped, `errs, chans
      ensures View() == AfterWrite(old(View()), inp) && werr == WriteErr(old(View()), inp)
      ensures werr ==> errs.wrErr == old(errs.wrErr) + 1
    {
      hide WriteOne, WriteErr, Wrote;
      var wrote;
      werr, wrote := WritePhase(inp);
      CountErrors(werr, wrote);
    }

    /** cycle: returns whether the device is lost. */
    method RunCycle(inp: Input) returns (lost: bool)
      requires Valid() && |inp.chans| == |chans|
      modifies this, chans
      ensures Valid() && View() == Cycle(old(View()), inp) && lost == Lost(old(View()), inp)
    {
      hide ApplyPending, ReadSensors, ComputeTargets, Finished, LostAt;
      SwapPending(inp);
      ReadAll(inp);
      SetTargets(inp.now);
      stopped := stopped || inp.stop == BeforeWrite;
      lost := WriteAndFinish(inp);
    }
  }
}
