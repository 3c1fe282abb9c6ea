/**
 * One channel of the regulation loop (internal/control/controller.go, type channel):
 * what a cycle does to it, first as functions on the value of its fields (Chan), then
 * as the class whose methods update the fields and are proved against those functions.
 */
module Channels {
  import opened Curves
  import opened Numbers
  import opened Wrappers

  datatype Mode = Auto | Manual | Critical | Stall | SensorError | Failsafe

  /** [[channel]] stop: hand back to the chip ("auto") or a fixed duty. */
  datatype StopState = ToChip | Fixed(duty: int)

  datatype ChannelConfig = ChannelConfig(
    name: string, pwm: int, sensor: string, curve: Curve, critical: int,
    stop: StopState, hysteresis: int, minOn: int)

  datatype Daemon = Daemon(
    stepUp: int, stepDown: int, stallMinDuty: int, stallCycles: int, staleCycles: int,
    emergency: bool, emergencyCycles: int)

  /** The reading of one part of a sensor, in millidegrees. */
  datatype Part = Part(id: string, value: int)

  /** The effective ceiling of one part, in degrees. */
  datatype PartCeiling = PartCeiling(id: string, ceiling: int)

  /** One attempt to resolve the sensor id: a reader with the part ceilings, or nothing. */
  type Resolution = Option<seq<PartCeiling>>

  /** One sensor read: an error, or a value with the parts a composite reports. */
  datatype Reading = ReadError | Value(milli: int, composite: seq<Part>)

  const MIN_PLAUSIBLE := -20000
  const MAX_PLAUSIBLE := 120000
  const CEILING_DEFAULT := 100
  const CEILING_RECOVER := 3
  const STALL_RECOVER_CYCLES := 3
  const REWRITE_EVERY := 6
  const RESOLVE_EVERY := 60
  const STALE_SENSOR := "k10temp"

  // ---- the fields of a channel, by what they serve ----

  /** cur is the last duty written, -1 when unknown after a failed write. */
  datatype Drive = Drive(cur: int, written: bool, target: int, mode: Mode)

  datatype Sense = Sense(
    resolved: bool, temp: int, tempOK: bool, ceiling: int, partCeil: seq<PartCeiling>, parts: seq<Part>)

  datatype Fan = Fan(rpm: int, stallCnt: int, stalled: bool, recov: int)

  /** hookRuns counts the emergency actions of the channel's life. */
  datatype Heat = Heat(hit: bool, cycles: int, fired: bool, hookRuns: nat)

  /** A min_on hold of target from start until until, while on. */
  datatype Holding = Holding(on: bool, target: int, start: int, until: int)

  datatype Post = Post(held: int, heldOK: bool, lastCurve: int, haveCurve: bool, hold: Holding)

  datatype Chan = Chan(cfg: ChannelConfig, hasTach: bool, drive: Drive, sense: Sense, fan: Fan, heat: Heat, post: Post)

  // ---- the pure parts of the source ----

  function SafeDuty(cfg: ChannelConfig): int {
    match cfg.stop
    case Fixed(d) => d
    case ToChip => 255
  }

  function LowestCeiling(pcs: seq<PartCeiling>): int {
    if pcs == [] then CEILING_DEFAULT
    else if |pcs| == 1 then pcs[0].ceiling
    else
      var rest := LowestCeiling(pcs[1..]);
      if pcs[0].ceiling < rest then pcs[0].ceiling else rest
  }

  /** The first entry for id, else the channel's own ceiling. */
  function CeilingFor(pcs: seq<PartCeiling>, id: string, own: int): int {
    if pcs == [] then own
    else if pcs[0].id == id then pcs[0].ceiling
    else CeilingFor(pcs[1..], id, own)
  }

  function PartsOf(id: string, milli: int, composite: seq<Part>): seq<Part> {
    if |composite| > 0 then composite else [Part(id, milli)]
  }

  function Limit(s: Sense, p: Part): int {
    CeilingFor(s.partCeil, p.id, s.ceiling) * 1000
  }

  /** Some readable part is at or above its own ceiling. */
  ghost predicate AtCeiling(s: Sense) {
    exists p :: p in s.parts && p.value >= Limit(s, p)
  }

  /** Every readable part is more than CEILING_RECOVER degrees below its ceiling. */
  ghost predicate AllClear(s: Sense) {
    forall p :: p in s.parts ==> p.value < Limit(s, p) - CEILING_RECOVER * 1000
  }

  // ---- one cycle, step by step ----

  function Resolved(s: Sense, r: Resolution): Sense {
    match r
    case None => s
    case Some(pcs) => s.(resolved := true, partCeil := pcs, ceiling := LowestCeiling(pcs))
  }

  /** The read of one cycle: retry an unresolved sensor, read, judge plausibility. */
  function ReadSensor(s: Sense, id: string, retry: Resolution, reading: Reading): Sense {
    var s1 := if s.resolved then s else Resolved(s, retry);
    if !s1.resolved || reading.ReadError? || !(MIN_PLAUSIBLE <= reading.milli <= MAX_PLAUSIBLE)
    then s1.(tempOK := false)
    else s1.(temp := reading.milli, tempOK := true, parts := PartsOf(id, reading.milli, reading.composite))
  }

  /** A resolved sensor that gave no reading is resolved again. */
  function Recheck(s: Sense, again: Resolution): Sense {
    if !s.tempOK && s.resolved then Resolved(s, again) else s
  }

  function ReadRpm(f: Fan, hasTach: bool, tach: Option<nat>): Fan {
    f.(rpm := if hasTach && tach.Some? then tach.value else -1)
  }

  function HeldTemp(p: Post, temp: int, hysteresis: int): Post {
    if hysteresis <= 0 || !p.heldOK then p.(held := temp, heldOK := true)
    else if Abs(temp - p.held) >= hysteresis * 1000 then p.(held := temp)
    else p
  }

  function MinOnHold(p: Post, minOn: int, curve: int, now: int): Post {
    var running := p.hold.on && now < p.hold.until;
    var hold :=
      if minOn <= 0 then p.hold.(on := false)
      else if p.haveCurve && curve > p.lastCurve && (!running || curve > p.hold.target)
      then Holding(true, curve, now, now + minOn)
      else p.hold.(on := running);
    p.(lastCurve := curve, haveCurve := true, hold := hold)
  }

  /** The target a hold leaves the channel with. */
  function HoldOutput(h: Holding, curve: int): int {
    if h.on && h.target > curve then h.target else curve
  }

  function Emergency(h: Heat, fanStopped: bool, d: Daemon): Heat {
    if h.fired || !d.emergency || d.emergencyCycles <= 0 then h
    else if (fanStopped && h.cycles >= d.emergencyCycles) || h.cycles >= 3 * d.emergencyCycles
    then h.(fired := true, hookRuns := h.hookRuns + 1)
    else h
  }

  /** Whether a good reading leaves the channel in the ceiling state. */
  ghost predicate StaysHot(hit: bool, s: Sense) {
    if hit then !AllClear(s) else AtCeiling(s)
  }

  ghost function CeilingHeat(h: Heat, s: Sense, fanStopped: bool, d: Daemon): Heat {
    if StaysHot(h.hit, s)
    then Emergency(h.(hit := true, cycles := if h.hit then h.cycles + 1 else 1), fanStopped, d)
    else if h.hit then h.(hit := false, cycles := 0, fired := false)
    else h
  }

  /** Curve and hold of a good reading; an override ends a hold. */
  function CurvePost(c: Chan, override: bool, now: int): Post {
    var p1 := HeldTemp(c.post, c.sense.temp, c.cfg.hysteresis);
    var p2 := MinOnHold(p1, c.cfg.minOn, Duty(c.cfg.curve, p1.held), now);
    if override then p2.(hold := p2.hold.(on := false)) else p2
  }

  /** The target of a good reading before the ceiling rule: curve and hold, override, critical. */
  function RegulatedDrive(c: Chan, override: Option<int>, now: int): Drive {
    var p1 := HeldTemp(c.post, c.sense.temp, c.cfg.hysteresis);
    var curve := Duty(c.cfg.curve, p1.held);
    if c.sense.temp >= c.cfg.critical * 1000 then c.drive.(target := 255, mode := Critical)
    else if override.Some? then c.drive.(target := override.value, mode := Manual)
    else c.drive.(target := HoldOutput(MinOnHold(p1, c.cfg.minOn, curve, now).hold, curve), mode := Auto)
  }

  ghost function ComputeTarget(c: Chan, override: Option<int>, now: int, d: Daemon): Chan {
    if !c.sense.tempOK then
      c.(post := c.post.(heldOK := false, haveCurve := false, hold := c.post.hold.(on := false)),
         drive := c.drive.(mode := SensorError, target := if c.heat.hit then 255 else SafeDuty(c.cfg)))
    else
      var heat := CeilingHeat(c.heat, c.sense, c.hasTach && c.fan.stalled, d);
      var post := CurvePost(c, override.Some?, now);
      if heat.hit
      then c.(heat := heat, post := post.(hold := post.hold.(on := false)),
              drive := c.drive.(target := 255, mode := Critical))
      else c.(heat := heat, post := post, drive := RegulatedDrive(c, override, now))
  }

  /** Whether the stall rule sends the channel to 255 this cycle. */
  predicate StallActs(f: Fan, dr: Drive, d: Daemon) {
    f.stalled || (f.rpm == 0 && dr.written && dr.cur >= d.stallMinDuty && f.stallCnt + 1 >= d.stallCycles)
  }

  function StallFan(f: Fan, dr: Drive, d: Daemon): Fan {
    if f.stalled then
      var recov := if f.rpm > 0 then f.recov + 1 else 0;
      if recov >= STALL_RECOVER_CYCLES then Fan(f.rpm, 0, false, 0) else f.(recov := recov)
    else if f.rpm == 0 && dr.written && dr.cur >= d.stallMinDuty then
      f.(stallCnt := f.stallCnt + 1, stalled := f.stallCnt + 1 >= d.stallCycles)
    else f.(stallCnt := 0)
  }

  function CheckStall(c: Chan, d: Daemon): Chan {
    if !c.hasTach then c
    else c.(fan := StallFan(c.fan, c.drive, d),
            drive := if StallActs(c.fan, c.drive, d) then c.drive.(target := 255, mode := Stall) else c.drive)
  }

  function NextDuty(dr: Drive, d: Daemon, n: nat): int {
    if n > 0 && dr.mode == Auto && dr.cur >= 0 then Slew(dr.cur, dr.target, d.stepUp, d.stepDown) else dr.target
  }

  predicate Attempts(dr: Drive, d: Daemon, n: nat) {
    NextDuty(dr, d, n) != dr.cur || n % REWRITE_EVERY == 0
  }

  /** The write phase for one channel; ok is the outcome of the write, if one is made. */
  function WriteStep(dr: Drive, d: Daemon, n: nat, ok: bool): Drive {
    if !Attempts(dr, d, n) then dr
    else if ok then dr.(cur := NextDuty(dr, d, n), written := true)
    else dr.(cur := -1)
  }

  /** In a dry run the duty shown is the chip's own. */
  function ShowDuty(dr: Drive, duty: Option<int>): Drive {
    if duty.Some? && 0 <= duty.value <= 255 then dr.(cur := duty.value) else dr
  }

  /** The failsafe write; in a dry run the write only pretends and the duty stays. */
  function FailsafeStep(dr: Drive, dryRun: bool, ok: bool): Drive {
    if dryRun then Drive(dr.cur, dr.written, 255, Failsafe)
    else if ok then Drive(255, true, 255, Failsafe)
    else Drive(-1, dr.written, 255, Failsafe)
  }

  /** retimeHolds: a changed min_on moves the end of a running hold. */
  function Retime(h: Holding, oldMinOn: int, minOn: int, now: int): Holding {
    if !h.on || minOn == oldMinOn then h
    else if minOn <= 0 then h.(on := false)
    else h.(until := if h.start + minOn > now then h.start + minOn else now)
  }

  /**
   * swapChannelConfig and retimeHolds: a changed sensor id drops everything that was
   * judged on the old reading.
   */
  function SwapConfig(c: Chan, cc: ChannelConfig, sensor: Resolution, pcs: seq<PartCeiling>, now: int): Chan {
    var changed := cc.sensor != c.cfg.sensor;
    var post := if changed then c.post.(heldOK := false, haveCurve := false, hold := c.post.hold.(on := false))
      else c.post;
    c.(cfg := cc,
       sense := Sense(if changed then sensor.Some? else c.sense.resolved, c.sense.temp, c.sense.tempOK,
                      LowestCeiling(pcs), pcs, if changed then [] else c.sense.parts),
       heat := if changed then Heat(false, 0, false, c.heat.hookRuns) else c.heat,
       post := post.(hold := Retime(post.hold, c.cfg.minOn, cc.minOn, now)))
  }

  // ---- the class ----

  /** The fields are kept in the groups above; every method updates them in place. */
  class Channel {
    var cfg: ChannelConfig
    const hasTach: bool
    var drive: Drive
    var sense: Sense
    var fan: Fan
    var heat: Heat
    var post: Post

    ghost function View(): Chan
      reads this
    {
      Chan(cfg, hasTach, drive, sense, fan, heat, post)
    }

    /** A channel as buildChannels makes it; duty is what the chip reports, if readable. */
    constructor (cc: ChannelConfig, tach: bool, duty: Option<int>, sensor: Resolution, pcs: seq<PartCeiling>)
      ensures View() == Fresh(cc, tach, duty, sensor, pcs)
    {
      cfg, hasTach := cc, tach;
      drive := Drive(255, false, 255, Auto);
      if duty.Some? && 0 <= duty.value <= 255 {
        drive := Drive(duty.value, false, 255, Auto);
      }
      sense := Sense(sensor.Some?, 0, false, LowestCeiling(pcs), pcs, []);
      fan := Fan(-1, 0, false, 0);
      heat := Heat(false, 0, false, 0);
      post := Post(0, false, 0, false, Holding(false, 0, 0, 0));
    }

    method Resolve(r: Resolution)
      modifies `sense
      ensures sense == Resolved(old(sense), r)
    {
      if r.Some? {
        sense := sense.(resolved := true, partCeil := r.value, ceiling := LowestCeiling(r.value));
      }
    }

    method Read(retry: Resolution, reading: Reading)
      modifies `sense
      ensures sense == ReadSensor(old(sense), cfg.sensor, retry, reading)
    {
      sense := sense.(tempOK := false);
      if !sense.resolved {
        Resolve(retry);
      }
      if !sense.resolved { return; }
      match reading {
        case ReadError =>
        case Value(v, composite) =>
          if MIN_PLAUSIBLE <= v <= MAX_PLAUSIBLE {
            sense := sense.(temp := v, tempOK := true, parts := PartsOf(cfg.sensor, v, composite));
          }
      }
    }

    method RecheckAndTach(again: Resolution, tach: Option<nat>)
      modifies `sense, `fan
      ensures sense == Recheck(old(sense), again) && fan == ReadRpm(old(fan), hasTach, tach)
    {
      if !sense.tempOK && sense.resolved {
        Resolve(again);
      }
      fan := fan.(rpm := -1);
      if hasTach && tach.Some? {
        fan := fan.(rpm := tach.value);
      }
    }

    method Hold() returns (t: int)
      modifies `post
      ensures post == HeldTemp(old(post), sense.temp, cfg.hysteresis) && t == post.held
    {
      if cfg.hysteresis <= 0 || !post.heldOK {
        post := post.(held := sense.temp, heldOK := true);
        return post.held;
      }
      var d := sense.temp - post.held;
      if d >= cfg.hysteresis * 1000 || -d >= cfg.hysteresis * 1000 {
        post := post.(held := sense.temp);
      }
      return post.held;
    }

    method HoldMinOn(curve: int, now: int) returns (out: int)
      modifies `post
      ensures post == MinOnHold(old(post), cfg.minOn, curve, now) && out == HoldOutput(post.hold, curve)
    {
      var prev, havePrev := post.lastCurve, post.haveCurve;
      post := post.(lastCurve := curve, haveCurve := true);
      if cfg.minOn <= 0 {
        post := post.(hold := post.hold.(on := false));
        return curve;
      }
      if post.hold.on && now >= post.hold.until {
        post := post.(hold := post.hold.(on := false));
      }
      if havePrev && curve > prev && (!post.hold.on || curve > post.hold.target) {
        post := post.(hold := Holding(true, curve, now, now + cfg.minOn));
      }
      if post.hold.on && post.hold.target > curve {
        return post.hold.target;
      }
      return curve;
    }

    /** The part that exceeds its own ceiling by most, and whether every part is clear. */
    method HottestPart() returns (hot: Option<Part>, allBelow: bool)
      ensures hot.Some? <==> AtCeiling(sense)
      ensures hot.Some? ==> hot.value in sense.parts && hot.value.value >= Limit(sense, hot.value)
      ensures hot.Some? ==> forall p :: p in sense.parts ==>
                p.value - Limit(sense, p) <= hot.value.value - Limit(sense, hot.value)
      ensures allBelow <==> AllClear(sense)
    {
      hot, allBelow := None, true;
      var excess := 0;
      var parts := sense.parts;
      for i := 0 to |parts|
        invariant allBelow <==> forall p :: p in parts[..i] ==> p.value < Limit(sense, p) - CEILING_RECOVER * 1000
        invariant hot.None? ==> forall p :: p in parts[..i] ==> p.value < Limit(sense, p)
        invariant hot.Some? ==> hot.value in parts[..i] && excess == hot.value.value - Limit(sense, hot.value) >= 0
        invariant hot.Some? ==> forall p :: p in parts[..i] ==> p.value - Limit(sense, p) <= excess
      {
        assert parts[..i + 1] == parts[..i] + [parts[i]];
        var p := parts[i];
        var limit := CeilingFor(sense.partCeil, p.id, sense.ceiling) * 1000;
        if p.value >= limit - CEILING_RECOVER * 1000 {
          allBelow := false;
        }
        if p.value >= limit && (hot.None? || p.value - limit > excess) {
          hot, excess := Some(p), p.value - limit;
        }
      }
      assert parts[..|parts|] == parts;
    }

    method RunEmergency(d: Daemon)
      modifies `heat
      ensures heat == Emergency(old(heat), hasTach && fan.stalled, d)
    {
      if heat.fired || !d.emergency || d.emergencyCycles <= 0 { return; }
      if (hasTach && fan.stalled && heat.cycles >= d.emergencyCycles) || heat.cycles >= 3 * d.emergencyCycles {
        heat := heat.(fired := true, hookRuns := heat.hookRuns + 1);
      }
    }

    method JudgeCeiling(d: Daemon)
      modifies `heat, `drive, `post
      ensures heat == CeilingHeat(old(heat), sense, hasTach && fan.stalled, d)
      ensures drive == if heat.hit then old(drive).(target := 255, mode := Critical) else old(drive)
      ensures post == if heat.hit then old(post).(hold := old(post).hold.(on := false)) else old(post)
    {
      var hot, allBelow := HottestPart();
      if !heat.hit && hot.Some? {
        heat := heat.(hit := true, cycles := 0);
      } else if heat.hit && allBelow {
        heat := heat.(hit := false, cycles := 0, fired := false);
      }
      if !heat.hit { return; }
      drive := drive.(target := 255, mode := Critical);
      post := post.(hold := post.hold.(on := false));
      heat := heat.(cycles := heat.cycles + 1);
      RunEmergency(d);
    }

    method SetTarget(override: Option<int>, now: int, d: Daemon)
      modifies `post, `drive, `heat
      ensures View() == ComputeTarget(old(View()), override, now, d)
    {
      if !sense.tempOK {
        post := post.(heldOK := false, haveCurve := false, hold := post.hold.(on := false));
        drive := drive.(target := SafeDuty(cfg), mode := SensorError);
        if heat.hit { drive := drive.(target := 255); }
        return;
      }
      drive := drive.(mode := Auto);
      var t := Hold();
      var curve := Interpolate(cfg.curve, t);
      var out := HoldMinOn(curve, now);
      drive := drive.(target := out);
      if override.Some? {
        post := post.(hold := post.hold.(on := false));
        drive := drive.(target := override.value, mode := Manual);
      }
      if sense.temp >= cfg.critical * 1000 {
        drive := drive.(target := 255, mode := Critical);
      }
      JudgeCeiling(d);
    }

    method WatchFan(d: Daemon)
      modifies `drive, `fan
      ensures View() == CheckStall(old(View()), d)
    {
      if !hasTach { return; }
      if fan.stalled {
        drive := drive.(target := 255, mode := Stall);
        fan := fan.(recov := if fan.rpm > 0 then fan.recov + 1 else 0);
        if fan.recov >= STALL_RECOVER_CYCLES {
          fan := fan.(stalled := false, stallCnt := 0, recov := 0);
        }
      } else if fan.rpm == 0 && drive.written && drive.cur >= d.stallMinDuty {
        fan := fan.(stallCnt := fan.stallCnt + 1);
        if fan.stallCnt >= d.stallCycles {
          fan := fan.(stalled := true);
          drive := drive.(target := 255, mode := Stall);
        }
      } else {
        fan := fan.(stallCnt := 0);
      }
    }

    /** Slews and writes; reports whether a write was made. ok is its outcome. */
    method Write(d: Daemon, n: nat, ok: bool) returns (attempted: bool)
      modifies `drive
      ensures drive == WriteStep(old(drive), d, n, ok) && attempted == Attempts(old(drive), d, n)
    {
      var next := drive.target;
      if n > 0 && drive.mode == Auto && drive.cur >= 0 {
        next := Slew(drive.cur, drive.target, d.stepUp, d.stepDown);
      }
      attempted := next != drive.cur || n % REWRITE_EVERY == 0;
      if attempted {
        if ok {
          drive := drive.(cur := next, written := true);
        } else {
          drive := drive.(cur := -1);
        }
      }
    }

    method Show(duty: Option<int>)
      modifies `drive
      ensures drive == ShowDuty(old(drive), duty)
    {
      if duty.Some? && 0 <= duty.value <= 255 { drive := drive.(cur := duty.value); }
    }

    method FullSpeed(dryRun: bool, ok: bool)
      modifies `drive
      ensures drive == FailsafeStep(old(drive), dryRun, ok)
    {
      drive := drive.(mode := Failsafe, target := 255);
      if !dryRun {
        if ok {
          drive := drive.(cur := 255, written := true);
        } else {
          drive := drive.(cur := -1);
        }
      }
    }

    method RetimeHold(oldMinOn: int, now: int)
      modifies `post
      ensures post == old(post).(hold := Retime(old(post).hold, oldMinOn, cfg.minOn, now))
    {
      if !post.hold.on || cfg.minOn == oldMinOn { return; }
      if cfg.minOn <= 0 {
        post := post.(hold := post.hold.(on := false));
      } else if post.hold.start + cfg.minOn > now {
        post := post.(hold := post.hold.(until := post.hold.start + cfg.minOn));
      } else {
        post := post.(hold := post.hold.(until := now));
      }
    }

    method Swap(cc: ChannelConfig, sensor: Resolution, pcs: seq<PartCeiling>, now: int)
      modifies `cfg, `sense, `heat, `post
      ensures View() == SwapConfig(old(View()), cc, sensor, pcs, now)
    {
      var oldMinOn := cfg.minOn;
      if cc.sensor != cfg.sensor {
        sense := sense.(resolved := sensor.Some?, parts := []);
        post := post.(heldOK := false, haveCurve := false, hold := post.hold.(on := false));
        heat := heat.(hit := false, cycles := 0, fired := false);
      }
      cfg := cc;
      sense := sense.(ceiling := LowestCeiling(pcs), partCeil := pcs);
      RetimeHold(oldMinOn, now);
    }
  }

  function Fresh(cc: ChannelConfig, tach: bool, duty: Option<int>, sensor: Resolution, pcs: seq<PartCeiling>): Chan {
    var cur := if duty.Some? && 0 <= duty.value <= 255 then duty.value else 255;
    Chan(cc, tach, Drive(cur, false, 255, Auto), Sense(sensor.Some?, 0, false, LowestCeiling(pcs), pcs, []),
         Fan(-1, 0, false, 0), Heat(false, 0, false, 0), Post(0, false, 0, false, Holding(false, 0, 0, 0)))
  }
}
