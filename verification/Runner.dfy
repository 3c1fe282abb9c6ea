/**
 * internal/validate/runner.go: the writing tests of the EC validation against any
 * environment. The environment is an arbitrary infinite list of answers, one for every
 * question the runner asks; the trace records every command sent and the abort.
 */
module Running {
  import opened Wrappers
  import opened Eval

  datatype Command =
    | Manual(ch: int)
    | Write(ch: int, duty: int)
    | Auto(ch: int)
    | Restore(ch: int)

  /** A command with whether the environment accepted it and in which answer, or the end of the run. */
  datatype Record = Sent(cmd: Command, ok: bool, at: nat) | Abort

  datatype Readings = Readings(
    fan: map<int, int>, tctl: Option<real>, nvme: Option<real>, hdd: Option<real>, input: Option<real>)

  /** What the machine answers once: time passed, success, values, sleep, other writers. */
  datatype Answer = Answer(
    elapsed: nat, ok: bool, unverified: bool, readings: Readings, dcr: Option<seq<int>>,
    awake: bool, cancelled: bool, otherWriter: bool)

  const LIMIT_TCTL := 85.0
  const LIMIT_NVME := 70.0
  const LIMIT_HDD := 50.0
  const LOST_AFTER := 3
  const PCIE_CHANNEL := 4
  const T1_STEPS := [255, 217, 179, 140]
  const WANT := ["H", "M"]

  /** The time after so many answers. */
  function Clock(answers: nat -> Answer, at: nat): int {
    if at == 0 then 0 else Clock(answers, at - 1) + answers(at - 1).elapsed
  }

  class Env {
    const answers: nat -> Answer
    var at: nat
    var clock: int
    ghost var trace: seq<Record>

    ghost predicate OnTime()
      reads this
    {
      clock == Clock(answers, at)
    }

    constructor (script: nat -> Answer)
      ensures trace == [] && OnTime()
    {
      answers, at, clock, trace := script, 0, 0, [];
    }

    method Ask() returns (a: Answer)
      modifies `at, `clock
      ensures a == answers(old(at)) && at == old(at) + 1 && clock == old(clock) + a.elapsed
      ensures old(OnTime()) ==> OnTime()
    {
      a := answers(at);
      at := at + 1;
      clock := clock + a.elapsed;
    }

    method Send(cmd: Command) returns (ok: bool, unverified: bool)
      modifies `at, `clock, `trace
      ensures trace == old(trace) + [Sent(cmd, ok, old(at))] && at == old(at) + 1
      ensures old(OnTime()) ==> OnTime()
    {
      ghost var first := at;
      var a := Ask();
      unverified := cmd.Restore? && !a.ok && a.unverified;
      ok := a.ok || unverified;
      trace := trace + [Sent(cmd, ok, first)];
    }
  }

  // ---- what a trace must be ----

  ghost predicate DutiesOK(tr: seq<Record>) {
    forall i :: 0 <= i < |tr| && tr[i].Sent? ==>
      1 <= tr[i].cmd.ch <= 4 && (tr[i].cmd.Write? ==> MIN_DUTY <= tr[i].cmd.duty <= 255)
  }

  /** A command that puts a channel back: its stop state, or full speed for the overheated one. */
  predicate Restoring(cmd: Command, hot: int) {
    cmd.Restore? || (hot > 0 && cmd.ch == hot && (cmd.Manual? || cmd == Write(hot, 255)))
  }

  /** After an abort only restores are sent. */
  ghost predicate OnlyRestoresAfterAbort(tr: seq<Record>, hot: int) {
    forall i, j :: 0 <= i < j < |tr| && tr[i].Abort? && tr[j].Sent? ==> Restoring(tr[j].cmd, hot)
  }

  /** The last command on a channel. */
  ghost function Last(tr: seq<Record>, ch: int): Option<Record> {
    if tr == [] then None
    else
      var e := tr[|tr| - 1];
      if e.Sent? && e.cmd.ch == ch then Some(e) else Last(tr[..|tr| - 1], ch)
  }

  /** The last command was this one, and it was accepted. */
  ghost predicate Did(last: Option<Record>, cmd: Command) {
    last.Some? && last.value.Sent? && last.value.cmd == cmd && last.value.ok
  }

  /** The last command on a channel restored it; the overheated one may be at 255 instead. */
  ghost predicate InSafeState(last: Option<Record>, hot: int) {
    last.Some? ==> last.value.Sent? && last.value.ok
                   && (last.value.cmd.Restore? || (hot > 0 && last.value.cmd == Write(hot, 255)))
  }

  /** What is safe while no channel is overheated stays so when one is. */
  lemma HotGrows(tr: seq<Record>, hot: int)
    ensures OnlyRestoresAfterAbort(tr, 0) ==> OnlyRestoresAfterAbort(tr, hot)
    ensures forall ch :: InSafeState(Last(tr, ch), 0) ==> InSafeState(Last(tr, ch), hot)
  {
    hide Last;
  }

  lemma LastAppend(tr: seq<Record>, e: Record, ch: int)
    ensures Last(tr + [e], ch) == if e.Sent? && e.cmd.ch == ch then Some(e) else Last(tr, ch)
  {
    assert (tr + [e])[..|tr|] == tr;
  }

  datatype Sample = Sample(offGrid: bool, dcr: Option<seq<int>>, input: Option<real>)

  /** One sampled slot with its due time in seconds after the anchor. */
  datatype Row = Row(s: Sample, due: real)

  datatype Config = Config(
    channel: int, tachs: seq<int>, hold: int, sample: int, observe: int, window: int, repeat: nat, tolerance: int)

  datatype Outcome = NotApplicable | NotRun | Judged(verdict: Verdict)

  /** Register n of a dump of DCR1..DCR5. */
  function RegOf(dcr: Option<seq<int>>, n: int): Option<int> {
    if dcr.Some? && 1 <= n <= |dcr.value| then (if dcr.value[n - 1] < 0 then None else Some(dcr.value[n - 1])) else None
  }

  function ChannelReg(ch: int): int { if ch == 4 then 5 else ch }

  /** The sensors an abort limit stands on. */
  function Sensors(rd: Readings): seq<(string, Option<real>)> {
    [("tctl", rd.tctl), ("nvme", rd.nvme), ("hdd", rd.hdd)]
  }

  function Due(k: int, step: int): real { (k * step) as real / 1000.0 }

  /** The samples of one register among the judged rows. */
  function Series(rows: seq<Row>, reg: int): seq<DcrSample> {
    if rows == [] then []
    else
      var row := rows[|rows| - 1];
      var v := if row.s.offGrid then None else RegOf(row.s.dcr, reg);
      Series(rows[..|rows| - 1], reg) + if v.Some? then [DcrSample(row.due, v.value)] else []
  }

  function Inputs(rows: seq<Row>): seq<Option<real>> {
    seq(|rows|, i requires 0 <= i < |rows| => rows[i].s.input)
  }

  // ---- what a phase recorded ----

  /** One slot of the grid: read into a row at that answer, or skipped, its time past by then. */
  datatype Slot = Taken(row: Row, at: nat) | Late(at: nat)

  /**
   * One phase of sampling: the answers from..to of the environment, the table input known
   * before it, how many slots it was to have, and what became of slots 1, 2, ... in order.
   */
  datatype Phase = Phase(from: nat, to: nat, before: Option<real>, planned: nat, slots: seq<Slot>)
  {
    function Rows(): seq<Row> { RowsOf(slots) }
  }

  function RowsOf(slots: seq<Slot>): seq<Row> {
    if slots == [] then []
    else
      var last := slots[|slots| - 1];
      RowsOf(slots[..|slots| - 1]) + if last.Taken? then [last.row] else []
  }

  /** Skipped slots and rows read off the grid. */
  function GapsOf(slots: seq<Slot>): nat {
    if slots == [] then 0
    else
      var last := slots[|slots| - 1];
      GapsOf(slots[..|slots| - 1]) + if last.Late? || last.row.s.offGrid then 1 else 0
  }

  /** How many slots a phase of this length has. */
  function Planned(d: int, step: int): nat
    requires step > 0
  {
    if d / step < 1 then 1 else d / step
  }

  /** The row is what the environment answered at that point. */
  ghost predicate TakenAt(s: Sample, answers: nat -> Answer, at: nat, dcrOK: bool) {
    s.input == answers(at).readings.input && s.dcr == if dcrOK then answers(at + 1).dcr else None
  }

  /** How far the clock stands past the due time after so many answers. */
  function Past(answers: nat -> Answer, at: nat, due: int): int { Clock(answers, at) - due }

  /**
   * Slot k is skipped exactly when the clock is past its due time by more than the tolerance
   * before it is read; a row further off than that either way is marked.
   */
  ghost predicate SlotOK(o: Slot, k: nat, anchor: int, answers: nat -> Answer, dcrOK: bool, cfg: Config) {
    var due := anchor + k * cfg.sample;
    match o
    case Late(at) => Past(answers, at + 1, due) > cfg.tolerance
    case Taken(row, at) =>
      && Past(answers, at, due) <= cfg.tolerance
      && TakenAt(row.s, answers, at, dcrOK) && row.due == Due(k, cfg.sample)
      && (row.s.offGrid <==>
            Past(answers, at + 1, due) > cfg.tolerance || Past(answers, at + 1, due) < -cfg.tolerance)
  }

  /** Every slot from the first on has its outcome, in the order of the answers. */
  ghost predicate Recorded(ph: Phase, answers: nat -> Answer, dcrOK: bool, cfg: Config) {
    && ph.from <= ph.to && |ph.slots| <= ph.planned
    && (forall i :: 0 <= i < |ph.slots| ==>
          && ph.from <= ph.slots[i].at < ph.to
          && SlotOK(ph.slots[i], i + 1, Clock(answers, ph.from), answers, dcrOK, cfg))
    && (forall i, j :: 0 <= i < j < |ph.slots| ==> ph.slots[i].at < ph.slots[j].at)
  }

  /** Every command was sent outside this phase. */
  ghost predicate Undisturbed(ph: Phase, tr: seq<Record>) {
    forall e :: e in tr && e.Sent? ==> e.at < ph.from || ph.to <= e.at
  }

  /** The phases follow each other through the answers, and no command was sent in one. */
  ghost predicate PhasesOK(
    phases: seq<Phase>, tr: seq<Record>, answers: nat -> Answer, at: nat, dcrOK: bool, cfg: Config)
  {
    && (forall i :: 0 <= i < |phases| ==>
          Recorded(phases[i], answers, dcrOK, cfg) && phases[i].to <= at && Undisturbed(phases[i], tr))
    && (forall i, j :: 0 <= i < j < |phases| ==> phases[i].to <= phases[j].from)
    && (forall e :: e in tr && e.Sent? ==> e.at < at)
  }

  lemma PhasesGrow(
    phases: seq<Phase>, ph: Phase, tr: seq<Record>, answers: nat -> Answer, before: nat, at: nat, dcrOK: bool,
    cfg: Config)
    requires PhasesOK(phases, tr, answers, before, dcrOK, cfg) && Recorded(ph, answers, dcrOK, cfg)
    requires before <= ph.from && ph.to <= at
    ensures PhasesOK(phases + [ph], tr, answers, at, dcrOK, cfg)
  {
    assert ph.from <= ph.to;
    hide Recorded;
  }

  lemma SlotsGrow(slots: seq<Slot>, o: Slot)
    ensures RowsOf(slots + [o]) == RowsOf(slots) + if o.Taken? then [o.row] else []
    ensures GapsOf(slots + [o]) == GapsOf(slots) + if o.Late? || o.row.s.offGrid then 1 else 0
  {
    assert (slots + [o])[..|slots|] == slots;
  }

  lemma RecordedGrows(ph: Phase, to: nat, o: Slot, answers: nat -> Answer, dcrOK: bool, cfg: Config)
    requires Recorded(ph, answers, dcrOK, cfg) && ph.to <= o.at < to && |ph.slots| < ph.planned
    requires SlotOK(o, |ph.slots| + 1, Clock(answers, ph.from), answers, dcrOK, cfg)
    ensures Recorded(ph.(to := to, slots := ph.slots + [o]), answers, dcrOK, cfg)
  {
    hide SlotOK, Clock;
  }

  // ---- the data of the hand-back test ----

  /** One sub-run: what was written, at which answer, and the two phases it recorded. */
  datatype SubData = SubData(kind: string, duty: int, wroteAt: nat, autoAt: nat, held: Phase, seen: Phase)

  /** The accepted write began the first phase, the accepted automatic command the second. */
  ghost predicate Commanded(d: SubData, ch: int, tr: seq<Record>) {
    && Sent(Write(ch, d.duty), true, d.wroteAt) in tr && d.held.from == d.wroteAt + 1
    && Sent(Auto(ch), true, d.autoAt) in tr && d.held.to <= d.autoAt && d.seen.from == d.autoAt + 1
  }

  /** The phase came to its end: each slot it was to have is a row or a skipped one. */
  predicate Complete(ph: Phase, d: int, cfg: Config) {
    cfg.sample > 0 && |ph.slots| == ph.planned == Planned(d, cfg.sample)
  }

  /** Both phases of the sub-run came to their end. */
  predicate Sampled(d: SubData, cfg: Config) {
    Complete(d.held, cfg.hold, cfg) && Complete(d.seen, cfg.observe + 120_000, cfg)
  }

  ghost predicate RepDone(ds: seq<SubData>, cfg: Config, tr: seq<Record>, whole: bool) {
    forall d :: d in ds ==> Commanded(d, cfg.channel, tr) && (whole ==> Sampled(d, cfg))
  }

  ghost predicate RunsDone(data: seq<seq<SubData>>, cfg: Config, tr: seq<Record>, whole: bool) {
    forall ds :: ds in data ==> RepDone(ds, cfg, tr, whole)
  }

  lemma DoneLater(
    data: seq<seq<SubData>>, cfg: Config, tr: seq<Record>, later: seq<Record>, whole: bool, still: bool)
    requires RunsDone(data, cfg, tr, whole) && tr <= later && (still ==> whole)
    ensures RunsDone(data, cfg, later, still)
  {
    hide Sampled;
    forall ds | ds in data ensures RepDone(ds, cfg, later, still) {
      assert RepDone(ds, cfg, tr, whole);
    }
  }

  /** A per register: its last value in the pre window. */
  function AutoOf(rows: seq<Row>, ch: int): map<int, int> {
    map n | n in JudgedRegs(ch) && Series(rows, n) != [] :: Series(rows, n)[|Series(rows, n)| - 1].dcr
  }

  /** The table input crossed a step between the start of a phase and the end of the rows. */
  ghost predicate Crossed(ch: int, before: Option<real>, rows: seq<Row>) {
    Crosses(before, Inputs(rows), TableSteps(ch))
  }

  /** The log of register n of a sub-run. */
  ghost function LogOf(d: SubData, ch: int, n: int, pre: Phase): HandbackRun {
    var auto := AutoOf(pre.Rows(), ch);
    HandbackRun(d.kind, d.duty, Series(d.seen.Rows(), n), true, if n in auto then Some(auto[n]) else None,
                Crossed(ch, pre.before, pre.Rows()) || Crossed(ch, d.held.before, d.held.Rows() + d.seen.Rows()))
  }

  /** The sub-run's result is the evaluation of its recorded rows. */
  ghost predicate FromData(s: SubRun, d: SubData, ch: int, pre: Phase) {
    && s.kind == d.kind && FromRegs(s) && |s.regs| == |JudgedRegs(ch)|
    && forall k :: 0 <= k < |s.regs| ==> Evaluated(LogOf(d, ch, JudgedRegs(ch)[k], pre), s.regs[k])
  }

  ghost predicate RepFromData(subs: seq<SubRun>, ds: seq<SubData>, ch: int, pre: Phase) {
    |subs| == |ds| && forall k :: 0 <= k < |subs| ==> FromData(subs[k], ds[k], ch, pre)
  }

  ghost predicate RunsFromData(runs: seq<seq<SubRun>>, data: seq<seq<SubData>>, ch: int, pre: Phase) {
    |runs| == |data| && forall i :: 0 <= i < |runs| ==> RepFromData(runs[i], data[i], ch, pre)
  }

  /** A whole repetition: H with 255, then M with m. */
  predicate WholeRep(ds: seq<SubData>, m: int) {
    |ds| == 2 && ds[0].kind == "H" && ds[0].duty == 255 && ds[1].kind == "M" && ds[1].duty == m
  }

  function RepPhases(ds: seq<SubData>): seq<Phase> {
    if ds == [] then [] else RepPhases(ds[..|ds| - 1]) + [ds[|ds| - 1].held, ds[|ds| - 1].seen]
  }

  /** The phases of all sub-runs, in order. */
  function DataPhases(data: seq<seq<SubData>>): seq<Phase> {
    if data == [] then [] else DataPhases(data[..|data| - 1]) + RepPhases(data[|data| - 1])
  }

  lemma InputsJoin(a: seq<Row>, b: seq<Row>)
    ensures Inputs(a + b) == Inputs(a) + Inputs(b)
  {
  }

  class Runner {
    const env: Env
    const cfg: Config
    const dcrOK: bool
    var touched: set<int>
    var wrote: bool
    var aborted: bool
    var gaps: nat
    var limits: set<string>
    var nanRun: map<string, nat>
    var hot: int
    var lastInput: Option<real>
    var warnings: seq<int>
    ghost var phases: seq<Phase>

    /** After a temperature abort the channel of that sensor, in a run that wrote; else 0. */
    function HotChannel(): int
      reads this
    {
      if wrote then hot else 0
    }

    ghost predicate Valid()
      reads this, env
    {
      && 1 <= cfg.channel <= 4 && cfg.sample > 0 && 0 <= hot <= 3
      && DutiesOK(env.trace) && OnlyRestoresAfterAbort(env.trace, HotChannel())
      && PhasesOK(phases, env.trace, env.answers, env.at, dcrOK, cfg) && env.OnTime()
      && (aborted <==> Abort in env.trace)
      && touched <= {1, 2, 3, 4}
      && (forall ch :: ch !in touched ==> InSafeState(Last(env.trace, ch), HotChannel()))
      && (!dcrOK ==> !wrote && touched == {} && forall e :: e in env.trace ==> !e.Sent?)
    }

    /** Nothing but the abort mark was added. */
    twostate predicate NothingSent()
      reads this, env
    {
      && touched == old(touched) && wrote == old(wrote)
      && (env.trace == old(env.trace) || env.trace == old(env.trace) + [Abort])
      && (old(aborted) ==> aborted)
    }

    constructor (e: Env, c: Config, readable: bool)
      requires e.trace == [] && e.OnTime() && 1 <= c.channel <= 4 && c.sample > 0
      ensures Valid() && env == e && cfg == c && dcrOK == readable && !aborted && touched == {} && phases == []
    {
      env, cfg, dcrOK := e, c, readable;
      touched, wrote, aborted, gaps, limits, nanRun, hot, lastInput, warnings := {}, false, false, 0, {}, map[], 0,
        None, [];
      phases := [];
    }

    /** stop: the first reason wins. */
    method Stop()
      requires Valid()
      modifies `aborted, env`trace
      ensures Valid() && aborted && NothingSent()
    {
      if !aborted {
        aborted := true;
        MarkAbort(env.trace);
        PhasesMarked(phases, env.trace, env.answers, env.at, dcrOK, cfg);
        env.trace := env.trace + [Abort];
      }
    }

    lemma PhasesMarked(
      phs: seq<Phase>, tr: seq<Record>, answers: nat -> Answer, at: nat, readable: bool, c: Config)
      requires PhasesOK(phs, tr, answers, at, readable, c)
      ensures PhasesOK(phs, tr + [Abort], answers, at, readable, c)
    {
      hide Recorded;
    }

    lemma MarkAbort(tr: seq<Record>)
      ensures forall ch :: Last(tr + [Abort], ch) == Last(tr, ch)
    {
      forall ch ensures Last(tr + [Abort], ch) == Last(tr, ch) { LastAppend(tr, Abort, ch); }
    }

    // ---- sampling ----

    /** The reading of a limit sensor at or above its limit: the channel it belongs to. */
    function HotSensor(rd: Readings): (h: int)
      ensures 0 <= h <= 3
    {
      if rd.tctl.Some? && rd.tctl.value >= LIMIT_TCTL then 1
      else if rd.nvme.Some? && rd.nvme.value >= LIMIT_NVME then 2
      else if rd.hdd.Some? && rd.hdd.value >= LIMIT_HDD then 3
      else 0
    }

    function Misses(name: string): nat
      reads this
    {
      if name in nanRun then nanRun[name] else 0
    }

    /** A limit sensor that stays unreadable for LOST_AFTER samples ends the run. */
    method LimitLost(rd: Readings) returns (lost: bool)
      modifies `nanRun
      ensures lost <==> exists s :: s in Sensors(rd) && s.0 in limits && s.1.None? && old(Misses(s.0)) + 1 >= LOST_AFTER
      ensures !lost ==> forall s :: s in Sensors(rd) && s.0 in limits ==>
        Misses(s.0) == if s.1.Some? then 0 else old(Misses(s.0)) + 1
    {
      var sensors := Sensors(rd);
      for i := 0 to 3
        invariant forall k :: i <= k < 3 ==> Misses(sensors[k].0) == old(Misses(sensors[k].0))
        invariant forall k :: 0 <= k < i && sensors[k].0 in limits ==>
                    Misses(sensors[k].0) == (if sensors[k].1.Some? then 0
                      else old(Misses(sensors[k].0)) + 1) < LOST_AFTER
      {
        var (name, v) := sensors[i];
        if name in limits {
          nanRun := nanRun[name := if v.Some? then 0 else Misses(name) + 1];
          if v.None? && nanRun[name] >= LOST_AFTER {
            assert sensors[i] in Sensors(rd);
            return true;
          }
        }
      }
      return false;
    }

    /** The tach reads 0 while its channel's duty is above 0, or not known to be 0. */
    predicate Stalled(rd: Readings, dcr: Option<seq<int>>, n: int) {
      n in rd.fan && rd.fan[n] == 0 && !(1 <= n <= 4 && RegOf(dcr, ChannelReg(n)) == Some(0))
    }

    method FanStopped(rd: Readings, dcr: Option<seq<int>>) returns (stopped: bool)
      ensures stopped <==> exists n :: n in cfg.tachs && Stalled(rd, dcr, n)
    {
      for i := 0 to |cfg.tachs|
        invariant forall k :: 0 <= k < i ==> !Stalled(rd, dcr, cfg.tachs[k])
      {
        if Stalled(rd, dcr, cfg.tachs[i]) { return true; }
      }
      return false;
    }

    /** The safety limits: another writer, a sensor at its limit and a stopped fan always end the run. */
    method LimitReached(rd: Readings, otherWriter: bool, dcr: Option<seq<int>>) returns (abort: bool)
      modifies `nanRun, `hot
      ensures otherWriter || HotSensor(rd) > 0 || (exists n :: n in cfg.tachs && Stalled(rd, dcr, n)) ==> abort
      ensures hot == old(hot) || (old(hot) == 0 && hot == HotSensor(rd) && abort)
    {
      if otherWriter { return true; }
      var lost := LimitLost(rd);
      if lost { return true; }
      var h := HotSensor(rd);
      if h > 0 {
        if hot == 0 { hot := h; }
        return true;
      }
      abort := FanStopped(rd, dcr);
    }

    /** One sampled row, and whether a safety limit ends the run. */
    method TakeSample(due: Option<int>) returns (s: Sample, abort: bool)
      requires Valid()
      modifies `gaps, `nanRun, `hot, `lastInput, env`at, env`clock
      ensures Valid()
      ensures var a := env.answers(old(env.at));
              && (a.otherWriter || HotSensor(a.readings) > 0 ==> abort)
              && ((exists n :: n in cfg.tachs && Stalled(a.readings, s.dcr, n)) ==> abort)
              && s.input == a.readings.input == lastInput
      ensures TakenAt(s, env.answers, old(env.at), dcrOK) && env.at > old(env.at)
      ensures gaps == old(gaps) + if s.offGrid then 1 else 0
      ensures due.None? ==> !s.offGrid
      ensures due.Some? ==>
                var past := Past(env.answers, old(env.at) + 1, due.value);
                s.offGrid <==> past > cfg.tolerance || past < -cfg.tolerance
    {
      hide Stalled, HotSensor, PhasesOK, Clock, DutiesOK, Last, Recorded;
      ghost var start := env.at;
      var a := env.Ask();
      var offGrid := false;
      if due.Some? && (env.clock - due.value > cfg.tolerance || due.value - env.clock > cfg.tolerance) {
        offGrid := true;
        gaps := gaps + 1;
      }
      var dcr := None;
      if dcrOK {
        var d := env.Ask();
        dcr := d.dcr;
      }
      lastInput := a.readings.input;
      s := Sample(offGrid, dcr, a.readings.input);
      HotGrows(env.trace, HotSensor(a.readings));
      PhasesLater(phases, env.trace, env.answers, start, env.at, dcrOK, cfg);
      abort := LimitReached(a.readings, a.otherWriter, dcr);
    }

    /**
     * hold: samples on the grid of a phase; false on abort or cancel. A phase that ends well has
     * a row or a counted gap for each of its slots.
     */
    method Hold(d: int) returns (rows: seq<Row>, ok: bool)
      requires Valid()
      modifies `aborted, `gaps, `nanRun, `hot, `lastInput, `phases, env
      ensures Valid() && NothingSent() && (ok ==> aborted == old(aborted)) && (!ok ==> aborted)
      ensures |phases| == |old(phases)| + 1 && phases[..|old(phases)|] == old(phases)
      ensures
        var ph := phases[|old(phases)|];
        && ph.Rows() == rows && ph.before == old(lastInput) && ph.from == old(env.at) && ph.to <= env.at
        && ph.planned == Planned(d, cfg.sample) && (ok ==> |ph.slots| == ph.planned)
        && gaps == old(gaps) + GapsOf(ph.slots)
    {
      hide Recorded, PhasesOK, Planned, GapsOf, RowsOf, Clock, DutiesOK, OnlyRestoresAfterAbort, Last;
      ghost var start, before := env.at, lastInput;
      ghost var ph;
      rows, ok, ph := Slots(d);
      PhasesGrow(phases, ph, env.trace, env.answers, start, env.at, dcrOK, cfg);
      phases := phases + [ph];
      if !ok { Stop(); }
    }

    /** The slots of a phase; false when a safety limit or a cancellation ends it. */
    method Slots(d: int) returns (rows: seq<Row>, ok: bool, ghost ph: Phase)
      requires Valid()
      modifies `gaps, `nanRun, `hot, `lastInput, env`at, env`clock
      ensures Valid() && env.at >= old(env.at)
      ensures Recorded(ph, env.answers, dcrOK, cfg) && ph.Rows() == rows && ph.before == old(lastInput)
      ensures ph.from == old(env.at) && ph.to <= env.at && ph.planned == Planned(d, cfg.sample)
      ensures (ok ==> |ph.slots| == ph.planned) && gaps == old(gaps) + GapsOf(ph.slots)
    {
      hide TakenAt, Recorded, PhasesOK, Clock, DutiesOK, OnlyRestoresAfterAbort, Last, RowsOf, GapsOf, InSafeState;
      var n := if d / cfg.sample < 1 then 1 else d / cfg.sample;
      var anchor := env.clock;
      rows := [];
      ph := Phase(env.at, env.at, lastInput, n, []);
      NothingRecorded(ph, env.answers, dcrOK, cfg);
      for k := 1 to n + 1
        invariant Valid() && ph.from == old(env.at) <= ph.to <= env.at && ph.before == old(lastInput)
        invariant ph.planned == n && |ph.slots| == k - 1 && ph.Rows() == rows
        invariant Recorded(ph, env.answers, dcrOK, cfg) && gaps == old(gaps) + GapsOf(ph.slots)
      {
        var row;
        row, ok, ph := ReadSlot(k, anchor, ph);
        if row.Some? { rows := rows + [row.value]; }
        if !ok { return rows, false, ph; }
      }
      return rows, true, ph;
    }

    /** Slot k: skipped when its time has passed, else read; false when the phase ends in it. */
    method ReadSlot(k: nat, anchor: int, ghost ph: Phase) returns (row: Option<Row>, ok: bool, ghost next: Phase)
      requires Valid() && Recorded(ph, env.answers, dcrOK, cfg) && ph.to <= env.at
      requires |ph.slots| == k - 1 < ph.planned && anchor == Clock(env.answers, ph.from)
      modifies `gaps, `nanRun, `hot, `lastInput, env`at, env`clock
      ensures Valid() && Recorded(next, env.answers, dcrOK, cfg) && ph.to <= next.to <= env.at
      ensures next.from == ph.from && next.before == ph.before && next.planned == ph.planned
      ensures next.Rows() == ph.Rows() + (if row.Some? then [row.value] else []) && (ok ==> |next.slots| == k)
      ensures gaps + GapsOf(ph.slots) == old(gaps) + GapsOf(next.slots)
    {
      hide TakenAt, Recorded, PhasesOK, Clock, DutiesOK, OnlyRestoresAfterAbort, Last, RowsOf, GapsOf, Due, InSafeState;
      hide Stalled, HotSensor, Phase.Rows;
      var due := anchor + k * cfg.sample;
      ghost var at := env.at;
      var q := env.Ask();
      PhasesLater(phases, env.trace, env.answers, at, env.at, dcrOK, cfg);
      if env.clock - due > cfg.tolerance {
        gaps := gaps + 1;
        next := OneMore(ph, Late(at), env.at);
        return None, true, next;
      }
      if (due > env.clock && !q.awake) || (due <= env.clock && q.cancelled) { return None, false, ph; }
      at := env.at;
      var s, abort := TakeSample(Some(due));
      row := Some(Row(s, Due(k, cfg.sample)));
      next := OneMore(ph, Taken(row.value, at), env.at);
      return row, !abort, next;
    }

    /** The phase with one more slot. */
    ghost method OneMore(ph: Phase, o: Slot, to: nat) returns (next: Phase)
      requires Recorded(ph, env.answers, dcrOK, cfg) && ph.to <= o.at < to && |ph.slots| < ph.planned
      requires SlotOK(o, |ph.slots| + 1, Clock(env.answers, ph.from), env.answers, dcrOK, cfg)
      ensures next == ph.(to := to, slots := ph.slots + [o]) && Recorded(next, env.answers, dcrOK, cfg)
      ensures next.Rows() == ph.Rows() + if o.Taken? then [o.row] else []
      ensures GapsOf(next.slots) == GapsOf(ph.slots) + if o.Late? || o.row.s.offGrid then 1 else 0
    {
      hide *;
      RecordedGrows(ph, to, o, env.answers, dcrOK, cfg);
      SlotsGrow(ph.slots, o);
      next := ph.(to := to, slots := ph.slots + [o]);
      assert next.Rows() == RowsOf(next.slots) && ph.Rows() == RowsOf(ph.slots) by { RowsAre(next); RowsAre(ph); }
    }

    lemma RowsAre(ph: Phase)
      ensures ph.Rows() == RowsOf(ph.slots)
    {
    }

    lemma NothingRecorded(ph: Phase, answers: nat -> Answer, readable: bool, c: Config)
      requires ph.from <= ph.to && ph.slots == []
      ensures Recorded(ph, answers, readable, c) && ph.Rows() == [] && GapsOf(ph.slots) == 0
    {
    }

    lemma PhasesLater(
      phs: seq<Phase>, tr: seq<Record>, answers: nat -> Answer, at: nat, later: nat, readable: bool, c: Config)
      requires PhasesOK(phs, tr, answers, at, readable, c) && at <= later
      ensures PhasesOK(phs, tr, answers, later, readable, c)
    {
      hide Recorded;
    }

    // ---- commands ----

    lemma SendKeeps(tr: seq<Record>, e: Record, before: set<int>, hot: int)
      requires e.Sent? && 1 <= e.cmd.ch <= 4 && (e.cmd.Write? ==> MIN_DUTY <= e.cmd.duty <= 255)
      requires DutiesOK(tr) && OnlyRestoresAfterAbort(tr, hot) && (Restoring(e.cmd, hot) || Abort !in tr)
      requires forall ch :: ch !in before ==> InSafeState(Last(tr, ch), hot)
      ensures DutiesOK(tr + [e]) && OnlyRestoresAfterAbort(tr + [e], hot) && (Abort in tr + [e] <==> Abort in tr)
      ensures forall ch :: ch !in before + {e.cmd.ch} ==> InSafeState(Last(tr + [e], ch), hot)
      ensures Last(tr + [e], e.cmd.ch) == Some(e)
    {
      forall ch ensures Last(tr + [e], ch) == if e.cmd.ch == ch then Some(e) else Last(tr, ch) {
        LastAppend(tr, e, ch);
      }
    }

    lemma PhasesSent(
      phs: seq<Phase>, tr: seq<Record>, e: Record, answers: nat -> Answer, at: nat, later: nat, readable: bool,
      c: Config)
      requires PhasesOK(phs, tr, answers, at, readable, c) && at < later && e.Sent? && e.at == at
      ensures PhasesOK(phs, tr + [e], answers, later, readable, c)
    {
      hide Recorded;
    }

    /** Sends one test command; the channel counts as touched from before the attempt. */
    method Command(cmd: Command) returns (ok: bool)
      requires Valid() && dcrOK && !aborted && 1 <= cmd.ch <= 4 && !cmd.Restore?
      requires cmd.Write? ==> MIN_DUTY <= cmd.duty <= 255
      modifies `touched, `wrote, env
      ensures Valid() && cmd.ch in touched && old(touched) <= touched
      ensures touched == old(touched) + {cmd.ch}
      ensures env.trace == old(env.trace) + [Sent(cmd, ok, old(env.at))] && env.at == old(env.at) + 1
    {
      hide PhasesOK, Clock;
      HotGrows(env.trace, hot);
      touched := touched + {cmd.ch};
      if !cmd.Auto? { wrote := true; }
      ghost var tr := env.trace;
      ghost var at := env.at;
      var unverified;
      ok, unverified := env.Send(cmd);
      SendKeeps(tr, Sent(cmd, ok, at), old(touched), HotChannel());
      PhasesSent(phases, tr, Sent(cmd, ok, at), env.answers, at, env.at, dcrOK, cfg);
    }

    /** write refuses a duty outside 100..255 before anything is sent. */
    method WriteDuty(ch: int, duty: int) returns (ok: bool)
      requires Valid() && dcrOK && !aborted && 1 <= ch <= 4
      modifies `touched, `wrote, env
      ensures Valid() && old(touched) <= touched <= old(touched) + {ch}
      ensures !(MIN_DUTY <= duty <= 255) ==> !ok && env.trace == old(env.trace) && touched == old(touched)
      ensures ok ==>
                env.trace == old(env.trace) + [Sent(Write(ch, duty), true, old(env.at))] && env.at == old(env.at) + 1
      ensures old(env.trace) <= env.trace && (ok ==> ch in touched)
    {
      if duty < MIN_DUTY || duty > 255 { return false; }
      ok := Command(Write(ch, duty));
    }

    // ---- putting channels back ----

    /** Sends one restoring command for a touched channel. */
    method SendRestoring(cmd: Command) returns (ok: bool)
      requires Valid() && dcrOK && cmd.ch in touched && Restoring(cmd, HotChannel())
      modifies `warnings, env
      ensures Valid() && env.trace == old(env.trace) + [Sent(cmd, ok, old(env.at))]
      ensures Last(env.trace, cmd.ch) == Some(Sent(cmd, ok, old(env.at)))
      ensures forall ch :: ch != cmd.ch ==> Last(env.trace, ch) == Last(old(env.trace), ch)
    {
      hide PhasesOK, Clock;
      ghost var tr := env.trace;
      ghost var at := env.at;
      var unverified;
      ok, unverified := env.Send(cmd);
      if unverified { warnings := warnings + [cmd.ch]; }
      SendKeeps(tr, Sent(cmd, ok, at), touched, HotChannel());
      PhasesSent(phases, tr, Sent(cmd, ok, at), env.answers, at, env.at, dcrOK, cfg);
      forall ch | ch != cmd.ch ensures Last(env.trace, ch) == Last(tr, ch) {
        LastAppend(tr, Sent(cmd, ok, at), ch);
      }
    }

    /** restore: the stop state, or 255 for the channel that overheated. */
    method PutBack(ch: int) returns (ok: bool)
      requires Valid() && dcrOK && ch in touched
      modifies `warnings, env
      ensures Valid() && Last(env.trace, ch).Some? && old(env.trace) <= env.trace
      ensures ok ==> Did(Last(env.trace, ch), if ch == HotChannel() then Write(ch, 255) else Restore(ch))
      ensures forall c :: c != ch ==> Last(env.trace, c) == Last(old(env.trace), c)
    {
      hide PhasesOK, DutiesOK, OnlyRestoresAfterAbort, Last, Clock;
      if ch == HotChannel() {
        ok := SendRestoring(Manual(ch));
        if ok { ok := SendRestoring(Write(ch, 255)); }
      } else {
        ok := SendRestoring(Restore(ch));
      }
    }

    /** Every channel is safe or still listed, and the overheated one is at 255 or listed. */
    ghost predicate Closed()
      reads this, env
    {
      && (forall ch :: ch in touched || InSafeState(Last(env.trace, ch), HotChannel()))
      && (HotChannel() > 0 ==>
            HotChannel() in touched || Did(Last(env.trace, HotChannel()), Write(HotChannel(), 255)))
    }

    /** Close: on every exit path of the caller, as often as wanted. */
    method Close()
      requires Valid()
      modifies `touched, `warnings, env
      ensures Valid() && Closed()
    {
      var h := HotChannel();
      if h > 0 {
        touched := touched + {h};
      }
      for ch := 1 to 5
        invariant Valid() && wrote == old(wrote) && hot == old(hot)
        invariant h > 0 ==> h in touched || Did(Last(env.trace, h), Write(h, 255))
      {
        if ch in touched {
          var ok := PutBack(ch);
          if ok { touched := touched - {ch}; }
        }
      }
    }

    /** The channels the run could not put back, in ascending order. */
    method Unrestored() returns (out: seq<int>)
      requires Valid()
      ensures forall ch :: ch in out <==> ch in touched
    {
      out := [];
      for ch := 1 to 5
        invariant forall c :: c in out <==> c in touched && c < ch
      {
        if ch in touched { out := out + [ch]; }
      }
    }

    // ---- the procedures ----

    /** The gate window: samples only. */
    method Gates(readable: set<string>) returns (ok: bool)
      requires Valid()
      modifies `aborted, `gaps, `nanRun, `hot, `lastInput, `limits, `phases, env
      ensures Valid() && NothingSent()
    {
      hide PhasesOK, DutiesOK, OnlyRestoresAfterAbort, Last, Clock, RowsOf, Phase.Rows, Stalled, HotSensor;
      if aborted { return false; }
      var s, abort := TakeSample(None);
      if abort {
        Stop();
        return false;
      }
      var rows;
      rows, ok := Hold(cfg.window);
      if ok { limits := readable; }
    }

    /** The mapping test; true when its data is complete. */
    method RunT1() returns (done: bool)
      requires Valid()
      modifies this, env
      ensures Valid()
      ensures !dcrOK || old(aborted) ==> !done && env.trace == old(env.trace) && touched == old(touched)
    {
      hide PhasesOK, DutiesOK, OnlyRestoresAfterAbort, Last, Clock, RowsOf, Phase.Rows, Complete, InSafeState;
      if !dcrOK || aborted { return false; }
      var ch := cfg.channel;
      assert 1 <= ch <= 4;
      var rest, ok := Hold(cfg.hold);
      if !ok { return false; }
      ok := Command(Manual(ch));
      if !ok { return false; }
      for i := 0 to |T1_STEPS|
        invariant Valid() && !aborted && ch in touched
      {
        var rows, sent;
        ghost var at;
        rows, sent, ok, at := SendThenHold(Write(ch, T1_STEPS[i]), cfg.hold);
        if !ok { return false; }
      }
      assert RunsDone([], cfg, env.trace, !aborted);
      Release([]);
      return true;
    }

    /** A command and the phase that begins with it; sent tells whether the command was accepted. */
    method SendThenHold(cmd: Command, d: int) returns (rows: seq<Row>, sent: bool, ok: bool, ghost at: nat)
      requires Valid() && dcrOK && !aborted && cmd.ch == cfg.channel && !cmd.Restore?
      requires cmd.Write? ==> MIN_DUTY <= cmd.duty <= 255
      modifies this, env
      ensures Valid() && old(touched) <= touched && (sent ==> cmd.ch in touched)
      ensures (ok <==> !aborted) && (ok ==> sent)
      ensures old(env.trace) <= env.trace && at == old(env.at) && (!sent ==> lastInput == old(lastInput))
      ensures sent ==>
                && |phases| == |old(phases)| + 1 && phases[..|old(phases)|] == old(phases)
                && Sent(cmd, true, at) in env.trace
                && var ph := phases[|old(phases)|];
                && ph.from == at + 1 && ph.to <= env.at && ph.Rows() == rows && ph.before == old(lastInput)
                && (ok ==> Complete(ph, d, cfg))
    {
      hide PhasesOK, DutiesOK, OnlyRestoresAfterAbort, Last, Clock, Planned, GapsOf, RowsOf, InSafeState, Phase.Rows;
      at := env.at;
      if cmd.Write? {
        sent := WriteDuty(cmd.ch, cmd.duty);
      } else {
        sent := Command(cmd);
      }
      if !sent {
        Stop();
        return [], false, false, at;
      }
      ghost var tr := env.trace;
      assert tr[|tr| - 1] == Sent(cmd, true, at);
      rows, ok := Hold(d);
      assert env.trace[..|tr|] == tr;
    }

    /** The commands and the samples of a sub-run; its rows are judged once the observation has begun. */
    method SampleSub(name: string, duty: int)
      returns (held: seq<Row>, seen: seq<Row>, judged: bool, goOn: bool, ghost data: SubData)
      requires Valid() && dcrOK && !aborted && MIN_DUTY <= duty <= 255
      modifies this, env
      ensures Valid() && old(touched) <= touched && (goOn <==> !aborted) && (goOn ==> judged)
      ensures old(env.trace) <= env.trace && (goOn ==> Sampled(data, cfg))
      ensures judged ==>
                && data.kind == name && data.duty == duty && data.held.before == old(lastInput)
                && data.held.Rows() == held && data.seen.Rows() == seen
                && phases == old(phases) + [data.held, data.seen] && Commanded(data, cfg.channel, env.trace)
    {
      hide PhasesOK, DutiesOK, OnlyRestoresAfterAbort, Last, Clock, Planned, GapsOf, RowsOf, InSafeState, Phase.Rows;
      hide Complete;
      ghost var none := Phase(0, 0, None, 0, []);
      held, seen, data := [], [], SubData(name, duty, 0, 0, none, none);
      ghost var earlier := phases;
      assert 1 <= cfg.channel <= 4;
      var ok := Command(Manual(cfg.channel));
      if !ok {
        Stop();
        return held, seen, false, false, data;
      }
      ghost var wroteAt, autoAt;
      held, judged, ok, wroteAt := SendThenHold(Write(cfg.channel, duty), cfg.hold);
      if !ok { return held, seen, false, false, data; }
      ghost var write, first := env.trace, phases[|earlier|];
      seen, judged, ok, autoAt := SendThenHold(Auto(cfg.channel), cfg.observe + 120_000);
      if !judged { return held, seen, false, false, data; }
      data := SubData(name, duty, wroteAt, autoAt, first, phases[|earlier| + 1]);
      assert phases == earlier + [data.held, data.seen];
      assert env.trace[..|write|] == write;
      return held, seen, true, ok, data;
    }

    /** One sub-run: manual, write, hold, auto, observe; nothing when it is cut short. */
    method SubRunOf(name: string, duty: int, ghost pre: Phase, autoA: map<int, int>, crossA: bool)
      returns (sub: Option<SubRun>, goOn: bool, ghost data: SubData)
      requires Valid() && dcrOK && !aborted && MIN_DUTY <= duty <= 255
      requires autoA == AutoOf(pre.Rows(), cfg.channel) && crossA == Crossed(cfg.channel, pre.before, pre.Rows())
      modifies this, env
      ensures Valid() && old(touched) <= touched && (goOn <==> !aborted) && (goOn ==> sub.Some?)
      ensures sub.Some? ==> data.kind == name && data.duty == duty && FromData(sub.value, data, cfg.channel, pre)
      ensures sub.Some? ==>
                phases == old(phases) + [data.held, data.seen] && Commanded(data, cfg.channel, env.trace)
      ensures (goOn ==> Sampled(data, cfg)) && old(env.trace) <= env.trace
    {
      hide PhasesOK, DutiesOK, OnlyRestoresAfterAbort, Last, Series, Crosses, AutoOf, TableSteps, JudgedRegs, Evaluated;
      hide Valid, Clock, Planned, Sampled, Commanded, RowsOf;
      var ch := cfg.channel;
      assert 1 <= ch <= 4 by { ValidChannel(); }
      var reference := lastInput;
      var held, seen, judged;
      held, seen, judged, goOn, data := SampleSub(name, duty);
      if !judged { return None, goOn, data; }
      var cross := Crossing(reference, Inputs(held) + Inputs(seen), TableSteps(ch));
      InputsJoin(held, seen);
      var runs := Logs(name, duty, seen, autoA, crossA || cross);
      assert forall k :: 0 <= k < |runs| ==> runs[k] == LogOf(data, ch, JudgedRegs(ch)[k], pre);
      JudgesSome(ch);
      var s := EvalHandbackRegs(runs);
      return Some(s), goOn, data;
    }

    lemma ValidChannel()
      requires Valid()
      ensures 1 <= cfg.channel <= 4
    {
    }

    /** The logs of every judged register of a sub-run. */
    method Logs(
      name: string, duty: int, seen: seq<Row>, autoA: map<int, int>, crossed: bool)
      returns (runs: seq<HandbackRun>)
      ensures |runs| == |JudgedRegs(cfg.channel)|
      ensures forall k :: 0 <= k < |runs| ==>
                var n := JudgedRegs(cfg.channel)[k];
                runs[k] ==
                  HandbackRun(name, duty, Series(seen, n), true, if n in autoA then Some(autoA[n]) else None, crossed)
    {
      var regs := JudgedRegs(cfg.channel);
      runs := [];
      for i := 0 to |regs|
        invariant |runs| == i
        invariant forall k :: 0 <= k < i ==>
                    runs[k] == HandbackRun(name, duty, Series(seen, regs[k]), true,
                      if regs[k] in autoA then Some(autoA[regs[k]]) else None, crossed)
      {
        var n := regs[i];
        var known := if n in autoA then Some(autoA[n]) else None;
        runs := runs + [HandbackRun(name, duty, Series(seen, n), true, known, crossed)];
      }
    }

    /** The value of every judged register at the end of the pre window. */
    method AutoValues(pre: seq<Row>) returns (autoA: map<int, int>)
      ensures autoA == AutoOf(pre, cfg.channel)
    {
      hide Series;
      autoA := map[];
      var regs := JudgedRegs(cfg.channel);
      for i := 0 to |regs|
        invariant forall n :: n in autoA <==> n in regs[..i] && Series(pre, n) != []
        invariant forall n :: n in autoA ==> autoA[n] == Series(pre, n)[|Series(pre, n)| - 1].dcr
      {
        assert regs[..i + 1] == regs[..i] + [regs[i]];
        var p := Series(pre, regs[i]);
        if |p| > 0 { autoA := autoA[regs[i] := p[|p| - 1].dcr]; }
      }
      assert regs[..|regs|] == regs;
    }

    /** One repetition: the sub-runs H and M, until one is cut short. */
    method Repetition(m: int, ghost pre: Phase, autoA: map<int, int>, crossA: bool)
      returns (subs: seq<SubRun>, ghost ds: seq<SubData>)
      requires Valid() && dcrOK && !aborted && MIN_DUTY <= m <= 255
      requires autoA == AutoOf(pre.Rows(), cfg.channel) && crossA == Crossed(cfg.channel, pre.before, pre.Rows())
      modifies this, env
      ensures Valid() && old(touched) <= touched && RepFromData(subs, ds, cfg.channel, pre)
      ensures !aborted ==> WholeRep(ds, m) && phases == old(phases) + RepPhases(ds)
      ensures RepDone(ds, cfg, env.trace, !aborted) && old(env.trace) <= env.trace
    {
      hide PhasesOK, DutiesOK, OnlyRestoresAfterAbort, Last, AutoOf, Crossed, FromData, Clock, Sampled;
      subs, ds := [], [];
      var h, goOn;
      ghost var d;
      h, goOn, d := SubRunOf("H", 255, pre, autoA, crossA);
      if h.Some? { subs, ds := [h.value], [d]; }
      if !goOn { return; }
      ghost var d2;
      var s;
      s, goOn, d2 := SubRunOf("M", m, pre, autoA, crossA);
      if s.Some? { subs, ds := subs + [s.value], ds + [d2]; }
      if goOn { TwoPhases(d, d2); }
    }

    lemma TwoPhases(a: SubData, b: SubData)
      ensures RepPhases([a, b]) == [a.held, a.seen] + [b.held, b.seen]
    {
      assert [a, b][..1] == [a] && [a][..0] == [];
      assert RepPhases([a]) == [a.held, a.seen];
    }

    /** The repetitions, until the run is aborted. */
    method Repetitions(m: int, ghost pre: Phase, autoA: map<int, int>, crossA: bool)
      returns (all: seq<seq<SubRun>>, ghost data: seq<seq<SubData>>)
      requires Valid() && dcrOK && !aborted && MIN_DUTY <= m <= 255
      requires autoA == AutoOf(pre.Rows(), cfg.channel) && crossA == Crossed(cfg.channel, pre.before, pre.Rows())
      modifies this, env
      ensures Valid() && old(touched) <= touched && RunsFromData(all, data, cfg.channel, pre)
      ensures !aborted ==> |data| == cfg.repeat && (forall i :: 0 <= i < |data| ==> WholeRep(data[i], m))
      ensures !aborted ==> phases == old(phases) + DataPhases(data)
      ensures RunsDone(data, cfg, env.trace, !aborted) && old(env.trace) <= env.trace
    {
      hide PhasesOK, DutiesOK, OnlyRestoresAfterAbort, Last, AutoOf, Crossed, RepFromData, WholeRep, RepPhases;
      hide Clock, RepDone;
      all, data := [], [];
      var rep := 0;
      while rep < cfg.repeat && !aborted
        invariant Valid() && old(touched) <= touched && rep <= cfg.repeat && RunsFromData(all, data, cfg.channel, pre)
        invariant !aborted ==> |data| == rep && (forall i :: 0 <= i < |data| ==> WholeRep(data[i], m))
        invariant !aborted ==> phases == old(phases) + DataPhases(data)
        invariant RunsDone(data, cfg, env.trace, !aborted) && old(env.trace) <= env.trace
        decreases cfg.repeat - rep
      {
        ghost var ds, tr;
        tr := env.trace;
        var subs;
        subs, ds := Repetition(m, pre, autoA, crossA);
        WholeIsSome(subs, ds, m, cfg.channel, pre);
        DoneLater(data, cfg, tr, env.trace, true, !aborted);
        if |subs| > 0 {
          ghost var before := data;
          all, data := all + [subs], data + [ds];
          assert data[..|data| - 1] == before;
        }
        rep := rep + 1;
      }
    }

    lemma WholeIsSome(subs: seq<SubRun>, ds: seq<SubData>, m: int, ch: int, pre: Phase)
      requires RepFromData(subs, ds, ch, pre)
      ensures WholeRep(ds, m) ==> |subs| > 0
    {
    }

    /** The verdicts over the repetitions; an aborted run decides nothing. */
    method Verdicts(all: seq<seq<SubRun>>) returns (v2: Verdict, v3: Verdict)
      ensures v2 == (if aborted then Inconclusive else Aggregate(all, WANT, true))
      ensures v3 == (if aborted then Inconclusive else Aggregate(all, WANT, false))
    {
      v2, v3 := AggregateHandback(all, WANT);
      if aborted { v2, v3 := Inconclusive, Inconclusive; }
    }

    /**
     * T2 with T3 from the same data. A judged run that was not aborted recorded one pre
     * window and, for every repetition, both sub-runs; each result is the evaluation of those
     * rows, and the verdicts are the aggregate of the results.
     */
    method RunHandback()
      returns (
        t2: Outcome, t3: Outcome, ghost runs: seq<seq<SubRun>>, ghost data: seq<seq<SubData>>, ghost pre: Phase)
      requires Valid()
      modifies this, env
      ensures Valid()
      ensures !dcrOK || old(aborted) || cfg.channel == PCIE_CHANNEL ==>
                !t2.Judged? && !t3.Judged? && env.trace == old(env.trace) && touched == old(touched)
      ensures t2.Judged? <==> t3.Judged?
      ensures t2.Judged? ==>
                && RunsFromData(runs, data, cfg.channel, pre)
                && t2.verdict == (if aborted then Inconclusive else Aggregate(runs, WANT, true))
                && t3.verdict == (if aborted then Inconclusive else Aggregate(runs, WANT, false))
      ensures t2.Judged? && !aborted ==>
                && cfg.channel in AutoOf(pre.Rows(), cfg.channel)
                && |data| == cfg.repeat
                && (forall i :: 0 <= i < |data| ==>
                  WholeRep(data[i], MValue(AutoOf(pre.Rows(), cfg.channel)[cfg.channel])))
                && phases == old(phases) + [pre] + DataPhases(data)
      ensures t2.Judged? ==>
                && pre.from > 0 && Sent(Auto(cfg.channel), true, pre.from - 1) in env.trace
                && Complete(pre, cfg.observe, cfg) && RunsDone(data, cfg, env.trace, !aborted)
    {
      hide PhasesOK, DutiesOK, OnlyRestoresAfterAbort, Last, RunsFromData, Crosses, Aggregate, MValue, Series;
      hide Clock, RunsDone, RowsOf, InSafeState, Phase.Rows, WholeRep, DataPhases, Complete;
      var ch := cfg.channel;
      runs, data, pre := [], [], Phase(0, 0, None, 0, []);
      if ch == PCIE_CHANNEL { return NotApplicable, NotApplicable, runs, data, pre; }
      if !dcrOK || aborted { return NotRun, NotRun, runs, data, pre; }
      var refA := lastInput;
      ghost var at;
      var rows, sent, ok;
      rows, sent, ok, at := SendThenHold(Auto(ch), cfg.observe);
      if !ok || |Series(rows, ch)| == 0 { return NotRun, NotRun, runs, data, pre; }
      pre := phases[|old(phases)|];
      assert phases == old(phases) + [pre];
      ghost var tr := env.trace;
      var crossA := Crossing(refA, Inputs(rows), TableSteps(ch));
      var autoA := AutoValues(rows);
      assert ch in JudgedRegs(ch) && ch in autoA;
      var m := MValue(autoA[ch]);
      var all;
      all, data := Repetitions(m, pre, autoA, crossA);
      runs := all;
      var v2, v3 := Verdicts(all);
      assert env.trace[..|tr|] == tr;
      Release(data);
      return Judged(v2), Judged(v3), runs, data, pre;
    }

    /** Puts the channel back after a test. */
    method Release(ghost data: seq<seq<SubData>>)
      requires Valid() && dcrOK && cfg.channel in touched && RunsDone(data, cfg, env.trace, !aborted)
      modifies `touched, `warnings, env
      ensures Valid() && touched <= old(touched)
      ensures RunsDone(data, cfg, env.trace, !aborted) && old(env.trace) <= env.trace
    {
      hide PhasesOK, DutiesOK, OnlyRestoresAfterAbort, Last, Clock, RunsDone;
      ghost var tr := env.trace;
      var ok := PutBack(cfg.channel);
      DoneLater(data, cfg, tr, env.trace, !aborted, !aborted);
      if ok { touched := touched - {cfg.channel}; }
    }
  }

  // ---- what a verdict says of the rows ----

  /** The log of a register shows the verdict. */
  ghost predicate Shows(r: HandbackRun, v: Verdict, t2: bool) {
    var smp := SortByTime(r.samples);
    match v
    case Pass => if t2 then T2Passes(r, smp) else T3Passes(r, smp)
    case Fail => if t2 then T2Fails(r, smp) else T3Fails(r, smp)
    case Inconclusive => false
  }

  ghost predicate SubShows(d: SubData, ch: int, pre: Phase, v: Verdict, t2: bool) {
    forall k :: 0 <= k < |JudgedRegs(ch)| ==> Shows(LogOf(d, ch, JudgedRegs(ch)[k], pre), v, t2)
  }

  /** Every judged register of every sub-run shows it. */
  ghost predicate EveryLog(data: seq<seq<SubData>>, ch: int, pre: Phase, v: Verdict, t2: bool) {
    forall i, j :: 0 <= i < |data| && 0 <= j < |data[i]| ==> SubShows(data[i][j], ch, pre, v, t2)
  }

  function VerdictOf(r: SubResult, t2: bool): Verdict { if t2 then r.t2 else r.t3 }

  lemma EvaluatedShows(r: HandbackRun, s: SubResult, v: Verdict, t2: bool)
    requires Evaluated(r, s) && v != Inconclusive
    ensures VerdictOf(s, t2) == v <==> Shows(r, v, t2)
  {
    hide Reports, SortByTime, T2Passes, T2Fails, T3Passes, T3Fails;
  }

  ghost predicate SubIs(s: SubRun, v: Verdict, t2: bool) { forall r :: r in s.regs ==> VerdictOf(r, t2) == v }

  lemma SubMeans(s: SubRun, d: SubData, ch: int, pre: Phase, v: Verdict, t2: bool)
    requires FromData(s, d, ch, pre) && 1 <= ch <= 4 && v != Inconclusive
    ensures s.regs != [] && s.kind == d.kind && FromRegs(s)
    ensures SubIs(s, v, t2) <==> SubShows(d, ch, pre, v, t2)
  {
    hide Evaluated, Shows, LogOf, FromRegs;
    JudgesSome(ch);
    forall k | 0 <= k < |s.regs|
      ensures VerdictOf(s.regs[k], t2) == v <==> Shows(LogOf(d, ch, JudgedRegs(ch)[k], pre), v, t2)
    {
      EvaluatedShows(LogOf(d, ch, JudgedRegs(ch)[k], pre), s.regs[k], v, t2);
    }
    assert forall k :: 0 <= k < |s.regs| ==> s.regs[k] in s.regs;
  }

  lemma JudgesSome(ch: int)
    ensures 1 <= ch <= 4 ==> JudgedRegs(ch) != []
  {
  }

  lemma RepMeans(subs: seq<SubRun>, ds: seq<SubData>, ch: int, pre: Phase, m: int, v: Verdict, t2: bool)
    requires RepFromData(subs, ds, ch, pre) && WholeRep(ds, m) && 1 <= ch <= 4 && v != Inconclusive
    ensures HasLabels(subs, WANT) && subs != [] && (forall s :: s in subs ==> FromRegs(s) && s.regs != [])
    ensures (forall s :: s in subs ==> SubIs(s, v, t2)) <==> forall j :: 0 <= j < |ds| ==>
      SubShows(ds[j], ch, pre, v, t2)
  {
    hide FromData, FromRegs, SubShows, SubIs, HasLabels;
    SubMeans(subs[0], ds[0], ch, pre, v, t2);
    SubMeans(subs[1], ds[1], ch, pre, v, t2);
    BothLabels(subs);
    forall s | s in subs ensures s == subs[0] || s == subs[1] {
      var k :| 0 <= k < |subs| && subs[k] == s;
    }
  }

  lemma BothLabels(subs: seq<SubRun>)
    requires |subs| == 2 && subs[0].kind == "H" && subs[1].kind == "M"
    ensures HasLabels(subs, WANT)
  {
    assert forall l :: l in WANT ==> l == "H" || l == "M";
    assert subs[0] in subs && subs[1] in subs;
  }

  /**
   * PASS (FAIL) exactly when there are three repetitions and every judged register of every
   * sub-run passes (fails) on the rows recorded for it.
   */
  lemma VerdictMeans(runs: seq<seq<SubRun>>, data: seq<seq<SubData>>, ch: int, pre: Phase, m: int, v: Verdict, t2: bool)
    requires RunsFromData(runs, data, ch, pre) && 1 <= ch <= 4 && v != Inconclusive
    requires forall i :: 0 <= i < |data| ==> WholeRep(data[i], m)
    ensures Aggregate(runs, WANT, t2) == v <==> |data| >= RUNS_REQUIRED && EveryLog(data, ch, pre, v, t2)
  {
    hide RepFromData, WholeRep, SubShows, HasLabels, FromRegs, Aggregate;
    forall i | 0 <= i < |runs|
      ensures HasLabels(runs[i], WANT) && runs[i] != [] && (forall s :: s in runs[i] ==> FromRegs(s) && s.regs != [])
      ensures (forall s :: s in runs[i] ==> SubIs(s, v, t2)) <==> forall j :: 0 <= j < |data[i]| ==>
        SubShows(data[i][j], ch, pre, v, t2)
    {
      RepMeans(runs[i], data[i], ch, pre, m, v, t2);
    }
    AggregateDecides(runs, WANT, v, t2);
  }

  // ---- whole runs ----

  datatype Op = DoGates(readable: set<string>) | DoT1 | DoHandback | DoStop

  /**
   * Any sequence of procedures and early stops against any environment, then Close: every
   * duty sent is in 100..255, nothing is sent with unreadable registers, only restores are
   * sent after an abort, and every channel that was commanded ends with a successful
   * restore, or at 255 if it overheated, or is listed as unrestored.
   */
  method Session(r: Runner, ops: seq<Op>) returns (unrestored: seq<int>)
    requires r.Valid()
    modifies r, r.env
    ensures DutiesOK(r.env.trace) && OnlyRestoresAfterAbort(r.env.trace, r.HotChannel())
    ensures !r.dcrOK ==> forall e :: e in r.env.trace ==> !e.Sent?
    ensures forall ch :: ch in unrestored || InSafeState(Last(r.env.trace, ch), r.HotChannel())
    ensures var h := r.HotChannel(); h > 0 ==> h in unrestored || Did(Last(r.env.trace, h), Write(h, 255))
  {
    for i := 0 to |ops|
      invariant r.Valid()
    {
      match ops[i] {
        case DoGates(readable) => var ok := r.Gates(readable);
        case DoT1 => var done := r.RunT1();
        case DoHandback =>
          ghost var runs, data, pre;
          var t2, t3;
          t2, t3, runs, data, pre := r.RunHandback();
        case DoStop => r.Stop();
      }
    }
    r.Close();
    unrestored := r.Unrestored();
  }
}
