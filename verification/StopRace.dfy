/**
 * The loop against Stop (internal/control/controller.go): every interleaving of the write
 * phase, the failsafe, a config swap and Stop at the grain of lock, check and single write.
 */
module StopRace {
  import opened Wrappers
  import opened Channels

  /** A command that reaches the hardware. */
  datatype Command =
    | Duty(ch: nat, duty: int)              // written by the loop
    | SafeStop(ch: nat, stop: StopState)    // written by Stop

  datatype Holder = Free | ByLoop | ByStop

  /** Where the loop goroutine is. */
  datatype LoopAt =
    | Outside
    | Locked                                       // holds hwMu, stopped not yet checked
    | Writing(next: nat)                           // passed the check, channel next is due
    | Swapping(next: nat, config: seq<StopState>)  // installs a config channel by channel
    | Dead                                         // panicked; deferred unlocks have run

  datatype StopAt = NotCalled | Waiting | Stopping(next: nat) | Done

  /**
   * cfg is ch.cfg.Stop of every channel; installed records every complete config the
   * channels had, latest last.
   */
  datatype State = State(
    mutex: Holder, stopped: bool, cfg: seq<StopState>, log: seq<Command>,
    loop: LoopAt, stop: StopAt, installed: seq<seq<StopState>>)

  datatype Action =
    | LoopLock                          // writePhase or failsafeAll takes hwMu
    | LoopCheck                         // tests stopped
    | LoopWrite(duty: Option<int>)      // writes the channel that is due, or skips it
    | LoopUnlock
    | SwapLock(config: seq<StopState>)  // swapChannelConfig takes hwMu
    | SwapOne
    | SwapUnlock
    | Panic
    | StopCall                          // stopped.Store(true)
    | StopLock
    | StopWrite
    | StopUnlock

  predicate Start(s: State) {
    && s.mutex == Free && !s.stopped && s.log == [] && s.loop == Outside && s.stop == NotCalled
    && s.installed == [s.cfg]
  }

  /** Nothing in a swap can panic; a panic anywhere else runs the deferred unlock. */
  predicate Enabled(s: State, a: Action) {
    match a
    case LoopLock => s.loop == Outside && s.mutex == Free
    case LoopCheck => s.loop == Locked
    case LoopWrite(_) => s.loop.Writing? && s.loop.next < |s.cfg|
    case LoopUnlock => s.loop.Writing?
    case SwapLock(config) => s.loop == Outside && s.mutex == Free && |config| == |s.cfg|
    case SwapOne => s.loop.Swapping? && s.loop.next < |s.cfg| && |s.loop.config| == |s.cfg|
    case SwapUnlock => s.loop.Swapping? && s.loop.next == |s.cfg|
    case Panic => !s.loop.Swapping? && s.loop != Dead
    case StopCall => s.stop == NotCalled
    case StopLock => s.stop == Waiting && s.mutex == Free
    case StopWrite => s.stop.Stopping? && s.stop.next < |s.cfg|
    case StopUnlock => s.stop.Stopping? && s.stop.next == |s.cfg|
  }

  function Next(s: State, a: Action): State
    requires Enabled(s, a)
  {
    match a
    case LoopLock => s.(mutex := ByLoop, loop := Locked)
    case LoopCheck => if s.stopped then s.(mutex := Free, loop := Outside) else s.(loop := Writing(0))
    case LoopWrite(duty) =>
      s.(loop := Writing(s.loop.next + 1),
         log := if duty.Some? then s.log + [Duty(s.loop.next, duty.value)] else s.log)
    case LoopUnlock => s.(mutex := Free, loop := Outside)
    case SwapLock(config) => s.(mutex := ByLoop, loop := Swapping(0, config))
    case SwapOne => s.(cfg := s.cfg[s.loop.next := s.loop.config[s.loop.next]],
      loop := s.loop.(next := s.loop.next + 1))
    case SwapUnlock => s.(mutex := Free, loop := Outside, installed := s.installed + [s.loop.config])
    case Panic => s.(mutex := if s.mutex == ByLoop then Free else s.mutex, loop := Dead)
    case StopCall => s.(stopped := true, stop := Waiting)
    case StopLock => s.(mutex := ByStop, stop := Stopping(0))
    case StopWrite =>
      s.(log := s.log + [SafeStop(s.stop.next, s.cfg[s.stop.next])], stop := Stopping(s.stop.next + 1))
    case StopUnlock => s.(mutex := Free, stop := Done)
  }

  ghost predicate Behaviour(s: State, acts: seq<Action>)
    decreases |acts|
  {
    acts == [] || (Enabled(s, acts[0]) && Behaviour(Next(s, acts[0]), acts[1..]))
  }

  ghost function After(s: State, acts: seq<Action>): State
    requires Behaviour(s, acts)
    decreases |acts|
  {
    if acts == [] then s else After(Next(s, acts[0]), acts[1..])
  }

  // ---- the invariant ----

  function SafeStops(cfg: seq<StopState>, n: nat): (r: seq<Command>)
    requires n <= |cfg|
    ensures |r| == n
  {
    seq(n, i requires 0 <= i < n => SafeStop(i, cfg[i]))
  }

  /** How many channels Stop has put into their safe state. */
  function Stopped(s: State): nat {
    match s.stop
    case Stopping(k) => k
    case Done => |s.cfg|
    case _ => 0
  }

  ghost predicate MutexOK(s: State) {
    && (s.mutex == ByLoop <==> s.loop == Locked || s.loop.Writing? || s.loop.Swapping?)
    && (s.mutex == ByStop <==> s.stop.Stopping?)
    && (s.stop != NotCalled <==> s.stopped)
    && (s.stop == Done ==> !s.loop.Writing?)
  }

  /** Between swaps the channels hold the latest complete config. */
  ghost predicate ConfigsOK(s: State) {
    && s.installed != [] && (forall c :: c in s.installed ==> |c| == |s.cfg|)
    && (s.loop.Swapping? ==>
          && |s.loop.config| == |s.cfg| && s.loop.next <= |s.cfg|
          && forall k :: 0 <= k < s.loop.next ==> s.cfg[k] == s.loop.config[k])
    && (s.mutex == ByStop ==> s.cfg == s.installed[|s.installed| - 1])
    && (!s.loop.Swapping? ==> s.cfg == s.installed[|s.installed| - 1])
  }

  ghost predicate NoStopIn(log: seq<Command>) {
    forall c :: c in log ==> c.Duty?
  }

  /** The log is loop writes, then Stop's writes so far, from one complete config. */
  ghost predicate LogOK(s: State) {
    exists writes, cfg :: LogSplit(s, writes, cfg)
  }

  ghost predicate LogSplit(s: State, writes: seq<Command>, cfg: seq<StopState>) {
    && NoStopIn(writes) && cfg in s.installed && |cfg| == |s.cfg| && Stopped(s) <= |s.cfg|
    && s.log == writes + SafeStops(cfg, Stopped(s))
    && (s.stop.Stopping? ==> cfg == s.installed[|s.installed| - 1])
  }

  ghost predicate Inv(s: State) {
    MutexOK(s) && ConfigsOK(s) && LogOK(s)
  }

  lemma StartInv(s: State)
    requires Start(s)
    ensures Inv(s)
  {
    assert LogSplit(s, [], s.cfg);
  }

  /** A write of the loop goes to the log before any safe stop. */
  lemma WriteStep(s: State, duty: Option<int>)
    requires Enabled(s, LoopWrite(duty)) && MutexOK(s) && LogOK(s)
    ensures LogOK(Next(s, LoopWrite(duty)))
  {
    var writes, cfg :| LogSplit(s, writes, cfg);
    assert Stopped(s) == 0 && SafeStops(cfg, 0) == [];
    var more := if duty.Some? then writes + [Duty(s.loop.next, duty.value)] else writes;
    assert LogSplit(Next(s, LoopWrite(duty)), more, cfg);
  }

  /** Stop picks the latest complete config and writes from it, channel by channel. */
  lemma SafeStep(s: State, a: Action)
    requires Enabled(s, a) && Inv(s) && (a.StopLock? || a.StopWrite?)
    ensures LogOK(Next(s, a))
  {
    var writes, cfg :| LogSplit(s, writes, cfg);
    if a.StopLock? {
      var latest := s.installed[|s.installed| - 1];
      assert SafeStops(cfg, 0) == SafeStops(latest, 0);
      assert LogSplit(Next(s, a), writes, latest);
    } else {
      var k := s.stop.next;
      assert SafeStops(cfg, k + 1) == SafeStops(cfg, k) + [SafeStop(k, cfg[k])];
      assert LogSplit(Next(s, a), writes, cfg);
    }
  }

  /** No other step touches the log. */
  lemma SilentStep(s: State, a: Action)
    requires Enabled(s, a) && Inv(s) && !a.LoopWrite? && !a.StopLock? && !a.StopWrite?
    ensures LogOK(Next(s, a))
  {
    var writes, cfg :| LogSplit(s, writes, cfg);
    hide SafeStops;
    assert LogSplit(Next(s, a), writes, cfg);
  }

  lemma LogStep(s: State, a: Action)
    requires Enabled(s, a) && Inv(s)
    ensures LogOK(Next(s, a))
  {
    hide LogOK, Enabled, MutexOK, ConfigsOK;
    match a
    case LoopWrite(duty) => WriteStep(s, duty);
    case StopLock => SafeStep(s, a);
    case StopWrite => SafeStep(s, a);
    case _ => SilentStep(s, a);
  }

  lemma InvStep(s: State, a: Action)
    requires Enabled(s, a) && Inv(s)
    ensures Inv(Next(s, a))
  {
    LogStep(s, a);
    hide LogOK;
    if a.SwapUnlock? {
      assert s.cfg == s.loop.config;
    }
  }

  lemma {:induction false} InvOverRun(s: State, acts: seq<Action>)
    requires Inv(s) && Behaviour(s, acts)
    ensures Inv(After(s, acts)) && |After(s, acts).cfg| == |s.cfg|
    decreases |acts|
  {
    if acts != [] {
      InvStep(s, acts[0]);
      InvOverRun(Next(s, acts[0]), acts[1..]);
    }
  }

  // ---- what every interleaving guarantees ----

  /** The last command that went to channel ch. */
  function LastCommand(log: seq<Command>, ch: nat): Option<Command> {
    if log == [] then None
    else if log[|log| - 1].ch == ch then Some(log[|log| - 1])
    else LastCommand(log[..|log| - 1], ch)
  }

  lemma {:induction false} LastAfterStops(writes: seq<Command>, cfg: seq<StopState>, n: nat, ch: nat)
    requires ch < n <= |cfg|
    ensures LastCommand(writes + SafeStops(cfg, n), ch) == Some(SafeStop(ch, cfg[ch]))
    decreases n
  {
    var log := writes + SafeStops(cfg, n);
    assert log[|log| - 1] == SafeStop(n - 1, cfg[n - 1]);
    assert log[..|log| - 1] == writes + SafeStops(cfg, n - 1);
    if ch < n - 1 {
      LastAfterStops(writes, cfg, n - 1, ch);
    }
  }

  /**
   * In every interleaving no duty is written once Stop has put a channel into its safe
   * state, and when Stop returns the last command on every channel is its safe stop, all
   * of them from one complete config: never half old, half new.
   */
  lemma StopWins(s: State, acts: seq<Action>)
    requires Start(s) && Behaviour(s, acts)
    ensures var t := After(s, acts);
            && (forall i, j :: 0 <= i < j < |t.log| && t.log[i].SafeStop? ==> t.log[j].SafeStop?)
            && (t.stop == Done ==>
                  exists cfg :: cfg in t.installed && |cfg| == |s.cfg| &&
                    forall ch: nat :: ch < |s.cfg| ==> LastCommand(t.log, ch) == Some(SafeStop(ch, cfg[ch])))
  {
    StartInv(s);
    InvOverRun(s, acts);
    var t := After(s, acts);
    var writes, cfg :| LogSplit(t, writes, cfg);
    assert forall i :: 0 <= i < |writes| ==> writes[i] in writes && t.log[i] == writes[i];
    if t.stop == Done {
      forall ch: nat | ch < |s.cfg|
        ensures LastCommand(t.log, ch) == Some(SafeStop(ch, cfg[ch]))
      {
        LastAfterStops(writes, cfg, |cfg|, ch);
      }
    }
  }

  /** More entries, none of them by the loop. */
  ghost predicate AddsStopsOnly(before: seq<Command>, after: seq<Command>) {
    exists more: seq<Command> :: after == before + more && forall i :: 0 <= i < |more| ==> more[i].SafeStop?
  }

  lemma AddsTrans(a: seq<Command>, b: seq<Command>, c: seq<Command>)
    requires AddsStopsOnly(a, b) && AddsStopsOnly(b, c)
    ensures AddsStopsOnly(a, c)
  {
    var x: seq<Command> :| b == a + x && forall i :: 0 <= i < |x| ==> x[i].SafeStop?;
    var y: seq<Command> :| c == b + y && forall i :: 0 <= i < |y| ==> y[i].SafeStop?;
    assert c == a + (x + y);
  }

  lemma StopStep(t: State, a: Action)
    requires MutexOK(t) && Enabled(t, a) && (t.stop.Stopping? || t.stop == Done)
    ensures (Next(t, a).stop.Stopping? || Next(t, a).stop == Done) && AddsStopsOnly(t.log, Next(t, a).log)
  {
    if a.StopWrite? {
      assert Next(t, a).log == t.log + [SafeStop(t.stop.next, t.cfg[t.stop.next])];
    } else {
      assert t.log == t.log + [];
    }
  }

  /** Stop holds the mutex or has returned: whatever happens next, the loop writes nothing. */
  lemma {:induction false} OnlyStopWrites(t: State, acts: seq<Action>)
    requires Inv(t) && Behaviour(t, acts) && (t.stop.Stopping? || t.stop == Done)
    ensures AddsStopsOnly(t.log, After(t, acts).log)
    decreases |acts|
  {
    if acts == [] {
      assert t.log == t.log + [];
    } else {
      InvStep(t, acts[0]);
      StopStep(t, acts[0]);
      hide Inv, Next, AddsStopsOnly;
      OnlyStopWrites(Next(t, acts[0]), acts[1..]);
      AddsTrans(t.log, Next(t, acts[0]).log, After(t, acts).log);
    }
  }

  /** From the moment Stop has the mutex nothing written by the loop enters the log, in any interleaving. */
  lemma SilentAfterLock(s: State, acts: seq<Action>, more: seq<Action>)
    requires Start(s) && Behaviour(s, acts) && Behaviour(After(s, acts), more)
    requires After(s, acts).stop.Stopping? || After(s, acts).stop == Done
    ensures AddsStopsOnly(After(s, acts).log, After(After(s, acts), more).log)
  {
    StartInv(s);
    InvOverRun(s, acts);
    hide Inv, Start;
    OnlyStopWrites(After(s, acts), more);
  }

  /** Steps Stop still needs once it is called, with the loop's remaining work before it. */
  function Remaining(s: State): nat {
    var loop := match s.loop
      case Locked => |s.cfg| + 2
      case Writing(k) => if k <= |s.cfg| then |s.cfg| - k + 1 else 1
      case Swapping(k, _) => if k <= |s.cfg| then |s.cfg| - k + 1 else 1
      case _ => 0;
    var stop := match s.stop
      case NotCalled => |s.cfg| + 3
      case Waiting => |s.cfg| + 2
      case Stopping(k) => if k <= |s.cfg| then |s.cfg| - k + 1 else 1
      case Done => 0;
    loop + stop
  }

  /**
   * No deadlock: until Stop has returned, the holder of the mutex, or Stop itself when it
   * is free, has a step that brings Stop's end nearer.
   */
  lemma StopNeverBlocked(s: State, acts: seq<Action>) returns (a: Action)
    requires Start(s) && Behaviour(s, acts) && After(s, acts).stop != Done
    ensures Enabled(After(s, acts), a) && Remaining(Next(After(s, acts), a)) < Remaining(After(s, acts))
  {
    StartInv(s);
    InvOverRun(s, acts);
    a := Advance(After(s, acts));
  }

  lemma Advance(t: State) returns (a: Action)
    requires MutexOK(t) && ConfigsOK(t) && t.stop != Done
    requires t.stop.Stopping? ==> t.stop.next <= |t.cfg|
    ensures Enabled(t, a) && Remaining(Next(t, a)) < Remaining(t)
  {
    match t.loop
    case Locked => a := LoopCheck;
    case Writing(k) => a := if k < |t.cfg| then LoopWrite(None) else LoopUnlock;
    case Swapping(k, _) => a := if k < |t.cfg| then SwapOne else SwapUnlock;
    case _ =>
      a := if t.stop == NotCalled then StopCall else if t.stop == Waiting then StopLock
           else if t.stop.next < |t.cfg| then StopWrite else StopUnlock;
  }
}
