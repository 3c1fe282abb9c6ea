/**
 * internal/validate/eval.go: the verdicts of the hand-back tests, from one register's log
 * over the registers of a sub-run and the sub-runs of a repetition to the whole test.
 * Times are seconds; an unreadable value is None.
 */
module Eval {
  import opened Numbers
  import opened Wrappers

  datatype Verdict = Pass | Fail | Inconclusive

  const LEAVE_COUNTS := 16
  const HOLD_COUNTS := 2
  const LEAVE_WITHIN := 60.0
  const OBSERVE := 900.0
  const SETTLE_BAND := 2
  const SETTLE_HOLD := 120.0
  const RUNS_REQUIRED := 3
  const MIN_DUTY := 100
  const MAX_M := 200
  const M_OFFSET := 48
  const CROSS_MARGIN := 2.0

  /** One duty-register reading, t after the auto command when the timing is known. */
  datatype DcrSample = DcrSample(t: real, dcr: int)

  /** The data of one sub-run of one register; crossed: the table input crossed a step. */
  datatype HandbackRun = HandbackRun(
    kind: string, written: int, samples: seq<DcrSample>, timingKnown: bool, auto: Option<int>, crossed: bool)

  datatype SubResult = SubResult(
    kind: string, left: bool, leftAt: Option<real>, maxDev: int, settleAt: Option<real>, finalValue: Option<int>,
    t2: Verdict, t3: Verdict)

  // ---- sorting by time, stable ----

  ghost predicate ByTime(s: seq<DcrSample>) {
    forall i, j :: 0 <= i < j < |s| ==> s[i].t <= s[j].t
  }

  /** sort.SliceStable: inserts behind the samples of the same time. */
  function InsertSample(s: seq<DcrSample>, x: DcrSample): (r: seq<DcrSample>)
    ensures |r| == |s| + 1
  {
    if s == [] then [x]
    else
      var n := |s| - 1;
      if s[n].t <= x.t then s + [x] else InsertSample(s[..n], x) + [s[n]]
  }

  lemma {:induction false} InsertInOrder(s: seq<DcrSample>, x: DcrSample)
    requires ByTime(s)
    ensures
      var r := InsertSample(s, x);
      ByTime(r) && r[|s|].t == if s == [] || x.t >= s[|s| - 1].t then x.t else s[|s| - 1].t
  {
    hide ByTime;
    if s == [] {
      InOrderAppend([], x);
      assert [] + [x] == [x];
    } else {
      var n := |s| - 1;
      if s[n].t <= x.t {
        InOrderAppend(s, x);
      } else {
        InOrderFront(s, n);
        InsertInOrder(s[..n], x);
        InOrderAppend(InsertSample(s[..n], x), s[n]);
      }
    }
  }

  lemma {:induction false} InsertAll(s: seq<DcrSample>, x: DcrSample)
    ensures multiset(InsertSample(s, x)) == multiset(s) + multiset{x}
  {
    if s != [] {
      var n := |s| - 1;
      assert s == s[..n] + [s[n]];
      if s[n].t > x.t { InsertAll(s[..n], x); }
    }
  }

  lemma InOrderFront(s: seq<DcrSample>, n: nat)
    requires ByTime(s) && n < |s|
    ensures ByTime(s[..n]) && (n > 0 ==> s[n - 1].t <= s[n].t)
  {
  }

  lemma InOrderAppend(s: seq<DcrSample>, x: DcrSample)
    requires s == [] || (ByTime(s) && s[|s| - 1].t <= x.t)
    ensures ByTime(s + [x])
  {
  }

  function SortByTime(s: seq<DcrSample>): (r: seq<DcrSample>)
    ensures ByTime(r) && multiset(r) == multiset(s) && |r| == |s|
  {
    if s == [] then []
    else
      var x, front := s[|s| - 1], SortByTime(s[..|s| - 1]);
      assert s == s[..|s| - 1] + [x];
      InsertInOrder(front, x);
      InsertAll(front, x);
      InsertSample(front, x)
  }

  // ---- what the verdicts mean, on the samples in order of time ----

  ghost predicate Leaves(x: DcrSample, written: int) {
    Abs(x.dcr - written) >= LEAVE_COUNTS
  }

  ghost predicate Stays(s: seq<DcrSample>, written: int) {
    forall i :: 0 <= i < |s| ==> Abs(s[i].dcr - written) <= HOLD_COUNTS
  }

  /** A fully observed window of SETTLE_HOLD from sample i on, within the band of its first value. */
  ghost predicate SteadyFrom(s: seq<DcrSample>, i: nat)
    requires i < |s|
  {
    && s[i].t + SETTLE_HOLD <= s[|s| - 1].t
    && forall j :: i <= j < |s| && s[j].t <= s[i].t + SETTLE_HOLD ==> Abs(s[j].dcr - s[i].dcr) <= SETTLE_BAND
  }

  predicate TooClose(r: HandbackRun) {
    r.auto.Some? && Abs(r.written - r.auto.value) < LEAVE_COUNTS
  }

  ghost predicate T2Passes(r: HandbackRun, s: seq<DcrSample>) {
    r.timingKnown && !r.crossed && !TooClose(r) && exists i ::
      0 <= i < |s| && Leaves(s[i], r.written) && s[i].t <= LEAVE_WITHIN
  }

  ghost predicate T2Fails(r: HandbackRun, s: seq<DcrSample>) {
    r.timingKnown && !r.crossed && !TooClose(r) && s != [] && Stays(s, r.written)
      && s[|s| - 1].t >= OBSERVE + SETTLE_HOLD
  }

  ghost predicate T3Passes(r: HandbackRun, s: seq<DcrSample>) {
    r.timingKnown && !r.crossed && exists i :: 0 <= i < |s| && SteadyFrom(s, i) && s[i].t <= OBSERVE
  }

  ghost predicate T3Fails(r: HandbackRun, s: seq<DcrSample>) {
    && r.timingKnown && !r.crossed && s != [] && !T3Passes(r, s)
    && (s[|s| - 1].t >= OBSERVE + SETTLE_HOLD || exists i :: 0 <= i < |s| && SteadyFrom(s, i))
  }

  /** The first sample that left the written value. */
  method FirstLeaving(s: seq<DcrSample>, written: int) returns (at: Option<nat>, maxDev: int, within: bool)
    ensures at.Some? ==> at.value < |s| && Leaves(s[at.value], written) && forall k :: 0 <= k < at.value ==>
      !Leaves(s[k], written)
    ensures at.None? ==> forall k :: 0 <= k < |s| ==> !Leaves(s[k], written)
    ensures within <==> Stays(s, written)
    ensures maxDev >= 0 && (forall k :: 0 <= k < |s| ==> Abs(s[k].dcr - written) <= maxDev)
    ensures maxDev > 0 ==> exists k :: 0 <= k < |s| && Abs(s[k].dcr - written) == maxDev
  {
    at, maxDev, within := None, 0, true;
    for i := 0 to |s|
      invariant at.Some? ==> at.value < i && Leaves(s[at.value], written) && forall k :: 0 <= k < at.value ==>
        !Leaves(s[k], written)
      invariant at.None? ==> forall k :: 0 <= k < i ==> !Leaves(s[k], written)
      invariant within <==> Stays(s[..i], written)
      invariant maxDev >= 0 && (forall k :: 0 <= k < i ==> Abs(s[k].dcr - written) <= maxDev)
      invariant maxDev > 0 ==> exists k :: 0 <= k < i && Abs(s[k].dcr - written) == maxDev
    {
      assert s[..i + 1] == s[..i] + [s[i]];
      var d := Abs(s[i].dcr - written);
      if d > maxDev { maxDev := d; }
      if d >= LEAVE_COUNTS && at.None? { at := Some(i); }
      if d > HOLD_COUNTS { within := false; }
    }
    assert s[..|s|] == s;
  }

  /** The first steady window. */
  method FirstSteady(s: seq<DcrSample>) returns (at: Option<nat>)
    requires ByTime(s)
    ensures at.Some? ==> at.value < |s| && SteadyFrom(s, at.value) && forall k :: 0 <= k < at.value ==>
      !SteadyFrom(s, k)
    ensures at.None? ==> forall k :: 0 <= k < |s| ==> !SteadyFrom(s, k)
  {
    for i := 0 to |s|
      invariant forall k :: 0 <= k < i ==> !SteadyFrom(s, k)
    {
      var end := s[i].t + SETTLE_HOLD;
      if end > s[|s| - 1].t { return None; }
      var ok := true;
      var j := i;
      while j < |s| && s[j].t <= end && ok
        invariant i <= j <= |s|
        invariant ok ==> forall k :: i <= k < j ==> Abs(s[k].dcr - s[i].dcr) <= SETTLE_BAND
        invariant !ok ==> j < |s| && s[j].t <= end && Abs(s[j].dcr - s[i].dcr) > SETTLE_BAND
        decreases |s| - j, ok
      {
        if Abs(s[j].dcr - s[i].dcr) > SETTLE_BAND { ok := false; } else { j := j + 1; }
      }
      if ok { return Some(i); }
    }
    return None;
  }

  /** Both verdicts of a register mean exactly what the samples show. */
  ghost predicate Judges(r: HandbackRun, s: SubResult) {
    var smp := SortByTime(r.samples);
    && (s.t2 == Pass <==> T2Passes(r, smp)) && (s.t2 == Fail <==> T2Fails(r, smp))
    && (s.t3 == Pass <==> T3Passes(r, smp)) && (s.t3 == Fail <==> T3Fails(r, smp))
  }

  /** The first sample that left the written value, if any, and the largest deviation. */
  ghost predicate Departs(s: seq<DcrSample>, written: int, at: Option<nat>, maxDev: int) {
    && (match at
        case None => forall k :: 0 <= k < |s| ==> !Leaves(s[k], written)
        case Some(i) => i < |s| && Leaves(s[i], written) && forall k :: 0 <= k < i ==> !Leaves(s[k], written))
    && maxDev >= 0 && (forall k :: 0 <= k < |s| ==> Abs(s[k].dcr - written) <= maxDev)
    && (maxDev > 0 ==> exists k :: 0 <= k < |s| && Abs(s[k].dcr - written) == maxDev)
  }

  /** The first sample a steady window starts at, if any. */
  ghost predicate Settles(s: seq<DcrSample>, at: Option<nat>) {
    match at
    case None => forall k :: 0 <= k < |s| ==> !SteadyFrom(s, k)
    case Some(i) => i < |s| && SteadyFrom(s, i) && forall k :: 0 <= k < i ==> !SteadyFrom(s, k)
  }

  /** The times and values a register's result reports. */
  ghost predicate Reports(r: HandbackRun, s: SubResult) {
    var smp := SortByTime(r.samples);
    && (exists at: Option<nat> :: Departs(smp, r.written, at, s.maxDev) && s.left == at.Some?
                     && s.leftAt == if at.Some? && r.timingKnown then Some(smp[at.value].t) else None)
    && (exists at: Option<nat> :: Settles(smp, at)
                     && s.settleAt == (if at.Some? then Some(smp[at.value].t) else None)
                     && s.finalValue == if at.Some? then Some(smp[at.value].dcr) else None)
  }

  ghost predicate Evaluated(r: HandbackRun, s: SubResult) { Judges(r, s) && Reports(r, s) }

  method JudgeT2(r: HandbackRun, smp: seq<DcrSample>) returns (v: Verdict, leftAt: Option<nat>, maxDev: int)
    requires ByTime(smp) && smp != []
    ensures (v == Pass <==> T2Passes(r, smp)) && (v == Fail <==> T2Fails(r, smp))
    ensures Departs(smp, r.written, leftAt, maxDev)
  {
    var within;
    leftAt, maxDev, within := FirstLeaving(smp, r.written);
    v := Inconclusive;
    if leftAt.Some? {
      if r.timingKnown && smp[leftAt.value].t <= LEAVE_WITHIN { v := Pass; }
    } else if within && r.timingKnown && smp[|smp| - 1].t >= OBSERVE + SETTLE_HOLD {
      v := Fail;
    }
    if TooClose(r) || r.crossed { v := Inconclusive; }
  }

  method JudgeT3(r: HandbackRun, smp: seq<DcrSample>) returns (v: Verdict, steady: Option<nat>)
    requires ByTime(smp) && smp != []
    ensures (v == Pass <==> T3Passes(r, smp)) && (v == Fail <==> T3Fails(r, smp))
    ensures Settles(smp, steady)
  {
    hide SteadyFrom;
    steady := FirstSteady(smp);
    v := Inconclusive;
    if steady.Some? && r.timingKnown {
      v := if smp[steady.value].t <= OBSERVE then Pass else Fail;
    } else if steady.None? && r.timingKnown && smp[|smp| - 1].t >= OBSERVE + SETTLE_HOLD {
      v := Fail;
    }
    if r.crossed { v := Inconclusive; }
  }

  /** One register of one sub-run. */
  method EvalHandback(r: HandbackRun) returns (s: SubResult)
    ensures s.kind == r.kind && Evaluated(r, s)
  {
    hide T2Passes, T2Fails, T3Passes, T3Fails, SortByTime, Leaves, SteadyFrom;
    if |r.samples| == 0 {
      NoSamples(r);
      assert Departs([], r.written, None, 0) && Settles([], None) && SortByTime(r.samples) == [];
      return SubResult(r.kind, false, None, 0, None, None, Inconclusive, Inconclusive);
    }
    var smp := SortByTime(r.samples);
    var t2, leftAt, maxDev := JudgeT2(r, smp);
    var t3, steady := JudgeT3(r, smp);
    s := SubResult(r.kind, leftAt.Some?,
                   if leftAt.Some? && r.timingKnown then Some(smp[leftAt.value].t) else None, maxDev,
                   if steady.Some? then Some(smp[steady.value].t) else None,
                   if steady.Some? then Some(smp[steady.value].dcr) else None, t2, t3);
    assert Departs(smp, r.written, leftAt, maxDev) && Settles(smp, steady);
  }

  lemma NoSamples(r: HandbackRun)
    requires |r.samples| == 0
    ensures var s := SortByTime(r.samples); !T2Passes(r, s) && !T2Fails(r, s) && !T3Passes(r, s) && !T3Fails(r, s)
  {
  }

  /** A log with known timing and no crossing that reaches 1020 s is always decided by T3. */
  lemma FullLogIsDecided(r: HandbackRun, s: seq<DcrSample>)
    requires r.timingKnown && !r.crossed && s != [] && s[|s| - 1].t >= OBSERVE + SETTLE_HOLD
    ensures T3Passes(r, s) != T3Fails(r, s)
  {
  }

  /** No log passes and fails the same test. */
  lemma VerdictsExclusive(r: HandbackRun, s: seq<DcrSample>)
    ensures !(T2Passes(r, s) && T2Fails(r, s)) && !(T3Passes(r, s) && T3Fails(r, s))
  {
  }

  // ---- parts that must all agree ----

  ghost predicate AllAre(vs: seq<Verdict>, v: Verdict) {
    vs != [] && forall x :: x in vs ==> x == v
  }

  method Combine(vs: seq<Verdict>) returns (v: Verdict)
    ensures v == Combined(vs)
  {
    if |vs| == 0 { return Inconclusive; }
    var pass := All(vs, Pass);
    if pass { return Pass; }
    var fail := All(vs, Fail);
    if fail { return Fail; }
    return Inconclusive;
  }

  method All(vs: seq<Verdict>, v: Verdict) returns (all: bool)
    ensures all <==> forall x :: x in vs ==> x == v
  {
    for i := 0 to |vs|
      invariant forall k :: 0 <= k < i ==> vs[k] == v
    {
      assert vs[i] in vs;
      if vs[i] != v { return false; }
    }
    return true;
  }

  /** PASS only if all pass, FAIL only if all fail. */
  ghost function Combined(vs: seq<Verdict>): Verdict {
    if AllAre(vs, Pass) then Pass else if AllAre(vs, Fail) then Fail else Inconclusive
  }

  /** A sub-run over every judged register of the channel. */
  datatype SubRun = SubRun(kind: string, regs: seq<SubResult>, t2: Verdict, t3: Verdict)

  function T2s(regs: seq<SubResult>): seq<Verdict> { seq(|regs|, i requires 0 <= i < |regs| => regs[i].t2) }
  function T3s(regs: seq<SubResult>): seq<Verdict> { seq(|regs|, i requires 0 <= i < |regs| => regs[i].t3) }

  method EvalHandbackRegs(runs: seq<HandbackRun>) returns (s: SubRun)
    ensures |s.regs| == |runs| && s.t2 == Combined(T2s(s.regs)) && s.t3 == Combined(T3s(s.regs))
    ensures runs != [] ==> s.kind == runs[0].kind
    ensures forall i :: 0 <= i < |runs| ==> Evaluated(runs[i], s.regs[i])
  {
    hide Evaluated, Combined;
    var regs: seq<SubResult> := [];
    for i := 0 to |runs|
      invariant |regs| == i
      invariant forall k :: 0 <= k < i ==> Evaluated(runs[k], regs[k])
      invariant i > 0 ==> regs[0].kind == runs[0].kind
    {
      var r := EvalHandback(runs[i]);
      regs := regs + [r];
    }
    var t2 := Combine(T2s(regs));
    var t3 := Combine(T3s(regs));
    s := SubRun(if |regs| > 0 then regs[0].kind else "", regs, t2, t3);
  }

  // ---- repetitions ----

  ghost predicate HasLabels(subs: seq<SubRun>, want: seq<string>) {
    forall l :: l in want ==> exists s :: s in subs && s.kind == l
  }

  function Labels(subs: seq<SubRun>): set<string> { set s | s in subs :: s.kind }
  function SubT2s(subs: seq<SubRun>): seq<Verdict> { seq(|subs|, i requires 0 <= i < |subs| => subs[i].t2) }
  function SubT3s(subs: seq<SubRun>): seq<Verdict> { seq(|subs|, i requires 0 <= i < |subs| => subs[i].t3) }

  ghost function RunVerdict(vs: seq<Verdict>, complete: bool): Verdict {
    if complete then Combined(vs) else Inconclusive
  }

  /** The verdict of every repetition. */
  ghost function RunVerdicts(runs: seq<seq<SubRun>>, want: seq<string>, t2: bool): (vs: seq<Verdict>)
    ensures |vs| == |runs|
  {
    seq(|runs|, i requires 0 <= i < |runs| => RunVerdict(if t2 then SubT2s(runs[i])
      else SubT3s(runs[i]), HasLabels(runs[i], want)))
  }

  ghost function Aggregate(runs: seq<seq<SubRun>>, want: seq<string>, t2: bool): Verdict {
    if |runs| < RUNS_REQUIRED then Inconclusive else Combined(RunVerdicts(runs, want, t2))
  }

  method AggregateHandback(runs: seq<seq<SubRun>>, want: seq<string>) returns (t2: Verdict, t3: Verdict)
    ensures t2 == Aggregate(runs, want, true) && t3 == Aggregate(runs, want, false)
  {
    hide Combined;
    var v2, v3 := [], [];
    for i := 0 to |runs|
      invariant |v2| == |v3| == i
      invariant forall k :: 0 <= k < i ==> v2[k] == RunVerdict(SubT2s(runs[k]), HasLabels(runs[k], want))
      invariant forall k :: 0 <= k < i ==> v3[k] == RunVerdict(SubT3s(runs[k]), HasLabels(runs[k], want))
    {
      var labels := Labels(runs[i]);
      var missing := false;
      for k := 0 to |want|
        invariant missing <==> exists m :: 0 <= m < k && want[m] !in labels
      {
        if want[k] !in labels { missing := true; }
      }
      assert missing <==> !HasLabels(runs[i], want) by {
        assert forall m :: 0 <= m < |want| ==> want[m] in want;
        assert forall l :: l in labels <==> exists s :: s in runs[i] && s.kind == l;
      }
      var a := Combine(SubT2s(runs[i]));
      var b := Combine(SubT3s(runs[i]));
      v2 := v2 + [if missing then Inconclusive else a];
      v3 := v3 + [if missing then Inconclusive else b];
    }
    assert v2 == RunVerdicts(runs, want, true) && v3 == RunVerdicts(runs, want, false);
    if |runs| < RUNS_REQUIRED { return Inconclusive, Inconclusive; }
    t2 := Combine(v2);
    t3 := Combine(v3);
  }

  /** Every judged register of every sub-run of every repetition has the verdict. */
  ghost predicate Everywhere(runs: seq<seq<SubRun>>, want: seq<string>, v: Verdict, t2: bool) {
    |runs| >= RUNS_REQUIRED && forall i :: 0 <= i < |runs| ==>
      && HasLabels(runs[i], want) && runs[i] != []
      && forall s :: s in runs[i] ==> s.regs != [] && forall r :: r in s.regs ==> (if t2 then r.t2 else r.t3) == v
  }

  ghost predicate FromRegs(s: SubRun) {
    s.t2 == Combined(T2s(s.regs)) && s.t3 == Combined(T3s(s.regs))
  }

  lemma CombinedIs(vs: seq<Verdict>, v: Verdict)
    requires v != Inconclusive
    ensures Combined(vs) == v <==> AllAre(vs, v)
  {
    if vs != [] { assert vs[0] in vs; }
  }

  lemma RegsDecide(s: SubRun, v: Verdict)
    requires FromRegs(s) && v != Inconclusive
    ensures s.t2 == v <==> s.regs != [] && forall r :: r in s.regs ==> r.t2 == v
    ensures s.t3 == v <==> s.regs != [] && forall r :: r in s.regs ==> r.t3 == v
  {
    CombinedIs(T2s(s.regs), v);
    CombinedIs(T3s(s.regs), v);
    assert forall i :: 0 <= i < |s.regs| ==> s.regs[i].t2 == T2s(s.regs)[i] && T2s(s.regs)[i] in T2s(s.regs);
    assert forall i :: 0 <= i < |s.regs| ==> s.regs[i].t3 == T3s(s.regs)[i] && T3s(s.regs)[i] in T3s(s.regs);
    hide Combined;
  }

  lemma RunDecides(subs: seq<SubRun>, want: seq<string>, v: Verdict, t2: bool)
    requires v != Inconclusive && forall s :: s in subs ==> FromRegs(s)
    ensures RunVerdict(if t2 then SubT2s(subs) else SubT3s(subs), HasLabels(subs, want)) == v <==>
            && HasLabels(subs, want) && subs != []
            && forall s :: s in subs ==> s.regs != [] && forall r :: r in s.regs ==> (if t2 then r.t2 else r.t3) == v
  {
    var vs := if t2 then SubT2s(subs) else SubT3s(subs);
    CombinedIs(vs, v);
    forall s | s in subs
      ensures (if t2 then s.t2 else s.t3) == v <==> s.regs != [] && forall r :: r in s.regs ==>
        (if t2 then r.t2 else r.t3) == v
    {
      RegsDecide(s, v);
    }
    assert forall i :: 0 <= i < |subs| ==> (if t2 then subs[i].t2 else subs[i].t3) == vs[i] && vs[i] in vs;
    hide Combined, HasLabels, FromRegs;
  }

  /**
   * The aggregate is PASS (or FAIL) exactly when there are at least three repetitions, each
   * with every wanted sub-run, and every judged register of every sub-run has that verdict.
   */
  lemma AggregateDecides(runs: seq<seq<SubRun>>, want: seq<string>, v: Verdict, t2: bool)
    requires v != Inconclusive && forall i :: 0 <= i < |runs| ==> forall s :: s in runs[i] ==> FromRegs(s)
    ensures Aggregate(runs, want, t2) == v <==> Everywhere(runs, want, v, t2)
  {
    var vs := RunVerdicts(runs, want, t2);
    CombinedIs(vs, v);
    assert forall i :: 0 <= i < |runs| ==> vs[i] in vs;
    forall i | 0 <= i < |runs|
      ensures vs[i] == v <==>
              && HasLabels(runs[i], want) && runs[i] != []
              && forall s :: s in runs[i] ==> s.regs != [] && forall r :: r in s.regs ==>
                (if t2 then r.t2 else r.t3) == v
    {
      RunDecides(runs[i], want, v, t2);
    }
    hide Combined, HasLabels, FromRegs, RunVerdict;
  }

  // ---- the written values and the table inputs ----

  /** The second written value: min(A + 48, 200), never below the least duty. */
  function MValue(a: int): (m: int)
    ensures MIN_DUTY <= m <= MAX_M
    ensures MIN_DUTY <= a + M_OFFSET <= MAX_M ==> m - a == M_OFFSET
    ensures (a + M_OFFSET > MAX_M ==> m == MAX_M) && (a + M_OFFSET < MIN_DUTY ==> m == MIN_DUTY)
  {
    var m := if a + M_OFFSET > MAX_M then MAX_M else a + M_OFFSET;
    if m < MIN_DUTY then MIN_DUTY else m
  }

  function FirstKnown(vals: seq<Option<real>>): Option<real> {
    if vals == [] then None else if vals[0].Some? then vals[0] else FirstKnown(vals[1..])
  }

  /** A value lies at least the margin beyond step s on the other side than the reference. */
  predicate Beyond(reference: real, v: Option<real>, s: real) {
    v.Some? && (if reference >= s then v.value <= s - CROSS_MARGIN else v.value >= s + CROSS_MARGIN)
  }

  ghost predicate Crosses(given: Option<real>, vals: seq<Option<real>>, steps: seq<real>) {
    var reference := if given.Some? then given else FirstKnown(vals);
    reference.Some? && exists s, v :: s in steps && v in vals && Beyond(reference.value, v, s)
  }

  method Crossing(given: Option<real>, vals: seq<Option<real>>, steps: seq<real>) returns (crossed: bool)
    ensures crossed <==> Crosses(given, vals, steps)
  {
    var reference := given;
    if reference.None? {
      var i := 0;
      while i < |vals| && vals[i].None?
        invariant 0 <= i <= |vals| && FirstKnown(vals) == FirstKnown(vals[i..])
      {
        i := i + 1;
      }
      if i < |vals| { reference := vals[i]; }
    }
    if reference.None? { return false; }
    for i := 0 to |steps|
      invariant forall k, v :: 0 <= k < i && v in vals ==> !Beyond(reference.value, v, steps[k])
    {
      for j := 0 to |vals|
        invariant forall k :: 0 <= k < j ==> !Beyond(reference.value, vals[k], steps[i])
      {
        assert steps[i] in steps && vals[j] in vals;
        if Beyond(reference.value, vals[j], steps[i]) { return true; }
      }
    }
    return false;
  }

  function TableSteps(ch: int): seq<real> {
    if ch == 1 then [25.0, 45.0, 55.0, 65.0, 75.0, 82.0, 87.0]
    else if ch == 2 then [60.0] else if ch == 3 then [34.0] else []
  }

  /** The duty registers judged for a channel, the primary one first. */
  function JudgedRegs(ch: int): seq<int> {
    if ch == 1 || ch == 2 then [ch] else if ch == 3 then [3, 4] else if ch == 4 then [5] else []
  }
}
