/** mergeChannelsByPWM of cmd/n5-fangov/wiring_presets.go, and the reload after it. */
module Merging {
  import opened Wrappers
  import opened Channels
  import opened Sanitizing
  import opened Control
  import LoopRuns

  /** A [[channel]] table of the file: postSet tells that it carried hysteresis or min_on; ceiling 0 is the built-in. */
  datatype Table = Table(cc: ChannelConfig, ceiling: int, postSet: bool)

  function Configs(ts: seq<Table>): (cs: seq<ChannelConfig>)
    ensures |cs| == |ts| && forall i :: 0 <= i < |ts| ==> cs[i] == ts[i].cc
  {
    seq(|ts|, i requires 0 <= i < |ts| => ts[i].cc)
  }

  // ---- a free name ----

  function Digit(d: nat): char
    requires d < 10
  {
    "0123456789"[d]
  }

  function Decimal(n: nat): (s: string)
    ensures s != ""
  {
    if n < 10 then [Digit(n)] else Decimal(n / 10) + [Digit(n % 10)]
  }

  /** fmt.Sprintf("pwm%d", pwm). */
  function PwmName(pwm: int): string {
    "pwm" + (if pwm < 0 then "-" + Decimal(-pwm) else Decimal(pwm))
  }

  /** fmt.Sprintf("pwm%d_%d", pwm, n). */
  function Numbered(pwm: int, n: nat): string {
    PwmName(pwm) + "_" + Decimal(n)
  }

  lemma DigitInjective(a: nat, b: nat)
    requires a < 10 && b < 10 && Digit(a) == Digit(b)
    ensures a == b
  {
  }

  lemma {:induction false} DecimalInjective(a: nat, b: nat)
    requires Decimal(a) == Decimal(b)
    ensures a == b
  {
    if a >= 10 && b >= 10 {
      var x, y := Decimal(a / 10), Decimal(b / 10);
      assert Decimal(a)[..|Decimal(a)| - 1] == x && Decimal(b)[..|Decimal(b)| - 1] == y;
      assert Decimal(a)[|Decimal(a)| - 1] == Digit(a % 10) && Decimal(b)[|Decimal(b)| - 1] == Digit(b % 10);
      DecimalInjective(a / 10, b / 10);
      DigitInjective(a % 10, b % 10);
    } else if a < 10 && b < 10 {
      assert Decimal(a)[0] == Decimal(b)[0];
      DigitInjective(a, b);
    }
  }

  lemma NumberedInjective(pwm: int, a: nat, b: nat)
    requires Numbered(pwm, a) == Numbered(pwm, b)
    ensures a == b
  {
    var front := PwmName(pwm) + "_";
    assert Numbered(pwm, a)[|front|..] == Decimal(a) && Numbered(pwm, b)[|front|..] == Decimal(b);
    DecimalInjective(a, b);
  }

  /** The names a search that came to n can still run into. */
  ghost function Ahead(names: set<string>, pwm: int, n: nat): set<string> {
    set s | s in names && !exists j: nat :: j < n && s == Numbered(pwm, j)
  }

  lemma AheadShrinks(names: set<string>, pwm: int, n: nat)
    requires Numbered(pwm, n) in names
    ensures |Ahead(names, pwm, n + 1)| < |Ahead(names, pwm, n)|
  {
    var s := Numbered(pwm, n);
    assert s in Ahead(names, pwm, n) by {
      forall j: nat | j < n ensures s != Numbered(pwm, j) {
        if s == Numbered(pwm, j) { NumberedInjective(pwm, n, j); }
      }
    }
    assert Ahead(names, pwm, n + 1) == Ahead(names, pwm, n) - {s};
  }

  /** The first free name of that kind from n on. */
  ghost function FreeFrom(names: set<string>, pwm: int, n: nat): (r: string)
    ensures r !in names
    decreases |Ahead(names, pwm, n)|
  {
    if Numbered(pwm, n) in names then
      AheadShrinks(names, pwm, n);
      FreeFrom(names, pwm, n + 1)
    else Numbered(pwm, n)
  }

  ghost function FreeName(names: set<string>, name: string, pwm: int): (r: string)
    ensures r !in names && (name !in names ==> r == name)
  {
    if name !in names then name
    else if PwmName(pwm) !in names then PwmName(pwm)
    else FreeFrom(names, pwm, 2)
  }

  /** The renaming loop of the source; it ends because the numbered names differ. */
  method Rename(names: set<string>, name: string, pwm: int) returns (r: string)
    ensures r == FreeName(names, name, pwm)
  {
    r := name;
    if r in names {
      r := PwmName(pwm);
      ghost var first := r;
      var n := 2;
      while r in names
        invariant n >= 2
        invariant n == 2 ==> r == first
        invariant n > 2 ==>
          first in names && r == Numbered(pwm, n - 1) && FreeFrom(names, pwm, 2) == FreeFrom(names, pwm, n - 1)
        decreases |Ahead(names, pwm, if n > 2 then n - 1 else 2)|, if n > 2 then 0 else 1
      {
        if n > 2 { AheadShrinks(names, pwm, n - 1); }
        r := Numbered(pwm, n);
        n := n + 1;
      }
    }
  }

  // ---- the merge ----

  /** The preset's table in place of the config's: the name stays, and what the preset does not say. */
  function Taken(was: Table, pc: Table): Table {
    var named := pc.cc.(name := was.cc.name);
    Table(
      if pc.postSet then named else named.(hysteresis := was.cc.hysteresis, minOn := was.cc.minOn),
      if pc.ceiling == 0 then was.ceiling else pc.ceiling,
      if pc.postSet then pc.postSet else was.postSet)
  }

  function TakeOne(given: seq<ChannelConfig>, out: seq<Table>, pc: Table): (r: seq<Table>)
    requires |given| == |out|
    ensures |r| == |out|
  {
    var at := LastOn(given, pc.cc.pwm);
    if at.Some? then out[at.value := Taken(out[at.value], pc)] else out
  }

  function TakeAll(given: seq<ChannelConfig>, out: seq<Table>, preset: seq<Table>): (r: seq<Table>)
    requires |given| == |out|
    ensures |r| == |out|
    decreases |preset|
  {
    if preset == [] then out else TakeAll(given, TakeOne(given, out, preset[0]), preset[1..])
  }

  /** The preset's tables on a pwm the config lacks. */
  function Additions(given: seq<ChannelConfig>, preset: seq<Table>): seq<Table> {
    if preset == [] then []
    else
      var rest := Additions(given, preset[1..]);
      if LastOn(given, preset[0].cc.pwm).None? then [preset[0]] + rest else rest
  }

  ghost function Renamed(names: set<string>, pc: Table): Table {
    pc.(cc := pc.cc.(name := FreeName(names, pc.cc.name, pc.cc.pwm)))
  }

  ghost function AppendAll(out: seq<Table>, adds: seq<Table>): (r: seq<Table>)
    ensures |r| == |out| + |adds| && r[..|out|] == out
    decreases |adds|
  {
    if adds == [] then out
    else
      var next := out + [Renamed(Names(Configs(out)), adds[0])];
      var r := AppendAll(next, adds[1..]);
      assert r[..|out|] == r[..|next|][..|out|];
      r
  }

  ghost function Merged(cfg: seq<Table>, preset: seq<Table>): seq<Table> {
    AppendAll(TakeAll(Configs(cfg), cfg, preset), Additions(Configs(cfg), preset))
  }

  method IndexByPWM(cs: seq<ChannelConfig>) returns (byPWM: map<int, nat>)
    ensures forall p :: p in byPWM <==> LastOn(cs, p).Some?
    ensures forall p :: p in byPWM ==> LastOn(cs, p) == Some(byPWM[p])
  {
    byPWM := map[];
    for i := 0 to |cs|
      invariant forall p :: p in byPWM <==> LastOn(cs[..i], p).Some?
      invariant forall p :: p in byPWM ==> LastOn(cs[..i], p) == Some(byPWM[p])
    {
      assert cs[..i + 1][..i] == cs[..i];
      byPWM := byPWM[cs[i].pwm := i];
    }
    assert cs[..|cs|] == cs;
  }

  method TakePreset(cfg: seq<Table>, preset: seq<Table>) returns (out: seq<Table>, adds: seq<Table>)
    ensures out == TakeAll(Configs(cfg), cfg, preset) && adds == Additions(Configs(cfg), preset)
  {
    hide LastOn;
    var given := Configs(cfg);
    var byPWM := IndexByPWM(given);
    out, adds := cfg, [];
    for i := 0 to |preset|
      invariant |out| == |cfg|
      invariant TakeAll(given, out, preset[i..]) == TakeAll(given, cfg, preset)
      invariant adds + Additions(given, preset[i..]) == Additions(given, preset)
    {
      var pc := preset[i];
      assert preset[i..][1..] == preset[i + 1..];
      if pc.cc.pwm in byPWM {
        var at := byPWM[pc.cc.pwm];
        out := out[at := Taken(out[at], pc)];
      } else {
        assert adds + Additions(given, preset[i..]) == adds + [pc] + Additions(given, preset[i + 1..]);
        adds := adds + [pc];
      }
    }
  }

  method MergeChannelsByPWM(cfg: seq<Table>, preset: seq<Table>) returns (out: seq<Table>)
    ensures out == Merged(cfg, preset)
  {
    hide TakeAll, Additions, Taken, FreeName;
    var adds;
    out, adds := TakePreset(cfg, preset);
    var names := Names(Configs(out));
    for i := 0 to |adds|
      invariant names == Names(Configs(out))
      invariant AppendAll(out, adds[i..]) == Merged(cfg, preset)
    {
      var pc := adds[i];
      assert adds[i..][1..] == adds[i + 1..];
      var name := Rename(names, pc.cc.name, pc.cc.pwm);
      var added := pc.(cc := pc.cc.(name := name));
      NamesGrow(out, added);
      names := names + {name};
      out := out + [added];
    }
  }

  lemma NamesGrow(ts: seq<Table>, t: Table)
    ensures Names(Configs(ts + [t])) == Names(Configs(ts)) + {t.cc.name}
  {
    assert Configs(ts + [t]) == Configs(ts) + [t.cc];
    forall n ensures n in Names(Configs(ts) + [t.cc]) <==> n in Names(Configs(ts)) + {t.cc.name} {
      if n == t.cc.name { assert t.cc in Configs(ts) + [t.cc]; }
    }
  }

  // ---- identity ----

  lemma {:induction false} TakeAllKeepsIds(given: seq<ChannelConfig>, out: seq<Table>, preset: seq<Table>)
    requires SameIds(given, Configs(out))
    ensures SameIds(given, Configs(TakeAll(given, out, preset)))
    decreases |preset|
  {
    hide LastOn;
    if preset != [] {
      TakeAllKeepsIds(given, TakeOne(given, out, preset[0]), preset[1..]);
    }
  }

  /** Every channel of the config keeps its place, its name and its pwm. */
  lemma KeepsIdentity(cfg: seq<Table>, preset: seq<Table>)
    ensures KeepsIds(Configs(cfg), Configs(Merged(cfg, preset)))
  {
    hide TakeAll, Additions, AppendAll;
    var taken := TakeAll(Configs(cfg), cfg, preset);
    TakeAllKeepsIds(Configs(cfg), cfg, preset);
    var m := Merged(cfg, preset);
    forall i | 0 <= i < |cfg| ensures m[i].cc == Configs(taken)[i] {
      assert m[..|taken|][i] == taken[i];
    }
  }

  lemma {:induction false} AppendAllUnique(out: seq<Table>, adds: seq<Table>)
    requires UniqueNames(Configs(out))
    ensures UniqueNames(Configs(AppendAll(out, adds)))
    decreases |adds|
  {
    hide FreeName;
    if adds != [] {
      var cs := Configs(out);
      var added := Renamed(Names(cs), adds[0]);
      assert forall i :: 0 <= i < |cs| ==> cs[i] in cs && cs[i].name in Names(cs);
      AppendAllUnique(out + [added], adds[1..]);
    }
  }

  /** No two channels of the result share a name, whatever names the preset uses. */
  lemma NamesStayUnique(cfg: seq<Table>, preset: seq<Table>)
    requires UniqueNames(Configs(cfg))
    ensures UniqueNames(Configs(Merged(cfg, preset)))
  {
    hide TakeAll, Additions, AppendAll;
    TakeAllKeepsIds(Configs(cfg), cfg, preset);
    AppendAllUnique(TakeAll(Configs(cfg), cfg, preset), Additions(Configs(cfg), preset));
  }

  /** The k-th channel appended is the k-th addition but for its name. */
  lemma {:induction false} AppendedAt(out: seq<Table>, adds: seq<Table>, k: nat)
    requires k < |adds|
    ensures var r := AppendAll(out, adds)[|out| + k];
      r == adds[k].(cc := adds[k].cc.(name := r.cc.name))
    decreases |adds|
  {
    hide FreeName;
    var next := out + [Renamed(Names(Configs(out)), adds[0])];
    var r := AppendAll(next, adds[1..]);
    if k == 0 {
      assert r[..|next|][|out|] == next[|out|];
    } else {
      AppendedAt(next, adds[1..], k - 1);
    }
  }

  /** Where an addition comes from; different additions come from different places. */
  lemma {:induction false} AdditionFrom(given: seq<ChannelConfig>, preset: seq<Table>, k: nat) returns (j: nat)
    requires k < |Additions(given, preset)|
    ensures j < |preset| && Additions(given, preset)[k] == preset[j] && k <= j && LastOn(given, preset[j].cc.pwm).None?
  {
    hide LastOn;
    var rest := Additions(given, preset[1..]);
    if LastOn(given, preset[0].cc.pwm).None? {
      if k == 0 { return 0; }
      j := AdditionFrom(given, preset[1..], k - 1);
      return j + 1;
    }
    j := AdditionFrom(given, preset[1..], k);
    return j + 1;
  }

  ghost predicate UniqueTables(ts: seq<Table>) {
    forall i, j :: 0 <= i < j < |ts| ==> ts[i].cc.pwm != ts[j].cc.pwm
  }

  lemma {:induction false} AdditionsUnique(given: seq<ChannelConfig>, preset: seq<Table>)
    requires UniqueTables(preset)
    ensures UniqueTables(Additions(given, preset))
  {
    hide LastOn;
    if preset != [] {
      var adds := Additions(given, preset);
      AdditionsUnique(given, preset[1..]);
      if LastOn(given, preset[0].cc.pwm).None? {
        forall k | 1 <= k < |adds| ensures adds[k].cc.pwm != preset[0].cc.pwm {
          var j := AdditionFrom(given, preset[1..], k - 1);
        }
      }
    }
  }

  lemma NotOn(given: seq<ChannelConfig>, pwm: int, i: nat)
    requires i < |given| && LastOn(given, pwm).None?
    ensures given[i].pwm != pwm
  {
    assert given[i] in given;
  }

  /** No two channels of the result share a pwm when neither the config's nor the preset's do. */
  lemma PwmsStayUnique(cfg: seq<Table>, preset: seq<Table>)
    requires UniqueTables(cfg) && UniqueTables(preset)
    ensures UniqueTables(Merged(cfg, preset))
  {
    hide TakeAll, Additions, AppendAll, LastOn;
    var given, m := Configs(cfg), Merged(cfg, preset);
    var taken, adds := TakeAll(given, cfg, preset), Additions(given, preset);
    KeepsIdentity(cfg, preset);
    AdditionsUnique(given, preset);
    forall i | |cfg| <= i < |m|
      ensures m[i].cc.pwm == adds[i - |cfg|].cc.pwm && LastOn(given, m[i].cc.pwm).None?
    {
      AppendedAt(taken, adds, i - |cfg|);
      var j := AdditionFrom(given, preset, i - |cfg|);
    }
    forall i, j | 0 <= i < j < |m| ensures m[i].cc.pwm != m[j].cc.pwm {
      assert i < |cfg| ==> m[i].cc.pwm == Configs(m)[i].pwm == given[i].pwm == cfg[i].cc.pwm;
      if i < |cfg| <= j { NotOn(given, m[j].cc.pwm, i); }
      if j < |cfg| { assert m[j].cc.pwm == Configs(m)[j].pwm == cfg[j].cc.pwm; }
    }
  }

  // ---- contents ----

  lemma {:induction false} LastOnUnique(cs: seq<ChannelConfig>, i: nat)
    requires UniquePwms(cs) && i < |cs|
    ensures LastOn(cs, cs[i].pwm) == Some(i)
  {
    if i < |cs| - 1 { LastOnUnique(cs[..|cs| - 1], i); }
  }

  /** Channels on a pwm the preset does not name are not touched. */
  lemma {:induction false} TakeMiss(given: seq<ChannelConfig>, out: seq<Table>, preset: seq<Table>, i: nat)
    requires |given| == |out| && i < |out|
    requires forall j :: 0 <= j < |preset| ==> preset[j].cc.pwm != given[i].pwm
    ensures TakeAll(given, out, preset)[i] == out[i]
    decreases |preset|
  {
    hide LastOn;
    if preset != [] { TakeMiss(given, TakeOne(given, out, preset[0]), preset[1..], i); }
  }

  lemma {:induction false} TakeHit(given: seq<ChannelConfig>, out: seq<Table>, preset: seq<Table>, i: nat, j: nat)
    requires |given| == |out| && i < |out| && j < |preset| && UniqueTables(preset)
    requires LastOn(given, preset[j].cc.pwm) == Some(i)
    ensures TakeAll(given, out, preset)[i] == Taken(out[i], preset[j])
    decreases |preset|
  {
    hide LastOn;
    var next := TakeOne(given, out, preset[0]);
    if j == 0 {
      TakeMiss(given, next, preset[1..], i);
    } else {
      TakeHit(given, next, preset[1..], i, j - 1);
    }
  }

  /** The table carries everything the preset says for its pwm. */
  predicate Applied(t: Table, pc: Table) { Taken(t, pc) == t }

  /** After the merge every channel on a pwm of the preset is as the preset says, and every preset pwm is there. */
  lemma PresetApplied(cfg: seq<Table>, preset: seq<Table>, i: nat, j: nat)
    requires UniqueTables(cfg) && UniqueTables(preset)
    requires i < |Merged(cfg, preset)| && j < |preset| && Merged(cfg, preset)[i].cc.pwm == preset[j].cc.pwm
    ensures Applied(Merged(cfg, preset)[i], preset[j])
    ensures i < |cfg| ==> Merged(cfg, preset)[i] == Taken(cfg[i], preset[j])
  {
    hide TakeAll, Additions, AppendAll, LastOn;
    var given, m := Configs(cfg), Merged(cfg, preset);
    var taken, adds := TakeAll(given, cfg, preset), Additions(given, preset);
    KeepsIdentity(cfg, preset);
    if i < |cfg| {
      assert m[..|taken|][i] == taken[i];
      assert Configs(m)[i].pwm == given[i].pwm;
      LastOnUnique(given, i);
      TakeHit(given, cfg, preset, i, j);
    } else {
      AppendedAt(taken, adds, i - |cfg|);
      var j' := AdditionFrom(given, preset, i - |cfg|);
      assert j' == j;
    }
  }

  /** Channels of the config on a pwm the preset does not name stay as they are. */
  lemma OthersKept(cfg: seq<Table>, preset: seq<Table>, i: nat)
    requires i < |cfg| && forall j :: 0 <= j < |preset| ==> preset[j].cc.pwm != cfg[i].cc.pwm
    ensures Merged(cfg, preset)[i] == cfg[i]
  {
    hide TakeAll, Additions, AppendAll, LastOn;
    var taken, m := TakeAll(Configs(cfg), cfg, preset), Merged(cfg, preset);
    assert m[..|taken|][i] == taken[i];
    TakeMiss(Configs(cfg), cfg, preset, i);
  }

  lemma {:induction false} TakeNothing(given: seq<ChannelConfig>, out: seq<Table>, preset: seq<Table>)
    requires |given| == |out| && forall i :: 0 <= i < |out| ==> given[i].pwm == out[i].cc.pwm
    requires forall i, j :: 0 <= i < |out| && 0 <= j < |preset| && out[i].cc.pwm == preset[j].cc.pwm ==>
      Applied(out[i], preset[j])
    ensures TakeAll(given, out, preset) == out
    decreases |preset|
  {
    hide LastOn, Taken;
    if preset != [] {
      assert TakeOne(given, out, preset[0]) == out;
      TakeNothing(given, out, preset[1..]);
    }
  }

  lemma {:induction false} NoAdditions(given: seq<ChannelConfig>, preset: seq<Table>)
    requires forall j :: 0 <= j < |preset| ==> LastOn(given, preset[j].cc.pwm).Some?
    ensures Additions(given, preset) == []
  {
    hide LastOn;
    if preset != [] { NoAdditions(given, preset[1..]); }
  }

  lemma {:induction false} Added(given: seq<ChannelConfig>, preset: seq<Table>, j: nat) returns (k: nat)
    requires j < |preset| && LastOn(given, preset[j].cc.pwm).None?
    ensures k < |Additions(given, preset)| && Additions(given, preset)[k] == preset[j]
  {
    hide LastOn;
    if j == 0 { return 0; }
    k := Added(given, preset[1..], j - 1);
    if LastOn(given, preset[0].cc.pwm).None? { k := k + 1; }
  }

  /** Every pwm of the preset is managed after the merge. */
  lemma PresetCovered(cfg: seq<Table>, preset: seq<Table>, j: nat)
    requires j < |preset|
    ensures LastOn(Configs(Merged(cfg, preset)), preset[j].cc.pwm).Some?
  {
    hide TakeAll, Additions, AppendAll, LastOn;
    var given, m := Configs(cfg), Merged(cfg, preset);
    var taken, adds := TakeAll(given, cfg, preset), Additions(given, preset);
    var at := LastOn(given, preset[j].cc.pwm);
    var i: nat;
    if at.Some? {
      KeepsIdentity(cfg, preset);
      i := at.value;
    } else {
      var k := Added(given, preset, j);
      AppendedAt(taken, adds, k);
      i := |cfg| + k;
    }
    assert Configs(m)[i].pwm == preset[j].cc.pwm;
    if LastOn(Configs(m), preset[j].cc.pwm).None? { NotOn(Configs(m), preset[j].cc.pwm, i); }
  }

  /** Applying a preset again changes nothing. */
  lemma Idempotent(cfg: seq<Table>, preset: seq<Table>)
    requires UniqueTables(cfg) && UniqueTables(preset)
    ensures Merged(Merged(cfg, preset), preset) == Merged(cfg, preset)
  {
    hide TakeAll, Additions, LastOn, Taken;
    var m := Merged(cfg, preset);
    forall j | 0 <= j < |preset| ensures LastOn(Configs(m), preset[j].cc.pwm).Some? {
      PresetCovered(cfg, preset, j);
    }
    NoAdditions(Configs(m), preset);
    forall i, j | 0 <= i < |m| && 0 <= j < |preset| && m[i].cc.pwm == preset[j].cc.pwm
      ensures Applied(m[i], preset[j])
    {
      PresetApplied(cfg, preset, i, j);
    }
    TakeNothing(Configs(m), m, preset);
  }

  // ---- the reload after the merge ----

  /** A channel set with the same identities is the same set exactly when its names are unique. */
  lemma SameSetExactly(a: seq<ChannelConfig>, b: seq<ChannelConfig>)
    requires SameIds(a, b) && UniquePwms(b)
    ensures SameChannelSet(a, b) <==> UniqueNames(b)
  {
    hide ByName;
    if UniqueNames(b) {
      forall i | 0 <= i < |b| ensures var r := ByName(a, b[i].name); r.Some? && r.value.pwm == b[i].pwm {
        assert a[i] in a;
        LoopRuns.ByNameUnique(a, a[i]);
      }
    }
    if SameChannelSet(a, b) {
      forall i, j | 0 <= i < j < |b| ensures b[i].name != b[j].name {
        var ri, rj := ByName(a, b[i].name), ByName(a, b[j].name);
        assert ri.Some? && ri.value.pwm == b[i].pwm && rj.Some? && rj.value.pwm == b[j].pwm;
      }
    }
  }

  lemma MergeSize(cfg: seq<Table>, preset: seq<Table>)
    ensures |Merged(cfg, preset)| == |cfg| + |Additions(Configs(cfg), preset)|
  {
    hide TakeAll, Additions, AppendAll;
  }

  /**
   * Applying a preset whose pwms the config has never asks for a restart: the daemon that runs
   * the corrected channels of the file accepts the merged file, exactly when its own channel
   * names are unique.
   */
  lemma PresetNeedsNoRestart(n5pro: bool, running: Config, cfg: seq<Table>, preset: seq<Table>)
    requires running.channels == Sanitize(n5pro, Configs(cfg)) && UniqueTables(cfg)
    requires forall j :: 0 <= j < |preset| ==> LastOn(Configs(cfg), preset[j].cc.pwm).Some?
    ensures
      var merged := running.(channels := Configs(Merged(cfg, preset)));
      Accepts(running, Corrected(n5pro, merged)) <==> UniqueNames(running.channels)
  {
    hide Sanitize, LastOn, TakeAll, AppendAll, Additions;
    var m := Configs(Merged(cfg, preset));
    NoAdditions(Configs(cfg), preset);
    MergeSize(cfg, preset);
    KeepsIdentity(cfg, preset);
    SanitizeById(n5pro, m, Configs(cfg));
    SanitizeUnique(n5pro, Configs(cfg));
    SameSetExactly(Sanitize(n5pro, m), running.channels);
  }

  /** Without corrections the restart is avoided exactly when the config has all the preset's pwms. */
  lemma RestartExactlyOnNewPwm(running: Config, cfg: seq<Table>, preset: seq<Table>)
    requires running.channels == Configs(cfg) && UniqueTables(cfg) && UniqueNames(running.channels)
    ensures
      var merged := running.(channels := Configs(Merged(cfg, preset)));
      Accepts(running, Corrected(false, merged)) <==> forall j :: 0 <= j < |preset| ==>
        LastOn(Configs(cfg), preset[j].cc.pwm).Some?
  {
    hide LastOn, TakeAll, AppendAll, Additions, ByName;
    var m := Merged(cfg, preset);
    MergeSize(cfg, preset);
    if forall j :: 0 <= j < |preset| ==> LastOn(Configs(cfg), preset[j].cc.pwm).Some? {
      PresetNeedsNoRestart(false, running, cfg, preset);
    } else {
      var j :| 0 <= j < |preset| && LastOn(Configs(cfg), preset[j].cc.pwm).None?;
      var k := Added(Configs(cfg), preset, j);
      assert |Configs(m)| > |running.channels|;
    }
  }
}
