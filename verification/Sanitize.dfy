/** SanitizeChannels of internal/control/controller.go: the N5 Pro corrections. */
module Sanitizing {
  import opened Wrappers
  import opened Channels

  /** config.HDDStop: a duty, not the hand-back. */
  const HDD_STOP := Fixed(140)

  /** config.N5ProChannels. */
  const CPU := ChannelConfig("cpu", 1, "k10temp", [(35, 60), (60, 150), (80, 255)], 88, ToChip, 0, 0)
  const SSD := ChannelConfig("ssd", 2, "nvme:max", [(35, 74), (55, 160), (68, 255)], 72, ToChip, 0, 0)
  const HDD := ChannelConfig("hdd", 3, "drivetemp:max", [(30, 87), (42, 140), (50, 200), (55, 255)], 60, HDD_STOP, 0, 0)
  const N5PRO_CHANNELS := [CPU, SSD, HDD]

  function Names(cs: seq<ChannelConfig>): set<string> {
    set c | c in cs :: c.name
  }

  function Pwms(cs: seq<ChannelConfig>): set<int> {
    set c | c in cs :: c.pwm
  }

  /** The last channel on that pwm: what a map filled in order holds. */
  function LastOn(cs: seq<ChannelConfig>, pwm: int): (r: Option<nat>)
    ensures r.Some? ==> r.value < |cs| && cs[r.value].pwm == pwm
    ensures r.None? <==> pwm !in Pwms(cs)
  {
    if cs == [] then None
    else
      assert cs == cs[..|cs| - 1] + [cs[|cs| - 1]];
      if cs[|cs| - 1].pwm == pwm then Some(|cs| - 1) else LastOn(cs[..|cs| - 1], pwm)
  }

  /** "pwm<N>" of a built-in pwm. */
  function BuiltinName(pwm: int): string {
    if pwm == 1 then "pwm1" else if pwm == 2 then "pwm2" else "pwm3"
  }

  /** One built-in: added when its pwm is missing; pwm3 never goes back to the chip. */
  function Correct(given: seq<ChannelConfig>, out: seq<ChannelConfig>, def: ChannelConfig): (r: seq<ChannelConfig>)
    requires |given| <= |out|
    ensures |given| <= |r|
  {
    var at := LastOn(given, def.pwm);
    if at.None? then out + [if def.name in Names(out) then def.(name := BuiltinName(def.pwm)) else def]
    else if def.pwm == 3 && out[at.value].stop == ToChip then out[at.value := out[at.value].(stop := HDD_STOP)]
    else out
  }

  function CorrectAll(given: seq<ChannelConfig>, out: seq<ChannelConfig>, defs: seq<ChannelConfig>): seq<ChannelConfig>
    requires |given| <= |out|
    decreases |defs|
  {
    if defs == [] then out else CorrectAll(given, Correct(given, out, defs[0]), defs[1..])
  }

  function Sanitize(n5pro: bool, cs: seq<ChannelConfig>): seq<ChannelConfig> {
    if n5pro then CorrectAll(cs, cs, N5PRO_CHANNELS) else cs
  }

  method SanitizeChannels(n5pro: bool, cs: seq<ChannelConfig>) returns (out: seq<ChannelConfig>)
    ensures out == Sanitize(n5pro, cs)
  {
    out := cs;
    if !n5pro { return; }
    var names := Names(cs);
    for i := 0 to |N5PRO_CHANNELS|
      invariant |cs| <= |out| && names == Names(out)
      invariant CorrectAll(cs, out, N5PRO_CHANNELS[i..]) == Sanitize(n5pro, cs)
    {
      var def := N5PRO_CHANNELS[i];
      ghost var before := out;
      var at := LastOn(cs, def.pwm);
      if at.None? {
        if def.name in names {
          def := def.(name := BuiltinName(def.pwm));
        }
        out := out + [def];
        assert Names(out) == names + {def.name} by {
          assert forall c :: c in out <==> c in before || c == def;
        }
        names := names + {def.name};
      } else if def.pwm == 3 && out[at.value].stop == ToChip {
        out := out[at.value := out[at.value].(stop := HDD_STOP)];
        SameNames(before, out);
      }
    }
  }

  lemma SameNames(a: seq<ChannelConfig>, b: seq<ChannelConfig>)
    requires |a| == |b| && forall i :: 0 <= i < |a| ==> a[i].name == b[i].name
    ensures Names(a) == Names(b)
  {
    forall n ensures n in Names(a) <==> n in Names(b) {
      if n in Names(a) {
        var i :| 0 <= i < |a| && a[i].name == n;
        assert b[i] in b;
      }
      if n in Names(b) {
        var i :| 0 <= i < |b| && b[i].name == n;
        assert a[i] in a;
      }
    }
  }

  // ---- what the corrections guarantee ----

  /** b starts with a's channels: same names, same pwm numbers. */
  ghost predicate KeepsIds(a: seq<ChannelConfig>, b: seq<ChannelConfig>) {
    |a| <= |b| && forall i :: 0 <= i < |a| ==> a[i].name == b[i].name && a[i].pwm == b[i].pwm
  }

  ghost predicate SameIds(a: seq<ChannelConfig>, b: seq<ChannelConfig>) {
    |a| == |b| && KeepsIds(a, b)
  }

  ghost predicate UniquePwms(cs: seq<ChannelConfig>) {
    forall i, j :: 0 <= i < j < |cs| ==> cs[i].pwm != cs[j].pwm
  }

  ghost predicate UniqueNames(cs: seq<ChannelConfig>) {
    forall i, j :: 0 <= i < j < |cs| ==> cs[i].name != cs[j].name
  }

  lemma {:induction false} LastOnById(a: seq<ChannelConfig>, b: seq<ChannelConfig>, pwm: int)
    requires SameIds(a, b)
    ensures LastOn(a, pwm) == LastOn(b, pwm)
  {
    if a != [] && a[|a| - 1].pwm != pwm {
      LastOnById(a[..|a| - 1], b[..|b| - 1], pwm);
    }
  }

  lemma {:induction false} CorrectAllById(
    g: seq<ChannelConfig>, h: seq<ChannelConfig>, a: seq<ChannelConfig>, b: seq<ChannelConfig>,
    defs: seq<ChannelConfig>)
    requires SameIds(g, h) && SameIds(a, b) && |g| <= |a|
    ensures SameIds(CorrectAll(g, a, defs), CorrectAll(h, b, defs))
    decreases |defs|
  {
    if defs != [] {
      LastOnById(g, h, defs[0].pwm);
      SameNames(a, b);
      CorrectAllById(g, h, Correct(g, a, defs[0]), Correct(h, b, defs[0]), defs[1..]);
    }
  }

  /** The corrected identity depends on the given identity alone. */
  lemma SanitizeById(n5pro: bool, a: seq<ChannelConfig>, b: seq<ChannelConfig>)
    requires SameIds(a, b)
    ensures SameIds(Sanitize(n5pro, a), Sanitize(n5pro, b))
  {
    if n5pro {
      CorrectAllById(a, b, a, b, N5PRO_CHANNELS);
    }
  }

  lemma CorrectKeeps(g: seq<ChannelConfig>, out: seq<ChannelConfig>, def: ChannelConfig)
    requires KeepsIds(g, out)
    ensures KeepsIds(out, Correct(g, out, def)) && KeepsIds(g, Correct(g, out, def))
    ensures def.pwm in Pwms(Correct(g, out, def)) && Pwms(out) <= Pwms(Correct(g, out, def))
    ensures forall i :: |out| <= i < |Correct(g, out, def)| ==> Correct(g, out, def)[i].pwm == def.pwm
  {
    var r := Correct(g, out, def);
    forall p | p in Pwms(out) ensures p in Pwms(r) {
      var i :| 0 <= i < |out| && out[i].pwm == p;
      assert r[i] in r;
    }
    var at := LastOn(g, def.pwm);
    assert r[if at.Some? then at.value else |out|] in r;
  }

  lemma Unfold(cs: seq<ChannelConfig>)
    ensures Sanitize(true, cs) == Correct(cs, Correct(cs, Correct(cs, cs, CPU), SSD), HDD)
  {
    assert N5PRO_CHANNELS[1..] == [SSD, HDD] && [SSD, HDD][1..] == [HDD] && [HDD][1..] == [];
    var s1 := Correct(cs, cs, CPU);
    var s2 := Correct(cs, s1, SSD);
    assert CorrectAll(cs, cs, N5PRO_CHANNELS) == CorrectAll(cs, s1, [SSD, HDD]);
    assert CorrectAll(cs, s1, [SSD, HDD]) == CorrectAll(cs, s2, [HDD]);
    assert CorrectAll(cs, s2, [HDD]) == CorrectAll(cs, Correct(cs, s2, HDD), []);
  }

  /**
   * On the N5 Pro the result manages pwm 1..3, keeps the given channels' names and pwms
   * in front, and with one channel per pwm never hands pwm3 back to the chip.
   */
  lemma SanitizeGuards(cs: seq<ChannelConfig>)
    ensures {1, 2, 3} <= Pwms(Sanitize(true, cs)) && KeepsIds(cs, Sanitize(true, cs))
    ensures UniquePwms(cs) ==> forall c :: c in Sanitize(true, cs) && c.pwm == 3 ==> c.stop.Fixed?
  {
    var s1 := Correct(cs, cs, CPU);
    var s2 := Correct(cs, s1, SSD);
    Unfold(cs);
    CorrectKeeps(cs, cs, CPU);
    CorrectKeeps(cs, s1, SSD);
    CorrectKeeps(cs, s2, HDD);
    if UniquePwms(cs) {
      OnlyOnPwm3(cs, s2);
    }
  }

  /** Before the last correction only a given channel can be on pwm3. */
  lemma OnlyOnPwm3(cs: seq<ChannelConfig>, out: seq<ChannelConfig>)
    requires UniquePwms(cs) && KeepsIds(cs, out)
    requires forall i :: |cs| <= i < |out| ==> out[i].pwm != 3
    ensures forall c :: c in Correct(cs, out, HDD) && c.pwm == 3 ==> c.stop.Fixed?
  {
    var r := Correct(cs, out, HDD);
    var at := LastOn(cs, 3);
    assert at.None? ==> forall i :: 0 <= i < |cs| ==> cs[i] in cs && cs[i].pwm != 3;
    forall i | 0 <= i < |r| && r[i].pwm == 3 ensures r[i].stop.Fixed? {
      if at.Some? {
        assert i < |cs| && cs[i].pwm == 3;
      }
    }
  }

  lemma CorrectUnique(g: seq<ChannelConfig>, out: seq<ChannelConfig>, def: ChannelConfig)
    requires KeepsIds(g, out) && UniquePwms(out)
    requires forall i :: |g| <= i < |out| ==> out[i].pwm != def.pwm
    ensures UniquePwms(Correct(g, out, def))
  {
    var r := Correct(g, out, def);
    CorrectKeeps(g, out, def);
    if |r| > |out| {
      forall i | 0 <= i < |out| ensures out[i].pwm != def.pwm {
        if i < |g| { assert g[i] in g; }
      }
    }
  }

  /** The corrections never put two channels on one pwm. */
  lemma SanitizeUnique(n5pro: bool, cs: seq<ChannelConfig>)
    requires UniquePwms(cs)
    ensures UniquePwms(Sanitize(n5pro, cs))
  {
    if n5pro {
      hide Correct, CorrectAll;
      var s1 := Correct(cs, cs, CPU);
      var s2 := Correct(cs, s1, SSD);
      Unfold(cs);
      CorrectKeeps(cs, cs, CPU);
      CorrectKeeps(cs, s1, SSD);
      CorrectUnique(cs, cs, CPU);
      CorrectUnique(cs, s1, SSD);
      CorrectUnique(cs, s2, HDD);
    }
  }

  /** A built-in that is added can take a name in use: two channels then share it. */
  lemma NameReused() returns (cs: seq<ChannelConfig>)
    ensures UniqueNames(cs) && UniquePwms(cs) && !UniqueNames(Sanitize(true, cs))
  {
    cs := [CPU.(pwm := 4), SSD.(name := "pwm1")];
    var s1 := Correct(cs, cs, CPU);
    assert cs[0] in cs && CPU.name in Names(cs);
    assert LastOn(cs, 1).None? by { assert forall c :: c in cs ==> c.pwm != 1; }
    assert s1[1].name == s1[2].name == "pwm1";
    var s2, s3 := Correct(cs, s1, SSD), Sanitize(true, cs);
    Unfold(cs);
    CorrectKeeps(cs, cs, CPU);
    CorrectKeeps(cs, s1, SSD);
    CorrectKeeps(cs, s2, HDD);
    hide Correct, Sanitize, LastOn;
    assert s3[1].name == s2[1].name == s1[1].name && s3[2].name == s2[2].name == s1[2].name;
  }
}
