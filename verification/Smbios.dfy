/**
 * walkSMBIOS of internal/sysinfo/smbios.go: the structure table of the firmware, cut into
 * structures (sections 6.1.2 and 6.1.3 of DMTF DSP0134).
 */
module Smbios {
  type Byte = b: int | 0 <= b < 256

  const END_OF_TABLE := 127

  datatype Structure = Structure(typ: Byte, handle: int, data: seq<Byte>, strings: seq<seq<Byte>>)

  /** Where a structure stands: its formatted area up to area, its strings up to end. */
  datatype Span = Span(start: nat, area: nat, end: nat)

  // ---- what the table says ----

  /** The first NUL at or after p. */
  function NulFrom(table: seq<Byte>, p: nat): (q: nat)
    requires p <= |table|
    ensures p <= q <= |table| && (q < |table| ==> table[q] == 0) && forall k :: p <= k < q ==> table[k] != 0
    decreases |table| - p
  {
    if p < |table| && table[p] != 0 then NulFrom(table, p + 1) else p
  }

  datatype StringSet = StringSet(strings: seq<seq<Byte>>, end: nat)

  /** The strings from p on, some already read, and where the set ends. */
  function StringsFrom(table: seq<Byte>, p: nat, some: bool): (r: StringSet)
    requires p <= |table| + 1
    ensures p <= r.end <= |table| + 1
    decreases |table| + 1 - p
  {
    if p >= |table| then StringSet([], p)
    else if table[p] == 0 then
      StringSet([], if !some && p + 1 < |table| && table[p + 1] == 0 then p + 2 else p + 1)
    else
      var q := NulFrom(table, p);
      var s := table[p..q];
      if q + 1 < |table| && table[q + 1] == 0 then StringSet([s], q + 2)
      else
        var rest := StringsFrom(table, q + 1, true);
        StringSet([s] + rest.strings, rest.end)
  }

  datatype Walked = Walked(spans: seq<Span>, ok: bool)

  /** The structures from pos on; not ok when a length is impossible. */
  function WalkFrom(table: seq<Byte>, pos: nat): Walked
    decreases |table| - pos
  {
    if pos + 4 > |table| then Walked([], true)
    else
      var area := pos + table[pos + 1];
      if table[pos + 1] < 4 || area > |table| then Walked([], false)
      else
        var end := StringsFrom(table, area, false).end;
        var here := Span(pos, area, end);
        if table[pos] == END_OF_TABLE then Walked([here], true)
        else
          var rest := WalkFrom(table, end);
          Walked([here] + rest.spans, rest.ok)
  }

  /** Each span lies in the table, long enough for the header. */
  predicate InTable(table: seq<Byte>, s: Span) {
    s.start + 4 <= s.area <= |table| && s.area <= s.end <= |table| + 1 && table[s.start + 1] == s.area - s.start
  }

  /** A little-endian word. */
  function Word(lo: int, hi: int): int { lo + 256 * hi }

  function At(table: seq<Byte>, s: Span): Structure
    requires InTable(table, s)
  {
    Structure(table[s.start], Word(table[s.start + 2], table[s.start + 3]), table[s.start..s.area],
              StringsFrom(table, s.area, false).strings)
  }

  lemma {:induction false} SpansInTable(table: seq<Byte>, pos: nat)
    ensures forall i :: 0 <= i < |WalkFrom(table, pos).spans| ==> InTable(table, WalkFrom(table, pos).spans[i])
    ensures WalkFrom(table, pos).spans != [] ==> WalkFrom(table, pos).spans[0].start == pos
    decreases |table| - pos
  {
    if pos + 4 <= |table| && table[pos + 1] >= 4 && pos + table[pos + 1] <= |table| && table[pos] != END_OF_TABLE {
      SpansInTable(table, StringsFrom(table, pos + table[pos + 1], false).end);
    }
  }

  /** The structures follow each other without overlap, each where the one before ends. */
  lemma {:induction false} SpansOrdered(table: seq<Byte>, pos: nat)
    ensures
      var spans := WalkFrom(table, pos).spans;
      forall i :: 0 <= i < |spans| - 1 ==>
        spans[i + 1].start == spans[i].end && spans[i].start < spans[i].area <= spans[i].end
    decreases |table| - pos
  {
    SpansInTable(table, pos);
    if pos + 4 <= |table| && table[pos + 1] >= 4 && pos + table[pos + 1] <= |table| && table[pos] != END_OF_TABLE {
      var end := StringsFrom(table, pos + table[pos + 1], false).end;
      SpansOrdered(table, end);
      SpansInTable(table, end);
    }
  }

  predicate GoesOn(table: seq<Byte>, s: Span) { s.start < |table| && table[s.start] != END_OF_TABLE }

  /** Only the last structure can be of type 127. */
  lemma {:induction false} EndIsLast(table: seq<Byte>, pos: nat, i: nat)
    requires i + 1 < |WalkFrom(table, pos).spans|
    ensures GoesOn(table, WalkFrom(table, pos).spans[i])
    decreases i
  {
    if i > 0 {
      var end := StringsFrom(table, pos + table[pos + 1], false).end;
      EndIsLast(table, end, i - 1);
    }
  }

  function Structures(table: seq<Byte>, spans: seq<Span>): (r: seq<Structure>)
    requires forall i :: 0 <= i < |spans| ==> InTable(table, spans[i])
    ensures |r| == |spans| && forall i :: 0 <= i < |spans| ==> r[i] == At(table, spans[i])
  {
    seq(|spans|, i requires 0 <= i < |spans| => At(table, spans[i]))
  }

  function Walk(table: seq<Byte>): seq<Structure> {
    SpansInTable(table, 0);
    Structures(table, WalkFrom(table, 0).spans)
  }

  // ---- the loops ----

  method ReadString(table: seq<Byte>, p: nat) returns (q: nat)
    requires p < |table|
    ensures q == NulFrom(table, p)
  {
    q := p;
    while q < |table| && table[q] != 0
      invariant p <= q <= |table| && NulFrom(table, q) == NulFrom(table, p)
    {
      q := q + 1;
    }
  }

  /** How the set goes on from a position in the table. */
  lemma StringsStep(table: seq<Byte>, p: nat, some: bool)
    requires p <= |table| + 1
    ensures p >= |table| ==> StringsFrom(table, p, some) == StringSet([], p)
    ensures p < |table| ==>
      var r, q := StringsFrom(table, p, some), NulFrom(table, p);
      if table[p] == 0 then
        r == StringSet([], if !some && p + 1 < |table| && table[p + 1] == 0 then p + 2 else p + 1)
      else if q + 1 < |table| && table[q + 1] == 0 then r == StringSet([table[p..q]], q + 2)
      else
        var rest := StringsFrom(table, q + 1, true);
        r == StringSet([table[p..q]] + rest.strings, rest.end)
  {
    hide NulFrom;
  }

  method ReadStrings(table: seq<Byte>, area: nat) returns (strings: seq<seq<Byte>>, end: nat)
    requires area <= |table|
    ensures StringSet(strings, end) == StringsFrom(table, area, false)
  {
    hide NulFrom, StringsFrom;
    strings, end := [], area;
    ghost var whole := StringsFrom(table, area, false);
    while end < |table|
      invariant end <= |table| + 1
      invariant var rest := StringsFrom(table, end, strings != []);
                whole == StringSet(strings + rest.strings, rest.end)
      decreases |table| + 1 - end
    {
      StringsStep(table, end, strings != []);
      if table[end] == 0 {
        end := end + 1;
        if strings == [] && end < |table| && table[end] == 0 { end := end + 1; }
        return;
      }
      var q := ReadString(table, end);
      ghost var before, rest := strings, StringsFrom(table, q + 1, true);
      strings := strings + [table[end..q]];
      assert before + ([table[end..q]] + rest.strings) == strings + rest.strings;
      end := q + 1;
      if end < |table| && table[end] == 0 {
        end := end + 1;
        return;
      }
    }
    StringsStep(table, end, strings != []);
  }

  /** What was walked, then the rest. */
  ghost function After(done: seq<Span>, rest: Walked): Walked { Walked(done + rest.spans, rest.ok) }

  ghost predicate Reads(table: seq<Byte>, spans: seq<Span>, out: seq<Structure>) {
    |out| == |spans| && forall i :: 0 <= i < |spans| ==> InTable(table, spans[i]) && out[i] == At(table, spans[i])
  }

  lemma AfterMore(done: seq<Span>, here: Span, rest: Walked)
    ensures After(done, Walked([here] + rest.spans, rest.ok)) == After(done + [here], rest)
    ensures After(done, Walked([here], true)) == After(done + [here], Walked([], true))
  {
    assert done + ([here] + rest.spans) == (done + [here]) + rest.spans;
  }

  lemma ReadsMore(table: seq<Byte>, spans: seq<Span>, out: seq<Structure>, here: Span, s: Structure)
    requires Reads(table, spans, out) && InTable(table, here) && s == At(table, here)
    ensures Reads(table, spans + [here], out + [s])
  {
    hide At, InTable;
  }

  lemma ReadsAll(table: seq<Byte>, spans: seq<Span>, out: seq<Structure>, whole: Walked, ok: bool)
    requires Reads(table, spans, out) && whole == After(spans, Walked([], ok))
    ensures out == Structures(table, spans) && whole == Walked(spans, ok)
  {
    hide At, InTable;
    assert spans + [] == spans;
  }

  lemma StartsThere(table: seq<Byte>, whole: Walked)
    ensures whole == After([], whole) && Reads(table, [], [])
  {
    assert [] + whole.spans == whole.spans;
  }

  /** No header fits, or its length is impossible. */
  lemma WalkStops(table: seq<Byte>, pos: nat)
    ensures pos + 4 > |table| ==> WalkFrom(table, pos) == Walked([], true)
    ensures pos + 4 <= |table| && (table[pos + 1] < 4 || pos + table[pos + 1] > |table|) ==>
      WalkFrom(table, pos) == Walked([], false)
  {
  }

  /** One step of the walk. */
  lemma WalkOne(table: seq<Byte>, here: Span)
    requires InTable(table, here) && here.end == StringsFrom(table, here.area, false).end
    ensures
      var rest := WalkFrom(table, here.end);
      WalkFrom(table, here.start) ==
        if table[here.start] == END_OF_TABLE then Walked([here], true) else Walked([here] + rest.spans, rest.ok)
  {
    hide StringsFrom;
  }

  method WalkSMBIOS(table: seq<Byte>) returns (out: seq<Structure>, ok: bool)
    ensures out == Walk(table) && ok == WalkFrom(table, 0).ok
  {
    hide StringsFrom, WalkFrom, Reads, After;
    out, ok := [], true;
    var pos := 0;
    ghost var done: seq<Span> := [];
    SpansInTable(table, 0);
    ghost var whole := WalkFrom(table, 0);
    StartsThere(table, whole);
    while pos + 4 <= |table|
      invariant ok
      invariant whole == After(done, WalkFrom(table, pos))
      invariant Reads(table, done, out)
      decreases |table| - pos
    {
      var typ, ln := table[pos], table[pos + 1];
      if ln < 4 || pos + ln > |table| {
        WalkStops(table, pos);
        ok := false;
        break;
      }
      var strings, p := ReadStrings(table, pos + ln);
      ghost var here := Span(pos, pos + ln, p);
      var s := Structure(typ, Word(table[pos + 2], table[pos + 3]), table[pos..pos + ln], strings);
      WalkOne(table, here);
      AfterMore(done, here, WalkFrom(table, p));
      ReadsMore(table, done, out, here, s);
      out := out + [s];
      done := done + [here];
      if typ == END_OF_TABLE { break; }
      pos := p;
    }
    if ok { WalkStops(table, pos); }
    ReadsAll(table, done, out, whole, ok);
  }

  // ---- the encoding and back ----

  /** What section 6.1 asks of a structure; no string is empty or holds a NUL. */
  ghost predicate WellFormed(s: Structure) {
    && 4 <= |s.data| < 256
    && s.data[0] == s.typ && s.data[1] == |s.data| && s.handle == Word(s.data[2], s.data[3])
    && ProperStrings(s.strings)
  }

  function EncodeStrings(strings: seq<seq<Byte>>): seq<Byte> {
    if strings == [] then [] else strings[0] + [0] + EncodeStrings(strings[1..])
  }

  /** An empty set is two NULs, any other ends with one more NUL. */
  function EncodeSet(strings: seq<seq<Byte>>): seq<Byte> {
    if strings == [] then [0, 0] else EncodeStrings(strings) + [0]
  }

  function Encode(ss: seq<Structure>): seq<Byte> {
    if ss == [] then [] else ss[0].data + EncodeSet(ss[0].strings) + Encode(ss[1..])
  }

  lemma {:induction false} NulFromIs(table: seq<Byte>, p: nat, q: nat)
    requires p <= q < |table| && table[q] == 0 && forall k :: p <= k < q ==> table[k] != 0
    ensures NulFrom(table, p) == q
    decreases q - p
  {
    if p < q { NulFromIs(table, p + 1, q); }
  }

  ghost predicate ProperStrings(strings: seq<seq<Byte>>) {
    forall i :: 0 <= i < |strings| ==> strings[i] != [] && 0 !in strings[i]
  }

  /** One encoded string at p: where it ends, what it is and what follows. */
  lemma StringAt(table: seq<Byte>, p: nat, s: seq<Byte>, more: seq<Byte>)
    requires s != [] && 0 !in s && p <= |table| && table[p..] == s + [0] + more
    ensures var q := p + |s|;
      && q < |table| && table[p] != 0 && NulFrom(table, p) == q && table[p..q] == s
      && table[q + 1..] == more && (q + 1 < |table| <==> more != []) && (more != [] ==> table[q + 1] == more[0])
  {
    var q, rest := p + |s|, s + [0] + more;
    assert |table| == p + |rest|;
    assert forall k :: 0 <= k < |rest| ==> table[p + k] == table[p..][k] == rest[k];
    assert table[q] == rest[|s|] == 0;
    forall k | p <= k < q ensures table[k] != 0 {
      assert table[p + (k - p)] == rest[k - p] == s[k - p] && s[k - p] in s;
    }
    NulFromIs(table, p, q);
    assert table[q + 1..] == rest[|s| + 1..] == more;
    assert table[p..q] == s;
  }

  lemma StringsUnfold(table: seq<Byte>, p: nat, some: bool)
    requires p < |table| && table[p] != 0
    ensures
      var q := NulFrom(table, p);
      var rest := StringsFrom(table, q + 1, true);
      StringsFrom(table, p, some) ==
        if q + 1 < |table| && table[q + 1] == 0 then StringSet([table[p..q]], q + 2)
        else StringSet([table[p..q]] + rest.strings, rest.end)
  {
  }

  lemma EncodeCons(strings: seq<seq<Byte>>, tail: seq<Byte>)
    requires strings != []
    ensures EncodeStrings(strings) + tail == strings[0] + [0] + (EncodeStrings(strings[1..]) + tail)
  {
  }

  /** Reading the encoded strings of a non-empty set gives them back and ends behind the last NUL. */
  lemma {:induction false} StringsBack(table: seq<Byte>, p: nat, strings: seq<seq<Byte>>, tail: seq<Byte>, some: bool)
    requires strings != [] && ProperStrings(strings)
    requires p <= |table| && table[p..] == EncodeStrings(strings) + ([0] + tail)
    ensures StringsFrom(table, p, some) == StringSet(strings, |table| - |tail|)
    decreases |strings|
  {
    hide NulFrom, EncodeStrings, StringsFrom;
    var s, rest := strings[0], strings[1..];
    var q := p + |s|;
    var more := EncodeStrings(rest) + ([0] + tail);
    assert s != [] && 0 !in s && ProperStrings(rest) && strings == [s] + rest;
    EncodeCons(strings, [0] + tail);
    StringAt(table, p, s, more);
    StringsUnfold(table, p, some);
    hide ProperStrings;
    if rest == [] {
      NoStrings(tail);
      assert |table[q + 1..]| == |tail| + 1;
    } else {
      StartsProper(rest, [0] + tail);
      StringsBack(table, q + 1, rest, tail, true);
    }
  }

  lemma NoStrings(tail: seq<Byte>)
    ensures EncodeStrings([]) + ([0] + tail) == [0] + tail
  {
  }

  lemma StartsProper(strings: seq<seq<Byte>>, more: seq<Byte>)
    requires strings != [] && ProperStrings(strings)
    ensures (EncodeStrings(strings) + more)[0] != 0
  {
    assert strings[0][0] in strings[0];
  }

  lemma SetBack(table: seq<Byte>, p: nat, strings: seq<seq<Byte>>, tail: seq<Byte>)
    requires ProperStrings(strings)
    requires p <= |table| && table[p..] == EncodeSet(strings) + tail
    ensures StringsFrom(table, p, false) == StringSet(strings, |table| - |tail|)
  {
    if strings == [] {
      assert table[p] == table[p..][0] == 0 && table[p + 1] == table[p..][1] == 0;
    } else {
      assert EncodeSet(strings) + tail == EncodeStrings(strings) + ([0] + tail);
      StringsBack(table, p, strings, tail, false);
    }
  }

  /** type 127 stands last if at all. */
  predicate EndOnlyLast(ss: seq<Structure>) {
    forall i :: 0 <= i < |ss| - 1 ==> ss[i].typ != END_OF_TABLE
  }

  /** What may follow the structures without being read: anything after type 127, else less than a header. */
  predicate Unread(ss: seq<Structure>, tail: seq<Byte>) {
    (ss != [] && ss[|ss| - 1].typ == END_OF_TABLE) || |tail| < 4
  }

  /** One encoded structure is read back, and the walk goes on behind it. */
  lemma StructureBack(table: seq<Byte>, pos: nat, s: Structure, tail: seq<Byte>) returns (here: Span)
    requires WellFormed(s) && pos <= |table| && table[pos..] == s.data + EncodeSet(s.strings) + tail
    ensures here == Span(pos, pos + |s.data|, |table| - |tail|) && InTable(table, here) && At(table, here) == s
    ensures pos + 4 <= |table| && table[pos] == s.typ
    ensures
      var rest := WalkFrom(table, here.end);
      WalkFrom(table, pos) == if s.typ == END_OF_TABLE then Walked([here], true)
        else Walked([here] + rest.spans, rest.ok)
  {
    hide StringsFrom, EncodeSet;
    var bytes := EncodeSet(s.strings);
    var area := pos + |s.data|;
    assert |table| == area + |bytes| + |tail|;
    assert forall k :: 0 <= k < |s.data| ==> table[pos + k] == table[pos..][k] == s.data[k];
    assert table[pos..area] == s.data;
    assert table[area..] == table[pos..][|s.data|..] == bytes + tail;
    SetBack(table, area, s.strings, tail);
    here := Span(pos, area, |table| - |tail|);
  }

  /** Walking an encoded table gives back exactly the structures that were encoded, and no error. */
  lemma {:induction false} WalkBack(table: seq<Byte>, pos: nat, ss: seq<Structure>, tail: seq<Byte>)
    requires (forall i :: 0 <= i < |ss| ==> WellFormed(ss[i])) && EndOnlyLast(ss) && Unread(ss, tail)
    requires pos <= |table| && table[pos..] == Encode(ss) + tail
    ensures
      var w := WalkFrom(table, pos);
      w.ok && |w.spans| == |ss| && forall i :: 0 <= i < |ss| ==>
        InTable(table, w.spans[i]) && At(table, w.spans[i]) == ss[i]
    decreases |ss|
  {
    hide StringsFrom, EncodeSet, WellFormed, InTable, At;
    if ss != [] {
      var more := Encode(ss[1..]) + tail;
      assert table[pos..] == ss[0].data + EncodeSet(ss[0].strings) + more;
      var here := StructureBack(table, pos, ss[0], more);
      if ss[0].typ != END_OF_TABLE {
        assert table[here.end..] == more;
        WalkBack(table, here.end, ss[1..], tail);
      }
    }
  }

  /** Encoding structures and walking the bytes is the identity. */
  lemma RoundTrip(ss: seq<Structure>, tail: seq<Byte>)
    requires (forall i :: 0 <= i < |ss| ==> WellFormed(ss[i])) && EndOnlyLast(ss) && Unread(ss, tail)
    ensures Walk(Encode(ss) + tail) == ss && WalkFrom(Encode(ss) + tail, 0).ok
  {
    hide WellFormed, Encode, At;
    var table := Encode(ss) + tail;
    assert table[0..] == table;
    WalkBack(table, 0, ss, tail);
    assert forall i :: 0 <= i < |ss| ==> Walk(table)[i] == ss[i];
  }
}
