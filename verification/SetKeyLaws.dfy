/**
 * The get/put law of SetKey, against a reader of its own: the edited text says what it is meant
 * to say exactly when the edit found all there was to find.
 */
module SetKeyLaws {
  import opened Wrappers
  import opened Lines
  import opened Texts
  import opened SetKeys
  import opened TomlReader

  // ---- what callers pass ----

  predicate IsBare(c: char) { 'a' <= c <= 'z' || 'A' <= c <= 'Z' || '0' <= c <= '9' || c == '_' || c == '-' }

  /** A bare TOML key. */
  predicate Bare(s: string) { s != "" && forall i :: 0 <= i < |s| ==> IsBare(s[i]) }

  /** A bare or dotted key. */
  predicate KeyText(s: string) { s != "" && forall i :: 0 <= i < |s| ==> IsBare(s[i]) || s[i] == '.' }

  /** A TOML literal on one line. */
  predicate Literal(v: string) { v != "" && Tight(v) && '\n' !in v }

  // ---- the lines SetKey writes ----

  lemma DottedText(section: string, key: string)
    requires Bare(section) && Bare(key)
    ensures KeyText(Dotted(section, key)) && Dotted(section, key) != key
  {
    assert Dotted(section, key)[|section|] == '.';
  }

  lemma IndexOfIs(s: string, c: char, i: nat)
    requires i < |s| && s[i] == c && forall k :: 0 <= k < i ==> s[k] != c
    ensures IndexOf(s, c) == i
  {
  }

  lemma TrimPadded(s: string)
    requires s != "" && Tight(s)
    ensures Trim(s + " ") == s && Trim(" " + s) == s
  {
    assert (s + " ")[..|s|] == s && (" " + s)[1..] == s;
    assert TrimLeft(s + " ") == s + " ";
    assert TrimRight(s + " ") == TrimRight(s) == s;
    assert TrimLeft(" " + s) == TrimLeft(s) == s;
  }

  lemma LineIsTight(key: string, value: string)
    requires KeyText(key) && Literal(value)
    ensures Trim(Line(key, value)) == Line(key, value) && Line(key, value)[0] == key[0]
  {
    hide Trim;
    var l := Line(key, value);
    assert l[0] == key[0] && l[|l| - 1] == value[|value| - 1];
    TrimTight(l);
  }

  lemma LineCut(key: string, value: string)
    requires KeyText(key)
    ensures
      var l := Line(key, value);
      IndexOf(l, '=') == |key| + 1 && l[..|key| + 1] == key + " " && l[|key| + 2..] == " " + value
  {
    var l := Line(key, value);
    assert l == key + " " + ("=" + (" " + value)) && l[|key| + 1] == '=';
    assert forall i :: 0 <= i < |key| ==> l[i] == key[i];
    IndexOfIs(l, '=', |key| + 1);
  }

  lemma LineReads(key: string, value: string)
    requires KeyText(key) && Literal(value)
    ensures AssignedKey(Line(key, value)) == key && AssignedValue(Line(key, value)) == value
    ensures !IsTable(Line(key, value)) && !IsBlank(Line(key, value)) && !IsHeader(Line(key, value))
  {
    hide Line, Trim, IndexOf, IsSpace;
    LineIsTight(key, value);
    LineCut(key, value);
    TightKey(key);
    TrimPadded(key);
    TrimPadded(value);
    HeaderIsTable(Line(key, value));
  }

  lemma HeaderIsTable(line: string)
    ensures IsHeader(line) ==> IsTable(line)
  {
    hide Trim, IndexOf, IndexOfClose;
  }

  lemma TightKey(key: string)
    requires KeyText(key)
    ensures Tight(key)
  {
  }

  lemma CloseAt(h: string, s: string)
    requires Bare(s) && IsSection(h, s)
    ensures var t := Trim(h); IndexOf(t, ']') == |s| + 1 && t[1..|s| + 1] == s
  {
    var t, header := Trim(h), "[" + s + "]";
    assert t[..|s| + 2] == header && header[|s| + 1] == ']' && header[1..|s| + 1] == s;
    assert forall i :: 1 <= i < |s| + 1 ==> t[i] == header[i] == s[i - 1];
    IndexOfIs(t, ']', |s| + 1);
  }

  lemma NoDot(key: string)
    requires Bare(key)
    ensures Path(key) == [key] && Tight(key)
  {
    assert IndexOf(key, '.') < 0;
    TrimTight(key);
  }

  lemma PathOfDotted(section: string, more: string)
    requires Bare(section)
    ensures Path(section + "." + more) == [section] + Path(more)
  {
    var t := section + "." + more;
    NoDot(section);
    IndexOfIs(t, '.', |section|);
    assert t[..|section|] == section && t[|section| + 1..] == more;
    TrimTight(section);
  }

  /** The header the edit looks for names the section. */
  lemma SectionNamed(h: string, s: string)
    requires Bare(s) && IsSection(h, s)
    ensures Names(h, s) && IsTable(h)
  {
    hide Path, Trim;
    CloseAt(h, s);
    SectionIsTable(h, s);
    NoDot(s);
    TrimTight(s);
    assert Trim(h)[1] == ("[" + s + "]")[1] == s[0];
  }

  lemma HeaderReads(section: string)
    requires Bare(section)
    ensures IsTable(Header(section)) && IsSection(Header(section), section)
    ensures Names(Header(section), section) && TableHeader(Header(section)) == Some(section)
  {
    var h := Header(section);
    assert h[0] == '[' && h[|h| - 1] == ']' && Tight(h);
    TrimTight(h);
    SectionNamed(h, section);
    CloseAt(h, section);
    hide Trim, IndexOf;
    NoDot(section);
    TrimTight(section);
    assert h[1] == section[0];
  }

  lemma {:induction false} NoHeader(ls: seq<string>, section: string)
    requires SectionIndex(ls, section).None?
    ensures forall i :: 0 <= i < |ls| ==> !IsSection(ls[i], section)
  {
    hide IsSection;
    if ls != [] { NoHeader(ls[1..], section); }
  }

  lemma {:induction false} FirstHeader(ls: seq<string>, section: string)
    requires SectionIndex(ls, section).Some?
    ensures forall i :: 0 <= i < SectionIndex(ls, section).value ==> !IsSection(ls[i], section)
  {
    hide IsSection;
    if !IsSection(ls[0], section) { FirstHeader(ls[1..], section); }
  }

  // ---- what the edit finds ----

  /** Without its header, the section's keys stand dotted at the top. */
  predicate InDots(ls: seq<string>, section: string, key: string) {
    var top := ls[..TopLength(ls)];
    SectionIndex(ls, section).None? && (KeyIndex(top, Dotted(section, key)).Some? || LastUnder(top, section).Some?)
  }

  /** How many assignments of the key the edit finds: the one it will replace, or none. */
  function Known(ls: seq<string>, section: string, key: string): nat {
    var at := SectionIndex(ls, section);
    if at.Some? then
      var rest := ls[at.value + 1..];
      if KeyIndex(rest[..TopLength(rest)], key).Some? then 1 else 0
    else if KeyIndex(ls[..TopLength(ls)], Dotted(section, key)).Some? then 1 else 0
  }

  /** Where the line goes in the section's body. */
  function BodyAt(b: seq<string>, key: string): (n: nat)
    ensures n <= |b| && (KeyIndex(b, key).Some? ==> n < |b|)
  {
    hide AssignedKey, IsBlank;
    if KeyIndex(b, key).Some? then KeyIndex(b, key).value else Unblanked(b)
  }

  /** Where the line goes among dotted keys. */
  function TopAt(top: seq<string>, section: string, key: string): (n: nat)
    ensures n <= |top| && (KeyIndex(top, Dotted(section, key)).Some? ==> n < |top|)
  {
    hide AssignedKey, Under;
    var i, last := KeyIndex(top, Dotted(section, key)), LastUnder(top, section);
    if i.Some? then i.value else if last.Some? then last.value + 1 else |top|
  }

  /** The line of the assignment the edit replaces, or where it puts the new one. */
  function EditAt(ls: seq<string>, section: string, key: string): (n: nat)
    ensures n + Known(ls, section, key) <= |ls|
  {
    hide BodyAt, TopAt, KeyIndex, LastUnder, TopLength, SectionIndex;
    var at := SectionIndex(ls, section);
    if at.Some? then
      var rest := ls[at.value + 1..];
      at.value + 1 + BodyAt(rest[..TopLength(rest)], key)
    else if InDots(ls, section, key) then TopAt(ls[..TopLength(ls)], section, key)
    else |ls|
  }

  /** How far the replaced value is open after its first line. */
  function WasOpen(ls: seq<string>, section: string, key: string): Nest {
    if Known(ls, section, key) == 0 then SHUT else Scan(AssignedValue(ls[EditAt(ls, section, key)]), SHUT)
  }

  /** The lines behind the edit. */
  function Behind(ls: seq<string>, section: string, key: string): seq<string> {
    ls[EditAt(ls, section, key) + Known(ls, section, key)..]
  }

  /** The edit stands between two values, and under the header it found. */
  predicate Lands(ls: seq<string>, section: string, key: string) {
    var r := After(ls[..EditAt(ls, section, key)], START);
    r.nest == SHUT && (SectionIndex(ls, section).Some? ==> r.place == In([section]))
  }

  /**
   * The edit finds all there is: a place between values, the whole of the old value, the one
   * header of the section or its dotted keys, and the one assignment of the key, if any. Other
   * spellings of the header or the key, a second header, both layouts at once, inline tables, a
   * key that is a table and a value over several lines are what it misses.
   */
  predicate Clear(ls: seq<string>, section: string, key: string) {
    && Lands(ls, section, key)
    && LeftQuiet(Behind(ls, section, key), WasOpen(ls, section, key))
    && |Found(ls, Opener(section))| == (if SectionIndex(ls, section).Some? then 1 else 0)
    && (Found(ls, TopDefiner(section)) != [] ==> InDots(ls, section, key))
    && |Found(ls, Setter(section, key))| == Known(ls, section, key)
    && Found(ls, Tabler(section, key)) == []
  }

  /** The text gives section.key this value, once, in a section defined in one place only. */
  predicate Gives(ls: seq<string>, section: string, key: string, value: string) {
    && Values(ls, section, key) == [value]
    && |Found(ls, Opener(section))| + (if Found(ls, TopDefiner(section)) != [] then 1 else 0) <= 1
    && Found(ls, Tabler(section, key)) == []
  }

  /** All lines before and behind the edit read as they did, those of the old value as nothing. */
  predicate SameAround(ls: seq<string>, now: seq<string>, section: string, key: string) {
    var i, n := EditAt(ls, section, key), |Behind(ls, section, key)|;
    var ms, ns := Marks(ls, START), Marks(now, START);
    && i + n <= |now|
    && ms[..i] == ns[..i]
    && Masked(ms[|ls| - n..], section, key) == Masked(ns[|now| - n..], section, key)
  }

  /** The edit does what it is for. */
  predicate Right(ls: seq<string>, section: string, key: string, value: string) {
    var now := SetLines(ls, section, key, value);
    Gives(now, section, key, value) && SameAround(ls, now, section, key)
  }

  /** A TOML literal that is complete on its line. */
  predicate Complete(v: string) { Literal(v) && Scan(v, SHUT) == SHUT }

  // ---- the edit ----

  /** One line put between before and after, in place of nothing or of an assignment of the same key. */
  datatype Edit = Edit(before: seq<string>, was: seq<string>, line: string, after: seq<string>)
  {
    function Was(): seq<string> { before + was + after }
    function Is(): seq<string> { before + [line] + after }

    predicate Replaces() {
      && !IsTable(line)
      && |was| <= 1
      && (|was| == 1 ==> !IsTable(was[0]) && AssignedKey(was[0]) == AssignedKey(line))
    }

    /** How far the replaced value is open. */
    function Open(): Nest { if was == [] then SHUT else Scan(AssignedValue(was[0]), SHUT) }
  }


  lemma EditBodyParts(b: seq<string>, key: string, value: string) returns (e: Edit)
    requires KeyText(key) && Literal(value) && forall i :: 0 <= i < |b| ==> !IsTable(b[i])
    ensures e.Was() == b && e.Is() == BodySet(b, key, value) && e.line == Line(key, value) && e.Replaces()
    ensures |e.was| == (if KeyIndex(b, key).Some? then 1 else 0) && |e.before| == BodyAt(b, key)
    ensures forall i :: 0 <= i < |e.before| ==> !IsTable(e.before[i])
  {
    hide IsTable, AssignedKey, AssignedValue, IsBlank, Line, KeyText, Literal, KeyIndex, Unblanked;
    LineReads(key, value);
    var i, l := KeyIndex(b, key), Line(key, value);
    if i.Some? {
      e := Edit(b[..i.value], [b[i.value]], l, b[i.value + 1..]);
      Reassembled(b, i.value, l);
    } else {
      var n := Unblanked(b);
      e := Edit(b[..n], [], l, b[n..]);
      assert e.Was() == b;
    }
  }

  lemma Reassembled(b: seq<string>, i: nat, l: string)
    requires i < |b|
    ensures b[..i] + [b[i]] + b[i + 1..] == b && b[..i] + [l] + b[i + 1..] == b[i := l]
  {
  }

  lemma EditTopParts(top: seq<string>, section: string, key: string, value: string) returns (e: Edit)
    requires Bare(section) && Bare(key) && Literal(value) && forall i :: 0 <= i < |top| ==> !IsTable(top[i])
    requires KeyIndex(top, Dotted(section, key)).Some? || LastUnder(top, section).Some?
    ensures e.Was() == top && e.Is() == TopSet(top, section, key, value)
      && e.line == Line(Dotted(section, key), value) && e.Replaces()
    ensures |e.was| == (if KeyIndex(top, Dotted(section, key)).Some? then 1 else 0)
    ensures |e.before| == TopAt(top, section, key)
    ensures forall i :: 0 <= i < |e.before| ==> !IsTable(e.before[i])
  {
    hide IsTable, AssignedKey, AssignedValue, Line, Dotted, Bare, KeyText, Literal, IsBlank, KeyIndex, LastUnder, Under;
    DottedText(section, key);
    LineReads(Dotted(section, key), value);
    var i, last := KeyIndex(top, Dotted(section, key)), LastUnder(top, section);
    var l := Line(Dotted(section, key), value);
    if i.Some? {
      e := Edit(top[..i.value], [top[i.value]], l, top[i.value + 1..]);
    } else {
      var n := last.value + 1;
      e := Edit(top[..n], [], l, top[n..]);
      assert e.Was() == top;
    }
  }

  /** The same edit inside more lines. */
  function Widened(e: Edit, front: seq<string>, back: seq<string>): (w: Edit)
    ensures w.before == front + e.before && w.line == e.line && w.was == e.was
    ensures w.Was() == front + e.Was() + back && w.Is() == front + e.Is() + back
    ensures e.Replaces() ==> w.Replaces()
  {
    hide IsTable, AssignedKey;
    var w := e.(before := front + e.before, after := e.after + back);
    assert w.Was() == front + e.Was() + back;
    assert w.Is() == front + e.Is() + back;
    w
  }

  lemma Joins(ls: seq<string>, i: nat, m: nat)
    requires i <= |ls| && m <= |ls| - i
    ensures ls == ls[..i] + ls[i..][..m] + ls[i..][m..]
  {
  }

  lemma SectionShape(ls: seq<string>, section: string, key: string, value: string)
    requires SectionIndex(ls, section).Some?
    ensures
      var i := SectionIndex(ls, section).value + 1;
      var m := TopLength(ls[i..]);
      SetLines(ls, section, key, value) == ls[..i] + BodySet(ls[i..][..m], key, value) + ls[i..][m..]
  {
    hide SectionIndex, TopLength, BodySet, TopSet, NewSection, KeyIndex, LastUnder, IsSection, IsTable, Dotted;
    hide AssignedKey, Trim, IsBlank, Under;
  }

  lemma BareText(key: string)
    requires Bare(key)
    ensures KeyText(key)
  {
  }

  lemma DottedShape(ls: seq<string>, section: string, key: string, value: string)
    requires InDots(ls, section, key)
    ensures
      var n := TopLength(ls);
      && ls == [] + ls[..n] + ls[n..]
      && SetLines(ls, section, key, value) == [] + TopSet(ls[..n], section, key, value) + ls[n..]
  {
    hide SectionIndex, TopLength, BodySet, TopSet, NewSection, KeyIndex, LastUnder, IsSection, IsTable, Under;
    hide Dotted, AssignedKey;
  }

  // ---- the two shapes of the edit ----

  /** With a header, the edit changes one line under it. */
  lemma SectionEdit(ls: seq<string>, section: string, key: string, value: string) returns (e: Edit)
    requires Bare(section) && Bare(key) && Literal(value) && SectionIndex(ls, section).Some?
    ensures e.Was() == ls && e.Is() == SetLines(ls, section, key, value)
    ensures e.Replaces() && e.line == Line(key, value)
    ensures |e.was| == Known(ls, section, key) && |e.before| == EditAt(ls, section, key)
  {
    hide *;
    var i := SectionIndex(ls, section).value + 1;
    var m := TopLength(ls[i..]);
    BareText(key);
    var b := EditBodyParts(ls[i..][..m], key, value);
    SectionShape(ls, section, key, value);
    Joins(ls, i, m);
    e := Widened(b, ls[..i], ls[i..][m..]);
    KnownInSection(ls, section, key);
  }

  lemma KnownInSection(ls: seq<string>, section: string, key: string)
    requires SectionIndex(ls, section).Some?
    ensures
      var i := SectionIndex(ls, section).value + 1;
      var body := ls[i..][..TopLength(ls[i..])];
      && Known(ls, section, key) == (if KeyIndex(body, key).Some? then 1 else 0)
      && EditAt(ls, section, key) == i + BodyAt(body, key)
  {
    hide BodyAt, TopAt, KeyIndex, LastUnder, TopLength, SectionIndex;
  }

  /** Without a header, the edit changes one dotted line at the top. */
  lemma DottedEdit(ls: seq<string>, section: string, key: string, value: string) returns (e: Edit)
    requires Bare(section) && Bare(key) && Literal(value) && InDots(ls, section, key)
    ensures e.Was() == ls && e.Is() == SetLines(ls, section, key, value)
    ensures e.Replaces() && e.line == Line(Dotted(section, key), value)
    ensures |e.was| == Known(ls, section, key) && |e.before| == EditAt(ls, section, key)
    ensures After(e.before, START).place.Top?
  {
    hide IsTable, IsSection, AssignedKey, SetLines, TopSet, BodySet, Edit.Was, Edit.Is, Edit.Replaces, After, TopAt;
    var n := TopLength(ls);
    var b := EditTopParts(ls[..n], section, key, value);
    DottedShape(ls, section, key, value);
    e := Widened(b, [], ls[n..]);
    assert [] + b.before == b.before;
    FlatIsHeadless(b.before);
    PlaceStays(b.before, START);
  }

  /** Lines before the first table header of the edit have no header of the reader. */
  lemma FlatIsHeadless(b: seq<string>)
    requires forall i :: 0 <= i < |b| ==> !IsTable(b[i])
    ensures forall i :: 0 <= i < |b| ==> !IsHeader(b[i])
  {
    hide IsTable, IsHeader;
    forall i | 0 <= i < |b| ensures !IsHeader(b[i]) { HeaderIsTable(b[i]); }
  }

  lemma NewSectionIs(ls: seq<string>, section: string, key: string, value: string)
    requires SectionIndex(ls, section).None? && !InDots(ls, section, key)
    ensures SetLines(ls, section, key, value) == ls + NewSection(ls, section, key, value)
    ensures EditAt(ls, section, key) == |ls| && Known(ls, section, key) == 0
  {
  }

  /** The lines around the edit. */
  lemma EditAround(e: Edit, ls: seq<string>, section: string, key: string)
    requires e.Was() == ls && |e.was| == Known(ls, section, key) && |e.before| == EditAt(ls, section, key)
    ensures e.before == ls[..EditAt(ls, section, key)] && e.after == Behind(ls, section, key)
    ensures e.Open() == WasOpen(ls, section, key)
  {
    hide EditAt, Known, Scan, AssignedValue;
    if e.was != [] { assert ls[|e.before|] == e.was[0]; }
  }

  // ---- reading the edit ----

  /** What the new line says when it stands between values. */
  lemma LineSays(r: Reading, section: string, key: string, value: string)
    requires Bare(section) && Bare(key) && Complete(value) && r.nest == SHUT && r.OK()
    ensures Read(Line(key, value), r) == Mark.Set(r.place.Full([key]), r.place.Top?, value)
    ensures Next(Line(key, value), r) == r
    ensures
      var dotted := Line(Dotted(section, key), value);
      Read(dotted, r) == Mark.Set(r.place.Full([section, key]), r.place.Top?, value) && Next(dotted, r) == r
  {
    hide Line, AssignedKey, AssignedValue, TableHeader, Path, Scan, Trim;
    BareText(key);
    LineReads(key, value);
    NoDot(key);
    DottedText(section, key);
    LineReads(Dotted(section, key), value);
    PathOfDotted(section, key);
    assert [section] + [key] == [section, key];
  }

  /** The edit stands between values and its line sets the key. */
  predicate Hits(e: Edit, section: string, key: string, top: bool, value: string) {
    var r := After(e.before, START);
    && e.Replaces() && r.nest == SHUT
    && Read(e.line, r) == Mark.Set([section, key], top, value) && Next(e.line, r) == r
  }

  /** The replaced line sets the same key, and leaves the reader in its value. */
  lemma OldLine(e: Edit, section: string, key: string, top: bool, value: string)
    requires Hits(e, section, key, top, value)
    ensures
      var r := After(e.before, START);
      var r' := After(e.was, r);
      && r.OK() && r == Reading(r.place, SHUT, [])
      && Inside(r', section, key) && r'.nest == e.Open() && r'.place == r.place
      && Marks(e.was, r) == if e.was == [] then [] else [Mark.Set([section, key], top, AssignedValue(e.was[0]))]
  {
    hide IsTable, IsHeader, AssignedKey, AssignedValue, Path, Scan, TableHeader, IsQuiet;
    var r := After(e.before, START);
    HeaderIsTable(e.line);
    if e.was != [] {
      assert e.was == [e.was[0]];
      HeaderIsTable(e.was[0]);
      OneLine(e.was[0], r);
    }
  }

  /** A kind of line that takes no notice of values, nor of more lines of the key's. */
  ghost predicate Plainly(f: Kind, section: string, key: string, top: bool) {
    && !Fits(f, Quiet) && (forall t :: !Fits(f, More([section, key], t)))
    && forall t, t' :: Fits(f, Mark.Set([section, key], top, t)) == Fits(f, Mark.Set([section, key], top, t'))
  }

  /** What the reader finds before and after an edit that hits. */
  lemma HitReads(e: Edit, section: string, key: string, top: bool, value: string, f: Kind)
    requires Hits(e, section, key, top, value)
    ensures
      var m := Mark.Set([section, key], top, value);
      var head, rest := Found(e.before, f), Kept(Marks(e.after, After(e.before, START)), f);
      && Found(e.Is(), f) == head + (if Fits(f, m) then [m] else []) + rest
      && (LeftQuiet(e.after, e.Open()) && Plainly(f, section, key, top) ==>
            && |Found(e.Was(), f)| == |head| + (if Fits(f, m) then |e.was| else 0) + |rest|
            && (!Fits(f, m) || e.was == [] ==> Found(e.Was(), f) == head + rest))
  {
    hide Kept, Marks, After, Read, Next, AssignedValue, Scan, LeftQuiet, Found, IsTable, AssignedKey;
    var r, m := After(e.before, START), Mark.Set([section, key], top, value);
    OldLine(e, section, key, top, value);
    OneLine(e.line, r);
    OfPieces(e.before, [e.line], e.after, f);
    OfPieces(e.before, e.was, e.after, f);
    if LeftQuiet(e.after, e.Open()) && Plainly(f, section, key, top) {
      LeftOverKept(e.after, After(e.was, r), section, key, f);
    }
    KeptOne(m, f);
    if e.was == [] {
      assert Kept([], f) == [] by { NoneKept(f); }
    } else {
      KeptOne(Mark.Set([section, key], top, AssignedValue(e.was[0])), f);
    }
  }

  lemma NoneKept(f: Kind)
    ensures Kept([], f) == []
  {
  }

  /** The lines around an edit that hits read as they did iff the left-over lines are quiet. */
  lemma HitAround(e: Edit, section: string, key: string, top: bool, value: string)
    requires Hits(e, section, key, top, value)
    ensures
      var i, n := |e.before|, |e.after|;
      var ms, ns := Marks(e.Was(), START), Marks(e.Is(), START);
      && ms[..i] == ns[..i]
      && (LeftQuiet(e.after, e.Open()) ==>
            Masked(ms[|ms| - n..], section, key) == Masked(ns[|ns| - n..], section, key))
      && (Masked(ms[|ms| - n..], section, key) == Masked(ns[|ns| - n..], section, key)
          && Kept(Marks(e.after, After(e.before, START)), Setter(section, key)) == [] ==>
            LeftQuiet(e.after, e.Open()))
  {
    hide Kept, Marks, After, Read, Next, AssignedValue, Scan, LeftQuiet, Found, IsTable, AssignedKey, Masked, Fits;
    var r := After(e.before, START);
    var r' := After(e.was, r);
    OldLine(e, section, key, top, value);
    OneLine(e.line, r);
    TailMarks(e.before, e.was, e.after);
    TailMarks(e.before, [e.line], e.after);
    if LeftQuiet(e.after, e.Open()) {
      LeftOver(e.after, r', section, key);
    } else if
      && Masked(Marks(e.after, r'), section, key) == Masked(Marks(e.after, r), section, key)
      && Kept(Marks(e.after, r), Setter(section, key)) == []
    {
      OnlyLeftOver(e.after, r', section, key);
    }
  }

  lemma TailMarks(before: seq<string>, mid: seq<string>, after: seq<string>)
    ensures
      var ms, r := Marks(before + mid + after, START), After(before, START);
      ms[..|before|] == Marks(before, START) && ms[|ms| - |after|..] == Marks(after, After(mid, r))
  {
    hide Marks, After;
    assert before + mid + after == before + (mid + after);
    ReadingSplit(before, mid + after, START);
    ReadingSplit(mid, after, After(before, START));
  }

  // ---- the laws ----

  lemma KindsArePlain(section: string, key: string, top: bool, s: string, k: string)
    ensures Plainly(Opener(s), section, key, top) && Plainly(TopDefiner(s), section, key, top)
    ensures Plainly(Setter(s, k), section, key, top) && Plainly(Tabler(s, k), section, key, top)
    ensures s != section || k != key ==> Plainly(OfKey(s, k), section, key, top)
  {
    assert [s, k][0] == s && [s, k][1] == k && [section, key][0] == section && [section, key][1] == key;
  }

  lemma NoneQuiet(s: string, k: string)
    ensures !Fits(OfKey(s, k), Quiet) && !Fits(Opener(s), Quiet) && !Fits(TopDefiner(s), Quiet)
  {
  }

  /** One value is given iff one line sets the key and has it. */
  lemma OneValue(ls: seq<string>, section: string, key: string, value: string)
    ensures Values(ls, section, key) == [value] ==> |Found(ls, Setter(section, key))| == 1
    ensures
      forall top :: Found(ls, Setter(section, key)) == [Mark.Set([section, key], top, value)] ==>
        Values(ls, section, key) == [value]
  {
    hide Found;
  }

  /** What the mark of the new line counts for. */
  lemma NewLineCounts(section: string, key: string, top: bool, value: string, s: string, k: string)
    ensures
      var m := Mark.Set([section, key], top, value);
      && !Fits(Opener(s), m) && (Fits(TopDefiner(s), m) <==> top && s == section)
      && (Fits(Setter(s, k), m) <==> s == section && k == key) && !Fits(Tabler(s, k), m)
      && (Fits(OfKey(s, k), m) <==> s == section && k == key)
  {
    assert [s, k] == [section, key] ==> [s, k][0] == [section, key][0] && [s, k][1] == [section, key][1];
  }

  /** An edit that hits is right iff it found all there was. */
  lemma HitExactly(ls: seq<string>, e: Edit, section: string, key: string, top: bool, value: string)
    requires Hits(e, section, key, top, value) && e.Was() == ls && e.Is() == SetLines(ls, section, key, value)
    requires |e.was| == Known(ls, section, key) && |e.before| == EditAt(ls, section, key)
    requires top == InDots(ls, section, key) && !top == SectionIndex(ls, section).Some?
    requires !top ==> After(e.before, START).place == In([section])
    ensures Right(ls, section, key, value) <==> Clear(ls, section, key)
  {
    hide Kept, Marks, After, Read, Next, AssignedValue, Scan, LeftQuiet, Found, IsTable, AssignedKey, Masked;
    hide Fits, EditAt, Known, SetLines, SectionIndex, InDots, Edit.Was, Edit.Open;
    hide Plainly, Values, WasOpen, Behind, Path;
    EditAround(e, ls, section, key);
    HitAround(e, section, key, top, value);
    KindsArePlain(section, key, top, section, key);
    NewLineCounts(section, key, top, value, section, key);
    HitReads(e, section, key, top, value, Setter(section, key));
    HitReads(e, section, key, top, value, Opener(section));
    HitReads(e, section, key, top, value, TopDefiner(section));
    HitReads(e, section, key, top, value, Tabler(section, key));
    OneValue(e.Is(), section, key, value);
    if !top { OpenedBefore(e.before, section); }
    if Clear(ls, section, key) {
      assert Found(e.Is(), Setter(section, key)) == [Mark.Set([section, key], top, value)];
      assert Values(e.Is(), section, key) == [value];
      assert Found(e.Is(), TopDefiner(section)) != [] ==> !SectionIndex(ls, section).Some?;
      assert Gives(e.Is(), section, key, value);
      assert SameAround(ls, e.Is(), section, key);
    }
    if Right(ls, section, key, value) {
      assert LeftQuiet(e.after, e.Open());
      assert Lands(ls, section, key);
      assert |Found(ls, Opener(section))| == (if SectionIndex(ls, section).Some? then 1 else 0);
      assert (Found(ls, TopDefiner(section)) != [] ==> InDots(ls, section, key));
      assert |Found(ls, Setter(section, key))| == Known(ls, section, key);
      assert Clear(ls, section, key);
    }
  }

  lemma OpenedBefore(ls: seq<string>, section: string)
    requires After(ls, START).place == In([section])
    ensures Found(ls, Opener(section)) != []
  {
    hide After, Kept;
    PlaceOpened(ls, START, section);
  }

  /** The lines above the new one. */
  function Above(ls: seq<string>, section: string, key: string): seq<string> {
    if SectionIndex(ls, section).Some? || InDots(ls, section, key) then ls[..EditAt(ls, section, key)]
    else ls + Gap(ls) + [Header(section)]
  }

  /** The blank line before a new section. */
  function Gap(ls: seq<string>): seq<string> { if ls != [] && !IsBlank(ls[|ls| - 1]) then [""] else [] }

  function NewLine(ls: seq<string>, section: string, key: string, value: string): string {
    Line(if InDots(ls, section, key) then Dotted(section, key) else key, value)
  }

  /** The edit puts one line in a place that does not depend on the value. */
  lemma OneNewLine(ls: seq<string>, section: string, key: string, value: string)
    requires Bare(section) && Bare(key) && Literal(value)
    ensures
      SetLines(ls, section, key, value) ==
        Above(ls, section, key) + [NewLine(ls, section, key, value)] + Behind(ls, section, key)
  {
    hide SetLines, SectionIndex, EditAt, IsBlank, Known, Line, Header, Literal, Bare, Edit.Was;
    if SectionIndex(ls, section).Some? {
      assert !InDots(ls, section, key);
      hide InDots;
      var e := SectionEdit(ls, section, key, value);
      EditAround(e, ls, section, key);
    } else if InDots(ls, section, key) {
      hide InDots;
      var e := DottedEdit(ls, section, key, value);
      EditAround(e, ls, section, key);
    } else {
      hide InDots;
      NewSectionIs(ls, section, key, value);
    }
  }

  lemma GapSays(ls: seq<string>, r: Reading)
    requires r.nest == SHUT
    ensures Marks(Gap(ls), r) == seq(|Gap(ls)|, _ => Quiet) && After(Gap(ls), r) == r
  {
    hide Read, Next, IsBlank;
    BlankSays(r);
    OneLine("", r);
  }

  lemma HeaderSays(section: string, r: Reading)
    requires Bare(section) && r.nest == SHUT
    ensures Read(Header(section), r) == Table([section])
    ensures Next(Header(section), r) == Reading(In([section]), SHUT, [])
  {
    hide Header, TableHeader, Path;
    HeaderReads(section);
  }

  lemma BlankSays(r: Reading)
    requires r.nest == SHUT
    ensures Read("", r) == Quiet && Next("", r) == r
  {
    assert Trim("") == "";
  }

  /** The marks of a new section. */
  lemma NewMarks(ls: seq<string>, r: Reading, section: string, key: string, value: string)
    requires Bare(section) && Bare(key) && Complete(value) && r.nest == SHUT
    ensures
      Marks(NewSection(ls, section, key, value), r) ==
        seq(|Gap(ls)|, _ => Quiet) + [Table([section]), Mark.Set([section, key], false, value)]
  {
    hide Marks, After, Gap, Header, Read, Next, Line, Complete, Bare;
    var r', line := Reading(In([section]), SHUT, []), Line(key, value);
    assert NewSection(ls, section, key, value) == Gap(ls) + ([Header(section)] + [line]) by {
      NewSectionParts(ls, section, key, value);
    }
    GapSays(ls, r);
    HeaderSays(section, r);
    LineSays(r', section, key, value);
    assert In([section]).Full([key]) == [section, key];
    OneLine(Header(section), r);
    OneLine(line, r');
    ReadingSplit([Header(section)], [line], r);
    ReadingSplit(Gap(ls), [Header(section)] + [line], r);
  }

  lemma NewSectionParts(ls: seq<string>, section: string, key: string, value: string)
    ensures NewSection(ls, section, key, value) == Gap(ls) + [Header(section), Line(key, value)]
  {
  }

  lemma {:induction false} QuietKept(n: nat, f: Kind)
    requires !Fits(f, Quiet)
    ensures Kept(seq(n, _ => Quiet), f) == []
  {
    if n > 0 {
      assert seq(n, _ => Quiet)[1..] == seq(n - 1, _ => Quiet);
      QuietKept(n - 1, f);
    }
  }

  lemma KeptTwo(a: Mark, b: Mark, f: Kind)
    ensures Kept([a, b], f) == (if Fits(f, a) then [a] else []) + (if Fits(f, b) then [b] else [])
  {
    hide Kept, Fits;
    assert [a, b] == [a] + [b];
    KeptSplit([a], [b], f);
    KeptOne(a, f);
    KeptOne(b, f);
  }

  lemma QuietThenTwo(n: nat, a: Mark, b: Mark, f: Kind)
    requires !Fits(f, Quiet)
    ensures Kept(seq(n, _ => Quiet) + [a, b], f) == Kept([a, b], f)
  {
    hide Kept;
    KeptSplit(seq(n, _ => Quiet), [a, b], f);
    QuietKept(n, f);
  }

  /** What a new section adds to what a reader finds. */
  lemma NewReads(ls: seq<string>, section: string, key: string, value: string, f: Kind)
    requires Bare(section) && Bare(key) && Complete(value) && After(ls, START).nest == SHUT && !Fits(f, Quiet)
    ensures
      var now, m := ls + NewSection(ls, section, key, value), Mark.Set([section, key], false, value);
      && Marks(now, START)[..|ls|] == Marks(ls, START)
      && Found(now, f) ==
           Found(ls, f) + (if Fits(f, Table([section])) then [Table([section])] else [])
             + (if Fits(f, m) then [m] else [])
  {
    hide Kept, Marks, After, Gap, Complete, Bare, NewSection;
    var more, m := NewSection(ls, section, key, value), Mark.Set([section, key], false, value);
    NewMarks(ls, After(ls, START), section, key, value);
    ReadingSplit(ls, more, START);
    KeptSplit(Marks(ls, START), Marks(more, After(ls, START)), f);
    QuietThenTwo(|Gap(ls)|, Table([section]), m, f);
    KeptTwo(Table([section]), m, f);
  }

  lemma NewHeaderCounts(section: string, s: string, k: string)
    ensures
      var m := Table([section]);
      && (Fits(Opener(s), m) <==> s == section) && !Fits(TopDefiner(s), m) && !Fits(Setter(s, k), m)
        && !Fits(Tabler(s, k), m) && !Fits(OfKey(s, k), m)
  {
  }

  /** A new section under a shut text is right iff nothing of the section was there. */
  lemma NewExactly(ls: seq<string>, section: string, key: string, value: string)
    requires Bare(section) && Bare(key) && Complete(value)
    requires SectionIndex(ls, section).None? && !InDots(ls, section, key) && After(ls, START).nest == SHUT
    ensures Right(ls, section, key, value) <==> Clear(ls, section, key)
  {
    hide Kept, Marks, After, Scan, Found, Masked, Complete, Bare;
    hide Fits, EditAt, Known, SetLines, SectionIndex, InDots;
    hide Plainly, Values, NewSection;
    NewSectionIs(ls, section, key, value);
    KindsArePlain(section, key, false, section, key);
    NewReads(ls, section, key, value, Setter(section, key));
    NewReads(ls, section, key, value, Opener(section));
    NewReads(ls, section, key, value, TopDefiner(section));
    NewReads(ls, section, key, value, Tabler(section, key));
    NewHeaderCounts(section, section, key);
    NewLineCounts(section, key, false, value, section, key);
    OneValue(ls + NewSection(ls, section, key, value), section, key, value);
    assert ls[..|ls|] == ls && Marks(ls, START)[..|ls|] == Marks(ls, START);
  }

  // ---- an edit that misses ----

  /** Characters that open and close nothing. */
  predicate Dull(t: string) { forall i :: 0 <= i < |t| ==> IsBare(t[i]) || t[i] in ". =" }

  lemma {:induction false} DullScan(t: string, u: string, n: Nest)
    requires Dull(t)
    ensures Scan(t + u, n) == Scan(u, n)
  {
    if t == [] {
      assert t + u == u;
    } else {
      assert (t + u)[0] == t[0] && (t + u)[1..] == t[1..] + u;
      DullScan(t[1..], u, n);
    }
  }

  /** A header's brackets open nothing for good. */
  lemma HeaderScan(section: string, n: Nest)
    requires Bare(section) && !n.mode.Basic? && !n.mode.Lit?
    ensures Scan(Header(section), n) == n
  {
    var open := if n.mode.Plain? then n.(depth := n.depth + 1) else n;
    var h := Header(section);
    assert h[0] == '[' && h[1..] == section + "]";
    DullScan(section, "]", open);
    assert "]"[1..] == "";
    assert Scan("]", open) == Scan("", n) == n;
    assert Scan(h, n) == Scan(h[1..], open);
  }

  /** Some literals that are complete and dull. */
  predicate Digit(v: string) { v == "1" || v == "2" }

  lemma DigitsComplete(v: string)
    requires Digit(v)
    ensures Complete(v)
  {
    DullScan(v, "", SHUT);
    assert v + "" == v;
  }

  lemma DullLine(key: string, v: string, n: Nest)
    requires KeyText(key) && Digit(v)
    ensures Scan(Line(key, v), n) == Scan("", n)
  {
    assert Dull(key) && Dull(" = ") && Dull(v);
    assert Line(key, v) == key + (" = " + (v + ""));
    DullScan(key, " = " + (v + ""), n);
    DullScan(" = ", v + "", n);
    DullScan(v, "", n);
  }

  /** Inside an open value, a new section's header is part of the value. */
  lemma GapAndHeaderOpen(ls: seq<string>, r: Reading, section: string)
    requires Bare(section) && r.OK() && r.nest != SHUT
    ensures After(Gap(ls) + [Header(section)], r) == r
  {
    hide Scan, Header, IsBlank, Bare;
    HeaderScan(section, r.nest);
    assert Scan("", r.nest) == r.nest by { DullEmpty(r.nest); }
    OneLine("", r);
    OneLine(Header(section), r);
    ReadingSplit(Gap(ls), [Header(section)], r);
    if Gap(ls) == [] { assert [] + [Header(section)] == [Header(section)]; }
  }

  lemma DullEmpty(n: Nest)
    requires !n.mode.Basic? && !n.mode.Lit?
    ensures Scan("", n) == n
  {
  }

  /** Where the new line stands, when the edit misses: in a value, or not under the section. */
  lemma MissedPlace(ls: seq<string>, section: string, key: string)
    requires Bare(section) && Bare(key) && !Lands(ls, section, key)
    ensures
      var r := After(Above(ls, section, key), START);
      r.OK() && (r.nest != SHUT || (!InDots(ls, section, key) && r.place != In([section])))
  {
    hide Scan, Header, IsBlank, Bare, After, InDots, SectionIndex, EditAt, Gap;
    if SectionIndex(ls, section).None? && !InDots(ls, section, key) {
      NewSectionIs(ls, section, key, "1");
      assert ls[..|ls|] == ls;
      var r := After(ls, START);
      GapAndHeaderOpen(ls, r, section);
      assert ls + Gap(ls) + [Header(section)] == ls + (Gap(ls) + [Header(section)]);
      ReadingSplit(ls, Gap(ls) + [Header(section)], START);
    } else if SectionIndex(ls, section).Some? {
      assert !InDots(ls, section, key) by { DotsOrHeader(ls, section, key); }
    }
  }

  lemma DotsOrHeader(ls: seq<string>, section: string, key: string)
    ensures InDots(ls, section, key) ==> SectionIndex(ls, section).None?
  {
  }

  /** A line that misses does not set the key, and its value makes no difference to what follows. */
  lemma MissedLine(r: Reading, section: string, key: string, v: string, w: string, dotted: bool)
    requires Bare(section) && Bare(key) && Digit(v) && Digit(w) && r.OK()
    requires r.nest != SHUT || (!dotted && r.place != In([section]))
    ensures
      var kt := if dotted then Dotted(section, key) else key;
      && !Fits(Setter(section, key), Read(Line(kt, v), r)) && Next(Line(kt, v), r) == Next(Line(kt, w), r)
  {
    hide Line, AssignedKey, AssignedValue, TableHeader, Path, Scan, Trim, Complete, Dotted, Bare, KeyText, IsQuiet;
    hide Literal;
    var kt := if dotted then Dotted(section, key) else key;
    BareText(key);
    DottedText(section, key);
    DullLine(kt, v, r.nest);
    DullLine(kt, w, r.nest);
    if r.nest == SHUT {
      DigitsComplete(v);
      DigitsComplete(w);
      LineSays(r, section, key, v);
      LineSays(r, section, key, w);
      NotUnder(r.place, section, key);
    }
  }

  lemma NotUnder(place: Place, section: string, key: string)
    requires place != In([section])
    ensures place.Full([key]) != [section, key]
  {
    assert place.In? ==> (place.table + [key])[..|place.table|] == place.table;
    assert [section, key][..1] == [section];
  }

  /** An edit that misses is not right for every value: the line it wrote is not what sets the key. */
  lemma MissedIsWrong(ls: seq<string>, section: string, key: string)
    requires Bare(section) && Bare(key) && !Lands(ls, section, key)
    ensures !Right(ls, section, key, "1") || !Right(ls, section, key, "2")
  {
    hide SetLines, Above, Behind, InDots, Found, Read, Next, Line, Marks, After, Kept, Lands, SameAround;
    hide Literal, Scan, Fits, Dotted, EditAt, Known, Bare;
    var f, r, behind := Setter(section, key), After(Above(ls, section, key), START), Behind(ls, section, key);
    var one, two := NewLine(ls, section, key, "1"), NewLine(ls, section, key, "2");
    DigitsComplete("1");
    DigitsComplete("2");
    OneNewLine(ls, section, key, "1");
    OneNewLine(ls, section, key, "2");
    MissedPlace(ls, section, key);
    MissedLine(r, section, key, "1", "2", InDots(ls, section, key));
    MissedLine(r, section, key, "2", "1", InDots(ls, section, key));
    OneLine(one, r);
    OneLine(two, r);
    OfPieces(Above(ls, section, key), [one], behind, f);
    OfPieces(Above(ls, section, key), [two], behind, f);
    KeptOne(Read(one, r), f);
    KeptOne(Read(two, r), f);
    assert ["1"][0] != ["2"][0];
  }

  // ---- the get/put law ----

  lemma SectionHits(ls: seq<string>, section: string, key: string, value: string) returns (e: Edit)
    requires Bare(section) && Bare(key) && Complete(value)
    requires Lands(ls, section, key) && SectionIndex(ls, section).Some?
    ensures e.Was() == ls && e.Is() == SetLines(ls, section, key, value)
    ensures |e.was| == Known(ls, section, key) && |e.before| == EditAt(ls, section, key)
    ensures Hits(e, section, key, false, value) && After(e.before, START).place == In([section])
    ensures e.after == Behind(ls, section, key) && e.Open() == WasOpen(ls, section, key)
  {
    hide SetLines, EditAt, Known, Edit.Was, Edit.Is, Edit.Replaces, Line, Read, Next, Scan, After, SectionIndex, Bare;
    e := SectionEdit(ls, section, key, value);
    EditAround(e, ls, section, key);
    LineSays(After(e.before, START), section, key, value);
    assert In([section]).Full([key]) == [section, key];
  }

  lemma DottedHits(ls: seq<string>, section: string, key: string, value: string) returns (e: Edit)
    requires Bare(section) && Bare(key) && Complete(value)
    requires Lands(ls, section, key) && InDots(ls, section, key)
    ensures e.Was() == ls && e.Is() == SetLines(ls, section, key, value)
    ensures |e.was| == Known(ls, section, key) && |e.before| == EditAt(ls, section, key)
    ensures Hits(e, section, key, true, value)
    ensures e.after == Behind(ls, section, key) && e.Open() == WasOpen(ls, section, key)
  {
    hide SetLines, EditAt, Known, Edit.Was, Edit.Is, Edit.Replaces, Line, Read, Next, Scan, After, SectionIndex, Bare;
    hide InDots, Dotted;
    e := DottedEdit(ls, section, key, value);
    EditAround(e, ls, section, key);
    LineSays(After(e.before, START), section, key, value);
  }

  /** Between values, the edit is right iff it found all there was. */
  lemma LandedExactly(ls: seq<string>, section: string, key: string, value: string)
    requires Bare(section) && Bare(key) && Complete(value) && Lands(ls, section, key)
    ensures Right(ls, section, key, value) <==> Clear(ls, section, key)
  {
    DotsOrHeader(ls, section, key);
    hide Right, Clear, InDots, SectionIndex, Hits, EditAt, Bare, Complete, After;
    if SectionIndex(ls, section).Some? {
      var e := SectionHits(ls, section, key, value);
      HitExactly(ls, e, section, key, false, value);
    } else if InDots(ls, section, key) {
      var e := DottedHits(ls, section, key, value);
      HitExactly(ls, e, section, key, true, value);
    } else {
      NewSectionIs(ls, section, key, value);
      assert ls[..|ls|] == ls;
      NewExactly(ls, section, key, value);
    }
  }

  /**
   * Put then get: for whatever value, the edited text gives it, once and in a section defined
   * once, and all other lines read as they did, exactly when the edit found all there was.
   */
  lemma GetAfterSet(ls: seq<string>, section: string, key: string)
    requires Bare(section) && Bare(key)
    ensures (forall v :: Complete(v) ==> Right(ls, section, key, v)) <==> Clear(ls, section, key)
  {
    hide Right, Lands, Complete, Bare;
    if Lands(ls, section, key) {
      forall v | Complete(v) ensures Right(ls, section, key, v) <==> Clear(ls, section, key) {
        LandedExactly(ls, section, key, v);
      }
      DigitsComplete("1");
    } else {
      DigitsComplete("1");
      DigitsComplete("2");
      MissedIsWrong(ls, section, key);
    }
  }

  /** Where a line of the kind is not the edited one, the edit does not touch what is found. */
  lemma HitKeeps(e: Edit, section: string, key: string, top: bool, value: string, f: Kind)
    requires Hits(e, section, key, top, value) && LeftQuiet(e.after, e.Open()) && Plainly(f, section, key, top)
    requires !Fits(f, Mark.Set([section, key], top, value))
    ensures Found(e.Is(), f) == Found(e.Was(), f)
  {
    hide *;
    HitReads(e, section, key, top, value, f);
  }

  /** What does not fit the new line nor its header is found as before. */
  lemma KindKept(ls: seq<string>, section: string, key: string, value: string, f: Kind)
    requires Bare(section) && Bare(key) && Complete(value)
    requires Lands(ls, section, key) && LeftQuiet(Behind(ls, section, key), WasOpen(ls, section, key))
    requires Plainly(f, section, key, true) && Plainly(f, section, key, false) && !Fits(f, Quiet)
    requires !Fits(f, Mark.Set([section, key], true, value)) && !Fits(f, Mark.Set([section, key], false, value))
    requires !Fits(f, Table([section]))
    ensures Found(SetLines(ls, section, key, value), f) == Found(ls, f)
  {
    hide *;
    if SectionIndex(ls, section).Some? {
      var e := SectionHits(ls, section, key, value);
      HitKeeps(e, section, key, false, value, f);
    } else if InDots(ls, section, key) {
      var e := DottedHits(ls, section, key, value);
      HitKeeps(e, section, key, true, value, f);
    } else {
      NewSectionIs(ls, section, key, value);
      assert ls[..|ls|] == ls;
      LandsShut(ls, section, key);
      NewReads(ls, section, key, value, f);
    }
  }

  lemma LandsShut(ls: seq<string>, section: string, key: string)
    requires Lands(ls, section, key)
    ensures After(ls[..EditAt(ls, section, key)], START).nest == SHUT
  {
    hide After, EditAt;
  }

  /**
   * Put leaves every other key of every section as it was, line by line of its value, in both
   * layouts and any spelling, when it stands between values and takes the whole of the old one.
   */
  lemma OthersKept(ls: seq<string>, section: string, key: string, value: string, s: string, k: string)
    requires Bare(section) && Bare(key) && Complete(value) && (s != section || k != key)
    requires Lands(ls, section, key) && LeftQuiet(Behind(ls, section, key), WasOpen(ls, section, key))
    ensures Found(SetLines(ls, section, key, value), OfKey(s, k)) == Found(ls, OfKey(s, k))
    ensures s != section ==>
      && Found(SetLines(ls, section, key, value), Opener(s)) == Found(ls, Opener(s))
      && Found(SetLines(ls, section, key, value), TopDefiner(s)) == Found(ls, TopDefiner(s))
  {
    hide *;
    KindsArePlain(section, key, true, s, k);
    KindsArePlain(section, key, false, s, k);
    NewLineCounts(section, key, true, value, s, k);
    NewLineCounts(section, key, false, value, s, k);
    NewHeaderCounts(section, s, k);
    assert !Fits(OfKey(s, k), Quiet) && !Fits(Opener(s), Quiet) && !Fits(TopDefiner(s), Quiet) by { NoneQuiet(s, k); }
    KindKept(ls, section, key, value, OfKey(s, k));
    if s != section {
      KindKept(ls, section, key, value, Opener(s));
      KindKept(ls, section, key, value, TopDefiner(s));
    }
  }
}
