/**
 * Texts in which the edit does not find all there is, one of each kind, and what it makes of them.
 */
module SetKeyMisses {
  import opened Wrappers
  import opened Lines
  import opened Texts
  import opened SetKeys
  import opened TomlReader
  import opened SetKeyLaws
  import opened SetKeyTwice

  /** A name in brackets, with white space in it or not. */
  lemma BracketsRead(name: string)
    requires name != "" && name[0] != '[' && ']' !in name
    ensures TableHeader(Header(name)) == Some(Trim(name)) && IsTable(Header(name))
  {
    var h := Header(name);
    assert |h| == |name| + 2 && h[0] == '[' && h[1..|name| + 1] == name && h[|name| + 1] == ']';
    assert forall i :: 1 <= i < |name| + 1 ==> h[i] == name[i - 1];
    assert h[1] == name[0];
    IndexOfIs(h, ']', |name| + 1);
    TrimTight(h);
    hide Trim, IndexOf;
    assert !HasPrefix(h, "[[");
  }

  /** A header with another name or another spelling is not the one the edit looks for. */
  lemma OtherBracket(name: string, section: string, i: nat)
    requires i < |name| && i <= |section| && name[i] != (section + "]")[i]
    ensures !IsSection(Header(name), section)
  {
    var h := Header(name);
    assert h[0] == '[' && h[|h| - 1] == ']';
    TrimTight(h);
    assert h[i + 1] == name[i] && Header(section)[i + 1] == (section + "]")[i];
    assert Header(section) == "[" + section + "]";
  }

  /** Where the edit stands in a text that is one header of something else. */
  lemma UnderOneHeader(h: string, section: string, key: string, value: string)
    requires IsTable(h) && !IsSection(h, section)
    ensures SectionIndex([h], section).None? && !InDots([h], section, key)
    ensures SetLines([h], section, key, value) == [h] + NewSection([h], section, key, value)
  {
    hide IsTable, IsSection;
    NoSectionIn([h], section);
    assert TopLength([h]) == 0 && [h][..0] == [];
    NewSectionIs([h], section, key, value);
  }

  /** Both layouts at once: the section is there twice. */
  lemma BothLayouts()
    ensures !Clear([Line(Dotted("a", "k"), "1"), Header("a")], "a", "k")
  {
    hide Line, Header, Read, Next, Scan, IsTable, IsSection, EditAt, Known, Lands, Behind, WasOpen, Complete;
    hide Kept, Marks, TopLength, Dotted, Values;
    var l, h := Line(Dotted("a", "k"), "1"), Header("a");
    DigitsComplete("1");
    LineSays(START, "a", "k", "1");
    HeaderReads("a");
    DottedText("a", "k");
    assert !IsTable(l) by { LineReads(Dotted("a", "k"), "1"); }
    SectionIsTable(l, "a");
    SectionIndexIs([l, h], "a", 1);
    TwoLines(l, h, START);
    KeptTwo(Mark.Set(["a", "k"], true, "1"), Read(h, Next(l, START)), TopDefiner("a"));
    assert Found([l, h], TopDefiner("a")) != [];
  }

  /** A header in another spelling: the edit opens the section a second time. */
  lemma SpacedHeader()
    ensures
      var ls := [Header(" a ")];
      !Clear(ls, "a", "k") && |Found(SetLines(ls, "a", "k", "1"), Opener("a"))| == 2
  {
    hide Header, Scan, IsSection, EditAt, Lands, Behind, WasOpen, Complete, Line, Path, Trim, TableHeader;
    var h := Header(" a ");
    BracketsRead(" a ");
    SpacedTrims();
    NoDot("a");
    assert !IsSection(h, "a") by { OtherBracket(" a ", "a", 0); }
    UnderOneHeader(h, "a", "k", "1");
    OneLine(h, START);
    DigitsComplete("1");
    NewReads([h], "a", "k", "1", Opener("a"));
    KeptOne(Table(["a"]), Opener("a"));
  }

  lemma SpacedTrims()
    ensures Trim(" a ") == "a"
  {
    assert " a "[1..] == "a " && "a "[..1] == "a";
    assert TrimLeft(" a ") == TrimLeft("a ") == "a ";
  }

  /** A key that is a table: the edit sets it a second time. */
  lemma KeyIsTable()
    ensures
      var ls := [Header("a.k")];
      !Clear(ls, "a", "k") && Found(SetLines(ls, "a", "k", "1"), Tabler("a", "k")) == [Table(["a", "k"])]
  {
    hide Header, Scan, IsSection, EditAt, Lands, Behind, WasOpen, Complete, Line, Path, Trim, TableHeader;
    var h := Header("a.k");
    BracketsRead("a.k");
    TrimTight("a.k");
    assert "a.k" == "a" + "." + "k";
    PathOfDotted("a", "k");
    NoDot("k");
    assert ["a"] + ["k"] == ["a", "k"];
    assert !IsSection(h, "a") by { OtherBracket("a.k", "a", 1); }
    UnderOneHeader(h, "a", "k", "1");
    OneLine(h, START);
    DigitsComplete("1");
    NewReads([h], "a", "k", "1", Tabler("a", "k"));
    KeptOne(Table(["a", "k"]), Tabler("a", "k"));
  }

  /** The edit of a key on the line below the only header. */
  lemma FirstOfBody(w: string, rest: seq<string>, v: string)
    requires Literal(w) && Literal(v) && forall i :: 0 <= i < |rest| ==> !IsTable(rest[i])
    ensures
      var ls := [Header("a"), Line("k", w)] + rest;
      && SetLines(ls, "a", "k", v) == [Header("a"), Line("k", v)] + rest
      && Known(ls, "a", "k") == 1 && EditAt(ls, "a", "k") == 1
      && Behind(ls, "a", "k") == rest && WasOpen(ls, "a", "k") == Scan(w, SHUT)
  {
    hide *;
    var body := [Line("k", w)] + rest;
    var ls := [Header("a")] + body + [];
    assert [Header("a"), Line("k", w)] + rest == ls;
    FlatBody(w, rest, v);
    BodyOfHeader(ls, body);
    SetInParts(ls, [Header("a")], body, [], "a", "k", v);
    assert [Header("a"), Line("k", v)] + rest == [Header("a")] + ([Line("k", v)] + rest) + [];
    OpenIs(ls, w);
    assert ls[2..] == rest;
  }

  lemma BodyOfHeader(ls: seq<string>, body: seq<string>)
    requires ls == [Header("a")] + body && body != [] && forall i :: 0 <= i < |body| ==> !IsTable(body[i])
    requires KeyIndex(body, "k") == Some(0)
    ensures IsSection(Header("a"), "a") && Known(ls, "a", "k") == 1 && EditAt(ls, "a", "k") == 1
  {
    hide IsTable, IsSection, KeyIndex, Known, EditAt, Header;
    SectionA();
    SectionIndexIs(ls, "a", 0);
    assert ls[1..] == body && body[..|body|] == body;
    TopLengthIs(body, |body|);
    KnownInSection(ls, "a", "k");
  }

  lemma SectionA()
    ensures IsSection(Header("a"), "a") && IsTable(Header("a"))
  {
    HeaderReads("a");
  }

  lemma OpenIs(ls: seq<string>, w: string)
    requires Known(ls, "a", "k") == 1 && EditAt(ls, "a", "k") == 1 && AssignedValue(ls[1]) == w
    ensures Behind(ls, "a", "k") == ls[2..] && WasOpen(ls, "a", "k") == Scan(w, SHUT)
  {
    hide Known, EditAt, Scan, AssignedValue;
  }

  lemma FlatBody(w: string, rest: seq<string>, v: string)
    requires Literal(w) && Literal(v) && forall i :: 0 <= i < |rest| ==> !IsTable(rest[i])
    ensures
      var body := [Line("k", w)] + rest;
      && (forall i :: 0 <= i < |body| ==> !IsTable(body[i])) && KeyIndex(body, "k") == Some(0) && BodyAt(body, "k") == 0
      && BodySet(body, "k", v) == [Line("k", v)] + rest && AssignedValue(body[0]) == w
  {
    hide IsTable, Literal, Line, AssignedKey, AssignedValue;
    var body := [Line("k", w)] + rest;
    LineReads("k", w);
    KeyIndexIs(body, "k", 0);
    assert body[0 := Line("k", v)] == [Line("k", v)] + rest;
  }

  /** What a reader has read after a header and a key. */
  lemma HeaderAndKey(key: string, w: string)
    requires Bare(key) && Literal(w)
    ensures
      var two := [Header("a"), Line(key, w)];
      && Marks(two, START) == [Table(["a"]), Mark.Set(["a", key], false, w)]
      && After(two, START) == Reading(In(["a"]), Scan(w, SHUT), ["a", key]).Settled()
  {
    hide Header, Line, AssignedKey, AssignedValue, TableHeader, Path, Scan, Literal, IsQuiet;
    var h, l, r := Header("a"), Line(key, w), Reading(In(["a"]), SHUT, []);
    HeaderSays("a", START);
    BareText(key);
    LineReads(key, w);
    NoDot(key);
    OneLine(h, START);
    OneLine(l, r);
    assert In(["a"]).Full([key]) == ["a", key];
    assert [h, l] == [h] + [l];
    ReadingSplit([h], [l], START);
  }

  lemma BracketOpens()
    ensures Literal("[") && Scan("[", SHUT) == Nest(1, Plain)
    ensures !IsTable("]") && !IsQuiet("]") && Read("]", Reading(In(["a"]), SHUT, [])) == Stray("]")
  {
    assert "["[1..] == "";
    TrimTight("]");
    HeaderIsTable("]");
  }

  /** A value over several lines: the edit replaces the first line and leaves the last behind. */
  lemma ValueOverLines()
    ensures
      var ls := [Header("a"), Line("k", "["), "]"];
      var now := SetLines(ls, "a", "k", "1");
      && !Clear(ls, "a", "k") && now == [Header("a"), Line("k", "1"), "]"]
      && Marks(now, START)[2] == Stray("]")
  {
    hide Header, Line, IsTable, Read, Next, Scan, IsQuiet, SetLines, Known, EditAt, Behind, WasOpen, Lands, After;
    hide Marks;
    BracketOpens();
    DigitsComplete("1");
    var ls, two := [Header("a"), Line("k", "["), "]"], [Header("a"), Line("k", "1")];
    assert ls == [Header("a"), Line("k", "[")] + ["]"] && two + ["]"] == [Header("a"), Line("k", "1"), "]"];
    FirstOfBody("[", ["]"], "1");
    HeaderAndKey("k", "1");
    ReadingSplit(two, ["]"], START);
    OneLine("]", Reading(In(["a"]), SHUT, []));
  }

  const QUOTES := "\"\"\""

  lemma QuotesOpen()
    ensures Literal(QUOTES) && Scan(QUOTES, SHUT) == Nest(0, Basic3) && !IsTable(QUOTES)
    ensures Read(QUOTES, Reading(In(["a"]), SHUT, [])) == Stray(QUOTES)
  {
    assert QUOTES[0] == '"' && QUOTES[1] == '"' && QUOTES[2] == '"' && |QUOTES| == 3 && QUOTES[3..] == "";
    assert QUOTES[1..][1..][1..] == "";
    assert Quotes(QUOTES, '"', 3) == 3 by { assert QUOTES[1..][0] == '"' && QUOTES[1..][1..][0] == '"'; }
    TrimTight(QUOTES);
    HeaderIsTable(QUOTES);
  }

  lemma TwoLines(a: string, b: string, r: Reading)
    ensures Marks([a, b], r) == [Read(a, r), Read(b, Next(a, r))]
  {
    hide Read, Next;
    OneLine(b, Next(a, r));
    assert [a, b][1..] == [b];
  }

  lemma KeptFour(a: Mark, b: Mark, c: Mark, d: Mark, f: Kind)
    ensures
      Kept([a, b] + [c, d], f) ==
        (if Fits(f, a) then [a] else []) + (if Fits(f, b) then [b] else [])
        + (if Fits(f, c) then [c] else []) + (if Fits(f, d) then [d] else [])
  {
    hide Kept, Fits;
    KeptSplit([a, b], [c, d], f);
    KeptTwo(a, b, f);
    KeptTwo(c, d, f);
  }

  lemma InsideQuotes(r: Reading, line: string)
    requires r.nest != SHUT
    ensures Read(line, r) == More(r.path, line) && (Scan(line, r.nest) == r.nest ==> Next(line, r) == r)
  {
  }

  /** What a reader sees of a key behind an open string, and behind a value that is complete. */
  lemma KeyBehind(w: string)
    requires w == QUOTES || w == "1"
    ensures
      var two := [Line("j", "1"), QUOTES];
      Marks([Header("a"), Line("k", w)] + two, START) ==
        [Table(["a"]), Mark.Set(["a", "k"], false, w)]
        + if w == "1" then [Mark.Set(["a", "j"], false, "1"), Stray(QUOTES)]
          else [More(["a", "k"], Line("j", "1")), More(["a", "k"], QUOTES)]
  {
    hide Header, Line, IsTable, Read, Next, Scan, IsQuiet, After, Marks, Literal;
    var j, r := Line("j", "1"), Reading(In(["a"]), SHUT, []);
    var inside := Reading(In(["a"]), Nest(0, Basic3), ["a", "k"]);
    QuotesOpen();
    DigitsComplete("1");
    HeaderAndKey("k", w);
    LineSays(r, "a", "j", "1");
    assert In(["a"]).Full(["j"]) == ["a", "j"];
    assert Scan(j, inside.nest) == inside.nest by { DullLine("j", "1", inside.nest); DullEmpty(inside.nest); }
    InsideQuotes(inside, j);
    InsideQuotes(inside, QUOTES);
    ReadingSplit([Header("a"), Line("k", w)], [j, QUOTES], START);
    if w == "1" {
      TwoLines(j, QUOTES, r);
    } else {
      TwoLines(j, QUOTES, inside);
    }
  }

  /** A left-over line that looks like a key gives it a value it did not have. */
  lemma LeftOverKey()
    ensures
      var ls := [Header("a"), Line("k", QUOTES), Line("j", "1"), QUOTES];
      Values(ls, "a", "j") == [] && Values(SetLines(ls, "a", "k", "1"), "a", "j") == ["1"]
  {
    hide Header, Line, IsTable, Scan, SetLines, Known, EditAt, Behind, WasOpen, Marks, Literal, Kept;
    var j, f := [Line("j", "1"), QUOTES], Setter("a", "j");
    QuotesOpen();
    DigitsComplete("1");
    assert !IsTable(j[0]) by { LineReads("j", "1"); }
    FirstOfBody(QUOTES, j, "1");
    KeyBehind(QUOTES);
    KeyBehind("1");
    assert [Header("a"), Line("k", QUOTES), j[0], QUOTES] == [Header("a"), Line("k", QUOTES)] + j;
    KeptFour(Table(["a"]), Mark.Set(["a", "k"], false, QUOTES), More(["a", "k"], j[0]), More(["a", "k"], QUOTES), f);
    KeptFour(Table(["a"]), Mark.Set(["a", "k"], false, "1"), Mark.Set(["a", "j"], false, "1"), Stray(QUOTES), f);
    assert ["a", "k"][1] != ["a", "j"][1];
    OneValue([Header("a"), Line("k", "1")] + j, "a", "j", "1");
  }
}
