/**
 * A second edit of the same key overwrites the first, line for line and byte for byte.
 */
module SetKeyTwice {
  import opened Wrappers
  import opened Lines
  import opened Texts
  import opened SetKeys
  import opened SetKeyLaws

  lemma {:induction false} KeyIndexIs(b: seq<string>, key: string, i: nat)
    requires i < |b| && AssignedKey(b[i]) == key && forall k :: 0 <= k < i ==> AssignedKey(b[k]) != key
    ensures KeyIndex(b, key) == Some(i)
  {
    hide AssignedKey;
  }

  /** Putting a second value in a body overwrites the first. */
  lemma BodyTwice(b: seq<string>, key: string, v1: string, v2: string)
    requires KeyText(key) && Literal(v1) && Literal(v2)
    ensures BodySet(BodySet(b, key, v1), key, v2) == BodySet(b, key, v2)
  {
    hide AssignedKey, AssignedValue, IsTable, IsBlank, Line, KeyIndex, Unblanked, KeyText, Literal;
    LineReads(key, v1);
    var i, once := KeyIndex(b, key), BodySet(b, key, v1);
    if i.Some? {
      KeyIndexIs(once, key, i.value);
    } else {
      var n := Unblanked(b);
      assert once[n] == Line(key, v1) && forall k :: 0 <= k < n ==> once[k] == b[k];
      KeyIndexIs(once, key, n);
      assert once[n := Line(key, v2)] == Inserted(b, n, Line(key, v2));
    }
  }

  lemma TopTwice(top: seq<string>, section: string, key: string, v1: string, v2: string)
    requires Bare(section) && Bare(key) && Literal(v1) && Literal(v2)
    requires KeyIndex(top, Dotted(section, key)).Some? || LastUnder(top, section).Some?
    ensures KeyIndex(TopSet(top, section, key, v1), Dotted(section, key)).Some?
    ensures TopSet(TopSet(top, section, key, v1), section, key, v2) == TopSet(top, section, key, v2)
  {
    hide AssignedKey, AssignedValue, IsTable, IsBlank, Line, KeyIndex, LastUnder, KeyText, Literal, Dotted, Bare, Under;
    var dotted := Dotted(section, key);
    DottedText(section, key);
    LineReads(dotted, v1);
    var i, once := KeyIndex(top, dotted), TopSet(top, section, key, v1);
    var at := if i.Some? then i.value else LastUnder(top, section).value + 1;
    assert once[at] == Line(dotted, v1);
    assert forall k :: 0 <= k < at ==> once[k] == top[k];
    KeyIndexIs(once, dotted, at);
  }

  lemma BodyFlat(b: seq<string>, key: string, value: string)
    requires KeyText(key) && Literal(value) && forall i :: 0 <= i < |b| ==> !IsTable(b[i])
    ensures forall i :: 0 <= i < |BodySet(b, key, value)| ==> !IsTable(BodySet(b, key, value)[i])
  {
    hide AssignedKey, AssignedValue, IsTable, IsBlank, Line, KeyIndex, Unblanked;
    LineReads(key, value);
  }

  lemma TopFlat(top: seq<string>, section: string, key: string, value: string)
    requires Bare(section) && Bare(key) && Literal(value) && forall i :: 0 <= i < |top| ==> !IsTable(top[i])
    ensures forall i :: 0 <= i < |TopSet(top, section, key, value)| ==> !IsTable(TopSet(top, section, key, value)[i])
  {
    hide AssignedKey, AssignedValue, IsTable, IsBlank, Line, KeyIndex, LastUnder, Dotted;
    DottedText(section, key);
    LineReads(Dotted(section, key), value);
  }

  lemma {:induction false} SectionIndexIs(ls: seq<string>, section: string, i: nat)
    requires i < |ls| && IsSection(ls[i], section) && forall k :: 0 <= k < i ==> !IsSection(ls[k], section)
    ensures SectionIndex(ls, section) == Some(i)
  {
    hide IsSection;
    SectionFrom(ls, section, i);
  }

  lemma {:induction false} NoSectionIn(ls: seq<string>, section: string)
    requires forall k :: 0 <= k < |ls| ==> !IsSection(ls[k], section)
    ensures SectionIndex(ls, section).None?
  {
    hide IsSection;
    SectionFrom(ls, section, |ls|);
  }

  /** Lines put together as front, a flat body and a rest that starts with a header, and set again. */
  lemma SetInParts(
    ls: seq<string>, front: seq<string>, body: seq<string>, back: seq<string>, section: string, key: string,
    value: string)
    requires front != [] && IsSection(front[|front| - 1], section)
    requires forall k :: 0 <= k < |front| - 1 ==> !IsSection(front[k], section)
    requires forall k :: 0 <= k < |body| ==> !IsTable(body[k])
    requires back != [] ==> IsTable(back[0])
    requires ls == front + body + back
    ensures SetLines(ls, section, key, value) == front + BodySet(body, key, value) + back
  {
    hide IsTable, IsSection, BodySet, SectionIndex, TopLength, KeyIndex, LastUnder, TopSet, NewSection;
    var i := |front|;
    assert ls[i - 1] == front[i - 1];
    assert forall k :: 0 <= k < i - 1 ==> ls[k] == front[k];
    SectionIndexIs(ls, section, i - 1);
    assert ls[i..] == body + back && ls[..i] == front;
    TopLengthIs(ls[i..], |body|);
    assert ls[i..][..|body|] == body && ls[i..][|body|..] == back;
  }

  lemma SectionTwice(ls: seq<string>, section: string, key: string, v1: string, v2: string)
    requires Bare(section) && Bare(key) && Literal(v1) && Literal(v2) && SectionIndex(ls, section).Some?
    ensures SetLines(SetLines(ls, section, key, v1), section, key, v2) == SetLines(ls, section, key, v2)
  {
    hide *;
    BareText(key);
    SectionShape(ls, section, key, v1);
    SectionShape(ls, section, key, v2);
    FirstHeader(ls, section);
    var i := SectionIndex(ls, section).value + 1;
    var m := TopLength(ls[i..]);
    var front, body, back := ls[..i], ls[i..][..m], ls[i..][m..];
    Joins(ls, i, m);
    BodyFlat(body, key, v1);
    BodyTwice(body, key, v1, v2);
    SetInParts(SetLines(ls, section, key, v1), front, BodySet(body, key, v1), back, section, key, v2);
  }

  lemma NewTwice(ls: seq<string>, section: string, key: string, v1: string, v2: string)
    requires Bare(section) && Bare(key) && Literal(v1) && Literal(v2) && SectionIndex(ls, section).None?
    ensures SetLines(ls + NewSection(ls, section, key, v1), section, key, v2) == ls + NewSection(ls, section, key, v2)
  {
    hide IsTable, IsSection, BodySet, SectionIndex, TopLength, KeyIndex, LastUnder, TopSet, IsBlank, Line;
    hide AssignedKey, AssignedValue, Trim, SetLines;
    var line := Line(key, v1);
    var gap := if ls != [] && !IsBlank(ls[|ls| - 1]) then [""] else [];
    var front := ls + gap + [Header(section)];
    BareText(key);
    LineReads(key, v1);
    HeaderReads(section);
    NoHeader(ls, section);
    assert !IsSection("", section) by { BlankIsNoSection(section); }
    assert ls + NewSection(ls, section, key, v1) == front + [line] + [];
    SetInParts(ls + NewSection(ls, section, key, v1), front, [line], [], section, key, v2);
    OneLineSet(key, v1, v2);
    assert ls + NewSection(ls, section, key, v2) == front + [Line(key, v2)] + [];
  }

  lemma BlankIsNoSection(section: string)
    ensures !IsSection("", section)
  {
    assert Trim("") == "";
  }

  lemma OneLineSet(key: string, v1: string, v2: string)
    requires KeyText(key) && Literal(v1) && Literal(v2)
    ensures BodySet([Line(key, v1)], key, v2) == [Line(key, v2)]
  {
    hide IsTable, AssignedKey, AssignedValue, Line, Unblanked;
    LineReads(key, v1);
    KeyIndexIs([Line(key, v1)], key, 0);
  }

  /** A flat top and a rest that starts with a header and has no section of that name, set again. */
  lemma SetInTopParts(ls: seq<string>, top: seq<string>, back: seq<string>, section: string, key: string, value: string)
    requires ls == top + back && forall k :: 0 <= k < |top| ==> !IsTable(top[k])
    requires (back != [] ==> IsTable(back[0])) && forall k :: 0 <= k < |back| ==> !IsSection(back[k], section)
    requires KeyIndex(top, Dotted(section, key)).Some?
    ensures SetLines(ls, section, key, value) == TopSet(top, section, key, value) + back
  {
    hide IsTable, IsSection, SectionIndex, TopLength, KeyIndex, LastUnder, TopSet, NewSection, Dotted;
    forall k | 0 <= k < |ls| ensures !IsSection(ls[k], section) {
      SectionIsTable(ls[k], section);
      if k >= |top| { assert ls[k] == back[k - |top|]; }
    }
    NoSectionIn(ls, section);
    TopLengthIs(ls, |top|);
    assert ls[..|top|] == top && ls[|top|..] == back;
  }

  /** The top is flat, what follows starts with a header and does not name the section. */
  lemma TopAndBack(ls: seq<string>, section: string)
    requires SectionIndex(ls, section).None?
    ensures
      var n := TopLength(ls);
      && (forall k :: 0 <= k < |ls[..n]| ==> !IsTable(ls[..n][k]))
      && (ls[n..] != [] ==> IsTable(ls[n..][0])) && forall k :: 0 <= k < |ls[n..]| ==> !IsSection(ls[n..][k], section)
  {
    hide IsTable, IsSection, SectionIndex;
    NoHeader(ls, section);
  }

  lemma DottedSet(ls: seq<string>, section: string, key: string, value: string)
    requires InDots(ls, section, key)
    ensures var n := TopLength(ls); SetLines(ls, section, key, value) == TopSet(ls[..n], section, key, value) + ls[n..]
  {
    hide *;
    DottedShape(ls, section, key, value);
    var top := TopSet(ls[..TopLength(ls)], section, key, value);
    assert [] + top == top;
  }

  lemma TopTwiceInFile(ls: seq<string>, section: string, key: string, v1: string, v2: string)
    requires Bare(section) && Bare(key) && Literal(v1) && Literal(v2) && InDots(ls, section, key)
    ensures SetLines(SetLines(ls, section, key, v1), section, key, v2) == SetLines(ls, section, key, v2)
  {
    var n := TopLength(ls);
    var top, back := ls[..n], ls[n..];
    assert KeyIndex(top, Dotted(section, key)).Some? || LastUnder(top, section).Some?;
    assert SectionIndex(ls, section).None?;
    hide *;
    DottedSet(ls, section, key, v1);
    DottedSet(ls, section, key, v2);
    TopAndBack(ls, section);
    TopFlat(top, section, key, v1);
    TopTwice(top, section, key, v1, v2);
    SetInTopParts(SetLines(ls, section, key, v1), TopSet(top, section, key, v1), back, section, key, v2);
  }

  /** Put then put: the second value alone is left, line for line. */
  lemma PutPut(ls: seq<string>, section: string, key: string, v1: string, v2: string)
    requires Bare(section) && Bare(key) && Literal(v1) && Literal(v2)
    ensures SetLines(SetLines(ls, section, key, v1), section, key, v2) == SetLines(ls, section, key, v2)
  {
    assert InDots(ls, section, key) ==> SectionIndex(ls, section).None?;
    hide *;
    if SectionIndex(ls, section).Some? {
      SectionTwice(ls, section, key, v1, v2);
    } else if InDots(ls, section, key) {
      TopTwiceInFile(ls, section, key, v1, v2);
    } else {
      NewSectionIs(ls, section, key, v1);
      NewSectionIs(ls, section, key, v2);
      NewTwice(ls, section, key, v1, v2);
    }
  }

  lemma EditOneLiners(e: Edit)
    requires OneLiners(e.Was()) && '\n' !in e.line
    ensures OneLiners(e.Is())
  {
    forall i | 0 <= i < |e.Is()| ensures '\n' !in e.Is()[i] {
      if i < |e.before| {
        assert e.Is()[i] == e.Was()[i];
      } else if i > |e.before| {
        assert e.Is()[i] == e.Was()[i - 1 + |e.was|];
      }
    }
  }

  lemma NoNewlines(ls: seq<string>, section: string, key: string, value: string)
    requires Bare(section) && Bare(key) && Literal(value) && OneLiners(ls)
    ensures SetLines(ls, section, key, value) != [] && OneLiners(SetLines(ls, section, key, value))
  {
    hide SetLines, IsTable, AssignedKey, KeyIndex, LastUnder, SectionIndex, TopLength;
    hide Edit.Was, Edit.Replaces, IsSection, IsBlank, OneLiners;
    if SectionIndex(ls, section).Some? {
      var e := SectionEdit(ls, section, key, value);
      EditOneLiners(e);
    } else if InDots(ls, section, key) {
      var e := DottedEdit(ls, section, key, value);
      EditOneLiners(e);
    } else {
      NewSectionIs(ls, section, key, value);
      NewOneLiners(ls, section, key, value);
    }
  }

  lemma NewOneLiners(ls: seq<string>, section: string, key: string, value: string)
    requires Bare(section) && Bare(key) && Literal(value) && OneLiners(ls)
    ensures OneLiners(ls + NewSection(ls, section, key, value))
  {
    hide IsBlank;
  }

  /** Read back, the edited text has the edited lines, so the laws on lines are laws on files. */
  lemma SetTextLines(raw: string, section: string, key: string, value: string)
    requires Bare(section) && Bare(key) && Literal(value)
    ensures Of(SetText(raw, section, key, value)) == SetLines(Of(raw), section, key, value)
  {
    hide SetLines, Of, Text, Bare, Literal;
    NoNewlines(Of(raw), section, key, value);
    RoundTrip(SetLines(Of(raw), section, key, value));
  }

  /** Setting twice is byte for byte setting the second value once. */
  lemma SetTextTwice(raw: string, section: string, key: string, v1: string, v2: string)
    requires Bare(section) && Bare(key) && Literal(v1) && Literal(v2)
    ensures SetText(SetText(raw, section, key, v1), section, key, v2) == SetText(raw, section, key, v2)
  {
    hide SetLines, Of, Text, Bare, Literal;
    SetTextLines(raw, section, key, v1);
    PutPut(Of(raw), section, key, v1, v2);
  }
}
