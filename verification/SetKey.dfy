/**
 * SetKey of internal/config/file.go: one key of one section, in the bracketed or the dotted
 * layout, and its get/put laws.
 */
module SetKeys {
  import opened Wrappers
  import opened Lines
  import opened Texts

  // ---- finding the place ----

  /** The header of [section], a comment may follow. */
  predicate IsSection(line: string, section: string) {
    var t, header := Trim(line), "[" + section + "]";
    HasPrefix(t, header) && (|t| == |header| || t[|header|] == ' ' || t[|header|] == '#')
  }

  /** How many lines stand before the first table header. */
  function TopLength(ls: seq<string>): (n: nat)
    ensures n <= |ls| && (n < |ls| ==> IsTable(ls[n])) && forall i :: 0 <= i < n ==> !IsTable(ls[i])
  {
    hide IsTable;
    if ls == [] || IsTable(ls[0]) then 0 else 1 + TopLength(ls[1..])
  }

  function SectionIndex(ls: seq<string>, section: string): (r: Option<nat>)
    ensures r.Some? ==> r.value < |ls| && IsSection(ls[r.value], section)
  {
    if ls == [] then None
    else if IsSection(ls[0], section) then Some(0)
    else
      var r := SectionIndex(ls[1..], section);
      if r.Some? then Some(r.value + 1) else None
  }

  /** The first line that assigns key. */
  function KeyIndex(b: seq<string>, key: string): (r: Option<nat>)
    ensures r.Some? ==> r.value < |b| && AssignedKey(b[r.value]) == key && forall k :: 0 <= k < r.value ==>
      AssignedKey(b[k]) != key
    ensures r.None? ==> forall k :: 0 <= k < |b| ==> AssignedKey(b[k]) != key
  {
    hide AssignedKey;
    if b == [] then None
    else if AssignedKey(b[0]) == key then Some(0)
    else
      var r := KeyIndex(b[1..], key);
      if r.Some? then Some(r.value + 1) else None
  }

  /** The line assigns section.<something>. */
  predicate Under(line: string, section: string) {
    HasPrefix(AssignedKey(line), section + ".")
  }

  /** The last line under the section in the dotted layout. */
  function LastUnder(b: seq<string>, section: string): (r: Option<nat>)
    ensures r.Some? ==> r.value < |b| && Under(b[r.value], section) && forall k :: r.value < k < |b| ==>
      !Under(b[k], section)
    ensures r.None? ==> forall k :: 0 <= k < |b| ==> !Under(b[k], section)
  {
    if b == [] then None
    else
      var r := LastUnder(b[1..], section);
      if r.Some? then Some(r.value + 1) else if Under(b[0], section) then Some(0) else None
  }

  /** The length without the blank lines at the end. */
  function Unblanked(b: seq<string>): (n: nat)
    ensures n <= |b| && (n > 0 ==> !IsBlank(b[n - 1])) && forall i :: n <= i < |b| ==> IsBlank(b[i])
  {
    if b != [] && IsBlank(b[|b| - 1]) then Unblanked(b[..|b| - 1]) else |b|
  }

  function Inserted(b: seq<string>, at: nat, line: string): seq<string>
    requires at <= |b|
  {
    b[..at] + [line] + b[at..]
  }

  function Line(key: string, value: string): string {
    key + " = " + value
  }

  function Dotted(section: string, key: string): string {
    section + "." + key
  }

  /** A section body with the key set: replaced in place, else added before trailing blank lines. */
  function BodySet(b: seq<string>, key: string, value: string): seq<string> {
    var i := KeyIndex(b, key);
    if i.Some? then b[i.value := Line(key, value)] else Inserted(b, Unblanked(b), Line(key, value))
  }

  function SetLines(ls: seq<string>, section: string, key: string, value: string): seq<string> {
    var at, n := SectionIndex(ls, section), TopLength(ls);
    if at.Some? then
      var rest := ls[at.value + 1..];
      var m := TopLength(rest);
      ls[..at.value + 1] + BodySet(rest[..m], key, value) + rest[m..]
    else if KeyIndex(ls[..n], Dotted(section, key)).None? && LastUnder(ls[..n], section).None?
    then ls + NewSection(ls, section, key, value)
    else TopSet(ls[..n], section, key, value) + ls[n..]
  }

  /** A new section at the end of the file, a blank line before it unless there is one. */
  function NewSection(ls: seq<string>, section: string, key: string, value: string): seq<string> {
    (if ls != [] && !IsBlank(ls[|ls| - 1]) then [""] else []) + [Header(section), Line(key, value)]
  }

  function Header(section: string): string { "[" + section + "]" }

  /** The dotted layout: replaced in place, else after the last line of the section. */
  function TopSet(top: seq<string>, section: string, key: string, value: string): seq<string> {
    var i, last := KeyIndex(top, Dotted(section, key)), LastUnder(top, section);
    if i.Some? then top[i.value := Line(Dotted(section, key), value)]
    else if last.Some? then Inserted(top, last.value + 1, Line(Dotted(section, key), value))
    else top
  }

  /** The whole edit, text to text. */
  function SetText(raw: string, section: string, key: string, value: string): string {
    Text(SetLines(Of(raw), section, key, value))
  }

  // ---- the method, with the loops of the source ----

  lemma {:induction false} TopLengthFrom(ls: seq<string>, i: nat)
    requires i <= |ls| && forall k :: 0 <= k < i ==> !IsTable(ls[k])
    ensures TopLength(ls) == i + TopLength(ls[i..])
  {
    if i > 0 {
      TopLengthFrom(ls[1..], i - 1);
      assert ls[1..][i - 1..] == ls[i..];
    } else {
      assert ls[0..] == ls;
    }
  }

  lemma {:induction false} SectionFrom(ls: seq<string>, section: string, i: nat)
    requires i <= |ls| && forall k :: 0 <= k < i ==> !IsSection(ls[k], section)
    ensures SectionIndex(ls, section) ==
            var r := SectionIndex(ls[i..], section); if r.Some? then Some(r.value + i) else None
  {
    hide IsSection;
    if i > 0 {
      SectionFrom(ls[1..], section, i - 1);
      assert ls[1..][i - 1..] == ls[i..];
    } else {
      assert ls[0..] == ls;
    }
  }

  /** The one pass over the lines: the first table, the section and the end of its body. */
  method Locate(ls: seq<string>, section: string) returns (first: nat, start: Option<nat>, end: nat)
    ensures first == TopLength(ls) && start == SectionIndex(ls, section)
    ensures start.Some? ==> end == start.value + 1 + TopLength(ls[start.value + 1..])
  {
    hide IsTable, IsSection;
    first, start, end := |ls|, None, |ls|;
    for i := 0 to |ls|
      invariant end == |ls| && FirstTable(ls, i, first) && SectionSoFar(ls, section, i, start)
    {
      SectionIsTable(ls[i], section);
      if IsTable(ls[i]) {
        if first == |ls| { first := i; }
        if start.Some? {
          end := i;
          break;
        }
        if IsSection(ls[i], section) { start := Some(i); }
      }
    }
    TopLengthIs(ls, first);
    if start.Some? {
      SectionFrom(ls, section, start.value);
      BodyEnds(ls, section, start.value, end);
    } else {
      SectionFrom(ls, section, |ls|);
    }
  }

  /** The first table among the first i lines, or the length of the file. */
  ghost predicate FirstTable(ls: seq<string>, i: nat, first: nat)
    requires i <= |ls|
  {
    if first < |ls| then first < i && IsTable(ls[first]) && forall k :: 0 <= k < first ==> !IsTable(ls[k])
    else first == |ls| && forall k :: 0 <= k < i ==> !IsTable(ls[k])
  }

  /** The section's header among the first i lines, with nothing but its body after it. */
  ghost predicate SectionSoFar(ls: seq<string>, section: string, i: nat, start: Option<nat>)
    requires i <= |ls|
  {
    match start
    case None => forall k :: 0 <= k < i ==> !IsSection(ls[k], section)
    case Some(s) =>
      && s < i && IsSection(ls[s], section)
      && (forall k :: 0 <= k < s ==> !IsSection(ls[k], section)) && forall k :: s < k < i ==> !IsTable(ls[k])
  }

  lemma BodyEnds(ls: seq<string>, section: string, start: nat, end: nat)
    requires start < end <= |ls| && SectionSoFar(ls, section, end, Some(start)) && (end < |ls| ==> IsTable(ls[end]))
    ensures TopLength(ls[start + 1..]) == end - (start + 1)
  {
    hide IsTable, IsSection;
    TopLengthIs(ls[start + 1..], end - (start + 1));
  }

  lemma SectionIsTable(line: string, section: string)
    ensures IsSection(line, section) ==> IsTable(line)
  {
    if IsSection(line, section) {
      assert Trim(line)[0] == ("[" + section + "]")[0];
    }
  }

  lemma TopLengthIs(ls: seq<string>, n: nat)
    requires n <= |ls| && (n < |ls| ==> IsTable(ls[n])) && forall i :: 0 <= i < n ==> !IsTable(ls[i])
    ensures TopLength(ls) == n
  {
    TopLengthFrom(ls, n);
  }

  method FindKey(b: seq<string>, key: string) returns (r: Option<nat>)
    ensures r == KeyIndex(b, key)
  {
    hide AssignedKey;
    for i := 0 to |b|
      invariant forall k :: 0 <= k < i ==> AssignedKey(b[k]) != key
    {
      if AssignedKey(b[i]) == key { return Some(i); }
    }
    return None;
  }

  lemma UnblankedIs(b: seq<string>, n: nat)
    requires n <= |b| && (n > 0 ==> !IsBlank(b[n - 1])) && forall i :: n <= i < |b| ==> IsBlank(b[i])
    ensures Unblanked(b) == n
  {
    hide IsBlank;
    if n < |b| { UnblankedIs(b[..|b| - 1], n); }
  }

  method SetBody(b: seq<string>, key: string, value: string) returns (out: seq<string>)
    ensures out == BodySet(b, key, value)
  {
    hide KeyIndex, Unblanked, AssignedKey, IsBlank;
    var i := FindKey(b, key);
    if i.Some? { return b[i.value := Line(key, value)]; }
    var ins := |b|;
    while ins > 0 && IsBlank(b[ins - 1])
      invariant 0 <= ins <= |b| && forall k :: ins <= k < |b| ==> IsBlank(b[k])
    {
      ins := ins - 1;
    }
    UnblankedIs(b, ins);
    return Inserted(b, ins, Line(key, value));
  }

  /** One pass for the dotted key itself and the last line under its section. */
  method FindDotted(top: seq<string>, section: string, key: string) returns (r: Option<nat>, last: Option<nat>)
    ensures r == KeyIndex(top, Dotted(section, key)) && (r.None? ==> last == LastUnder(top, section))
  {
    hide AssignedKey, KeyIndex, LastUnder, Under;
    last := None;
    for i := 0 to |top|
      invariant forall k :: 0 <= k < i ==> AssignedKey(top[k]) != Dotted(section, key)
      invariant last.None? ==> forall k :: 0 <= k < i ==> !Under(top[k], section)
      invariant last.Some? ==> last.value < i && Under(top[last.value], section) && forall k :: last.value < k < i ==>
        !Under(top[k], section)
    {
      if AssignedKey(top[i]) == Dotted(section, key) { return Some(i), last; }
      if Under(top[i], section) { last := Some(i); }
    }
    return None, last;
  }

  /** The dotted layout, or a new section at the end. */
  method SetInTop(ls: seq<string>, first: nat, section: string, key: string, value: string) returns (out: seq<string>)
    requires first == TopLength(ls) && SectionIndex(ls, section).None?
    ensures out == SetLines(ls, section, key, value)
  {
    hide AssignedKey, IsTable, IsSection, IsBlank, KeyIndex, LastUnder, Under;
    var top, dotted := ls[..first], Dotted(section, key);
    var i, last := FindDotted(top, section, key);
    if i.Some? { return top[i.value := Line(dotted, value)] + ls[first..]; }
    if last.Some? { return Inserted(top, last.value + 1, Line(dotted, value)) + ls[first..]; }
    return ls + NewSection(ls, section, key, value);
  }

  method SetInBody(
    ls: seq<string>, section: string, start: nat, end: nat, key: string, value: string)
    returns (out: seq<string>)
    requires SectionIndex(ls, section) == Some(start) && start < |ls| && end == start + 1 + TopLength(ls[start + 1..])
    ensures out == SetLines(ls, section, key, value)
  {
    hide BodySet, TopLength, SectionIndex, KeyIndex, LastUnder, TopSet, NewSection, IsSection, IsTable;
    var rest := ls[start + 1..];
    var body := SetBody(rest[..end - (start + 1)], key, value);
    return ls[..start + 1] + body + rest[end - (start + 1)..];
  }

  method SetKey(raw: string, section: string, key: string, value: string) returns (out: string)
    ensures out == SetText(raw, section, key, value)
  {
    hide SetLines, Of, Text, SectionIndex, TopLength;
    var first, start, end := Locate(Of(raw), section);
    var lines;
    if start.None? {
      lines := SetInTop(Of(raw), first, section, key, value);
    } else {
      lines := SetInBody(Of(raw), section, start.value, end, key, value);
    }
    return Text(lines);
  }
}
