/**
 * A reader of config text of its own, against which the edits of SetKey are judged: it walks down
 * the lines, takes headers in any spelling and keys as paths, and follows a value over as many
 * lines as its brackets and quotes stay open.
 */
module TomlReader {
  import opened Wrappers
  import opened Lines
  import opened Texts

  // ---- one line ----

  /** A quoted key without its quotes. */
  function Unquoted(s: string): string {
    if |s| >= 2 && s[0] == s[|s| - 1] && (s[0] == '"' || s[0] == '\'') then s[1..|s| - 1] else s
  }

  /** The parts of a dotted key, white space and quotes around them dropped. */
  function Path(t: string): (r: seq<string>)
    ensures r != []
    decreases |t|
  {
    var i := IndexOf(t, '.');
    if i < 0 then [Unquoted(Trim(t))] else [Unquoted(Trim(t[..i]))] + Path(t[i + 1..])
  }

  predicate IsHeader(line: string) { TableHeader(line).Some? }

  /** The header names the table, with white space, quotes or anything after it. */
  predicate Names(line: string, section: string) {
    IsHeader(line) && Path(TableHeader(line).value) == [section]
  }

  /** A blank line or a comment. */
  predicate IsQuiet(line: string) {
    IsBlank(line) || Trim(line)[0] == '#'
  }

  // ---- values over several lines ----

  /** Outside quotes, in a one-line string of either kind, or in a multi-line one. */
  datatype Mode = Plain | Basic | Lit | Basic3 | Lit3

  /** How far a value is open: brackets not closed, and the string it stands in. */
  datatype Nest = Nest(depth: nat, mode: Mode)

  const SHUT := Nest(0, Plain)

  /** The quotes at the start of the text, up to five. */
  function Quotes(t: string, q: char, most: nat): (n: nat)
    ensures n <= |t| && n <= most
  {
    if most == 0 || t == [] || t[0] != q then 0 else 1 + Quotes(t[1..], q, most - 1)
  }

  /** What a line leaves open, character by character. */
  function Scan(t: string, n: Nest): (r: Nest)
    ensures !r.mode.Basic? && !r.mode.Lit?
    decreases |t|
  {
    if t == [] then
      if n.mode.Basic? || n.mode.Lit? then n.(mode := Plain) else n
    else
      match n.mode
      case Plain =>
        if t[0] == '#' then n
        else if Quotes(t, '"', 3) == 3 then Scan(t[3..], n.(mode := Basic3))
        else if Quotes(t, '\'', 3) == 3 then Scan(t[3..], n.(mode := Lit3))
        else if t[0] == '"' then Scan(t[1..], n.(mode := Basic))
        else if t[0] == '\'' then Scan(t[1..], n.(mode := Lit))
        else if t[0] == '[' || t[0] == '{' then Scan(t[1..], n.(depth := n.depth + 1))
        else if (t[0] == ']' || t[0] == '}') && n.depth > 0 then Scan(t[1..], n.(depth := n.depth - 1))
        else Scan(t[1..], n)
      case Basic =>
        if t[0] == '\\' && |t| > 1 then Scan(t[2..], n)
        else Scan(t[1..], if t[0] == '"' then n.(mode := Plain) else n)
      case Lit =>
        Scan(t[1..], if t[0] == '\'' then n.(mode := Plain) else n)
      case Basic3 =>
        if t[0] == '\\' && |t| > 1 then Scan(t[2..], n)
        else if Quotes(t, '"', 5) >= 3 then Scan(t[Quotes(t, '"', 5)..], n.(mode := Plain))
        else Scan(t[1..], n)
      case Lit3 =>
        if Quotes(t, '\'', 5) >= 3 then Scan(t[Quotes(t, '\'', 5)..], n.(mode := Plain))
        else Scan(t[1..], n)
  }

  // ---- the reading ----

  /** Where a line stands: before the first table header or under one. */
  datatype Place = Top | In(table: seq<string>)
  {
    function Full(path: seq<string>): seq<string> { if Top? then path else table + path }
  }

  /** The state between two lines; the path is that of the value still open. */
  datatype Reading = Reading(place: Place, nest: Nest, path: seq<string>)
  {
    function Settled(): Reading { if nest == SHUT then Reading(place, SHUT, []) else this }

    /** What holds between lines. */
    predicate OK() { !nest.mode.Basic? && !nest.mode.Lit? && Settled() == this }
  }

  const START := Reading(Top, SHUT, [])

  /**
   * What a line says: nothing, a table opens, a key is set, the value of a key goes on, or
   * nothing a reader knows.
   */
  datatype Mark =
    | Quiet
    | Table(path: seq<string>)
    | Set(path: seq<string>, top: bool, text: string)
    | More(path: seq<string>, text: string)
    | Stray(text: string)

  function Read(line: string, r: Reading): Mark {
    if r.nest != SHUT then More(r.path, line)
    else if IsHeader(line) then Table(Path(TableHeader(line).value))
    else if AssignedKey(line) != "" then Set(r.place.Full(Path(AssignedKey(line))), r.place.Top?, AssignedValue(line))
    else if IsQuiet(line) then Quiet
    else Stray(line)
  }

  function Next(line: string, r: Reading): (r': Reading)
    ensures r.OK() ==> r'.OK()
  {
    if r.nest != SHUT then Reading(r.place, Scan(line, r.nest), r.path).Settled()
    else if IsHeader(line) then Reading(In(Path(TableHeader(line).value)), SHUT, [])
    else if AssignedKey(line) != "" then
      Reading(r.place, Scan(AssignedValue(line), SHUT), r.place.Full(Path(AssignedKey(line)))).Settled()
    else r
  }

  function Marks(ls: seq<string>, r: Reading): (ms: seq<Mark>)
    ensures |ms| == |ls|
  {
    hide *;
    if ls == [] then [] else [Read(ls[0], r)] + Marks(ls[1..], Next(ls[0], r))
  }

  function After(ls: seq<string>, r: Reading): (r': Reading)
    ensures r.OK() ==> r'.OK()
  {
    hide *;
    if ls == [] then r else After(ls[1..], Next(ls[0], r))
  }

  lemma {:induction false} ReadingSplit(a: seq<string>, b: seq<string>, r: Reading)
    ensures Marks(a + b, r) == Marks(a, r) + Marks(b, After(a, r)) && After(a + b, r) == After(b, After(a, r))
  {
    hide Read, Next;
    if a == [] {
      assert a + b == b;
    } else {
      assert (a + b)[1..] == a[1..] + b;
      ReadingSplit(a[1..], b, Next(a[0], r));
    }
  }

  lemma OneLine(line: string, r: Reading)
    ensures Marks([line], r) == [Read(line, r)] && After([line], r) == Next(line, r)
  {
    hide Read, Next;
    assert [line][1..] == [];
  }

  // ---- what a text says about a section and a key ----

  /**
   * Headers of the section; keys before the first header that define the section or part of it;
   * lines that set the key; all lines of its values; headers and keys that make a table of it.
   */
  datatype Kind =
    | Opener(section: string)
    | TopDefiner(section: string)
    | Setter(section: string, key: string)
    | OfKey(section: string, key: string)
    | Tabler(section: string, key: string)

  predicate Fits(f: Kind, m: Mark) {
    match f
    case Opener(section) => m.Table? && m.path == [section]
    case TopDefiner(section) => m.Set? && m.top && m.path != [] && m.path[0] == section
    case Setter(section, key) => m.Set? && m.path == [section, key]
    case OfKey(section, key) => (m.Set? || m.More?) && m.path == [section, key]
    case Tabler(section, key) =>
      (m.Table? && [section, key] <= m.path) || (m.Set? && [section, key] < m.path)
  }

  /** The marks of a kind, in order. */
  function Kept(ms: seq<Mark>, f: Kind): seq<Mark> {
    if ms == [] then [] else (if Fits(f, ms[0]) then [ms[0]] else []) + Kept(ms[1..], f)
  }

  /** The lines of a text of the kind. */
  function Found(ls: seq<string>, f: Kind): seq<Mark> { Kept(Marks(ls, START), f) }

  /** The values the text gives the key, as they stand on the first line of each. */
  function Values(ls: seq<string>, section: string, key: string): (r: seq<string>)
    ensures |r| == |Found(ls, Setter(section, key))|
  {
    var ms := Found(ls, Setter(section, key));
    seq(|ms|, i requires 0 <= i < |ms| => if ms[i].Set? then ms[i].text else "")
  }

  lemma {:induction false} KeptSplit(a: seq<Mark>, b: seq<Mark>, f: Kind)
    ensures Kept(a + b, f) == Kept(a, f) + Kept(b, f)
  {
    hide Fits;
    if a == [] {
      assert a + b == b;
    } else {
      assert (a + b)[1..] == a[1..] + b && (a + b)[0] == a[0];
      KeptSplit(a[1..], b, f);
      var first := if Fits(f, a[0]) then [a[0]] else [];
      assert first + (Kept(a[1..], f) + Kept(b, f)) == first + Kept(a[1..], f) + Kept(b, f);
    }
  }

  lemma KeptOne(m: Mark, f: Kind)
    ensures Kept([m], f) == if Fits(f, m) then [m] else []
  {
    assert [m][1..] == [];
  }

  /** The lines of a kind, piece by piece. */
  lemma OfPieces(before: seq<string>, mid: seq<string>, after: seq<string>, f: Kind)
    ensures
      var r := After(before, START);
      Found(before + mid + after, f) ==
        Found(before, f) + Kept(Marks(mid, r), f) + Kept(Marks(after, After(mid, r)), f)
  {
    hide Kept, Marks, After;
    var r := After(before, START);
    assert before + mid + after == before + (mid + after);
    ReadingSplit(before, mid + after, START);
    ReadingSplit(mid, after, r);
    KeptSplit(Marks(before, START), Marks(mid + after, r), f);
    KeptSplit(Marks(mid, r), Marks(after, After(mid, r)), f);
  }

  /** To stand under a table its header must have been read. */
  lemma {:induction false} PlaceOpened(ls: seq<string>, r: Reading, section: string)
    requires After(ls, r).place == In([section]) && r.place != In([section])
    ensures Kept(Marks(ls, r), Opener(section)) != []
  {
    hide IsHeader, Path, Scan, AssignedKey, AssignedValue, TableHeader, IsQuiet;
    if ls != [] && Next(ls[0], r).place != In([section]) {
      PlaceOpened(ls[1..], Next(ls[0], r), section);
    }
  }

  /** Without headers the place stays. */
  lemma {:induction false} PlaceStays(ls: seq<string>, r: Reading)
    requires forall i :: 0 <= i < |ls| ==> !IsHeader(ls[i])
    ensures After(ls, r).place == r.place
  {
    hide IsHeader, Path, Scan, AssignedKey, AssignedValue, TableHeader;
    if ls != [] { PlaceStays(ls[1..], Next(ls[0], r)); }
  }

  // ---- lines left over from a value ----

  /** The marks with the lines of one key blanked out. */
  function Masked(ms: seq<Mark>, section: string, key: string): (r: seq<Mark>)
    ensures |r| == |ms|
  {
    seq(|ms|, i requires 0 <= i < |ms| => if Fits(OfKey(section, key), ms[i]) then Quiet else ms[i])
  }

  /** The lines that a value open this far goes on over are blank lines and comments. */
  predicate LeftQuiet(ls: seq<string>, n: Nest) {
    n == SHUT || ls == [] || (IsQuiet(ls[0]) && LeftQuiet(ls[1..], Scan(ls[0], n)))
  }

  /** A reader still in a value of the key. */
  predicate Inside(r: Reading, section: string, key: string) {
    r.OK() && (r.nest == SHUT || r.path == [section, key])
  }

  lemma QuietLine(line: string)
    requires IsQuiet(line)
    ensures !IsHeader(line) && AssignedKey(line) == ""
  {
    hide Trim, IndexOf, IndexOfClose;
  }

  lemma MaskedFirst(ms: seq<Mark>, section: string, key: string)
    requires ms != []
    ensures Masked(ms, section, key)[0] == (if Fits(OfKey(section, key), ms[0]) then Quiet else ms[0])
    ensures Masked(ms, section, key)[1..] == Masked(ms[1..], section, key)
  {
  }

  /** After quiet left-over lines all lines read as they did when they were part of the value. */
  lemma {:induction false} LeftOver(ls: seq<string>, r: Reading, section: string, key: string)
    requires Inside(r, section, key) && LeftQuiet(ls, r.nest)
    ensures Masked(Marks(ls, r), section, key) == Masked(Marks(ls, Reading(r.place, SHUT, [])), section, key)
  {
    hide IsHeader, Path, Scan, AssignedKey, AssignedValue, TableHeader, IsQuiet, Masked;
    if r.nest != SHUT && ls != [] {
      QuietLine(ls[0]);
      var was, now := Marks(ls, r), Marks(ls, Reading(r.place, SHUT, []));
      MaskedFirst(was, section, key);
      MaskedFirst(now, section, key);
      LeftOver(ls[1..], Next(ls[0], r), section, key);
      assert was[1..] == Marks(ls[1..], Next(ls[0], r));
      assert now[1..] == Marks(ls[1..], Reading(r.place, SHUT, []));
    }
  }

  /** The same for the lines of any kind that are none of the key's. */
  lemma {:induction false} LeftOverKept(ls: seq<string>, r: Reading, section: string, key: string, f: Kind)
    requires Inside(r, section, key) && LeftQuiet(ls, r.nest)
    requires !Fits(f, Quiet) && forall t :: !Fits(f, More([section, key], t))
    ensures Kept(Marks(ls, r), f) == Kept(Marks(ls, Reading(r.place, SHUT, [])), f)
  {
    hide IsHeader, Path, Scan, AssignedKey, AssignedValue, TableHeader, IsQuiet;
    if r.nest != SHUT && ls != [] {
      QuietLine(ls[0]);
      LeftOverKept(ls[1..], Next(ls[0], r), section, key, f);
    }
  }

  /** Left-over lines are quiet when nothing else reads differently and no line sets the key. */
  lemma {:induction false} OnlyLeftOver(ls: seq<string>, r: Reading, section: string, key: string)
    requires Inside(r, section, key)
    requires
      var now := Marks(ls, Reading(r.place, SHUT, []));
      && Kept(now, Setter(section, key)) == []
      && Masked(Marks(ls, r), section, key) == Masked(now, section, key)
    ensures LeftQuiet(ls, r.nest)
  {
    hide IsHeader, Path, Scan, AssignedKey, AssignedValue, TableHeader, IsQuiet, Masked;
    if r.nest != SHUT && ls != [] {
      var was, now := Marks(ls, r), Marks(ls, Reading(r.place, SHUT, []));
      MaskedFirst(was, section, key);
      MaskedFirst(now, section, key);
      assert now[0].Quiet?;
      QuietLine(ls[0]);
      assert was[1..] == Marks(ls[1..], Next(ls[0], r));
      assert now[1..] == Marks(ls[1..], Reading(r.place, SHUT, []));
      OnlyLeftOver(ls[1..], Next(ls[0], r), section, key);
    }
  }
}
