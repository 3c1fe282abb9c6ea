/** What ReplaceChannels keeps, what it writes, and what a second application does. */
module ReplaceLaws {
  import opened Wrappers
  import opened Lines
  import opened Texts
  import opened ReplacingChannels

  /** Channel tables and nothing else, as MarshalChannels writes them for at least one channel. */
  predicate ChannelTables(b: seq<string>) {
    b != [] && Opens(b[0]) && forall i :: 0 <= i < |b| ==> !KindOf(b[i]).Other?
  }

  // ---- the configuration outside the channels ----

  /** A header or key line with the header of the table it stands in, if any. */
  datatype Entry = Entry(table: Option<string>, line: string)

  predicate OfChannel(table: Option<string>) { table.Some? && Opens(table.value) }

  /** The headers and key lines outside the channel tables, in order, each under its table. */
  function Entries(ls: seq<string>, table: Option<string>): seq<Entry> {
    if ls == [] then []
    else
      match KindOf(ls[0])
      case Channel => Entries(ls[1..], Some(ls[0]))
      case Sub => Entries(ls[1..], Some(ls[0]))
      case Other => [Entry(Some(ls[0]), ls[0])] + Entries(ls[1..], Some(ls[0]))
      case Text =>
        var rest := Entries(ls[1..], table);
        if OfChannel(table) then rest else [Entry(table, ls[0])] + rest
      case Quiet => Entries(ls[1..], table)
  }

  function TableAfter(ls: seq<string>, table: Option<string>): Option<string> {
    if ls == [] then table
    else TableAfter(ls[1..], if KindOf(ls[0]) in {Channel, Sub, Other} then Some(ls[0]) else table)
  }

  lemma {:induction false} EntriesSplit(a: seq<string>, b: seq<string>, table: Option<string>)
    ensures Entries(a + b, table) == Entries(a, table) + Entries(b, TableAfter(a, table))
  {
    hide KindOf, OfChannel;
    if a == [] {
      assert a + b == b;
    } else {
      assert (a + b)[1..] == a[1..] + b;
      EntriesSplit(a[1..], b, if KindOf(a[0]) in {Channel, Sub, Other} then Some(a[0]) else table);
    }
  }

  /** Cutting the channel blocks out leaves the entries alone, wherever the rest is put inside a channel table. */
  lemma {:induction false} EntriesKept(ls: seq<string>, table: Option<string>, put: Option<string>)
    requires !OfChannel(table) ==> put == table
    ensures Entries(Kept(ls, OfChannel(table)), put) == Entries(ls, table)
  {
    hide KindOf, Continues;
    if ls != [] {
      var next := if KindOf(ls[0]) in {Channel, Sub, Other} then Some(ls[0]) else table;
      var rest := Kept(ls[1..], OfChannel(next));
      EntriesKept(ls[1..], next, if KindOf(ls[0]).Other? then Some(ls[0]) else put);
      assert ([ls[0]] + rest)[1..] == rest;
    }
  }

  lemma {:induction false} ChannelEntries(b: seq<string>, table: Option<string>)
    requires forall i :: 0 <= i < |b| ==> !KindOf(b[i]).Other?
    requires OfChannel(table) || (b != [] && Opens(b[0]))
    ensures Entries(b, table) == [] && OfChannel(TableAfter(b, table))
  {
    hide KindOf;
    if b != [] {
      ChannelEntries(b[1..], if Opens(b[0]) then Some(b[0]) else table);
    }
  }

  lemma QuietEntry(table: Option<string>)
    ensures Entries([""], table) == []
  {
    assert KindOf("").Quiet? by { assert Trim("") == ""; }
  }

  lemma FrontEntries(ls: seq<string>)
    ensures Entries(Front(ls), None) == Entries(ls[..FrontLength(ls)], None)
  {
    hide KindOf, IsBlank, Opens, Entries;
    if FrontLength(ls) == |ls| {
      assert ls[..|ls|] == ls;
      if ls != [] && !IsBlank(ls[|ls| - 1]) {
        EntriesSplit(ls, [""], None);
        QuietEntry(TableAfter(ls, None));
      }
    }
  }

  lemma BackEntries(ls: seq<string>, table: Option<string>, put: Option<string>)
    requires OfChannel(put)
    ensures Entries(Back(ls), put) == Entries(ls[FrontLength(ls)..], table)
  {
    hide KindOf, Continues;
    FrontSays(ls);
    var rest := ls[FrontLength(ls)..];
    if rest != [] {
      EntriesKept(rest[1..], Some(rest[0]), put);
    }
  }

  /** Every header and key line outside the channel tables is kept, in order and under the same header. */
  lemma EntriesPreserved(ls: seq<string>, body: seq<string>)
    requires ChannelTables(body)
    ensures Entries(Replaced(ls, body), None) == Entries(ls, None)
  {
    hide KindOf, Kept, Front, Back, Entries, TableAfter, OfChannel;
    var n := FrontLength(ls);
    EntriesSplit(Front(ls) + body, Back(ls), None);
    EntriesSplit(Front(ls), body, None);
    ChannelEntries(body, TableAfter(Front(ls), None));
    OfChannelAfter(Front(ls), body, None);
    FrontEntries(ls);
    BackEntries(ls, TableAfter(ls[..n], None), TableAfter(Front(ls) + body, None));
    EntriesSplit(ls[..n], ls[n..], None);
    assert ls == ls[..n] + ls[n..];
  }

  lemma {:induction false} OfChannelAfter(a: seq<string>, b: seq<string>, table: Option<string>)
    ensures TableAfter(a + b, table) == TableAfter(b, TableAfter(a, table))
  {
    hide KindOf;
    if a == [] {
      assert a + b == b;
    } else {
      assert (a + b)[1..] == a[1..] + b;
      OfChannelAfter(a[1..], b, if KindOf(a[0]) in {Channel, Sub, Other} then Some(a[0]) else table);
    }
  }

  // ---- the blocks of the result ----

  function OpenAfter(ls: seq<string>, open: bool): bool {
    if ls == [] then open else OpenAfter(ls[1..], Inside(ls[0], open))
  }

  lemma {:induction false} ContinuesSplit(a: seq<string>, b: seq<string>)
    requires !Continues(b)
    ensures Continues(a + b) == Continues(a)
  {
    hide KindOf;
    if a == [] {
      assert a + b == b;
    } else {
      assert (a + b)[1..] == a[1..] + b;
      ContinuesSplit(a[1..], b);
    }
  }

  /** Text that does not go on with the last block of another one is cut on its own. */
  lemma {:induction false} CutSplit(a: seq<string>, b: seq<string>, open: bool)
    requires !Continues(b)
    ensures Cut(a + b, open) == Cut(a, open) + Cut(b, OpenAfter(a, open))
    ensures Kept(a + b, open) == Kept(a, open) + Kept(b, OpenAfter(a, open))
  {
    hide KindOf, Inside, Continues;
    if a == [] {
      assert a + b == b;
    } else {
      assert (a + b)[1..] == a[1..] + b;
      ContinuesSplit(a[1..], b);
      assert InBlock(a + b, open) == InBlock(a, open);
      CutSplit(a[1..], b, Inside(a[0], open));
    }
  }

  /** No line opens a channel table. */
  predicate OpensNone(ls: seq<string>) { forall i :: 0 <= i < |ls| ==> !Opens(ls[i]) }

  /** Lines without a channel header are not cut, whatever follows. */
  lemma {:induction false} FrontKept(a: seq<string>, b: seq<string>)
    requires OpensNone(a)
    ensures Cut(a + b, false) == Cut(b, false) && Kept(a + b, false) == a + Kept(b, false)
  {
    hide KindOf, Inside, Opens, Continues;
    if a == [] {
      assert a + b == b;
    } else {
      assert (a + b)[1..] == a[1..] + b;
      OpensInside(a[0], false);
      FrontKept(a[1..], b);
    }
  }

  lemma {:induction false} TablesStayOpen(b: seq<string>, open: bool)
    requires forall i :: 0 <= i < |b| ==> !KindOf(b[i]).Other?
    requires open || (b != [] && Opens(b[0]))
    ensures OpenAfter(b, open)
  {
    hide KindOf;
    if b != [] { TablesStayOpen(b[1..], true); }
  }

  /** After the channel blocks are cut, nothing that is left belongs to a channel table. */
  lemma {:induction false} KeptIsClosed(ls: seq<string>)
    ensures !Continues(Kept(ls, true))
  {
    hide KindOf;
    if ls != [] {
      var rest := Kept(ls[1..], Inside(ls[0], true));
      assert ([ls[0]] + rest)[1..] == rest;
      if KindOf(ls[0]) .Other? {} else { KeptIsClosed(ls[1..]); }
    }
  }

  lemma {:induction false} KeptIsKept(ls: seq<string>, open: bool, put: bool)
    requires put ==> open
    ensures Kept(Kept(ls, open), put) == Kept(ls, open) && Cut(Kept(ls, open), put) == []
  {
    hide KindOf;
    if ls != [] {
      var next := Inside(ls[0], open);
      var rest := Kept(ls[1..], next);
      if InBlock(ls, open) {
        KeptIsKept(ls[1..], next, put);
      } else {
        assert ([ls[0]] + rest)[1..] == rest;
        KeptIsKept(ls[1..], next, Inside(ls[0], put));
        if put && KindOf(ls[0]).Quiet? { KeptIsClosed(ls[1..]); }
      }
    }
  }

  lemma BackIsClosed(ls: seq<string>)
    ensures !Continues(Back(ls)) && Kept(Back(ls), true) == Back(ls) && Cut(Back(ls), true) == []
  {
    hide KindOf, Continues;
    FrontSays(ls);
    var rest := ls[FrontLength(ls)..];
    if rest != [] {
      KeptIsClosed(rest[1..]);
      KeptIsKept(rest[1..], true, true);
    } else {
      ContinuesNot();
    }
  }

  lemma ContinuesNot()
    ensures !Continues([])
  {
  }

  lemma FrontHasNone(ls: seq<string>)
    ensures OpensNone(Front(ls))
  {
    hide Opens, IsBlank;
    FrontSays(ls);
    BlankOpensNothing();
  }

  lemma BlankOpensNothing()
    ensures !Opens("")
  {
    assert Trim("") == "";
  }

  /** The channel blocks of the result are the blocks of the new tables, line for line. */
  lemma BlocksAreNew(ls: seq<string>, body: seq<string>)
    requires ChannelTables(body)
    ensures Cut(Replaced(ls, body), false) == Cut(body, false)
    ensures Kept(Replaced(ls, body), false) == Front(ls) + Kept(body, false) + Back(ls)
  {
    hide KindOf, Kept, Cut, Front, Back, Continues, Opens, OpenAfter;
    FrontHasNone(ls);
    FrontKept(Front(ls), body + Back(ls));
    BackIsClosed(ls);
    CutSplit(body, Back(ls), false);
    TablesStayOpen(body, false);
    assert Replaced(ls, body) == Front(ls) + (body + Back(ls));
    assert Front(ls) + (Kept(body, false) + Back(ls)) == Front(ls) + Kept(body, false) + Back(ls);
  }

  /** Every line outside the channel blocks is there again, in order, with at most one blank line added. */
  lemma LinesPreserved(ls: seq<string>)
    ensures
      var n := FrontLength(ls);
      && Kept(ls, false) == ls[..n] + Back(ls)
      && (Front(ls) == ls[..n] || (n == |ls| && Front(ls) == ls[..n] + [""] && Back(ls) == []))
  {
    hide *;
    KeptFront(ls);
    BackOf(ls);
    FrontOf(ls);
  }

  lemma KeptFront(ls: seq<string>)
    ensures var n := FrontLength(ls); Kept(ls, false) == ls[..n] + Kept(ls[n..], false)
  {
    hide *;
    var n := FrontLength(ls);
    FrontClear(ls);
    FrontKept(ls[..n], ls[n..]);
    assert ls == ls[..n] + ls[n..];
  }

  lemma FrontClear(ls: seq<string>)
    ensures OpensNone(ls[..FrontLength(ls)])
  {
    hide Opens, FrontLength;
    FrontSays(ls);
  }

  lemma BackOf(ls: seq<string>)
    ensures Back(ls) == Kept(ls[FrontLength(ls)..], false)
  {
  }

  lemma FrontOf(ls: seq<string>)
    ensures
      var n := FrontLength(ls);
      Front(ls) == ls[..n] || (n == |ls| && Front(ls) == ls[..n] + [""] && Back(ls) == [])
  {
    hide Opens, Kept, IsBlank;
    KeptNothing(ls, false);
  }

  // ---- twice ----

  /** A second replacement puts the second tables there; the lines between the first ones stay behind them. */
  lemma Twice(ls: seq<string>, first: seq<string>, second: seq<string>)
    requires ChannelTables(first)
    ensures Replaced(Replaced(ls, first), second) == Front(ls) + second + (Kept(first, false) + Back(ls))
  {
    hide KindOf, Kept, Cut, Continues, Opens, OpenAfter, Back, IsBlank, Inside;
    var once, n := Replaced(ls, first), |Front(ls)|;
    FrontHasNone(ls);
    assert once[n] == first[0];
    assert forall i :: 0 <= i < n ==> once[i] == Front(ls)[i];
    FrontLengthIs(once, n);
    assert Front(once) == Front(ls) by { assert once[..n] == Front(ls); }
    assert once[n..] == first + Back(ls);
    BackIsClosed(ls);
    CutSplit(first, Back(ls), false);
    TablesStayOpen(first, false);
    assert Back(once) == Kept(first, false) + Back(ls) by { BackOf(once); }
  }

  /** Applying the same channels twice changes nothing exactly when their text has no line outside its blocks. */
  lemma IdempotentExactly(ls: seq<string>, body: seq<string>)
    requires ChannelTables(body)
    ensures Replaced(Replaced(ls, body), body) == Replaced(ls, body) <==> Kept(body, false) == []
  {
    hide KindOf, Kept, Cut, Front, Back;
    Twice(ls, body, body);
    var kept, back := Kept(body, false), Back(ls);
    assert |Front(ls) + body + (kept + back)| == |Front(ls)| + |body| + |kept| + |back|;
    assert |Front(ls) + body + back| == |Front(ls)| + |body| + |back|;
    if kept == [] { assert kept + back == back; }
  }

  lemma BlankIsQuiet()
    ensures KindOf("") == Quiet
  {
    assert Trim("") == "";
    hide Trim;
  }

  const HEADER := "[[channel]]"

  lemma HeaderParts()
    ensures HEADER[9] == HEADER[10] == ']' && HEADER[2..9] == "channel" && |HEADER| == 11
    ensures HEADER[0] == HEADER[1] == '[' && forall k :: 0 <= k < 9 ==> HEADER[k] != ']'
    ensures Tight(HEADER) && Tight("channel")
  {
  }

  lemma HeaderLine()
    ensures KindOf(HEADER) == Channel
  {
    hide *;
    HeaderParts();
    TrimTight(HEADER);
    TrimTight("channel");
    CloseIs(HEADER, 9);
    HeaderNamed(HEADER, "channel");
  }

  lemma HeaderNamed(h: string, name: string)
    requires |h| >= 2 && h[0] == h[1] == '[' && Trim(h) == h && IndexOfClose(h) >= 2
    requires Trim(h[2..IndexOfClose(h)]) == name && name == "channel"
    ensures KindOf(h) == Channel
  {
    hide Trim, IndexOfClose, IndexOf;
    assert HasPrefix(h, "[[") && HasPrefix(h, "[");
  }

  lemma CloseIs(s: string, i: nat)
    requires i + 1 < |s| && s[i] == s[i + 1] == ']' && forall k :: 0 <= k < i ==> s[k] != ']'
    ensures IndexOfClose(s) == i
  {
    if i > 0 { CloseIs(s[1..], i - 1); }
  }

  /** Two channels with a blank line between them: the text grows with every application. */
  lemma TwoChannelsGrow(ls: seq<string>)
    ensures
      var body := [HEADER, "", HEADER];
      ChannelTables(body) && |Replaced(Replaced(ls, body), body)| == |Replaced(ls, body)| + 1
  {
    hide KindOf, Front, Back;
    BlankIsQuiet();
    HeaderLine();
    var body := [HEADER, "", HEADER];
    assert body[1..] == ["", HEADER] && body[1..][1..] == [HEADER];
    assert Kept(body[1..][1..], true) == [];
    assert Kept(body[1..], true) == [""];
    assert Kept(body, false) == [""];
    Twice(ls, body, body);
  }

  // ---- on texts ----

  lemma {:induction false} KeptOneLiners(ls: seq<string>, open: bool)
    requires OneLiners(ls)
    ensures OneLiners(Kept(ls, open))
  {
    hide InBlock, Inside;
    if ls != [] { KeptOneLiners(ls[1..], Inside(ls[0], open)); }
  }

  /** Read back, the text has the lines of the edit: the laws on lines are laws on files. */
  lemma ReplacedLines(raw: string, body: string)
    ensures Of(ReplacedText(raw, body)) == Replaced(Of(raw), Split(body))
  {
    hide Kept, Split, Of, Joined, IsBlank, Opens;
    var ls := Of(raw);
    KeptOneLiners(ls[FrontLength(ls)..], false);
    assert OneLiners(Front(ls)) && OneLiners(Split(body));
    RoundTrip(Replaced(ls, Split(body)));
  }

  /** Byte for byte: a second application is a no-op exactly when no line of the channel text is outside its blocks. */
  lemma TextIdempotentExactly(raw: string, body: string)
    requires ChannelTables(Split(body))
    ensures ReplacedText(ReplacedText(raw, body), body) == ReplacedText(raw, body) <==> Kept(Split(body), false) == []
  {
    hide Kept, Split, Of, Joined, Front, Back, Replaced, Lines.Text, ChannelTables;
    var once := Replaced(Of(raw), Split(body));
    ReplacedLines(raw, body);
    ReplacedLines(ReplacedText(raw, body), body);
    IdempotentExactly(Of(raw), Split(body));
  }
}
