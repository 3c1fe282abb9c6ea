/**
 * ReplaceChannels of internal/config/file.go: the channel tables of a config text are cut out
 * and new ones put in their place.
 */
module ReplacingChannels {
  import opened Lines
  import opened Texts

  // ---- kinds of lines ----

  datatype Kind =
    | Channel // [[channel]]
    | Sub     // [channel.x]
    | Other   // a header of some other table
    | Text    // a key line
    | Quiet   // blank or comment

  function KindOf(line: string): Kind {
    var name := TableHeader(line);
    if name.Some? then
      if name.value == "channel" then Channel else if HasPrefix(name.value, "channel.") then Sub else Other
    else if IsBlank(line) || HasPrefix(Trim(line), "#") then Quiet
    else Text
  }

  /** The line opens a channel table. */
  predicate Opens(line: string) { KindOf(line) == Channel || KindOf(line) == Sub }

  // ---- what is cut out ----

  /** Whether the line stands in a channel table, its own header included. */
  predicate Inside(line: string, open: bool) {
    match KindOf(line)
    case Channel => true
    case Sub => true
    case Other => false
    case Text => open
    case Quiet => open
  }

  /** Inside a channel table, more of the same block follows before any header that closes it. */
  predicate Continues(ls: seq<string>) {
    ls != [] &&
    match KindOf(ls[0])
    case Sub => true
    case Text => true
    case Quiet => Continues(ls[1..])
    case Channel => false
    case Other => false
  }

  /** The first line belongs to a channel block: from its header to its last key line. */
  predicate InBlock(ls: seq<string>, open: bool)
    requires ls != []
  {
    Inside(ls[0], open) && (KindOf(ls[0]).Quiet? ==> Continues(ls[1..]))
  }

  /** The lines outside the channel blocks. */
  function Kept(ls: seq<string>, open: bool): seq<string> {
    if ls == [] then []
    else
      var rest := Kept(ls[1..], Inside(ls[0], open));
      if InBlock(ls, open) then rest else [ls[0]] + rest
  }

  /** The lines of the channel blocks. */
  function Cut(ls: seq<string>, open: bool): seq<string> {
    if ls == [] then []
    else
      var rest := Cut(ls[1..], Inside(ls[0], open));
      if InBlock(ls, open) then [ls[0]] + rest else rest
  }

  /** Whether a channel table is open after the first i lines. */
  predicate OpenAt(ls: seq<string>, i: nat)
    requires i <= |ls|
  {
    i > 0 && Inside(ls[i - 1], OpenAt(ls, i - 1))
  }

  predicate Marked(ls: seq<string>, i: nat)
    requires i < |ls|
  {
    InBlock(ls[i..], OpenAt(ls, i))
  }

  /** How many lines stand before the first channel header. */
  function FrontLength(ls: seq<string>): (n: nat)
    ensures n <= |ls|
  {
    if ls == [] || Opens(ls[0]) then 0 else 1 + FrontLength(ls[1..])
  }

  lemma {:induction false} FrontSays(ls: seq<string>)
    ensures var n := FrontLength(ls); (n < |ls| ==> Opens(ls[n])) && forall i :: 0 <= i < n ==> !Opens(ls[i])
  {
    hide Opens;
    if ls != [] && !Opens(ls[0]) { FrontSays(ls[1..]); }
  }

  /** The lines before the new tables. */
  function Front(ls: seq<string>): seq<string> {
    var n := FrontLength(ls);
    if n < |ls| then ls[..n]
    else if ls != [] && !IsBlank(ls[|ls| - 1]) then ls + [""]
    else ls
  }

  /** The lines after them. */
  function Back(ls: seq<string>): seq<string> {
    Kept(ls[FrontLength(ls)..], false)
  }

  function Replaced(ls: seq<string>, body: seq<string>): seq<string> {
    Front(ls) + body + Back(ls)
  }

  /** The whole edit, text to text; body is what MarshalChannels writes, without the final newline. */
  function ReplacedText(raw: string, body: string): string {
    Lines.Text(Replaced(Of(raw), Split(body)))
  }

  // ---- pass 1: the loop over removed[] ----

  lemma {:induction false} QuietRun(ls: seq<string>, i: nat, j: nat)
    requires i <= j <= |ls| && forall k :: i <= k < j ==> KindOf(ls[k]).Quiet?
    ensures Continues(ls[i..]) == Continues(ls[j..])
    decreases j - i
  {
    hide KindOf;
    if i < j {
      assert ls[i..][1..] == ls[i + 1..];
      QuietRun(ls, i + 1, j);
    }
  }

  /** Where the determined part of removed[] ends. */
  function Settled(i: nat, start: int): nat { if start >= 0 then start else i }

  /** The state of the pass after i lines: all blocks are marked but an open one. */
  ghost predicate Scanned(ls: seq<string>, removed: seq<bool>, i: nat, first: int, start: int, last: int) {
    && |removed| == |ls| && i <= |ls|
    && MarkedUpTo(ls, removed, i, start)
    && FirstBlock(ls, i, first, start)
    && (if start >= 0 then OpenBlock(ls, i, start, last) else start == last == -1 && !OpenAt(ls, i))
  }

  ghost predicate MarkedUpTo(ls: seq<string>, removed: seq<bool>, i: nat, start: int)
    requires |removed| == |ls| && i <= |ls|
  {
    && start < i
    && (forall k :: 0 <= k < Settled(i, start) ==> removed[k] == Marked(ls, k))
    && (forall k :: Settled(i, start) <= k < |ls| ==> !removed[k])
  }

  ghost predicate FirstBlock(ls: seq<string>, i: nat, first: int, start: int)
    requires start < i <= |ls|
  {
    if first >= 0 then first == FrontLength(ls) < |ls|
    else first == -1 && forall k :: 0 <= k < Settled(i, start) ==> !Opens(ls[k])
  }

  /** A block is open since start, its last key line so far is at last. */
  ghost predicate OpenBlock(ls: seq<string>, i: nat, start: int, last: int)
    requires i <= |ls|
  {
    && 0 <= start <= last < i
    && Opens(ls[start])
    && (forall k :: start <= k <= last ==> Marked(ls, k))
    && (forall k :: last < k < i ==> KindOf(ls[k]).Quiet?)
    && (forall k :: start < k <= i ==> OpenAt(ls, k))
  }

  lemma {:induction false} FrontLengthIs(ls: seq<string>, n: nat)
    requires n <= |ls| && (n < |ls| ==> Opens(ls[n])) && forall i :: 0 <= i < n ==> !Opens(ls[i])
    ensures FrontLength(ls) == n
  {
    hide Opens;
    if n > 0 { FrontLengthIs(ls[1..], n - 1); }
  }

  /** What follows the last key line of a closed block stays. */
  lemma TailStays(ls: seq<string>, i: nat, start: int, last: int)
    requires i <= |ls| && OpenBlock(ls, i, start, last)
    requires i < |ls| ==> KindOf(ls[i]) in {Channel, Other}
    ensures forall k :: last < k < i ==> !Marked(ls, k)
  {
    hide KindOf, OpenAt;
    forall k | last < k < i ensures !Marked(ls, k) {
      QuietRun(ls, k + 1, i);
      assert ls[k..][1..] == ls[k + 1..];
    }
  }

  /** Another key line in the block: everything up to it goes. */
  lemma TailGoes(ls: seq<string>, i: nat, start: int, last: int)
    requires i < |ls| && OpenBlock(ls, i, start, last) && KindOf(ls[i]) in {Sub, Text}
    ensures OpenBlock(ls, i + 1, start, i)
  {
    hide KindOf, Opens;
    assert Continues(ls[i..]);
    forall k | last < k <= i ensures Marked(ls, k) {
      hide Continues;
      assert ls[k..][0] == ls[k] && ls[k..][1..] == ls[k + 1..] && OpenAt(ls, k);
      if k < i { QuietRun(ls, k + 1, i); }
    }
    assert OpenAt(ls, i + 1);
    hide *;
  }

  /** The open block ends at its last key line. */
  method CloseBlock(ghost ls: seq<string>, removed: array<bool>, ghost i: nat, first0: int, start0: int, last0: int)
    returns (first: int, start: int, last: int)
    requires removed.Length == |ls| && Scanned(ls, removed[..], i, first0, start0, last0)
    requires i < |ls| ==> KindOf(ls[i]) in {Channel, Other}
    modifies removed
    ensures start == -1 == last && MarkedUpTo(ls, removed[..], i, -1) && FirstBlock(ls, i, first, -1)
  {
    hide KindOf, OpenAt, Marked, Continues, Opens;
    first, start, last := first0, start0, last0;
    if start < 0 { return; }
    TailStays(ls, i, start, last);
    for k := start to last + 1
      invariant forall j :: 0 <= j < k ==> removed[j] == Marked(ls, j)
      invariant forall j :: k <= j < |ls| ==> !removed[j]
    {
      removed[k] := true;
    }
    if first < 0 {
      FrontLengthIs(ls, start);
      first := start;
    }
    start, last := -1, -1;
  }

  /** A header opens a block. */
  lemma BlockOpens(ls: seq<string>, removed: seq<bool>, i: nat, first: int)
    requires |removed| == |ls| && i < |ls| && Opens(ls[i])
    requires MarkedUpTo(ls, removed, i, -1) && FirstBlock(ls, i, first, -1)
    ensures Scanned(ls, removed, i + 1, first, i, i)
  {
    hide KindOf, Continues;
    assert ls[i..][0] == ls[i];
    assert Marked(ls, i) && OpenAt(ls, i + 1);
    hide Opens, Marked, OpenAt;
  }

  /** Outside the blocks a line stays. */
  lemma LineStays(ls: seq<string>, removed: seq<bool>, i: nat, first: int)
    requires |removed| == |ls| && i < |ls| && !Opens(ls[i]) && (KindOf(ls[i]).Other? || !OpenAt(ls, i))
    requires MarkedUpTo(ls, removed, i, -1) && FirstBlock(ls, i, first, -1)
    ensures Scanned(ls, removed, i + 1, first, -1, -1)
  {
    hide KindOf, Continues;
    assert ls[i..][0] == ls[i];
    assert !Marked(ls, i) && !OpenAt(ls, i + 1);
    hide Opens, Marked, OpenAt;
  }

  /** In an open block nothing is decided yet. */
  lemma BlockGoesOn(ls: seq<string>, removed: seq<bool>, i: nat, first: int, start: int, last: int)
    requires i < |ls| && start >= 0 && Scanned(ls, removed, i, first, start, last)
      && KindOf(ls[i]) in {Sub, Text, Quiet}
    ensures Scanned(ls, removed, i + 1, first, start, if KindOf(ls[i]).Quiet? then last else i)
  {
    hide KindOf, Opens, Marked, Continues;
    if KindOf(ls[i]).Quiet? {
      assert OpenAt(ls, i + 1);
    } else {
      TailGoes(ls, i, start, last);
    }
  }

  /** Pass 1: which lines are cut, and where the first block was. */
  method Scan(ls: seq<string>) returns (removed: array<bool>, first: int)
    ensures fresh(removed) && removed.Length == |ls| && forall k :: 0 <= k < |ls| ==> removed[k] == Marked(ls, k)
    ensures first == if FrontLength(ls) < |ls| then FrontLength(ls) else -1
  {
    hide KindOf, Marked, Continues;
    removed := new bool[|ls|](_ => false);
    first := -1;
    var start, last := -1, -1;
    for i := 0 to |ls|
      invariant Scanned(ls, removed[..], i, first, start, last)
    {
      match KindOf(ls[i])
      case Channel =>
        first, start, last := CloseBlock(ls, removed, i, first, start, last);
        BlockOpens(ls, removed[..], i, first);
        start, last := i, i;
      case Sub =>
        if start < 0 {
          BlockOpens(ls, removed[..], i, first);
          start := i;
        } else {
          BlockGoesOn(ls, removed[..], i, first, start, last);
        }
        last := i;
      case Other =>
        first, start, last := CloseBlock(ls, removed, i, first, start, last);
        LineStays(ls, removed[..], i, first);
      case Text =>
        if start >= 0 {
          BlockGoesOn(ls, removed[..], i, first, start, last);
          last := i;
        } else {
          LineStays(ls, removed[..], i, first);
        }
      case Quiet =>
        if start >= 0 {
          BlockGoesOn(ls, removed[..], i, first, start, last);
        } else {
          LineStays(ls, removed[..], i, first);
        }
    }
    first, start, last := CloseBlock(ls, removed, |ls|, first, start, last);
    if first < 0 { FrontLengthIs(ls, |ls|); }
  }

  // ---- pass 2: the copy with the new tables in place ----

  lemma OpensInside(line: string, open: bool)
    ensures Opens(line) ==> Inside(line, open)
    ensures !Opens(line) && !open ==> !Inside(line, open)
  {
    hide TableHeader, IsBlank, Trim;
  }

  lemma FrontIsClosed(ls: seq<string>, i: nat)
    requires i <= FrontLength(ls)
    ensures !OpenAt(ls, i)
  {
    hide Opens, Inside;
    FrontSays(ls);
    if i > 0 {
      FrontIsClosed(ls, i - 1);
      OpensInside(ls[i - 1], false);
    }
  }

  /** The part of the result that is still to be copied. */
  lemma KeptFrom(ls: seq<string>, i: nat)
    requires i < |ls|
    ensures
      var rest := Kept(ls[i + 1..], OpenAt(ls, i + 1));
      Kept(ls[i..], OpenAt(ls, i)) == if Marked(ls, i) then rest else [ls[i]] + rest
  {
    hide Inside, InBlock;
    assert ls[i..][1..] == ls[i + 1..];
  }

  /** Copies what stays; the new tables, one piece of text, go where the first block was. */
  method Copy(ls: seq<string>, removed: array<bool>, first: int, body: string) returns (out: seq<string>)
    requires removed.Length == |ls| && forall k :: 0 <= k < |ls| ==> removed[k] == Marked(ls, k)
    requires first == if FrontLength(ls) < |ls| then FrontLength(ls) else -1
    ensures out == Front(ls) + [body] + Back(ls)
  {
    hide *;
    ghost var n := FrontLength(ls);
    out := [];
    CopyStarts(ls, body);
    for i := 0 to |ls|
      invariant Copied(ls, body, i, out)
    {
      CopyOne(ls, body, i, out, removed[i]);
      if i == first { out := out + [body]; }
      if !removed[i] { out := out + [ls[i]]; }
    }
    CopyEnds(ls, body, out);
    if first < 0 {
      if out != [] && !IsBlank(out[|out| - 1]) { out := out + [""]; }
      out := out + [body];
    }
  }

  /** The copy after i lines: a prefix before the first block, then all but the part still to be copied. */
  ghost predicate Copied(ls: seq<string>, body: string, i: nat, out: seq<string>)
    requires i <= |ls|
  {
    var n := FrontLength(ls);
    if i <= n then out == ls[..i] else out + Rest(ls, i) == Whole(ls, body)
  }

  ghost function Rest(ls: seq<string>, i: nat): seq<string>
    requires i <= |ls|
  {
    Kept(ls[i..], OpenAt(ls, i))
  }

  ghost function Whole(ls: seq<string>, body: string): seq<string> {
    ls[..FrontLength(ls)] + [body] + Kept(ls[FrontLength(ls)..], false)
  }

  lemma RestStep(ls: seq<string>, i: nat, out: seq<string>)
    requires i < |ls|
    ensures out + Rest(ls, i) == (if Marked(ls, i) then out else out + [ls[i]]) + Rest(ls, i + 1)
  {
    hide KindOf, Inside, InBlock, Opens, Marked, OpenAt, Kept;
    KeptFrom(ls, i);
    assert out + ([ls[i]] + Rest(ls, i + 1)) == (out + [ls[i]]) + Rest(ls, i + 1);
  }

  lemma RestAtFront(ls: seq<string>, body: string)
    ensures ls[..FrontLength(ls)] + [body] + Rest(ls, FrontLength(ls)) == Whole(ls, body)
  {
    hide OpenAt, Kept, Opens;
    FrontIsClosed(ls, FrontLength(ls));
  }

  lemma CopyStarts(ls: seq<string>, body: string)
    ensures Copied(ls, body, 0, [])
  {
  }

  lemma CopyOne(ls: seq<string>, body: string, i: nat, out: seq<string>, removed: bool)
    requires i < |ls| && Copied(ls, body, i, out) && removed == Marked(ls, i)
    ensures
      var with := if i == FrontLength(ls) then out + [body] else out;
      Copied(ls, body, i + 1, if removed then with else with + [ls[i]])
  {
    hide Opens, Marked, OpenAt, Kept, Rest, Whole;
    var n := FrontLength(ls);
    if i < n {
      NotMarked(ls, i);
    } else {
      RestAtFront(ls, body);
      RestStep(ls, i, if i == n then out + [body] else out);
    }
  }

  lemma CopyEnds(ls: seq<string>, body: string, out: seq<string>)
    requires Copied(ls, body, |ls|, out)
    ensures FrontLength(ls) < |ls| ==> out == Front(ls) + [body] + Back(ls)
    ensures FrontLength(ls) == |ls| ==>
      && out == ls && Back(ls) == []
      && Front(ls) == if ls != [] && !IsBlank(ls[|ls| - 1]) then ls + [""] else ls
  {
    hide KindOf, Inside, InBlock, Opens, Marked, OpenAt, Kept, IsBlank;
    KeptNothing(ls, false);
    KeptNothing(ls, OpenAt(ls, |ls|));
  }

  lemma KeptNothing(ls: seq<string>, open: bool)
    ensures Kept(ls[|ls|..], open) == []
  {
  }

  lemma NotMarked(ls: seq<string>, i: nat)
    requires i < FrontLength(ls)
    ensures !Marked(ls, i)
  {
    hide Opens, Inside;
    FrontSays(ls);
    FrontIsClosed(ls, i);
    OpensInside(ls[i], false);
  }

  // ---- text and lines ----

  lemma {:induction false} JoinedCat(a: seq<string>, b: seq<string>)
    requires a != [] && b != []
    ensures Joined(a + b) == Joined(a) + "\n" + Joined(b)
  {
    if |a| == 1 {
      assert (a + b)[1..] == b;
    } else {
      assert (a + b)[1..] == a[1..] + b;
      JoinedCat(a[1..], b);
    }
  }

  lemma {:induction false} JoinedSplit(s: string)
    ensures Joined(Split(s)) == s
  {
    if s != "" {
      JoinedSplit(s[1..]);
      var rest := Split(s[1..]);
      if s[0] == '\n' {
        JoinedCat([""], rest);
        assert s == "\n" + s[1..];
      } else {
        assert s == [s[0]] + s[1..];
        assert ([[s[0]] + rest[0]] + rest[1..])[1..] == rest[1..];
      }
    }
  }

  /** A text with newlines joined as one piece is joined as its lines. */
  lemma JoinedPiece(a: seq<string>, piece: string, c: seq<string>)
    ensures Joined(a + [piece] + c) == Joined(a + Split(piece) + c)
  {
    var lines := Split(piece);
    JoinedSplit(piece);
    if a != [] {
      JoinedCat(a, [piece]);
      JoinedCat(a, lines);
    } else {
      assert a + [piece] == [piece] && a + lines == lines;
    }
    if c != [] {
      JoinedCat(a + [piece], c);
      JoinedCat(a + lines, c);
    } else {
      assert a + [piece] + c == a + [piece] && a + lines + c == a + lines;
    }
  }

  method ReplaceChannels(raw: string, body: string) returns (out: string)
    ensures out == ReplacedText(raw, body)
  {
    hide Front, Back, Split, Of, Joined, Marked, FrontLength;
    var ls := Of(raw);
    var removed, first := Scan(ls);
    var pieces := Copy(ls, removed, first, body);
    JoinedPiece(Front(ls), body, Back(ls));
    return Lines.Text(pieces);
  }
}
