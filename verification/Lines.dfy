/** Config text as lines, the way internal/config/file.go splits and joins it. */
module Lines {
  import opened Texts
  import opened Wrappers

  /** No line holds a newline. */
  predicate OneLiners(ls: seq<string>) { forall i :: 0 <= i < |ls| ==> '\n' !in ls[i] }

  function Split(s: string): (ls: seq<string>)
    ensures ls != [] && OneLiners(ls)
  {
    if s == [] then [""]
    else
      var rest := Split(s[1..]);
      if s[0] == '\n' then [""] + rest else [[s[0]] + rest[0]] + rest[1..]
  }

  /** strings.Split of the text without its final newline; no lines in an empty text. */
  function Of(text: string): (ls: seq<string>)
    ensures OneLiners(ls)
  {
    if text == [] then []
    else if text[|text| - 1] == '\n' then Split(text[..|text| - 1])
    else Split(text)
  }

  /** strings.Join with newlines between. */
  function Joined(ls: seq<string>): string {
    if ls == [] then "" else if |ls| == 1 then ls[0] else ls[0] + "\n" + Joined(ls[1..])
  }

  function Text(ls: seq<string>): string {
    Joined(ls) + "\n"
  }

  lemma {:induction false} SplitLine(l: string, rest: string)
    requires '\n' !in l
    ensures Split(l + "\n" + rest) == [l] + Split(rest)
  {
    if l == [] {
      assert l + "\n" + rest == "\n" + rest && ("\n" + rest)[1..] == rest;
    } else {
      assert (l + "\n" + rest)[1..] == l[1..] + "\n" + rest;
      SplitLine(l[1..], rest);
      assert ([l[1..]] + Split(rest))[1..] == Split(rest) && l == [l[0]] + l[1..];
    }
  }

  lemma {:induction false} SplitLast(l: string)
    requires '\n' !in l
    ensures Split(l) == [l]
  {
    if l != [] {
      SplitLast(l[1..]);
      assert l == [l[0]] + l[1..];
    }
  }

  lemma {:induction false} SplitJoined(ls: seq<string>)
    requires ls != [] && OneLiners(ls)
    ensures Split(Joined(ls)) == ls
  {
    if |ls| == 1 {
      SplitLast(ls[0]);
    } else {
      SplitJoined(ls[1..]);
      SplitLine(ls[0], Joined(ls[1..]));
      assert ls == [ls[0]] + ls[1..];
    }
  }

  /** Writing lines and reading them back gives the same lines. */
  lemma RoundTrip(ls: seq<string>)
    requires ls != [] && OneLiners(ls)
    ensures Of(Text(ls)) == ls
  {
    SplitJoined(ls);
    assert Text(ls)[..|Text(ls)| - 1] == Joined(ls);
  }

  /** The bare key of a `key = value` line; empty for comments, blank lines and the rest. */
  function AssignedKey(line: string): string {
    var t := Trim(line);
    if t == "" || t[0] == '#' || IndexOf(t, '=') < 0 then "" else Trim(t[..IndexOf(t, '=')])
  }

  /** What stands after the first "=" of a line. */
  function AssignedValue(line: string): string {
    var t := Trim(line);
    if IndexOf(t, '=') < 0 then "" else Trim(t[IndexOf(t, '=') + 1..])
  }

  /** A line that opens some table. */
  predicate IsTable(line: string) {
    HasPrefix(Trim(line), "[")
  }

  predicate IsBlank(line: string) {
    Trim(line) == ""
  }

  /** Where "]]" starts. */
  function IndexOfClose(s: string): (i: int)
    ensures -1 <= i <= |s| - 2 || i == -1
    ensures i >= 0 ==> s[i] == ']' && s[i + 1] == ']'
  {
    if |s| < 2 then -1
    else if s[0] == ']' && s[1] == ']' then 0
    else var i := IndexOfClose(s[1..]); if i < 0 then -1 else i + 1
  }

  /** The name in a [name] or [[name]] line. */
  function TableHeader(line: string): Option<string> {
    var t := Trim(line);
    if !HasPrefix(t, "[") then None
    else if HasPrefix(t, "[[") then
      if IndexOfClose(t) < 2 then None else Some(Trim(t[2..IndexOfClose(t)]))
    else if IndexOf(t, ']') < 1 then None
    else Some(Trim(t[1..IndexOf(t, ']')]))
  }
}
