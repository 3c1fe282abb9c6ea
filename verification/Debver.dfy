/**
 * internal/debver/debver.go: dpkg's version order. The two-index scan is proved to be the
 * lexicographic comparison of (text, number) lists of section 5.6.12 of the Debian Policy
 * Manual, and that comparison to be a total preorder.
 */
module Debver {
  import opened Texts
  import opened Wrappers

  // ---- characters ----

  predicate IsAlpha(c: char) { 'a' <= c <= 'z' || 'A' <= c <= 'Z' }

  /** The weight of a character; the end of the string weighs 0, like a digit. */
  function Order(s: string, i: nat): int {
    if i >= |s| then 0 else Weight(s[i])
  }

  function Weight(c: char): int {
    if IsDigit(c) then 0 else if IsAlpha(c) then c as int else if c == '~' then -1 else c as int + 256
  }

  function Sign(n: int): int {
    if n < 0 then -1 else if n > 0 then 1 else 0
  }

  // ---- the reference: lists of (text, number) ----

  /** A run of non-digits and the number of the digits after it. */
  datatype Token = Token(text: string, num: nat)

  const NO_TOKEN := Token("", 0)

  function TextOf(s: string): (t: string)
    ensures t <= s && forall i :: 0 <= i < |t| ==> !IsDigit(t[i])
    ensures |t| < |s| ==> IsDigit(s[|t|])
  {
    if s == [] || IsDigit(s[0]) then [] else [s[0]] + TextOf(s[1..])
  }

  function DigitsOf(s: string): (t: string)
    ensures t <= s && AllDigits(t)
    ensures |t| < |s| ==> !IsDigit(s[|t|])
  {
    if s == [] || !IsDigit(s[0]) then [] else [s[0]] + DigitsOf(s[1..])
  }

  ghost predicate AllDigits(s: string) {
    forall i :: 0 <= i < |s| ==> IsDigit(s[i])
  }

  /** The number a run of digits stands for. */
  ghost function Number(ds: string): nat
    requires AllDigits(ds)
  {
    if ds == [] then 0 else Number(ds[..|ds| - 1]) * 10 + DigitOf(ds[|ds| - 1])
  }

  ghost function Head(s: string): Token {
    var text := TextOf(s);
    Token(text, Number(DigitsOf(s[|text|..])))
  }

  ghost function Rest(s: string): (r: string)
    ensures s != [] ==> |r| < |s|
    ensures s == [] ==> r == []
  {
    var text := TextOf(s);
    s[|text| + |DigitsOf(s[|text|..])|..]
  }

  ghost function Tokens(s: string): seq<Token> {
    if s == [] then [] else [Head(s)] + Tokens(Rest(s))
  }

  /** Weight by weight, the shorter text padded with the end's weight. */
  function CompareText(p: string, q: string): int
    decreases |p| + |q|
  {
    if p == [] && q == [] then 0
    else if Order(p, 0) != Order(q, 0) then Sign(Order(p, 0) - Order(q, 0))
    else CompareText(if p == [] then [] else p[1..], if q == [] then [] else q[1..])
  }

  function CompareToken(x: Token, y: Token): int {
    if CompareText(x.text, y.text) != 0 then CompareText(x.text, y.text) else Sign(x.num - y.num)
  }

  function First(xs: seq<Token>): Token { if xs == [] then NO_TOKEN else xs[0] }

  function Drop(xs: seq<Token>): (r: seq<Token>)
    ensures |r| <= |xs| && (xs != [] ==> |r| < |xs|)
  {
    if xs == [] then [] else xs[1..]
  }

  /** Lexicographic, the shorter list padded with ("", 0). */
  function CompareTokens(xs: seq<Token>, ys: seq<Token>): int
    decreases |xs| + |ys|
  {
    if xs == [] && ys == [] then 0
    else
      var c := CompareToken(First(xs), First(ys));
      if c != 0 then c else CompareTokens(Drop(xs), Drop(ys))
  }

  ghost function Reference(a: string, b: string): int {
    CompareTokens(Tokens(a), Tokens(b))
  }

  // ---- how the scan moves through the reference ----

  /** One token of each string decides, or both are dropped. */
  lemma ReferenceUnfold(s: string, t: string)
    ensures Reference(s, t) ==
            if CompareToken(Head(s), Head(t)) != 0 then CompareToken(Head(s), Head(t)) else Reference(Rest(s), Rest(t))
  {
    HeadOfEmpty();
    if s != [] { assert Tokens(s)[1..] == Tokens(Rest(s)); }
    if t != [] { assert Tokens(t)[1..] == Tokens(Rest(t)); }
    if s == [] && t == [] {
      assert CompareText("", "") == 0;
    }
  }

  lemma HeadOfEmpty()
    ensures Head("") == NO_TOKEN && Rest("") == ""
  {
  }

  lemma HeadOfText(c: char, s: string)
    requires !IsDigit(c)
    ensures var h, h1 := Head([c] + s), Head(s);
            h == Token([c] + h1.text, h1.num) && Rest([c] + s) == Rest(s)
  {
    var all, text := [c] + s, TextOf(s);
    assert TextOf(all) == [c] + text by { TextOfCons(c, s); }
    hide TextOf, DigitsOf, Number;
    assert all[|text| + 1..] == s[|text|..];
    var n := |DigitsOf(s[|text|..])|;
    assert all[|text| + 1 + n..] == s[|text| + n..];
  }

  lemma TextOfCons(c: char, s: string)
    requires !IsDigit(c)
    ensures TextOf([c] + s) == [c] + TextOf(s)
  {
    assert ([c] + s)[1..] == s;
  }

  lemma TextCons(c: char, p: string, q: string)
    ensures CompareText([c] + p, [c] + q) == CompareText(p, q)
  {
    assert ([c] + p)[1..] == p && ([c] + q)[1..] == q;
  }

  /** A common non-digit in front changes nothing. */
  lemma CommonChar(c: char, s: string, t: string)
    requires !IsDigit(c)
    ensures Reference([c] + s, [c] + t) == Reference(s, t)
  {
    hide Head, Rest, Reference, CompareText;
    HeadOfText(c, s);
    HeadOfText(c, t);
    ReferenceUnfold([c] + s, [c] + t);
    ReferenceUnfold(s, t);
    TextCons(c, Head(s).text, Head(t).text);
  }

  /** Different weights in front decide. */
  lemma DifferentChar(s: string, t: string)
    requires Order(s, 0) != Order(t, 0)
    ensures Reference(s, t) == Sign(Order(s, 0) - Order(t, 0))
  {
    ReferenceUnfold(s, t);
    var p, q := Head(s).text, Head(t).text;
    assert Order(p, 0) == Order(s, 0) && Order(q, 0) == Order(t, 0);
  }

  ghost function Pow10(n: nat): nat {
    if n == 0 then 1 else 10 * Pow10(n - 1)
  }

  lemma {:induction false} NumberBounds(ds: string)
    requires AllDigits(ds)
    ensures Number(ds) < Pow10(|ds|)
    ensures ds != [] && ds[0] != '0' ==> Number(ds) >= Pow10(|ds| - 1)
  {
    if ds != [] { NumberBounds(ds[..|ds| - 1]); }
  }

  lemma {:induction false} Pow10Grows(m: nat, n: nat)
    requires m <= n
    ensures 1 <= Pow10(m) <= Pow10(n)
  {
    if m < n { Pow10Grows(m, n - 1); } else if n > 0 { Pow10Grows(n - 1, n - 1); }
  }

  /** Without leading zeros the longer number is the larger one. */
  lemma LongerIsLarger(x: string, y: string)
    requires AllDigits(x) && AllDigits(y) && |x| > |y| && x[0] != '0'
    ensures Number(x) > Number(y)
  {
    NumberBounds(x);
    NumberBounds(y);
    Pow10Grows(|y|, |x| - 1);
  }

  lemma {:induction false} ZerosInFront(zeros: string, x: string)
    requires AllDigits(x) && forall i :: 0 <= i < |zeros| ==> zeros[i] == '0'
    ensures AllDigits(zeros + x) && Number(zeros + x) == Number(x)
  {
    if x != [] {
      assert (zeros + x)[..|zeros + x| - 1] == zeros + x[..|x| - 1];
      ZerosInFront(zeros, x[..|x| - 1]);
    } else if zeros != [] {
      assert zeros + x == zeros && zeros[..|zeros| - 1] + [] == zeros[..|zeros| - 1];
      ZerosInFront(zeros[..|zeros| - 1], []);
    }
  }

  lemma {:induction false} DigitsSplit(ds: string, s: string)
    requires AllDigits(ds) && (s != [] ==> !IsDigit(s[0]))
    ensures DigitsOf(ds + s) == ds
  {
    hide IsDigit;
    if ds == [] {
      assert ds + s == s;
    } else {
      assert (ds + s)[1..] == ds[1..] + s && (ds + s)[0] == ds[0] && ds == [ds[0]] + ds[1..];
      DigitsSplit(ds[1..], s);
    }
  }

  /** What the scan finds once it is past the text: digits, then a non-digit or the end. */
  ghost predicate AtNumber(x: string, s: string) {
    AllDigits(x) && (s != [] ==> !IsDigit(s[0])) && (x == [] ==> s == [])
  }

  lemma HeadOfDigits(x: string, s: string)
    requires AtNumber(x, s)
    ensures Head(x + s) == Token("", Number(x)) && Rest(x + s) == s
  {
    if x == [] {
      HeadOfEmpty();
      assert x + s == "";
    } else {
      assert (x + s)[0] == x[0];
      DigitsSplit(x, s);
      assert TextOf(x + s) == "";
      assert (x + s)[0..] == x + s && (x + s)[|x|..] == s;
    }
  }

  /** Numbers in front decide by value, or both are dropped. */
  lemma NumbersInFront(x: string, s: string, y: string, t: string)
    requires AtNumber(x, s) && AtNumber(y, t)
    ensures Reference(x + s, y + t) == if Number(x) != Number(y) then Sign(Number(x) - Number(y)) else Reference(s, t)
  {
    HeadOfDigits(x, s);
    HeadOfDigits(y, t);
    hide Head, Rest, Reference, Number;
    ReferenceUnfold(x + s, y + t);
    assert CompareText("", "") == 0;
  }

  // ---- the scan ----

  /** Same sign, or not yet decided and the rests decide. */
  ghost predicate Undecided(a: string, b: string, i: nat, j: nat) {
    i <= |a| && j <= |b| && Reference(a, b) == Reference(a[i..], b[j..])
  }

  lemma TextStep(a: string, b: string, i: nat, j: nat)
    requires Undecided(a, b, i, j)
    requires (i < |a| && !IsDigit(a[i])) || (j < |b| && !IsDigit(b[j]))
    ensures Order(a, i) != Order(b, j) ==> Reference(a, b) == Sign(Order(a, i) - Order(b, j))
    ensures Order(a, i) == Order(b, j) ==> Undecided(a, b, i + 1, j + 1)
  {
    hide Reference;
    if Order(a, i) != Order(b, j) {
      DifferentChar(a[i..], b[j..]);
    } else {
      assert a[i] == b[j];
      assert a[i..] == [a[i]] + a[i + 1..] && b[j..] == [b[j]] + b[j + 1..];
      CommonChar(a[i], a[i + 1..], b[j + 1..]);
    }
  }

  method SkipZeros(s: string, from: nat) returns (i: nat)
    requires from <= |s|
    ensures from <= i <= |s| && (forall k :: from <= k < i ==> s[k] == '0') && (i < |s| ==> s[i] != '0')
  {
    i := from;
    while i < |s| && s[i] == '0'
      invariant from <= i <= |s| && forall k :: from <= k < i ==> s[k] == '0'
    {
      i := i + 1;
    }
  }

  /** One more digit of a run. */
  lemma NumberGrows(s: string, from: nat, i: nat)
    requires from <= i < |s| && AllDigits(s[from..i]) && IsDigit(s[i])
    ensures AllDigits(s[from..i + 1]) && Number(s[from..i + 1]) == Number(s[from..i]) * 10 + DigitOf(s[i])
  {
    var t := s[from..i + 1];
    assert t[|t| - 1] == s[i] && t[..|t| - 1] == s[from..i];
  }

  /** The first difference decides, whatever digits follow. */
  lemma FirstDifference(x: nat, y: nat, c: char, d: char, diff: int)
    requires IsDigit(c) && IsDigit(d) && Sign(diff) == Sign(x - y)
    ensures Sign(if diff == 0 then c as int - d as int else diff) == Sign((x * 10 + DigitOf(c)) - (y * 10 + DigitOf(d)))
  {
  }

  /** Both digit runs in step; the first difference carries the order of what was passed. */
  method MatchDigits(a: string, b: string, i0: nat, j0: nat) returns (i: nat, j: nat, firstDiff: int)
    requires i0 <= |a| && j0 <= |b|
    ensures i0 <= i <= |a| && j0 <= j <= |b| && i - i0 == j - j0
    ensures AllDigits(a[i0..i]) && AllDigits(b[j0..j])
    ensures Sign(firstDiff) == Sign(Number(a[i0..i]) - Number(b[j0..j]))
    ensures !(AtDigit(a, i) && AtDigit(b, j))
  {
    assert AllDigits([]) && Number([]) == 0;
    hide AllDigits, Number, Sign;
    i, j, firstDiff := i0, j0, 0;
    while AtDigit(a, i) && AtDigit(b, j)
      invariant i0 <= i <= |a| && j0 <= j <= |b| && i - i0 == j - j0
      invariant AllDigits(a[i0..i]) && AllDigits(b[j0..j])
      invariant Sign(firstDiff) == Sign(Number(a[i0..i]) - Number(b[j0..j]))
      decreases |a| - i
    {
      NumberGrows(a, i0, i);
      NumberGrows(b, j0, j);
      FirstDifference(Number(a[i0..i]), Number(b[j0..j]), a[i], b[j], firstDiff);
      if firstDiff == 0 {
        firstDiff := a[i] as int - b[j] as int;
      }
      i, j := i + 1, j + 1;
    }
  }

  predicate AtDigit(s: string, i: nat) {
    i < |s| && IsDigit(s[i])
  }

  predicate AtText(s: string, i: nat) {
    i < |s| && !IsDigit(s[i])
  }

  method Verrevcmp(a: string, b: string) returns (r: int)
    ensures Sign(r) == Reference(a, b)
  {
    hide Reference, Number;
    var i, j := 0, 0;
    assert a[0..] == a && b[0..] == b;
    while i < |a| || j < |b|
      invariant Undecided(a, b, i, j)
      decreases |a| - i + |b| - j
    {
      ghost var i0, j0 := i, j;
      while AtText(a, i) || AtText(b, j)
        invariant i0 <= i && j0 <= j && Undecided(a, b, i, j)
        decreases |a| - i
      {
        TextStep(a, b, i, j);
        var ac, bc := Order(a, i), Order(b, j);
        if ac != bc { return ac - bc; }
        i, j := i + 1, j + 1;
      }
      var i2 := SkipZeros(a, i);
      var j2 := SkipZeros(b, j);
      var i3, j3, firstDiff := MatchDigits(a, b, i2, j2);
      NumbersDecide(a, b, i, j, i2, j2, i3, j3);
      i, j := i3, j3;
      if AtDigit(a, i) { return 1; }
      if AtDigit(b, j) { return -1; }
      if firstDiff != 0 { return firstDiff; }
    }
    assert a[|a|..] == "" && b[|b|..] == "";
    ReferenceOfEmpty();
    return 0;
  }

  lemma ReferenceOfEmpty()
    ensures Reference("", "") == 0
  {
  }

  lemma DigitsReach(s: string, k: nat)
    requires k <= |s| && AllDigits(s[..k])
    ensures |DigitsOf(s)| >= k
    ensures k < |s| && IsDigit(s[k]) ==> |DigitsOf(s)| > k
    ensures k == |s| || !IsDigit(s[k]) ==> DigitsOf(s) == s[..k]
  {
    assert forall m :: 0 <= m < k ==> s[..k][m] == s[m];
    var t := DigitsOf(s);
    assert forall m :: 0 <= m < |t| ==> t[m] == s[m];
  }

  /** One string past its zeros and its matched digits: the number that stands at `from`. */
  lemma NumberAt(a: string, from: nat, past: nat, i: nat) returns (x: string, s: string)
    requires from <= past <= i <= |a| && !AtText(a, from)
    requires (forall k :: from <= k < past ==> a[k] == '0') && (past < |a| ==> a[past] != '0')
    requires AllDigits(a[past..i])
    ensures AtNumber(a[from..past] + x, s) && a[from..] == (a[from..past] + x) + s
    ensures AllDigits(x) && Number(a[from..past] + x) == Number(x)
    ensures AtDigit(a, i) ==> |x| > i - past && x[0] != '0'
    ensures !AtDigit(a, i) ==> x == a[past..i] && s == a[i..]
    ensures i - past <= |x|
  {
    hide DigitsOf, Number, AllDigits;
    var tail, zeros := a[past..], a[from..past];
    x, s := DigitsThen(a, past, i);
    ZerosInFront(zeros, x);
    assert a[from..] == zeros + tail;
    assert zeros + (x + s) == (zeros + x) + s;
  }

  /** All digits that stand at past, of which those up to i are known, and what follows them. */
  lemma DigitsThen(a: string, past: nat, i: nat) returns (x: string, s: string)
    requires past <= i <= |a| && (past < |a| ==> a[past] != '0') && AllDigits(a[past..i])
    ensures a[past..] == x + s && AllDigits(x) && (s != [] ==> !IsDigit(s[0])) && i - past <= |x|
    ensures AtDigit(a, i) ==> |x| > i - past && x[0] != '0'
    ensures !AtDigit(a, i) ==> x == a[past..i] && s == a[i..]
  {
    hide DigitsOf, AllDigits;
    var tail, k := a[past..], i - past;
    x := DigitsOf(tail);
    s := tail[|x|..];
    assert tail[..k] == a[past..i] && tail[k..] == a[i..];
    DigitsReach(tail, k);
    if |x| > 0 { assert x[0] == tail[0] == a[past]; }
  }

  /** What the three digit loops have found out when they end. */
  lemma NumbersDecide(a: string, b: string, i1: nat, j1: nat, i2: nat, j2: nat, i: nat, j: nat)
    requires i1 <= i2 <= i <= |a| && j1 <= j2 <= j <= |b| && i - i2 == j - j2
    requires Undecided(a, b, i1, j1) && !AtText(a, i1) && !AtText(b, j1)
    requires (forall k :: i1 <= k < i2 ==> a[k] == '0') && (forall k :: j1 <= k < j2 ==> b[k] == '0')
    requires (i2 < |a| ==> a[i2] != '0') && (j2 < |b| ==> b[j2] != '0')
    requires AllDigits(a[i2..i]) && AllDigits(b[j2..j]) && !(AtDigit(a, i) && AtDigit(b, j))
    ensures AtDigit(a, i) ==> Reference(a, b) == 1
    ensures AtDigit(b, j) ==> Reference(a, b) == -1
    ensures !AtDigit(a, i) && !AtDigit(b, j) ==>
              if Number(a[i2..i]) != Number(b[j2..j])
              then Reference(a, b) == Sign(Number(a[i2..i]) - Number(b[j2..j]))
              else Undecided(a, b, i, j)
    ensures (i1 < |a| || j1 < |b|) && !AtDigit(a, i) && !AtDigit(b, j) ==> i1 + j1 < i + j
  {
    hide Reference, Number, AllDigits, AtNumber;
    var x, s := NumberAt(a, i1, i2, i);
    var y, t := NumberAt(b, j1, j2, j);
    NumbersInFront(a[i1..i2] + x, s, b[j1..j2] + y, t);
    if AtDigit(a, i) {
      LongerIsLarger(x, y);
    } else if AtDigit(b, j) {
      LongerIsLarger(y, x);
    }
  }

  // ---- the order ----

  lemma {:induction false} TextAntisymmetric(p: string, q: string)
    ensures CompareText(p, q) == -CompareText(q, p)
    decreases |p| + |q|
  {
    if !(p == [] && q == []) && Order(p, 0) == Order(q, 0) {
      TextAntisymmetric(if p == [] then [] else p[1..], if q == [] then [] else q[1..]);
    }
  }

  lemma {:induction false} Antisymmetric(xs: seq<Token>, ys: seq<Token>)
    ensures CompareTokens(xs, ys) == -CompareTokens(ys, xs)
    decreases |xs| + |ys|
  {
    if !(xs == [] && ys == []) {
      TextAntisymmetric(First(xs).text, First(ys).text);
      Antisymmetric(Drop(xs), Drop(ys));
    }
  }

  function Tail(p: string): string { if p == [] then [] else p[1..] }

  lemma TextStepOf(p: string, q: string)
    ensures CompareText(p, q) ==
            if Order(p, 0) != Order(q, 0) then Sign(Order(p, 0) - Order(q, 0)) else CompareText(Tail(p), Tail(q))
  {
  }

  lemma {:induction false} TextTransitive(p: string, q: string, r: string)
    ensures CompareText(p, q) <= 0 && CompareText(q, r) <= 0 ==>
              CompareText(p, r) <= 0 && (CompareText(p, r) == 0 ==> CompareText(p, q) == 0 && CompareText(q, r) == 0)
    decreases |p| + |q| + |r|
  {
    if p != [] || q != [] || r != [] {
      TextTransitive(Tail(p), Tail(q), Tail(r));
      TextStepOf(p, q);
      TextStepOf(q, r);
      TextStepOf(p, r);
      hide CompareText;
    }
  }

  lemma TokenTransitive(x: Token, y: Token, z: Token)
    ensures CompareToken(x, y) <= 0 && CompareToken(y, z) <= 0 ==>
              CompareToken(x, z) <= 0 && (CompareToken(x, z) == 0 ==>
                CompareToken(x, y) == 0 && CompareToken(y, z) == 0)
  {
    TextTransitive(x.text, y.text, z.text);
    hide CompareText;
  }

  lemma TokensStep(xs: seq<Token>, ys: seq<Token>)
    ensures CompareTokens(xs, ys) ==
            if CompareToken(First(xs), First(ys)) != 0 then CompareToken(First(xs), First(ys))
              else CompareTokens(Drop(xs), Drop(ys))
  {
  }

  lemma {:induction false} Transitive(xs: seq<Token>, ys: seq<Token>, zs: seq<Token>)
    ensures CompareTokens(xs, ys) <= 0 && CompareTokens(ys, zs) <= 0 ==>
              CompareTokens(xs, zs) <= 0
              && (CompareTokens(xs, zs) == 0 ==> CompareTokens(xs, ys) == 0 && CompareTokens(ys, zs) == 0)
    decreases |xs| + |ys| + |zs|
  {
    if xs != [] || ys != [] || zs != [] {
      TokenTransitive(First(xs), First(ys), First(zs));
      Transitive(Drop(xs), Drop(ys), Drop(zs));
      TokensStep(xs, ys);
      TokensStep(ys, zs);
      TokensStep(xs, zs);
      hide CompareTokens, CompareToken;
    }
  }

  // ---- equality is canonical equality ----

  ghost predicate NoDigits(s: string) {
    forall i :: 0 <= i < |s| ==> !IsDigit(s[i])
  }

  lemma WeightInjective(c: char, d: char)
    requires !IsDigit(c) && !IsDigit(d)
    ensures Weight(c) != 0 && (Weight(c) == Weight(d) ==> c == d)
  {
  }

  lemma {:induction false} TextEqual(p: string, q: string)
    requires NoDigits(p) && NoDigits(q)
    ensures CompareText(p, q) == 0 <==> p == q
    decreases |p| + |q|
  {
    if p != [] && q != [] {
      WeightInjective(p[0], q[0]);
      TextEqual(p[1..], q[1..]);
      assert p == [p[0]] + p[1..] && q == [q[0]] + q[1..];
    } else if p != [] {
      WeightInjective(p[0], p[0]);
    } else if q != [] {
      WeightInjective(q[0], q[0]);
    }
  }

  /** A token list without the padding at its end. */
  function Canonical(xs: seq<Token>): seq<Token> {
    if xs != [] && xs[|xs| - 1] == NO_TOKEN then Canonical(xs[..|xs| - 1]) else xs
  }

  ghost predicate Proper(xs: seq<Token>) {
    forall i :: 0 <= i < |xs| ==> NoDigits(xs[i].text)
  }

  lemma {:induction false} TokensProper(s: string)
    ensures Proper(Tokens(s))
    decreases |s|
  {
    if s != [] { TokensProper(Rest(s)); }
  }

  function Nth(xs: seq<Token>, i: nat): Token {
    if i < |xs| then xs[i] else NO_TOKEN
  }

  /** The same lists but for padding at their ends. */
  ghost predicate SamePadded(xs: seq<Token>, ys: seq<Token>) {
    forall i: nat :: Nth(xs, i) == Nth(ys, i)
  }

  lemma SamePaddedStep(xs: seq<Token>, ys: seq<Token>)
    ensures SamePadded(xs, ys) <==> First(xs) == First(ys) && SamePadded(Drop(xs), Drop(ys))
  {
    assert First(xs) == Nth(xs, 0) && First(ys) == Nth(ys, 0);
    if SamePadded(xs, ys) {
      forall i: nat ensures Nth(Drop(xs), i) == Nth(Drop(ys), i) {
        assert Nth(xs, i + 1) == Nth(ys, i + 1);
      }
    }
    if First(xs) == First(ys) && SamePadded(Drop(xs), Drop(ys)) {
      forall i: nat ensures Nth(xs, i) == Nth(ys, i) {
        if i > 0 { assert Nth(Drop(xs), i - 1) == Nth(Drop(ys), i - 1); }
      }
    }
  }

  lemma SamePaddedTrans(xs: seq<Token>, ys: seq<Token>, zs: seq<Token>)
    requires SamePadded(xs, ys) && SamePadded(ys, zs)
    ensures SamePadded(xs, zs)
  {
    forall i: nat ensures Nth(xs, i) == Nth(zs, i) {
      assert Nth(xs, i) == Nth(ys, i) && Nth(ys, i) == Nth(zs, i);
    }
  }

  lemma SamePaddedSym(xs: seq<Token>, ys: seq<Token>)
    requires SamePadded(xs, ys)
    ensures SamePadded(ys, xs)
  {
    hide Nth;
  }

  lemma TokenEqual(x: Token, y: Token)
    requires NoDigits(x.text) && NoDigits(y.text)
    ensures CompareToken(x, y) == 0 <==> x == y
  {
    TextEqual(x.text, y.text);
    hide CompareText, NoDigits;
  }

  lemma ProperParts(xs: seq<Token>)
    requires Proper(xs)
    ensures NoDigits(First(xs).text) && Proper(Drop(xs))
  {
  }

  lemma {:induction false} TokensEqual(xs: seq<Token>, ys: seq<Token>)
    requires Proper(xs) && Proper(ys)
    ensures CompareTokens(xs, ys) == 0 <==> SamePadded(xs, ys)
    decreases |xs| + |ys|
  {
    hide SamePadded, CompareToken, NoDigits, Proper, First, Drop;
    if xs != [] || ys != [] {
      ProperParts(xs);
      ProperParts(ys);
      TokensStep(xs, ys);
      SamePaddedStep(xs, ys);
      TokenEqual(First(xs), First(ys));
      TokensEqual(Drop(xs), Drop(ys));
      hide CompareTokens;
    } else {
      assert SamePadded([], []) by { BothEmpty(); }
    }
  }

  lemma BothEmpty()
    ensures SamePadded([], [])
  {
  }

  lemma {:induction false} CanonicalPadded(xs: seq<Token>)
    ensures SamePadded(xs, Canonical(xs))
    ensures var c := Canonical(xs); c != [] ==> c[|c| - 1] != NO_TOKEN
  {
    if xs != [] && xs[|xs| - 1] == NO_TOKEN {
      var front := xs[..|xs| - 1];
      CanonicalPadded(front);
      assert SamePadded(xs, front);
      SamePaddedTrans(xs, front, Canonical(front));
      hide SamePadded;
    }
  }

  lemma SameCanonical(xs: seq<Token>, ys: seq<Token>)
    requires xs != [] ==> xs[|xs| - 1] != NO_TOKEN
    requires ys != [] ==> ys[|ys| - 1] != NO_TOKEN
    requires SamePadded(xs, ys)
    ensures xs == ys
  {
    var m, n: nat := if xs == [] then 0 else |xs| - 1, if ys == [] then 0 else |ys| - 1;
    assert Nth(xs, m) == Nth(ys, m) && Nth(xs, n) == Nth(ys, n);
    forall i | 0 <= i < |xs| && |xs| == |ys| ensures xs[i] == ys[i] {
      assert Nth(xs, i) == Nth(ys, i);
    }
  }

  /** Two strings compare equal exactly when their token lists agree up to padding. */
  lemma EqualIsCanonical(a: string, b: string)
    ensures Reference(a, b) == 0 <==> Canonical(Tokens(a)) == Canonical(Tokens(b))
  {
    hide Canonical, CompareTokens, SamePadded, Proper, Tokens;
    var xs, ys := Tokens(a), Tokens(b);
    TokensProper(a);
    TokensProper(b);
    TokensEqual(xs, ys);
    CanonicalPadded(xs);
    CanonicalPadded(ys);
    SamePaddedSym(xs, Canonical(xs));
    SamePaddedSym(ys, Canonical(ys));
    if SamePadded(xs, ys) {
      SamePaddedTrans(Canonical(xs), xs, ys);
      SamePaddedTrans(Canonical(xs), ys, Canonical(ys));
      SameCanonical(Canonical(xs), Canonical(ys));
    } else if Canonical(xs) == Canonical(ys) {
      SamePaddedTrans(xs, Canonical(xs), ys);
    }
  }

  // ---- whole versions ----

  /** Go's int is 64 bits wide and wraps around. */
  function Wrap(n: int): int {
    (n + 0x8000_0000_0000_0000) % 0x1_0000_0000_0000_0000 - 0x8000_0000_0000_0000
  }

  function Epoch(s: string): int {
    if s == [] then 0 else Wrap(Epoch(s[..|s| - 1]) * 10 + DigitOf(s[|s| - 1]))
  }

  method Atoi(s: string) returns (r: Option<int>)
    ensures r == if s != [] && AllDigits(s) then Some(Epoch(s)) else None
  {
    if s == [] { return None; }
    var n := 0;
    for i := 0 to |s|
      invariant AllDigits(s[..i]) && n == Epoch(s[..i])
    {
      if s[i] < '0' || s[i] > '9' { return None; }
      assert s[..i + 1][..i] == s[..i];
      n := Wrap(n * 10 + DigitOf(s[i]));
    }
    assert s[..|s|] == s;
    return Some(n);
  }

  function LastIndexByte(s: string, c: char): (i: int)
    ensures -1 <= i < |s| && (i >= 0 ==> s[i] == c)
  {
    if s == [] then -1
    else if s[|s| - 1] == c then |s| - 1
    else LastIndexByte(s[..|s| - 1], c)
  }

  datatype Version = Version(epoch: int, upstream: string, revision: string)

  ghost function EpochOf(s: string): int {
    if s != [] && AllDigits(s) then Epoch(s) else 0
  }

  /** upstream[-revision]: the revision follows the last "-". */
  function WithoutEpoch(epoch: int, s: string): Version {
    var dash := LastIndexByte(s, '-');
    if dash >= 0 then Version(epoch, s[..dash], s[dash + 1..]) else Version(epoch, s, "")
  }

  /** [epoch:]upstream[-revision]; an epoch that is no number counts as 0. */
  ghost function ParsedTrimmed(t: string): Version {
    var colon := IndexOf(t, ':');
    if colon >= 0 then WithoutEpoch(EpochOf(t[..colon]), t[colon + 1..]) else WithoutEpoch(0, t)
  }

  ghost function Parsed(v: string): Version {
    ParsedTrimmed(Trim(v))
  }

  method SplitTrimmed(t: string) returns (r: Version)
    ensures r == ParsedTrimmed(t)
  {
    hide Epoch, Wrap, IndexOf, AllDigits, WithoutEpoch;
    var colon := IndexOf(t, ':');
    if colon < 0 { return WithoutEpoch(0, t); }
    var n := Atoi(t[..colon]);
    return WithoutEpoch(if n.Some? then n.value else 0, t[colon + 1..]);
  }

  method Split(v: string) returns (r: Version)
    ensures r == Parsed(v)
  {
    r := SplitTrimmed(Trim(v));
  }

  /** Epoch, then upstream version, then revision. */
  ghost function CompareVersions(a: Version, b: Version): int {
    if a.epoch != b.epoch then Sign(a.epoch - b.epoch)
    else if Reference(a.upstream, b.upstream) != 0 then Reference(a.upstream, b.upstream)
    else Reference(a.revision, b.revision)
  }

  method Compare(a: string, b: string) returns (r: int)
    ensures r == CompareVersions(Parsed(a), Parsed(b))
  {
    hide Reference, Parsed;
    var va := Split(a);
    var vb := Split(b);
    if va.epoch < vb.epoch { return -1; }
    if va.epoch > vb.epoch { return 1; }
    var c := Verrevcmp(va.upstream, vb.upstream);
    if c != 0 { return Sign(c); }
    var d := Verrevcmp(va.revision, vb.revision);
    return Sign(d);
  }

  ghost function CanonicalVersion(v: Version): (int, seq<Token>, seq<Token>) {
    (v.epoch, Canonical(Tokens(v.upstream)), Canonical(Tokens(v.revision)))
  }

  /**
   * The order of versions is a total preorder: sign-antisymmetric, transitive, and equal
   * exactly on versions with the same canonical form.
   */
  lemma VersionOrder(a: Version, b: Version, c: Version)
    ensures CompareVersions(a, b) == -CompareVersions(b, a)
    ensures CompareVersions(a, b) <= 0 && CompareVersions(b, c) <= 0 ==> CompareVersions(a, c) <= 0
    ensures CompareVersions(a, b) == 0 <==> CanonicalVersion(a) == CanonicalVersion(b)
  {
    Antisymmetric(Tokens(a.upstream), Tokens(b.upstream));
    Antisymmetric(Tokens(a.revision), Tokens(b.revision));
    Transitive(Tokens(a.upstream), Tokens(b.upstream), Tokens(c.upstream));
    Transitive(Tokens(a.revision), Tokens(b.revision), Tokens(c.revision));
    EqualIsCanonical(a.upstream, b.upstream);
    EqualIsCanonical(a.revision, b.revision);
    hide Tokens, CompareTokens, Canonical;
  }
}
