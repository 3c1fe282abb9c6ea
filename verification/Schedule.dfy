/**
 * internal/schedule/schedule.go: which preset entry is active, and the search for the next
 * change. Instants are nanoseconds of the wall clock of a zone with a fixed offset.
 */
module Schedule {
  import opened Texts
  import opened Wrappers

  const MINUTE := 60_000_000_000
  const DAY_MINUTES := 1440
  const WEEK_MINUTES := 10080
  const LOOKAHEAD_DAYS := 8
  const LOOKAHEAD := 8 * 1440 * MINUTE

  /** from and to are "HH:MM"; days are weekdays, Sunday = 0, empty = every day. */
  datatype Entry = Entry(preset: string, from: string, to: string, days: seq<int>, fallback: bool)

  function DaySet(days: seq<int>): set<int> {
    set d | d in days
  }

  /** Same window and preset; days compare as a set. */
  predicate Equal(a: Entry, b: Entry) {
    a.preset == b.preset && a.from == b.from && a.to == b.to && a.fallback == b.fallback
    && DaySet(a.days) == DaySet(b.days)
  }

  // ---- "HH:MM" ----

  function TwoDigits(s: string): int
    requires |s| == 2
  {
    if IsDigit(s[0]) && IsDigit(s[1]) then DigitOf(s[0]) * 10 + DigitOf(s[1]) else -1
  }

  /** time.Parse("15:04", s): the hour has one or two digits, the minute two; -1 when malformed. */
  function Minutes(s: string): (m: int)
    ensures -1 <= m < DAY_MINUTES
  {
    var width := if |s| >= 2 && IsDigit(s[0]) && IsDigit(s[1]) then 2 else if |s| >= 1 && IsDigit(s[0]) then 1 else 0;
    var hour := if width == 2 then TwoDigits(s[..2]) else if width == 1 then DigitOf(s[0]) else -1;
    var rest := s[width..];
    if hour < 0 || hour > 23 || |rest| != 3 || rest[0] != ':' then -1
    else
      var minute := TwoDigits(rest[1..]);
      if minute < 0 || minute > 59 then -1 else hour * 60 + minute
  }

  function DigitAt(d: nat): char
    requires d < 10
  {
    (d as char) + '0'
  }

  /** The number with two digits. */
  function TwoText(n: nat): string
    requires n < 100
  {
    [DigitAt(n / 10), DigitAt(n % 10)]
  }

  lemma TwoDigitsIs(s: string)
    requires |s| == 2
    ensures IsDigit(s[0]) && IsDigit(s[1]) ==> 0 <= TwoDigits(s) < 100 && s == TwoText(TwoDigits(s))
    ensures !(IsDigit(s[0]) && IsDigit(s[1])) ==> TwoDigits(s) == -1
  {
    if IsDigit(s[0]) && IsDigit(s[1]) {
      var n := TwoDigits(s);
      assert n / 10 == DigitOf(s[0]) && n % 10 == DigitOf(s[1]);
    }
  }

  lemma TwoTextReads(n: nat)
    requires n < 100
    ensures TwoDigits(TwoText(n)) == n && IsDigit(TwoText(n)[0]) && IsDigit(TwoText(n)[1])
  {
  }

  /** The texts of a minute of the day: "HH:MM", and "H:MM" before ten. */
  ghost predicate IsClock(s: string, m: int) {
    0 <= m < DAY_MINUTES
    && (s == TwoText(m / 60) + ":" + TwoText(m % 60) || (m / 60 < 10 && s == [DigitAt(m / 60)] + ":" + TwoText(m % 60)))
  }

  /** A text is read as a minute exactly when it is written so. */
  lemma MinutesExactly(s: string, m: nat)
    ensures Minutes(s) == m <==> IsClock(s, m)
  {
    hide TwoDigits, TwoText, DigitAt;
    if IsClock(s, m) { ClockReads(s, m); }
    if Minutes(s) == m { MinutesWritten(s, m); }
  }

  lemma ClockReads(s: string, m: nat)
    requires IsClock(s, m)
    ensures Minutes(s) == m
  {
    TwoTextReads(m / 60);
    TwoTextReads(m % 60);
    if s == TwoText(m / 60) + ":" + TwoText(m % 60) {
      assert s[..2] == TwoText(m / 60) && s[2..] == ":" + TwoText(m % 60) && s[2..][1..] == TwoText(m % 60);
    } else {
      assert s[1..] == ":" + TwoText(m % 60) && s[1..][1..] == TwoText(m % 60);
    }
  }

  lemma MinutesWritten(s: string, m: nat)
    requires Minutes(s) == m
    ensures IsClock(s, m)
  {
    hide TwoDigits, TwoText;
    if |s| >= 2 && IsDigit(s[0]) && IsDigit(s[1]) {
      TwoDigitsIs(s[..2]);
      TwoDigitsIs(s[2..][1..]);
      assert s == s[..2] + ":" + s[2..][1..];
    } else {
      TwoDigitsIs(s[1..][1..]);
      assert s == [s[0]] + ":" + s[1..][1..] && s[0] == DigitAt(DigitOf(s[0]));
    }
  }

  // ---- which entry is active ----

  /** The minute an instant falls into, counted from 1970-01-01 00:00. */
  function MinuteOf(t: int): int { t / MINUTE }

  /** 1970-01-01 was a Thursday. */
  function Weekday(day: int): int { (day + 4) % 7 }

  predicate OnDay(e: Entry, d: int) {
    |e.days| == 0 || d in e.days
  }

  /** The window holds minute n; one that crosses midnight belongs to the day it starts on. */
  predicate Contains(e: Entry, n: int) {
    var from, to, m, day := Minutes(e.from), Minutes(e.to), n % DAY_MINUTES, n / DAY_MINUTES;
    if e.fallback || from < 0 || to < 0 || from == to then false
    else if from < to then from <= m < to && OnDay(e, Weekday(day))
    else if m >= from then OnDay(e, Weekday(day))
    else m < to && OnDay(e, Weekday(day - 1))
  }

  /** The first window from entry i on that holds minute n. */
  function FirstWindow(es: seq<Entry>, n: int, i: nat): (r: Option<nat>)
    requires i <= |es|
    ensures r.Some? ==> i <= r.value < |es|
    decreases |es| - i
  {
    if i == |es| then None
    else if !es[i].fallback && Contains(es[i], n) then Some(i)
    else FirstWindow(es, n, i + 1)
  }

  function FirstFallback(es: seq<Entry>, i: nat): (r: Option<nat>)
    requires i <= |es|
    ensures r.Some? ==> i <= r.value < |es|
    decreases |es| - i
  {
    if i == |es| then None else if es[i].fallback then Some(i) else FirstFallback(es, i + 1)
  }

  /** The first window that holds the minute, else the first fallback, else none. */
  function ActiveAt(es: seq<Entry>, n: int): (r: Option<nat>)
    ensures r.Some? ==> r.value < |es|
  {
    var w := FirstWindow(es, n, 0);
    if w.Some? then w else FirstFallback(es, 0)
  }

  method Active(es: seq<Entry>, now: int) returns (r: Option<nat>)
    ensures r == ActiveAt(es, MinuteOf(now))
  {
    var fallback: Option<nat> := None;
    var n := MinuteOf(now);
    for i := 0 to |es|
      invariant FirstWindow(es, n, 0) == FirstWindow(es, n, i)
      invariant fallback.Some? ==> FirstFallback(es, 0) == fallback
      invariant fallback.None? ==> FirstFallback(es, 0) == FirstFallback(es, i)
    {
      if es[i].fallback {
        if fallback.None? { fallback := Some(i); }
      } else if Contains(es[i], n) {
        return Some(i);
      }
    }
    return fallback;
  }

  // ---- where the active entry can change ----

  /** Minute n is a window boundary or a full hour. */
  ghost predicate Boundary(es: seq<Entry>, n: int) {
    n % 60 == 0 || exists e :: e in es && !e.fallback && IsBoundaryOf(e, n)
  }

  predicate IsBoundaryOf(e: Entry, n: int) {
    n % DAY_MINUTES == Minutes(e.from) || n % DAY_MINUTES == Minutes(e.to)
  }

  lemma SameDay(n: int)
    requires n % 60 != 0
    ensures n / DAY_MINUTES == (n - 1) / DAY_MINUTES && n % DAY_MINUTES == (n - 1) % DAY_MINUTES + 1
  {
  }

  lemma ContainsSteady(e: Entry, n: int)
    requires n % 60 != 0 && !IsBoundaryOf(e, n)
    ensures Contains(e, n) == Contains(e, n - 1)
  {
    SameDay(n);
    hide Minutes, OnDay, Weekday;
  }

  lemma {:induction false} WindowSteady(es: seq<Entry>, n: int, i: nat)
    requires i <= |es| && !Boundary(es, n)
    ensures FirstWindow(es, n, i) == FirstWindow(es, n - 1, i)
    decreases |es| - i
  {
    if i < |es| {
      if !es[i].fallback { ContainsSteady(es[i], n); }
      WindowSteady(es, n, i + 1);
      hide Contains;
    }
  }

  /** The active entry changes only at a boundary. */
  lemma ActiveSteady(es: seq<Entry>, n: int)
    requires !Boundary(es, n)
    ensures ActiveAt(es, n) == ActiveAt(es, n - 1)
  {
    WindowSteady(es, n, 0);
  }

  lemma ContainsWeekly(e: Entry, n: int)
    ensures Contains(e, n + WEEK_MINUTES) == Contains(e, n)
  {
    assert (n + WEEK_MINUTES) / DAY_MINUTES == n / DAY_MINUTES + 7;
    assert Weekday(n / DAY_MINUTES + 7) == Weekday(n / DAY_MINUTES);
    assert Weekday(n / DAY_MINUTES + 7 - 1) == Weekday(n / DAY_MINUTES - 1);
    hide Minutes, OnDay, Weekday;
  }

  lemma {:induction false} WindowWeekly(es: seq<Entry>, n: int, i: nat)
    requires i <= |es|
    ensures FirstWindow(es, n + WEEK_MINUTES, i) == FirstWindow(es, n, i)
    decreases |es| - i
  {
    if i < |es| {
      ContainsWeekly(es[i], n);
      WindowWeekly(es, n, i + 1);
      hide Contains;
    }
  }

  /** What is active in one week is active in every later one. */
  lemma {:induction false} WeekDecides(es: seq<Entry>, n0: int, n: int)
    requires n0 <= n && forall m :: n0 <= m < n0 + WEEK_MINUTES ==> ActiveAt(es, m) == ActiveAt(es, n0)
    ensures ActiveAt(es, n) == ActiveAt(es, n0)
    decreases n - n0
  {
    if n >= n0 + WEEK_MINUTES {
      WindowWeekly(es, n - WEEK_MINUTES, 0);
      WeekDecides(es, n0, n - WEEK_MINUTES);
    }
  }

  // ---- the search ----

  /** sort.Slice: the same instants in ascending order. */
  function Sorted(ts: seq<int>): (r: seq<int>)
    ensures forall i, j :: 0 <= i < j < |r| ==> r[i] <= r[j]
    ensures forall t :: t in r <==> t in ts
  {
    if ts == [] then [] else
    assert ts == ts[..|ts| - 1] + [ts[|ts| - 1]];
    Insert(Sorted(ts[..|ts| - 1]), ts[|ts| - 1])
  }

  function Insert(ts: seq<int>, t: int): (r: seq<int>)
    requires forall i, j :: 0 <= i < j < |ts| ==> ts[i] <= ts[j]
    ensures forall i, j :: 0 <= i < j < |r| ==> r[i] <= r[j]
    ensures forall u :: u in r <==> u in ts || u == t
  {
    if ts == [] || t <= ts[0] then [t] + ts
    else
      var rest := Insert(ts[1..], t);
      assert ts == [ts[0]] + ts[1..];
      assert forall i :: 0 <= i < |rest| ==> rest[i] in rest;
      [ts[0]] + rest
  }

  /** Every boundary of the days first to last is among the candidates. */
  ghost predicate Covers(ts: seq<int>, es: seq<Entry>, first: int, last: int) {
    forall n :: first <= n / DAY_MINUTES < last && Boundary(es, n) ==> n * MINUTE in ts
  }

  method HourCandidates(day: int) returns (ts: seq<int>)
    ensures forall n :: n / DAY_MINUTES == day && n % 60 == 0 ==> n * MINUTE in ts
  {
    ts := [];
    for h := 0 to 24
      invariant |ts| == h && forall k :: 0 <= k < h ==> ts[k] == (day * DAY_MINUTES + k * 60) * MINUTE
    {
      ts := ts + [(day * DAY_MINUTES + h * 60) * MINUTE];
    }
    forall n | n / DAY_MINUTES == day && n % 60 == 0 ensures n * MINUTE in ts {
      var k := n % DAY_MINUTES / 60;
      assert ts[k] == n * MINUTE;
    }
  }

  method WindowCandidates(es: seq<Entry>, day: int) returns (ts: seq<int>)
    ensures forall e, n :: e in es && !e.fallback && n / DAY_MINUTES == day && IsBoundaryOf(e, n) ==> n * MINUTE in ts
  {
    hide Minutes;
    ts := [];
    for i := 0 to |es|
      invariant forall e, n :: e in es[..i] && !e.fallback && n / DAY_MINUTES == day && IsBoundaryOf(e, n) ==>
        n * MINUTE in ts
    {
      assert es[..i + 1] == es[..i] + [es[i]];
      if !es[i].fallback {
        var from, to := Minutes(es[i].from), Minutes(es[i].to);
        if from >= 0 { ts := ts + [(day * DAY_MINUTES + from) * MINUTE]; }
        if to >= 0 { ts := ts + [(day * DAY_MINUTES + to) * MINUTE]; }
        assert forall n :: n / DAY_MINUTES == day ==> n == day * DAY_MINUTES + n % DAY_MINUTES;
      }
    }
    assert es[..|es|] == es;
  }

  method Candidates(es: seq<Entry>, today: int) returns (ts: seq<int>)
    ensures Covers(ts, es, today, today + LOOKAHEAD_DAYS + 1)
  {
    ts := [];
    for day := 0 to LOOKAHEAD_DAYS + 1
      invariant Covers(ts, es, today, today + day)
    {
      var hours := HourCandidates(today + day);
      var windows := WindowCandidates(es, today + day);
      ts := ts + hours + windows;
      hide IsBoundaryOf;
    }
  }

  /** The active entry stays what it is at now throughout now..until. */
  ghost predicate SteadyUntil(es: seq<Entry>, now: int, until: int) {
    forall t :: now <= t < until ==> ActiveAt(es, MinuteOf(t)) == ActiveAt(es, MinuteOf(now))
  }

  /** Candidates that all agree with now leave no change up to any instant they cover. */
  lemma {:induction false} NoChange(es: seq<Entry>, now: int, ts: seq<int>, n: int)
    requires Covers(ts, es, MinuteOf(now) / DAY_MINUTES, MinuteOf(now) / DAY_MINUTES + LOOKAHEAD_DAYS + 1)
    requires MinuteOf(now) <= n <= MinuteOf(now) + LOOKAHEAD_DAYS * DAY_MINUTES
    requires forall t :: t in ts && now < t <= n * MINUTE ==> ActiveAt(es, MinuteOf(t)) == ActiveAt(es, MinuteOf(now))
    ensures ActiveAt(es, n) == ActiveAt(es, MinuteOf(now))
    decreases n - MinuteOf(now)
  {
    if n > MinuteOf(now) {
      hide ActiveAt, Boundary;
      if Boundary(es, n) {
        assert n * MINUTE in ts && MinuteOf(n * MINUTE) == n;
      } else {
        NoChange(es, now, ts, n - 1);
        ActiveSteady(es, n);
      }
    }
  }

  /**
   * Next: the first instant after now, within the lookahead, at which another entry is
   * active; none exactly when the active entry never changes again.
   */
  method Next(es: seq<Entry>, now: int) returns (r: Option<(int, Option<nat>)>)
    ensures r.Some? ==>
              && now < r.value.0 <= now + LOOKAHEAD && SteadyUntil(es, now, r.value.0)
              && r.value.1 == ActiveAt(es, MinuteOf(r.value.0)) != ActiveAt(es, MinuteOf(now))
    ensures r.None? <==> forall t :: now <= t ==> ActiveAt(es, MinuteOf(t)) == ActiveAt(es, MinuteOf(now))
  {
    hide ActiveAt;
    var cur := Active(es, now);
    var found := Candidates(es, MinuteOf(now) / DAY_MINUTES);
    var cands := Sorted(found);
    for i := 0 to |cands|
      invariant forall k :: 0 <= k < i && now < cands[k] <= now + LOOKAHEAD ==> ActiveAt(es, MinuteOf(cands[k])) == cur
    {
      var t := cands[i];
      if now < t <= now + LOOKAHEAD {
        var a := Active(es, t);
        if a != cur {
          SteadyBefore(es, now, found, cands, i);
          return Some((t, a));
        }
      }
    }
    NeverChanges(es, now, found, cands);
    return None;
  }

  lemma SteadyBefore(es: seq<Entry>, now: int, found: seq<int>, cands: seq<int>, i: nat)
    requires Covers(found, es, MinuteOf(now) / DAY_MINUTES, MinuteOf(now) / DAY_MINUTES + LOOKAHEAD_DAYS + 1)
    requires cands == Sorted(found) && i < |cands| && now < cands[i] <= now + LOOKAHEAD
    requires forall k :: 0 <= k < i && now < cands[k] <= now + LOOKAHEAD ==>
      ActiveAt(es, MinuteOf(cands[k])) == ActiveAt(es, MinuteOf(now))
    requires ActiveAt(es, MinuteOf(cands[i])) != ActiveAt(es, MinuteOf(now))
    ensures SteadyUntil(es, now, cands[i])
  {
    hide ActiveAt, Covers;
    forall t | now <= t < cands[i] ensures ActiveAt(es, MinuteOf(t)) == ActiveAt(es, MinuteOf(now)) {
      forall u | u in found && now < u <= MinuteOf(t) * MINUTE
        ensures ActiveAt(es, MinuteOf(u)) == ActiveAt(es, MinuteOf(now))
      {
        assert u in cands;
        var k :| 0 <= k < |cands| && cands[k] == u;
        assert k < i;
      }
      NoChange(es, now, found, MinuteOf(t));
    }
  }

  lemma NeverChanges(es: seq<Entry>, now: int, found: seq<int>, cands: seq<int>)
    requires Covers(found, es, MinuteOf(now) / DAY_MINUTES, MinuteOf(now) / DAY_MINUTES + LOOKAHEAD_DAYS + 1)
    requires cands == Sorted(found)
    requires forall k :: 0 <= k < |cands| && now < cands[k] <= now + LOOKAHEAD ==>
      ActiveAt(es, MinuteOf(cands[k])) == ActiveAt(es, MinuteOf(now))
    ensures forall t :: now <= t ==> ActiveAt(es, MinuteOf(t)) == ActiveAt(es, MinuteOf(now))
  {
    hide ActiveAt, Covers;
    var n0 := MinuteOf(now);
    forall u | u in found && now < u <= now + LOOKAHEAD ensures ActiveAt(es, MinuteOf(u)) == ActiveAt(es, n0) {
      assert u in cands;
    }
    forall m | n0 <= m < n0 + WEEK_MINUTES ensures ActiveAt(es, m) == ActiveAt(es, n0) {
      NoChange(es, now, found, m);
    }
    forall t | now <= t ensures ActiveAt(es, MinuteOf(t)) == ActiveAt(es, n0) {
      WeekDecides(es, n0, MinuteOf(t));
    }
  }
}
