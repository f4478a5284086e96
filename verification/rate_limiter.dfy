/** The per-key rate limit: a window of a minute that starts over, for the keys used last. */
module RateLimiter {
  import opened Wrappers

  const MAX_TRACKED_KEYS: nat := 4096
  const SECOND: int := 1_000_000_000
  const MINUTE: int := 60 * SECOND

  datatype Window = Window(count: nat, start: int)
  datatype Tracked = Tracked(key: string, window: Window)
  datatype Call = Call(key: string, limit: nat, now: int)

  /** What a call does to its key's window, and whether it is allowed. */
  function Admit(w: Option<Window>, limit: nat, now: int): (Option<Window>, bool) {
    if w.None? then (Some(Window(1, now)), true)
    else
      var current := if (now - w.value.start) / SECOND >= 60 then Window(0, now) else w.value;
      if current.count >= limit then (Some(current), false)
      else (Some(Window(current.count + 1, current.start)), true)
  }

  /** Where the key is, or the length. */
  function Find(windows: seq<Tracked>, key: string): (i: nat)
    ensures i <= |windows| && (i < |windows| ==> windows[i].key == key)
    ensures forall j | 0 <= j < i :: windows[j].key != key
  {
    if windows == [] || windows[0].key == key then 0 else Find(windows[1..], key) + 1
  }

  function WindowOf(windows: seq<Tracked>, key: string): Option<Window> {
    var i := Find(windows, key);
    if i < |windows| then Some(windows[i].window) else None
  }

  predicate Distinct(windows: seq<Tracked>) {
    forall i, j | 0 <= i < j < |windows| :: windows[i].key != windows[j].key
  }

  /** The other keys a call of `key` leaves: all, or all but the first if the key is new and
      the table full. */
  function Left(before: seq<Tracked>, key: string): seq<Tracked> {
    var i := Find(before, key);
    if i < |before| then before[..i] + before[i + 1..]
    else if |before| == MAX_TRACKED_KEYS then before[1..] else before
  }

  /** What one call does to the table: its own key's window advances and comes last, and
      every other key's stays in place or is forgotten. */
  ghost predicate Checked(before: seq<Tracked>, call: Call, after: seq<Tracked>, allowed: bool) {
    && (call.limit == 0 ==> allowed && after == before)
    && (call.limit > 0 ==> after != [] && after[|after| - 1].key == call.key && after[..|after| - 1] == Left(before, call.key))
    && (call.limit > 0 ==> (WindowOf(after, call.key), allowed) == Admit(WindowOf(before, call.key), call.limit, call.now))
    && (forall k | k != call.key :: WindowOf(after, k) == WindowOf(before, k) || WindowOf(after, k).None?)
  }

  class Limiter {
    /** Least recently used first. */
    var windows: seq<Tracked>

    predicate Valid()
      reads this
    {
      Distinct(windows) && |windows| <= MAX_TRACKED_KEYS
    }

    constructor ()
      ensures Valid() && windows == []
    {
      windows := [];
    }

    /** A call touches its own key's window and, when it brings a new key to a full
        table, forgets the key used longest ago. */
    method Check(key: string, limit: nat, now: int) returns (allowed: bool)
      requires Valid()
      modifies this
      ensures Valid()
      ensures Checked(old(windows), Call(key, limit, now), windows, allowed)
      ensures Decided(old(windows), key, limit, now, windows, allowed)
      ensures forall k | k != key && WindowOf(windows, k) != WindowOf(old(windows), k) ::
                |old(windows)| == MAX_TRACKED_KEYS && old(windows)[0].key == k && WindowOf(old(windows), key).None?
    {
      hide Distinct, WindowOf, Left, Admit, Checked, Decided;
      ghost var before := windows;
      if limit == 0 {
        Unlimited(before, key, now);
        return true;
      }
      var i := Find(windows, key);
      LeftIs(before, key);
      if i < |windows| {
        var window := windows[i].window;
        AdmitIs(window, limit, now);
        if (now - window.start) / SECOND >= 60 {
          window := Window(0, now);
        }
        allowed := window.count < limit;
        if allowed {
          window := window.(count := window.count + 1);
        }
        windows := windows[..i] + windows[i + 1..] + [Tracked(key, window)];
        KnownKey(before, i, limit, now, Tracked(key, window), allowed);
      } else {
        var rest := if |windows| == MAX_TRACKED_KEYS then windows[1..] else windows;
        windows := rest + [Tracked(key, Window(1, now))];
        allowed := true;
        NewKey(before, rest, Tracked(key, Window(1, now)), limit, now);
      }
    }
  }

  /** A call is refused exactly while its key's minute goes on and is used up; a new minute
      starts with the first call after the last one is over. */
  ghost predicate Decided(before: seq<Tracked>, key: string, limit: nat, now: int, after: seq<Tracked>, allowed: bool) {
    var was := WindowOf(before, key);
    && (allowed <==> limit == 0 || was.None? || now - was.value.start >= MINUTE || was.value.count < limit)
    && (limit > 0 ==>
          WindowOf(after, key) ==
            if was.None? || now - was.value.start >= MINUTE then Some(Window(1, now))
            else if allowed then Some(Window(was.value.count + 1, was.value.start)) else was)
  }

  lemma Unlimited(before: seq<Tracked>, key: string, now: int)
    ensures Checked(before, Call(key, 0, now), before, true) && Decided(before, key, 0, now, before, true)
  {
  }

  lemma LeftIs(before: seq<Tracked>, key: string)
    ensures var i := Find(before, key);
            Left(before, key) ==
              if i < |before| then before[..i] + before[i + 1..]
              else if |before| == MAX_TRACKED_KEYS then before[1..] else before
  {
  }

  lemma AdmitIs(w: Window, limit: nat, now: int)
    ensures var current := if (now - w.start) / SECOND >= 60 then Window(0, now) else w;
            Admit(Some(w), limit, now) ==
              if current.count >= limit then (Some(current), false) else (Some(Window(current.count + 1, current.start)), true)
  {
  }

  /** What `Check` promises of a call that is counted. */
  ghost predicate CheckedAsDue(before: seq<Tracked>, call: Call, after: seq<Tracked>, allowed: bool) {
    && Distinct(after) && |after| <= MAX_TRACKED_KEYS
    && Checked(before, call, after, allowed) && Decided(before, call.key, call.limit, call.now, after, allowed)
    && forall k | k != call.key && WindowOf(after, k) != WindowOf(before, k) ::
         |before| == MAX_TRACKED_KEYS && before[0].key == k && WindowOf(before, call.key).None?
  }

  lemma KnownKey(before: seq<Tracked>, i: nat, limit: nat, now: int, last: Tracked, allowed: bool)
    requires Distinct(before) && |before| <= MAX_TRACKED_KEYS && i < |before| && last.key == before[i].key && limit > 0
    requires Admit(Some(before[i].window), limit, now) == (Some(last.window), allowed)
    ensures CheckedAsDue(before, Call(last.key, limit, now), before[..i] + before[i + 1..] + [last], allowed)
  {
    var after := before[..i] + before[i + 1..] + [last];
    Renewed(before, i, after);
    FoundAt(before, i);
    FoundHere(before, i);
    LeftIs(before, last.key);
    assert after[..|after| - 1] == before[..i] + before[i + 1..];
    hide Distinct, WindowOf, Left, Admit, Checked, Decided, Find;
    Completed(before, Call(last.key, limit, now), after, allowed);
  }

  lemma FoundHere(before: seq<Tracked>, i: nat)
    requires Distinct(before) && i < |before|
    ensures Find(before, before[i].key) == i
  {
  }

  lemma NewKey(before: seq<Tracked>, rest: seq<Tracked>, last: Tracked, limit: nat, now: int)
    requires Distinct(before) && |before| <= MAX_TRACKED_KEYS && limit > 0
    requires Find(before, last.key) == |before| && last.window == Window(1, now)
    requires rest == if |before| == MAX_TRACKED_KEYS then before[1..] else before
    ensures CheckedAsDue(before, Call(last.key, limit, now), rest + [last], true)
  {
    var after := rest + [last];
    assert after[..|after| - 1] == rest && |rest| < MAX_TRACKED_KEYS;
    LeftIs(before, last.key);
    assert WindowOf(before, last.key).None? && Admit(None, limit, now) == (Some(Window(1, now)), true);
    hide Distinct, WindowOf, Left, Admit, Checked, Decided, Find;
    Added(before, after);
    Completed(before, Call(last.key, limit, now), after, true);
  }

  lemma Completed(before: seq<Tracked>, call: Call, after: seq<Tracked>, allowed: bool)
    requires call.limit > 0 && after != [] && after[|after| - 1].key == call.key && after[..|after| - 1] == Left(before, call.key)
    requires (WindowOf(after, call.key), allowed) == Admit(WindowOf(before, call.key), call.limit, call.now)
    requires forall k | k != call.key :: WindowOf(after, k) == WindowOf(before, k) || WindowOf(after, k).None?
    ensures Checked(before, call, after, allowed) && Decided(before, call.key, call.limit, call.now, after, allowed)
  {
    hide WindowOf, Left;
  }

  lemma FoundAt(windows: seq<Tracked>, i: nat)
    requires Distinct(windows) && i < |windows|
    ensures WindowOf(windows, windows[i].key) == Some(windows[i].window)
  {
  }

  lemma Renewed(before: seq<Tracked>, i: nat, after: seq<Tracked>)
    requires Distinct(before) && i < |before| && |after| == |before|
    requires after == before[..i] + before[i + 1..] + [after[|after| - 1]] && after[|after| - 1].key == before[i].key
    ensures Distinct(after) && WindowOf(after, before[i].key) == Some(after[|after| - 1].window)
    ensures forall k | k != before[i].key :: WindowOf(after, k) == WindowOf(before, k)
  {
    assert forall j: nat | j < |before| && j != i :: before[j] == after[if j < i then j else j - 1];
    FoundAt(after, |after| - 1);
    forall k | k != before[i].key ensures WindowOf(after, k) == WindowOf(before, k) {
      var j := Find(before, k);
      if j < |before| {
        FoundAt(after, if j < i then j else j - 1);
      }
    }
  }

  /** `after` is `before` less its first `d` slots, and one more. */
  ghost predicate Extends(before: seq<Tracked>, after: seq<Tracked>, d: nat) {
    && after != [] && d <= 1 && |after| + d == |before| + 1
    && forall j: nat | j < |after| - 1 :: after[j] == before[j + d]
  }

  lemma ExtendsDistinct(before: seq<Tracked>, after: seq<Tracked>, d: nat)
    requires Distinct(before) && after != [] && d <= 1 && |after| + d == |before| + 1
    requires after[..|after| - 1] == before[d..]
    requires forall i | 0 <= i < |before| :: before[i].key != after[|after| - 1].key
    ensures Extends(before, after, d) && Distinct(after)
  {
  }

  lemma Added(before: seq<Tracked>, after: seq<Tracked>)
    requires Distinct(before) && |before| <= MAX_TRACKED_KEYS && after != []
    requires after[..|after| - 1] == if |before| == MAX_TRACKED_KEYS then before[1..] else before
    requires Find(before, after[|after| - 1].key) == |before|
    ensures Distinct(after) && WindowOf(after, after[|after| - 1].key) == Some(after[|after| - 1].window)
    ensures forall k | k != after[|after| - 1].key ::
              || WindowOf(after, k) == WindowOf(before, k)
              || (WindowOf(after, k).None? && |before| == MAX_TRACKED_KEYS && before[0].key == k)
  {
    var d := |before| + 1 - |after|;
    ExtendsDistinct(before, after, d);
    hide Find, Extends, Distinct, WindowOf;
    FoundAt(after, |after| - 1);
    forall k | k != after[|after| - 1].key && !(d == 1 && before[0].key == k) ensures WindowOf(after, k) == WindowOf(before, k) {
      StillFound(before, after, d, k);
    }
    if d == 1 { Forgotten(before, after); }
  }

  lemma StillFound(before: seq<Tracked>, after: seq<Tracked>, d: nat, k: string)
    requires Distinct(after) && Extends(before, after, d) && after[|after| - 1].key != k
    requires d == 1 ==> before[0].key != k
    ensures WindowOf(after, k) == WindowOf(before, k)
  {
    var j := Find(before, k);
    if j < |before| {
      FoundAt(after, j - d);
    } else {
      var i := Find(after, k);
    }
  }

  lemma Forgotten(before: seq<Tracked>, after: seq<Tracked>)
    requires Distinct(before) && Extends(before, after, 1)
    ensures before[0].key == after[|after| - 1].key || WindowOf(after, before[0].key).None?
  {
  }

  // ------------------------------------------------------------------- one key --

  /** A tracked key's window and the times of its allowed calls. */
  datatype Account = Account(window: Option<Window>, allowed: seq<int>)

  function Account1(a: Account, limit: nat, now: int): Account {
    var (window, ok) := Admit(a.window, limit, now);
    Account(window, a.allowed + if ok then [now] else [])
  }

  function Track(times: seq<int>, limit: nat): Account {
    if times == [] then Account(None, [])
    else Account1(Track(times[..|times| - 1], limit), limit, times[|times| - 1])
  }

  predicate Sorted(times: seq<int>) {
    forall i, j | 0 <= i < j < |times| :: times[i] <= times[j]
  }

  /** How many of the times lie in the half-open interval. */
  function Within(times: seq<int>, from: int, to: int): nat {
    if times == [] then 0
    else Within(times[..|times| - 1], from, to) + if from <= times[|times| - 1] < to then 1 else 0
  }

  lemma WithinNext(times: seq<int>, t: int, from: int, to: int)
    ensures Within(times + [t], from, to) == Within(times, from, to) + if from <= t < to then 1 else 0
  {
  }

  lemma {:induction false} WithinSplit(times: seq<int>, a: int, b: int, c: int)
    requires a <= b <= c
    ensures Within(times, a, c) == Within(times, a, b) + Within(times, b, c)
  {
    if times != [] {
      WithinSplit(times[..|times| - 1], a, b, c);
    }
  }

  /** The current window counts exactly the calls allowed since it started; before it,
      no minute-long stretch holds more than `limit - 1`. */
  ghost predicate Counts(a: Account, limit: nat, from: int, to: int) {
    match a.window
    case None => a.allowed == []
    case Some(w) =>
      && 1 <= w.count <= limit
      && (to >= w.start + MINUTE ==> Within(a.allowed, w.start, to) == w.count)
      && Within(a.allowed, w.start, to) <= w.count
      && (from > w.start ==> Within(a.allowed, from, to) <= w.count - 1)
      && (from >= w.start + MINUTE ==> Within(a.allowed, from, to) == 0)
      && (from > w.start - MINUTE && to <= w.start ==> Within(a.allowed, from, to) <= limit - 1)
      && (to <= from + MINUTE ==> Within(a.allowed, from, to) <= 2 * limit - 1)
  }

  ghost predicate AllCounts(a: Account, limit: nat) {
    forall from, to :: Counts(a, limit, from, to)
  }

  lemma CountsInWindow(a: Account, limit: nat, now: int, from: int, to: int)
    requires AllCounts(a, limit) && a.window.Some?
    requires a.window.value.start <= now < a.window.value.start + MINUTE && a.window.value.count < limit
    ensures Counts(Account(Some(Window(a.window.value.count + 1, a.window.value.start)), a.allowed + [now]), limit, from, to)
  {
    var s := a.window.value.start;
    var after := a.allowed + [now];
    assert Counts(a, limit, from, to) && Counts(a, limit, from, s) && Counts(a, limit, s, to);
    WithinNext(a.allowed, now, from, to);
    WithinNext(a.allowed, now, from, s);
    WithinNext(a.allowed, now, s, to);
    if from <= s <= to { WithinSplit(after, from, s, to); }
  }

  lemma CountsInNewWindow(a: Account, limit: nat, now: int, from: int, to: int)
    requires AllCounts(a, limit) && limit > 0 && (a.window.Some? ==> a.window.value.start + MINUTE <= now)
    ensures Counts(Account(Some(Window(1, now)), a.allowed + [now]), limit, from, to)
  {
    WithinNext(a.allowed, now, from, to);
    WithinNext(a.allowed, now, now, to);
    assert Counts(a, limit, from, to) && Counts(a, limit, now, to);
  }

  lemma CountsNext(a: Account, limit: nat, now: int)
    requires AllCounts(a, limit) && limit > 0 && (a.window.Some? ==> a.window.value.start <= now)
    ensures AllCounts(Account1(a, limit, now), limit)
  {
    if a.window.Some? && (now - a.window.value.start) / SECOND < 60 && a.window.value.count >= limit {
      assert Account1(a, limit, now) == a;
    } else {
      forall from, to ensures Counts(Account1(a, limit, now), limit, from, to) {
        if a.window.Some? && (now - a.window.value.start) / SECOND < 60 {
          CountsInWindow(a, limit, now, from, to);
        } else {
          CountsInNewWindow(a, limit, now, from, to);
        }
      }
    }
  }

  lemma {:induction false} TrackCounts(times: seq<int>, limit: nat)
    requires Sorted(times) && limit > 0
    ensures AllCounts(Track(times, limit), limit)
    ensures var w := Track(times, limit).window;
            if times == [] then w.None? else w.Some? && w.value.start <= times[|times| - 1]
  {
    if times != [] {
      TrackCounts(times[..|times| - 1], limit);
      CountsNext(Track(times[..|times| - 1], limit), limit, times[|times| - 1]);
    }
  }

  /** While a key stays tracked under one limit, any half-open minute holds fewer than
      twice as many allowed calls, and its window never more than the limit. */
  lemma FewerThanTwiceTheLimit(times: seq<int>, limit: nat, from: int)
    requires Sorted(times) && limit > 0
    ensures Within(Track(times, limit).allowed, from, from + MINUTE) <= 2 * limit - 1
    ensures times != [] ==>
              var w := Track(times, limit).window.value;
              Within(Track(times, limit).allowed, w.start, w.start + MINUTE) == w.count <= limit
  {
    TrackCounts(times, limit);
    if times != [] {
      var w := Track(times, limit).window.value;
      assert Counts(Track(times, limit), limit, w.start, w.start + MINUTE);
    }
    assert Counts(Track(times, limit), limit, from, from + MINUTE);
  }

  // ---------------------------------------------------------------- sharpness --

  function Times(n: nat, t: int): seq<int> { seq(n, _ => t) }

  lemma {:induction false} RepeatedCalls(times: seq<int>, limit: nat, n: nat, t: int)
    requires var w := Track(times, limit).window; w.Some? && w.value.count + n <= limit && w.value.start <= t < w.value.start + MINUTE
    ensures var before, after := Track(times, limit), Track(times + Times(n, t), limit);
            && after.window == Some(Window(before.window.value.count + n, before.window.value.start))
            && after.allowed == before.allowed + Times(n, t)
  {
    hide Track;
    var before := Track(times, limit);
    if n == 0 {
      assert times + Times(n, t) == times && before.allowed + Times(n, t) == before.allowed;
    } else {
      RepeatedCalls(times, limit, n - 1, t);
      TimesNext(times, n, t);
      TimesNext(before.allowed, n, t);
      TrackNext(times + Times(n - 1, t), limit, t);
    }
  }

  lemma TimesNext(times: seq<int>, n: nat, t: int)
    requires n > 0
    ensures times + Times(n, t) == times + Times(n - 1, t) + [t]
  {
  }

  lemma {:induction false} WithinTimes(times: seq<int>, n: nat, t: int, from: int, to: int)
    requires from <= t < to
    ensures Within(times + Times(n, t), from, to) == Within(times, from, to) + n
  {
    if n == 0 {
      assert times + Times(n, t) == times;
    } else {
      WithinTimes(times, n - 1, t, from, to);
      TimesNext(times, n, t);
      WithinNext(times + Times(n - 1, t), t, from, to);
    }
  }

  /** The bound is met, for every limit: one call, the rest of the limit a second before
      the window ends, and the whole limit as the next one starts. */
  lemma TheBoundIsMet(limit: nat) returns (times: seq<int>)
    requires limit > 0
    ensures Sorted(times) && Within(Track(times, limit).allowed, 59 * SECOND, 59 * SECOND + MINUTE) == 2 * limit - 1
  {
    var late := 59 * SECOND;
    var first := [0] + Times(limit - 1, late);
    FirstWindow(limit);
    var third := first + [MINUTE];
    assert third[..|first|] == first;
    assert Track(third, limit) == Account(Some(Window(1, MINUTE)), third);
    hide Track, Within, Times;
    times := third + Times(limit - 1, MINUTE);
    RepeatedCalls(third, limit, limit - 1, MINUTE);
    WithinTimes([0], limit - 1, late, late, late + MINUTE);
    WithinNext(first, MINUTE, late, late + MINUTE);
    WithinTimes(third, limit - 1, MINUTE, late, late + MINUTE);
    OneTime(0, late, late + MINUTE);
    TimesSorted(limit - 1, late, MINUTE, limit - 1);
  }

  /** The calls allowed in the minute that starts at `from`. */
  function InMinute(times: seq<int>, limit: nat, from: int): nat {
    Within(Track(times, limit).allowed, from, from + MINUTE)
  }

  /** So a minute never exceeds the limit, as under a sliding window, exactly for limit 1. */
  lemma SlidesExactlyForOne(limit: nat)
    requires limit > 0
    ensures (forall times, from | Sorted(times) :: InMinute(times, limit, from) <= limit) <==> limit == 1
  {
    hide Track, Within, Sorted;
    if limit == 1 {
      forall times, from | Sorted(times) ensures InMinute(times, limit, from) <= limit {
        FewerThanTwiceTheLimit(times, limit, from);
      }
    } else {
      var times := TheBoundIsMet(limit);
      assert InMinute(times, limit, 59 * SECOND) == 2 * limit - 1;
    }
  }

  lemma TimesSorted(n: nat, t: int, u: int, m: nat)
    requires 0 <= t <= u
    ensures Sorted([0] + Times(n, t) + [u] + Times(m, u))
  {
  }

  lemma FirstWindow(limit: nat)
    requires limit > 0
    ensures var times := [0] + Times(limit - 1, 59 * SECOND); Track(times, limit) == Account(Some(Window(limit, 0)), times)
  {
    var first := [0];
    assert first[..0] == [] && Track(first, limit) == Account(Some(Window(1, 0)), first);
    hide Track;
    RepeatedCalls(first, limit, limit - 1, 59 * SECOND);
  }

  lemma OneTime(t: int, from: int, to: int)
    requires !(from <= t < to)
    ensures Within([t], from, to) == 0
  {
  }

  // ----------------------------------------------------------------- all keys --

  ghost predicate History(tables: seq<seq<Tracked>>, calls: seq<Call>, answers: seq<bool>) {
    && |tables| == |calls| + 1 && |answers| == |calls| && tables[0] == []
    && forall i | 0 <= i < |calls| :: Checked(tables[i], calls[i], tables[i + 1], answers[i])
  }

  /** The key is never forgotten among these calls, and always has the one limit. */
  ghost predicate StaysTracked(tables: seq<seq<Tracked>>, calls: seq<Call>, key: string, limit: nat)
    requires |tables| == |calls| + 1
  {
    && (forall i | 0 <= i < |calls| :: WindowOf(tables[i], key).Some? ==> WindowOf(tables[i + 1], key).Some?)
    && (forall c <- calls | c.key == key :: c.limit == limit)
  }

  function TimesOf(calls: seq<Call>, key: string): seq<int> {
    if calls == [] then []
    else TimesOf(calls[..|calls| - 1], key) + if calls[|calls| - 1].key == key then [calls[|calls| - 1].now] else []
  }

  function AllowedTimes(calls: seq<Call>, answers: seq<bool>, key: string): seq<int>
    requires |answers| == |calls|
  {
    if calls == [] then []
    else
      var n := |calls| - 1;
      AllowedTimes(calls[..n], answers[..n], key) + if calls[n].key == key && answers[n] then [calls[n].now] else []
  }

  /** What the other keys do makes no difference to a key that stays tracked. */
  lemma {:induction false} KeysAreIndependent(tables: seq<seq<Tracked>>, calls: seq<Call>, answers: seq<bool>, key: string, limit: nat)
    requires History(tables, calls, answers) && StaysTracked(tables, calls, key, limit) && limit > 0
    ensures Track(TimesOf(calls, key), limit) == Account(WindowOf(tables[|calls|], key), AllowedTimes(calls, answers, key))
    decreases |calls|
  {
    hide Admit, WindowOf;
    if calls == [] {
      NothingTracked(key);
    } else {
      var n := |calls| - 1;
      assert forall c <- calls[..n] :: c in calls;
      KeysAreIndependent(tables[..n + 1], calls[..n], answers[..n], key, limit);
      assert Checked(tables[n], calls[n], tables[n + 1], answers[n]);
      var times, allowed := TimesOf(calls[..n], key), AllowedTimes(calls[..n], answers[..n], key);
      assert times + [] == times && allowed + [] == allowed;
      if calls[n].key == key {
        assert calls[n] in calls;
        TrackNext(times, limit, calls[n].now);
      }
    }
  }

  lemma TrackNext(times: seq<int>, limit: nat, now: int)
    ensures Track(times + [now], limit) == Account1(Track(times, limit), limit, now)
  {
  }

  lemma NothingTracked(key: string)
    ensures WindowOf([], key).None?
  {
  }

  lemma {:induction false} TimesAreSorted(calls: seq<Call>, key: string)
    requires forall i, j | 0 <= i < j < |calls| :: calls[i].now <= calls[j].now
    ensures Sorted(TimesOf(calls, key)) && forall t <- TimesOf(calls, key) :: t <= calls[|calls| - 1].now
    ensures TimesOf(calls, key) != [] ==> calls != []
  {
    if calls != [] {
      var n := |calls| - 1;
      TimesAreSorted(calls[..n], key);
      var times := TimesOf(calls[..n], key);
      forall i | 0 <= i < |times| ensures times[i] <= calls[n].now {
        assert times[i] in times && calls[..n][n - 1] == calls[n - 1];
      }
    }
  }

  /** Over any history of calls of any keys, a key that stays tracked has fewer than
      twice its limit allowed in any half-open minute. */
  lemma RateIsLimited(tables: seq<seq<Tracked>>, calls: seq<Call>, answers: seq<bool>, key: string, limit: nat, from: int)
    requires History(tables, calls, answers) && StaysTracked(tables, calls, key, limit) && limit > 0
    requires forall i, j | 0 <= i < j < |calls| :: calls[i].now <= calls[j].now
    ensures Within(AllowedTimes(calls, answers, key), from, from + MINUTE) <= 2 * limit - 1
  {
    KeysAreIndependent(tables, calls, answers, key, limit);
    TimesAreSorted(calls, key);
    FewerThanTwiceTheLimit(TimesOf(calls, key), limit, from);
  }

  // -------------------------------------------------------------- who is forgotten --

  /** The last of the calls that counted against the key, or -1. */
  ghost function LastCall(calls: seq<Call>, key: string): (i: int)
    ensures -1 <= i < |calls|
  {
    if calls == [] then -1
    else if calls[|calls| - 1].key == key && calls[|calls| - 1].limit > 0 then |calls| - 1
    else LastCall(calls[..|calls| - 1], key)
  }

  /** The keys stand in the order of their last calls. */
  ghost predicate InCallOrder(windows: seq<Tracked>, calls: seq<Call>) {
    && (forall i | 0 <= i < |windows| :: 0 <= LastCall(calls, windows[i].key))
    && (forall i, j | 0 <= i < j < |windows| :: LastCall(calls, windows[i].key) < LastCall(calls, windows[j].key))
  }

  lemma LastCallNext(calls: seq<Call>, call: Call, key: string)
    ensures LastCall(calls + [call], key) == if call.key == key && call.limit > 0 then |calls| else LastCall(calls, key)
  {
    assert (calls + [call])[..|calls|] == calls;
  }

  /** `rest` is `before` without the slot at `d`, or all of it. */
  ghost predicate Drops(before: seq<Tracked>, rest: seq<Tracked>, d: nat) {
    && (d < |before| ==> rest == before[..d] + before[d + 1..])
    && (d >= |before| ==> rest == before)
  }

  lemma OrderedDrop(before: seq<Tracked>, rest: seq<Tracked>, d: nat, calls: seq<Call>)
    requires InCallOrder(before, calls) && Drops(before, rest, d)
    ensures InCallOrder(rest, calls)
    ensures forall x <- rest :: x in before && (d < |before| ==> x.key != before[d].key)
  {
    hide LastCall;
    assert forall i: nat | i < |rest| :: rest[i] == before[if i < d then i else i + 1];
  }

  lemma LeftDrops(before: seq<Tracked>, key: string) returns (d: nat)
    ensures Drops(before, Left(before, key), d)
    ensures (d < |before| && before[d].key == key) || forall x <- before :: x.key != key
  {
    var i := Find(before, key);
    d := if i < |before| then i else if |before| == MAX_TRACKED_KEYS then 0 else |before|;
    if d == 0 && before != [] {
      assert before[..0] + before[1..] == before[1..];
    }
  }

  lemma OrderedRest(before: seq<Tracked>, calls: seq<Call>, key: string)
    requires InCallOrder(before, calls)
    ensures InCallOrder(Left(before, key), calls) && forall x <- Left(before, key) :: x.key != key
  {
    var d := LeftDrops(before, key);
    hide InCallOrder, Left, Drops;
    OrderedDrop(before, Left(before, key), d, calls);
  }

  lemma OrderedLast(rest: seq<Tracked>, last: Tracked, calls: seq<Call>, call: Call)
    requires InCallOrder(rest, calls) && (forall x <- rest :: x.key != call.key) && last.key == call.key && call.limit > 0
    ensures InCallOrder(rest + [last], calls + [call])
  {
    LastCallNext(calls, call, last.key);
    forall i | 0 <= i < |rest| ensures LastCall(calls + [call], rest[i].key) == LastCall(calls, rest[i].key) {
      LastCallNext(calls, call, rest[i].key);
    }
  }

  lemma OrderedStep(before: seq<Tracked>, calls: seq<Call>, call: Call, after: seq<Tracked>, allowed: bool)
    requires InCallOrder(before, calls) && Checked(before, call, after, allowed)
    ensures InCallOrder(after, calls + [call])
  {
    if call.limit > 0 {
      OrderedRest(before, calls, call.key);
      hide Left, InCallOrder;
      OrderedLast(Left(before, call.key), after[|after| - 1], calls, call);
      assert after == after[..|after| - 1] + [after[|after| - 1]];
    } else {
      forall i | 0 <= i < |before| ensures LastCall(calls + [call], before[i].key) == LastCall(calls, before[i].key) {
        LastCallNext(calls, call, before[i].key);
      }
    }
  }

  lemma {:induction false} TableIsInCallOrder(tables: seq<seq<Tracked>>, calls: seq<Call>, answers: seq<bool>, n: nat)
    requires History(tables, calls, answers) && n <= |calls|
    ensures InCallOrder(tables[n], calls[..n])
  {
    hide Checked, InCallOrder;
    if n == 0 {
      NothingInOrder();
    } else {
      TableIsInCallOrder(tables, calls, answers, n - 1);
      assert Checked(tables[n - 1], calls[n - 1], tables[n], answers[n - 1]);
      OrderedStep(tables[n - 1], calls[..n - 1], calls[n - 1], tables[n], answers[n - 1]);
      assert calls[..n - 1] + [calls[n - 1]] == calls[..n];
    }
  }

  lemma NothingInOrder()
    ensures InCallOrder([], [])
  {
  }

  /** A key is forgotten only for a new one in a full table, and only the one called least
      recently. */
  lemma ForgottenIsOldest(tables: seq<seq<Tracked>>, calls: seq<Call>, answers: seq<bool>, n: nat, gone: Tracked, other: Tracked)
    requires History(tables, calls, answers) && n < |calls|
    requires gone in tables[n] && (forall x <- tables[n + 1] :: x.key != gone.key) && other in tables[n] && other.key != gone.key
    ensures |tables[n]| == MAX_TRACKED_KEYS && (forall x <- tables[n] :: x.key != calls[n].key)
    ensures LastCall(calls[..n], gone.key) < LastCall(calls[..n], other.key)
  {
    TableIsInCallOrder(tables, calls, answers, n);
    assert Checked(tables[n], calls[n], tables[n + 1], answers[n]);
    var after := tables[n + 1];
    assert calls[n].limit > 0;
    assert forall x <- after[..|after| - 1] :: x in after;
    assert gone !in Left(tables[n], calls[n].key) && calls[n].key != gone.key by {
      assert after[|after| - 1] in after;
    }
    hide History, Checked, LastCall;
    LeftLacks(tables[n], calls[n].key, gone);
    var j :| 0 <= j < |tables[n]| && tables[n][j] == other;
    assert j > 0;
  }

  lemma LeftHas(before: seq<Tracked>, key: string, k: nat)
    requires k < |before| && before[k].key != key
    requires k > 0 || |before| != MAX_TRACKED_KEYS || Find(before, key) < |before|
    ensures before[k] in Left(before, key)
  {
    var i, left := Find(before, key), Left(before, key);
    if i < |before| {
      assert left[if k < i then k else k - 1] == before[k];
    } else if |before| == MAX_TRACKED_KEYS {
      assert left[k - 1] == before[k];
    }
  }

  lemma LeftLacks(before: seq<Tracked>, key: string, gone: Tracked)
    requires gone in before && gone !in Left(before, key) && gone.key != key
    ensures |before| == MAX_TRACKED_KEYS && before[0] == gone && forall x <- before :: x.key != key
  {
    hide Left;
    var k :| 0 <= k < |before| && before[k] == gone;
    if k > 0 || |before| != MAX_TRACKED_KEYS || Find(before, key) < |before| {
      LeftHas(before, key, k);
    }
  }
}
