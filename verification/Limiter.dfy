/** A budget of points per key, refilling every window. */
module Limiting {
  import opened Data

  const KEYS: nat := 100_000
  const U32_MAX: nat := 0xFFFF_FFFF

  type Points = n: nat | n <= U32_MAX

  datatype Window = Window(points: Points, until: nat)

  datatype Reading = Reading(limit: Points, window: nat, spent: Points, remaining: Points, resetsIn: nat,
                             exceeded: bool)

  /** A limiter's table: the window of each key it knows, the time of the last
      sweep, and whether a key has been turned away since. */
  datatype Counts = Counts(windows: map<Key, Window>, swept: nat, full: bool)

  datatype Budget = Budget(points: Points, window: nat)

  datatype Call = Call(key: Key, points: Points, now: nat)

  // ---- What a call does ----

  function SaturatingAdd(a: Points, b: Points): Points {
    if a + b > U32_MAX then U32_MAX else a + b
  }

  /** The window a key is charged in: the one it has while that lasts, and a
      fresh one after. */
  function Charged(b: Budget, windows: map<Key, Window>, call: Call): Window {
    var held := if call.key in windows && windows[call.key].until > call.now then windows[call.key]
                else Window(0, call.now + b.window);
    Window(SaturatingAdd(held.points, call.points), held.until)
  }

  function ReadingOf(b: Budget, w: Window, now: nat): Reading
    requires w.until >= now
  {
    Reading(b.points, b.window, w.points, if w.points > b.points then 0 else b.points - w.points, w.until - now,
            w.points > b.points)
  }

  /** The time since, and none where it is still to come. */
  function Elapsed(since: nat, now: nat): nat {
    if now >= since then now - since else 0
  }

  /** Expired keys go once a window. */
  function Swept(b: Budget, c: Counts, now: nat): Counts {
    if Elapsed(c.swept, now) >= b.window then
      Counts(map k | k in c.windows && c.windows[k].until > now :: c.windows[k], now, false)
    else c
  }

  /** A full table counts nobody new. */
  predicate TurnedAway(c: Counts, key: Key) {
    |c.windows| >= KEYS && key !in c.windows
  }

  /** What a swept table does with a call. */
  function Charge(b: Budget, s: Counts, call: Call): Counts {
    if TurnedAway(s, call.key) then s.(full := true)
    else s.(windows := s.windows[call.key := Charged(b, s.windows, call)])
  }

  function Next(b: Budget, c: Counts, call: Call): Counts {
    Charge(b, Swept(b, c, call.now), call)
  }

  function Answer(b: Budget, c: Counts, call: Call): Reading {
    var s := Swept(b, c, call.now);
    if TurnedAway(s, call.key) then Reading(b.points, b.window, 0, b.points, b.window, false)
    else ReadingOf(b, Charged(b, s.windows, call), call.now)
  }

  /** A key's window is still running. */
  ghost predicate Running(c: Counts, key: Key, now: nat) {
    key in c.windows && c.windows[key].until > now
  }

  /** Whether a sweep is due: a window's length or more after the last, or every
      time where a window is no length at all. */
  ghost predicate Due(b: Budget, c: Counts, now: nat) {
    now >= c.swept + b.window || b.window == 0
  }

  /** Other keys keep what they have. Where a sweep is due, those whose windows
      ran out go, all of them. */
  ghost predicate OthersKept(b: Budget, c: Counts, call: Call, c': Counts) {
    && (forall k :: k != call.key ==>
          && (k in c'.windows <==> k in c.windows && (Due(b, c, call.now) ==> Running(c, k, call.now)))
          && (k in c'.windows ==> c'.windows[k] == c.windows[k]))
    && c'.swept == if Due(b, c, call.now) then call.now else c.swept
  }

  /** A key is counted unless the table holds 100,000 others and not it. */
  ghost predicate Admitted(b: Budget, c: Counts, call: Call, c': Counts) {
    && (call.key in c'.windows <==>
          || (call.key in c.windows && (Due(b, c, call.now) ==> Running(c, call.key, call.now)))
          || |c'.windows.Keys - {call.key}| < 100_000)
    && (c'.full <==> call.key !in c'.windows || (!Due(b, c, call.now) && c.full))
  }

  /** The answer is what the key has spent, what is left of the budget, and
      whether it went past it. A key counted has spent what its running window
      had and the call's points, as far as the counter goes, or the call's alone
      in a fresh window. */
  ghost predicate Told(b: Budget, c: Counts, call: Call, c': Counts, r: Reading) {
    && r.limit == b.points && r.window == b.window
    && (r.exceeded <==> r.spent > r.limit) && r.remaining == (if r.exceeded then 0 else r.limit - r.spent)
    && if call.key !in c'.windows then r.spent == 0 && r.resetsIn == b.window
       else
         && c'.windows[call.key] == Window(r.spent, call.now + r.resetsIn)
         && if Running(c, call.key, call.now) then
              && c'.windows[call.key].until == c.windows[call.key].until
              && r.spent == AtMost(0xFFFF_FFFF, c.windows[call.key].points + call.points)
            else r.resetsIn == b.window && r.spent == AtMost(0xFFFF_FFFF, call.points)
  }

  lemma ConsumesAs(b: Budget, c: Counts, call: Call)
    ensures OthersKept(b, c, call, Next(b, c, call)) && Admitted(b, c, call, Next(b, c, call))
    ensures Told(b, c, call, Next(b, c, call), Answer(b, c, call))
  {
    OthersKeptBy(b, c, call);
    AdmittedBy(b, c, call);
    ToldBy(b, c, call);
  }

  lemma OthersKeptBy(b: Budget, c: Counts, call: Call)
    ensures OthersKept(b, c, call, Next(b, c, call))
  {
    hide Swept, Charged, Due, Running;
    SweptIs(b, c, call.now);
  }

  lemma AdmittedBy(b: Budget, c: Counts, call: Call)
    ensures Admitted(b, c, call, Next(b, c, call))
  {
    hide Swept, Charged, Due, Running;
    SweptIs(b, c, call.now);
    CountsOthers(b, Swept(b, c, call.now), call);
  }

  lemma ToldBy(b: Budget, c: Counts, call: Call)
    ensures Told(b, c, call, Next(b, c, call), Answer(b, c, call))
  {
    hide Swept, Charged, Due, ReadingOf;
    var s := Swept(b, c, call.now);
    SweptIs(b, c, call.now);
    SweptRunning(b, c, call);
    if !TurnedAway(s, call.key) { TellsOf(b, s, call); }
  }

  lemma SweptIs(b: Budget, c: Counts, now: nat)
    ensures var s := Swept(b, c, now);
            && (forall k :: k in s.windows <==> k in c.windows && (Due(b, c, now) ==> Running(c, k, now)))
            && (forall k :: k in s.windows ==> s.windows[k] == c.windows[k])
            && s.swept == (if Due(b, c, now) then now else c.swept)
            && (s.full <==> !Due(b, c, now) && c.full)
  {
  }

  lemma SweptRunning(b: Budget, c: Counts, call: Call)
    ensures Running(Swept(b, c, call.now), call.key, call.now) <==> Running(c, call.key, call.now)
  {
  }

  lemma CountsOthers(b: Budget, s: Counts, call: Call)
    ensures var c' := Charge(b, s, call);
            call.key in c'.windows <==> call.key in s.windows || |c'.windows.Keys - {call.key}| < 100_000
  {
    hide Charged;
    var c' := Charge(b, s, call);
    if call.key !in s.windows {
      assert c'.windows.Keys - {call.key} == s.windows.Keys;
      assert |s.windows| == |s.windows.Keys|;
    }
  }

  lemma TellsOf(b: Budget, s: Counts, call: Call)
    requires !TurnedAway(s, call.key)
    ensures var w, r := Charged(b, s.windows, call), ReadingOf(b, Charged(b, s.windows, call), call.now);
            && r.limit == b.points && r.window == b.window
            && (r.exceeded <==> r.spent > r.limit) && r.remaining == (if r.exceeded then 0 else r.limit - r.spent)
            && w == Window(r.spent, call.now + r.resetsIn)
            && if Running(s, call.key, call.now) then
                 w.until == s.windows[call.key].until
                 && r.spent == AtMost(0xFFFF_FFFF, s.windows[call.key].points + call.points)
               else r.resetsIn == b.window && r.spent == AtMost(0xFFFF_FFFF, call.points)
  {
  }

  function AtMost(bound: nat, n: nat): (m: nat)
    ensures m <= bound && m <= n && (m == bound || m == n)
  {
    if n < bound then n else bound
  }

  class Limiter {
    const budget: Budget
    var counts: Counts

    constructor (points: Points, window: nat, now: nat)
      ensures budget == Budget(points, window) && counts == Counts(map[], now, false)
    {
      budget := Budget(points, window);
      counts := Counts(map[], now, false);
    }

    /** One call, as `Next` and `Answer` describe it. */
    method Consume(key: Key, points: Points, now: nat) returns (r: Reading)
      modifies this
      ensures counts == Next(budget, old(counts), Call(key, points, now))
      ensures r == Answer(budget, old(counts), Call(key, points, now))
      ensures OthersKept(budget, old(counts), Call(key, points, now), counts)
      ensures Admitted(budget, old(counts), Call(key, points, now), counts)
      ensures Told(budget, old(counts), Call(key, points, now), counts, r)
    {
      hide OthersKept, Admitted, Told, Swept;
      ConsumesAs(budget, counts, Call(key, points, now));
      Sweep(now);
      if |counts.windows| >= KEYS && key !in counts.windows {
        counts := counts.(full := true);
        return Reading(budget.points, budget.window, 0, budget.points, budget.window, false);
      }
      var window := if key in counts.windows then counts.windows[key] else Window(0, now + budget.window);
      if window.until <= now {
        window := Window(0, now + budget.window);
      }
      window := window.(points := SaturatingAdd(window.points, points));
      counts := counts.(windows := counts.windows[key := window]);
      r := Reading(budget.points, budget.window, window.points,
                   if window.points > budget.points then 0 else budget.points - window.points,
                   window.until - now, window.points > budget.points);
    }

    /** Drops the keys whose windows ran out, where it is time to. */
    method Sweep(now: nat)
      modifies this
      ensures counts == Swept(budget, old(counts), now)
    {
      if Elapsed(counts.swept, now) >= budget.window {
        var live := map k | k in counts.windows && counts.windows[k].until > now :: counts.windows[k];
        counts := Counts(live, now, false);
      }
    }
  }

  // ---- Runs ----

  function After(b: Budget, start: nat, calls: seq<Call>): Counts {
    if calls == [] then Counts(map[], start, false)
    else Next(b, After(b, start, calls[..|calls| - 1]), calls[|calls| - 1])
  }

  /** A table that never forgets and is never full. */
  function Remembered(b: Budget, calls: seq<Call>): map<Key, Window> {
    if calls == [] then map[]
    else
      var before := Remembered(b, calls[..|calls| - 1]);
      before[calls[|calls| - 1].key := Charged(b, before, calls[|calls| - 1])]
  }

  function Last(start: nat, calls: seq<Call>): nat {
    if calls == [] then start else calls[|calls| - 1].now
  }

  /** Time does not run back. */
  ghost predicate Forward(start: nat, calls: seq<Call>) {
    && (forall i :: 0 <= i < |calls| ==> start <= calls[i].now)
    && (forall i, j :: 0 <= i < j < |calls| ==> calls[i].now <= calls[j].now)
  }

  lemma ForwardPrefix(start: nat, calls: seq<Call>)
    requires Forward(start, calls) && calls != []
    ensures Forward(start, calls[..|calls| - 1]) && Last(start, calls[..|calls| - 1]) <= calls[|calls| - 1].now
  {
  }

  /** Nobody was turned away. */
  ghost predicate NeverFull(b: Budget, start: nat, calls: seq<Call>) {
    forall i :: 0 <= i < |calls| ==>
      !TurnedAway(Swept(b, After(b, start, calls[..i]), calls[i].now), calls[i].key)
  }

  lemma NeverFullPrefix(b: Budget, start: nat, calls: seq<Call>)
    requires NeverFull(b, start, calls) && calls != []
    ensures var n := |calls| - 1;
            && NeverFull(b, start, calls[..n])
            && !TurnedAway(Swept(b, After(b, start, calls[..n]), calls[n].now), calls[n].key)
  {
    var n := |calls| - 1;
    hide TurnedAway, Swept, After;
    forall i | 0 <= i < n
      ensures !TurnedAway(Swept(b, After(b, start, calls[..n][..i]), calls[..n][i].now), calls[..n][i].key)
    {
      assert calls[..n][..i] == calls[..i];
    }
  }

  /** What was forgotten had run out. */
  ghost predicate Forgets(windows: map<Key, Window>, all: map<Key, Window>, now: nat) {
    && (forall k :: k in windows ==> k in all && all[k] == windows[k])
    && (forall k :: k in all && k !in windows ==> all[k].until <= now)
  }

  /** The lazily swept table is the one that never forgets, less what ran out,
      and never holds more than its cap. */
  lemma {:induction false} LazyRefines(b: Budget, start: nat, calls: seq<Call>)
    requires Forward(start, calls) && NeverFull(b, start, calls)
    ensures Forgets(After(b, start, calls).windows, Remembered(b, calls), Last(start, calls))
  {
    hide Forward, NeverFull, After, Remembered, Forgets, Next, Charged, Swept, TurnedAway;
    if calls == [] {
      NothingForgotten(b, start);
    } else {
      var n := |calls| - 1;
      ForwardPrefix(start, calls);
      NeverFullPrefix(b, start, calls);
      LazyRefines(b, start, calls[..n]);
      AfterNext(b, start, calls);
      RememberedNext(b, calls);
      ForgetsNext(b, After(b, start, calls[..n]), Remembered(b, calls[..n]), Last(start, calls[..n]), calls[n]);
    }
  }

  lemma NothingForgotten(b: Budget, start: nat)
    ensures Forgets(After(b, start, []).windows, Remembered(b, []), start)
  {
  }

  lemma RememberedNext(b: Budget, calls: seq<Call>)
    requires calls != []
    ensures var before := Remembered(b, calls[..|calls| - 1]);
            Remembered(b, calls) == before[calls[|calls| - 1].key := Charged(b, before, calls[|calls| - 1])]
  {
  }

  lemma ForgetsNext(b: Budget, c: Counts, all: map<Key, Window>, last: nat, call: Call)
    requires Forgets(c.windows, all, last) && last <= call.now && !TurnedAway(Swept(b, c, call.now), call.key)
    ensures Forgets(Next(b, c, call).windows, all[call.key := Charged(b, all, call)], call.now)
  {
    var s := Swept(b, c, call.now);
    assert Forgets(s.windows, all, call.now);
    assert Charged(b, s.windows, call) == Charged(b, all, call);
    hide Swept, Charged, TurnedAway;
  }

  /** So every reading is the one that table would give. */
  lemma SameReadings(b: Budget, start: nat, calls: seq<Call>)
    requires Forward(start, calls) && NeverFull(b, start, calls) && calls != []
    ensures var n := |calls| - 1;
            Answer(b, After(b, start, calls[..n]), calls[n]) ==
            ReadingOf(b, Charged(b, Remembered(b, calls[..n]), calls[n]), calls[n].now)
  {
    hide Forward, NeverFull, Last;
    ForwardPrefix(start, calls);
    NeverFullPrefix(b, start, calls);
    LazyRefines(b, start, calls[..|calls| - 1]);
  }

  /** The table is never past its cap, turned away or not. */
  lemma {:induction false} Capped(b: Budget, start: nat, calls: seq<Call>)
    ensures |After(b, start, calls).windows| <= KEYS
  {
    if calls != [] {
      var c, call := After(b, start, calls[..|calls| - 1]), calls[|calls| - 1];
      Capped(b, start, calls[..|calls| - 1]);
      var s := Swept(b, c, call.now);
      Fewer(s.windows, c.windows);
      if call.key !in s.windows && |s.windows| < KEYS { OneMore(s.windows, call.key, Charged(b, s.windows, call)); }
      if call.key in s.windows { SameKeys(s.windows, call.key, Charged(b, s.windows, call)); }
    }
  }

  lemma Fewer(a: map<Key, Window>, b: map<Key, Window>)
    requires a.Keys <= b.Keys
    ensures |a| <= |b|
  {
    Subset(a.Keys, b.Keys);
    assert |a| == |a.Keys| && |b| == |b.Keys|;
  }

  lemma {:induction false} Subset(a: set<Key>, b: set<Key>)
    requires a <= b
    ensures |a| <= |b|
  {
    if a != {} {
      var x :| x in a;
      Subset(a - {x}, b - {x});
    }
  }

  lemma OneMore(m: map<Key, Window>, k: Key, w: Window)
    requires k !in m
    ensures |m[k := w]| == |m| + 1
  {
    assert m[k := w].Keys == m.Keys + {k};
  }

  lemma SameKeys(m: map<Key, Window>, k: Key, w: Window)
    requires k in m
    ensures |m[k := w]| == |m|
  {
    assert m[k := w].Keys == m.Keys;
  }

  /** A key the table still holds is always counted, full or not: in the window
      it has while that runs, and in a fresh one once it has run out. */
  lemma HeldIsCounted(b: Budget, c: Counts, call: Call)
    requires call.key in Swept(b, c, call.now).windows
    ensures var w := c.windows[call.key];
            var over := w.until <= call.now;
            && Answer(b, c, call).spent == (if over then call.points else SaturatingAdd(w.points, call.points))
            && call.key in Next(b, c, call).windows
            && Next(b, c, call).windows[call.key].until == (if over then call.now + b.window else w.until)
    ensures c.windows[call.key].until > call.now || Swept(b, c, call.now) == c
  {
  }

  // ---- The budget ----

  /** Whether a full table answered a call of a key's without counting it, in
      the span of one window's length from `from` on. */
  predicate Overlooks(b: Budget, c: Counts, call: Call, key: Key, from: nat) {
    call.key == key && TurnedAway(Swept(b, c, call.now), key) && from <= call.now < from + b.window
  }

  /** Whether a call was let through in the window that opens at `from`: one the
      table opened for the key then, or any at all while it keeps none for it. */
  predicate Passes(b: Budget, c: Counts, call: Call, key: Key, from: nat) {
    && call.key == key && !Answer(b, c, call).exceeded
    && if TurnedAway(Swept(b, c, call.now), key) then from <= call.now < from + b.window
       else call.now + Answer(b, c, call).resetsIn == from + b.window
  }

  /** The points a key was let through with in one window, counted or not. */
  function LetThrough(b: Budget, start: nat, calls: seq<Call>, key: Key, from: nat): nat {
    if calls == [] then 0
    else
      var n := |calls| - 1;
      LetThrough(b, start, calls[..n], key, from) +
      if Passes(b, After(b, start, calls[..n]), calls[n], key, from) then calls[n].points else 0
  }

  /** Those of them a full table did not count. */
  function Overlooked(b: Budget, start: nat, calls: seq<Call>, key: Key, from: nat): nat {
    if calls == [] then 0
    else
      var n := |calls| - 1;
      Overlooked(b, start, calls[..n], key, from) +
      if Overlooks(b, After(b, start, calls[..n]), calls[n], key, from) then calls[n].points else 0
  }

  /** And those it did. */
  ghost function Counted(b: Budget, start: nat, calls: seq<Call>, key: Key, from: nat): int {
    LetThrough(b, start, calls, key, from) - Overlooked(b, start, calls, key, from)
  }

  lemma AfterNext(b: Budget, start: nat, calls: seq<Call>)
    requires calls != []
    ensures After(b, start, calls) == Next(b, After(b, start, calls[..|calls| - 1]), calls[|calls| - 1])
  {
  }

  /** What one call adds to either sum. */
  lemma SumsNext(b: Budget, start: nat, calls: seq<Call>, key: Key, f: nat)
    requires calls != []
    ensures var n := |calls| - 1;
            Steps(b, After(b, start, calls[..n]), calls[n], key, f,
                  Counted(b, start, calls[..n], key, f), Counted(b, start, calls, key, f),
                  Overlooked(b, start, calls[..n], key, f), Overlooked(b, start, calls, key, f))
  {
  }

  /** One call's effect on what was counted and overlooked in one window. */
  ghost predicate Steps(b: Budget, c: Counts, call: Call, key: Key, f: nat, x: int, x': int, y: nat, y': nat) {
    var s := Swept(b, c, call.now);
    var w := Charged(b, s.windows, call);
    if call.key != key then x' == x && y' == y
    else if TurnedAway(s, key) then
      x' == x && y' == y + (if f <= call.now < f + b.window then call.points else 0)
    else x' == x + (if w.points <= b.points && f + b.window == w.until then call.points else 0) && y' == y
  }

  /** What a key's table entry says of both sums. Nothing was counted in a later
      window than the one it has, and nothing overlooked since that one opened.
      A key overlooked at this moment is still out of a table that is still full
      and not yet due a sweep. */
  ghost predicate Within(b: Budget, c: Counts, last: nat, key: Key, counted: nat -> int, overlooked: nat -> nat) {
    && (key in c.windows ==>
          var u := c.windows[key].until;
          && (forall f: nat :: f + b.window == u ==> counted(f) <= c.windows[key].points)
          && (forall f: nat :: f + b.window > u ==> counted(f) == 0)
          && (forall f: nat :: f + b.window >= u ==> overlooked(f) == 0))
    && (key !in c.windows ==> forall f: nat :: f + b.window > last ==> counted(f) == 0)
    && (forall f: nat :: f > last ==> overlooked(f) == 0)
    && (overlooked(last) > 0 ==> key !in c.windows && |c.windows| >= KEYS && Elapsed(c.swept, last) < b.window)
    && (forall f: nat :: 0 <= counted(f) <= b.points && (overlooked(f) > 0 ==> counted(f) == 0))
  }

  /** Both sums, window by window. */
  ghost function CountedIn(b: Budget, start: nat, calls: seq<Call>, key: Key): (f: nat -> int)
    ensures forall u :: f(u) == Counted(b, start, calls, key, u)
  {
    (u: nat) => Counted(b, start, calls, key, u)
  }

  ghost function OverlookedIn(b: Budget, start: nat, calls: seq<Call>, key: Key): (f: nat -> nat)
    ensures forall u :: f(u) == Overlooked(b, start, calls, key, u)
  {
    (u: nat) => Overlooked(b, start, calls, key, u)
  }

  ghost predicate RunWithin(b: Budget, start: nat, calls: seq<Call>, key: Key) {
    Within(b, After(b, start, calls), Last(start, calls), key,
           CountedIn(b, start, calls, key), OverlookedIn(b, start, calls, key))
  }

  lemma {:induction false} StaysWithin(b: Budget, start: nat, calls: seq<Call>, key: Key)
    requires Forward(start, calls) && b.window > 0 && b.points < U32_MAX
    ensures RunWithin(b, start, calls, key)
  {
    hide Forward, Within, After, Overlooked, LetThrough, Counted, Next, Swept, Charged, TurnedAway;
    if calls == [] {
      StartsWithin(b, start, key);
    } else {
      var n := |calls| - 1;
      var before := calls[..n];
      ForwardPrefix(start, calls);
      StaysWithin(b, start, before, key);
      AfterNext(b, start, calls);
      forall f: nat ensures Steps(b, After(b, start, before), calls[n], key, f,
                                  Counted(b, start, before, key, f), Counted(b, start, calls, key, f),
                                  Overlooked(b, start, before, key, f), Overlooked(b, start, calls, key, f))
      {
        SumsNext(b, start, calls, key, f);
      }
      WithinNext(b, After(b, start, before), Last(start, before), calls[n], key,
                 CountedIn(b, start, before, key), CountedIn(b, start, calls, key),
                 OverlookedIn(b, start, before, key), OverlookedIn(b, start, calls, key));
    }
  }

  lemma StartsWithin(b: Budget, start: nat, key: Key)
    ensures RunWithin(b, start, [], key)
  {
  }

  lemma WithinNext(b: Budget, c: Counts, last: nat, call: Call, key: Key,
                   x: nat -> int, x': nat -> int, y: nat -> nat, y': nat -> nat)
    requires b.window > 0 && b.points < U32_MAX && last <= call.now && Within(b, c, last, key, x, y)
    requires forall f: nat :: Steps(b, c, call, key, f, x(f), x'(f), y(f), y'(f))
    ensures Within(b, Next(b, c, call), call.now, key, x', y')
  {
    var s := Swept(b, c, call.now);
    SweptWithin(b, c, last, call.now, key, x, y);
    hide Swept;
    if call.key == key && !TurnedAway(s, key) {
      WithinCharged(b, s, call, key, x, x', y, y');
    } else if call.key == key {
      WithinAway(b, s, call, key, x, x', y, y');
    } else {
      WithinOther(b, s, call, key, x, x', y, y');
    }
  }

  /** Time passing, and the sweep it may bring. */
  lemma SweptWithin(b: Budget, c: Counts, last: nat, now: nat, key: Key, x: nat -> int, y: nat -> nat)
    requires b.window > 0 && last <= now && Within(b, c, last, key, x, y)
    ensures Within(b, Swept(b, c, now), now, key, x, y) && Elapsed(Swept(b, c, now).swept, now) < b.window
  {
  }

  lemma WithinOther(b: Budget, s: Counts, call: Call, key: Key,
                    x: nat -> int, x': nat -> int, y: nat -> nat, y': nat -> nat)
    requires Within(b, s, call.now, key, x, y) && call.key != key
    requires forall f: nat :: x'(f) == x(f) && y'(f) == y(f)
    ensures Within(b, Charge(b, s, call), call.now, key, x', y')
  {
    hide Charged;
    if !TurnedAway(s, call.key) {
      var w := Charged(b, s.windows, call);
      if call.key in s.windows { SameKeys(s.windows, call.key, w); } else { OneMore(s.windows, call.key, w); }
    }
  }

  lemma WithinAway(b: Budget, s: Counts, call: Call, key: Key,
                   x: nat -> int, x': nat -> int, y: nat -> nat, y': nat -> nat)
    requires b.window > 0 && Within(b, s, call.now, key, x, y) && call.key == key && TurnedAway(s, key)
    requires Elapsed(s.swept, call.now) < b.window
    requires forall f: nat ::
               x'(f) == x(f) && y'(f) == y(f) + (if f <= call.now < f + b.window then call.points else 0)
    ensures Within(b, Charge(b, s, call), call.now, key, x', y')
  {
  }

  lemma WithinCharged(b: Budget, s: Counts, call: Call, key: Key,
                      x: nat -> int, x': nat -> int, y: nat -> nat, y': nat -> nat)
    requires b.window > 0 && b.points < U32_MAX && Within(b, s, call.now, key, x, y)
    requires call.key == key && !TurnedAway(s, key) && Elapsed(s.swept, call.now) < b.window
    requires var w := Charged(b, s.windows, call);
             forall f: nat ::
               && x'(f) == x(f) + (if w.points <= b.points && f + b.window == w.until then call.points else 0)
               && y'(f) == y(f)
    ensures Within(b, Charge(b, s, call), call.now, key, x', y')
  {
    var w := Charged(b, s.windows, call);
    Saturates(b, s.windows, call);
    hide SaturatingAdd;
    assert Charge(b, s, call).windows[key] == w;
  }

  lemma Saturates(b: Budget, windows: map<Key, Window>, call: Call)
    ensures var w := Charged(b, windows, call);
            && (w.points <= b.points < U32_MAX && call.key in windows && windows[call.key].until > call.now ==>
                  w.points == windows[call.key].points + call.points)
            && (w.points < U32_MAX ==> w.points >= call.points)
            && (call.key in windows && windows[call.key].until > call.now ==> w.points >= windows[call.key].points)
  {
  }

  /** A run that keeps the budget: no key was let through with more than its
      points in any one window. */
  ghost predicate Kept(b: Budget, start: nat, calls: seq<Call>) {
    forall key, from :: LetThrough(b, start, calls, key, from) <= b.points
  }

  /** No key was turned away with more than the budget in any span of a window's
      length. */
  ghost predicate SparinglyFull(b: Budget, start: nat, calls: seq<Call>) {
    forall key, from :: Overlooked(b, start, calls, key, from) <= b.points
  }

  /** What was let through in a window is within the budget exactly where what
      a full table overlooked in it is: nothing is overlooked in a window that
      counts anything, and what is counted never passes the budget. */
  lemma BudgetHolds(b: Budget, start: nat, calls: seq<Call>, key: Key, from: nat)
    requires Forward(start, calls) && b.window > 0 && b.points < U32_MAX
    ensures LetThrough(b, start, calls, key, from) <= b.points <==> Overlooked(b, start, calls, key, from) <= b.points
  {
    hide LetThrough, Overlooked, After, Forward;
    StaysWithin(b, start, calls, key);
    assert CountedIn(b, start, calls, key)(from) == Counted(b, start, calls, key, from);
    assert OverlookedIn(b, start, calls, key)(from) == Overlooked(b, start, calls, key, from);
  }

  /** A budget narrower than the counter is kept by exactly the runs that turn
      no key away past it. */
  lemma KeptExactly(b: Budget, start: nat, calls: seq<Call>)
    requires Forward(start, calls) && b.window > 0 && b.points < U32_MAX
    ensures Kept(b, start, calls) <==> SparinglyFull(b, start, calls)
  {
    hide LetThrough, Overlooked, Forward;
    forall key, from
      ensures LetThrough(b, start, calls, key, from) <= b.points <==> Overlooked(b, start, calls, key, from) <= b.points
    {
      BudgetHolds(b, start, calls, key, from);
    }
  }

  /** A run that turns nobody away overlooks nothing. */
  lemma {:induction false} NothingOverlooked(b: Budget, start: nat, calls: seq<Call>, key: Key, from: nat)
    requires NeverFull(b, start, calls)
    ensures Overlooked(b, start, calls, key, from) == 0
  {
    if calls != [] {
      hide NeverFull, After;
      NeverFullPrefix(b, start, calls);
      NothingOverlooked(b, start, calls[..|calls| - 1], key, from);
    }
  }

  /** So a budget is kept by every run that finds room for every key, if and
      only if it is narrower than the counter. */
  lemma KeptWithRoom(b: Budget)
    requires b.window > 0
    ensures (forall start, calls :: Forward(start, calls) && NeverFull(b, start, calls) ==> Kept(b, start, calls))
            <==> b.points < U32_MAX
  {
    hide LetThrough, Overlooked, Forward, NeverFull;
    if b.points < U32_MAX {
      forall start, calls | Forward(start, calls) && NeverFull(b, start, calls) ensures Kept(b, start, calls) {
        KeptExactly(b, start, calls);
        forall key, from ensures Overlooked(b, start, calls, key, from) <= b.points {
          NothingOverlooked(b, start, calls, key, from);
        }
      }
    } else {
      WidestBudgetLeaks([], b.window);
    }
  }

  /** At the counter's own width the count sticks, and nothing is refused. */
  lemma WidestBudgetLeaks(key: Key, window: nat)
    requires window > 0
    ensures var b, calls := Budget(U32_MAX, window), [Call(key, U32_MAX, 0), Call(key, U32_MAX, 0)];
            && Forward(0, calls) && NeverFull(b, 0, calls)
            && LetThrough(b, 0, calls, key, 0) == 2 * U32_MAX && !Kept(b, 0, calls)
  {
    var b, call := Budget(U32_MAX, window), Call(key, U32_MAX, 0);
    var one, two := [call], [call, call];
    assert one[..0] == [] && two[..1] == one && two[..0] == [];
    assert After(b, 0, []) == Counts(map[], 0, false);
    assert After(b, 0, one).windows == map[key := Window(U32_MAX, window)];
    assert Passes(b, After(b, 0, []), call, key, 0);
    assert Passes(b, After(b, 0, one), call, key, 0);
    assert LetThrough(b, 0, one, key, 0) == U32_MAX by { assert LetThrough(b, 0, [], key, 0) == 0; }
  }

  // ---- Enough room ----

  ghost function KeysOf(calls: seq<Call>): set<Key> {
    set i | 0 <= i < |calls| :: calls[i].key
  }

  lemma {:induction false} WindowsAreOfKeys(b: Budget, start: nat, calls: seq<Call>)
    ensures After(b, start, calls).windows.Keys <= KeysOf(calls)
  {
    if calls != [] {
      var n := |calls| - 1;
      WindowsAreOfKeys(b, start, calls[..n]);
      AfterNext(b, start, calls);
      hide After, Charged;
      KeysNext(calls, n);
      assert calls[..|calls|] == calls;
    }
  }

  lemma KeysNext(calls: seq<Call>, n: nat)
    requires n < |calls|
    ensures KeysOf(calls[..n]) + {calls[n].key} == KeysOf(calls[..n + 1]) && KeysOf(calls[..n + 1]) <= KeysOf(calls)
  {
    forall k | k in KeysOf(calls[..n]) + {calls[n].key} ensures k in KeysOf(calls[..n + 1]) {
      if k == calls[n].key { assert calls[..n + 1][n].key == k; }
      else { var i :| 0 <= i < n && calls[..n][i].key == k; assert calls[..n + 1][i].key == k; }
    }
    forall k | k in KeysOf(calls[..n + 1]) ensures k in KeysOf(calls[..n]) + {calls[n].key} && k in KeysOf(calls) {
      var i :| 0 <= i < n + 1 && calls[..n + 1][i].key == k;
      assert calls[i].key == k;
      if i < n { assert calls[..n][i].key == k; }
    }
  }

  /** A run over no more keys than the table holds turns nobody away. */
  lemma FewKeysFit(b: Budget, start: nat, calls: seq<Call>)
    requires |KeysOf(calls)| <= KEYS
    ensures NeverFull(b, start, calls)
  {
    hide After, KeysOf;
    forall i | 0 <= i < |calls|
      ensures !TurnedAway(Swept(b, After(b, start, calls[..i]), calls[i].now), calls[i].key)
    {
      WindowsAreOfKeys(b, start, calls[..i]);
      KeysNext(calls, i);
      var s, key := Swept(b, After(b, start, calls[..i]), calls[i].now), calls[i].key;
      if key !in s.windows {
        OneMore(s.windows, key, Window(0, 0));
        Subset(s.windows.Keys + {key}, KeysOf(calls));
        assert s.windows[key := Window(0, 0)].Keys == s.windows.Keys + {key};
        SizeIs(s.windows[key := Window(0, 0)]);
      }
    }
  }

  lemma SizeIs(m: map<Key, Window>)
    ensures |m| == |m.Keys|
  {
  }

  // ---- Any span ----

  /** Whether a call was counted and let through in a window that ends past `lo`
      and no more than a window's length past it. */
  predicate Bands(b: Budget, c: Counts, call: Call, key: Key, lo: nat) {
    var s := Swept(b, c, call.now);
    var w := Charged(b, s.windows, call);
    call.key == key && !TurnedAway(s, key) && w.points <= b.points && lo < w.until <= lo + b.window
  }

  function Band(b: Budget, start: nat, calls: seq<Call>, key: Key, lo: nat): nat {
    if calls == [] then 0
    else
      var n := |calls| - 1;
      Band(b, start, calls[..n], key, lo) +
      if Bands(b, After(b, start, calls[..n]), calls[n], key, lo) then calls[n].points else 0
  }

  /** Everything a key was let through with in a span of a window's length,
      whichever windows it fell in and whether or not it was counted. */
  function Through(b: Budget, start: nat, calls: seq<Call>, key: Key, from: nat): nat {
    if calls == [] then 0
    else
      var n := |calls| - 1;
      var call := calls[n];
      Through(b, start, calls[..n], key, from) +
      if call.key == key && from <= call.now < from + b.window && !Answer(b, After(b, start, calls[..n]), call).exceeded
      then call.points else 0
  }

  /** Windows of one key are a window's length apart, so no band has two. */
  ghost predicate BandWithin(b: Budget, c: Counts, last: nat, key: Key, band: nat -> nat) {
    && (forall lo: nat :: band(lo) <= b.points)
    && (key in c.windows ==>
          var u := c.windows[key].until;
          && u <= last + b.window
          && (forall lo: nat :: u <= lo ==> band(lo) == 0)
          && (forall lo: nat :: lo < u <= lo + b.window ==> band(lo) <= c.windows[key].points))
    && (key !in c.windows ==> forall lo: nat :: lo >= last ==> band(lo) == 0)
  }

  ghost function BandIn(b: Budget, start: nat, calls: seq<Call>, key: Key): (f: nat -> nat)
    ensures forall lo: nat :: f(lo) == Band(b, start, calls, key, lo)
  {
    (lo: nat) => Band(b, start, calls, key, lo)
  }

  lemma BandNext(b: Budget, start: nat, calls: seq<Call>, key: Key, lo: nat)
    requires calls != []
    ensures var n := |calls| - 1;
            Band(b, start, calls, key, lo) == Band(b, start, calls[..n], key, lo) +
            if Bands(b, After(b, start, calls[..n]), calls[n], key, lo) then calls[n].points else 0
  {
  }

  lemma {:induction false} StaysInBand(b: Budget, start: nat, calls: seq<Call>, key: Key)
    requires Forward(start, calls) && b.window > 0 && b.points < U32_MAX
    ensures BandWithin(b, After(b, start, calls), Last(start, calls), key, BandIn(b, start, calls, key))
  {
    if calls == [] {
      assert forall lo: nat :: BandIn(b, start, calls, key)(lo) == Band(b, start, [], key, lo) == 0;
    } else {
      hide Forward, BandWithin, After, Band, Next, Bands;
      var n := |calls| - 1;
      var before := calls[..n];
      ForwardPrefix(start, calls);
      StaysInBand(b, start, before, key);
      AfterNext(b, start, calls);
      forall lo: nat
        ensures Band(b, start, calls, key, lo) == Band(b, start, before, key, lo) +
                (if Bands(b, After(b, start, before), calls[n], key, lo) then calls[n].points else 0)
      {
        BandNext(b, start, calls, key, lo);
      }
      InBandNext(b, After(b, start, before), Last(start, before), calls[n], key,
                 BandIn(b, start, before, key), BandIn(b, start, calls, key));
    }
  }

  lemma InBandNext(b: Budget, c: Counts, last: nat, call: Call, key: Key, x: nat -> nat, x': nat -> nat)
    requires b.window > 0 && b.points < U32_MAX && last <= call.now && BandWithin(b, c, last, key, x)
    requires forall lo: nat :: x'(lo) == x(lo) + (if Bands(b, c, call, key, lo) then call.points else 0)
    ensures BandWithin(b, Next(b, c, call), call.now, key, x')
  {
    var s := Swept(b, c, call.now);
    assert BandWithin(b, s, call.now, key, x);
    hide Swept;
    if call.key == key && !TurnedAway(s, key) {
      var w := Charged(b, s.windows, call);
      Saturates(b, s.windows, call);
      hide SaturatingAdd;
      assert Next(b, c, call).windows[key] == w;
    } else {
      hide Charged;
      assert key in Next(b, c, call).windows <==> key in s.windows;
    }
  }

  /** Over any stretch as long as a window, wherever it starts, a key is let
      through with no more than two windows hold and what was overlooked. */
  lemma SpanBound(b: Budget, start: nat, calls: seq<Call>, key: Key, from: nat)
    requires Forward(start, calls) && b.window > 0 && b.points < U32_MAX
    ensures Through(b, start, calls, key, from) <= 2 * b.points + Overlooked(b, start, calls, key, from)
  {
    hide Through, Overlooked, Band, Forward, After;
    InTwoBands(b, start, calls, key, from);
    StaysInBand(b, start, calls, key);
    assert BandIn(b, start, calls, key)(from) == Band(b, start, calls, key, from);
    assert BandIn(b, start, calls, key)(from + b.window) == Band(b, start, calls, key, from + b.window);
  }

  lemma {:induction false} InTwoBands(b: Budget, start: nat, calls: seq<Call>, key: Key, from: nat)
    requires Forward(start, calls) && b.window > 0 && b.points < U32_MAX
    ensures Through(b, start, calls, key, from) <=
            Band(b, start, calls, key, from) + Band(b, start, calls, key, from + b.window)
            + Overlooked(b, start, calls, key, from)
  {
    if calls != [] {
      hide Forward, After, BandWithin;
      var n := |calls| - 1;
      ForwardPrefix(start, calls);
      InTwoBands(b, start, calls[..n], key, from);
      StaysInBand(b, start, calls[..n], key);
      EndsSoon(b, After(b, start, calls[..n]), Last(start, calls[..n]), calls[n], key,
               BandIn(b, start, calls[..n], key));
      hide Swept, Charged, Last, SaturatingAdd;
    }
  }

  /** The window a call is charged in ends after it, by no more than a window. */
  lemma EndsSoon(b: Budget, c: Counts, last: nat, call: Call, key: Key, band: nat -> nat)
    requires BandWithin(b, c, last, key, band) && last <= call.now && b.window > 0
    ensures call.key == key ==>
              call.now < Charged(b, Swept(b, c, call.now).windows, call).until <= call.now + b.window
  {
  }

  // ---- A full table ----

  function Filler(i: nat): (k: Key)
    ensures |k| == i
  {
    seq(i, _ => 0)
  }

  /** A call under each of as many keys, all at one moment. */
  function Fill(n: nat, points: Points): seq<Call> {
    seq(n, i requires 0 <= i < n => Call(Filler(i), points, 0))
  }

  lemma {:induction false} Fills(b: Budget, n: nat, points: Points)
    requires b.window > 0 && n <= KEYS
    ensures var c := After(b, 0, Fill(n, points));
            |c.windows| == n && c.swept == 0 && forall k :: k in c.windows ==> |k| < n
  {
    if n > 0 {
      var calls := Fill(n, points);
      Fills(b, n - 1, points);
      assert calls[..n - 1] == Fill(n - 1, points);
      var c, call := After(b, 0, Fill(n - 1, points)), calls[n - 1];
      assert call == Call(Filler(n - 1), points, 0);
      assert call.key !in c.windows;
      assert After(b, 0, calls) == Next(b, c, call);
      assert Swept(b, c, 0) == c;
      OneMore(c.windows, call.key, Charged(b, c.windows, call));
    }
  }

  /** A table filled, and then calls under one new key, all at once or one a
      tick. */
  function Flood(points: Points, n: nat, apart: nat): seq<Call> {
    Fill(KEYS, points) + seq(n, i requires 0 <= i < n => Call(Filler(KEYS), points, i * apart))
  }

  lemma FloodForward(points: Points, n: nat, apart: nat)
    ensures Forward(0, Flood(points, n, apart))
  {
    var calls := Flood(points, n, apart);
    forall i, j | 0 <= i < j < |calls| ensures calls[i].now <= calls[j].now {
      if i >= KEYS { assert (i - KEYS) * apart <= (j - KEYS) * apart; }
    }
  }

  lemma {:induction false} Floods(b: Budget, points: Points, n: nat, apart: nat)
    requires b.window > 0 && (n > 0 ==> (n - 1) * apart < b.window)
    ensures var calls := Flood(points, n, apart); var c := After(b, 0, calls);
            && |c.windows| == KEYS && c.swept == 0 && Filler(KEYS) !in c.windows
            && LetThrough(b, 0, calls, Filler(KEYS), 0) >= n * points
  {
    var calls := Flood(points, n, apart);
    if n == 0 {
      Fills(b, KEYS, points);
      assert calls == Fill(KEYS, points);
      hide After;
      assert |Filler(KEYS)| == KEYS;
    } else {
      hide After, LetThrough, Fill, Filler;
      var call := Call(Filler(KEYS), points, (n - 1) * apart);
      assert (n - 2) * apart <= (n - 1) * apart;
      Floods(b, points, n - 1, apart);
      FloodGrows(points, n, apart);
      FloodStep(b, calls, call, After(b, 0, Flood(points, n - 1, apart)));
    }
  }

  lemma FloodGrows(points: Points, n: nat, apart: nat)
    requires n > 0
    ensures var calls := Flood(points, n, apart);
            calls != [] && calls[..|calls| - 1] == Flood(points, n - 1, apart)
            && calls[|calls| - 1] == Call(Filler(KEYS), points, (n - 1) * apart)
  {
    var calls, last := Flood(points, n, apart), Call(Filler(KEYS), points, (n - 1) * apart);
    assert calls == Flood(points, n - 1, apart) + [last];
  }

  lemma FloodStep(b: Budget, calls: seq<Call>, call: Call, c: Counts)
    requires calls != [] && calls[|calls| - 1] == call && call.now < b.window
    requires c == After(b, 0, calls[..|calls| - 1]) && c.swept == 0 && |c.windows| >= KEYS && call.key !in c.windows
    ensures After(b, 0, calls).windows == c.windows && After(b, 0, calls).swept == 0
    ensures LetThrough(b, 0, calls, call.key, 0) == LetThrough(b, 0, calls[..|calls| - 1], call.key, 0) + call.points
  {
    assert Swept(b, c, call.now) == c;
    assert Passes(b, c, call, call.key, 0);
  }

  /** A full table counts nobody new, so no budget at all is kept by every run:
      whatever its points, a key that arrives once the table is full is let
      through with any number of them, however they are spread over the window. */
  lemma FullTableLeaks(b: Budget, points: Points, n: nat, apart: nat)
    requires b.window > 0 && (n > 0 ==> (n - 1) * apart < b.window)
    ensures Forward(0, Flood(points, n, apart))
    ensures LetThrough(b, 0, Flood(points, n, apart), Filler(KEYS), 0) >= n * points
    ensures n * points > b.points ==> !Kept(b, 0, Flood(points, n, apart))
  {
    hide Forward, LetThrough, After;
    FloodForward(points, n, apart);
    Floods(b, points, n, apart);
  }

  /** One point a tick, on a budget of one. */
  lemma DripLeaks(window: nat)
    requires window > 1
    ensures LetThrough(Budget(1, window), 0, Flood(1, window, 1), Filler(KEYS), 0) >= window
    ensures !Kept(Budget(1, window), 0, Flood(1, window, 1))
  {
    hide LetThrough, Kept;
    FullTableLeaks(Budget(1, window), 1, window, 1);
  }
}
