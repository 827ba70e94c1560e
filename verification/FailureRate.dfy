// How many failures of one key a limiter lets through in any stretch of one
// window's length.
module FailureRate {
  import opened Sequences
  import opened FailureHistory

  // ---- Checks before failures

  // The i-th failure is recorded after a check, at a time no later, that saw
  // the first seen failures and said the key was not blocked. The check may
  // miss as many of the failures before this one as the slack says.
  ghost predicate Saw(history: seq<Event>, i: nat, slack: nat, max: int, window: int, seen: nat, check: int) {
    && seen <= i < |history| && i <= seen + slack
    && history[i].Failed? && check <= history[i].at
    && !Blocked(After(history[..seen], window), max, check)
  }

  ghost predicate Allowed(history: seq<Event>, i: nat, slack: nat, max: int, window: int) {
    exists seen: nat, check: int :: Saw(history, i, slack, max, window, seen, check)
  }

  // One key's failures in order, none cleared.
  ghost predicate InOrder(history: seq<Event>) {
    && (forall i :: 0 <= i < |history| ==> history[i].Failed?)
    && (forall i, j :: 0 <= i < j < |history| ==>
          history[i].Failed? && history[j].Failed? && history[i].at <= history[j].at)
  }

  ghost predicate Guarded(history: seq<Event>, slack: nat, max: int, window: int) {
    InOrder(history) && forall i: nat :: i < |history| ==> Allowed(history, i, slack, max, window)
  }

  lemma AllowedPrefix(history: seq<Event>, n: nat, i: nat, slack: nat, max: int, window: int)
    requires i < n <= |history|
    ensures Allowed(history[..n], i, slack, max, window) <==> Allowed(history, i, slack, max, window)
  {
    var before := history[..n];
    assert forall seen: nat :: seen <= i ==> before[..seen] == history[..seen];
    if seen: nat, check :| Saw(before, i, slack, max, window, seen, check) {
      assert Saw(history, i, slack, max, window, seen, check);
    }
    if seen: nat, check :| Saw(history, i, slack, max, window, seen, check) {
      assert Saw(before, i, slack, max, window, seen, check);
    }
  }

  lemma GuardedLess(history: seq<Event>, n: nat, slack: nat, max: int, window: int)
    requires n <= |history| && Guarded(history, slack, max, window)
    ensures Guarded(history[..n], slack, max, window)
  {
    forall i: nat | i < n ensures Allowed(history[..n], i, slack, max, window) {
      AllowedPrefix(history, n, i, slack, max, window);
    }
  }

  lemma GuardedMore(history: seq<Event>, e: Event, slack: nat, max: int, window: int)
    requires Guarded(history, slack, max, window)
    requires e.Failed? && forall i :: 0 <= i < |history| && history[i].Failed? ==> history[i].at <= e.at
    requires Allowed(history + [e], |history|, slack, max, window)
    ensures Guarded(history + [e], slack, max, window)
  {
    var more := history + [e];
    assert more[..|history|] == history;
    forall i: nat | i < |history| ensures Allowed(more, i, slack, max, window) {
      AllowedPrefix(more, |history|, i, slack, max, window);
    }
  }

  function Most(max: int): int {
    if max > 1 then max else 1
  }

  // ---- Counting

  function Since(from: int): Event -> bool {
    (e: Event) => e.Failed? && e.at >= from
  }

  function During(from: int, length: int): Event -> bool {
    (e: Event) => e.Failed? && from <= e.at <= from + length
  }

  function CountSince(history: seq<Event>, from: int): int {
    |Filter(Since(from), history)|
  }

  // Failures from one time on and for so long, ends included.
  function CountDuring(history: seq<Event>, from: int, length: int): int {
    |Filter(During(from, length), history)|
  }

  lemma SinceSnoc(history: seq<Event>, e: Event, from: int)
    requires e.Failed?
    ensures CountSince(history + [e], from) == CountSince(history, from) + (if e.at >= from then 1 else 0)
  {
    FilterAppend(Since(from), history, [e]);
  }

  lemma DuringSnoc(history: seq<Event>, e: Event, from: int, length: int)
    requires e.Failed?
    ensures CountDuring(history + [e], from, length) ==
            CountDuring(history, from, length) + (if from <= e.at <= from + length then 1 else 0)
  {
    FilterAppend(During(from, length), history, [e]);
  }

  lemma {:induction false} CountLater(history: seq<Event>, from: int, later: int, length: int)
    requires from <= later
    ensures CountDuring(history, later, length) <= CountSince(history, later) <= CountSince(history, from)
  {
    if history != [] {
      CountLater(history[1..], from, later, length);
    }
  }

  ghost predicate AllBefore(history: seq<Event>, time: int) {
    forall i :: 0 <= i < |history| ==> history[i].Failed? && history[i].at < time
  }

  lemma NoneSince(history: seq<Event>, from: int)
    requires AllBefore(history, from)
    ensures CountSince(history, from) == 0
  {
    forall e | e in history ensures !Since(from)(e) {
      var i :| 0 <= i < |history| && history[i] == e;
    }
    FilterNone(Since(from), history);
  }

  // ---- What checks leave room for

  // A failure at this time starts a window or is within the most of one.
  predicate Room(s: State, at: int, most: int) {
    Expired(s, at) || s.count < most
  }

  // From an earlier state on, either the window is still the same and counts
  // every failure since, or a later one counts no more than those.
  lemma {:induction false} CountedSince(history: seq<Event>, seen: nat, window: int)
    requires seen <= |history| && forall i :: 0 <= i < |history| ==> history[i].Failed?
    ensures var a, b := After(history[..seen], window), After(history, window);
            || b.Fresh?
            || b.count <= |history| - seen
            || (a.Counting? && b.reset == a.reset && b.count == a.count + |history| - seen)
  {
    if seen == |history| {
      assert history[..seen] == history;
    } else {
      var n := |history| - 1;
      CountedSince(history[..n], seen, window);
      assert history[..n][..seen] == history[..seen];
    }
  }

  lemma AllowedHasRoom(history: seq<Event>, n: nat, slack: nat, max: int, window: int)
    requires n < |history| && InOrder(history) && Allowed(history, n, slack, max, window)
    ensures Room(After(history[..n], window), history[n].at, Most(max) + slack)
  {
    var seen: nat, check :| Saw(history, n, slack, max, window, seen, check);
    CountedSince(history[..n], seen, window);
    assert history[..n][..seen] == history[..seen];
  }

  // ---- Pacing

  // What holds after such failures: the window being counted holds its count,
  // and the one before it no more than the most.
  ghost predicate Paced(history: seq<Event>, s: State, most: int, window: int) {
    match s
    case Fresh => history == []
    case Counting(count, reset) =>
      && 1 <= count <= most
      && AllBefore(history, reset)
      && CountSince(history, reset - window) == count
      && CountSince(history, reset - 2 * window) <= count + most
  }

  // So a stretch of one window's length holds no more than two windows' worth.
  ghost predicate WithinRate(history: seq<Event>, most: int, window: int) {
    forall from: int :: CountDuring(history, from, window) <= 2 * most
  }

  lemma NewWindow(history: seq<Event>, s: State, e: Event, most: int, window: int)
    requires window > 0 && most >= 1 && Paced(history, s, most, window) && e.Failed? && Expired(s, e.at)
    ensures Paced(history + [e], Next(s, e, window), most, window)
  {
    SinceSnoc(history, e, e.at);
    SinceSnoc(history, e, e.at - window);
    NoneSince(history, e.at);
    if s.Counting? {
      CountLater(history, s.reset - window, e.at - window, window);
    }
  }

  lemma SameWindow(history: seq<Event>, s: State, e: Event, most: int, window: int)
    requires window > 0 && Paced(history, s, most, window) && e.Failed?
    requires !Expired(s, e.at) && s.count < most && s.reset - window <= e.at
    ensures Paced(history + [e], Next(s, e, window), most, window)
  {
    SinceSnoc(history, e, s.reset - window);
    SinceSnoc(history, e, s.reset - 2 * window);
  }

  lemma PaceStep(history: seq<Event>, s: State, e: Event, most: int, window: int)
    requires window > 0 && most >= 1 && Paced(history, s, most, window) && e.Failed?
    requires Room(s, e.at, most) && (s.Counting? ==> s.reset - window <= e.at)
    ensures Paced(history + [e], Next(s, e, window), most, window)
  {
    if Expired(s, e.at) {
      NewWindow(history, s, e, most, window);
    } else {
      SameWindow(history, s, e, most, window);
    }
  }

  lemma RateStep(history: seq<Event>, s: State, e: Event, most: int, window: int, from: int)
    requires window > 0 && most >= 1 && Paced(history, s, most, window) && e.Failed?
    requires CountDuring(history, from, window) <= 2 * most
    requires Room(s, e.at, most) && (s.Counting? ==> s.reset - window <= e.at)
    ensures CountDuring(history + [e], from, window) <= 2 * most
  {
    DuringSnoc(history, e, from, window);
    if s.Counting? && from <= e.at <= from + window {
      CountLater(history, if Expired(s, e.at) then s.reset - window else s.reset - 2 * window, from, window);
    }
  }

  // The window being counted began no later than the last failure.
  lemma {:induction false} WindowBegan(history: seq<Event>, window: int)
    requires InOrder(history) && history != []
    ensures var s := After(history, window);
            s.Counting? && s.reset - window <= history[|history|-1].at
  {
    if |history| > 1 {
      WindowBegan(history[..|history|-1], window);
    }
  }

  // Before the last failure of a guarded history, and what it then meets.
  lemma LastGuarded(history: seq<Event>, slack: nat, max: int, window: int)
    requires history != [] && Guarded(history, slack, max, window)
    ensures var n := |history| - 1;
            var s := After(history[..n], window);
            && history == history[..n] + [history[n]]
            && Guarded(history[..n], slack, max, window)
            && Room(s, history[n].at, Most(max) + slack)
            && (s.Counting? ==> s.reset - window <= history[n].at)
            && After(history, window) == Next(s, history[n], window)
  {
    var n := |history| - 1;
    var before := history[..n];
    assert history == before + [history[n]];
    GuardedLess(history, n, slack, max, window);
    AllowedHasRoom(history, n, slack, max, window);
    if before != [] {
      WindowBegan(before, window);
    }
  }

  lemma {:induction false} GuardedIsPaced(history: seq<Event>, slack: nat, max: int, window: int)
    requires window > 0 && Guarded(history, slack, max, window)
    ensures Paced(history, After(history, window), Most(max) + slack, window)
  {
    if history != [] {
      var n := |history| - 1;
      LastGuarded(history, slack, max, window);
      GuardedIsPaced(history[..n], slack, max, window);
      PaceStep(history[..n], After(history[..n], window), history[n], Most(max) + slack, window);
    }
  }

  lemma {:induction false} GuardedRate(history: seq<Event>, slack: nat, max: int, window: int, from: int)
    requires window > 0 && Guarded(history, slack, max, window)
    ensures CountDuring(history, from, window) <= 2 * (Most(max) + slack)
  {
    if history != [] {
      var n := |history| - 1;
      LastGuarded(history, slack, max, window);
      GuardedRate(history[..n], slack, max, window, from);
      GuardedIsPaced(history[..n], slack, max, window);
      RateStep(history[..n], After(history[..n], window), history[n], Most(max) + slack, window, from);
    }
  }

  // When each failure follows a check that said no and missed no more than so
  // many failures, no stretch of one window's length, ends included, holds
  // more than twice the maximum and that many.
  lemma RateIsBounded(history: seq<Event>, slack: nat, max: int, window: int)
    requires window > 0 && Guarded(history, slack, max, window)
    ensures WithinRate(history, Most(max) + slack, window)
  {
    forall from: int ensures CountDuring(history, from, window) <= 2 * (Most(max) + slack) {
      GuardedRate(history, slack, max, window, from);
    }
  }

  // ---- The bound is reached

  function Burst(key: Key, at: int, n: nat): seq<Event> {
    seq(n, _ => Failed(key, at))
  }

  lemma BurstStep(key: Key, at: int, n: nat)
    requires n > 0
    ensures Burst(key, at, n) == Burst(key, at, n - 1) + [Failed(key, at)]
  {
  }

  // A burst at one time counts up within one window.
  lemma {:induction false} AfterBurst(history: seq<Event>, key: Key, at: int, n: nat, window: int)
    requires window > 0 && n > 0 && Expired(After(history, window), at)
    ensures After(history + Burst(key, at, n), window) == Counting(n, at + window)
  {
    BurstStep(key, at, n);
    assert history + Burst(key, at, n) == history + Burst(key, at, n - 1) + [Failed(key, at)];
    AfterSnoc(history + Burst(key, at, n - 1), Failed(key, at), window);
    if n > 1 {
      AfterBurst(history, key, at, n - 1, window);
    } else {
      assert history + Burst(key, at, 0) == history;
    }
  }

  // As many failures as allowed at the start of a window and again at its end.
  function TwoBursts(key: Key, n: nat, window: int): seq<Event> {
    Burst(key, 0, n) + Burst(key, window, n)
  }

  lemma TwoBurstsPrefix(key: Key, n: nat, window: int, i: nat)
    requires i <= 2 * n
    ensures i <= n ==> TwoBursts(key, n, window)[..i] == Burst(key, 0, i)
    ensures i > n ==> TwoBursts(key, n, window)[..i] == Burst(key, 0, n) + Burst(key, window, i - n)
  {
  }

  lemma AfterFirstBurst(key: Key, at: int, n: nat, window: int)
    requires window > 0 && n > 0
    ensures After(Burst(key, at, n), window) == Counting(n, at + window)
  {
    AfterBurst([], key, at, n, window);
    assert [] + Burst(key, at, n) == Burst(key, at, n);
  }

  lemma AfterTwoBursts(key: Key, n: nat, window: int, i: nat)
    requires window > 0 && 0 < i <= 2 * n
    ensures After(TwoBursts(key, n, window)[..i], window) ==
            if i <= n then Counting(i, window) else Counting(i - n, window + window)
  {
    TwoBurstsPrefix(key, n, window, i);
    AfterFirstBurst(key, 0, if i <= n then i else n, window);
    if i > n {
      AfterBurst(Burst(key, 0, n), key, window, i - n, window);
    }
  }

  // Each check misses the failures just before it, as many as it may.
  lemma TwoBurstsAllowed(key: Key, slack: nat, max: nat, window: int, i: nat)
    requires window > 0 && max >= 1 && i < 2 * (max + slack)
    ensures Allowed(TwoBursts(key, max + slack, window), i, slack, max, window)
  {
    var n := max + slack;
    var history := TwoBursts(key, n, window);
    var seen: nat := if i < slack then 0 else i - slack;
    if seen > 0 {
      AfterTwoBursts(key, n, window, seen);
    }
    assert history[i].at == if i < n then 0 else window;
    assert Saw(history, i, slack, max, window, seen, history[i].at);
  }

  // Twice the maximum and the slack in one window's length does happen.
  lemma RateIsReached(key: Key, slack: nat, max: nat, window: int)
    requires window > 0 && max >= 1
    ensures var history := TwoBursts(key, max + slack, window);
            && Guarded(history, slack, max, window)
            && CountDuring(history, 0, window) == 2 * (Most(max) + slack)
  {
    var history := TwoBursts(key, max + slack, window);
    forall i: nat | i < |history| ensures Allowed(history, i, slack, max, window) {
      TwoBurstsAllowed(key, slack, max, window, i);
    }
    FilterAll(During(0, window), history);
  }
}
