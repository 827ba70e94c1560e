// Counting failures per key in fixed windows: the limiter as it runs, with
// one map of entries it prunes, and the history of each key it stands for.
module FailureLimiter {
  import opened FailureHistory
  import opened FailureRate
  import opened FailureCalls

  datatype Entry = Entry(count: int, reset: int)

  // Past this many entries the expired ones are dropped.
  const PRUNE_ABOVE := 10_000

  // An entry holds a key's state; it may be missing once that has expired.
  ghost predicate Stands(entries: map<Key, Entry>, key: Key, s: State, clock: int) {
    if key in entries then s == Counting(entries[key].count, entries[key].reset)
    else Expired(s, clock)
  }

  ghost predicate Stand(entries: map<Key, Entry>, history: seq<Event>, window: int, clock: int) {
    forall key: Key :: Stands(entries, key, StateOf(history, key, window), clock)
  }

  class Limiter {
    const max: int
    const window: int
    var entries: map<Key, Entry>
    // Every call so far, for any key, and the latest time seen.
    ghost var calls: seq<Call>
    ghost var clock: int

    ghost predicate Valid()
      reads this
    {
      Stand(entries, HistoryOf(calls), window, clock) && Answered(calls, max, window) && Timely(calls, clock)
    }

    constructor (max: int, window: int, ghost now: int)
      ensures Valid() && calls == [] && clock == now && this.max == max && this.window == window
    {
      this.max, this.window, entries, calls, clock := max, window, map[], [], now;
    }

    // Whether a key is blocked, and for how long, is read off its own history.
    method IsBlocked(key: Key, now: int) returns (blocked: bool, wait: int)
      requires Valid() && now >= clock
      modifies this
      ensures Valid() && clock == now
      ensures calls == old(calls) + [Ask(key, now, !blocked)] && HistoryOf(calls) == old(HistoryOf(calls))
      ensures var s := StateOf(HistoryOf(calls), key, window);
              blocked == Blocked(s, max, now) && wait == Wait(s, now)
      ensures Answers(Own(HistoryOf(calls), key), window, max, now, blocked, wait)
    {
      AnswerTells(Own(HistoryOf(calls), key), window, max, now);
      blocked, wait := Look(key, now);
      CallsSnoc(calls, Ask(key, now, !blocked), max, window, clock, now);
      calls, clock := calls + [Ask(key, now, !blocked)], now;
    }

    // The answer, and an expired entry dropped on the way.
    method Look(key: Key, now: int) returns (blocked: bool, wait: int)
      requires Stand(entries, HistoryOf(calls), window, clock) && now >= clock
      modifies this`entries
      ensures Stand(entries, HistoryOf(calls), window, now)
      ensures var s := StateOf(HistoryOf(calls), key, window);
              blocked == Blocked(s, max, now) && wait == Wait(s, now)
    {
      if key !in entries {
        return false, 0;
      }
      var e := entries[key];
      if now >= e.reset {
        entries := entries - {key};
        return false, 0;
      }
      return e.count >= max, e.reset - now;
    }

    method Fail(key: Key, now: int)
      requires Valid() && now >= clock
      modifies this
      ensures Valid() && clock == now
      ensures calls == old(calls) + [Record(key, now)] && HistoryOf(calls) == old(HistoryOf(calls)) + [Failed(key, now)]
    {
      Count(key, now);
      CallsSnoc(calls, Record(key, now), max, window, clock, now);
      calls, clock := calls + [Record(key, now)], now;
    }

    method Count(key: Key, now: int)
      requires Stand(entries, HistoryOf(calls), window, clock) && now >= clock
      modifies this`entries
      ensures Stand(entries, HistoryOf(calls) + [Failed(key, now)], window, now)
    {
      forall k: Key ensures StateOf(HistoryOf(calls) + [Failed(key, now)], k, window) ==
        if k == key then Next(StateOf(HistoryOf(calls), k, window), Failed(key, now), window)
        else StateOf(HistoryOf(calls), k, window)
      {
        EventMovesOne(HistoryOf(calls), Failed(key, now), k, window);
      }
      if key !in entries || now >= entries[key].reset {
        if |entries| > PRUNE_ABOVE {
          Prune(now);
        }
        entries := entries[key := Entry(0, now + window)];
      }
      entries := entries[key := entries[key].(count := entries[key].count + 1)];
    }

    method Clear(key: Key)
      requires Valid()
      modifies this
      ensures Valid() && clock == old(clock)
      ensures calls == old(calls) + [Forget(key)] && HistoryOf(calls) == old(HistoryOf(calls)) + [Cleared(key)]
    {
      forall k: Key ensures StateOf(HistoryOf(calls) + [Cleared(key)], k, window) ==
        if k == key then Fresh else StateOf(HistoryOf(calls), k, window)
      {
        EventMovesOne(HistoryOf(calls), Cleared(key), k, window);
      }
      CallsSnoc(calls, Forget(key), max, window, clock, clock);
      entries := entries - {key};
      calls := calls + [Forget(key)];
    }

    // Drops the expired entries and no others.
    method Prune(now: int)
      modifies this`entries
      ensures forall k :: k in entries <==> k in old(entries) && now < old(entries)[k].reset
      ensures forall k :: k in entries ==> entries[k] == old(entries)[k]
    {
      var keys := entries.Keys;
      while keys != {}
        invariant keys <= old(entries).Keys
        invariant forall k :: k in entries <==> k in old(entries) && (k in keys || now < old(entries)[k].reset)
        invariant forall k :: k in entries ==> entries[k] == old(entries)[k]
        decreases |keys|
      {
        var k :| k in keys;
        if now >= entries[k].reset {
          entries := entries - {k};
        }
        keys := keys - {k};
      }
    }

    // After any calls: a key whose failures were each asked for first, missing
    // at most so many, and never cleared, failed no more often than the bound.
    lemma RunStaysWithinRate(key: Key, slack: nat)
      requires Valid() && window > 0 && AskedFirst(calls, key, slack)
      ensures WithinRate(Own(HistoryOf(calls), key), Most(max) + slack, window)
    {
      AskedIsGuarded(calls, key, slack, max, window, clock);
      RateIsBounded(Own(HistoryOf(calls), key), slack, max, window);
    }
  }
}
