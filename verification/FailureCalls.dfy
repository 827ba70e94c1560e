// The calls a limiter gets, with the answers it gives, and the rate that
// callers who ask before they record stay within.
module FailureCalls {
  import opened Sequences
  import opened FailureHistory
  import opened FailureRate

  // Asking whether a key may go on, recording a failure, and clearing.
  datatype Call =
    | Ask(key: Key, at: int, open: bool)
    | Record(key: Key, at: int)
    | Forget(key: Key)

  function HistoryOf(calls: seq<Call>): seq<Event> {
    if calls == [] then []
    else
      var before, c := HistoryOf(calls[..|calls|-1]), calls[|calls|-1];
      match c
      case Ask(_, _, _) => before
      case Record(key, at) => before + [Failed(key, at)]
      case Forget(key) => before + [Cleared(key)]
  }

  // Every answer is read off the key's own history.
  predicate Answered(calls: seq<Call>, max: int, window: int) {
    calls == [] ||
    var n := |calls| - 1;
    && Answered(calls[..n], max, window)
    && (calls[n].Ask? ==>
          calls[n].open == !Blocked(StateOf(HistoryOf(calls[..n]), calls[n].key, window), max, calls[n].at))
  }

  // No call is later than the clock, nor than the calls after it.
  predicate Timely(calls: seq<Call>, clock: int) {
    calls == [] ||
    var c := calls[|calls|-1];
    (c.Forget? || c.at <= clock) && Timely(calls[..|calls|-1], if c.Forget? then clock else c.at)
  }

  lemma CallsSnoc(calls: seq<Call>, c: Call, max: int, window: int, clock: int, later: int)
    requires Answered(calls, max, window) && Timely(calls, clock) && clock <= later
    requires c.Ask? ==> c.open == !Blocked(StateOf(HistoryOf(calls), c.key, window), max, c.at)
    requires !c.Forget? ==> c.at == later
    ensures Answered(calls + [c], max, window) && Timely(calls + [c], later)
    ensures HistoryOf(calls + [c]) ==
            match c
            case Ask(_, _, _) => HistoryOf(calls)
            case Record(key, at) => HistoryOf(calls) + [Failed(key, at)]
            case Forget(key) => HistoryOf(calls) + [Cleared(key)]
  {
    assert (calls + [c])[..|calls|] == calls;
    TimelyLater(calls, clock, later);
  }

  lemma {:induction false} TimelyLater(calls: seq<Call>, clock: int, later: int)
    requires Timely(calls, clock) && clock <= later
    ensures Timely(calls, later)
  {
    if calls != [] && calls[|calls|-1].Forget? {
      TimelyLater(calls[..|calls|-1], clock, later);
    }
  }

  // ---- Asking first

  // A caller that records asked before, was told the key was open, and missed
  // at most so many of its failures since.
  ghost predicate AskedAt(calls: seq<Call>, j: nat, key: Key, slack: nat) {
    && j < |calls| && calls[j].Ask? && calls[j].key == key && calls[j].open
    && |Own(HistoryOf(calls), key)| <= |Own(HistoryOf(calls[..j]), key)| + slack
  }

  // Each failure of the key was asked for first, and it is never cleared.
  ghost predicate AskedFirst(calls: seq<Call>, key: Key, slack: nat) {
    calls == [] ||
    var n := |calls| - 1;
    && AskedFirst(calls[..n], key, slack)
    && calls[n] != Forget(key)
    && (calls[n].Record? && calls[n].key == key ==> exists j: nat :: AskedAt(calls[..n], j, key, slack))
  }

  lemma OwnOfLast(calls: seq<Call>, key: Key)
    requires calls != []
    ensures var n := |calls| - 1;
            var before := Own(HistoryOf(calls[..n]), key);
            Own(HistoryOf(calls), key) ==
            if calls[n].key != key || calls[n].Ask? then before
            else before + [if calls[n].Record? then Failed(key, calls[n].at) else Cleared(key)]
  {
    var n := |calls| - 1;
    var c := calls[n];
    var past := HistoryOf(calls[..n]);
    if !c.Ask? {
      var e := if c.Record? then Failed(c.key, c.at) else Cleared(c.key);
      FilterAppend(Concerns(key), past, [e]);
      assert Own(past, key) + [] == Own(past, key);
    }
  }

  lemma {:induction false} OwnGrows(calls: seq<Call>, j: nat, key: Key)
    requires j <= |calls|
    ensures var early, late := Own(HistoryOf(calls[..j]), key), Own(HistoryOf(calls), key);
            |early| <= |late| && late[..|early|] == early
  {
    if j == |calls| {
      assert calls[..j] == calls;
    } else {
      var n := |calls| - 1;
      OwnGrows(calls[..n], j, key);
      assert calls[..n][..j] == calls[..j];
      OwnOfLast(calls, key);
    }
  }

  lemma {:induction false} AnswerAt(calls: seq<Call>, j: nat, max: int, window: int)
    requires Answered(calls, max, window) && j < |calls| && calls[j].Ask?
    ensures calls[j].open == !Blocked(StateOf(HistoryOf(calls[..j]), calls[j].key, window), max, calls[j].at)
  {
    var n := |calls| - 1;
    if j < n {
      AnswerAt(calls[..n], j, max, window);
      assert calls[..n][..j] == calls[..j];
    }
  }

  lemma {:induction false} NoLater(calls: seq<Call>, j: nat, clock: int)
    requires Timely(calls, clock) && j < |calls| && !calls[j].Forget?
    ensures calls[j].at <= clock
  {
    var n := |calls| - 1;
    if j < n {
      NoLater(calls[..n], j, if calls[n].Forget? then clock else calls[n].at);
    }
  }

  // A key's own failures are no later than the clock.
  lemma {:induction false} FailuresNoLater(calls: seq<Call>, key: Key, clock: int)
    requires Timely(calls, clock)
    ensures forall i :: 0 <= i < |Own(HistoryOf(calls), key)| ==>
              var e := Own(HistoryOf(calls), key)[i];
              e.Failed? ==> e.at <= clock
  {
    if calls != [] {
      var n := |calls| - 1;
      FailuresNoLater(calls[..n], key, if calls[n].Forget? then clock else calls[n].at);
      OwnOfLast(calls, key);
    }
  }

  // Recording after asking is what guards a history.
  lemma RecordAllowed(calls: seq<Call>, j: nat, key: Key, at: int, slack: nat, max: int, window: int)
    requires Answered(calls, max, window) && Timely(calls, at) && AskedAt(calls, j, key, slack)
    ensures var own := Own(HistoryOf(calls), key);
            Allowed(own + [Failed(key, at)], |own|, slack, max, window)
  {
    var own, early := Own(HistoryOf(calls), key), Own(HistoryOf(calls[..j]), key);
    OwnGrows(calls, j, key);
    AnswerAt(calls, j, max, window);
    NoLater(calls, j, at);
    var more := own + [Failed(key, at)];
    assert more[..|early|] == early;
    assert Saw(more, |own|, slack, max, window, |early|, calls[j].at);
  }

  lemma {:induction false} AskedIsGuarded(calls: seq<Call>, key: Key, slack: nat, max: int, window: int, clock: int)
    requires Answered(calls, max, window) && Timely(calls, clock) && AskedFirst(calls, key, slack)
    ensures Guarded(Own(HistoryOf(calls), key), slack, max, window)
  {
    if calls != [] {
      var n := |calls| - 1;
      var c := calls[n];
      var at := if c.Forget? then clock else c.at;
      var own := Own(HistoryOf(calls[..n]), key);
      AskedIsGuarded(calls[..n], key, slack, max, window, at);
      OwnOfLast(calls, key);
      if c.Record? && c.key == key {
        var j: nat :| AskedAt(calls[..n], j, key, slack);
        RecordAllowed(calls[..n], j, key, at, slack, max, window);
        FailuresNoLater(calls[..n], key, at);
        GuardedMore(own, Failed(key, at), slack, max, window);
      }
    }
  }
}
