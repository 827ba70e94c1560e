// The failures and clears of each key, and where they leave it.
module FailureHistory {
  import opened Sequences

  type Key = string

  datatype Event = Failed(key: Key, at: int) | Cleared(key: Key)

  // Where a key's own history leaves it: not counted, or with so many
  // failures in the window that ends at reset.
  datatype State = Fresh | Counting(count: int, reset: int)

  function Next(s: State, e: Event, window: int): State {
    match e
    case Cleared(_) => Fresh
    case Failed(_, at) =>
      if s.Fresh? || at >= s.reset then Counting(1, at + window) else s.(count := s.count + 1)
  }

  function After(history: seq<Event>, window: int): State {
    if history == [] then Fresh
    else Next(After(history[..|history|-1], window), history[|history|-1], window)
  }

  lemma AfterSnoc(history: seq<Event>, e: Event, window: int)
    ensures After(history + [e], window) == Next(After(history, window), e, window)
  {
    assert (history + [e])[..|history|] == history;
  }

  predicate Expired(s: State, now: int) {
    s.Fresh? || now >= s.reset
  }

  predicate Blocked(s: State, max: int, now: int) {
    !Expired(s, now) && s.count >= max
  }

  function Wait(s: State, now: int): int {
    if Expired(s, now) then 0 else s.reset - now
  }

  function Concerns(key: Key): Event -> bool {
    (e: Event) => e.key == key
  }

  // A key's own part of a history.
  function Own(history: seq<Event>, key: Key): seq<Event> {
    Filter(Concerns(key), history)
  }

  function StateOf(history: seq<Event>, key: Key, window: int): State {
    After(Own(history, key), window)
  }

  // An event moves its own key and no other.
  lemma EventMovesOne(history: seq<Event>, e: Event, key: Key, window: int)
    ensures StateOf(history + [e], key, window) ==
            if e.key == key then Next(StateOf(history, key, window), e, window) else StateOf(history, key, window)
  {
    FilterAppend(Concerns(key), history, [e]);
    assert Own(history, key) + [] == Own(history, key);
    if e.key == key {
      AfterSnoc(Own(history, key), e, window);
    }
  }

  // ---- Windows

  // The k-th event opened the window a key's failures are counted in: all
  // since then are failures before its end, and if one came right before it,
  // the window of that had ended.
  ghost predicate WindowFrom(own: seq<Event>, window: int, k: nat)
    decreases |own|, 0
  {
    && k < |own| && own[k].Failed?
    && (forall i :: k < i < |own| ==> own[i].Failed? && own[i].at < own[k].at + window)
    && (k > 0 && own[k-1].Failed? ==> Ended(own[..k], window, own[k].at))
  }

  ghost predicate Ended(own: seq<Event>, window: int, now: int)
    decreases |own|, 1
  {
    exists j: nat :: j < |own| && own[j].Failed? && WindowFrom(own, window, j) && own[j].at + window <= now
  }

  lemma WindowSnoc(own: seq<Event>, window: int, n: nat, k: nat)
    requires k < n == |own| - 1
    ensures WindowFrom(own, window, k) <==>
            WindowFrom(own[..n], window, k) && own[n].Failed? && own[n].at < own[k].at + window
  {
    assert own[..n][..k] == own[..k];
    assert forall i :: 0 <= i < n ==> own[..n][i] == own[i];
    if WindowFrom(own[..n], window, k) && own[n].Failed? && own[n].at < own[k].at + window {
      forall i | k < i < |own| ensures own[i].Failed? && own[i].at < own[k].at + window {
        assert i < n ==> own[..n][i] == own[i];
      }
    }
  }

  ghost predicate CountedFrom(own: seq<Event>, window: int, k: nat) {
    k < |own| && own[k].Failed? && After(own, window) == Counting(|own| - k, own[k].at + window)
  }

  // Where a key's history leaves it is where its last window began.
  lemma {:induction false} WindowIs(own: seq<Event>, window: int)
    ensures After(own, window).Fresh? <==> own == [] || own[|own|-1].Cleared?
    ensures forall k: nat :: WindowFrom(own, window, k) ==> CountedFrom(own, window, k)
    ensures After(own, window).Counting? ==> exists k: nat :: WindowFrom(own, window, k)
    decreases |own|
  {
    if own != [] && own[|own|-1].Failed? {
      var n := |own| - 1;
      WindowIs(own[..n], window);
      if Expired(After(own[..n], window), own[n].at) {
        OpensWindow(own, window, n);
      } else {
        StaysInWindow(own, window, n);
      }
    }
  }

  ghost predicate Known(own: seq<Event>, window: int) {
    && (After(own, window).Fresh? <==> own == [] || own[|own|-1].Cleared?)
    && (forall k: nat :: WindowFrom(own, window, k) ==> CountedFrom(own, window, k))
    && (After(own, window).Counting? ==> exists k: nat :: WindowFrom(own, window, k))
  }

  // No window is open once the state has expired, and none has ended before.
  lemma WindowsKnown(own: seq<Event>, window: int, now: int)
    requires Known(own, window)
    ensures Ended(own, window, now) <==> After(own, window).Counting? && Expired(After(own, window), now)
    ensures forall k: nat :: WindowFrom(own, window, k) ==>
              own[k].Failed? && (own[k].at + window <= now <==> Expired(After(own, window), now))
  {
    forall k: nat | WindowFrom(own, window, k)
      ensures own[k].Failed? && (own[k].at + window <= now <==> Expired(After(own, window), now))
      ensures After(own, window).Counting?
    {
      assert CountedFrom(own, window, k);
    }
    if After(own, window).Counting? {
      var k: nat :| WindowFrom(own, window, k);
    }
  }

  lemma OpensWindow(own: seq<Event>, window: int, n: nat)
    requires n == |own| - 1 && own[n].Failed? && Known(own[..n], window)
    requires Expired(After(own[..n], window), own[n].at)
    ensures WindowFrom(own, window, n) && forall k: nat :: WindowFrom(own, window, k) ==> k == n
  {
    WindowsKnown(own[..n], window, own[n].at);
    if n > 0 {
      assert own[..n][n-1] == own[n-1];
    }
    forall k: nat | WindowFrom(own, window, k) ensures k == n {
      if k < n {
        WindowSnoc(own, window, n, k);
      }
    }
  }

  lemma StaysInWindow(own: seq<Event>, window: int, n: nat)
    requires n == |own| - 1 && own[n].Failed? && Known(own[..n], window)
    requires !Expired(After(own[..n], window), own[n].at)
    ensures exists k: nat :: WindowFrom(own, window, k)
    ensures forall k: nat :: WindowFrom(own, window, k) ==> k < n && WindowFrom(own[..n], window, k)
  {
    WindowsKnown(own[..n], window, own[n].at);
    assert n > 0 && own[..n][n-1] == own[n-1];
    var j: nat :| WindowFrom(own[..n], window, j);
    WindowSnoc(own, window, n, j);
    forall k: nat | WindowFrom(own, window, k) ensures k < n && WindowFrom(own[..n], window, k) {
      if k < n {
        WindowSnoc(own, window, n, k);
      }
    }
  }

  // What a key is told, read off its own failures and clears: it is blocked
  // when its window is open and has as many failures as allowed, and the wait
  // is what is left of the window.
  ghost predicate Answers(own: seq<Event>, window: int, max: int, now: int, blocked: bool, wait: int) {
    && (forall k: nat :: Open(own, window, now, k) ==>
          (blocked <==> |own| - k >= max) && own[k].Failed? && now + wait == own[k].at + window)
    && ((forall k: nat :: !Open(own, window, now, k)) ==> !blocked && wait == 0)
  }

  ghost predicate Open(own: seq<Event>, window: int, now: int, k: nat) {
    WindowFrom(own, window, k) && own[k].Failed? && now < own[k].at + window
  }

  lemma AnswerTells(own: seq<Event>, window: int, max: int, now: int)
    ensures Answers(own, window, max, now, Blocked(After(own, window), max, now), Wait(After(own, window), now))
  {
    WindowIs(own, window);
    if !Expired(After(own, window), now) {
      var k: nat :| WindowFrom(own, window, k);
      assert CountedFrom(own, window, k);
      assert Open(own, window, now, k);
    }
    forall k: nat | Open(own, window, now, k) ensures CountedFrom(own, window, k) {
    }
  }
}
