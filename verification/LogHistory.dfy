// The log a buffer stands for, kept forever: what appending and ingesting add
// to it, and what a poller that lists its newest records sees.
module LogHistory {
  import opened Sequences

  datatype Record = Record(num: int, body: string)

  // The number of the newest record ever accepted.
  function Last(log: seq<Record>): int {
    if log == [] then 0 else log[|log|-1].num
  }

  function AppendTo(log: seq<Record>, body: string): seq<Record> {
    log + [Record(Last(log) + 1, body)]
  }

  function Accept(log: seq<Record>, r: Record): seq<Record> {
    if r.num <= Last(log) then log else log + [r]
  }

  function IngestInto(log: seq<Record>, batch: seq<Record>): seq<Record>
    decreases |batch|
  {
    if batch == [] then log else IngestInto(Accept(log, batch[0]), batch[1..])
  }

  // Numbered from above zero, each above the one before.
  ghost predicate Rising(log: seq<Record>) {
    && (forall i :: 0 <= i < |log| ==> 0 < log[i].num)
    && (forall i, j :: 0 <= i < j < |log| ==> log[i].num < log[j].num)
  }

  ghost predicate Extends(log: seq<Record>, longer: seq<Record>) {
    |log| <= |longer| && longer[..|log|] == log
  }

  lemma AcceptKeeps(log: seq<Record>, r: Record)
    requires Rising(log)
    ensures Rising(Accept(log, r)) && Extends(log, Accept(log, r))
    ensures Last(log) <= Last(Accept(log, r)) && r.num <= Last(Accept(log, r))
  {
    assert log != [] ==> 0 < log[|log|-1].num;
  }

  lemma ExtendsThrough(a: seq<Record>, b: seq<Record>, c: seq<Record>)
    requires Extends(a, b) && Extends(b, c)
    ensures Extends(a, c)
  {
    assert c[..|a|] == c[..|b|][..|a|];
  }

  // Ingesting leaves a rising log that holds the old one and has passed every
  // number in the batch.
  lemma {:induction false} IngestKeeps(log: seq<Record>, batch: seq<Record>)
    requires Rising(log)
    ensures var more := IngestInto(log, batch);
            Rising(more) && Extends(log, more) && Last(log) <= Last(more) && Passed(more, batch)
    decreases |batch|
  {
    if batch != [] {
      var next := Accept(log, batch[0]);
      AcceptKeeps(log, batch[0]);
      IngestKeeps(next, batch[1..]);
      ExtendsThrough(log, next, IngestInto(log, batch));
    }
  }

  // Every number in the batch is at or below the newest.
  ghost predicate Passed(log: seq<Record>, batch: seq<Record>) {
    forall k :: 0 <= k < |batch| ==> batch[k].num <= Last(log)
  }

  lemma {:induction false} PassedIsSkipped(log: seq<Record>, batch: seq<Record>)
    ensures Passed(log, batch) ==> IngestInto(log, batch) == log
  {
    if batch != [] && Passed(log, batch) {
      PassedIsSkipped(log, batch[1..]);
    }
  }

  lemma {:induction false} IngestAppend(log: seq<Record>, a: seq<Record>, b: seq<Record>)
    ensures IngestInto(log, a + b) == IngestInto(IngestInto(log, a), b)
    decreases |a|
  {
    if a == [] {
      assert a + b == b;
    } else {
      assert (a + b)[1..] == a[1..] + b;
      IngestAppend(Accept(log, a[0]), a[1..], b);
    }
  }

  // A resend that repeats records already ingested and goes on with new ones
  // adds just the new ones, in any order the records come.
  lemma ResendOverlaps(log: seq<Record>, a: seq<Record>, shared: seq<Record>, b: seq<Record>)
    requires Rising(log)
    ensures IngestInto(IngestInto(log, a + shared), shared + b) == IngestInto(log, a + shared + b)
  {
    var once := IngestInto(log, a + shared);
    IngestKeeps(log, a + shared);
    forall k | 0 <= k < |shared| ensures shared[k].num <= Last(once) {
      assert (a + shared)[|a| + k] == shared[k];
    }
    PassedIsSkipped(once, shared);
    IngestAppend(once, shared, b);
    IngestAppend(log, a + shared, b);
  }

  lemma {:induction false} LastIsMax(log: seq<Record>, batch: seq<Record>)
    ensures Last(log) <= Last(IngestInto(log, batch)) && Passed(IngestInto(log, batch), batch)
    ensures Last(IngestInto(log, batch)) == Last(log) ||
            exists k :: 0 <= k < |batch| && batch[k].num == Last(IngestInto(log, batch))
    decreases |batch|
  {
    if batch != [] {
      var next, rest := Accept(log, batch[0]), batch[1..];
      LastIsMax(next, rest);
      if k :| 0 <= k < |rest| && rest[k].num == Last(IngestInto(next, rest)) {
        assert batch[k+1] == rest[k];
      }
    }
  }

  lemma IngestOne(log: seq<Record>, r: Record)
    ensures IngestInto(log, [r]) == if r.num > Last(log) then log + [r] else log
  {
    assert [r][1..] == [];
    assert IngestInto(Accept(log, r), []) == Accept(log, r);
  }

  // One more record is kept, as it is and behind the others, exactly when its
  // number is above all before it.
  lemma IngestTells(log: seq<Record>, batch: seq<Record>, r: Record)
    ensures IngestInto(log, []) == log
    ensures IngestInto(log, batch + [r]) ==
            IngestInto(log, batch)
            + (if (log != [] ==> r.num > log[|log|-1].num) && (log == [] ==> r.num > 0)
                  && forall k :: 0 <= k < |batch| ==> r.num > batch[k].num then [r] else [])
  {
    var more := IngestInto(log, batch);
    LastIsMax(log, batch);
    IngestAppend(log, batch, [r]);
    IngestOne(more, r);
    assert more + [] == more;
  }

  // An appended record keeps its text and gets the number after the newest.
  lemma AppendTells(log: seq<Record>, body: string)
    requires Rising(log)
    ensures var more := AppendTo(log, body);
            && |more| == |log| + 1 && more[..|log|] == log && more[|log|].body == body
            && more[|log|].num == (if log == [] then 1 else log[|log|-1].num + 1)
            && forall r :: r in log ==> r.num < more[|log|].num
  {
    forall r | r in log ensures r.num <= Last(log) {
      var k :| 0 <= k < |log| && log[k] == r;
    }
  }

  // ---- Runs

  datatype Op = Append(body: string) | Ingest(batch: seq<Record>)

  function Do(log: seq<Record>, op: Op): seq<Record> {
    match op
    case Append(body) => AppendTo(log, body)
    case Ingest(batch) => IngestInto(log, batch)
  }

  function Run(log: seq<Record>, ops: seq<Op>): seq<Record>
    decreases |ops|
  {
    if ops == [] then log else Run(Do(log, ops[0]), ops[1..])
  }

  lemma DoKeeps(log: seq<Record>, op: Op)
    requires Rising(log)
    ensures Rising(Do(log, op)) && Extends(log, Do(log, op)) && Last(log) <= Last(Do(log, op))
  {
    match op
    case Append(body) => AcceptKeeps(log, Record(Last(log) + 1, body));
    case Ingest(batch) => IngestKeeps(log, batch);
  }

  // Over any run the log only grows and its numbers strictly increase.
  lemma {:induction false} RunKeeps(log: seq<Record>, ops: seq<Op>)
    requires Rising(log)
    ensures Rising(Run(log, ops)) && Extends(log, Run(log, ops)) && Last(log) <= Last(Run(log, ops))
    decreases |ops|
  {
    if ops != [] {
      DoKeeps(log, ops[0]);
      RunKeeps(Do(log, ops[0]), ops[1..]);
      ExtendsThrough(log, Do(log, ops[0]), Run(log, ops));
    }
  }

  // A batch sent again, at once or after anything else, changes nothing.
  lemma ResendChangesNothing(log: seq<Record>, batch: seq<Record>, between: seq<Op>)
    requires Rising(log)
    ensures var now := Run(IngestInto(log, batch), between);
            IngestInto(now, batch) == now
  {
    IngestKeeps(log, batch);
    RunKeeps(IngestInto(log, batch), between);
    PassedIsSkipped(Run(IngestInto(log, batch), between), batch);
  }

  // ---- Listing

  function Newest<T>(s: seq<T>, n: nat): seq<T> {
    if |s| <= n then s else s[|s|-n..]
  }

  // A limit of zero or less is no limit.
  function Limited<T>(s: seq<T>, limit: int): seq<T> {
    if limit > 0 then Newest(s, limit) else s
  }

  function Listed(after: int, matches: Record -> bool): Record -> bool {
    (r: Record) => r.num > after && matches(r)
  }

  // What a listing of a window returns: the newest that match, oldest first.
  function Listing(window: seq<Record>, after: int, matches: Record -> bool, limit: int): seq<Record> {
    Limited(Filter(Listed(after, matches), window), limit)
  }

  // The newest are the last ones, as many as asked for or all.
  lemma NewestTells<T>(s: seq<T>, n: nat)
    ensures |Newest(s, n)| == if |s| < n then |s| else n
    ensures s[..|s| - |Newest(s, n)|] + Newest(s, n) == s
  {
  }

  lemma FilterAround(keep: Record -> bool, s: seq<Record>, k: nat)
    requires k < |s|
    ensures Filter(keep, s) ==
            Filter(keep, s[..k]) + (if keep(s[k]) then [s[k]] else []) + Filter(keep, s[k+1..])
  {
    FilterSnoc(keep, s, k);
    SplitAt(s, k + 1);
    FilterAppend(keep, s[..k+1], s[k+1..]);
  }

  lemma NewestKeeps<T>(s: seq<T>, n: nat, x: T)
    ensures x in Newest(s, n) ==> x in s
  {
  }

  // A record is listed exactly when it is newer than the number asked for,
  // matches, and fewer than the limit of those behind it do.
  lemma ListingTells(window: seq<Record>, after: int, matches: Record -> bool, limit: int, k: nat)
    requires Rising(window) && k < |window|
    ensures window[k] in Listing(window, after, matches, limit) <==>
            && after < window[k].num && matches(window[k])
            && (limit > 0 ==> |set j: nat | k < j < |window| && after < window[j].num && matches(window[j])| < limit)
  {
    var wanted := Listed(after, matches);
    LaterCount(wanted, window, k);
    assert LaterOnes(wanted, window, k) == set j: nat | k < j < |window| && after < window[j].num && matches(window[j]);
    ListedIff(wanted, window, limit, k);
  }

  lemma ListedIff(wanted: Record -> bool, window: seq<Record>, limit: int, k: nat)
    requires Rising(window) && k < |window|
    ensures window[k] in Limited(Filter(wanted, window), limit) <==>
            wanted(window[k]) && (limit > 0 ==> |Filter(wanted, window[k+1..])| < limit)
  {
    FilterAround(wanted, window, k);
    if wanted(window[k]) {
      FilterRises(wanted, window);
      InNewest(Filter(wanted, window[..k]), window[k], Filter(wanted, window[k+1..]), limit);
    } else if limit > 0 {
      NewestKeeps(Filter(wanted, window), limit, window[k]);
    }
  }

  // They are listed oldest first.
  lemma ListingRises(window: seq<Record>, after: int, matches: Record -> bool, limit: int)
    requires Rising(window)
    ensures Rising(Listing(window, after, matches, limit))
  {
    FilterRises(Listed(after, matches), window);
    NewestRises(Filter(Listed(after, matches), window), limit);
  }

  ghost function LaterOnes(wanted: Record -> bool, window: seq<Record>, k: nat): set<nat> {
    set j: nat | k < j < |window| && wanted(window[j])
  }

  lemma {:induction false} LaterCount(wanted: Record -> bool, window: seq<Record>, k: nat)
    requires k < |window|
    ensures |Filter(wanted, window[k+1..])| == |LaterOnes(wanted, window, k)|
    decreases |window| - k
  {
    if k + 1 == |window| {
      assert LaterOnes(wanted, window, k) == {};
    } else {
      var rest := LaterOnes(wanted, window, k + 1);
      LaterCount(wanted, window, k + 1);
      assert window[k+1..][1..] == window[k+2..];
      assert LaterOnes(wanted, window, k) == if wanted(window[k+1]) then rest + {k + 1} else rest;
    }
  }

  lemma RisingRest(s: seq<Record>)
    requires Rising(s) && s != []
    ensures Rising(s[1..]) && forall r :: r in s[1..] ==> s[0].num < r.num
  {
    forall r | r in s[1..] ensures s[0].num < r.num {
      var k :| 0 <= k < |s[1..]| && s[1..][k] == r;
      assert s[0].num < s[k+1].num;
    }
  }

  lemma RisingCons(r: Record, s: seq<Record>)
    requires Rising(s) && 0 < r.num && forall x :: x in s ==> r.num < x.num
    ensures Rising([r] + s)
  {
  }

  lemma {:induction false} FilterRises(keep: Record -> bool, s: seq<Record>)
    requires Rising(s)
    ensures Rising(Filter(keep, s))
  {
    if s != [] {
      RisingRest(s);
      FilterRises(keep, s[1..]);
      if keep(s[0]) {
        RisingCons(s[0], Filter(keep, s[1..]));
      }
    }
  }

  lemma NewestRises(s: seq<Record>, limit: int)
    requires Rising(s)
    ensures Rising(Limited(s, limit))
  {
  }

  lemma InNewest(before: seq<Record>, r: Record, later: seq<Record>, limit: int)
    requires Rising(before + [r] + later)
    ensures r in Limited(before + [r] + later, limit) <==> limit > 0 ==> |later| < limit
  {
    var all := before + [r] + later;
    assert all[|before|] == r;
    assert forall k :: 0 <= k < |all| && all[k] == r ==> k == |before|;
    if limit > 0 && |all| > limit {
      var out := Newest(all, limit);
      assert forall k :: 0 <= k < |out| ==> out[k] == all[|all| - limit + k];
      if |later| < limit {
        assert out[limit - |later| - 1] == r;
      }
    }
  }

  lemma NewestOfAppend<T>(a: seq<T>, b: seq<T>, n: nat)
    ensures Newest(a + b, n) == Newest(a, if |b| <= n then n - |b| else 0) + Newest(b, n)
  {
  }

  lemma ListedOldAndNew(past: seq<Record>, added: seq<Record>, matches: Record -> bool)
    requires Rising(past + added)
    ensures forall r :: r in past ==> !Listed(Last(past), matches)(r)
    ensures forall r :: r in added ==> Listed(Last(past), matches)(r) == matches(r)
  {
    var log := past + added;
    forall r | r in past ensures r.num <= Last(past) {
      var k :| 0 <= k < |past| && past[k] == r;
      assert log[k] == past[k] && log[|past|-1] == past[|past|-1];
    }
    forall r | r in added ensures r.num > Last(past) {
      var k :| 0 <= k < |added| && added[k] == r;
      assert log[|past| + k] == r;
      if past != [] {
        assert log[|past|-1] == past[|past|-1];
      }
    }
  }

  // A poll after the newest number of the previous one lists only records
  // added since, the newest of those that match and are still held.
  lemma PollSeesNewest(past: seq<Record>, added: seq<Record>, size: nat, matches: Record -> bool, limit: int)
    requires Rising(past + added)
    ensures Listing(Newest(past + added, size), Last(past), matches, limit) ==
            Limited(Filter(matches, Newest(added, size)), limit)
  {
    var stale, held := Newest(past, if |added| <= size then size - |added| else 0), Newest(added, size);
    ListedOldAndNew(past, added, matches);
    NewestOfAppend(past, added, size);
    FilterOldAndNew(stale, held, Listed(Last(past), matches), matches);
  }

  lemma FilterOldAndNew<T(!new)>(a: seq<T>, b: seq<T>, keep: T -> bool, matches: T -> bool)
    requires (forall x :: x in a ==> !keep(x)) && (forall x :: x in b ==> keep(x) == matches(x))
    ensures Filter(keep, a + b) == Filter(matches, b)
  {
    FilterAppend(keep, a, b);
    FilterNone(keep, a);
    FilterSame(keep, matches, b);
  }

  // A listing keeps to its limit on every window exactly when the limit is
  // above zero.
  lemma LimitIsKept(limit: int)
    ensures (forall window, after, matches :: |Listing(window, after, matches, limit)| <= limit) <==> limit > 0
  {
    if limit <= 0 {
      var window := [Record(1, "")];
      assert window[1..] == [];
      assert Listing(window, 0, Everything(), limit) == window;
      assert |Listing(window, 0, Everything(), limit)| > limit;
    }
  }

  function Everything(): Record -> bool {
    (r: Record) => true
  }

  // So a poll of everything returns what was added exactly when no more was
  // added than the buffer and the limit hold.
  lemma PollSeesAll(past: seq<Record>, added: seq<Record>, size: nat, limit: int)
    requires Rising(past + added)
    ensures Listing(Newest(past + added, size), Last(past), Everything(), limit) == added <==>
            |added| <= size && (limit > 0 ==> |added| <= limit)
  {
    PollSeesNewest(past, added, size, Everything(), limit);
    FilterAll(Everything(), Newest(added, size));
  }

  // ---- A poller

  // All that a poller gets: after each round of changes it lists what is
  // newer than the last number it was given.
  function Polled(log: seq<Record>, rounds: seq<seq<Op>>, size: nat, matches: Record -> bool, limit: int): seq<Record>
    decreases |rounds|
  {
    if rounds == [] then []
    else
      var now := Run(log, rounds[0]);
      Listing(Newest(now, size), Last(log), matches, limit) + Polled(now, rounds[1..], size, matches, limit)
  }

  function AfterRounds(log: seq<Record>, rounds: seq<seq<Op>>): seq<Record>
    decreases |rounds|
  {
    if rounds == [] then log else AfterRounds(Run(log, rounds[0]), rounds[1..])
  }

  // No round adds more records than the buffer and the limit hold.
  ghost predicate Unhurried(log: seq<Record>, rounds: seq<seq<Op>>, most: nat)
    decreases |rounds|
  {
    rounds == [] || (|Run(log, rounds[0])| - |log| <= most && Unhurried(Run(log, rounds[0]), rounds[1..], most))
  }

  lemma {:induction false} RoundsExtend(log: seq<Record>, rounds: seq<seq<Op>>)
    requires Rising(log)
    ensures Extends(log, AfterRounds(log, rounds))
    decreases |rounds|
  {
    if rounds != [] {
      var now := Run(log, rounds[0]);
      RunKeeps(log, rounds[0]);
      RoundsExtend(now, rounds[1..]);
      ExtendsThrough(log, now, AfterRounds(log, rounds));
    }
  }

  // One unhurried poll returns exactly what matches among what was added.
  lemma PollInTime(log: seq<Record>, now: seq<Record>, size: nat, matches: Record -> bool, limit: int)
    requires Rising(now) && Extends(log, now)
    requires |now| - |log| <= size && (limit > 0 ==> |now| - |log| <= limit)
    ensures Listing(Newest(now, size), Last(log), matches, limit) == Filter(matches, now[|log|..])
  {
    var added := now[|log|..];
    assert now == log + added;
    PollSeesNewest(log, added, size, matches, limit);
  }

  // A poller that keeps up misses nothing and repeats nothing: its polls
  // together are the matching records added since it began, in order.
  lemma {:induction false} PollerMissesNothing(log: seq<Record>, rounds: seq<seq<Op>>, size: nat,
                                               matches: Record -> bool, limit: int)
    requires Rising(log)
    requires Unhurried(log, rounds, if 0 < limit < size then limit else size)
    ensures |log| <= |AfterRounds(log, rounds)|
    ensures Polled(log, rounds, size, matches, limit) == Filter(matches, AfterRounds(log, rounds)[|log|..])
    decreases |rounds|
  {
    if rounds != [] {
      var now, end := Run(log, rounds[0]), AfterRounds(log, rounds);
      RunKeeps(log, rounds[0]);
      PollInTime(log, now, size, matches, limit);
      PollerMissesNothing(now, rounds[1..], size, matches, limit);
      RoundsExtend(now, rounds[1..]);
      SplitAdded(log, now, end);
      FilterAppend(matches, now[|log|..], end[|now|..]);
    }
  }

  lemma SplitAdded(log: seq<Record>, now: seq<Record>, end: seq<Record>)
    requires Extends(log, now) && Extends(now, end)
    ensures end[|log|..] == now[|log|..] + end[|now|..]
  {
    assert end == now + end[|now|..];
  }
}
