// The ring of the newest log records, held in place of the whole log.
module LogBuffer {
  import opened Sequences
  import opened LogHistory
  import opened Remainders

  // The records of a ring, oldest first, when the oldest is at slot.
  function Unrolled<T>(ring: seq<T>, slot: nat): seq<T>
    requires slot <= |ring|
  {
    ring[slot..] + ring[..slot]
  }

  function Reversed<T>(s: seq<T>): seq<T> {
    seq(|s|, i requires 0 <= i < |s| => s[|s|-1-i])
  }

  lemma NewestPush<T>(log: seq<T>, r: T, size: nat)
    requires size > 0
    ensures Newest(log + [r], size) == (if |log| < size then log else Newest(log, size)[1..]) + [r]
  {
  }

  lemma OverwriteOldest<T>(ring: seq<T>, slot: nat, r: T)
    requires slot < |ring|
    ensures Unrolled(ring[slot := r], (slot + 1) % |ring|) == Unrolled(ring, slot)[1..] + [r]
  {
    if slot + 1 == |ring| {
      assert (slot + 1) % |ring| == 0;
    } else {
      assert (slot + 1) % |ring| == slot + 1;
    }
  }

  // Where the record i back from the newest is.
  function SlotOf(slot: nat, n: nat, i: nat): int {
    if i < slot then slot - 1 - i else slot - 1 - i + n
  }

  lemma SlotWraps(slot: nat, n: nat, i: nat)
    requires slot < n && i < n
    ensures (slot - 1 - i + 2 * n) % n == SlotOf(slot, n, i)
  {
    ModOf(slot - 1 - i + 2 * n, n, if i < slot then 2 else 1, SlotOf(slot, n, i));
  }

  // What is left of a batch leads to the goal.
  ghost predicate Leads(log: seq<Record>, batch: seq<Record>, i: nat, goal: seq<Record>) {
    i <= |batch| && IngestInto(log, batch[i..]) == goal
  }

  lemma LeadsStart(log: seq<Record>, batch: seq<Record>)
    ensures Leads(log, batch, 0, IngestInto(log, batch))
  {
    assert batch[0..] == batch;
  }

  lemma LeadsOn(log: seq<Record>, batch: seq<Record>, i: nat, goal: seq<Record>)
    requires Leads(log, batch, i, goal) && i < |batch|
    ensures Leads(Accept(log, batch[i]), batch, i + 1, goal)
  {
    assert batch[i..][0] == batch[i] && batch[i..][1..] == batch[i+1..];
  }

  lemma WindowRises(log: seq<Record>, size: nat)
    requires Rising(log)
    ensures Rising(Newest(log, size))
  {
  }

  // The matching records among the newest i of a window, newest first.
  function Back<T>(window: seq<T>, i: nat, keep: T -> bool): seq<T>
    requires i <= |window|
  {
    if i == 0 then []
    else
      var r := window[|window| - i];
      Back(window, i - 1, keep) + if keep(r) then [r] else []
  }

  lemma ReversedSnoc<T>(s: seq<T>, r: T)
    ensures Reversed(s + [r]) == [r] + Reversed(s)
  {
  }

  lemma FilterTail<T>(keep: T -> bool, s: seq<T>, k: nat)
    requires k < |s|
    ensures Filter(keep, s[k..]) == (if keep(s[k]) then [s[k]] else []) + Filter(keep, s[k+1..])
  {
    assert s[k..][1..] == s[k+1..];
  }

  lemma {:induction false} BackIsFilter<T>(window: seq<T>, i: nat, k: nat, keep: T -> bool)
    requires i + k == |window|
    ensures Reversed(Back(window, i, keep)) == Filter(keep, window[k..])
  {
    if i == 0 {
      assert window[k..] == [];
    } else {
      BackIsFilter(window, i - 1, k + 1, keep);
      FilterTail(keep, window, k);
      ReversedSnoc(Back(window, i - 1, keep), window[k]);
    }
  }

  // Reading further back adds only at the old end.
  lemma FurtherBack<T>(window: seq<T>, i: nat, keep: T -> bool)
    requires i <= |window|
    ensures Filter(keep, window) == Filter(keep, window[..|window| - i]) + Reversed(Back(window, i, keep))
  {
    BackIsFilter(window, i, |window| - i, keep);
    SplitAt(window, |window| - i);
    FilterAppend(keep, window[..|window| - i], window[|window| - i..]);
  }

  // Nothing wanted is left: the record before is too old.
  lemma StopAtOld(window: seq<Record>, i: nat, after: int, matches: Record -> bool, limit: int)
    requires Rising(window) && i < |window| && window[|window| - i - 1].num <= after
    requires var found := Back(window, i, Listed(after, matches));
             limit > 0 ==> |found| < limit
    ensures Reversed(Back(window, i, Listed(after, matches))) == Listing(window, after, matches, limit)
  {
    var keep, older := Listed(after, matches), window[..|window| - i];
    forall r | r in older ensures !keep(r) {
      var j :| 0 <= j < |older| && older[j] == r;
    }
    FilterNone(keep, older);
    FurtherBack(window, i, keep);
  }

  lemma StopAtLimit(window: seq<Record>, i: nat, after: int, matches: Record -> bool, limit: int)
    requires i <= |window| && 0 < limit == |Back(window, i, Listed(after, matches))|
    ensures Reversed(Back(window, i, Listed(after, matches))) == Listing(window, after, matches, limit)
  {
    FurtherBack(window, i, Listed(after, matches));
  }

  lemma StopAtEnd(window: seq<Record>, after: int, matches: Record -> bool, limit: int)
    requires limit > 0 ==> |Back(window, |window|, Listed(after, matches))| < limit
    ensures Reversed(Back(window, |window|, Listed(after, matches))) == Listing(window, after, matches, limit)
  {
    FurtherBack(window, |window|, Listed(after, matches));
    assert window[..0] == [];
  }

  class Buffer {
    // The slots of the ring, count of them in use.
    const records: array<Record>
    var count: nat
    // Where the next record goes once the ring is full.
    var nextSlot: nat
    var last: int
    // Every record ever accepted.
    ghost var log: seq<Record>

    // The ring holds the newest records of the log.
    ghost predicate Holds()
      reads this, records
    {
      && count <= records.Length
      && (count < records.Length ==> nextSlot == 0)
      && (0 < records.Length ==> nextSlot < records.Length)
      && nextSlot <= count
      && Unrolled(records[..count], nextSlot) == Newest(log, records.Length)
    }

    ghost predicate Valid()
      reads this, records
    {
      Holds() && Rising(log) && last == Last(log)
    }

    constructor (size: nat, blank: Record)
      ensures Valid() && log == [] && records.Length == size && fresh(records)
    {
      records := new Record[size](_ => blank);
      count, nextSlot, last, log := 0, 0, 0, [];
    }

    method Push(r: Record)
      requires Holds() && records.Length > 0
      modifies this, records
      ensures Holds() && log == old(log) + [r] && last == old(last)
    {
      NewestPush(log, r, records.Length);
      if count < records.Length {
        records[count] := r;
        count := count + 1;
        assert records[..count] == old(records[..count]) + [r];
      } else {
        OverwriteOldest(records[..], nextSlot, r);
        assert records[..count] == records[..];
        records[nextSlot] := r;
        nextSlot := (nextSlot + 1) % count;
        assert records[..] == old(records[..])[old(nextSlot) := r];
        assert records[..count] == records[..];
      }
      log := log + [r];
    }

    method Append(body: string)
      requires Valid() && records.Length > 0
      modifies this, records
      ensures Valid() && log == AppendTo(old(log), body)
      ensures last == old(last) + 1 && log == old(log) + [Record(last, body)]
    {
      AcceptKeeps(log, Record(Last(log) + 1, body));
      last := last + 1;
      Push(Record(last, body));
    }

    method AcceptNew(r: Record)
      requires Valid() && records.Length > 0
      modifies this, records
      ensures Valid() && log == Accept(old(log), r)
      ensures log == if r.num > old(last) then old(log) + [r] else old(log)
    {
      AcceptKeeps(log, r);
      if r.num <= last {
        return;
      }
      last := r.num;
      Push(r);
    }

    method Ingest(batch: seq<Record>)
      requires Valid() && records.Length > 0
      modifies this, records
      ensures Valid() && log == IngestInto(old(log), batch)
    {
      ghost var goal := IngestInto(log, batch);
      LeadsStart(log, batch);
      for i := 0 to |batch|
        invariant Valid() && Leads(log, batch, i, goal)
      {
        LeadsOn(log, batch, i, goal);
        AcceptNew(batch[i]);
      }
    }

    // The ring, read back from its newest record, is the window.
    ghost predicate Shows(window: seq<Record>)
      reads this, records
    {
      && |window| == count <= records.Length
      && (count > 0 ==> nextSlot < count)
      && forall k: nat :: k < count ==> records[SlotOf(nextSlot, count, count - 1 - k)] == window[k]
    }

    lemma HoldsShows()
      requires Holds()
      ensures Shows(Newest(log, records.Length))
    {
    }

    method RecordBack(i: nat, ghost window: seq<Record>) returns (r: Record)
      requires Shows(window) && i < count
      ensures r == window[count-i-1]
    {
      SlotWraps(nextSlot, count, i);
      r := records[(nextSlot - 1 - i + 2 * count) % count];
    }

    // The matching records, newest first.
    method Collect(after: int, matches: Record -> bool, limit: int, ghost window: seq<Record>)
      returns (out: seq<Record>)
      requires Shows(window) && Rising(window)
      ensures Reversed(out) == Listing(window, after, matches, limit)
    {
      out := [];
      for i := 0 to count
        invariant |window| == count && out == Back(window, i, Listed(after, matches))
        invariant limit > 0 ==> |out| < limit
      {
        var r := RecordBack(i, window);
        if r.num <= after {
          StopAtOld(window, i, after, matches, limit);
          return;
        }
        if matches(r) {
          out := out + [r];
          if |out| == limit {
            StopAtLimit(window, i + 1, after, matches, limit);
            return;
          }
        }
      }
      StopAtEnd(window, after, matches, limit);
    }

    // The newest records after the number after that match, oldest first and
    // at most limit of them, and the newest number.
    method List(after: int, matches: Record -> bool, limit: int) returns (out: seq<Record>, newest: int)
      requires Valid()
      ensures out == Listing(Newest(log, records.Length), after, matches, limit)
      ensures newest == Last(log)
    {
      WindowRises(log, records.Length);
      HoldsShows();
      out := Collect(after, matches, limit, Newest(log, records.Length));
      out, newest := Reversed(out), last;
    }
  }
}
