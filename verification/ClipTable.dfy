// The clips table of one video and its statements, which change one row at a
// time in no particular order while a unique index on the live numbers is
// checked after every row.
module ClipTable {
  import opened Sequences
  import opened ClipNumbers

  function Least(clips: seq<Clip>): int {
    if clips == [] then 0
    else
      var rest := Least(clips[1..]);
      if !clips[0].trashed && clips[0].idx < rest then clips[0].idx else rest
  }

  lemma {:induction false} LeastIsLeast(clips: seq<Clip>)
    ensures Least(clips) <= 0
    ensures forall k :: 0 <= k < |clips| && !clips[k].trashed ==> Least(clips) <= clips[k].idx
  {
    if clips != [] {
      LeastIsLeast(clips[1..]);
      assert forall k :: 0 < k < |clips| ==> clips[1..][k-1] == clips[k];
    }
  }

  function Rows(n: nat): (rows: set<nat>)
    ensures forall k: nat :: k in rows <==> k < n
  {
    if n == 0 then {} else Rows(n - 1) + {n - 1}
  }

  // What the rows done so far say about all of them.
  ghost predicate Swept(change: Clip -> Clip, todo: set<nat>, before: seq<Clip>, now: seq<Clip>) {
    && |now| == |before|
    && forall k: nat :: k < |now| ==> now[k] == if k in todo then before[k] else change(before[k])
  }

  function Undone(todo: set<nat>): nat -> bool {
    (k: nat) => k !in todo
  }

  lemma SweptIsPartly(change: Clip -> Clip, todo: set<nat>, before: seq<Clip>, now: seq<Clip>)
    requires Swept(change, todo, before, now)
    ensures now == Partly(change, Undone(todo), before)
  {
  }

  lemma SweptAll(change: Clip -> Clip, before: seq<Clip>, now: seq<Clip>)
    requires Swept(change, {}, before, now)
    ensures now == Map(change, before)
  {
  }

  class Table {
    var clips: seq<Clip>
    var frames: int
    var trashed: bool

    constructor (v: Video)
      ensures AsVideo() == v
    {
      clips, frames, trashed := v.clips, v.frames, v.trashed;
    }

    function AsVideo(): Video
      reads this
    {
      Video(clips, frames, trashed)
    }

    // Writes one row unless its number is another live row's.
    method SetIdx(k: nat, idx: int) returns (ok: bool)
      requires k < |clips| && !clips[k].trashed
      modifies this`clips
      ensures ok <==> NoClashAt(old(clips), k, idx)
      ensures clips == if ok then old(clips)[k := old(clips)[k].(idx := idx)] else old(clips)
    {
      for j := 0 to |clips|
        invariant forall i :: 0 <= i < j && i != k && !clips[i].trashed ==> clips[i].idx != idx
      {
        if j != k && !clips[j].trashed && clips[j].idx == idx {
          return false;
        }
      }
      clips := clips[k := clips[k].(idx := idx)];
      return true;
    }

    // One UPDATE of every live row, whatever order it takes them in.
    method Sweep(change: Clip -> Clip) returns (ok: bool)
      requires MovesNumbers(change) && NoClash(clips) && NeverClashes(change, clips)
      modifies this`clips
      ensures ok && clips == Map(change, old(clips)) && NoClash(clips)
    {
      ghost var before := clips;
      var todo := Rows(|clips|);
      while todo != {}
        invariant Swept(change, todo, before, clips) && NoClash(clips)
        invariant forall k: nat :: k in todo ==> k < |clips|
      {
        var k :| k in todo;
        SweepRow(change, todo, before, clips, k);
        todo := todo - {k};
        if !clips[k].trashed {
          ok := SetIdx(k, change(clips[k]).idx);
          if !ok {
            return;
          }
        }
      }
      SweptAll(change, before, clips);
      ok := true;
    }

    method Park() returns (ok: bool)
      requires NoClash(clips) && FromZero(clips)
      modifies this`clips
      ensures ok && clips == Map(Parked(), old(clips)) && NoClash(clips) && BelowZero(clips)
      ensures forall k :: 0 <= k < |clips| && !clips[k].trashed ==> clips[k].idx + old(clips)[k].idx == -1
    {
      forall moved: nat -> bool ensures NoClash(Partly(Parked(), moved, clips)) {
        ParkingNeverClashes(clips, moved);
      }
      ParkedMovesNumbers();
      ParkedIsBelow(clips);
      ok := Sweep(Parked());
    }

    method Number() returns (ok: bool)
      requires Unique(clips) && NoClash(clips) && BelowZero(clips)
      modifies this`clips
      ensures ok && clips == Renumbered(old(clips))
    {
      forall moved: nat -> bool ensures NoClash(Partly(Ranked(clips), moved, clips)) {
        NumberingParkedNeverClashes(clips, moved);
      }
      RankedMovesNumbers(clips);
      ok := Sweep(Ranked(clips));
    }

    // The position of a clip in or out of the trash.
    method Find(id: nat, trashed: bool) returns (found: bool, k: nat)
      ensures found == Has(clips, id, trashed)
      ensures found ==> k < |clips| && clips[k].id == id && clips[k].trashed == trashed
    {
      for j := 0 to |clips|
        invariant forall i :: 0 <= i < j ==> clips[i].id != id || clips[i].trashed != trashed
      {
        if clips[j].id == id && clips[j].trashed == trashed {
          return true, j;
        }
      }
      return false, 0;
    }

    // Takes the clip's frames off the video's count, trashes it, and closes
    // the gap in the numbers.
    method MoveToTrash(id: nat) returns (ok: bool)
      requires Sound(AsVideo())
      modifies this
      ensures ok == TrashClip(old(AsVideo()), id).Some?
      ensures AsVideo() == OrElse(TrashClip(old(AsVideo()), id), old(AsVideo()))
    {
      var k;
      ok, k := Find(id, false);
      if trashed || !ok {
        return false;
      }
      ghost var before := clips;
      CountAt(clips, k);
      frames := frames - clips[k].count;
      clips := clips[k := clips[k].(trashed := true)];
      MarkAt(before, k, true);
      NumberedNoClash(before);
      TrashNoClash(before, k);
      ok := Park();
      ParkedStays(Mark(before, id, true));
      MarkKeepsUnique(before, id, true);
      ok := Number();
    }

    // Puts the clip's frames back, and the clip below the parked others
    // until all are numbered.
    method BringBack(id: nat) returns (ok: bool)
      requires Sound(AsVideo())
      modifies this
      ensures ok == RestoreClip(old(AsVideo()), id).Some?
      ensures AsVideo() == OrElse(RestoreClip(old(AsVideo()), id), old(AsVideo()))
    {
      var k;
      ok, k := Find(id, true);
      if trashed || !ok {
        return false;
      }
      CountAt(clips, k);
      frames := frames + clips[k].count;
      NumberedNoClash(clips);
      ok := ParkBelow(k);
      ok := Number();
    }

    // Parks the live clips and puts a trashed one below them.
    method ParkBelow(k: nat) returns (ok: bool)
      requires Unique(clips) && NoClash(clips) && FromZero(clips) && k < |clips| && clips[k].trashed
      modifies this`clips
      ensures ok && Unique(clips) && NoClash(clips) && BelowZero(clips)
      ensures Renumbered(clips) == Renumbered(Mark(old(clips), old(clips)[k].id, false))
    {
      ghost var before := clips;
      ok := Park();
      RestoredBelow(clips, k);
      BackParked(before, k, Least(clips) - 1);
      clips := clips[k := clips[k].(trashed := false, idx := Least(clips) - 1)];
    }
  }

  ghost predicate NoClashAt(clips: seq<Clip>, k: nat, idx: int) {
    forall i :: 0 <= i < |clips| && i != k && !clips[i].trashed ==> clips[i].idx != idx
  }

  // A change to live clips' numbers and nothing else.
  predicate MovesNumber(change: Clip -> Clip, c: Clip) {
    change(c) == if c.trashed then c else c.(idx := change(c).idx)
  }

  ghost predicate MovesNumbers(change: Clip -> Clip) {
    forall c: Clip :: MovesNumber(change, c)
  }

  ghost predicate NeverClashes(change: Clip -> Clip, clips: seq<Clip>) {
    forall moved: nat -> bool :: NoClash(Partly(change, moved, clips))
  }

  lemma ParkedMovesNumbers()
    ensures MovesNumbers(Parked())
  {
  }

  lemma RankedMovesNumbers(clips: seq<Clip>)
    ensures MovesNumbers(Ranked(clips))
  {
  }

  // Doing one more row clashes with no other.
  lemma SweepRow(change: Clip -> Clip, todo: set<nat>, before: seq<Clip>, now: seq<Clip>, k: nat)
    requires MovesNumbers(change) && NeverClashes(change, before)
    requires Swept(change, todo, before, now) && k in todo && k < |now|
    ensures now[k] == before[k] && MovesNumber(change, now[k])
    ensures Swept(change, todo - {k}, before, now[k := change(now[k])])
    ensures NoClash(now[k := change(now[k])])
    ensures !now[k].trashed ==> NoClashAt(now, k, change(now[k]).idx)
    ensures now[k].trashed ==> now[k := change(now[k])] == now
  {
    var next := now[k := change(now[k])];
    assert MovesNumber(change, now[k]);
    SweptIsPartly(change, todo - {k}, before, next);
    assert NoClash(Partly(change, Undone(todo - {k}), before));
    if !now[k].trashed {
      forall i | 0 <= i < |now| && i != k && !now[i].trashed ensures now[i].idx != change(now[k]).idx {
        assert next[i] == now[i] && next[k] == change(now[k]);
        if i < k {
          assert next[i].idx != next[k].idx;
        } else {
          assert next[k].idx != next[i].idx;
        }
      }
    }
  }

  lemma {:induction false} CountAt(clips: seq<Clip>, k: nat)
    requires Unique(clips) && k < |clips|
    ensures CountOf(clips, clips[k].id) == clips[k].count
  {
    UniqueRest(clips);
    if k > 0 {
      IdsDiffer(clips, 0, k);
      CountAt(clips[1..], k - 1);
    }
  }

  lemma MarkAt(clips: seq<Clip>, k: nat, trashed: bool)
    requires Unique(clips) && k < |clips|
    ensures Mark(clips, clips[k].id, trashed) == clips[k := clips[k].(trashed := trashed)]
  {
    forall i | 0 <= i < |clips| ensures i != k ==> clips[i].id != clips[k].id {
      if i < k {
        IdsDiffer(clips, i, k);
      } else if k < i {
        IdsDiffer(clips, k, i);
      }
    }
  }

  lemma TrashNoClash(clips: seq<Clip>, k: nat)
    requires NoClash(clips) && FromZero(clips) && k < |clips|
    ensures var left := clips[k := clips[k].(trashed := true)];
            NoClash(left) && FromZero(left)
  {
  }

  lemma ParkedStays(clips: seq<Clip>)
    ensures Renumbered(Map(Parked(), clips)) == Renumbered(clips)
    ensures Unique(clips) ==> Unique(Map(Parked(), clips))
  {
    RenumberIgnoresNumbers(clips, Map(Parked(), clips));
    assert Map(IdOf(), Map(Parked(), clips)) == Map(IdOf(), clips);
  }

  lemma RestoredBelow(clips: seq<Clip>, k: nat)
    requires NoClash(clips) && BelowZero(clips) && k < |clips|
    ensures var back := clips[k := clips[k].(trashed := false, idx := Least(clips) - 1)];
            clips[k].trashed ==> NoClash(back) && BelowZero(back)
  {
    LeastIsLeast(clips);
  }

  lemma BackParked(clips: seq<Clip>, k: nat, idx: int)
    requires Unique(clips) && k < |clips|
    ensures var parked := Map(Parked(), clips);
            var back := parked[k := parked[k].(trashed := false, idx := idx)];
            Unique(back) && Renumbered(back) == Renumbered(Mark(clips, clips[k].id, false))
  {
    var parked := Map(Parked(), clips);
    var back := parked[k := parked[k].(trashed := false, idx := idx)];
    MarkAt(clips, k, false);
    MarkKeepsUnique(clips, clips[k].id, false);
    assert Map(IdOf(), back) == Map(IdOf(), clips);
    RenumberIgnoresNumbers(Mark(clips, clips[k].id, false), back);
  }
}
