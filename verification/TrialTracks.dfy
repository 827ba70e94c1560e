// What is fed to the linker and what becomes of its groups: detections on top
// of a box already there are dropped, and a trial's boxes are numbered into
// tracks.
module TrialTracks {
  import opened Sequences
  import opened Geometry
  import opened LinkTracks
  import Linker

  predicate Covers(overlap: Overlap, box: Rect, boxes: seq<Rect>) {
    exists k :: 0 <= k < |boxes| && overlap(box, boxes[k]) > DUPLICATE_IOU
  }

  method Overlaps(overlap: Overlap, box: Rect, boxes: seq<Rect>) returns (covered: bool)
    ensures covered == Covers(overlap, box, boxes)
    ensures covered <==> exists b :: b in boxes && overlap(box, b) > DUPLICATE_IOU
  {
    for k := 0 to |boxes|
      invariant forall j :: 0 <= j < k ==> overlap(box, boxes[j]) <= DUPLICATE_IOU
    {
      if overlap(box, boxes[k]) > DUPLICATE_IOU {
        assert boxes[k] in boxes;
        return true;
      }
    }
    return false;
  }

  function BoxesOn(existing: map<nat, seq<Rect>>, frame: nat): seq<Rect> {
    if frame in existing then existing[frame] else []
  }

  lemma CoversIff(overlap: Overlap, box: Rect, boxes: seq<Rect>)
    ensures Covers(overlap, box, boxes) <==> exists b :: b in boxes && overlap(box, b) > DUPLICATE_IOU
  {
    if Covers(overlap, box, boxes) {
      var k :| 0 <= k < |boxes| && overlap(box, boxes[k]) > DUPLICATE_IOU;
      assert boxes[k] in boxes;
    }
  }

  function Uncovered(overlap: Overlap, existing: map<nat, seq<Rect>>): Detection -> bool {
    (d: Detection) => !Covers(overlap, d.box, BoxesOn(existing, d.frame))
  }

  method DropCovered(dets: seq<Detection>, existing: map<nat, seq<Rect>>, overlap: Overlap)
    returns (out: seq<Detection>)
    ensures out == Filter(Uncovered(overlap, existing), dets)
    ensures forall d :: d in out <==> d in dets && (d.frame in existing ==>
                          forall b :: b in existing[d.frame] ==> overlap(d.box, b) <= DUPLICATE_IOU)
  {
    forall d ensures Uncovered(overlap, existing)(d) <==>
                     (d.frame in existing ==> forall b :: b in existing[d.frame] ==> overlap(d.box, b) <= DUPLICATE_IOU)
    {
      CoversIff(overlap, d.box, BoxesOn(existing, d.frame));
    }
    out := [];
    ghost var keep := Uncovered(overlap, existing);
    for i := 0 to |dets|
      invariant out == Filter(keep, dets[..i])
    {
      FilterSnoc(keep, dets, i);
      var covered := Overlaps(overlap, dets[i].box, BoxesOn(existing, dets[i].frame));
      assert keep(dets[i]) == !covered;
      if !covered {
        out := out + [dets[i]];
      }
    }
    assert dets[..|dets|] == dets;
  }

  // ---- Track numbers

  // A row and the number of the track it is in.
  datatype Stamp = Stamp(row: nat, track: nat)

  function StampWith(track: nat): nat -> Stamp {
    (i: nat) => Stamp(i, track)
  }

  function RowOf(): Stamp -> nat {
    (s: Stamp) => s.row
  }

  // The groups numbered from first on.
  function Stamps(groups: seq<seq<nat>>, first: nat): seq<Stamp> {
    if groups == [] then [] else Map(StampWith(first), groups[0]) + Stamps(groups[1..], first + 1)
  }

  lemma {:induction false} StampRows(groups: seq<seq<nat>>, first: nat)
    ensures Map(RowOf(), Stamps(groups, first)) == Flatten(groups)
  {
    if groups != [] {
      StampRows(groups[1..], first + 1);
      MapAppend(RowOf(), Map(StampWith(first), groups[0]), Stamps(groups[1..], first + 1));
      assert Map(RowOf(), Map(StampWith(first), groups[0])) == groups[0];
    }
  }

  lemma StampOf(track: nat, group: seq<nat>, s: Stamp)
    ensures s in Map(StampWith(track), group) <==> s.track == track && s.row in group
  {
    var stamps := Map(StampWith(track), group);
    if s.track == track && s.row in group {
      var k :| 0 <= k < |group| && group[k] == s.row;
      assert stamps[k] == s;
    }
  }

  lemma {:induction false} StampIff(groups: seq<seq<nat>>, first: nat, s: Stamp)
    ensures s in Stamps(groups, first) <==>
            first <= s.track < first + |groups| && s.row in groups[s.track - first]
  {
    if groups != [] {
      StampOf(first, groups[0], s);
      StampIff(groups[1..], first + 1, s);
      assert s in Stamps(groups, first) <==>
             s in Map(StampWith(first), groups[0]) || s in Stamps(groups[1..], first + 1);
      if first < s.track < first + |groups| {
        assert groups[1..][s.track - first - 1] == groups[s.track - first];
      }
    }
  }

  lemma {:induction false} StampsSnoc(groups: seq<seq<nat>>, first: nat, n: nat)
    requires n < |groups|
    ensures Stamps(groups[..n+1], first) == Stamps(groups[..n], first) + Map(StampWith(first + n), groups[n])
  {
    var upto, less := groups[..n+1], groups[..n];
    if n > 0 {
      assert upto[1..] == groups[1..][..n] && less[1..] == groups[1..][..n-1];
      StampsSnoc(groups[1..], first + 1, n - 1);
    } else {
      assert upto[1..] == [] && less == [];
    }
  }

  // A multiset of rows that holds each exactly once.
  lemma OnceEach(rows: seq<nat>, n: nat)
    requires multiset(rows) == multiset(Indices(n))
    ensures Distinct(rows) && forall i: nat :: i in rows <==> i < n
  {
    assert Distinct(Indices(n));
    DistinctMultiset(Indices(n), rows);
    forall i: nat ensures i in rows <==> i < n {
      assert i in rows <==> i in multiset(rows);
      if i < n {
        assert Indices(n)[i] == i;
      }
    }
  }

  lemma SameRowSameStamp(stamps: seq<Stamp>, a: Stamp, b: Stamp)
    requires Distinct(Map(RowOf(), stamps)) && a in stamps && b in stamps && a.row == b.row
    ensures a == b
  {
    var rows := Map(RowOf(), stamps);
    var i :| 0 <= i < |stamps| && stamps[i] == a;
    var j :| 0 <= j < |stamps| && stamps[j] == b;
    assert rows[i] == rows[j];
  }

  // The track number of a row.
  ghost predicate Numbered(stamps: seq<Stamp>, row: nat, track: nat) {
    Stamp(row, track) in stamps
  }

  predicate InGroup(groups: seq<seq<nat>>, row: nat, track: nat) {
    1 <= track <= |groups| && row in groups[track - 1]
  }

  ghost predicate HasNumber(stamps: seq<Stamp>, row: nat) {
    exists t :: Numbered(stamps, row, t)
  }

  // Every row has exactly one track number, that of its group.
  ghost predicate NumbersRows(stamps: seq<Stamp>, groups: seq<seq<nat>>, n: nat) {
    && (forall i: nat :: HasNumber(stamps, i) <==> i < n)
    && (forall i: nat, t: nat, u: nat :: Numbered(stamps, i, t) && Numbered(stamps, i, u) ==> t == u)
    && (forall i: nat, t: nat :: Numbered(stamps, i, t) <==> InGroup(groups, i, t))
  }

  lemma NumberedRow(stamps: seq<Stamp>, row: nat)
    ensures HasNumber(stamps, row) <==> row in Map(RowOf(), stamps)
  {
    var rows := Map(RowOf(), stamps);
    if row in rows {
      var k :| 0 <= k < |stamps| && rows[k] == row;
      assert stamps[k] == Stamp(row, stamps[k].track);
      assert Numbered(stamps, row, stamps[k].track);
    }
    if HasNumber(stamps, row) {
      var t: nat :| Numbered(stamps, row, t);
      var k :| 0 <= k < |stamps| && stamps[k] == Stamp(row, t);
      assert rows[k] == row;
    }
  }

  lemma PartitionNumbers(groups: seq<seq<nat>>, n: nat)
    requires Holds(groups, multiset(Indices(n)))
    ensures NumbersRows(Stamps(groups, 1), groups, n)
  {
    var stamps := Stamps(groups, 1);
    StampRows(groups, 1);
    OnceEach(Flatten(groups), n);
    forall i: nat ensures HasNumber(stamps, i) <==> i < n {
      NumberedRow(stamps, i);
    }
    forall i: nat, t: nat, u: nat | Numbered(stamps, i, t) && Numbered(stamps, i, u) ensures t == u {
      SameRowSameStamp(stamps, Stamp(i, t), Stamp(i, u));
    }
    forall i: nat, t: nat ensures Numbered(stamps, i, t) <==> InGroup(groups, i, t) {
      StampIff(groups, 1, Stamp(i, t));
    }
  }

  // Every box of a trial gets exactly one track number, a positive one, and
  // two boxes share it exactly when the linker grouped them together.
  lemma TrialNumbersEveryBox(dets: seq<Detection>, overlap: Overlap)
    ensures NumbersRows(Stamps(Linked(dets, overlap), 1), Linked(dets, overlap), |dets|)
  {
    LinkedIsPartition(dets, overlap);
    PartitionNumbers(Linked(dets, overlap), |dets|);
  }

  function IdAt(ids: seq<int>): Stamp -> int {
    (s: Stamp) => if s.row < |ids| then ids[s.row] else 0
  }

  function TrackOf(): Stamp -> nat {
    (s: Stamp) => s.track
  }

  method StampGroup(ids: seq<int>, group: seq<nat>, track: nat, outIds0: seq<int>, tracks0: seq<nat>,
                    ghost stamps: seq<Stamp>)
    returns (outIds: seq<int>, tracks: seq<nat>)
    requires outIds0 == Map(IdAt(ids), stamps) && tracks0 == Map(TrackOf(), stamps)
    requires forall k :: 0 <= k < |group| ==> group[k] < |ids|
    ensures outIds == Map(IdAt(ids), stamps + Map(StampWith(track), group))
    ensures tracks == Map(TrackOf(), stamps + Map(StampWith(track), group))
  {
    outIds, tracks := outIds0, tracks0;
    for k := 0 to |group|
      invariant outIds == Map(IdAt(ids), stamps + Map(StampWith(track), group[..k]))
      invariant tracks == Map(TrackOf(), stamps + Map(StampWith(track), group[..k]))
    {
      assert Map(StampWith(track), group[..k+1]) == Map(StampWith(track), group[..k]) + [Stamp(group[k], track)];
      outIds := outIds + [ids[group[k]]];
      tracks := tracks + [track];
    }
    assert group[..|group|] == group;
  }

  method StampGroups(ids: seq<int>, groups: seq<seq<nat>>) returns (outIds: seq<int>, tracks: seq<nat>)
    requires forall n :: 0 <= n < |groups| ==> Within(groups[n], |ids|)
    ensures outIds == Map(IdAt(ids), Stamps(groups, 1)) && tracks == Map(TrackOf(), Stamps(groups, 1))
  {
    outIds, tracks := [], [];
    for n := 0 to |groups|
      invariant outIds == Map(IdAt(ids), Stamps(groups[..n], 1)) && tracks == Map(TrackOf(), Stamps(groups[..n], 1))
    {
      StampsSnoc(groups, 1, n);
      outIds, tracks := StampGroup(ids, groups[n], n + 1, outIds, tracks, Stamps(groups[..n], 1));
    }
    assert groups[..|groups|] == groups;
  }

  predicate Within(rows: seq<nat>, n: nat) {
    forall k :: 0 <= k < |rows| ==> rows[k] < n
  }

  lemma GroupsWithin(groups: seq<seq<nat>>, n: nat, k: nat)
    requires NumbersRows(Stamps(groups, 1), groups, n) && k < |groups|
    ensures Within(groups[k], n)
  {
    forall j | 0 <= j < |groups[k]| ensures groups[k][j] < n {
      assert InGroup(groups, groups[k][j], k + 1);
      assert Numbered(Stamps(groups, 1), groups[k][j], k + 1);
      assert HasNumber(Stamps(groups, 1), groups[k][j]);
    }
  }

  // Each id has the number of the track its box is in.
  ghost predicate NumbersIds(ids: seq<int>, stamps: seq<Stamp>, outIds: seq<int>, tracks: seq<nat>) {
    && |outIds| == |tracks| == |stamps|
    && forall k :: 0 <= k < |stamps| ==>
         stamps[k].row < |ids| && outIds[k] == ids[stamps[k].row] && tracks[k] == stamps[k].track
  }

  lemma StampsNumber(ids: seq<int>, stamps: seq<Stamp>, groups: seq<seq<nat>>)
    requires NumbersRows(stamps, groups, |ids|)
    ensures NumbersIds(ids, stamps, Map(IdAt(ids), stamps), Map(TrackOf(), stamps))
  {
    forall k | 0 <= k < |stamps| ensures stamps[k].row < |ids| {
      assert Stamp(stamps[k].row, stamps[k].track) in stamps;
      assert Numbered(stamps, stamps[k].row, stamps[k].track);
      assert HasNumber(stamps, stamps[k].row);
    }
  }

  // linkTrial: the ids of the trial's boxes, each with its track number.
  method NumberTrial(ids: seq<int>, dets: seq<Detection>, overlap: Overlap) returns (outIds: seq<int>, tracks: seq<nat>)
    requires |ids| == |dets|
    ensures outIds == Map(IdAt(ids), Stamps(Linked(dets, overlap), 1))
    ensures tracks == Map(TrackOf(), Stamps(Linked(dets, overlap), 1))
    ensures exists stamps ::
              NumbersRows(stamps, Linked(dets, overlap), |ids|) && NumbersIds(ids, stamps, outIds, tracks)
  {
    var groups := Linker.Link(dets, overlap);
    TrialNumbersEveryBox(dets, overlap);
    forall n | 0 <= n < |groups| ensures Within(groups[n], |ids|) {
      GroupsWithin(groups, |ids|, n);
    }
    outIds, tracks := StampGroups(ids, groups);
    StampsNumber(ids, Stamps(groups, 1), groups);
  }
}
