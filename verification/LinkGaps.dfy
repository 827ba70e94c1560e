// How far apart two boxes of a track can be: one frame more than the frames a
// track may miss, and exactly when that happens.
module LinkGaps {
  import opened Sequences
  import opened StableSorting
  import opened GreedyMatching
  import opened Geometry
  import opened LinkTracks
  import opened LinkTargets

  // ---- Two detections

  function Weighs(c: Clip, x: nat, y: nat): Option<real> {
    Weigh(c, c.at(y).frameIdx)(y, [x])
  }

  lemma WeighsIffFollows(c: Clip, x: nat, y: nat)
    requires c.at(x).frameIdx <= c.at(y).frameIdx
    ensures Weighs(c, x, y).Some? <==> Follows(c, x, y)
  {
  }

  // A first frame starts a group for each of its detections.
  lemma FirstStep(c: Clip, frame: seq<nat>, idx: int)
    ensures Step(c, [], frame, idx) == Map(Start(), frame)
  {
    var ls := Map(IdItem(), frame);
    NoGroups(Weigh(c, idx), ls);
    assert Map(SeedItem(), []) == [];
    assert Joins(c, [], frame, idx) == [];
    FilterAll(Unjoined([]), frame);
    assert Map(Grow([]), []) == [];
    assert [] + Map(Start(), frame) == Map(Start(), frame);
  }

  lemma {:induction false} NoGroups(weigh: (nat, seq<nat>) -> Option<real>, ls: seq<Item<nat>>)
    ensures Candidates(weigh, ls, []) == []
  {
    if ls != [] {
      NoGroups(weigh, ls[1..]);
    }
  }

  lemma OneJoin(c: Clip, x: nat, y: nat)
    ensures Joins(c, [[x]], [y], c.at(y).frameIdx) ==
            if Weighs(c, x, y).Some? then [Edge(y, x, Weighs(c, x, y).value)] else []
  {
    var idx := c.at(y).frameIdx;
    var l, r := Item(y, y), Item(x, [x]);
    assert Map(IdItem(), [y]) == [l] && Map(SeedItem(), [[x]]) == [r];
    assert [l][1..] == [] && [r][1..] == [];
    assert Row(Weigh(c, idx), l, []) == [];
    assert Row(Weigh(c, idx), l, [r]) == if Weighs(c, x, y).Some? then [Edge(y, x, Weighs(c, x, y).value)] else [];
    var all := Candidates(Weigh(c, idx), [l], [r]);
    assert all == Row(Weigh(c, idx), l, [r]) + Candidates(Weigh(c, idx), [], [r]);
    OnlyEdge(all);
  }

  lemma OnlyEdge(edges: seq<Edge>)
    requires |edges| <= 1
    ensures Greedy(edges) == edges
  {
    if edges != [] {
      var e := edges[0];
      assert edges == [e] && edges[1..] == [];
      assert StableSort(Heavier, edges) == Insert(Heavier, e, []);
      PickOne(e);
    }
  }

  lemma PickOne(e: Edge)
    ensures Pick([e], {}, {}) == [e]
  {
    assert [e][1..] == [];
  }

  lemma ExtendJoined(x: nat, y: nat, w: real)
    ensures Extend([[x]], [y], [Edge(y, x, w)]) == [[x, y]]
  {
    var e := Edge(y, x, w);
    assert Filter(EndsAt(x), [e]) == [e] && Map(Left(), [e]) == [y];
    assert Filter(Unjoined([e]), [y]) == [];
    assert Grow([e])([x]) == [x, y];
  }

  lemma ExtendApart(x: nat, y: nat)
    ensures Extend([[x]], [y], []) == [[x], [y]]
  {
    assert Map(Left(), []) == [];
    assert Grow([])([x]) == [x];
    assert Filter(Unjoined([]), [y]) == [y];
  }

  lemma SecondStep(c: Clip, x: nat, y: nat)
    ensures Step(c, [[x]], [y], c.at(y).frameIdx) == if Weighs(c, x, y).Some? then [[x, y]] else [[x], [y]]
  {
    OneJoin(c, x, y);
    if Weighs(c, x, y).Some? {
      ExtendJoined(x, y, Weighs(c, x, y).value);
    } else {
      ExtendApart(x, y);
    }
  }

  // Two detections in frame order are one track exactly when one may follow
  // the other, at most one frame more than a track may miss behind it.
  lemma TwoLink(c: Clip, x: nat, y: nat)
    requires c.at(x).frameIdx <= c.at(y).frameIdx
    ensures LinkOrder(c, [], [x, y]) == if Follows(c, x, y) then [[x, y]] else [[x], [y]]
  {
    WeighsIffFollows(c, x, y);
    if c.at(y).frameIdx == c.at(x).frameIdx {
      SameFrame(c, x, y);
    } else {
      LaterFrame(c, x, y);
    }
  }

  lemma SameFrame(c: Clip, x: nat, y: nat)
    requires c.at(x).frameIdx == c.at(y).frameIdx
    ensures LinkOrder(c, [], [x, y]) == [[x], [y]]
  {
    LinkOneFrame(c, [], [x, y], c.at(x).frameIdx);
    FirstStep(c, [x, y], c.at(x).frameIdx);
    assert Map(Start(), [x, y]) == [[x], [y]];
  }

  lemma LaterFrame(c: Clip, x: nat, y: nat)
    requires c.at(x).frameIdx != c.at(y).frameIdx
    ensures LinkOrder(c, [], [x, y]) == if Weighs(c, x, y).Some? then [[x, y]] else [[x], [y]]
  {
    FirstApart(c, x, y);
    FirstOfTwo(c, x);
    LinkOneFrame(c, [[x]], [y], c.at(y).frameIdx);
    SecondStep(c, x, y);
  }

  lemma FirstOfTwo(c: Clip, x: nat)
    ensures Step(c, [], [x], c.at(x).frameIdx) == [[x]]
  {
    FirstStep(c, [x], c.at(x).frameIdx);
    assert Map(Start(), [x]) == [[x]];
  }

  lemma FirstApart(c: Clip, x: nat, y: nat)
    requires c.at(x).frameIdx != c.at(y).frameIdx
    ensures LinkOrder(c, [], [x, y]) == LinkOrder(c, Step(c, [], [x], c.at(x).frameIdx), [y])
  {
    var idx := c.at(x).frameIdx;
    assert [x, y][1..] == [y] && [x, y][..1] == [x];
    assert Run(c, idx, [y]) == 0;
    assert Run(c, idx, [x, y]) == 1;
    LinkOnce(c, [], [x, y], idx, 1);
  }

  lemma LinkOneFrame(c: Clip, groups: seq<seq<nat>>, frame: seq<nat>, idx: int)
    requires frame != [] && forall k :: 0 <= k < |frame| ==> c.at(frame[k]).frameIdx == idx
    ensures LinkOrder(c, groups, frame) == Step(c, groups, frame, idx)
  {
    RunsThrough(c, frame, idx);
    LinkOnce(c, groups, frame, idx, |frame|);
    LinkNothing(c, Step(c, groups, frame, idx), frame);
  }

  lemma {:induction false} RunsThrough(c: Clip, frame: seq<nat>, idx: int)
    requires forall k :: 0 <= k < |frame| ==> c.at(frame[k]).frameIdx == idx
    ensures Run(c, idx, frame) == |frame|
  {
    if frame != [] {
      RunsThrough(c, frame[1..], idx);
    }
  }

  lemma LinkNothing(c: Clip, groups: seq<seq<nat>>, frame: seq<nat>)
    ensures frame[..|frame|] == frame && LinkOrder(c, groups, frame[|frame|..]) == groups
  {
    assert frame[|frame|..] == [];
  }

  lemma SortOfTwo(before: (nat, nat) -> bool, x: nat, y: nat)
    ensures StableSort(before, [x, y]) == if before(y, x) then [y, x] else [x, y]
  {
    assert [x, y][1..] == [y] && [y][1..] == [];
    assert StableSort(before, [y]) == Insert(before, y, []);
    assert StableSort(before, [x, y]) == Insert(before, x, [y]);
  }

  lemma OrderOfTwo(c: Clip)
    ensures Order(c, 2) == if ByFrame(c)(1, 0) then [1, 0] else [0, 1]
  {
    assert Indices(2) == [0, 1];
    SortOfTwo(ByFrame(c), 0, 1);
  }

  // Linking two detections, listed in either order.
  lemma LinkedPair(dets: seq<Detection>, overlap: Overlap)
    requires |dets| == 2
    ensures var c := Clip(DetectionAt(dets), overlap);
            Linked(dets, overlap) ==
            if dets[1].frameIdx < dets[0].frameIdx then (if Follows(c, 1, 0) then [[1, 0]] else [[1], [0]])
            else if Follows(c, 0, 1) then [[0, 1]] else [[0], [1]]
  {
    var c := Clip(DetectionAt(dets), overlap);
    OrderOfTwo(c);
    if dets[1].frameIdx < dets[0].frameIdx {
      TwoLink(c, 1, 0);
    } else {
      TwoLink(c, 0, 1);
    }
  }

  // A box in the same place three frames on, with a gap of two frames.
  lemma GapIsBridged(box: Rect, target: nat, overlap: Overlap)
    requires overlap(box, box) >= MIN_IOU
    ensures Linked([Detection(1, 0, box, target), Detection(2, MAX_GAP + 1, box, target)], overlap) == [[0, 1]]
  {
    LinkedPair([Detection(1, 0, box, target), Detection(2, MAX_GAP + 1, box, target)], overlap);
  }

  // ---- When a track stays within the gap

  // Consecutive boxes of a track are no further apart than the gap.
  ghost predicate WithinGap(c: Clip, g: seq<nat>) {
    forall k :: 0 <= k < |g| - 1 ==> c.at(g[k+1]).frameIdx - c.at(g[k]).frameIdx <= MAX_GAP
  }

  ghost predicate AllWithinGap(dets: seq<Detection>, overlap: Overlap) {
    forall g :: g in Linked(dets, overlap) ==> WithinGap(Clip(DetectionAt(dets), overlap), g)
  }

  // Detections on these frames.
  ghost predicate OnFrames(dets: seq<Detection>, frames: seq<int>) {
    |dets| == |frames| && forall k :: 0 <= k < |dets| ==> dets[k].frameIdx == frames[k]
  }

  predicate GapApart(frames: seq<int>, i: nat, j: nat) {
    i < |frames| && j < |frames| && frames[j] - frames[i] == MAX_GAP + 1
  }

  lemma NoGapWithin(dets: seq<Detection>, overlap: Overlap, frames: seq<int>)
    requires OnFrames(dets, frames) && forall i: nat, j: nat :: !GapApart(frames, i, j)
    ensures AllWithinGap(dets, overlap)
  {
    LinkedIsPartition(dets, overlap);
    OnceInGroups(dets, overlap);
    forall g | g in Linked(dets, overlap) ensures WithinGap(Clip(DetectionAt(dets), overlap), g) {
      forall d | d in g ensures d < |dets| {
        InFlatten(Linked(dets, overlap), g, d);
      }
      TrackWithinGap(dets, overlap, frames, g);
    }
  }

  lemma TrackWithinGap(dets: seq<Detection>, overlap: Overlap, frames: seq<int>, g: seq<nat>)
    requires OnFrames(dets, frames) && forall i: nat, j: nat :: !GapApart(frames, i, j)
    requires IsTrack(Clip(DetectionAt(dets), overlap), g) && forall d :: d in g ==> d < |dets|
    ensures WithinGap(Clip(DetectionAt(dets), overlap), g)
  {
    var c := Clip(DetectionAt(dets), overlap);
    forall k | 0 <= k < |g| - 1 ensures c.at(g[k+1]).frameIdx - c.at(g[k]).frameIdx <= MAX_GAP {
      assert Follows(c, g[k], g[k+1]);
      assert g[k] in g && g[k+1] in g;
      assert !GapApart(frames, g[k], g[k+1]);
    }
  }

  lemma {:induction false} InFlatten(groups: seq<seq<nat>>, g: seq<nat>, d: nat)
    requires g in groups && d in g
    ensures d in Flatten(groups)
  {
    if groups[0] != g {
      InFlatten(groups[1..], g, d);
    }
  }

  lemma OnceInGroups(dets: seq<Detection>, overlap: Overlap)
    ensures forall d :: d in Flatten(Linked(dets, overlap)) ==> d < |dets|
  {
    LinkedIsPartition(dets, overlap);
    HeldAreBelow(Linked(dets, overlap), |dets|);
  }

  lemma HeldAreBelow(groups: seq<seq<nat>>, n: nat)
    requires Holds(groups, multiset(Indices(n)))
    ensures forall d :: d in Flatten(groups) ==> d < n
  {
    SameElements(Flatten(groups), Indices(n));
  }

  lemma SameElements(a: seq<nat>, b: seq<nat>)
    requires multiset(a) == multiset(b)
    ensures forall x :: x in a ==> x in b
  {
    forall x | x in a ensures x in b {
      assert x in multiset(a);
    }
  }

  // ---- Two detections among others

  // Everything in one place; the i-th and the j-th of one target and each
  // other of its own.
  function Lone(frames: seq<int>, box: Rect, i: nat, j: nat): seq<Detection> {
    seq(|frames|, k requires 0 <= k < |frames| =>
      Detection(k, frames[k], box, if k == i || k == j then 0 else k + 1))
  }

  lemma TwoOf(n: nat, keep: nat -> bool, lo: nat, hi: nat)
    requires lo < hi < n && forall k: nat :: k < n ==> keep(k) == (k == lo || k == hi)
    ensures Filter(keep, Indices(n)) == [lo, hi]
  {
    OneOf(hi, lo, keep);
    FilterSnoc(keep, Indices(n), hi);
    SplitAt(Indices(n), hi + 1);
    assert Indices(n)[..hi] == Indices(hi);
    FilterAppend(keep, Indices(n)[..hi+1], Indices(n)[hi+1..]);
    FilterNone(keep, Indices(n)[hi+1..]);
  }

  lemma OneOf(n: nat, lo: nat, keep: nat -> bool)
    requires lo < n && forall k: nat :: k < n ==> keep(k) == (k == lo)
    ensures Filter(keep, Indices(n)) == [lo]
  {
    FilterSnoc(keep, Indices(n), lo);
    SplitAt(Indices(n), lo + 1);
    FilterNone(keep, Indices(n)[..lo]);
    FilterAppend(keep, Indices(n)[..lo+1], Indices(n)[lo+1..]);
    FilterNone(keep, Indices(n)[lo+1..]);
  }

  lemma LonePositions(frames: seq<int>, box: Rect, overlap: Overlap, i: nat, j: nat)
    requires i < |frames| && j < |frames| && i != j
    ensures var lo, hi := if i < j then i else j, if i < j then j else i;
            var dets := Lone(frames, box, i, j);
            && Positions(HasTarget(0), dets) == [lo, hi]
            && Filter(HasTarget(0), dets) == [dets[lo], dets[hi]]
  {
    var lo, hi := if i < j then i else j, if i < j then j else i;
    var dets := Lone(frames, box, i, j);
    var c := Clip(DetectionAt(dets), overlap);
    PositionsAreIndices(dets, overlap, 0);
    TwoOf(|dets|, OfTarget(c, 0), lo, hi);
    PositionsOfFilter(HasTarget(0), dets);
  }

  lemma PairWithGap(a: Detection, b: Detection, overlap: Overlap)
    requires a.box == b.box && a.target == b.target && overlap(a.box, a.box) >= MIN_IOU
    ensures b.frameIdx - a.frameIdx == MAX_GAP + 1 ==> Linked([a, b], overlap) == [[0, 1]]
    ensures a.frameIdx - b.frameIdx == MAX_GAP + 1 ==> Linked([a, b], overlap) == [[1, 0]]
  {
    var c := Clip(DetectionAt([a, b]), overlap);
    assert c.at(0) == a && c.at(1) == b;
    LinkedPair([a, b], overlap);
    FollowsHere(c, 0, 1);
    FollowsHere(c, 1, 0);
  }

  lemma FollowsHere(c: Clip, x: nat, y: nat)
    requires c.at(x).target == c.at(y).target && c.overlap(c.at(y).box, c.at(x).box) >= MIN_IOU
    ensures Follows(c, x, y) <==> 0 < c.at(y).frameIdx - c.at(x).frameIdx <= MAX_GAP + 1
  {
  }

  lemma RenameTwo(lo: nat, hi: nat)
    ensures Map(MapIds(At([lo, hi])), [[0, 1]]) == [[lo, hi]]
    ensures Map(MapIds(At([lo, hi])), [[1, 0]]) == [[hi, lo]]
  {
    assert Map(At([lo, hi]), [0, 1]) == [lo, hi] && Map(At([lo, hi]), [1, 0]) == [hi, lo];
  }

  lemma OwnGroups(dets: seq<Detection>, overlap: Overlap, target: nat, g: seq<nat>)
    requires Map(MapIds(At(Positions(HasTarget(target), dets))), Linked(Filter(HasTarget(target), dets), overlap)) ==
             [g]
    ensures g in Linked(dets, overlap)
  {
    LinkedOfTarget(dets, overlap, target);
    assert g in [g];
  }

  lemma GapOfTwo(frames: seq<int>, box: Rect, overlap: Overlap, i: nat, j: nat)
    requires GapApart(frames, i, j) && overlap(box, box) >= MIN_IOU
    ensures [i, j] in Linked(Lone(frames, box, i, j), overlap)
  {
    var lo, hi := if i < j then i else j, if i < j then j else i;
    var dets := Lone(frames, box, i, j);
    LonePositions(frames, box, overlap, i, j);
    PairWithGap(dets[lo], dets[hi], overlap);
    RenameTwo(lo, hi);
    OwnGroups(dets, overlap, 0, [i, j]);
  }

  // On which frames detections must be for no track to bridge more than the
  // gap, whatever their boxes and targets: no two may be one frame more apart.
  lemma GapIsKept(frames: seq<int>, overlap: Overlap, box: Rect)
    requires overlap(box, box) >= MIN_IOU
    ensures (forall dets :: OnFrames(dets, frames) ==> AllWithinGap(dets, overlap)) <==>
            forall i: nat, j: nat :: !GapApart(frames, i, j)
  {
    if forall i: nat, j: nat :: !GapApart(frames, i, j) {
      forall dets | OnFrames(dets, frames) ensures AllWithinGap(dets, overlap) {
        NoGapWithin(dets, overlap, frames);
      }
    } else {
      var i: nat, j: nat :| GapApart(frames, i, j);
      GapIsCrossed(frames, box, overlap, i, j);
    }
  }

  lemma SelfOverlap(box: Rect)
    requires box.w > 0.0 && box.h > 0.0
    ensures Iou(box, box) >= MIN_IOU
  {
    IouComplete(box, box);
  }

  lemma GapIsKeptFor(frames: seq<int>, overlap: Overlap, box: Rect)
    requires overlap == Iou && box.w > 0.0 && box.h > 0.0
    ensures (forall dets :: OnFrames(dets, frames) ==> AllWithinGap(dets, overlap)) <==>
            forall i: nat, j: nat :: !GapApart(frames, i, j)
  {
    SelfOverlap(box);
    GapIsKept(frames, overlap, box);
  }

  // For the linker's own measure.
  lemma LinkerKeepsGap(frames: seq<int>)
    ensures (forall dets :: OnFrames(dets, frames) ==> AllWithinGap(dets, Iou)) <==>
            forall i: nat, j: nat :: !GapApart(frames, i, j)
  {
    GapIsKeptFor(frames, Iou, Rect(0.0, 0.0, 1.0, 1.0));
  }

  lemma GapIsCrossed(frames: seq<int>, box: Rect, overlap: Overlap, i: nat, j: nat)
    requires GapApart(frames, i, j) && overlap(box, box) >= MIN_IOU
    ensures OnFrames(Lone(frames, box, i, j), frames) && !AllWithinGap(Lone(frames, box, i, j), overlap)
  {
    var dets := Lone(frames, box, i, j);
    var c := Clip(DetectionAt(dets), overlap);
    GapOfTwo(frames, box, overlap, i, j);
    assert c.at(i).frameIdx == frames[i] && c.at(j).frameIdx == frames[j];
    assert !WithinGap(c, [i, j]);
  }
}
