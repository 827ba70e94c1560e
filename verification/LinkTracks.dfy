// Linking a clip's detections into tracks, frame by frame. This is the
// linker with nothing pruned: every group is kept, and one that ended too
// long ago is only left out of the pairing.
module LinkTracks {
  import opened Sequences
  import opened StableSorting
  import opened GreedyMatching
  import opened Geometry

  // Boxes of one target on nearby frames are one object from here.
  const MIN_IOU: real := 0.3
  // Frames in a row a track may miss.
  const MAX_GAP := 2

  datatype Detection = Detection(frame: nat, frameIdx: int, box: Rect, target: nat)

  // The detections by index and how the overlap of two boxes is measured.
  datatype Clip = Clip(at: nat -> Detection, overlap: Overlap)

  function DetectionAt(dets: seq<Detection>): nat -> Detection {
    (k: nat) => if k < |dets| then dets[k] else Detection(0, 0, Rect(0.0, 0.0, 0.0, 0.0), 0)
  }

  function Seed(g: seq<nat>): nat {
    if g == [] then 0 else g[0]
  }

  predicate InRange(c: Clip, idx: int, g: seq<nat>) {
    g != [] && idx - c.at(g[|g|-1]).frameIdx <= MAX_GAP + 1
  }

  // The overlap of a detection with the last box of a group it may continue.
  function Weigh(c: Clip, idx: int): (nat, seq<nat>) -> Option<real> {
    (d: nat, g: seq<nat>) =>
      if !InRange(c, idx, g) then None
      else
        var last := c.at(g[|g|-1]);
        if c.at(g[0]).target != c.at(d).target || last.frameIdx == idx then None
        else if c.overlap(c.at(d).box, last.box) >= MIN_IOU then Some(c.overlap(c.at(d).box, last.box))
        else None
  }

  function IdItem(): nat -> Item<nat> {
    (d: nat) => Item(d, d)
  }

  function SeedItem(): seq<nat> -> Item<seq<nat>> {
    (g: seq<nat>) => Item(Seed(g), g)
  }

  function Joins(c: Clip, groups: seq<seq<nat>>, frame: seq<nat>, idx: int): seq<Edge> {
    Greedy(Candidates(Weigh(c, idx), Map(IdItem(), frame), Map(SeedItem(), groups)))
  }

  function EndsAt(n: nat): Edge -> bool {
    (e: Edge) => e.right == n
  }

  function Grow(m: seq<Edge>): seq<nat> -> seq<nat> {
    (g: seq<nat>) => g + Map(Left(), Filter(EndsAt(Seed(g)), m))
  }

  function Unjoined(m: seq<Edge>): nat -> bool {
    (d: nat) => d !in Map(Left(), m)
  }

  function Start(): nat -> seq<nat> {
    (d: nat) => [d]
  }

  // The groups after one frame: joined detections extend theirs, and the
  // others start new ones in frame order.
  function Extend(groups: seq<seq<nat>>, frame: seq<nat>, m: seq<Edge>): seq<seq<nat>> {
    Map(Grow(m), groups) + Map(Start(), Filter(Unjoined(m), frame))
  }

  function Step(c: Clip, groups: seq<seq<nat>>, frame: seq<nat>, idx: int): seq<seq<nat>> {
    Extend(groups, frame, Joins(c, groups, frame, idx))
  }

  // How many leading detections share the first one's frame.
  function Run(c: Clip, idx: int, order: seq<nat>): (n: nat)
    ensures n <= |order|
    ensures forall k :: 0 <= k < n ==> c.at(order[k]).frameIdx == idx
    ensures n < |order| ==> c.at(order[n]).frameIdx != idx
  {
    if order == [] || c.at(order[0]).frameIdx != idx then 0 else 1 + Run(c, idx, order[1..])
  }

  function LinkOrder(c: Clip, groups: seq<seq<nat>>, order: seq<nat>): seq<seq<nat>>
    decreases |order|
  {
    if order == [] then groups
    else
      var idx := c.at(order[0]).frameIdx;
      var n := Run(c, idx, order);
      LinkOrder(c, Step(c, groups, order[..n], idx), order[n..])
  }

  function ByFrame(c: Clip): (nat, nat) -> bool {
    (a: nat, b: nat) => c.at(a).frameIdx < c.at(b).frameIdx
  }

  function Indices(n: nat): seq<nat> {
    seq(n, i => i)
  }

  function Order(c: Clip, n: nat): seq<nat> {
    StableSort(ByFrame(c), Indices(n))
  }

  function Linked(dets: seq<Detection>, overlap: Overlap): seq<seq<nat>> {
    var c := Clip(DetectionAt(dets), overlap);
    LinkOrder(c, [], Order(c, |dets|))
  }

  // ---- Every detection in exactly one group

  function Flatten(groups: seq<seq<nat>>): seq<nat> {
    if groups == [] then [] else groups[0] + Flatten(groups[1..])
  }

  ghost predicate NonEmpty(groups: seq<seq<nat>>) {
    forall k :: 0 <= k < |groups| ==> groups[k] != []
  }

  function SeedOf(): seq<nat> -> nat {
    (g: seq<nat>) => Seed(g)
  }

  function Seeds(groups: seq<seq<nat>>): seq<nat> {
    Map(SeedOf(), groups)
  }

  lemma {:induction false} FlattenAppend(a: seq<seq<nat>>, b: seq<seq<nat>>)
    ensures Flatten(a + b) == Flatten(a) + Flatten(b)
  {
    if a == [] {
      assert a + b == b;
    } else {
      assert (a + b)[1..] == a[1..] + b;
      FlattenAppend(a[1..], b);
    }
  }

  lemma {:induction false} FlattenStarts(ids: seq<nat>)
    ensures Flatten(Map(Start(), ids)) == ids
  {
    if ids != [] {
      MapStep(Start(), ids);
      FlattenStarts(ids[1..]);
    }
  }

  function EndsElsewhere(n: nat): Edge -> bool {
    (e: Edge) => e.right != n
  }

  lemma {:induction false} SplitMultiset<T>(p: T -> bool, q: T -> bool, f: T -> nat, s: seq<T>)
    requires forall x :: x in s ==> p(x) != q(x)
    ensures multiset(Map(f, s)) == multiset(Map(f, Filter(p, s))) + multiset(Map(f, Filter(q, s)))
  {
    if s == [] {
    } else {
      var x, rest := s[0], s[1..];
      assert x in s;
      SplitMultiset(p, q, f, rest);
      MapStep(f, s);
      MapCons(f, x, Filter(p, rest));
      MapCons(f, x, Filter(q, rest));
    }
  }

  lemma {:induction false} GrowElsewhere(groups: seq<seq<nat>>, m: seq<Edge>, n: nat)
    requires n !in Seeds(groups)
    ensures Map(Grow(m), groups) == Map(Grow(Filter(EndsElsewhere(n), m)), groups)
  {
    forall k | 0 <= k < |groups| ensures Grow(m)(groups[k]) == Grow(Filter(EndsElsewhere(n), m))(groups[k]) {
      assert Seeds(groups)[k] == Seed(groups[k]);
      assert Seed(groups[k]) in Seeds(groups);
      FilterTwice(EndsAt(Seed(groups[k])), EndsElsewhere(n), EndsAt(Seed(groups[k])), m);
    }
  }

  // Growing adds exactly the joined detections.
  lemma {:induction false} GrowFlatten(groups: seq<seq<nat>>, m: seq<Edge>)
    requires Distinct(Seeds(groups)) && forall e :: e in m ==> e.right in Seeds(groups)
    ensures multiset(Flatten(Map(Grow(m), groups))) == multiset(Flatten(groups)) + multiset(Map(Left(), m))
    decreases |groups|
  {
    if m != [] {
      assert m[0] in m;
    }
    if groups != [] {
      var g, rest := groups[0], groups[1..];
      var here, away := Filter(EndsAt(Seed(g)), m), Filter(EndsElsewhere(Seed(g)), m);
      MapStep(SeedOf(), groups);
      forall k | 0 <= k < |rest| ensures Seeds(rest)[k] != Seed(g) {
        assert Seeds(groups)[0] != Seeds(groups)[k+1];
      }
      forall e | e in away ensures e.right in Seeds(rest) {
        assert e.right in Seeds(groups);
      }
      GrowFlatten(rest, away);
      GrowElsewhere(rest, m, Seed(g));
      MapStep(Grow(m), groups);
      SplitMultiset(EndsAt(Seed(g)), EndsElsewhere(Seed(g)), Left(), m);
    }
  }

  lemma UnjoinedSplit(frame: seq<nat>, taken: seq<nat>, unjoined: nat -> bool)
    requires Distinct(frame) && Distinct(taken) && forall d :: d in taken ==> d in frame
    requires forall d :: d in frame ==> (unjoined(d) <==> d !in taken)
    ensures multiset(frame) == multiset(taken) + multiset(Filter(unjoined, frame))
  {
    var rest := Filter(unjoined, frame);
    FilterDistinct(unjoined, frame);
    var all: multiset<nat>, parts: multiset<nat> := multiset(frame), multiset(taken) + multiset(rest);
    forall x: nat ensures all[x] == parts[x] {
      DistinctCount<nat>(frame, x);
      DistinctCount<nat>(taken, x);
      DistinctCount<nat>(rest, x);
    }
    assert all == parts;
  }

  // What a step's matching is made of.
  ghost predicate Placed(groups: seq<seq<nat>>, frame: seq<nat>, m: seq<Edge>) {
    && OneToOne(m)
    && (forall e :: e in m ==> e.left in frame && e.right in Seeds(groups))
  }

  lemma ExtendFlatten(groups: seq<seq<nat>>, frame: seq<nat>, m: seq<Edge>)
    requires Distinct(Seeds(groups)) && Distinct(frame) && Placed(groups, frame, m)
    ensures multiset(Flatten(Extend(groups, frame, m))) == multiset(Flatten(groups)) + multiset(frame)
  {
    var taken := Map(Left(), m);
    OneToOneEnds(m);
    forall d | d in taken ensures d in frame {
      var i :| 0 <= i < |taken| && taken[i] == d;
      assert m[i] in m;
    }
    GrowFlatten(groups, m);
    UnjoinedSplit(frame, taken, Unjoined(m));
    FlattenAppend(Map(Grow(m), groups), Map(Start(), Filter(Unjoined(m), frame)));
    FlattenStarts(Filter(Unjoined(m), frame));
  }

  // ---- What a step joins

  // Every edge of a step joins a detection of the frame to a group it may
  // continue.
  ghost predicate Joined(c: Clip, groups: seq<seq<nat>>, frame: seq<nat>, idx: int, e: Edge) {
    e.left in frame && exists k :: JoinsAt(c, groups, idx, e, k)
  }

  ghost predicate JoinsAt(c: Clip, groups: seq<seq<nat>>, idx: int, e: Edge, k: int) {
    0 <= k < |groups| && e.right == Seed(groups[k]) && Weigh(c, idx)(e.left, groups[k]) == Some(e.weight)
  }

  lemma CandidatesJoin(c: Clip, groups: seq<seq<nat>>, frame: seq<nat>, idx: int, e: Edge)
    ensures e in Candidates(Weigh(c, idx), Map(IdItem(), frame), Map(SeedItem(), groups)) <==>
            Joined(c, groups, frame, idx, e)
  {
    var weigh, ls, rs := Weigh(c, idx), Map(IdItem(), frame), Map(SeedItem(), groups);
    CandidatesIff(weigh, ls, rs, e);
    if e in Candidates(weigh, ls, rs) {
      var i :| 0 <= i < |ls| && e in Row(weigh, ls[i], rs);
      RowIff(weigh, ls[i], rs, e);
      assert ls[i] == IdItem()(frame[i]);
      var k :| 0 <= k < |rs| && e.right == rs[k].id && weigh(ls[i].val, rs[k].val) == Some(e.weight);
      assert rs[k] == SeedItem()(groups[k]);
      assert e.left == frame[i] && e.left in frame;
      assert JoinsAt(c, groups, idx, e, k);
    }
    if Joined(c, groups, frame, idx, e) {
      var i :| 0 <= i < |frame| && frame[i] == e.left;
      var k :| JoinsAt(c, groups, idx, e, k);
      assert ls[i] == IdItem()(frame[i]) && rs[k] == SeedItem()(groups[k]);
      assert e.right == rs[k].id && weigh(ls[i].val, rs[k].val) == Some(e.weight);
      RowIff(weigh, ls[i], rs, e);
    }
  }

  // Within a frame nothing eligible is passed over for something weaker: a
  // detection and a group it may continue are either joined or one of them is
  // joined at least as well elsewhere. So no detection starts a group while
  // one it may continue stays free.
  lemma StepIsStable(c: Clip, groups: seq<seq<nat>>, frame: seq<nat>, idx: int)
    ensures var m := Joins(c, groups, frame, idx);
            && Placed(groups, frame, m)
            && (forall e :: e in m ==> Joined(c, groups, frame, idx, e))
            && (forall e :: Joined(c, groups, frame, idx, e) ==>
                  exists g :: g in m && Conflict(g, e) && g.weight >= e.weight)
  {
    var all := Candidates(Weigh(c, idx), Map(IdItem(), frame), Map(SeedItem(), groups));
    GreedyStable(all);
    forall e ensures e in all <==> Joined(c, groups, frame, idx, e) {
      CandidatesJoin(c, groups, frame, idx, e);
    }
    forall e | e in Joins(c, groups, frame, idx) ensures e.left in frame && e.right in Seeds(groups) {
      assert Joined(c, groups, frame, idx, e);
      var k :| JoinsAt(c, groups, idx, e, k);
      assert Seeds(groups)[k] == e.right;
    }
  }

  // ---- Tracks

  // b may directly follow a in a track.
  predicate Follows(c: Clip, a: nat, b: nat) {
    && 0 < c.at(b).frameIdx - c.at(a).frameIdx <= MAX_GAP + 1
    && c.at(a).target == c.at(b).target
    && c.overlap(c.at(b).box, c.at(a).box) >= MIN_IOU
  }

  ghost predicate IsTrack(c: Clip, g: seq<nat>) {
    && g != []
    && (forall i :: 0 <= i < |g| - 1 ==> Follows(c, g[i], g[i+1]))
    && (forall i :: 0 <= i < |g| ==> c.at(g[i]).target == c.at(g[0]).target)
  }

  // The groups between two frames: tracks that all ended before idx.
  ghost predicate Before(c: Clip, groups: seq<seq<nat>>, idx: int) {
    && Distinct(Seeds(groups))
    && (forall k :: 0 <= k < |groups| ==> Ended(c, groups[k], idx))
  }

  ghost predicate Ended(c: Clip, g: seq<nat>, idx: int) {
    IsTrack(c, g) && c.at(g[|g|-1]).frameIdx < idx
  }

  lemma BeforeNonEmpty(c: Clip, groups: seq<seq<nat>>, bound: int)
    requires Before(c, groups, bound)
    ensures NonEmpty(groups)
  {
    assert forall k :: 0 <= k < |groups| ==> Ended(c, groups[k], bound);
  }

  lemma {:induction false} AtMostOneEnd(m: seq<Edge>, n: nat)
    requires OneToOne(m)
    ensures |Filter(EndsAt(n), m)| <= 1
  {
    if m != [] {
      AtMostOneEnd(m[1..], n);
      if m[0].right == n {
        forall x | x in m[1..] ensures !EndsAt(n)(x) {
          var k :| 0 <= k < |m[1..]| && m[1..][k] == x;
          assert !Conflict(m[0], m[k+1]);
        }
        FilterNone(EndsAt(n), m[1..]);
      }
    }
  }

  ghost predicate GrewBy(c: Clip, idx: int, frame: seq<nat>, g: seq<nat>, grown: seq<nat>, d: nat) {
    d in frame && grown == g + [d] && Weigh(c, idx)(d, g).Some?
  }

  // A group grows by at most one detection, and only by one it may continue
  // with.
  lemma GrowShape(c: Clip, groups: seq<seq<nat>>, frame: seq<nat>, idx: int, m: seq<Edge>, k: nat)
    requires Distinct(Seeds(groups)) && k < |groups| && OneToOne(m)
    requires forall e :: e in m ==> Joined(c, groups, frame, idx, e)
    ensures Grow(m)(groups[k]) == groups[k] || exists d :: GrewBy(c, idx, frame, groups[k], Grow(m)(groups[k]), d)
  {
    var g := groups[k];
    GrowsByOne(m, g);
    if Grow(m)(g) != g {
      var e :| e in m && e.right == Seed(g) && Grow(m)(g) == g + [e.left];
      JoinsItsSeed(c, groups, frame, idx, e, k);
      assert GrewBy(c, idx, frame, g, Grow(m)(g), e.left);
    }
  }

  lemma GrowsByOne(m: seq<Edge>, g: seq<nat>)
    requires OneToOne(m)
    ensures Grow(m)(g) == g || exists e :: e in m && e.right == Seed(g) && Grow(m)(g) == g + [e.left]
  {
    var here := Filter(EndsAt(Seed(g)), m);
    AtMostOneEnd(m, Seed(g));
    if here != [] {
      assert here[0] in here && here[0] in m;
      assert Map(Left(), here) == [here[0].left];
    }
  }

  // Seeds tell groups apart, so an edge joins the group whose seed it names.
  lemma JoinsItsSeed(c: Clip, groups: seq<seq<nat>>, frame: seq<nat>, idx: int, e: Edge, k: nat)
    requires Distinct(Seeds(groups)) && k < |groups| && e.right == Seed(groups[k]) && Joined(c, groups, frame, idx, e)
    ensures e.left in frame && Weigh(c, idx)(e.left, groups[k]) == Some(e.weight)
  {
    var j :| JoinsAt(c, groups, idx, e, j);
    assert Seeds(groups)[j] == Seeds(groups)[k];
  }

  lemma TrackSnoc(c: Clip, idx: int, g: seq<nat>, d: nat)
    requires IsTrack(c, g) && c.at(g[|g|-1]).frameIdx < idx == c.at(d).frameIdx && Weigh(c, idx)(d, g).Some?
    ensures IsTrack(c, g + [d])
  {
    var t := g + [d];
    assert Follows(c, g[|g|-1], d);
    forall i | 0 <= i < |t| - 1 ensures Follows(c, t[i], t[i+1]) {
      if i < |g| - 1 {
        assert Follows(c, g[i], g[i+1]);
      }
    }
  }

  lemma GrowTrack(c: Clip, groups: seq<seq<nat>>, frame: seq<nat>, idx: int, m: seq<Edge>, k: nat)
    requires Before(c, groups, idx) && k < |groups| && OneToOne(m)
    requires forall d :: d in frame ==> c.at(d).frameIdx == idx
    requires forall e :: e in m ==> Joined(c, groups, frame, idx, e)
    ensures Ended(c, Grow(m)(groups[k]), idx + 1)
  {
    assert Ended(c, groups[k], idx);
    var g := groups[k];
    GrowShape(c, groups, frame, idx, m, k);
    if Grow(m)(g) != g {
      var d :| GrewBy(c, idx, frame, g, Grow(m)(g), d);
      TrackSnoc(c, idx, g, d);
    }
  }

  lemma SeedsOfExtend(groups: seq<seq<nat>>, frame: seq<nat>, m: seq<Edge>)
    requires NonEmpty(groups)
    ensures Seeds(Extend(groups, frame, m)) == Seeds(groups) + Filter(Unjoined(m), frame)
  {
    var out, starts := Extend(groups, frame, m), Filter(Unjoined(m), frame);
    forall k | 0 <= k < |out| ensures Seed(out[k]) == (Seeds(groups) + starts)[k] {
      if k < |groups| {
        assert out[k] == Grow(m)(groups[k]);
      }
    }
  }

  lemma ExtendTracks(c: Clip, groups: seq<seq<nat>>, frame: seq<nat>, idx: int, m: seq<Edge>)
    requires Before(c, groups, idx) && OneToOne(m) && Distinct(frame)
    requires forall d :: d in frame ==> c.at(d).frameIdx == idx && d !in Seeds(groups)
    requires forall e :: e in m ==> Joined(c, groups, frame, idx, e)
    ensures Before(c, Extend(groups, frame, m), idx + 1)
  {
    ExtendSeedsDistinct(c, groups, frame, idx, m);
    var out := Extend(groups, frame, m);
    forall k | 0 <= k < |out| ensures Ended(c, out[k], idx + 1) {
      ExtendEnded(c, groups, frame, idx, m, k);
    }
  }

  lemma StartEnded(c: Clip, frame: seq<nat>, keep: nat -> bool, k: nat, idx: int)
    requires k < |Filter(keep, frame)| && forall d :: d in frame ==> c.at(d).frameIdx == idx
    ensures Ended(c, Start()(Filter(keep, frame)[k]), idx + 1)
  {
    assert Filter(keep, frame)[k] in Filter(keep, frame);
  }

  lemma ExtendEnded(c: Clip, groups: seq<seq<nat>>, frame: seq<nat>, idx: int, m: seq<Edge>, k: nat)
    requires Before(c, groups, idx) && OneToOne(m) && k < |Extend(groups, frame, m)|
    requires forall d :: d in frame ==> c.at(d).frameIdx == idx
    requires forall e :: e in m ==> Joined(c, groups, frame, idx, e)
    ensures Ended(c, Extend(groups, frame, m)[k], idx + 1)
  {
    if k < |groups| {
      GrowTrack(c, groups, frame, idx, m, k);
    } else {
      StartEnded(c, frame, Unjoined(m), k - |groups|, idx);
    }
  }

  lemma ExtendSeedsDistinct(c: Clip, groups: seq<seq<nat>>, frame: seq<nat>, idx: int, m: seq<Edge>)
    requires Before(c, groups, idx) && Distinct(frame) && forall d :: d in frame ==> d !in Seeds(groups)
    ensures Distinct(Seeds(Extend(groups, frame, m)))
  {
    assert forall k :: 0 <= k < |groups| ==> Ended(c, groups[k], idx);
    SeedsOfExtend(groups, frame, m);
    FilterDistinct(Unjoined(m), frame);
    DistinctAppend(Seeds(groups), Filter(Unjoined(m), frame));
  }

  // ---- Whole runs

  lemma {:induction false} SeedsInFlatten(groups: seq<seq<nat>>)
    requires NonEmpty(groups)
    ensures forall x :: x in Seeds(groups) ==> x in Flatten(groups)
  {
    if groups != [] {
      MapStep(SeedOf(), groups);
      assert groups[0] != [];
      assert NonEmpty(groups[1..]);
      SeedsInFlatten(groups[1..]);
    }
  }

  lemma LaterStill(c: Clip, groups: seq<seq<nat>>, idx: int, later: int)
    requires Before(c, groups, idx) && idx <= later
    ensures Before(c, groups, later)
  {
    forall k | 0 <= k < |groups| ensures Ended(c, groups[k], later) {
      assert Ended(c, groups[k], idx);
    }
  }

  // What holds between frames: the groups are tracks that ended before bound,
  // the rest of the order starts no earlier, and no detection is in both.
  ghost predicate Ready(c: Clip, groups: seq<seq<nat>>, order: seq<nat>, bound: int) {
    && Before(c, groups, bound)
    && Distinct(Flatten(groups) + order)
    && Ordered(ByFrame(c), order)
    && (order != [] ==> bound <= c.at(order[0]).frameIdx)
  }

  lemma ExtendKeeps(c: Clip, groups: seq<seq<nat>>, order: seq<nat>, bound: int, idx: int, n: nat, m: seq<Edge>)
    requires Ready(c, groups, order, bound) && bound <= idx && n <= |order|
    requires forall k :: 0 <= k < n ==> c.at(order[k]).frameIdx == idx
    requires n < |order| ==> idx < c.at(order[n]).frameIdx
    requires Placed(groups, order[..n], m) && forall e :: e in m ==> Joined(c, groups, order[..n], idx, e)
    ensures Ready(c, Extend(groups, order[..n], m), order[n..], idx + 1)
    ensures Holds(Extend(groups, order[..n], m), multiset(Flatten(groups)) + multiset(order[..n]))
  {
    var frame := order[..n];
    LaterStill(c, groups, bound, idx);
    FrameApart(c, groups, order, n, idx);
    ExtendTracks(c, groups, frame, idx, m);
    ExtendFlatten(groups, frame, m);
    StillDistinct(groups, order, n, Extend(groups, frame, m));
  }

  lemma StillDistinct(groups: seq<seq<nat>>, order: seq<nat>, n: nat, next: seq<seq<nat>>)
    requires n <= |order| && Holds(next, multiset(Flatten(groups)) + multiset(order[..n]))
    requires Distinct(Flatten(groups) + order)
    ensures Distinct(Flatten(next) + order[n..])
  {
    SplitOrder(order, n);
    DistinctMultiset(Flatten(groups) + order, Flatten(next) + order[n..]);
  }

  lemma RunStops(c: Clip, order: seq<nat>)
    requires Ordered(ByFrame(c), order) && order != []
    ensures var idx := c.at(order[0]).frameIdx;
            var n := Run(c, idx, order);
            n > 0 && (n < |order| ==> idx < c.at(order[n]).frameIdx)
  {
    var n := Run(c, c.at(order[0]).frameIdx, order);
    if n < |order| {
      assert !ByFrame(c)(order[n], order[0]);
    }
  }

  lemma StepKeeps(c: Clip, groups: seq<seq<nat>>, order: seq<nat>, bound: int)
    requires Ready(c, groups, order, bound) && order != []
    ensures var idx := c.at(order[0]).frameIdx;
            var n := Run(c, idx, order);
            && n > 0
            && Ready(c, Step(c, groups, order[..n], idx), order[n..], idx + 1)
            && Holds(Step(c, groups, order[..n], idx), multiset(Flatten(groups)) + multiset(order[..n]))
  {
    var idx := c.at(order[0]).frameIdx;
    var n := Run(c, idx, order);
    RunStops(c, order);
    StepIsStable(c, groups, order[..n], idx);
    ExtendKeeps(c, groups, order, bound, idx, n, Joins(c, groups, order[..n], idx));
  }

  lemma FrameApart(c: Clip, groups: seq<seq<nat>>, order: seq<nat>, n: nat, idx: int)
    requires Before(c, groups, idx) && Distinct(Flatten(groups) + order) && n <= |order|
    requires forall k :: 0 <= k < n ==> c.at(order[k]).frameIdx == idx
    ensures Distinct(order[..n])
    ensures forall d :: d in order[..n] ==> c.at(d).frameIdx == idx && d !in Seeds(groups)
  {
    var all, flat := Flatten(groups) + order, Flatten(groups);
    forall k | 0 <= k < |groups| ensures groups[k] != [] {
      assert Ended(c, groups[k], idx);
    }
    SeedsInFlatten(groups);
    forall i, j | 0 <= i < j < n ensures order[..n][i] != order[..n][j] {
      assert all[|flat| + i] != all[|flat| + j];
    }
    forall d | d in order[..n] ensures c.at(d).frameIdx == idx && d !in Seeds(groups) {
      var j :| 0 <= j < n && order[..n][j] == d;
      forall i | 0 <= i < |flat| ensures flat[i] != d {
        assert all[i] != all[|flat| + j];
      }
    }
  }

  ghost predicate AllTracks(c: Clip, groups: seq<seq<nat>>) {
    forall g :: g in groups ==> IsTrack(c, g)
  }

  ghost predicate Holds(groups: seq<seq<nat>>, ids: multiset<nat>) {
    multiset(Flatten(groups)) == ids
  }

  lemma BeforeAreTracks(c: Clip, groups: seq<seq<nat>>, bound: int)
    requires Before(c, groups, bound)
    ensures AllTracks(c, groups)
  {
    forall g | g in groups ensures IsTrack(c, g) {
      var k :| 0 <= k < |groups| && groups[k] == g;
      assert Ended(c, groups[k], bound);
    }
  }

  lemma SplitOrder(order: seq<nat>, n: nat)
    requires n <= |order|
    ensures multiset(order) == multiset(order[..n]) + multiset(order[n..])
  {
    assert order == order[..n] + order[n..];
  }

  lemma {:induction false} LinkKeeps(c: Clip, groups: seq<seq<nat>>, order: seq<nat>, bound: int)
    requires Ready(c, groups, order, bound)
    ensures AllTracks(c, LinkOrder(c, groups, order))
    ensures Holds(LinkOrder(c, groups, order), multiset(Flatten(groups)) + multiset(order))
    decreases |order|
  {
    if order == [] {
      BeforeAreTracks(c, groups, bound);
    } else {
      var idx := c.at(order[0]).frameIdx;
      var n := Run(c, idx, order);
      StepKeeps(c, groups, order, bound);
      LinkKeeps(c, Step(c, groups, order[..n], idx), order[n..], idx + 1);
      HoldsThrough(groups, order, n, Step(c, groups, order[..n], idx), LinkOrder(c, groups, order));
    }
  }

  lemma HoldsThrough(groups: seq<seq<nat>>, order: seq<nat>, n: nat, next: seq<seq<nat>>, out: seq<seq<nat>>)
    requires n <= |order| && Holds(next, multiset(Flatten(groups)) + multiset(order[..n]))
    requires Holds(out, multiset(Flatten(next)) + multiset(order[n..]))
    ensures Holds(out, multiset(Flatten(groups)) + multiset(order))
  {
    SplitOrder(order, n);
  }

  lemma ByFrameIsWeakOrder(c: Clip)
    ensures WeakOrder(ByFrame(c))
  {
  }

  lemma OrderReady(c: Clip, ids: seq<nat>)
    requires Distinct(ids)
    ensures var order := StableSort(ByFrame(c), ids);
            Ready(c, [], order, if order == [] then 0 else c.at(order[0]).frameIdx)
  {
    ByFrameIsWeakOrder(c);
    var order := StableSort(ByFrame(c), ids);
    SortOrdered(ByFrame(c), ids);
    DistinctMultiset(ids, order);
    assert [] + order == order;
  }

  // Every detection is in exactly one group, and every group is a track: one
  // target, frames strictly later by at most the gap, and each box overlapping
  // the one before.
  lemma LinkedIsPartition(dets: seq<Detection>, overlap: Overlap)
    ensures Holds(Linked(dets, overlap), multiset(Indices(|dets|)))
    ensures AllTracks(Clip(DetectionAt(dets), overlap), Linked(dets, overlap))
  {
    var c := Clip(DetectionAt(dets), overlap);
    var order := Order(c, |dets|);
    OrderReady(c, Indices(|dets|));
    LinkKeeps(c, [], order, if order == [] then 0 else c.at(order[0]).frameIdx);
  }
}
