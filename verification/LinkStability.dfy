// Which track a detection goes to: the one whose last box overlaps it most,
// unless that track prefers another detection of the frame.
module LinkStability {
  import opened Sequences
  import opened StableSorting
  import opened GreedyMatching
  import opened MatchingOrder
  import opened Geometry
  import opened LinkTracks

  function Last(g: seq<nat>): nat {
    if g == [] then 0 else g[|g|-1]
  }

  function OverlapOf(c: Clip, a: nat, b: nat): real {
    c.overlap(c.at(b).box, c.at(a).box)
  }

  // v is more than w, or as much and preferred in a tie.
  predicate AtLeast(v: real, w: real, tie: bool) {
    v > w || (v == w && tie)
  }

  // ---- One frame

  // The k'-th group gets d', and that excuses the k-th group and d from
  // being joined: one of them is, and overlaps at least as much.
  ghost predicate Instead(c: Clip, groups: seq<seq<nat>>, out: seq<seq<nat>>, k: nat, d: nat, k': nat, d': nat) {
    && k < |groups| && k' < |groups| && k' < |out|
    && out[k'] == groups[k'] + [d'] && (k' == k || d' == d)
    && AtLeast(OverlapOf(c, Last(groups[k']), d'), OverlapOf(c, Last(groups[k]), d),
               d' < d || (d' == d && k' <= k))
  }

  ghost predicate Settled(c: Clip, groups: seq<seq<nat>>, out: seq<seq<nat>>, k: nat, d: nat) {
    exists k': nat, d': nat :: Instead(c, groups, out, k, d, k', d')
  }

  ghost predicate Rising(ids: seq<nat>) {
    forall i, j :: 0 <= i < j < |ids| ==> ids[i] < ids[j]
  }

  // Where an id is in a list.
  function Find(ids: seq<nat>, id: nat): nat {
    if ids == [] || ids[0] == id then 0 else 1 + Find(ids[1..], id)
  }

  function PlaceIn(ids: seq<nat>): nat -> nat {
    (id: nat) => Find(ids, id)
  }

  lemma {:induction false} FindAt(ids: seq<nat>, k: nat)
    requires Distinct(ids) && k < |ids|
    ensures Find(ids, ids[k]) == k
  {
    if k > 0 {
      assert ids[0] != ids[k];
      FindAt(ids[1..], k - 1);
    }
  }

  lemma WeighTells(c: Clip, groups: seq<seq<nat>>, idx: int, k: nat, d: nat)
    requires Before(c, groups, idx) && k < |groups| && c.at(d).frameIdx == idx
    ensures Weigh(c, idx)(d, groups[k]) ==
            if Follows(c, Last(groups[k]), d) then Some(OverlapOf(c, Last(groups[k]), d)) else None
  {
    assert Ended(c, groups[k], idx);
  }

  lemma JoinsInTurn(c: Clip, groups: seq<seq<nat>>, frame: seq<nat>, idx: int)
    requires Distinct(Seeds(groups)) && Rising(frame)
    ensures InTurn(Preferred(PlaceIn(Seeds(groups))),
                   Candidates(Weigh(c, idx), Map(IdItem(), frame), Map(SeedItem(), groups)),
                   Joins(c, groups, frame, idx))
  {
    var place, ls, rs := PlaceIn(Seeds(groups)), Map(IdItem(), frame), Map(SeedItem(), groups);
    forall k | 0 <= k < |rs| ensures place(rs[k].id) == k {
      assert Seeds(groups)[k] == rs[k].id;
      FindAt(Seeds(groups), k);
    }
    CandidatesRise(Weigh(c, idx), ls, rs, place);
    GreedyInTurn(Earlier(place), Candidates(Weigh(c, idx), ls, rs));
  }

  lemma GrowsBy(m: seq<Edge>, g: seq<nat>, e: Edge)
    requires OneToOne(m) && e in m && e.right == Seed(g)
    ensures Grow(m)(g) == g + [e.left]
  {
    var here := Filter(EndsAt(Seed(g)), m);
    AtMostOneEnd(m, Seed(g));
    assert e in here && here == [e];
    assert Map(Left(), here) == [e.left];
  }

  // A detection and a group that may continue with it are joined, or one of
  // them is joined to something that overlaps it at least as much; a tie goes
  // to the earlier detection and then to the earlier group.
  lemma StepPrefersOverlap(c: Clip, groups: seq<seq<nat>>, frame: seq<nat>, idx: int, k: nat, d: nat)
    requires Before(c, groups, idx) && Rising(frame) && forall x :: x in frame ==> c.at(x).frameIdx == idx
    requires k < |groups| && d in frame && Follows(c, Last(groups[k]), d)
    ensures Settled(c, groups, Step(c, groups, frame, idx), k, d)
  {
    var m, place := Joins(c, groups, frame, idx), PlaceIn(Seeds(groups));
    var e := Edge(d, Seed(groups[k]), OverlapOf(c, Last(groups[k]), d));
    WeighTells(c, groups, idx, k, d);
    assert JoinsAt(c, groups, idx, e, k);
    CandidatesJoin(c, groups, frame, idx, e);
    JoinsInTurn(c, groups, frame, idx);
    assert Blocked(Preferred(place), m, e);
    var g :| g in m && Conflict(g, e) && (g == e || Preferred(place)(g, e));
    CandidatesJoin(c, groups, frame, idx, g);
    var k' :| JoinsAt(c, groups, idx, g, k');
    JoinGrows(c, groups, frame, idx, g, k');
    EdgePrefers(c, groups, idx, e, k, g, k');
    assert Instead(c, groups, Step(c, groups, frame, idx), k, d, k', g.left);
  }

  lemma JoinGrows(c: Clip, groups: seq<seq<nat>>, frame: seq<nat>, idx: int, g: Edge, k: nat)
    requires g in Joins(c, groups, frame, idx) && k < |groups| && g.right == Seed(groups[k])
    ensures var out := Step(c, groups, frame, idx);
            k < |out| && out[k] == groups[k] + [g.left]
  {
    StepIsStable(c, groups, frame, idx);
    ExtendGrows(groups, frame, Joins(c, groups, frame, idx), g, k);
  }

  lemma ExtendGrows(groups: seq<seq<nat>>, frame: seq<nat>, m: seq<Edge>, g: Edge, k: nat)
    requires OneToOne(m) && g in m && k < |groups| && g.right == Seed(groups[k])
    ensures var out := Extend(groups, frame, m);
            k < |out| && out[k] == groups[k] + [g.left]
  {
    GrowsBy(m, groups[k], g);
    assert Extend(groups, frame, m)[k] == Grow(m)(groups[k]);
  }

  lemma EdgePrefers(c: Clip, groups: seq<seq<nat>>, idx: int, e: Edge, k: nat, g: Edge, k': nat)
    requires Before(c, groups, idx) && JoinsAt(c, groups, idx, e, k) && JoinsAt(c, groups, idx, g, k')
    requires c.at(e.left).frameIdx == c.at(g.left).frameIdx == idx
    requires Conflict(g, e) && (g == e || Preferred(PlaceIn(Seeds(groups)))(g, e))
    ensures k' == k || g.left == e.left
    ensures AtLeast(OverlapOf(c, Last(groups[k']), g.left), OverlapOf(c, Last(groups[k]), e.left),
                    g.left < e.left || (g.left == e.left && k' <= k))
  {
    var seeds := Seeds(groups);
    WeighTells(c, groups, idx, k, e.left);
    WeighTells(c, groups, idx, k', g.left);
    assert seeds[k] == e.right && seeds[k'] == g.right;
    FindAt(seeds, k);
    FindAt(seeds, k');
    RankTells(PlaceIn(seeds), g, e, k', k);
  }

  lemma RankTells(place: nat -> nat, g: Edge, e: Edge, k': nat, k: nat)
    requires place(g.right) == k' && place(e.right) == k
    requires g == e || Preferred(place)(g, e)
    ensures AtLeast(g.weight, e.weight, g.left < e.left || (g.left == e.left && k' <= k))
  {
    PreferredIff(place, g, e);
  }

  // ---- What a frame changes

  ghost predicate GrewIn(frame: seq<nat>, g: seq<nat>, grown: seq<nat>) {
    grown == g || (|grown| == |g| + 1 && grown[..|g|] == g && grown[|g|] in frame)
  }

  ghost predicate SteppedTo(groups: seq<seq<nat>>, frame: seq<nat>, out: seq<seq<nat>>) {
    && |groups| <= |out|
    && (forall k :: 0 <= k < |groups| ==> GrewIn(frame, groups[k], out[k]))
    && (forall k :: |groups| <= k < |out| ==> |out[k]| == 1 && out[k][0] in frame)
  }

  lemma StartShape(frame: seq<nat>, keep: nat -> bool)
    ensures forall g :: g in Map(Start(), Filter(keep, frame)) ==> |g| == 1 && g[0] in frame
  {
    var starts := Filter(keep, frame);
    forall g | g in Map(Start(), starts) ensures |g| == 1 && g[0] in frame {
      var k :| 0 <= k < |starts| && Map(Start(), starts)[k] == g;
      assert starts[k] in starts;
    }
  }

  lemma GrowsInFrame(frame: seq<nat>, m: seq<Edge>, g: seq<nat>)
    requires OneToOne(m) && forall e :: e in m ==> e.left in frame
    ensures GrewIn(frame, g, Grow(m)(g))
  {
    GrowsByOne(m, g);
  }

  lemma JoinShapes(groups: seq<seq<nat>>, frame: seq<nat>, grown: seq<seq<nat>>, starts: seq<seq<nat>>)
    requires |grown| == |groups| && forall k :: 0 <= k < |groups| ==> GrewIn(frame, groups[k], grown[k])
    requires forall g :: g in starts ==> |g| == 1 && g[0] in frame
    ensures SteppedTo(groups, frame, grown + starts)
  {
    var out := grown + starts;
    forall k | |groups| <= k < |out| ensures |out[k]| == 1 && out[k][0] in frame {
      assert out[k] == starts[k - |groups|] && starts[k - |groups|] in starts;
    }
  }

  lemma ExtendShape(groups: seq<seq<nat>>, frame: seq<nat>, m: seq<Edge>)
    requires OneToOne(m) && forall e :: e in m ==> e.left in frame
    ensures SteppedTo(groups, frame, Extend(groups, frame, m))
  {
    forall k | 0 <= k < |groups| ensures GrewIn(frame, groups[k], Map(Grow(m), groups)[k]) {
      GrowsInFrame(frame, m, groups[k]);
    }
    StartShape(frame, Unjoined(m));
    JoinShapes(groups, frame, Map(Grow(m), groups), Map(Start(), Filter(Unjoined(m), frame)));
  }

  lemma StepShape(c: Clip, groups: seq<seq<nat>>, frame: seq<nat>, idx: int)
    ensures SteppedTo(groups, frame, Step(c, groups, frame, idx))
  {
    StepIsStable(c, groups, frame, idx);
    ExtendShape(groups, frame, Joins(c, groups, frame, idx));
  }

  // ---- Whole runs

  // In the groups, the p-th group's i-th box could be followed by the q-th
  // group's j-th, and nothing of an earlier frame follows it.
  ghost predicate Awaits(c: Clip, groups: seq<seq<nat>>, p: nat, i: nat, q: nat, j: nat) {
    && p < |groups| && i < |groups[p]| && q < |groups| && j < |groups[q]|
    && Follows(c, groups[p][i], groups[q][j])
    && (i + 1 == |groups[p]| || c.at(groups[p][i+1]).frameIdx >= c.at(groups[q][j]).frameIdx)
  }

  // The later box follows one that it overlaps at least as much.
  ghost predicate JoinedBetter(c: Clip, groups: seq<seq<nat>>, p: nat, i: nat, q: nat, j: nat)
    requires Awaits(c, groups, p, i, q, j)
  {
    j > 0 && AtLeast(OverlapOf(c, groups[q][j-1], groups[q][j]), OverlapOf(c, groups[p][i], groups[q][j]), q <= p)
  }

  // The earlier box is followed by one that overlaps it at least as much.
  ghost predicate FollowedBetter(c: Clip, groups: seq<seq<nat>>, p: nat, i: nat, q: nat, j: nat)
    requires Awaits(c, groups, p, i, q, j)
  {
    && i + 1 < |groups[p]| && c.at(groups[p][i+1]).frameIdx == c.at(groups[q][j]).frameIdx
    && AtLeast(OverlapOf(c, groups[p][i], groups[p][i+1]), OverlapOf(c, groups[p][i], groups[q][j]),
               groups[p][i+1] <= groups[q][j])
  }

  ghost predicate SteadyAt(c: Clip, groups: seq<seq<nat>>, p: nat, i: nat, q: nat, j: nat) {
    Awaits(c, groups, p, i, q, j) ==>
      JoinedBetter(c, groups, p, i, q, j) || FollowedBetter(c, groups, p, i, q, j)
  }

  // No two boxes would rather be joined than follow and be followed as they
  // are.
  ghost predicate Steady(c: Clip, groups: seq<seq<nat>>) {
    forall p: nat, i: nat, q: nat, j: nat :: SteadyAt(c, groups, p, i, q, j)
  }

  // One detection more is all a frame adds to what was there.
  ghost predicate OldAt(groups: seq<seq<nat>>, out: seq<seq<nat>>, p: nat, i: nat) {
    p < |groups| && p < |out| && i < |groups[p]| && i < |out[p]| && out[p][i] == groups[p][i]
  }

  ghost predicate NewAt(groups: seq<seq<nat>>, frame: seq<nat>, out: seq<seq<nat>>, p: nat, i: nat) {
    && p < |out| && i + 1 == |out[p]| && out[p][i] in frame
    && i == (if p < |groups| then |groups[p]| else 0)
  }

  lemma OldOrNew(groups: seq<seq<nat>>, frame: seq<nat>, out: seq<seq<nat>>, p: nat, i: nat)
    requires SteppedTo(groups, frame, out) && p < |out| && i < |out[p]|
    ensures OldAt(groups, out, p, i) || NewAt(groups, frame, out, p, i)
    ensures p < |groups| && i < |groups[p]| ==> OldAt(groups, out, p, i)
  {
    if p < |groups| {
      assert GrewIn(frame, groups[p], out[p]);
      assert i < |groups[p]| ==> out[p][..|groups[p]|][i] == groups[p][i];
    }
  }

  // What was there came before the frame.
  ghost predicate AllEarlier(c: Clip, groups: seq<seq<nat>>, idx: int) {
    forall p, i :: 0 <= p < |groups| && 0 <= i < |groups[p]| ==> c.at(groups[p][i]).frameIdx < idx
  }

  lemma {:induction false} TrackIsEarlier(c: Clip, g: seq<nat>, idx: int, i: nat)
    requires Ended(c, g, idx) && i < |g|
    ensures c.at(g[i]).frameIdx < idx
    decreases |g| - i
  {
    if i + 1 < |g| {
      TrackIsEarlier(c, g, idx, i + 1);
      assert Follows(c, g[i], g[i+1]);
    }
  }

  lemma BeforeIsEarlier(c: Clip, groups: seq<seq<nat>>, idx: int)
    requires Before(c, groups, idx)
    ensures AllEarlier(c, groups, idx)
  {
    forall p, i | 0 <= p < |groups| && 0 <= i < |groups[p]| ensures c.at(groups[p][i]).frameIdx < idx {
      assert Ended(c, groups[p], idx);
      TrackIsEarlier(c, groups[p], idx, i);
    }
  }

  // A frame leaves what earlier frames settled.
  lemma OldStaysSteady(c: Clip, groups: seq<seq<nat>>, frame: seq<nat>, idx: int, out: seq<seq<nat>>,
                       p: nat, i: nat, q: nat, j: nat)
    requires SteppedTo(groups, frame, out) && AllEarlier(c, groups, idx)
    requires forall d :: d in frame ==> c.at(d).frameIdx == idx
    requires SteadyAt(c, groups, p, i, q, j) && OldAt(groups, out, p, i) && OldAt(groups, out, q, j)
    ensures SteadyAt(c, out, p, i, q, j)
  {
    assert GrewIn(frame, groups[p], out[p]);
    if i + 1 < |out[p]| {
      OldOrNew(groups, frame, out, p, i + 1);
    }
    if j > 0 {
      OldOrNew(groups, frame, out, q, j - 1);
    }
  }

  ghost predicate Apart(out: seq<seq<nat>>, p: nat, i: nat, q: nat, j: nat) {
    p < |out| && i < |out[p]| && q < |out| && j < |out[q]| && out[p][i] == out[q][j] ==> p == q && i == j
  }

  // Every detection is in one place.
  ghost predicate Once(out: seq<seq<nat>>) {
    forall p: nat, i: nat, q: nat, j: nat :: Apart(out, p, i, q, j)
  }

  // Only what a group ended with before the frame awaits a box of the frame.
  lemma AwaitsLast(c: Clip, groups: seq<seq<nat>>, frame: seq<nat>, idx: int, out: seq<seq<nat>>,
                   p: nat, i: nat, q: nat, j: nat)
    requires SteppedTo(groups, frame, out) && AllEarlier(c, groups, idx)
    requires forall d :: d in frame ==> c.at(d).frameIdx == idx
    requires OldAt(groups, out, p, i) && NewAt(groups, frame, out, q, j) && Awaits(c, out, p, i, q, j)
    ensures i + 1 == |groups[p]|
  {
    if i + 1 < |groups[p]| {
      OldOrNew(groups, frame, out, p, i + 1);
    }
  }

  lemma NewIsSteady(c: Clip, groups: seq<seq<nat>>, frame: seq<nat>, out: seq<seq<nat>>,
                    p: nat, i: nat, q: nat, j: nat)
    requires SteppedTo(groups, frame, out) && NonEmpty(groups) && Once(out)
    requires forall x, y :: x in frame && y in frame ==> c.at(x).frameIdx == c.at(y).frameIdx
    requires OldAt(groups, out, p, i) && NewAt(groups, frame, out, q, j) && i + 1 == |groups[p]|
    requires Awaits(c, out, p, i, q, j) && Settled(c, groups, out, p, out[q][j])
    ensures SteadyAt(c, out, p, i, q, j)
  {
    var k: nat, d: nat :| Instead(c, groups, out, p, out[q][j], k, d);
    var n := |groups[k]|;
    assert GrewIn(frame, groups[k], out[k]);
    assert out[k][n] == d && d in frame;
    if k == p {
      assert FollowedBetter(c, out, p, i, q, j);
    } else {
      assert Apart(out, k, n, q, j);
      assert n > 0 && out[k][n-1] == Last(groups[k]);
      assert JoinedBetter(c, out, p, i, q, j);
    }
  }

  // ---- From frame to frame

  lemma {:induction false} FlattenAt(groups: seq<seq<nat>>, p: nat, i: nat) returns (at: nat)
    requires p < |groups| && i < |groups[p]|
    ensures at < |Flatten(groups)| && Flatten(groups)[at] == groups[p][i]
    ensures at == |Flatten(groups[..p])| + i
  {
    SplitAround(groups, p);
    FlattenAppend(groups[..p] + [groups[p]], groups[p+1..]);
    FlattenAppend(groups[..p], [groups[p]]);
    FlattenOne(groups[p]);
    return |Flatten(groups[..p])| + i;
  }

  lemma FlattenOne(g: seq<nat>)
    ensures Flatten([g]) == g
  {
  }

  lemma FlattenBelow(groups: seq<seq<nat>>, p: nat, q: nat)
    requires p < q <= |groups|
    ensures |Flatten(groups[..p])| + |groups[p]| <= |Flatten(groups[..q])|
  {
    assert groups[..q] == groups[..p] + [groups[p]] + groups[p+1..q];
    FlattenAppend(groups[..p] + [groups[p]], groups[p+1..q]);
    FlattenAppend(groups[..p], [groups[p]]);
    FlattenOne(groups[p]);
  }

  lemma DistinctIsOnce(groups: seq<seq<nat>>)
    requires Distinct(Flatten(groups))
    ensures Once(groups)
  {
    forall p: nat, i: nat, q: nat, j: nat ensures Apart(groups, p, i, q, j) {
      if p < |groups| && i < |groups[p]| && q < |groups| && j < |groups[q]| && groups[p][i] == groups[q][j] {
        var a := FlattenAt(groups, p, i);
        var b := FlattenAt(groups, q, j);
        if p < q {
          FlattenBelow(groups, p, q);
        } else if q < p {
          FlattenBelow(groups, q, p);
        }
        assert a == b;
      }
    }
  }

  lemma StaysSteady(c: Clip, groups: seq<seq<nat>>, frame: seq<nat>, idx: int, out: seq<seq<nat>>)
    requires Steady(c, groups) && Before(c, groups, idx) && SteppedTo(groups, frame, out) && Once(out)
    requires forall d :: d in frame ==> c.at(d).frameIdx == idx
    requires forall k: nat, d :: k < |groups| && d in frame && Follows(c, Last(groups[k]), d) ==>
                                 Settled(c, groups, out, k, d)
    ensures Steady(c, out)
  {
    BeforeIsEarlier(c, groups, idx);
    BeforeNonEmpty(c, groups, idx);
    forall p: nat, i: nat, q: nat, j: nat ensures SteadyAt(c, out, p, i, q, j) {
      if Awaits(c, out, p, i, q, j) {
        SteadyNext(c, groups, frame, idx, out, p, i, q, j);
      }
    }
  }

  lemma SteadyNext(c: Clip, groups: seq<seq<nat>>, frame: seq<nat>, idx: int, out: seq<seq<nat>>,
                   p: nat, i: nat, q: nat, j: nat)
    requires SteadyAt(c, groups, p, i, q, j) && AllEarlier(c, groups, idx) && NonEmpty(groups)
    requires SteppedTo(groups, frame, out) && Once(out) && Awaits(c, out, p, i, q, j)
    requires forall d :: d in frame ==> c.at(d).frameIdx == idx
    requires forall k: nat, d :: k < |groups| && d in frame && Follows(c, Last(groups[k]), d) ==>
                                 Settled(c, groups, out, k, d)
    ensures SteadyAt(c, out, p, i, q, j)
  {
    OldOrNew(groups, frame, out, p, i);
    OldOrNew(groups, frame, out, q, j);
    AwaitsFromOld(c, groups, frame, idx, out, p, i, q, j);
    if OldAt(groups, out, q, j) {
      OldStaysSteady(c, groups, frame, idx, out, p, i, q, j);
    } else {
      AwaitsLast(c, groups, frame, idx, out, p, i, q, j);
      assert Follows(c, Last(groups[p]), out[q][j]);
      NewIsSteady(c, groups, frame, out, p, i, q, j);
    }
  }

  // What awaits a box came before it, so not with the frame.
  lemma AwaitsFromOld(c: Clip, groups: seq<seq<nat>>, frame: seq<nat>, idx: int, out: seq<seq<nat>>,
                      p: nat, i: nat, q: nat, j: nat)
    requires AllEarlier(c, groups, idx) && Awaits(c, out, p, i, q, j)
    requires forall d :: d in frame ==> c.at(d).frameIdx == idx
    requires OldAt(groups, out, p, i) || NewAt(groups, frame, out, p, i)
    requires OldAt(groups, out, q, j) || NewAt(groups, frame, out, q, j)
    ensures OldAt(groups, out, p, i)
  {
    if OldAt(groups, out, q, j) {
      assert c.at(groups[q][j]).frameIdx < idx;
    }
  }

  // The order in which detections come: by frame, and as they are listed.
  function InOrder(c: Clip): (nat, nat) -> bool {
    Ranks<nat>(ByFrame(c), Less())
  }

  function Less(): (nat, nat) -> bool {
    (a: nat, b: nat) => a < b
  }

  lemma FrameRises(c: Clip, order: seq<nat>, n: nat, idx: int)
    requires Pairwise(InOrder(c), order) && n <= |order|
    requires forall k :: 0 <= k < n ==> c.at(order[k]).frameIdx == idx
    ensures Rising(order[..n])
  {
    forall i, j | 0 <= i < j < n ensures order[i] < order[j] {
      assert InOrder(c)(order[i], order[j]);
    }
  }

  // ---- In order of first detection

  // The groups are listed as their first detections come, all of them before
  // the rest of the order.
  ghost predicate Listed(c: Clip, groups: seq<seq<nat>>, order: seq<nat>) {
    Pairwise(InOrder(c), Seeds(groups) + order)
  }

  lemma StaysListed(c: Clip, groups: seq<seq<nat>>, order: seq<nat>, n: nat, m: seq<Edge>)
    requires Listed(c, groups, order) && n <= |order| && NonEmpty(groups)
    ensures Listed(c, Extend(groups, order[..n], m), order[n..])
  {
    var frame, rest := order[..n], order[n..];
    SeedsOfExtend(groups, frame, m);
    SplitAt(order, n);
    PairwiseParts(InOrder(c), Seeds(groups), frame, rest);
    PairwiseFilter(InOrder(c), frame, Unjoined(m));
    var starts := Filter(Unjoined(m), frame);
    PairwiseAppend(InOrder(c), Seeds(groups), starts);
    PairwiseAppend(InOrder(c), Seeds(groups) + starts, rest);
  }

  lemma PairwiseParts<T>(related: (T, T) -> bool, a: seq<T>, b: seq<T>, d: seq<T>)
    requires Pairwise(related, a + (b + d))
    ensures Pairwise(related, a) && Pairwise(related, b) && Pairwise(related, d)
    ensures forall x, y :: x in a && (y in b || y in d) ==> related(x, y)
    ensures forall x, y :: x in b && y in d ==> related(x, y)
  {
    PairwiseSplit(related, a, b + d);
    PairwiseSplit(related, b, d);
  }

  lemma PairwiseSplit<T>(related: (T, T) -> bool, a: seq<T>, b: seq<T>)
    requires Pairwise(related, a + b)
    ensures Pairwise(related, a) && Pairwise(related, b)
    ensures forall x, y :: x in a && y in b ==> related(x, y)
  {
    var ab := a + b;
    forall i, j | 0 <= i < j < |b| ensures related(b[i], b[j]) {
      assert related(ab[|a| + i], ab[|a| + j]);
    }
    forall i, j | 0 <= i < j < |a| ensures related(a[i], a[j]) {
      assert related(ab[i], ab[j]);
    }
    forall x, y | x in a && y in b ensures related(x, y) {
      var i :| 0 <= i < |a| && a[i] == x;
      var j :| 0 <= j < |b| && b[j] == y;
      assert related(ab[i], ab[|a| + j]);
    }
  }

  lemma {:induction false} PairwiseFilter<T>(related: (T, T) -> bool, s: seq<T>, keep: T -> bool)
    requires Pairwise(related, s)
    ensures Pairwise(related, Filter(keep, s))
  {
    if s != [] {
      PairwiseFilter(related, s[1..], keep);
      forall y | y in Filter(keep, s[1..]) ensures related(s[0], y) {
        var k :| 0 <= k < |s[1..]| && s[1..][k] == y;
        assert related(s[0], s[k+1]);
      }
    }
  }

  // ---- The whole run

  lemma StepStaysSteady(c: Clip, groups: seq<seq<nat>>, order: seq<nat>, bound: int)
    requires Ready(c, groups, order, bound) && order != [] && Listed(c, groups, order) && Steady(c, groups)
    ensures var idx := c.at(order[0]).frameIdx;
            var n := Run(c, idx, order);
            var out := Step(c, groups, order[..n], idx);
            n > 0 && Ready(c, out, order[n..], idx + 1) && Listed(c, out, order[n..]) && Steady(c, out)
  {
    var idx := c.at(order[0]).frameIdx;
    var n := Run(c, idx, order);
    var frame, out := order[..n], Step(c, groups, order[..n], idx);
    StepKeeps(c, groups, order, bound);
    LaterStill(c, groups, bound, idx);
    BeforeNonEmpty(c, groups, idx);
    StaysListed(c, groups, order, n, Joins(c, groups, frame, idx));
    PairwiseSplit(InOrder(c), Seeds(groups), order);
    FrameRises(c, order, n, idx);
    StepShape(c, groups, frame, idx);
    PartIsDistinct(Flatten(out), order[n..]);
    DistinctIsOnce(out);
    FramePrefersOverlap(c, groups, frame, idx, out);
    StaysSteady(c, groups, frame, idx, out);
  }

  lemma PartIsDistinct<T>(a: seq<T>, b: seq<T>)
    requires Distinct(a + b)
    ensures Distinct(a)
  {
    forall i, j | 0 <= i < j < |a| ensures a[i] != a[j] {
      assert (a + b)[i] != (a + b)[j];
    }
  }

  lemma FramePrefersOverlap(c: Clip, groups: seq<seq<nat>>, frame: seq<nat>, idx: int, out: seq<seq<nat>>)
    requires Before(c, groups, idx) && Rising(frame) && forall x :: x in frame ==> c.at(x).frameIdx == idx
    requires out == Step(c, groups, frame, idx)
    ensures forall k: nat, d :: k < |groups| && d in frame && Follows(c, Last(groups[k]), d) ==>
                                Settled(c, groups, out, k, d)
  {
    forall k: nat, d | k < |groups| && d in frame && Follows(c, Last(groups[k]), d)
      ensures Settled(c, groups, out, k, d)
    {
      StepPrefersOverlap(c, groups, frame, idx, k, d);
    }
  }

  lemma {:induction false} LinkIsSteady(c: Clip, groups: seq<seq<nat>>, order: seq<nat>, bound: int)
    requires Ready(c, groups, order, bound) && Listed(c, groups, order) && Steady(c, groups)
    ensures Steady(c, LinkOrder(c, groups, order))
    ensures Pairwise(InOrder(c), Seeds(LinkOrder(c, groups, order)))
    decreases |order|
  {
    if order == [] {
      assert Seeds(groups) + order == Seeds(groups);
    } else {
      var idx := c.at(order[0]).frameIdx;
      var n := Run(c, idx, order);
      StepStaysSteady(c, groups, order, bound);
      LinkIsSteady(c, Step(c, groups, order[..n], idx), order[n..], idx + 1);
    }
  }

  lemma OrderListed(c: Clip, n: nat)
    ensures Listed(c, [], Order(c, n))
  {
    ByFrameIsWeakOrder(c);
    SortRanks<nat>(ByFrame(c), Less(), Indices(n));
    assert Seeds([]) + Order(c, n) == Order(c, n);
  }

  // The groups are listed by their first detections, and no detection could
  // continue a track it overlaps more than the one it continues while that
  // track is continued by one it overlaps less, or by none.
  lemma LinkedIsSteady(dets: seq<Detection>, overlap: Overlap)
    ensures var c := Clip(DetectionAt(dets), overlap);
            Steady(c, Linked(dets, overlap)) && Pairwise(InOrder(c), Seeds(Linked(dets, overlap)))
  {
    var c := Clip(DetectionAt(dets), overlap);
    OrderReady(c, Indices(|dets|));
    OrderListed(c, |dets|);
    LinkIsSteady(c, [], Order(c, |dets|), if Order(c, |dets|) == [] then 0 else c.at(Order(c, |dets|)[0]).frameIdx);
  }
}
