// Targets do not interact: linking a mix of targets gives each target the
// tracks it would get alone.
module LinkTargets {
  import opened Sequences
  import opened StableSorting
  import opened GreedyMatching
  import opened MatchingParts
  import opened Geometry
  import opened LinkTracks

  function OfTarget(c: Clip, target: nat): nat -> bool {
    (d: nat) => c.at(d).target == target
  }

  function GroupOfTarget(c: Clip, target: nat): seq<nat> -> bool {
    (g: seq<nat>) => c.at(Seed(g)).target == target
  }

  function EdgeOfTarget(c: Clip, target: nat): Edge -> bool {
    (e: Edge) => c.at(e.left).target == target
  }

  // ---- One frame

  // Edges join within a target.
  ghost predicate Within(c: Clip, m: seq<Edge>) {
    forall e :: e in m ==> c.at(e.left).target == c.at(e.right).target
  }

  lemma JoinsWithin(c: Clip, groups: seq<seq<nat>>, frame: seq<nat>, idx: int, edges: seq<Edge>)
    requires NonEmpty(groups) && forall e :: e in edges ==> Joined(c, groups, frame, idx, e)
    ensures Within(c, edges)
  {
    forall e | e in edges ensures c.at(e.left).target == c.at(e.right).target {
      assert Joined(c, groups, frame, idx, e);
      var k :| JoinsAt(c, groups, idx, e, k);
      assert groups[k] != [];
    }
  }

  lemma JoinsOfTarget(c: Clip, groups: seq<seq<nat>>, frame: seq<nat>, idx: int, target: nat)
    requires NonEmpty(groups)
    ensures Filter(EdgeOfTarget(c, target), Joins(c, groups, frame, idx)) ==
            Joins(c, Filter(GroupOfTarget(c, target), groups), Filter(OfTarget(c, target), frame), idx)
  {
    var weigh, ls, rs := Weigh(c, idx), Map(IdItem(), frame), Map(SeedItem(), groups);
    var edges, keep := Candidates(weigh, ls, rs), EdgeOfTarget(c, target);
    var keepL, keepR := OnVal(OfTarget(c, target)), OnVal(GroupOfTarget(c, target));
    forall e | e in edges ensures Joined(c, groups, frame, idx, e) {
      CandidatesJoin(c, groups, frame, idx, e);
    }
    JoinsWithin(c, groups, frame, idx, edges);
    assert Separates(keep, edges);
    GreedyFilter(keep, edges);
    CandidatesFilter(weigh, ls, rs, keepL, keepR, keep);
    FilterMap(IdItem(), keepL, OfTarget(c, target), frame);
    FilterMap(SeedItem(), keepR, GroupOfTarget(c, target), groups);
  }

  lemma GrowOfTarget(c: Clip, groups: seq<seq<nat>>, m: seq<Edge>, target: nat)
    requires NonEmpty(groups) && Within(c, m)
    ensures Filter(GroupOfTarget(c, target), Map(Grow(m), groups)) ==
            Map(Grow(Filter(EdgeOfTarget(c, target), m)), Filter(GroupOfTarget(c, target), groups))
  {
    var own, keep := GroupOfTarget(c, target), EdgeOfTarget(c, target);
    forall g | g in groups ensures own(Grow(m)(g)) == own(g) {
      assert g != [];
    }
    FilterMap(Grow(m), own, own, groups);
    var kept := Filter(own, groups);
    forall k | 0 <= k < |kept| ensures Grow(m)(kept[k]) == Grow(Filter(keep, m))(kept[k]) {
      assert kept[k] in kept;
      var ends := EndsAt(Seed(kept[k]));
      FilterTwice(ends, keep, ends, m);
    }
  }

  function Both<T>(p: T -> bool, q: T -> bool): T -> bool {
    (x: T) => p(x) && q(x)
  }

  lemma UnjoinedOfTarget(c: Clip, frame: seq<nat>, m: seq<Edge>, target: nat)
    ensures Filter(OfTarget(c, target), Filter(Unjoined(m), frame)) ==
            Filter(Unjoined(Filter(EdgeOfTarget(c, target), m)), Filter(OfTarget(c, target), frame))
  {
    var own, keep := OfTarget(c, target), EdgeOfTarget(c, target);
    var mT := Filter(keep, m);
    forall d | d in frame && own(d) ensures Unjoined(m)(d) == Unjoined(mT)(d) {
      if d in Map(Left(), m) {
        var i :| 0 <= i < |m| && m[i].left == d;
        assert m[i] in m && m[i] in mT;
        var j :| 0 <= j < |mT| && mT[j] == m[i];
        assert Map(Left(), mT)[j] == d;
      }
      if d in Map(Left(), mT) {
        var j :| 0 <= j < |mT| && mT[j].left == d;
        assert mT[j] in mT && mT[j] in m;
        var i :| 0 <= i < |m| && m[i] == mT[j];
        assert Map(Left(), m)[i] == d;
      }
    }
    FilterTwice(own, Unjoined(m), Both(own, Unjoined(m)), frame);
    FilterTwice(Unjoined(mT), own, Both(own, Unjoined(m)), frame);
  }

  lemma ExtendOfTarget(c: Clip, groups: seq<seq<nat>>, frame: seq<nat>, m: seq<Edge>, target: nat)
    requires NonEmpty(groups) && Within(c, m)
    ensures Filter(GroupOfTarget(c, target), Extend(groups, frame, m)) ==
            Extend(Filter(GroupOfTarget(c, target), groups), Filter(OfTarget(c, target), frame),
                   Filter(EdgeOfTarget(c, target), m))
  {
    var own := GroupOfTarget(c, target);
    var starts := Filter(Unjoined(m), frame);
    FilterAppend(own, Map(Grow(m), groups), Map(Start(), starts));
    GrowOfTarget(c, groups, m, target);
    FilterMap(Start(), own, OfTarget(c, target), starts);
    UnjoinedOfTarget(c, frame, m, target);
  }

  lemma StepOfTarget(c: Clip, groups: seq<seq<nat>>, frame: seq<nat>, idx: int, target: nat)
    requires NonEmpty(groups)
    ensures Filter(GroupOfTarget(c, target), Step(c, groups, frame, idx)) ==
            Step(c, Filter(GroupOfTarget(c, target), groups), Filter(OfTarget(c, target), frame), idx)
  {
    StepIsStable(c, groups, frame, idx);
    JoinsWithin(c, groups, frame, idx, Joins(c, groups, frame, idx));
    JoinsOfTarget(c, groups, frame, idx, target);
    ExtendOfTarget(c, groups, frame, Joins(c, groups, frame, idx), target);
  }

  // A frame without detections leaves the groups alone.
  lemma StepNothing(c: Clip, groups: seq<seq<nat>>, idx: int)
    ensures Step(c, groups, [], idx) == groups
  {
    assert Map(IdItem(), []) == [];
    assert Joins(c, groups, [], idx) == [];
    forall k | 0 <= k < |groups| ensures Grow([])(groups[k]) == groups[k] {
      assert Grow([])(groups[k]) == groups[k] + [];
    }
    assert Map(Grow([]), groups) == groups;
  }

  // ---- Whole runs

  lemma {:induction false} RunOfPrefix(c: Clip, idx: int, frame: seq<nat>, rest: seq<nat>)
    requires forall d :: d in frame ==> c.at(d).frameIdx == idx
    requires forall d :: d in rest ==> c.at(d).frameIdx != idx
    ensures Run(c, idx, frame + rest) == |frame|
  {
    if frame == [] {
      assert frame + rest == rest;
      assert rest != [] ==> rest[0] in rest;
    } else {
      assert (frame + rest)[1..] == frame[1..] + rest;
      assert frame[0] in frame;
      RunOfPrefix(c, idx, frame[1..], rest);
    }
  }

  lemma LinkPrefix(c: Clip, groups: seq<seq<nat>>, idx: int, frame: seq<nat>, rest: seq<nat>)
    requires forall d :: d in frame ==> c.at(d).frameIdx == idx
    requires forall d :: d in rest ==> c.at(d).frameIdx != idx
    ensures LinkOrder(c, groups, frame + rest) == LinkOrder(c, Step(c, groups, frame, idx), rest)
  {
    if frame == [] {
      assert frame + rest == rest;
      StepNothing(c, groups, idx);
    } else {
      var order := frame + rest;
      assert order[0] in frame;
      RunOfPrefix(c, idx, frame, rest);
      assert order[..|frame|] == frame && order[|frame|..] == rest;
    }
  }

  lemma LaterFrames(c: Clip, order: seq<nat>)
    requires Ordered(ByFrame(c), order) && order != []
    ensures var idx := c.at(order[0]).frameIdx;
            var n := Run(c, idx, order);
            && (forall d :: d in order[..n] ==> c.at(d).frameIdx == idx)
            && (forall d :: d in order[n..] ==> c.at(d).frameIdx != idx)
  {
    var idx := c.at(order[0]).frameIdx;
    var n := Run(c, idx, order);
    forall k | n <= k < |order| ensures c.at(order[k]).frameIdx != idx {
      assert !ByFrame(c)(order[n], order[0]);
      assert k > n ==> !ByFrame(c)(order[k], order[n]);
    }
  }

  lemma LinkOfTargetStep(c: Clip, groups: seq<seq<nat>>, order: seq<nat>, target: nat)
    requires NonEmpty(groups) && Ordered(ByFrame(c), order) && order != []
    ensures var idx := c.at(order[0]).frameIdx;
            var n := Run(c, idx, order);
            LinkOrder(c, Filter(GroupOfTarget(c, target), groups), Filter(OfTarget(c, target), order)) ==
            LinkOrder(c, Filter(GroupOfTarget(c, target), Step(c, groups, order[..n], idx)),
                      Filter(OfTarget(c, target), order[n..]))
  {
    var own := OfTarget(c, target);
    var idx := c.at(order[0]).frameIdx;
    var n := Run(c, idx, order);
    LaterFrames(c, order);
    StepOfTarget(c, groups, order[..n], idx, target);
    LinkPrefix(c, Filter(GroupOfTarget(c, target), groups), idx, Filter(own, order[..n]), Filter(own, order[n..]));
    SplitAt(order, n);
    FilterAppend(own, order[..n], order[n..]);
  }

  lemma {:induction false} LinkOfTarget(c: Clip, groups: seq<seq<nat>>, order: seq<nat>, bound: int, target: nat)
    requires Ready(c, groups, order, bound)
    ensures Filter(GroupOfTarget(c, target), LinkOrder(c, groups, order)) ==
            LinkOrder(c, Filter(GroupOfTarget(c, target), groups), Filter(OfTarget(c, target), order))
    decreases |order|
  {
    if order != [] {
      var idx := c.at(order[0]).frameIdx;
      var n := Run(c, idx, order);
      StepKeeps(c, groups, order, bound);
      BeforeNonEmpty(c, groups, bound);
      LinkOfTarget(c, Step(c, groups, order[..n], idx), order[n..], idx + 1, target);
      LinkOfTargetStep(c, groups, order, target);
    }
  }

  // ---- Other indexes for the same detections

  function MapIds(f: nat -> nat): seq<nat> -> seq<nat> {
    (g: seq<nat>) => Map(f, g)
  }

  // small shows the detections of big that f points at.
  ghost predicate Shows(small: Clip, big: Clip, f: nat -> nat, n: nat) {
    && small.overlap == big.overlap
    && InjectiveBelow(f, n)
    && (forall k: nat :: k < n ==> small.at(k) == big.at(f(k)))
  }

  ghost predicate GroupsBelow(groups: seq<seq<nat>>, n: nat) {
    forall k :: 0 <= k < |groups| ==> groups[k] != [] && forall x :: x in groups[k] ==> x < n
  }

  ghost predicate Below(ids: seq<nat>, n: nat) {
    forall x :: x in ids ==> x < n
  }

  function RenameDet(f: nat -> nat): Item<nat> -> Item<nat> {
    (x: Item<nat>) => Item(f(x.id), f(x.val))
  }

  function RenameGroup(f: nat -> nat): Item<seq<nat>> -> Item<seq<nat>> {
    (x: Item<seq<nat>>) => Item(f(x.id), Map(f, x.val))
  }

  lemma WeighRenamed(small: Clip, big: Clip, f: nat -> nat, n: nat, idx: int, d: nat, g: seq<nat>)
    requires Shows(small, big, f, n) && d < n && g != [] && Below(g, n)
    ensures Weigh(big, idx)(f(d), Map(f, g)) == Weigh(small, idx)(d, g)
  {
    assert g[0] in g && g[|g|-1] in g;
    assert small.at(d) == big.at(f(d)) && small.at(g[0]) == big.at(f(g[0]))
           && small.at(g[|g|-1]) == big.at(f(g[|g|-1]));
    assert Map(f, g)[0] == f(g[0]) && Map(f, g)[|g|-1] == f(g[|g|-1]);
    WeighSame(small, big, idx, d, g, f(d), Map(f, g));
  }

  // A weight depends only on the detection and the ends of the group.
  lemma WeighSame(c: Clip, e: Clip, idx: int, d: nat, g: seq<nat>, d': nat, g': seq<nat>)
    requires c.overlap == e.overlap && c.at(d) == e.at(d') && g != [] && g' != []
    requires c.at(g[0]) == e.at(g'[0]) && c.at(g[|g|-1]) == e.at(g'[|g'|-1])
    ensures Weigh(c, idx)(d, g) == Weigh(e, idx)(d', g')
  {
  }

  lemma JoinedBelow(c: Clip, groups: seq<seq<nat>>, frame: seq<nat>, idx: int, n: nat, m: seq<Edge>)
    requires GroupsBelow(groups, n) && Below(frame, n) && forall e :: e in m ==> Joined(c, groups, frame, idx, e)
    ensures forall e :: e in m ==> e.left < n && e.right < n
  {
    forall e | e in m ensures e.left < n && e.right < n {
      assert Joined(c, groups, frame, idx, e);
      var k :| JoinsAt(c, groups, idx, e, k);
      assert groups[k][0] in groups[k];
    }
  }

  lemma WeighsRenamed(small: Clip, big: Clip, f: nat -> nat, n: nat, groups: seq<seq<nat>>, frame: seq<nat>, idx: int,
                      l: Item<nat>, r: Item<seq<nat>>)
    requires Shows(small, big, f, n) && GroupsBelow(groups, n) && Below(frame, n)
    requires l in Map(IdItem(), frame) && r in Map(SeedItem(), groups)
    ensures Weigh(big, idx)(RenameDet(f)(l).val, RenameGroup(f)(r).val) == Weigh(small, idx)(l.val, r.val)
  {
    var i :| 0 <= i < |frame| && IdItem()(frame[i]) == l;
    var k :| 0 <= k < |groups| && SeedItem()(groups[k]) == r;
    assert frame[i] in frame;
    WeighRenamed(small, big, f, n, idx, frame[i], groups[k]);
  }

  lemma CandidatesRenamed(small: Clip, big: Clip, f: nat -> nat, n: nat, groups: seq<seq<nat>>, frame: seq<nat>,
                          idx: int)
    requires Shows(small, big, f, n) && GroupsBelow(groups, n) && Below(frame, n)
    ensures Candidates(Weigh(big, idx), Map(IdItem(), Map(f, frame)), Map(SeedItem(), Map(MapIds(f), groups))) ==
            Map(Renamed(f, f), Candidates(Weigh(small, idx), Map(IdItem(), frame), Map(SeedItem(), groups)))
  {
    var ls, rs := Map(IdItem(), frame), Map(SeedItem(), groups);
    forall l, r | l in ls && r in rs
      ensures Weigh(big, idx)(RenameDet(f)(l).val, RenameGroup(f)(r).val) == Weigh(small, idx)(l.val, r.val)
    {
      WeighsRenamed(small, big, f, n, groups, frame, idx, l, r);
    }
    CandidatesRename(Weigh(small, idx), Weigh(big, idx), ls, rs, RenameDet(f), RenameGroup(f), f, f);
    ItemsRenamed(f, frame);
    GroupsRenamed(f, groups, n);
  }

  lemma ItemsRenamed(f: nat -> nat, frame: seq<nat>)
    ensures Map(RenameDet(f), Map(IdItem(), frame)) == Map(IdItem(), Map(f, frame))
  {
  }

  lemma GroupsRenamed(f: nat -> nat, groups: seq<seq<nat>>, n: nat)
    requires GroupsBelow(groups, n)
    ensures Map(RenameGroup(f), Map(SeedItem(), groups)) == Map(SeedItem(), Map(MapIds(f), groups))
  {
    forall k | 0 <= k < |groups| ensures f(Seed(groups[k])) == Seed(Map(f, groups[k])) {
      assert groups[k] != [];
    }
  }

  lemma JoinsRenamed(small: Clip, big: Clip, f: nat -> nat, n: nat, groups: seq<seq<nat>>, frame: seq<nat>, idx: int)
    requires Shows(small, big, f, n) && GroupsBelow(groups, n) && Below(frame, n)
    ensures Joins(big, Map(MapIds(f), groups), Map(f, frame), idx) ==
            Map(Renamed(f, f), Joins(small, groups, frame, idx))
  {
    var ls, rs := Map(IdItem(), frame), Map(SeedItem(), groups);
    CandidatesRenamed(small, big, f, n, groups, frame, idx);
    var edges := Candidates(Weigh(small, idx), ls, rs);
    forall e | e in edges ensures Joined(small, groups, frame, idx, e) {
      CandidatesJoin(small, groups, frame, idx, e);
    }
    JoinedBelow(small, groups, frame, idx, n, edges);
    GreedyRename(f, f, edges, n, n);
  }

  lemma GrowRenamed(f: nat -> nat, n: nat, m: seq<Edge>, g: seq<nat>)
    requires InjectiveBelow(f, n) && g != [] && Below(g, n) && forall e :: e in m ==> e.left < n && e.right < n
    ensures Grow(Map(Renamed(f, f), m))(Map(f, g)) == Map(f, Grow(m)(g))
  {
    assert g[0] in g;
    var ends, endsF := EndsAt(Seed(g)), EndsAt(f(Seed(g)));
    FilterMap(Renamed(f, f), endsF, ends, m);
    var here := Filter(ends, m);
    assert Map(Left(), Map(Renamed(f, f), here)) == Map(f, Map(Left(), here));
    MapAppend(f, g, Map(Left(), here));
  }

  lemma UnjoinedRenamed(f: nat -> nat, n: nat, m: seq<Edge>, frame: seq<nat>)
    requires InjectiveBelow(f, n) && Below(frame, n) && forall e :: e in m ==> e.left < n
    ensures Filter(Unjoined(Map(Renamed(f, f), m)), Map(f, frame)) == Map(f, Filter(Unjoined(m), frame))
  {
    var mF := Map(Renamed(f, f), m);
    forall d | d in frame ensures Unjoined(mF)(f(d)) == Unjoined(m)(d) {
      if d in Map(Left(), m) {
        var i :| 0 <= i < |m| && m[i].left == d;
        assert Map(Left(), mF)[i] == f(d);
      }
      if f(d) in Map(Left(), mF) {
        var i :| 0 <= i < |mF| && mF[i].left == f(d);
        assert m[i] in m && f(m[i].left) == f(d);
        assert Map(Left(), m)[i] == d;
      }
    }
    FilterMap(f, Unjoined(mF), Unjoined(m), frame);
  }

  lemma StartsRenamed(f: nat -> nat, ids: seq<nat>)
    ensures Map(Start(), Map(f, ids)) == Map(MapIds(f), Map(Start(), ids))
  {
    forall k | 0 <= k < |ids| ensures [f(ids[k])] == Map(f, [ids[k]]) {
    }
  }

  lemma ExtendRenamed(f: nat -> nat, n: nat, groups: seq<seq<nat>>, frame: seq<nat>, m: seq<Edge>)
    requires InjectiveBelow(f, n) && GroupsBelow(groups, n) && Below(frame, n)
    requires forall e :: e in m ==> e.left < n && e.right < n
    ensures Extend(Map(MapIds(f), groups), Map(f, frame), Map(Renamed(f, f), m)) ==
            Map(MapIds(f), Extend(groups, frame, m))
    ensures GroupsBelow(Extend(groups, frame, m), n)
  {
    var starts := Filter(Unjoined(m), frame);
    var mF := Map(Renamed(f, f), m);
    UnjoinedRenamed(f, n, m, frame);
    forall k | 0 <= k < |groups| ensures Grow(mF)(Map(f, groups[k])) == Map(f, Grow(m)(groups[k])) {
      GrowRenamed(f, n, m, groups[k]);
    }
    MapAppend(MapIds(f), Map(Grow(m), groups), Map(Start(), starts));
    assert Map(Grow(mF), Map(MapIds(f), groups)) == Map(MapIds(f), Map(Grow(m), groups));
    StartsRenamed(f, starts);
    ExtendBelow(n, groups, frame, m);
  }

  lemma ExtendBelow(n: nat, groups: seq<seq<nat>>, frame: seq<nat>, m: seq<Edge>)
    requires GroupsBelow(groups, n) && Below(frame, n) && forall e :: e in m ==> e.left < n
    ensures GroupsBelow(Extend(groups, frame, m), n)
  {
    var out, starts := Extend(groups, frame, m), Filter(Unjoined(m), frame);
    forall k, x | 0 <= k < |out| && x in out[k] ensures x < n {
      if k < |groups| {
        var here := Filter(EndsAt(Seed(groups[k])), m);
        if x !in groups[k] {
          assert x in Map(Left(), here);
          var i :| 0 <= i < |here| && here[i].left == x;
          assert here[i] in here && here[i] in m;
        }
      } else {
        assert starts[k - |groups|] in starts;
      }
    }
  }

  lemma StepRenamed(small: Clip, big: Clip, f: nat -> nat, n: nat, groups: seq<seq<nat>>, frame: seq<nat>, idx: int)
    requires Shows(small, big, f, n) && GroupsBelow(groups, n) && Below(frame, n)
    ensures Step(big, Map(MapIds(f), groups), Map(f, frame), idx) == Map(MapIds(f), Step(small, groups, frame, idx))
    ensures GroupsBelow(Step(small, groups, frame, idx), n)
  {
    JoinsRenamed(small, big, f, n, groups, frame, idx);
    StepIsStable(small, groups, frame, idx);
    JoinedBelow(small, groups, frame, idx, n, Joins(small, groups, frame, idx));
    ExtendRenamed(f, n, groups, frame, Joins(small, groups, frame, idx));
  }

  lemma {:induction false} RunRenamed(small: Clip, big: Clip, f: nat -> nat, n: nat, idx: int, order: seq<nat>)
    requires Shows(small, big, f, n) && Below(order, n)
    ensures Run(big, idx, Map(f, order)) == Run(small, idx, order)
  {
    if order != [] {
      assert order[0] in order;
      SplitAt(order, 1);
      MapStep(f, order);
      RunRenamed(small, big, f, n, idx, order[1..]);
    }
  }

  lemma MapSplit(f: nat -> nat, s: seq<nat>, k: nat)
    requires k <= |s|
    ensures Map(f, s)[..k] == Map(f, s[..k]) && Map(f, s)[k..] == Map(f, s[k..])
  {
  }

  lemma LinkOnce(c: Clip, groups: seq<seq<nat>>, order: seq<nat>, idx: int, k: nat)
    requires order != [] && idx == c.at(order[0]).frameIdx && k == Run(c, idx, order)
    ensures LinkOrder(c, groups, order) == LinkOrder(c, Step(c, groups, order[..k], idx), order[k..])
  {
  }

  // One frame of both.
  lemma LinkOnceRenamed(small: Clip, big: Clip, f: nat -> nat, n: nat, groups: seq<seq<nat>>, order: seq<nat>,
                        idx: int, k: nat)
    requires Shows(small, big, f, n) && GroupsBelow(groups, n) && Below(order, n)
    requires order != [] && idx == small.at(order[0]).frameIdx
             && k == Run(small, idx, order) == Run(big, idx, Map(f, order))
    ensures var next := Step(small, groups, order[..k], idx);
            && GroupsBelow(next, n) && Below(order[k..], n) && k > 0
            && LinkOrder(small, groups, order) == LinkOrder(small, next, order[k..])
            && LinkOrder(big, Map(MapIds(f), groups), Map(f, order)) ==
               LinkOrder(big, Map(MapIds(f), next), Map(f, order[k..]))
  {
    FirstFrame(small, big, f, n, order);
    MapSplit(f, order, k);
    BelowParts(order, n, k);
    LinkOnce(small, groups, order, idx, k);
    LinkOnce(big, Map(MapIds(f), groups), Map(f, order), idx, k);
    StepRenamed(small, big, f, n, groups, order[..k], idx);
  }

  lemma FirstFrame(small: Clip, big: Clip, f: nat -> nat, n: nat, order: seq<nat>)
    requires Shows(small, big, f, n) && Below(order, n) && order != []
    ensures Map(f, order) != [] && big.at(Map(f, order)[0]).frameIdx == small.at(order[0]).frameIdx
    ensures Run(small, small.at(order[0]).frameIdx, order) > 0
  {
    assert order[0] in order;
    assert small.at(order[0]) == big.at(f(order[0]));
  }

  lemma BelowParts(order: seq<nat>, n: nat, k: nat)
    requires Below(order, n) && k <= |order|
    ensures Below(order[..k], n) && Below(order[k..], n)
  {
    SplitAt(order, k);
  }

  lemma {:induction false} LinkRenamed(small: Clip, big: Clip, f: nat -> nat, n: nat, groups: seq<seq<nat>>,
                                       order: seq<nat>)
    requires Shows(small, big, f, n) && GroupsBelow(groups, n) && Below(order, n)
    ensures LinkOrder(big, Map(MapIds(f), groups), Map(f, order)) == Map(MapIds(f), LinkOrder(small, groups, order))
    decreases |order|
  {
    if order != [] {
      assert order[0] in order;
      var idx := small.at(order[0]).frameIdx;
      RunRenamed(small, big, f, n, idx, order);
      var k := Run(small, idx, order);
      LinkOnceRenamed(small, big, f, n, groups, order, idx, k);
      LinkRenamed(small, big, f, n, Step(small, groups, order[..k], idx), order[k..]);
    }
  }

  // ---- The theorem

  function HasTarget(target: nat): Detection -> bool {
    (d: Detection) => d.target == target
  }

  // The clip of one target's detections alone.
  function Alone(dets: seq<Detection>, overlap: Overlap, target: nat): Clip {
    Clip(DetectionAt(Filter(HasTarget(target), dets)), overlap)
  }

  lemma AloneShows(dets: seq<Detection>, overlap: Overlap, target: nat)
    ensures Shows(Alone(dets, overlap, target), Clip(DetectionAt(dets), overlap),
                  At(Positions(HasTarget(target), dets)), |Filter(HasTarget(target), dets)|)
  {
    PositionsInjective(HasTarget(target), dets);
    PositionsOfFilter(HasTarget(target), dets);
  }

  lemma PositionsAreIndices(dets: seq<Detection>, overlap: Overlap, target: nat)
    ensures Positions(HasTarget(target), dets) ==
            Filter(OfTarget(Clip(DetectionAt(dets), overlap), target), Indices(|dets|))
  {
    var c := Clip(DetectionAt(dets), overlap);
    assert Map(Id(), Number(dets)) == Indices(|dets|);
    FilterMap(Id(), OfTarget(c, target), OnVal(HasTarget(target)), Number(dets));
  }

  lemma OrderRenamed(small: Clip, big: Clip, f: nat -> nat, n: nat)
    requires Shows(small, big, f, n)
    ensures Map(f, Order(small, n)) == StableSort(ByFrame(big), Map(f, Indices(n)))
  {
    forall x, y | x in Indices(n) && y in Indices(n) ensures ByFrame(big)(f(x), f(y)) == ByFrame(small)(x, y) {
      assert small.at(x) == big.at(f(x)) && small.at(y) == big.at(f(y));
    }
    MapSort(ByFrame(small), ByFrame(big), f, Indices(n));
  }

  lemma OrderOfTarget(dets: seq<Detection>, overlap: Overlap, target: nat)
    ensures Filter(OfTarget(Clip(DetectionAt(dets), overlap), target),
                   Order(Clip(DetectionAt(dets), overlap), |dets|)) ==
            Map(At(Positions(HasTarget(target), dets)),
                Order(Alone(dets, overlap, target), |Filter(HasTarget(target), dets)|))
  {
    var c := Clip(DetectionAt(dets), overlap);
    var n, pos := |Filter(HasTarget(target), dets)|, Positions(HasTarget(target), dets);
    ByFrameIsWeakOrder(c);
    FilterSort(ByFrame(c), OfTarget(c, target), Indices(|dets|));
    PositionsAreIndices(dets, overlap, target);
    PositionsOfFilter(HasTarget(target), dets);
    assert Map(At(pos), Indices(n)) == pos;
    AloneShows(dets, overlap, target);
    OrderRenamed(Alone(dets, overlap, target), c, At(pos), n);
  }

  lemma LinkedFiltered(c: Clip, n: nat, target: nat)
    ensures Filter(GroupOfTarget(c, target), LinkOrder(c, [], Order(c, n))) ==
            LinkOrder(c, [], Filter(OfTarget(c, target), Order(c, n)))
  {
    var order := Order(c, n);
    OrderReady(c, Indices(n));
    LinkOfTarget(c, [], order, if order == [] then 0 else c.at(order[0]).frameIdx, target);
  }

  lemma LinkedRenamed(small: Clip, big: Clip, f: nat -> nat, n: nat)
    requires Shows(small, big, f, n)
    ensures LinkOrder(big, [], Map(f, Order(small, n))) == Map(MapIds(f), LinkOrder(small, [], Order(small, n)))
  {
    assert forall x :: x in Order(small, n) ==> x in Indices(n);
    LinkRenamed(small, big, f, n, [], Order(small, n));
    assert Map(MapIds(f), []) == [];
  }

  // Linking one target's detections alone gives, at their own indexes,
  // exactly the tracks that target gets when all detections are linked
  // together, in the same order.
  lemma LinkedOfTarget(dets: seq<Detection>, overlap: Overlap, target: nat)
    ensures Filter(GroupOfTarget(Clip(DetectionAt(dets), overlap), target), Linked(dets, overlap)) ==
            Map(MapIds(At(Positions(HasTarget(target), dets))), Linked(Filter(HasTarget(target), dets), overlap))
  {
    var c := Clip(DetectionAt(dets), overlap);
    LinkedFiltered(c, |dets|, target);
    OrderOfTarget(dets, overlap, target);
    AloneShows(dets, overlap, target);
    LinkedRenamed(Alone(dets, overlap, target), c, At(Positions(HasTarget(target), dets)),
                  |Filter(HasTarget(target), dets)|);
  }
}
