// The linker as it runs: open tracks are updated in place, and those that
// ended too long ago are dropped before each frame. It returns the same groups
// as linking without dropping any.
module Linker {
  import opened Sequences
  import opened StableSorting
  import opened GreedyMatching
  import opened MatchingParts
  import opened Geometry
  import opened LinkTracks
  import opened LinkStability
  import opened OpenTracks

  // ---- Joining

  lemma GrowSnoc(m: seq<Edge>, e: Edge, g: seq<nat>)
    ensures Grow(m + [e])(g) == Grow(m)(g) + (if e.right == Seed(g) then [e.left] else [])
  {
    var ends := EndsAt(Seed(g));
    FilterAppend(ends, m, [e]);
    MapAppend(Left(), Filter(ends, m), Filter(ends, [e]));
  }

  lemma JoinGroups(c: Clip, groups0: seq<seq<nat>>, views0: seq<View>, groups: seq<seq<nat>>, picked: seq<Edge>,
                   p: Edge)
    requires Current(c, groups0, views0) && Distinct(Seeds(groups0)) && p.right < |views0|
    requires groups == Map(Grow(Named(groups0, views0, picked)), groups0)
    ensures var at := views0[p.right].group;
            groups[at := groups[at] + [p.left]] == Map(Grow(Named(groups0, views0, picked + [p])), groups0)
  {
    var m := Named(groups0, views0, picked);
    var e := Renamed(Self(), SeedAt(groups0, views0))(p);
    MapAppend(Renamed(Self(), SeedAt(groups0, views0)), picked, [p]);
    assert Named(groups0, views0, picked + [p]) == m + [e];
    JoinGroup(groups0, groups, m, e, views0[p.right].group);
  }

  lemma JoinGroup(groups0: seq<seq<nat>>, groups: seq<seq<nat>>, m: seq<Edge>, e: Edge, at: nat)
    requires Distinct(Seeds(groups0)) && at < |groups0| && e.right == Seed(groups0[at])
    requires groups == Map(Grow(m), groups0)
    ensures groups[at := groups[at] + [e.left]] == Map(Grow(m + [e]), groups0)
  {
    forall k | 0 <= k < |groups0|
      ensures Grow(m + [e])(groups0[k]) == if k == at then groups[at] + [e.left] else groups[k]
    {
      GrowSnoc(m, e, groups0[k]);
      assert Seeds(groups0)[k] == Seed(groups0[k]) && Seeds(groups0)[at] == Seed(groups0[at]);
    }
  }

  lemma JoinViews(c: Clip, groups: seq<seq<nat>>, views: seq<View>, k: nat, d: nat)
    requires Current(c, groups, views) && k < |views|
    ensures var at := views[k].group;
            Current(c, groups[at := groups[at] + [d]], views[k := Moved(c, views[k], d)])
  {
  }

  // Which open tracks already have a box on the frame.
  ghost predicate Taken(views: seq<View>, idx: int, used: set<nat>) {
    forall k: nat :: k < |views| ==> (views[k].lastIdx == idx) == (k in used)
  }

  ghost predicate Lefts(matched: set<nat>, picked: seq<Edge>) {
    forall d: nat :: d in matched <==> d in Map(Left(), picked)
  }

  lemma LeftsSnoc(matched: set<nat>, picked: seq<Edge>, p: Edge)
    requires Lefts(matched, picked)
    ensures Lefts(matched + {p.left}, picked + [p])
  {
    assert Map(Left(), picked + [p]) == Map(Left(), picked) + [p.left];
  }

  function Moved(c: Clip, v: View, d: nat): View {
    v.(lastIdx := c.at(d).frameIdx, last := c.at(d).box)
  }

  // The state of the join loop: groups have grown by what was picked, and the
  // open tracks kept up.
  ghost predicate Joining(c: Clip, groups0: seq<seq<nat>>, views0: seq<View>, groups: seq<seq<nat>>, views: seq<View>,
                          idx: int, used: set<nat>, picked: seq<Edge>)
  {
    && Distinct(Seeds(groups0)) && Current(c, groups0, views0)
    && groups == Map(Grow(Named(groups0, views0, picked)), groups0)
    && Current(c, groups, views)
    && Map(GroupOf(), views) == Map(GroupOf(), views0)
    && Taken(views, idx, used)
  }

  lemma JoinTaken(c: Clip, views: seq<View>, idx: int, used: set<nat>, k: nat, d: nat)
    requires Taken(views, idx, used) && k < |views| && c.at(d).frameIdx == idx
    ensures Taken(views[k := Moved(c, views[k], d)], idx, used + {k})
  {
  }

  lemma JoinKeepsGroups(c: Clip, views: seq<View>, k: nat, d: nat)
    requires k < |views|
    ensures Map(GroupOf(), views[k := Moved(c, views[k], d)]) == Map(GroupOf(), views)
  {
  }

  // One step of the join loop on values.
  lemma JoinStep(c: Clip, groups0: seq<seq<nat>>, views0: seq<View>, groups: seq<seq<nat>>, views: seq<View>,
                 idx: int, used: set<nat>, picked: seq<Edge>, p: Edge)
    requires Joining(c, groups0, views0, groups, views, idx, used, picked)
    requires p.right < |views| && c.at(p.left).frameIdx == idx
    ensures views[p.right].group < |groups|
    ensures Joining(c, groups0, views0, Appended(groups, views[p.right].group, p.left),
                    views[p.right := Moved(c, views[p.right], p.left)], idx, used + {p.right}, picked + [p])
  {
    assert Map(GroupOf(), views)[p.right] == Map(GroupOf(), views0)[p.right];
    JoinGroups(c, groups0, views0, groups, picked, p);
    JoinViews(c, groups, views, p.right, p.left);
    JoinTaken(c, views, idx, used, p.right, p.left);
    JoinKeepsGroups(c, views, p.right, p.left);
  }

  function Appended(groups: seq<seq<nat>>, at: nat, d: nat): seq<seq<nat>>
    requires at < |groups|
  {
    groups[at := groups[at] + [d]]
  }

  method ContinueTrack(c: Clip, open: seq<OpenTrack>, k: nat, d: nat, ghost views: seq<View>)
    requires Mirrors(open, views) && k < |open|
    modifies Tracks(open)
    ensures Mirrors(open, views[k := Moved(c, views[k], d)])
  {
    assert open[k].AsView() == views[k];
    open[k].Continue(c.at(d).frameIdx, c.at(d).box);
  }

  // Everything the join loop keeps about its i-th pair.
  ghost predicate JoinState(c: Clip, groups0: seq<seq<nat>>, views0: seq<View>, pairs: seq<Edge>, idx: int, i: nat,
                            groups: seq<seq<nat>>, views: seq<View>, matched: set<nat>, used: set<nat>,
                            picked: seq<Edge>)
  {
    && Scanning(pairs, i, matched, used, picked)
    && Lefts(matched, picked)
    && Joining(c, groups0, views0, groups, views, idx, used, picked)
  }

  lemma SkipPair(c: Clip, groups0: seq<seq<nat>>, views0: seq<View>, pairs: seq<Edge>, idx: int, i: nat,
                 groups: seq<seq<nat>>, views: seq<View>, matched: set<nat>, used: set<nat>, picked: seq<Edge>)
    requires JoinState(c, groups0, views0, pairs, idx, i, groups, views, matched, used, picked)
    requires i < |pairs| && pairs[i].right < |views|
    requires pairs[i].left in matched || views[pairs[i].right].lastIdx == idx
    ensures JoinState(c, groups0, views0, pairs, idx, i + 1, groups, views, matched, used, picked)
  {
    ScanStep(pairs, i, matched, used, picked);
  }

  lemma JoinPair(c: Clip, groups0: seq<seq<nat>>, views0: seq<View>, pairs: seq<Edge>, idx: int, i: nat,
                 groups: seq<seq<nat>>, views: seq<View>, matched: set<nat>, used: set<nat>, picked: seq<Edge>)
    requires JoinState(c, groups0, views0, pairs, idx, i, groups, views, matched, used, picked)
    requires i < |pairs| && pairs[i].right < |views| && c.at(pairs[i].left).frameIdx == idx
    requires pairs[i].left !in matched && views[pairs[i].right].lastIdx != idx
    ensures var p := pairs[i];
            views[p.right].group < |groups| &&
            JoinState(c, groups0, views0, pairs, idx, i + 1, Appended(groups, views[p.right].group, p.left),
                      views[p.right := Moved(c, views[p.right], p.left)],
                      matched + {p.left}, used + {p.right}, picked + [p])
  {
    ScanStep(pairs, i, matched, used, picked);
    JoinStep(c, groups0, views0, groups, views, idx, used, picked, pairs[i]);
    LeftsSnoc(matched, picked, pairs[i]);
  }

  lemma JoinsDone(c: Clip, groups0: seq<seq<nat>>, views0: seq<View>, pairs: seq<Edge>, idx: int,
                  groups: seq<seq<nat>>, views: seq<View>, matched: set<nat>, used: set<nat>, picked: seq<Edge>)
    requires JoinState(c, groups0, views0, pairs, idx, |pairs|, groups, views, matched, used, picked)
    ensures JoinedAll(c, groups0, views0, Pick(pairs, {}, {}), groups, views, matched)
  {
    assert pairs[|pairs|..] == [];
    assert picked == Pick(pairs, {}, {});
  }

  ghost predicate JoinedAll(c: Clip, groups0: seq<seq<nat>>, views0: seq<View>, picked: seq<Edge>,
                            groups: seq<seq<nat>>, views: seq<View>, matched: set<nat>)
  {
    && groups == Map(Grow(Named(groups0, views0, picked)), groups0)
    && Current(c, groups, views)
    && Map(GroupOf(), views) == Map(GroupOf(), views0)
    && Lefts(matched, picked)
  }

  // Pairs of the frame's detections with open tracks.
  ghost predicate OnFrame(c: Clip, pairs: seq<Edge>, tracks: nat, idx: int) {
    forall k :: 0 <= k < |pairs| ==> pairs[k].right < tracks && c.at(pairs[k].left).frameIdx == idx
  }

  method JoinPairs(c: Clip, idx: int, pairs: seq<Edge>, open: seq<OpenTrack>, groups0: seq<seq<nat>>,
                   ghost views0: seq<View>)
    returns (groups: seq<seq<nat>>, matched: set<nat>, ghost views: seq<View>)
    requires Mirrors(open, views0) && JoinState(c, groups0, views0, pairs, idx, 0, groups0, views0, {}, {}, [])
    requires OnFrame(c, pairs, |views0|, idx)
    modifies Tracks(open)
    ensures Mirrors(open, views)
    ensures JoinedAll(c, groups0, views0, Pick(pairs, {}, {}), groups, views, matched)
  {
    groups, matched, views := groups0, {}, views0;
    ghost var used: set<nat>, picked: seq<Edge> := {}, [];
    for i := 0 to |pairs|
      invariant Mirrors(open, views)
      invariant JoinState(c, groups0, views0, pairs, idx, i, groups, views, matched, used, picked)
    {
      var p := pairs[i];
      assert open[p.right].AsView() == views[p.right];
      if p.left in matched || open[p.right].lastIdx == idx {
        SkipPair(c, groups0, views0, pairs, idx, i, groups, views, matched, used, picked);
        continue;
      }
      JoinPair(c, groups0, views0, pairs, idx, i, groups, views, matched, used, picked);
      matched := matched + {p.left};
      groups := Appended(groups, open[p.right].group, p.left);
      ContinueTrack(c, open, p.right, p.left, views);
      views := views[p.right := Moved(c, views[p.right], p.left)];
      used, picked := used + {p.right}, picked + [p];
    }
    JoinsDone(c, groups0, views0, pairs, idx, groups, views, matched, used, picked);
  }

  // ---- Starting tracks

  lemma StartView(c: Clip, groups: seq<seq<nat>>, views: seq<View>, d: nat)
    requires Current(c, groups, views)
    ensures Current(c, groups + [[d]], views + [NewView(c, |groups|, d)])
  {
  }

  function Range(from: nat, to: nat): seq<nat>
    requires from <= to
  {
    seq(to - from, i requires 0 <= i < to - from => from + i)
  }

  lemma StartRange(views0: seq<View>, views: seq<View>, from: nat, v: View)
    requires from <= v.group && Map(GroupOf(), views) == Map(GroupOf(), views0) + Range(from, v.group)
    ensures Map(GroupOf(), views + [v]) == Map(GroupOf(), views0) + Range(from, v.group + 1)
  {
    assert Range(from, v.group + 1) == Range(from, v.group) + [v.group];
    assert Map(GroupOf(), views + [v]) == Map(GroupOf(), views) + [v.group];
  }

  function NewView(c: Clip, group: nat, d: nat): View {
    View(group, c.at(d).target, c.at(d).frameIdx, c.at(d).box)
  }

  method StartTrack(c: Clip, idx: int, d: nat, open0: seq<OpenTrack>, groups0: seq<seq<nat>>, ghost views0: seq<View>)
    returns (groups: seq<seq<nat>>, open: seq<OpenTrack>, ghost views: seq<View>)
    requires Mirrors(open0, views0) && Current(c, groups0, views0) && c.at(d).frameIdx == idx
    ensures groups == groups0 + [[d]] && views == views0 + [NewView(c, |groups0|, d)]
    ensures Mirrors(open, views) && Current(c, groups, views)
    ensures fresh(Tracks(open) - Tracks(open0))
  {
    StartView(c, groups0, views0, d);
    var t := new OpenTrack(|groups0|, c.at(d).target, idx, c.at(d).box);
    MirrorsSnoc(open0, views0, t);
    groups := groups0 + [[d]];
    open, views := open0 + [t], views0 + [t.AsView()];
  }

  method StartTracks(c: Clip, idx: int, frame: seq<nat>, matched: set<nat>, open0: seq<OpenTrack>,
                     groups0: seq<seq<nat>>, ghost views0: seq<View>, ghost m: seq<Edge>)
    returns (groups: seq<seq<nat>>, open: seq<OpenTrack>, ghost views: seq<View>)
    requires Mirrors(open0, views0) && Current(c, groups0, views0)
    requires forall d: nat :: (d !in matched) == Unjoined(m)(d)
    requires forall k :: 0 <= k < |frame| ==> c.at(frame[k]).frameIdx == idx
    ensures groups == groups0 + Map(Start(), Filter(Unjoined(m), frame))
    ensures Mirrors(open, views) && Current(c, groups, views)
    ensures Map(GroupOf(), views) == Map(GroupOf(), views0) + Range(|groups0|, |groups|)
    ensures fresh(Tracks(open) - Tracks(open0))
  {
    groups, open, views := groups0, open0, views0;
    for i := 0 to |frame|
      invariant groups == groups0 + Map(Start(), Filter(Unjoined(m), frame[..i]))
      invariant Mirrors(open, views) && Current(c, groups, views)
      invariant Map(GroupOf(), views) == Map(GroupOf(), views0) + Range(|groups0|, |groups|)
      invariant fresh(Tracks(open) - Tracks(open0))
    {
      var d := frame[i];
      FilterSnoc(Unjoined(m), frame, i);
      if d in matched {
        continue;
      }
      MapAppend(Start(), Filter(Unjoined(m), frame[..i]), [d]);
      StartRange(views0, views, |groups0|, NewView(c, |groups|, d));
      groups, open, views := StartTrack(c, idx, d, open, groups, views);
    }
    assert frame[..|frame|] == frame;
  }

  // ---- A frame

  lemma {:induction false} RangeFilter(n: nat, to: nat, keep: nat -> bool)
    requires n <= to && forall k: nat :: n <= k < to ==> keep(k)
    ensures Filter(keep, Indices(to)) == Filter(keep, Indices(n)) + Range(n, to)
  {
    assert Indices(to) == Indices(n) + Range(n, to);
    FilterAppend(keep, Indices(n), Range(n, to));
    FilterAll(keep, Range(n, to));
  }

  // A group is in range after a frame exactly when it was before it.
  lemma LiveStays(c: Clip, groups: seq<seq<nat>>, frame: seq<nat>, idx: int, m: seq<Edge>, k: nat)
    requires Before(c, groups, idx) && OneToOne(m) && k < |groups|
    requires forall d :: d in frame ==> c.at(d).frameIdx == idx
    requires forall e :: e in m ==> Joined(c, groups, frame, idx, e)
    ensures InRange(c, idx, Grow(m)(groups[k])) == InRange(c, idx, groups[k])
  {
    GrowShape(c, groups, frame, idx, m, k);
    assert Ended(c, groups[k], idx);
  }

  lemma StartsLive(c: Clip, frame: seq<nat>, idx: int, keep: nat -> bool, k: nat)
    requires k < |Filter(keep, frame)| && forall d :: d in frame ==> c.at(d).frameIdx == idx
    ensures InRange(c, idx, Start()(Filter(keep, frame)[k]))
  {
    assert Filter(keep, frame)[k] in Filter(keep, frame);
  }

  // After a frame the groups in range are those that were in range before it
  // and the ones it started.
  lemma LiveAfter(c: Clip, groups: seq<seq<nat>>, frame: seq<nat>, idx: int, m: seq<Edge>)
    requires Before(c, groups, idx) && OneToOne(m)
    requires forall d :: d in frame ==> c.at(d).frameIdx == idx
    requires forall e :: e in m ==> Joined(c, groups, frame, idx, e)
    ensures var next := Extend(groups, frame, m);
            LiveIds(c, next, idx) == LiveIds(c, groups, idx) + Range(|groups|, |next|)
  {
    var next := Extend(groups, frame, m);
    forall k: nat | k < |groups| ensures LiveGroup(c, groups, idx)(k) == LiveGroup(c, next, idx)(k) {
      LiveStays(c, groups, frame, idx, m, k);
    }
    forall k: nat | |groups| <= k < |next| ensures LiveGroup(c, next, idx)(k) {
      StartsLive(c, frame, idx, Unjoined(m), k - |groups|);
    }
    LiveSplit(c, groups, next, idx);
  }

  lemma LiveSplit(c: Clip, groups: seq<seq<nat>>, next: seq<seq<nat>>, idx: int)
    requires |groups| <= |next|
    requires forall k: nat :: k < |groups| ==> LiveGroup(c, groups, idx)(k) == LiveGroup(c, next, idx)(k)
    requires forall k: nat :: |groups| <= k < |next| ==> LiveGroup(c, next, idx)(k)
    ensures LiveIds(c, next, idx) == LiveIds(c, groups, idx) + Range(|groups|, |next|)
  {
    FilterSame(LiveGroup(c, groups, idx), LiveGroup(c, next, idx), Indices(|groups|));
    RangeFilter(|groups|, |next|, LiveGroup(c, next, idx));
  }

  lemma CurrentReflects(c: Clip, groups: seq<seq<nat>>, views: seq<View>, idx: int)
    requires Current(c, groups, views) && Map(GroupOf(), views) == LiveIds(c, groups, idx)
    ensures Reflects(c, groups, views, idx)
  {
    var ids := LiveIds(c, groups, idx);
    forall k | 0 <= k < |views| ensures views[k] == ViewOf(c, groups)(ids[k]) {
      assert Map(GroupOf(), views)[k] == ids[k];
    }
  }

  lemma NothingTakenYet(c: Clip, groups: seq<seq<nat>>, views: seq<View>, pairs: seq<Edge>, idx: int)
    requires Before(c, groups, idx) && Reflects(c, groups, views, idx)
    ensures JoinState(c, groups, views, pairs, idx, 0, groups, views, {}, {}, [])
  {
    ReflectsIsCurrent(c, groups, views, idx);
    forall k: nat | k < |views| ensures views[k].lastIdx != idx {
      assert Ended(c, groups[views[k].group], idx);
    }
    assert Named(groups, views, []) == [];
    forall k | 0 <= k < |groups| ensures Grow([])(groups[k]) == groups[k] {
      assert Grow([])(groups[k]) == groups[k] + [];
    }
    assert Map(Grow([]), groups) == groups;
    assert pairs[0..] == pairs;
  }

  // The views after a frame, from what its two loops left.
  lemma FrameDone(c: Clip, groups0: seq<seq<nat>>, views0: seq<View>, frame: seq<nat>, idx: int, m: seq<Edge>,
                  groups: seq<seq<nat>>, views: seq<View>)
    requires Before(c, groups0, idx) && Reflects(c, groups0, views0, idx)
    requires m == Joins(c, groups0, frame, idx) && forall d :: d in frame ==> c.at(d).frameIdx == idx
    requires groups == Extend(groups0, frame, m)
    requires Current(c, groups, views)
    requires Map(GroupOf(), views) == Map(GroupOf(), views0) + Range(|groups0|, |groups|)
    ensures Reflects(c, groups, views, idx)
  {
    StepIsStable(c, groups0, frame, idx);
    LiveAfter(c, groups0, frame, idx, m);
    ReflectsIsCurrent(c, groups0, views0, idx);
    CurrentReflects(c, groups, views, idx);
  }

  lemma PairsOnFrame(c: Clip, frame: seq<nat>, views: seq<View>, idx: int)
    requires forall d :: d in frame ==> c.at(d).frameIdx == idx
    ensures OnFrame(c, StableSort(Heavier, ViewPairs(c, frame, views, idx)), |views|, idx)
  {
    ViewPairsFit(c, frame, views, idx);
    var pairs := StableSort(Heavier, ViewPairs(c, frame, views, idx));
    assert forall k :: 0 <= k < |pairs| ==> pairs[k] in pairs;
  }

  lemma MatchedIsJoined(c: Clip, groups: seq<seq<nat>>, views: seq<View>, frame: seq<nat>, idx: int, n: nat,
                        matched: set<nat>)
    requires Reflects(c, groups, views, idx) && Distinct(Seeds(groups)) && forall d :: d in frame ==> d < n
    requires Lefts(matched, Greedy(ViewPairs(c, frame, views, idx)))
    ensures Joins(c, groups, frame, idx) == Named(groups, views, Greedy(ViewPairs(c, frame, views, idx)))
    ensures forall d: nat :: (d !in matched) == Unjoined(Joins(c, groups, frame, idx))(d)
  {
    JoinsAgree(c, groups, views, frame, idx, n);
    NamedUnjoined(groups, views, Greedy(ViewPairs(c, frame, views, idx)), matched);
  }

  lemma NamedUnjoined(groups: seq<seq<nat>>, views: seq<View>, picked: seq<Edge>, matched: set<nat>)
    requires Lefts(matched, picked)
    ensures forall d: nat :: (d !in matched) == Unjoined(Named(groups, views, picked))(d)
  {
    assert Map(Left(), Named(groups, views, picked)) == Map(Left(), picked);
  }

  method JoinFrame(c: Clip, frame: seq<nat>, idx: int, open: seq<OpenTrack>, groups0: seq<seq<nat>>,
                   ghost views0: seq<View>)
    returns (groups: seq<seq<nat>>, matched: set<nat>, ghost views: seq<View>)
    requires Mirrors(open, views0) && Reflects(c, groups0, views0, idx) && Before(c, groups0, idx)
    requires forall d :: d in frame ==> c.at(d).frameIdx == idx
    modifies Tracks(open)
    ensures Mirrors(open, views)
    ensures JoinedAll(c, groups0, views0, Greedy(ViewPairs(c, frame, views0, idx)), groups, views, matched)
  {
    var pairs := CollectPairs(c, frame, open, idx, views0);
    pairs := StableSort(Heavier, pairs);
    PairsOnFrame(c, frame, views0, idx);
    NothingTakenYet(c, groups0, views0, pairs, idx);
    groups, matched, views := JoinPairs(c, idx, pairs, open, groups0, views0);
  }

  method LinkFrame(c: Clip, frame: seq<nat>, idx: int, open0: seq<OpenTrack>, groups0: seq<seq<nat>>,
                   ghost views0: seq<View>, ghost n: nat)
    returns (groups: seq<seq<nat>>, open: seq<OpenTrack>, ghost views: seq<View>)
    requires Mirrors(open0, views0) && Reflects(c, groups0, views0, idx) && Before(c, groups0, idx)
    requires forall d :: d in frame ==> d < n && c.at(d).frameIdx == idx
    modifies Tracks(open0)
    ensures Mirrors(open, views)
    ensures Stepped(c, groups0, frame, idx, groups, views)
    ensures fresh(Tracks(open) - Tracks(open0))
  {
    var joined, matched, joinedViews := JoinFrame(c, frame, idx, open0, groups0, views0);
    ghost var m := Joins(c, groups0, frame, idx);
    JoinedExactly(c, groups0, views0, frame, idx, n, joined, joinedViews, matched);
    groups, open, views := StartTracks(c, idx, frame, matched, open0, joined, joinedViews, m);
    FrameDone(c, groups0, views0, frame, idx, m, groups, views);
  }

  lemma JoinedExactly(c: Clip, groups0: seq<seq<nat>>, views0: seq<View>, frame: seq<nat>, idx: int, n: nat,
                      joined: seq<seq<nat>>, joinedViews: seq<View>, matched: set<nat>)
    requires Reflects(c, groups0, views0, idx) && Before(c, groups0, idx)
    requires forall d :: d in frame ==> d < n && c.at(d).frameIdx == idx
    requires JoinedAll(c, groups0, views0, Greedy(ViewPairs(c, frame, views0, idx)), joined, joinedViews, matched)
    ensures var m := Joins(c, groups0, frame, idx);
            && joined == Map(Grow(m), groups0)
            && Current(c, joined, joinedViews)
            && Map(GroupOf(), joinedViews) == Map(GroupOf(), views0)
            && (forall d: nat :: (d !in matched) == Unjoined(m)(d))
            && (forall k :: 0 <= k < |frame| ==> c.at(frame[k]).frameIdx == idx)
  {
    MatchedIsJoined(c, groups0, views0, frame, idx, n, matched);
    assert forall k :: 0 <= k < |frame| ==> frame[k] in frame;
  }

  // One frame linked, and the open tracks with it.
  ghost predicate Stepped(c: Clip, groups0: seq<seq<nat>>, frame: seq<nat>, idx: int, groups: seq<seq<nat>>,
                          views: seq<View>) {
    groups == Step(c, groups0, frame, idx) && Reflects(c, groups, views, idx)
  }

  // ---- A clip

  method RunEnd(c: Clip, order: seq<nat>, start: nat) returns (end: nat)
    requires start < |order|
    ensures FrameCut(c, order, start, end)
  {
    var idx := c.at(order[start]).frameIdx;
    end := start;
    while end < |order| && c.at(order[end]).frameIdx == idx
      invariant start <= end <= |order|
      invariant Run(c, idx, order[start..]) == end - start + Run(c, idx, order[end..])
    {
      assert order[end..][0] == order[end] && order[end..][1..] == order[end+1..];
      end := end + 1;
    }
  }

  ghost predicate Leads(c: Clip, groups: seq<seq<nat>>, rest: seq<nat>, goal: seq<seq<nat>>) {
    LinkOrder(c, groups, rest) == goal
  }

  ghost predicate Below(ids: seq<nat>, n: nat) {
    forall d :: d in ids ==> d < n
  }

  // Between frames: what is linked so far leads to the result, and the open
  // tracks reflect the groups at the frame linked last.
  ghost predicate Between(c: Clip, n: nat, goal: seq<seq<nat>>, rest: seq<nat>, groups: seq<seq<nat>>,
                          views: seq<View>, bound: int) {
    && Leads(c, groups, rest, goal)
    && Ready(c, groups, rest, bound)
    && Below(rest, n)
    && Reflects(c, groups, views, bound - 1)
  }

  lemma BetweenStart(c: Clip, n: nat)
    ensures var order := Order(c, n);
            Between(c, n, LinkOrder(c, [], order), order, [], [], if order == [] then 0 else c.at(order[0]).frameIdx)
  {
    var order := Order(c, n);
    OrderReady(c, Indices(n));
    assert forall d :: d in order ==> d in Indices(n);
    StartsBetween(c, n, order, if order == [] then 0 else c.at(order[0]).frameIdx);
  }

  lemma StartsBetween(c: Clip, n: nat, order: seq<nat>, bound: int)
    requires Ready(c, [], order, bound) && Below(order, n)
    ensures Between(c, n, LinkOrder(c, [], order), order, [], [], bound)
  {
    assert LiveIds(c, [], bound - 1) == [];
  }

  // What the next frame needs of the open tracks.
  ghost predicate Due(c: Clip, n: nat, frame: seq<nat>, groups: seq<seq<nat>>, views: seq<View>, idx: int) {
    && Reflects(c, groups, Filter(LiveView(idx), views), idx)
    && Before(c, groups, idx)
    && (forall d :: d in frame ==> d < n && c.at(d).frameIdx == idx)
  }

  // The order from start on begins with the frame order[start..end].
  predicate FrameCut(c: Clip, order: seq<nat>, start: nat, end: nat) {
    start < |order| && end == start + Run(c, c.at(order[start]).frameIdx, order[start..])
  }

  lemma BetweenDue(c: Clip, n: nat, goal: seq<seq<nat>>, order: seq<nat>, start: nat, end: nat,
                   groups: seq<seq<nat>>, views: seq<View>, bound: int)
    requires FrameCut(c, order, start, end) && Between(c, n, goal, order[start..], groups, views, bound)
    ensures start < end <= |order| && Due(c, n, order[start..end], groups, views, c.at(order[start]).frameIdx)
  {
    var idx := c.at(order[start]).frameIdx;
    RunStops(c, order[start..]);
    Slices(order, start, end);
    FrameBelow(c, order, start, end, n);
    BeforeNonEmpty(c, groups, bound);
    PruneReflects(c, groups, views, bound - 1, idx);
    LaterStill(c, groups, bound, idx);
  }

  lemma FrameBelow(c: Clip, order: seq<nat>, start: nat, end: nat, n: nat)
    requires FrameCut(c, order, start, end) && Below(order[start..], n) && end <= |order|
    ensures forall d :: d in order[start..end] ==> d < n && c.at(d).frameIdx == c.at(order[start]).frameIdx
  {
    SplitAt(order[start..], end - start);
    Slices(order, start, end);
  }

  lemma LeadsOn(c: Clip, order: seq<nat>, start: nat, end: nat, groups: seq<seq<nat>>, goal: seq<seq<nat>>)
    requires FrameCut(c, order, start, end) && end <= |order| && Leads(c, groups, order[start..], goal)
    ensures Leads(c, Step(c, groups, order[start..end], c.at(order[start]).frameIdx), order[end..], goal)
  {
    Slices(order, start, end);
  }

  lemma StaysReady(c: Clip, order: seq<nat>, start: nat, end: nat, groups: seq<seq<nat>>, bound: int)
    requires FrameCut(c, order, start, end) && end <= |order| && Ready(c, groups, order[start..], bound)
    ensures var idx := c.at(order[start]).frameIdx;
            Ready(c, Step(c, groups, order[start..end], idx), order[end..], idx + 1)
  {
    Slices(order, start, end);
    StepKeeps(c, groups, order[start..], bound);
  }

  lemma StaysBelow(order: seq<nat>, start: nat, end: nat, n: nat)
    requires start <= end <= |order| && Below(order[start..], n)
    ensures Below(order[end..], n)
  {
    SplitAt(order[start..], end - start);
    Slices(order, start, end);
  }

  lemma BetweenStep(c: Clip, n: nat, goal: seq<seq<nat>>, order: seq<nat>, start: nat, end: nat,
                    groups: seq<seq<nat>>, views: seq<View>, bound: int,
                    next: seq<seq<nat>>, nextViews: seq<View>)
    requires FrameCut(c, order, start, end) && Between(c, n, goal, order[start..], groups, views, bound)
             && end <= |order|
    requires Stepped(c, groups, order[start..end], c.at(order[start]).frameIdx, next, nextViews)
    ensures Between(c, n, goal, order[end..], next, nextViews, c.at(order[start]).frameIdx + 1)
  {
    LeadsOn(c, order, start, end, groups, goal);
    StaysReady(c, order, start, end, groups, bound);
    StaysBelow(order, start, end, n);
  }

  // The body of the main loop once the frame is cut.
  method PruneAndLink(c: Clip, frame: seq<nat>, idx: int, open0: seq<OpenTrack>, groups0: seq<seq<nat>>,
                      ghost views0: seq<View>, ghost n: nat)
    returns (groups: seq<seq<nat>>, open: seq<OpenTrack>, ghost views: seq<View>)
    requires Mirrors(open0, views0) && Due(c, n, frame, groups0, views0, idx)
    modifies Tracks(open0)
    ensures Mirrors(open, views)
    ensures Stepped(c, groups0, frame, idx, groups, views)
    ensures fresh(Tracks(open) - Tracks(open0))
  {
    var live := Prune(open0, idx, views0);
    groups, open, views := LinkFrame(c, frame, idx, live, groups0, Filter(LiveView(idx), views0), n);
  }

  method LinkCut(c: Clip, order: seq<nat>, start: nat, end: nat, open0: seq<OpenTrack>, groups0: seq<seq<nat>>,
                 ghost views0: seq<View>, ghost n: nat, ghost goal: seq<seq<nat>>, ghost bound0: int)
    returns (groups: seq<seq<nat>>, open: seq<OpenTrack>, ghost views: seq<View>)
    requires FrameCut(c, order, start, end) && Between(c, n, goal, order[start..], groups0, views0, bound0)
             && Mirrors(open0, views0)
    modifies Tracks(open0)
    ensures start < end <= |order|
    ensures Stepped(c, groups0, order[start..end], c.at(order[start]).frameIdx, groups, views) && Mirrors(open, views)
    ensures fresh(Tracks(open) - Tracks(open0))
  {
    BetweenDue(c, n, goal, order, start, end, groups0, views0, bound0);
    groups, open, views := PruneAndLink(c, order[start..end], c.at(order[start]).frameIdx, open0, groups0, views0, n);
  }

  // One turn of the main loop.
  method LinkNext(c: Clip, order: seq<nat>, start: nat, open0: seq<OpenTrack>, groups0: seq<seq<nat>>,
                  ghost views0: seq<View>, ghost n: nat, ghost goal: seq<seq<nat>>, ghost bound0: int)
    returns (end: nat, groups: seq<seq<nat>>, open: seq<OpenTrack>, ghost views: seq<View>, ghost bound: int)
    requires start < |order| && Between(c, n, goal, order[start..], groups0, views0, bound0) && Mirrors(open0, views0)
    modifies Tracks(open0)
    ensures start < end <= |order| && Between(c, n, goal, order[end..], groups, views, bound) && Mirrors(open, views)
    ensures fresh(Tracks(open) - Tracks(open0))
  {
    end := RunEnd(c, order, start);
    groups, open, views := LinkCut(c, order, start, end, open0, groups0, views0, n, goal, bound0);
    BetweenStep(c, n, goal, order, start, end, groups0, views0, bound0, groups, views);
    bound := c.at(order[start]).frameIdx + 1;
  }

  method LinkAll(c: Clip, order: seq<nat>, ghost n: nat, ghost goal: seq<seq<nat>>, ghost bound0: int)
    returns (groups: seq<seq<nat>>)
    requires Between(c, n, goal, order, [], [], bound0)
    ensures groups == goal
  {
    var open: seq<OpenTrack>;
    groups, open := [], [];
    ghost var views: seq<View> := [];
    ghost var bound := bound0;
    var start := 0;
    assert order[0..] == order;
    while start < |order|
      invariant start <= |order|
      invariant Between(c, n, goal, order[start..], groups, views, bound)
      invariant Mirrors(open, views) && fresh(Tracks(open))
    {
      start, groups, open, views, bound := LinkNext(c, order, start, open, groups, views, n, goal, bound);
    }
    assert order[start..] == [];
  }

  // linkTracks: the groups are those of the linker that drops nothing. Each
  // detection is in one track, and none would rather continue another track
  // that would rather be continued by it.
  method Link(dets: seq<Detection>, overlap: Overlap) returns (groups: seq<seq<nat>>)
    ensures groups == Linked(dets, overlap)
    ensures var c := Clip(DetectionAt(dets), overlap);
            && Holds(groups, multiset(Indices(|dets|))) && AllTracks(c, groups)
            && Steady(c, groups) && Pairwise(InOrder(c), Seeds(groups))
  {
    LinkedIsPartition(dets, overlap);
    LinkedIsSteady(dets, overlap);
    var c := Clip(DetectionAt(dets), overlap);
    var order := StableSort(ByFrame(c), Indices(|dets|));
    BetweenStart(c, |dets|);
    groups := LinkAll(c, order, |dets|, LinkOrder(c, [], order), if order == [] then 0 else c.at(order[0]).frameIdx);
  }
}
