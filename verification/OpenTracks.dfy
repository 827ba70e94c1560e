// The linker's open tracks: objects updated in place, which groups they stand
// for, and that pairing with them misses nothing.
module OpenTracks {
  import opened Sequences
  import opened GreedyMatching
  import opened MatchingParts
  import opened Geometry
  import opened LinkTracks

  // What an open track knows.
  datatype View = View(group: nat, target: nat, lastIdx: int, last: Rect)

  class OpenTrack {
    const group: nat
    const target: nat
    var lastIdx: int
    var last: Rect

    constructor (group: nat, target: nat, lastIdx: int, last: Rect)
      ensures AsView() == View(group, target, lastIdx, last)
    {
      this.group, this.target, this.lastIdx, this.last := group, target, lastIdx, last;
    }

    ghost function AsView(): View
      reads this
    {
      View(group, target, lastIdx, last)
    }

    method Continue(idx: int, box: Rect)
      modifies this
      ensures AsView() == old(AsView()).(lastIdx := idx, last := box)
    {
      lastIdx, last := idx, box;
    }
  }

  ghost predicate Mirrors(open: seq<OpenTrack>, views: seq<View>)
    reads open
  {
    && |open| == |views|
    && (forall k :: 0 <= k < |open| ==> open[k].AsView() == views[k])
    && (forall i, j :: 0 <= i < j < |open| ==> open[i] != open[j])
  }

  ghost function Tracks(open: seq<OpenTrack>): set<OpenTrack> {
    set t | t in open
  }

  // ---- What the open tracks stand for

  function ViewOf(c: Clip, groups: seq<seq<nat>>): nat -> View {
    (k: nat) =>
      if k < |groups| && groups[k] != [] then
        var end := c.at(groups[k][|groups[k]|-1]);
        View(k, c.at(groups[k][0]).target, end.frameIdx, end.box)
      else View(k, 0, 0, Rect(0.0, 0.0, 0.0, 0.0))
  }

  function LiveView(idx: int): View -> bool {
    (v: View) => idx - v.lastIdx <= MAX_GAP + 1
  }

  function LiveGroup(c: Clip, groups: seq<seq<nat>>, idx: int): nat -> bool {
    (k: nat) => k < |groups| && InRange(c, idx, groups[k])
  }

  function LiveIds(c: Clip, groups: seq<seq<nat>>, idx: int): seq<nat> {
    Filter(LiveGroup(c, groups, idx), Indices(|groups|))
  }

  // The open tracks are exactly the groups in range at idx, oldest first.
  ghost predicate Reflects(c: Clip, groups: seq<seq<nat>>, views: seq<View>, idx: int) {
    views == Map(ViewOf(c, groups), LiveIds(c, groups, idx))
  }

  // Dropping what is out of range now loses nothing: it was out of range for
  // good.
  lemma PruneReflects(c: Clip, groups: seq<seq<nat>>, views: seq<View>, before: int, idx: int)
    requires NonEmpty(groups) && Reflects(c, groups, views, before) && before <= idx
    ensures Reflects(c, groups, Filter(LiveView(idx), views), idx)
  {
    var ids := LiveIds(c, groups, before);
    var live := LiveGroup(c, groups, idx);
    FilterMap(ViewOf(c, groups), LiveView(idx), live, ids);
    FilterTwice(live, LiveGroup(c, groups, before), live, Indices(|groups|));
  }

  method Prune(open: seq<OpenTrack>, idx: int, ghost views: seq<View>) returns (live: seq<OpenTrack>)
    requires Mirrors(open, views)
    ensures Mirrors(live, Filter(LiveView(idx), views))
    ensures Tracks(live) <= Tracks(open)
  {
    live := [];
    ghost var kept: seq<View> := [];
    for k := 0 to |open|
      invariant Pruning(open, views, idx, k, live, kept)
    {
      PruneStep(open, views, idx, k, live, kept);
      if idx - open[k].lastIdx <= MAX_GAP + 1 {
        live, kept := live + [open[k]], kept + [views[k]];
      }
    }
    assert views[..|open|] == views;
  }

  // The first k tracks looked at.
  ghost predicate Pruning(open: seq<OpenTrack>, views: seq<View>, idx: int, k: nat, live: seq<OpenTrack>,
                          kept: seq<View>)
    reads open, live
  {
    && k <= |open| == |views|
    && Mirrors(live, kept) && kept == Filter(LiveView(idx), views[..k])
    && forall t :: t in live ==> t in open[..k]
  }

  lemma PruneStep(open: seq<OpenTrack>, views: seq<View>, idx: int, k: nat, live: seq<OpenTrack>, kept: seq<View>)
    requires Mirrors(open, views) && k < |open| && Pruning(open, views, idx, k, live, kept)
    ensures if idx - open[k].lastIdx <= MAX_GAP + 1
            then Pruning(open, views, idx, k + 1, live + [open[k]], kept + [views[k]])
            else Pruning(open, views, idx, k + 1, live, kept)
  {
    var t := open[k];
    assert t.AsView() == views[k];
    FilterSnoc(LiveView(idx), views, k);
    assert open[..k+1] == open[..k] + [t];
    NotYet(open, k, live);
    MirrorsSnoc(live, kept, t);
  }

  lemma NotYet(open: seq<OpenTrack>, k: nat, live: seq<OpenTrack>)
    requires k < |open| && forall i, j :: 0 <= i < j < |open| ==> open[i] != open[j]
    requires forall t :: t in live ==> t in open[..k]
    ensures open[k] !in live
  {
    forall i | 0 <= i < k ensures open[..k][i] != open[k] {
      assert open[i] != open[k];
    }
  }

  lemma MirrorsSnoc(open: seq<OpenTrack>, views: seq<View>, t: OpenTrack)
    requires Mirrors(open, views) && t !in open
    ensures Mirrors(open + [t], views + [t.AsView()])
  {
    var more := open + [t];
    forall i, j | 0 <= i < j < |more| ensures more[i] != more[j] {
      if j == |open| {
        assert open[i] in open;
      }
    }
  }

  // ---- Pairing

  function ViewWeigh(c: Clip, idx: int): (nat, View) -> Option<real> {
    (d: nat, v: View) =>
      if v.target != c.at(d).target || v.lastIdx == idx then None
      else if c.overlap(c.at(d).box, v.last) >= MIN_IOU then Some(c.overlap(c.at(d).box, v.last))
      else None
  }

  function ViewPairs(c: Clip, frame: seq<nat>, views: seq<View>, idx: int): seq<Edge> {
    Candidates(ViewWeigh(c, idx), Map(IdItem(), frame), Number(views))
  }

  method CollectRow(c: Clip, d: nat, open: seq<OpenTrack>, idx: int, pairs: seq<Edge>, ghost views: seq<View>)
    returns (more: seq<Edge>)
    requires Mirrors(open, views)
    ensures more == pairs + Row(ViewWeigh(c, idx), Item(d, d), Number(views))
  {
    more := pairs;
    ghost var rs := Number(views);
    for k := 0 to |open|
      invariant more + Row(ViewWeigh(c, idx), Item(d, d), rs[k..]) == pairs + Row(ViewWeigh(c, idx), Item(d, d), rs)
    {
      var t := open[k];
      assert open[k].AsView() == views[k];
      assert rs[k..][0] == Item(k, views[k]) && rs[k..][1..] == rs[k+1..];
      if t.target != c.at(d).target || t.lastIdx == idx {
        continue;
      }
      var v := c.overlap(c.at(d).box, t.last);
      if v >= MIN_IOU {
        more := more + [Edge(d, k, v)];
      }
    }
  }

  method CollectPairs(c: Clip, frame: seq<nat>, open: seq<OpenTrack>, idx: int, ghost views: seq<View>)
    returns (pairs: seq<Edge>)
    requires Mirrors(open, views)
    ensures pairs == ViewPairs(c, frame, views, idx)
  {
    pairs := [];
    ghost var ls, rs := Map(IdItem(), frame), Number(views);
    for i := 0 to |frame|
      invariant pairs + Candidates(ViewWeigh(c, idx), ls[i..], rs) == Candidates(ViewWeigh(c, idx), ls, rs)
    {
      CandidatesStep(ViewWeigh(c, idx), ls, rs, i, pairs);
      pairs := CollectRow(c, frame[i], open, idx, pairs, views);
    }
  }

  function Self(): nat -> nat {
    (d: nat) => d
  }

  // The seed of the group the k-th open track stands for.
  function SeedAt(groups: seq<seq<nat>>, views: seq<View>): nat -> nat {
    (k: nat) => if k < |views| && views[k].group < |groups| then Seed(groups[views[k].group]) else 0
  }

  function Named(groups: seq<seq<nat>>, views: seq<View>, m: seq<Edge>): seq<Edge> {
    Map(Renamed(Self(), SeedAt(groups, views)), m)
  }

  // Each view is up to date with its group, and no two share one.
  ghost predicate Current(c: Clip, groups: seq<seq<nat>>, views: seq<View>) {
    && (forall k :: 0 <= k < |views| ==> views[k].group < |groups| && groups[views[k].group] != []
                                         && views[k] == ViewOf(c, groups)(views[k].group))
    && (forall i, j :: 0 <= i < j < |views| ==> views[i].group != views[j].group)
  }

  lemma ReflectsIsCurrent(c: Clip, groups: seq<seq<nat>>, views: seq<View>, idx: int)
    requires Reflects(c, groups, views, idx)
    ensures Current(c, groups, views)
    ensures forall k :: 0 <= k < |views| ==> InRange(c, idx, groups[views[k].group])
    ensures Map(GroupOf(), views) == LiveIds(c, groups, idx)
  {
    var ids := LiveIds(c, groups, idx);
    assert Distinct(Indices(|groups|));
    FilterDistinct(LiveGroup(c, groups, idx), Indices(|groups|));
    forall k | 0 <= k < |views| ensures views[k].group == ids[k] < |groups| && InRange(c, idx, groups[ids[k]]) {
      assert ids[k] in ids;
    }
  }

  function GroupOf(): View -> nat {
    (v: View) => v.group
  }

  function LiveItem(c: Clip, idx: int): Item<seq<nat>> -> bool {
    (x: Item<seq<nat>>) => InRange(c, idx, x.val)
  }

  function ItemAt(groups: seq<seq<nat>>): nat -> Item<seq<nat>> {
    (k: nat) => if k < |groups| then SeedItem()(groups[k]) else Item(0, [])
  }

  function ToGroup(groups: seq<seq<nat>>): Item<View> -> Item<seq<nat>> {
    (x: Item<View>) => ItemAt(groups)(x.val.group)
  }

  lemma LiveItems(c: Clip, groups: seq<seq<nat>>, views: seq<View>, idx: int)
    requires Reflects(c, groups, views, idx)
    ensures Filter(LiveItem(c, idx), Map(SeedItem(), groups)) == Map(ToGroup(groups), Number(views))
  {
    var ids := LiveIds(c, groups, idx);
    ReflectsIsCurrent(c, groups, views, idx);
    assert Map(SeedItem(), groups) == Map(ItemAt(groups), Indices(|groups|));
    FilterMap(ItemAt(groups), LiveItem(c, idx), LiveGroup(c, groups, idx), Indices(|groups|));
    forall k | 0 <= k < |views| ensures ToGroup(groups)(Number(views)[k]) == ItemAt(groups)(ids[k]) {
      assert Map(GroupOf(), views)[k] == ids[k];
    }
  }

  function Any<T>(): T -> bool {
    (x: T) => true
  }

  lemma OutOfRangePairsNothing(c: Clip, groups: seq<seq<nat>>, views: seq<View>, frame: seq<nat>, idx: int)
    requires Reflects(c, groups, views, idx)
    ensures Candidates(Weigh(c, idx), Map(IdItem(), frame), Map(SeedItem(), groups)) ==
            Candidates(Weigh(c, idx), Map(IdItem(), frame), Map(ToGroup(groups), Number(views)))
  {
    var ls, rs := Map(IdItem(), frame), Map(SeedItem(), groups);
    CandidatesFilter(Weigh(c, idx), ls, rs, Any(), LiveItem(c, idx), Any());
    FilterAll(Any(), Candidates(Weigh(c, idx), ls, rs));
    FilterAll(Any(), ls);
    LiveItems(c, groups, views, idx);
  }

  function SameItem(): Item<nat> -> Item<nat> {
    (x: Item<nat>) => x
  }

  lemma ViewWeighs(c: Clip, groups: seq<seq<nat>>, views: seq<View>, idx: int, d: nat, k: nat)
    requires Current(c, groups, views) && k < |views| && InRange(c, idx, groups[views[k].group])
    ensures Weigh(c, idx)(d, ToGroup(groups)(Item(k, views[k])).val) == ViewWeigh(c, idx)(d, views[k])
    ensures ToGroup(groups)(Item(k, views[k])).id == SeedAt(groups, views)(k)
  {
    var g := groups[views[k].group];
    assert g != [] && views[k] == ViewOf(c, groups)(views[k].group);
    assert ItemAt(groups)(views[k].group) == SeedItem()(g);
    assert ToGroup(groups)(Item(k, views[k])) == ItemAt(groups)(views[k].group);
  }

  // The pairs found among the open tracks are the pairs found among all
  // groups, since groups out of range pair with nothing.
  lemma PairsAgree(c: Clip, groups: seq<seq<nat>>, views: seq<View>, frame: seq<nat>, idx: int)
    requires Reflects(c, groups, views, idx)
    ensures Candidates(Weigh(c, idx), Map(IdItem(), frame), Map(SeedItem(), groups)) ==
            Named(groups, views, ViewPairs(c, frame, views, idx))
  {
    var ls := Map(IdItem(), frame);
    OutOfRangePairsNothing(c, groups, views, frame, idx);
    ReflectsIsCurrent(c, groups, views, idx);
    assert Map(SameItem(), ls) == ls;
    forall l, r | l in ls && r in Number(views)
      ensures Weigh(c, idx)(SameItem()(l).val, ToGroup(groups)(r).val) == ViewWeigh(c, idx)(l.val, r.val)
      ensures ToGroup(groups)(r).id == SeedAt(groups, views)(r.id)
    {
      var k :| 0 <= k < |views| && Number(views)[k] == r;
      ViewWeighs(c, groups, views, idx, l.val, k);
    }
    forall r | r in Number(views) ensures ToGroup(groups)(r).id == SeedAt(groups, views)(r.id) {
      var k :| 0 <= k < |views| && Number(views)[k] == r;
      ViewWeighs(c, groups, views, idx, 0, k);
    }
    CandidatesRename(ViewWeigh(c, idx), Weigh(c, idx), ls, Number(views), SameItem(), ToGroup(groups), Self(),
                     SeedAt(groups, views));
  }

  lemma ViewPairsFit(c: Clip, frame: seq<nat>, views: seq<View>, idx: int)
    ensures forall e :: e in ViewPairs(c, frame, views, idx) ==> e.left in frame && e.right < |views|
  {
    var weigh, ls, rs := ViewWeigh(c, idx), Map(IdItem(), frame), Number(views);
    forall e | e in ViewPairs(c, frame, views, idx) ensures e.left in frame && e.right < |views| {
      CandidatesIff(weigh, ls, rs, e);
      var i :| 0 <= i < |ls| && e in Row(weigh, ls[i], rs);
      RowIff(weigh, ls[i], rs, e);
      assert ls[i] == Item(frame[i], frame[i]);
    }
  }

  // So the open tracks are matched exactly as their groups would be.
  lemma JoinsAgree(c: Clip, groups: seq<seq<nat>>, views: seq<View>, frame: seq<nat>, idx: int, n: nat)
    requires Reflects(c, groups, views, idx) && Distinct(Seeds(groups)) && forall d :: d in frame ==> d < n
    ensures Joins(c, groups, frame, idx) == Named(groups, views, Greedy(ViewPairs(c, frame, views, idx)))
  {
    PairsAgree(c, groups, views, frame, idx);
    ViewPairsFit(c, frame, views, idx);
    ReflectsIsCurrent(c, groups, views, idx);
    SeedsInjective(c, groups, views);
    GreedyRename(Self(), SeedAt(groups, views), ViewPairs(c, frame, views, idx), n, |views|);
  }

  lemma SeedsInjective(c: Clip, groups: seq<seq<nat>>, views: seq<View>)
    requires Current(c, groups, views) && Distinct(Seeds(groups))
    ensures InjectiveBelow(SeedAt(groups, views), |views|)
  {
    forall x: nat, y: nat | x < |views| && y < |views| && SeedAt(groups, views)(x) == SeedAt(groups, views)(y)
      ensures x == y
    {
      assert Seeds(groups)[views[x].group] == Seeds(groups)[views[y].group];
      assert views[x].group == views[y].group;
    }
  }
}
