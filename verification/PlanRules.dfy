// What a plan says of each video: the split it is in, and that its items are
// its images.
module PlanRules {
  import opened Sequences
  import opened FrameSelection
  import opened FrameChecks
  import opened SplitChoice
  import opened SplitRules
  import opened ExportTotals
  import opened ExportPlan

  // Every item is in the split of its video, as the video's own entry says.
  ghost predicate PlacedBy(input: Input, plan: Plan, splits: map<nat, Split>) {
    && Follows(Plans(input), input.opts.valFraction, splits)
    && (forall it :: it in plan.items ==> it.frame.video in splits && it.split == splits[it.frame.video])
    && |plan.videos| == |input.videos|
    && (forall k :: 0 <= k < |plan.videos| ==> DescribedBy(input.videos[k], plan.videos[k], splits))
  }

  ghost predicate DescribedBy(v: Video, stats: VideoStats, splits: map<nat, Split>) {
    stats.id == v.id && v.id in splits && stats.split == splits[v.id] && (stats.pinned <==> v.split != Auto)
  }

  lemma SplitIs(plans: seq<VideoPlan>, splits: map<nat, Split>, chosen: seq<VideoPlan>, v: VideoPlan)
    requires Assigned(plans, splits, chosen) && v in plans
    ensures v.id in splits && splits[v.id] == SplitOf(v, chosen)
  {
    var k :| 0 <= k < |plans| && plans[k] == v;
  }

  lemma PlanIsPlaced(input: Input, plan: Plan, splits: map<nat, Split>)
    requires Planned(input, plan) && Assigned(Plans(input), splits, Chosen(input))
    requires Follows(Plans(input), input.opts.valFraction, splits)
    ensures PlacedBy(input, plan, splits)
  {
    var plans, chosen := Plans(input), Chosen(input);
    forall it | it in plan.items ensures it.frame.video in splits && it.split == splits[it.frame.video] {
      var v, im := PlanOfItem(input, plan, it);
      SplitIs(plans, splits, chosen, v);
    }
    forall k | 0 <= k < |plan.videos| ensures DescribedBy(input.videos[k], plan.videos[k], splits) {
      assert plans[k] in plans;
      SplitIs(plans, splits, chosen, plans[k]);
    }
  }

  // Held-out and pinned videos stay where they are, and no other video's
  // images are held out.
  ghost predicate StaysIn(v: Video, it: Placed) {
    if v.split == Auto then it.split == Train || it.split == Val else it.split == v.split
  }

  lemma PlacedStays(input: Input, plan: Plan, splits: map<nat, Split>)
    requires PlacedBy(input, plan, splits)
    ensures forall v, it :: v in input.videos && it in plan.items && it.frame.video == v.id ==> StaysIn(v, it)
  {
    forall v, it | v in input.videos && it in plan.items && it.frame.video == v.id ensures StaysIn(v, it) {
      var k :| 0 <= k < |input.videos| && input.videos[k] == v;
      assert Plans(input)[k] in Plans(input);
    }
  }

  // ---- The items of a video

  function OfId(id: nat): Placed -> bool {
    (it: Placed) => it.frame.video == id
  }

  ghost predicate OwnFrames(plans: seq<VideoPlan>) {
    forall v, im :: v in plans && im in v.images ==> im.frame.video == v.id
  }

  lemma PlacedOf(split: Split, v: VideoPlan, id: nat)
    requires forall im :: im in v.images ==> im.frame.video == v.id
    ensures Filter(OfId(id), Map(PlaceIn(split), v.images)) == if v.id == id then Map(PlaceIn(split), v.images) else []
  {
    var placed := Map(PlaceIn(split), v.images);
    forall it | it in placed ensures it.frame.video == v.id {
      var k :| 0 <= k < |placed| && placed[k] == it;
      assert v.images[k] in v.images;
    }
    if v.id == id {
      FilterAll(OfId(id), placed);
    } else {
      FilterNone(OfId(id), placed);
    }
  }

  lemma ItemsSnoc(plans: seq<VideoPlan>, chosen: seq<VideoPlan>, n: nat, id: nat)
    requires n < |plans| && OwnFrames(plans)
    ensures Filter(OfId(id), ItemsOf(plans[..n+1], chosen)) ==
            Filter(OfId(id), ItemsOf(plans[..n], chosen))
            + (if plans[n].id == id then Map(PlaceIn(SplitOf(plans[n], chosen)), plans[n].images) else [])
  {
    assert plans[..n+1][..n] == plans[..n];
    assert plans[n] in plans;
    PlacedOf(SplitOf(plans[n], chosen), plans[n], id);
    FilterAppend(OfId(id), ItemsOf(plans[..n], chosen), Map(PlaceIn(SplitOf(plans[n], chosen)), plans[n].images));
  }

  lemma IdsApart(plans: seq<VideoPlan>, i: nat, j: nat)
    requires DistinctIds(plans) && i < j < |plans|
    ensures plans[i].id != plans[j].id
  {
    assert Ids(plans)[i] != Ids(plans)[j];
  }

  lemma {:induction false} NotOfVideo(plans: seq<VideoPlan>, chosen: seq<VideoPlan>, n: nat, id: nat)
    requires OwnFrames(plans) && n <= |plans| && forall k :: 0 <= k < n ==> plans[k].id != id
    ensures Filter(OfId(id), ItemsOf(plans[..n], chosen)) == []
  {
    if n > 0 {
      NotOfVideo(plans, chosen, n - 1, id);
      ItemsSnoc(plans, chosen, n - 1, id);
    }
  }

  lemma {:induction false} ItemsOfVideo(plans: seq<VideoPlan>, chosen: seq<VideoPlan>, n: nat, k: nat)
    requires DistinctIds(plans) && OwnFrames(plans) && k < n <= |plans|
    ensures Filter(OfId(plans[k].id), ItemsOf(plans[..n], chosen)) ==
            Map(PlaceIn(SplitOf(plans[k], chosen)), plans[k].images)
  {
    ItemsSnoc(plans, chosen, n - 1, plans[k].id);
    if k < n - 1 {
      IdsApart(plans, k, n - 1);
      ItemsOfVideo(plans, chosen, n - 1, k);
    } else {
      forall i | 0 <= i < k ensures plans[i].id != plans[k].id {
        IdsApart(plans, i, k);
      }
      NotOfVideo(plans, chosen, k, plans[k].id);
    }
  }

  // An item is an image of its video.
  ghost predicate IsImage(it: Placed, im: Image) {
    it.frame == im.frame && it.boxes == im.boxes
  }

  lemma PlansOwnFrames(input: Input)
    ensures OwnFrames(Plans(input))
  {
    forall v, im | v in Plans(input) && im in v.images ensures im.frame.video == v.id {
      PlannedImage(input, v, im);
    }
  }

  // The items of a video are the images chosen from its frames, in order.
  lemma ItemsAreImages(input: Input, plan: Plan, k: nat)
    requires Planned(input, plan) && DistinctVideos(input.videos) && k < |input.videos|
    ensures var own := Filter(OfId(input.videos[k].id), plan.items);
            var images := Selected(input.opts, Look(input.types, input.boxes),
                                   Filter(OfVideo(input.videos[k].id), input.frames));
            |own| == |images| && forall i :: 0 <= i < |own| ==> IsImage(own[i], images[i])
  {
    var plans := Plans(input);
    PlansDistinct(input);
    PlansOwnFrames(input);
    ItemsOfVideo(plans, Chosen(input), |plans|, k);
    assert plans[..|plans|] == plans;
  }

  // ---- The frames left out

  function Unlabeleds(input: Input): Video -> int {
    (v: Video) => SkipsOfVideo(input, v.id).unlabeled
  }

  function Unverifieds(input: Input): Video -> int {
    (v: Video) => SkipsOfVideo(input, v.id).unverified
  }

  function Incompletes(input: Input): Video -> int {
    (v: Video) => SkipsOfVideo(input, v.id).incomplete
  }

  function OffStrides(input: Input): Video -> int {
    (v: Video) => SkipsOfVideo(input, v.id).offStride
  }

  function Duplicates(input: Input): Video -> int {
    (v: Video) => SkipsOfVideo(input, v.id).duplicate
  }

  // Each reason's count is that of the videos together.
  lemma {:induction false} SkipsAddUp(input: Input, videos: seq<Video>)
    ensures var s := SkipsOfAll(input, videos);
            && s.unlabeled == SumOver(Unlabeleds(input), videos)
            && s.unverified == SumOver(Unverifieds(input), videos)
            && s.incomplete == SumOver(Incompletes(input), videos)
            && s.offStride == SumOver(OffStrides(input), videos)
            && s.duplicate == SumOver(Duplicates(input), videos)
  {
    if videos != [] {
      SkipsAddUp(input, videos[..|videos|-1]);
    }
  }
}
