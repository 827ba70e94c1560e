// Planning an export as it runs: the videos' frames selected, the splits
// assigned, and the items placed and counted.
module ExportBuild {
  import opened Sequences
  import opened Taxonomy
  import opened FrameSelection
  import opened FrameChecks
  import opened SplitChoice
  import opened SplitAssignment
  import opened ExportTotals
  import opened ExportPlan
  import opened PlanRules

  method PlanVideos(input: Input, ghost classes: seq<string>, byId: map<nat, LabelType>, classIds: map<string, nat>)
    returns (plans: seq<VideoPlan>, skips: Skips)
    requires Indexed(input.types, byId, classIds)
    ensures plans == Plans(input) && skips == SkipsOfAll(input, input.videos)
  {
    var byFrame := GroupBoxes(input.boxes);
    var byVideo := GroupFrames(input.frames);
    plans, skips := [], NoSkips();
    for k := 0 to |input.videos|
      invariant plans == Map(PlanOf(input), input.videos[..k]) && skips == SkipsOfAll(input, input.videos[..k])
    {
      var v := input.videos[k];
      var p := PlanVideo(input, byId, classIds, byFrame, byVideo, v.id);
      PlansStep(input, k);
      plans := plans + [VideoPlan(v.id, v.split, p.images, p.boxes)];
      skips := skips.Plus(p.skips);
    }
    assert input.videos[..|input.videos|] == input.videos;
  }

  lemma PlansStep(input: Input, k: nat)
    requires k < |input.videos|
    ensures var v := input.videos[k];
            && Map(PlanOf(input), input.videos[..k+1]) == Map(PlanOf(input), input.videos[..k]) + [PlanOf(input)(v)]
            && SkipsOfAll(input, input.videos[..k+1]) ==
               SkipsOfAll(input, input.videos[..k]).Plus(SkipsOfVideo(input, v.id))
  {
    assert input.videos[..k+1][..k] == input.videos[..k];
    assert input.videos[..k+1] == input.videos[..k] + [input.videos[k]];
    MapAppend(PlanOf(input), input.videos[..k], [input.videos[k]]);
  }

  method PlanVideo(input: Input, byId: map<nat, LabelType>, classIds: map<string, nat>,
                   byFrame: map<nat, seq<Box>>, byVideo: map<nat, seq<Frame>>, id: nat)
    returns (p: Progress)
    requires Indexed(input.types, byId, classIds)
    requires forall f: nat :: Group(byFrame, f) == Filter(OnFrame(f), input.boxes)
    requires forall v: nat :: Group(byVideo, v) == Filter(OfVideo(v), input.frames)
    ensures p.images == ImagesOf(input, id) && p.boxes == BoxCount(p.images) && p.skips == SkipsOfVideo(input, id)
  {
    var fs := Group(byVideo, id);
    p := SelectFrames(input.opts, input.types, byId, classIds, input.boxes, byFrame, fs);
    assert fs[..|fs|] == fs;
  }

  method PlaceVideo(v: VideoPlan, split: Split, items0: seq<Placed>, t0: Tally, n: nat)
    returns (items: seq<Placed>, t: Tally)
    requires Tallied(t0, items0, n) && forall im :: im in v.images ==> Within(im.boxes, n)
    ensures items == items0 + Map(PlaceIn(split), v.images) && Tallied(t, items, n)
  {
    items, t := items0, t0;
    for k := 0 to |v.images|
      invariant items == items0 + Map(PlaceIn(split), v.images[..k]) && Tallied(t, items, n)
    {
      var it := Placed(v.images[k].frame, split, v.images[k].boxes);
      assert v.images[k] in v.images;
      assert v.images[..k+1] == v.images[..k] + [v.images[k]];
      MapAppend(PlaceIn(split), v.images[..k], [v.images[k]]);
      t := CountItem(t, it, n, items);
      items := items + [it];
    }
    assert v.images[..|v.images|] == v.images;
  }

  lemma ItemsStep(plans: seq<VideoPlan>, chosen: seq<VideoPlan>, k: nat)
    requires k < |plans|
    ensures var v := plans[k];
            && ItemsOf(plans[..k+1], chosen) == ItemsOf(plans[..k], chosen) + Map(PlaceIn(SplitOf(v, chosen)), v.images)
            && Map(StatsOf(chosen), plans[..k+1]) == Map(StatsOf(chosen), plans[..k]) + [StatsOf(chosen)(v)]
  {
    assert plans[..k+1][..k] == plans[..k];
    assert plans[..k+1] == plans[..k] + [plans[k]];
    MapAppend(StatsOf(chosen), plans[..k], [plans[k]]);
  }

  method PlaceAll(plans: seq<VideoPlan>, splits: map<nat, Split>, ghost chosen: seq<VideoPlan>, n: nat)
    returns (items: seq<Placed>, stats: seq<VideoStats>, t: Tally)
    requires Assigned(plans, splits, chosen)
    requires forall v :: v in plans ==> forall im :: im in v.images ==> Within(im.boxes, n)
    ensures items == ItemsOf(plans, chosen) && stats == Map(StatsOf(chosen), plans) && Tallied(t, items, n)
  {
    items, stats := [], [];
    t := Tally(0, Zero(), Zero(), seq(n, _ => Zero()), seq(n, _ => {}), seq(n, _ => {}));
    for k := 0 to |plans|
      invariant items == ItemsOf(plans[..k], chosen) && stats == Map(StatsOf(chosen), plans[..k])
                && Tallied(t, items, n)
    {
      var v := plans[k];
      assert v in plans;
      ItemsStep(plans, chosen, k);
      var split := splits[v.id];
      stats := stats + [VideoStats(v.id, split, v.pinned != Auto, |v.images|, v.boxes)];
      items, t := PlaceVideo(v, split, items, t, n);
    }
    assert plans[..|plans|] == plans;
  }

  // Build: the plan of an export. Each video's items are in its split, which
  // is its own for a held-out or pinned one.
  method Build(input: Input) returns (plan: Plan)
    requires DistinctVideos(input.videos)
    ensures Planned(input, plan)
    ensures exists splits :: PlacedBy(input, plan, splits)
    ensures forall v, it :: v in input.videos && it in plan.items && it.frame.video == v.id ==> StaysIn(v, it)
  {
    var byId, classIds, classes := IndexTypes(input.types);
    var plans, skips := PlanVideos(input, classes, byId, classIds);
    PlansDistinct(input);
    PlansWithin(input);
    var splits := AssignSplits(plans, input.opts.valFraction);
    var items, stats, tally := PlaceAll(plans, splits, Chosen(input), |classes|);
    plan := Plan(classes, items, skips, stats, tally);
    PlanIsPlaced(input, plan, splits);
    PlacedStays(input, plan, splits);
  }
}
