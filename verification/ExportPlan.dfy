// Planning a dataset: each video's frames checked and selected, the videos
// split, and the totals of what goes in and what is left out.
module ExportPlan {
  import opened Sequences
  import opened Taxonomy
  import opened FrameSelection
  import opened FrameChecks
  import opened SplitChoice
  import opened SplitGuarantees
  import opened ExportTotals

  datatype Video = Video(id: nat, split: Split)

  datatype VideoStats = VideoStats(id: nat, split: Split, pinned: bool, images: int, boxes: int)

  datatype Plan = Plan(classes: seq<string>, items: seq<Placed>, skips: Skips, videos: seq<VideoStats>, tally: Tally)

  // What a plan is made from.
  datatype Input = Input(opts: Options, types: seq<LabelType>, videos: seq<Video>, frames: seq<Frame>, boxes: seq<Box>)

  function Lookup(input: Input): Frame -> Verdict {
    Look(input.types, input.boxes)
  }

  function FramesOf(input: Input, id: nat): seq<Frame> {
    Filter(OfVideo(id), input.frames)
  }

  function ImagesOf(input: Input, id: nat): seq<Image> {
    Selected(input.opts, Lookup(input), FramesOf(input, id))
  }

  function PlanOf(input: Input): Video -> VideoPlan {
    (v: Video) => VideoPlan(v.id, v.split, ImagesOf(input, v.id), BoxCount(ImagesOf(input, v.id)))
  }

  function Plans(input: Input): seq<VideoPlan> {
    Map(PlanOf(input), input.videos)
  }

  function SkipsOfVideo(input: Input, id: nat): Skips {
    SkipsOf(Fates(input.opts, Lookup(input), FramesOf(input, id)))
  }

  function SkipsOfAll(input: Input, videos: seq<Video>): Skips {
    if videos == [] then NoSkips()
    else SkipsOfAll(input, videos[..|videos|-1]).Plus(SkipsOfVideo(input, videos[|videos|-1].id))
  }

  function Chosen(input: Input): seq<VideoPlan> {
    ToVal(Plans(input), input.opts.valFraction, ShareOf(input.opts.valFraction, Total(Plans(input))))
  }

  function PlaceIn(split: Split): Image -> Placed {
    (im: Image) => Placed(im.frame, split, im.boxes)
  }

  function ItemsOf(plans: seq<VideoPlan>, chosen: seq<VideoPlan>): seq<Placed> {
    if plans == [] then []
    else
      var v := plans[|plans|-1];
      ItemsOf(plans[..|plans|-1], chosen) + Map(PlaceIn(SplitOf(v, chosen)), v.images)
  }

  function StatsOf(chosen: seq<VideoPlan>): VideoPlan -> VideoStats {
    (v: VideoPlan) => VideoStats(v.id, SplitOf(v, chosen), v.pinned != Auto, |v.images|, v.boxes)
  }

  ghost predicate DistinctVideos(videos: seq<Video>) {
    forall i, j :: 0 <= i < j < |videos| ==> videos[i].id != videos[j].id
  }

  // What the plan is.
  ghost predicate Planned(input: Input, plan: Plan) {
    && plan.classes == AllClasses(input.types)
    && plan.items == ItemsOf(Plans(input), Chosen(input))
    && plan.skips == SkipsOfAll(input, input.videos)
    && plan.videos == Map(StatsOf(Chosen(input)), Plans(input))
    && Tallied(plan.tally, plan.items, |plan.classes|)
  }

  // ---- Every class index is one of the dataset's

  ghost predicate Within(boxes: seq<ItemBox>, n: nat) {
    forall b :: b in boxes ==> b.classId < n
  }

  lemma VerdictWithin(types: seq<LabelType>, boxes: seq<Box>)
    ensures var v := BoxesVerdict(types, boxes);
            v.Eligible? ==> Within(v.boxes, |AllClasses(types)|)
  {
    var v := BoxesVerdict(types, boxes);
    if v.Eligible? {
      EligibleBoxes(types, boxes);
      forall b | b in v.boxes ensures b.classId < |AllClasses(types)| {
        var k :| 0 <= k < |v.boxes| && v.boxes[k] == b;
        assert BoxExported(types, boxes[k], v.boxes[k]);
      }
    }
  }

  // An image is one of the frames, with the boxes the check gave it.
  lemma {:induction false} ImagesAre(look: Frame -> Verdict, fs: seq<Frame>, fates: seq<Fate>)
    requires |fs| == |fates|
    ensures forall im :: im in Images(look, fs, fates) ==> im.frame in fs && look(im.frame) == Eligible(im.boxes)
  {
    if fs != [] {
      var n := |fs| - 1;
      assert fs == fs[..n] + [fs[n]];
      ImagesAre(look, fs[..n], fates[..n]);
    }
  }

  lemma ImageWithin(input: Input, id: nat, im: Image)
    requires im in ImagesOf(input, id)
    ensures im.frame.video == id && Within(im.boxes, |AllClasses(input.types)|)
  {
    ImagesAre(Lookup(input), FramesOf(input, id), Fates(input.opts, Lookup(input), FramesOf(input, id)));
    VerdictWithin(input.types, Filter(OnFrame(im.frame.id), input.boxes));
  }

  lemma PlansWithin(input: Input)
    ensures forall v :: v in Plans(input) ==> forall im :: im in v.images ==>
              Within(im.boxes, |AllClasses(input.types)|)
  {
    forall v, im | v in Plans(input) && im in v.images ensures Within(im.boxes, |AllClasses(input.types)|) {
      var k :| 0 <= k < |input.videos| && PlanOf(input)(input.videos[k]) == v;
      ImageWithin(input, v.id, im);
    }
  }

  lemma PlansDistinct(input: Input)
    requires DistinctVideos(input.videos)
    ensures DistinctIds(Plans(input))
  {
  }

  // ---- Conservation

  function SumOver(f: Video -> int, videos: seq<Video>): int {
    if videos == [] then 0 else SumOver(f, videos[..|videos|-1]) + f(videos[|videos|-1])
  }

  function FrameCount(input: Input): Video -> int {
    (v: Video) => |FramesOf(input, v.id)|
  }

  function SkipCount(input: Input): Video -> int {
    (v: Video) => SkipsOfVideo(input, v.id).Total()
  }

  function ImageCount(input: Input): Video -> int {
    (v: Video) => |ImagesOf(input, v.id)|
  }

  // The frames of some videos.
  function FramesIn(input: Input, videos: seq<Video>): int {
    SumOver(FrameCount(input), videos)
  }

  lemma {:induction false} SumsBalance(f: Video -> int, g: Video -> int, h: Video -> int, videos: seq<Video>)
    requires forall v: Video :: f(v) + g(v) == h(v)
    ensures SumOver(f, videos) + SumOver(g, videos) == SumOver(h, videos)
  {
    if videos != [] {
      SumsBalance(f, g, h, videos[..|videos|-1]);
    }
  }

  lemma {:induction false} SkipsSum(input: Input, videos: seq<Video>)
    ensures SkipsOfAll(input, videos).Total() == SumOver(SkipCount(input), videos)
  {
    if videos != [] {
      SkipsSum(input, videos[..|videos|-1]);
    }
  }

  lemma ItemsGrow(plans: seq<VideoPlan>, chosen: seq<VideoPlan>)
    requires plans != []
    ensures |ItemsOf(plans, chosen)| == |ItemsOf(plans[..|plans|-1], chosen)| + |plans[|plans|-1].images|
  {
  }

  lemma {:induction false} ItemsSum(input: Input, videos: seq<Video>, chosen: seq<VideoPlan>)
    ensures |ItemsOf(Map(PlanOf(input), videos), chosen)| == SumOver(ImageCount(input), videos)
  {
    if videos != [] {
      var plans, n := Map(PlanOf(input), videos), |videos| - 1;
      ItemsSum(input, videos[..n], chosen);
      ItemsGrow(plans, chosen);
      assert plans[..n] == Map(PlanOf(input), videos[..n]);
    }
  }

  lemma VideosConserved(input: Input)
    ensures forall v: Video :: SkipCount(input)(v) + ImageCount(input)(v) == FrameCount(input)(v)
  {
    forall v: Video ensures SkipCount(input)(v) + ImageCount(input)(v) == FrameCount(input)(v) {
      FramesConserved(input.opts, Lookup(input), FramesOf(input, v.id));
    }
  }

  // Every frame of the videos is exported or left out for one reason.
  lemma ExportConserved(input: Input, plan: Plan)
    requires Planned(input, plan)
    ensures plan.skips.Total() + |plan.items| == FramesIn(input, input.videos)
  {
    SkipsSum(input, input.videos);
    ItemsSum(input, input.videos, Chosen(input));
    VideosConserved(input);
    SumsBalance(SkipCount(input), ImageCount(input), FrameCount(input), input.videos);
  }

  lemma {:induction false} ItemsAreWithin(plans: seq<VideoPlan>, chosen: seq<VideoPlan>, n: nat)
    requires forall v :: v in plans ==> forall im :: im in v.images ==> Within(im.boxes, n)
    ensures forall it :: it in ItemsOf(plans, chosen) ==> Within(it.boxes, n)
  {
    if plans != [] {
      var v := plans[|plans|-1];
      assert v in plans;
      ItemsAreWithin(plans[..|plans|-1], chosen, n);
      var placed := Map(PlaceIn(SplitOf(v, chosen)), v.images);
      forall it | it in placed ensures Within(it.boxes, n) {
        var k :| 0 <= k < |placed| && placed[k] == it;
        assert v.images[k] in v.images;
      }
    }
  }

  // The splits' images are all the items, and the splits' boxes and the
  // classes' boxes are all their boxes.
  lemma TotalsAddUp(input: Input, plan: Plan)
    requires Planned(input, plan)
    ensures plan.tally.images.Total() == |plan.items|
    ensures plan.tally.boxes.Total() == AllBoxes(plan.items)
    ensures OverClasses(plan.items, |plan.classes|) == plan.tally.boxes
    ensures forall c: nat :: c < |plan.classes| ==> plan.tally.byClass[c] == ClassTotals(plan.items, c)
  {
    ImagesAddUp(plan.items);
    BoxesAddUp(plan.items);
    PlansWithin(input);
    ItemsAreWithin(Plans(input), Chosen(input), |plan.classes|);
    ClassesAddUp(plan.items, |plan.classes|);
    forall c: nat | c < |plan.classes| ensures plan.tally.byClass[c] == ClassTotals(plan.items, c) {
      assert ClassTallied(plan.tally, plan.items, c, |plan.classes|);
    }
  }

  function SumImages(stats: seq<VideoStats>): int {
    if stats == [] then 0 else SumImages(stats[..|stats|-1]) + stats[|stats|-1].images
  }

  function SumBoxes(stats: seq<VideoStats>): int {
    if stats == [] then 0 else SumBoxes(stats[..|stats|-1]) + stats[|stats|-1].boxes
  }

  lemma {:induction false} PlacedBoxes(items: seq<Placed>, split: Split, images: seq<Image>)
    ensures AllBoxes(items + Map(PlaceIn(split), images)) == AllBoxes(items) + BoxCount(images)
  {
    var all := items + Map(PlaceIn(split), images);
    if images == [] {
      assert all == items;
    } else {
      var last := |images| - 1;
      assert all[..|all|-1] == items + Map(PlaceIn(split), images[..last]);
      PlacedBoxes(items, split, images[..last]);
    }
  }

  lemma {:induction false} VideosAddUpTo(plans: seq<VideoPlan>, chosen: seq<VideoPlan>)
    requires forall v :: v in plans ==> v.boxes == BoxCount(v.images)
    ensures SumImages(Map(StatsOf(chosen), plans)) == |ItemsOf(plans, chosen)|
    ensures SumBoxes(Map(StatsOf(chosen), plans)) == AllBoxes(ItemsOf(plans, chosen))
  {
    if plans != [] {
      var last := |plans| - 1;
      var v := plans[last];
      assert v in plans;
      VideosAddUpTo(plans[..last], chosen);
      assert Map(StatsOf(chosen), plans)[..last] == Map(StatsOf(chosen), plans[..last]);
      PlacedBoxes(ItemsOf(plans[..last], chosen), SplitOf(v, chosen), v.images);
    }
  }

  // And the videos' images and boxes are all of them too.
  lemma VideosAddUp(input: Input, plan: Plan)
    requires Planned(input, plan)
    ensures SumImages(plan.videos) == |plan.items| && SumBoxes(plan.videos) == AllBoxes(plan.items)
  {
    VideosAddUpTo(Plans(input), Chosen(input));
  }

  // ---- One video, one split

  lemma {:induction false} ItemSplit(plans: seq<VideoPlan>, chosen: seq<VideoPlan>, it: Placed)
    requires it in ItemsOf(plans, chosen)
    ensures exists v, im :: v in plans && im in v.images && it == PlaceIn(SplitOf(v, chosen))(im)
  {
    var last := |plans| - 1;
    var v := plans[last];
    var placed := Map(PlaceIn(SplitOf(v, chosen)), v.images);
    if it in placed {
      var k :| 0 <= k < |placed| && placed[k] == it;
      assert v.images[k] in v.images && v in plans;
    } else {
      ItemSplit(plans[..last], chosen, it);
    }
  }

  // A video's items share one split: its own when it is held out or pinned.
  lemma OneSplitPerVideo(input: Input, plan: Plan, a: Placed, b: Placed)
    requires Planned(input, plan) && DistinctVideos(input.videos)
    requires a in plan.items && b in plan.items && a.frame.video == b.frame.video
    ensures a.split == b.split
  {
    var va, ia := PlanOfItem(input, plan, a);
    var vb, ib := PlanOfItem(input, plan, b);
    PlansDistinct(input);
    SameId(Plans(input), va, vb);
  }

  lemma PlanOfItem(input: Input, plan: Plan, it: Placed) returns (v: VideoPlan, im: Image)
    requires Planned(input, plan) && it in plan.items
    ensures v in Plans(input) && im in v.images && it == PlaceIn(SplitOf(v, Chosen(input)))(im)
    ensures v.id == it.frame.video
  {
    ItemSplit(Plans(input), Chosen(input), it);
    v, im :| v in Plans(input) && im in v.images && it == PlaceIn(SplitOf(v, Chosen(input)))(im);
    PlannedImage(input, v, im);
  }

  lemma PlannedImage(input: Input, v: VideoPlan, im: Image)
    requires v in Plans(input) && im in v.images
    ensures im.frame.video == v.id
  {
    var k :| 0 <= k < |input.videos| && PlanOf(input)(input.videos[k]) == v;
    ImageWithin(input, v.id, im);
  }
}
