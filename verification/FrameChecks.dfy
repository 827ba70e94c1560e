// Checking and selecting a video's frames as the planner runs it, with the
// label types, classes and boxes looked up in maps.
module FrameChecks {
  import opened Sequences
  import opened Taxonomy
  import opened FrameSelection

  // ---- Lookups

  // The maps built from the label types: each type by its id, and each class
  // by its name.
  ghost predicate Indexed(types: seq<LabelType>, byId: map<nat, LabelType>, classIds: map<string, nat>) {
    && Typed(types, byId)
    && Named(AllClasses(types), classIds)
  }

  ghost predicate Typed(types: seq<LabelType>, byId: map<nat, LabelType>) {
    forall id: nat :: TypedAt(types, byId, id)
  }

  predicate TypedAt(types: seq<LabelType>, byId: map<nat, LabelType>, id: nat) {
    FindType(types, id) == if id in byId then Some(byId[id]) else None
  }

  ghost predicate Named(classes: seq<string>, classIds: map<string, nat>) {
    forall c: string :: ClassId(classes, c) == if c in classIds then classIds[c] else 0
  }

  lemma ClassIdSnoc(classes: seq<string>, c: string, classIds: map<string, nat>)
    requires Named(classes, classIds)
    ensures Named(classes + [c], classIds[c := |classes|])
  {
    assert (classes + [c])[..|classes|] == classes;
  }

  method NameClasses(more: seq<string>, classes0: seq<string>, classIds0: map<string, nat>)
    returns (classes: seq<string>, classIds: map<string, nat>)
    requires Named(classes0, classIds0)
    ensures classes == classes0 + more && Named(classes, classIds)
  {
    classes, classIds := classes0, classIds0;
    for k := 0 to |more|
      invariant classes == classes0 + more[..k] && Named(classes, classIds)
    {
      ClassIdSnoc(classes, more[k], classIds);
      assert more[..k+1] == more[..k] + [more[k]];
      classIds := classIds[more[k] := |classes|];
      classes := classes + [more[k]];
    }
    assert more[..|more|] == more;
  }

  lemma TypesStep(types: seq<LabelType>, k: nat, byId: map<nat, LabelType>)
    requires k < |types| && Typed(types[..k], byId)
    ensures AllClasses(types[..k+1]) == AllClasses(types[..k]) + Classes(types[k].name, types[k].attributes)
    ensures Typed(types[..k+1], byId[types[k].id := types[k]])
  {
    var upto, more := types[..k+1], byId[types[k].id := types[k]];
    assert upto[..k] == types[..k];
    forall id: nat ensures TypedAt(upto, more, id) {
      assert TypedAt(types[..k], byId, id);
    }
  }

  method IndexTypes(types: seq<LabelType>)
    returns (byId: map<nat, LabelType>, classIds: map<string, nat>, classes: seq<string>)
    ensures Indexed(types, byId, classIds) && classes == AllClasses(types)
  {
    byId, classIds, classes := map[], map[], [];
    for k := 0 to |types|
      invariant Indexed(types[..k], byId, classIds) && classes == AllClasses(types[..k])
    {
      var t := types[k];
      TypesStep(types, k, byId);
      byId := byId[t.id := t];
      var more := ListClasses(t.name, t.attributes);
      classes, classIds := NameClasses(more, classes, classIds);
    }
    assert types[..|types|] == types;
  }

  function Group<T>(groups: map<nat, seq<T>>, id: nat): seq<T> {
    if id in groups then groups[id] else []
  }

  method GroupBoxes(boxes: seq<Box>) returns (byFrame: map<nat, seq<Box>>)
    ensures forall id: nat :: Group(byFrame, id) == Filter(OnFrame(id), boxes)
  {
    byFrame := map[];
    for k := 0 to |boxes|
      invariant forall id: nat :: Group(byFrame, id) == Filter(OnFrame(id), boxes[..k])
    {
      forall id: nat
        ensures Filter(OnFrame(id), boxes[..k+1]) == Filter(OnFrame(id), boxes[..k])
                + (if id == boxes[k].frame then [boxes[k]] else [])
      {
        FilterSnoc(OnFrame(id), boxes, k);
      }
      byFrame := byFrame[boxes[k].frame := Group(byFrame, boxes[k].frame) + [boxes[k]]];
    }
    assert boxes[..|boxes|] == boxes;
  }

  function OfVideo(id: nat): Frame -> bool {
    (f: Frame) => f.video == id
  }

  method GroupFrames(frames: seq<Frame>) returns (byVideo: map<nat, seq<Frame>>)
    ensures forall id: nat :: Group(byVideo, id) == Filter(OfVideo(id), frames)
  {
    byVideo := map[];
    for k := 0 to |frames|
      invariant forall id: nat :: Group(byVideo, id) == Filter(OfVideo(id), frames[..k])
    {
      forall id: nat
        ensures Filter(OfVideo(id), frames[..k+1]) == Filter(OfVideo(id), frames[..k])
                + (if id == frames[k].video then [frames[k]] else [])
      {
        FilterSnoc(OfVideo(id), frames, k);
      }
      byVideo := byVideo[frames[k].video := Group(byVideo, frames[k].video) + [frames[k]]];
    }
    assert frames[..|frames|] == frames;
  }

  // ---- One frame

  lemma {:induction false} VerdictStep(types: seq<LabelType>, boxes: seq<Box>, k: nat)
    requires k < |boxes| && BoxesVerdict(types, boxes[..k]).Eligible?
    ensures var next := BoxesVerdict(types, boxes[..k+1]);
            match BoxVerdict(types, boxes[k])
            case Eligible(more) => next == Eligible(BoxesVerdict(types, boxes[..k]).boxes + more)
            case bad => next == bad
  {
    assert boxes[..k+1][..k] == boxes[..k];
  }

  lemma {:induction false} VerdictStays(types: seq<LabelType>, boxes: seq<Box>, k: nat)
    requires k <= |boxes| && !BoxesVerdict(types, boxes[..k]).Eligible?
    ensures BoxesVerdict(types, boxes) == BoxesVerdict(types, boxes[..k])
  {
    if k < |boxes| {
      assert boxes[..|boxes|-1][..k] == boxes[..k];
      VerdictStays(types, boxes[..|boxes|-1], k);
    } else {
      assert boxes[..k] == boxes;
    }
  }

  method CheckBox(ghost types: seq<LabelType>, byId: map<nat, LabelType>, classIds: map<string, nat>, b: Box)
    returns (v: Verdict)
    requires Indexed(types, byId, classIds)
    ensures v == BoxVerdict(types, b)
  {
    if b.proposed || b.unconfirmed {
      return Unverified;
    }
    assert TypedAt(types, byId, b.typeId);
    if b.typeId !in byId {
      return Incomplete;
    }
    var t := byId[b.typeId];
    if !Complete(t.attributes, b.values) {
      return Incomplete;
    }
    var name := ClassName(t.name, t.attributes, b.values);
    return Eligible([ItemBox(if name in classIds then classIds[name] else 0, b.rect)]);
  }

  method CheckFrame(ghost types: seq<LabelType>, byId: map<nat, LabelType>, classIds: map<string, nat>,
                    boxes: seq<Box>) returns (v: Verdict)
    requires Indexed(types, byId, classIds)
    ensures v == BoxesVerdict(types, boxes)
  {
    var done: seq<ItemBox> := [];
    for k := 0 to |boxes|
      invariant BoxesVerdict(types, boxes[..k]) == Eligible(done)
    {
      var one := CheckBox(types, byId, classIds, boxes[k]);
      VerdictStep(types, boxes, k);
      if !one.Eligible? {
        VerdictStays(types, boxes, k + 1);
        return one;
      }
      done := done + one.boxes;
    }
    assert boxes[..|boxes|] == boxes;
    return Eligible(done);
  }

  // ---- A video's frames

  function BoxCount(images: seq<Image>): int {
    if images == [] then 0 else BoxCount(images[..|images|-1]) + |images[|images|-1].boxes|
  }

  function NoSkips(): Skips {
    Skips(0, 0, 0, 0, 0)
  }

  // Counts one frame left out, or none when it is exported.
  function Skip(skips: Skips, fate: Fate): Skips {
    match fate
    case WasUnlabeled => skips.(unlabeled := skips.unlabeled + 1)
    case WasUnverified => skips.(unverified := skips.unverified + 1)
    case WasIncomplete => skips.(incomplete := skips.incomplete + 1)
    case OffStride => skips.(offStride := skips.offStride + 1)
    case Duplicate => skips.(duplicate := skips.duplicate + 1)
    case Exported => skips
  }

  lemma SkipsSnoc(fates: seq<Fate>, fate: Fate)
    ensures SkipsOf(fates + [fate]) == Skip(SkipsOf(fates), fate)
  {
    CountSnoc(fates, fate, WasUnlabeled);
    CountSnoc(fates, fate, WasUnverified);
    CountSnoc(fates, fate, WasIncomplete);
    CountSnoc(fates, fate, OffStride);
    CountSnoc(fates, fate, Duplicate);
  }

  // What the loop over a video's frames carries.
  datatype Progress = Progress(eligible: nat, last: Option<Frame>, images: seq<Image>, boxes: int, skips: Skips)

  ghost predicate SelectedUpTo(opts: Options, look: Frame -> Verdict, fs: seq<Frame>, n: nat, p: Progress) {
    n <= |fs| && SelectedBy(look, fs, n, Fates(opts, look, fs[..n]), p)
  }

  ghost predicate SelectedBy(look: Frame -> Verdict, fs: seq<Frame>, n: nat, fates: seq<Fate>, p: Progress) {
    && |fates| == n <= |fs|
    && p.eligible == Rank(look, fs[..n])
    && p.last == LastOut(fs[..n], fates)
    && p.images == Images(look, fs[..n], fates)
    && p.boxes == BoxCount(p.images)
    && p.skips == SkipsOf(fates)
  }

  function Taken(p: Progress, f: Frame, boxes: seq<ItemBox>): Progress {
    Progress(p.eligible + 1, Some(f), p.images + [Image(f, boxes)], p.boxes + |boxes|, p.skips)
  }

  function PassedOver(p: Progress, verdict: Verdict, fate: Fate): Progress {
    p.(eligible := if verdict.Eligible? then p.eligible + 1 else p.eligible, skips := Skip(p.skips, fate))
  }

  // Where the next frame takes it.
  lemma SelectStep(opts: Options, look: Frame -> Verdict, fs: seq<Frame>, n: nat, p: Progress)
    requires n < |fs| && SelectedUpTo(opts, look, fs, n, p)
    ensures var f := fs[n];
            var fate := FateOf(opts, look(f), p.eligible, f, p.last);
            if fate == Exported
            then look(f).Eligible? && SelectedUpTo(opts, look, fs, n + 1, Taken(p, f, look(f).boxes))
            else SelectedUpTo(opts, look, fs, n + 1, PassedOver(p, look(f), fate))
  {
    FatesSnoc(opts, look, fs, n);
    SelectedSnoc(look, fs, n, Fates(opts, look, fs[..n]), p, FateOf(opts, look(fs[n]), p.eligible, fs[n], p.last));
  }

  lemma SelectedSnoc(look: Frame -> Verdict, fs: seq<Frame>, n: nat, fates: seq<Fate>, p: Progress, fate: Fate)
    requires n < |fs| && SelectedBy(look, fs, n, fates, p) && (fate == Exported ==> look(fs[n]).Eligible?)
    ensures SelectedBy(look, fs, n + 1, fates + [fate],
                       if fate == Exported then Taken(p, fs[n], look(fs[n]).boxes)
                       else PassedOver(p, look(fs[n]), fate))
  {
    SkipsSnoc(fates, fate);
    FilterSnoc(IsEligible(look), fs, n);
    TakenSnoc(look, fs, n, fates, fate);
    if fate == Exported {
      BoxCountSnoc(p.images, Image(fs[n], look(fs[n]).boxes));
    }
  }

  // What one more fate adds to the images and makes the last frame exported.
  lemma TakenSnoc(look: Frame -> Verdict, fs: seq<Frame>, n: nat, fates: seq<Fate>, fate: Fate)
    requires n < |fs| && |fates| == n && (fate == Exported ==> look(fs[n]).Eligible?)
    ensures LastOut(fs[..n+1], fates + [fate]) == if fate == Exported then Some(fs[n]) else LastOut(fs[..n], fates)
    ensures Images(look, fs[..n+1], fates + [fate]) ==
            Images(look, fs[..n], fates) + if fate == Exported then [Image(fs[n], look(fs[n]).boxes)] else []
  {
    assert fs[..n+1][..n] == fs[..n] && (fates + [fate])[..n] == fates;
  }

  lemma BoxCountSnoc(images: seq<Image>, im: Image)
    ensures BoxCount(images + [im]) == BoxCount(images) + |im.boxes|
  {
    assert (images + [im])[..|images|] == images;
  }

  // One turn of the loop once the frame's boxes are checked.
  method Advance(opts: Options, f: Frame, verdict: Verdict, p: Progress) returns (next: Progress)
    ensures var fate := FateOf(opts, verdict, p.eligible, f, p.last);
            next == if fate == Exported && verdict.Eligible? then Taken(p, f, verdict.boxes)
                    else PassedOver(p, verdict, fate)
  {
    match verdict
    case Unlabeled => return p.(skips := p.skips.(unlabeled := p.skips.unlabeled + 1));
    case Unverified => return p.(skips := p.skips.(unverified := p.skips.unverified + 1));
    case Incomplete => return p.(skips := p.skips.(incomplete := p.skips.incomplete + 1));
    case Eligible(boxes) =>
      var eligible := p.eligible + 1;
      if !OnStride(opts, eligible - 1) {
        return p.(eligible := eligible, skips := p.skips.(offStride := p.skips.offStride + 1));
      }
      if LooksLike(opts, f, p.last) {
        return p.(eligible := eligible, skips := p.skips.(duplicate := p.skips.duplicate + 1));
      }
      return Progress(eligible, Some(f), p.images + [Image(f, boxes)], p.boxes + |boxes|, p.skips);
  }

  method SelectFrames(opts: Options, ghost types: seq<LabelType>, byId: map<nat, LabelType>, classIds: map<string, nat>,
                      ghost boxes: seq<Box>, byFrame: map<nat, seq<Box>>, fs: seq<Frame>)
    returns (p: Progress)
    requires Indexed(types, byId, classIds) && forall id: nat :: Group(byFrame, id) == Filter(OnFrame(id), boxes)
    ensures SelectedUpTo(opts, Look(types, boxes), fs, |fs|, p)
  {
    ghost var look := Look(types, boxes);
    p := Progress(0, None, [], 0, NoSkips());
    for n := 0 to |fs|
      invariant SelectedUpTo(opts, look, fs, n, p)
    {
      var verdict := Unlabeled;
      if fs[n].labeled {
        verdict := CheckFrame(types, byId, classIds, Group(byFrame, fs[n].id));
      }
      assert verdict == look(fs[n]);
      SelectStep(opts, look, fs, n, p);
      p := Advance(opts, fs[n], verdict, p);
    }
  }
}
