// Which of a video's frames go into a dataset: fully labeled ones, every so
// many of them, and none that looks like the one taken before it.
module FrameSelection {
  import opened Sequences
  import opened Geometry
  import opened Taxonomy

  datatype Options = Options(valFraction: real, stride: int, dedup: bool, distance: int)

  datatype Frame = Frame(id: nat, video: nat, clip: nat, hash: seq<bool>, labeled: bool)

  datatype Box = Box(frame: nat, rect: Rect, proposed: bool, unconfirmed: bool, typeId: nat, values: Values)

  datatype ItemBox = ItemBox(classId: nat, rect: Rect)

  datatype Image = Image(frame: Frame, boxes: seq<ItemBox>)

  // How many bits differ.
  function Distance(a: seq<bool>, b: seq<bool>): nat {
    if a == [] || b == [] then 0 else (if a[0] != b[0] then 1 else 0) + Distance(a[1..], b[1..])
  }

  // ---- Label types and classes

  // The last label type with an id, as a later one overwrites it.
  function FindType(types: seq<LabelType>, id: nat): Option<LabelType> {
    if types == [] then None
    else if types[|types|-1].id == id then Some(types[|types|-1])
    else FindType(types[..|types|-1], id)
  }

  function AllClasses(types: seq<LabelType>): seq<string> {
    if types == [] then []
    else
      var t := types[|types|-1];
      AllClasses(types[..|types|-1]) + Classes(t.name, t.attributes)
  }

  function ClassId(classes: seq<string>, name: string): nat {
    if classes == [] then 0
    else if classes[|classes|-1] == name then |classes| - 1
    else ClassId(classes[..|classes|-1], name)
  }

  lemma {:induction false} ClassIdNames(classes: seq<string>, name: string)
    requires name in classes
    ensures ClassId(classes, name) < |classes| && classes[ClassId(classes, name)] == name
  {
    var last := |classes| - 1;
    assert classes == classes[..last] + [classes[last]];
    if classes[last] != name {
      ClassIdNames(classes[..last], name);
    }
  }

  lemma {:induction false} TypeClassesListed(types: seq<LabelType>, id: nat, c: string)
    requires FindType(types, id).Some?
    requires var t := FindType(types, id).value;
             c in Classes(t.name, t.attributes)
    ensures c in AllClasses(types)
  {
    if types[|types|-1].id != id {
      TypeClassesListed(types[..|types|-1], id, c);
    }
  }

  // ---- One frame

  datatype Verdict = Unlabeled | Unverified | Incomplete | Eligible(boxes: seq<ItemBox>)

  function BoxVerdict(types: seq<LabelType>, b: Box): Verdict {
    if b.proposed || b.unconfirmed then Unverified
    else
      match FindType(types, b.typeId)
      case None => Incomplete
      case Some(t) =>
        if !Complete(t.attributes, b.values) then Incomplete
        else Eligible([ItemBox(ClassId(AllClasses(types), ClassName(t.name, t.attributes, b.values)), b.rect)])
  }

  // The first box that is not ready settles the frame.
  function BoxesVerdict(types: seq<LabelType>, boxes: seq<Box>): Verdict {
    if boxes == [] then Eligible([])
    else
      match BoxesVerdict(types, boxes[..|boxes|-1])
      case Eligible(done) =>
        (match BoxVerdict(types, boxes[|boxes|-1])
         case Eligible(more) => Eligible(done + more)
         case bad => bad)
      case bad => bad
  }

  function OnFrame(id: nat): Box -> bool {
    (b: Box) => b.frame == id
  }

  function Look(types: seq<LabelType>, boxes: seq<Box>): Frame -> Verdict {
    (f: Frame) => if f.labeled then BoxesVerdict(types, Filter(OnFrame(f.id), boxes)) else Unlabeled
  }

  // An eligible frame's boxes carry the classes of their types and values.
  lemma {:induction false} EligibleBoxes(types: seq<LabelType>, boxes: seq<Box>)
    requires BoxesVerdict(types, boxes).Eligible?
    ensures var out := BoxesVerdict(types, boxes).boxes;
            && |out| == |boxes|
            && forall k :: 0 <= k < |boxes| ==> BoxExported(types, boxes[k], out[k])
  {
    if boxes != [] {
      var last := |boxes| - 1;
      EligibleBoxes(types, boxes[..last]);
      BoxIsExported(types, boxes[last]);
    }
  }

  ghost predicate BoxExported(types: seq<LabelType>, b: Box, out: ItemBox) {
    && !b.proposed && !b.unconfirmed && out.rect == b.rect
    && FindType(types, b.typeId).Some?
    && var t := FindType(types, b.typeId).value;
       && Complete(t.attributes, b.values)
       && out.classId < |AllClasses(types)|
       && AllClasses(types)[out.classId] == ClassName(t.name, t.attributes, b.values)
  }

  lemma BoxIsExported(types: seq<LabelType>, b: Box)
    ensures BoxVerdict(types, b).Eligible? ==>
              |BoxVerdict(types, b).boxes| == 1 && BoxExported(types, b, BoxVerdict(types, b).boxes[0])
  {
    if BoxVerdict(types, b).Eligible? {
      var t := FindType(types, b.typeId).value;
      var c := ClassName(t.name, t.attributes, b.values);
      CompleteIsListed(t.name, t.attributes, b.values);
      TypeClassesListed(types, b.typeId, c);
      ClassIdNames(AllClasses(types), c);
    }
  }

  // ---- A video's frames

  datatype Fate = WasUnlabeled | WasUnverified | WasIncomplete | OffStride | Duplicate | Exported

  function Stride(opts: Options): int {
    if opts.stride > 1 then opts.stride else 1
  }

  predicate OnStride(opts: Options, rank: nat) {
    rank % Stride(opts) == 0
  }

  function IsEligible(look: Frame -> Verdict): Frame -> bool {
    (f: Frame) => look(f).Eligible?
  }

  // How many eligible frames there are: the rank of the one that follows.
  function Rank(look: Frame -> Verdict, fs: seq<Frame>): nat {
    |Filter(IsEligible(look), fs)|
  }

  // The last frame exported so far.
  function LastOut(fs: seq<Frame>, fates: seq<Fate>): Option<Frame>
    requires |fs| == |fates|
  {
    if fates == [] then None
    else if fates[|fates|-1] == Exported then Some(fs[|fs|-1])
    else LastOut(fs[..|fs|-1], fates[..|fates|-1])
  }

  predicate LooksLike(opts: Options, f: Frame, last: Option<Frame>) {
    opts.dedup && last.Some? && Distance(f.hash, last.value.hash) <= opts.distance
  }

  // A frame's fate, given how many eligible ones came before it and the last
  // one taken.
  function FateOf(opts: Options, verdict: Verdict, rank: nat, f: Frame, last: Option<Frame>): Fate {
    match verdict
    case Unlabeled => WasUnlabeled
    case Unverified => WasUnverified
    case Incomplete => WasIncomplete
    case Eligible(_) =>
      if !OnStride(opts, rank) then OffStride
      else if LooksLike(opts, f, last) then Duplicate
      else Exported
  }

  function Fates(opts: Options, look: Frame -> Verdict, fs: seq<Frame>): (fates: seq<Fate>)
    ensures |fates| == |fs|
  {
    if fs == [] then []
    else
      var n := |fs| - 1;
      var before := Fates(opts, look, fs[..n]);
      before + [FateOf(opts, look(fs[n]), Rank(look, fs[..n]), fs[n], LastOut(fs[..n], before))]
  }

  function Images(look: Frame -> Verdict, fs: seq<Frame>, fates: seq<Fate>): seq<Image>
    requires |fs| == |fates|
  {
    if fs == [] then []
    else
      var n := |fs| - 1;
      Images(look, fs[..n], fates[..n]) +
      if fates[n] == Exported && look(fs[n]).Eligible? then [Image(fs[n], look(fs[n]).boxes)] else []
  }

  function Selected(opts: Options, look: Frame -> Verdict, fs: seq<Frame>): seq<Image> {
    Images(look, fs, Fates(opts, look, fs))
  }

  function IsFate(fate: Fate): Fate -> bool {
    (x: Fate) => x == fate
  }

  function Count(fates: seq<Fate>, fate: Fate): int {
    |Filter(IsFate(fate), fates)|
  }

  // How many frames were left out, and why.
  datatype Skips = Skips(unlabeled: int, unverified: int, incomplete: int, offStride: int, duplicate: int) {
    function Plus(o: Skips): Skips {
      Skips(unlabeled + o.unlabeled, unverified + o.unverified, incomplete + o.incomplete,
            offStride + o.offStride, duplicate + o.duplicate)
    }

    function Total(): int {
      unlabeled + unverified + incomplete + offStride + duplicate
    }
  }

  function SkipsOf(fates: seq<Fate>): Skips {
    Skips(Count(fates, WasUnlabeled), Count(fates, WasUnverified), Count(fates, WasIncomplete),
          Count(fates, OffStride), Count(fates, Duplicate))
  }

  lemma CountSnoc(fates: seq<Fate>, x: Fate, fate: Fate)
    ensures Count(fates + [x], fate) == Count(fates, fate) + (if x == fate then 1 else 0)
  {
    FilterAppend(IsFate(fate), fates, [x]);
  }

  lemma FatesSnoc(opts: Options, look: Frame -> Verdict, fs: seq<Frame>, n: nat)
    requires n < |fs|
    ensures Fates(opts, look, fs[..n+1]) ==
            Fates(opts, look, fs[..n]) +
            [FateOf(opts, look(fs[n]), Rank(look, fs[..n]), fs[n], LastOut(fs[..n], Fates(opts, look, fs[..n])))]
  {
    assert fs[..n+1][..n] == fs[..n];
  }

  // Every frame is either left out for one reason or exported.
  lemma {:induction false} FramesConserved(opts: Options, look: Frame -> Verdict, fs: seq<Frame>)
    ensures SkipsOf(Fates(opts, look, fs)).Total() + |Selected(opts, look, fs)| == |fs|
  {
    if fs != [] {
      var n := |fs| - 1;
      var before := Fates(opts, look, fs[..n]);
      var fate := FateOf(opts, look(fs[n]), Rank(look, fs[..n]), fs[n], LastOut(fs[..n], before));
      FramesConserved(opts, look, fs[..n]);
      assert Fates(opts, look, fs)[..n] == before;
      CountSnoc(before, fate, WasUnlabeled);
      CountSnoc(before, fate, WasUnverified);
      CountSnoc(before, fate, WasIncomplete);
      CountSnoc(before, fate, OffStride);
      CountSnoc(before, fate, Duplicate);
    }
  }

  lemma {:induction false} FatesPrefix(opts: Options, look: Frame -> Verdict, fs: seq<Frame>, n: nat)
    requires n <= |fs|
    ensures Fates(opts, look, fs)[..n] == Fates(opts, look, fs[..n])
  {
    if n < |fs| {
      var last := |fs| - 1;
      FatesPrefix(opts, look, fs[..last], n);
      assert fs[..last][..n] == fs[..n];
      assert Fates(opts, look, fs)[..n] == Fates(opts, look, fs)[..last][..n];
    } else {
      assert fs[..n] == fs;
    }
  }

  // The frame exported last before the k-th one.
  ghost predicate LastBefore(fates: seq<Fate>, j: nat, k: nat) {
    j < k <= |fates| && fates[j] == Exported && forall i :: j < i < k ==> fates[i] != Exported
  }

  ghost predicate LastIs(fs: seq<Frame>, fates: seq<Fate>, k: nat, last: Option<Frame>)
    requires |fs| == |fates|
  {
    && (last.Some? ==> exists j: nat :: LastBefore(fates, j, k) && last.value == fs[j])
    && (last.None? ==> forall j: nat :: !LastBefore(fates, j, k))
  }

  lemma {:induction false} LastOutIs(fs: seq<Frame>, fates: seq<Fate>, k: nat)
    requires k <= |fs| == |fates|
    ensures LastIs(fs, fates, k, LastOut(fs[..k], fates[..k]))
    decreases k
  {
    if k > 0 {
      assert fs[..k][..k-1] == fs[..k-1] && fates[..k][..k-1] == fates[..k-1];
      if fates[k-1] == Exported {
        assert LastBefore(fates, k - 1, k);
      } else {
        LastOutIs(fs, fates, k - 1);
        assert forall j: nat :: LastBefore(fates, j, k) <==> LastBefore(fates, j, k - 1);
      }
    }
  }

  lemma FateAt(opts: Options, look: Frame -> Verdict, fs: seq<Frame>, k: nat)
    requires k < |fs|
    ensures var fates := Fates(opts, look, fs);
            fates[k] == FateOf(opts, look(fs[k]), Rank(look, fs[..k]), fs[k], LastOut(fs[..k], fates[..k]))
  {
    var fates := Fates(opts, look, fs);
    FatesPrefix(opts, look, fs, k);
    FatesPrefix(opts, look, fs, k + 1);
    FatesSnoc(opts, look, fs, k);
    assert fates[k] == fates[..k+1][k];
  }

  lemma LastBeforeOnce(fates: seq<Fate>, i: nat, j: nat, k: nat)
    requires LastBefore(fates, i, k) && LastBefore(fates, j, k)
    ensures i == j
  {
  }

  // A frame looks like the one exported last before it.
  ghost predicate Repeats(opts: Options, fs: seq<Frame>, fates: seq<Fate>, k: nat)
    requires k < |fs| == |fates|
  {
    exists j: nat :: LastBefore(fates, j, k) && Distance(fs[k].hash, fs[j].hash) <= opts.distance
  }

  // Each frame that is eligible is off the stride by its rank, or dropped for
  // repeating the one exported last before it, or exported.
  lemma SelectionExplained(opts: Options, look: Frame -> Verdict, fs: seq<Frame>, k: nat)
    requires k < |fs| && look(fs[k]).Eligible?
    ensures var fates := Fates(opts, look, fs);
            fates[k] == if !OnStride(opts, Rank(look, fs[..k])) then OffStride
                        else if opts.dedup && Repeats(opts, fs, fates, k) then Duplicate
                        else Exported
  {
    var fates := Fates(opts, look, fs);
    var last := LastOut(fs[..k], fates[..k]);
    FateAt(opts, look, fs, k);
    LastOutIs(fs, fates, k);
    RepeatsIs(opts, fs, fates, k, last);
  }

  lemma RepeatsIs(opts: Options, fs: seq<Frame>, fates: seq<Fate>, k: nat, last: Option<Frame>)
    requires k < |fs| == |fates| && LastIs(fs, fates, k, last)
    ensures Repeats(opts, fs, fates, k) <==> last.Some? && Distance(fs[k].hash, last.value.hash) <= opts.distance
  {
    if last.Some? {
      var j: nat :| LastBefore(fates, j, k) && last.value == fs[j];
      if Repeats(opts, fs, fates, k) {
        var i: nat :| LastBefore(fates, i, k) && Distance(fs[k].hash, fs[i].hash) <= opts.distance;
        LastBeforeOnce(fates, i, j, k);
      }
    }
  }

  // The last image taken is the frame exported last.
  lemma {:induction false} LastImage(opts: Options, look: Frame -> Verdict, fs: seq<Frame>)
    ensures var images := Selected(opts, look, fs);
            LastOut(fs, Fates(opts, look, fs)) == if images == [] then None else Some(images[|images|-1].frame)
  {
    if fs != [] {
      LastImage(opts, look, fs[..|fs|-1]);
      assert Fates(opts, look, fs)[..|fs|-1] == Fates(opts, look, fs[..|fs|-1]);
    }
  }

  // Frames taken one after the other differ in more bits than the limit.
  lemma {:induction false} TakenApart(opts: Options, look: Frame -> Verdict, fs: seq<Frame>)
    requires opts.dedup
    ensures var images := Selected(opts, look, fs);
            forall i :: 0 < i < |images| ==> Distance(images[i].frame.hash, images[i-1].frame.hash) > opts.distance
  {
    if fs != [] {
      var n := |fs| - 1;
      TakenApart(opts, look, fs[..n]);
      LastImage(opts, look, fs[..n]);
      assert Fates(opts, look, fs)[..n] == Fates(opts, look, fs[..n]);
    }
  }
}
