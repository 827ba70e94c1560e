// The images of a dataset with their splits, and the totals kept about them.
module ExportTotals {
  import opened Sequences
  import opened FrameSelection
  import opened SplitChoice

  datatype Placed = Placed(frame: Frame, split: Split, boxes: seq<ItemBox>)

  // One count per split.
  datatype Tri = Tri(train: int, val: int, test: int) {
    function Total(): int {
      train + val + test
    }
  }

  function Add(t: Tri, split: Split, n: int): Tri {
    match split
    case Val => t.(val := t.val + n)
    case Test => t.(test := t.test + n)
    case _ => t.(train := t.train + n)
  }

  function Zero(): Tri {
    Tri(0, 0, 0)
  }

  function OfClass(c: nat): ItemBox -> bool {
    (b: ItemBox) => b.classId == c
  }

  function ClassCount(boxes: seq<ItemBox>, c: nat): nat {
    |Filter(OfClass(c), boxes)|
  }

  function ImageTotals(items: seq<Placed>): Tri {
    if items == [] then Zero()
    else Add(ImageTotals(items[..|items|-1]), items[|items|-1].split, 1)
  }

  function BoxTotals(items: seq<Placed>): Tri {
    if items == [] then Zero()
    else Add(BoxTotals(items[..|items|-1]), items[|items|-1].split, |items[|items|-1].boxes|)
  }

  function ClassTotals(items: seq<Placed>, c: nat): Tri {
    if items == [] then Zero()
    else Add(ClassTotals(items[..|items|-1], c), items[|items|-1].split, ClassCount(items[|items|-1].boxes, c))
  }

  function Negatives(items: seq<Placed>): int {
    if items == [] then 0
    else Negatives(items[..|items|-1]) + if items[|items|-1].boxes == [] then 1 else 0
  }

  // The clips and videos a class was seen in.
  function ClipsOf(items: seq<Placed>, c: nat): set<nat> {
    if items == [] then {}
    else
      var it := items[|items|-1];
      ClipsOf(items[..|items|-1], c) + if ClassCount(it.boxes, c) > 0 then {it.frame.clip} else {}
  }

  function VideosOf(items: seq<Placed>, c: nat): set<nat> {
    if items == [] then {}
    else
      var it := items[|items|-1];
      VideosOf(items[..|items|-1], c) + if ClassCount(it.boxes, c) > 0 then {it.frame.video} else {}
  }

  function AllBoxes(items: seq<Placed>): int {
    if items == [] then 0 else AllBoxes(items[..|items|-1]) + |items[|items|-1].boxes|
  }

  // ---- Counting item by item

  datatype Tally = Tally(negative: int, images: Tri, boxes: Tri, byClass: seq<Tri>, clips: seq<set<nat>>,
                         videos: seq<set<nat>>)

  ghost predicate Classed(t: Tally, n: nat) {
    |t.byClass| == n && |t.clips| == n && |t.videos| == n
  }

  ghost predicate Tallied(t: Tally, items: seq<Placed>, n: nat) {
    && Classed(t, n)
    && t.negative == Negatives(items) && t.images == ImageTotals(items) && t.boxes == BoxTotals(items)
    && forall c: nat :: c < n ==> ClassTallied(t, items, c, n)
  }

  ghost predicate ClassTallied(t: Tally, items: seq<Placed>, c: nat, n: nat)
    requires Classed(t, n)
  {
    c < n ==>
      t.byClass[c] == ClassTotals(items, c) && t.clips[c] == ClipsOf(items, c) && t.videos[c] == VideosOf(items, c)
  }

  // Within an item: some of its boxes counted.
  ghost predicate Counting(t: Tally, before: Tally, it: Placed, k: nat, n: nat)
    requires Classed(t, n) && Classed(before, n)
  {
    && k <= |it.boxes|
    && t.negative == before.negative && t.images == before.images
    && t.boxes == Add(before.boxes, it.split, k)
    && forall c: nat :: c < n ==> ClassCounting(t, before, it, k, c, n)
  }

  ghost predicate ClassCounting(t: Tally, before: Tally, it: Placed, k: nat, c: nat, n: nat)
    requires Classed(t, n) && Classed(before, n)
  {
    k <= |it.boxes| && c < n ==>
      var seen := ClassCount(it.boxes[..k], c);
      && t.byClass[c] == Add(before.byClass[c], it.split, seen)
      && t.clips[c] == before.clips[c] + (if seen > 0 then {it.frame.clip} else {})
      && t.videos[c] == before.videos[c] + (if seen > 0 then {it.frame.video} else {})
  }

  function WithBox(t: Tally, it: Placed, c: nat): Tally
    requires c < |t.byClass| && c < |t.clips| && c < |t.videos|
  {
    t.(boxes := Add(t.boxes, it.split, 1),
       byClass := t.byClass[c := Add(t.byClass[c], it.split, 1)],
       clips := t.clips[c := t.clips[c] + {it.frame.clip}],
       videos := t.videos[c := t.videos[c] + {it.frame.video}])
  }

  lemma CountBox(t: Tally, before: Tally, it: Placed, k: nat, n: nat)
    requires Classed(t, n) && Classed(before, n) && Counting(t, before, it, k, n)
    requires k < |it.boxes| && it.boxes[k].classId < n
    ensures Counting(WithBox(t, it, it.boxes[k].classId), before, it, k + 1, n)
  {
    var next := WithBox(t, it, it.boxes[k].classId);
    var upto := k + 1;
    forall c: nat | c < n ensures ClassCounting(next, before, it, upto, c, n) {
      FilterSnoc(OfClass(c), it.boxes, k);
      assert ClassCounting(t, before, it, k, c, n);
    }
  }

  method CountBoxes(t0: Tally, it: Placed, n: nat) returns (t: Tally)
    requires Classed(t0, n) && forall b :: b in it.boxes ==> b.classId < n
    ensures Classed(t, n) && Counting(t, t0, it, |it.boxes|, n)
  {
    t := t0;
    for k := 0 to |it.boxes|
      invariant Classed(t, n) && Counting(t, t0, it, k, n)
    {
      var c := it.boxes[k].classId;
      assert it.boxes[k] in it.boxes;
      CountBox(t, t0, it, k, n);
      t := t.(boxes := Add(t.boxes, it.split, 1), byClass := t.byClass[c := Add(t.byClass[c], it.split, 1)]);
      t := t.(clips := t.clips[c := t.clips[c] + {it.frame.clip}],
              videos := t.videos[c := t.videos[c] + {it.frame.video}]);
    }
  }

  function WithImage(t: Tally, it: Placed): Tally {
    t.(negative := t.negative + (if it.boxes == [] then 1 else 0), images := Add(t.images, it.split, 1))
  }

  lemma CountedIsTallied(t: Tally, before: Tally, items: seq<Placed>, it: Placed, n: nat)
    requires Tallied(before, items, n) && Classed(t, n) && Counting(t, WithImage(before, it), it, |it.boxes|, n)
    ensures Tallied(t, items + [it], n)
  {
    var all := items + [it];
    assert all[..|items|] == items;
    assert it.boxes[..|it.boxes|] == it.boxes;
    var start := WithImage(before, it);
    forall c: nat | c < n ensures ClassTallied(t, all, c, n) {
      assert ClassTallied(before, items, c, n);
      assert ClassCounting(t, start, it, |it.boxes|, c, n);
    }
  }

  method CountItem(t0: Tally, it: Placed, n: nat, ghost items: seq<Placed>) returns (t: Tally)
    requires Tallied(t0, items, n) && forall b :: b in it.boxes ==> b.classId < n
    ensures Tallied(t, items + [it], n)
  {
    t := t0;
    if |it.boxes| == 0 {
      t := t.(negative := t.negative + 1);
    }
    t := t.(images := Add(t.images, it.split, 1));
    t := CountBoxes(t, it, n);
    CountedIsTallied(t, t0, items, it, n);
  }

  // ---- The totals add up

  // Every image is counted in one split.
  lemma {:induction false} ImagesAddUp(items: seq<Placed>)
    ensures ImageTotals(items).Total() == |items|
  {
    if items != [] {
      ImagesAddUp(items[..|items|-1]);
    }
  }

  lemma {:induction false} BoxesAddUp(items: seq<Placed>)
    ensures BoxTotals(items).Total() == AllBoxes(items)
  {
    if items != [] {
      BoxesAddUp(items[..|items|-1]);
    }
  }

  function Plus(a: Tri, b: Tri): Tri {
    Tri(a.train + b.train, a.val + b.val, a.test + b.test)
  }

  // The totals of the first n classes together.
  function OverClasses(items: seq<Placed>, n: nat): Tri {
    if n == 0 then Zero() else Plus(OverClasses(items, n - 1), ClassTotals(items, n - 1))
  }

  function ClassesCount(boxes: seq<ItemBox>, n: nat): nat {
    if n == 0 then 0 else ClassesCount(boxes, n - 1) + ClassCount(boxes, n - 1)
  }

  lemma {:induction false} ClassesCountSnoc(boxes: seq<ItemBox>, b: ItemBox, n: nat)
    ensures ClassesCount(boxes + [b], n) == ClassesCount(boxes, n) + if b.classId < n then 1 else 0
  {
    if n > 0 {
      ClassesCountSnoc(boxes, b, n - 1);
      FilterAppend(OfClass(n - 1), boxes, [b]);
    }
  }

  lemma {:induction false} EveryBoxHasAClass(boxes: seq<ItemBox>, n: nat)
    requires forall b :: b in boxes ==> b.classId < n
    ensures ClassesCount(boxes, n) == |boxes|
  {
    if boxes == [] {
      NoBoxes(n);
    } else {
      var last := |boxes| - 1;
      assert boxes == boxes[..last] + [boxes[last]];
      EveryBoxHasAClass(boxes[..last], n);
      ClassesCountSnoc(boxes[..last], boxes[last], n);
    }
  }

  lemma {:induction false} NoBoxes(n: nat)
    ensures ClassesCount([], n) == 0
  {
    if n > 0 {
      NoBoxes(n - 1);
    }
  }

  lemma {:induction false} OverClassesSnoc(items: seq<Placed>, n: nat)
    requires items != []
    ensures var it := items[|items|-1];
            OverClasses(items, n) == Add(OverClasses(items[..|items|-1], n), it.split, ClassesCount(it.boxes, n))
  {
    if n > 0 {
      var it, before := items[|items|-1], items[..|items|-1];
      OverClassesSnoc(items, n - 1);
      AddPlus(OverClasses(before, n - 1), ClassTotals(before, n - 1), it.split, ClassesCount(it.boxes, n - 1),
              ClassCount(it.boxes, n - 1));
    }
  }

  lemma AddPlus(a: Tri, b: Tri, split: Split, m: int, n: int)
    ensures Plus(Add(a, split, m), Add(b, split, n)) == Add(Plus(a, b), split, m + n)
  {
  }

  lemma {:induction false} OverClassesNone(n: nat)
    ensures OverClasses([], n) == Zero()
  {
    if n > 0 {
      OverClassesNone(n - 1);
    }
  }

  // In every split the classes' boxes are all the boxes.
  lemma {:induction false} ClassesAddUp(items: seq<Placed>, n: nat)
    requires forall it :: it in items ==> forall b :: b in it.boxes ==> b.classId < n
    ensures OverClasses(items, n) == BoxTotals(items)
  {
    if items == [] {
      OverClassesNone(n);
    } else {
      var last := |items| - 1;
      assert items[last] in items;
      ClassesAddUp(items[..last], n);
      OverClassesSnoc(items, n);
      EveryBoxHasAClass(items[last].boxes, n);
    }
  }

  // ---- What the totals are of

  // The sizes of the images of a kind together.
  function SumIn(kind: Placed -> bool, size: Placed -> int, items: seq<Placed>): int {
    if items == [] then 0
    else SumIn(kind, size, items[..|items|-1]) + if kind(items[|items|-1]) then size(items[|items|-1]) else 0
  }

  // Everything that is neither in val nor in test counts as train.
  function InTrain(): Placed -> bool {
    (it: Placed) => it.split != Val && it.split != Test
  }

  function InVal(): Placed -> bool {
    (it: Placed) => it.split == Val
  }

  function InTest(): Placed -> bool {
    (it: Placed) => it.split == Test
  }

  function One(): Placed -> int {
    (it: Placed) => 1
  }

  function BoxesIn(): Placed -> int {
    (it: Placed) => |it.boxes|
  }

  ghost function ClassIn(c: nat): Placed -> int {
    (it: Placed) => |set k: nat | k < |it.boxes| && it.boxes[k].classId == c|
  }

  ghost function PerSplit(size: Placed -> int, items: seq<Placed>): Tri {
    Tri(SumIn(InTrain(), size, items), SumIn(InVal(), size, items), SumIn(InTest(), size, items))
  }

  lemma PerSplitSnoc(size: Placed -> int, items: seq<Placed>)
    requires items != []
    ensures var it := items[|items|-1];
            PerSplit(size, items) == Add(PerSplit(size, items[..|items|-1]), it.split, size(it))
  {
  }

  lemma ClassCounts(boxes: seq<ItemBox>, c: nat)
    ensures ClassCount(boxes, c) == |set k: nat | k < |boxes| && boxes[k].classId == c|
  {
    FilterCounts(OfClass(c), boxes);
    assert Places(OfClass(c), boxes) == set k: nat | k < |boxes| && boxes[k].classId == c;
  }

  // The images, boxes and boxes of a class each split counts are those of the
  // images in it.
  lemma {:induction false} TotalsTell(items: seq<Placed>, c: nat)
    ensures ImageTotals(items) == PerSplit(One(), items) && BoxTotals(items) == PerSplit(BoxesIn(), items)
    ensures ClassTotals(items, c) == PerSplit(ClassIn(c), items)
  {
    if items != [] {
      var it := items[|items|-1];
      TotalsTell(items[..|items|-1], c);
      PerSplitSnoc(One(), items);
      PerSplitSnoc(BoxesIn(), items);
      PerSplitSnoc(ClassIn(c), items);
      ClassCounts(it.boxes, c);
    }
  }

  function NoBoxesIn(): Placed -> bool {
    (it: Placed) => |it.boxes| == 0
  }

  lemma {:induction false} NegativesTell(items: seq<Placed>)
    ensures Negatives(items) == SumIn(NoBoxesIn(), One(), items)
  {
    if items != [] {
      NegativesTell(items[..|items|-1]);
    }
  }

  ghost predicate Shows(it: Placed, c: nat) {
    exists b :: b in it.boxes && b.classId == c
  }

  lemma ShowsIff(it: Placed, c: nat)
    ensures ClassCount(it.boxes, c) > 0 <==> Shows(it, c)
  {
    var found := Filter(OfClass(c), it.boxes);
    if ClassCount(it.boxes, c) > 0 {
      assert found[0] in found;
    }
    if b :| b in it.boxes && b.classId == c {
      assert OfClass(c)(b) && b in found;
    }
  }

  // The clips and videos of a class are those with an image that shows it.
  lemma {:induction false} CoverTells(items: seq<Placed>, c: nat, id: nat)
    ensures id in ClipsOf(items, c) <==> exists it :: it in items && it.frame.clip == id && Shows(it, c)
    ensures id in VideosOf(items, c) <==> exists it :: it in items && it.frame.video == id && Shows(it, c)
  {
    if items != [] {
      var n := |items| - 1;
      assert items == items[..n] + [items[n]];
      CoverTells(items[..n], c, id);
      ShowsIff(items[n], c);
    }
  }
}
