// Which split each video of a dataset goes to: held-out and pinned videos
// where they are, the others into val, largest first, while they fit.
module SplitChoice {
  import opened Sequences
  import opened StableSorting
  import opened FrameSelection

  datatype Split = Train | Val | Test | Auto

  datatype VideoPlan = VideoPlan(id: nat, pinned: Split, images: seq<Image>, boxes: int)

  predicate HeldOut(split: Split) {
    split == Test
  }

  function Size(v: VideoPlan): nat {
    |v.images|
  }

  function Unpinned(): VideoPlan -> bool {
    (v: VideoPlan) => v.pinned == Auto
  }

  function Sized(): VideoPlan -> bool {
    (v: VideoPlan) => v.images != [] && !HeldOut(v.pinned)
  }

  // Larger first, and by id among equals.
  function Larger(): (VideoPlan, VideoPlan) -> bool {
    (a: VideoPlan, b: VideoPlan) => Size(a) > Size(b) || (Size(a) == Size(b) && a.id < b.id)
  }

  function Sum(plans: seq<VideoPlan>): nat {
    if plans == [] then 0 else Sum(plans[1..]) + Size(plans[0])
  }

  function NotHeldOut(): VideoPlan -> bool {
    (v: VideoPlan) => !HeldOut(v.pinned)
  }

  function PinnedTo(split: Split): VideoPlan -> bool {
    (v: VideoPlan) => v.pinned == split
  }

  function Total(plans: seq<VideoPlan>): nat {
    Sum(Filter(NotHeldOut(), plans))
  }

  function PinnedVal(plans: seq<VideoPlan>): nat {
    Sum(Filter(PinnedTo(Val), plans))
  }

  // The videos that fit one after the other under a target, with val images
  // already there.
  function Fit(plans: seq<VideoPlan>, val: nat, target: real): seq<VideoPlan>
    decreases |plans|
  {
    if plans == [] then []
    else
      var n := Size(plans[0]);
      if n > 0 && (val + n) as real <= target then [plans[0]] + Fit(plans[1..], val + n, target)
      else Fit(plans[1..], val, target)
  }

  function LastSized(plans: seq<VideoPlan>): seq<VideoPlan> {
    if plans == [] then []
    else if plans[|plans|-1].images != [] then [plans[|plans|-1]]
    else LastSized(plans[..|plans|-1])
  }

  function Sorted(plans: seq<VideoPlan>): seq<VideoPlan> {
    StableSort(Larger(), Filter(Unpinned(), plans))
  }

  function Filled(plans: seq<VideoPlan>, target: real): seq<VideoPlan> {
    Fit(Sorted(plans), PinnedVal(plans), target)
  }

  predicate FallsBack(plans: seq<VideoPlan>, target: real) {
    PinnedVal(plans) + Sum(Filled(plans, target)) == 0 && |Filter(Sized(), plans)| >= 2
  }

  // The unpinned videos that go to val.
  function ToVal(plans: seq<VideoPlan>, fraction: real, target: real): seq<VideoPlan> {
    if fraction <= 0.0 then []
    else if FallsBack(plans, target) then LastSized(Sorted(plans))
    else Filled(plans, target)
  }

  function IdOf(): VideoPlan -> nat {
    (v: VideoPlan) => v.id
  }

  function Ids(plans: seq<VideoPlan>): seq<nat> {
    Map(IdOf(), plans)
  }

  function SplitOf(v: VideoPlan, chosen: seq<VideoPlan>): Split {
    if v.pinned != Auto then v.pinned else if v.id in Ids(chosen) then Val else Train
  }

  function Pinned(v: VideoPlan): Split {
    if v.pinned != Auto then v.pinned else Train
  }

  // ---- The assignment as it runs

  // The images a share of them makes.
  function ShareOf(fraction: real, total: nat): real {
    fraction * total as real
  }

  // Which videos are where, once some of the unpinned ones moved to val.
  ghost predicate Assigned(plans: seq<VideoPlan>, out: map<nat, Split>, chosen: seq<VideoPlan>) {
    && (forall k :: 0 <= k < |plans| ==> plans[k].id in out && out[plans[k].id] == SplitOf(plans[k], chosen))
    && (forall id :: id in out ==> id in Ids(plans))
  }

  ghost predicate DistinctIds(plans: seq<VideoPlan>) {
    Distinct(Ids(plans))
  }

  lemma SumSnoc(plans: seq<VideoPlan>, v: VideoPlan)
    ensures Sum(plans + [v]) == Sum(plans) + Size(v)
  {
    SumAppend(plans, [v]);
    assert [v][1..] == [];
  }

  lemma {:induction false} SumAppend(a: seq<VideoPlan>, b: seq<VideoPlan>)
    ensures Sum(a + b) == Sum(a) + Sum(b)
  {
    if a == [] {
      assert a + b == b;
    } else {
      assert (a + b)[1..] == a[1..] + b;
      SumAppend(a[1..], b);
    }
  }

  lemma IdsSnoc(plans: seq<VideoPlan>, v: VideoPlan)
    ensures Ids(plans + [v]) == Ids(plans) + [v.id]
  {
    MapAppend(IdOf(), plans, [v]);
  }

  lemma {:induction false} FitIsSized(plans: seq<VideoPlan>, val: nat, target: real)
    ensures forall v :: v in Fit(plans, val, target) ==> v in plans && v.images != []
    decreases |plans|
  {
    if plans != [] {
      FitIsSized(plans[1..], val, target);
      FitIsSized(plans[1..], val + Size(plans[0]), target);
    }
  }

  lemma NothingFilled(plans: seq<VideoPlan>, val: nat, target: real)
    ensures Sum(Fit(plans, val, target)) == 0 ==> Fit(plans, val, target) == []
  {
    var chosen := Fit(plans, val, target);
    FitIsSized(plans, val, target);
    if chosen != [] {
      assert chosen[0] in chosen;
    }
  }
}
