// What the split assignment guarantees: a greedy fill, a smallest fallback, and
// images left in train and val.
module SplitGuarantees {
  import opened Sequences
  import opened StableSorting
  import opened SplitChoice

  // ---- What the fill guarantees

  // Filling never takes val past its target, unless pinned videos had.
  lemma {:induction false} FitWithinTarget(plans: seq<VideoPlan>, val: nat, target: real)
    ensures Fit(plans, val, target) == [] || (val + Sum(Fit(plans, val, target))) as real <= target
    decreases |plans|
  {
    if plans != [] {
      var n := Size(plans[0]);
      if n > 0 && (val + n) as real <= target {
        FitWithinTarget(plans[1..], val + n, target);
      } else {
        FitWithinTarget(plans[1..], val, target);
      }
    }
  }

  // Any video with images that was not taken no longer fits.
  lemma {:induction false} NothingLeftFits(plans: seq<VideoPlan>, val: nat, target: real, v: VideoPlan)
    requires v in plans && v.images != [] && v !in Fit(plans, val, target)
    ensures (val + Sum(Fit(plans, val, target)) + Size(v)) as real > target
    decreases |plans|
  {
    var n := Size(plans[0]);
    if n > 0 && (val + n) as real <= target {
      NothingLeftFits(plans[1..], val + n, target, v);
    } else if v != plans[0] {
      NothingLeftFits(plans[1..], val, target, v);
    }
  }

  lemma LargerIsWeakOrder()
    ensures WeakOrder(Larger())
  {
  }

  lemma {:induction false} LastSizedIs(plans: seq<VideoPlan>)
    ensures |LastSized(plans)| <= 1
    ensures LastSized(plans) == [] <==> forall v :: v in plans ==> v.images == []
    ensures LastSized(plans) != [] ==> exists i ::
              && 0 <= i < |plans| && LastSized(plans) == [plans[i]] && plans[i].images != []
              && forall k :: i < k < |plans| ==> plans[k].images == []
  {
    if plans != [] {
      var n := |plans| - 1;
      assert plans == plans[..n] + [plans[n]];
      if plans[n].images == [] {
        LastSizedIs(plans[..n]);
        if LastSized(plans) != [] {
          var i :| && 0 <= i < n && LastSized(plans) == [plans[..n][i]] && plans[..n][i].images != []
                   && forall k :: i < k < n ==> plans[..n][k].images == [];
          assert plans[i] == plans[..n][i];
          assert forall k :: i < k < n ==> plans[k] == plans[..n][k];
        }
      } else {
        assert plans[n] in plans;
      }
    }
  }

  // The fallback moves one unpinned video, and none with images is smaller.
  lemma FallbackIsSmallest(plans: seq<VideoPlan>)
    ensures var chosen := LastSized(Sorted(plans));
            && |chosen| <= 1
            && (chosen == [] <==> forall v :: v in plans && v.pinned == Auto ==> v.images == [])
            && (chosen != [] ==>
                  && chosen[0] in plans && chosen[0].pinned == Auto && chosen[0].images != []
                  && forall v :: v in plans && v.pinned == Auto && v.images != [] ==> Size(chosen[0]) <= Size(v))
  {
    var sorted := Sorted(plans);
    LastSizedIs(sorted);
    LargerIsWeakOrder();
    SortOrdered(Larger(), Filter(Unpinned(), plans));
    if LastSized(sorted) != [] {
      var i :| && 0 <= i < |sorted| && LastSized(sorted) == [sorted[i]] && sorted[i].images != []
               && forall k :: i < k < |sorted| ==> sorted[k].images == [];
      assert sorted[i] in sorted;
      LastIsSmallest(sorted, i);
    }
  }

  lemma LastIsSmallest(sorted: seq<VideoPlan>, i: nat)
    requires Ordered(Larger(), sorted) && i < |sorted|
    requires forall k :: i < k < |sorted| ==> sorted[k].images == []
    ensures forall v :: v in sorted && v.images != [] ==> Size(sorted[i]) <= Size(v)
  {
    forall v | v in sorted && v.images != [] ensures Size(sorted[i]) <= Size(v) {
      var j :| 0 <= j < |sorted| && sorted[j] == v;
      if j < i {
        assert !Larger()(sorted[i], sorted[j]);
      }
    }
  }

  // ---- What each split is left with

  predicate Holds(plans: seq<VideoPlan>, chosen: seq<VideoPlan>, split: Split) {
    exists k :: 0 <= k < |plans| && plans[k].images != [] && SplitOf(plans[k], chosen) == split
  }

  lemma InIds(v: VideoPlan, chosen: seq<VideoPlan>)
    ensures v in chosen ==> v.id in Ids(chosen)
    ensures v.id in Ids(chosen) ==> exists w :: w in chosen && w.id == v.id
  {
    if v in chosen {
      var k :| 0 <= k < |chosen| && chosen[k] == v;
      assert Ids(chosen)[k] == v.id;
    }
    if v.id in Ids(chosen) {
      var k :| 0 <= k < |chosen| && Ids(chosen)[k] == v.id;
      assert chosen[k] in chosen;
    }
  }

  lemma SameId(plans: seq<VideoPlan>, v: VideoPlan, w: VideoPlan)
    requires DistinctIds(plans) && v in plans && w in plans && v.id == w.id
    ensures v == w
  {
    var i :| 0 <= i < |plans| && plans[i] == v;
    var j :| 0 <= j < |plans| && plans[j] == w;
    assert Ids(plans)[i] == Ids(plans)[j];
  }

  // With a positive share, val has images whenever two videos that are not
  // held out have some and one of those is unpinned.
  lemma ValHasImages(plans: seq<VideoPlan>, fraction: real, target: real)
    requires fraction > 0.0 && |Filter(Sized(), plans)| >= 2
    requires exists v :: v in plans && v.pinned == Auto && v.images != []
    ensures Holds(plans, ToVal(plans, fraction, target), Val)
  {
    var chosen := ToVal(plans, fraction, target);
    if FallsBack(plans, target) {
      FallbackIsSmallest(plans);
      ChosenHolds(plans, chosen, chosen[0]);
    } else if Filled(plans, target) != [] {
      FitIsSized(Sorted(plans), PinnedVal(plans), target);
      var v := Filled(plans, target)[0];
      assert v in Filled(plans, target) && v in Sorted(plans);
      ChosenHolds(plans, chosen, v);
    } else {
      PinnedHolds(plans, chosen);
    }
  }

  lemma ChosenHolds(plans: seq<VideoPlan>, chosen: seq<VideoPlan>, v: VideoPlan)
    requires v in chosen && v in plans && v.pinned == Auto && v.images != []
    ensures Holds(plans, chosen, Val)
  {
    InIds(v, chosen);
    var k :| 0 <= k < |plans| && plans[k] == v;
    assert SplitOf(plans[k], chosen) == Val;
  }

  lemma PinnedHolds(plans: seq<VideoPlan>, chosen: seq<VideoPlan>)
    requires PinnedVal(plans) > 0
    ensures Holds(plans, chosen, Val)
  {
    var pinned := Filter(PinnedTo(Val), plans);
    SumPositive(pinned);
    var v :| v in pinned && v.images != [];
    var k :| 0 <= k < |plans| && plans[k] == v;
    assert SplitOf(plans[k], chosen) == Val;
  }

  lemma {:induction false} SumPositive(plans: seq<VideoPlan>)
    requires Sum(plans) > 0
    ensures exists v :: v in plans && v.images != []
  {
    if plans[0].images != [] {
      assert plans[0] in plans;
    } else {
      SumPositive(plans[1..]);
      var v :| v in plans[1..] && v.images != [];
      assert v in plans;
    }
  }

  // When everything with images is taken, it all counts.
  lemma {:induction false} AllTaken(plans: seq<VideoPlan>, val: nat, target: real)
    requires Distinct(plans)
    requires forall v :: v in plans && v.images != [] ==> v in Fit(plans, val, target)
    ensures Sum(Fit(plans, val, target)) == Sum(plans)
    decreases |plans|
  {
    if plans != [] {
      var v, rest := plans[0], plans[1..];
      var taken := Size(v) > 0 && (val + Size(v)) as real <= target;
      var next := if taken then val + Size(v) else val;
      FitIsSized(rest, next, target);
      forall w | w in rest ensures w != v {
        var k :| 0 <= k < |rest| && rest[k] == w;
        assert plans[0] != plans[k+1];
      }
      forall w | w in rest && w.images != [] ensures w in Fit(rest, next, target) {
        assert w in plans && w in Fit(plans, val, target);
      }
      AllTaken(rest, next, target);
      assert v in plans;
      assert taken || v.images == [];
    }
  }

  lemma {:induction false} SumSame(a: seq<VideoPlan>, b: seq<VideoPlan>)
    requires multiset(a) == multiset(b)
    ensures Sum(a) == Sum(b)
  {
    if a == [] {
      assert |multiset(b)| == 0;
    } else {
      var k := Without(a, b);
      SumSame(a[1..], b[..k] + b[k+1..]);
      SumWithout(b, k);
    }
  }

  lemma SumMiddle(a: seq<VideoPlan>, v: VideoPlan, b: seq<VideoPlan>)
    ensures Sum(a + [v] + b) == Sum(a + b) + Size(v)
  {
    SumAppend(a + [v], b);
    SumSnoc(a, v);
    SumAppend(a, b);
  }

  lemma SumWithout(b: seq<VideoPlan>, k: nat)
    requires k < |b|
    ensures Sum(b) == Sum(b[..k] + b[k+1..]) + Size(b[k])
  {
    SplitAround(b, k);
    SumMiddle(b[..k], b[k], b[k+1..]);
  }

  ghost predicate NoVal(plans: seq<VideoPlan>) {
    forall v :: v in plans ==> v.pinned != Val
  }

  lemma {:induction false} SumOfSized(plans: seq<VideoPlan>, keep: VideoPlan -> bool)
    requires forall v :: v in plans && v.images != [] ==> keep(v)
    ensures Sum(Filter(keep, plans)) == Sum(plans)
  {
    if plans != [] {
      assert plans[0] in plans;
      SumOfSized(plans[1..], keep);
      if keep(plans[0]) {
        assert ([plans[0]] + Filter(keep, plans[1..]))[1..] == Filter(keep, plans[1..]);
      }
    }
  }

  lemma DistinctSorted(plans: seq<VideoPlan>)
    requires DistinctIds(plans)
    ensures Distinct(Sorted(plans))
  {
    forall i, j | 0 <= i < j < |plans| ensures plans[i] != plans[j] {
      assert Ids(plans)[i] != Ids(plans)[j];
    }
    FilterDistinct(Unpinned(), plans);
    DistinctMultiset(Filter(Unpinned(), plans), Sorted(plans));
  }

  // No video with images stayed in train.
  ghost predicate TrainEmpty(plans: seq<VideoPlan>, chosen: seq<VideoPlan>) {
    forall v :: v in plans && v.images != [] ==> SplitOf(v, chosen) != Train
  }

  lemma TrainEmptyOrHolds(plans: seq<VideoPlan>, chosen: seq<VideoPlan>)
    ensures TrainEmpty(plans, chosen) || Holds(plans, chosen, Train)
  {
    if !TrainEmpty(plans, chosen) {
      var v :| v in plans && v.images != [] && SplitOf(v, chosen) == Train;
      var k :| 0 <= k < |plans| && plans[k] == v;
      assert SplitOf(plans[k], chosen) == Train;
    }
  }

  // Were train left empty, every image would be one the fill took.
  lemma EmptyTrainTookAll(plans: seq<VideoPlan>, target: real)
    requires DistinctIds(plans) && NoVal(plans) && TrainEmpty(plans, Filled(plans, target))
    ensures Sum(Filled(plans, target)) == Total(plans)
  {
    var auto := Filter(Unpinned(), plans);
    var sorted := Sorted(plans);
    forall v | v in plans && v.images != [] && !HeldOut(v.pinned)
      ensures v.pinned == Auto && v in Filled(plans, target)
    {
      assert SplitOf(v, Filled(plans, target)) != Train;
      InIds(v, Filled(plans, target));
      var w :| w in Filled(plans, target) && w.id == v.id;
      FitIsSized(sorted, PinnedVal(plans), target);
      assert w in sorted;
      SameId(plans, v, w);
    }
    DistinctSorted(plans);
    forall v | v in sorted && v.images != [] ensures v in Filled(plans, target) {
      assert v in auto && v in plans;
    }
    AllTaken(sorted, PinnedVal(plans), target);
    SumSame(auto, sorted);
    UnpinnedCount(plans);
  }

  lemma UnpinnedCount(plans: seq<VideoPlan>)
    requires forall v :: v in plans && v.images != [] && !HeldOut(v.pinned) ==> v.pinned == Auto
    ensures Sum(Filter(Unpinned(), plans)) == Total(plans)
  {
    var counted := Filter(NotHeldOut(), plans);
    SumOfSized(counted, Unpinned());
    FilterTwice(Unpinned(), NotHeldOut(), Unpinned(), plans);
  }

  lemma {:induction false} NoPinnedVal(plans: seq<VideoPlan>)
    requires NoVal(plans)
    ensures PinnedVal(plans) == 0
  {
    FilterNone(PinnedTo(Val), plans);
  }

  // The fallback leaves train a video: there are two with images and it moves
  // one.
  lemma FallbackLeavesTrain(plans: seq<VideoPlan>)
    requires DistinctIds(plans) && NoVal(plans) && |Filter(Sized(), plans)| >= 2
    ensures Holds(plans, LastSized(Sorted(plans)), Train)
  {
    var chosen := LastSized(Sorted(plans));
    var sized := Filter(Sized(), plans);
    FallbackIsSmallest(plans);
    forall i, j | 0 <= i < j < |plans| ensures plans[i] != plans[j] {
      assert Ids(plans)[i] != Ids(plans)[j];
    }
    FilterDistinct(Sized(), plans);
    var v := if chosen != [] && sized[0] == chosen[0] then sized[1] else sized[0];
    assert v in sized && v in plans && sized[0] != sized[1];
    NotTheOne(plans, chosen, v);
    var k :| 0 <= k < |plans| && plans[k] == v;
    assert SplitOf(plans[k], chosen) == Train;
  }

  lemma NotTheOne(plans: seq<VideoPlan>, chosen: seq<VideoPlan>, v: VideoPlan)
    requires DistinctIds(plans) && v in plans && |chosen| <= 1
             && (chosen != [] ==> chosen[0] in plans && chosen[0] != v)
    ensures v.id !in Ids(chosen)
  {
    if chosen != [] && chosen[0].id == v.id {
      SameId(plans, v, chosen[0]);
    }
  }

  lemma HalfIsLess(fraction: real, total: nat)
    requires fraction <= 0.5 && total > 0
    ensures ShareOf(fraction, total) < total as real
  {
    assert fraction * total as real <= 0.5 * total as real;
  }

  lemma {:induction false} SomeCounted(plans: seq<VideoPlan>)
    ensures Total(plans) > 0 <==> exists v :: v in plans && v.images != [] && !HeldOut(v.pinned)
  {
    var counted := Filter(NotHeldOut(), plans);
    if Total(plans) > 0 {
      SumPositive(counted);
    }
    if v :| v in plans && v.images != [] && !HeldOut(v.pinned) {
      assert v in counted;
      SizeWithin(counted, v);
    }
  }

  lemma {:induction false} SizeWithin(plans: seq<VideoPlan>, v: VideoPlan)
    requires v in plans
    ensures Size(v) <= Sum(plans)
  {
    if v != plans[0] {
      SizeWithin(plans[1..], v);
    }
  }

  // With a share of at most one half and no video pinned to val, train has
  // images whenever a video that is not held out does.
  lemma TrainHasImages(plans: seq<VideoPlan>, fraction: real)
    requires fraction <= 0.5 && DistinctIds(plans) && NoVal(plans)
    requires exists v :: v in plans && v.images != [] && !HeldOut(v.pinned)
    ensures Holds(plans, ToVal(plans, fraction, ShareOf(fraction, Total(plans))), Train)
  {
    SomeCounted(plans);
    HalfIsLess(fraction, Total(plans));
    TrainKeepsShare(plans, fraction, ShareOf(fraction, Total(plans)));
  }

  lemma TrainKeepsShare(plans: seq<VideoPlan>, fraction: real, target: real)
    requires DistinctIds(plans) && NoVal(plans) && 0 < Total(plans) && target < Total(plans) as real
    ensures Holds(plans, ToVal(plans, fraction, target), Train)
  {
    var chosen := ToVal(plans, fraction, target);
    if fraction <= 0.0 {
      SomeCounted(plans);
      var v :| v in plans && v.images != [] && !HeldOut(v.pinned);
      var k :| 0 <= k < |plans| && plans[k] == v;
      assert SplitOf(plans[k], chosen) == Train;
    } else if FallsBack(plans, target) {
      FallbackLeavesTrain(plans);
    } else {
      TrainEmptyOrHolds(plans, chosen);
      NoPinnedVal(plans);
      FitWithinTarget(Sorted(plans), PinnedVal(plans), target);
      if TrainEmpty(plans, chosen) {
        EmptyTrainTookAll(plans, target);
      }
    }
  }

  // ---- How many images val gets

  function GoesTo(split: Split, chosen: seq<VideoPlan>): VideoPlan -> bool {
    (v: VideoPlan) => SplitOf(v, chosen) == split
  }

  function Moved(chosen: seq<VideoPlan>): VideoPlan -> bool {
    (v: VideoPlan) => v.pinned == Auto && v.id in Ids(chosen)
  }

  lemma {:induction false} SumEither(plans: seq<VideoPlan>, p: VideoPlan -> bool, q: VideoPlan -> bool,
                                     either: VideoPlan -> bool)
    requires forall v :: v in plans ==> either(v) == (p(v) || q(v)) && !(p(v) && q(v))
    ensures Sum(Filter(either, plans)) == Sum(Filter(p, plans)) + Sum(Filter(q, plans))
  {
    if plans != [] {
      var v, rest := plans[0], plans[1..];
      assert v in plans;
      SumEither(rest, p, q, either);
      SumCons(v, Filter(either, rest));
      SumCons(v, Filter(p, rest));
      SumCons(v, Filter(q, rest));
    }
  }

  lemma SumCons(v: VideoPlan, plans: seq<VideoPlan>)
    ensures Sum([v] + plans) == Size(v) + Sum(plans)
  {
    assert ([v] + plans)[1..] == plans;
  }

  lemma {:induction false} FitDistinct(plans: seq<VideoPlan>, val: nat, target: real)
    requires Distinct(plans)
    ensures Distinct(Fit(plans, val, target))
    decreases |plans|
  {
    if plans != [] {
      var v, rest := plans[0], plans[1..];
      FitDistinct(rest, val, target);
      FitDistinct(rest, val + Size(v), target);
      FitIsSized(rest, val + Size(v), target);
      forall w | w in rest ensures w != v {
        var k :| 0 <= k < |rest| && rest[k] == w;
        assert plans[0] != plans[k+1];
      }
      FirstApart(v, Fit(rest, val + Size(v), target));
    }
  }

  lemma FirstApart(v: VideoPlan, plans: seq<VideoPlan>)
    requires Distinct(plans) && v !in plans
    ensures Distinct([v] + plans)
  {
    forall k | 0 <= k < |plans| ensures plans[k] != v {
      assert plans[k] in plans;
    }
  }

  lemma MovedAre(plans: seq<VideoPlan>, chosen: seq<VideoPlan>)
    requires DistinctIds(plans) && Distinct(chosen) && forall v :: v in chosen ==> v in plans && v.pinned == Auto
    ensures Sum(Filter(Moved(chosen), plans)) == Sum(chosen)
  {
    var moved := Filter(Moved(chosen), plans);
    forall i, j | 0 <= i < j < |plans| ensures plans[i] != plans[j] {
      assert Ids(plans)[i] != Ids(plans)[j];
    }
    FilterDistinct(Moved(chosen), plans);
    forall v | v in moved ensures v in chosen {
      InIds(v, chosen);
      var w :| w in chosen && w.id == v.id;
      SameId(plans, v, w);
    }
    forall v | v in chosen ensures v in moved {
      InIds(v, chosen);
    }
    SameMembers(moved, chosen);
    SumSame(moved, chosen);
  }

  // The images in val are those pinned there and those of the videos moved
  // there.
  lemma ValImages(plans: seq<VideoPlan>, chosen: seq<VideoPlan>)
    requires DistinctIds(plans) && Distinct(chosen) && forall v :: v in chosen ==> v in plans && v.pinned == Auto
    ensures Sum(Filter(GoesTo(Val, chosen), plans)) == PinnedVal(plans) + Sum(chosen)
  {
    SumEither(plans, PinnedTo(Val), Moved(chosen), GoesTo(Val, chosen));
    MovedAre(plans, chosen);
  }

  // Before the fallback val holds at most the larger of what is pinned there
  // and the target, and no other video with images would still fit.
  lemma FillIsGreedy(plans: seq<VideoPlan>, target: real)
    requires DistinctIds(plans)
    ensures var chosen := Filled(plans, target);
            var val := Sum(Filter(GoesTo(Val, chosen), plans));
            && (val == PinnedVal(plans) || val as real <= target)
            && (forall v :: v in plans && v.pinned == Auto && v.images != [] && SplitOf(v, chosen) == Train ==>
                  (val + Size(v)) as real > target)
  {
    var chosen, sorted := Filled(plans, target), Sorted(plans);
    FilledIsSound(plans, target);
    ValImages(plans, chosen);
    FitWithinTarget(sorted, PinnedVal(plans), target);
    forall v | v in plans && v.pinned == Auto && v.images != [] && SplitOf(v, chosen) == Train
      ensures (PinnedVal(plans) + Sum(chosen) + Size(v)) as real > target
    {
      InIds(v, chosen);
      assert v in Filter(Unpinned(), plans);
      NothingLeftFits(sorted, PinnedVal(plans), target, v);
    }
  }

  lemma FilledIsSound(plans: seq<VideoPlan>, target: real)
    requires DistinctIds(plans)
    ensures var chosen := Filled(plans, target);
            Distinct(chosen) && forall v :: v in chosen ==> v in plans && v.pinned == Auto && v.images != []
  {
    DistinctSorted(plans);
    FitDistinct(Sorted(plans), PinnedVal(plans), target);
    FitIsSized(Sorted(plans), PinnedVal(plans), target);
    assert forall v :: v in Sorted(plans) ==> v in Filter(Unpinned(), plans);
  }
}
