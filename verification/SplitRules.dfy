// What an assignment of splits must be, said of the assignment alone: where
// pinned videos are, and which unpinned ones val takes.
module SplitRules {
  import opened Sequences
  import opened StableSorting
  import opened SplitChoice
  import opened SplitGuarantees

  predicate In(out: map<nat, Split>, v: VideoPlan, split: Split) {
    v.id in out && out[v.id] == split
  }

  // The images of the videos of a kind.
  function ImagesWhere(kind: VideoPlan -> bool, plans: seq<VideoPlan>): nat {
    if plans == [] then 0 else (if kind(plans[0]) then |plans[0].images| else 0) + ImagesWhere(kind, plans[1..])
  }

  function Counting(): VideoPlan -> bool {
    (v: VideoPlan) => v.pinned != Test
  }

  // The images val should have: a share of all that are not held out.
  function Goal(plans: seq<VideoPlan>, fraction: real): real {
    ShareOf(fraction, ImagesWhere(Counting(), plans))
  }

  // Videos go to val larger ones first, and by id among equals.
  predicate GoesFirst(w: VideoPlan, v: VideoPlan) {
    |w.images| > |v.images| || (|w.images| == |v.images| && w.id < v.id)
  }

  // In val before v's turn.
  function InValBefore(out: map<nat, Split>, v: VideoPlan): VideoPlan -> bool {
    (w: VideoPlan) => In(out, w, Val) && (w.pinned == Val || GoesFirst(w, v))
  }

  // Every video has a split: its own if it is pinned or held out, and train
  // or val if not.
  ghost predicate Keeps(plans: seq<VideoPlan>, out: map<nat, Split>) {
    && (forall id :: id in out ==> exists v :: v in plans && v.id == id)
    && (forall v :: v in plans ==>
          if v.pinned == Auto then In(out, v, Train) || In(out, v, Val) else In(out, v, v.pinned))
  }

  // An unpinned video is in val exactly when it has images and they still fit
  // in its turn.
  ghost predicate Fills(plans: seq<VideoPlan>, out: map<nat, Split>, goal: real) {
    forall v :: v in plans && v.pinned == Auto ==>
      (In(out, v, Val) <==>
         v.images != [] && (ImagesWhere(InValBefore(out, v), plans) + |v.images|) as real <= goal)
  }

  // The one unpinned video in val is the last with images whose turn it is.
  ghost predicate TakesSmallest(plans: seq<VideoPlan>, out: map<nat, Split>) {
    forall v :: v in plans && v.pinned == Auto ==>
      (In(out, v, Val) <==>
         v.images != [] &&
         forall w :: w in plans && w.pinned == Auto && w.images != [] && w.id != v.id ==> GoesFirst(w, v))
  }

  // Val would have no images, though two videos have some.
  ghost predicate LeavesValEmpty(plans: seq<VideoPlan>, goal: real) {
    && (forall v :: v in plans && v.images != [] ==>
          v.pinned != Val && (v.pinned == Auto ==> |v.images| as real > goal))
    && (exists v, w :: v in plans && w in plans && v.id != w.id && v.images != [] && w.images != []
                       && v.pinned != Test && w.pinned != Test)
  }

  ghost predicate Follows(plans: seq<VideoPlan>, fraction: real, out: map<nat, Split>) {
    Keeps(plans, out) &&
    if fraction <= 0.0 then forall v :: v in plans && v.pinned == Auto ==> In(out, v, Train)
    else if LeavesValEmpty(plans, Goal(plans, fraction)) then TakesSmallest(plans, out)
    else Fills(plans, out, Goal(plans, fraction))
  }

  // ---- Sums

  lemma {:induction false} ImagesWhereIs(kind: VideoPlan -> bool, plans: seq<VideoPlan>)
    ensures ImagesWhere(kind, plans) == Sum(Filter(kind, plans))
  {
    if plans != [] {
      ImagesWhereIs(kind, plans[1..]);
      SumCons(plans[0], Filter(kind, plans[1..]));
    }
  }

  lemma {:induction false} SumWhereSame(p: VideoPlan -> bool, q: VideoPlan -> bool, plans: seq<VideoPlan>)
    requires forall v :: v in plans ==> p(v) == q(v)
    ensures Sum(Filter(p, plans)) == ImagesWhere(q, plans)
  {
    ImagesWhereIs(q, plans);
    FilterSame(p, q, plans);
  }

  // ---- Whose turn it is

  lemma FitStep(v: VideoPlan, rest: seq<VideoPlan>, val: nat, target: real)
    ensures Fit([v] + rest, val, target) ==
            if Size(v) > 0 && (val + Size(v)) as real <= target then [v] + Fit(rest, val + Size(v), target)
            else Fit(rest, val, target)
  {
    assert ([v] + rest)[1..] == rest;
  }

  lemma {:induction false} FitAppend(a: seq<VideoPlan>, b: seq<VideoPlan>, val: nat, target: real)
    ensures Fit(a + b, val, target) == Fit(a, val, target) + Fit(b, val + Sum(Fit(a, val, target)), target)
    decreases |a|
  {
    if a == [] {
      assert a + b == b;
    } else {
      var v, rest := a[0], a[1..];
      assert a == [v] + rest && a + b == [v] + (rest + b);
      FitStep(v, rest, val, target);
      FitStep(v, rest + b, val, target);
      if Size(v) > 0 && (val + Size(v)) as real <= target {
        FitAppend(rest, b, val + Size(v), target);
        SumCons(v, Fit(rest, val + Size(v), target));
      } else {
        FitAppend(rest, b, val, target);
      }
    }
  }

  lemma FitOne(v: VideoPlan, rest: seq<VideoPlan>, val: nat, target: real)
    requires v !in rest
    ensures v in Fit([v] + rest, val, target) <==> v.images != [] && (val + Size(v)) as real <= target
  {
    assert ([v] + rest)[1..] == rest;
    FitIsSized(rest, val, target);
  }

  // The k-th in turn is taken exactly when it fits after those taken before it.
  lemma FitTells(sorted: seq<VideoPlan>, val: nat, target: real, k: nat)
    requires Distinct(sorted) && k < |sorted|
    ensures var v, before := sorted[k], Fit(sorted[..k], val, target);
            && (v in Fit(sorted, val, target) <==> v.images != [] && (val + Sum(before) + Size(v)) as real <= target)
            && (forall w :: w in before <==> w in sorted[..k] && w in Fit(sorted, val, target))
  {
    SplitAround(sorted, k);
    ApartFromRest(sorted, k);
    FitAround(sorted[..k], sorted[k], sorted[k+1..], val, target);
    assert sorted == sorted[..k] + ([sorted[k]] + sorted[k+1..]);
  }

  lemma FitAround(a: seq<VideoPlan>, v: VideoPlan, b: seq<VideoPlan>, val: nat, target: real)
    requires v !in a && v !in b && forall w :: w in a ==> w !in [v] + b
    ensures var all, before := Fit(a + ([v] + b), val, target), Fit(a, val, target);
            && (v in all <==> v.images != [] && (val + Sum(before) + Size(v)) as real <= target)
            && (forall w :: w in before <==> w in a && w in all)
  {
    var before := Fit(a, val, target);
    FitAppend(a, [v] + b, val, target);
    FitIsSized(a, val, target);
    FitIsSized([v] + b, val + Sum(before), target);
    FitOne(v, b, val + Sum(before), target);
  }

  lemma ApartFromRest(s: seq<VideoPlan>, k: nat)
    requires Distinct(s) && k < |s|
    ensures forall w :: w in s[..k] ==> w !in [s[k]] + s[k+1..]
    ensures s[k] !in s[k+1..] && s[k] !in s[..k]
  {
    forall w | w in s[..k] ensures w !in [s[k]] + s[k+1..] {
      var i :| 0 <= i < k && s[..k][i] == w;
      forall j | k <= j < |s| ensures s[j] != w {
        assert s[i] != s[j];
      }
    }
    forall j | k < j < |s| ensures s[j] != s[k] {
      assert s[k] != s[j];
    }
  }

  lemma LargerIsFirst(w: VideoPlan, v: VideoPlan)
    ensures Larger()(w, v) <==> GoesFirst(w, v)
  {
  }

  // The unpinned videos in turn: those before the k-th are those that go
  // first.
  lemma TurnsAre(plans: seq<VideoPlan>, k: nat)
    requires DistinctIds(plans) && k < |Sorted(plans)|
    ensures forall w :: w in Sorted(plans)[..k] <==> w in plans && w.pinned == Auto && GoesFirst(w, Sorted(plans)[k])
  {
    var sorted := Sorted(plans);
    var v := sorted[k];
    LargerIsWeakOrder();
    SortOrdered(Larger(), Filter(Unpinned(), plans));
    DistinctSorted(plans);
    assert forall j :: k <= j < |sorted| ==> !Larger()(sorted[j], v);
    forall w ensures w in sorted[..k] <==> w in plans && w.pinned == Auto && GoesFirst(w, v) {
      LargerIsFirst(w, v);
      LargerIsFirst(v, w);
      if w in sorted[..k] {
        var j :| 0 <= j < k && sorted[..k][j] == w;
        InTurn(plans, j, k);
      }
      if w in plans && w.pinned == Auto && GoesFirst(w, v) {
        assert w in sorted;
        var j :| 0 <= j < |sorted| && sorted[j] == w;
        assert sorted[..k][j] == w;
      }
    }
  }

  lemma InTurn(plans: seq<VideoPlan>, j: nat, k: nat)
    requires DistinctIds(plans) && j < k < |Sorted(plans)|
    ensures var w, v := Sorted(plans)[j], Sorted(plans)[k];
            w in plans && w.pinned == Auto && GoesFirst(w, v)
  {
    var sorted := Sorted(plans);
    LargerIsWeakOrder();
    SortOrdered(Larger(), Filter(Unpinned(), plans));
    DistinctSorted(plans);
    assert sorted[j] in sorted && sorted[k] in sorted;
    assert !Larger()(sorted[k], sorted[j]);
    assert sorted[j] != sorted[k];
    if sorted[j].id == sorted[k].id {
      SameId(plans, sorted[j], sorted[k]);
    }
  }

  // ---- The fill

  ghost predicate Sound(plans: seq<VideoPlan>, chosen: seq<VideoPlan>) {
    Distinct(chosen) && forall v :: v in chosen ==> v in plans && v.pinned == Auto && v.images != []
  }

  lemma InValIff(plans: seq<VideoPlan>, out: map<nat, Split>, chosen: seq<VideoPlan>, v: VideoPlan)
    requires DistinctIds(plans) && Assigned(plans, out, chosen) && Sound(plans, chosen) && v in plans
    ensures v.id in out && (v.pinned != Auto ==> out[v.id] == v.pinned)
    ensures v.pinned == Auto ==> out[v.id] == if v in chosen then Val else Train
  {
    var k :| 0 <= k < |plans| && plans[k] == v;
    InIds(v, chosen);
    if v.id in Ids(chosen) {
      var w :| w in chosen && w.id == v.id;
      SameId(plans, v, w);
    }
  }

  lemma AssignedKeeps(plans: seq<VideoPlan>, out: map<nat, Split>, chosen: seq<VideoPlan>)
    requires DistinctIds(plans) && Assigned(plans, out, chosen) && Sound(plans, chosen)
    ensures Keeps(plans, out)
  {
    forall v | v in plans
      ensures if v.pinned == Auto then In(out, v, Train) || In(out, v, Val) else In(out, v, v.pinned)
    {
      InValIff(plans, out, chosen, v);
    }
    forall id | id in out ensures exists v :: v in plans && v.id == id {
      var k :| 0 <= k < |plans| && Ids(plans)[k] == id;
      assert plans[k] in plans;
    }
  }

  // What the fill had in val when it came to a video.
  lemma ValBeforeIs(plans: seq<VideoPlan>, out: map<nat, Split>, target: real, k: nat)
    requires DistinctIds(plans) && Assigned(plans, out, Filled(plans, target)) && k < |Sorted(plans)|
    ensures ImagesWhere(InValBefore(out, Sorted(plans)[k]), plans) ==
            PinnedVal(plans) + Sum(Fit(Sorted(plans)[..k], PinnedVal(plans), target))
  {
    var sorted, chosen := Sorted(plans), Filled(plans, target);
    var v, before := sorted[k], Fit(sorted[..k], PinnedVal(plans), target);
    FilledIsSound(plans, target);
    DistinctSorted(plans);
    FitTells(sorted, PinnedVal(plans), target, k);
    TurnsAre(plans, k);
    forall w | w in plans
      ensures InValBefore(out, v)(w) == (PinnedTo(Val)(w) || MovedFrom(before)(w))
      ensures !(PinnedTo(Val)(w) && MovedFrom(before)(w))
    {
      InValIff(plans, out, chosen, w);
      assert w in before ==> w in sorted;
    }
    SumEither(plans, PinnedTo(Val), MovedFrom(before), InValBefore(out, v));
    ImagesWhereIs(InValBefore(out, v), plans);
    PartIsSound(plans, sorted, target, k);
    SumOfMembers(plans, before);
  }

  function MovedFrom(moved: seq<VideoPlan>): VideoPlan -> bool {
    (v: VideoPlan) => v in moved
  }

  lemma PartIsSound(plans: seq<VideoPlan>, sorted: seq<VideoPlan>, target: real, k: nat)
    requires DistinctIds(plans) && sorted == Sorted(plans) && k <= |sorted|
    ensures Distinct(Fit(sorted[..k], PinnedVal(plans), target))
    ensures forall v :: v in Fit(sorted[..k], PinnedVal(plans), target) ==> v in plans
  {
    DistinctSorted(plans);
    forall i, j | 0 <= i < j < k ensures sorted[..k][i] != sorted[..k][j] {
      assert sorted[i] != sorted[j];
    }
    FitDistinct(sorted[..k], PinnedVal(plans), target);
    FitIsSized(sorted[..k], PinnedVal(plans), target);
    assert forall v :: v in sorted ==> v in Filter(Unpinned(), plans);
  }

  lemma SumOfMembers(plans: seq<VideoPlan>, part: seq<VideoPlan>)
    requires DistinctIds(plans) && Distinct(part) && forall v :: v in part ==> v in plans
    ensures Sum(Filter(MovedFrom(part), plans)) == Sum(part)
  {
    forall i, j | 0 <= i < j < |plans| ensures plans[i] != plans[j] {
      assert Ids(plans)[i] != Ids(plans)[j];
    }
    FilterDistinct(MovedFrom(part), plans);
    SameMembers(Filter(MovedFrom(part), plans), part);
    SumSame(Filter(MovedFrom(part), plans), part);
  }

  lemma FillIsInTurn(plans: seq<VideoPlan>, out: map<nat, Split>, target: real)
    requires DistinctIds(plans) && Assigned(plans, out, Filled(plans, target))
    ensures Fills(plans, out, target)
  {
    var sorted, chosen := Sorted(plans), Filled(plans, target);
    FilledIsSound(plans, target);
    DistinctSorted(plans);
    forall v | v in plans && v.pinned == Auto
      ensures In(out, v, Val) <==>
              v.images != [] && (ImagesWhere(InValBefore(out, v), plans) + |v.images|) as real <= target
    {
      assert v in Filter(Unpinned(), plans) && v in sorted;
      var k :| 0 <= k < |sorted| && sorted[k] == v;
      InValIff(plans, out, chosen, v);
      FitTells(sorted, PinnedVal(plans), target, k);
      ValBeforeIs(plans, out, target, k);
    }
  }

  // ---- The fallback

  lemma {:induction false} NoneFits(plans: seq<VideoPlan>, target: real)
    requires forall v :: v in plans && v.images != [] ==> Size(v) as real > target
    ensures Fit(plans, 0, target) == []
  {
    if plans != [] {
      assert plans[0] in plans;
      NoneFits(plans[1..], target);
    }
  }

  ghost predicate FitsNowhere(target: real, v: VideoPlan) {
    v.pinned != Val && (v.pinned == Auto ==> Size(v) as real > target)
  }

  lemma FilledNothing(plans: seq<VideoPlan>, target: real, v: VideoPlan)
    requires PinnedVal(plans) + Sum(Filled(plans, target)) == 0 && v in plans && v.images != []
    ensures FitsNowhere(target, v)
  {
    if v.pinned == Val {
      SizeWithin(Filter(PinnedTo(Val), plans), v);
    } else if v.pinned == Auto {
      NothingFilled(Sorted(plans), PinnedVal(plans), target);
      assert v in Filter(Unpinned(), plans) && v in Sorted(plans);
      NothingLeftFits(Sorted(plans), 0, target, v);
    }
  }

  lemma FillsNothing(plans: seq<VideoPlan>, target: real)
    requires forall v :: v in plans && v.images != [] ==> FitsNowhere(target, v)
    ensures PinnedVal(plans) + Sum(Filled(plans, target)) == 0
  {
    var pinned := Filter(PinnedTo(Val), plans);
    if PinnedVal(plans) > 0 {
      SumPositive(pinned);
    }
    assert forall v :: v in Sorted(plans) ==> v in Filter(Unpinned(), plans);
    NoneFits(Sorted(plans), target);
  }

  lemma NothingFillsIff(plans: seq<VideoPlan>, target: real)
    ensures PinnedVal(plans) + Sum(Filled(plans, target)) == 0 <==>
            forall v :: v in plans && v.images != [] ==> FitsNowhere(target, v)
  {
    if PinnedVal(plans) + Sum(Filled(plans, target)) == 0 {
      forall v | v in plans && v.images != [] ensures FitsNowhere(target, v) {
        FilledNothing(plans, target, v);
      }
    }
    if forall v :: v in plans && v.images != [] ==> FitsNowhere(target, v) {
      FillsNothing(plans, target);
    }
  }

  lemma TwoSizedIff(plans: seq<VideoPlan>)
    requires DistinctIds(plans)
    ensures |Filter(Sized(), plans)| >= 2 <==>
            exists v, w :: v in plans && w in plans && v.id != w.id && v.images != [] && w.images != []
                           && v.pinned != Test && w.pinned != Test
  {
    var sized := Filter(Sized(), plans);
    forall i, j | 0 <= i < j < |plans| ensures plans[i] != plans[j] {
      assert Ids(plans)[i] != Ids(plans)[j];
    }
    FilterDistinct(Sized(), plans);
    if |sized| >= 2 {
      assert sized[0] in sized && sized[1] in sized && sized[0] != sized[1];
      if sized[0].id == sized[1].id {
        SameId(plans, sized[0], sized[1]);
      }
    }
    if v, w :| v in plans && w in plans && v.id != w.id && v.images != [] && w.images != []
               && v.pinned != Test && w.pinned != Test {
      assert v in sized && w in sized;
      var i :| 0 <= i < |sized| && sized[i] == v;
      var j :| 0 <= j < |sized| && sized[j] == w;
    }
  }

  lemma FallsBackIff(plans: seq<VideoPlan>, target: real)
    requires DistinctIds(plans)
    ensures FallsBack(plans, target) <==> LeavesValEmpty(plans, target)
  {
    NothingFillsIff(plans, target);
    assert forall v ::
      FitsNowhere(target, v) <==> (v.pinned != Val && (v.pinned == Auto ==> |v.images| as real > target));
    TwoSizedIff(plans);
  }

  lemma LastIsSound(plans: seq<VideoPlan>)
    ensures Sound(plans, LastSized(Sorted(plans)))
  {
    FallbackIsSmallest(plans);
    OneIsSound(plans, LastSized(Sorted(plans)));
  }

  lemma OneIsSound(plans: seq<VideoPlan>, chosen: seq<VideoPlan>)
    requires |chosen| <= 1
    requires chosen != [] ==> chosen[0] in plans && chosen[0].pinned == Auto && chosen[0].images != []
    ensures Sound(plans, chosen)
  {
  }

  // The last in turn with images.
  lemma LastTells(plans: seq<VideoPlan>, v: VideoPlan)
    requires DistinctIds(plans) && v in plans && v.pinned == Auto
    ensures v in LastSized(Sorted(plans)) <==>
            v.images != [] &&
            forall w :: w in plans && w.pinned == Auto && w.images != [] && w.id != v.id ==> GoesFirst(w, v)
  {
    var sorted := Sorted(plans);
    LastSizedIs(sorted);
    assert v in Filter(Unpinned(), plans) && v in sorted;
    if v.images != [] {
      var i :| && 0 <= i < |sorted| && LastSized(sorted) == [sorted[i]] && sorted[i].images != []
               && forall k :: i < k < |sorted| ==> sorted[k].images == [];
      TurnsAre(plans, i);
      LastIsLast(plans, sorted, i);
      if v != sorted[i] {
        assert sorted[i] in sorted && sorted[i] in plans;
        if v.id == sorted[i].id {
          SameId(plans, v, sorted[i]);
        }
        assert GoesFirst(v, sorted[i]) && !GoesFirst(sorted[i], v);
      }
    }
  }

  lemma LastIsLast(plans: seq<VideoPlan>, sorted: seq<VideoPlan>, i: nat)
    requires DistinctIds(plans) && sorted == Sorted(plans) && i < |sorted|
    requires forall k :: i < k < |sorted| ==> sorted[k].images == []
    ensures forall w :: w in plans && w.pinned == Auto && w.images != [] && w.id != sorted[i].id ==>
                        GoesFirst(w, sorted[i])
  {
    forall w | w in plans && w.pinned == Auto && w.images != [] && w.id != sorted[i].id
      ensures GoesFirst(w, sorted[i])
    {
      assert w in Filter(Unpinned(), plans) && w in sorted;
      var j :| 0 <= j < |sorted| && sorted[j] == w;
      assert j <= i;
      InTurn(plans, j, i);
    }
  }

  lemma FallbackTakesSmallest(plans: seq<VideoPlan>, out: map<nat, Split>)
    requires DistinctIds(plans) && Assigned(plans, out, LastSized(Sorted(plans)))
    ensures TakesSmallest(plans, out)
  {
    LastIsSound(plans);
    forall v | v in plans && v.pinned == Auto
      ensures In(out, v, Val) <==> v in LastSized(Sorted(plans))
    {
      InValIff(plans, out, LastSized(Sorted(plans)), v);
    }
    forall v | v in plans && v.pinned == Auto
      ensures v in LastSized(Sorted(plans)) <==>
              v.images != [] &&
              forall w :: w in plans && w.pinned == Auto && w.images != [] && w.id != v.id ==> GoesFirst(w, v)
    {
      LastTells(plans, v);
    }
  }

  // ---- All of it

  lemma ChosenIsSound(plans: seq<VideoPlan>, fraction: real, target: real)
    requires DistinctIds(plans)
    ensures Sound(plans, ToVal(plans, fraction, target))
  {
    FilledIsSound(plans, target);
    LastIsSound(plans);
  }

  lemma NoneMoved(plans: seq<VideoPlan>, out: map<nat, Split>)
    requires DistinctIds(plans) && Assigned(plans, out, [])
    ensures forall v :: v in plans && v.pinned == Auto ==> In(out, v, Train)
  {
    forall v | v in plans && v.pinned == Auto ensures In(out, v, Train) {
      InValIff(plans, out, [], v);
    }
  }

  lemma GoalIs(plans: seq<VideoPlan>, fraction: real)
    ensures Goal(plans, fraction) == ShareOf(fraction, Total(plans))
  {
    SumWhereSame(NotHeldOut(), Counting(), plans);
  }

  // Each image adds the fraction to a share.
  lemma ShareAdds(fraction: real, total: nat)
    ensures ShareOf(fraction, 0) == 0.0
    ensures ShareOf(fraction, total + 1) == ShareOf(fraction, total) + fraction
  {
    assert fraction * (total + 1) as real == fraction * total as real + fraction;
  }

  // The assignment keeps pinned videos where they are and takes unpinned ones
  // to val in turn while they fit, or the smallest if none would.
  lemma AssignedFollows(plans: seq<VideoPlan>, fraction: real, out: map<nat, Split>)
    requires DistinctIds(plans) && Assigned(plans, out, ToVal(plans, fraction, ShareOf(fraction, Total(plans))))
    ensures Follows(plans, fraction, out)
  {
    var target := ShareOf(fraction, Total(plans));
    GoalIs(plans, fraction);
    ChosenIsSound(plans, fraction, target);
    AssignedKeeps(plans, out, ToVal(plans, fraction, target));
    FallsBackIff(plans, target);
    if fraction <= 0.0 {
      NoneMoved(plans, out);
    } else if FallsBack(plans, target) {
      FallbackTakesSmallest(plans, out);
    } else {
      FillIsInTurn(plans, out, target);
    }
  }

  // ---- No other assignment

  ghost predicate SameFor(out: map<nat, Split>, other: map<nat, Split>, v: VideoPlan) {
    v.id in out && v.id in other && out[v.id] == other[v.id]
  }

  // Whether a video fits depends only on those whose turn came before.
  lemma SameInTurn(plans: seq<VideoPlan>, out: map<nat, Split>, other: map<nat, Split>, goal: real, k: nat)
    requires DistinctIds(plans) && k < |Sorted(plans)| && Keeps(plans, out) && Keeps(plans, other)
    requires Fills(plans, out, goal) && Fills(plans, other, goal)
    requires forall v :: v in Sorted(plans)[..k] ==> SameFor(out, other, v)
    ensures SameFor(out, other, Sorted(plans)[k])
  {
    var v := Sorted(plans)[k];
    assert v in Sorted(plans) && v in Filter(Unpinned(), plans);
    TurnsAre(plans, k);
    forall w | w in plans ensures InValBefore(out, v)(w) == InValBefore(other, v)(w) {
      if w.pinned == Auto && GoesFirst(w, v) {
        assert SameFor(out, other, w);
      }
    }
    ImagesWhereIs(InValBefore(out, v), plans);
    SumWhereSame(InValBefore(out, v), InValBefore(other, v), plans);
  }

  lemma {:induction false} SameUpTo(plans: seq<VideoPlan>, out: map<nat, Split>, other: map<nat, Split>, goal: real,
                                    sorted: seq<VideoPlan>, k: nat)
    requires DistinctIds(plans) && Keeps(plans, out) && Keeps(plans, other)
    requires sorted == Sorted(plans) && k <= |sorted| && Fills(plans, out, goal) && Fills(plans, other, goal)
    ensures forall v :: v in sorted[..k] ==> SameFor(out, other, v)
  {
    if k > 0 {
      SameUpTo(plans, out, other, goal, sorted, k - 1);
      SameInTurn(plans, out, other, goal, k - 1);
      UpTo(sorted, k - 1);
    }
  }

  lemma UpTo<T>(s: seq<T>, k: nat)
    requires k < |s|
    ensures forall x :: x in s[..k+1] ==> x in s[..k] || x == s[k]
  {
    assert s[..k+1] == s[..k] + [s[k]];
  }

  lemma SameForAuto(plans: seq<VideoPlan>, fraction: real, out: map<nat, Split>, other: map<nat, Split>, v: VideoPlan)
    requires DistinctIds(plans) && Follows(plans, fraction, out) && Follows(plans, fraction, other)
    requires v in plans && v.pinned == Auto
    ensures SameFor(out, other, v)
  {
    if fraction > 0.0 && !LeavesValEmpty(plans, Goal(plans, fraction)) {
      SameUpTo(plans, out, other, Goal(plans, fraction), Sorted(plans), |Sorted(plans)|);
      assert v in Filter(Unpinned(), plans) && v in Sorted(plans);
      assert Sorted(plans)[..|Sorted(plans)|] == Sorted(plans);
    }
  }

  // There is one assignment that follows the rules.
  lemma FollowsOneWay(plans: seq<VideoPlan>, fraction: real, out: map<nat, Split>, other: map<nat, Split>)
    requires DistinctIds(plans) && Follows(plans, fraction, out) && Follows(plans, fraction, other)
    ensures out == other
  {
    forall v | v in plans ensures SameFor(out, other, v) {
      if v.pinned == Auto {
        SameForAuto(plans, fraction, out, other, v);
      }
    }
    forall id | id in out || id in other ensures id in out && id in other && out[id] == other[id] {
      var v :| v in plans && v.id == id;
      assert SameFor(out, other, v);
    }
  }
}
