// Assigning the splits as it runs: each video classified, the unpinned ones
// moved to val while they fit.
module SplitAssignment {
  import opened Sequences
  import opened StableSorting
  import opened SplitChoice
  import opened SplitRules

  ghost predicate Counted(plans: seq<VideoPlan>, auto: seq<VideoPlan>, total: nat, val: nat, withImages: nat) {
    && auto == Filter(Unpinned(), plans) && total == Total(plans) && val == PinnedVal(plans)
    && withImages == |Filter(Sized(), plans)|
  }

  // One video: where it goes for now and what it counts towards.
  method ClassifyOne(vp: VideoPlan, out0: map<nat, Split>, auto0: seq<VideoPlan>, total0: nat, val0: nat,
                     withImages0: nat)
    returns (out: map<nat, Split>, auto: seq<VideoPlan>, total: nat, val: nat, withImages: nat)
    ensures out == out0[vp.id := Pinned(vp)]
    ensures auto == if vp.pinned == Auto then auto0 + [vp] else auto0
    ensures total == if HeldOut(vp.pinned) then total0 else total0 + Size(vp)
    ensures val == if vp.pinned == Val then val0 + Size(vp) else val0
    ensures withImages == if vp.images != [] && !HeldOut(vp.pinned) then withImages0 + 1 else withImages0
  {
    out, auto, total, val, withImages := out0, auto0, total0, val0, withImages0;
    if HeldOut(vp.pinned) {
      out := out[vp.id := Test];
      return;
    }
    var n := |vp.images|;
    total := total + n;
    if n > 0 {
      withImages := withImages + 1;
    }
    match vp.pinned
    case Val =>
      out := out[vp.id := Val];
      val := val + n;
    case Train =>
      out := out[vp.id := Train];
    case _ =>
      out := out[vp.id := Train];
      auto := auto + [vp];
  }

  method Classify(plans: seq<VideoPlan>)
    returns (out: map<nat, Split>, auto: seq<VideoPlan>, total: nat, val: nat, withImages: nat)
    requires DistinctIds(plans)
    ensures Assigned(plans, out, [])
    ensures Counted(plans, auto, total, val, withImages)
  {
    out, auto, total, val, withImages := map[], [], 0, 0, 0;
    for k := 0 to |plans|
      invariant Assigned(plans[..k], out, []) && Counted(plans[..k], auto, total, val, withImages)
    {
      ClassifyStep(plans, k, out);
      CountsStep(plans, k, auto, total, val, withImages);
      out, auto, total, val, withImages := ClassifyOne(plans[k], out, auto, total, val, withImages);
    }
    assert plans[..|plans|] == plans;
  }

  lemma ClassifyStep(plans: seq<VideoPlan>, k: nat, out: map<nat, Split>)
    requires k < |plans| && DistinctIds(plans) && Assigned(plans[..k], out, [])
    ensures Assigned(plans[..k+1], out[plans[k].id := Pinned(plans[k])], [])
  {
    assert plans[..k+1] == plans[..k] + [plans[k]];
    IdsSnoc(plans[..k], plans[k]);
    forall j | 0 <= j < k ensures plans[j].id != plans[k].id {
      assert Ids(plans)[j] != Ids(plans)[k];
    }
  }

  lemma CountsStep(plans: seq<VideoPlan>, k: nat, auto: seq<VideoPlan>, total: nat, val: nat, withImages: nat)
    requires k < |plans| && Counted(plans[..k], auto, total, val, withImages)
    ensures var v := plans[k];
            Counted(plans[..k+1],
                    if v.pinned == Auto then auto + [v] else auto,
                    if HeldOut(v.pinned) then total else total + Size(v),
                    if v.pinned == Val then val + Size(v) else val,
                    if v.images != [] && !HeldOut(v.pinned) then withImages + 1 else withImages)
  {
    FilterSnoc(Unpinned(), plans, k);
    FilterSnoc(Sized(), plans, k);
    SumFilterSnoc(NotHeldOut(), plans, k);
    SumFilterSnoc(PinnedTo(Val), plans, k);
  }

  lemma SumFilterSnoc(keep: VideoPlan -> bool, plans: seq<VideoPlan>, k: nat)
    requires k < |plans|
    ensures Sum(Filter(keep, plans[..k+1])) == Sum(Filter(keep, plans[..k]))
            + (if keep(plans[k]) then Size(plans[k]) else 0)
  {
    FilterSnoc(keep, plans, k);
    if keep(plans[k]) {
      SumSnoc(Filter(keep, plans[..k]), plans[k]);
    } else {
      assert Filter(keep, plans[..k+1]) == Filter(keep, plans[..k]);
    }
  }

  // Moving one more unpinned video to val.
  lemma MoveStep(plans: seq<VideoPlan>, out: map<nat, Split>, chosen: seq<VideoPlan>, v: VideoPlan)
    requires DistinctIds(plans) && Assigned(plans, out, chosen) && v in plans && v.pinned == Auto
    ensures Assigned(plans, out[v.id := Val], chosen + [v])
  {
    IdsSnoc(chosen, v);
    var i :| 0 <= i < |plans| && plans[i] == v;
    assert Ids(plans)[i] == v.id;
    forall k | 0 <= k < |plans| && k != i ensures plans[k].id != v.id {
      assert Ids(plans)[if k < i then k else i] != Ids(plans)[if k < i then i else k];
    }
  }

  // What the fill loop has chosen so far leads to the whole choice.
  ghost predicate Filling(sorted: seq<VideoPlan>, i: nat, val: nat, target: real, chosen: seq<VideoPlan>,
                          goal: seq<VideoPlan>) {
    i <= |sorted| && chosen + Fit(sorted[i..], val, target) == goal
  }

  lemma FillStep(sorted: seq<VideoPlan>, i: nat, val: nat, target: real, chosen: seq<VideoPlan>, goal: seq<VideoPlan>)
    requires i < |sorted| && Filling(sorted, i, val, target, chosen, goal)
    ensures var v := sorted[i];
            if Size(v) > 0 && (val + Size(v)) as real <= target
            then Filling(sorted, i + 1, val + Size(v), target, chosen + [v], goal)
            else Filling(sorted, i + 1, val, target, chosen, goal)
  {
    assert sorted[i..][0] == sorted[i] && sorted[i..][1..] == sorted[i+1..];
    var v := sorted[i];
    if Size(v) > 0 && (val + Size(v)) as real <= target {
      assert chosen + ([v] + Fit(sorted[i+1..], val + Size(v), target)) ==
             chosen + [v] + Fit(sorted[i+1..], val + Size(v), target);
    }
  }

  method Fill(plans: seq<VideoPlan>, sorted: seq<VideoPlan>, out0: map<nat, Split>, val0: nat, target: real)
    returns (out: map<nat, Split>, val: nat)
    requires DistinctIds(plans) && Assigned(plans, out0, [])
    requires forall v :: v in sorted ==> v in plans && v.pinned == Auto
    ensures Assigned(plans, out, Fit(sorted, val0, target)) && val == val0 + Sum(Fit(sorted, val0, target))
  {
    out, val := out0, val0;
    ghost var chosen: seq<VideoPlan>, goal := [], Fit(sorted, val0, target);
    assert sorted[0..] == sorted;
    for i := 0 to |sorted|
      invariant FillState(plans, sorted, i, out, val0, val, target, chosen, goal)
    {
      var vp := sorted[i];
      assert vp in sorted;
      FillTurn(plans, sorted, i, out, val0, val, target, chosen, goal);
      var n := |vp.images|;
      if n > 0 && (val + n) as real <= target {
        out := out[vp.id := Val];
        val := val + n;
        chosen := chosen + [vp];
      }
    }
    assert sorted[|sorted|..] == [] && chosen == goal;
  }

  ghost predicate FillState(plans: seq<VideoPlan>, sorted: seq<VideoPlan>, i: nat, out: map<nat, Split>, val0: nat,
                            val: nat, target: real, chosen: seq<VideoPlan>, goal: seq<VideoPlan>) {
    Filling(sorted, i, val, target, chosen, goal) && Assigned(plans, out, chosen) && val == val0 + Sum(chosen)
  }

  // What one turn of the fill loop leads to.
  lemma FillTurn(plans: seq<VideoPlan>, sorted: seq<VideoPlan>, i: nat, out: map<nat, Split>, val0: nat,
                 val: nat, target: real, chosen: seq<VideoPlan>, goal: seq<VideoPlan>)
    requires DistinctIds(plans) && FillState(plans, sorted, i, out, val0, val, target, chosen, goal)
    requires i < |sorted| && sorted[i] in plans && sorted[i].pinned == Auto
    ensures var v := sorted[i];
            if Size(v) > 0 && (val + Size(v)) as real <= target
            then FillState(plans, sorted, i + 1, out[v.id := Val], val0, val + Size(v), target, chosen + [v], goal)
            else FillState(plans, sorted, i + 1, out, val0, val, target, chosen, goal)
  {
    FillStep(sorted, i, val, target, chosen, goal);
    MoveStep(plans, out, chosen, sorted[i]);
    SumSnoc(chosen, sorted[i]);
  }

  method FallBack(plans: seq<VideoPlan>, sorted: seq<VideoPlan>, out0: map<nat, Split>) returns (out: map<nat, Split>)
    requires DistinctIds(plans) && Assigned(plans, out0, [])
    requires forall v :: v in sorted ==> v in plans && v.pinned == Auto
    ensures Assigned(plans, out, LastSized(sorted))
  {
    var i := |sorted|;
    assert sorted[..i] == sorted;
    while i > 0
      invariant i <= |sorted| && LastSized(sorted[..i]) == LastSized(sorted)
    {
      i := i - 1;
      assert sorted[..i+1][..i] == sorted[..i];
      if sorted[i].images != [] {
        assert sorted[i] in sorted;
        MoveStep(plans, out0, [], sorted[i]);
        assert [] + [sorted[i]] == [sorted[i]];
        return out0[sorted[i].id := Val];
      }
    }
    return out0;
  }

  method MoveToVal(plans: seq<VideoPlan>, auto: seq<VideoPlan>, out0: map<nat, Split>, val0: nat, withImages: nat,
                   fraction: real, target: real)
    returns (out: map<nat, Split>)
    requires DistinctIds(plans) && Assigned(plans, out0, [])
    requires auto == Filter(Unpinned(), plans) && val0 == PinnedVal(plans) && withImages == |Filter(Sized(), plans)|
    ensures Assigned(plans, out, ToVal(plans, fraction, target))
  {
    ChosenIs(plans, fraction, target);
    if fraction <= 0.0 {
      return out0;
    }
    var sorted := StableSort(Larger(), auto);
    var val;
    out, val := Fill(plans, sorted, out0, val0, target);
    if val == 0 && withImages >= 2 {
      NothingFilled(sorted, val0, target);
      out := FallBack(plans, sorted, out);
    }
  }

  lemma ChosenIs(plans: seq<VideoPlan>, fraction: real, target: real)
    ensures ToVal(plans, fraction, target) ==
            if fraction <= 0.0 then []
            else if PinnedVal(plans) + Sum(Filled(plans, target)) == 0 && |Filter(Sized(), plans)| >= 2
            then LastSized(Sorted(plans))
            else Fit(StableSort(Larger(), Filter(Unpinned(), plans)), PinnedVal(plans), target)
  {
  }

  method AssignSplits(plans: seq<VideoPlan>, fraction: real) returns (out: map<nat, Split>)
    requires DistinctIds(plans)
    ensures Assigned(plans, out, ToVal(plans, fraction, ShareOf(fraction, Total(plans))))
    ensures Follows(plans, fraction, out)
  {
    var auto, total, val, withImages;
    out, auto, total, val, withImages := Classify(plans);
    out := MoveToVal(plans, auto, out, val, withImages, fraction, ShareOf(fraction, total));
    AssignedFollows(plans, fraction, out);
  }
}
