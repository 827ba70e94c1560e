// What the checks on frames and boxes decide, said of the boxes and label
// types alone.
module FrameRules {
  import opened Sequences
  import opened Remainders
  import opened Taxonomy
  import opened FrameSelection
  import opened FrameChecks

  // ---- Types and classes

  // The k-th label type is the last with its id.
  ghost predicate TypeAt(types: seq<LabelType>, id: nat, k: nat) {
    k < |types| && types[k].id == id && forall j :: k < j < |types| ==> types[j].id != id
  }

  lemma {:induction false} FindTypeIs(types: seq<LabelType>, id: nat)
    ensures FindType(types, id).None? <==> forall t :: t in types ==> t.id != id
    ensures forall k: nat :: TypeAt(types, id, k) ==> FindType(types, id) == Some(types[k])
  {
    if types != [] {
      var n := |types| - 1;
      assert types == types[..n] + [types[n]];
      assert types[n] in types;
      FindTypeIs(types[..n], id);
      forall k: nat | TypeAt(types, id, k) ensures FindType(types, id) == Some(types[k]) {
        if types[n].id != id {
          assert TypeAt(types[..n], id, k);
        }
      }
    }
  }

  // A class name stands for the last place it is listed at.
  lemma {:induction false} ClassIdIsLast(classes: seq<string>, k: nat)
    requires k < |classes| && forall j :: k < j < |classes| ==> classes[j] != classes[k]
    ensures ClassId(classes, classes[k]) == k
  {
    var n := |classes| - 1;
    if k < n {
      assert classes[..n][k] == classes[k];
      ClassIdIsLast(classes[..n], k);
    }
  }

  lemma AllClassesSnoc(types: seq<LabelType>, t: LabelType)
    ensures AllClasses(types + [t]) == AllClasses(types) + Classes(t.name, t.attributes)
  {
    assert (types + [t])[..|types|] == types;
  }

  // The types' classes are listed type by type.
  lemma {:induction false} AllClassesAppend(types: seq<LabelType>, more: seq<LabelType>)
    ensures AllClasses(types + more) == AllClasses(types) + AllClasses(more)
  {
    if more == [] {
      assert types + more == types;
    } else {
      var n := |more| - 1;
      assert more == more[..n] + [more[n]] && types + more == types + more[..n] + [more[n]];
      AllClassesAppend(types, more[..n]);
      AllClassesSnoc(types + more[..n], more[n]);
      AllClassesSnoc(more[..n], more[n]);
    }
  }

  lemma ClassesOfOne(t: LabelType)
    ensures AllClasses([t]) == Classes(t.name, t.attributes)
  {
    AllClassesSnoc([], t);
    assert [] + [t] == [t];
  }

  // ---- One frame

  predicate Settled(b: Box) {
    !b.proposed && !b.unconfirmed
  }

  // The box's type is there, and has each of its values, a missing one being
  // empty, among the options.
  ghost predicate Described(types: seq<LabelType>, b: Box) {
    exists k :: DescribedBy(types, b, k)
  }

  ghost predicate DescribedBy(types: seq<LabelType>, b: Box, k: nat) {
    && TypeAt(types, b.typeId, k)
    && forall a :: a in types[k].attributes ==> (if a.name in b.values then b.values[a.name] else "") in a.options
  }

  lemma CompleteTells(defs: seq<Attribute>, values: Values)
    ensures Complete(defs, values) <==>
            forall a :: a in defs ==> (if a.name in values then values[a.name] else "") in a.options
  {
    if Complete(defs, values) {
      forall a | a in defs ensures ValueOf(values, a.name) in a.options {
        var k :| 0 <= k < |defs| && defs[k] == a;
        assert ValueOf(values, defs[k].name) in defs[k].options;
      }
    }
    if forall a :: a in defs ==> (if a.name in values then values[a.name] else "") in a.options {
      forall k | 0 <= k < |defs| ensures ValueOf(values, defs[k].name) in defs[k].options {
        assert defs[k] in defs;
      }
    }
  }

  lemma {:induction false} LastWithId(types: seq<LabelType>, id: nat) returns (k: nat)
    requires exists t :: t in types && t.id == id
    ensures TypeAt(types, id, k)
  {
    var n := |types| - 1;
    assert types == types[..n] + [types[n]];
    if types[n].id == id {
      return n;
    } else {
      k := LastWithId(types[..n], id);
    }
  }

  lemma BoxVerdictTells(types: seq<LabelType>, b: Box)
    ensures BoxVerdict(types, b) == Unverified <==> !Settled(b)
    ensures BoxVerdict(types, b) == Incomplete <==> Settled(b) && !Described(types, b)
    ensures BoxVerdict(types, b) != Unlabeled
  {
    FindTypeIs(types, b.typeId);
    if k: nat :| TypeAt(types, b.typeId, k) {
      CompleteTells(types[k].attributes, b.values);
      if Described(types, b) {
        var j :| DescribedBy(types, b, j);
        assert j == k;
      }
      assert DescribedBy(types, b, k) <==> Complete(types[k].attributes, b.values);
    } else if FindType(types, b.typeId).Some? {
      var k := LastWithId(types, b.typeId);
    }
  }

  ghost predicate Ready(types: seq<LabelType>, b: Box) {
    Settled(b) && Described(types, b)
  }

  // The first of a frame's boxes that is not ready.
  ghost predicate FirstUnready(types: seq<LabelType>, boxes: seq<Box>, k: nat) {
    k < |boxes| && !Ready(types, boxes[k]) && forall j :: 0 <= j < k ==> Ready(types, boxes[j])
  }

  lemma {:induction false} ReadyAreEligible(types: seq<LabelType>, boxes: seq<Box>, n: nat)
    requires n <= |boxes| && forall k :: 0 <= k < n ==> Ready(types, boxes[k])
    ensures BoxesVerdict(types, boxes[..n]).Eligible?
  {
    if n > 0 {
      ReadyAreEligible(types, boxes, n - 1);
      BoxVerdictTells(types, boxes[n-1]);
      VerdictStep(types, boxes, n - 1);
    }
  }

  lemma UnreadyStops(types: seq<LabelType>, boxes: seq<Box>, k: nat)
    requires FirstUnready(types, boxes, k)
    ensures BoxesVerdict(types, boxes) == if Settled(boxes[k]) then Incomplete else Unverified
  {
    ReadyAreEligible(types, boxes, k);
    BoxVerdictTells(types, boxes[k]);
    VerdictStep(types, boxes, k);
    VerdictStays(types, boxes, k + 1);
  }

  lemma {:induction false} UnreadyIsFirst(types: seq<LabelType>, boxes: seq<Box>, n: nat) returns (k: nat)
    requires n <= |boxes| && exists j :: 0 <= j < n && !Ready(types, boxes[j])
    ensures FirstUnready(types, boxes, k)
  {
    if exists j :: 0 <= j < n - 1 && !Ready(types, boxes[j]) {
      k := UnreadyIsFirst(types, boxes, n - 1);
    } else {
      return n - 1;
    }
  }

  lemma BoxesVerdictTells(types: seq<LabelType>, boxes: seq<Box>)
    ensures BoxesVerdict(types, boxes).Eligible? <==> forall k :: 0 <= k < |boxes| ==> Ready(types, boxes[k])
    ensures forall k: nat :: FirstUnready(types, boxes, k) ==>
              BoxesVerdict(types, boxes) == if Settled(boxes[k]) then Incomplete else Unverified
    ensures BoxesVerdict(types, boxes) != Unlabeled
  {
    forall k: nat | FirstUnready(types, boxes, k)
      ensures BoxesVerdict(types, boxes) == if Settled(boxes[k]) then Incomplete else Unverified
    {
      UnreadyStops(types, boxes, k);
    }
    if forall k :: 0 <= k < |boxes| ==> Ready(types, boxes[k]) {
      ReadyAreEligible(types, boxes, |boxes|);
      assert boxes[..|boxes|] == boxes;
    } else {
      var k := UnreadyIsFirst(types, boxes, |boxes|);
    }
  }

  // A frame goes by whether it is labeled, and then by the first of its boxes
  // that is not ready.
  lemma VerdictTells(types: seq<LabelType>, boxes: seq<Box>, f: Frame)
    ensures var own := Filter(OnFrame(f.id), boxes);
            && (Look(types, boxes)(f) == Unlabeled <==> !f.labeled)
            && (Look(types, boxes)(f).Eligible? <==> f.labeled && forall b :: b in own ==> Ready(types, b))
            && (f.labeled ==> forall k: nat :: FirstUnready(types, own, k) ==>
                  Look(types, boxes)(f) == if Settled(own[k]) then Incomplete else Unverified)
    ensures forall b :: b in Filter(OnFrame(f.id), boxes) <==> b in boxes && b.frame == f.id
  {
    var own := Filter(OnFrame(f.id), boxes);
    BoxesVerdictTells(types, own);
    if forall k :: 0 <= k < |own| ==> Ready(types, own[k]) {
      forall b | b in own ensures Ready(types, b) {
        var k :| 0 <= k < |own| && own[k] == b;
      }
    }
  }

  // ---- A video's frames

  ghost function Differs(a: seq<bool>, b: seq<bool>, n: nat): set<nat>
    requires |a| == |b|
  {
    set k: nat | n <= k < |a| && a[k] != b[k]
  }

  lemma DiffersAt(a: seq<bool>, b: seq<bool>, n: nat)
    requires |a| == |b| && n < |a|
    ensures |Differs(a, b, n)| == |Differs(a, b, n + 1)| + if a[n] != b[n] then 1 else 0
  {
    var rest := Differs(a, b, n + 1);
    assert Differs(a, b, n) == if a[n] != b[n] then rest + {n} else rest;
  }

  lemma {:induction false} DistanceFrom(a: seq<bool>, b: seq<bool>, n: nat)
    requires |a| == |b| && n <= |a|
    ensures Distance(a[n..], b[n..]) == |Differs(a, b, n)|
    decreases |a| - n
  {
    if n == |a| {
      assert Differs(a, b, n) == {};
    } else {
      assert a[n..][1..] == a[n+1..] && b[n..][1..] == b[n+1..];
      DistanceFrom(a, b, n + 1);
      DiffersAt(a, b, n);
    }
  }

  // How many bits differ.
  lemma DistanceCounts(a: seq<bool>, b: seq<bool>)
    requires |a| == |b|
    ensures Distance(a, b) == |set k: nat | k < |a| && a[k] != b[k]|
  {
    DistanceFrom(a, b, 0);
    assert a[0..] == a && b[0..] == b;
    assert Differs(a, b, 0) == set k: nat | k < |a| && a[k] != b[k];
  }

  // Of the eligible frames every stride-th is taken, and every one for a
  // stride of one or less.
  lemma OnStrideTells(opts: Options, rank: nat)
    ensures opts.stride <= 1 ==> OnStride(opts, rank)
    ensures opts.stride > 1 ==> (OnStride(opts, rank) <==> IsMultiple(rank, opts.stride))
  {
    if opts.stride > 1 {
      MultipleIff(rank, opts.stride);
    }
  }

  lemma MultipleIff(a: nat, n: int)
    requires n > 1
    ensures a % n == 0 <==> IsMultiple(a, n)
  {
    if a % n == 0 {
      var q: nat := a / n;
      assert a == q * n;
    }
    if q: nat :| a == q * n {
      ModOf(a, n, q, 0);
    }
  }

  // Each count of frames left out is of those with that fate.
  lemma SkipsTell(fates: seq<Fate>)
    ensures var s := SkipsOf(fates);
            && s.unlabeled == |set k: nat | k < |fates| && fates[k] == WasUnlabeled|
            && s.unverified == |set k: nat | k < |fates| && fates[k] == WasUnverified|
            && s.incomplete == |set k: nat | k < |fates| && fates[k] == WasIncomplete|
            && s.offStride == |set k: nat | k < |fates| && fates[k] == OffStride|
            && s.duplicate == |set k: nat | k < |fates| && fates[k] == Duplicate|
  {
    CountTells(fates, WasUnlabeled);
    CountTells(fates, WasUnverified);
    CountTells(fates, WasIncomplete);
    CountTells(fates, OffStride);
    CountTells(fates, Duplicate);
  }

  lemma CountTells(fates: seq<Fate>, fate: Fate)
    ensures Count(fates, fate) == |set k: nat | k < |fates| && fates[k] == fate|
  {
    FilterCounts(IsFate(fate), fates);
    assert Places(IsFate(fate), fates) == set k: nat | k < |fates| && fates[k] == fate;
  }

  ghost predicate IsMultiple(a: nat, n: int) {
    exists q: nat :: a == q * n
  }

  // What becomes of a frame: one that may be taken is off the stride by how
  // many of those came before it, or repeats the one taken last before it, or
  // is taken.
  lemma FateTells(opts: Options, look: Frame -> Verdict, fs: seq<Frame>, k: nat)
    requires k < |fs|
    ensures var fates := Fates(opts, look, fs);
            var rank := |set j: nat | j < k && look(fs[j]).Eligible?|;
            fates[k] ==
            match look(fs[k])
            case Unlabeled => WasUnlabeled
            case Unverified => WasUnverified
            case Incomplete => WasIncomplete
            case Eligible(_) =>
              if opts.stride > 1 && !IsMultiple(rank, opts.stride) then OffStride
              else if opts.dedup && Repeats(opts, fs, fates, k) then Duplicate
              else Exported
  {
    RankCounts(look, fs, k);
    OnStrideTells(opts, Rank(look, fs[..k]));
    if look(fs[k]).Eligible? {
      SelectionExplained(opts, look, fs, k);
    } else {
      FateAt(opts, look, fs, k);
    }
  }

  lemma RankCounts(look: Frame -> Verdict, fs: seq<Frame>, k: nat)
    requires k <= |fs|
    ensures Rank(look, fs[..k]) == |set j: nat | j < k && look(fs[j]).Eligible?|
  {
    CountBelow(IsEligible(look), fs, k);
    assert PlacesBelow(IsEligible(look), fs, k) == set j: nat | j < k && look(fs[j]).Eligible?;
  }

  ghost function TakenBefore(fates: seq<Fate>, k: nat): set<nat>
    requires k <= |fates|
  {
    set j: nat | j < k && fates[j] == Exported
  }

  lemma TakenBeforeSnoc(fates: seq<Fate>, k: nat)
    requires k < |fates|
    ensures |TakenBefore(fates, k + 1)| == |TakenBefore(fates, k)| + if fates[k] == Exported then 1 else 0
  {
    var before := TakenBefore(fates, k);
    assert TakenBefore(fates, k + 1) == if fates[k] == Exported then before + {k} else before;
  }

  lemma {:induction false} ImagesUpTo(look: Frame -> Verdict, fs: seq<Frame>, fates: seq<Fate>, n: nat)
    requires n <= |fs| == |fates|
    requires forall k :: 0 <= k < n && fates[k] == Exported ==> look(fs[k]).Eligible?
    ensures |Images(look, fs[..n], fates[..n])| == |TakenBefore(fates, n)|
  {
    if n == 0 {
      assert TakenBefore(fates, 0) == {};
    } else {
      assert fs[..n][..n-1] == fs[..n-1] && fates[..n][..n-1] == fates[..n-1];
      ImagesUpTo(look, fs, fates, n - 1);
      TakenBeforeSnoc(fates, n - 1);
    }
  }

  lemma {:induction false} ImageAt(look: Frame -> Verdict, fs: seq<Frame>, fates: seq<Fate>, k: nat, n: nat)
    requires k < n <= |fs| == |fates| && fates[k] == Exported
    requires forall j :: 0 <= j < n && fates[j] == Exported ==> look(fs[j]).Eligible?
    ensures var images := Images(look, fs[..n], fates[..n]);
            var i := |TakenBefore(fates, k)|;
            i < |images| && images[i] == Image(fs[k], look(fs[k]).boxes)
    decreases n
  {
    assert fs[..n][..n-1] == fs[..n-1] && fates[..n][..n-1] == fates[..n-1];
    if k < n - 1 {
      ImageAt(look, fs, fates, k, n - 1);
    } else {
      ImagesUpTo(look, fs, fates, n - 1);
    }
  }

  lemma TakenIsEligible(opts: Options, look: Frame -> Verdict, fs: seq<Frame>)
    ensures var fates := Fates(opts, look, fs);
            forall k :: 0 <= k < |fs| && fates[k] == Exported ==> look(fs[k]).Eligible?
  {
    var fates := Fates(opts, look, fs);
    forall k | 0 <= k < |fs| && fates[k] == Exported ensures look(fs[k]).Eligible? {
      FateAt(opts, look, fs, k);
    }
  }

  // The images are the frames that are taken, in order, each with the boxes
  // its check gave.
  lemma SelectedTells(opts: Options, look: Frame -> Verdict, fs: seq<Frame>)
    ensures var fates, images := Fates(opts, look, fs), Selected(opts, look, fs);
            && |images| == |set k: nat | k < |fs| && fates[k] == Exported|
            && forall k: nat :: k < |fs| && fates[k] == Exported ==>
                 && look(fs[k]).Eligible? && |TakenBefore(fates, k)| < |images|
                 && images[|TakenBefore(fates, k)|] == Image(fs[k], look(fs[k]).boxes)
  {
    var fates, n := Fates(opts, look, fs), |fs|;
    assert fs[..n] == fs && fates[..n] == fates;
    TakenIsEligible(opts, look, fs);
    ImagesUpTo(look, fs, fates, n);
    assert TakenBefore(fates, n) == set k: nat | k < n && fates[k] == Exported;
    forall k: nat | k < n && fates[k] == Exported
      ensures var i := |TakenBefore(fates, k)|;
              i < |Selected(opts, look, fs)| && Selected(opts, look, fs)[i] == Image(fs[k], look(fs[k]).boxes)
    {
      ImageAt(look, fs, fates, k, n);
    }
  }
}
