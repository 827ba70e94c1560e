// From a trial's stored rows to its per-type summary.
module TrialSummaries {
  import opened Sequences
  import opened StableSorting
  import opened Geometry
  import opened GoldScore
  import opened ModelTrials

  // A verified box of a done frame. None stands for stored attributes that do
  // not decode.
  datatype RefRow = RefRow(frame: nat, labelType: nat, attributes: Option<Attributes>, rect: Rect)

  // A trial's box, with the index of its class among the model's classes.
  datatype AnsRow = AnsRow(frame: nat, cls: int, rect: Rect)

  datatype ClassTarget = ClassTarget(labelType: nat, attributes: Attributes)

  type Grouped = map<nat, seq<Box>>

  function On(boxes: Grouped, frame: nat): seq<Box> {
    if frame in boxes then boxes[frame] else []
  }

  // 0 keeps every type.
  predicate Wanted(labelType: nat, of: nat) {
    labelType == 0 || of == labelType
  }

  function RefOn(labelType: nat, frame: nat): RefRow -> bool {
    (r: RefRow) => r.frame == frame && Wanted(labelType, r.labelType)
  }

  function RefBox(): RefRow -> Box {
    (r: RefRow) => Box(r.labelType, if r.attributes.Some? then r.attributes.value else map[], r.rect)
  }

  function RefBoxes(rows: seq<RefRow>, labelType: nat, frame: nat): seq<Box> {
    Map(RefBox(), Filter(RefOn(labelType, frame), rows))
  }

  predicate KnownClass(classes: seq<ClassTarget>, cls: int) {
    0 <= cls < |classes|
  }

  function AnsOn(classes: seq<ClassTarget>, labelType: nat, frame: nat): AnsRow -> bool {
    (r: AnsRow) => r.frame == frame && KnownClass(classes, r.cls) && Wanted(labelType, classes[r.cls].labelType)
  }

  function AnsBox(classes: seq<ClassTarget>): AnsRow -> Box {
    (r: AnsRow) =>
      if KnownClass(classes, r.cls) then Box(classes[r.cls].labelType, classes[r.cls].attributes, r.rect)
      else Box(0, map[], r.rect)
  }

  function AnsBoxes(rows: seq<AnsRow>, classes: seq<ClassTarget>, labelType: nat, frame: nat): seq<Box> {
    Map(AnsBox(classes), Filter(AnsOn(classes, labelType, frame), rows))
  }

  lemma MapFilterSnoc<T, R>(f: T -> R, keep: T -> bool, s: seq<T>, k: nat)
    requires k < |s|
    ensures Map(f, Filter(keep, s[..k+1])) == Map(f, Filter(keep, s[..k])) + (if keep(s[k]) then [f(s[k])] else [])
  {
    FilterSnoc(keep, s, k);
    MapAppend(f, Filter(keep, s[..k]), [s[k]]);
  }

  lemma GroupStep<T>(f: T -> Box, keep: nat -> (T -> bool), frameOf: T -> nat, wanted: T -> bool,
                     rows: seq<T>, i: nat, frame: nat, out: Grouped)
    requires i < |rows|
    requires keep(frame)(rows[i]) == (frameOf(rows[i]) == frame && wanted(rows[i]))
    requires On(out, frame) == Map(f, Filter(keep(frame), rows[..i]))
    ensures wanted(rows[i]) ==>
              var at := frameOf(rows[i]);
              On(out[at := On(out, at) + [f(rows[i])]], frame) == Map(f, Filter(keep(frame), rows[..i+1]))
    ensures !wanted(rows[i]) ==> On(out, frame) == Map(f, Filter(keep(frame), rows[..i+1]))
  {
    MapFilterSnoc(f, keep(frame), rows, i);
  }

  function WantedRef(labelType: nat): RefRow -> bool {
    (r: RefRow) => Wanted(labelType, r.labelType)
  }

  function WantedAns(classes: seq<ClassTarget>, labelType: nat): AnsRow -> bool {
    (r: AnsRow) => KnownClass(classes, r.cls) && Wanted(labelType, classes[r.cls].labelType)
  }

  ghost predicate GroupedRefs(out: Grouped, rows: seq<RefRow>, labelType: nat) {
    forall frame :: On(out, frame) == RefBoxes(rows, labelType, frame)
  }

  ghost predicate GroupedAnswers(out: Grouped, rows: seq<AnsRow>, classes: seq<ClassTarget>, labelType: nat) {
    forall frame :: On(out, frame) == AnsBoxes(rows, classes, labelType, frame)
  }

  // A box added to the others of its frame.
  function WithBox(out: Grouped, frame: nat, box: Box): Grouped {
    out[frame := On(out, frame) + [box]]
  }

  lemma GroupRefStep(out: Grouped, rows: seq<RefRow>, i: nat, labelType: nat)
    requires i < |rows| && GroupedRefs(out, rows[..i], labelType)
    ensures GroupedRefs(if WantedRef(labelType)(rows[i]) then WithBox(out, rows[i].frame, RefBox()(rows[i])) else out,
                        rows[..i+1], labelType)
  {
    var out' := if WantedRef(labelType)(rows[i]) then WithBox(out, rows[i].frame, RefBox()(rows[i])) else out;
    forall frame ensures On(out', frame) == RefBoxes(rows[..i+1], labelType, frame) {
      GroupStep(RefBox(), f => RefOn(labelType, f), (r: RefRow) => r.frame, WantedRef(labelType), rows, i, frame, out);
    }
  }

  lemma GroupAnsStep(out: Grouped, rows: seq<AnsRow>, i: nat, classes: seq<ClassTarget>, labelType: nat)
    requires i < |rows| && GroupedAnswers(out, rows[..i], classes, labelType)
    ensures var wanted := WantedAns(classes, labelType)(rows[i]);
            GroupedAnswers(if wanted then WithBox(out, rows[i].frame, AnsBox(classes)(rows[i])) else out,
                           rows[..i+1], classes, labelType)
  {
    var wanted := WantedAns(classes, labelType)(rows[i]);
    var out' := if wanted then WithBox(out, rows[i].frame, AnsBox(classes)(rows[i])) else out;
    forall frame ensures On(out', frame) == AnsBoxes(rows[..i+1], classes, labelType, frame) {
      GroupStep(AnsBox(classes), f => AnsOn(classes, labelType, f), (r: AnsRow) => r.frame,
                WantedAns(classes, labelType), rows, i, frame, out);
    }
  }

  method GroupReferences(rows: seq<RefRow>, labelType: nat) returns (refs: Option<Grouped>)
    ensures refs.None? <==> exists r :: r in rows && Wanted(labelType, r.labelType) && r.attributes.None?
    ensures refs.Some? ==> GroupedRefs(refs.value, rows, labelType)
  {
    var out: Grouped := map[];
    for i := 0 to |rows|
      invariant GroupedRefs(out, rows[..i], labelType)
      invariant forall k :: 0 <= k < i && Wanted(labelType, rows[k].labelType) ==> rows[k].attributes.Some?
    {
      var b := rows[i];
      GroupRefStep(out, rows, i, labelType);
      if !Wanted(labelType, b.labelType) {
        continue;
      }
      if b.attributes.None? {
        assert b in rows;
        return None;
      }
      out := out[b.frame := On(out, b.frame) + [Box(b.labelType, b.attributes.value, b.rect)]];
    }
    assert rows[..|rows|] == rows;
    return Some(out);
  }

  method GroupAnswers(rows: seq<AnsRow>, classes: seq<ClassTarget>, labelType: nat) returns (answers: Grouped)
    ensures GroupedAnswers(answers, rows, classes, labelType)
  {
    answers := map[];
    for i := 0 to |rows|
      invariant GroupedAnswers(answers, rows[..i], classes, labelType)
    {
      var b := rows[i];
      GroupAnsStep(answers, rows, i, classes, labelType);
      if b.cls >= |classes| || b.cls < 0 {
        continue;
      }
      var c := classes[b.cls];
      if labelType != 0 && c.labelType != labelType {
        continue;
      }
      answers := answers[b.frame := On(answers, b.frame) + [Box(c.labelType, c.attributes, b.rect)]];
    }
    assert rows[..|rows|] == rows;
  }

  method FrameBoxes(refRows: seq<RefRow>, ansRows: seq<AnsRow>, classes: seq<ClassTarget>, labelType: nat)
    returns (boxes: Option<(Grouped, Grouped)>)
    ensures boxes.None? <==> exists r :: r in refRows && Wanted(labelType, r.labelType) && r.attributes.None?
    ensures boxes.Some? ==>
              && GroupedRefs(boxes.value.0, refRows, labelType)
              && GroupedAnswers(boxes.value.1, ansRows, classes, labelType)
  {
    var refs := GroupReferences(refRows, labelType);
    if refs.None? {
      return None;
    }
    var answers := GroupAnswers(ansRows, classes, labelType);
    return Some((refs.value, answers));
  }

  // ---- What the boxes of a frame are

  // The box a stored row stands for.
  ghost predicate RefersTo(r: RefRow, b: Box) {
    && b.labelType == r.labelType && b.rect == r.rect
    && b.attributes == match r.attributes case Some(a) => a case None => map[]
  }

  // A frame's reference boxes are its rows of the type asked for, or of any
  // type when none is.
  lemma RefBoxesTell(rows: seq<RefRow>, labelType: nat, frame: nat, b: Box)
    ensures b in RefBoxes(rows, labelType, frame) <==>
            exists r :: r in rows && r.frame == frame && (labelType > 0 ==> r.labelType == labelType) && RefersTo(r, b)
    ensures |RefBoxes(rows, labelType, frame)| ==
            |set k: nat | k < |rows| && rows[k].frame == frame && (labelType > 0 ==> rows[k].labelType == labelType)|
  {
    var keep := RefOn(labelType, frame);
    var kept := Filter(keep, rows);
    MapHas(RefBox(), kept, b);
    FilterCounts(keep, rows);
    assert Places(keep, rows) ==
           set k: nat | k < |rows| && rows[k].frame == frame && (labelType > 0 ==> rows[k].labelType == labelType);
    assert forall r :: RefersTo(r, b) <==> RefBox()(r) == b;
  }

  lemma MapHas<T(!new), R>(f: T -> R, s: seq<T>, y: R)
    ensures y in Map(f, s) <==> exists x :: x in s && f(x) == y
  {
    if y in Map(f, s) {
      var k :| 0 <= k < |s| && Map(f, s)[k] == y;
      assert s[k] in s;
    }
    if x :| x in s && f(x) == y {
      var k :| 0 <= k < |s| && s[k] == x;
      assert Map(f, s)[k] == y;
    }
  }

  // An answer row names one of the model's classes, of the type asked for.
  predicate Answers(classes: seq<ClassTarget>, labelType: nat, frame: nat, r: AnsRow) {
    r.frame == frame && 0 <= r.cls < |classes| && (labelType > 0 ==> classes[r.cls].labelType == labelType)
  }

  // A frame's answer boxes are those rows of it, with the type and attributes
  // of their class.
  lemma AnsBoxesTell(rows: seq<AnsRow>, classes: seq<ClassTarget>, labelType: nat, frame: nat, b: Box)
    ensures b in AnsBoxes(rows, classes, labelType, frame) <==>
            exists r :: r in rows && Answers(classes, labelType, frame, r)
                        && b == Box(classes[r.cls].labelType, classes[r.cls].attributes, r.rect)
    ensures |AnsBoxes(rows, classes, labelType, frame)| ==
            |set k: nat | k < |rows| && Answers(classes, labelType, frame, rows[k])|
  {
    var keep := AnsOn(classes, labelType, frame);
    var kept := Filter(keep, rows);
    MapHas(AnsBox(classes), kept, b);
    FilterCounts(keep, rows);
    assert Places(keep, rows) == set k: nat | k < |rows| && Answers(classes, labelType, frame, rows[k]);
    assert forall r :: keep(r) <==> Answers(classes, labelType, frame, r);
  }

  // ---- The label type filter

  lemma FilteredBoxes(refRows: seq<RefRow>, ansRows: seq<AnsRow>, classes: seq<ClassTarget>, labelType: nat, frame: nat)
    requires labelType != 0
    ensures RefBoxes(refRows, labelType, frame) == Filter(OfType(labelType), RefBoxes(refRows, 0, frame))
    ensures AnsBoxes(ansRows, classes, labelType, frame) ==
            Filter(OfType(labelType), AnsBoxes(ansRows, classes, 0, frame))
  {
    var refs, answers := Filter(RefOn(0, frame), refRows), Filter(AnsOn(classes, 0, frame), ansRows);
    FilterMap(RefBox(), OfType(labelType), RefOn(labelType, frame), refs);
    FilterTwice(RefOn(labelType, frame), RefOn(0, frame), RefOn(labelType, frame), refRows);
    FilterMap(AnsBox(classes), OfType(labelType), AnsOn(classes, labelType, frame), answers);
    FilterTwice(AnsOn(classes, labelType, frame), AnsOn(classes, 0, frame), AnsOn(classes, labelType, frame), ansRows);
  }

  // Asking for one type shows exactly the counts that type has among all, and
  // nothing for the others.
  lemma FilteredTally(score: Matcher, refRows: seq<RefRow>, ansRows: seq<AnsRow>, classes: seq<ClassTarget>,
                      labelType: nat, frame: nat, of: nat)
    requires Reliable(score) && labelType != 0
    ensures TypeTally(score, of, RefBoxes(refRows, labelType, frame), AnsBoxes(ansRows, classes, labelType, frame)) ==
            if of == labelType then TypeTally(score, of, RefBoxes(refRows, 0, frame),
                                              AnsBoxes(ansRows, classes, 0, frame))
            else Nothing()
  {
    var refs, answers := RefBoxes(refRows, 0, frame), AnsBoxes(ansRows, classes, 0, frame);
    FilteredBoxes(refRows, ansRows, classes, labelType, frame);
    if of == labelType {
      TallyOfTypeAlone(score, of, refs, answers);
    } else {
      FilterNone(OfType(of), Filter(OfType(labelType), refs));
      FilterNone(OfType(of), Filter(OfType(labelType), answers));
      TallyOfAbsentType(score, of, RefBoxes(refRows, labelType, frame), AnsBoxes(ansRows, classes, labelType, frame));
    }
  }

  // ---- A clip's summary

  function Summarized(score: Matcher, counts: Counts, done: seq<nat>, refs: Grouped, answers: Grouped): Counts
    decreases |done|
  {
    if done == [] then counts
    else
      var ref, ans := On(refs, done[0]), On(answers, done[0]);
      Summarized(score, Bumped(counts, FrameBumps(ref, ans, score(ref, ans))), done[1..], refs, answers)
  }

  method ScoreFrames(byType: Tallies, done: seq<nat>, refs: Grouped, answers: Grouped)
    modifies byType
    ensures byType.counts == Summarized(TrialMatches, old(byType.counts), done, refs, answers)
  {
    for k := 0 to |done|
      invariant Summarized(TrialMatches, byType.counts, done[k..], refs, answers) ==
                Summarized(TrialMatches, old(byType.counts), done, refs, answers)
    {
      assert done[k..][0] == done[k] && done[k..][1..] == done[k+1..];
      byType.Score(On(refs, done[k]), On(answers, done[k]));
    }
  }

  function FramesTally(score: Matcher, labelType: nat, done: seq<nat>, refs: Grouped, answers: Grouped): Tally {
    if done == [] then Nothing()
    else TypeTally(score, labelType, On(refs, done[0]),
                   On(answers, done[0])).Plus(FramesTally(score, labelType, done[1..], refs, answers))
  }

  lemma {:induction false} SummaryOfType(score: Matcher, counts: Counts, done: seq<nat>, refs: Grouped,
                                         answers: Grouped, labelType: nat)
    requires Reliable(score)
    ensures Of(Summarized(score, counts, done, refs, answers), labelType) ==
            Of(counts, labelType).Plus(FramesTally(score, labelType, done, refs, answers))
    decreases |done|
  {
    if done == [] {
      PlusNothing(Of(counts, labelType));
    } else {
      var ref, ans := On(refs, done[0]), On(answers, done[0]);
      FrameBumpsTally(score, labelType, counts, ref, ans);
      SummaryOfType(score, Bumped(counts, FrameBumps(ref, ans, score(ref, ans))), done[1..], refs, answers, labelType);
      PlusAssociative(Of(counts, labelType), TypeTally(score, labelType, ref, ans),
                      FramesTally(score, labelType, done[1..], refs, answers));
    }
  }

  // How many boxes the done frames hold, of one type or of all.
  function CountOfType(labelType: nat, done: seq<nat>, boxes: Grouped): nat {
    if done == [] then 0 else |Filter(OfType(labelType), On(boxes, done[0]))| + CountOfType(labelType, done[1..], boxes)
  }

  function CountAll(done: seq<nat>, boxes: Grouped): nat {
    if done == [] then 0 else |On(boxes, done[0])| + CountAll(done[1..], boxes)
  }

  lemma {:induction false} FramesTallyConserves(score: Matcher, labelType: nat, done: seq<nat>, refs: Grouped,
                                                answers: Grouped)
    requires Reliable(score)
    ensures Accounts(FramesTally(score, labelType, done, refs, answers),
                     CountOfType(labelType, done, refs), CountOfType(labelType, done, answers))
  {
    if done != [] {
      var ref, ans := On(refs, done[0]), On(answers, done[0]);
      TallyConserves(score, labelType, ref, ans);
      FramesTallyConserves(score, labelType, done[1..], refs, answers);
      AccountsPlus(TypeTally(score, labelType, ref, ans), FramesTally(score, labelType, done[1..], refs, answers),
                   |Filter(OfType(labelType), ref)|, CountOfType(labelType, done[1..], refs),
                   |Filter(OfType(labelType), ans)|, CountOfType(labelType, done[1..], answers));
    }
  }

  // ---- Listing the types

  datatype ClassRow = ClassRow(labelType: nat, name: string, tally: Tally)

  predicate Below(a: nat, b: nat) {
    a < b
  }

  function SumOver(counts: Counts, ids: seq<nat>): Tally {
    if ids == [] then Nothing() else Of(counts, ids[0]).Plus(SumOver(counts, ids[1..]))
  }

  function Names(names: map<nat, string>, id: nat): string {
    if id in names then names[id] else ""
  }

  function KeptRows(names: map<nat, string>, counts: Counts, keep: Tally -> bool, ids: seq<nat>): seq<ClassRow> {
    if ids == [] then []
    else
      (if keep(Of(counts, ids[0])) then [ClassRow(ids[0], Names(names, ids[0]), Of(counts, ids[0]))] else [])
      + KeptRows(names, counts, keep, ids[1..])
  }

  function Counted(counts: Counts): nat -> bool {
    (id: nat) => id in counts
  }

  function Unnamed(names: map<nat, string>): nat -> bool {
    (id: nat) => id !in names
  }

  // Go walks a map's keys in any order.
  method Enumerate(s: set<nat>) returns (r: seq<nat>)
    ensures Distinct(r) && forall x :: x in r <==> x in s
  {
    r := [];
    var left := s;
    while left != {}
      invariant left <= s && Distinct(r)
      invariant forall x :: x in r <==> x in s && x !in left
      decreases left
    {
      assert exists x :: x in left;
      var x :| x in left;
      assert x !in r;
      r := r + [x];
      left := left - {x};
    }
  }

  // The types that still exist in their own order, then the counted types
  // that no longer do, by id.
  ghost predicate Listing(order: seq<nat>, names: map<nat, string>, counts: Counts, known: seq<nat>, gone: seq<nat>) {
    && known == Filter(Counted(counts), order)
    && Ordered(Below, gone)
    && (forall id :: id in gone <==> id in counts && id !in names)
  }

  method ClassList(order: seq<nat>, names: map<nat, string>, counts: Counts, keep: Tally -> bool)
    returns (rows: seq<ClassRow>, all: Tally, known: seq<nat>, gone: seq<nat>)
    requires Distinct(order) && forall id :: id in order <==> id in names
    ensures Listing(order, names, counts, known, gone)
    ensures Distinct(known + gone) && forall id :: id in known + gone <==> id in counts
    ensures all == SumOver(counts, known + gone)
    ensures rows == KeptRows(names, counts, keep, known + gone)
  {
    var keys := Enumerate(counts.Keys);
    known, gone := Filter(Counted(counts), order), Filter(Unnamed(names), StableSort(Below, keys));
    ListedOnce(order, names, counts, keys);
    all := SumTallies(counts, known + gone);
    rows := KeepRows(names, counts, keep, known + gone);
  }

  function Accumulated(counts: Counts, all: Tally, ids: seq<nat>): Tally
    decreases |ids|
  {
    if ids == [] then all else Accumulated(counts, all.Plus(Of(counts, ids[0])), ids[1..])
  }

  lemma {:induction false} AccumulatedSum(counts: Counts, all: Tally, ids: seq<nat>)
    ensures Accumulated(counts, all, ids) == all.Plus(SumOver(counts, ids))
    decreases |ids|
  {
    if ids == [] {
      PlusNothing(all);
    } else {
      AccumulatedSum(counts, all.Plus(Of(counts, ids[0])), ids[1..]);
      PlusAssociative(all, Of(counts, ids[0]), SumOver(counts, ids[1..]));
    }
  }

  lemma AccumulatedFromNothing(counts: Counts, ids: seq<nat>)
    ensures Accumulated(counts, Nothing(), ids) == SumOver(counts, ids)
  {
    AccumulatedSum(counts, Nothing(), ids);
    PlusNothing(SumOver(counts, ids));
  }

  method SumTallies(counts: Counts, ids: seq<nat>) returns (all: Tally)
    ensures all == SumOver(counts, ids)
  {
    all := Nothing();
    AccumulatedFromNothing(counts, ids);
    for k := 0 to |ids|
      invariant Accumulated(counts, all, ids[k..]) == SumOver(counts, ids)
    {
      assert ids[k..][0] == ids[k] && ids[k..][1..] == ids[k+1..];
      all := all.Plus(Of(counts, ids[k]));
    }
  }

  lemma KeptStep(names: map<nat, string>, counts: Counts, keep: Tally -> bool, ids: seq<nat>, k: nat,
                 rows: seq<ClassRow>)
    requires k < |ids|
    ensures var tl := Of(counts, ids[k]);
            rows + KeptRows(names, counts, keep, ids[k..]) ==
            (if keep(tl) then rows + [ClassRow(ids[k], Names(names, ids[k]), tl)] else rows)
            + KeptRows(names, counts, keep, ids[k+1..])
  {
    assert ids[k..][0] == ids[k] && ids[k..][1..] == ids[k+1..];
  }

  method KeepRows(names: map<nat, string>, counts: Counts, keep: Tally -> bool, ids: seq<nat>)
    returns (rows: seq<ClassRow>)
    ensures rows == KeptRows(names, counts, keep, ids)
  {
    rows := [];
    for k := 0 to |ids|
      invariant rows + KeptRows(names, counts, keep, ids[k..]) == KeptRows(names, counts, keep, ids)
    {
      KeptStep(names, counts, keep, ids, k, rows);
      var tl := Of(counts, ids[k]);
      if keep(tl) {
        rows := rows + [ClassRow(ids[k], Names(names, ids[k]), tl)];
      }
    }
  }

  lemma ListedOnce(order: seq<nat>, names: map<nat, string>, counts: Counts, keys: seq<nat>)
    requires Distinct(order) && forall id :: id in order <==> id in names
    requires Distinct(keys) && forall id :: id in keys <==> id in counts
    ensures var known, gone := Filter(Counted(counts), order), Filter(Unnamed(names), StableSort(Below, keys));
            && Listing(order, names, counts, known, gone)
            && Distinct(known + gone) && (forall id :: id in known + gone <==> id in counts)
  {
    var sorted := StableSort(Below, keys);
    DistinctMultiset(keys, sorted);
    FilterDistinct(Counted(counts), order);
    FilterDistinct(Unnamed(names), sorted);
    FilterSort(Below, Unnamed(names), keys);
    SortOrdered(Below, Filter(Unnamed(names), keys));
    DistinctAppend(Filter(Counted(counts), order), Filter(Unnamed(names), sorted));
  }

  // ---- Totals

  function SumOfType(ids: seq<nat>, done: seq<nat>, boxes: Grouped): nat {
    if ids == [] then 0 else CountOfType(ids[0], done, boxes) + SumOfType(ids[1..], done, boxes)
  }

  function SumInFrame(ids: seq<nat>, boxes: seq<Box>): nat {
    if ids == [] then 0 else |Filter(OfType(ids[0]), boxes)| + SumInFrame(ids[1..], boxes)
  }

  function NotOfType(labelType: nat): Box -> bool {
    (b: Box) => b.labelType != labelType
  }

  lemma {:induction false} SplitLength<T>(p: T -> bool, q: T -> bool, s: seq<T>)
    requires forall x :: x in s ==> p(x) != q(x)
    ensures |Filter(p, s)| + |Filter(q, s)| == |s|
  {
    if s != [] {
      assert s[0] in s;
      SplitLength(p, q, s[1..]);
    }
  }

  lemma {:induction false} SumInPart(ids: seq<nat>, boxes: seq<Box>, without: nat)
    requires without !in ids
    ensures SumInFrame(ids, Filter(NotOfType(without), boxes)) == SumInFrame(ids, boxes)
  {
    if ids != [] {
      assert ids[0] in ids;
      FilterTwice(OfType(ids[0]), NotOfType(without), OfType(ids[0]), boxes);
      SumInPart(ids[1..], boxes, without);
    }
  }

  // Counting each type once counts each box once.
  lemma {:induction false} EachBoxOnce(ids: seq<nat>, boxes: seq<Box>)
    requires Distinct(ids) && forall b :: b in boxes ==> b.labelType in ids
    ensures SumInFrame(ids, boxes) == |boxes|
    decreases |ids|
  {
    if boxes != [] {
      assert boxes[0] in boxes;
    }
    if ids != [] {
      var rest := Filter(NotOfType(ids[0]), boxes);
      SplitLength(OfType(ids[0]), NotOfType(ids[0]), boxes);
      forall b | b in rest ensures b.labelType in ids[1..] {
        assert b in boxes && b.labelType != ids[0];
      }
      EachBoxOnce(ids[1..], rest);
      SumInPart(ids[1..], boxes, ids[0]);
    }
  }

  lemma {:induction false} SumOfTypeStep(ids: seq<nat>, done: seq<nat>, boxes: Grouped)
    requires done != []
    ensures SumOfType(ids, done, boxes) == SumInFrame(ids, On(boxes, done[0])) + SumOfType(ids, done[1..], boxes)
  {
    if ids != [] {
      SumOfTypeStep(ids[1..], done, boxes);
    }
  }

  lemma {:induction false} SumOfNoFrames(ids: seq<nat>, boxes: Grouped)
    ensures SumOfType(ids, [], boxes) == 0
  {
    if ids != [] {
      SumOfNoFrames(ids[1..], boxes);
    }
  }

  lemma {:induction false} EveryBoxOnce(ids: seq<nat>, done: seq<nat>, boxes: Grouped)
    requires Distinct(ids)
    requires forall f, b :: f in done && b in On(boxes, f) ==> b.labelType in ids
    ensures SumOfType(ids, done, boxes) == CountAll(done, boxes)
    decreases |done|
  {
    if done == [] {
      SumOfNoFrames(ids, boxes);
    } else {
      assert done[0] in done;
      SumOfTypeStep(ids, done, boxes);
      EachBoxOnce(ids, On(boxes, done[0]));
      EveryBoxOnce(ids, done[1..], boxes);
    }
  }

  lemma {:induction false} TotalOver(ids: seq<nat>, counts: Counts, done: seq<nat>, refs: Grouped, answers: Grouped)
    requires forall id :: id in ids ==> Accounts(Of(counts, id), CountOfType(id, done, refs),
                                                 CountOfType(id, done, answers))
    ensures Accounts(SumOver(counts, ids), SumOfType(ids, done, refs), SumOfType(ids, done, answers))
    decreases |ids|
  {
    if ids != [] {
      var id := ids[0];
      assert id in ids;
      TotalOver(ids[1..], counts, done, refs, answers);
      AccountsPlus(Of(counts, id), SumOver(counts, ids[1..]),
                   CountOfType(id, done, refs), SumOfType(ids[1..], done, refs),
                   CountOfType(id, done, answers), SumOfType(ids[1..], done, answers));
    }
  }

  lemma CountAccounts(score: Matcher, id: nat, done: seq<nat>, refs: Grouped, answers: Grouped)
    requires Reliable(score)
    ensures Accounts(Of(Summarized(score, map[], done, refs, answers), id), CountOfType(id, done, refs),
                     CountOfType(id, done, answers))
  {
    SummaryOfType(score, map[], done, refs, answers, id);
    PlusNothing(FramesTally(score, id, done, refs, answers));
    FramesTallyConserves(score, id, done, refs, answers);
  }

  lemma {:induction false} CountedIfPresent(labelType: nat, done: seq<nat>, boxes: Grouped, frame: nat, b: Box)
    requires frame in done && b in On(boxes, frame) && b.labelType == labelType
    ensures CountOfType(labelType, done, boxes) > 0
    decreases |done|
  {
    if frame == done[0] {
      assert b in Filter(OfType(labelType), On(boxes, frame));
    } else {
      CountedIfPresent(labelType, done[1..], boxes, frame, b);
    }
  }

  // Over any list of frames, listing every counted type once accounts for
  // every reference box as matched or missed and every answer box as matched
  // or extra.
  lemma SummaryConserves(score: Matcher, done: seq<nat>, refs: Grouped, answers: Grouped, ids: seq<nat>)
    requires Reliable(score)
    requires var counts := Summarized(score, map[], done, refs, answers);
             Distinct(ids) && forall id :: id in ids <==> id in counts
    ensures Accounts(SumOver(Summarized(score, map[], done, refs, answers), ids), CountAll(done, refs),
                     CountAll(done, answers))
  {
    var counts := Summarized(score, map[], done, refs, answers);
    forall id ensures Accounts(Of(counts, id), CountOfType(id, done, refs), CountOfType(id, done, answers)) {
      CountAccounts(score, id, done, refs, answers);
    }
    forall f, b | f in done && b in On(refs, f) ensures b.labelType in ids {
      CountedIfPresent(b.labelType, done, refs, f, b);
    }
    forall f, b | f in done && b in On(answers, f) ensures b.labelType in ids {
      CountedIfPresent(b.labelType, done, answers, f, b);
    }
    EveryBoxOnce(ids, done, refs);
    EveryBoxOnce(ids, done, answers);
    TotalOver(ids, counts, done, refs, answers);
  }

  // ---- The whole summary

  function RefCount(rows: seq<RefRow>, done: seq<nat>): nat {
    if done == [] then 0 else |RefBoxes(rows, 0, done[0])| + RefCount(rows, done[1..])
  }

  function AnsCount(rows: seq<AnsRow>, classes: seq<ClassTarget>, done: seq<nat>): nat {
    if done == [] then 0 else |AnsBoxes(rows, classes, 0, done[0])| + AnsCount(rows, classes, done[1..])
  }

  lemma {:induction false} CountsOfRows(refRows: seq<RefRow>, ansRows: seq<AnsRow>, classes: seq<ClassTarget>,
                                        done: seq<nat>, refs: Grouped, answers: Grouped)
    requires GroupedRefs(refs, refRows, 0) && GroupedAnswers(answers, ansRows, classes, 0)
    ensures CountAll(done, refs) == RefCount(refRows, done)
    ensures CountAll(done, answers) == AnsCount(ansRows, classes, done)
    decreases |done|
  {
    if done != [] {
      assert |On(refs, done[0])| == |RefBoxes(refRows, 0, done[0])|;
      assert |On(answers, done[0])| == |AnsBoxes(ansRows, classes, 0, done[0])|;
      CountsOfRows(refRows, ansRows, classes, done[1..], refs, answers);
    }
  }

  predicate KeepAll(t: Tally) {
    true
  }

  // For a trial: filtering by a type shows that type's own counts.
  lemma TrialFilteredTally(refRows: seq<RefRow>, ansRows: seq<AnsRow>, classes: seq<ClassTarget>, labelType: nat,
                           frame: nat, of: nat)
    requires labelType != 0
    ensures TypeTally(TrialMatches, of, RefBoxes(refRows, labelType, frame),
                      AnsBoxes(ansRows, classes, labelType, frame)) ==
            if of == labelType then TypeTally(TrialMatches, of, RefBoxes(refRows, 0, frame),
                                              AnsBoxes(ansRows, classes, 0, frame))
            else Nothing()
  {
    TrialMatchesReliable();
    FilteredTally(TrialMatches, refRows, ansRows, classes, labelType, frame, of);
  }
}
