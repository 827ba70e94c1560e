// The rows of a trial's summary: which types have one, in which order, and
// what each shows.
module SummaryRows {
  import opened Sequences
  import opened GoldScore
  import opened ModelTrials
  import opened TrialSummaries

  // ---- Which types are counted

  ghost predicate Bumps(bumps: seq<Bump>, labelType: nat) {
    exists b :: b in bumps && b.labelType == labelType
  }

  lemma {:induction false} BumpedKeys(counts: Counts, bumps: seq<Bump>, labelType: nat)
    ensures labelType in Bumped(counts, bumps) <==> labelType in counts || Bumps(bumps, labelType)
    decreases |bumps|
  {
    if bumps != [] {
      BumpedKeys(Raise(counts, bumps[0]), bumps[1..], labelType);
      assert forall b :: b in bumps <==> b == bumps[0] || b in bumps[1..];
    }
  }

  ghost predicate HasType(boxes: seq<Box>, labelType: nat) {
    exists b :: b in boxes && b.labelType == labelType
  }

  lemma LeftOfType(boxes: seq<Box>, taken: seq<nat>, inc: Tally, x: Bump)
    requires x in LeftBumps(Number(boxes), taken, inc)
    ensures HasType(boxes, x.labelType)
  {
    var left := Filter(Free(taken), Number(boxes));
    MapHas(LeftBump(inc), left, x);
    var item :| item in left && LeftBump(inc)(item) == x;
    assert item in Number(boxes);
    assert boxes[item.id] in boxes;
  }

  // Only boxes of a type count towards it.
  lemma BumpsAreOfBoxes(reference: seq<Box>, answer: seq<Box>, ms: seq<GoldScore.Match>, labelType: nat)
    requires Fits(reference, answer, ms) && Bumps(FrameBumps(reference, answer, ms), labelType)
    ensures HasType(reference, labelType) || HasType(answer, labelType)
  {
    var x :| x in FrameBumps(reference, answer, ms) && x.labelType == labelType;
    if x in Map(MatchBump(reference), ms) {
      MapHas(MatchBump(reference), ms, x);
      var m :| m in ms && MatchBump(reference)(m) == x;
      assert reference[m.reference] in reference;
    } else if x in LeftBumps(Number(reference), Map(ReferenceEnd(), ms), Missed()) {
      LeftOfType(reference, Map(ReferenceEnd(), ms), Missed(), x);
    } else {
      LeftOfType(answer, Map(AnswerEnd(), ms), Extra(), x);
    }
  }

  // A frame has a box of the type.
  ghost predicate SeenOn(refs: Grouped, answers: Grouped, frame: nat, labelType: nat) {
    HasType(On(refs, frame), labelType) || HasType(On(answers, frame), labelType)
  }

  ghost predicate Seen(done: seq<nat>, refs: Grouped, answers: Grouped, labelType: nat) {
    exists f :: f in done && SeenOn(refs, answers, f, labelType)
  }

  lemma SeenFirst(done: seq<nat>, refs: Grouped, answers: Grouped, labelType: nat)
    requires done != []
    ensures Seen(done, refs, answers, labelType) <==>
            SeenOn(refs, answers, done[0], labelType) || Seen(done[1..], refs, answers, labelType)
  {
    assert forall f :: f in done <==> f == done[0] || f in done[1..];
  }

  lemma {:induction false} CountedIsSeen(score: Matcher, counts: Counts, done: seq<nat>, refs: Grouped,
                                         answers: Grouped, labelType: nat)
    requires Reliable(score) && labelType in Summarized(score, counts, done, refs, answers)
    ensures labelType in counts || Seen(done, refs, answers, labelType)
    decreases |done|
  {
    if done != [] {
      var ref, ans := On(refs, done[0]), On(answers, done[0]);
      var ms := score(ref, ans);
      CountedIsSeen(score, Bumped(counts, FrameBumps(ref, ans, ms)), done[1..], refs, answers, labelType);
      BumpedKeys(counts, FrameBumps(ref, ans, ms), labelType);
      SeenFirst(done, refs, answers, labelType);
      if Bumps(FrameBumps(ref, ans, ms), labelType) {
        assert Fits(ref, ans, score(ref, ans));
        BumpsAreOfBoxes(ref, ans, ms, labelType);
      }
    }
  }

  lemma NothingIsNone(counts: Counts, labelType: nat, references: nat, answers: nat)
    requires Accounts(Of(counts, labelType), references, answers) && references + answers > 0
    ensures labelType in counts
  {
  }

  lemma SeenHasCount(done: seq<nat>, refs: Grouped, answers: Grouped, labelType: nat)
    requires Seen(done, refs, answers, labelType)
    ensures CountOfType(labelType, done, refs) + CountOfType(labelType, done, answers) > 0
  {
    var f :| f in done && SeenOn(refs, answers, f, labelType);
    if HasType(On(refs, f), labelType) {
      var b :| b in On(refs, f) && b.labelType == labelType;
      CountedIfPresent(labelType, done, refs, f, b);
    } else {
      var b :| b in On(answers, f) && b.labelType == labelType;
      CountedIfPresent(labelType, done, answers, f, b);
    }
  }

  // A type is counted exactly when a done frame has a box of it.
  lemma CountedIffSeen(score: Matcher, done: seq<nat>, refs: Grouped, answers: Grouped, labelType: nat)
    requires Reliable(score)
    ensures labelType in Summarized(score, map[], done, refs, answers) <==> Seen(done, refs, answers, labelType)
  {
    if labelType in Summarized(score, map[], done, refs, answers) {
      CountedIsSeen(score, map[], done, refs, answers, labelType);
    }
    if Seen(done, refs, answers, labelType) {
      CountAccounts(score, labelType, done, refs, answers);
      SeenHasCount(done, refs, answers, labelType);
      NothingIsNone(Summarized(score, map[], done, refs, answers), labelType,
                    CountOfType(labelType, done, refs), CountOfType(labelType, done, answers));
    }
  }

  ghost predicate RowsInOrder(order: seq<nat>, rows: seq<ClassRow>) {
    forall i, j :: 0 <= i < j < |rows| ==> Before(order, rows[i].labelType, rows[j].labelType)
  }

  ghost predicate HasRow(rows: seq<ClassRow>, id: nat) {
    exists row :: row in rows && row.labelType == id
  }

  ghost predicate RowHolds(names: map<nat, string>, row: ClassRow, tally: Tally) {
    row.tally == tally && row.name == (if row.labelType in names then names[row.labelType] else "")
  }

  // A row for each type that is seen: types that still exist in their order
  // and then the others by id, each with its name, if it has one, and its
  // tally.
  ghost predicate RowsFor(order: seq<nat>, names: map<nat, string>, seen: nat -> bool, tally: nat -> Tally,
                          rows: seq<ClassRow>)
  {
    && RowsInOrder(order, rows)
    && (forall id :: seen(id) <==> HasRow(rows, id))
    && (forall row :: row in rows ==> RowHolds(names, row, tally(row.labelType)))
  }

  ghost function SeenIn(done: seq<nat>, refs: Grouped, answers: Grouped): nat -> bool {
    (id: nat) => Seen(done, refs, answers, id)
  }

  function TallyIn(done: seq<nat>, refs: Grouped, answers: Grouped): nat -> Tally {
    (id: nat) => FramesTally(TrialMatches, id, done, refs, answers)
  }

  // The rows of the types the done frames have a box of, with what they count.
  ghost predicate RowsAre(order: seq<nat>, names: map<nat, string>, done: seq<nat>, refs: Grouped, answers: Grouped,
                          rows: seq<ClassRow>)
  {
    RowsFor(order, names, SeenIn(done, refs, answers), TallyIn(done, refs, answers), rows)
  }

  // One type is listed before another.
  ghost predicate Before(order: seq<nat>, a: nat, b: nat) {
    if b in order then exists i, j :: 0 <= i < j < |order| && order[i] == a && order[j] == b
    else a in order || a < b
  }

  lemma {:induction false} KeptAt(names: map<nat, string>, counts: Counts, ids: seq<nat>, k: nat)
    requires k < |ids|
    ensures var rows := KeptRows(names, counts, KeepAll, ids);
            |rows| == |ids| && rows[k] == ClassRow(ids[k], Names(names, ids[k]), Of(counts, ids[k]))
  {
    KeptLength(names, counts, ids);
    if k > 0 {
      KeptAt(names, counts, ids[1..], k - 1);
    }
  }

  lemma {:induction false} KeptLength(names: map<nat, string>, counts: Counts, ids: seq<nat>)
    ensures |KeptRows(names, counts, KeepAll, ids)| == |ids|
  {
    if ids != [] {
      KeptLength(names, counts, ids[1..]);
    }
  }

  ghost predicate InOrder(order: seq<nat>, ids: seq<nat>) {
    forall i, j :: 0 <= i < j < |ids| ==> Before(order, ids[i], ids[j])
  }

  lemma {:induction false} FilterInOrder(keep: nat -> bool, order: seq<nat>, from: nat)
    requires from <= |order|
    ensures InOrder(order, Filter(keep, order[from..]))
    decreases |order| - from
  {
    if from < |order| {
      FilterInOrder(keep, order, from + 1);
      assert order[from..][1..] == order[from+1..];
      forall b | b in Filter(keep, order[from+1..]) ensures Before(order, order[from], b) {
        var j :| 0 <= j < |order[from+1..]| && order[from+1..][j] == b;
        var at := from + 1 + j;
        assert order[at] == b && b in order;
      }
    }
  }

  lemma ListedInOrder(order: seq<nat>, names: map<nat, string>, counts: Counts, known: seq<nat>, gone: seq<nat>)
    requires Listing(order, names, counts, known, gone) && Distinct(known + gone)
    requires forall id :: id in order <==> id in names
    ensures InOrder(order, known + gone)
  {
    var ids := known + gone;
    FilterInOrder(Counted(counts), order, 0);
    assert order[0..] == order;
    forall i, j | 0 <= i < j < |ids| ensures Before(order, ids[i], ids[j]) {
      if j >= |known| {
        assert gone[j - |known|] in gone && ids[j] !in order;
        if i < |known| {
          assert known[i] in known;
        } else {
          assert !Below(gone[j - |known|], gone[i - |known|]) && ids[i] != ids[j];
        }
      }
    }
  }

  ghost predicate CountsShown(counts: Counts, seen: nat -> bool, tally: nat -> Tally) {
    && (forall id :: Of(counts, id) == tally(id))
    && (forall id :: id in counts <==> seen(id))
  }

  lemma KeptInOrder(order: seq<nat>, names: map<nat, string>, counts: Counts, ids: seq<nat>)
    requires InOrder(order, ids)
    ensures RowsInOrder(order, KeptRows(names, counts, KeepAll, ids))
  {
    var rows := KeptRows(names, counts, KeepAll, ids);
    KeptLength(names, counts, ids);
    forall i, j | 0 <= i < j < |rows| ensures Before(order, rows[i].labelType, rows[j].labelType) {
      KeptAt(names, counts, ids, i);
      KeptAt(names, counts, ids, j);
    }
  }

  lemma KeptHas(names: map<nat, string>, counts: Counts, ids: seq<nat>, id: nat)
    ensures HasRow(KeptRows(names, counts, KeepAll, ids), id) <==> id in ids
  {
    var rows := KeptRows(names, counts, KeepAll, ids);
    KeptLength(names, counts, ids);
    if id in ids {
      var k :| 0 <= k < |ids| && ids[k] == id;
      KeptAt(names, counts, ids, k);
      assert rows[k] in rows;
    }
    if HasRow(rows, id) {
      var row :| row in rows && row.labelType == id;
      KeptRow(names, counts, ids, row);
    }
  }

  lemma KeptRow(names: map<nat, string>, counts: Counts, ids: seq<nat>, row: ClassRow)
    requires row in KeptRows(names, counts, KeepAll, ids)
    ensures row.labelType in ids && RowHolds(names, row, Of(counts, row.labelType))
  {
    var rows := KeptRows(names, counts, KeepAll, ids);
    KeptLength(names, counts, ids);
    var k :| 0 <= k < |rows| && rows[k] == row;
    KeptAt(names, counts, ids, k);
  }

  lemma KeptRowsAre(order: seq<nat>, names: map<nat, string>, seen: nat -> bool, tally: nat -> Tally, counts: Counts,
                    ids: seq<nat>)
    requires InOrder(order, ids) && (forall id :: id in ids <==> id in counts) && CountsShown(counts, seen, tally)
    ensures RowsFor(order, names, seen, tally, KeptRows(names, counts, KeepAll, ids))
  {
    var rows := KeptRows(names, counts, KeepAll, ids);
    KeptInOrder(order, names, counts, ids);
    forall id ensures seen(id) <==> HasRow(rows, id) {
      KeptHas(names, counts, ids, id);
    }
    forall row | row in rows ensures RowHolds(names, row, tally(row.labelType)) {
      KeptRow(names, counts, ids, row);
    }
  }

  lemma SummaryCounts(done: seq<nat>, refs: Grouped, answers: Grouped)
    ensures CountsShown(Summarized(TrialMatches, map[], done, refs, answers), SeenIn(done, refs, answers),
                        TallyIn(done, refs, answers))
  {
    TrialMatchesReliable();
    var counts := Summarized(TrialMatches, map[], done, refs, answers);
    forall id ensures Of(counts, id) == TallyIn(done, refs, answers)(id) {
      SummaryOfType(TrialMatches, map[], done, refs, answers, id);
      PlusNothing(FramesTally(TrialMatches, id, done, refs, answers));
    }
    forall id ensures id in counts <==> SeenIn(done, refs, answers)(id) {
      CountedIffSeen(TrialMatches, done, refs, answers, id);
    }
  }

  function RowsTotal(rows: seq<ClassRow>): Tally {
    if rows == [] then Nothing() else rows[0].tally.Plus(RowsTotal(rows[1..]))
  }

  lemma {:induction false} KeptTotal(names: map<nat, string>, counts: Counts, ids: seq<nat>)
    ensures RowsTotal(KeptRows(names, counts, KeepAll, ids)) == SumOver(counts, ids)
  {
    if ids != [] {
      KeptTotal(names, counts, ids[1..]);
      var row := ClassRow(ids[0], Names(names, ids[0]), Of(counts, ids[0]));
      assert ([row] + KeptRows(names, counts, KeepAll, ids[1..]))[1..] == KeptRows(names, counts, KeepAll, ids[1..]);
    }
  }

  // The summary shown for a trial: none without done frames, an error when
  // attributes do not decode, and otherwise a row for each type the frames
  // have a box of, and totals that account for every stored box of them.
  method Summary(refRows: seq<RefRow>, ansRows: seq<AnsRow>, classes: seq<ClassTarget>, done: seq<nat>,
                 order: seq<nat>, names: map<nat, string>)
    returns (failed: bool, out: Option<(seq<ClassRow>, Tally)>, ghost refs: Grouped, ghost answers: Grouped)
    requires Distinct(order) && forall id :: id in order <==> id in names
    ensures failed <==> done != [] && exists r :: r in refRows && r.attributes.None?
    ensures out.Some? <==> done != [] && !failed
    ensures out.Some? ==> GroupedRefs(refs, refRows, 0) && GroupedAnswers(answers, ansRows, classes, 0)
    ensures out.Some? ==> RowsAre(order, names, done, refs, answers, out.value.0)
    ensures out.Some? ==> out.value.1 == RowsTotal(out.value.0)
    ensures out.Some? ==> Accounts(out.value.1, RefCount(refRows, done), AnsCount(ansRows, classes, done))
  {
    failed, out, refs, answers := false, None, map[], map[];
    if done == [] {
      return;
    }
    var boxes := FrameBoxes(refRows, ansRows, classes, 0);
    if boxes.None? {
      failed := true;
      return;
    }
    refs, answers := boxes.value.0, boxes.value.1;
    var rows, all := SummarizeFrames(done, order, names, boxes.value.0, boxes.value.1);
    CountsOfRows(refRows, ansRows, classes, done, refs, answers);
    out := Some((rows, all));
  }

  method SummarizeFrames(done: seq<nat>, order: seq<nat>, names: map<nat, string>, refs: Grouped, answers: Grouped)
    returns (rows: seq<ClassRow>, all: Tally)
    requires Distinct(order) && forall id :: id in order <==> id in names
    ensures RowsAre(order, names, done, refs, answers, rows) && all == RowsTotal(rows)
    ensures Accounts(all, CountAll(done, refs), CountAll(done, answers))
  {
    var byType := new Tallies();
    ScoreFrames(byType, done, refs, answers);
    ghost var known, gone;
    rows, all, known, gone := ClassList(order, names, byType.counts, KeepAll);
    ListedRows(order, names, done, refs, answers, byType.counts, known, gone);
    KeptTotal(names, byType.counts, known + gone);
    AllAccounted(done, refs, answers, byType.counts, known + gone);
  }

  lemma ListedRows(order: seq<nat>, names: map<nat, string>, done: seq<nat>, refs: Grouped, answers: Grouped,
                   counts: Counts, known: seq<nat>, gone: seq<nat>)
    requires counts == Summarized(TrialMatches, map[], done, refs, answers)
    requires Listing(order, names, counts, known, gone) && (forall id :: id in order <==> id in names)
    requires Distinct(known + gone) && forall id :: id in known + gone <==> id in counts
    ensures RowsAre(order, names, done, refs, answers, KeptRows(names, counts, KeepAll, known + gone))
  {
    SummaryCounts(done, refs, answers);
    ListedInOrder(order, names, counts, known, gone);
    KeptRowsAre(order, names, SeenIn(done, refs, answers), TallyIn(done, refs, answers), counts, known + gone);
  }

  lemma AllAccounted(done: seq<nat>, refs: Grouped, answers: Grouped, counts: Counts, ids: seq<nat>)
    requires counts == Summarized(TrialMatches, map[], done, refs, answers)
    requires Distinct(ids) && forall id :: id in ids <==> id in counts
    ensures Accounts(SumOver(counts, ids), CountAll(done, refs), CountAll(done, answers))
  {
    TrialMatchesReliable();
    SummaryConserves(TrialMatches, done, refs, answers, ids);
  }
}
