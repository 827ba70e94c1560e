// Counting a trial model's boxes against verified ones, per label type.
module ModelTrials {
  import opened Sequences
  import opened GreedyMatching
  import opened GoldScore

  datatype Tally = Tally(matched: int, correct: int, missed: int, extra: int) {
    function Plus(o: Tally): Tally {
      Tally(matched + o.matched, correct + o.correct, missed + o.missed, extra + o.extra)
    }
  }

  // Every one of the reference boxes is matched or missed, and every one of
  // the answer boxes matched or extra.
  ghost predicate Accounts(t: Tally, references: int, answers: int) {
    && t.matched + t.missed == references
    && t.matched + t.extra == answers
    && 0 <= t.correct <= t.matched && 0 <= t.missed && 0 <= t.extra
  }

  lemma AccountsPlus(s: Tally, t: Tally, refS: int, refT: int, ansS: int, ansT: int)
    requires Accounts(s, refS, ansS) && Accounts(t, refT, ansT)
    ensures Accounts(s.Plus(t), refS + refT, ansS + ansT)
  {
  }

  function Nothing(): Tally {
    Tally(0, 0, 0, 0)
  }

  // ---- One frame, one type

  // How boxes are matched. The counting below works for any matcher that is
  // reliable, and a trial's is.
  type Matcher = (seq<Box>, seq<Box>) -> seq<GoldScore.Match>

  function TrialMatches(reference: seq<Box>, answer: seq<Box>): seq<GoldScore.Match> {
    MatchesFor(reference, answer, SetAttributesAgree)
  }

  // A type's matches are one-to-one between its own boxes, and the same
  // whether its boxes are matched alone or among others.
  ghost predicate Reliable(score: Matcher) {
    && (forall reference, answer :: Fits(reference, answer, score(reference, answer)))
    && (forall reference, answer, labelType :: AloneAsAmongOthers(score, reference, answer, labelType))
  }

  ghost predicate AloneAsAmongOthers(score: Matcher, reference: seq<Box>, answer: seq<Box>, labelType: nat) {
    var own := OfType(labelType);
    Filter(ReferenceOfType(labelType, reference), score(reference, answer)) ==
    Map(Relocate(Positions(own, reference), Positions(own, answer)), score(Filter(own, reference), Filter(own, answer)))
  }

  lemma TrialMatchesReliable()
    ensures Reliable(TrialMatches)
  {
    forall reference, answer ensures Fits(reference, answer, TrialMatches(reference, answer)) {
      TrialMatchesFit(reference, answer);
    }
    forall reference, answer, labelType ensures AloneAsAmongOthers(TrialMatches, reference, answer, labelType) {
      MatchesOfType(reference, answer, SetAttributesAgree, labelType);
    }
  }

  function ReferenceEnd(): GoldScore.Match -> nat {
    (m: GoldScore.Match) => m.reference
  }

  function AnswerEnd(): GoldScore.Match -> nat {
    (m: GoldScore.Match) => m.answer
  }

  function NotIn(taken: seq<nat>): nat -> bool {
    (i: nat) => i !in taken
  }

  // The boxes of a type at positions no match took.
  function Unmatched(labelType: nat, boxes: seq<Box>, taken: seq<nat>): nat {
    |Filter(NotIn(taken), Positions(OfType(labelType), boxes))|
  }

  function MatchTally(labelType: nat, reference: seq<Box>, matches: seq<GoldScore.Match>): Tally {
    var own := Filter(ReferenceOfType(labelType, reference), matches);
    Tally(|own|, |Filter(IsCorrect, own)|, 0, 0)
  }

  function TallyFrom(labelType: nat, reference: seq<Box>, answer: seq<Box>, matches: seq<GoldScore.Match>): Tally {
    MatchTally(labelType, reference, matches)
      .Plus(Tally(0, 0, Unmatched(labelType, reference, Map(ReferenceEnd(), matches)), 0))
      .Plus(Tally(0, 0, 0, Unmatched(labelType, answer, Map(AnswerEnd(), matches))))
  }

  // What scoring one frame adds to the count of a type.
  function TypeTally(score: Matcher, labelType: nat, reference: seq<Box>, answer: seq<Box>): Tally {
    TallyFrom(labelType, reference, answer, score(reference, answer))
  }

  // One-to-one matches between boxes of one type.
  ghost predicate Fits(reference: seq<Box>, answer: seq<Box>, matches: seq<GoldScore.Match>) {
    && (forall m :: m in matches ==>
          && m.reference < |reference| && m.answer < |answer|
          && reference[m.reference].labelType == answer[m.answer].labelType)
    && Distinct(Map(ReferenceEnd(), matches)) && Distinct(Map(AnswerEnd(), matches))
  }

  lemma JudgedFit(reference: seq<Box>, answer: seq<Box>, edges: seq<Edge>)
    requires OneToOne(edges) && forall e :: e in edges ==> Eligible(reference, answer, e)
    ensures Fits(reference, answer, Map(Judge(reference, answer, SetAttributesAgree), edges))
  {
    var ms := Map(Judge(reference, answer, SetAttributesAgree), edges);
    OneToOneEnds(edges);
    assert Map(ReferenceEnd(), ms) == Map(Left(), edges);
    assert Map(AnswerEnd(), ms) == Map(Right(), edges);
    forall m | m in ms ensures Eligible(reference, answer, Edge(m.reference, m.answer, m.iou)) {
      var i :| 0 <= i < |ms| && ms[i] == m;
      assert edges[i] in edges;
    }
  }

  lemma TrialMatchesFit(reference: seq<Box>, answer: seq<Box>)
    ensures Fits(reference, answer, TrialMatches(reference, answer))
  {
    PairingIsStable(reference, answer);
    JudgedFit(reference, answer, Pairing(reference, answer));
  }

  // ---- Conservation

  function InOwn(own: seq<nat>, end: GoldScore.Match -> nat): GoldScore.Match -> bool {
    (m: GoldScore.Match) => end(m) in own
  }

  lemma {:induction false} DistinctEndsFilter(end: GoldScore.Match -> nat, keep: GoldScore.Match -> bool,
                                              ms: seq<GoldScore.Match>)
    requires Distinct(Map(end, ms))
    ensures Distinct(Map(end, Filter(keep, ms)))
  {
    if ms != [] {
      MapStep(end, ms);
      DistinctEndsFilter(end, keep, ms[1..]);
      var rest := Filter(keep, ms[1..]);
      MapCons(end, ms[0], rest);
      forall i | 0 <= i < |rest| ensures end(rest[i]) != end(ms[0]) {
        assert rest[i] in rest;
        var k :| 0 <= k < |ms[1..]| && ms[1..][k] == rest[i];
        assert Map(end, ms)[0] != Map(end, ms)[k+1];
      }
    }
  }

  // Positions of a type split into those the type's matches took and the
  // unmatched ones.
  lemma MatchedPlusUnmatched(labelType: nat, boxes: seq<Box>, end: GoldScore.Match -> nat,
                             matches: seq<GoldScore.Match>, own: seq<GoldScore.Match>)
    requires Distinct(Map(end, matches)) && forall m :: m in matches ==> end(m) < |boxes|
    requires own == Filter(InOwn(Positions(OfType(labelType), boxes), end), matches)
    ensures |own| + Unmatched(labelType, boxes, Map(end, matches)) == |Filter(OfType(labelType), boxes)|
  {
    var at := Positions(OfType(labelType), boxes);
    var taken, ownTaken := Map(end, matches), Map(end, own);
    PositionsOfFilter(OfType(labelType), boxes);
    DistinctEndsFilter(end, InOwn(at, end), matches);
    forall x | x in ownTaken ensures x in at {
      var i :| 0 <= i < |own| && ownTaken[i] == x;
      assert own[i] in own;
    }
    forall x | x in at ensures NotIn(taken)(x) <==> x !in ownTaken {
      if x in taken {
        var i :| 0 <= i < |matches| && taken[i] == x;
        assert matches[i] in matches && matches[i] in own;
        var j :| 0 <= j < |own| && own[j] == matches[i];
        assert ownTaken[j] == x;
      }
      if x in ownTaken {
        var j :| 0 <= j < |own| && ownTaken[j] == x;
        assert own[j] in own && own[j] in matches;
        var i :| 0 <= i < |matches| && matches[i] == own[j];
        assert taken[i] == x;
      }
    }
    RemainderLength(at, ownTaken, NotIn(taken));
  }

  lemma PositionIff(labelType: nat, boxes: seq<Box>, i: nat)
    requires i < |boxes|
    ensures i in Positions(OfType(labelType), boxes) <==> boxes[i].labelType == labelType
  {
    var own, at := OfType(labelType), Positions(OfType(labelType), boxes);
    PositionsOfFilter(own, boxes);
    var items := Filter(OnVal(own), Number(boxes));
    if boxes[i].labelType == labelType {
      assert Number(boxes)[i] in Number(boxes) && Number(boxes)[i] in items;
      var k :| 0 <= k < |items| && items[k] == Number(boxes)[i];
      assert at[k] == i;
    }
  }

  lemma TallyFromConserves(labelType: nat, reference: seq<Box>, answer: seq<Box>, ms: seq<GoldScore.Match>)
    requires Fits(reference, answer, ms)
    ensures Accounts(TallyFrom(labelType, reference, answer, ms),
                     |Filter(OfType(labelType), reference)|, |Filter(OfType(labelType), answer)|)
  {
    var ofType := ReferenceOfType(labelType, reference);
    var refAt, ansAt := Positions(OfType(labelType), reference), Positions(OfType(labelType), answer);
    forall m | m in ms
      ensures ofType(m) == InOwn(refAt, ReferenceEnd())(m) == InOwn(ansAt, AnswerEnd())(m)
    {
      PositionIff(labelType, reference, m.reference);
      PositionIff(labelType, answer, m.answer);
    }
    FilterSame(ofType, InOwn(refAt, ReferenceEnd()), ms);
    FilterSame(ofType, InOwn(ansAt, AnswerEnd()), ms);
    var own := Filter(ofType, ms);
    MatchedPlusUnmatched(labelType, reference, ReferenceEnd(), ms, own);
    MatchedPlusUnmatched(labelType, answer, AnswerEnd(), ms, own);
  }

  // A frame's tally accounts for its boxes of the type.
  lemma TallyConserves(score: Matcher, labelType: nat, reference: seq<Box>, answer: seq<Box>)
    requires Reliable(score)
    ensures Accounts(TypeTally(score, labelType, reference, answer),
                     |Filter(OfType(labelType), reference)|, |Filter(OfType(labelType), answer)|)
  {
    TallyFromConserves(labelType, reference, answer, score(reference, answer));
  }

  // ---- What a tally counts

  // The boxes of a type that none of the matches takes.
  ghost function LeftOut(labelType: nat, boxes: seq<Box>, taken: set<nat>): set<nat> {
    set i: nat | i < |boxes| && boxes[i].labelType == labelType && i !in taken
  }

  ghost function MatchedOnes(labelType: nat, reference: seq<Box>, ms: seq<GoldScore.Match>): set<nat> {
    set k: nat | k < |ms| && ms[k].reference < |reference| && reference[ms[k].reference].labelType == labelType
  }

  ghost function TakenReferences(ms: seq<GoldScore.Match>): set<nat> {
    set m | m in ms :: m.reference
  }

  ghost function TakenAnswers(ms: seq<GoldScore.Match>): set<nat> {
    set m | m in ms :: m.answer
  }

  // The matched boxes of a type, those of them that are correct, and the
  // boxes of it that a model missed or made up.
  ghost predicate Tells(t: Tally, labelType: nat, reference: seq<Box>, answer: seq<Box>, ms: seq<GoldScore.Match>) {
    && t.matched == |MatchedOnes(labelType, reference, ms)|
    && t.correct == |set k: nat | k in MatchedOnes(labelType, reference, ms) && ms[k].correct|
    && t.missed == |LeftOut(labelType, reference, TakenReferences(ms))|
    && t.extra == |LeftOut(labelType, answer, TakenAnswers(ms))|
  }

  function OfTypeCorrect(labelType: nat, reference: seq<Box>): GoldScore.Match -> bool {
    (m: GoldScore.Match) => ReferenceOfType(labelType, reference)(m) && m.correct
  }

  lemma MatchedCount(labelType: nat, reference: seq<Box>, ms: seq<GoldScore.Match>)
    ensures var t := MatchTally(labelType, reference, ms);
            && t.matched == |MatchedOnes(labelType, reference, ms)|
            && t.correct == |set k: nat | k in MatchedOnes(labelType, reference, ms) && ms[k].correct|
  {
    var own, right := ReferenceOfType(labelType, reference), OfTypeCorrect(labelType, reference);
    FilterCounts(own, ms);
    FilterTwice(IsCorrect, own, right, ms);
    FilterCounts(right, ms);
    assert Places(own, ms) == MatchedOnes(labelType, reference, ms);
    assert Places(right, ms) == set k: nat | k in MatchedOnes(labelType, reference, ms) && ms[k].correct;
  }

  lemma PlusLeft(s: Tally, missed: int, extra: int)
    ensures s.Plus(Tally(0, 0, missed, 0)).Plus(Tally(0, 0, 0, extra)) ==
            Tally(s.matched, s.correct, s.missed + missed, s.extra + extra)
  {
  }

  lemma TallyParts(labelType: nat, reference: seq<Box>, answer: seq<Box>, ms: seq<GoldScore.Match>)
    ensures var t, own := TallyFrom(labelType, reference, answer, ms), MatchTally(labelType, reference, ms);
            && t.matched == own.matched && t.correct == own.correct
            && t.missed == Unmatched(labelType, reference, Map(ReferenceEnd(), ms))
            && t.extra == Unmatched(labelType, answer, Map(AnswerEnd(), ms))
  {
    var missed := Unmatched(labelType, reference, Map(ReferenceEnd(), ms));
    var extra := Unmatched(labelType, answer, Map(AnswerEnd(), ms));
    PlusLeft(MatchTally(labelType, reference, ms), missed, extra);
  }

  ghost function FirstOnes(s: seq<nat>, n: nat): set<nat>
    requires n <= |s|
  {
    set k: nat | k < n :: s[k]
  }

  lemma {:induction false} FirstAreDistinct(s: seq<nat>, n: nat)
    requires Distinct(s) && n <= |s|
    ensures |FirstOnes(s, n)| == n
  {
    if n == 0 {
      assert FirstOnes(s, n) == {};
    } else {
      FirstAreDistinct(s, n - 1);
      assert FirstOnes(s, n) == FirstOnes(s, n - 1) + {s[n-1]};
    }
  }

  lemma UnmatchedCount(labelType: nat, boxes: seq<Box>, end: GoldScore.Match -> nat, ms: seq<GoldScore.Match>,
                       taken: set<nat>)
    requires forall i: nat :: i in taken <==> exists m :: m in ms && end(m) == i
    ensures Unmatched(labelType, boxes, Map(end, ms)) == |LeftOut(labelType, boxes, taken)|
  {
    var at, ends := Positions(OfType(labelType), boxes), Map(end, ms);
    var left := Filter(NotIn(ends), at);
    PositionsOfFilter(OfType(labelType), boxes);
    FilterDistinct(NotIn(ends), at);
    FirstAreDistinct(left, |left|);
    forall i: nat ensures i in left <==> i in LeftOut(labelType, boxes, taken) {
      EndsAre(end, ms, i);
      if i < |boxes| {
        PositionIff(labelType, boxes, i);
      } else {
        BelowAll(at, |boxes|, i);
      }
    }
    assert FirstOnes(left, |left|) == LeftOut(labelType, boxes, taken);
  }

  lemma BelowAll(at: seq<nat>, n: nat, i: nat)
    requires (forall k :: 0 <= k < |at| ==> at[k] < n) && i >= n
    ensures i !in at
  {
  }

  lemma EndsAre(end: GoldScore.Match -> nat, ms: seq<GoldScore.Match>, i: nat)
    ensures i in Map(end, ms) <==> exists m :: m in ms && end(m) == i
  {
    if i in Map(end, ms) {
      var k :| 0 <= k < |ms| && Map(end, ms)[k] == i;
      assert ms[k] in ms && end(ms[k]) == i;
    }
    if m :| m in ms && end(m) == i {
      var k :| 0 <= k < |ms| && ms[k] == m;
      assert Map(end, ms)[k] == i;
    }
  }

  lemma TakenAre(ms: seq<GoldScore.Match>)
    ensures forall i: nat :: i in TakenReferences(ms) <==> exists m :: m in ms && ReferenceEnd()(m) == i
    ensures forall i: nat :: i in TakenAnswers(ms) <==> exists m :: m in ms && AnswerEnd()(m) == i
  {
  }

  lemma TallyFromTells(labelType: nat, reference: seq<Box>, answer: seq<Box>, ms: seq<GoldScore.Match>)
    ensures Tells(TallyFrom(labelType, reference, answer, ms), labelType, reference, answer, ms)
  {
    TallyParts(labelType, reference, answer, ms);
    MatchedCount(labelType, reference, ms);
    TakenAre(ms);
    UnmatchedCount(labelType, reference, ReferenceEnd(), ms, TakenReferences(ms));
    UnmatchedCount(labelType, answer, AnswerEnd(), ms, TakenAnswers(ms));
  }

  // What scoring a frame counts of a type.
  lemma TallyTells(score: Matcher, labelType: nat, reference: seq<Box>, answer: seq<Box>)
    requires Reliable(score)
    ensures Tells(TypeTally(score, labelType, reference, answer), labelType, reference, answer,
                  score(reference, answer))
  {
    assert Fits(reference, answer, score(reference, answer));
    TallyFromTells(labelType, reference, answer, score(reference, answer));
  }

  lemma MovedTally(labelType: nat, reference: seq<Box>, answer: seq<Box>, ms: seq<GoldScore.Match>,
                   alone: seq<GoldScore.Match>, move: GoldScore.Match -> GoldScore.Match)
    requires var refs, answers := Filter(OfType(labelType), reference), Filter(OfType(labelType), answer);
             Fits(reference, answer, ms) && Fits(refs, answers, alone)
    requires Filter(ReferenceOfType(labelType, reference), ms) == Map(move, alone)
    requires forall m :: m in alone ==> move(m).correct == m.correct
    ensures TallyFrom(labelType, reference, answer, ms) ==
            TallyFrom(labelType, Filter(OfType(labelType), reference), Filter(OfType(labelType), answer), alone)
  {
    var refs, answers := Filter(OfType(labelType), reference), Filter(OfType(labelType), answer);
    FilterAll(OfType(labelType), refs);
    FilterAll(OfType(labelType), answers);
    forall m | m in alone ensures ReferenceOfType(labelType, refs)(m) {
      assert refs[m.reference] in refs;
    }
    FilterAll(ReferenceOfType(labelType, refs), alone);
    FilterMap(move, IsCorrect, IsCorrect, alone);
    TallyFromConserves(labelType, reference, answer, ms);
    TallyFromConserves(labelType, refs, answers, alone);
  }

  // A type's count is the same whether its boxes are scored alone or among
  // all others.
  lemma TallyOfTypeAlone(score: Matcher, labelType: nat, reference: seq<Box>, answer: seq<Box>)
    requires Reliable(score)
    ensures TypeTally(score, labelType, reference, answer) ==
            TypeTally(score, labelType, Filter(OfType(labelType), reference), Filter(OfType(labelType), answer))
  {
    var own := OfType(labelType);
    var refs, answers := Filter(own, reference), Filter(own, answer);
    assert AloneAsAmongOthers(score, reference, answer, labelType);
    MovedTally(labelType, reference, answer, score(reference, answer), score(refs, answers),
               Relocate(Positions(own, reference), Positions(own, answer)));
  }

  // A type with no boxes counts nothing.
  lemma TallyOfAbsentType(score: Matcher, labelType: nat, reference: seq<Box>, answer: seq<Box>)
    requires Reliable(score)
    requires Filter(OfType(labelType), reference) == [] && Filter(OfType(labelType), answer) == []
    ensures TypeTally(score, labelType, reference, answer) == Nothing()
  {
    TallyConserves(score, labelType, reference, answer);
    Empty(TypeTally(score, labelType, reference, answer));
  }

  lemma Empty(t: Tally)
    requires Accounts(t, 0, 0)
    ensures t == Nothing()
  {
  }

  // ---- The counters

  type Counts = map<nat, Tally>

  // A type never counted has counted nothing.
  function Of(counts: Counts, labelType: nat): Tally {
    if labelType in counts then counts[labelType] else Nothing()
  }

  // One increment of one type's counters.
  datatype Bump = Bump(labelType: nat, inc: Tally)

  function Raise(counts: Counts, b: Bump): Counts {
    counts[b.labelType := Of(counts, b.labelType).Plus(b.inc)]
  }

  function Bumped(counts: Counts, bumps: seq<Bump>): Counts
    decreases |bumps|
  {
    if bumps == [] then counts else Bumped(Raise(counts, bumps[0]), bumps[1..])
  }

  function Hit(correct: bool): Tally {
    if correct then Tally(1, 1, 0, 0) else Tally(1, 0, 0, 0)
  }

  function MatchBump(reference: seq<Box>): GoldScore.Match -> Bump {
    (m: GoldScore.Match) =>
      Bump(if m.reference < |reference| then reference[m.reference].labelType else 0, Hit(m.correct))
  }

  function LeftBump(inc: Tally): Item<Box> -> Bump {
    (x: Item<Box>) => Bump(x.val.labelType, inc)
  }

  function Free(taken: seq<nat>): Item<Box> -> bool {
    (x: Item<Box>) => x.id !in taken
  }

  function Missed(): Tally {
    Tally(0, 0, 1, 0)
  }

  function Extra(): Tally {
    Tally(0, 0, 0, 1)
  }

  function LeftBumps(boxes: seq<Item<Box>>, taken: seq<nat>, inc: Tally): seq<Bump> {
    Map(LeftBump(inc), Filter(Free(taken), boxes))
  }

  // Every increment scoring one frame makes, in order.
  function FrameBumps(reference: seq<Box>, answer: seq<Box>, ms: seq<GoldScore.Match>): seq<Bump> {
    Map(MatchBump(reference), ms)
    + LeftBumps(Number(reference), Map(ReferenceEnd(), ms), Missed())
    + LeftBumps(Number(answer), Map(AnswerEnd(), ms), Extra())
  }

  class Tallies {
    var counts: Counts

    constructor ()
      ensures counts == map[]
    {
      counts := map[];
    }

    method Add(labelType: nat, inc: Tally)
      modifies this
      ensures counts == Bumped(old(counts), [Bump(labelType, inc)])
    {
      counts := counts[labelType := Of(counts, labelType).Plus(inc)];
    }

    method AddLeft(boxes: seq<Box>, matched: array<bool>, ghost taken: seq<nat>, inc: Tally)
      requires Marks(matched, |boxes|, Elements(taken))
      modifies this
      ensures counts == Bumped(old(counts), LeftBumps(Number(boxes), taken, inc))
    {
      ghost var items := Number(boxes);
      for i := 0 to |boxes|
        invariant Bumped(counts, LeftBumps(items[i..], taken, inc)) == Bumped(old(counts), LeftBumps(items, taken, inc))
      {
        LeftStep(items, i, taken, inc);
        if !matched[i] {
          Add(boxes[i].labelType, inc);
        }
      }
    }

    method AddMatches(reference: seq<Box>, ms: seq<GoldScore.Match>)
      requires forall k :: 0 <= k < |ms| ==> ms[k].reference < |reference|
      modifies this
      ensures counts == Bumped(old(counts), Map(MatchBump(reference), ms))
    {
      ghost var bumps := Map(MatchBump(reference), ms);
      for k := 0 to |ms|
        invariant Bumped(counts, bumps[k..]) == Bumped(old(counts), bumps)
      {
        BumpedStep(counts, bumps, k);
        Add(reference[ms[k].reference].labelType, Hit(ms[k].correct));
      }
      assert bumps[|ms|..] == [];
    }

    // Adds one frame's answer boxes, scored against its reference boxes.
    method Score(reference: seq<Box>, answer: seq<Box>)
      modifies this
      ensures counts == Bumped(old(counts), FrameBumps(reference, answer, TrialMatches(reference, answer)))
    {
      var ms := MatchTrial(reference, answer);
      FrameBumpsApart(counts, reference, answer, ms);
      var matchedRef := MarkMatched(|reference|, ReferenceEnd(), ms);
      var matchedAns := MarkMatched(|answer|, AnswerEnd(), ms);
      AddMatches(reference, ms);
      AddLeft(reference, matchedRef, Map(ReferenceEnd(), ms), Missed());
      AddLeft(answer, matchedAns, Map(AnswerEnd(), ms), Extra());
    }
  }

  method MatchTrial(reference: seq<Box>, answer: seq<Box>) returns (ms: seq<GoldScore.Match>)
    ensures ms == TrialMatches(reference, answer)
    ensures forall k :: 0 <= k < |ms| ==> ms[k].reference < |reference| && ms[k].answer < |answer|
  {
    var res := GoldScore.ScoreSetAttributes(reference, answer);
    ms := res.matches;
    TrialMatchesFit(reference, answer);
    assert forall k :: 0 <= k < |ms| ==> ms[k] in ms;
  }

  function Elements(s: seq<nat>): set<nat> {
    set x | x in s
  }

  method MarkMatched(n: nat, end: GoldScore.Match -> nat, ms: seq<GoldScore.Match>) returns (flags: array<bool>)
    requires forall k :: 0 <= k < |ms| ==> end(ms[k]) < n
    ensures fresh(flags) && Marks(flags, n, Elements(Map(end, ms)))
  {
    flags := new bool[n](_ => false);
    ghost var taken: set<nat> := {};
    for k := 0 to |ms|
      invariant Marks(flags, n, taken) && taken == Elements(Map(end, ms[..k]))
    {
      ElementsStep(end, ms, k);
      flags[end(ms[k])] := true;
      taken := taken + {end(ms[k])};
    }
    assert ms[..|ms|] == ms;
  }

  lemma ElementsStep(end: GoldScore.Match -> nat, ms: seq<GoldScore.Match>, k: nat)
    requires k < |ms|
    ensures Elements(Map(end, ms[..k+1])) == Elements(Map(end, ms[..k])) + {end(ms[k])}
  {
    assert Map(end, ms[..k+1]) == Map(end, ms[..k]) + [end(ms[k])];
  }

  // A slice of flags holding exactly the taken positions.
  ghost predicate Marks(flags: array<bool>, n: nat, taken: set<nat>)
    reads flags
  {
    flags.Length == n && forall i: nat :: i < flags.Length ==> flags[i] == (i in taken)
  }

  lemma BumpedStep(counts: Counts, bumps: seq<Bump>, k: nat)
    requires k < |bumps|
    ensures Bumped(counts, bumps[k..]) == Bumped(Bumped(counts, [bumps[k]]), bumps[k+1..])
  {
    assert bumps[k..] == [bumps[k]] + bumps[k+1..];
    BumpedAppend(counts, [bumps[k]], bumps[k+1..]);
  }

  lemma FrameBumpsApart(counts: Counts, reference: seq<Box>, answer: seq<Box>, ms: seq<GoldScore.Match>)
    ensures Bumped(counts, FrameBumps(reference, answer, ms)) ==
            Bumped(Bumped(Bumped(counts, Map(MatchBump(reference), ms)),
                          LeftBumps(Number(reference), Map(ReferenceEnd(), ms), Missed())),
                   LeftBumps(Number(answer), Map(AnswerEnd(), ms), Extra()))
  {
    var hits := Map(MatchBump(reference), ms);
    var misses := LeftBumps(Number(reference), Map(ReferenceEnd(), ms), Missed());
    BumpedAppend(counts, hits, misses);
    BumpedAppend(counts, hits + misses, LeftBumps(Number(answer), Map(AnswerEnd(), ms), Extra()));
  }

  lemma LeftStep(items: seq<Item<Box>>, i: nat, taken: seq<nat>, inc: Tally)
    requires i < |items|
    ensures LeftBumps(items[i..], taken, inc) ==
            (if items[i].id in taken then [] else [Bump(items[i].val.labelType, inc)])
            + LeftBumps(items[i+1..], taken, inc)
  {
    assert items[i..][0] == items[i] && items[i..][1..] == items[i+1..];
    MapCons(LeftBump(inc), items[i], Filter(Free(taken), items[i+1..]));
  }

  lemma {:induction false} BumpedAppend(counts: Counts, a: seq<Bump>, b: seq<Bump>)
    ensures Bumped(counts, a + b) == Bumped(Bumped(counts, a), b)
    decreases a
  {
    if a == [] {
      assert a + b == b;
    } else {
      assert (a + b)[0] == a[0] && (a + b)[1..] == a[1..] + b;
      BumpedAppend(Raise(counts, a[0]), a[1..], b);
    }
  }

  // ---- What the counters hold

  function SumFor(labelType: nat, bumps: seq<Bump>): Tally {
    if bumps == [] then Nothing()
    else if bumps[0].labelType == labelType then bumps[0].inc.Plus(SumFor(labelType, bumps[1..]))
    else SumFor(labelType, bumps[1..])
  }

  lemma PlusAssociative(s: Tally, t: Tally, u: Tally)
    ensures s.Plus(t).Plus(u) == s.Plus(t.Plus(u))
  {
  }

  lemma PlusNothing(s: Tally)
    ensures s.Plus(Nothing()) == s == Nothing().Plus(s)
  {
  }

  lemma RaiseOf(counts: Counts, b: Bump, labelType: nat)
    ensures Of(Raise(counts, b), labelType) ==
            if b.labelType == labelType then Of(counts, labelType).Plus(b.inc) else Of(counts, labelType)
  {
  }

  lemma {:induction false} BumpedOf(counts: Counts, bumps: seq<Bump>, labelType: nat)
    ensures Of(Bumped(counts, bumps), labelType) == Of(counts, labelType).Plus(SumFor(labelType, bumps))
    decreases |bumps|
  {
    if bumps == [] {
      PlusNothing(Of(counts, labelType));
    } else {
      var b := bumps[0];
      BumpedOf(Raise(counts, b), bumps[1..], labelType);
      RaiseOf(counts, b, labelType);
      if b.labelType == labelType {
        PlusAssociative(Of(counts, labelType), b.inc, SumFor(labelType, bumps[1..]));
      }
    }
  }

  lemma {:induction false} SumForAppend(labelType: nat, a: seq<Bump>, b: seq<Bump>)
    ensures SumFor(labelType, a + b) == SumFor(labelType, a).Plus(SumFor(labelType, b))
  {
    if a == [] {
      assert a + b == b;
      PlusNothing(SumFor(labelType, b));
    } else {
      assert (a + b)[0] == a[0] && (a + b)[1..] == a[1..] + b;
      SumForAppend(labelType, a[1..], b);
      PlusAssociative(a[0].inc, SumFor(labelType, a[1..]), SumFor(labelType, b));
    }
  }

  lemma {:induction false} SumOfMatches(labelType: nat, reference: seq<Box>, ms: seq<GoldScore.Match>)
    requires forall m :: m in ms ==> m.reference < |reference|
    ensures SumFor(labelType, Map(MatchBump(reference), ms)) == MatchTally(labelType, reference, ms)
  {
    if ms != [] {
      assert ms[0] in ms;
      MapStep(MatchBump(reference), ms);
      SumOfMatches(labelType, reference, ms[1..]);
    }
  }

  function Times(inc: Tally, n: nat): Tally {
    Tally(inc.matched * n, inc.correct * n, inc.missed * n, inc.extra * n)
  }

  lemma {:induction false} SumOfLeft(labelType: nat, items: seq<Item<Box>>, taken: seq<nat>, inc: Tally)
    ensures SumFor(labelType, LeftBumps(items, taken, inc)) == Times(inc, |LeftAt(labelType, items, taken)|)
  {
    if items != [] {
      SumOfLeft(labelType, items[1..], taken, inc);
      LeftStep(items, 0, taken, inc);
      assert items[0..] == items;
      LeftAtStep(labelType, items, taken);
      if items[0].id in taken {
      } else {
        assert LeftBumps(items, taken, inc)[1..] == LeftBumps(items[1..], taken, inc);
        TimesStep(inc, |LeftAt(labelType, items[1..], taken)|);
      }
    }
  }

  lemma TimesStep(inc: Tally, n: nat)
    ensures Times(inc, n + 1) == inc.Plus(Times(inc, n)) && Times(inc, 0) == Nothing()
  {
  }

  function LeftAt(labelType: nat, items: seq<Item<Box>>, taken: seq<nat>): seq<nat> {
    Filter(NotIn(taken), Map(Id(), Filter(OnVal(OfType(labelType)), items)))
  }

  lemma LeftAtStep(labelType: nat, items: seq<Item<Box>>, taken: seq<nat>)
    requires items != []
    ensures LeftAt(labelType, items, taken) ==
            (if items[0].id !in taken && items[0].val.labelType == labelType then [items[0].id] else [])
            + LeftAt(labelType, items[1..], taken)
  {
    var own := Filter(OnVal(OfType(labelType)), items[1..]);
    MapCons(Id(), items[0], own);
    assert ([items[0].id] + Map(Id(), own))[1..] == Map(Id(), own);
  }

  // Scoring a frame adds exactly its tally to every type's count.
  lemma FrameBumpsTally(score: Matcher, labelType: nat, counts: Counts, reference: seq<Box>, answer: seq<Box>)
    requires Reliable(score)
    ensures Of(Bumped(counts, FrameBumps(reference, answer, score(reference, answer))), labelType) ==
            Of(counts, labelType).Plus(TypeTally(score, labelType, reference, answer))
  {
    var ms := score(reference, answer);
    FrameSum(labelType, reference, answer, ms);
    BumpedOf(counts, FrameBumps(reference, answer, ms), labelType);
  }

  lemma FrameSum(labelType: nat, reference: seq<Box>, answer: seq<Box>, ms: seq<GoldScore.Match>)
    requires Fits(reference, answer, ms)
    ensures SumFor(labelType, FrameBumps(reference, answer, ms)) == TallyFrom(labelType, reference, answer, ms)
  {
    var hits := Map(MatchBump(reference), ms);
    var misses := LeftBumps(Number(reference), Map(ReferenceEnd(), ms), Missed());
    var extras := LeftBumps(Number(answer), Map(AnswerEnd(), ms), Extra());
    SumForAppend(labelType, hits + misses, extras);
    SumForAppend(labelType, hits, misses);
    SumOfMatches(labelType, reference, ms);
    SumOfLeft(labelType, Number(reference), Map(ReferenceEnd(), ms), Missed());
    SumOfLeft(labelType, Number(answer), Map(AnswerEnd(), ms), Extra());
  }
}
