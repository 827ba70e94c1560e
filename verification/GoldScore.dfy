// Scoring a labeler's or a model's boxes against reference boxes.
module GoldScore {
  import opened Sequences
  import opened StableSorting
  import opened GreedyMatching
  import opened MatchingParts
  import opened MatchingOrder
  import opened Geometry

  // A reference box and an answer box of one type pair up from here.
  const MATCH_IOU: real := 0.5
  // A matched box counts as correct from here.
  const CORRECT_IOU: real := 0.75

  type Attributes = map<string, string>

  datatype Box = Box(labelType: nat, attributes: Attributes, rect: Rect)

  datatype Match = Match(reference: nat, answer: nat, iou: real, correct: bool)

  datatype Result = Result(matches: seq<Match>, correct: nat, iouSum: real, score: real)

  // How the attributes of a matched pair, reference first, must agree.
  type AttributeRule = (Attributes, Attributes) -> bool

  predicate SameAttributes(ref: Attributes, ans: Attributes) {
    ref == ans
  }

  predicate SetAttributesAgree(ref: Attributes, ans: Attributes) {
    forall k :: k in ref && ref[k] != "" ==> k in ans && ans[k] == ref[k]
  }

  function PairWeight(r: Box, a: Box): Option<real> {
    if r.labelType != a.labelType then None
    else if Iou(r.rect, a.rect) >= MATCH_IOU then Some(Iou(r.rect, a.rect))
    else None
  }

  function Pairing(reference: seq<Box>, answer: seq<Box>): seq<Edge> {
    GreedyMatching.Match(PairWeight, reference, answer)
  }

  function Judge(reference: seq<Box>, answer: seq<Box>, same: AttributeRule): Edge -> Match {
    (e: Edge) => Match(e.left, e.right, e.weight,
                       e.weight >= CORRECT_IOU && e.left < |reference| && e.right < |answer|
                       && same(reference[e.left].attributes, answer[e.right].attributes))
  }

  predicate IsCorrect(m: Match) {
    m.correct
  }

  function Weight(e: Edge): real {
    e.weight
  }

  function One(e: Edge): real {
    1.0
  }

  function MatchesFor(reference: seq<Box>, answer: seq<Box>, same: AttributeRule): seq<Match> {
    Map(Judge(reference, answer, same), Pairing(reference, answer))
  }

  // Correct boxes over all boxes that had to be right.
  function Share(correct: nat, scored: nat): (r: real)
    requires correct <= scored
    ensures 0.0 <= r <= 1.0 && (r == 1.0 <==> correct == scored)
  {
    if scored == 0 then 1.0
    else
      assert correct as real / scored as real * scored as real == correct as real;
      correct as real / scored as real
  }

  lemma PairingFits(reference: seq<Box>, answer: seq<Box>)
    ensures |Pairing(reference, answer)| <= |reference|
    ensures |Pairing(reference, answer)| <= |answer|
  {
    var edges := Pairing(reference, answer);
    PairingIsStable(reference, answer);
    OneToOneEnds(edges);
    EndsFit(edges, Left(), |reference|);
    EndsFit(edges, Right(), |answer|);
  }

  // What score returns.
  function Outcome(reference: seq<Box>, answer: seq<Box>, same: AttributeRule): Result {
    var matches := MatchesFor(reference, answer, same);
    var correct := |Filter(IsCorrect, matches)|;
    PairingFits(reference, answer);
    Result(matches, correct, Total(Weight, Pairing(reference, answer)),
           Share(correct, |reference| + |answer| - |matches|))
  }

  method CollectRow(i: nat, r: Box, answer: seq<Box>, pairs: seq<Edge>) returns (more: seq<Edge>)
    ensures more == pairs + Row(PairWeight, Item(i, r), Number(answer))
  {
    more := pairs;
    ghost var rs := Number(answer);
    for j := 0 to |answer|
      invariant more + Row(PairWeight, Item(i, r), rs[j..]) == pairs + Row(PairWeight, Item(i, r), rs)
    {
      var a := answer[j];
      assert rs[j..][0] == Item(j, a) && rs[j..][1..] == rs[j+1..];
      if r.labelType != a.labelType {
        continue;
      }
      var v := Iou(r.rect, a.rect);
      if v >= MATCH_IOU {
        more := more + [Edge(i, j, v)];
      }
    }
  }

  method CollectPairs(reference: seq<Box>, answer: seq<Box>) returns (pairs: seq<Edge>)
    ensures pairs == Candidates(PairWeight, Number(reference), Number(answer))
  {
    pairs := [];
    ghost var ls, rs := Number(reference), Number(answer);
    for i := 0 to |reference|
      invariant pairs + Candidates(PairWeight, ls[i..], rs) == Candidates(PairWeight, ls, rs)
    {
      CandidatesStep(PairWeight, ls, rs, i, pairs);
      pairs := CollectRow(i, reference[i], answer, pairs);
    }
  }

  // What the scan has built from the pairs it picked.
  ghost predicate Progress(reference: seq<Box>, answer: seq<Box>, same: AttributeRule, picked: seq<Edge>,
                           matches: seq<Match>, correct: nat, iouSum: real)
  {
    && matches == Map(Judge(reference, answer, same), picked)
    && correct == |Filter(IsCorrect, matches)|
    && iouSum == Total(Weight, picked)
  }

  lemma ProgressStep(reference: seq<Box>, answer: seq<Box>, same: AttributeRule, picked: seq<Edge>,
                     matches: seq<Match>, correct: nat, iouSum: real, p: Edge)
    requires Progress(reference, answer, same, picked, matches, correct, iouSum)
    ensures var m := Judge(reference, answer, same)(p);
            Progress(reference, answer, same, picked + [p], matches + [m],
                     correct + (if m.correct then 1 else 0), iouSum + p.weight)
  {
    var m := Judge(reference, answer, same)(p);
    FilterAppend(IsCorrect, matches, [m]);
    TotalAppend(Weight, picked, [p]);
  }

  method TakePairs(reference: seq<Box>, answer: seq<Box>, same: AttributeRule, pairs: seq<Edge>)
    returns (matches: seq<Match>, correct: nat, iouSum: real)
    requires forall k :: 0 <= k < |pairs| ==> pairs[k].left < |reference| && pairs[k].right < |answer|
    ensures Progress(reference, answer, same, Pick(pairs, {}, {}), matches, correct, iouSum)
  {
    var usedRef, usedAns := new bool[|reference|](_ => false), new bool[|answer|](_ => false);
    matches, correct, iouSum := [], 0, 0.0;
    ghost var usedL: set<nat>, usedR: set<nat>, picked: seq<Edge> := {}, {}, [];
    for k := 0 to |pairs|
      invariant Scanning(pairs, k, usedL, usedR, picked)
      invariant usedRef.Length == |reference| && usedAns.Length == |answer|
      invariant forall i: nat :: i < usedRef.Length ==> usedRef[i] == (i in usedL)
      invariant forall j: nat :: j < usedAns.Length ==> usedAns[j] == (j in usedR)
      invariant Progress(reference, answer, same, picked, matches, correct, iouSum)
    {
      var p := pairs[k];
      ScanStep(pairs, k, usedL, usedR, picked);
      if usedRef[p.left] || usedAns[p.right] {
        continue;
      }
      usedRef[p.left], usedAns[p.right] := true, true;
      var m := Match(p.left, p.right, p.weight,
                     p.weight >= CORRECT_IOU && same(reference[p.left].attributes, answer[p.right].attributes));
      ProgressStep(reference, answer, same, picked, matches, correct, iouSum, p);
      if m.correct {
        correct := correct + 1;
      }
      iouSum := iouSum + p.weight;
      matches := matches + [m];
      usedL, usedR, picked := usedL + {p.left}, usedR + {p.right}, picked + [p];
    }
    assert pairs[|pairs|..] == [];
    assert picked == Pick(pairs, {}, {});
  }

  lemma OutcomeOfPicked(reference: seq<Box>, answer: seq<Box>, same: AttributeRule,
                        matches: seq<Match>, correct: nat, iouSum: real)
    requires Progress(reference, answer, same, Pairing(reference, answer), matches, correct, iouSum)
    ensures var scored := |reference| + |answer| - |matches|;
            && correct <= scored
            && Outcome(reference, answer, same) == Result(matches, correct, iouSum, Share(correct, scored))
  {
    PairingFits(reference, answer);
  }

  lemma CandidatesFit(reference: seq<Box>, answer: seq<Box>)
    ensures var all := Candidates(PairWeight, Number(reference), Number(answer));
            forall e :: e in StableSort(Heavier, all) ==> e.left < |reference| && e.right < |answer|
  {
    forall e | e in Candidates(PairWeight, Number(reference), Number(answer))
      ensures e.left < |reference| && e.right < |answer|
    {
      CandidatesOfLists(PairWeight, reference, answer, e);
    }
  }

  // What is matched and how it is scored, and no other matches would do.
  method Score(reference: seq<Box>, answer: seq<Box>, same: AttributeRule) returns (out: Result)
    ensures out == Outcome(reference, answer, same)
    ensures forall ms :: Matched(reference, answer, same, ms) <==> ms == out.matches
    ensures Scored(reference, answer, out)
  {
    OutcomeIsScored(reference, answer, same);
    forall ms ensures Matched(reference, answer, same, ms) <==> ms == Outcome(reference, answer, same).matches {
      MatchedIff(reference, answer, same, ms);
    }
    var pairs := CollectPairs(reference, answer);
    CandidatesFit(reference, answer);
    pairs := StableSort(Heavier, pairs);
    var matches, correct, iouSum := TakePairs(reference, answer, same, pairs);
    OutcomeOfPicked(reference, answer, same, matches, correct, iouSum);
    out := Result(matches, correct, iouSum, Share(correct, |reference| + |answer| - |matches|));
  }

  // A labeler's answer has to carry exactly the reference's attributes.
  method ScoreSame(reference: seq<Box>, answer: seq<Box>) returns (out: Result)
    ensures out == Outcome(reference, answer, SameAttributes)
  {
    out := Score(reference, answer, SameAttributes);
  }

  // A model's has to agree only on those the reference sets.
  method ScoreSetAttributes(reference: seq<Box>, answer: seq<Box>) returns (out: Result)
    ensures out == Outcome(reference, answer, SetAttributesAgree)
  {
    out := Score(reference, answer, SetAttributesAgree);
  }

  lemma {:induction false} CorrectGrows(f: Edge -> Match, g: Edge -> Match, edges: seq<Edge>)
    requires forall e :: f(e).correct ==> g(e).correct
    ensures |Filter(IsCorrect, Map(f, edges))| <= |Filter(IsCorrect, Map(g, edges))|
  {
    if edges != [] {
      MapStep(f, edges);
      MapStep(g, edges);
      CorrectGrows(f, g, edges[1..]);
    }
  }

  lemma JudgeIsLenient(reference: seq<Box>, answer: seq<Box>)
    ensures forall e :: Judge(reference, answer, SameAttributes)(e).correct ==>
                        Judge(reference, answer, SetAttributesAgree)(e).correct
  {
    forall e | Judge(reference, answer, SameAttributes)(e).correct
      ensures Judge(reference, answer, SetAttributesAgree)(e).correct
    {
      SameIsLenient(reference[e.left].attributes, answer[e.right].attributes);
    }
  }

  lemma SameIsLenient(ref: Attributes, ans: Attributes)
    ensures SameAttributes(ref, ans) ==> SetAttributesAgree(ref, ans)
  {
  }

  // Attributes are the same when they have the same values under the same
  // names.
  lemma SameAttributesTell(ref: Attributes, ans: Attributes)
    ensures SameAttributes(ref, ans) <==> ref.Items <= ans.Items && ans.Items <= ref.Items
  {
    if ref.Items == ans.Items {
      forall k | k in ref || k in ans ensures k in ref && k in ans && ref[k] == ans[k] {
        assert k in ref ==> (k, ref[k]) in ans.Items;
        assert k in ans ==> (k, ans[k]) in ref.Items;
      }
      assert ref == ans;
    }
  }

  // Laying the attributes the reference sets over the answer's changes none.
  lemma SetAttributesTell(ref: Attributes, ans: Attributes)
    ensures SetAttributesAgree(ref, ans) <==> ans + (map k | k in ref && |ref[k]| > 0 :: ref[k]) == ans
  {
    var laid := ans + (map k | k in ref && |ref[k]| > 0 :: ref[k]);
    if laid == ans {
      forall k | k in ref && ref[k] != "" ensures k in ans && ans[k] == ref[k] {
        assert laid[k] == ref[k];
      }
    }
  }

  function CorrectOf(reference: seq<Box>, answer: seq<Box>, same: AttributeRule): nat {
    |Filter(IsCorrect, MatchesFor(reference, answer, same))|
  }

  lemma CorrectIsLenient(reference: seq<Box>, answer: seq<Box>)
    ensures CorrectOf(reference, answer, SameAttributes) <= CorrectOf(reference, answer, SetAttributesAgree)
  {
    JudgeIsLenient(reference, answer);
    CorrectGrows(Judge(reference, answer, SameAttributes), Judge(reference, answer, SetAttributesAgree),
                 Pairing(reference, answer));
  }

  // Both rules match the same pairs, and the second never scores lower.
  lemma SetAttributesIsLenient(reference: seq<Box>, answer: seq<Box>)
    ensures NoLower(Outcome(reference, answer, SameAttributes), Outcome(reference, answer, SetAttributesAgree))
  {
    var matched, boxes := |Pairing(reference, answer)|, |reference| + |answer|;
    var sum := Total(Weight, Pairing(reference, answer));
    CorrectIsLenient(reference, answer);
    OutcomeParts(reference, answer, SameAttributes);
    OutcomeParts(reference, answer, SetAttributesAgree);
    ScoresGrow(Outcome(reference, answer, SameAttributes), Outcome(reference, answer, SetAttributesAgree),
               matched, boxes - matched, sum,
               CorrectOf(reference, answer, SameAttributes), CorrectOf(reference, answer, SetAttributesAgree));
  }

  // The same matches, and no fewer of them correct.
  predicate NoLower(strict: Result, lenient: Result) {
    && |strict.matches| == |lenient.matches| && strict.iouSum == lenient.iouSum
    && strict.correct <= lenient.correct && strict.score <= lenient.score
  }

  predicate HasParts(out: Result, matched: int, scored: int, sum: real, correct: nat) {
    && |out.matches| == matched && out.iouSum == sum && out.correct == correct <= scored
    && out.score == Share(correct, scored)
  }

  lemma ScoresGrow(strict: Result, lenient: Result, matched: int, scored: int, sum: real, fewer: nat, more: nat)
    requires fewer <= more
    requires HasParts(strict, matched, scored, sum, fewer) && HasParts(lenient, matched, scored, sum, more)
    ensures NoLower(strict, lenient)
  {
    ShareGrows(fewer, more, scored);
  }

  lemma OutcomeParts(reference: seq<Box>, answer: seq<Box>, same: AttributeRule)
    ensures HasParts(Outcome(reference, answer, same), |Pairing(reference, answer)|,
                     |reference| + |answer| - |Pairing(reference, answer)|,
                     Total(Weight, Pairing(reference, answer)), CorrectOf(reference, answer, same))
  {
    PairingFits(reference, answer);
  }

  lemma ShareGrows(a: nat, b: nat, scored: nat)
    requires a <= b <= scored
    ensures Share(a, scored) <= Share(b, scored)
  {
    if scored != 0 {
      assert a as real / scored as real <= b as real / scored as real;
    }
  }

  // ---- What the matching promises

  // A pair score may match: same type, overlapping enough.
  ghost predicate Eligible(reference: seq<Box>, answer: seq<Box>, e: Edge) {
    && e.left < |reference| && e.right < |answer|
    && reference[e.left].labelType == answer[e.right].labelType
    && e.weight == Iou(reference[e.left].rect, answer[e.right].rect) >= MATCH_IOU
  }

  lemma PairingIsStable(reference: seq<Box>, answer: seq<Box>)
    ensures var edges := Pairing(reference, answer);
            && OneToOne(edges)
            && (forall e :: e in edges ==> Eligible(reference, answer, e))
            && (forall e :: Eligible(reference, answer, e) ==>
                  exists g :: g in edges && Conflict(g, e) && g.weight >= e.weight)
  {
    var all := Candidates(PairWeight, Number(reference), Number(answer));
    GreedyStable(all);
    forall e ensures e in all <==> Eligible(reference, answer, e) {
      EligibleIff(reference, answer, e);
    }
  }

  lemma EligibleIff(reference: seq<Box>, answer: seq<Box>, e: Edge)
    ensures e in Candidates(PairWeight, Number(reference), Number(answer)) <==> Eligible(reference, answer, e)
  {
    CandidatesOfLists(PairWeight, reference, answer, e);
  }

  lemma {:induction false} TotalOnes(edges: seq<Edge>)
    ensures Total(One, edges) == |edges| as real
  {
    if edges != [] {
      TotalOnes(edges[1..]);
    }
  }

  // Half of the total overlap and half of the match count of any one-to-one
  // choice of eligible pairs are always reached.
  lemma ScoreIsHalfOptimal(reference: seq<Box>, answer: seq<Box>, same: AttributeRule, m: seq<Edge>)
    requires OneToOne(m) && forall e :: e in m ==> Eligible(reference, answer, e)
    ensures Total(Weight, m) <= 2.0 * Outcome(reference, answer, same).iouSum
    ensures |m| <= 2 * |Outcome(reference, answer, same).matches|
  {
    var all := Candidates(PairWeight, Number(reference), Number(answer));
    forall e | e in all + m ensures e in all && e.weight >= 0.0 {
      CandidatesOfLists(PairWeight, reference, answer, e);
    }
    GreedyIsHalfOptimal(Weight, all, m);
    GreedyIsHalfOptimal(One, all, m);
    TotalOnes(m);
    TotalOnes(Pairing(reference, answer));
  }

  // The score is a fraction, and full marks mean nothing was missed, added or
  // wrong.
  lemma ScoreIsFraction(reference: seq<Box>, answer: seq<Box>, same: AttributeRule)
    ensures var out := Outcome(reference, answer, same);
            && 0.0 <= out.score <= 1.0
            && (out.score == 1.0 <==> |reference| == |answer| == |out.matches| == out.correct)
            && |out.matches| <= |reference| && |out.matches| <= |answer|
  {
    PairingFits(reference, answer);
  }

  // ---- What the matches are

  predicate MayMatch(reference: seq<Box>, answer: seq<Box>, r: nat, a: nat) {
    && r < |reference| && a < |answer| && reference[r].labelType == answer[a].labelType
    && Iou(reference[r].rect, answer[a].rect) >= MATCH_IOU
  }

  // A pair that may match, with its overlap and verdict.
  predicate Judged(reference: seq<Box>, answer: seq<Box>, same: AttributeRule, m: Match) {
    && MayMatch(reference, answer, m.reference, m.answer)
    && m.iou == Iou(reference[m.reference].rect, answer[m.answer].rect)
    && (m.correct <==>
          m.iou >= CORRECT_IOU && same(reference[m.reference].attributes, answer[m.answer].attributes))
  }

  // Larger overlaps first, then in the order of the reference and the answer.
  predicate Ahead(m: Match, n: Match) {
    m.iou > n.iou || (m.iou == n.iou && (m.reference < n.reference
                                         || (m.reference == n.reference && m.answer < n.answer)))
  }

  predicate SharesBox(m: Match, n: Match) {
    m.reference == n.reference || m.answer == n.answer
  }

  // The pair is matched, or one of its boxes is with another that is ahead.
  ghost predicate Decided(reference: seq<Box>, answer: seq<Box>, matches: seq<Match>, r: nat, a: nat)
    requires MayMatch(reference, answer, r, a)
  {
    exists m :: m in matches && (m.reference == r || m.answer == a) &&
      ((m.reference == r && m.answer == a) || Ahead(m, Match(r, a, Iou(reference[r].rect, answer[a].rect), false)))
  }

  ghost predicate Matched(reference: seq<Box>, answer: seq<Box>, same: AttributeRule, matches: seq<Match>) {
    && (forall m :: m in matches ==> Judged(reference, answer, same, m))
    && (forall i, j :: 0 <= i < j < |matches| ==> Ahead(matches[i], matches[j]) && !SharesBox(matches[i], matches[j]))
    && (forall r: nat, a: nat :: MayMatch(reference, answer, r, a) ==> Decided(reference, answer, matches, r, a))
  }

  function Itself(): nat -> nat {
    (n: nat) => n
  }

  function EdgeOf(): Match -> Edge {
    (m: Match) => Edge(m.reference, m.answer, m.iou)
  }

  lemma PairsRise(reference: seq<Box>, answer: seq<Box>)
    ensures Pairwise(Earlier(Itself()), Candidates(PairWeight, Number(reference), Number(answer)))
  {
    CandidatesRise(PairWeight, Number(reference), Number(answer), Itself());
  }

  lemma AheadIsPreferred(m: Match, n: Match)
    ensures Ahead(m, n) <==> Preferred(Itself())(EdgeOf()(m), EdgeOf()(n))
  {
    PreferredIff(Itself(), EdgeOf()(m), EdgeOf()(n));
  }

  // Matches and the pairs they are of say the same.
  lemma DecidedIsBlocked(reference: seq<Box>, answer: seq<Box>, matches: seq<Match>, e: Edge)
    requires Eligible(reference, answer, e)
    requires forall m :: m in matches ==> Eligible(reference, answer, EdgeOf()(m))
    ensures Decided(reference, answer, matches, e.left, e.right) <==>
            Blocked(Preferred(Itself()), Map(EdgeOf(), matches), e)
  {
    var first, edges, n := Preferred(Itself()), Map(EdgeOf(), matches), Match(e.left, e.right, e.weight, false);
    forall m ensures Ahead(m, n) <==> first(EdgeOf()(m), e) {
      AheadIsPreferred(m, n);
    }
    if Decided(reference, answer, matches, e.left, e.right) {
      var m :| m in matches && (m.reference == e.left || m.answer == e.right) &&
               ((m.reference == e.left && m.answer == e.right) || Ahead(m, n));
      var k :| 0 <= k < |matches| && matches[k] == m;
      assert edges[k] == EdgeOf()(m);
    }
    if Blocked(first, edges, e) {
      var g :| g in edges && Conflict(g, e) && (g == e || first(g, e));
      var k :| 0 <= k < |edges| && edges[k] == g;
      assert matches[k] in matches && EdgeOf()(matches[k]) == g;
    }
  }

  lemma MatchedInTurn(reference: seq<Box>, answer: seq<Box>, same: AttributeRule, matches: seq<Match>)
    requires forall m :: m in matches ==> Judged(reference, answer, same, m)
    ensures Matched(reference, answer, same, matches) <==>
            InTurn(Preferred(Itself()), Candidates(PairWeight, Number(reference), Number(answer)),
                   Map(EdgeOf(), matches))
  {
    var all, edges := Candidates(PairWeight, Number(reference), Number(answer)), Map(EdgeOf(), matches);
    forall e ensures e in all <==> Eligible(reference, answer, e) {
      EligibleIff(reference, answer, e);
    }
    forall e | e in edges ensures e in all {
      var k :| 0 <= k < |edges| && edges[k] == e;
      assert matches[k] in matches;
    }
    forall e | e in all
      ensures Decided(reference, answer, matches, e.left, e.right) <==> Blocked(Preferred(Itself()), edges, e)
    {
      DecidedIsBlocked(reference, answer, matches, e);
    }
    forall r: nat, a: nat | MayMatch(reference, answer, r, a)
      ensures Edge(r, a, Iou(reference[r].rect, answer[a].rect)) in all
    {
    }
    OrderedAlike(matches);
  }

  lemma OrderedAlike(matches: seq<Match>)
    ensures (forall i, j :: 0 <= i < j < |matches| ==> Ahead(matches[i], matches[j])) <==>
            Pairwise(Preferred(Itself()), Map(EdgeOf(), matches))
    ensures (forall i, j :: 0 <= i < j < |matches| ==> !SharesBox(matches[i], matches[j])) <==>
            OneToOne(Map(EdgeOf(), matches))
  {
    var edges := Map(EdgeOf(), matches);
    forall i, j | 0 <= i < j < |matches|
      ensures Ahead(matches[i], matches[j]) <==> Preferred(Itself())(edges[i], edges[j])
      ensures SharesBox(matches[i], matches[j]) <==> Conflict(edges[i], edges[j])
    {
      AheadIsPreferred(matches[i], matches[j]);
    }
  }

  lemma JudgeOfPair(reference: seq<Box>, answer: seq<Box>, same: AttributeRule)
    ensures forall m :: Judged(reference, answer, same, m) <==>
                        Eligible(reference, answer, EdgeOf()(m)) && Judge(reference, answer, same)(EdgeOf()(m)) == m
  {
  }

  // The matches are the one list that takes the best pair that may match, and
  // then the best of those left over.
  lemma MatchedIff(reference: seq<Box>, answer: seq<Box>, same: AttributeRule, matches: seq<Match>)
    ensures Matched(reference, answer, same, matches) <==> matches == MatchesFor(reference, answer, same)
  {
    var all, pairing := Candidates(PairWeight, Number(reference), Number(answer)), Pairing(reference, answer);
    PairsRise(reference, answer);
    JudgeOfPair(reference, answer, same);
    PreferredIsStrict(Itself());
    if Matched(reference, answer, same, matches) {
      MatchedInTurn(reference, answer, same, matches);
      InTurnIsGreedy(Earlier(Itself()), all, Map(EdgeOf(), matches));
      forall k | 0 <= k < |matches| ensures matches[k] == Judge(reference, answer, same)(pairing[k]) {
        assert matches[k] in matches;
      }
      assert matches == MatchesFor(reference, answer, same);
    }
    MatchesAreMatched(reference, answer, same);
  }

  lemma JudgedPairs(reference: seq<Box>, answer: seq<Box>, same: AttributeRule, pairs: seq<Edge>)
    requires forall e :: e in pairs ==> Eligible(reference, answer, e)
    ensures var ms := Map(Judge(reference, answer, same), pairs);
            Map(EdgeOf(), ms) == pairs && forall m :: m in ms ==> Judged(reference, answer, same, m)
  {
    var ms := Map(Judge(reference, answer, same), pairs);
    forall k | 0 <= k < |ms| ensures EdgeOf()(ms[k]) == pairs[k] && Judged(reference, answer, same, ms[k]) {
      assert pairs[k] in pairs;
    }
    assert Map(EdgeOf(), ms) == pairs;
  }

  lemma MatchesAreMatched(reference: seq<Box>, answer: seq<Box>, same: AttributeRule)
    ensures Matched(reference, answer, same, MatchesFor(reference, answer, same))
  {
    PairsRise(reference, answer);
    PairingIsStable(reference, answer);
    GreedyInTurn(Earlier(Itself()), Candidates(PairWeight, Number(reference), Number(answer)));
    JudgedPairs(reference, answer, same, Pairing(reference, answer));
    MatchedInTurn(reference, answer, same, MatchesFor(reference, answer, same));
  }

  // ---- What the score is

  function SumOfIous(matches: seq<Match>): real {
    if matches == [] then 0.0 else SumOfIous(matches[..|matches|-1]) + matches[|matches|-1].iou
  }

  function BoxesOf(reference: seq<Box>, answer: seq<Box>, out: Result): int {
    |reference| + |answer| - |out.matches|
  }

  // How many matches are correct, their overlaps together, and the correct
  // ones' share of all boxes, with matched ones counted once.
  ghost predicate Scored(reference: seq<Box>, answer: seq<Box>, out: Result) {
    && out.correct == |CorrectOnes(out.matches)|
    && out.iouSum == SumOfIous(out.matches)
    && IsFraction(out.score, out.correct, BoxesOf(reference, answer, out))
  }

  ghost function CorrectOnes(matches: seq<Match>): set<nat> {
    set k: nat | k < |matches| && matches[k].correct
  }

  lemma CorrectAre(matches: seq<Match>)
    ensures |Filter(IsCorrect, matches)| == |CorrectOnes(matches)|
  {
    FilterCounts(IsCorrect, matches);
    assert Places(IsCorrect, matches) == CorrectOnes(matches);
  }

  lemma {:induction false} SumOfJudged(judge: Edge -> Match, edges: seq<Edge>)
    requires forall e :: e in edges ==> judge(e).iou == e.weight
    ensures Total(Weight, edges) == SumOfIous(Map(judge, edges))
  {
    if edges != [] {
      var n := |edges| - 1;
      SumOfJudged(judge, edges[..n]);
      assert edges == edges[..n] + [edges[n]];
      TotalAppend(Weight, edges[..n], [edges[n]]);
      TotalOne(edges[n]);
      assert Map(judge, edges)[..n] == Map(judge, edges[..n]);
    }
  }

  lemma TotalOne(e: Edge)
    ensures Total(Weight, [e]) == e.weight
  {
    assert Total(Weight, [e][1..]) == 0.0;
  }

  predicate IsFraction(score: real, correct: int, scored: int) {
    score * scored as real == correct as real && (scored == 0 ==> score == 1.0)
  }

  lemma PartsAreFraction(out: Result, matched: int, scored: int, sum: real, correct: nat)
    requires HasParts(out, matched, scored, sum, correct)
    ensures IsFraction(out.score, out.correct, scored)
  {
  }

  lemma PartsAreScored(out: Result, judge: Edge -> Match, pairs: seq<Edge>)
    requires out.matches == Map(judge, pairs) && forall e :: e in pairs ==> judge(e).iou == e.weight
    requires out.iouSum == Total(Weight, pairs) && out.correct == |Filter(IsCorrect, out.matches)|
    ensures out.correct == |CorrectOnes(out.matches)| && out.iouSum == SumOfIous(out.matches)
  {
    CorrectAre(out.matches);
    SumOfJudged(judge, pairs);
  }

  lemma PartsMakeScored(reference: seq<Box>, answer: seq<Box>, out: Result, judge: Edge -> Match, pairs: seq<Edge>)
    requires out.matches == Map(judge, pairs) && forall e :: e in pairs ==> judge(e).iou == e.weight
    requires HasParts(out, |pairs|, BoxesOf(reference, answer, out), Total(Weight, pairs),
                      |Filter(IsCorrect, out.matches)|)
    ensures Scored(reference, answer, out)
  {
    PartsAreScored(out, judge, pairs);
    PartsAreFraction(out, |pairs|, BoxesOf(reference, answer, out), Total(Weight, pairs), out.correct);
  }

  lemma OutcomeIsScored(reference: seq<Box>, answer: seq<Box>, same: AttributeRule)
    ensures Scored(reference, answer, Outcome(reference, answer, same))
  {
    OutcomeParts(reference, answer, same);
    PartsMakeScored(reference, answer, Outcome(reference, answer, same), Judge(reference, answer, same),
                    Pairing(reference, answer));
  }

  // ---- One type at a time

  function OfType(labelType: nat): Box -> bool {
    (b: Box) => b.labelType == labelType
  }

  function ReferenceOfType(labelType: nat, reference: seq<Box>): Match -> bool {
    (m: Match) => m.reference < |reference| && reference[m.reference].labelType == labelType
  }

  // The match at the boxes' positions in the longer lists.
  function Relocate(refAt: seq<nat>, ansAt: seq<nat>): Match -> Match {
    (m: Match) => Match(At(refAt)(m.reference), At(ansAt)(m.answer), m.iou, m.correct)
  }

  // Scoring only one type's boxes gives exactly the matches, correct or not,
  // that scoring all boxes gives for the type.
  lemma MatchesOfType(reference: seq<Box>, answer: seq<Box>, same: AttributeRule, labelType: nat)
    ensures var own := OfType(labelType);
            Filter(ReferenceOfType(labelType, reference), MatchesFor(reference, answer, same)) ==
            Map(Relocate(Positions(own, reference), Positions(own, answer)),
                MatchesFor(Filter(own, reference), Filter(own, answer), same))
  {
    var own := OfType(labelType);
    MatchOfParts(PairWeight, reference, answer, own, own);
    FilterMap(Judge(reference, answer, same), ReferenceOfType(labelType, reference), FromKept(own, reference),
              Pairing(reference, answer));
    var refs, answers := Filter(own, reference), Filter(own, answer);
    PairingIsStable(refs, answers);
    JudgeAtPositions(reference, answer, same, own, Pairing(refs, answers));
  }

  lemma JudgeAtPositions(reference: seq<Box>, answer: seq<Box>, same: AttributeRule, own: Box -> bool, part: seq<Edge>)
    requires forall e :: e in part ==> e.left < |Filter(own, reference)| && e.right < |Filter(own, answer)|
    ensures var refAt, ansAt := Positions(own, reference), Positions(own, answer);
            Map(Judge(reference, answer, same), Map(Renamed(At(refAt), At(ansAt)), part)) ==
            Map(Relocate(refAt, ansAt), Map(Judge(Filter(own, reference), Filter(own, answer), same), part))
  {
    forall i | 0 <= i < |part|
      ensures Judge(reference, answer, same)(Renamed(At(Positions(own, reference)),
                                                     At(Positions(own, answer)))(part[i])) ==
              Relocate(Positions(own, reference), Positions(own, answer))
                (Judge(Filter(own, reference), Filter(own, answer), same)(part[i]))
    {
      assert part[i] in part;
      JudgeAtPosition(reference, answer, same, own, part[i]);
    }
  }

  lemma JudgeAtPosition(reference: seq<Box>, answer: seq<Box>, same: AttributeRule, own: Box -> bool, e: Edge)
    requires e.left < |Filter(own, reference)| && e.right < |Filter(own, answer)|
    ensures var refAt, ansAt := Positions(own, reference), Positions(own, answer);
            Judge(reference, answer, same)(Renamed(At(refAt), At(ansAt))(e)) ==
            Relocate(refAt, ansAt)(Judge(Filter(own, reference), Filter(own, answer), same)(e))
  {
    PositionsOfFilter(own, reference);
    PositionsOfFilter(own, answer);
  }
}
