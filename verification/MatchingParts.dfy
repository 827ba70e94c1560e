// What greedy matching does not depend on: pairs that never meet the ones at
// hand, and how the ends are numbered.
module MatchingParts {
  import opened Sequences
  import opened StableSorting
  import opened GreedyMatching

  // ---- Independent parts

  ghost predicate Separates(keep: Edge -> bool, edges: seq<Edge>) {
    forall a, b :: a in edges && b in edges && keep(a) && !keep(b) ==> !Conflict(a, b)
  }

  lemma {:induction false} PickFilter(keep: Edge -> bool, edges: seq<Edge>,
                                      usedL: set<nat>, usedR: set<nat>, keptL: set<nat>, keptR: set<nat>)
    requires Separates(keep, edges)
    requires forall e :: e in edges && keep(e) ==> (e.left in usedL <==> e.left in keptL)
    requires forall e :: e in edges && keep(e) ==> (e.right in usedR <==> e.right in keptR)
    ensures Filter(keep, Pick(edges, usedL, usedR)) == Pick(Filter(keep, edges), keptL, keptR)
    decreases |edges|
  {
    if edges != [] {
      var e := edges[0];
      var taken := e.left !in usedL && e.right !in usedR;
      var usedL', usedR' := if taken then usedL + {e.left} else usedL, if taken then usedR + {e.right} else usedR;
      var keptL' := if taken && keep(e) then keptL + {e.left} else keptL;
      var keptR' := if taken && keep(e) then keptR + {e.right} else keptR;
      forall x | x in edges[1..] && keep(x)
        ensures (x.left in usedL' <==> x.left in keptL') && (x.right in usedR' <==> x.right in keptR')
      {
        assert x in edges && e in edges;
      }
      assert forall x :: x in edges[1..] ==> x in edges;
      PickFilter(keep, edges[1..], usedL', usedR', keptL', keptR');
      var m := Pick(edges[1..], usedL', usedR');
      assert ([e] + m)[1..] == m;
      if keep(e) {
        assert ([e] + Filter(keep, edges[1..]))[1..] == Filter(keep, edges[1..]);
      }
    }
  }

  // When kept and dropped edges never share an end, matching the kept ones
  // alone gives the kept part of matching all of them.
  lemma GreedyFilter(keep: Edge -> bool, edges: seq<Edge>)
    requires Separates(keep, edges)
    ensures Filter(keep, Greedy(edges)) == Greedy(Filter(keep, edges))
  {
    HeavierIsWeakOrder();
    FilterSort(Heavier, keep, edges);
    PickFilter(keep, StableSort(Heavier, edges), {}, {}, {}, {});
  }

  // ---- Other names for the ends

  function Renamed(f: nat -> nat, g: nat -> nat): Edge -> Edge {
    (e: Edge) => Edge(f(e.left), g(e.right), e.weight)
  }

  ghost predicate InjectiveBelow(f: nat -> nat, n: nat) {
    forall x: nat, y: nat :: x < n && y < n && f(x) == f(y) ==> x == y
  }

  lemma {:induction false} PickRename(f: nat -> nat, g: nat -> nat, edges: seq<Edge>, boundL: nat, boundR: nat,
                                      usedL: set<nat>, usedR: set<nat>, newL: set<nat>, newR: set<nat>)
    requires InjectiveBelow(f, boundL) && InjectiveBelow(g, boundR)
    requires forall e :: e in edges ==> e.left < boundL && e.right < boundR
    requires forall x: nat :: x < boundL ==> (x in usedL <==> f(x) in newL)
    requires forall x: nat :: x < boundR ==> (x in usedR <==> g(x) in newR)
    ensures Map(Renamed(f, g), Pick(edges, usedL, usedR)) == Pick(Map(Renamed(f, g), edges), newL, newR)
    decreases |edges|
  {
    if edges != [] {
      var e := edges[0];
      assert e in edges;
      MapStep(Renamed(f, g), edges);
      if e.left in usedL || e.right in usedR {
        PickRename(f, g, edges[1..], boundL, boundR, usedL, usedR, newL, newR);
      } else {
        MapCons(Renamed(f, g), e, Pick(edges[1..], usedL + {e.left}, usedR + {e.right}));
        PickRename(f, g, edges[1..], boundL, boundR, usedL + {e.left}, usedR + {e.right}, newL + {f(e.left)},
                   newR + {g(e.right)});
      }
    }
  }

  // The matching does not depend on how the ends are numbered.
  lemma GreedyRename(f: nat -> nat, g: nat -> nat, edges: seq<Edge>, boundL: nat, boundR: nat)
    requires InjectiveBelow(f, boundL) && InjectiveBelow(g, boundR)
    requires forall e :: e in edges ==> e.left < boundL && e.right < boundR
    ensures Map(Renamed(f, g), Greedy(edges)) == Greedy(Map(Renamed(f, g), edges))
  {
    MapSort(Heavier, Heavier, Renamed(f, g), edges);
    PickRename(f, g, StableSort(Heavier, edges), boundL, boundR, {}, {}, {}, {});
  }

  // ---- The same for the candidates of two lists

  lemma {:induction false} RowFilter<L, R>(weigh: (L, R) -> Option<real>, l: Item<L>, rs: seq<Item<R>>,
                                           keepR: Item<R> -> bool)
    requires forall r :: r in rs && weigh(l.val, r.val).Some? ==> keepR(r)
    ensures Row(weigh, l, rs) == Row(weigh, l, Filter(keepR, rs))
  {
    if rs != [] {
      RowFilter(weigh, l, rs[1..], keepR);
      if keepR(rs[0]) {
        assert Filter(keepR, rs)[1..] == Filter(keepR, rs[1..]);
      } else {
        assert rs[0] in rs;
      }
    }
  }

  lemma {:induction false} CandidatesFilter<L, R>(weigh: (L, R) -> Option<real>, ls: seq<Item<L>>, rs: seq<Item<R>>,
                                                  keepL: Item<L> -> bool, keepR: Item<R> -> bool, keep: Edge -> bool)
    requires forall l, r :: l in ls && r in rs && keepL(l) && weigh(l.val, r.val).Some? ==> keepR(r)
    requires forall l, e: Edge :: l in ls && e.left == l.id ==> keep(e) == keepL(l)
    ensures Filter(keep, Candidates(weigh, ls, rs)) == Candidates(weigh, Filter(keepL, ls), Filter(keepR, rs))
  {
    if ls != [] {
      var l := ls[0];
      assert l in ls;
      var row := Row(weigh, l, rs);
      FilterAppend(keep, row, Candidates(weigh, ls[1..], rs));
      CandidatesFilter(weigh, ls[1..], rs, keepL, keepR, keep);
      forall e | e in row ensures e.left == l.id {
        RowIff(weigh, l, rs, e);
      }
      if keepL(l) {
        FilterAll(keep, row);
        RowFilter(weigh, l, rs, keepR);
        assert Filter(keepL, ls)[1..] == Filter(keepL, ls[1..]);
      } else {
        FilterNone(keep, row);
      }
    }
  }

  lemma {:induction false} RowRename<L, R, L2, R2>(weigh: (L, R) -> Option<real>, weigh2: (L2, R2) -> Option<real>,
                                                   l: Item<L>, rs: seq<Item<R>>, l2: Item<L2>, toR: Item<R> -> Item<R2>,
                                                   f: nat -> nat, g: nat -> nat)
    requires l2.id == f(l.id)
    requires forall r :: r in rs ==> toR(r).id == g(r.id) && weigh2(l2.val, toR(r).val) == weigh(l.val, r.val)
    ensures Row(weigh2, l2, Map(toR, rs)) == Map(Renamed(f, g), Row(weigh, l, rs))
  {
    if rs != [] {
      assert rs[0] in rs;
      RowRename(weigh, weigh2, l, rs[1..], l2, toR, f, g);
      MapStep(toR, rs);
    }
  }

  lemma {:induction false} CandidatesRename<L, R, L2, R2>(weigh: (L, R) -> Option<real>,
                                                          weigh2: (L2, R2) -> Option<real>,
                                                          ls: seq<Item<L>>, rs: seq<Item<R>>,
                                                          toL: Item<L> -> Item<L2>, toR: Item<R> -> Item<R2>,
                                                          f: nat -> nat, g: nat -> nat)
    requires forall l :: l in ls ==> toL(l).id == f(l.id)
    requires forall r :: r in rs ==> toR(r).id == g(r.id)
    requires forall l, r :: l in ls && r in rs ==> weigh2(toL(l).val, toR(r).val) == weigh(l.val, r.val)
    ensures Candidates(weigh2, Map(toL, ls), Map(toR, rs)) == Map(Renamed(f, g), Candidates(weigh, ls, rs))
  {
    if ls != [] {
      assert ls[0] in ls;
      CandidatesRename(weigh, weigh2, ls[1..], rs, toL, toR, f, g);
      RowRename(weigh, weigh2, ls[0], rs, toL(ls[0]), toR, f, g);
      MapStep(toL, ls);
      MapAppend(Renamed(f, g), Row(weigh, ls[0], rs), Candidates(weigh, ls[1..], rs));
    }
  }

  // ---- Two lists made of parts that never pair

  function FromKept<L>(keepL: L -> bool, a: seq<L>): Edge -> bool {
    (e: Edge) => e.left < |a| && keepL(a[e.left])
  }

  lemma MatchKept<L, R>(weigh: (L, R) -> Option<real>, a: seq<L>, b: seq<R>, keepL: L -> bool, keepR: R -> bool)
    requires forall l, r :: l in a && r in b && weigh(l, r).Some? ==> (keepL(l) <==> keepR(r))
    ensures Filter(FromKept(keepL, a), Match(weigh, a, b)) ==
            Greedy(Candidates(weigh, Filter(OnVal(keepL), Number(a)), Filter(OnVal(keepR), Number(b))))
  {
    var ls, rs := Number(a), Number(b);
    var edges := Candidates(weigh, ls, rs);
    var keep := FromKept(keepL, a);
    forall x, y | x in edges && y in edges && keep(x) && !keep(y) ensures !Conflict(x, y) {
      CandidatesOfLists(weigh, a, b, x);
      CandidatesOfLists(weigh, a, b, y);
      assert a[x.left] in a && b[x.right] in b && a[y.left] in a && b[y.right] in b;
    }
    GreedyFilter(keep, edges);
    forall l, r | l in ls && r in rs && OnVal(keepL)(l) && weigh(l.val, r.val).Some? ensures OnVal(keepR)(r) {
      assert l.val in a && r.val in b;
    }
    CandidatesFilter(weigh, ls, rs, OnVal(keepL), OnVal(keepR), keep);
  }

  lemma MatchRelabelled<L, R>(weigh: (L, R) -> Option<real>, a: seq<L>, b: seq<R>, f: nat -> nat, g: nat -> nat)
    requires InjectiveBelow(f, |a|) && InjectiveBelow(g, |b|)
    ensures Greedy(Candidates(weigh, Map(Relabel(f), Number(a)), Map(Relabel(g), Number(b)))) ==
            Map(Renamed(f, g), Match(weigh, a, b))
  {
    CandidatesRename(weigh, weigh, Number(a), Number(b), Relabel(f), Relabel(g), f, g);
    var edges := Candidates(weigh, Number(a), Number(b));
    forall e | e in edges ensures e.left < |a| && e.right < |b| {
      CandidatesOfLists(weigh, a, b, e);
    }
    GreedyRename(f, g, edges, |a|, |b|);
  }

  lemma PositionsInjective<T>(keep: T -> bool, s: seq<T>)
    ensures InjectiveBelow(At(Positions(keep, s)), |Filter(keep, s)|)
    ensures Map(Relabel(At(Positions(keep, s))), Number(Filter(keep, s))) == Filter(OnVal(keep), Number(s))
  {
    PositionsOfFilter(keep, s);
    var p := Positions(keep, s);
    forall x: nat, y: nat | x < |p| && y < |p| && At(p)(x) == At(p)(y) ensures x == y {
      assert p[x] == p[y];
    }
  }

  // If only kept elements pair with kept ones, matching the kept elements of
  // both lists alone gives, at their own positions, the matches the full
  // lists give for them.
  lemma MatchOfParts<L, R>(weigh: (L, R) -> Option<real>, a: seq<L>, b: seq<R>, keepL: L -> bool, keepR: R -> bool)
    requires forall l, r :: l in a && r in b && weigh(l, r).Some? ==> (keepL(l) <==> keepR(r))
    ensures Filter(FromKept(keepL, a), Match(weigh, a, b)) ==
            Map(Renamed(At(Positions(keepL, a)), At(Positions(keepR, b))),
                Match(weigh, Filter(keepL, a), Filter(keepR, b)))
  {
    MatchKept(weigh, a, b, keepL, keepR);
    PositionsInjective(keepL, a);
    PositionsInjective(keepR, b);
    MatchRelabelled(weigh, Filter(keepL, a), Filter(keepR, b), At(Positions(keepL, a)), At(Positions(keepR, b)));
  }
}
