// In which order the greedy matching takes its pairs, ties included, and that
// this leaves one possible matching.
module MatchingOrder {
  import opened Sequences
  import opened StableSorting
  import opened GreedyMatching

  // The order in which candidates are listed, the right ends by their place.
  function Earlier(place: nat -> nat): (Edge, Edge) -> bool {
    (e: Edge, g: Edge) => e.left < g.left || (e.left == g.left && place(e.right) < place(g.right))
  }

  // Heavier first, and as they are listed among equals.
  function Preferred(place: nat -> nat): (Edge, Edge) -> bool {
    Ranks(Heavier, Earlier(place))
  }

  ghost predicate LeftsRise<L>(ls: seq<Item<L>>) {
    forall i, j :: 0 <= i < j < |ls| ==> ls[i].id < ls[j].id
  }

  ghost predicate RightsRise<R>(place: nat -> nat, rs: seq<Item<R>>) {
    forall i, j :: 0 <= i < j < |rs| ==> place(rs[i].id) < place(rs[j].id)
  }

  lemma {:induction false} RowRises<L, R>(weigh: (L, R) -> Option<real>, l: Item<L>, rs: seq<Item<R>>,
                                          place: nat -> nat)
    requires RightsRise(place, rs)
    ensures Pairwise(Earlier(place), Row(weigh, l, rs))
  {
    if rs != [] {
      RowRises(weigh, l, rs[1..], place);
      forall e | e in Row(weigh, l, rs[1..]) ensures e.left == l.id && place(rs[0].id) < place(e.right) {
        RowIff(weigh, l, rs[1..], e);
        var k :| 0 <= k < |rs[1..]| && e.right == rs[1..][k].id && weigh(l.val, rs[1..][k].val) == Some(e.weight);
        assert rs[k+1] == rs[1..][k];
      }
    }
  }

  lemma {:induction false} CandidatesRise<L, R>(weigh: (L, R) -> Option<real>, ls: seq<Item<L>>, rs: seq<Item<R>>,
                                                place: nat -> nat)
    requires LeftsRise(ls) && RightsRise(place, rs)
    ensures Pairwise(Earlier(place), Candidates(weigh, ls, rs))
  {
    if ls != [] {
      CandidatesRise(weigh, ls[1..], rs, place);
      RowRises(weigh, ls[0], rs, place);
      forall e, g | e in Row(weigh, ls[0], rs) && g in Candidates(weigh, ls[1..], rs) ensures e.left < g.left {
        RowIff(weigh, ls[0], rs, e);
        CandidatesIff(weigh, ls[1..], rs, g);
        var i :| 0 <= i < |ls[1..]| && g in Row(weigh, ls[1..][i], rs);
        RowIff(weigh, ls[1..][i], rs, g);
        assert ls[i+1] == ls[1..][i];
      }
      PairwiseAppend(Earlier(place), Row(weigh, ls[0], rs), Candidates(weigh, ls[1..], rs));
    }
  }

  lemma PairwiseAppend<T>(related: (T, T) -> bool, a: seq<T>, b: seq<T>)
    requires Pairwise(related, a) && Pairwise(related, b) && forall x, y :: x in a && y in b ==> related(x, y)
    ensures Pairwise(related, a + b)
  {
  }

  // ---- What is picked

  lemma {:induction false} PickRises(first: (Edge, Edge) -> bool, edges: seq<Edge>, usedL: set<nat>, usedR: set<nat>)
    requires Pairwise(first, edges)
    ensures Pairwise(first, Pick(edges, usedL, usedR))
  {
    if edges != [] {
      var e := edges[0];
      if e.left in usedL || e.right in usedR {
        PickRises(first, edges[1..], usedL, usedR);
      } else {
        PickRises(first, edges[1..], usedL + {e.left}, usedR + {e.right});
        PickSound(edges[1..], usedL + {e.left}, usedR + {e.right});
        forall g | g in Pick(edges[1..], usedL + {e.left}, usedR + {e.right}) ensures first(e, g) {
          var k :| 0 <= k < |edges[1..]| && edges[1..][k] == g;
          assert first(edges[0], edges[k+1]);
        }
      }
    }
  }

  // An edge is taken, or shares an end with one that comes first.
  ghost predicate Blocked(first: (Edge, Edge) -> bool, m: seq<Edge>, e: Edge) {
    exists g :: g in m && Conflict(g, e) && (g == e || first(g, e))
  }

  lemma {:induction false} PickBlocked(first: (Edge, Edge) -> bool, edges: seq<Edge>, usedL: set<nat>,
                                       usedR: set<nat>, e: Edge)
    requires Pairwise(first, edges) && e in edges && e.left !in usedL && e.right !in usedR
    ensures Blocked(first, Pick(edges, usedL, usedR), e)
  {
    var h := edges[0];
    if h.left in usedL || h.right in usedR {
      PickBlocked(first, edges[1..], usedL, usedR, e);
    } else if Conflict(h, e) {
      var k :| 0 <= k < |edges| && edges[k] == e;
      assert k > 0 ==> first(edges[0], edges[k]);
      assert h in Pick(edges, usedL, usedR);
    } else {
      PickBlocked(first, edges[1..], usedL + {h.left}, usedR + {h.right}, e);
    }
  }

  // A choice of candidates in order, one-to-one, that leaves none over for
  // which there is no better reason.
  ghost predicate InTurn(first: (Edge, Edge) -> bool, edges: seq<Edge>, m: seq<Edge>) {
    && OneToOne(m) && Pairwise(first, m)
    && (forall e :: e in m ==> e in edges)
    && (forall e :: e in edges ==> Blocked(first, m, e))
  }

  // Which of two pairs of equal weight wins is settled by how the candidates
  // are listed.
  lemma GreedyInTurn(listed: (Edge, Edge) -> bool, edges: seq<Edge>)
    requires Pairwise(listed, edges)
    ensures InTurn(Ranks(Heavier, listed), edges, Greedy(edges))
  {
    var s, first := StableSort(Heavier, edges), Ranks(Heavier, listed);
    HeavierIsWeakOrder();
    SortRanks(Heavier, listed, edges);
    PickSound(s, {}, {});
    PickRises(first, s, {}, {});
    forall e | e in edges ensures Blocked(first, Greedy(edges), e) {
      PickBlocked(first, s, {}, {}, e);
    }
  }

  // ---- One possible matching

  ghost predicate StrictOrder<T(!new)>(first: (T, T) -> bool) {
    && (forall x, y :: first(x, y) ==> !first(y, x))
    && (forall x, y, z :: first(x, y) && first(y, z) ==> first(x, z))
  }

  // With the same pairs so far, what one choice takes next is no worse than
  // what the other does.
  lemma NextIsFirst(first: (Edge, Edge) -> bool, edges: seq<Edge>, m: seq<Edge>, n: seq<Edge>, k: nat)
    requires InTurn(first, edges, m) && InTurn(first, edges, n) && StrictOrder(first)
    requires k < |m| && k <= |n| && m[..k] == n[..k]
    ensures k < |n| && (n[k] == m[k] || first(n[k], m[k]))
  {
    var e := m[k];
    assert e in m && e in edges;
    forall t | 0 <= t < k ensures !Conflict(n[t], e) {
      assert m[..k][t] == n[..k][t];
      assert !Conflict(m[t], m[k]);
    }
    var g :| g in n && Conflict(g, e) && (g == e || first(g, e));
    var t :| 0 <= t < |n| && n[t] == g;
    assert t > k ==> first(n[k], n[t]);
  }

  lemma {:induction false} SameFrom(first: (Edge, Edge) -> bool, edges: seq<Edge>, m: seq<Edge>, n: seq<Edge>, k: nat)
    requires InTurn(first, edges, m) && InTurn(first, edges, n) && StrictOrder(first)
    requires k <= |m| && k <= |n| && m[..k] == n[..k]
    ensures m == n
    decreases |m| - k
  {
    if k < |m| {
      NextIsFirst(first, edges, m, n, k);
      NextIsFirst(first, edges, n, m, k);
      assert m[..k+1] == m[..k] + [m[k]] && n[..k+1] == n[..k] + [n[k]];
      SameFrom(first, edges, m, n, k + 1);
    } else if k < |n| {
      NextIsFirst(first, edges, n, m, k);
    }
  }

  // So any choice made in turn is the greedy one.
  lemma InTurnIsGreedy(listed: (Edge, Edge) -> bool, edges: seq<Edge>, m: seq<Edge>)
    requires Pairwise(listed, edges) && StrictOrder(Ranks(Heavier, listed))
    requires InTurn(Ranks(Heavier, listed), edges, m)
    ensures m == Greedy(edges)
  {
    GreedyInTurn(listed, edges);
    SameFrom(Ranks(Heavier, listed), edges, m, Greedy(edges), 0);
  }

  lemma PreferredIff(place: nat -> nat, x: Edge, y: Edge)
    ensures Preferred(place)(x, y) <==>
            x.weight > y.weight || (x.weight == y.weight && Earlier(place)(x, y))
  {
    assert Preferred(place)(x, y) <==> Heavier(x, y) || (!Heavier(y, x) && Earlier(place)(x, y));
  }

  lemma PreferredIsStrict(place: nat -> nat)
    ensures StrictOrder(Preferred(place))
  {
    forall x: Edge, y: Edge
      ensures Preferred(place)(x, y) <==> x.weight > y.weight || (x.weight == y.weight && Earlier(place)(x, y))
    {
      PreferredIff(place, x, y);
    }
  }
}
