// Greedy one-to-one matching of two lists, heaviest pair first. The gold
// scorer matches reference boxes with answers this way, and the detection
// linker matches a frame's detections with open tracks.
module GreedyMatching {
  import opened Sequences
  import opened StableSorting

  datatype Edge = Edge(left: nat, right: nat, weight: real)

  predicate Heavier(a: Edge, b: Edge) {
    a.weight > b.weight
  }

  predicate Conflict(a: Edge, b: Edge) {
    a.left == b.left || a.right == b.right
  }

  // The pairs of l with each of rs that weigh considers, in the order of rs.
  function Row<L, R>(weigh: (L, R) -> Option<real>, l: Item<L>, rs: seq<Item<R>>): seq<Edge> {
    if rs == [] then []
    else
      (match weigh(l.val, rs[0].val)
       case Some(v) => [Edge(l.id, rs[0].id, v)]
       case None => []) + Row(weigh, l, rs[1..])
  }

  function Candidates<L, R>(weigh: (L, R) -> Option<real>, ls: seq<Item<L>>, rs: seq<Item<R>>): seq<Edge> {
    if ls == [] then [] else Row(weigh, ls[0], rs) + Candidates(weigh, ls[1..], rs)
  }

  lemma CandidatesStep<L, R>(weigh: (L, R) -> Option<real>, ls: seq<Item<L>>, rs: seq<Item<R>>, i: nat,
                             pairs: seq<Edge>)
    requires i < |ls|
    ensures pairs + Candidates(weigh, ls[i..], rs) == pairs + Row(weigh, ls[i], rs) + Candidates(weigh, ls[i+1..], rs)
  {
    assert ls[i..][0] == ls[i] && ls[i..][1..] == ls[i+1..];
  }

  // Takes each edge in turn unless one of its ends is used.
  function Pick(edges: seq<Edge>, usedL: set<nat>, usedR: set<nat>): seq<Edge> {
    if edges == [] then []
    else
      var e := edges[0];
      if e.left in usedL || e.right in usedR then Pick(edges[1..], usedL, usedR)
      else [e] + Pick(edges[1..], usedL + {e.left}, usedR + {e.right})
  }

  // A scan that took the edges in picked and has edges[k..] ahead of it will
  // end with Pick's result.
  ghost predicate Scanning(edges: seq<Edge>, k: nat, usedL: set<nat>, usedR: set<nat>, picked: seq<Edge>) {
    k <= |edges| && picked + Pick(edges[k..], usedL, usedR) == Pick(edges, {}, {})
  }

  lemma ScanStep(edges: seq<Edge>, k: nat, usedL: set<nat>, usedR: set<nat>, picked: seq<Edge>)
    requires Scanning(edges, k, usedL, usedR, picked) && k < |edges|
    ensures var e := edges[k];
            if e.left in usedL || e.right in usedR then Scanning(edges, k + 1, usedL, usedR, picked)
            else Scanning(edges, k + 1, usedL + {e.left}, usedR + {e.right}, picked + [e])
  {
    var e := edges[k];
    assert edges[k..][0] == e && edges[k..][1..] == edges[k+1..];
    var rest := Pick(edges[k+1..], usedL + {e.left}, usedR + {e.right});
    assert picked + ([e] + rest) == picked + [e] + rest;
  }

  function Greedy(edges: seq<Edge>): seq<Edge> {
    Pick(StableSort(Heavier, edges), {}, {})
  }

  ghost predicate OneToOne(m: seq<Edge>) {
    forall i, j :: 0 <= i < j < |m| ==> !Conflict(m[i], m[j])
  }

  // ---- What the candidates are

  lemma {:induction false} RowIff<L, R>(weigh: (L, R) -> Option<real>, l: Item<L>, rs: seq<Item<R>>, e: Edge)
    ensures e in Row(weigh, l, rs) <==>
            exists k :: 0 <= k < |rs| && e.left == l.id && e.right == rs[k].id
              && weigh(l.val, rs[k].val) == Some(e.weight)
  {
    if rs != [] {
      RowIff(weigh, l, rs[1..], e);
      if e in Row(weigh, l, rs[1..]) {
        var k :| 0 <= k < |rs[1..]| && e.right == rs[1..][k].id && weigh(l.val, rs[1..][k].val) == Some(e.weight);
        assert rs[k+1] == rs[1..][k];
      }
      if k :| 0 < k < |rs| && e.left == l.id && e.right == rs[k].id && weigh(l.val, rs[k].val) == Some(e.weight) {
        assert rs[k] == rs[1..][k-1];
      }
    }
  }

  lemma {:induction false} CandidatesIff<L, R>(weigh: (L, R) -> Option<real>, ls: seq<Item<L>>, rs: seq<Item<R>>,
                                               e: Edge)
    ensures e in Candidates(weigh, ls, rs) <==> exists i :: 0 <= i < |ls| && e in Row(weigh, ls[i], rs)
  {
    if ls != [] {
      CandidatesIff(weigh, ls[1..], rs, e);
      if e in Candidates(weigh, ls[1..], rs) {
        var i :| 0 <= i < |ls[1..]| && e in Row(weigh, ls[1..][i], rs);
        assert ls[i+1] == ls[1..][i];
      }
      if i :| 0 < i < |ls| && e in Row(weigh, ls[i], rs) {
        assert ls[i] == ls[1..][i-1];
      }
    }
  }

  // Over two numbered lists the candidates are exactly the weighable index
  // pairs.
  lemma CandidatesOfLists<L, R>(weigh: (L, R) -> Option<real>, a: seq<L>, b: seq<R>, e: Edge)
    ensures e in Candidates(weigh, Number(a), Number(b)) <==>
            e.left < |a| && e.right < |b| && weigh(a[e.left], b[e.right]) == Some(e.weight)
  {
    var ls, rs := Number(a), Number(b);
    CandidatesIff(weigh, ls, rs, e);
    if e in Candidates(weigh, ls, rs) {
      var i :| 0 <= i < |ls| && e in Row(weigh, ls[i], rs);
      RowIff(weigh, ls[i], rs, e);
    }
    if e.left < |a| && e.right < |b| && weigh(a[e.left], b[e.right]) == Some(e.weight) {
      RowIff(weigh, ls[e.left], rs, e);
      assert e.right == rs[e.right].id && weigh(ls[e.left].val, rs[e.right].val) == Some(e.weight);
    }
  }

  // ---- What is picked

  lemma {:induction false} PickSound(edges: seq<Edge>, usedL: set<nat>, usedR: set<nat>)
    ensures var m := Pick(edges, usedL, usedR);
            && OneToOne(m)
            && (forall e :: e in m ==> e in edges && e.left !in usedL && e.right !in usedR)
  {
    if edges != [] {
      var e := edges[0];
      if e.left in usedL || e.right in usedR {
        PickSound(edges[1..], usedL, usedR);
      } else {
        PickSound(edges[1..], usedL + {e.left}, usedR + {e.right});
      }
    }
  }

  function Left(): Edge -> nat {
    (e: Edge) => e.left
  }

  function Right(): Edge -> nat {
    (e: Edge) => e.right
  }

  lemma EndsFit(m: seq<Edge>, end: Edge -> nat, bound: nat)
    requires Distinct(Map(end, m)) && forall e :: e in m ==> end(e) < bound
    ensures |m| <= bound
  {
    var ends := Map(end, m);
    forall x | x in ends ensures x < bound {
      var i :| 0 <= i < |ends| && ends[i] == x;
      assert m[i] in m;
    }
    DistinctBounded(ends, bound);
  }

  lemma OneToOneEnds(m: seq<Edge>)
    requires OneToOne(m)
    ensures Distinct(Map(Left(), m)) && Distinct(Map(Right(), m))
  {
    forall i, j | 0 <= i < j < |m| ensures m[i].left != m[j].left && m[i].right != m[j].right {
      assert !Conflict(m[i], m[j]);
    }
  }

  lemma {:induction false} PickBlocks(edges: seq<Edge>, usedL: set<nat>, usedR: set<nat>, e: Edge)
    requires Ordered(Heavier, edges)
    requires e in edges && e.left !in usedL && e.right !in usedR
    ensures exists g :: g in Pick(edges, usedL, usedR) && Conflict(g, e) && g.weight >= e.weight
  {
    var h := edges[0];
    if h.left in usedL || h.right in usedR {
      PickBlocks(edges[1..], usedL, usedR, e);
    } else {
      assert h in Pick(edges, usedL, usedR);
      if !Conflict(h, e) {
        PickBlocks(edges[1..], usedL + {h.left}, usedR + {h.right}, e);
      } else {
        var k :| 0 <= k < |edges| && edges[k] == e;
        assert k > 0 ==> !Heavier(edges[k], edges[0]);
      }
    }
  }

  lemma HeavierIsWeakOrder()
    ensures WeakOrder(Heavier)
  {
  }

  // No candidate is left over that could be swapped in: one that was not
  // taken shares an end with a taken edge at least as heavy.
  lemma GreedyStable(edges: seq<Edge>)
    ensures var m := Greedy(edges);
            && OneToOne(m)
            && (forall e :: e in m ==> e in edges)
            && (forall e :: e in edges ==> exists g :: g in m && Conflict(g, e) && g.weight >= e.weight)
  {
    var s := StableSort(Heavier, edges);
    HeavierIsWeakOrder();
    SortOrdered(Heavier, edges);
    PickSound(s, {}, {});
    forall e | e in edges ensures exists g :: g in Greedy(edges) && Conflict(g, e) && g.weight >= e.weight {
      PickBlocks(s, {}, {}, e);
    }
  }

  // The matching of two lists, by position.
  function Match<L, R>(weigh: (L, R) -> Option<real>, a: seq<L>, b: seq<R>): seq<Edge> {
    Greedy(Candidates(weigh, Number(a), Number(b)))
  }

  // ---- Half of the best

  function Total(value: Edge -> real, edges: seq<Edge>): real {
    if edges == [] then 0.0 else value(edges[0]) + Total(value, edges[1..])
  }

  function Apart(e: Edge): Edge -> bool {
    x => !Conflict(e, x)
  }

  lemma {:induction false} TotalAppend(value: Edge -> real, a: seq<Edge>, b: seq<Edge>)
    ensures Total(value, a + b) == Total(value, a) + Total(value, b)
  {
    if a == [] {
      assert a + b == b;
    } else {
      assert (a + b)[1..] == a[1..] + b;
      TotalAppend(value, a[1..], b);
    }
  }

  // A value heavier edges never have less of: the weight itself, or 1 for
  // counting edges.
  ghost predicate GrowsWithWeight(value: Edge -> real) {
    forall a: Edge, b: Edge :: a.weight >= b.weight >= 0.0 ==> value(a) >= value(b) >= 0.0
  }

  ghost predicate NonNegative(edges: seq<Edge>) {
    forall e :: e in edges ==> e.weight >= 0.0
  }

  function Avoids(end: Edge -> nat, n: nat): Edge -> bool {
    (e: Edge) => end(e) != n
  }

  // When no end repeats, at most one edge ends at n.
  lemma {:induction false} DropEnd(value: Edge -> real, end: Edge -> nat, n: nat, most: real, m: seq<Edge>)
    requires Distinct(Map(end, m)) && forall x :: x in m ==> 0.0 <= value(x) <= most
    requires most >= 0.0
    ensures Total(value, m) <= Total(value, Filter(Avoids(end, n), m)) + most
  {
    if m != [] {
      var ends := Map(end, m);
      MapStep(end, m);
      assert m[0] in m;
      if end(m[0]) == n {
        forall x | x in m[1..] ensures Avoids(end, n)(x) {
          var k :| 0 <= k < |m[1..]| && m[1..][k] == x;
          assert ends[0] != ends[k+1];
        }
        FilterAll(Avoids(end, n), m[1..]);
      } else {
        DropEnd(value, end, n, most, m[1..]);
      }
    }
  }

  // A one-to-one matching has at most one edge on each end of e.
  lemma DropConflicting(value: Edge -> real, e: Edge, m: seq<Edge>)
    requires OneToOne(m) && forall x :: x in m ==> 0.0 <= value(x) <= value(e)
    requires value(e) >= 0.0
    ensures Total(value, m) <= Total(value, Filter(Apart(e), m)) + 2.0 * value(e)
  {
    var noLeft := Filter(Avoids(Left(), e.left), m);
    OneToOneFilter(Avoids(Left(), e.left), m);
    OneToOneEnds(m);
    OneToOneEnds(noLeft);
    DropEnd(value, Left(), e.left, value(e), m);
    DropEnd(value, Right(), e.right, value(e), noLeft);
    FilterTwice(Avoids(Right(), e.right), Avoids(Left(), e.left), Apart(e), m);
  }

  lemma {:induction false} OneToOneFilter(keep: Edge -> bool, m: seq<Edge>)
    requires OneToOne(m)
    ensures OneToOne(Filter(keep, m))
  {
    if m != [] {
      OneToOneFilter(keep, m[1..]);
      forall x | x in Filter(keep, m[1..]) ensures !Conflict(m[0], x) {
        var k :| 0 <= k < |m[1..]| && m[1..][k] == x;
        assert !Conflict(m[0], m[k+1]);
      }
    }
  }

  lemma {:induction false} PickHalf(value: Edge -> real, edges: seq<Edge>, usedL: set<nat>, usedR: set<nat>,
                                    m: seq<Edge>)
    requires GrowsWithWeight(value) && Ordered(Heavier, edges) && NonNegative(edges)
    requires OneToOne(m)
    requires forall x :: x in m ==> x in edges && x.left !in usedL && x.right !in usedR
    ensures Total(value, m) <= 2.0 * Total(value, Pick(edges, usedL, usedR))
    decreases |edges|
  {
    if m != [] {
      assert m[0] in m;
    }
    if edges != [] {
      var e := edges[0];
      if e.left in usedL || e.right in usedR {
        PickHalf(value, edges[1..], usedL, usedR, m);
      } else {
        forall x | x in m ensures 0.0 <= x.weight <= e.weight {
          var k :| 0 <= k < |edges| && edges[k] == x;
          assert k > 0 ==> !Heavier(edges[k], edges[0]);
        }
        DropConflicting(value, e, m);
        OneToOneFilter(Apart(e), m);
        PickHalf(value, edges[1..], usedL + {e.left}, usedR + {e.right}, Filter(Apart(e), m));
      }
    }
  }

  // Greedy gives at least half of what any one-to-one choice among the same
  // candidates gives.
  lemma GreedyIsHalfOptimal(value: Edge -> real, edges: seq<Edge>, m: seq<Edge>)
    requires GrowsWithWeight(value) && NonNegative(edges)
    requires OneToOne(m) && forall e :: e in m ==> e in edges
    ensures Total(value, m) <= 2.0 * Total(value, Greedy(edges))
  {
    HeavierIsWeakOrder();
    SortOrdered(Heavier, edges);
    PickHalf(value, StableSort(Heavier, edges), {}, {}, m);
  }
}
