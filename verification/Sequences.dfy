// Filtering, mapping and numbering of sequences, and the stable sort the
// other modules share.

module Sequences {
  datatype Option<+T> = None | Some(value: T)

  function Filter<T>(keep: T -> bool, s: seq<T>): (r: seq<T>)
    ensures |r| <= |s|
    ensures forall x | x in r :: x in s && keep(x)
    ensures forall x | x in s && keep(x) :: x in r
  {
    if s == [] then []
    else if keep(s[0]) then [s[0]] + Filter(keep, s[1..])
    else Filter(keep, s[1..])
  }

  function Map<T, R>(f: T -> R, s: seq<T>): (r: seq<R>)
  {
    seq(|s|, i requires 0 <= i < |s| => f(s[i]))
  }

  // A value with the position it had in the sequence it came from.
  datatype Item<T> = Item(id: nat, val: T)

  function Number<T>(s: seq<T>): (r: seq<Item<T>>) {
    seq(|s|, i requires 0 <= i < |s| => Item(i, s[i]))
  }

  ghost predicate Distinct<T>(s: seq<T>) {
    forall i, j :: 0 <= i < j < |s| ==> s[i] != s[j]
  }

  lemma FilterCons<T>(keep: T -> bool, x: T, s: seq<T>)
    ensures Filter(keep, [x] + s) == (if keep(x) then [x] else []) + Filter(keep, s)
  {
    assert ([x] + s)[1..] == s;
  }

  lemma Regroup<T>(a: seq<T>, b: seq<T>, c: seq<T>)
    ensures a + (b + c) == a + b + c
  {
  }

  lemma {:induction false} FilterAppend<T>(keep: T -> bool, a: seq<T>, b: seq<T>)
    ensures Filter(keep, a + b) == Filter(keep, a) + Filter(keep, b)
  {
    if a == [] {
      assert a + b == b;
    } else {
      var head, rest := [a[0]], a[1..];
      assert a == head + rest;
      Regroup(head, rest, b);
      FilterCons(keep, a[0], rest);
      FilterCons(keep, a[0], rest + b);
      FilterAppend(keep, rest, b);
      Regroup(if keep(a[0]) then head else [], Filter(keep, rest), Filter(keep, b));
    }
  }

  lemma SplitAt<T>(s: seq<T>, n: nat)
    requires n <= |s|
    ensures s == s[..n] + s[n..]
    ensures forall x :: x in s[..n] || x in s[n..] ==> x in s
  {
  }

  lemma SplitAround<T>(s: seq<T>, k: nat)
    requires k < |s|
    ensures s == s[..k] + [s[k]] + s[k+1..]
  {
  }

  // Where the first element of one sequence is in another of the same elements.
  lemma Without<T>(a: seq<T>, b: seq<T>) returns (k: nat)
    requires multiset(a) == multiset(b) && a != []
    ensures k < |b| && b[k] == a[0] && multiset(a[1..]) == multiset(b[..k] + b[k+1..])
  {
    assert a == [a[0]] + a[1..];
    assert a[0] in multiset(b);
    k :| 0 <= k < |b| && b[k] == a[0];
    SplitAround(b, k);
    assert multiset(a[1..]) == multiset(a) - multiset{a[0]};
    assert multiset(b[..k] + b[k+1..]) == multiset(b) - multiset{a[0]};
  }

  lemma Slices<T>(s: seq<T>, a: nat, b: nat)
    requires a <= b <= |s|
    ensures s[a..b] == s[a..][..b-a] && s[b..] == s[a..][b-a..]
  {
  }

  lemma MapStep<T, R>(f: T -> R, s: seq<T>)
    requires s != []
    ensures Map(f, s) == [f(s[0])] + Map(f, s[1..])
    ensures Map(f, s)[1..] == Map(f, s[1..])
  {
  }

  lemma MapCons<T, R>(f: T -> R, x: T, s: seq<T>)
    ensures Map(f, [x] + s) == [f(x)] + Map(f, s)
  {
  }

  lemma {:induction false} MapAppend<T, R>(f: T -> R, a: seq<T>, b: seq<T>)
    ensures Map(f, a + b) == Map(f, a) + Map(f, b)
  {
  }

  lemma FilterSnoc<T>(keep: T -> bool, s: seq<T>, k: nat)
    requires k < |s|
    ensures Filter(keep, s[..k+1]) == Filter(keep, s[..k]) + (if keep(s[k]) then [s[k]] else [])
  {
    assert s[..k+1] == s[..k] + [s[k]];
    FilterAppend(keep, s[..k], [s[k]]);
  }

  // Where the first n elements are of a kind.
  ghost function PlacesBelow<T>(kind: T -> bool, s: seq<T>, n: nat): set<nat>
    requires n <= |s|
  {
    set k: nat | k < n && kind(s[k])
  }

  ghost function Places<T>(kind: T -> bool, s: seq<T>): set<nat> {
    PlacesBelow(kind, s, |s|)
  }

  lemma PlacesSnoc<T>(kind: T -> bool, s: seq<T>, n: nat)
    requires n < |s|
    ensures |PlacesBelow(kind, s, n + 1)| == |PlacesBelow(kind, s, n)| + if kind(s[n]) then 1 else 0
  {
    var before := PlacesBelow(kind, s, n);
    assert PlacesBelow(kind, s, n + 1) == if kind(s[n]) then before + {n} else before;
  }

  lemma {:induction false} CountBelow<T>(kind: T -> bool, s: seq<T>, n: nat)
    requires n <= |s|
    ensures |Filter(kind, s[..n])| == |PlacesBelow(kind, s, n)|
  {
    if n == 0 {
      assert PlacesBelow(kind, s, n) == {};
    } else {
      CountBelow(kind, s, n - 1);
      FilterSnoc(kind, s, n - 1);
      PlacesSnoc(kind, s, n - 1);
    }
  }

  // Filtering keeps as many as there are.
  lemma FilterCounts<T>(kind: T -> bool, s: seq<T>)
    ensures |Filter(kind, s)| == |Places(kind, s)|
  {
    CountBelow(kind, s, |s|);
    assert s[..|s|] == s;
  }

  lemma {:induction false} FilterTwice<T>(p: T -> bool, q: T -> bool, both: T -> bool, s: seq<T>)
    requires forall x :: x in s ==> both(x) == (p(x) && q(x))
    ensures Filter(p, Filter(q, s)) == Filter(both, s)
  {
    if s != [] {
      FilterTwice(p, q, both, s[1..]);
    }
  }

  lemma {:induction false} FilterSame<T>(p: T -> bool, q: T -> bool, s: seq<T>)
    requires forall x :: x in s ==> p(x) == q(x)
    ensures Filter(p, s) == Filter(q, s)
  {
    if s != [] {
      FilterSame(p, q, s[1..]);
    }
  }

  lemma {:induction false} FilterAll<T>(keep: T -> bool, s: seq<T>)
    requires forall x :: x in s ==> keep(x)
    ensures Filter(keep, s) == s
  {
    if s != [] {
      FilterAll(keep, s[1..]);
    }
  }

  lemma {:induction false} FilterNone<T>(keep: T -> bool, s: seq<T>)
    requires forall x :: x in s ==> !keep(x)
    ensures Filter(keep, s) == []
  {
    if s != [] {
      FilterNone(keep, s[1..]);
    }
  }

  lemma {:induction false} FilterMap<T, R>(f: T -> R, keepR: R -> bool, keepT: T -> bool, s: seq<T>)
    requires forall x :: x in s ==> keepR(f(x)) == keepT(x)
    ensures Filter(keepR, Map(f, s)) == Map(f, Filter(keepT, s))
  {
    if s != [] {
      var x, rest := s[0], s[1..];
      assert x in s && forall y :: y in rest ==> y in s;
      MapStep(f, s);
      FilterMap(f, keepR, keepT, rest);
      MapCons(f, x, Filter(keepT, rest));
    }
  }

  lemma {:induction false} FilterDistinct<T>(keep: T -> bool, s: seq<T>)
    requires Distinct(s)
    ensures Distinct(Filter(keep, s))
  {
    if s != [] {
      FilterDistinct(keep, s[1..]);
    }
  }

  lemma {:induction false} DistinctCount<T>(s: seq<T>, x: T)
    requires Distinct(s)
    ensures multiset(s)[x] == if x in s then 1 else 0
  {
    if s != [] {
      assert s == [s[0]] + s[1..];
      DistinctCount(s[1..], x);
      forall k | 0 <= k < |s[1..]| ensures s[1..][k] != s[0] {
        assert s[0] != s[k+1];
      }
    }
  }

  lemma DistinctMultiset<T>(a: seq<T>, b: seq<T>)
    requires Distinct(a) && multiset(a) == multiset(b)
    ensures Distinct(b)
  {
    forall i, j | 0 <= i < j < |b| ensures b[i] != b[j] {
      if b[i] == b[j] {
        assert b == b[..i] + [b[i]] + b[i+1..j] + [b[j]] + b[j+1..];
        assert multiset(b)[b[i]] >= 2;
        DistinctCount(a, b[i]);
      }
    }
  }

  lemma SameMembers<T>(a: seq<T>, b: seq<T>)
    requires Distinct(a) && Distinct(b) && (forall x | x in a :: x in b) && (forall x | x in b :: x in a)
    ensures multiset(a) == multiset(b)
  {
    forall x | x in multiset(a) || x in multiset(b) ensures multiset(a)[x] == multiset(b)[x] {
      DistinctCount(a, x);
      DistinctCount(b, x);
    }
  }

  lemma DistinctAppend<T>(a: seq<T>, b: seq<T>)
    requires Distinct(a) && Distinct(b) && forall x :: x in a ==> x !in b
    ensures Distinct(a + b)
  {
    var ab := a + b;
    forall i, j | 0 <= i < j < |ab| ensures ab[i] != ab[j] {
      if i < |a| <= j {
        assert a[i] in a && b[j - |a|] in b;
      }
    }
  }

  lemma {:induction false} DistinctBounded(s: seq<nat>, n: nat)
    requires Distinct(s) && forall x :: x in s ==> x < n
    ensures |s| <= n
  {
    if s != [] {
      assert s[0] in s;
      if k :| 0 <= k < |s| && s[k] == n - 1 {
        var t := s[..k] + s[k+1..];
        assert forall i :: 0 <= i < |t| ==> t[i] == s[if i < k then i else i + 1];
        forall x | x in t ensures x < n - 1 {
          var i :| 0 <= i < |t| && t[i] == x;
          var i' := if i < k then i else i + 1;
          assert s[i'] == x && s[i'] in s;
          assert if i' < k then s[i'] != s[k] else s[k] != s[i'];
        }
        DistinctBounded(t, n - 1);
      } else {
        DistinctBounded(s, n - 1);
      }
    }
  }

  // ---- Sublists and where their elements were

  function Id<T>(): Item<T> -> nat {
    (x: Item<T>) => x.id
  }

  function Val<T>(): Item<T> -> T {
    (x: Item<T>) => x.val
  }

  function OnVal<T>(keep: T -> bool): Item<T> -> bool {
    (x: Item<T>) => keep(x.val)
  }

  function Positions<T>(keep: T -> bool, s: seq<T>): (r: seq<nat>) {
    Map(Id(), Filter(OnVal(keep), Number(s)))
  }

  // Reads a list of positions, total so that it can rename anything.
  function At(positions: seq<nat>): nat -> nat {
    (k: nat) => if k < |positions| then positions[k] else k
  }

  function Relabel<T>(f: nat -> nat): Item<T> -> Item<T> {
    (x: Item<T>) => Item(f(x.id), x.val)
  }

  // The k-th kept element stood at the k-th position, and positions do not
  // repeat.
  lemma PositionsOfFilter<T>(keep: T -> bool, s: seq<T>)
    ensures var p, kept := Positions(keep, s), Filter(keep, s);
            && |p| == |kept| && Distinct(p)
            && (forall k :: 0 <= k < |p| ==> p[k] < |s| && s[p[k]] == kept[k] && keep(kept[k]))
    ensures Map(Relabel(At(Positions(keep, s))), Number(Filter(keep, s))) == Filter(OnVal(keep), Number(s))
  {
    var items := Filter(OnVal(keep), Number(s));
    var p := Positions(keep, s);
    FilterMap(Val(), keep, OnVal(keep), Number(s));
    assert Map(Val(), Number(s)) == s;
    assert Map(Val(), items) == Filter(keep, s);
    forall k | 0 <= k < |p| ensures p[k] == items[k].id < |s| && s[p[k]] == items[k].val {
      assert items[k] in items;
      assert items[k] in Number(s);
    }
    FilterDistinct(OnVal(keep), Number(s));
    forall i, j | 0 <= i < j < |p| ensures p[i] != p[j] {
      assert items[i] != items[j];
      assert items[i].val == s[p[i]] && items[j].val == s[p[j]];
    }
  }

  // Removing the members of a duplicate-free sublist b from a duplicate-free
  // list leaves |a| - |b| elements.
  lemma {:induction false} RemainderLength<T>(a: seq<T>, b: seq<T>, rest: T -> bool)
    requires Distinct(a) && Distinct(b)
    requires forall x :: x in b ==> x in a
    requires forall x :: x in a ==> (rest(x) <==> x !in b)
    ensures |Filter(rest, a)| + |b| == |a|
  {
    if b != [] {
      assert b[0] in a;
    }
    if a == [] {
    } else if a[0] in b {
      var k :| 0 <= k < |b| && b[k] == a[0];
      var b' := b[..k] + b[k+1..];
      forall x ensures x in b' <==> x in b && x != a[0] {
        if x in b && x != a[0] {
          var i :| 0 <= i < |b| && b[i] == x;
          assert i < k ==> b'[i] == x;
          assert i > k ==> b'[i-1] == x;
        }
      }
      RemainderLength(a[1..], b', rest);
    } else {
      RemainderLength(a[1..], b, rest);
    }
  }
}

// The sort Go's SliceStable and SortStableFunc promise: ordered, and elements
// that compare equal keep their order.
module StableSorting {
  import opened Sequences

  // What a Go comparison function must be for its sort to be defined.
  ghost predicate WeakOrder<T(!new)>(before: (T, T) -> bool) {
    && (forall x, y :: before(x, y) ==> !before(y, x))
    && (forall x, y, z :: !before(x, y) && !before(y, z) ==> !before(x, z))
  }

  ghost predicate Ordered<T>(before: (T, T) -> bool, s: seq<T>) {
    forall i, j :: 0 <= i < j < |s| ==> !before(s[j], s[i])
  }

  function Insert<T>(before: (T, T) -> bool, x: T, s: seq<T>): (r: seq<T>)
    ensures multiset(r) == multiset{x} + multiset(s)
  {
    if s == [] || !before(s[0], x) then [x] + s
    else
      assert s == [s[0]] + s[1..];
      [s[0]] + Insert(before, x, s[1..])
  }

  function StableSort<T>(before: (T, T) -> bool, s: seq<T>): (r: seq<T>)
    ensures multiset(r) == multiset(s)
    ensures forall x | x in r :: x in s
    ensures forall x | x in s :: x in r
    ensures |r| == |s|
  {
    if s == [] then []
    else
      assert s == [s[0]] + s[1..];
      var r := Insert(before, s[0], StableSort(before, s[1..]));
      assert forall x | x in r :: x in multiset(r);
      assert forall x | x in s :: x in multiset(s);
      assert |r| == |multiset(r)| && |s| == |multiset(s)|;
      r
  }

  lemma {:induction false} InsertOrdered<T(!new)>(before: (T, T) -> bool, x: T, s: seq<T>)
    requires WeakOrder(before) && Ordered(before, s)
    ensures Ordered(before, Insert(before, x, s))
  {
    if s != [] && before(s[0], x) {
      InsertOrdered(before, x, s[1..]);
      var t := Insert(before, x, s[1..]);
      forall j | 0 <= j < |t| ensures !before(t[j], s[0]) {
        assert t[j] in multiset(t);
        assert t[j] == x || t[j] in s[1..];
      }
    } else {
      var t := [x] + s;
      forall j | 1 <= j < |t| ensures !before(t[j], x) {
        assert !before(s[0], x);
        assert j > 1 ==> !before(s[j-1], s[0]);
      }
    }
  }

  lemma {:induction false} SortOrdered<T(!new)>(before: (T, T) -> bool, s: seq<T>)
    requires WeakOrder(before)
    ensures Ordered(before, StableSort(before, s))
  {
    if s != [] {
      SortOrdered(before, s[1..]);
      InsertOrdered(before, s[0], StableSort(before, s[1..]));
    }
  }

  lemma {:induction false} InsertFirst<T(!new)>(before: (T, T) -> bool, x: T, s: seq<T>)
    requires forall y :: y in s ==> !before(y, x)
    ensures Insert(before, x, s) == [x] + s
  {
  }

  // What is ordered after an element not before x is not before x either.
  lemma NoneBefore<T(!new)>(before: (T, T) -> bool, x: T, s: seq<T>, y: T)
    requires WeakOrder(before) && Ordered(before, s) && y in s && !before(s[0], x)
    ensures !before(y, x)
  {
    var j :| 0 <= j < |s| && s[j] == y;
    if j > 0 {
      assert !before(s[j], s[0]) && !before(s[0], x);
      assert !before(s[j], x);
    }
  }

  lemma {:induction false} FilterInsert<T(!new)>(before: (T, T) -> bool, keep: T -> bool, x: T, s: seq<T>)
    requires WeakOrder(before) && Ordered(before, s)
    ensures Filter(keep, Insert(before, x, s)) ==
            if keep(x) then Insert(before, x, Filter(keep, s)) else Filter(keep, s)
  {
    if s == [] {
    } else if !before(s[0], x) {
      if keep(x) {
        forall y | y in Filter(keep, s) ensures !before(y, x) {
          NoneBefore(before, x, s, y);
        }
        InsertFirst(before, x, Filter(keep, s));
      }
      assert ([x] + s)[1..] == s;
    } else {
      FilterInsert(before, keep, x, s[1..]);
      var t := Insert(before, x, s[1..]);
      assert ([s[0]] + t)[1..] == t;
      if keep(s[0]) {
        var f := Filter(keep, s);
        assert f[0] == s[0] && f[1..] == Filter(keep, s[1..]);
      }
    }
  }

  // Sorting and then keeping some elements is keeping them and then sorting:
  // nothing dropped can change the order of what stays.
  lemma {:induction false} FilterSort<T(!new)>(before: (T, T) -> bool, keep: T -> bool, s: seq<T>)
    requires WeakOrder(before)
    ensures Filter(keep, StableSort(before, s)) == StableSort(before, Filter(keep, s))
  {
    if s != [] {
      FilterSort(before, keep, s[1..]);
      SortOrdered(before, s[1..]);
      FilterInsert(before, keep, s[0], StableSort(before, s[1..]));
      if keep(s[0]) {
        var f := Filter(keep, s);
        assert f[0] == s[0] && f[1..] == Filter(keep, s[1..]);
      }
    }
  }

  lemma {:induction false} MapInsert<T, R>(before: (T, T) -> bool, beforeR: (R, R) -> bool, f: T -> R, x: T, s: seq<T>)
    requires forall y :: y in s ==> beforeR(f(y), f(x)) == before(y, x)
    ensures Map(f, Insert(before, x, s)) == Insert(beforeR, f(x), Map(f, s))
  {
    if s == [] {
    } else if before(s[0], x) {
      assert s[0] in s && forall y :: y in s[1..] ==> y in s;
      MapInsert(before, beforeR, f, x, s[1..]);
      MapStep(f, s);
      MapCons(f, s[0], Insert(before, x, s[1..]));
    } else {
      assert s[0] in s;
      MapCons(f, x, s);
    }
  }

  lemma {:induction false} MapSort<T, R>(before: (T, T) -> bool, beforeR: (R, R) -> bool, f: T -> R, s: seq<T>)
    requires forall x, y :: x in s && y in s ==> beforeR(f(x), f(y)) == before(x, y)
    ensures Map(f, StableSort(before, s)) == StableSort(beforeR, Map(f, s))
  {
    if s != [] {
      assert s[0] in s && forall x :: x in s[1..] ==> x in s;
      MapSort(before, beforeR, f, s[1..]);
      MapInsert(before, beforeR, f, s[0], StableSort(before, s[1..]));
      MapStep(f, s);
    }
  }

  // Each element is related to every later one.
  ghost predicate Pairwise<T>(related: (T, T) -> bool, s: seq<T>) {
    forall i, j :: 0 <= i < j < |s| ==> related(s[i], s[j])
  }

  // Sorted first, or tied and related.
  function Ranks<T>(before: (T, T) -> bool, related: (T, T) -> bool): (T, T) -> bool {
    (x: T, y: T) => before(x, y) || (!before(y, x) && related(x, y))
  }

  lemma RanksHead<T(!new)>(before: (T, T) -> bool, related: (T, T) -> bool, x: T, s: seq<T>, y: T)
    requires WeakOrder(before) && Pairwise(Ranks(before, related), s) && y in s && !before(s[0], x)
    requires related(x, y)
    ensures Ranks(before, related)(x, y)
  {
    var j :| 0 <= j < |s| && s[j] == y;
    if j > 0 {
      assert Ranks(before, related)(s[0], s[j]);
      assert !before(y, s[0]);
    }
  }

  lemma {:induction false} InsertRanks<T(!new)>(before: (T, T) -> bool, related: (T, T) -> bool, x: T, s: seq<T>)
    requires WeakOrder(before) && Pairwise(Ranks(before, related), s) && forall y :: y in s ==> related(x, y)
    ensures Pairwise(Ranks(before, related), Insert(before, x, s))
  {
    if s == [] || !before(s[0], x) {
      forall j | 0 <= j < |s| ensures Ranks(before, related)(x, s[j]) {
        RanksHead(before, related, x, s, s[j]);
      }
    } else {
      assert s[0] in s && forall y :: y in s[1..] ==> y in s;
      InsertRanks(before, related, x, s[1..]);
      var t := Insert(before, x, s[1..]);
      forall j | 0 <= j < |t| ensures Ranks(before, related)(s[0], t[j]) {
        assert t[j] in multiset(t);
        assert t[j] == x || t[j] in s[1..];
      }
    }
  }

  // How ties were related before sorting they are afterwards.
  lemma {:induction false} SortRanks<T(!new)>(before: (T, T) -> bool, related: (T, T) -> bool, s: seq<T>)
    requires WeakOrder(before) && Pairwise(related, s)
    ensures Pairwise(Ranks(before, related), StableSort(before, s))
  {
    if s != [] {
      SortRanks(before, related, s[1..]);
      forall y | y in StableSort(before, s[1..]) ensures related(s[0], y) {
        var k :| 0 <= k < |s[1..]| && s[1..][k] == y;
        assert related(s[0], s[k+1]);
      }
      InsertRanks(before, related, s[0], StableSort(before, s[1..]));
    }
  }

  // The elements that compare equal to x.
  function Ties<T>(before: (T, T) -> bool, x: T): T -> bool {
    y => !before(x, y) && !before(y, x)
  }

  // Ordered and keeping ties in order leaves one possible result, so it does
  // not matter which stable algorithm the library uses.
  lemma {:induction false} SortUnique<T(!new)>(before: (T, T) -> bool, s: seq<T>, t: seq<T>)
    requires WeakOrder(before) && Ordered(before, t)
    requires forall x :: Filter(Ties(before, x), t) == Filter(Ties(before, x), s)
    ensures t == StableSort(before, s)
  {
    var u := StableSort(before, s);
    SortOrdered(before, s);
    forall x ensures Filter(Ties(before, x), u) == Filter(Ties(before, x), t) {
      FilterSort(before, Ties(before, x), s);
      var f := Filter(Ties(before, x), s);
      AllTied(before, f, x);
    }
    OrderedSame(before, t, u);
  }

  lemma {:induction false} AllTied<T(!new)>(before: (T, T) -> bool, s: seq<T>, x: T)
    requires WeakOrder(before)
    requires forall y :: y in s ==> Ties(before, x)(y)
    ensures StableSort(before, s) == s
  {
    if s != [] {
      AllTied(before, s[1..], x);
      forall y | y in s[1..] ensures !before(y, s[0]) {
        assert y in s && Ties(before, x)(y) && Ties(before, x)(s[0]);
      }
      InsertFirst(before, s[0], s[1..]);
    }
  }

  lemma {:induction false} OrderedSame<T(!new)>(before: (T, T) -> bool, t: seq<T>, u: seq<T>)
    requires WeakOrder(before) && Ordered(before, t) && Ordered(before, u)
    requires forall x :: Filter(Ties(before, x), u) == Filter(Ties(before, x), t)
    ensures t == u
    decreases |t|
  {
    assert u != [] ==> u[0] in Filter(Ties(before, u[0]), u);
    if t != [] {
      assert t[0] in Filter(Ties(before, t[0]), t);
      assert t[0] in u;
      assert u[0] in Filter(Ties(before, u[0]), u);
      assert u[0] in t;
      // Both heads are least, so they tie, and the first of a tie class is
      // the same on both sides.
      var i :| 0 <= i < |u| && u[i] == t[0];
      var j :| 0 <= j < |t| && t[j] == u[0];
      assert Ties(before, t[0])(u[0]);
      assert Filter(Ties(before, t[0]), t)[0] == t[0];
      assert Filter(Ties(before, t[0]), u)[0] == u[0];
      forall x ensures Filter(Ties(before, x), u[1..]) == Filter(Ties(before, x), t[1..]) {
        assert Filter(Ties(before, x), u) == Filter(Ties(before, x), t);
        var ties := Ties(before, x);
        if ties(t[0]) {
          assert Filter(ties, t)[1..] == Filter(ties, t[1..]);
          assert Filter(ties, u)[1..] == Filter(ties, u[1..]);
        }
      }
      OrderedSame(before, t[1..], u[1..]);
    }
  }
}
