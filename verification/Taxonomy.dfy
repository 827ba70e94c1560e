// Label types, their attributes, and the class names they export.
module Taxonomy {
  import opened Sequences

  datatype Attribute = Attribute(name: string, options: seq<string>)

  datatype LabelType = LabelType(id: nat, name: string, attributes: seq<Attribute>)

  type Values = map<string, string>

  // A missing value reads as the empty one.
  function ValueOf(values: Values, name: string): string {
    if name in values then values[name] else ""
  }

  // Every attribute has one of its options.
  predicate Complete(defs: seq<Attribute>, values: Values) {
    forall k :: 0 <= k < |defs| ==> ValueOf(values, defs[k].name) in defs[k].options
  }

  // The type's name and its values in the order of the attributes, dashed.
  function ClassName(name: string, defs: seq<Attribute>, values: Values): string {
    if defs == [] then name
    else
      var last := |defs| - 1;
      ClassName(name, defs[..last], values) + "-" + ValueOf(values, defs[last].name)
  }

  function Suffixed(c: string): string -> string {
    (o: string) => c + "-" + o
  }

  function Widened(classes: seq<string>, options: seq<string>): seq<string> {
    if classes == [] then []
    else
      var last := |classes| - 1;
      Widened(classes[..last], options) + Map(Suffixed(classes[last]), options)
  }

  // Every class name the type can produce.
  function Classes(name: string, defs: seq<Attribute>): seq<string> {
    if defs == [] then [name]
    else
      var last := |defs| - 1;
      Widened(Classes(name, defs[..last]), defs[last].options)
  }

  method ListClasses(name: string, defs: seq<Attribute>) returns (classes: seq<string>)
    ensures classes == Classes(name, defs)
  {
    classes := [name];
    for i := 0 to |defs|
      invariant classes == Classes(name, defs[..i])
    {
      assert defs[..i+1][..i] == defs[..i];
      classes := Widen(classes, defs[i].options);
    }
    assert defs[..|defs|] == defs;
  }

  method Widen(classes: seq<string>, options: seq<string>) returns (next: seq<string>)
    ensures next == Widened(classes, options)
  {
    next := [];
    for i := 0 to |classes|
      invariant next == Widened(classes[..i], options)
    {
      assert classes[..i+1][..i] == classes[..i];
      next := Suffix(classes[i], options, next);
    }
    assert classes[..|classes|] == classes;
  }

  method Suffix(c: string, options: seq<string>, before: seq<string>) returns (next: seq<string>)
    ensures next == before + Map(Suffixed(c), options)
  {
    next := before;
    for j := 0 to |options|
      invariant next == before + Map(Suffixed(c), options[..j])
    {
      MapAppend(Suffixed(c), options[..j], [options[j]]);
      assert options[..j+1] == options[..j] + [options[j]];
      next := next + [c + "-" + options[j]];
    }
    assert options[..|options|] == options;
  }

  lemma {:induction false} WidenedIff(classes: seq<string>, options: seq<string>, s: string)
    ensures s in Widened(classes, options) <==> exists c, o :: c in classes && o in options && s == Suffixed(c)(o)
  {
    if classes != [] {
      var last := |classes| - 1;
      WidenedIff(classes[..last], options, s);
      assert classes == classes[..last] + [classes[last]];
      var tail := Map(Suffixed(classes[last]), options);
      if s in tail {
        var k :| 0 <= k < |tail| && tail[k] == s;
        assert s == Suffixed(classes[last])(options[k]);
      }
      if o :| o in options && s == Suffixed(classes[last])(o) {
        var k :| 0 <= k < |options| && options[k] == o;
        assert tail[k] == s;
      }
    }
  }

  // A complete box's class is one the type lists.
  lemma {:induction false} CompleteIsListed(name: string, defs: seq<Attribute>, values: Values)
    requires Complete(defs, values)
    ensures ClassName(name, defs, values) in Classes(name, defs)
  {
    if defs != [] {
      var last := |defs| - 1;
      CompleteIsListed(name, defs[..last], values);
      WidenedIff(Classes(name, defs[..last]), defs[last].options, ClassName(name, defs, values));
      assert ClassName(name, defs, values) ==
             Suffixed(ClassName(name, defs[..last], values))(ValueOf(values, defs[last].name));
    }
  }

  // ---- Names without dashes are told apart

  predicate Plain(s: string) {
    '-' !in s
  }

  predicate AllPlain(defs: seq<Attribute>) {
    forall k :: 0 <= k < |defs| ==> forall o :: o in defs[k].options ==> Plain(o)
  }

  lemma LongerHead(a: string, b: string, c: string, d: string)
    requires a + "-" + b == c + "-" + d && |a| < |c|
    ensures !Plain(b)
  {
    var s := a + "-" + b;
    assert s[|c|] == (c + "-" + d)[|c|] == '-';
    assert s[|c|] == b[|c| - |a| - 1];
  }

  // A dashed name splits in one way at its last dash.
  lemma LastDash(a: string, b: string, c: string, d: string)
    requires Plain(b) && Plain(d) && a + "-" + b == c + "-" + d
    ensures a == c && b == d
  {
    if |a| < |c| {
      LongerHead(a, b, c, d);
    } else if |c| < |a| {
      LongerHead(c, d, a, b);
    } else {
      var s := a + "-" + b;
      assert s[..|a|] == a && s[..|a|] == c;
      assert s[|a|+1..] == b && s[|a|+1..] == d;
    }
  }

  lemma {:induction false} DashesIn(name: string, defs: seq<Attribute>, values: Values)
    requires defs != []
    ensures !Plain(ClassName(name, defs, values))
  {
    var last := |defs| - 1;
    var head := ClassName(name, defs[..last], values);
    assert ClassName(name, defs, values)[|head|] == '-';
  }

  // So a class name gives back the type it is of and every value, whatever
  // the types' attributes are.
  lemma {:induction false} ClassNamesDiffer(a: string, da: seq<Attribute>, va: Values, b: string, db: seq<Attribute>,
                                            vb: Values)
    requires Plain(a) && Plain(b) && AllPlain(da) && AllPlain(db)
    requires Complete(da, va) && Complete(db, vb)
    requires ClassName(a, da, va) == ClassName(b, db, vb)
    ensures a == b && |da| == |db|
    ensures forall k :: 0 <= k < |da| ==> ValueOf(va, da[k].name) == ValueOf(vb, db[k].name)
  {
    if da == [] && db != [] {
      DashesIn(b, db, vb);
    } else if da != [] && db == [] {
      DashesIn(a, da, va);
    } else if da != [] {
      var la, lb := |da| - 1, |db| - 1;
      LastDash(ClassName(a, da[..la], va), ValueOf(va, da[la].name), ClassName(b, db[..lb], vb),
               ValueOf(vb, db[lb].name));
      ClassNamesDiffer(a, da[..la], va, b, db[..lb], vb);
      forall k | 0 <= k < |da| ensures ValueOf(va, da[k].name) == ValueOf(vb, db[k].name) {
        if k < la {
          assert da[..la][k] == da[k] && db[..lb][k] == db[k];
        }
      }
    }
  }

  lemma ListedSplits(name: string, defs: seq<Attribute>, values: Values)
    requires defs != [] && ClassName(name, defs, values) in Classes(name, defs)
    requires var last := defs[|defs|-1];
             Plain(ValueOf(values, last.name)) && forall o :: o in last.options ==> Plain(o)
    ensures var n := |defs| - 1;
            ClassName(name, defs[..n], values) in Classes(name, defs[..n])
            && ValueOf(values, defs[n].name) in defs[n].options
  {
    var n := |defs| - 1;
    WidenedIff(Classes(name, defs[..n]), defs[n].options, ClassName(name, defs, values));
    var c, o :| c in Classes(name, defs[..n]) && o in defs[n].options
                && ClassName(name, defs, values) == Suffixed(c)(o);
    LastDash(ClassName(name, defs[..n], values), ValueOf(values, defs[n].name), c, o);
  }

  // With dash-free options and values only a complete box has a listed class.
  lemma {:induction false} ListedIsComplete(name: string, defs: seq<Attribute>, values: Values)
    requires AllPlain(defs) && forall k :: 0 <= k < |defs| ==> Plain(ValueOf(values, defs[k].name))
    requires ClassName(name, defs, values) in Classes(name, defs)
    ensures Complete(defs, values)
  {
    if defs != [] {
      var last := |defs| - 1;
      ListedSplits(name, defs, values);
      ListedIsComplete(name, defs[..last], values);
      forall k | 0 <= k < |defs| ensures ValueOf(values, defs[k].name) in defs[k].options {
        assert k < last ==> defs[..last][k] == defs[k];
      }
    }
  }

  // A size and a colour, as in torpedo_hole-big-red.
  lemma TwoValues(name: string, size: Attribute, colour: Attribute, values: Values)
    requires size.name in values && colour.name in values
    ensures ClassName(name, [size, colour], values) == name + "-" + values[size.name] + "-" + values[colour.name]
  {
    var defs := [size, colour];
    assert defs[..1] == [size] && [size][..0] == [];
    assert ClassName(name, [size], values) == name + "-" + values[size.name];
  }

  // ---- The order classes are listed in

  // Each class so far is followed through all options before the next.
  lemma {:induction false} WidenedAt(classes: seq<string>, options: seq<string>, i: nat, j: nat)
    requires i < |classes| && j < |options|
    ensures var all := Widened(classes, options);
            && |all| == |classes| * |options|
            && 0 <= i * |options| + j < |all| && all[i * |options| + j] == classes[i] + "-" + options[j]
  {
    var last := |classes| - 1;
    var before := Widened(classes[..last], options);
    WidenedLength(classes[..last], options);
    WidenedLength(classes, options);
    Grid(i, j, |classes|, |options|);
    if i < last {
      WidenedAt(classes[..last], options, i, j);
    } else {
      assert Widened(classes, options)[|before| + j] == Suffixed(classes[last])(options[j]);
    }
  }

  lemma {:induction false} WidenedLength(classes: seq<string>, options: seq<string>)
    ensures |Widened(classes, options)| == |classes| * |options|
  {
    if classes != [] {
      WidenedLength(classes[..|classes|-1], options);
      assert |classes| * |options| == (|classes| - 1) * |options| + |options|;
    }
  }

  lemma Grid(i: nat, j: nat, n: nat, m: nat)
    requires i < n && j < m
    ensures 0 <= i * m + j < n * m
  {
    assert (i + 1) * m <= n * m;
  }
}
