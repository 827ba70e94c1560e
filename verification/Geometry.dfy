// Boxes normalized to the frame and how much two of them overlap.
module Geometry {
  datatype Rect = Rect(x: real, y: real, w: real, h: real)

  // How the overlap of two boxes is measured, where the measure itself does
  // not matter.
  type Overlap = (Rect, Rect) -> real

  // Boxes overlapping more than this are the same object.
  const DUPLICATE_IOU: real := 0.5

  function Min(a: real, b: real): real {
    if a <= b then a else b
  }

  function Max(a: real, b: real): real {
    if a >= b then a else b
  }

  function Abs(a: real): real {
    if a < 0.0 then -a else a
  }

  function OverlapWidth(a: Rect, b: Rect): real {
    Min(a.x + a.w, b.x + b.w) - Max(a.x, b.x)
  }

  function OverlapHeight(a: Rect, b: Rect): real {
    Min(a.y + a.h, b.y + b.h) - Max(a.y, b.y)
  }

  lemma Product(a: real, b: real, c: real, d: real)
    requires 0.0 < a <= c && 0.0 < b <= d
    ensures 0.0 < a * b <= c * d
  {
    assert a * b <= c * b;
    assert c * b <= c * d;
  }

  // Overlapping boxes have positive area whatever their sides are, so the
  // union never vanishes.
  lemma OverlapPositive(a: Rect, b: Rect)
    requires OverlapWidth(a, b) > 0.0 && OverlapHeight(a, b) > 0.0
    ensures var inter := OverlapWidth(a, b) * OverlapHeight(a, b);
            0.0 < inter <= a.w * a.h && inter <= b.w * b.h
  {
    Product(OverlapWidth(a, b), OverlapHeight(a, b), a.w, a.h);
    Product(OverlapWidth(a, b), OverlapHeight(a, b), b.w, b.h);
  }

  // The part a shared area makes up of two areas together.
  function Share(inter: real, areas: real): (r: real)
    requires 0.0 < inter && 2.0 * inter <= areas
    ensures 0.0 < r <= 1.0
    ensures r == 1.0 <==> 2.0 * inter == areas
  {
    assert inter / (areas - inter) * (areas - inter) == inter;
    inter / (areas - inter)
  }

  function Area(r: Rect): real {
    r.w * r.h
  }

  // An intersection of the given sides over the union of two areas.
  function Ratio(w: real, h: real, areas: real): (r: real)
    requires w > 0.0 && h > 0.0 ==> 0.0 < w * h && 2.0 * (w * h) <= areas
    ensures 0.0 <= r <= 1.0
  {
    if w <= 0.0 || h <= 0.0 then 0.0 else Share(w * h, areas)
  }

  // Intersection over union.
  function Iou(a: Rect, b: Rect): (r: real)
    ensures 0.0 <= r <= 1.0
  {
    var w, h := OverlapWidth(a, b), OverlapHeight(a, b);
    FitsBoth(a, b, w, h);
    Ratio(w, h, Area(a) + Area(b))
  }

  lemma FitsBoth(a: Rect, b: Rect, w: real, h: real)
    requires w == OverlapWidth(a, b) && h == OverlapHeight(a, b)
    ensures w > 0.0 && h > 0.0 ==> 0.0 < w * h && 2.0 * (w * h) <= Area(a) + Area(b)
  {
    if w > 0.0 && h > 0.0 {
      OverlapPositive(a, b);
    }
  }

  lemma OverlapSymmetric(a: Rect, b: Rect)
    ensures OverlapWidth(a, b) == OverlapWidth(b, a)
    ensures OverlapHeight(a, b) == OverlapHeight(b, a)
  {
  }

  // Overlap does not depend on the order of the boxes.
  lemma IouSymmetric(a: Rect, b: Rect)
    ensures Iou(a, b) == Iou(b, a)
  {
    OverlapSymmetric(a, b);
  }

  // Boxes with area overlap completely only when they are equal.
  lemma IouComplete(a: Rect, b: Rect)
    requires a.w > 0.0 && a.h > 0.0
    ensures Iou(a, b) == 1.0 <==> a == b
  {
    if Iou(a, b) == 1.0 {
      OverlapPositive(a, b);
      FullOverlap(a, b);
    }
    if a == b {
      assert OverlapWidth(a, b) == a.w && OverlapHeight(a, b) == a.h;
    }
  }

  lemma StrictProduct(a: real, b: real, c: real, d: real)
    requires 0.0 < a <= c && 0.0 < b <= d && (a < c || b < d)
    ensures a * b < c * d
  {
    assert a * b <= c * b <= c * d;
    assert a < c ==> a * b < c * b;
    assert b < d ==> c * b < c * d;
  }

  // The intersection fills both boxes only if they are the same box.
  lemma FullOverlap(a: Rect, b: Rect)
    requires OverlapWidth(a, b) > 0.0 && OverlapHeight(a, b) > 0.0
    requires OverlapWidth(a, b) * OverlapHeight(a, b) == a.w * a.h == b.w * b.h
    ensures a == b
  {
    var w, h := OverlapWidth(a, b), OverlapHeight(a, b);
    if w != a.w || h != a.h {
      StrictProduct(w, h, a.w, a.h);
    } else if w != b.w || h != b.h {
      StrictProduct(w, h, b.w, b.h);
    }
  }

  // ---- What the overlap measures

  predicate Covers(r: Rect, x: real, y: real) {
    r.x <= x <= r.x + r.w && r.y <= y <= r.y + r.h
  }

  // The overlap's sides are those of the points both boxes cover.
  lemma OverlapIsShared(a: Rect, b: Rect, x: real, y: real)
    ensures var shared := Rect(if a.x < b.x then b.x else a.x, if a.y < b.y then b.y else a.y,
                               OverlapWidth(a, b), OverlapHeight(a, b));
            Covers(a, x, y) && Covers(b, x, y) <==> Covers(shared, x, y)
  {
  }

  // The area both boxes cover over the area either covers, and nothing for
  // boxes that only touch.
  lemma IouTells(a: Rect, b: Rect, w: real, h: real, whole: real)
    requires w == OverlapWidth(a, b) && h == OverlapHeight(a, b) && whole == Area(a) + Area(b) - w * h
    ensures if w > 0.0 && h > 0.0 then Iou(a, b) * whole == w * h else Iou(a, b) == 0.0
  {
    FitsBoth(a, b, w, h);
    RatioTells(w, h, Area(a) + Area(b), whole, Iou(a, b));
  }

  lemma RatioTells(w: real, h: real, areas: real, whole: real, ratio: real)
    requires w > 0.0 && h > 0.0 ==> 0.0 < w * h && 2.0 * (w * h) <= areas
    requires whole == areas - w * h && ratio == Ratio(w, h, areas)
    ensures if w > 0.0 && h > 0.0 then ratio * whole == w * h else ratio == 0.0
  {
  }

  // A box inside another overlaps it by the ratio of their areas.
  lemma IouOfInner(a: Rect, b: Rect)
    requires a.x <= b.x && b.x + b.w <= a.x + a.w && a.y <= b.y && b.y + b.h <= a.y + a.h
    requires b.w > 0.0 && b.h > 0.0
    ensures Iou(a, b) * (a.w * a.h) == b.w * b.h
  {
    IouTells(a, b, b.w, b.h, a.w * a.h);
  }

  // A box moved sideways by less than its width.
  lemma IouOfShifted(a: Rect, d: real)
    requires a.w > 0.0 && a.h > 0.0 && 0.0 <= d < a.w
    ensures Iou(a, a.(x := a.x + d)) * (a.w + d) == a.w - d
  {
    IouTells(a, a.(x := a.x + d), a.w - d, a.h, (a.w + d) * a.h);
    ScaledOut(Iou(a, a.(x := a.x + d)), a.w + d, a.w - d, a.h);
  }

  // And one moved up or down by less than its height.
  lemma IouOfLifted(a: Rect, d: real)
    requires a.w > 0.0 && a.h > 0.0 && 0.0 <= d < a.h
    ensures Iou(a, a.(y := a.y + d)) * (a.h + d) == a.h - d
  {
    IouTells(a, a.(y := a.y + d), a.w, a.h - d, (a.h + d) * a.w);
    ScaledOut(Iou(a, a.(y := a.y + d)), a.h + d, a.h - d, a.w);
  }

  lemma ScaledOut(iou: real, whole: real, shared: real, side: real)
    requires side > 0.0 && iou * (whole * side) == shared * side
    ensures iou * whole == shared
  {
    assert (iou * whole - shared) * side == 0.0;
  }
}
