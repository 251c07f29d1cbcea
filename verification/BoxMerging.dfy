/** Merging of field boxes that overlap by more than half. */
module BoxMerging {

  datatype Box = Box(left: real, top: real, width: real, height: real) {
    function Right(): real { left + width }
    function Bottom(): real { top + height }
    function Area(): real { width * height }
  }

  function Max(x: real, y: real): (m: real) { if x < y then y else x }
  function Min(x: real, y: real): (m: real) { if x < y then x else y }

  /** Width and height of the overlap; neither need be positive. */
  function OverlapWidth(a: Box, b: Box): real { Min(a.Right(), b.Right()) - Max(a.left, b.left) }
  function OverlapHeight(a: Box, b: Box): real { Min(a.Bottom(), b.Bottom()) - Max(a.top, b.top) }

  predicate Overlap(a: Box, b: Box) { OverlapWidth(a, b) > 0.0 && OverlapHeight(a, b) > 0.0 }

  function Intersection(a: Box, b: Box): real { OverlapWidth(a, b) * OverlapHeight(a, b) }

  lemma ProductMonotone(x: real, y: real, u: real, v: real)
    requires 0.0 <= x <= u && 0.0 <= y <= v
    ensures 0.0 <= x * y <= u * v
  {
    assert u * v - x * y == (u - x) * v + x * (v - y);
    assert (u - x) * v >= 0.0 && x * (v - y) >= 0.0 && x * y >= 0.0;
  }

  /** Overlapping boxes have positive sides, and the overlap is no larger than either. */
  lemma IntersectionFits(a: Box, b: Box)
    requires Overlap(a, b)
    ensures a.width > 0.0 && a.height > 0.0 && b.width > 0.0 && b.height > 0.0
    ensures 0.0 < Intersection(a, b) <= a.Area() && Intersection(a, b) <= b.Area()
  {
    ProductMonotone(OverlapWidth(a, b), OverlapHeight(a, b), a.width, a.height);
    ProductMonotone(OverlapWidth(a, b), OverlapHeight(a, b), b.width, b.height);
    PositiveProduct(OverlapWidth(a, b), OverlapHeight(a, b));
  }

  /** The division is defined and the ratio lies in [0, 1], whatever the two boxes are. */
  function ComputeIoU(a: Box, b: Box): (ratio: real)
    ensures 0.0 <= ratio <= 1.0
    ensures ratio > 0.0 <==> Overlap(a, b)
  {
    if !Overlap(a, b) then 0.0
    else
      IntersectionFits(a, b);
      var intersection := Intersection(a, b);
      RatioBounds(intersection, a.Area() + b.Area() - intersection);
      intersection / (a.Area() + b.Area() - intersection)
  }

  lemma RatioBounds(x: real, y: real)
    requires 0.0 < x <= y
    ensures 0.0 < x / y <= 1.0
  {
  }

  lemma RatioAboveHalf(x: real, y: real)
    requires y > 0.0
    ensures x / y > 0.5 <==> 2.0 * x > y
  {
    assert x == (x / y) * y;
    if x / y > 0.5 {
      assert (x / y - 0.5) * y > 0.0;
    } else {
      assert (0.5 - x / y) * y >= 0.0;
    }
  }

  lemma IoUSymmetric(a: Box, b: Box)
    ensures ComputeIoU(a, b) == ComputeIoU(b, a)
  {
    assert OverlapWidth(a, b) == OverlapWidth(b, a) && OverlapHeight(a, b) == OverlapHeight(b, a);
    assert Intersection(a, b) == Intersection(b, a);
  }

  /** A ratio of one means the same rectangle. */
  lemma IoUOneIffEqual(a: Box, b: Box)
    requires Overlap(a, b)
    ensures ComputeIoU(a, b) == 1.0 <==> a == b
  {
    IntersectionFits(a, b);
    var i, u := Intersection(a, b), a.Area() + b.Area() - Intersection(a, b);
    var w, h := OverlapWidth(a, b), OverlapHeight(a, b);
    if ComputeIoU(a, b) == 1.0 {
      assert i == (i / u) * u;
      assert a.Area() == i && b.Area() == i;
      SameProduct(w, h, a.width, a.height);
      SameProduct(w, h, b.width, b.height);
    }
  }

  lemma PositiveProduct(x: real, y: real)
    requires y > 0.0
    ensures x > 0.0 ==> x * y > 0.0
  {
  }

  lemma SameProduct(x: real, y: real, u: real, v: real)
    requires 0.0 < x <= u && 0.0 < y <= v && x * y == u * v
    ensures x == u && y == v
  {
    assert (u - x) * v + x * (v - y) == 0.0;
    assert (u - x) * v >= 0.0 && x * (v - y) >= 0.0;
    PositiveProduct(u - x, v);
    PositiveProduct(v - y, x);
  }

  /** The rectangle a merge produces. */
  function Union(a: Box, b: Box): Box {
    var x1, y1 := Min(a.left, b.left), Min(a.top, b.top);
    Box(x1, y1, Max(a.Right(), b.Right()) - x1, Max(a.Bottom(), b.Bottom()) - y1)
  }

  /** A ratio above one half means an overlap of more than a third of the two areas together. */
  lemma AboveHalf(a: Box, b: Box)
    ensures ComputeIoU(a, b) > 0.5 <==> Overlap(a, b) && a.Area() + b.Area() < 3.0 * Intersection(a, b)
  {
    if Overlap(a, b) {
      IntersectionFits(a, b);
      RatioAboveHalf(Intersection(a, b), a.Area() + b.Area() - Intersection(a, b));
    }
  }

  /** On each axis the union and the overlap together are as long as the two boxes. */
  lemma UnionSides(a: Box, b: Box)
    ensures Union(a, b).width == a.width + b.width - OverlapWidth(a, b)
    ensures Union(a, b).height == a.height + b.height - OverlapHeight(a, b)
  {
  }

  lemma OverlapSides(a: Box, b: Box)
    requires Overlap(a, b)
    ensures 0.0 < OverlapWidth(a, b) <= a.width && OverlapWidth(a, b) <= b.width
    ensures 0.0 < OverlapHeight(a, b) <= a.height && OverlapHeight(a, b) <= b.height
  {
  }

  /** Every merge the rule allows gives a rectangle of less than 9/4 of the overlap. */
  lemma MergeIsTight(a: Box, b: Box)
    requires ComputeIoU(a, b) > 0.5
    ensures 4.0 * Union(a, b).Area() < 9.0 * Intersection(a, b)
  {
    AboveHalf(a, b);
    TightWhenOverlapping(a, b);
  }

  lemma TightWhenOverlapping(a: Box, b: Box)
    requires Overlap(a, b) && a.Area() + b.Area() < 3.0 * Intersection(a, b)
    ensures 4.0 * Union(a, b).Area() < 9.0 * Intersection(a, b)
  {
    OverlapSides(a, b);
    UnionSides(a, b);
    TightFrom(OverlapWidth(a, b), OverlapHeight(a, b), a, b, Union(a, b));
  }

  lemma TightFrom(w: real, h: real, a: Box, b: Box, u: Box)
    requires 0.0 < w <= a.width && w <= b.width && 0.0 < h <= a.height && h <= b.height
    requires u.width == a.width + b.width - w && u.height == a.height + b.height - h
    requires a.Area() + b.Area() < 3.0 * (w * h)
    ensures 4.0 * u.Area() < 9.0 * (w * h)
  {
    var p, q, r, t := a.width - w, b.width - w, a.height - h, b.height - h;
    assert w + p == a.width && w + q == b.width && h + r == a.height && h + t == b.height;
    assert w + (p + q) == u.width && h + (r + t) == u.height;
    ExcessArea(w, h, p, r, q, t);
  }

  /** Boxes (w + p)(h + r) and (w + q)(h + t) around an overlap wh of more than a third of both areas. */
  lemma ExcessArea(w: real, h: real, p: real, r: real, q: real, t: real)
    requires w > 0.0 && h > 0.0 && p >= 0.0 && q >= 0.0 && r >= 0.0 && t >= 0.0
    requires (w + p) * (h + r) + (w + q) * (h + t) < 3.0 * (w * h)
    ensures 4.0 * ((w + (p + q)) * (h + (r + t))) < 9.0 * (w * h)
  {
    assert (w + p) * (h + r) == w * h + w * r + p * h + p * r;
    assert (w + q) * (h + t) == w * h + w * t + q * h + q * t;
    assert p * r >= 0.0 && q * t >= 0.0;
    assert w * (r + t) + (p + q) * h == w * r + w * t + p * h + q * h;
    ExcessBound(w, h, p + q, r + t);
  }

  /** (w + x)(h + y) < 9/4 wh when wy + xh < wh. */
  lemma ExcessBound(w: real, h: real, x: real, y: real)
    requires w > 0.0 && h > 0.0 && x >= 0.0 && y >= 0.0
    requires w * y + x * h < w * h
    ensures 4.0 * ((w + x) * (h + y)) < 9.0 * (w * h)
  {
    var s, t, m := w * y, x * h, w * h;
    assert (w + x) * (h + y) == m + s + t + x * y;
    assert x * y * m == s * t by {
      assert x * y * (w * h) == (w * y) * (x * h);
    }
    assert 4.0 * (s * t) <= (s + t) * (s + t) by {
      assert (s + t) * (s + t) - 4.0 * (s * t) == (s - t) * (s - t);
    }
    assert s >= 0.0 && t >= 0.0 && m > 0.0;
    assert (s + t) * (s + t) <= (s + t) * m;
    assert 4.0 * (x * y * m) <= (s + t) * m;
    assert 4.0 * (x * y) <= s + t by {
      PositiveProduct(4.0 * (x * y) - (s + t), m);
    }
  }
}
