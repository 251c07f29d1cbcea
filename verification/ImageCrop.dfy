/** The pixels a detected document box is cropped to, and the copy the detector is shown. */
module ImageCrop {
  import opened Common


  const SCALE := 1000.0
  const PAD_RATIO := 0.03
  const SKIP_THRESHOLD := 0.75

  datatype Box = Box(x1: real, y1: real, x2: real, y2: real)

  datatype Crop = Unchanged | Unusable | Region(left: int, top: int, right: int, bottom: int)

  /** The check a detected box has passed. */
  predicate ValidBox(b: Box) {
    0.0 <= b.x1 < b.x2 <= SCALE && 0.0 <= b.y1 < b.y2 <= SCALE
  }

  /** int(): towards zero. */
  function Truncate(x: real): int { if x >= 0.0 then x.Floor else -((-x).Floor) }

  function Max(a: int, b: int): int { if a < b then b else a }
  function Min(a: int, b: int): int { if a < b then a else b }

  /** Where the padded interval [lo, hi] of a side of the given size starts and ends, in pixels. */
  function Start(lo: real, hi: real, size: int): real { Pixel(lo - Pad(lo, hi), size) }
  function End(lo: real, hi: real, size: int): real { Pixel(hi + Pad(lo, hi), size) }

  function Pad(lo: real, hi: real): real { (hi - lo) * PAD_RATIO }

  /** A coordinate on the 0-1000 scale, in pixels of a side. */
  function Pixel(x: real, size: int): real { x / SCALE * size as real }

  function First(start: real): int { Max(0, Truncate(start)) }
  function Last(end: real, size: int): int { Min(size, Truncate(end)) }

  function CropToBox(b: Box, width: int, height: int): Crop {
    var area := (b.x2 - b.x1) * (b.y2 - b.y1);
    if area / (SCALE * SCALE) >= SKIP_THRESHOLD then Unchanged
    else
      var left, right := First(Start(b.x1, b.x2, width)), Last(End(b.x1, b.x2, width), width);
      var top, bottom := First(Start(b.y1, b.y2, height)), Last(End(b.y1, b.y2, height), height);
      if right <= left || bottom <= top then Unusable else Region(left, top, right, bottom)
  }

  // ---- One side of the image ----

  lemma PixelGrows(a: real, b: real, size: int)
    requires a <= b && size >= 0
    ensures Pixel(a, size) <= Pixel(b, size)
  {
    ProductGrows(a / SCALE, b / SCALE, size as real);
  }

  lemma PixelAdds(a: real, b: real, size: int)
    ensures Pixel(a + b, size) == Pixel(a, size) + Pixel(b, size)
  {
    assert (a + b) / SCALE == a / SCALE + b / SCALE;
    Distribute(a / SCALE, b / SCALE, size as real);
  }

  lemma ProductGrows(a: real, b: real, p: real)
    requires a <= b && p >= 0.0
    ensures a * p <= b * p
  {
    assert (b - a) * p >= 0.0;
  }

  /** Padding moves the start back and the end on; the box itself lies on the image. */
  lemma PaddingWidens(lo: real, hi: real, size: int)
    requires 0.0 <= lo < hi <= SCALE && size >= 1
    ensures Start(lo, hi, size) <= Pixel(lo, size) <= Pixel(hi, size) <= End(lo, hi, size)
    ensures 0.0 <= Pixel(lo, size) && Pixel(hi, size) <= size as real
  {
    PixelGrows(lo - Pad(lo, hi), lo, size);
    PixelGrows(lo, hi, size);
    PixelGrows(hi, hi + Pad(lo, hi), size);
    PixelGrows(0.0, lo, size);
    PixelGrows(hi, SCALE, size);
  }

  /** Of an interval cut off at the image, nothing is lost at the start, and less than a pixel at
      the end; nothing is kept that is a whole pixel outside it. */
  ghost predicate Tight(first: int, last: int, start: real, end: real, size: int) {
    && first as real <= (if start < 0.0 then 0.0 else start) < first as real + 1.0
    && last as real <= (if end < size as real then end else size as real) < last as real + 1.0
  }

  /** The same of the interval [lo, hi] widened by three hundredths on both sides. */
  ghost predicate FollowsPadding(first: int, last: int, lo: real, hi: real, size: int) {
    Tight(first, last, (lo - (hi - lo) * 0.03) / 1000.0 * size as real, (hi + (hi - lo) * 0.03) / 1000.0 * size as real, size)
  }

  lemma SideIsTight(start: real, end: real, size: int)
    requires start <= end && end >= 0.0 && size >= 1 && start <= size as real
    ensures Tight(First(start), Last(end, size), start, end, size)
  {
    if start < 0.0 {
      assert (-start).Floor >= 0;
    }
  }

  lemma CropFollowsThePadding(b: Box, width: int, height: int)
    requires ValidBox(b) && width >= 1 && height >= 1
    requires CropToBox(b, width, height).Region?
    ensures var r := CropToBox(b, width, height);
      && 0 <= r.left < r.right <= width && 0 <= r.top < r.bottom <= height
      && Tight(r.left, r.right, Start(b.x1, b.x2, width), End(b.x1, b.x2, width), width)
      && Tight(r.top, r.bottom, Start(b.y1, b.y2, height), End(b.y1, b.y2, height), height)
  {
    PaddingWidens(b.x1, b.x2, width);
    PaddingWidens(b.y1, b.y2, height);
    SideIsTight(Start(b.x1, b.x2, width), End(b.x1, b.x2, width), width);
    SideIsTight(Start(b.y1, b.y2, height), End(b.y1, b.y2, height), height);
  }

  lemma TightAsWritten(first: int, last: int, lo: real, hi: real, size: int)
    requires Tight(first, last, Start(lo, hi, size), End(lo, hi, size), size)
    ensures FollowsPadding(first, last, lo, hi, size)
  {
    PaddedAsWritten(lo, hi, size);
  }

  lemma PaddedAsWritten(lo: real, hi: real, size: int)
    ensures Start(lo, hi, size) == (lo - (hi - lo) * 0.03) / 1000.0 * size as real
    ensures End(lo, hi, size) == (hi + (hi - lo) * 0.03) / 1000.0 * size as real
  {
  }

  /** A successful crop lies inside the image and follows the padded box on every side. */
  lemma CropIsTight(b: Box, width: int, height: int)
    requires ValidBox(b) && width >= 1 && height >= 1
    requires CropToBox(b, width, height).Region?
    ensures var r := CropToBox(b, width, height);
      && 0 <= r.left < r.right <= width && 0 <= r.top < r.bottom <= height
      && FollowsPadding(r.left, r.right, b.x1, b.x2, width) && FollowsPadding(r.top, r.bottom, b.y1, b.y2, height)
  {
    var r := CropToBox(b, width, height);
    CropFollowsThePadding(b, width, height);
    TightAsWritten(r.left, r.right, b.x1, b.x2, width);
    TightAsWritten(r.top, r.bottom, b.y1, b.y2, height);
  }

  predicate KeepsUpTo(k: int, hi: real, end: real) { hi <= k as real <= end }

  /** The padded extent runs past the image, or a pixel boundary lies between the end of the
      box and the end of its padding. */
  ghost predicate EndIsKept(lo: real, hi: real, size: int) {
    End(lo, hi, size) >= size as real || exists k :: KeepsUpTo(k, Pixel(hi, size), End(lo, hi, size))
  }

  lemma LastKeepsIff(hi: real, end: real, size: int)
    requires size >= 1 && 0.0 <= hi <= size as real && hi <= end
    ensures hi <= Last(end, size) as real <==> end >= size as real || exists k :: KeepsUpTo(k, hi, end)
  {
    if end < size as real {
      if hi <= Last(end, size) as real {
        assert KeepsUpTo(end.Floor, hi, end);
      }
      if k :| KeepsUpTo(k, hi, end) {
        assert k <= end.Floor;
      }
    }
  }

  lemma SideIsKeptIff(lo: real, hi: real, size: int)
    requires 0.0 <= lo < hi <= SCALE && size >= 1
    ensures First(Start(lo, hi, size)) as real <= Pixel(lo, size)
    ensures Pixel(hi, size) <= Last(End(lo, hi, size), size) as real <==> EndIsKept(lo, hi, size)
  {
    PaddingWidens(lo, hi, size);
    SideIsTight(Start(lo, hi, size), End(lo, hi, size), size);
    LastKeepsIff(Pixel(hi, size), End(lo, hi, size), size);
  }

  ghost predicate Holds(r: Crop, b: Box, width: int, height: int)
    requires r.Region?
  {
    && r.left as real <= Pixel(b.x1, width) && Pixel(b.x2, width) <= r.right as real
    && r.top as real <= Pixel(b.y1, height) && Pixel(b.y2, height) <= r.bottom as real
  }

  /** A crop contains the whole detected box exactly when, on each axis, the padding runs past
      the image or across a pixel boundary. The left and top edges are never clipped. */
  lemma DocumentIsKeptIff(b: Box, width: int, height: int)
    requires ValidBox(b) && width >= 1 && height >= 1
    requires CropToBox(b, width, height).Region?
    ensures var r := CropToBox(b, width, height);
      && r.left as real <= Pixel(b.x1, width) && r.top as real <= Pixel(b.y1, height)
      && (Holds(r, b, width, height) <==> EndIsKept(b.x1, b.x2, width) && EndIsKept(b.y1, b.y2, height))
  {
    SideIsKeptIff(b.x1, b.x2, width);
    SideIsKeptIff(b.y1, b.y2, height);
  }

  /** The padding is at least a pixel wide. */
  predicate PadsAPixel(lo: real, hi: real, size: int) { Pixel(Pad(lo, hi), size) >= 1.0 }

  lemma PadCrossesAPixel(lo: real, hi: real, size: int)
    requires 0.0 <= lo < hi <= SCALE && size >= 1 && PadsAPixel(lo, hi, size)
    ensures EndIsKept(lo, hi, size)
  {
    PixelAdds(hi, Pad(lo, hi), size);
    BoundaryWithinAPixel(Pixel(hi, size), End(lo, hi, size));
  }

  lemma BoundaryWithinAPixel(hi: real, end: real)
    requires hi + 1.0 <= end
    ensures KeepsUpTo(end.Floor, hi, end)
  {
  }

  /** In particular when the padding is a pixel or more. */
  lemma DocumentIsKept(b: Box, width: int, height: int)
    requires ValidBox(b) && width >= 1 && height >= 1
    requires CropToBox(b, width, height).Region?
    requires PadsAPixel(b.x1, b.x2, width) && PadsAPixel(b.y1, b.y2, height)
    ensures Holds(CropToBox(b, width, height), b, width, height)
  {
    PadCrossesAPixel(b.x1, b.x2, width);
    PadCrossesAPixel(b.y1, b.y2, height);
    DocumentIsKeptIff(b, width, height);
  }

  /** Otherwise it is clipped: on an image of 10 by 10 pixels the right and bottom edges
      of this box lose three quarters of a pixel. */
  lemma SmallImagesAreClipped()
    ensures ValidBox(Box(0.0, 0.0, 475.0, 475.0))
    ensures CropToBox(Box(0.0, 0.0, 475.0, 475.0), 10, 10) == Region(0, 0, 4, 4)
    ensures Pixel(475.0, 10) == 4.75
  {
    var b := Box(0.0, 0.0, 475.0, 475.0);
    assert Start(0.0, 475.0, 10) == -0.1425;
    assert End(0.0, 475.0, 10) == 4.8925;
    assert Truncate(-0.1425) == 0;
    assert Truncate(4.8925) == 4;
  }

  predicate Between(k: int, start: real, end: real, size: int) {
    1 <= k <= size && start < k as real <= end
  }

  /** A pixel boundary lies within the extent, past its start. */
  ghost predicate CrossesAPixel(start: real, end: real, size: int) {
    exists k :: Between(k, start, end, size)
  }

  lemma EmptySideIff(start: real, end: real, size: int)
    requires start <= end && end >= 0.0 && size >= 1 && start <= size as real
    ensures First(start) < Last(end, size) <==> CrossesAPixel(start, end, size)
  {
    SideIsTight(start, end, size);
    var first, last := First(start), Last(end, size);
    if first < last {
      assert Between(last, start, end, size);
    }
    if k :| Between(k, start, end, size) {
      assert first < k <= last;
    }
  }

  ghost predicate SideCrosses(lo: real, hi: real, size: int) {
    CrossesAPixel(Start(lo, hi, size), End(lo, hi, size), size)
  }

  lemma SideEmptyIff(lo: real, hi: real, size: int)
    requires 0.0 <= lo < hi <= SCALE && size >= 1
    ensures First(Start(lo, hi, size)) < Last(End(lo, hi, size), size) <==> SideCrosses(lo, hi, size)
  {
    PaddingWidens(lo, hi, size);
    EmptySideIff(Start(lo, hi, size), End(lo, hi, size), size);
  }

  /** A box of three quarters of the image or more is left alone. A smaller one is unusable
      exactly when, along some side, no pixel boundary lies within its padded extent. */
  lemma UnusableIff(b: Box, width: int, height: int)
    requires ValidBox(b) && width >= 1 && height >= 1
    ensures CropToBox(b, width, height).Unchanged? <==> (b.x2 - b.x1) * (b.y2 - b.y1) >= 750000.0
    ensures CropToBox(b, width, height).Unusable? <==>
      && (b.x2 - b.x1) * (b.y2 - b.y1) < 750000.0
      && !(SideCrosses(b.x1, b.x2, width) && SideCrosses(b.y1, b.y2, height))
  {
    ThreeQuarters((b.x2 - b.x1) * (b.y2 - b.y1));
    SideEmptyIff(b.x1, b.x2, width);
    SideEmptyIff(b.y1, b.y2, height);
  }

  lemma ThreeQuarters(area: real)
    ensures area / (SCALE * SCALE) >= SKIP_THRESHOLD <==> area >= 750000.0
  {
  }

  // ---- The copy for the detector ----

  const MAX_IMAGE_BYTES := 3750000
  const MAX_IMAGE_DIMENSION_PX := 8000

  datatype Size = Size(width: int, height: int)

  function Larger(s: Size): int { Max(s.width, s.height) }
  function Smaller(s: Size): int { Min(s.width, s.height) }

  function Halved(s: Size): Size { Size(Max(1, s.width / 2), Max(1, s.height / 2)) }

  function FitTo(side: int, larger: int): int
    requires larger > 0
  {
    Max(1, Truncate(side as real * (MAX_IMAGE_DIMENSION_PX as real / larger as real)))
  }

  function Resized(s: Size): Size
    requires Larger(s) > 0
  {
    if Larger(s) > MAX_IMAGE_DIMENSION_PX then Size(FitTo(s.width, Larger(s)), FitTo(s.height, Larger(s))) else s
  }

  /** How many bytes the encoder makes of an image of a size at a quality. */
  type Encoder = (Size, nat) -> nat

  const QUALITIES: seq<nat> := [85, 70, 55, 40]

  /** A copy: the original, or the image at some size encoded at some quality. */
  datatype Copy = Original | Encoded(size: Size, quality: nat)

  function HalvedTimes(s: Size, n: nat): Size {
    if n == 0 then s else Halved(HalvedTimes(s, n - 1))
  }

  /** No quality is small enough at the size itself, and none of the first n halvings is
      either, though there was still something to halve. */
  ghost predicate TriedInVain(encode: Encoder, s: Size, n: nat) {
    && (forall q :: 0 <= q < |QUALITIES| ==> encode(s, QUALITIES[q]) > MAX_IMAGE_BYTES)
    && forall i :: 0 <= i < n ==> encode(HalvedTimes(s, i), 40) > MAX_IMAGE_BYTES && Smaller(HalvedTimes(s, i)) > 2
  }

  /** The best of the tried qualities that fits at the size, or the first halving after it that
      fits or has a side of at most two pixels. */
  ghost predicate BestCopy(encode: Encoder, s: Size, copy: Copy) {
    copy.Encoded? &&
    if exists q :: 0 <= q < |QUALITIES| && encode(s, QUALITIES[q]) <= MAX_IMAGE_BYTES then
      copy.size == s && exists q :: 0 <= q < |QUALITIES| && copy.quality == QUALITIES[q] && FirstToFit(encode, s, q)
    else
      copy.quality == 40 && (exists n :: copy.size == HalvedTimes(s, n) && TriedInVain(encode, s, n))
        && (encode(copy.size, 40) <= MAX_IMAGE_BYTES || Smaller(copy.size) <= 2)
  }

  ghost predicate FirstToFit(encode: Encoder, s: Size, q: nat) {
    q < |QUALITIES| && encode(s, QUALITIES[q]) <= MAX_IMAGE_BYTES
    && forall r :: 0 <= r < q ==> encode(s, QUALITIES[r]) > MAX_IMAGE_BYTES
  }

  method DownscaleForDetection(encode: Encoder, original: Size, bytes: nat) returns (copy: Copy)
    requires original.width >= 1 && original.height >= 1
    ensures copy == Original <==> bytes <= 3750000 && original.width <= 8000 && original.height <= 8000
    ensures copy != Original ==> BestCopy(encode, Resized(original), copy)
  {
    if bytes <= MAX_IMAGE_BYTES && Larger(original) <= MAX_IMAGE_DIMENSION_PX {
      return Original;
    }
    var image := Resized(original);
    for q := 0 to |QUALITIES|
      invariant forall r :: 0 <= r < q ==> encode(image, QUALITIES[r]) > MAX_IMAGE_BYTES
    {
      if encode(image, QUALITIES[q]) <= MAX_IMAGE_BYTES {
        assert FirstToFit(encode, image, q);
        return Encoded(image, QUALITIES[q]);
      }
    }
    ghost var start, n := image, 0;
    assert QUALITIES[3] == 40;
    var downscaled := encode(image, 40);
    while downscaled > MAX_IMAGE_BYTES && Smaller(image) > 2
      invariant image == HalvedTimes(start, n) && downscaled == encode(image, 40)
      invariant TriedInVain(encode, start, n)
      decreases image.width
    {
      image := Halved(image);
      n := n + 1;
      downscaled := encode(image, 40);
    }
    return Encoded(image, 40);
  }

  /** Resizing is in proportion: each side times 8000 by the larger one, rounded down, and at
      least 1. */
  lemma ResizedIs(s: Size)
    requires s.width >= 1 && s.height >= 1
    ensures var larger := if s.width < s.height then s.height else s.width;
      if larger <= 8000 then Resized(s) == s
      else Resized(s).width == AtLeastOne(s.width * 8000 / larger) && Resized(s).height == AtLeastOne(s.height * 8000 / larger)
  {
    if Larger(s) > MAX_IMAGE_DIMENSION_PX {
      FitToIs(s.width, Larger(s));
      FitToIs(s.height, Larger(s));
    }
  }

  function AtLeastOne(x: int): int { if x < 1 then 1 else x }

  lemma FitToIs(side: int, larger: int)
    requires side >= 1 && larger > 0
    ensures FitTo(side, larger) == AtLeastOne(side * 8000 / larger)
  {
    var scaled, whole := side as real * (8000 as real / larger as real), side * 8000 / larger;
    QuotientIs(side * 8000, larger);
    assert scaled == (side * 8000) as real / larger as real by {
      ScaleIs(side as real, 8000.0, larger as real);
    }
    assert whole as real <= scaled < whole as real + 1.0;
  }

  lemma ScaleIs(side: real, limit: real, larger: real)
    requires larger > 0.0
    ensures side * (limit / larger) == side * limit / larger
  {
  }

  lemma QuotientIs(n: int, d: int)
    requires n >= 0 && d > 0
    ensures (n / d) as real <= n as real / d as real < (n / d) as real + 1.0
  {
    var q := n / d;
    assert n == q * d + n % d;
    assert q as real * d as real <= n as real < (q + 1) as real * d as real;
    BetweenProducts(q as real, n as real, d as real);
  }

  lemma BetweenProducts(q: real, n: real, d: real)
    requires d > 0.0 && q * d <= n < (q + 1.0) * d
    ensures q <= n / d < q + 1.0
  {
    assert n / d * d == n;
    Cancel(q, n / d, d);
    StrictlyCancel(n / d, q + 1.0, d);
  }

  lemma Cancel(a: real, b: real, d: real)
    requires d > 0.0 && a * d <= b * d
    ensures a <= b
  {
  }

  lemma StrictlyCancel(a: real, b: real, d: real)
    requires d > 0.0 && a * d < b * d
    ensures a < b
  {
  }

  /** The copy is the image at its full size and at the best quality that fits, if one of the
      four does; otherwise it is halved n times at quality 40, each time because it did not fit. */
  lemma CopyIsBest(encode: Encoder, s: Size, copy: Copy) returns (n: nat)
    requires s.width >= 1 && s.height >= 1 && BestCopy(encode, s, copy)
    ensures copy.size == Size(AtLeastOne(s.width / Power(n)), AtLeastOne(s.height / Power(n)))
    ensures copy.quality in {85, 70, 55, 40}
    ensures forall q :: q in {85, 70, 55, 40} && q > copy.quality ==> encode(s, q) > 3750000
    ensures n > 0 ==> copy.quality == 40 && encode(s, 40) > 3750000
    ensures encode(s, copy.quality) <= 3750000 ==> n == 0
    ensures forall i :: 0 <= i < n ==>
      && encode(Size(AtLeastOne(s.width / Power(i)), AtLeastOne(s.height / Power(i))), 40) > 3750000
      && AtLeastOne(s.width / Power(i)) > 2 && AtLeastOne(s.height / Power(i)) > 2
  {
    assert QUALITIES == [85, 70, 55, 40];
    if exists q :: 0 <= q < |QUALITIES| && encode(s, QUALITIES[q]) <= MAX_IMAGE_BYTES {
      var q :| 0 <= q < |QUALITIES| && copy.quality == QUALITIES[q] && FirstToFit(encode, s, q);
      n := 0;
      HalvedTimesIs(s, 0);
      BetterQualities(encode, s, q);
    } else {
      n :| copy.size == HalvedTimes(s, n) && TriedInVain(encode, s, n);
      assert encode(s, QUALITIES[0]) > 3750000 && encode(s, QUALITIES[1]) > 3750000;
      assert encode(s, QUALITIES[2]) > 3750000 && encode(s, QUALITIES[3]) > 3750000;
      HalvedTimesIs(s, n);
      forall i | 0 <= i < n
        ensures encode(Size(AtLeastOne(s.width / Power(i)), AtLeastOne(s.height / Power(i))), 40) > 3750000
        ensures AtLeastOne(s.width / Power(i)) > 2 && AtLeastOne(s.height / Power(i)) > 2
      {
        HalvedTimesIs(s, i);
      }
    }
  }

  lemma BetterQualities(encode: Encoder, s: Size, q: nat)
    requires FirstToFit(encode, s, q)
    ensures forall r :: r in {85, 70, 55, 40} && r > QUALITIES[q] ==> encode(s, r) > 3750000
  {
    forall r | r in {85, 70, 55, 40} && r > QUALITIES[q] ensures encode(s, r) > 3750000 {
      var at := if r == 85 then 0 else if r == 70 then 1 else if r == 55 then 2 else 3;
      assert QUALITIES[at] == r;
    }
  }

  function Power(n: nat): (p: nat)
    ensures p > 0
  {
    if n == 0 then 1 else 2 * Power(n - 1)
  }

  lemma {:induction false} HalvedTimesIs(s: Size, n: nat)
    requires s.width >= 1 && s.height >= 1
    ensures HalvedTimes(s, n) == Size(AtLeastOne(s.width / Power(n)), AtLeastOne(s.height / Power(n)))
  {
    if n > 0 {
      HalvedTimesIs(s, n - 1);
      HalvedAgain(s.width, Power(n - 1));
      HalvedAgain(s.height, Power(n - 1));
    }
  }

  lemma HalvedAgain(side: int, p: nat)
    requires side >= 1 && p > 0
    ensures Max(1, AtLeastOne(side / p) / 2) == AtLeastOne(side / (2 * p))
  {
    var q, r := side / p, side % p;
    assert side == q * p + r;
    var h, odd := q / 2, q % 2;
    assert side == h * (2 * p) + (odd * p + r);
    QuotientUnique(side, 2 * p, h, odd * p + r);
  }

  lemma QuotientUnique(n: int, d: int, q: int, r: int)
    requires d > 0 && n == q * d + r && 0 <= r < d
    ensures n / d == q
  {
    assert (n / d - q) * d == r - n % d;
    SmallMultiple(n / d - q, d);
  }

  lemma SmallMultiple(k: int, d: int)
    requires d > 0 && -d < k * d < d
    ensures k == 0
  {
  }

  lemma FitToWithin(side: int, larger: int)
    requires 1 <= side <= larger && larger > MAX_IMAGE_DIMENSION_PX
    ensures 1 <= FitTo(side, larger) <= MAX_IMAGE_DIMENSION_PX
    ensures side == larger ==> FitTo(side, larger) == MAX_IMAGE_DIMENSION_PX
  {
    var scale := MAX_IMAGE_DIMENSION_PX as real / larger as real;
    assert larger as real * scale == MAX_IMAGE_DIMENSION_PX as real;
    ProductGrows(side as real, larger as real, scale);
    ProductGrows(0.0, side as real, scale);
  }

  lemma {:induction false} HalvedWithin(s: Size, n: nat)
    requires 1 <= s.width <= MAX_IMAGE_DIMENSION_PX && 1 <= s.height <= MAX_IMAGE_DIMENSION_PX
    ensures var h := HalvedTimes(s, n);
      && 1 <= h.width <= s.width && 1 <= h.height <= s.height
  {
    if n > 0 {
      HalvedWithin(s, n - 1);
    }
  }

  /** Whatever the encoder does, the copy fits, or cannot be halved further; and it is never
      larger than the detector allows. */
  lemma CopyIsWithinLimits(encode: Encoder, original: Size, copy: Copy)
    requires original.width >= 1 && original.height >= 1 && BestCopy(encode, Resized(original), copy)
    ensures 1 <= copy.size.width <= 8000 && 1 <= copy.size.height <= 8000
    ensures encode(copy.size, copy.quality) <= 3750000 || copy.size.width <= 2 || copy.size.height <= 2
  {
    var s := Resized(original);
    if Larger(original) > MAX_IMAGE_DIMENSION_PX {
      FitToWithin(original.width, Larger(original));
      FitToWithin(original.height, Larger(original));
    }
    if n :| copy.size == HalvedTimes(s, n) && TriedInVain(encode, s, n) {
      HalvedWithin(s, n);
    }
  }
}
