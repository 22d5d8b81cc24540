/** Images made for a model: the dimensions they are reduced to, and bilinear resampling, over
    the reals. */
module ModelImage {

  const MODEL_MAX := 2048
  const SCREENSHOT_MAX := 1536
  const SCREENSHOT_PIXELS := 1200000

  function Max(a: int, b: int): int {
    if a >= b then a else b
  }

  function MinInt(a: int, b: int): int {
    if a <= b then a else b
  }

  function MinReal(a: real, b: real): real {
    if a <= b then a else b
  }

  /** The nearest integer, halves going up; all values here are positive. */
  function Round(x: real): int {
    (x + 0.5).Floor
  }

  predicate IsRoot(root: real, x: real) {
    root >= 0.0 && root * root == x
  }

  // ----- dimensions

  /** The square root the scale of a screenshot may be. */
  predicate IsPixelRoot(root: real, width: int, height: int) {
    width > 0 && height > 0 ==> IsRoot(root, SCREENSHOT_PIXELS as real / (width as real * height as real))
  }

  function Scale(width: int, height: int, root: real): real
    requires width > 0 && height > 0
  {
    MinReal(MinReal(1.0, SCREENSHOT_MAX as real / Max(width, height) as real), root)
  }

  function Scaled(side: int, scale: real): int {
    Max(1, (side as real * scale).Floor)
  }

  function ScreenshotDimensions(width: int, height: int, root: real): (int, int)
    requires IsPixelRoot(root, width, height)
  {
    if width <= 0 || height <= 0 then (0, 0)
    else
      var scale := Scale(width, height, root);
      (Scaled(width, scale), Scaled(height, scale))
  }

  lemma MulMono(a: real, b: real, c: real)
    requires a <= b && c >= 0.0
    ensures c * a <= c * b && a * c <= b * c
  {
  }

  lemma NegTimesPos(x: real, b: real)
    requires x < 0.0 < b
    ensures x * b < 0.0
  {
  }

  /** A factor has the sign of the product when the other one is positive. */
  lemma NonNegative(x: real, b: real)
    requires b > 0.0 && x * b >= 0.0
    ensures x >= 0.0
  {
    if x < 0.0 {
      NegTimesPos(x, b);
    }
  }

  lemma DivTimes(a: real, b: real)
    requires b != 0.0
    ensures a / b * b == a
  {
  }

  lemma AtMost(q: real, limit: real, b: real)
    requires b > 0.0 && q * b <= limit * b
    ensures q <= limit
  {
    assert (limit - q) * b == limit * b - q * b;
    NonNegative(limit - q, b);
  }

  predicate WithinLimits(x: real, y: real) {
    x <= SCREENSHOT_MAX as real && y <= SCREENSHOT_MAX as real && x * y <= SCREENSHOT_PIXELS as real
  }

  predicate FitsScreenshot(width: int, height: int) {
    width <= SCREENSHOT_MAX && height <= SCREENSHOT_MAX && width * height <= SCREENSHOT_PIXELS
  }

  /** The scale enlarges nothing, and brings every side and the area within the limits. */
  lemma ScaleBounds(width: int, height: int, root: real) returns (x: real, y: real)
    requires width > 0 && height > 0 && IsPixelRoot(root, width, height)
    ensures var s := Scale(width, height, root);
            0.0 <= s <= 1.0 && x == width as real * s && y == height as real * s && WithinLimits(x, y)
  {
    hide Scale, Max, WithinLimits;
    var w, h, s := width as real, height as real, Scale(width, height, root);
    var m, limit := Max(width, height) as real, SCREENSHOT_MAX as real;
    x, y := w * s, h * s;
    Longer(width, height);
    Quotient(limit, m);
    ScaleIsLeast(width, height, root);
    SideBound(w, m, s, limit / m, limit);
    SideBound(h, m, s, limit / m, limit);
    AreaIsPositive(w, h);
    AreaBound(w, h, s, root);
    Together(x, y);
  }

  lemma Longer(a: int, b: int)
    ensures a <= Max(a, b) && b <= Max(a, b)
  {
  }

  lemma ScaleIsLeast(width: int, height: int, root: real)
    requires width > 0 && height > 0 && root >= 0.0 && SCREENSHOT_MAX as real / Max(width, height) as real >= 0.0
    ensures var s := Scale(width, height, root);
            0.0 <= s <= 1.0 && s <= SCREENSHOT_MAX as real / Max(width, height) as real && s <= root
  {
    hide Max;
  }

  lemma Quotient(a: real, b: real)
    requires a > 0.0 && b > 0.0
    ensures a / b >= 0.0 && a / b * b == a
  {
    DivTimes(a, b);
    NonNegative(a / b, b);
  }

  lemma AreaIsPositive(a: real, b: real)
    requires a > 0.0 && b > 0.0
    ensures a * b > 0.0
  {
  }

  lemma SideBound(side: real, m: real, s: real, most: real, limit: real)
    requires side <= m && 0.0 <= s <= most && m > 0.0 && most * m == limit
    ensures side * s <= limit
  {
    MulMono(s, most, m);
    MulMono(side, m, s);
  }

  lemma Together(x: real, y: real)
    requires x <= SCREENSHOT_MAX as real && y <= SCREENSHOT_MAX as real && x * y <= SCREENSHOT_PIXELS as real
    ensures WithinLimits(x, y)
  {
  }

  lemma AreaBound(w: real, h: real, s: real, root: real)
    requires w > 0.0 && h > 0.0 && 0.0 <= s <= root && w * h > 0.0
    requires root * root == SCREENSHOT_PIXELS as real / (w * h)
    ensures (w * s) * (h * s) <= SCREENSHOT_PIXELS as real
  {
    var a := w * h;
    MulMono(s, root, s);
    MulMono(s, root, root);
    assert s * s <= root * root;
    MulMono(s * s, root * root, a);
    assert (w * s) * (h * s) == a * (s * s);
    DivTimes(SCREENSHOT_PIXELS as real, a);
  }

  lemma FloorBelow(x: real, n: int)
    requires x <= n as real
    ensures x.Floor <= n
  {
  }

  lemma ScaledBounds(side: int, s: real)
    requires side > 0 && 0.0 <= s <= 1.0
    ensures 1 <= Scaled(side, s) <= side
    ensures Scaled(side, s) == 1 || Scaled(side, s) as real <= side as real * s
    ensures side as real * s < Scaled(side, s) as real + 1.0
  {
    MulMono(s, 1.0, side as real);
    FloorBelow(side as real * s, side);
  }

  lemma ProductBelow(a: int, b: int, x: real, y: real, limit: int)
    requires 1 <= a && 1 <= b && a as real <= x && b as real <= y && x * y <= limit as real
    ensures a * b <= limit
  {
    MulMono(a as real, x, b as real);
    MulMono(b as real, y, x);
    assert (a * b) as real == a as real * b as real;
  }

  /** A reduced screenshot is no larger than it was, no side exceeds 1536, and its area stays
      within 1,200,000, also when a side is raised to one. */
  lemma ScreenshotFits(width: int, height: int, root: real)
    requires width > 0 && height > 0 && IsPixelRoot(root, width, height)
    ensures var (w, h) := ScreenshotDimensions(width, height, root);
            && 1 <= w <= width && 1 <= h <= height && FitsScreenshot(w, h)
  {
    hide Scale, Scaled, IsPixelRoot, WithinLimits, FitsScreenshot;
    var s := Scale(width, height, root);
    var w, h := Scaled(width, s), Scaled(height, s);
    var x, y := ScaleBounds(width, height, root);
    ScaledBounds(width, s);
    ScaledBounds(height, s);
    AreaFits(w, h, x, y);
  }

  lemma AreaFits(w: int, h: int, x: real, y: real)
    requires 1 <= w && 1 <= h && (w == 1 || w as real <= x) && (h == 1 || h as real <= y)
    requires WithinLimits(x, y)
    ensures FitsScreenshot(w, h)
  {
    if w != 1 && h != 1 {
      ProductBelow(w, h, x, y, SCREENSHOT_PIXELS);
    }
  }

  /** As long as no side had to be raised to one, the sides stay in proportion to within one
      pixel: scaled to a common length they differ by less than a side of the original. */
  lemma ScreenshotKeepsShape(width: int, height: int, root: real)
    requires width > 0 && height > 0 && IsPixelRoot(root, width, height)
    requires var (w, h) := ScreenshotDimensions(width, height, root); w > 1 && h > 1
    ensures var (w, h) := ScreenshotDimensions(width, height, root);
            -height < w * height - h * width < width
  {
    hide Scale, Scaled, IsPixelRoot, WithinLimits;
    var s := Scale(width, height, root);
    var x, y := ScaleBounds(width, height, root);
    ScaledBounds(width, s);
    ScaledBounds(height, s);
    Proportion(width, height, s, x, y, Scaled(width, s), Scaled(height, s));
  }

  lemma Proportion(width: int, height: int, s: real, x: real, y: real, w: int, h: int)
    requires width > 0 && height > 0 && x == width as real * s && y == height as real * s
    requires w as real <= x < w as real + 1.0 && h as real <= y < h as real + 1.0
    ensures -height < w * height - h * width < width
  {
    CrossBelow(w as real, h as real, x, y, width as real, height as real, s);
    CrossBelow(h as real, w as real, y, x, height as real, width as real, s);
    assert (w * height) as real == w as real * height as real && (h * width) as real == h as real * width as real;
  }

  lemma CrossBelow(p: real, q: real, x: real, y: real, a: real, b: real, s: real)
    requires a > 0.0 && b > 0.0 && x == a * s && y == b * s && p <= x && y < q + 1.0
    ensures p * b < q * a + a
  {
    MulMono(p, x, b);
    StrictMono(y, q + 1.0, a);
    Crossed(a, b, s, x, y);
    Spread(q, a);
  }

  lemma Crossed(a: real, b: real, s: real, x: real, y: real)
    requires x == a * s && y == b * s
    ensures x * b == y * a
  {
  }

  lemma Spread(q: real, a: real)
    ensures (q + 1.0) * a == q * a + a
  {
  }

  lemma StrictMono(a: real, b: real, c: real)
    requires a < b && c > 0.0
    ensures a * c < b * c
  {
    NegTimesPos(a - b, c);
    assert (a - b) * c == a * c - b * c;
  }

  /** Only a screenshot that is too large is reduced. */
  lemma ScreenshotUnchanged(width: int, height: int, root: real)
    requires width > 0 && height > 0 && IsPixelRoot(root, width, height)
    ensures ScreenshotDimensions(width, height, root) == (width, height) <==>
            FitsScreenshot(width, height)
  {
    ScreenshotFits(width, height, root);
    if FitsScreenshot(width, height) {
      SmallHasScaleOne(width, height, root);
      assert width as real * 1.0 == width as real && height as real * 1.0 == height as real;
    }
  }

  lemma SmallHasScaleOne(width: int, height: int, root: real)
    requires width > 0 && height > 0 && IsPixelRoot(root, width, height)
    requires FitsScreenshot(width, height)
    ensures Scale(width, height, root) == 1.0
  {
    var m, area := Max(width, height) as real, width as real * height as real;
    assert (width * height) as real == area;
    OverAtLeastOne(SCREENSHOT_MAX as real, m);
    OverAtLeastOne(SCREENSHOT_PIXELS as real, area);
    if root < 1.0 {
      MulMono(root, 1.0, root);
      assert false;
    }
  }

  lemma OverAtLeastOne(a: real, b: real)
    requires 0.0 < b <= a
    ensures a / b >= 1.0
  {
    DivTimes(a, b);
    AtMost(1.0, a / b, b);
  }

  /** Reducing a reduced screenshot changes nothing. */
  lemma ScreenshotOnce(width: int, height: int, root: real, again: real)
    requires IsPixelRoot(root, width, height)
    requires var (w, h) := ScreenshotDimensions(width, height, root); IsPixelRoot(again, w, h)
    ensures var (w, h) := ScreenshotDimensions(width, height, root); ScreenshotDimensions(w, h, again) == (w, h)
  {
    hide Scale, Scaled;
    if width > 0 && height > 0 {
      var (w, h) := ScreenshotDimensions(width, height, root);
      ScreenshotFits(width, height, root);
      ScreenshotUnchanged(w, h, again);
    }
  }

  function ModelImageDimensions(width: int, height: int): (int, int) {
    if width <= MODEL_MAX && height <= MODEL_MAX then (width, height)
    else if width >= height then (MODEL_MAX, Max(1, Round(height as real * MODEL_MAX as real / width as real)))
    else (Max(1, Round(width as real * MODEL_MAX as real / height as real)), MODEL_MAX)
  }

  /** The shorter side, reduced with the longer one. */
  lemma ShorterSide(short: int, long: int)
    requires 0 < short <= long && long > MODEL_MAX
    ensures var r := Max(1, Round(short as real * MODEL_MAX as real / long as real)); 1 <= r <= short && r <= MODEL_MAX
  {
    var s, l, m := short as real, long as real, MODEL_MAX as real;
    var q := s * m / l;
    DivTimes(s * m, l);
    MulMono(m, l, s);
    AtMost(q, s, l);
    MulMono(s, l, m);
    AtMost(q, m, l);
  }

  /** An image made for a model fits in 2048 by 2048, is never enlarged, and is left alone
      exactly when it fits already. */
  lemma ModelImageFits(width: int, height: int)
    requires width > 0 && height > 0
    ensures var (w, h) := ModelImageDimensions(width, height);
            && 1 <= w <= width && 1 <= h <= height && w <= MODEL_MAX && h <= MODEL_MAX
            && ((w, h) == (width, height) <==> width <= MODEL_MAX && height <= MODEL_MAX)
            && ModelImageDimensions(w, h) == (w, h)
  {
    if width > MODEL_MAX || height > MODEL_MAX {
      if width >= height {
        ShorterSide(height, width);
      } else {
        ShorterSide(width, height);
      }
    }
  }

  /** No other reduction in proportion that meets the limits leaves a larger picture. */
  lemma ScreenshotIsLargest(width: int, height: int, root: real, t: real, a: int, b: int)
    requires width > 0 && height > 0 && IsPixelRoot(root, width, height)
    requires 0.0 <= t <= 1.0 && WithinLimits(width as real * t, height as real * t)
    requires a as real <= width as real * t && b as real <= height as real * t
    ensures var (w, h) := ScreenshotDimensions(width, height, root); a <= w && b <= h
  {
    hide Scale, Scaled, WithinLimits, IsPixelRoot;
    ScaleIsLargest(width, height, root, t);
    ScaledAbove(width, t, Scale(width, height, root), a);
    ScaledAbove(height, t, Scale(width, height, root), b);
  }

  lemma ScaledAbove(side: int, t: real, s: real, a: int)
    requires side > 0 && t <= s && a as real <= side as real * t
    ensures a <= Scaled(side, s)
  {
    MulMono(t, s, side as real);
    FloorAbove(side as real * s, a);
  }

  lemma FloorAbove(x: real, n: int)
    requires n as real <= x
    ensures n <= x.Floor
  {
  }

  lemma ScaleIsLargest(width: int, height: int, root: real, t: real)
    requires width > 0 && height > 0 && IsPixelRoot(root, width, height)
    requires 0.0 <= t <= 1.0 && WithinLimits(width as real * t, height as real * t)
    ensures t <= Scale(width, height, root)
  {
    var w, h, m, limit := width as real, height as real, Max(width, height) as real, SCREENSHOT_MAX as real;
    assert m * t <= limit;
    Quotient(limit, m);
    AtMost(t, limit / m, m);
    AreaIsPositive(w, h);
    RootIsLargest(w, h, t, root);
  }

  lemma RootIsLargest(w: real, h: real, t: real, root: real)
    requires w > 0.0 && h > 0.0 && w * h > 0.0 && t >= 0.0 && root >= 0.0
    requires root * root == SCREENSHOT_PIXELS as real / (w * h) && (w * t) * (h * t) <= SCREENSHOT_PIXELS as real
    ensures t <= root
  {
    var a := w * h;
    Squared(w, h, t);
    DivTimes(SCREENSHOT_PIXELS as real, a);
    AtMost(t * t, root * root, a);
    if root < t {
      MulMono(root, t, root);
      StrictMono(root, t, t);
    }
  }

  lemma Squared(w: real, h: real, t: real)
    ensures (w * t) * (h * t) == (t * t) * (w * h)
  {
  }

  /** An image that is too large for a model has its longer side reduced to 2048 exactly, and
      the other one in proportion, to the nearest pixel, unless that would leave nothing. */
  lemma ModelImageKeepsShape(width: int, height: int)
    requires width > 0 && height > 0 && (width > MODEL_MAX || height > MODEL_MAX)
    ensures var (w, h) := ModelImageDimensions(width, height);
            if width >= height then w == MODEL_MAX && Nearest(h, height, width) else h == MODEL_MAX && Nearest(w, width, height)
  {
    if width >= height {
      RoundIsNearest(height, width);
    } else {
      RoundIsNearest(width, height);
    }
  }

  /** The reduced side is to 2048 what the side was to the longer one, to within half a pixel. */
  predicate Nearest(reduced: int, side: int, longer: int) {
    var exact := 2 * side * MODEL_MAX;
    if exact < longer then reduced == 1 else exact - longer < 2 * reduced * longer <= exact + longer
  }

  lemma RoundIsNearest(side: int, longer: int)
    requires side > 0 && longer > 0
    ensures Nearest(Max(1, Round(side as real * MODEL_MAX as real / longer as real)), side, longer)
  {
    var q := side as real * MODEL_MAX as real / longer as real;
    assert (side * MODEL_MAX) as real == side as real * MODEL_MAX as real;
    DivTimes(side as real * MODEL_MAX as real, longer as real);
    Halves(Round(q), longer, side * MODEL_MAX, q);
    AtLeastOne(Round(q), longer, 2 * side * MODEL_MAX);
  }

  lemma AtLeastOne(r: int, longer: int, exact: int)
    requires longer > 0 && exact - longer < 2 * (r * longer) <= exact + longer
    ensures exact < longer ==> r <= 0
    ensures exact >= longer ==> r >= 1
    ensures 2 * (r * longer) == 2 * r * longer
  {
    if r >= 1 {
      IntMono(1, r, longer);
    } else {
      IntMono(r, 0, longer);
    }
  }

  lemma IntMono(a: int, b: int, c: int)
    requires a <= b && c > 0
    ensures a * c <= b * c
  {
  }

  lemma Halves(r: int, longer: int, n: int, q: real)
    requires longer > 0 && q * longer as real == n as real && r as real <= q + 0.5 && q + 0.5 < r as real + 1.0
    ensures 2 * n - longer < 2 * (r * longer) <= 2 * n + longer
  {
    var l, p, x, y := longer as real, r as real, q + 0.5, r as real + 1.0;
    MulMono(p, x, l);
    StrictMono(x, y, l);
    Moved(q, 0.5, x, l);
    Moved(p, 1.0, y, l);
    assert (r * longer) as real == p * l;
    InWholes(r * longer, n, longer);
  }

  lemma Moved(q: real, d: real, x: real, a: real)
    requires x == q + d
    ensures x * a == q * a + d * a
  {
  }

  lemma InWholes(u: int, n: int, longer: int)
    requires u as real <= n as real + 0.5 * longer as real && n as real + 0.5 * longer as real < u as real + longer as real
    ensures 2 * n - longer < 2 * u <= 2 * n + longer
  {
  }

  // ----- resampling

  /** Where a position of the target falls in the source. */
  function Coordinate(position: int, target: int, source: int): real
    requires target > 0
  {
    (position as real + 0.5) * source as real / target as real - 0.5
  }

  /** The two samples next to a position, and the weight of the second. */
  function InterpolationAxis(position: int, target: int, source: int): (int, int, real)
    requires target > 0
  {
    var value := Coordinate(position, target, source);
    if value <= 0.0 then (0, MinInt(1, source - 1), 0.0)
    else
      var left := value.Floor;
      if left >= source - 1 then (source - 1, source - 1, 0.0) else (left, left + 1, value - left as real)
  }

  function Clamp(x: real, low: real, high: real): real {
    if x < low then low else if x > high then high else x
  }

  /** The samples are there and next to each other, the weight is at least 0 and below 1, and
      the weighted place between them is the coordinate, kept inside the source. */
  lemma AxisInBounds(position: int, target: int, source: int)
    requires 0 <= position < target && source > 0
    ensures var (left, right, weight) := InterpolationAxis(position, target, source);
            && 0 <= left <= right < source && right <= left + 1 && 0.0 <= weight < 1.0
            && left as real + weight == Clamp(Coordinate(position, target, source), 0.0, (source - 1) as real)
  {
  }

  /** Later positions do not fall on earlier places. */
  lemma AxisIsMonotone(p: int, q: int, target: int, source: int)
    requires 0 <= p <= q < target && source > 0
    ensures var (l0, r0, w0) := InterpolationAxis(p, target, source);
            var (l1, r1, w1) := InterpolationAxis(q, target, source);
            l0 as real + w0 <= l1 as real + w1
  {
    AxisInBounds(p, target, source);
    AxisInBounds(q, target, source);
    CoordinateIsMonotone(p, q, target, source);
  }

  lemma CoordinateIsMonotone(p: int, q: int, target: int, source: int)
    requires p <= q && target > 0 && source >= 0
    ensures Coordinate(p, target, source) <= Coordinate(q, target, source)
  {
    var a, b, t := (p as real + 0.5) * source as real, (q as real + 0.5) * source as real, target as real;
    MulMono(p as real + 0.5, q as real + 0.5, source as real);
    DivTimes(a, t);
    DivTimes(b, t);
    AtMost(a / t, b / t, t);
  }

  /** Without a change of size every position falls on its own sample. */
  lemma SameSizeAxis(position: int, size: int)
    requires 0 <= position < size
    ensures var (left, _, weight) := InterpolationAxis(position, size, size); left == position && weight == 0.0
  {
    var a, s := position as real + 0.5, size as real;
    DivTimes(a * s, s);
    AtMost(a * s / s, a, s);
    AtMost(a, a * s / s, s);
    assert Coordinate(position, size, size) == position as real;
  }

  type Channel = x: int | 0 <= x < 256

  function Mix(a: real, b: real, weight: real): real {
    a * (1.0 - weight) + b * weight
  }

  function InterpolatedValue(c00: Channel, c10: Channel, c01: Channel, c11: Channel, xWeight: real, yWeight: real): real {
    Mix(Mix(c00 as real, c10 as real, xWeight), Mix(c01 as real, c11 as real, xWeight), yWeight)
  }

  lemma MixBetween(a: real, b: real, weight: real, low: real, high: real)
    requires 0.0 <= weight <= 1.0 && low <= a <= high && low <= b <= high
    ensures low <= Mix(a, b, weight) <= high
  {
    var v := 1.0 - weight;
    Products(a, b, v, weight, low);
    Products(-a, -b, v, weight, -high);
    MixIs(a, b, v, weight, low, Mix(a, b, weight));
    MixIs(-a, -b, v, weight, -high, -Mix(a, b, weight));
  }

  lemma Products(a: real, b: real, u: real, v: real, low: real)
    requires u >= 0.0 && v >= 0.0 && low <= a && low <= b
    ensures low * (u + v) <= a * u + b * v
  {
    MulMono(low, a, u);
    MulMono(low, b, v);
    assert low * (u + v) == low * u + low * v;
  }

  lemma MixIs(a: real, b: real, u: real, v: real, low: real, mixed: real)
    requires u + v == 1.0 && low * (u + v) <= a * u + b * v && mixed == a * u + b * v
    ensures low <= mixed
  {
  }

  lemma ValueBetween(c00: Channel, c10: Channel, c01: Channel, c11: Channel, xWeight: real, yWeight: real, low: int, high: int)
    requires 0.0 <= xWeight <= 1.0 && 0.0 <= yWeight <= 1.0
    requires low <= c00 <= high && low <= c10 <= high && low <= c01 <= high && low <= c11 <= high
    ensures low as real <= InterpolatedValue(c00, c10, c01, c11, xWeight, yWeight) <= high as real
  {
    hide Mix;
    MixBetween(c00 as real, c10 as real, xWeight, low as real, high as real);
    MixBetween(c01 as real, c11 as real, xWeight, low as real, high as real);
    MixBetween(Mix(c00 as real, c10 as real, xWeight), Mix(c01 as real, c11 as real, xWeight), yWeight, low as real, high as real);
  }

  function InterpolateChannel(c00: Channel, c10: Channel, c01: Channel, c11: Channel, xWeight: real, yWeight: real): Channel
    requires 0.0 <= xWeight <= 1.0 && 0.0 <= yWeight <= 1.0
  {
    ValueBetween(c00, c10, c01, c11, xWeight, yWeight, 0, 255);
    Round(InterpolatedValue(c00, c10, c01, c11, xWeight, yWeight))
  }

  /** An output channel lies between its samples, and is the first of them where both weights
      are zero. */
  lemma ChannelBetween(c00: Channel, c10: Channel, c01: Channel, c11: Channel, xWeight: real, yWeight: real, low: int, high: int)
    requires 0.0 <= xWeight <= 1.0 && 0.0 <= yWeight <= 1.0
    requires low <= c00 <= high && low <= c10 <= high && low <= c01 <= high && low <= c11 <= high
    ensures low <= InterpolateChannel(c00, c10, c01, c11, xWeight, yWeight) <= high
    ensures xWeight == 0.0 && yWeight == 0.0 ==> InterpolateChannel(c00, c10, c01, c11, xWeight, yWeight) == c00
  {
    ValueBetween(c00, c10, c01, c11, xWeight, yWeight, low, high);
  }

  datatype Pixel = Pixel(r: Channel, g: Channel, b: Channel, a: Channel)

  /** An image whose corner need not be at the origin. */
  datatype Image = Image(minX: int, minY: int, width: nat, height: nat, at: (int, int) -> Pixel)

  function Interpolated(p00: Pixel, p10: Pixel, p01: Pixel, p11: Pixel, xWeight: real, yWeight: real): Pixel
    requires 0.0 <= xWeight <= 1.0 && 0.0 <= yWeight <= 1.0
  {
    Pixel(InterpolateChannel(p00.r, p10.r, p01.r, p11.r, xWeight, yWeight),
          InterpolateChannel(p00.g, p10.g, p01.g, p11.g, xWeight, yWeight),
          InterpolateChannel(p00.b, p10.b, p01.b, p11.b, xWeight, yWeight),
          InterpolateChannel(p00.a, p10.a, p01.a, p11.a, xWeight, yWeight))
  }

  /** A sample of the source, which has to be inside it. */
  function Sample(src: Image, x: int, y: int): Pixel
    requires 0 <= x < src.width && 0 <= y < src.height
  {
    src.at(src.minX + x, src.minY + y)
  }

  /** The pixel of a resized image. */
  function Resized(src: Image, width: int, height: int, x: int, y: int): Pixel
    requires src.width > 0 && src.height > 0 && 0 <= x < width && 0 <= y < height
  {
    AxisInBounds(x, width, src.width);
    AxisInBounds(y, height, src.height);
    var (x0, x1, xWeight) := InterpolationAxis(x, width, src.width);
    var (y0, y1, yWeight) := InterpolationAxis(y, height, src.height);
    Interpolated(Sample(src, x0, y0), Sample(src, x1, y0), Sample(src, x0, y1), Sample(src, x1, y1), xWeight, yWeight)
  }

  method ResizeModelImage(src: Image, width: int, height: int) returns (dst: array2<Pixel>)
    requires src.width > 0 && src.height > 0 && width >= 0 && height >= 0
    ensures fresh(dst) && dst.Length0 == height && dst.Length1 == width
    ensures forall x, y :: 0 <= x < width && 0 <= y < height ==> dst[y, x] == Resized(src, width, height, x, y)
  {
    hide InterpolationAxis, Interpolated;
    dst := new Pixel[height, width]((_, _) => Pixel(0, 0, 0, 0));
    for y := 0 to height
      invariant forall i, j :: 0 <= i < width && 0 <= j < y ==> dst[j, i] == Resized(src, width, height, i, j)
    {
      AxisInBounds(y, height, src.height);
      var (y0, y1, yWeight) := InterpolationAxis(y, height, src.height);
      for x := 0 to width
        invariant forall i, j :: 0 <= i < width && 0 <= j < y ==> dst[j, i] == Resized(src, width, height, i, j)
        invariant forall i :: 0 <= i < x ==> dst[y, i] == Resized(src, width, height, i, y)
      {
        AxisInBounds(x, width, src.width);
        var (x0, x1, xWeight) := InterpolationAxis(x, width, src.width);
        dst[y, x] := Interpolated(Sample(src, x0, y0), Sample(src, x1, y0), Sample(src, x0, y1), Sample(src, x1, y1), xWeight, yWeight);
      }
    }
  }

  /** Resizing to the same size gives the same pixels. */
  lemma SameSizeIsIdentity(src: Image, x: int, y: int)
    requires 0 <= x < src.width && 0 <= y < src.height
    ensures Resized(src, src.width, src.height, x, y) == Sample(src, x, y)
  {
    hide InterpolationAxis, InterpolateChannel, Coordinate;
    SameSizeAxis(x, src.width);
    SameSizeAxis(y, src.height);
    AxisInBounds(x, src.width, src.width);
    AxisInBounds(y, src.height, src.height);
    var (x0, x1, xWeight) := InterpolationAxis(x, src.width, src.width);
    var (y0, y1, yWeight) := InterpolationAxis(y, src.height, src.height);
    var a, b, c, d := Sample(src, x0, y0), Sample(src, x1, y0), Sample(src, x0, y1), Sample(src, x1, y1);
    ChannelBetween(a.r, b.r, c.r, d.r, xWeight, yWeight, 0, 255);
    ChannelBetween(a.g, b.g, c.g, d.g, xWeight, yWeight, 0, 255);
    ChannelBetween(a.b, b.b, c.b, d.b, xWeight, yWeight, 0, 255);
    ChannelBetween(a.a, b.a, c.a, d.a, xWeight, yWeight, 0, 255);
  }

  // ----- what resampling reproduces

  /** A channel that is linear in the place: its value at the corner, and its slopes. */
  datatype Plane = Plane(corner: int, right: int, down: int)

  function Height(p: Plane, x: real, y: real): real {
    p.corner as real + p.right as real * x + p.down as real * y
  }

  /** The centre of a pixel of the target, in the source, and no further out than the centres
      of the outer pixels. */
  function Centre(x: int, width: int, source: int): real
    requires width > 0
  {
    Clamp((x as real + 0.5) * (source as real / width as real) - 0.5, 0.0, source as real - 1.0)
  }

  lemma CentreIsPlace(x: int, width: int, source: int)
    requires 0 <= x < width && source > 0
    ensures var (left, right, weight) := InterpolationAxis(x, width, source);
            && left as real + weight == Centre(x, width, source)
            && (right == left + 1 || weight == 0.0)
  {
    hide InterpolationAxis, Coordinate, Clamp;
    AxisInBounds(x, width, source);
    AxisNeighbours(x, width, source);
    CoordinateIsScaled(x, width, source);
  }

  lemma CoordinateIsScaled(x: int, width: int, source: int)
    requires width > 0
    ensures Coordinate(x, width, source) == (x as real + 0.5) * (source as real / width as real) - 0.5
  {
    var a, s, w := (x as real + 0.5) * source as real, source as real, width as real;
    ScaledPlace(a, x as real + 0.5, s, w);
    assert Coordinate(x, width, source) == a / w - 0.5;
  }

  lemma AxisNeighbours(x: int, width: int, source: int)
    requires width > 0
    ensures var (left, right, weight) := InterpolationAxis(x, width, source); right == left + 1 || weight == 0.0
  {
    hide Coordinate;
  }

  lemma ScaledPlace(a: real, p: real, s: real, w: real)
    requires w > 0.0 && a == p * s
    ensures a / w == p * (s / w)
  {
    DivTimes(a, w);
    DivTimes(s, w);
    Reordered(p, s / w, w);
    AtMost(a / w, p * (s / w), w);
    AtMost(p * (s / w), a / w, w);
  }

  lemma Reordered(a: real, b: real, c: real)
    ensures (a * b) * c == a * (b * c)
  {
  }

  lemma MixStep(a: real, d: real, weight: real)
    ensures Mix(a, a + d, weight) == a + d * weight
  {
    var v := 1.0 - weight;
    assert a * v + a * weight == a * (v + weight);
    assert (a + d) * weight == a * weight + d * weight;
  }

  lemma MixAt(a: real, b: real, slope: real, left: int, right: int, weight: real)
    requires right == left + 1 || weight == 0.0
    requires b == a + slope * (right - left) as real
    ensures Mix(a, b, weight) == a + slope * weight
  {
    if right == left + 1 {
      MixStep(a, slope, weight);
    }
  }

  lemma HeightStep(p: Plane, x: int, y: int, dx: int, dy: int)
    ensures Height(p, (x + dx) as real, (y + dy) as real)
         == Height(p, x as real, y as real) + p.right as real * dx as real + p.down as real * dy as real
  {
    assert p.right as real * (x + dx) as real == p.right as real * x as real + p.right as real * dx as real;
    assert p.down as real * (y + dy) as real == p.down as real * y as real + p.down as real * dy as real;
  }

  lemma HeightBetween(p: Plane, x: int, y: int, u: real, v: real)
    ensures Height(p, x as real + u, y as real + v) == Height(p, x as real, y as real) + p.right as real * u + p.down as real * v
  {
    assert p.right as real * (x as real + u) == p.right as real * x as real + p.right as real * u;
    assert p.down as real * (y as real + v) == p.down as real * y as real + p.down as real * v;
  }

  lemma PlaneBetween(p: Plane, x0: int, x1: int, y0: int, y1: int, xWeight: real, yWeight: real,
                     c00: Channel, c10: Channel, c01: Channel, c11: Channel)
    requires (x1 == x0 + 1 || xWeight == 0.0) && (y1 == y0 + 1 || yWeight == 0.0)
    requires c00 as real == Height(p, x0 as real, y0 as real) && c10 as real == Height(p, x1 as real, y0 as real)
    requires c01 as real == Height(p, x0 as real, y1 as real) && c11 as real == Height(p, x1 as real, y1 as real)
    ensures InterpolatedValue(c00, c10, c01, c11, xWeight, yWeight) == Height(p, x0 as real + xWeight, y0 as real + yWeight)
  {
    HeightStep(p, x0, y0, x1 - x0, 0);
    HeightStep(p, x0, y0, 0, y1 - y0);
    HeightStep(p, x0, y0, x1 - x0, y1 - y0);
    HeightBetween(p, x0, y0, xWeight, yWeight);
    hide Mix, Height;
    var a := c00 as real;
    assert c10 as real == a + p.right as real * (x1 - x0) as real;
    assert c01 as real == a + p.down as real * (y1 - y0) as real;
    assert c11 as real == c01 as real + p.right as real * (x1 - x0) as real;
    MixAt(a, c10 as real, p.right as real, x0, x1, xWeight);
    MixAt(c01 as real, c11 as real, p.right as real, x0, x1, xWeight);
    var upper, lower := a + p.right as real * xWeight, c01 as real + p.right as real * xWeight;
    MixAt(upper, lower, p.down as real, y0, y1, yWeight);
    assert Mix(upper, lower, yWeight) == Height(p, x0 as real + xWeight, y0 as real + yWeight);
    ValueIs(c00, c10, c01, c11, xWeight, yWeight, upper, lower);
  }

  lemma ValueIs(c00: Channel, c10: Channel, c01: Channel, c11: Channel, xWeight: real, yWeight: real, upper: real, lower: real)
    requires Mix(c00 as real, c10 as real, xWeight) == upper && Mix(c01 as real, c11 as real, xWeight) == lower
    ensures InterpolatedValue(c00, c10, c01, c11, xWeight, yWeight) == Mix(upper, lower, yWeight)
  {
    hide Mix;
  }

  /** A channel of an image is linear. */
  ghost predicate IsPlane(src: Image, channel: Pixel -> Channel, p: Plane) {
    forall x, y :: 0 <= x < src.width && 0 <= y < src.height ==> channel(Sample(src, x, y)) as real == Height(p, x as real, y as real)
  }

  /** Resizing reproduces an image that is linear in x and y: each pixel has, in each channel,
      the value at its centre, rounded. */
  lemma PlanesAreReproduced(src: Image, width: int, height: int, x: int, y: int, red: Plane, green: Plane, blue: Plane, alpha: Plane)
    requires src.width > 0 && src.height > 0 && 0 <= x < width && 0 <= y < height
    requires IsPlane(src, (p: Pixel) => p.r, red) && IsPlane(src, (p: Pixel) => p.g, green)
    requires IsPlane(src, (p: Pixel) => p.b, blue) && IsPlane(src, (p: Pixel) => p.a, alpha)
    ensures var p, u, v := Resized(src, width, height, x, y), Centre(x, width, src.width), Centre(y, height, src.height);
            && p.r == Round(Height(red, u, v)) && p.g == Round(Height(green, u, v))
            && p.b == Round(Height(blue, u, v)) && p.a == Round(Height(alpha, u, v))
  {
    hide InterpolationAxis, InterpolatedValue, Centre, Height, Coordinate, Clamp;
    CentreIsPlace(x, width, src.width);
    CentreIsPlace(y, height, src.height);
    AxisInBounds(x, width, src.width);
    AxisInBounds(y, height, src.height);
    var (x0, x1, xWeight) := InterpolationAxis(x, width, src.width);
    var (y0, y1, yWeight) := InterpolationAxis(y, height, src.height);
    var a, b, c, d := Sample(src, x0, y0), Sample(src, x1, y0), Sample(src, x0, y1), Sample(src, x1, y1);
    PlaneBetween(red, x0, x1, y0, y1, xWeight, yWeight, a.r, b.r, c.r, d.r);
    PlaneBetween(green, x0, x1, y0, y1, xWeight, yWeight, a.g, b.g, c.g, d.g);
    PlaneBetween(blue, x0, x1, y0, y1, xWeight, yWeight, a.b, b.b, c.b, d.b);
    PlaneBetween(alpha, x0, x1, y0, y1, xWeight, yWeight, a.a, b.a, c.a, d.a);
  }
}
