/** Pixel sizes that keep an aspect ratio exactly (lib/aspect_size.py). Quotients are exact rationals. */
module AspectSize {
  import opened Options

  // ---------- Python's integer arithmetic ----------

  /** `n // d`, rounding towards minus infinity. */
  function FloorDiv(n: int, d: int): int
    requires d != 0
  {
    if d > 0 then n / d else (-n) / (-d)
  }

  /** `round(n / d)` for a positive `d`: to the nearest integer, ties to the even one. */
  function RoundHalfEven(n: int, d: int): int
    requires d > 0
  {
    var q, r := n / d, n % d;
    if 2 * r < d || (2 * r == d && q % 2 == 0) then q else q + 1
  }

  lemma Grows(a: int, b: int, c: int)
    ensures a <= b && c >= 0 ==> a * c <= b * c && c * a <= c * b
  {
  }

  /** `math.isqrt(n)` */
  function Isqrt(n: nat): (r: nat)
    ensures r * r <= n < (r + 1) * (r + 1)
  {
    if n == 0 then 0
    else
      var r := Isqrt(n - 1);
      if (r + 1) * (r + 1) <= n then r + 1 else r
  }

  function Gcd(a: nat, b: nat): (g: nat)
    requires a > 0 || b > 0
    ensures g > 0
    decreases b
  {
    if b == 0 then a else Gcd(b, a % b)
  }

  ghost predicate Divides(d: int, n: int) {
    exists k :: n == k * d
  }

  lemma DividesSum(d: int, a: int, b: int, q: int)
    requires Divides(d, a) && Divides(d, b)
    ensures Divides(d, q * b + a) && Divides(d, a - q * b)
  {
    var i :| a == i * d;
    var j :| b == j * d;
    assert q * b + a == (q * j + i) * d;
    assert a - q * b == (i - q * j) * d;
  }

  /** The common divisor divides both, and every other common divisor divides it. */
  lemma {:induction false} GcdIsGreatest(a: nat, b: nat, d: int)
    requires a > 0 || b > 0
    ensures Divides(Gcd(a, b), a) && Divides(Gcd(a, b), b)
    ensures Divides(d, a) && Divides(d, b) ==> Divides(d, Gcd(a, b))
    decreases b
  {
    if b == 0 {
      assert a == 1 * a && 0 == 0 * a;
    } else {
      var g, q := Gcd(a, b), a / b;
      GcdIsGreatest(b, a % b, d);
      DividesSum(g, a % b, b, q);
      assert a == q * b + a % b;
      if Divides(d, a) && Divides(d, b) {
        DividesSum(d, a, b, q);
        assert a % b == a - q * b;
      }
    }
  }

  // ---------- the ratio ----------

  datatype Ratio = Ratio(w: nat, h: nat)

  const DEFAULT_RATIO := Ratio(9, 16)

  /** The reduced ratio; the default for text that is not two positive numbers. */
  function ParseRatio(numbers: Option<(int, int)>): (r: Ratio)
    ensures r.w > 0 && r.h > 0
  {
    if numbers.None? || numbers.value.0 <= 0 || numbers.value.1 <= 0 then DEFAULT_RATIO
    else
      var a, b := numbers.value.0, numbers.value.1;
      var g := Gcd(a, b);
      GcdIsGreatest(a, b, g);
      DividedIsPositive(a, g);
      DividedIsPositive(b, g);
      Ratio(a / g, b / g)
  }

  lemma DividedIsPositive(a: nat, g: nat)
    requires a > 0 && g > 0 && Divides(g, a)
    ensures a / g > 0 && a == (a / g) * g
  {
    var k :| a == k * g;
    Grows(k, 0, g);
    QuotientOfProduct(k, g);
  }

  lemma QuotientOfProduct(k: int, g: int)
    requires g > 0
    ensures (k * g) / g == k
  {
    var q, r := (k * g) / g, (k * g) % g;
    assert k * g == q * g + r && 0 <= r < g;
    assert (k - q) * g == r;
    Grows(1, k - q, g);
    Grows(k - q, -1, g);
  }

  /** A parsed ratio is the given one in lowest terms. */
  lemma ParsedRatioIsReduced(a: int, b: int, d: int)
    requires a > 0 && b > 0
    ensures var r := ParseRatio(Some((a, b)));
            && r.w * b == r.h * a
            && (d > 0 && Divides(d, r.w) && Divides(d, r.h) ==> d == 1)
  {
    var g := Gcd(a, b);
    var r := ParseRatio(Some((a, b)));
    GcdIsGreatest(a, b, g);
    DividedIsPositive(a, g);
    DividedIsPositive(b, g);
    CrossProducts(r.w, r.h, g);
    if d > 0 && Divides(d, r.w) && Divides(d, r.h) {
      MultipleDivides(d, g, r.w);
      MultipleDivides(d, g, r.h);
      GcdIsGreatest(a, b, d * g);
      var k :| g == k * (d * g);
      OnlyOne(k, d, g);
    }
  }

  /** Anything else than two positive numbers reads as 9:16. */
  lemma UnreadableIsPortrait(numbers: Option<(int, int)>)
    requires numbers.Some? ==> numbers.value.0 <= 0 || numbers.value.1 <= 0
    ensures ParseRatio(numbers).w == 9 && ParseRatio(numbers).h == 16
  {
  }

  lemma CrossProducts(w: int, h: int, g: int)
    ensures w * (h * g) == h * (w * g)
  {
  }

  lemma MultipleDivides(d: int, g: int, n: int)
    requires Divides(d, n)
    ensures Divides(d * g, n * g)
  {
    var k :| n == k * d;
    assert n * g == k * (d * g);
  }

  lemma OnlyOne(k: int, d: int, g: int)
    requires g == k * (d * g) && g > 0 && d > 0
    ensures d == 1
  {
    assert g == (k * d) * g;
    Grows(2, k * d, g);
    Grows(k * d, 0, g);
    assert k * d == 1;
    Grows(k, 0, d);
    Grows(1, k, d);
  }

  // ---------- the size ----------

  datatype Failure = DivisionByZero | RootOfNegative

  function Max1(t: int): (r: int)
    ensures r >= 1 && (t >= 1 ==> r == t) && (t < 1 ==> r == 1)
  {
    if t < 1 then 1 else t
  }

  function Min(a: int, b: int): int {
    if a < b then a else b
  }

  /** The size for a reduced ratio. */
  function Size(r: Ratio, shortEdge: int, roundTo: int, maxLong: Option<int>,
                maxPixels: Option<int>): Result<(int, int), Failure>
    requires r.w > 0 && r.h > 0
  {
    if roundTo == 0 then Err(DivisionByZero)
    else
      var t := Scale(r, shortEdge, roundTo, maxLong, maxPixels);
      if t.None? then Err(RootOfNegative) else Ok((r.w * roundTo * t.value, r.h * roundTo * t.value))
  }

  function ShortUnit(r: Ratio, roundTo: int): int {
    roundTo * Min(r.w, r.h)
  }

  function LongUnit(r: Ratio, roundTo: int): int {
    roundTo * (if r.w < r.h then r.h else r.w)
  }

  function Nearest(r: Ratio, shortEdge: int, roundTo: int): int
    requires r.w > 0 && r.h > 0 && roundTo != 0
  {
    var unit := ShortUnit(r, roundTo);
    UnitIsNotZero(roundTo, Min(r.w, r.h));
    Max1(if unit > 0 then RoundHalfEven(shortEdge, unit) else RoundHalfEven(-shortEdge, -unit))
  }

  lemma UnitIsNotZero(a: int, b: int)
    requires a != 0 && b > 0
    ensures a * b != 0 && (a > 0 ==> a * b > 0)
  {
    if a > 0 {
      assert a * b >= b;
    } else {
      assert a * b <= -b;
    }
  }

  function Pixels(r: Ratio, roundTo: int): int {
    r.w * r.h * roundTo * roundTo
  }

  lemma PixelsArePositive(r: Ratio, roundTo: int)
    requires r.w > 0 && r.h > 0 && roundTo != 0
    ensures Pixels(r, roundTo) > 0
  {
    UnitIsNotZero(r.w, r.h);
    var a := r.w * r.h;
    assert roundTo * roundTo > 0;
    assert Pixels(r, roundTo) == a * (roundTo * roundTo);
    UnitIsNotZero(a, roundTo * roundTo);
  }

  /** The multiple of the smallest legal size: the nearest one to the target, lowered to the caps, at least 1. */
  function Scale(r: Ratio, shortEdge: int, roundTo: int, maxLong: Option<int>, maxPixels: Option<int>): (t: Option<int>)
    requires r.w > 0 && r.h > 0 && roundTo != 0
    ensures t.Some? ==> t.value >= 1
  {
    UnitIsNotZero(roundTo, if r.w < r.h then r.h else r.w);
    PixelsArePositive(r, roundTo);
    var t0 := Nearest(r, shortEdge, roundTo);
    var t1 := if maxLong.None? then t0 else Min(t0, Max1(FloorDiv(maxLong.value, LongUnit(r, roundTo))));
    if maxPixels.None? then Some(Max1(t1))
    else
      var quotient := FloorDiv(maxPixels.value, Pixels(r, roundTo));
      if quotient < 0 then None else Some(Max1(Min(t1, Max1(Isqrt(quotient)))))
  }

  // ---------- what the size promises ----------

  /** The caps a multiple has to meet. */
  ghost predicate MeetsCaps(r: Ratio, roundTo: int, maxLong: Option<int>, maxPixels: Option<int>, t: int) {
    && (maxLong.Some? ==> LongUnit(r, roundTo) * t <= maxLong.value)
    && (maxPixels.Some? ==> Pixels(r, roundTo) * (t * t) <= maxPixels.value)
  }

  lemma DivBound(n: int, d: int, t: int)
    requires d > 0
    ensures t <= n / d <==> d * t <= n
  {
    var q, m := n / d, n % d;
    assert n == d * q + m && 0 <= m < d;
    if t <= q {
      assert d * t <= d * q;
    } else {
      assert d * t >= d * (q + 1) == d * q + d;
    }
  }

  lemma RootBound(n: nat, t: nat)
    ensures t <= Isqrt(n) <==> t * t <= n
  {
    var r := Isqrt(n);
    Grows(t, r, t);
    Grows(t, r, r);
    Grows(r + 1, t, t);
    Grows(r + 1, t, r + 1);
  }

  lemma PixelBound(p: int, d: int, t: nat)
    requires d > 0 && p / d >= 0
    ensures t <= Isqrt(p / d) <==> d * (t * t) <= p
  {
    RootBound(p / d, t);
    DivBound(p, d, t * t);
  }

  /** No legal multiple brings the short edge closer to the target; of two equally close ones it is the even one. */
  ghost predicate IsNearest(unit: int, target: int, t: int) {
    && t >= 1
    && (forall s :: s >= 1 ==> Gap(unit, target, t) <= Gap(unit, target, s))
    && (forall s :: s >= 1 && s != t && Gap(unit, target, t) == Gap(unit, target, s) ==> t % 2 == 0)
  }

  function Gap(unit: int, target: int, t: int): int {
    if unit * t < target then target - unit * t else unit * t - target
  }

  lemma RoundingIsNearest(n: int, d: int, s: int)
    requires d > 0
    ensures var t := RoundHalfEven(n, d);
            Gap(d, n, t) <= Gap(d, n, s) && (s != t && Gap(d, n, t) == Gap(d, n, s) ==> t % 2 == 0)
  {
    var q, m := n / d, n % d;
    assert n == d * q + m && 0 <= m < d;
    Grows(s, q - 1, d);
    Grows(q + 2, s, d);
    Times(d, q);
    if s == q {
    } else if s == q + 1 {
    } else if s < q {
    } else {
    }
  }

  lemma Times(d: int, q: int)
    ensures d * (q - 1) == d * q - d && d * (q + 1) == d * q + d && d * (q + 2) == d * q + 2 * d
  {
  }

  lemma NearestIsNearest(n: int, d: int)
    requires d > 0
    ensures IsNearest(d, n, Max1(RoundHalfEven(n, d)))
  {
    var t := RoundHalfEven(n, d);
    forall s | s >= 1
      ensures Gap(d, n, Max1(t)) <= Gap(d, n, s)
      ensures s != Max1(t) && Gap(d, n, Max1(t)) == Gap(d, n, s) ==> Max1(t) % 2 == 0
    {
      RoundingIsNearest(n, d, s);
      if t < 1 {
        RoundedBelowOne(n, d);
        assert d * s >= d * 1;
        if s >= 2 {
          assert d * s >= d * 2;
        }
      }
    }
  }

  lemma RoundedBelowOne(n: int, d: int)
    requires d > 0 && RoundHalfEven(n, d) < 1
    ensures 2 * n <= d
  {
    var q, m := n / d, n % d;
    assert n == d * q + m;
    if q <= -1 {
      assert d * q <= -d;
    }
  }

  /** The scale is exact: the largest multiple, not above the one nearest to the target, that meets the caps; and 1
      when not even that one does. So a cap is exceeded only when the smallest legal size already exceeds it. */
  lemma ScaleIsLargest(r: Ratio, shortEdge: int, roundTo: int, maxLong: Option<int>, maxPixels: Option<int>)
    requires r.w > 0 && r.h > 0 && roundTo > 0
    requires maxPixels.Some? ==> maxPixels.value >= 0
    ensures var t0, t := Nearest(r, shortEdge, roundTo), Scale(r, shortEdge, roundTo, maxLong, maxPixels);
            && t.Some? && 1 <= t.value <= t0 && IsNearest(ShortUnit(r, roundTo), shortEdge, t0)
            && (forall s :: 1 <= s <= t0 && MeetsCaps(r, roundTo, maxLong, maxPixels, s) ==> s <= t.value)
            && (MeetsCaps(r, roundTo, maxLong, maxPixels, t.value) || t.value == 1)
  {
    var t0 := Nearest(r, shortEdge, roundTo);
    var long, pixels := LongUnit(r, roundTo), Pixels(r, roundTo);
    UnitIsNotZero(roundTo, Min(r.w, r.h));
    UnitIsNotZero(roundTo, if r.w < r.h then r.h else r.w);
    PixelsArePositive(r, roundTo);
    NearestIsNearest(shortEdge, ShortUnit(r, roundTo));
    if maxPixels.Some? {
      DivBound(maxPixels.value, pixels, 0);
    }
    var t := Scale(r, shortEdge, roundTo, maxLong, maxPixels).value;
    forall s | 1 <= s
      ensures s <= t <==> s == 1 || (s <= t0 && MeetsCaps(r, roundTo, maxLong, maxPixels, s))
    {
      CapsAt(r, shortEdge, roundTo, maxLong, maxPixels, s);
    }
  }

  /** One multiple against both caps; smaller ones meet them too. */
  lemma CapsAt(r: Ratio, shortEdge: int, roundTo: int, maxLong: Option<int>, maxPixels: Option<int>, s: int)
    requires r.w > 0 && r.h > 0 && roundTo > 0 && s >= 1
    requires LongUnit(r, roundTo) > 0 && Pixels(r, roundTo) > 0
    requires maxPixels.Some? ==> maxPixels.value / Pixels(r, roundTo) >= 0
    ensures Scale(r, shortEdge, roundTo, maxLong, maxPixels).Some?
    ensures s <= Scale(r, shortEdge, roundTo, maxLong, maxPixels).value <==>
              s == 1 || (s <= Nearest(r, shortEdge, roundTo) && MeetsCaps(r, roundTo, maxLong, maxPixels, s))
  {
    if maxLong.Some? {
      DivBound(maxLong.value, LongUnit(r, roundTo), s);
    }
    if maxPixels.Some? {
      PixelBound(maxPixels.value, Pixels(r, roundTo), s);
    }
  }

  /** The result: it has exactly the requested ratio, and both sides are multiples of the granularity. */
  lemma SizeIsExact(a: int, b: int, shortEdge: int, roundTo: int, maxLong: Option<int>, maxPixels: Option<int>)
    requires a > 0 && b > 0
    ensures var size := Size(ParseRatio(Some((a, b))), shortEdge, roundTo, maxLong, maxPixels);
            size.Ok? ==>
              && size.value.0 * b == size.value.1 * a
              && Divides(roundTo, size.value.0) && Divides(roundTo, size.value.1)
  {
    var r := ParseRatio(Some((a, b)));
    ParsedRatioIsReduced(a, b, 1);
    var size := Size(r, shortEdge, roundTo, maxLong, maxPixels);
    if size.Ok? {
      hide Scale, ParseRatio;
      var t := Scale(r, shortEdge, roundTo, maxLong, maxPixels).value;
      SameRatio(r.w, r.h, a, b, roundTo * t);
      Regroup(r.w, roundTo, t);
      Regroup(r.h, roundTo, t);
    }
  }

  lemma Regroup(w: int, m: int, t: int)
    ensures w * m * t == w * (m * t) && Divides(m, w * m * t)
  {
    assert w * m * t == (w * t) * m;
  }

  lemma SameRatio(w: int, h: int, a: int, b: int, k: int)
    requires w * b == h * a
    ensures (w * k) * b == (h * k) * a
  {
    assert (w * k) * b == (w * b) * k;
    assert (h * k) * a == (h * a) * k;
  }

  /** The sides of the result at its scale: its shorter side is the one the target is about, its longer side and its
      pixels are the ones the caps are about. */
  lemma SidesOfSize(r: Ratio, shortEdge: int, roundTo: int, maxLong: Option<int>, maxPixels: Option<int>)
    requires r.w > 0 && r.h > 0 && roundTo > 0
    ensures var size := Size(r, shortEdge, roundTo, maxLong, maxPixels);
            size.Ok? ==>
              var w, h, t := size.value.0, size.value.1, Scale(r, shortEdge, roundTo, maxLong, maxPixels).value;
              && (if w <= h then w else h) == ShortUnit(r, roundTo) * t
              && (if w <= h then h else w) == LongUnit(r, roundTo) * t
              && w * h == Pixels(r, roundTo) * (t * t)
  {
    var size := Size(r, shortEdge, roundTo, maxLong, maxPixels);
    if size.Ok? {
      var t := Scale(r, shortEdge, roundTo, maxLong, maxPixels).value;
      hide Scale;
      SideAtScale(r.w, roundTo, t);
      SideAtScale(r.h, roundTo, t);
      OrderedSides(r.w, r.h, roundTo * t);
      AreaAtScale(r.w, r.h, roundTo, t);
    }
  }

  lemma SideAtScale(w: int, m: int, t: int)
    ensures w * m * t == w * (m * t) == m * w * t
  {
  }

  lemma OrderedSides(w: int, h: int, k: int)
    requires k >= 0
    ensures w <= h ==> w * k <= h * k
    ensures h <= w ==> h * k <= w * k
    ensures k > 0 && w < h ==> w * k < h * k
    ensures k > 0 && h < w ==> h * k < w * k
  {
    assert (h - w) * k == h * k - w * k;
  }

  lemma AreaAtScale(w: int, h: int, m: int, t: int)
    ensures (w * m * t) * (h * m * t) == (w * h * m * m) * (t * t)
  {
    assert (w * m * t) * (h * m * t) == (w * m) * (h * m) * (t * t) by {
      Rearrange(w * m, h * m, t);
    }
    assert (w * m) * (h * m) == w * h * m * m by {
      Rearrange(w, h, m);
      assert (w * h) * (m * m) == w * h * m * m;
    }
  }

  lemma Rearrange(a: int, b: int, t: int)
    ensures (a * t) * (b * t) == a * b * (t * t)
  {
    assert (a * t) * (b * t) == a * (t * (b * t));
    assert t * (b * t) == b * (t * t);
    assert a * (b * (t * t)) == a * b * (t * t);
  }

  /** The call fails exactly when the granularity is zero or the pixel budget is negative. */
  lemma SizeFails(r: Ratio, shortEdge: int, roundTo: int, maxLong: Option<int>, maxPixels: Option<int>)
    requires r.w > 0 && r.h > 0
    ensures Size(r, shortEdge, roundTo, maxLong, maxPixels).Err? <==>
              roundTo == 0 || (maxPixels.Some? && maxPixels.value < 0)
  {
    if roundTo != 0 && maxPixels.Some? {
      PixelsArePositive(r, roundTo);
      DivBound(maxPixels.value, Pixels(r, roundTo), 0);
    }
  }
}
