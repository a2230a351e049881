/** Scaling a frame to cover a surface, cropping what sticks out. */
module Cover {
  import opened Prelude

  /** Packed RGBA pixels of a non-empty image. */
  datatype Frame = Frame(width: nat, height: nat, pixels: seq<byte>)

  predicate ValidFrame(f: Frame) {
    1 <= f.width <= U32_MAX && 1 <= f.height <= U32_MAX && |f.pixels| == 4 * (f.width * f.height)
  }

  // ---------------------------------------------------------------- geometry

  predicate SourceWider(fw: nat, fh: nat, w: nat, h: nat) { fw * h > w * fh }

  /** The size of the whole frame once it covers the target. */
  function Scaled(fw: nat, fh: nat, w: nat, h: nat): (s: (nat, nat))
    requires fw > 0 && fh > 0
  {
    if SourceWider(fw, fh, w, h) then (fw * h / fh, h) else (w, fh * w / fw)
  }

  function Crop(scaled: nat, target: nat): nat { if scaled >= target then (scaled - target) / 2 else 0 }

  /** The source coordinate sampled for target coordinate `k`. */
  function Sample(k: nat, crop: nat, source: nat, scaled: nat): nat
    requires source > 0 && scaled > 0
  {
    Min((k + crop) * source / scaled, source - 1)
  }

  /** The scaled frame covers the target, and touches it on at least one axis. */
  lemma ScaledCovers(fw: nat, fh: nat, w: nat, h: nat)
    requires fw > 0 && fh > 0 && w > 0 && h > 0
    ensures var (sw, sh) := Scaled(fw, fh, w, h);
      sw >= w && sh >= h && (sw == w || sh == h)
  {
    if SourceWider(fw, fh, w, h) {
      DivideMonotone(w * fh, fw * h, fh);
      QuotientIs(w * fh, fh, w);
    } else {
      DivideMonotone(h * fw, fh * w, fw);
      QuotientIs(h * fw, fw, h);
    }
  }

  /** The scaled frame keeps its proportions, up to the one division that rounds down. */
  lemma ProportionsKept(fw: nat, fh: nat, w: nat, h: nat)
    requires fw > 0 && fh > 0 && w > 0 && h > 0
    ensures var (sw, sh) := Scaled(fw, fh, w, h);
      -Max(fw, fh) < fw * sh - fh * sw < Max(fw, fh)
  {
    if SourceWider(fw, fh, w, h) {
      QuotientBounds(fw * h, fh);
    } else {
      QuotientBounds(fh * w, fw);
    }
  }

  /** `n` steps along an axis move `n * source / scaled` through the source, give or take one pixel. */
  lemma StepsAlong(k: nat, n: nat, crop: nat, source: nat, scaled: nat)
    requires source > 0 && k + n + crop < scaled
    ensures var moved := Sample(k + n, crop, source, scaled) - Sample(k, crop, source, scaled);
      n * source - scaled < moved * scaled < n * source + scaled
  {
    SampleBelow(k + crop, source, scaled);
    SampleBelow(k + n + crop, source, scaled);
    Moved(k + crop, n, source, scaled);
  }

  lemma Moved(from: nat, n: nat, source: nat, scaled: nat)
    requires scaled > 0
    ensures var moved: int := (from + n) * source / scaled - from * source / scaled;
      n * source - scaled < moved * scaled < n * source + scaled
  {
    var a: nat, b: nat := from * source, (from + n) * source;
    QuotientBounds(a, scaled);
    QuotientBounds(b, scaled);
    Distribute(from, n, source);
    Difference(b / scaled, a / scaled, scaled);
  }

  lemma Distribute(a: int, b: int, c: int)
    ensures (a + b) * c == a * c + b * c
  {
  }

  lemma Difference(a: int, b: int, c: int)
    ensures (a - b) * c == a * c - b * c
  {
  }

  /** The two moves differ by at most two pixels and what the rounded size adds, counted in `area`ths of a pixel. */
  ghost predicate EvenSteps(across: int, down: int, area: int, rounding: int) {
    -(2 * area + rounding) <= (across - down) * area <= 2 * area + rounding
  }

  /** How far through the source `n` steps from `k` along the target go. */
  ghost function Travel(k: nat, n: nat, target: nat, source: nat, scaled: nat): int {
    if source == 0 || scaled == 0 then 0
    else Sample(k + n, Crop(scaled, target), source, scaled) - Sample(k, Crop(scaled, target), source, scaled)
  }

  lemma TravelBounds(k: nat, n: nat, target: nat, source: nat, scaled: nat)
    requires source > 0 && k + n < target <= scaled
    ensures n * source - scaled < Travel(k, n, target, source, scaled) * scaled < n * source + scaled
  {
    SampleInside(k + n, target, source, scaled);
    StepsAlong(k, n, Crop(scaled, target), source, scaled);
  }

  /**
   * The same step across and down the target moves equally far through the frame, up to one pixel on
   * each axis and the rounding of the scaled size: nothing is stretched.
   */
  lemma NothingIsStretched(fw: nat, fh: nat, w: nat, h: nat, x: nat, y: nat, n: nat)
    requires fw > 0 && fh > 0 && x + n < w && y + n < h
    ensures var (sw, sh) := Scaled(fw, fh, w, h);
      EvenSteps(Travel(x, n, w, fw, sw), Travel(y, n, h, fh, sh), sw * sh, n * Max(fw, fh))
  {
    hide Scaled, Travel, EvenSteps;
    var (sw, sh) := Scaled(fw, fh, w, h);
    ScaledCovers(fw, fh, w, h);
    ProportionsKept(fw, fh, w, h);
    TravelBounds(x, n, w, fw, sw);
    TravelBounds(y, n, h, fh, sh);
    Rates(Travel(x, n, w, fw, sw), Travel(y, n, h, fh, sh), fw, fh, sw, sh, n);
  }

  lemma Rates(across: int, down: int, fw: int, fh: int, sw: int, sh: int, n: int)
    requires fw > 0 && fh > 0 && sw > 0 && sh > 0 && n >= 0
    requires n * fw - sw < across * sw < n * fw + sw && n * fh - sh < down * sh < n * fh + sh
    requires -Max(fw, fh) < fw * sh - fh * sw < Max(fw, fh)
    ensures EvenSteps(across, down, sw * sh, n * Max(fw, fh))
  {
    var a, b, c := across * sw - n * fw, down * sh - n * fh, fw * sh - fh * sw;
    var most := Max(fw, fh);
    Regrouped(across, down, fw, fh, sw, sh, n);
    Bounded(a, sw, sh);
    Bounded(b, sh, sw);
    Bounded(c, most, n);
    Combined((across - down) * (sw * sh), a * sh, b * sw, c * n, sw * sh, most * n);
  }

  lemma Combined(gap: int, a: int, b: int, c: int, whole: int, rest: int)
    requires gap == a - b + c && -whole <= a <= whole && -whole <= b <= whole && -rest <= c <= rest
    ensures -(2 * whole + rest) <= gap <= 2 * whole + rest
  {
  }

  lemma Regrouped(across: int, down: int, fw: int, fh: int, sw: int, sh: int, n: int)
    ensures (across - down) * (sw * sh) ==
      (across * sw - n * fw) * sh - (down * sh - n * fh) * sw + (fw * sh - fh * sw) * n
  {
  }

  lemma Bounded(a: int, bound: int, factor: int)
    requires factor >= 0 && -bound <= a <= bound
    ensures -(bound * factor) <= a * factor <= bound * factor
  {
  }

  /** The frame is cropped evenly: the two margins differ by at most one scaled pixel. */
  lemma CropIsCentred(scaled: nat, target: nat)
    requires scaled >= target
    ensures var left := Crop(scaled, target); var right := scaled - target - left;
      left <= right <= left + 1
  {
  }

  /** Sampling never leaves the source, so the clamp never changes anything. */
  lemma SampleInside(k: nat, target: nat, source: nat, scaled: nat)
    requires source > 0 && k < target <= scaled
    ensures var crop := Crop(scaled, target);
      k + crop < scaled && Sample(k, crop, source, scaled) == (k + crop) * source / scaled < source
  {
    SampleBelow(k + Crop(scaled, target), source, scaled);
  }

  lemma SampleBelow(j: nat, source: nat, scaled: nat)
    requires source > 0 && j < scaled
    ensures 0 <= j * source / scaled < source
  {
    var a := j * source;
    QuotientBounds(a, scaled);
    BelowProduct(j, scaled, source);
    LessFactor(a / scaled, source, scaled);
  }

  lemma BelowProduct(j: nat, scaled: nat, source: nat)
    requires source > 0 && j < scaled
    ensures j * source < source * scaled
  {
  }

  /** Sampled coordinates never go backwards. */
  lemma SampleMonotone(j: nat, k: nat, crop: nat, source: nat, scaled: nat)
    requires source > 0 && scaled > 0 && j <= k
    ensures Sample(j, crop, source, scaled) <= Sample(k, crop, source, scaled)
  {
    MultiplyMonotone(j + crop, k + crop, source);
    DivideMonotone((j + crop) * source, (k + crop) * source, scaled);
  }

  /** A target that is an exact multiple is not cropped, and every source pixel fills a square of it. */
  lemma MultipleReplicates(fw: nat, fh: nat, k: nat, x: nat, y: nat)
    requires fw > 0 && fh > 0 && k > 0 && x < k * fw && y < k * fh
    ensures var (sw, sh) := Scaled(fw, fh, k * fw, k * fh);
      && sw == k * fw && sh == k * fh
      && Sample(x, Crop(sw, k * fw), fw, sw) == x / k && Sample(y, Crop(sh, k * fh), fh, sh) == y / k
  {
    SameShape(fw, fh, k);
    SampleMultiple(x, fw, k);
    SampleMultiple(y, fh, k);
  }

  lemma SameShape(fw: nat, fh: nat, k: nat)
    requires fw > 0 && fh > 0 && k > 0
    ensures Scaled(fw, fh, k * fw, k * fh) == (k * fw, k * fh)
  {
    assert fw * (k * fh) == (k * fw) * fh;
    assert fh * (k * fw) == (k * fh) * fw;
    QuotientIs(fh * (k * fw), fw, k * fh);
  }

  lemma SampleMultiple(x: nat, source: nat, k: nat)
    requires source > 0 && k > 0 && x < k * source
    ensures k * source > 0 && Sample(x, 0, source, k * source) == x / k
  {
    BelowProduct(0, k, source);
    QuotientInside(x, k, source);
    ScaledBack(x, source, k);
  }

  /** Scaling up by `k` and back down finds the coordinate divided by `k`. */
  lemma ScaledBack(x: nat, source: nat, k: nat)
    requires source > 0 && k > 0 && k * source > 0
    ensures x * source / (k * source) == x / k
  {
    QuotientBounds(x, k);
    var q := x / k;
    var low, high := q * k, q * k + k;
    MultiplyMonotone(low, x, source);
    MultiplyMonotone(x + 1, high, source);
    Regroup(q, k, source);
    OneMore(x, source);
    QuotientIs(x * source, k * source, q);
  }

  lemma OneMore(x: nat, source: nat)
    ensures (x + 1) * source == x * source + source
  {
  }

  lemma Regroup(q: nat, k: nat, source: nat)
    ensures (q * k) * source == q * (k * source) && (q * k + k) * source == q * (k * source) + k * source
  {
  }

  const MAX_SURFACE_DIMENSION: nat := 16_384
  const MAX_BUFFER_BYTES: nat := 256 * 1024 * 1024

  /** The pixel size and byte length of the buffer for a surface, if it is within the ceilings. */
  function BufferGeometry(width: nat, height: nat, scale: int): (r: Option<(nat, nat, nat)>)
    requires width <= U32_MAX && height <= U32_MAX
    ensures r.Some? ==>
      var (w, h, bytes) := r.value; w == width * Max(scale, 1) && h == height * Max(scale, 1) && bytes == 4 * (w * h)
    ensures r.None? <==>
      var k := Max(scale, 1);
      width * k > MAX_SURFACE_DIMENSION || height * k > MAX_SURFACE_DIMENSION ||
      4 * (width * k * (height * k)) > MAX_BUFFER_BYTES
  {
    var k := Max(scale, 1);
    var w, h := CheckedMul(width, k, U32_MAX), CheckedMul(height, k, U32_MAX);
    if w.None? || w.value > MAX_SURFACE_DIMENSION || h.None? || h.value > MAX_SURFACE_DIMENSION then None else
    var pixels := CheckedMul(w.value, h.value, USIZE_MAX);
    if pixels.None? then None else
    var bytes := CheckedMul(pixels.value, 4, USIZE_MAX);
    if bytes.None? || bytes.value > MAX_BUFFER_BYTES then None else Some((w.value, h.value, bytes.value))
  }

  // ---------------------------------------------------------------- rendering

  /** Shown where there is no frame: blue, green, red and an opaque alpha. */
  const FALLBACK: seq<byte> := [24, 9, 5, 255]

  /** The bytes shown at target coordinates `x` and `y`: blue, green, red and an opaque alpha. */
  function Shown(f: Frame, w: nat, h: nat, x: nat, y: nat): (p: seq<byte>)
    requires ValidFrame(f) && x < w && y < h
    ensures |p| == 4 && p[3] == 255
  {
    var (sw, sh) := Scaled(f.width, f.height, w, h);
    ScaledCovers(f.width, f.height, w, h);
    SampleInside(x, w, f.width, sw);
    SampleInside(y, h, f.height, sh);
    var sx, sy := Sample(x, Crop(sw, w), f.width, sw), Sample(y, Crop(sh, h), f.height, sh);
    SourcePixel(f, sx, sy)
  }

  /** A source pixel in the order the surface wants its bytes. */
  function SourcePixel(f: Frame, x: nat, y: nat): (p: seq<byte>)
    requires ValidFrame(f) && x < f.width && y < f.height
    ensures |p| == 4 && p[3] == 255
  {
    PixelInside(x, y, f.width, f.height);
    var at := 4 * Slot(x, y, f.width);
    [f.pixels[at + 2], f.pixels[at + 1], f.pixels[at], 255]
  }

  /** A pixel as the 32-bit word of an ARGB surface, whose bytes stand least significant first. */
  function Argb(red: byte, green: byte, blue: byte): nat {
    0xFF00_0000 + 0x1_0000 * (red as int) + 0x100 * (green as int) + blue as int
  }

  function LittleEndian(p: seq<byte>): nat
    requires |p| == 4
  {
    p[0] as int + 0x100 * (p[1] as int) + 0x1_0000 * (p[2] as int) + 0x100_0000 * (p[3] as int)
  }

  /** Colours keep their place: the word shown is the opaque ARGB word of the source's red, green and blue. */
  lemma ColoursKept(f: Frame, x: nat, y: nat)
    requires ValidFrame(f) && x < f.width && y < f.height
    ensures 0 <= 4 * (y * f.width + x) && 4 * (y * f.width + x) + 4 <= |f.pixels|
    ensures var at := 4 * (y * f.width + x);
      LittleEndian(SourcePixel(f, x, y)) == Argb(f.pixels[at], f.pixels[at + 1], f.pixels[at + 2])
  {
    PixelInside(x, y, f.width, f.height);
  }

  lemma FallbackColour()
    ensures LittleEndian(FALLBACK) == Argb(5, 9, 24)
  {
  }

  /** The number of a pixel, row by row. */
  function Slot(x: nat, y: nat, w: nat): nat { y * w + x }

  lemma PixelInside(x: nat, y: nat, w: nat, h: nat)
    requires x < w && y < h
    ensures Slot(x, y, w) < w * h
  {
    MultiplyMonotone(y + 1, h, w);
  }

  /** Rows above `y`, and the first `x` pixels of row `y`, show the frame. */
  ghost predicate Painted(t: seq<byte>, f: Frame, w: nat, h: nat, x: nat, y: nat)
    requires ValidFrame(f) && |t| == 4 * (w * h)
  {
    forall i, j :: 0 <= i < w && 0 <= j < h && (j < y || (j == y && i < x)) ==>
      PixelAt(t, w, h, i, j) == Shown(f, w, h, i, j)
  }

  ghost function PixelAt(t: seq<byte>, w: nat, h: nat, x: nat, y: nat): seq<byte>
    requires |t| == 4 * (w * h) && x < w && y < h
  {
    PixelInside(x, y, w, h);
    Quad(t, Slot(x, y, w))
  }

  ghost function Quad(t: seq<byte>, p: nat): seq<byte>
    requires 4 * p + 4 <= |t|
  {
    t[4 * p..4 * p + 4]
  }

  /** Different coordinates name different pixels. */
  lemma PixelsApart(x: nat, y: nat, i: nat, j: nat, w: nat)
    requires x < w && i < w && Slot(x, y, w) == Slot(i, j, w)
    ensures x == i && y == j
  {
    QuotientIs(y * w + x, w, y);
    QuotientIs(j * w + i, w, j);
  }

  /** Fills the target with the frame scaled to cover it, or with the fallback colour. */
  method RenderCover(target: array<byte>, w: nat, h: nat, frame: Option<Frame>)
    requires target.Length == 4 * (w * h) && w <= U32_MAX && h <= U32_MAX
    requires frame.Some? ==> ValidFrame(frame.value)
    modifies target
    ensures frame.None? ==> forall p :: 0 <= p < w * h ==> target[4 * p..4 * p + 4] == FALLBACK
    ensures frame.Some? ==>
      forall x, y :: 0 <= x < w && 0 <= y < h ==> PixelAt(target[..], w, h, x, y) == Shown(frame.value, w, h, x, y)
  {
    if frame.None? {
      FillFallback(target, w * h);
      return;
    }
    var f := frame.value;
    for y := 0 to h
      invariant Painted(target[..], f, w, h, 0, y)
    {
      for x := 0 to w
        invariant Painted(target[..], f, w, h, x, y)
      {
        PaintPixel(target, f, w, h, x, y);
      }
    }
  }

  method FillFallback(target: array<byte>, count: nat)
    requires target.Length == 4 * count
    modifies target
    ensures forall p :: 0 <= p < count ==> target[4 * p..4 * p + 4] == FALLBACK
  {
    for p := 0 to count
      invariant forall q :: 0 <= q < p ==> target[4 * q..4 * q + 4] == FALLBACK
    {
      ghost var before := target[..];
      assert forall q :: 0 <= q < p ==> before[4 * q..4 * q + 4] == FALLBACK;
      target[4 * p], target[4 * p + 1], target[4 * p + 2], target[4 * p + 3] :=
        FALLBACK[0], FALLBACK[1], FALLBACK[2], FALLBACK[3];
      forall q | 0 <= q < p ensures target[4 * q..4 * q + 4] == FALLBACK {
        assert target[4 * q..4 * q + 4] == before[4 * q..4 * q + 4];
      }
    }
  }

  method PaintPixel(target: array<byte>, f: Frame, w: nat, h: nat, x: nat, y: nat)
    requires target.Length == 4 * (w * h) && ValidFrame(f) && x < w && y < h
    requires Painted(target[..], f, w, h, x, y)
    modifies target
    ensures Painted(target[..], f, w, h, x + 1, y)
  {
    hide Slot, Shown, Painted, Quad;
    ghost var before := target[..];
    PixelInside(x, y, w, h);
    var pixel := Shown(f, w, h, x, y);
    Put(target, Slot(x, y, w), pixel);
    PaintedOneMore(before, target[..], f, w, h, x, y);
  }

  method Put(target: array<byte>, p: nat, pixel: seq<byte>)
    requires 4 * p + 4 <= target.Length && |pixel| == 4
    modifies target
    ensures Replaced(old(target[..]), target[..], p, pixel)
  {
    var at := 4 * p;
    target[at], target[at + 1], target[at + 2], target[at + 3] := pixel[0], pixel[1], pixel[2], pixel[3];
  }

  /** Only pixel `p` changed, and it is now `pixel`. */
  ghost predicate Replaced(before: seq<byte>, after: seq<byte>, p: nat, pixel: seq<byte>) {
    |after| == |before| && 4 * p + 4 <= |before| && Quad(after, p) == pixel &&
    forall q: nat :: 4 * q + 4 <= |before| && q != p ==> Quad(after, q) == Quad(before, q)
  }

  lemma PaintedOneMore(before: seq<byte>, after: seq<byte>, f: Frame, w: nat, h: nat, x: nat, y: nat)
    requires |before| == |after| == 4 * (w * h) && ValidFrame(f) && x < w && y < h
    requires Painted(before, f, w, h, x, y) && Replaced(before, after, Slot(x, y, w), Shown(f, w, h, x, y))
    ensures Painted(after, f, w, h, x + 1, y)
  {
    hide Shown, Slot, Quad;
    forall i, j | 0 <= i < w && 0 <= j < h && (j < y || (j == y && i < x + 1))
      ensures PixelAt(after, w, h, i, j) == Shown(f, w, h, i, j)
    {
      PixelInside(i, j, w, h);
      if Slot(i, j, w) == Slot(x, y, w) {
        PixelsApart(x, y, i, j, w);
      } else {
        assert PixelAt(after, w, h, i, j) == PixelAt(before, w, h, i, j);
      }
    }
  }

  /** A multiple of the frame's size shows every source pixel as a square of copies. */
  lemma SquaresOfCopies(f: Frame, k: nat, x: nat, y: nat)
    requires ValidFrame(f) && k > 0 && x < k * f.width && y < k * f.height
    ensures x / k < f.width && y / k < f.height
    ensures Shown(f, k * f.width, k * f.height, x, y) == SourcePixel(f, x / k, y / k)
  {
    hide SourcePixel, Scaled, Sample, Crop;
    MultipleReplicates(f.width, f.height, k, x, y);
    QuotientInside(x, k, f.width);
    QuotientInside(y, k, f.height);
  }

  lemma QuotientInside(a: nat, d: nat, count: nat)
    requires d > 0 && a < d * count
    ensures 0 <= a / d < count
  {
    QuotientBounds(a, d);
    LessFactor(a / d, count, d);
  }
}
