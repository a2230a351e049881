/** From a decoded plane to an opaque frame: packing, colour conversion in place, compositing over black. */
module Pixels {
  import opened Prelude

  /** One RGBA pixel. */
  datatype Pixel = Pixel(red: byte, green: byte, blue: byte, alpha: byte)

  /**
   * A colour transform: an arbitrary function of one pixel, that may refuse a run of pixels as a whole.
   */
  datatype Transform = Transform(apply: Pixel -> Pixel, accepts: seq<byte> -> bool)

  datatype Frame = Frame(width: nat, height: nat, pixels: seq<byte>)

  datatype Error = Memory | ShortStride | PlaneOverflow | TruncatedPlane | ConversionBuffer | ConversionFailed

  /** The conversion works on this many bytes at a time. */
  const CHUNK_BYTES: nat := 1024 * 1024

  // ------------------------------------------------------------------ pixels

  function Quad(bytes: seq<byte>, at: nat): Pixel
    requires at + 4 <= |bytes|
  {
    Pixel(bytes[at], bytes[at + 1], bytes[at + 2], bytes[at + 3])
  }

  function Bytes(p: Pixel): seq<byte> { [p.red, p.green, p.blue, p.alpha] }

  /** One pass over whole pixels; a trailing part of a pixel is left alone. */
  ghost function Map(f: Pixel -> Pixel, bytes: seq<byte>): (mapped: seq<byte>)
    ensures |mapped| == |bytes|
  {
    if |bytes| < 4 then bytes else Bytes(f(Quad(bytes, 0))) + Map(f, bytes[4..])
  }

  lemma {:induction false} MapAt(f: Pixel -> Pixel, bytes: seq<byte>, i: nat)
    requires 4 * i + 4 <= |bytes|
    ensures Quad(Map(f, bytes), 4 * i) == f(Quad(bytes, 4 * i))
  {
    if i > 0 {
      MapAt(f, bytes[4..], i - 1);
      assert Quad(bytes, 4 * i) == Quad(bytes[4..], 4 * (i - 1));
      assert Quad(Map(f, bytes), 4 * i) == Quad(Map(f, bytes[4..]), 4 * (i - 1));
    }
  }

  /** A pass over a buffer is a pass over each of its parts, wherever it is cut between pixels. */
  lemma {:induction false} MapConcat(f: Pixel -> Pixel, a: seq<byte>, b: seq<byte>)
    requires |a| % 4 == 0
    ensures Map(f, a + b) == Map(f, a) + Map(f, b)
  {
    if a == [] {
      assert a + b == b;
    } else {
      assert (a + b)[4..] == a[4..] + b;
      assert Quad(a + b, 0) == Quad(a, 0);
      MapConcat(f, a[4..], b);
    }
  }

  /** Two passes are one pass of the composed function. */
  lemma {:induction false} MapCompose(f: Pixel -> Pixel, g: Pixel -> Pixel, h: Pixel -> Pixel, bytes: seq<byte>)
    requires forall p :: h(p) == g(f(p))
    ensures Map(g, Map(f, bytes)) == Map(h, bytes)
  {
    if |bytes| >= 4 {
      var rest := Map(f, bytes[4..]);
      assert Map(f, bytes)[4..] == rest;
      assert Quad(Map(f, bytes), 0) == f(Quad(bytes, 0));
      MapCompose(f, g, h, bytes[4..]);
    }
  }

  // ------------------------------------------------------------------- alpha

  /** Divides alpha back out of one premultiplied channel. */
  function Divided(channel: byte, alpha: byte): byte {
    if alpha == 255 then channel
    else if alpha == 0 then 0
    else
      QuotientNotNegative(channel * 255 + alpha / 2, alpha);
      Min((channel * 255 + alpha / 2) / alpha, 255)
  }

  /** One straight channel over black. */
  function Scaled(channel: byte, alpha: byte): byte {
    ProductBound(channel, alpha);
    (channel * alpha + 127) / 255
  }

  lemma QuotientNotNegative(a: nat, d: nat)
    requires d > 0
    ensures a / d >= 0
  {
  }

  lemma ProductBound(a: byte, b: byte)
    ensures 0 <= a * b <= 255 * 255
  {
    MultiplyMonotone(a, 255, b);
  }

  function Straight(p: Pixel): Pixel {
    Pixel(Divided(p.red, p.alpha), Divided(p.green, p.alpha), Divided(p.blue, p.alpha), p.alpha)
  }

  function OverBlack(p: Pixel): Pixel {
    Pixel(Scaled(p.red, p.alpha), Scaled(p.green, p.alpha), Scaled(p.blue, p.alpha), 255)
  }

  function Opaque(p: Pixel): Pixel { p.(alpha := 255) }

  /** Compositing rounds to the nearest level: it is never more than half a level away. */
  lemma ScaledIsNearest(channel: byte, alpha: byte)
    ensures -127 <= 255 * Scaled(channel, alpha) - channel * alpha <= 127
    ensures Scaled(channel, alpha) <= alpha
  {
    ProductBound(channel, alpha);
    MultiplyMonotone(channel, 255, alpha);
  }

  /** Compositing after dividing alpha out gives back the channel, cut off at alpha. */
  lemma ScaledAfterDivided(channel: byte, alpha: byte)
    ensures Scaled(Divided(channel, alpha), alpha) == Min(channel, alpha)
  {
    if 0 < alpha < 255 {
      var n := channel * 255 + alpha / 2;
      var q := n / alpha;
      QuotientBounds(n, alpha);
      if channel <= alpha {
        if q > 255 { MultiplyMonotone(256, q, alpha); }
        QuotientIs(q * alpha + 127, 255, channel);
      } else {
        if q < 255 { MultiplyMonotone(q + 1, 255, alpha); }
        QuotientIs(255 * alpha + 127, 255, alpha);
      }
    }
  }

  /** Dividing alpha out rounds to the nearest level, up to the highest one. */
  lemma DividedIsNearest(channel: byte, alpha: byte)
    ensures channel <= alpha && alpha > 0 ==> Nearest(channel * 255, alpha, Divided(channel, alpha))
    ensures alpha == 0 ==> Divided(channel, alpha) == 0
    ensures 0 < alpha < channel ==> Divided(channel, alpha) == 255
  {
    hide Nearest;
    if alpha == 255 {
      NearestItself(channel);
    } else if alpha > 0 {
      var q := (channel * 255 + alpha / 2) / alpha;
      if channel <= alpha {
        RoundsToNearest(channel * 255, alpha);
        MultiplyMonotone(channel, alpha, 255);
        AtMostFull(channel * 255, alpha);
      } else {
        MultiplyMonotone(alpha, channel, 255);
        AtLeastFull(channel * 255, alpha);
      }
    }
  }

  /** `q` is a nearest whole number to `n / d`. */
  ghost predicate Nearest(n: int, d: int, q: int) { -d <= 2 * (q * d - n) <= d }

  lemma NearestItself(channel: byte)
    ensures Nearest(channel * 255, 255, channel)
  {
  }

  lemma RoundsToNearest(n: nat, d: nat)
    requires d > 0
    ensures Nearest(n, d, (n + d / 2) / d)
  {
    QuotientBounds(n + d / 2, d);
    var product := (n + d / 2) / d * d;
    assert product <= n + d / 2 < product + d;
  }

  lemma AtMostFull(n: nat, d: nat)
    requires 0 < d && n <= d * 255
    ensures 0 <= (n + d / 2) / d <= 255
  {
    QuotientBounds(n + d / 2, d);
    LessFactor((n + d / 2) / d, 256, d);
  }

  lemma AtLeastFull(n: nat, d: nat)
    requires 0 < d && n >= d * 255
    ensures (n + d / 2) / d >= 255
  {
    DivideMonotone(255 * d, n + d / 2, d);
    QuotientIs(255 * d, d, 255);
  }

  ghost predicate WithinAlpha(p: Pixel) { p.red <= p.alpha && p.green <= p.alpha && p.blue <= p.alpha }

  /** What a premultiplied pixel may hold survives a detour through straight colour, and nothing else does. */
  lemma RestoredIff(p: Pixel)
    ensures OverBlack(Straight(p)) == Opaque(p) <==> WithinAlpha(p)
  {
    ScaledAfterDivided(p.red, p.alpha);
    ScaledAfterDivided(p.green, p.alpha);
    ScaledAfterDivided(p.blue, p.alpha);
  }

  // ------------------------------------------------------------------- passes

  function Replaced(bytes: seq<byte>, at: nat, p: Pixel): (r: seq<byte>)
    requires at + 4 <= |bytes|
    ensures |r| == |bytes|
  {
    bytes[..at] + Bytes(p) + bytes[at + 4..]
  }

  /** A pass that has rewritten the pixels before `at` and no others. */
  ghost predicate Partly(f: Pixel -> Pixel, before: seq<byte>, now: seq<byte>, at: nat) {
    at % 4 == 0 && at <= |now| == |before| && now[..at] == Map(f, before[..at]) && now[at..] == before[at..]
  }

  lemma Begun(f: Pixel -> Pixel, before: seq<byte>)
    ensures Partly(f, before, before, 0)
  {
  }

  /** Rewriting one more pixel carries the pass one pixel further. */
  lemma NextPixel(f: Pixel -> Pixel, before: seq<byte>, now: seq<byte>, at: nat)
    requires Partly(f, before, now, at) && at + 4 <= |now|
    ensures Partly(f, before, Replaced(now, at, f(Quad(now, at))), at + 4)
  {
    var one, next := before[at..at + 4], Replaced(now, at, f(Quad(now, at)));
    assert now[at..][..4] == one && now[at..][4..] == now[at + 4..] && before[at..][4..] == before[at + 4..];
    assert Quad(now[at..], 0) == Quad(now, at) == Quad(one, 0);
    assert before[..at + 4] == before[..at] + one;
    assert next[..at + 4] == now[..at] + Bytes(f(Quad(one, 0)));
    assert Map(f, one) == Bytes(f(Quad(one, 0))) + Map(f, one[4..]);
    MapConcat(f, before[..at], one);
  }

  lemma Finished(f: Pixel -> Pixel, before: seq<byte>, now: seq<byte>, at: nat)
    requires Partly(f, before, now, at) && |now| < at + 4
    ensures now == Map(f, before)
  {
    assert before == before[..at] + before[at..];
    assert now == now[..at] + now[at..];
    MapConcat(f, before[..at], before[at..]);
  }

  /** Divides alpha out of the three colour channels of the pixel at `at`. */
  method UnpremultiplyPixel(pixels: array<byte>, at: nat)
    requires at + 4 <= pixels.Length
    modifies pixels
    ensures pixels[..] == Replaced(old(pixels[..]), at, Straight(Quad(old(pixels[..]), at)))
  {
    var alpha := pixels[at + 3];
    if alpha == 255 {
      assert pixels[..] == Replaced(pixels[..], at, Quad(pixels[..], at));
      return;
    }
    if alpha == 0 {
      pixels[at], pixels[at + 1], pixels[at + 2] := 0, 0, 0;
      return;
    }
    pixels[at] := Divided(pixels[at], alpha);
    pixels[at + 1] := Divided(pixels[at + 1], alpha);
    pixels[at + 2] := Divided(pixels[at + 2], alpha);
  }

  method Unpremultiply(pixels: array<byte>)
    modifies pixels
    ensures pixels[..] == Map(Straight, old(pixels[..]))
  {
    hide Partly, Map, Replaced;
    ghost var before := pixels[..];
    Begun(Straight, before);
    var at := 0;
    while at + 4 <= pixels.Length
      invariant at <= pixels.Length && Partly(Straight, before, pixels[..], at)
    {
      NextPixel(Straight, before, pixels[..], at);
      UnpremultiplyPixel(pixels, at);
      at := at + 4;
    }
    Finished(Straight, before, pixels[..], at);
  }

  function Composited(premultiplied: bool): Pixel -> Pixel { if premultiplied then Opaque else OverBlack }

  method CompositePixel(pixels: array<byte>, at: nat, premultiplied: bool)
    requires at + 4 <= pixels.Length
    modifies pixels
    ensures pixels[..] == Replaced(old(pixels[..]), at, Composited(premultiplied)(Quad(old(pixels[..]), at)))
  {
    var alpha := pixels[at + 3];
    if !premultiplied {
      pixels[at] := Scaled(pixels[at], alpha);
      pixels[at + 1] := Scaled(pixels[at + 1], alpha);
      pixels[at + 2] := Scaled(pixels[at + 2], alpha);
    }
    pixels[at + 3] := 255;
  }

  method CompositeOverBlack(pixels: array<byte>, premultiplied: bool)
    modifies pixels
    ensures pixels[..] == Map(Composited(premultiplied), old(pixels[..]))
  {
    hide Partly, Map, Replaced;
    ghost var f, before := Composited(premultiplied), pixels[..];
    Begun(f, before);
    var at := 0;
    while at + 4 <= pixels.Length
      invariant at <= pixels.Length && Partly(f, before, pixels[..], at)
    {
      NextPixel(f, before, pixels[..], at);
      CompositePixel(pixels, at, premultiplied);
      at := at + 4;
    }
    Finished(f, before, pixels[..], at);
  }

  // -------------------------------------------------------------- conversion

  /** Every chunk the buffer is cut into is one the transform accepts. */
  ghost predicate AcceptsChunks(transform: Transform, bytes: seq<byte>)
    decreases |bytes|
  {
    bytes == [] ||
    (transform.accepts(bytes[..Min(CHUNK_BYTES, |bytes|)]) &&
     AcceptsChunks(transform, bytes[Min(CHUNK_BYTES, |bytes|)..]))
  }

  /** The transform over one chunk, from the frame into the scratch buffer. */
  method Apply(transform: Transform, source: seq<byte>, scratch: array<byte>) returns (ok: bool)
    requires |source| <= scratch.Length && |source| % 4 == 0
    modifies scratch
    ensures ok == transform.accepts(source)
    ensures ok ==> scratch[..|source|] == Map(transform.apply, source)
  {
    if !transform.accepts(source) { return false; }
    var at := 0;
    while at < |source|
      invariant at % 4 == 0 && at <= |source|
      invariant scratch[..at] == Map(transform.apply, source[..at])
    {
      ghost var done := scratch[..at];
      var p := transform.apply(Quad(source, at));
      scratch[at], scratch[at + 1], scratch[at + 2], scratch[at + 3] := p.red, p.green, p.blue, p.alpha;
      assert scratch[..at + 4] == done + Bytes(p);
      MapOneMore(transform.apply, source, at);
      at := at + 4;
    }
    assert source[..at] == source;
    return true;
  }

  lemma MapOneMore(f: Pixel -> Pixel, bytes: seq<byte>, at: nat)
    requires at % 4 == 0 && at + 4 <= |bytes|
    ensures Map(f, bytes[..at + 4]) == Map(f, bytes[..at]) + Bytes(f(Quad(bytes, at)))
  {
    var one := bytes[at..at + 4];
    assert bytes[..at + 4] == bytes[..at] + one;
    assert Quad(one, 0) == Quad(bytes, at);
    assert Map(f, one) == Bytes(f(Quad(one, 0))) + Map(f, one[4..]);
    MapConcat(f, bytes[..at], one);
  }

  /** The pass has come one chunk further. */
  lemma NextChunk(f: Pixel -> Pixel, before: seq<byte>, now: seq<byte>, next: seq<byte>, at: nat, length: nat)
    requires Partly(f, before, now, at) && at + length <= |now| == |next| && length % 4 == 0
    requires next == now[..at] + Map(f, now[at..at + length]) + now[at + length..]
    ensures Partly(f, before, next, at + length)
  {
    hide Map;
    var chunk := before[at..at + length];
    assert now[at..][..length] == now[at..at + length] && now[at..][length..] == now[at + length..];
    assert before[at..][..length] == chunk && before[at..][length..] == before[at + length..];
    assert before[..at + length] == before[..at] + chunk;
    assert next[..at + length] == now[..at] + Map(f, chunk);
    MapConcat(f, before[..at], chunk);
  }

  /** Converts the pixels where they lie, one bounded chunk after the other. */
  method ConvertToSrgb(pixels: array<byte>, transform: Transform, scratchGranted: bool)
    returns (r: Result<(), Error>)
    requires pixels.Length % 4 == 0
    modifies pixels
    ensures r.Ok? <==> scratchGranted && AcceptsChunks(transform, old(pixels[..]))
    ensures r.Ok? ==> pixels[..] == Map(transform.apply, old(pixels[..]))
    ensures r.Err? ==> r.error == if scratchGranted then ConversionFailed else ConversionBuffer
  {
    hide Map, Partly, AcceptsChunks;
    if !scratchGranted { return Err(ConversionBuffer); }
    ghost var f, before := transform.apply, pixels[..];
    var scratch := new byte[Min(CHUNK_BYTES, pixels.Length)];
    var start := 0;
    Begun(f, before);
    assert before[0..] == before;
    while start < pixels.Length
      invariant start % 4 == 0 && start <= pixels.Length && Partly(f, before, pixels[..], start)
      invariant AcceptsChunks(transform, before) <==> AcceptsChunks(transform, before[start..])
    {
      var length := Min(CHUNK_BYTES, pixels.Length - start);
      ghost var now := pixels[..];
      RemainingChunks(f, before, now, start, length);
      NextAccepted(transform, before, start);
      var ok := Apply(transform, pixels[start..start + length], scratch);
      if !ok { return Err(ConversionFailed); }
      CopyBack(pixels, start, scratch, length);
      NextChunk(f, before, now, pixels[..], start, length);
      start := start + length;
    }
    Finished(f, before, pixels[..], start);
    AcceptsNothing(transform, before[start..]);
    return Ok(());
  }

  lemma RemainingChunks(f: Pixel -> Pixel, before: seq<byte>, now: seq<byte>, at: nat, length: nat)
    requires Partly(f, before, now, at) && at + length <= |now|
    ensures now[at..at + length] == before[at..at + length]
  {
    assert now[at..][..length] == now[at..at + length];
    assert before[at..][..length] == before[at..at + length];
  }

  lemma NextAccepted(transform: Transform, bytes: seq<byte>, start: nat)
    requires start < |bytes|
    ensures var length := Min(CHUNK_BYTES, |bytes| - start);
      AcceptsChunks(transform, bytes[start..]) ==
      (transform.accepts(bytes[start..start + length]) && AcceptsChunks(transform, bytes[start + length..]))
  {
    var length := Min(CHUNK_BYTES, |bytes| - start);
    assert bytes[start..][..length] == bytes[start..start + length];
    assert bytes[start..][length..] == bytes[start + length..];
  }

  lemma AcceptsNothing(transform: Transform, bytes: seq<byte>)
    requires bytes == []
    ensures AcceptsChunks(transform, bytes)
  {
  }

  method CopyBack(pixels: array<byte>, start: nat, scratch: array<byte>, length: nat)
    requires pixels != scratch && start + length <= pixels.Length && length <= scratch.Length
    modifies pixels
    ensures pixels[..] == old(pixels[..start]) + scratch[..length] + old(pixels[start + length..])
  {
    for k := 0 to length
      invariant pixels[..] == old(pixels[..start]) + scratch[..k] + old(pixels[start + k..])
    {
      pixels[start + k] := scratch[k];
    }
  }

  // ------------------------------------------------------------------ packing

  /** The visible part of each row, one after the other. */
  ghost function Rows(source: seq<byte>, stride: nat, row: nat, height: nat): (packed: seq<byte>)
    requires row <= stride && stride * height <= |source|
    ensures |packed| == row * height
  {
    if height == 0 then []
    else
      RowFits(stride, height);
      Rows(source, stride, row, height - 1) + source[stride * (height - 1)..stride * (height - 1) + row]
  }

  lemma RowFits(stride: nat, height: nat)
    requires height > 0
    ensures stride * height == stride * (height - 1) + stride
  {
  }

  /** Column `x` of row `y` is the byte the plane holds there: the padding is dropped and nothing moves. */
  lemma {:induction false} RowsAt(source: seq<byte>, stride: nat, row: nat, height: nat, x: nat, y: nat)
    requires row <= stride && stride * height <= |source| && x < row && y < height
    ensures 0 <= row * y + x < row * height && 0 <= stride * y + x < |source|
    ensures Rows(source, stride, row, height)[row * y + x] == source[stride * y + x]
  {
    RowFits(stride, height);
    RowFits(row, height);
    if y < height - 1 {
      RowsAt(source, stride, row, height - 1, x, y);
    }
  }

  /** How a frame's pixel comes from the decoded pixel. */
  function Finish(premultiplied: bool, color: Option<Transform>): Pixel -> Pixel {
    match color
    case None => Composited(premultiplied)
    case Some(transform) =>
      if premultiplied then p => OverBlack(transform.apply(Straight(p))) else p => OverBlack(transform.apply(p))
  }

  ghost predicate PlaneFits(source: seq<byte>, stride: nat, width: nat, height: nat, maxOutput: nat) {
    width * 4 * height <= Min(maxOutput, USIZE_MAX) && width * 4 <= stride && stride * height <= |source|
  }

  /** What the colour transform is given. */
  ghost function Decoded(packed: seq<byte>, premultiplied: bool): seq<byte> {
    if premultiplied then Map(Straight, packed) else packed
  }

  /** The conversion goes through. */
  ghost predicate Converts(transform: Transform, scratchGranted: bool, packed: seq<byte>, premultiplied: bool) {
    scratchGranted && AcceptsChunks(transform, Decoded(packed, premultiplied))
  }

  /**
   * Packs a decoded plane into an opaque frame. Whether each allocation is granted is up to the
   * environment: `granted` for the frame and `scratchGranted` for the conversion buffer.
   */
  method PackRgba(source: seq<byte>, stride: nat, width: nat, height: nat, maxOutput: nat, premultiplied: bool,
                  color: Option<Transform>, granted: bool, scratchGranted: bool)
    returns (r: Result<Frame, Error>)
    requires |source| <= MAX_SLICE && stride <= USIZE_MAX && width <= U32_MAX && height <= U32_MAX
    requires width > 0 || stride > 0
    ensures r.Ok? <==>
      PlaneFits(source, stride, width, height, maxOutput) && granted &&
      (color.None? || Converts(color.value, scratchGranted, Rows(source, stride, width * 4, height), premultiplied))
    ensures width * 4 * height > Min(maxOutput, USIZE_MAX) ==> r == Err(Memory)
    ensures width * 4 * height <= Min(maxOutput, USIZE_MAX) && stride < width * 4 ==> r == Err(ShortStride)
    ensures width * 4 * height <= Min(maxOutput, USIZE_MAX) && width * 4 <= stride && |source| < stride * height ==>
      r == Err(if stride * height > USIZE_MAX then PlaneOverflow else TruncatedPlane)
    ensures PlaneFits(source, stride, width, height, maxOutput) && !granted ==> r == Err(Memory)
    ensures PlaneFits(source, stride, width, height, maxOutput) && granted && r.Err? ==>
      r == Err(if scratchGranted then ConversionFailed else ConversionBuffer)
    ensures r.Ok? ==> r.value.width == width && r.value.height == height
    ensures r.Ok? ==> r.value.pixels == Map(Finish(premultiplied, color), Rows(source, stride, width * 4, height))
  {
    var rowBytes := CheckedMul(width, 4, USIZE_MAX);
    if rowBytes.None? { return Err(Memory); }
    var row := rowBytes.value;
    var output := CheckedMul(row, height, USIZE_MAX);
    if output.None? || output.value > maxOutput { return Err(Memory); }
    if stride < row { return Err(ShortStride); }
    var required := CheckedMul(stride, height, USIZE_MAX);
    if required.None? { return Err(PlaneOverflow); }
    if |source| < required.value { return Err(TruncatedPlane); }
    if !granted { return Err(Memory); }
    var packed := PackRows(source, stride, row, height);
    var pixels := new byte[|packed|](k requires 0 <= k < |packed| => packed[k]);
    assert pixels[..] == packed;
    WholePixels(width, height);
    if color.Some? {
      if premultiplied { Unpremultiply(pixels); }
      assert pixels[..] == Decoded(packed, premultiplied);
      var converted := ConvertToSrgb(pixels, color.value, scratchGranted);
      if converted.Err? { return Err(converted.error); }
    }
    CompositeOverBlack(pixels, premultiplied && color.None?);
    FinishComposes(premultiplied, color, packed);
    return Ok(Frame(width, height, pixels[..]));
  }

  /** The passes over the buffer make up one pass of the pixel's whole way. */
  lemma FinishComposes(premultiplied: bool, color: Option<Transform>, packed: seq<byte>)
    ensures var f := Finish(premultiplied, color);
      var converted := if color.Some? then Map(color.value.apply, Decoded(packed, premultiplied)) else packed;
      Map(Composited(premultiplied && color.None?), converted) == Map(f, packed)
  {
    var f := Finish(premultiplied, color);
    if color.Some? {
      var apply := color.value.apply;
      if premultiplied {
        var over := (p: Pixel) => OverBlack(apply(p));
        MapCompose(apply, OverBlack, over, Map(Straight, packed));
        MapCompose(Straight, over, f, packed);
      } else {
        MapCompose(apply, OverBlack, f, packed);
      }
    }
  }

  /** Every pixel of a packed frame is opaque, whatever the plane, its alpha and the transform. */
  lemma AlwaysOpaque(premultiplied: bool, color: Option<Transform>, packed: seq<byte>, i: nat)
    requires 4 * i + 4 <= |packed|
    ensures Quad(Map(Finish(premultiplied, color), packed), 4 * i).alpha == 255
  {
    MapAt(Finish(premultiplied, color), packed, i);
    FinishIsOpaque(premultiplied, color, Quad(packed, 4 * i));
  }

  lemma FinishIsOpaque(premultiplied: bool, color: Option<Transform>, p: Pixel)
    ensures Finish(premultiplied, color)(p).alpha == 255
  {
    match color
    case None => assert Composited(premultiplied)(p) == if premultiplied then Opaque(p) else OverBlack(p);
    case Some(transform) =>
      if premultiplied {
        assert Finish(premultiplied, color)(p) == OverBlack(transform.apply(Straight(p)));
      } else {
        assert Finish(premultiplied, color)(p) == OverBlack(transform.apply(p));
      }
  }

  /** Straight colour, before the transform. */
  function Unmixed(premultiplied: bool, p: Pixel): Pixel { if premultiplied then Straight(p) else p }

  ghost predicate NearProduct(shown: int, channel: int, alpha: int) {
    -127 <= 255 * shown - channel * alpha <= 127
  }

  /**
   * What a pixel shows: converted straight colour times converted alpha, rounded; without a conversion
   * straight colour times alpha, or the premultiplied channels as they are.
   */
  lemma PixelShown(premultiplied: bool, color: Option<Transform>, p: Pixel)
    ensures var shown := Finish(premultiplied, color)(p);
      if color.None? && premultiplied then shown == Pixel(p.red, p.green, p.blue, 255)
      else
        var source := if color.Some? then color.value.apply(Unmixed(premultiplied, p)) else p;
        NearProduct(shown.red, source.red, source.alpha) && NearProduct(shown.green, source.green, source.alpha) &&
        NearProduct(shown.blue, source.blue, source.alpha) && shown.alpha == 255
  {
    hide OverBlack, Scaled, NearProduct, Straight;
    var source := if color.Some? then color.value.apply(Unmixed(premultiplied, p)) else p;
    OverBlackIsNear(source);
    match color
    case None =>
    case Some(transform) =>
      if premultiplied {
        assert Finish(premultiplied, color)(p) == OverBlack(transform.apply(Straight(p)));
      } else {
        assert Finish(premultiplied, color)(p) == OverBlack(transform.apply(p));
      }
  }

  lemma OverBlackIsNear(p: Pixel)
    ensures var shown := OverBlack(p);
      NearProduct(shown.red, p.red, p.alpha) && NearProduct(shown.green, p.green, p.alpha) &&
      NearProduct(shown.blue, p.blue, p.alpha) && shown.alpha == 255
  {
    hide Scaled;
    ScaledIsNearest(p.red, p.alpha);
    ScaledIsNearest(p.green, p.alpha);
    ScaledIsNearest(p.blue, p.alpha);
  }

  /**
   * Converting a premultiplied plane with a transform that changes nothing gives the frame that no
   * conversion gives, exactly when no channel exceeds its alpha.
   */
  lemma {:induction false} NeutralConversionIff(color: Transform, packed: seq<byte>)
    requires forall p :: color.apply(p) == p
    ensures Map(Finish(true, Some(color)), packed) == Map(Finish(true, None), packed) <==>
      forall i :: 0 <= i < |packed| / 4 ==> WithinAlpha(Quad(packed, 4 * i))
  {
    var f, g := Finish(true, Some(color)), Finish(true, None);
    if Map(f, packed) == Map(g, packed) {
      forall i | 0 <= i < |packed| / 4 ensures WithinAlpha(Quad(packed, 4 * i)) {
        MapAt(f, packed, i);
        MapAt(g, packed, i);
        RestoredIff(Quad(packed, 4 * i));
      }
    }
    if forall i :: 0 <= i < |packed| / 4 ==> WithinAlpha(Quad(packed, 4 * i)) {
      forall p: Pixel | WithinAlpha(p) ensures f(p) == g(p) { RestoredIff(p); }
      SamePass(f, g, packed);
    }
  }

  lemma {:induction false} SamePass(f: Pixel -> Pixel, g: Pixel -> Pixel, bytes: seq<byte>)
    requires forall p :: WithinAlpha(p) ==> f(p) == g(p)
    requires forall i :: 0 <= i < |bytes| / 4 ==> WithinAlpha(Quad(bytes, 4 * i))
    ensures Map(f, bytes) == Map(g, bytes)
  {
    if |bytes| >= 4 {
      assert WithinAlpha(Quad(bytes, 4 * 0));
      forall i | 0 <= i < |bytes[4..]| / 4 ensures WithinAlpha(Quad(bytes[4..], 4 * i)) {
        assert Quad(bytes[4..], 4 * i) == Quad(bytes, 4 * (i + 1));
      }
      SamePass(f, g, bytes[4..]);
    }
  }

  lemma WholePixels(width: nat, height: nat)
    ensures (width * 4 * height) % 4 == 0
  {
    assert width * 4 * height == 4 * (width * height);
  }

  lemma RowInside(stride: nat, y: nat, height: nat)
    requires y < height
    ensures 0 <= stride * y && stride * y + stride == stride * (y + 1) <= stride * height
  {
    MultiplyMonotone(y + 1, height, stride);
  }

  method PackRows(source: seq<byte>, stride: nat, row: nat, height: nat) returns (packed: seq<byte>)
    requires row <= stride && stride * height <= |source|
    ensures packed == Rows(source, stride, row, height)
  {
    packed := [];
    for y := 0 to height
      invariant 0 <= stride * y <= |source|
      invariant packed == Rows(source, stride, row, y)
    {
      RowInside(stride, y, height);
      packed := packed + source[stride * y..stride * y + row];
    }
  }
}
