/** The framed byte protocol between the HEIC worker process and its relay. */
module Relay {
  import opened Prelude
  import opened ByteWriting

  const FRAME_TAG: byte := 70
  const FAILED_TAG: byte := 69
  const HEADER_BYTES: nat := 12
  const MAX_FRAME_DIMENSION: nat := 16_384
  const MAX_FRAME_BYTES: nat := 256 * 1024 * 1024

  datatype Frame = Frame(width: nat, height: nat, pixels: seq<byte>)

  datatype Update = Shown(frame: Frame) | Failed

  predicate Displayable(width: nat, height: nat) {
    1 <= width <= MAX_FRAME_DIMENSION && 1 <= height <= MAX_FRAME_DIMENSION && 4 * width * height <= MAX_FRAME_BYTES
  }

  /** The exact RGBA length of a frame of this size, if the relay accepts the size. */
  function ExpectedFrameBytes(width: nat, height: nat): (r: Option<nat>)
    ensures r.Some? <==> Displayable(width, height)
    ensures r.Some? ==> r.value == 4 * width * height
  {
    if width == 0 || height == 0 then None
    else if width > MAX_FRAME_DIMENSION || height > MAX_FRAME_DIMENSION then None
    else
      var pixels := CheckedMul(width, height, USIZE_MAX);
      if pixels.None? then None else
      var bytes := CheckedMul(pixels.value, 4, USIZE_MAX);
      if bytes.None? || bytes.value > MAX_FRAME_BYTES then None else bytes
  }

  ghost predicate Admissible(f: Frame) {
    ExpectedFrameBytes(f.width, f.height) == Some(|f.pixels|)
  }

  // ---------------------------------------------------------------- encoding

  function Little(n: nat): (s: seq<byte>)
    requires n <= U32_MAX
    ensures |s| == 4 && FromLittle(s) == n
  {
    [n % 0x100, n / 0x100 % 0x100, n / 0x100 / 0x100 % 0x100, n / 0x100 / 0x100 / 0x100]
  }

  function FromLittle(s: seq<byte>): (n: nat)
    requires |s| == 4
    ensures n <= U32_MAX
  {
    s[0] + 0x100 * (s[1] + 0x100 * (s[2] + 0x100 * (s[3] as int)))
  }

  lemma LittleUnique(s: seq<byte>)
    requires |s| == 4
    ensures Little(FromLittle(s)) == s
  {
    var high: int := s[2] + 0x100 * (s[3] as int);
    var middle: int := s[1] + 0x100 * high;
    Digit(s[0], middle);
    Digit(s[1], high);
    Digit(s[2], s[3]);
  }

  lemma Digit(low: byte, rest: int)
    ensures (low + 0x100 * rest) % 0x100 == low && (low + 0x100 * rest) / 0x100 == rest
  {
  }

  /** Fields stand least significant byte first: the reverse of a big-endian number. */
  lemma LittleIsReversed(n: nat, i: nat)
    requires n <= U32_MAX && i < 4
    ensures Little(n)[i] == Big(n, 4)[3 - i]
  {
    assert Big(n, 4) == Big(n / 0x100, 3) + [n % 0x100];
    assert Big(n / 0x100, 3) == Big(n / 0x100 / 0x100, 2) + [n / 0x100 % 0x100];
    assert Big(n / 0x100 / 0x100, 2) == Big(n / 0x100 / 0x100 / 0x100, 1) + [n / 0x100 / 0x100 % 0x100];
  }

  lemma TagsAreLetters()
    ensures FRAME_TAG == 'F' as int && FAILED_TAG == 'E' as int
  {
  }

  ghost function Encode(f: Frame): seq<byte>
    requires f.width <= U32_MAX && f.height <= U32_MAX && |f.pixels| <= U32_MAX
  {
    [FRAME_TAG] + Little(f.width) + Little(f.height) + Little(|f.pixels|) + f.pixels
  }

  ghost predicate AllAdmissible(fs: seq<Frame>) {
    forall i :: 0 <= i < |fs| ==> Admissible(fs[i])
  }

  ghost function EncodeAll(fs: seq<Frame>): seq<byte>
    requires AllAdmissible(fs)
  {
    if fs == [] then [] else Encode(fs[0]) + EncodeAll(fs[1..])
  }

  /** Writes one frame; only a length that does not fit its field is refused. */
  method WriteFrame(written: seq<byte>, f: Frame) returns (r: Option<seq<byte>>)
    requires f.width <= U32_MAX && f.height <= U32_MAX
    ensures r.Some? <==> |f.pixels| <= U32_MAX
    ensures r.Some? ==> r.value == written + Encode(f)
  {
    if |f.pixels| > U32_MAX { return None; }
    var header := [FRAME_TAG] + Little(f.width) + Little(f.height) + Little(|f.pixels|);
    assert written + header + f.pixels == written + (header + f.pixels);
    return Some(written + header + f.pixels);
  }

  // ---------------------------------------------------------------- decoding

  datatype Head = Head(width: nat, height: nat, length: nat)

  function HeadOf(header: seq<byte>): Head
    requires |header| == HEADER_BYTES
  {
    Head(FromLittle(header[..4]), FromLittle(header[4..8]), FromLittle(header[8..12]))
  }

  /** A header the relay accepts: the declared length is the exact length of its size. */
  predicate Accepted(h: Head) { ExpectedFrameBytes(h.width, h.height) == Some(h.length) }

  ghost predicate StartsWithFrame(s: seq<byte>) {
    |s| >= 13 && s[0] == FRAME_TAG && Accepted(HeadOf(s[1..13])) && 13 + HeadOf(s[1..13]).length <= |s|
  }

  ghost function FirstFrame(s: seq<byte>): (f: Frame)
    requires StartsWithFrame(s)
  {
    var h := HeadOf(s[1..13]);
    Frame(h.width, h.height, s[13..13 + h.length])
  }

  ghost function AfterFrame(s: seq<byte>): (rest: seq<byte>)
    requires StartsWithFrame(s)
    ensures |rest| < |s|
  {
    s[13 + HeadOf(s[1..13]).length..]
  }

  /** The frames a stream starts with. */
  ghost function FramePrefix(s: seq<byte>): seq<Frame>
    decreases |s|
  {
    if StartsWithFrame(s) then [FirstFrame(s)] + FramePrefix(AfterFrame(s)) else []
  }

  /** How far a reader gets: past every frame, and past the tag or header that stops it. */
  ghost function Consumed(s: seq<byte>): (n: nat)
    ensures n <= |s|
    decreases |s|
  {
    if s == [] then 0
    else if s[0] != FRAME_TAG then 1
    else if |s| < 13 then |s|
    else if !Accepted(HeadOf(s[1..13])) then 13
    else if !StartsWithFrame(s) then |s|
    else |s| - |AfterFrame(s)| + Consumed(AfterFrame(s))
  }

  lemma HeaderRoundTrip(f: Frame, rest: seq<byte>)
    requires Admissible(f)
    ensures var s := Encode(f) + rest;
      StartsWithFrame(s) && FirstFrame(s) == f && AfterFrame(s) == rest
  {
    var s := Encode(f) + rest;
    var w, h, n := Little(f.width), Little(f.height), Little(|f.pixels|);
    assert s[1..13] == w + h + n;
    assert (w + h + n)[..4] == w && (w + h + n)[4..8] == h && (w + h + n)[8..12] == n;
    assert s == ([FRAME_TAG] + w + h + n) + f.pixels + rest;
  }

  lemma FrameRebuilds(s: seq<byte>)
    requires StartsWithFrame(s)
    ensures Admissible(FirstFrame(s)) && s == Encode(FirstFrame(s)) + AfterFrame(s)
  {
    var header := s[1..13];
    LittleUnique(header[..4]);
    LittleUnique(header[4..8]);
    LittleUnique(header[8..12]);
    assert header == header[..4] + header[4..8] + header[8..12];
    var h := HeadOf(header);
    assert Encode(FirstFrame(s)) == [FRAME_TAG] + header + s[13..13 + h.length];
  }

  /** Writing frames and reading them back gives exactly those frames, whatever other bytes follow. */
  lemma {:induction false} RoundTrip(fs: seq<Frame>, rest: seq<byte>)
    requires AllAdmissible(fs)
    ensures FramePrefix(EncodeAll(fs) + rest) == fs + FramePrefix(rest)
  {
    hide FramePrefix, Encode, ExpectedFrameBytes;
    if fs == [] {
      assert EncodeAll(fs) + rest == rest;
      assert fs + FramePrefix(rest) == FramePrefix(rest);
    } else {
      var tail := EncodeAll(fs[1..]) + rest;
      SplitFirst(fs, rest);
      OneFrame(fs[0], tail);
      RoundTrip(fs[1..], rest);
      Regroup(fs, FramePrefix(rest));
    }
  }

  lemma Regroup<T>(a: seq<T>, b: seq<T>)
    requires a != []
    ensures [a[0]] + (a[1..] + b) == a + b
  {
  }

  /** Reading stops exactly as far into the other bytes as it would have without the frames. */
  lemma {:induction false} RoundTripConsumed(fs: seq<Frame>, rest: seq<byte>)
    requires AllAdmissible(fs)
    ensures Consumed(EncodeAll(fs) + rest) == |EncodeAll(fs)| + Consumed(rest)
  {
    if fs == [] {
      assert EncodeAll(fs) + rest == rest;
    } else {
      SplitFirst(fs, rest);
      OneFrame(fs[0], EncodeAll(fs[1..]) + rest);
      RoundTripConsumed(fs[1..], rest);
    }
  }

  lemma SplitFirst(fs: seq<Frame>, rest: seq<byte>)
    requires AllAdmissible(fs) && fs != []
    ensures EncodeAll(fs) + rest == Encode(fs[0]) + (EncodeAll(fs[1..]) + rest)
  {
  }

  lemma OneFrame(f: Frame, rest: seq<byte>)
    requires Admissible(f)
    ensures FramePrefix(Encode(f) + rest) == [f] + FramePrefix(rest)
    ensures Consumed(Encode(f) + rest) == |Encode(f)| + Consumed(rest)
  {
    HeaderRoundTrip(f, rest);
  }

  /** The frame prefix is encoded at the front of the stream. */
  lemma {:induction false} PrefixIsEncoded(s: seq<byte>)
    ensures AllAdmissible(FramePrefix(s)) && EncodeAll(FramePrefix(s)) <= s
    decreases |s|
  {
    if StartsWithFrame(s) {
      FrameRebuilds(s);
      PrefixIsEncoded(AfterFrame(s));
      assert FramePrefix(s)[1..] == FramePrefix(AfterFrame(s));
    }
  }

  /** It is the longest: any frames encoded at the front of the stream are a prefix of it. */
  lemma PrefixIsMaximal(s: seq<byte>, fs: seq<Frame>)
    requires AllAdmissible(fs) && EncodeAll(fs) <= s
    ensures fs <= FramePrefix(s)
  {
    var rest := s[|EncodeAll(fs)|..];
    assert s == EncodeAll(fs) + rest;
    RoundTrip(fs, rest);
  }

  /** After whole frames, a refused header is the last thing read: one tag and twelve bytes. */
  lemma StopsAfterHeader(fs: seq<Frame>, rest: seq<byte>)
    requires AllAdmissible(fs) && |rest| >= 13 && rest[0] == FRAME_TAG
    requires var h := HeadOf(rest[1..13]); !Displayable(h.width, h.height) || h.length != 4 * h.width * h.height
    ensures Consumed(EncodeAll(fs) + rest) == |EncodeAll(fs)| + 1 + 12
    ensures FramePrefix(EncodeAll(fs) + rest) == fs
  {
    hide Encode, EncodeAll, FromLittle;
    RoundTrip(fs, rest);
    RoundTripConsumed(fs, rest);
    assert fs + [] == fs;
  }
}
