/** The relay thread: reads frames from the worker and publishes them, then at most one failure. */
module RelayReader {
  import opened Prelude
  import opened Relay

  /** A pipe. Each read returns some of the bytes that are left, never none before the end. */
  class Source {
    const data: seq<byte>
    var pos: nat

    constructor (data: seq<byte>)
      ensures this.data == data && pos == 0
    {
      this.data := data;
      pos := 0;
    }

    /** One read of at most `limit` bytes; how many arrive is up to the pipe. */
    method Read(limit: nat) returns (chunk: seq<byte>)
      requires pos <= |data| && limit > 0
      modifies this
      ensures old(pos) <= pos <= |data| && chunk == data[old(pos)..pos] && |chunk| <= limit
      ensures chunk == [] ==> pos == |data|
    {
      if pos == |data| { return []; }
      var most := Min(limit, |data| - pos);
      var size: nat :| 1 <= size <= most;
      chunk := data[pos..pos + size];
      pos := pos + size;
    }

    /** Reads exactly `length` bytes, or everything that is left. */
    method ReadExact(length: nat) returns (r: Option<seq<byte>>)
      requires pos <= |data|
      modifies this
      ensures pos == Min(old(pos) + length, |data|)
      ensures r == if old(pos) + length <= |data| then Some(data[old(pos)..old(pos) + length]) else None
    {
      ghost var start := pos;
      var buffer: seq<byte> := [];
      while |buffer| < length
        invariant start <= pos <= |data| && |buffer| <= length && buffer == data[start..pos]
        decreases length - |buffer|
      {
        var chunk := Read(length - |buffer|);
        if chunk == [] { return None; }
        buffer := buffer + chunk;
      }
      return Some(buffer);
    }
  }

  /** What the relay shares with its consumer. */
  class Shared {
    var failed: bool
    var pending: Option<Update>
    var sequence: nat

    /** Everything ever published. */
    ghost var history: seq<Update>

    constructor ()
      ensures Valid() && history == []
    {
      failed, pending, sequence, history := false, None, 0, [];
    }

    /** One number per publication, and nothing after a failure. */
    ghost predicate Valid()
      reads this
    {
      sequence == |history| &&
      (forall i :: 0 <= i < |history| && history[i].Failed? ==> i == |history| - 1) &&
      (failed <==> history != [] && history[|history| - 1].Failed?)
    }

    /** Publishes a frame unless the failure was published. */
    method Emit(frame: Frame) returns (shown: bool)
      requires Valid()
      modifies this
      ensures Valid() && shown == !old(failed) && failed == old(failed)
      ensures history == if shown then old(history) + [Shown(frame)] else old(history)
      ensures pending == if shown then Some(Shown(frame)) else old(pending)
    {
      if failed { return false; }
      pending := Some(Shown(frame));
      sequence := sequence + 1;
      history := history + [Shown(frame)];
      return true;
    }

    /** Publishes the failure exactly once. */
    method Fail()
      requires Valid()
      modifies this
      ensures Valid() && failed
      ensures history == if old(failed) then old(history) else old(history) + [Failed]
      ensures pending == if old(failed) then old(pending) else Some(Failed)
    {
      if failed { return; }
      failed := true;
      pending := Some(Failed);
      sequence := sequence + 1;
      history := history + [Failed];
    }
  }

  // ------------------------------------------------------------- what is shown

  ghost function Updates(frames: seq<Frame>): (u: seq<Update>)
    ensures |u| == |frames|
  {
    seq(|frames|, i requires 0 <= i < |frames| => Shown(frames[i]))
  }

  /** What follows the frames of a stream. */
  ghost function AfterFrames(s: seq<byte>): seq<byte>
    decreases |s|
  {
    if StartsWithFrame(s) then AfterFrames(AfterFrame(s)) else s
  }

  ghost predicate AnnouncesFailure(s: seq<byte>) {
    var rest := AfterFrames(s); rest != [] && rest[0] == FAILED_TAG
  }

  /** Cancellation seen by the `k`-th look at the flag, when it was set before look number `stopAt`. */
  predicate Cancelled(stopAt: Option<nat>, k: nat) { stopAt.Some? && stopAt.value <= k }

  /** The reader stops before showing frame `k`. */
  predicate Halts(refused: set<nat>, stopAt: Option<nat>, k: nat) { k in refused || Cancelled(stopAt, k) }

  /** What the next message of the stream turns out to be. */
  datatype Next = Arrived(frame: Frame) | Announced | Broken

  /** Reads one message. A refused header, or a refused buffer, is not read past. */
  method ReadNext(source: Source, refuse: bool) returns (r: Next)
    requires source.pos <= |source.data|
    modifies source
    ensures source.pos <= |source.data|
    ensures var s := source.data[old(source.pos)..];
      && (r.Announced? <==> s != [] && s[0] == FAILED_TAG)
      && (r.Arrived? <==> StartsWithFrame(s) && !refuse)
      && (r.Arrived? ==> r.frame == FirstFrame(s) && source.data[source.pos..] == AfterFrame(s))
      && (!r.Arrived? && !refuse ==> source.pos == old(source.pos) + Consumed(s))
      && (s != [] && s[0] != FRAME_TAG ==> source.pos == old(source.pos) + 1)
      && (|s| >= 13 && s[0] == FRAME_TAG && (!Accepted(HeadOf(s[1..13])) || refuse) ==>
          source.pos == old(source.pos) + 1 + 12)
  {
    hide ExpectedFrameBytes, FromLittle;
    ghost var s := source.data[source.pos..];
    var tag := source.ReadExact(1);
    if tag.None? { return Broken; }
    assert tag.value[0] == s[0];
    if tag.value[0] == FAILED_TAG { return Announced; }
    if tag.value[0] != FRAME_TAG { return Broken; }
    var header := source.ReadExact(HEADER_BYTES);
    if header.None? { return Broken; }
    assert header.value == s[1..13];
    var h := HeadOf(header.value);
    var expected := ExpectedFrameBytes(h.width, h.height);
    if expected.None? { return Broken; }
    if h.length != expected.value { return Broken; }
    if refuse { return Broken; }
    var pixels := source.ReadExact(h.length);
    if pixels.None? { return Broken; }
    assert pixels.value == s[13..13 + h.length];
    return Arrived(Frame(h.width, h.height, pixels.value));
  }

  /**
   * Relays frames until the stream ends, a frame is refused, or the relay is cancelled.
   *
   * `refused` holds the frames whose buffer cannot be allocated. `stopAt` says how often the
   * cancellation flag is looked at before it is set.
   */
  method RunReader(source: Source, shared: Shared, refused: set<nat>, stopAt: Option<nat>) returns (shown: nat)
    requires source.pos <= |source.data| && shared.Valid() && !shared.failed
    modifies source, shared
    ensures shared.Valid()
    ensures var s := source.data[old(source.pos)..]; var frames := FramePrefix(s);
      && shown <= |frames|
      && (forall k :: 0 <= k < shown ==> !Halts(refused, stopAt, k))
      && (shown < |frames| ==> Halts(refused, stopAt, shown))
      && (shown == |frames| && shown !in refused ==> source.pos == old(source.pos) + Consumed(s))
      && (shared.failed <==> !Cancelled(stopAt, shown) || (shown == |frames| && AnnouncesFailure(s)))
      && (shared.failed ==> shared.pending == Some(Failed))
      && shared.history == old(shared.history) + Updates(frames[..shown]) + (if shared.failed then [Failed] else [])
  {
    hide StartsWithFrame, FramePrefix, AfterFrames, Consumed, AfterFrame, Updates;
    ghost var start := source.pos;
    ghost var s0 := source.data[start..];
    ghost var frames := FramePrefix(s0);
    ghost var before, left := shared.history, frames;
    shown := 0;
    UpdatesNothing(frames);
    while true
      invariant start <= source.pos <= |source.data| && shared.Valid() && !shared.failed && shown <= |frames|
      invariant forall k :: 0 <= k < shown ==> !Halts(refused, stopAt, k)
      invariant left == frames[shown..] == FramePrefix(source.data[source.pos..])
      invariant AfterFrames(source.data[source.pos..]) == AfterFrames(s0)
      invariant source.pos + Consumed(source.data[source.pos..]) == start + Consumed(s0)
      invariant shared.history == before + Updates(frames[..shown])
      decreases |source.data| - source.pos
    {
      ghost var at, s := source.pos, source.data[source.pos..];
      StreamStep(s);
      var next := ReadNext(source, shown in refused);
      if next.Broken? { break; }
      if next.Announced? {
        shared.Fail();
        return;
      }
      assert left[0] == frames[shown] == next.frame;
      if Cancelled(stopAt, shown) { break; }
      var emitted := shared.Emit(next.frame);
      UpdatesGrow(frames, shown);
      left := left[1..];
      shown := shown + 1;
    }
    if !Cancelled(stopAt, shown) { shared.Fail(); }
  }

  lemma UpdatesNothing(frames: seq<Frame>)
    ensures Updates(frames[..0]) == []
  {
  }

  lemma UpdatesGrow(frames: seq<Frame>, k: nat)
    requires k < |frames|
    ensures Updates(frames[..k + 1]) == Updates(frames[..k]) + [Shown(frames[k])]
  {
  }

  /** How the descriptions of a stream unfold at its first message. */
  lemma StreamStep(s: seq<byte>)
    ensures StartsWithFrame(s) ==>
      && FramePrefix(s) == [FirstFrame(s)] + FramePrefix(AfterFrame(s))
      && AfterFrames(s) == AfterFrames(AfterFrame(s))
      && Consumed(s) == |s| - |AfterFrame(s)| + Consumed(AfterFrame(s))
    ensures !StartsWithFrame(s) ==> FramePrefix(s) == [] && AfterFrames(s) == s
    ensures s != [] && s[0] == FAILED_TAG ==> !StartsWithFrame(s)
  {
  }

  /**
   * An uncancelled stream whose buffers are all granted publishes its maximal frame prefix and then
   * exactly one failure, and reads nothing past what stops it.
   */
  method RelayWholeStream(data: seq<byte>) returns (shared: Shared, source: Source)
    ensures fresh(shared) && fresh(source) && source.data == data
    ensures shared.history == Updates(FramePrefix(data)) + [Failed]
    ensures shared.sequence == |FramePrefix(data)| + 1 && shared.pending == Some(Failed)
    ensures source.pos == Consumed(data)
  {
    hide FramePrefix, Consumed, Updates, AfterFrames;
    source := new Source(data);
    shared := new Shared();
    assert data[0..] == data;
    var shown := RunReader(source, shared, {}, None);
    assert !Halts({}, None, shown);
    assert FramePrefix(data)[..shown] == FramePrefix(data);
  }
}
