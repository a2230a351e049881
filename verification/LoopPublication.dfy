/** Publishing video frames in two lock sections, against loop starts, failure and the consumer. */
module LoopPublication {
  import opened Prelude

  datatype Frame = Frame(width: nat, height: nat, pixels: seq<byte>, pts: Option<nat>)

  /** A dissolve from the held frame; times are nanoseconds. */
  datatype Transition = Transition(held: Frame, startedAt: nat, duration: nat)

  datatype Update = Shown(frame: Frame) | Failed

  /** What the lock protects, with the failure flag beside it. */
  datatype Shared = Shared(
    failed: bool, transition: Option<Transition>, lastFrame: Option<Frame>, pending: Option<Update>)

  // ------------------------------------------------------------------ blending

  /** Progress of a dissolve in 256ths. */
  function Progress(elapsed: nat, duration: nat): (p: nat)
    ensures p <= 256
  {
    Min(elapsed * 256 / Max(duration, 1), 256)
  }

  predicate SameDimensions(a: Frame, b: Frame) {
    a.width == b.width && a.height == b.height && |a.pixels| == |b.pixels|
  }

  function Mix(held: byte, opening: byte, weight: nat): (m: byte)
    requires weight <= 256
    ensures Min(held, opening) <= m <= Max(held, opening)
    ensures weight == 0 ==> m == held
    ensures weight == 256 ==> m == opening
  {
    MixBetween(held, opening, weight);
    (held * (256 - weight) + opening * weight + 128) / 256
  }

  lemma MixBetween(held: int, opening: int, weight: nat)
    requires 0 <= held < 256 && 0 <= opening < 256 && weight <= 256
    ensures var sum := held * (256 - weight) + opening * weight;
      sum + 128 <= 0xFFFF && Min(held, opening) <= (sum + 128) / 256 <= Max(held, opening)
    ensures weight == 0 ==> (held * (256 - weight) + opening * weight + 128) / 256 == held
    ensures weight == 256 ==> (held * (256 - weight) + opening * weight + 128) / 256 == opening
  {
    var sum := held * (256 - weight) + opening * weight;
    if held <= opening {
      assert sum == 256 * held + (opening - held) * weight;
      Scale(opening - held, weight);
    } else {
      assert sum == 256 * opening + (held - opening) * (256 - weight);
      Scale(held - opening, 256 - weight);
    }
  }

  lemma Scale(gap: nat, weight: nat)
    requires weight <= 256
    ensures 0 <= gap * weight <= 256 * gap
  {
  }

  function Blend(held: Frame, opening: Frame, weight: nat): (f: Frame)
    requires SameDimensions(held, opening) && weight <= 256
    ensures SameDimensions(f, opening) && f.pts == opening.pts
    ensures forall i :: 0 <= i < |f.pixels| ==>
      Min(held.pixels[i], opening.pixels[i]) <= f.pixels[i] <= Max(held.pixels[i], opening.pixels[i])
    ensures weight == 0 ==> f.pixels == held.pixels
    ensures weight == 256 ==> f.pixels == opening.pixels
  {
    opening.(pixels := seq(|held.pixels|, i requires 0 <= i < |held.pixels| =>
      Mix(held.pixels[i], opening.pixels[i], weight)))
  }

  /** `shown` is at most one and a half levels from the point `elapsed / duration` of the way to `opening`. */
  ghost predicate OnTheLine(held: int, opening: int, shown: int, elapsed: nat, duration: nat) {
    var gap := duration * (shown - held) - elapsed * (opening - held);
    -3 * duration <= 2 * gap <= 3 * duration
  }

  lemma Linear(held: Frame, opening: Frame, elapsed: nat, duration: nat)
    ensures SameDimensions(held, opening) && elapsed < Max(duration, 1) ==>
      var weight := Progress(elapsed, duration);
      forall i :: 0 <= i < |held.pixels| ==>
        OnTheLine(held.pixels[i], opening.pixels[i], Mix(held.pixels[i], opening.pixels[i], weight),
                  elapsed, Max(duration, 1))
  {
    hide OnTheLine, Mix;
    if SameDimensions(held, opening) && elapsed < Max(duration, 1) {
      forall i | 0 <= i < |held.pixels|
        ensures OnTheLine(held.pixels[i], opening.pixels[i],
                          Mix(held.pixels[i], opening.pixels[i], Progress(elapsed, duration)),
                          elapsed, Max(duration, 1))
      {
        MixIsLinear(held.pixels[i], opening.pixels[i], elapsed, duration);
      }
    }
  }

  lemma MixIsLinear(held: byte, opening: byte, elapsed: nat, duration: nat)
    requires elapsed < Max(duration, 1)
    ensures OnTheLine(held, opening, Mix(held, opening, Progress(elapsed, duration)), elapsed, Max(duration, 1))
  {
    var d := Max(duration, 1);
    var a: nat := elapsed * 256;
    Unfinished(elapsed, d);
    QuotientBounds(a, d);
    var p := Progress(elapsed, duration);
    assert p == a / d;
    var step, rise := a - p * d, opening - held;
    var shown := Mix(held, opening, p);
    var slip := 256 * (shown - held) - rise * p;
    assert -127 <= slip <= 128 by { Rounding(held, opening, p); }
    Line(d, shown - held, rise, elapsed, p, step, slip);
  }

  lemma Rounding(held: int, opening: int, p: nat)
    requires 0 <= held < 256 && 0 <= opening < 256 && p <= 256
    ensures -127 <= 256 * (Mix(held, opening, p) - held) - (opening - held) * p <= 128
  {
    assert held * (256 - p) + opening * p == 256 * held + (opening - held) * p;
  }

  /** Dropping the rest of a division and rounding cost less than one level and a half together. */
  lemma Line(d: int, moved: int, rise: int, elapsed: int, p: int, step: int, slip: int)
    requires d > 0 && -255 <= rise <= 255 && 0 <= step < d && -127 <= slip <= 128
    requires 256 * elapsed == p * d + step && 256 * moved == rise * p + slip
    ensures -3 * d <= 2 * (d * moved - elapsed * rise) <= 3 * d
  {
    var gap := d * moved - elapsed * rise;
    Expand(d, moved, rise, elapsed, p, step, slip);
    assert 256 * gap == d * slip - step * rise;
    Product(d, slip, 128);
    Product(step, rise, 255);
  }

  lemma Expand(d: int, moved: int, rise: int, elapsed: int, p: int, step: int, slip: int)
    requires 256 * elapsed == p * d + step && 256 * moved == rise * p + slip
    ensures 256 * (d * moved - elapsed * rise) == d * slip - step * rise
  {
    assert 256 * (d * moved) == d * (rise * p + slip);
    assert 256 * (elapsed * rise) == (p * d + step) * rise;
  }

  lemma Product(a: nat, b: int, bound: int)
    requires -bound <= b <= bound
    ensures -(a * bound) <= a * b <= a * bound
  {
  }

  /** How far into a dissolve a frame is: by its own time stamp, or else by the clock. */
  function Elapsed(t: Transition, frame: Frame, now: nat): nat {
    if frame.pts.Some? then frame.pts.value else if now > t.startedAt then now - t.startedAt else 0
  }

  /**
   * The frame to show and the transition to keep. While the dissolve lasts every channel is where a
   * straight line from the held to the opening value is, up to one and a half levels.
   */
  function Dissolve(taken: Option<Transition>, frame: Frame, now: nat): (r: (Frame, Option<Transition>))
    ensures r.1.Some? ==> r.1 == taken
    ensures r.1.Some? <==>
      taken.Some? && SameDimensions(taken.value.held, frame) &&
      Elapsed(taken.value, frame, now) < Max(taken.value.duration, 1)
    ensures SameDimensions(r.0, frame) && r.0.pts == frame.pts
    ensures r.1.None? ==> r.0 == frame
    ensures r.1.Some? ==>
      forall i :: 0 <= i < |frame.pixels| ==>
        OnTheLine(taken.value.held.pixels[i], frame.pixels[i], r.0.pixels[i],
                  Elapsed(taken.value, frame, now), Max(taken.value.duration, 1))
  {
    if taken.None? then (frame, None)
    else
      var elapsed := Elapsed(taken.value, frame, now);
      var progress := Progress(elapsed, taken.value.duration);
      Unfinished(elapsed, Max(taken.value.duration, 1));
      Linear(taken.value.held, frame, elapsed, taken.value.duration);
      if progress < 256 && SameDimensions(taken.value.held, frame)
      then (Blend(taken.value.held, frame, progress), taken)
      else (frame, None)
  }

  /** Every channel moves monotonically from the held value to the opening one. */
  lemma MixMonotone(held: byte, opening: byte, early: nat, late: nat)
    requires early <= late <= 256
    ensures held <= opening ==> Mix(held, opening, early) <= Mix(held, opening, late)
    ensures held >= opening ==> Mix(held, opening, early) >= Mix(held, opening, late)
  {
    if held <= opening {
      WeightMatters(held, opening, early, late);
    } else {
      WeightMatters(opening, held, 256 - late, 256 - early);
    }
  }

  lemma WeightMatters(low: nat, high: nat, less: nat, more: nat)
    requires low <= high && less <= more <= 256
    ensures low * (256 - less) + high * less <= low * (256 - more) + high * more
  {
    MultiplyMonotone(less, more, high - low);
  }

  /** A dissolve is unfinished exactly while less than its duration has passed. */
  lemma Unfinished(elapsed: nat, duration: nat)
    requires duration > 0
    ensures 0 <= elapsed * 256 / duration && (elapsed * 256 / duration < 256 <==> elapsed < duration)
  {
    var a: nat := elapsed * 256;
    QuotientBounds(a, duration);
    if elapsed < duration {
      LessFactor(a / duration, 256, duration);
    } else {
      DivideMonotone(256 * duration, a, duration);
      QuotientIs(256 * duration, duration, 256);
    }
  }

  /** A dissolve only moves towards its end. */
  lemma ProgressMonotone(early: nat, late: nat, duration: nat)
    requires early <= late
    ensures Progress(early, duration) <= Progress(late, duration)
  {
    DivideMonotone(early * 256, late * 256, Max(duration, 1));
  }

  /** A loop dissolves from the last frame shown, over its crossfade, from the moment it starts. */
  lemma LoopDissolves(s: Shared, crossfade: nat, start: nat, frame: Frame, passed: nat, i: nat)
    requires s.lastFrame.Some? && SameDimensions(s.lastFrame.value, frame) && frame.pts.None?
    requires passed < Max(crossfade, 1) && i < |frame.pixels|
    ensures var begun := BeginLoop(s, crossfade, start).transition;
      var (shown, kept) := Dissolve(begun, frame, start + passed);
      kept == begun &&
      OnTheLine(s.lastFrame.value.pixels[i], frame.pixels[i], shown.pixels[i], passed, Max(crossfade, 1))
  {
  }

  // ------------------------------------------------------------- lock sections

  ghost function TakeTransition(s: Shared): Shared { s.(transition := None) }

  ghost function StoreFrame(s: Shared, frame: Frame, kept: Option<Transition>): Shared {
    s.(transition := if s.transition.None? then kept else s.transition,
       lastFrame := Some(frame),
       pending := Some(Shown(frame)))
  }

  ghost function BeginLoop(s: Shared, crossfade: nat, now: nat): Shared {
    s.(transition := if s.lastFrame.Some? then Some(Transition(s.lastFrame.value, now, crossfade)) else None)
  }

  ghost function StoreFailure(s: Shared): Shared {
    s.(pending := Some(Failed), lastFrame := None, transition := None)
  }

  /** The shared state as the threads reach it. */
  class Cell {
    var failed: bool
    var transition: Option<Transition>
    var lastFrame: Option<Frame>
    var pending: Option<Update>

    ghost function Value(): Shared
      reads this
    {
      Shared(failed, transition, lastFrame, pending)
    }

    constructor ()
      ensures Value() == Shared(false, None, None, None)
    {
      failed, transition, lastFrame, pending := false, None, None, None;
    }

    /** First section of a publication: refused after a failure, otherwise takes the transition. */
    method Take() returns (r: Option<Option<Transition>>)
      modifies this
      ensures r == if old(failed) then None else Some(old(transition))
      ensures Value() == if old(failed) then old(Value()) else TakeTransition(old(Value()))
    {
      if failed { return None; }
      r := Some(transition);
      transition := None;
    }

    /** Second section: a transition installed meanwhile is kept over the one put back. */
    method Store(frame: Frame, kept: Option<Transition>) returns (shown: bool)
      modifies this
      ensures shown == !old(failed)
      ensures Value() == if shown then StoreFrame(old(Value()), frame, kept) else old(Value())
    {
      if failed { return false; }
      if transition.None? { transition := kept; }
      lastFrame := Some(frame);
      pending := Some(Shown(frame));
      return true;
    }

    /** A publication that nothing interrupts. */
    method Publish(frame: Frame, now: nat) returns (shown: bool)
      modifies this
      ensures shown == !old(failed)
      ensures shown ==>
        Value() == var (f, kept) := Dissolve(old(transition), frame, now);
          Shared(false, kept, Some(f), Some(Shown(f)))
    {
      var taken := Take();
      if taken.None? { return false; }
      var (blended, kept) := Dissolve(taken.value, frame, now);
      shown := Store(blended, kept);
    }

    method Begin(crossfade: nat, now: nat)
      modifies this
      ensures Value() == BeginLoop(old(Value()), crossfade, now)
    {
      transition := if lastFrame.Some? then Some(Transition(lastFrame.value, now, crossfade)) else None;
    }

    /** Publishes the failure once; the flag is set before the section is entered. */
    method FailOnce()
      modifies this
      ensures Value() == if old(failed) then old(Value()) else StoreFailure(old(Value()).(failed := true))
    {
      if failed { return; }
      failed := true;
      pending := Some(Failed);
      lastFrame := None;
      transition := None;
    }
  }

  // -------------------------------------------------------------- interleaving

  /** The appsink is outside a publication, or between its sections with what it will store. */
  datatype Publisher = Outside | Between(frame: Frame, kept: Option<Transition>, taken: Option<Transition>)

  /** `fail_once` has not run, has set the flag, or has run its section. */
  datatype Failure = Unfailed | Flagged | Recorded

  datatype World = World(
    shared: Shared,
    publisher: Publisher,
    failure: Failure,
    /** What a loop start installed since the first section, if one ran. */
    begun: Option<Option<Transition>>)

  const START: World := World(Shared(false, None, None, None), Outside, Unfailed, None)

  ghost predicate PublisherStep(w: World, v: World) {
    match w.publisher
    case Outside =>
      !w.shared.failed &&
      exists frame, now {:trigger Dissolve(w.shared.transition, frame, now)} ::
        var (shown, kept) := Dissolve(w.shared.transition, frame, now);
        v == w.(shared := TakeTransition(w.shared), publisher := Between(shown, kept, w.shared.transition),
                begun := None)
    case Between(frame, kept, _) =>
      v == w.(shared := if w.shared.failed then w.shared else StoreFrame(w.shared, frame, kept), publisher := Outside)
  }

  ghost predicate LoopStep(w: World, v: World) {
    exists crossfade, now ::
      var t := BeginLoop(w.shared, crossfade, now);
      v == w.(shared := t, begun := Some(t.transition))
  }

  ghost predicate FailureStep(w: World, v: World) {
    match w.failure
    case Unfailed => v == w.(shared := w.shared.(failed := true), failure := Flagged)
    case Flagged => v == w.(shared := StoreFailure(w.shared), failure := Recorded)
    case Recorded => v == w
  }

  ghost predicate ConsumerStep(w: World, v: World) {
    v == w.(shared := w.shared.(pending := None))
  }

  ghost predicate Step(w: World, v: World) {
    PublisherStep(w, v) || LoopStep(w, v) || FailureStep(w, v) || ConsumerStep(w, v)
  }

  ghost predicate Inv(w: World) {
    && (w.shared.failed <==> !w.failure.Unfailed?)
    && (w.shared.transition.Some? && !w.failure.Recorded? ==> w.shared.lastFrame.Some?)
    && (w.publisher.Between? ==>
        (w.publisher.kept.Some? ==> w.publisher.kept == w.publisher.taken) &&
        (w.publisher.taken.Some? && !w.failure.Recorded? ==> w.shared.lastFrame.Some?) &&
        (w.begun.Some? && !w.failure.Recorded? ==>
          w.shared.transition == w.begun.value && (w.shared.transition.None? ==> w.shared.lastFrame.None?)))
    && (w.publisher.Between? && w.begun.None? ==> w.shared.transition.None?)
    && (w.failure.Recorded? ==>
        w.shared.lastFrame.None? && w.shared.transition.None? &&
        !(w.shared.pending.Some? && w.shared.pending.value.Shown?))
  }

  lemma StepKeeps(w: World, v: World)
    requires Inv(w) && Step(w, v)
    ensures Inv(v)
  {
  }

  ghost predicate Run(run: seq<World>) {
    |run| >= 1 && run[0] == START && forall i :: 0 <= i < |run| - 1 ==> Step(run[i], run[i + 1])
  }

  lemma {:induction false} RunKeeps(run: seq<World>, i: nat)
    requires Run(run) && i < |run|
    ensures Inv(run[i])
  {
    if i > 0 {
      RunKeeps(run, i - 1);
      assert Step(run[i - 1], run[i - 1 + 1]);
      StepKeeps(run[i - 1], run[i]);
    }
  }

  // ------------------------------------------------------------ main theorems

  lemma {:induction false} FailureStays(run: seq<World>, i: nat, j: nat)
    requires Run(run) && i <= j < |run| && run[i].failure.Recorded?
    ensures run[j].failure.Recorded?
    decreases j - i
  {
    if i < j {
      FailureStays(run, i, j - 1);
      assert Step(run[j - 1], run[j - 1 + 1]);
    }
  }

  /** Recording the failure announces it, over whatever frame was waiting. */
  lemma FailureIsAnnounced(run: seq<World>, i: nat)
    requires Run(run) && i + 1 < |run| && run[i].failure.Flagged? && run[i + 1].failure.Recorded?
    ensures run[i + 1].shared.pending == Some(Failed)
  {
    RunKeeps(run, i);
    assert Step(run[i], run[i + 1]);
  }

  /** Once the failure is recorded no frame is pending again, and nothing of the video is retained. */
  lemma FailureIsFinal(run: seq<World>, i: nat, j: nat)
    requires Run(run) && i <= j < |run| && run[i].failure.Recorded?
    ensures var s := run[j].shared;
      s.failed && s.lastFrame.None? && s.transition.None? && s.pending in {None, Some(Failed)}
  {
    FailureStays(run, i, j);
    RunKeeps(run, j);
  }

  /**
   * A loop that starts between the two sections wins: the second section leaves exactly what the loop
   * installed, and without such a loop it puts back what the blend decided to keep of what was taken.
   */
  lemma NewerTransitionWins(run: seq<World>, i: nat)
    requires Run(run) && i + 1 < |run|
    requires run[i].publisher.Between? && run[i + 1].publisher.Outside? && !run[i].shared.failed
    ensures run[i].begun.Some? ==> run[i + 1].shared.transition == run[i].begun.value
    ensures run[i].begun.None? ==> run[i + 1].shared.transition == run[i].publisher.kept
    ensures run[i].publisher.kept in {None, run[i].publisher.taken}
  {
    RunKeeps(run, i);
    assert Step(run[i], run[i + 1]);
  }

  // ---------------------------------------------------------------- loop requests

  datatype Action = Publish | Request | Drop

  /** What the appsink does with a frame, and the request flag it leaves. */
  function LoopAction(requested: bool, pts: Option<nat>, loopAt: nat): (Action, bool) {
    if pts.None? then (if requested then Drop else Publish, requested)
    else if pts.value < loopAt then (Publish, false)
    else (if requested then Drop else Request, true)
  }

  ghost function Actions(requested: bool, frames: seq<Option<nat>>, loopAt: nat): (a: seq<Action>)
    ensures |a| == |frames|
    decreases |frames|
  {
    if frames == [] then []
    else
      var (action, flag) := LoopAction(requested, frames[0], loopAt);
      [action] + Actions(flag, frames[1..], loopAt)
  }

  ghost predicate Early(pts: Option<nat>, loopAt: nat) { pts.Some? && pts.value < loopAt }

  ghost predicate Late(pts: Option<nat>, loopAt: nat) { pts.Some? && pts.value >= loopAt }

  /** Before frame `i` a request is outstanding: one was made, and no early frame came since. */
  ghost predicate Outstanding(requested: bool, frames: seq<Option<nat>>, loopAt: nat, i: nat)
    requires i <= |frames|
  {
    || (requested && forall k :: 0 <= k < i ==> !Early(frames[k], loopAt))
    || (exists j :: 0 <= j < i && Late(frames[j], loopAt) && forall k :: j < k < i ==> !Early(frames[k], loopAt))
  }

  /**
   * What happens to every frame: early ones are shown; the first at or past the loop point asks for the
   * loop; while that request is outstanding everything else is dropped.
   */
  lemma {:induction false} ActionAt(requested: bool, frames: seq<Option<nat>>, loopAt: nat, i: nat)
    requires i < |frames|
    ensures var outstanding := Outstanding(requested, frames, loopAt, i);
      Actions(requested, frames, loopAt)[i] ==
        if Early(frames[i], loopAt) then Publish
        else if outstanding then Drop
        else if Late(frames[i], loopAt) then Request else Publish
    decreases |frames|
  {
    if i > 0 {
      var rest, flag := frames[1..], LoopAction(requested, frames[0], loopAt).1;
      ActionAt(flag, rest, loopAt, i - 1);
      assert forall k :: 0 <= k < i - 1 ==> rest[k] == frames[k + 1];
      OutstandingRest(requested, frames, loopAt, i);
    }
  }

  lemma OutstandingRest(requested: bool, frames: seq<Option<nat>>, loopAt: nat, i: nat)
    requires 0 < i <= |frames|
    ensures Outstanding(requested, frames, loopAt, i) <==>
      Outstanding(LoopAction(requested, frames[0], loopAt).1, frames[1..], loopAt, i - 1)
  {
    hide Early, Late;
    var rest, flag := frames[1..], LoopAction(requested, frames[0], loopAt).1;
    FlagAfter(requested, frames[0], loopAt);
    assert forall k :: 1 <= k < i ==> frames[k] == rest[k - 1];
    assert forall k :: 0 <= k < i - 1 ==> rest[k] == frames[k + 1];
    if Outstanding(flag, rest, loopAt, i - 1) {
      if j :| 0 <= j < i - 1 && Late(rest[j], loopAt) && forall k :: j < k < i - 1 ==> !Early(rest[k], loopAt) {
        assert Late(frames[j + 1], loopAt);
      } else if Late(frames[0], loopAt) {
        assert forall k :: 0 < k < i ==> !Early(frames[k], loopAt);
      }
    }
    if j :| 0 <= j < i && Late(frames[j], loopAt) && forall k :: j < k < i ==> !Early(frames[k], loopAt) {
      if j > 0 {
        assert Late(rest[j - 1], loopAt);
      } else {
        assert forall k :: 0 <= k < i - 1 ==> !Early(rest[k], loopAt);
      }
    }
  }

  lemma FlagAfter(requested: bool, pts: Option<nat>, loopAt: nat)
    ensures LoopAction(requested, pts, loopAt).1 <==> Late(pts, loopAt) || (requested && !Early(pts, loopAt))
    ensures !(Late(pts, loopAt) && Early(pts, loopAt))
  {
  }

  /** Between two loop requests some frame from before the loop point was shown. */
  lemma {:induction false} RequestsAreSeparated(requested: bool, frames: seq<Option<nat>>, loopAt: nat, i: nat, j: nat)
    requires i < j < |frames|
    requires Actions(requested, frames, loopAt)[i] == Request && Actions(requested, frames, loopAt)[j] == Request
    ensures exists k :: i < k < j && frames[k].Some? && frames[k].value < loopAt
    decreases |frames|
  {
    var flag := LoopAction(requested, frames[0], loopAt).1;
    if i > 0 {
      RequestsAreSeparated(flag, frames[1..], loopAt, i - 1, j - 1);
      var k :| i - 1 < k < j - 1 && frames[1..][k].Some? && frames[1..][k].value < loopAt;
      assert frames[k + 1] == frames[1..][k];
    } else {
      assert Actions(flag, frames[1..], loopAt)[j - 1] == Request;
      var k := EarlyFrame(frames[1..], loopAt, j - 1);
      assert frames[k + 1] == frames[1..][k];
    }
  }

  /** With a request outstanding, the next one comes after an early frame. */
  lemma {:induction false} EarlyFrame(frames: seq<Option<nat>>, loopAt: nat, j: nat) returns (k: nat)
    requires j < |frames| && Actions(true, frames, loopAt)[j] == Request
    ensures k < j && frames[k].Some? && frames[k].value < loopAt
    decreases |frames|
  {
    if frames[0].Some? && frames[0].value < loopAt {
      k := 0;
    } else {
      assert Actions(true, frames[1..], loopAt)[j - 1] == Request;
      k := EarlyFrame(frames[1..], loopAt, j - 1);
      k := k + 1;
    }
  }
}
