/** Frame callbacks and redraws of one surface, over every sequence of events and maintenance passes. */
module Presentation {
  import opened Prelude

  datatype Action = Render | Rearm | Idle

  datatype Flags = Flags(redraw: bool, geometryRedraw: bool, framePending: bool, frameReady: bool, disabled: bool)

  const FRESH: Flags := Flags(true, false, false, false, false)

  function SurfaceAction(redraw: bool, transitioning: bool): Action {
    if redraw then Render else if transitioning then Rearm else Idle
  }

  function RequestFrame(transitioning: bool, framePending: bool): bool { transitioning && !framePending }

  ghost function GeometryChanged(f: Flags): Flags { f.(redraw := true, geometryRedraw := true, disabled := false) }

  ghost function PlaybackChanged(f: Flags): Flags { if f.disabled then f else f.(redraw := true) }

  ghost function FrameArrived(f: Flags): Flags { f.(framePending := false, frameReady := !f.disabled) }

  function Eligible(f: Flags, configured: bool): bool {
    !f.disabled && f.redraw && (!f.framePending || f.geometryRedraw) && configured
  }

  /** The action of a maintenance pass; it always consumes a ready frame. */
  function NextAction(f: Flags, transitioning: bool, configured: bool): Action {
    if f.frameReady && !f.disabled && SurfaceAction(f.redraw, transitioning) == Rearm then Rearm
    else if Eligible(f, configured) then Render
    else Idle
  }

  ghost function Rendered(f: Flags, requested: bool): Flags {
    f.(redraw := false, geometryRedraw := false, framePending := f.framePending || requested, disabled := false)
  }

  ghost function Disabled(f: Flags): Flags {
    f.(redraw := false, geometryRedraw := false, frameReady := false, disabled := true)
  }

  /** The flags as the runtime keeps them. */
  class PresentationState {
    var redraw: bool
    var geometryRedraw: bool
    var framePending: bool
    var frameReady: bool
    var disabled: bool

    function Value(): Flags
      reads this
    {
      Flags(redraw, geometryRedraw, framePending, frameReady, disabled)
    }

    constructor ()
      ensures Value() == FRESH
    {
      redraw, geometryRedraw, framePending, frameReady, disabled := true, false, false, false, false;
    }

    method NoteGeometry()
      modifies this
      ensures Value() == GeometryChanged(old(Value()))
    {
      redraw, geometryRedraw, disabled := true, true, false;
    }

    method NotePlayback()
      modifies this
      ensures Value() == PlaybackChanged(old(Value()))
    {
      if !disabled { redraw := true; }
    }

    method NoteFrame()
      modifies this
      ensures Value() == FrameArrived(old(Value()))
    {
      framePending, frameReady := false, !disabled;
    }

    method TakeFrameAction(transitioning: bool) returns (a: Action)
      modifies this`frameReady
      ensures !frameReady
      ensures a == if old(frameReady) && !disabled then SurfaceAction(redraw, transitioning) else Idle
    {
      var ready := frameReady;
      frameReady := false;
      if !ready || disabled { return Idle; }
      return SurfaceAction(redraw, transitioning);
    }

    method TakeAction(transitioning: bool, configured: bool) returns (a: Action)
      modifies this
      ensures Value() == old(Value()).(frameReady := false)
      ensures a == NextAction(old(Value()), transitioning, configured)
    {
      var taken := TakeFrameAction(transitioning);
      if taken == Rearm { return Rearm; }
      return if Eligible(Value(), configured) then Render else Idle;
    }

    method NoteRearm()
      modifies this
      ensures Value() == old(Value()).(framePending := true)
    {
      framePending := true;
    }

    method NoteRender(requested: bool)
      modifies this
      ensures Value() == Rendered(old(Value()), requested)
    {
      redraw, geometryRedraw, framePending, disabled := false, false, framePending || requested, false;
    }

    method Disable()
      modifies this
      ensures Value() == Disabled(old(Value()))
    {
      redraw, geometryRedraw, frameReady, disabled := false, false, false, true;
    }
  }

  // ------------------------------------------------------------------- surface

  /** A surface: its flags, whether it holds a callback, and what the compositor still owes it. */
  datatype Surface = Surface(flags: Flags, callback: bool, outstanding: nat, configured: bool, transitioning: bool)

  /** How a render pass ends: a committed frame, no free buffer, or an error. */
  datatype Outcome = Committed | NoBuffer | Broken

  datatype Event =
    | Geometry(configures: bool)
    | Playback
    | TransitionStarts
    | TransitionEnds
    | Callback
    | Maintain(outcome: Outcome)

  /** Asks the compositor for a frame callback and holds it. */
  ghost function Ask(s: Surface): Surface { s.(callback := true, outstanding := s.outstanding + 1) }

  ghost function MaintainPass(s: Surface, outcome: Outcome): Surface {
    var taken := s.(flags := s.flags.(frameReady := false));
    match NextAction(s.flags, s.transitioning, s.configured)
    case Idle => taken
    case Rearm => Ask(taken).(flags := taken.flags.(framePending := true))
    case Render =>
      match outcome
      case NoBuffer => taken
      case Broken => taken.(flags := Disabled(taken.flags))
      case Committed =>
        var request := RequestFrame(s.transitioning, taken.flags.framePending);
        (if request then Ask(taken) else taken).(flags := Rendered(taken.flags, request))
  }

  /** The compositor answers only callbacks it owes; a transition starts by announcing new pixels. */
  ghost predicate Happens(s: Surface, e: Event, t: Surface) {
    match e
    case Geometry(configures) =>
      t == s.(flags := GeometryChanged(s.flags), configured := s.configured || configures)
    case Playback => t == s.(flags := PlaybackChanged(s.flags))
    case TransitionStarts => t == s.(flags := PlaybackChanged(s.flags), transitioning := true)
    case TransitionEnds => t == s.(transitioning := false)
    case Callback =>
      s.outstanding > 0 && t == s.(flags := FrameArrived(s.flags), callback := false, outstanding := s.outstanding - 1)
    case Maintain(outcome) => t == MaintainPass(s, outcome)
  }

  const START: Surface := Surface(FRESH, false, 0, false, false)

  ghost predicate Inv(s: Surface) {
    && (s.flags.frameReady ==> !s.flags.framePending)
    && (s.callback <==> s.flags.framePending)
    && s.outstanding == (if s.callback then 1 else 0)
    && (s.flags.disabled ==> !s.flags.redraw && !s.flags.frameReady)
    && (s.transitioning && !s.flags.disabled ==> s.flags.framePending || s.flags.frameReady || s.flags.redraw)
  }

  lemma EventKeeps(s: Surface, e: Event, t: Surface)
    requires Inv(s) && Happens(s, e, t)
    ensures Inv(t)
  {
  }

  ghost predicate Run(states: seq<Surface>, events: seq<Event>) {
    |states| == |events| + 1 && states[0] == START &&
    forall i :: 0 <= i < |events| ==> Happens(states[i], events[i], states[i + 1])
  }

  /**
   * At every moment of every run: at most one callback is outstanding, one is held exactly while a frame
   * is pending, a ready frame excludes a pending one, and during a transition an enabled surface always
   * has something that will bring it back: a callback, a ready frame or a redraw.
   */
  lemma {:induction false} RunKeeps(states: seq<Surface>, events: seq<Event>, i: nat)
    requires Run(states, events) && i < |states|
    ensures Inv(states[i]) && states[i].outstanding <= 1
  {
    if i > 0 {
      RunKeeps(states, events, i - 1);
      assert Happens(states[i - 1], events[i - 1], states[i - 1 + 1]);
      EventKeeps(states[i - 1], events[i - 1], states[i]);
    }
  }

  /** A due redraw of a configured surface is rendered by the next pass unless a callback is pending. */
  lemma RedrawIsServed(states: seq<Surface>, events: seq<Event>, i: nat)
    requires Run(states, events) && i < |events| && events[i] == Maintain(Committed)
    requires states[i].configured && states[i].flags.redraw && !states[i].flags.framePending
    ensures !states[i + 1].flags.redraw && (states[i].transitioning ==> states[i + 1].flags.framePending)
  {
    RunKeeps(states, events, i);
    assert Happens(states[i], events[i], states[i + 1]);
  }

  /** New geometry is rendered by the next pass, even while a callback is pending or after an error. */
  lemma GeometryIsServed(s: Surface, t: Surface, u: Surface, configures: bool)
    requires Inv(s) && (s.configured || configures)
    requires Happens(s, Geometry(configures), t) && Happens(t, Maintain(Committed), u)
    ensures !u.flags.redraw && !u.flags.geometryRedraw && !u.flags.disabled && !u.flags.frameReady
    ensures u.transitioning ==> u.callback
  {
  }

  /** Without a free buffer the redraw stays due; an error disables the surface instead. */
  lemma RedrawIsNotLost(s: Surface, t: Surface, outcome: Outcome)
    requires Inv(s) && s.configured && s.flags.redraw && !s.flags.framePending && Happens(s, Maintain(outcome), t)
    ensures outcome == NoBuffer ==> t.flags.redraw && !t.flags.framePending && t.outstanding == s.outstanding
    ensures outcome == Broken ==> t.flags.disabled && !t.flags.redraw
    ensures outcome == Committed ==> !t.flags.disabled && !t.flags.redraw
  {
  }

  /** With nothing due and no transition a pass neither renders nor asks for a callback. */
  lemma QuietWhenNothingIsDue(s: Surface, t: Surface, outcome: Outcome)
    requires !s.flags.redraw && !s.transitioning && Happens(s, Maintain(outcome), t)
    ensures t == s.(flags := s.flags.(frameReady := false))
  {
  }

  /** During a transition a frame that brought no new pixels only asks for the next callback. */
  lemma TransitionRearms(s: Surface, t: Surface, outcome: Outcome)
    requires Inv(s) && s.transitioning && s.flags.frameReady && !s.flags.redraw && Happens(s, Maintain(outcome), t)
    ensures t.callback && t.outstanding == s.outstanding + 1 && !t.flags.redraw && !t.flags.disabled
  {
  }

  /** A disabled surface asks for nothing and stays disabled until its geometry changes. */
  lemma {:induction false} DisabledStaysQuiet(states: seq<Surface>, events: seq<Event>, i: nat, j: nat)
    requires Run(states, events) && i <= j < |states| && states[i].flags.disabled
    requires forall k :: i <= k < j ==> !events[k].Geometry?
    ensures states[j].flags.disabled && states[j].outstanding <= states[i].outstanding
    decreases j - i
  {
    if i < j {
      DisabledStaysQuiet(states, events, i, j - 1);
      RunKeeps(states, events, j - 1);
      assert Happens(states[j - 1], events[j - 1], states[j - 1 + 1]);
    }
  }
}
