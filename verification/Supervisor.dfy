/**
 * The owner that drops a HEIC player against the supervisor thread that owns the worker process.
 *
 * Every lock section, every atomic access and every process operation is one step, and steps of the
 * owner, the supervisor and the worker interleave freely.
 */
module Supervisor {
  import opened Prelude

  /** The worker process; who killed it first is remembered. */
  datatype Child = Absent | Running | Exited | Killed(byOwner: bool) | Reaped

  /** `HeicPlayer::drop`: set the flag, then signal the published child. */
  datatype Owner = Holding | FlagSet | Dropped

  /** Where the supervisor is. */
  datatype Place =
    | Spawning
    | TakingStdout
    | Publishing
    | CheckingFlag
    | Reading
    | CheckingFrame
    | Emitting
    | CheckingEnd
    | Failing
    /** The guard signals the child in the slot, takes it out, and waits for it. */
    | Signalling
    | Taking
    | Waiting
    | Finished

  datatype State = State(
    owner: Owner,
    place: Place,
    child: Child,
    /** The child is published in the shared slot. */
    slot: bool,
    failed: bool,
    frames: nat,
    framesAfterStop: nat,
    reaps: nat,
    /** A signal was sent to a child that was already reaped or never existed. */
    strayKill: bool,
    /** The reader stopped because the owner had killed the worker. */
    cancelledEnd: bool)

  const START: State := State(Holding, Spawning, Absent, false, false, 0, 0, 0, false, false)

  ghost predicate Stopping(s: State) { s.owner != Holding }

  ghost predicate InReader(p: Place) {
    p == Reading || p == CheckingFrame || p == Emitting || p == CheckingEnd || p == Failing
  }

  ghost predicate Alive(c: Child) { c == Running || c == Exited || c.Killed? }

  /** `Child::kill`: no effect on a process that has ended but was not waited for. */
  ghost function Kill(s: State, byOwner: bool): State {
    s.(child := if s.child == Running then Killed(byOwner) else s.child,
       strayKill := s.strayKill || !Alive(s.child))
  }

  ghost function Wait(s: State): State { s.(child := Reaped, reaps := s.reaps + 1) }

  // ------------------------------------------------------------------- steps

  ghost predicate OwnerStep(s: State, t: State) {
    || (s.owner == Holding && t == s.(owner := FlagSet))
    || (s.owner == FlagSet && t == (if s.slot then Kill(s, true) else s).(owner := Dropped))
  }

  ghost predicate WorkerStep(s: State, t: State) {
    s.child == Running && t == s.(child := Exited)
  }

  /** The stream can end under the reader for any reason; a killed worker ends it by force. */
  ghost predicate ReaderStep(s: State, t: State) {
    match s.place
    case Reading =>
      || t == s.(place := CheckingFrame)
      || t == s.(place := Signalling, failed := true)
      || t == s.(place := CheckingEnd, cancelledEnd := s.child == Killed(true))
    case CheckingFrame => t == s.(place := if Stopping(s) then CheckingEnd else Emitting)
    case Emitting =>
      t == s.(place := Reading,
              frames := if s.failed then s.frames else s.frames + 1,
              framesAfterStop := if s.failed || !Stopping(s) then s.framesAfterStop else s.framesAfterStop + 1)
    case CheckingEnd => t == s.(place := if Stopping(s) then Signalling else Failing)
    case Failing => t == s.(place := Signalling, failed := true)
    case _ => false
  }

  /** A panic in the reader, or while it is set up, unwinds to the guard. */
  ghost predicate Unwinds(s: State, t: State) {
    (s.place == CheckingFlag || InReader(s.place)) && t == s.(place := Signalling)
  }

  ghost predicate SupervisorStep(s: State, t: State) { Proceeds(s, t) || Unwinds(s, t) }

  /** What the supervisor does without panicking. */
  ghost predicate Proceeds(s: State, t: State) {
    match s.place
    case Spawning =>
      t == s.(place := TakingStdout, child := Running) || t == s.(place := Finished, failed := true)
    case TakingStdout =>
      t == s.(place := Publishing) || t == Wait(Kill(s, false)).(place := Finished, failed := true)
    case Publishing => t == s.(place := CheckingFlag, slot := true)
    case CheckingFlag => t == s.(place := if Stopping(s) then Signalling else Reading)
    case Signalling => t == (if s.slot then Kill(s, false) else s).(place := Taking)
    case Taking => t == s.(place := Waiting, slot := false)
    case Waiting => s.child != Running && t == Wait(s).(place := Finished)
    case Finished => false
    case _ => ReaderStep(s, t)
  }

  ghost predicate Step(s: State, t: State) {
    OwnerStep(s, t) || WorkerStep(s, t) || SupervisorStep(s, t)
  }

  // --------------------------------------------------------------- invariant

  ghost predicate Inv(s: State) {
    && !s.strayKill
    && s.reaps == (if s.child == Reaped then 1 else 0)
    && (s.slot <==> s.place == CheckingFlag || InReader(s.place) || s.place == Signalling || s.place == Taking)
    && (s.child == Absent <==> s.reaps == 0 && (s.place == Spawning || s.place == Finished))
    && (s.child == Reaped ==> s.place == Finished)
    && (s.child.Killed? && s.child.byOwner ==> Stopping(s))
    && (s.place == Taking || s.place == Waiting ==> s.child != Running)
    && (s.owner == Dropped && InReader(s.place) ==> s.child != Running)
    && (InReader(s.place) || s.place in {Spawning, TakingStdout, Publishing, CheckingFlag} ==> !s.failed)
    && (s.cancelledEnd ==>
        Stopping(s) && !s.failed && s.place in {CheckingEnd, Signalling, Taking, Waiting, Finished})
    && (Stopping(s) ==> s.framesAfterStop + (if s.place == Emitting then 1 else 0) <= 1)
    && (!Stopping(s) ==> s.framesAfterStop == 0)
  }

  lemma OwnerKeeps(s: State, t: State)
    requires Inv(s) && OwnerStep(s, t)
    ensures Inv(t)
  {
  }

  lemma ReaderKeeps(s: State, t: State)
    requires Inv(s) && ReaderStep(s, t)
    ensures Inv(t)
  {
  }

  lemma SupervisorKeeps(s: State, t: State)
    requires Inv(s) && SupervisorStep(s, t) && !ReaderStep(s, t)
    ensures Inv(t)
  {
    hide ReaderStep;
  }

  lemma StepKeeps(s: State, t: State)
    requires Inv(s) && Step(s, t)
    ensures Inv(t)
  {
    hide OwnerStep, SupervisorStep, ReaderStep;
    if OwnerStep(s, t) {
      OwnerKeeps(s, t);
    } else if SupervisorStep(s, t) {
      if ReaderStep(s, t) { ReaderKeeps(s, t); } else { SupervisorKeeps(s, t); }
    }
  }

  ghost predicate Run(run: seq<State>) {
    |run| >= 1 && run[0] == START && forall i :: 0 <= i < |run| - 1 ==> Step(run[i], run[i + 1])
  }

  /** The invariant holds at every moment of every run. */
  lemma {:induction false} RunKeeps(run: seq<State>)
    requires Run(run)
    ensures forall k :: 0 <= k < |run| ==> Inv(run[k])
  {
    hide Step, Inv;
    var before, last := run[..|run| - 1], run[|run| - 1];
    assert run == before + [last];
    if before == [] {
      assert Inv(START) by { StartKeeps(); }
    } else {
      RunKeeps(before);
      assert Step(run[|run| - 2], run[|run| - 2 + 1]);
      StepKeeps(before[|before| - 1], last);
    }
  }

  lemma StartKeeps()
    ensures Inv(START)
  {
  }

  // ------------------------------------------------------------ main theorems

  /** No signal ever targets a reaped process, and a finished supervisor has reaped its child exactly once. */
  lemma ReapedOnce(run: seq<State>, i: nat)
    requires Run(run) && i < |run|
    ensures !run[i].strayKill && run[i].reaps <= 1
    ensures run[i].place == Finished && run[i].child != Absent ==> run[i].child == Reaped && run[i].reaps == 1
  {
    RunKeeps(run);
  }

  /**
   * Cancellation is never lost: once the owner is gone, no live worker is left with a supervisor that
   * has already looked at the flag and decided to read.
   */
  lemma CancellationReaches(run: seq<State>, i: nat)
    requires Run(run) && i < |run| && run[i].owner == Dropped && run[i].child == Running
    ensures run[i].place in {TakingStdout, Publishing, CheckingFlag, Signalling}
  {
    RunKeeps(run);
  }

  /** A reader that stopped because of the cancellation publishes no failure, then or ever after. */
  lemma {:induction false} CancellationIsSilent(run: seq<State>, i: nat, j: nat)
    requires Run(run) && i <= j < |run| && run[i].cancelledEnd
    ensures run[j].cancelledEnd && !run[j].failed
    decreases j - i
  {
    hide Step;
    RunKeeps(run);
    if i < j {
      CancellationIsSilent(run, i, j - 1);
      assert Step(run[j - 1], run[j - 1 + 1]);
      SilentStep(run[j - 1], run[j]);
    }
  }

  lemma SilentStep(s: State, t: State)
    requires Inv(s) && Step(s, t) && s.cancelledEnd
    ensures t.cancelledEnd
  {
  }

  /** At most one frame is published after the flag is set. */
  lemma OneLateFrame(run: seq<State>, i: nat)
    requires Run(run) && i < |run|
    ensures run[i].framesAfterStop <= 1
  {
    RunKeeps(run);
  }

  ghost function Rank(p: Place): nat {
    match p
    case Spawning => 12
    case TakingStdout => 11
    case Publishing => 10
    case CheckingFlag => 9
    case Emitting => 8
    case Reading => 7
    case CheckingFrame => 6
    case CheckingEnd => 5
    case Failing => 4
    case Signalling => 3
    case Taking => 2
    case Waiting => 1
    case Finished => 0
  }

  /**
   * After cancellation the supervisor finishes: until it has it can proceed without a panic or a new
   * failure, every one of its at most twelve steps brings it closer to the end, and once the owner is gone
   * neither a read nor the wait can block on a live worker.
   */
  lemma CancellationFinishes(run: seq<State>, i: nat, t: State)
    requires Run(run) && i < |run| && Stopping(run[i])
    ensures run[i].place != Finished ==>
      exists u :: Proceeds(run[i], u) && (u.failed ==> run[i].failed || run[i].place == Failing)
    ensures SupervisorStep(run[i], t) ==> Rank(t.place) < Rank(run[i].place) <= 12
    ensures OwnerStep(run[i], t) || WorkerStep(run[i], t) ==> t.place == run[i].place && Stopping(t)
    ensures run[i].owner == Dropped && run[i].place in {Reading, Waiting} ==> run[i].child != Running
  {
    RunKeeps(run);
    StepsNearer(run[i], t);
    if run[i].place != Finished { var u := CanStep(run[i]); }
  }

  lemma StepsNearer(s: State, t: State)
    requires Stopping(s)
    ensures SupervisorStep(s, t) ==> Rank(t.place) < Rank(s.place) <= 12
    ensures OwnerStep(s, t) || WorkerStep(s, t) ==> t.place == s.place && Stopping(t)
  {
    hide SupervisorStep, ReaderStep;
    if SupervisorStep(s, t) {
      if ReaderStep(s, t) { ReaderNearer(s, t); } else { SupervisorNearer(s, t); }
    }
  }

  lemma ReaderNearer(s: State, t: State)
    requires Stopping(s) && ReaderStep(s, t)
    ensures Rank(t.place) < Rank(s.place) <= 12
  {
    hide Kill, Wait;
  }

  lemma SupervisorNearer(s: State, t: State)
    requires SupervisorStep(s, t) && !ReaderStep(s, t)
    ensures Rank(t.place) < Rank(s.place) <= 12
  {
    hide ReaderStep;
    assert Wait(Kill(s, false)).place == s.place;
  }

  /** Only a live worker could hold the supervisor up, and only while it waits for it. */
  lemma CanStep(s: State) returns (t: State)
    requires Inv(s) && s.place != Finished
    ensures Proceeds(s, t) && (t.failed ==> s.failed || s.place == Failing)
  {
    match s.place {
      case Spawning => t := s.(place := TakingStdout, child := Running);
      case TakingStdout => t := s.(place := Publishing);
      case Publishing => t := s.(place := CheckingFlag, slot := true);
      case Signalling => t := (if s.slot then Kill(s, false) else s).(place := Taking);
      case Taking => t := s.(place := Waiting, slot := false);
      case Waiting => t := Wait(s).(place := Finished);
      case CheckingFlag => t := s.(place := if Stopping(s) then Signalling else Reading);
      case _ => t := ReaderCanStep(s);
    }
  }

  /** A live worker can deliver a frame; the stream of one that ended has an end. */
  lemma ReaderCanStep(s: State) returns (t: State)
    requires InReader(s.place)
    ensures ReaderStep(s, t) && (t.failed ==> s.failed || s.place == Failing)
  {
    match s.place {
      case Reading =>
        t := if s.child == Running then s.(place := CheckingFrame)
             else s.(place := CheckingEnd, cancelledEnd := s.child == Killed(true));
      case CheckingFrame => t := s.(place := if Stopping(s) then CheckingEnd else Emitting);
      case Emitting =>
        t := s.(place := Reading,
                frames := if s.failed then s.frames else s.frames + 1,
                framesAfterStop := if s.failed || !Stopping(s) then s.framesAfterStop else s.framesAfterStop + 1);
      case CheckingEnd => t := s.(place := if Stopping(s) then Signalling else Failing);
      case Failing => t := s.(place := Signalling, failed := true);
    }
  }
}
