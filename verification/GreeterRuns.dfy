/**
 * Whole runs of the login screen: its state, the tasks in flight, the requests greetd has seen,
 * and every interleaving of user messages, greetd requests and task completions.
 */
module GreeterRuns {
  import opened Prelude
  import opened Conversations
  import opened GreeterState

  /** A task in flight, by the next thing it will do. */
  datatype Job =
    /** Will try to cancel a stale session on a new connection, then create one. */
    | Recovering(attempt: nat, name: string)
    /** Will cancel the session on the held connection, then create or recover. */
    | CancellingFirst(attempt: nat, name: string)
    /**
     * Will connect and create a session; `recovered` when the recovery was tried just before, `reached` when
     * that recovery connected and sent its cancellation.
     */
    | Creating(attempt: nat, name: string, recovered: bool, reached: bool)
    | Exchanging(attempt: nat, request: Request)
    | Settled(attempt: nat, result: AuthResult)
    | SelectionCancel(attempt: nat)
    | SelectionSettled(attempt: nat, ok: bool)
    | CloseCancel(window: Window)
    | CloseSettled(window: Window)
    | Slow(attempt: nat)
    | Timer(window: Window)
    | Discovering
    | PowerJob(action: PowerAction)

  /** What greetd is asked. A cancellation whose connection or write failed is tried but not sent. */
  datatype Wire = CancelTried(sent: bool, ok: bool) | Create(name: string, recovered: bool, reached: bool)

  datatype World = World(
    state: State,
    jobs: map<nat, Job>,
    next: nat,
    exited: bool,
    closed: seq<Window>,
    log: seq<Wire>)

  // --------------------------------------------------------------- behaviour

  /** The job a task becomes; closing the window and exiting are immediate effects. */
  ghost function JobOf(t: Task): Option<Job> {
    match t
    case Begin(name, attempt, recover) =>
      Some(if recover then Recovering(attempt, name) else Creating(attempt, name, false, false))
    case Restart(client, name, attempt) =>
      Some(if client then CancellingFirst(attempt, name) else Recovering(attempt, name))
    case Exchange(request, attempt) => Some(Exchanging(attempt, request))
    case CancelForClose(_, window) => Some(CloseCancel(window))
    case CancelForUserSelection(_, attempt) => Some(SelectionCancel(attempt))
    case SlowNotice(attempt) => Some(Slow(attempt))
    case CloseTimer(window) => Some(Timer(window))
    case DiscoverAccounts => Some(Discovering)
    case ExecutePower(action) => Some(PowerJob(action))
    case CloseWindow(_) => None
    case Exit => None
  }

  ghost function Launch(w: World, t: Task): World {
    match JobOf(t)
    case Some(job) => w.(jobs := w.jobs[w.next := job], next := w.next + 1)
    case None => if t.CloseWindow? then w.(closed := w.closed + [t.window]) else w.(exited := true)
  }

  ghost function LaunchAll(w: World, ts: seq<Task>): World
    decreases |ts|
  {
    if ts == [] then w else LaunchAll(Launch(w, ts[0]), ts[1..])
  }

  ghost function Begun(hasSession: bool, configured: Option<string>): World {
    var r := Startup(hasSession, configured);
    LaunchAll(World(r.state, map[], 0, false, [], []), r.tasks)
  }

  /** `update` runs on `m`; a completed job is gone. */
  ghost function After(w: World, completed: set<nat>, m: Message): World {
    var r := Update(w.state, m);
    LaunchAll(w.(state := r.state, jobs := w.jobs - completed), r.tasks)
  }

  /**
   * Messages the user and the window system send, with a real account name where one is chosen. The
   * screen offers `Retry` only while a session is selected.
   */
  ghost predicate FromUser(s: State, m: Message) {
    m.InputChanged? || m.Submit? || (m.Retry? && s.session) || m.RetrySession? || m.ChangeUser? ||
    m.RetryUserSelectionCancellation? || (m.SelectAccount? && m.username != "") || m.SelectSession? ||
    m.AskPower? || m.CancelPower? || m.ConfirmPower? || m.Escape? || m.CloseRequested?
  }

  /** The message a finished job sends. Accounts that are found have names. */
  ghost predicate Sends(job: Job, m: Message) {
    match job
    case Settled(attempt, result) => m == AuthDone(attempt, result)
    case SelectionSettled(attempt, ok) => m == UserSelectionCancelled(attempt, ok)
    case CloseSettled(window) => m == SessionCancelled(window)
    case Slow(attempt) => m == UserSelectionCancellationSlow(attempt)
    case Timer(window) => m == CloseTimeout(window)
    case Discovering => m.AccountsFailed? || (m.AccountsFound? && m.preferred != Some(""))
    case PowerJob(_) => m.PowerDone?
    case _ => false
  }

  /** One greetd request of a job: what the job becomes, and what greetd sees. */
  ghost predicate Asks(job: Job, after: Job, seen: seq<Wire>) {
    match job
    case Recovering(attempt, name) => CancelOnly(seen) && after == Creating(attempt, name, true, seen[0].sent)
    case CancellingFirst(attempt, name) =>
      CancelOnly(seen) &&
      after == if seen[0].ok then Creating(attempt, name, false, false) else Recovering(attempt, name)
    case Creating(attempt, name, recovered, reached) =>
      after.Settled? && after.attempt == attempt &&
      (after.result.Answered? ==> after.result.connected) &&
      (seen == [Create(name, recovered, reached)] || (seen == [] && after.result == Lost))
    case Exchanging(attempt, _) =>
      after.Settled? && after.attempt == attempt && (after.result.Answered? ==> !after.result.connected) && seen == []
    case SelectionCancel(attempt) => CancelOnly(seen) && after == SelectionSettled(attempt, seen[0].ok)
    case CloseCancel(window) => CancelOnly(seen) && after == CloseSettled(window)
    case _ => false
  }

  ghost predicate CancelOnly(seen: seq<Wire>) {
    |seen| == 1 && seen[0].CancelTried? && (seen[0].ok ==> seen[0].sent)
  }

  ghost predicate Step(w: World, v: World) {
    !w.exited &&
    ((exists m :: FromUser(w.state, m) && v == After(w, {}, m)) ||
     (exists id, m :: id in w.jobs && Sends(w.jobs[id], m) && v == After(w, {id}, m)) ||
     (exists id, job, seen :: id in w.jobs && Asks(w.jobs[id], job, seen) && v == Asked(w, id, job, seen)))
  }

  ghost function Asked(w: World, id: nat, job: Job, seen: seq<Wire>): World {
    w.(jobs := w.jobs[id := job], log := w.log + seen)
  }

  /** A run from startup. */
  ghost predicate Run(run: seq<World>) {
    |run| >= 1 &&
    (exists hasSession, configured :: configured != Some("") && run[0] == Begun(hasSession, configured)) &&
    forall i :: 0 <= i < |run| - 1 ==> Step(run[i], run[i + 1])
  }

  // --------------------------------------------------------------- invariants

  ghost predicate Busy(p: Phase) { p.CreatingSession? || p.Authenticating? || p.StartingSession? }

  /** An authentication exchange, whatever attempt it belongs to. */
  ghost predicate AuthJob(j: Job) {
    j.Recovering? || j.CancellingFirst? || j.Creating? || j.Exchanging? || j.Settled?
  }

  ghost predicate Current(w: World, id: nat) {
    id in w.jobs && AuthJob(w.jobs[id]) && w.jobs[id].attempt == w.state.talk.attempt
  }

  ghost predicate SelectionJob(w: World, id: nat) {
    id in w.jobs && (w.jobs[id].SelectionCancel? || w.jobs[id].SelectionSettled?)
  }

  /** A job that may still send a session creation. */
  ghost predicate MayCreate(w: World, id: nat) {
    id in w.jobs && (w.jobs[id].Recovering? || w.jobs[id].CancellingFirst? || w.jobs[id].Creating?)
  }

  ghost predicate OverHeldConnection(j: Job) {
    j.Exchanging? || (j.Settled? && j.result.Answered? && !j.result.connected)
  }

  ghost predicate ClosesWindow(j: Job) { j.CloseCancel? || j.CloseSettled? || j.Timer? }

  ghost predicate Final(s: State) { s.closing.Some? && s.closing.value.Dispatching? }

  /** No account is chosen yet. */
  ghost predicate Choosing(p: Phase) {
    p.DiscoveringUsers? || p.CancellingForUserSelection? || p.SelectingUser? || p.UserSelectionCancellationFailed?
  }

  /** Nothing is in flight and the screen waits for the user. */
  ghost predicate Resting(p: Phase) {
    p.WaitingForInput? || p.Failed? || p.SelectingUser? || p.UserSelectionCancellationFailed?
  }

  ghost predicate StateInv(s: State) {
    && (s.phase.WaitingForInput? <==> s.talk.status.Waiting?)
    && Sound(s.talk)
    && (s.selectionCancelled ==> s.phase.SelectingUser?)
    && (Choosing(s.phase) ==> s.username == "")
    && (s.phase.WaitingForInput? || Busy(s.phase) ==> s.username != "")
    && (s.client ==> s.username != "")
    && (s.closing.None? && (s.phase.WaitingForInput? || s.phase.Authenticating? || s.phase.StartingSession?) ==>
        s.client)
    && (!s.power.Idle? ==> Resting(s.phase))
    && (!s.phase.Failed? || s.accounts > 1 ==> s.session)
    && ClosingInv(s)
  }

  ghost predicate ClosingInv(s: State) {
    s.closing.Some? ==>
      match s.closing.value
      case WaitingForClient(_) => s.phase.CreatingSession? && !s.client
      case WaitingForUserSelectionCancellation(_) => s.phase.CancellingForUserSelection?
      case Cancelling(_) => !s.client
      case Dispatching(_) => true
  }

  /** Attempts never run ahead, identifiers are never reused. */
  ghost predicate Numbered(w: World) {
    forall id :: id in w.jobs ==>
      id < w.next &&
      (AuthJob(w.jobs[id]) || w.jobs[id].SelectionCancel? || w.jobs[id].SelectionSettled? ==>
        w.jobs[id].attempt <= w.state.talk.attempt)
  }

  /** The screen is busy and closing, if it has begun, still waits for the client. */
  ghost predicate AwaitsExchange(s: State) {
    Busy(s.phase) && (s.closing.None? || s.closing.value.WaitingForClient?)
  }

  /** At most one exchange of the current attempt, and one exactly while the screen awaits it. */
  ghost predicate ExchangeInv(w: World) {
    && (forall i, j :: Current(w, i) && Current(w, j) ==> i == j)
    && (!w.exited ==> (AwaitsExchange(w.state) <==> exists id :: Current(w, id)))
    && (w.state.closing.None? ==> forall id :: Current(w, id) && OverHeldConnection(w.jobs[id]) ==> w.state.client)
  }

  ghost predicate CreateInv(w: World) {
    && (forall i, j :: MayCreate(w, i) && MayCreate(w, j) ==> i == j)
    && (forall id :: MayCreate(w, id) ==>
        w.state.phase.CreatingSession? && !w.state.client && (!Final(w.state) ==> Current(w, id)) &&
        w.jobs[id].name == w.state.username)
  }

  ghost predicate DiscoveryInv(w: World) {
    && (forall i, j :: i in w.jobs && j in w.jobs && w.jobs[i].Discovering? && w.jobs[j].Discovering? ==> i == j)
    && (w.state.closing.None? ==>
        (w.state.phase.DiscoveringUsers? <==> exists id :: id in w.jobs && w.jobs[id].Discovering?))
  }

  ghost predicate SelectionInv(w: World) {
    && (forall i, j :: SelectionJob(w, i) && SelectionJob(w, j) ==> i == j)
    && (forall id :: SelectionJob(w, id) ==>
        w.state.phase.CancellingForUserSelection? &&
        (!Final(w.state) ==> w.jobs[id].attempt == w.state.talk.attempt))
    && (w.state.closing.None? || w.state.closing.value.WaitingForUserSelectionCancellation? ==>
        w.state.phase.CancellingForUserSelection? ==> exists id :: SelectionJob(w, id))
  }

  /** One window, closed exactly once on dispatch; until then a timer is always running. */
  ghost predicate CloseInv(w: World) {
    && (forall id :: id in w.jobs && ClosesWindow(w.jobs[id]) ==>
        w.state.closing.Some? && w.jobs[id].window == w.state.closing.value.window)
    && (w.state.closing.Some? && !Final(w.state) ==>
        exists id :: id in w.jobs && w.jobs[id] == Timer(w.state.closing.value.window))
    && (w.state.closing.Some? && w.state.closing.value.Cancelling? ==>
        exists id :: id in w.jobs && (w.jobs[id].CloseCancel? || w.jobs[id].CloseSettled?))
    && w.closed == if Final(w.state) then [w.state.closing.value.window] else []
  }

  /** A cancellation on behalf of closing never runs beside a creation or a selection. */
  ghost predicate AloneInv(w: World) {
    && (forall id :: id in w.jobs && w.jobs[id].CloseCancel? ==>
        !w.state.selectionCancelled && !w.state.phase.CancellingForUserSelection? && forall j :: !MayCreate(w, j))
    && (forall id :: id in w.jobs && (w.jobs[id].CloseCancel? || w.jobs[id].CloseSettled?) ==> CancelsClient(w.state))
  }

  ghost predicate CancelsClient(s: State) { s.closing.Some? && (s.closing.value.Cancelling? || Final(s)) }

  /** The last request was a cancellation attempt. */
  ghost predicate Tried(log: seq<Wire>) { log != [] && log[|log| - 1].CancelTried? }

  /** The last request was a cancellation that greetd confirmed. */
  ghost predicate Confirmed(log: seq<Wire>) { Tried(log) && log[|log| - 1].ok && log[|log| - 1].sent }

  ghost predicate Orderly(log: seq<Wire>) {
    forall k :: 0 <= k < |log| && log[k].Create? ==> Justified(log, k)
  }

  /** A creation may come next: after its own recovery, or after a confirmed cancellation. */
  ghost predicate Follows(log: seq<Wire>, recovered: bool, reached: bool) {
    Tried(log) && if recovered then log[|log| - 1].sent == reached else Confirmed(log)
  }

  ghost predicate Justified(log: seq<Wire>, k: nat)
    requires k < |log| && log[k].Create?
  {
    Follows(log[..k], log[k].recovered, log[k].reached) && log[k].name != ""
  }

  ghost predicate LogInv(w: World) {
    && Orderly(w.log)
    && (w.state.selectionCancelled ==> Confirmed(w.log))
    && (forall id :: id in w.jobs && w.jobs[id].SelectionSettled? && w.jobs[id].ok ==> Confirmed(w.log))
    && (forall id :: id in w.jobs && w.jobs[id].Creating? ==>
        Follows(w.log, w.jobs[id].recovered, w.jobs[id].reached))
  }

  ghost predicate Inv(w: World) {
    StateInv(w.state) && Numbered(w) && ExchangeInv(w) && CreateInv(w) && DiscoveryInv(w) &&
    SelectionInv(w) && CloseInv(w) && AloneInv(w) && LogInv(w)
  }

  // -------------------------------------------------------------- preservation

  /** `w` with a new state, some jobs gone, and up to two jobs added. */
  ghost function Grown(w: World, s: State, gone: set<nat>, a: Option<Job>, b: Option<Job>): World {
    var kept := w.(state := s, jobs := w.jobs - gone);
    if a.None? then kept
    else if b.None? then kept.(jobs := kept.jobs[w.next := a.value], next := w.next + 1)
    else kept.(jobs := kept.jobs[w.next := a.value][w.next + 1 := b.value], next := w.next + 2)
  }

  ghost function First(ts: seq<Task>): Option<Job> { if ts == [] then None else JobOf(ts[0]) }

  ghost function Second(ts: seq<Task>): Option<Job> { if |ts| < 2 then None else JobOf(ts[1]) }

  lemma AfterShape(w: World, gone: set<nat>, m: Message)
    requires |Update(w.state, m).tasks| <= 2
    requires |Update(w.state, m).tasks| == 2 ==>
      First(Update(w.state, m).tasks).Some? && Second(Update(w.state, m).tasks).Some?
    ensures var Reaction(s, ts) := Update(w.state, m); var v := After(w, gone, m);
      var grown := Grown(w, s, gone, First(ts), Second(ts));
      v == if |ts| == 1 && ts[0].CloseWindow? then grown.(closed := w.closed + [ts[0].window])
           else if |ts| == 1 && ts[0].Exit? then grown.(exited := true)
           else grown
  {
    hide Update;
    var Reaction(s, ts) := Update(w.state, m);
    var u := w.(state := s, jobs := w.jobs - gone);
    if |ts| == 1 {
      assert ts[1..] == [];
      assert LaunchAll(u, ts) == LaunchAll(Launch(u, ts[0]), []);
    } else if |ts| == 2 {
      assert ts[1..] == [ts[1]] && [ts[1]][1..] == [];
      assert LaunchAll(u, ts) == LaunchAll(Launch(u, ts[0]), [ts[1]]);
      assert LaunchAll(Launch(u, ts[0]), [ts[1]]) == LaunchAll(Launch(Launch(u, ts[0]), ts[1]), []);
    }
  }

  // What one update does to the books, without mentioning the other jobs in flight: `c` is the
  // completed job, `a` and `b` the launched ones.

  ghost predicate IsAuth(a: Option<Job>) { a.Some? && AuthJob(a.value) }

  ghost predicate IsCurrentAuth(c: Option<Job>, s: State) { IsAuth(c) && c.value.attempt == s.talk.attempt }

  ghost predicate IsSelection(c: Option<Job>) { c.Some? && (c.value.SelectionCancel? || c.value.SelectionSettled?) }

  ghost predicate IsCurrentSelection(c: Option<Job>, s: State) { IsSelection(c) && c.value.attempt == s.talk.attempt }

  ghost predicate IsDiscovering(c: Option<Job>) { c == Some(Discovering) }

  ghost predicate MayCreateJob(a: Option<Job>) {
    a.Some? && (a.value.Recovering? || a.value.CancellingFirst? || a.value.Creating?)
  }

  ghost predicate TracksSelection(s: State) { s.closing.None? || s.closing.value.WaitingForUserSelectionCancellation? }

  ghost predicate NewWork(s: State, t: State, a: Option<Job>, b: Option<Job>) {
    && s.talk.attempt <= t.talk.attempt
    && (IsAuth(a) || IsSelection(a) ==> a.value.attempt == t.talk.attempt)
    && (a.Some? && a.value.Creating? ==> !a.value.recovered && s.selectionCancelled)
    && (a.Some? ==> !a.value.Settled? && !a.value.SelectionSettled? && !a.value.CloseSettled?)
    && (b.Some? ==> b.value.Slow? || b.value.Timer?)
  }

  ghost predicate ExchangeMove(s: State, t: State, exits: bool, a: Option<Job>, c: Option<Job>) {
    var none := s.talk.attempt < t.talk.attempt || IsCurrentAuth(c, s) || !AwaitsExchange(s);
    && (IsAuth(a) ==> none)
    && (!exits && AwaitsExchange(t) && !IsAuth(a) ==> !none)
    && (!AwaitsExchange(t) ==> !IsAuth(a) && none)
    && (t.closing.None? && !t.client ==>
        (IsAuth(a) ==> !OverHeldConnection(a.value)) && (none || (s.closing.None? && !s.client)))
  }

  ghost predicate CreateMove(s: State, t: State, a: Option<Job>, c: Option<Job>) {
    && (MayCreateJob(a) ==>
        t.phase.CreatingSession? && !t.client && !s.phase.CreatingSession? && a.value.name == t.username)
    && (s.phase.CreatingSession? && !s.client && (Final(s) || !IsCurrentAuth(c, s)) ==>
        t.phase.CreatingSession? && !t.client && s.username == t.username &&
        (!Final(t) ==> !Final(s) && s.talk.attempt == t.talk.attempt))
  }

  ghost predicate DiscoveryMove(s: State, t: State, a: Option<Job>, c: Option<Job>) {
    && (IsDiscovering(a) ==> s.closing.None? && !s.phase.DiscoveringUsers? && t.phase.DiscoveringUsers?)
    && (t.closing.None? ==>
        s.closing.None? &&
        (t.phase.DiscoveringUsers? <==> IsDiscovering(a) || (s.phase.DiscoveringUsers? && !IsDiscovering(c))))
  }

  ghost predicate SelectionMove(s: State, t: State, a: Option<Job>, c: Option<Job>) {
    && (IsSelection(a) ==> !s.phase.CancellingForUserSelection? && t.phase.CancellingForUserSelection?)
    && (s.phase.CancellingForUserSelection? && (Final(s) || !IsCurrentSelection(c, s)) ==>
        t.phase.CancellingForUserSelection? &&
        (!Final(t) ==> !Final(s) && s.talk.attempt == t.talk.attempt))
    && (TracksSelection(t) && t.phase.CancellingForUserSelection? ==>
        IsSelection(a) ||
        (TracksSelection(s) && s.phase.CancellingForUserSelection? && !IsCurrentSelection(c, s)))
    && (t.selectionCancelled && !s.selectionCancelled ==>
        (c.Some? && c.value.SelectionSettled? && c.value.attempt == s.talk.attempt && c.value.ok))
  }

  ghost predicate AloneMove(s: State, t: State, a: Option<Job>, c: Option<Job>) {
    && (a.Some? && a.value.CloseCancel? ==>
        !t.selectionCancelled && !t.phase.CancellingForUserSelection? &&
        (!s.phase.CreatingSession? || s.client || (!Final(s) && IsCurrentAuth(c, s))))
    && ((a.Some? && a.value.CloseCancel?) || CancelsClient(s) ==> CancelsClient(t))
    && (MayCreateJob(a) ==> s.closing.None?)
    && (s.closing.Some? ==> t.phase == s.phase && t.selectionCancelled == s.selectionCancelled)
  }

  ghost predicate CloseMove(s: State, t: State, ts: seq<Task>, c: Option<Job>) {
    var a, b := First(ts), Second(ts);
    && (a.Some? && ClosesWindow(a.value) ==> t.closing.Some? && a.value.window == t.closing.value.window)
    && (b.Some? && ClosesWindow(b.value) ==> t.closing.Some? && b.value.window == t.closing.value.window)
    && (s.closing.Some? ==> t.closing.Some? && t.closing.value.window == s.closing.value.window)
    && (t.closing.Some? && !Final(t) ==>
        var timer := Timer(t.closing.value.window);
        a == Some(timer) || b == Some(timer) || (s.closing.Some? && !Final(s) && !(c.Some? && c.value.Timer?)))
    && (t.closing.Some? && t.closing.value.Cancelling? ==>
        (a.Some? && a.value.CloseCancel?) ||
        (s.closing.Some? && s.closing.value.Cancelling? &&
         !(c.Some? && (c.value.CloseCancel? || c.value.CloseSettled?))))
    && (Final(s) ==> Final(t))
    && ((|ts| == 1 && ts[0].CloseWindow?) <==> !Final(s) && Final(t))
    && (|ts| == 1 && ts[0].CloseWindow? ==> ts[0].window == t.closing.value.window)
  }

  /** Everything an update of `s` on `m`, sent by `c` or by the user, promises. */
  ghost predicate Balanced(s: State, m: Message, c: Option<Job>) {
    var Reaction(t, ts) := Update(s, m);
    && |ts| <= 2 && (|ts| == 2 ==> First(ts).Some? && Second(ts).Some?)
    && StateInv(t) && NewWork(s, t, First(ts), Second(ts))
    && ExchangeMove(s, t, |ts| == 1 && ts[0].Exit?, First(ts), c)
    && CreateMove(s, t, First(ts), c) && DiscoveryMove(s, t, First(ts), c)
    && SelectionMove(s, t, First(ts), c) && CloseMove(s, t, ts, c)
  }

  /** An update that changes at most the power dialog, the selected session or the typed text. */
  lemma UnmovedBalanced(s: State, m: Message, c: Option<Job>)
    requires StateInv(s)
    requires c.Some? ==> c.value.Slow? || c.value.PowerJob? || c.value.Discovering? || c.value.CloseSettled?
    requires c == Some(Discovering) ==> s.closing.Some?
    requires c.Some? && c.value.CloseSettled? ==> s.closing.Some? && !s.closing.value.Cancelling?
    requires var Reaction(t, ts) := Update(s, m);
      && (ts == [] || (|ts| == 1 && ts[0].ExecutePower?))
      && t == s.(power := t.power, session := t.session, talk := t.talk)
      && t.talk == s.talk.(input := t.talk.input) && Sound(t.talk)
      && (t.power.Idle? || Resting(s.phase)) && (s.session ==> t.session)
    ensures Balanced(s, m, c)
  {
    hide Update;
  }

  lemma UserBalanced(s: State, m: Message)
    requires StateInv(s) && FromUser(s, m)
    ensures Balanced(s, m, None)
  {
    hide Balanced, StateInv, Update;
    if s.closing.Some? || !PowerAllows(s.power, m) {
      FilteredBalanced(s, m);
    } else {
      match m
      case CloseRequested(_) => CloseBalanced(s, m);
      case ChangeUser => ReselectBalanced(s, m);
      case Retry => RetryBalanced(s);
      case RetrySession(_) => RetrySessionBalanced(s, m);
      case RetryUserSelectionCancellation => ReselectBalanced(s, m);
      case SelectAccount(_) => SelectBalanced(s, m);
      case Submit => SubmitBalanced(s);
      case _ => DialogBalanced(s, m);
    }
  }

  lemma FilteredBalanced(s: State, m: Message)
    requires StateInv(s) && FromUser(s, m) && (s.closing.Some? || !PowerAllows(s.power, m))
    ensures Balanced(s, m, None)
  {
    hide Balanced, Handle;
    UnmovedBalanced(s, m, None);
  }

  lemma DialogBalanced(s: State, m: Message)
    requires StateInv(s) && s.closing.None?
    requires m.InputChanged? || m.SelectSession? || m.AskPower? || m.CancelPower? || m.ConfirmPower? || m.Escape?
    ensures Balanced(s, m, None)
  {
    hide Balanced;
    UnmovedBalanced(s, m, None);
  }

  lemma CloseBalanced(s: State, m: Message)
    requires StateInv(s) && s.closing.None? && m.CloseRequested?
    ensures Balanced(s, m, None)
  {
    hide PowerStep, AuthStep, AccountsStep, Choose, RetryAuthentication;
  }

  lemma RetryBalanced(s: State)
    requires StateInv(s) && s.closing.None?
    ensures s.session ==> Balanced(s, Retry, None)
  {
    hide PowerStep, RetrySessionStep, AuthStep, AccountsStep, CloseStep, Choose, SubmitStep, ChangedUser;
    hide SelectionCancelledStep;
  }

  lemma RetrySessionBalanced(s: State, m: Message)
    requires StateInv(s) && s.closing.None? && m.RetrySession?
    ensures Balanced(s, m, None)
  {
    hide PowerStep, RetryStep, AuthStep, AccountsStep, CloseStep, Choose, SubmitStep, ChangedUser;
    hide SelectionCancelledStep;
  }

  lemma SubmitBalanced(s: State)
    requires StateInv(s) && s.closing.None?
    ensures Balanced(s, Submit, None)
  {
    hide PowerStep, AuthStep, AccountsStep, CloseStep, Choose, RetryAuthentication, ChangedUser, SelectionCancelledStep;
  }

  lemma ReselectBalanced(s: State, m: Message)
    requires StateInv(s) && s.closing.None? && (m.ChangeUser? || m.RetryUserSelectionCancellation?)
    ensures Balanced(s, m, None)
  {
    hide PowerStep, AuthStep, AccountsStep, CloseStep, Choose, RetryAuthentication, SubmitStep, SelectionCancelledStep;
  }

  lemma SelectBalanced(s: State, m: Message)
    requires StateInv(s) && s.closing.None? && m.SelectAccount? && m.username != ""
    ensures Balanced(s, m, None)
  {
    hide PowerStep, AuthStep, AccountsStep, CloseStep, RetryAuthentication, SubmitStep, ChangedUser;
    hide SelectionCancelledStep;
  }

  /** What a settled exchange may assume of the state it arrives in. */
  ghost predicate Expected(s: State, c: Job) {
    c.Settled? && StateInv(s) &&
    (c.attempt == s.talk.attempt ==> AwaitsExchange(s)) &&
    (s.closing.None? && c.attempt == s.talk.attempt && OverHeldConnection(c) ==> s.client)
  }

  lemma AnswerBalanced(s: State, c: Job)
    requires Expected(s, c)
    ensures Balanced(s, AuthDone(c.attempt, c.result), Some(c))
  {
    if c.attempt != s.talk.attempt {
      StaleBalanced(s, c);
    } else if s.closing.Some? || c.result.Lost? {
      LostBalanced(s, c);
    } else if c.result.answer.AskedPrompt? || c.result.answer.Rejected? {
      PromptBalanced(s, c);
    } else {
      ProgressBalanced(s, c);
    }
  }

  lemma StaleBalanced(s: State, c: Job)
    requires Expected(s, c) && c.attempt != s.talk.attempt
    ensures Balanced(s, AuthDone(c.attempt, c.result), Some(c))
  {
    hide PowerStep, AnswerStep, AccountsStep, CloseStep, Choose, RetryAuthentication;
  }

  lemma LostBalanced(s: State, c: Job)
    requires Expected(s, c) && c.attempt == s.talk.attempt
    requires s.closing.Some? || c.result.Lost?
    ensures Balanced(s, AuthDone(c.attempt, c.result), Some(c))
  {
    hide PowerStep, AnswerStep, AccountsStep, CloseStep, Choose, RetryAuthentication;
  }

  lemma PromptBalanced(s: State, c: Job)
    requires Expected(s, c) && c.attempt == s.talk.attempt && s.closing.None? && c.result.Answered?
    requires c.result.answer.AskedPrompt? || c.result.answer.Rejected?
    ensures Balanced(s, AuthDone(c.attempt, c.result), Some(c))
  {
    hide PowerStep, AccountsStep, CloseStep, Choose, RetryAuthentication, SubmitStep, ChangedUser;
    hide SelectionCancelledStep;
  }

  lemma ProgressBalanced(s: State, c: Job)
    requires Expected(s, c) && c.attempt == s.talk.attempt && s.closing.None? && c.result.Answered?
    requires c.result.answer.Informed? || c.result.answer.Accepted?
    ensures Balanced(s, AuthDone(c.attempt, c.result), Some(c))
  {
    hide PowerStep, AccountsStep, CloseStep, Choose, RetryAuthentication, SubmitStep, ChangedUser;
    hide SelectionCancelledStep;
  }

  lemma AccountsBalanced(s: State, m: Message)
    requires StateInv(s) && Sends(Discovering, m)
    requires s.closing.None? ==> s.phase.DiscoveringUsers?
    ensures Balanced(s, m, Some(Discovering))
  {
    hide PowerStep, AuthStep, CloseStep, RetryAuthentication;
  }

  lemma SelectionBalanced(s: State, c: Job)
    requires StateInv(s) && c.SelectionSettled?
    requires c.attempt == s.talk.attempt ==> s.phase.CancellingForUserSelection?
    ensures Balanced(s, UserSelectionCancelled(c.attempt, c.ok), Some(c))
  {
    hide PowerStep, AuthStep, AccountsStep, CloseStep, Choose, RetryAuthentication;
  }

  lemma ClosingBalanced(s: State, m: Message, c: Job)
    requires StateInv(s) && Sends(c, m) && ClosesWindow(c)
    requires s.closing.Some? && c.window == s.closing.value.window
    requires c.CloseSettled? ==> CancelsClient(s)
    ensures Balanced(s, m, Some(c))
  {
    hide PowerStep, AuthStep, AccountsStep, CloseStep, Choose, RetryAuthentication;
  }

  lemma NoticeBalanced(s: State, m: Message, c: Job)
    requires StateInv(s) && Sends(c, m) && (c.Slow? || c.PowerJob?)
    ensures Balanced(s, m, Some(c))
  {
    UnmovedBalanced(s, m, Some(c));
  }

  /** Closing launches its cancellation only when nothing else is being cancelled or created. */
  lemma CancelsAlone(s: State, m: Message, c: Option<Job>)
    requires StateInv(s) && (if c.Some? then Sends(c.value, m) else FromUser(s, m))
    ensures AloneMove(s, Update(s, m).state, First(Update(s, m).tasks), c)
  {
    hide Update, StateInv, AloneMove, First;
    if m.CloseRequested? {
      CloseCancelsAlone(s, m, c);
    } else if m.AuthDone? {
      AnswerCancelsAlone(s, m, c);
    } else {
      OthersCancelNothing(s, m, c);
    }
  }

  lemma CloseCancelsAlone(s: State, m: Message, c: Option<Job>)
    requires StateInv(s) && m.CloseRequested?
    ensures AloneMove(s, Update(s, m).state, First(Update(s, m).tasks), c)
  {
    hide PowerStep, AuthStep, AccountsStep, Choose, RetryAuthentication, SubmitStep, ChangedUser;
    hide SelectionCancelledStep;
  }

  lemma AnswerCancelsAlone(s: State, m: Message, c: Option<Job>)
    requires StateInv(s) && m.AuthDone? && c == Some(Settled(m.attempt, m.result))
    ensures AloneMove(s, Update(s, m).state, First(Update(s, m).tasks), c)
  {
    hide PowerStep, CloseStep, AccountsStep, Choose, RetryAuthentication, SubmitStep, ChangedUser;
    hide SelectionCancelledStep;
  }

  lemma OthersCancelNothing(s: State, m: Message, c: Option<Job>)
    requires !m.CloseRequested? && !m.AuthDone?
    ensures AloneMove(s, Update(s, m).state, First(Update(s, m).tasks), c)
  {
    hide Update, AloneMove;
    if s.closing.Some? {
      ClosingCancelsNothing(s, m, c);
    } else {
      OpenCancelsNothing(s, m, c);
    }
  }

  lemma ClosingCancelsNothing(s: State, m: Message, c: Option<Job>)
    requires s.closing.Some? && !m.AuthDone?
    ensures AloneMove(s, Update(s, m).state, First(Update(s, m).tasks), c)
  {
    hide AuthStep, AnswerStep, CloseStep, Choose, RetryAuthentication, SubmitStep, ChangedUser;
    hide RetryStep, RetrySessionStep, AccountsStep, PowerStep;
  }

  lemma OpenCancelsNothing(s: State, m: Message, c: Option<Job>)
    requires s.closing.None? && !m.CloseRequested? && !m.AuthDone?
    ensures AloneMove(s, Update(s, m).state, First(Update(s, m).tasks), c)
  {
    hide AuthStep, AnswerStep, CloseStep, CancelsClient;
    assert !CancelsClient(s) by { NotClosing(s); }
  }

  lemma NotClosing(s: State)
    requires s.closing.None?
    ensures !CancelsClient(s)
  {
  }

  // ------------------------------------------------- from one update to the world

  /** The completed job, if the update was caused by one. */
  ghost function Done(w: World, done: Option<nat>): Option<Job>
    requires done.Some? ==> done.value in w.jobs
  {
    if done.Some? then Some(w.jobs[done.value]) else None
  }

  ghost function Gone(done: Option<nat>): set<nat> { if done.Some? then {done.value} else {} }

  /** An update of `w` caused by `done` that leads to `t` and launches `a` and `b`. */
  ghost predicate Moves(w: World, t: State, done: Option<nat>, a: Option<Job>, b: Option<Job>) {
    Numbered(w) && (done.Some? ==> done.value in w.jobs) && NewWork(w.state, t, a, b) && (a.None? ==> b.None?)
  }

  lemma KeepsNumbers(w: World, t: State, done: Option<nat>, a: Option<Job>, b: Option<Job>)
    requires Moves(w, t, done, a, b)
    ensures Numbered(Grown(w, t, Gone(done), a, b))
  {
  }

  /** A current exchange after the update is the launched one or was current before and did not complete. */
  lemma CurrentOrigin(w: World, t: State, done: Option<nat>, a: Option<Job>, b: Option<Job>, id: nat)
    requires Moves(w, t, done, a, b)
    ensures Current(Grown(w, t, Gone(done), a, b), id) <==>
      (id == w.next && IsAuth(a)) || (Current(w, id) && done != Some(id) && w.state.talk.attempt == t.talk.attempt)
    ensures Current(Grown(w, t, Gone(done), a, b), id) && id != w.next ==>
      Grown(w, t, Gone(done), a, b).jobs[id] == w.jobs[id]
  {
  }

  lemma KeepsExchange(w: World, t: State, done: Option<nat>, a: Option<Job>, b: Option<Job>, exits: bool)
    requires Moves(w, t, done, a, b) && ExchangeInv(w) && !w.exited
    requires ExchangeMove(w.state, t, exits, a, Done(w, done))
    ensures ExchangeInv(Grown(w, t, Gone(done), a, b).(exited := exits))
  {
    var u := Grown(w, t, Gone(done), a, b);
    var v := u.(exited := exits);
    forall id
      ensures Current(v, id) <==>
        (id == w.next && IsAuth(a)) || (Current(w, id) && done != Some(id) && w.state.talk.attempt == t.talk.attempt)
      ensures Current(v, id) && id != w.next ==> v.jobs[id] == w.jobs[id]
    {
      CurrentOrigin(w, t, done, a, b, id);
      assert Current(u, id) == Current(v, id);
    }
    if IsAuth(a) { assert Current(v, w.next); }
    if IsCurrentAuth(Done(w, done), w.state) { assert Current(w, done.value); }
  }

  lemma KeepsCreate(w: World, t: State, done: Option<nat>, a: Option<Job>, b: Option<Job>)
    requires Moves(w, t, done, a, b) && ExchangeInv(w) && CreateInv(w)
    requires CreateMove(w.state, t, a, Done(w, done))
    ensures CreateInv(Grown(w, t, Gone(done), a, b))
  {
    var v := Grown(w, t, Gone(done), a, b);
    forall id | MayCreate(v, id)
      ensures (id == w.next && MayCreateJob(a)) || (id != w.next && MayCreate(w, id) && done != Some(id))
    {
    }
    forall id | MayCreate(v, id)
      ensures t.phase.CreatingSession? && !t.client && (!Final(t) ==> Current(v, id))
      ensures v.jobs[id].name == t.username
    {
      CurrentOrigin(w, t, done, a, b, id);
      if id != w.next && IsCurrentAuth(Done(w, done), w.state) { assert Current(w, done.value); }
    }
  }

  lemma KeepsDiscovery(w: World, t: State, done: Option<nat>, a: Option<Job>, b: Option<Job>)
    requires Moves(w, t, done, a, b) && DiscoveryInv(w)
    requires DiscoveryMove(w.state, t, a, Done(w, done))
    ensures DiscoveryInv(Grown(w, t, Gone(done), a, b))
  {
    var v := Grown(w, t, Gone(done), a, b);
    if t.closing.None? && t.phase.DiscoveringUsers? {
      if IsDiscovering(a) {
        assert v.jobs[w.next].Discovering?;
      } else {
        var id :| id in w.jobs && w.jobs[id].Discovering?;
        assert id in v.jobs && v.jobs[id].Discovering?;
      }
    }
  }

  lemma KeepsSelection(w: World, t: State, done: Option<nat>, a: Option<Job>, b: Option<Job>)
    requires Moves(w, t, done, a, b) && SelectionInv(w)
    requires SelectionMove(w.state, t, a, Done(w, done))
    ensures SelectionInv(Grown(w, t, Gone(done), a, b))
  {
    var v := Grown(w, t, Gone(done), a, b);
    forall id
      ensures SelectionJob(v, id) <==>
        (id == w.next && IsSelection(a)) || (id != w.next && SelectionJob(w, id) && done != Some(id))
      ensures SelectionJob(v, id) && id != w.next ==> v.jobs[id] == w.jobs[id]
    {
    }
    if IsSelection(a) { assert SelectionJob(v, w.next); }
    if IsCurrentSelection(Done(w, done), w.state) { assert SelectionJob(w, done.value); }
  }

  lemma KeepsClose(w: World, t: State, done: Option<nat>, ts: seq<Task>)
    requires Moves(w, t, done, First(ts), Second(ts)) && CloseInv(w)
    requires CloseMove(w.state, t, ts, Done(w, done))
    ensures var v := Grown(w, t, Gone(done), First(ts), Second(ts));
      CloseInv(if |ts| == 1 && ts[0].CloseWindow? then v.(closed := w.closed + [ts[0].window]) else v)
  {
    var a, b := First(ts), Second(ts);
    var v := Grown(w, t, Gone(done), a, b);
    KeepsTimer(w, t, done, ts);
    if t.closing.Some? && t.closing.value.Cancelling? {
      if a.Some? && a.value.CloseCancel? {
        assert v.jobs[w.next].CloseCancel?;
      } else {
        var id :| id in w.jobs && (w.jobs[id].CloseCancel? || w.jobs[id].CloseSettled?);
        assert id in v.jobs && (v.jobs[id].CloseCancel? || v.jobs[id].CloseSettled?);
      }
    }
  }

  lemma KeepsTimer(w: World, t: State, done: Option<nat>, ts: seq<Task>)
    requires Moves(w, t, done, First(ts), Second(ts)) && CloseInv(w)
    requires CloseMove(w.state, t, ts, Done(w, done))
    ensures var v := Grown(w, t, Gone(done), First(ts), Second(ts));
      t.closing.Some? && !Final(t) ==>
        exists id :: id in v.jobs && v.jobs[id] == Timer(t.closing.value.window)
  {
    hide ClosesWindow;
    var a, b := First(ts), Second(ts);
    var v := Grown(w, t, Gone(done), a, b);
    if t.closing.Some? && !Final(t) {
      var timer := Timer(t.closing.value.window);
      if a == Some(timer) {
        assert v.jobs[w.next] == timer;
      } else if b == Some(timer) {
        assert v.jobs[w.next + 1] == timer;
      } else {
        var id :| id in w.jobs && w.jobs[id] == timer;
        assert id in v.jobs && v.jobs[id] == timer;
      }
    }
  }

  lemma KeepsLog(w: World, t: State, done: Option<nat>, a: Option<Job>, b: Option<Job>)
    requires Moves(w, t, done, a, b) && LogInv(w)
    requires SelectionMove(w.state, t, a, Done(w, done))
    ensures LogInv(Grown(w, t, Gone(done), a, b))
  {
    var v := Grown(w, t, Gone(done), a, b);
    forall id | id in v.jobs && (v.jobs[id].SelectionSettled? || v.jobs[id].Creating?) && !(id == w.next && a.Some?)
      ensures id in w.jobs && w.jobs[id] == v.jobs[id]
    {
    }
  }

  lemma KeepsAlone(w: World, t: State, done: Option<nat>, a: Option<Job>, b: Option<Job>)
    requires Moves(w, t, done, a, b) && ExchangeInv(w) && CreateInv(w) && CloseInv(w) && AloneInv(w)
    requires AloneMove(w.state, t, a, Done(w, done))
    ensures AloneInv(Grown(w, t, Gone(done), a, b))
  {
    var v := Grown(w, t, Gone(done), a, b);
    forall j | MayCreate(v, j)
      ensures (j == w.next && MayCreateJob(a)) || (j != w.next && MayCreate(w, j) && done != Some(j))
    {
    }
    forall id | id in v.jobs && (v.jobs[id].CloseCancel? || v.jobs[id].CloseSettled?)
      ensures (id == w.next && a == Some(v.jobs[id])) || (id in w.jobs && w.jobs[id] == v.jobs[id])
    {
    }
    if IsCurrentAuth(Done(w, done), w.state) { assert Current(w, done.value); }
  }

  /** One update keeps every invariant of the world. */
  lemma UpdateKeeps(w: World, done: Option<nat>, m: Message)
    requires Inv(w) && !w.exited && (done.Some? ==> done.value in w.jobs)
    requires Balanced(w.state, m, Done(w, done))
    requires AloneMove(w.state, Update(w.state, m).state, First(Update(w.state, m).tasks), Done(w, done))
    ensures Inv(After(w, Gone(done), m))
  {
    hide Update, StateInv, ExchangeInv, CreateInv, DiscoveryInv, SelectionInv, CloseInv, AloneInv, LogInv;
    hide ExchangeMove, CreateMove, DiscoveryMove, SelectionMove, CloseMove, AloneMove;
    var Reaction(t, ts) := Update(w.state, m);
    var a, b, exits := First(ts), Second(ts), |ts| == 1 && ts[0].Exit?;
    AfterShape(w, Gone(done), m);
    KeepsNumbers(w, t, done, a, b);
    KeepsExchange(w, t, done, a, b, exits);
    KeepsCreate(w, t, done, a, b);
    KeepsDiscovery(w, t, done, a, b);
    KeepsSelection(w, t, done, a, b);
    KeepsClose(w, t, done, ts);
    KeepsAlone(w, t, done, a, b);
    KeepsLog(w, t, done, a, b);
    SameBooks(Grown(w, t, Gone(done), a, b), After(w, Gone(done), m));
    SameBooks(Grown(w, t, Gone(done), a, b).(exited := exits), After(w, Gone(done), m));
  }

  /** Closing the window and exiting change nothing the other invariants look at. */
  lemma SameBooks(u: World, v: World)
    requires u.state == v.state && u.jobs == v.jobs && u.next == v.next && u.log == v.log
    ensures Numbered(u) == Numbered(v) && CreateInv(u) == CreateInv(v) && DiscoveryInv(u) == DiscoveryInv(v)
    ensures SelectionInv(u) == SelectionInv(v) && AloneInv(u) == AloneInv(v) && LogInv(u) == LogInv(v)
    ensures u.exited == v.exited ==> ExchangeInv(u) == ExchangeInv(v)
    ensures u.closed == v.closed ==> CloseInv(u) == CloseInv(v)
  {
    hide Numbered, ExchangeInv, CreateInv, DiscoveryInv, SelectionInv, CloseInv, AloneInv, LogInv;
    SameWork(u, v);
    SameCreations(u, v);
    SameEnds(u, v);
  }

  lemma SameEnds(u: World, v: World)
    requires u.state == v.state && u.jobs == v.jobs && u.next == v.next && u.log == v.log
    ensures Numbered(u) == Numbered(v) && DiscoveryInv(u) == DiscoveryInv(v) && LogInv(u) == LogInv(v)
    ensures u.closed == v.closed ==> CloseInv(u) == CloseInv(v)
  {
    hide Orderly, Tried, Confirmed, Final, AuthJob, ClosesWindow;
  }

  lemma SameWork(u: World, v: World)
    requires u.state == v.state && u.jobs == v.jobs
    ensures u.exited == v.exited ==> ExchangeInv(u) == ExchangeInv(v)
    ensures SelectionInv(u) == SelectionInv(v)
  {
    hide Busy, Final, OverHeldConnection;
    assert forall id :: Current(u, id) == Current(v, id);
    assert forall id :: SelectionJob(u, id) == SelectionJob(v, id);
  }

  lemma SameCreations(u: World, v: World)
    requires u.state == v.state && u.jobs == v.jobs
    ensures CreateInv(u) == CreateInv(v) && AloneInv(u) == AloneInv(v)
  {
    hide Final;
    assert forall id :: Current(u, id) == Current(v, id);
    assert forall id :: MayCreate(u, id) == MayCreate(v, id);
  }

  // --------------------------------------------------------- requests to greetd

  lemma LogGrows(log: seq<Wire>, e: Wire)
    requires Orderly(log)
    requires e.Create? ==> Follows(log, e.recovered, e.reached) && e.name != ""
    ensures Orderly(log + [e])
    ensures e.CancelTried? ==> Tried(log + [e])
    ensures e.CancelTried? && e.ok && e.sent ==> Confirmed(log + [e])
    ensures e.CancelTried? ==> Follows(log + [e], true, e.sent)
  {
    var longer := log + [e];
    assert longer[..|log|] == log && longer[..|longer| - 1] == log;
    forall k | 0 <= k < |longer| && longer[k].Create? ensures Justified(longer, k) {
      if k < |log| {
        assert longer[..k] == log[..k] && Justified(log, k);
      }
    }
  }

  lemma AskKeepsBooks(w: World, id: nat, job: Job, seen: seq<Wire>)
    requires Inv(w) && id in w.jobs && Asks(w.jobs[id], job, seen)
    ensures var v := Asked(w, id, job, seen);
      Numbered(v) && ExchangeInv(v) && CreateInv(v)
  {
    var v := Asked(w, id, job, seen);
    assert forall i :: Current(v, i) == Current(w, i);
    assert forall i :: MayCreate(v, i) ==> MayCreate(w, i);
    if exists i :: Current(w, i) {
      var i :| Current(w, i);
      assert Current(v, i);
    }
  }

  lemma AskKeepsPlaces(w: World, id: nat, job: Job, seen: seq<Wire>)
    requires Inv(w) && id in w.jobs && Asks(w.jobs[id], job, seen)
    ensures DiscoveryInv(Asked(w, id, job, seen)) && SelectionInv(Asked(w, id, job, seen))
  {
    hide ExchangeInv, CreateInv, AloneInv, LogInv, StateInv, CloseInv;
    var v := Asked(w, id, job, seen);
    assert forall i :: SelectionJob(v, i) == SelectionJob(w, i);
    assert forall i :: i in v.jobs && i != id ==> v.jobs[i] == w.jobs[i];
    assert v.jobs[id].Discovering? == w.jobs[id].Discovering?;
    if i :| i in w.jobs && w.jobs[i].Discovering? { assert i in v.jobs && v.jobs[i].Discovering?; }
    if i :| SelectionJob(w, i) { assert SelectionJob(v, i); }
  }

  lemma AskKeepsClose(w: World, id: nat, job: Job, seen: seq<Wire>)
    requires Inv(w) && id in w.jobs && Asks(w.jobs[id], job, seen)
    ensures CloseInv(Asked(w, id, job, seen))
  {
    hide ExchangeInv, CreateInv, AloneInv, LogInv, StateInv, DiscoveryInv, SelectionInv;
    var v := Asked(w, id, job, seen);
    if w.state.closing.Some? && !Final(w.state) {
      var i :| i in w.jobs && w.jobs[i] == Timer(w.state.closing.value.window);
      assert i in v.jobs && v.jobs[i] == Timer(w.state.closing.value.window);
    }
    if w.state.closing.Some? && w.state.closing.value.Cancelling? {
      var i :| i in w.jobs && (w.jobs[i].CloseCancel? || w.jobs[i].CloseSettled?);
      assert i in v.jobs && (v.jobs[i].CloseCancel? || v.jobs[i].CloseSettled?);
    }
  }

  lemma AskKeepsAlone(w: World, id: nat, job: Job, seen: seq<Wire>)
    requires Inv(w) && id in w.jobs && Asks(w.jobs[id], job, seen)
    ensures AloneInv(Asked(w, id, job, seen))
  {
    hide ExchangeInv, CreateInv, LogInv, StateInv, DiscoveryInv, SelectionInv, CloseInv;
    var v := Asked(w, id, job, seen);
    assert forall j :: MayCreate(v, j) ==> MayCreate(w, j);
    assert forall j :: j in v.jobs && j != id ==> v.jobs[j] == w.jobs[j];
  }

  /** Whoever sends a request is the only one whose plans depend on what greetd heard last. */
  lemma AskerIsAlone(w: World, id: nat, job: Job, seen: seq<Wire>)
    requires Inv(w) && id in w.jobs && Asks(w.jobs[id], job, seen) && seen != []
    ensures !w.state.selectionCancelled && (w.jobs[id].Creating? ==> w.jobs[id].name != "")
    ensures forall i :: MayCreate(w, i) || SelectionJob(w, i) ==> i == id
  {
    hide ExchangeInv, LogInv, DiscoveryInv, CloseInv;
    if w.jobs[id].SelectionCancel? {
      assert SelectionJob(w, id);
    } else if !w.jobs[id].CloseCancel? {
      assert MayCreate(w, id);
    }
  }

  lemma AskKeepsLog(w: World, id: nat, job: Job, seen: seq<Wire>)
    requires Inv(w) && id in w.jobs && Asks(w.jobs[id], job, seen)
    ensures LogInv(Asked(w, id, job, seen))
  {
    hide ExchangeInv, CreateInv, StateInv, DiscoveryInv, SelectionInv, CloseInv, AloneInv;
    hide Orderly, Tried, Confirmed;
    if seen == [] {
      assert Asked(w, id, job, seen).log == w.log;
    } else {
      OthersWait(w, id, job, seen);
      ConfirmedTried(w.log);
      LogGrows(w.log, seen[0]);
      assert seen == [seen[0]];
    }
  }

  lemma OthersWait(w: World, id: nat, job: Job, seen: seq<Wire>)
    requires Inv(w) && id in w.jobs && Asks(w.jobs[id], job, seen) && seen != []
    ensures !w.state.selectionCancelled && (w.jobs[id].Creating? ==> w.jobs[id].name != "")
    ensures forall i :: i in w.jobs && i != id ==> !w.jobs[i].Creating? && !w.jobs[i].SelectionSettled?
  {
    hide Inv, Asks;
    AskerIsAlone(w, id, job, seen);
    forall i | i in w.jobs && i != id ensures !w.jobs[i].Creating? && !w.jobs[i].SelectionSettled? {
      assert !MayCreate(w, i) && !SelectionJob(w, i);
    }
  }

  lemma ConfirmedTried(log: seq<Wire>)
    ensures Confirmed(log) ==> Tried(log)
  {
  }

  // ------------------------------------------------------------------ every run

  lemma StartKeeps(hasSession: bool, configured: Option<string>)
    requires configured != Some("")
    ensures Inv(Begun(hasSession, configured))
  {
    var r, v := Startup(hasSession, configured), Begun(hasSession, configured);
    var u := World(r.state, map[], 0, false, [], []);
    if r.tasks == [] {
      assert v == u;
    } else {
      assert r.tasks[1..] == [];
      assert LaunchAll(u, r.tasks) == LaunchAll(Launch(u, r.tasks[0]), []);
      StartOne(v, JobOf(r.tasks[0]).value);
    }
  }

  lemma StartOne(v: World, job: Job)
    requires v.jobs == map[0 := job] && v.next == 1 && !v.exited && v.closed == [] && v.log == []
    requires StateInv(v.state) && v.state.closing.None? && !v.state.selectionCancelled && !v.state.client
    requires (job == Recovering(v.state.talk.attempt, v.state.username) && v.state.phase.CreatingSession?) ||
             (job == Discovering && v.state.phase.DiscoveringUsers?)
    ensures Inv(v)
  {
    if job.Recovering? { assert Current(v, 0); } else { assert v.jobs[0].Discovering?; }
  }

  lemma CompletionKeeps(w: World, id: nat, m: Message)
    requires Inv(w) && !w.exited && id in w.jobs && Sends(w.jobs[id], m)
    ensures Inv(After(w, {id}, m))
  {
    var c := w.jobs[id];
    match c {
      case Settled(_, _) =>
        assert c.attempt == w.state.talk.attempt ==> Current(w, id);
        AnswerBalanced(w.state, c);
      case SelectionSettled(_, _) =>
        assert c.attempt == w.state.talk.attempt ==> SelectionJob(w, id);
        SelectionBalanced(w.state, c);
      case Discovering => AccountsBalanced(w.state, m);
      case CloseSettled(_) => ClosingBalanced(w.state, m, c);
      case Timer(_) => ClosingBalanced(w.state, m, c);
      case Slow(_) => NoticeBalanced(w.state, m, c);
      case PowerJob(_) => NoticeBalanced(w.state, m, c);
      case _ =>
    }
    CancelsAlone(w.state, m, Some(c));
    UpdateKeeps(w, Some(id), m);
  }

  /** Every step of every interleaving keeps the invariants. */
  lemma StepKeeps(w: World, v: World)
    requires Inv(w) && Step(w, v)
    ensures Inv(v)
  {
    if m :| FromUser(w.state, m) && v == After(w, {}, m) {
      UserBalanced(w.state, m);
      CancelsAlone(w.state, m, None);
      UpdateKeeps(w, None, m);
    } else if id, m :| id in w.jobs && Sends(w.jobs[id], m) && v == After(w, {id}, m) {
      CompletionKeeps(w, id, m);
    } else {
      var id, job, seen :| id in w.jobs && Asks(w.jobs[id], job, seen) && v == Asked(w, id, job, seen);
      AskKeepsBooks(w, id, job, seen);
      AskKeepsPlaces(w, id, job, seen);
      AskKeepsClose(w, id, job, seen);
      AskKeepsAlone(w, id, job, seen);
      AskKeepsLog(w, id, job, seen);
    }
  }

  lemma {:induction false} RunKeeps(run: seq<World>, i: nat)
    requires Run(run) && i < |run|
    ensures Inv(run[i])
  {
    if i == 0 {
      var hasSession, configured :| configured != Some("") && run[0] == Begun(hasSession, configured);
      StartKeeps(hasSession, configured);
    } else {
      RunKeeps(run, i - 1);
      assert Step(run[i - 1], run[i - 1 + 1]);
      StepKeeps(run[i - 1], run[i]);
    }
  }

  // --------------------------------------------------------------- exit

  lemma ExitAnswers(s: State, m: Message)
    requires Exit in Update(s, m).tasks
    ensures m.AuthDone? && m.attempt == s.talk.attempt && s.phase.StartingSession? && s.closing.None?
    ensures Update(s, m).tasks == [Exit]
    ensures var t := Update(s, m).state; t.phase == s.phase && t.closing.None? && t.talk == s.talk
  {
  }

  /** A step that exits answers the only exchange there was. */
  lemma ExitStep(w: World, v: World)
    requires Inv(w) && Step(w, v) && v.exited
    ensures v.state.phase.StartingSession? && v.state.closing.None? && forall id :: !Current(v, id)
  {
    hide Update, StateInv, CreateInv, DiscoveryInv, SelectionInv, CloseInv, AloneInv, LogInv;
    if m :| FromUser(w.state, m) && v == After(w, {}, m) {
      ExitTask(w, {}, m);
    } else if id, m :| id in w.jobs && Sends(w.jobs[id], m) && v == After(w, {id}, m) {
      ExitTask(w, {id}, m);
      assert Current(w, id);
      forall j ensures Current(v, j) ==> Current(w, j) && j != id {
      }
    }
  }

  lemma ExitTask(w: World, gone: set<nat>, m: Message)
    requires !w.exited && After(w, gone, m).exited
    ensures m.AuthDone? && m.attempt == w.state.talk.attempt && w.state.phase.StartingSession? && w.state.closing.None?
    ensures var v := After(w, gone, m);
      v.jobs == w.jobs - gone && v.state.phase.StartingSession? && v.state.closing.None? && v.state.talk == w.state.talk
  {
    hide Update;
    var r := Update(w.state, m);
    var u := w.(state := r.state, jobs := w.jobs - gone);
    if Exit !in r.tasks { NoExit(u, r.tasks); }
    ExitAnswers(w.state, m);
    assert [Exit][1..] == [];
    assert LaunchAll(u, [Exit]) == LaunchAll(Launch(u, Exit), []);
  }

  lemma {:induction false} NoExit(w: World, ts: seq<Task>)
    requires Exit !in ts
    ensures LaunchAll(w, ts).exited == w.exited
    decreases |ts|
  {
    if ts != [] { NoExit(Launch(w, ts[0]), ts[1..]); }
  }

  // ------------------------------------------------------------- main theorems

  /** Once the program has exited the session is starting, nothing is closing and no exchange is left. */
  lemma AfterExit(run: seq<World>, i: nat)
    requires Run(run) && i < |run| && run[i].exited
    ensures run[i].state.phase.StartingSession? && run[i].state.closing.None?
    ensures forall id :: !Current(run[i], id)
  {
    if i == 0 {
      var hasSession, configured :| configured != Some("") && run[0] == Begun(hasSession, configured);
      NotExited(hasSession, configured);
    } else {
      RunKeeps(run, i - 1);
      assert Step(run[i - 1], run[i - 1 + 1]);
      ExitStep(run[i - 1], run[i]);
    }
  }

  lemma NotExited(hasSession: bool, configured: Option<string>)
    ensures !Begun(hasSession, configured).exited
  {
    var r := Startup(hasSession, configured);
    NoExit(World(r.state, map[], 0, false, [], []), r.tasks);
  }

  /**
   * Whenever a greetd exchange may be answered or a prompt submitted, a session is selected, so the
   * branch that misses one is never taken; and from the moment an account can be chosen there is one.
   */
  lemma SessionIsSelected(run: seq<World>, i: nat, id: nat)
    requires Run(run) && i < |run|
    ensures !run[i].state.phase.Failed? ==> run[i].state.session
    ensures run[i].state.closing.None? && !run[i].exited && Current(run[i], id) ==> run[i].state.session
  {
    RunKeeps(run, i);
  }

  /**
   * At every moment of every run: at most one greetd exchange belongs to the current attempt; before the
   * exit there is one exactly while the screen is busy and closing has not begun or still waits for the
   * client; a prompt waits exactly in WaitingForInput; and response text exists only then.
   */
  lemma OneExchange(run: seq<World>, i: nat)
    requires Run(run) && i < |run|
    ensures var w := run[i];
      && (forall a, b :: Current(w, a) && Current(w, b) ==> a == b)
      && (!w.exited ==> ((exists a :: Current(w, a)) <==> AwaitsExchange(w.state)))
      && (w.state.phase.WaitingForInput? <==> w.state.talk.status.Waiting?)
      && (w.state.talk.input != "" ==> w.state.phase.WaitingForInput?)
  {
    RunKeeps(run, i);
  }

  /** Whenever an account can be chosen none was before, so choosing one never replaces another. */
  lemma ChoiceNeverReplaces(run: seq<World>, i: nat)
    requires Run(run) && i < |run|
    ensures var w := run[i];
      && (CanSelectAccount(w.state) ==> w.state.username == "")
      && (w.state.closing.None? && (exists id :: id in w.jobs && w.jobs[id].Discovering?) ==> w.state.username == "")
  {
    RunKeeps(run, i);
  }

  /** The branches that report a lost connection are never taken: whenever one is needed it is held. */
  lemma ConnectionIsHeld(run: seq<World>, i: nat, id: nat)
    requires Run(run) && i < |run| && run[i].state.closing.None?
    ensures run[i].state.talk.status.Waiting? ==> run[i].state.client
    ensures var w := run[i];
      Current(w, id) && w.jobs[id].Settled? && w.jobs[id].result.Answered? ==>
        w.jobs[id].result.connected || w.state.client
  {
    RunKeeps(run, i);
  }

  /** The power dialog never swallows the result of a cancellation. */
  lemma CancellationIsHeard(run: seq<World>, i: nat, ok: bool)
    requires Run(run) && i < |run| && run[i].state.phase.CancellingForUserSelection?
    ensures run[i].state.power.Idle?
    ensures var s := run[i].state;
      s.closing.None? ==>
        var t := Update(s, UserSelectionCancelled(s.talk.attempt, ok)).state;
        t.phase == (if ok then SelectingUser else UserSelectionCancellationFailed) && t.selectionCancelled == ok
  {
    RunKeeps(run, i);
  }

  ghost function Rank(c: Option<Closing>): nat {
    match c
    case None => 0
    case Some(WaitingForClient(_)) => 1
    case Some(WaitingForUserSelectionCancellation(_)) => 1
    case Some(Cancelling(_)) => 2
    case Some(Dispatching(_)) => 3
  }

  ghost predicate Forward(s: State, t: State) {
    Rank(s.closing) <= Rank(t.closing) &&
    (s.closing.Some? ==> t.closing.Some? && t.closing.value.window == s.closing.value.window) &&
    (Rank(s.closing) == Rank(t.closing) ==> s.closing == t.closing)
  }

  lemma UpdateForward(s: State, m: Message)
    ensures Forward(s, Update(s, m).state)
  {
    hide PowerStep, AccountsStep, Choose, RetryAuthentication, ChangedUser, SubmitStep;
  }

  lemma {:induction false} LaunchKeepsState(w: World, ts: seq<Task>)
    ensures LaunchAll(w, ts).state == w.state
    decreases |ts|
  {
    if ts != [] { LaunchKeepsState(Launch(w, ts[0]), ts[1..]); }
  }

  lemma StepForward(w: World, v: World)
    requires Step(w, v)
    ensures Forward(w.state, v.state)
  {
    hide Update, Sends, Asks, FromUser;
    if done, m :| v == After(w, done, m) {
      AfterForward(w, done, m);
    }
  }

  lemma AfterForward(w: World, done: set<nat>, m: Message)
    ensures Forward(w.state, After(w, done, m).state)
  {
    hide Update;
    UpdateForward(w.state, m);
    var r := Update(w.state, m);
    LaunchKeepsState(w.(state := r.state, jobs := w.jobs - done), r.tasks);
  }

  /** Closing only moves forward, on one window. */
  lemma {:induction false} ClosingIsForward(run: seq<World>, i: nat, j: nat)
    requires Run(run) && i <= j < |run|
    ensures Forward(run[i].state, run[j].state)
    decreases j - i
  {
    hide Step;
    if i < j {
      ClosingIsForward(run, i, j - 1);
      assert Step(run[j - 1], run[j - 1 + 1]);
      StepForward(run[j - 1], run[j]);
    }
  }

  /** The window is closed once, on dispatch and never before; until then a timer is running for it. */
  lemma ClosedOnce(run: seq<World>, i: nat)
    requires Run(run) && i < |run|
    ensures var w := run[i];
      && w.closed == (if Final(w.state) then [w.state.closing.value.window] else [])
      && (w.state.closing.Some? && !Final(w.state) ==>
          exists id :: id in w.jobs && w.jobs[id] == Timer(w.state.closing.value.window))
  {
    RunKeeps(run, i);
  }

  /** Every creation names the account on the screen at that moment, and there is one. */
  lemma CreationNamesAccount(run: seq<World>, i: nat, name: string, recovered: bool, reached: bool)
    requires Run(run) && i + 1 < |run| && run[i + 1].log == run[i].log + [Create(name, recovered, reached)]
    ensures name == run[i].state.username == run[i + 1].state.username && name != ""
  {
    RunKeeps(run, i);
    var w, v := run[i], run[i + 1];
    assert Step(w, run[i + 1]);
    assert v.log[|w.log|] == Create(name, recovered, reached);
    if done, m :| v == After(w, done, m) {
      LaunchKeepsLog(w.(state := Update(w.state, m).state, jobs := w.jobs - done), Update(w.state, m).tasks);
    } else {
      var id, job, seen :| id in w.jobs && Asks(w.jobs[id], job, seen) && v == Asked(w, id, job, seen);
      assert seen[0] == v.log[|w.log|];
      assert MayCreate(w, id);
    }
  }

  lemma {:induction false} LaunchKeepsLog(w: World, ts: seq<Task>)
    ensures LaunchAll(w, ts).log == w.log
    decreases |ts|
  {
    if ts != [] { LaunchKeepsLog(Launch(w, ts[0]), ts[1..]); }
  }

  /** No session is ever created for nobody. */
  lemma CreationsAreNamed(run: seq<World>, i: nat, b: nat)
    requires Run(run) && i < |run| && b < |run[i].log| && run[i].log[b].Create?
    ensures run[i].log[b].name != ""
  {
    RunKeeps(run, i);
    assert Justified(run[i].log, b);
  }

  /**
   * Right before every session creation, the first included, a cancellation was tried. Without a recovery
   * greetd confirmed it; with one it is the cancellation of that very recovery. So it reached greetd
   * exactly when there was no recovery or the recovery of this creation could connect and send.
   */
  lemma CreationFollowsCancellation(run: seq<World>, i: nat, b: nat)
    requires Run(run) && i < |run| && b < |run[i].log| && run[i].log[b].Create?
    ensures b > 0 && run[i].log[b - 1].CancelTried?
    ensures !run[i].log[b].recovered ==> run[i].log[b - 1].ok && run[i].log[b - 1].sent
    ensures run[i].log[b - 1].sent <==> !run[i].log[b].recovered || run[i].log[b].reached
  {
    RunKeeps(run, i);
    assert Justified(run[i].log, b);
  }

  const UNSENT: Wire := CancelTried(false, false)

  /** A creation whose recovery did not reach greetd. */
  function Unheard(name: string): Wire { Create(name, true, false) }

  /** A recovery whose first connection fails, and whose creation is sent but never answered. */
  lemma RecoverUnheard(w: World, id: nat) returns (u: World, v: World)
    requires !w.exited && id in w.jobs && w.jobs[id].Recovering?
    ensures Step(w, u) && Step(u, v)
    ensures v == w.(jobs := w.jobs[id := Settled(w.jobs[id].attempt, Lost)],
                    log := w.log + [UNSENT, Unheard(w.jobs[id].name)])
  {
    hide After;
    var attempt, name := w.jobs[id].attempt, w.jobs[id].name;
    u := Asked(w, id, Creating(attempt, name, true, false), [UNSENT]);
    v := Asked(u, id, Settled(attempt, Lost), [Unheard(name)]);
    assert Asks(w.jobs[id], Creating(attempt, name, true, false), [UNSENT]);
    assert Asks(u.jobs[id], Settled(attempt, Lost), [Unheard(name)]);
    assert w.log + [UNSENT] + [Unheard(name)] == w.log + [UNSENT, Unheard(name)];
  }

  /** A lost first attempt that the user retries. */
  lemma LoseAndRetry(w: World, name: string) returns (u: World, v: World)
    requires !w.exited && w.jobs == map[0 := Settled(1, Lost)] && w.next == 1 && name != ""
    requires w.state == State(CreatingSession, None, Idle, false, name, 1, true, false, FRESH)
    ensures Step(w, u) && Step(u, v)
    ensures v.jobs == map[1 := Recovering(2, name)] && !v.exited && v.log == w.log
  {
    u, v := After(w, {0}, AuthDone(1, Lost)), After(After(w, {0}, AuthDone(1, Lost)), {}, Retry);
    assert Sends(w.jobs[0], AuthDone(1, Lost)) && FromUser(u.state, Retry);
    AfterShape(w, {0}, AuthDone(1, Lost));
    assert w.jobs - {0} == map[];
    AfterShape(u, {}, Retry);
  }

  /**
   * The cancellation attempt need not reach greetd: when the recovery connection fails and the next one
   * opens, two creations follow each other on the wire.
   */
  lemma RecoveryMayNotReachGreetd()
    ensures exists run: seq<World> :: Run(run) && run[|run| - 1].log == [UNSENT, Unheard("u"), UNSENT, Unheard("u")]
  {
    hide After, Step, Startup;
    var w0 := FirstAttempt();
    var w1, w2 := RecoverUnheard(w0, 0);
    var w3, w4 := LoseAndRetry(w2, "u");
    var w5, w6 := RecoverUnheard(w4, 1);
    assert w6.log == [UNSENT, Unheard("u"), UNSENT, Unheard("u")];
    var run := [w0, w1, w2, w3, w4, w5, w6];
    assert Run(run);
  }

  lemma FirstAttempt() returns (w: World)
    ensures w == Begun(true, Some("u")) && Some("u") != Some("")
    ensures w.jobs == map[0 := Recovering(1, "u")] && w.next == 1 && !w.exited && w.log == []
    ensures w.state == State(CreatingSession, None, Idle, false, "u", 1, true, false, FRESH)
  {
    w := Begun(true, Some("u"));
    var start := World(Startup(true, Some("u")).state, map[], 0, false, [], []);
    assert LaunchAll(start, [Begin("u", 1, true)]) == LaunchAll(Launch(start, Begin("u", 1, true)), []);
    assert |"u"| == 1;
  }
}
