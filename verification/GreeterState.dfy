/** The login screen as a function: what each message does to its state and which tasks it launches. */
module GreeterState {
  import opened Prelude
  import opened Conversations

  type Window = nat

  datatype Phase =
    | Failed
    | DiscoveringUsers
    | CancellingForUserSelection
    | SelectingUser
    | UserSelectionCancellationFailed
    | CreatingSession
    | WaitingForInput
    | Authenticating
    | StartingSession

  datatype Closing =
    | WaitingForClient(window: Window)
    | WaitingForUserSelectionCancellation(window: Window)
    | Cancelling(window: Window)
    | Dispatching(window: Window)

  datatype PowerAction = Suspend | Reboot | PowerOff

  datatype PowerState = Idle | Confirming(action: PowerAction) | Executing(action: PowerAction)

  /** What greetd answers to a request. */
  datatype Answer = Accepted | Rejected(authentication: bool) | AskedPrompt(secret: bool) | Informed

  /** The result of a greetd task: an answer, with a connection when the task connected one, or an error. */
  datatype AuthResult = Answered(connected: bool, answer: Answer) | Lost

  datatype Request = Respond(text: string) | Acknowledge | Start

  datatype Message =
    | InputChanged(value: string)
    | Submit
    | Retry
    | RetrySession(found: bool)
    | AuthDone(attempt: nat, result: AuthResult)
    | AccountsFound(count: nat, preferred: Option<string>)
    | AccountsFailed
    | ChangeUser
    | UserSelectionCancelled(attempt: nat, ok: bool)
    | UserSelectionCancellationSlow(attempt: nat)
    | RetryUserSelectionCancellation
    | SelectAccount(username: string)
    | SelectSession
    | AskPower(action: PowerAction)
    | CancelPower
    | ConfirmPower(action: PowerAction)
    | PowerDone(ok: bool)
    | Escape
    | CloseRequested(window: Window)
    | SessionCancelled(window: Window)
    | CloseTimeout(window: Window)

  /** What `update` hands to the runtime. */
  datatype Task =
    | Begin(username: string, attempt: nat, recover: bool)
    | Restart(client: bool, username: string, attempt: nat)
    | Exchange(request: Request, attempt: nat)
    | CancelForClose(client: bool, window: Window)
    | CancelForUserSelection(client: bool, attempt: nat)
    | SlowNotice(attempt: nat)
    | CloseTimer(window: Window)
    | DiscoverAccounts
    | ExecutePower(action: PowerAction)
    | CloseWindow(window: Window)
    | Exit

  datatype State = State(
    phase: Phase,
    closing: Option<Closing>,
    power: PowerState,
    /** Whether a connection to greetd is held. */
    client: bool,
    username: string,
    /** How many accounts are known. */
    accounts: nat,
    /** Whether a session to start is selected. */
    session: bool,
    selectionCancelled: bool,
    talk: Talk)

  datatype Reaction = Reaction(state: State, tasks: seq<Task>)

  function Still(s: State): Reaction { Reaction(s, []) }

  // ------------------------------------------------------------------ startup

  function Startup(hasSession: bool, configured: Option<string>): Reaction {
    var username := if configured.Some? then configured.value else "";
    var accounts := if configured.Some? then 1 else 0;
    var s := State(Failed, None, Idle, false, username, accounts, hasSession, false, FRESH);
    if !hasSession then Still(s)
    else if configured.Some? then Reaction(s.(phase := CreatingSession), [Begin(username, 1, true)])
    else Reaction(s.(phase := DiscoveringUsers), [DiscoverAccounts])
  }

  // ------------------------------------------------------------------ filters

  function ClosingAllows(c: Closing, m: Message): bool {
    match c
    case WaitingForClient(_) => m.AuthDone? || m.SessionCancelled? || m.CloseTimeout?
    case WaitingForUserSelectionCancellation(_) => m.UserSelectionCancelled? || m.CloseTimeout?
    case Cancelling(_) => m.SessionCancelled? || m.CloseTimeout?
    case Dispatching(_) => false
  }

  function PowerAllows(p: PowerState, m: Message): bool {
    if m.AuthDone? || m.AccountsFound? || m.AccountsFailed? || m.CloseRequested? || m.SessionCancelled? ||
       m.CloseTimeout?
    then true
    else match p
      case Idle => true
      case Confirming(expected) => m.CancelPower? || m.Escape? || m == ConfirmPower(expected)
      case Executing(_) => m.PowerDone?
  }

  function IsCleaning(c: Option<Closing>, window: Window): bool {
    c.Some? && !c.value.Dispatching? && c.value.window == window
  }

  // ------------------------------------------------------------------- guards

  function CanRequestPower(s: State): bool {
    s.closing.None? && s.power == Idle &&
    (s.phase.WaitingForInput? || s.phase.Failed? || s.phase.SelectingUser? || s.phase.UserSelectionCancellationFailed?)
  }

  function CanChangeUser(s: State): bool {
    s.closing.None? && s.power == Idle && s.accounts > 1 && (s.phase.WaitingForInput? || s.phase.Failed?)
  }

  function CanSelectSession(s: State): bool {
    s.closing.None? && s.power == Idle && s.session && !s.phase.Authenticating? && !s.phase.StartingSession?
  }

  function CanSelectAccount(s: State): bool {
    s.closing.None? && s.power == Idle && s.phase.SelectingUser?
  }

  // -------------------------------------------------------------- transitions

  function Fail(s: State): State { s.(phase := Failed, talk := Received(s.talk, Failure)) }

  function Choose(s: State, username: string): Reaction {
    var talk := BeginAttempt(s.talk);
    var next := s.(username := username, phase := CreatingSession, talk := talk, selectionCancelled := false);
    if s.username != ""
    then Reaction(next.(client := false), [Restart(s.client, username, talk.attempt)])
    else Reaction(next, [Begin(username, talk.attempt, !s.selectionCancelled)])
  }

  function RetryAuthentication(s: State): Reaction {
    var talk := BeginAttempt(s.talk);
    Reaction(s.(phase := CreatingSession, client := false, talk := talk), [Restart(s.client, s.username, talk.attempt)])
  }

  function Discover(s: State): Reaction { Reaction(s.(phase := DiscoveringUsers), [DiscoverAccounts]) }

  function ChangedUser(s: State): Reaction {
    var talk := BeginAttempt(s.talk);
    Reaction(
      s.(client := false, username := "", selectionCancelled := false, phase := CancellingForUserSelection,
         talk := talk),
      [CancelForUserSelection(s.client, talk.attempt), SlowNotice(talk.attempt)])
  }

  function Dispatch(s: State, window: Window): Reaction {
    Reaction(s.(closing := Some(Dispatching(window))), [CloseWindow(window)])
  }

  function ResponseOf(a: Answer): Response {
    match a
    case Accepted => Success
    case Rejected(_) => Failure
    case AskedPrompt(secret) => Prompt(secret)
    case Informed => Notice
  }

  /** An answer that belongs to the current attempt, outside closing. */
  function AnswerStep(s: State, a: Answer): Reaction {
    if s.phase == StartingSession && a == Accepted then Reaction(s, [Exit])
    else
      var heard := s.(talk := Received(s.talk, ResponseOf(a)));
      match a
      case AskedPrompt(_) => Still(heard.(phase := WaitingForInput))
      case Informed =>
        if s.client then Reaction(heard, [Exchange(Acknowledge, s.talk.attempt)]) else Still(Fail(heard))
      case Rejected(_) => Still(Fail(heard))
      case Accepted =>
        if !s.session then Still(Fail(heard))
        else
          var started := heard.(phase := StartingSession);
          if s.client then Reaction(started, [Exchange(Start, s.talk.attempt)]) else Still(Fail(started))
  }

  function AuthStep(s: State, attempt: nat, result: AuthResult): Reaction {
    if attempt != s.talk.attempt then Still(s)
    else if s.closing.Some? && s.closing.value.WaitingForClient? then
      var window := s.closing.value.window;
      Reaction(s.(talk := InvalidateAttempt(s.talk), closing := Some(Cancelling(window))),
               [CancelForClose(result.Answered? && result.connected, window)])
    else match result
      case Answered(connected, answer) => AnswerStep(if connected then s.(client := true) else s, answer)
      case Lost => Still(Fail(s))
  }

  function CloseStep(s: State, window: Window): Reaction {
    if s.selectionCancelled then Dispatch(s, window)
    else if s.phase == CancellingForUserSelection then
      Reaction(s.(closing := Some(WaitingForUserSelectionCancellation(window))), [CloseTimer(window)])
    else if s.client then
      Reaction(s.(talk := InvalidateAttempt(s.talk), closing := Some(Cancelling(window)), client := false),
               [CancelForClose(true, window), CloseTimer(window)])
    else if s.phase == CreatingSession then
      Reaction(s.(closing := Some(WaitingForClient(window))), [CloseTimer(window)])
    else
      Reaction(s.(talk := InvalidateAttempt(s.talk), closing := Some(Cancelling(window))),
               [CancelForClose(false, window), CloseTimer(window)])
  }

  function SelectionCancelledStep(s: State, attempt: nat, ok: bool): Reaction {
    if attempt != s.talk.attempt then Still(s)
    else if s.closing.Some? && s.closing.value.WaitingForUserSelectionCancellation? then
      Dispatch(s, s.closing.value.window)
    else if s.phase != CancellingForUserSelection then Still(s)
    else if ok then Still(s.(phase := SelectingUser, selectionCancelled := true))
    else Still(s.(phase := UserSelectionCancellationFailed))
  }

  function SubmitStep(s: State): Reaction {
    if s.talk.status != Waiting then Still(s)
    else if !s.client then Still(Fail(s))
    else
      Reaction(s.(talk := Submitted(s.talk), phase := Authenticating),
               [Exchange(Respond(s.talk.input), s.talk.attempt)])
  }

  function RetrySessionStep(s: State, found: bool): Reaction {
    if s.phase != Failed || s.session || !found then Still(s)
    else if s.username == "" then Discover(s.(session := true))
    else RetryAuthentication(s.(session := true))
  }

  function RetryStep(s: State): Reaction {
    if s.phase != Failed then Still(s)
    else if s.username == "" then Discover(s)
    else RetryAuthentication(s)
  }

  function AccountsStep(s: State, count: nat, preferred: Option<string>): Reaction {
    if count == 0 then Still(Fail(s))
    else if preferred.Some? then Choose(s.(accounts := count), preferred.value)
    else Still(s.(accounts := count, phase := SelectingUser))
  }

  function PowerStep(s: State, m: Message): Reaction {
    match m
    case AskPower(action) => if CanRequestPower(s) then Still(s.(power := Confirming(action))) else Still(s)
    case ConfirmPower(action) =>
      if s.power == Confirming(action)
      then Reaction(s.(power := Executing(action)), [ExecutePower(action)]) else Still(s)
    case PowerDone(ok) =>
      if !ok || s.power == Executing(Suspend) then Still(s.(power := Idle)) else Still(s)
    case _ => if s.power.Confirming? then Still(s.(power := Idle)) else Still(s)
  }

  /** What an admitted message does. */
  function Handle(s: State, m: Message): Reaction {
    match m
    case InputChanged(value) => Still(s.(talk := Edited(s.talk, value)))
    case Submit => SubmitStep(s)
    case Retry => RetryStep(s)
    case RetrySession(found) => RetrySessionStep(s, found)
    case AuthDone(attempt, result) => AuthStep(s, attempt, result)
    case AccountsFound(count, preferred) => AccountsStep(s, count, preferred)
    case AccountsFailed => Still(Fail(s))
    case ChangeUser => if CanChangeUser(s) then ChangedUser(s) else Still(s)
    case UserSelectionCancelled(attempt, ok) => SelectionCancelledStep(s, attempt, ok)
    case UserSelectionCancellationSlow(_) => Still(s)
    case RetryUserSelectionCancellation =>
      if s.phase != UserSelectionCancellationFailed then Still(s)
      else
        var talk := BeginAttempt(s.talk);
        Reaction(s.(phase := CancellingForUserSelection, talk := talk),
                 [CancelForUserSelection(false, talk.attempt), SlowNotice(talk.attempt)])
    case SelectAccount(username) =>
      if CanSelectAccount(s) && username != s.username then Choose(s, username) else Still(s)
    case SelectSession => if CanSelectSession(s) then Still(s.(session := true)) else Still(s)
    case CloseRequested(window) => CloseStep(s, window)
    case SessionCancelled(window) => if IsCleaning(s.closing, window) then Dispatch(s, window) else Still(s)
    case CloseTimeout(window) =>
      if IsCleaning(s.closing, window) then Dispatch(s.(talk := InvalidateAttempt(s.talk)), window) else Still(s)
    case _ => PowerStep(s, m)
  }

  /** One call of `update`. */
  function Update(s: State, m: Message): Reaction {
    if s.closing.Some? && !ClosingAllows(s.closing.value, m) then Still(s)
    else if !PowerAllows(s.power, m) then Still(s)
    else Handle(s, m)
  }
}
