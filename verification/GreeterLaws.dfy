/** What one update of the login screen promises its user, greetd and the window system. */
module GreeterLaws {
  import opened Prelude
  import opened Conversations
  import opened GreeterState

  /** Every task belongs to the account and the attempt of the state it leaves behind. */
  lemma TasksNameTheirState(s: State, m: Message, task: Task)
    requires task in Update(s, m).tasks
    ensures NamedAfter(Update(s, m).state, task)
  {
    if m.AuthDone? || m.CloseRequested? {
      AnswerTasks(s, m, task);
    } else {
      FlowTasks(s, m, task);
    }
  }

  /** The task names the account, the attempt or the window of the state it leaves behind. */
  ghost predicate NamedAfter(t: State, task: Task) {
    match task
    case Begin(name, attempt, _) => name == t.username && attempt == t.talk.attempt
    case Restart(_, name, attempt) => name == t.username && attempt == t.talk.attempt
    case Exchange(_, attempt) => attempt == t.talk.attempt
    case CancelForUserSelection(_, attempt) => attempt == t.talk.attempt
    case SlowNotice(attempt) => attempt == t.talk.attempt
    case CancelForClose(_, window) => t.closing.Some? && window == t.closing.value.window
    case CloseTimer(window) => t.closing.Some? && window == t.closing.value.window
    case CloseWindow(window) => t.closing.Some? && window == t.closing.value.window
    case _ => true
  }

  lemma AnswerTasks(s: State, m: Message, task: Task)
    requires (m.AuthDone? || m.CloseRequested?) && task in Update(s, m).tasks
    ensures NamedAfter(Update(s, m).state, task)
  {
    hide PowerStep, AccountsStep, Choose, RetryAuthentication, SubmitStep, ChangedUser;
    hide SelectionCancelledStep;
  }

  lemma FlowTasks(s: State, m: Message, task: Task)
    requires !m.AuthDone? && !m.CloseRequested? && task in Update(s, m).tasks
    ensures NamedAfter(Update(s, m).state, task)
  {
    hide AuthStep, CloseStep;
  }

  lemma StartupNamesItsAccount(hasSession: bool, configured: Option<string>)
    ensures var Reaction(s, tasks) := Startup(hasSession, configured);
      && (configured.Some? ==> s.username == configured.value)
      && forall task :: task in tasks && task.Begin? ==> task == Begin(s.username, s.talk.attempt, true)
  {
  }

  /** Choosing an account shows it and starts a session for it, and only for it. */
  lemma ChoiceIsHonoured(s: State, name: string)
    requires CanSelectAccount(s) && s.username == ""
    ensures name != "" ==>
      Update(s, SelectAccount(name)).tasks == [Begin(name, s.talk.attempt + 1, !s.selectionCancelled)]
    ensures name != "" ==> Update(s, SelectAccount(name)).state.username == name
  {
  }

  /** What discovery finds: nobody, somebody to begin with, or a choice to make. */
  lemma DiscoveryIsHonoured(s: State, count: nat, preferred: Option<string>)
    requires s.closing.None? && s.username == "" && preferred != Some("")
    ensures var Reaction(t, tasks) := Update(s, AccountsFound(count, preferred));
      && (t.phase.Failed? <==> count == 0) && (t.phase.SelectingUser? <==> count > 0 && preferred.None?)
      && (count > 0 ==> t.accounts == count)
      && (if count > 0 && preferred.Some?
          then t.username == preferred.value && |tasks| == 1 && tasks[0].Begin? && tasks[0].username == preferred.value
          else tasks == [] && t.username == "")
  {
  }

  /** Starting over uses a fresh attempt, the same account and whatever connection is left. */
  lemma RetryStartsOver(s: State)
    requires s.closing.None? && s.power.Idle? && s.phase.Failed?
    ensures var Reaction(t, tasks) := Update(s, Retry);
      if s.username == "" then t.phase.DiscoveringUsers? && tasks == [DiscoverAccounts]
      else
        t.phase.CreatingSession? && t.talk.attempt == s.talk.attempt + 1 && t.username == s.username &&
        tasks == [Restart(s.client, s.username, t.talk.attempt)]
  {
  }

  /** Changing the account forgets the old one and cancels its session before anyone can be chosen. */
  lemma ChangeCancelsFirst(s: State)
    requires CanChangeUser(s)
    ensures var Reaction(t, tasks) := Update(s, ChangeUser);
      && t.username == "" && !CanSelectAccount(t) && t.talk.input == ""
      && tasks == [CancelForUserSelection(s.client, s.talk.attempt + 1), SlowNotice(s.talk.attempt + 1)]
      && CanSelectAccount(Update(t, UserSelectionCancelled(s.talk.attempt + 1, true)).state)
      && !CanSelectAccount(Update(t, UserSelectionCancelled(s.talk.attempt + 1, false)).state)
  {
  }

  // ---------------------------------------------------------------- connection

  /** The connection this message brings, if the attempt it belongs to is still the current one. */
  ghost predicate Delivers(s: State, m: Message) {
    && m.AuthDone? && m.attempt == s.talk.attempt && m.result.Answered? && m.result.connected
    && (s.closing.Some? ==> s.closing.value.WaitingForClient?)
  }

  /** A task that takes the connection along, to cancel the session over it. */
  ghost predicate Takes(task: Task) {
    (task.Restart? || task.CancelForClose? || task.CancelForUserSelection?) && task.client
  }

  ghost function Taken(tasks: seq<Task>): nat {
    if tasks == [] then 0 else (if Takes(tasks[0]) then 1 else 0) + Taken(tasks[1..])
  }

  /**
   * The connection is conserved: what is held or delivered is kept or handed to exactly one task, and no
   * task is handed a connection there is not. A screen that waits for a connection holds none.
   */
  lemma ConnectionIsConserved(s: State, m: Message)
    requires s.closing.Some? && s.closing.value.WaitingForClient? ==> !s.client
    ensures var Reaction(t, tasks) := Update(s, m);
      Taken(tasks) + (if t.client then 1 else 0) == (if s.client || Delivers(s, m) then 1 else 0)
  {
    hide Update;
    if m.AuthDone? {
      AnswersConserve(s, m);
    } else if m.CloseRequested? {
      ClosingConserves(s, m);
    } else {
      OthersConserve(s, m);
    }
    TakenOf(Update(s, m).tasks);
  }

  lemma AnswersConserve(s: State, m: Message)
    requires m.AuthDone? && (s.closing.Some? && s.closing.value.WaitingForClient? ==> !s.client)
    ensures Conserves(s, m)
  {
    hide PowerStep, CloseStep, AccountsStep, Choose, RetryAuthentication, SubmitStep, ChangedUser;
    hide SelectionCancelledStep;
  }

  lemma ClosingConserves(s: State, m: Message)
    requires m.CloseRequested?
    ensures Conserves(s, m)
  {
    hide PowerStep, AuthStep, AccountsStep, Choose, RetryAuthentication, SubmitStep, ChangedUser;
    hide SelectionCancelledStep;
  }

  lemma OthersConserve(s: State, m: Message)
    requires !m.AuthDone? && !m.CloseRequested?
    ensures Conserves(s, m)
  {
    if IsPower(m) { PowerConserves(s, m); } else { FlowConserves(s, m); }
  }

  lemma PowerConserves(s: State, m: Message)
    requires IsPower(m)
    ensures Conserves(s, m)
  {
    hide AuthStep, CloseStep, AccountsStep, Choose, RetryAuthentication, SubmitStep, ChangedUser;
    hide SelectionCancelledStep;
  }

  lemma FlowConserves(s: State, m: Message)
    requires !m.AuthDone? && !m.CloseRequested? && !IsPower(m)
    ensures Conserves(s, m)
  {
    hide AuthStep, CloseStep, PowerStep;
  }

  ghost predicate Conserves(s: State, m: Message) {
    var Reaction(t, tasks) := Update(s, m);
    && |tasks| <= 2
    && (if |tasks| > 0 && Takes(tasks[0]) then 1 else 0) + (if |tasks| > 1 && Takes(tasks[1]) then 1 else 0) +
       (if t.client then 1 else 0) == (if s.client || Delivers(s, m) then 1 else 0)
  }

  lemma TakenOf(tasks: seq<Task>)
    requires |tasks| <= 2
    ensures Taken(tasks) ==
      (if |tasks| > 0 && Takes(tasks[0]) then 1 else 0) + (if |tasks| > 1 && Takes(tasks[1]) then 1 else 0)
  {
    if |tasks| > 0 { assert tasks[1..] == if |tasks| == 1 then [] else [tasks[1]]; }
  }

  // ------------------------------------------------------------------ requests

  /** What greetd is told after it answered, if it does not wait for the user. */
  ghost function AnswerTo(s: State, answer: Answer): Option<Request> {
    match answer
    case Informed => Some(Acknowledge)
    case Accepted => if s.phase != StartingSession && s.session then Some(Start) else None
    case _ => None
  }

  /**
   * What is sent on a held connection, and exactly when: the typed answer to a prompt, an acknowledgement
   * of a notice, and the session start after an acceptance; after an accepted start the program exits.
   */
  lemma RequestsFollowAnswers(s: State, m: Message, request: Request, attempt: nat)
    ensures Exchange(request, attempt) in Update(s, m).tasks <==>
      && s.closing.None? && attempt == s.talk.attempt
      && (|| (m == Submit && s.power.Idle? && s.talk.status.Waiting? && s.client && request == Respond(s.talk.input))
          || (m.AuthDone? && m.attempt == s.talk.attempt && m.result.Answered? && (s.client || m.result.connected) &&
              AnswerTo(s, m.result.answer) == Some(request)))
  {
  }

  lemma ExitIff(s: State, m: Message)
    ensures Exit in Update(s, m).tasks <==>
      s.closing.None? && m.AuthDone? && m.attempt == s.talk.attempt && m.result.Answered? &&
      m.result.answer.Accepted? && s.phase.StartingSession?
  {
  }

  /** A prompt opens an empty answer, shown or hidden as the prompt asks. */
  lemma PromptOpensAnswer(s: State, connected: bool, secret: bool)
    requires s.closing.None?
    ensures var t := Update(s, AuthDone(s.talk.attempt, Answered(connected, AskedPrompt(secret)))).state;
      t.phase.WaitingForInput? && t.talk.status.Waiting? && t.talk.secret == secret && t.talk.input == "" &&
      t.talk.attempt == s.talk.attempt
  {
  }

  /** What is sent is what was typed last, up to the bound, and it is not kept. */
  lemma AnswerIsTyped(s: State, text: string)
    requires s.closing.None? && s.power.Idle? && s.talk.status.Waiting? && s.client && |text| <= MAX_TEXT_CHARS
    ensures var typed := Update(s, InputChanged(text)).state; var Reaction(t, tasks) := Update(typed, Submit);
      tasks == [Exchange(Respond(text), s.talk.attempt)] && t.talk.input == "" && t.phase.Authenticating?
  {
    assert "" + text[..|text|] == text;
  }

  /** Anything else that greetd or the connection says ends in the failed phase, with no answer kept. */
  lemma RefusalsFail(s: State, result: AuthResult)
    requires s.closing.None? && (result.Lost? || result.answer.Rejected?)
    ensures var Reaction(t, tasks) := Update(s, AuthDone(s.talk.attempt, result));
      tasks == [] && t.phase.Failed? && t.talk.input == "" && t.talk.status.Refused?
  {
  }

  /** Results of an abandoned attempt change nothing. */
  lemma StaleIsIgnored(s: State, attempt: nat, result: AuthResult, ok: bool)
    requires attempt != s.talk.attempt
    ensures Update(s, AuthDone(attempt, result)) == Still(s)
    ensures Update(s, UserSelectionCancelled(attempt, ok)) == Still(s)
  {
  }

  // ------------------------------------------------------------------- power

  /** A power action runs exactly when it was asked for, is on the screen, and is confirmed. */
  lemma PowerIsConfirmed(s: State, m: Message, action: PowerAction)
    ensures ExecutePower(action) in Update(s, m).tasks <==>
      s.closing.None? && s.power == Confirming(action) && m == ConfirmPower(action)
  {
    if !IsPower(m) { OnlyPowerRuns(s, m, action); }
  }

  lemma OnlyPowerRuns(s: State, m: Message, action: PowerAction)
    requires !IsPower(m)
    ensures ExecutePower(action) !in Update(s, m).tasks
  {
    hide PowerStep;
  }

  ghost predicate IsPower(m: Message) {
    m.AskPower? || m.ConfirmPower? || m.CancelPower? || m.PowerDone? || m.Escape?
  }

  /** The dialog shows an action only after it was asked for where that is allowed. */
  lemma PowerIsAskedFor(s: State, m: Message, action: PowerAction)
    requires Update(s, m).state.power == Confirming(action) && s.power != Confirming(action)
    ensures m == AskPower(action) && CanRequestPower(s)
  {
  }

  /** Only one runs at a time, and it can be repeated after it failed, or resumed from. */
  lemma PowerRunsOnce(s: State, m: Message, action: PowerAction)
    requires s.power == Executing(action)
    ensures forall other :: ExecutePower(other) !in Update(s, m).tasks
    ensures Update(s, m).state.power != s.power <==>
      s.closing.None? && m.PowerDone? && (!m.ok || action == Suspend)
    ensures Update(s, m).state.power in {s.power, PowerState.Idle}
  {
  }

  // ------------------------------------------------------------------ closing

  /** In every stage of closing its timeout closes the window. */
  lemma TimeoutCloses(s: State)
    requires s.closing.Some? && !s.closing.value.Dispatching?
    ensures var window := s.closing.value.window; var Reaction(t, tasks) := Update(s, CloseTimeout(window));
      tasks == [CloseWindow(window)] && t.closing == Some(Dispatching(window)) && t.talk.attempt > s.talk.attempt
  {
  }

  /** Each stage is left for what it waits for: the connection, the cancellation, or the timeout. */
  lemma ClosingHears(s: State, m: Message)
    requires s.closing.Some? && Update(s, m) != Still(s)
    ensures !s.closing.value.Dispatching?
    ensures var c := s.closing.value;
      || m == CloseTimeout(c.window) || m == SessionCancelled(c.window)
      || (c.WaitingForClient? && m.AuthDone? && m.attempt == s.talk.attempt)
      || (c.WaitingForUserSelectionCancellation? && m.UserSelectionCancelled? && m.attempt == s.talk.attempt)
  {
  }

  /** Closing never forgets a session: one that may exist is cancelled, or its cancellation awaited. */
  lemma ClosingCancels(s: State, window: Window)
    requires s.closing.None?
    ensures var Reaction(t, tasks) := Update(s, CloseRequested(window));
      && t.closing.Some? && t.closing.value.window == window
      && (CloseTimer(window) in tasks <==> !s.selectionCancelled)
      && (CancelForClose(s.client, window) in tasks <==>
          !s.selectionCancelled && s.phase != CancellingForUserSelection && (s.client || s.phase != CreatingSession))
      && (CloseWindow(window) in tasks <==> s.selectionCancelled)
  {
  }
}
