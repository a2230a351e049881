/** The login screen as the program runs it: one object whose `Update` mutates it message by message. */
module App {
  import opened Prelude
  import opened Conversations
  import opened GreeterState

  class App {
    var phase: Phase
    var closing: Option<Closing>
    var power: PowerState
    var client: bool
    var username: string
    var accounts: nat
    var session: bool
    var selectionCancelled: bool
    const conversation: Conversation

    ghost function Now(): State
      reads this, conversation
    {
      State(phase, closing, power, client, username, accounts, session, selectionCancelled, conversation.Value())
    }

    ghost predicate Valid()
      reads this, conversation
    {
      conversation.Valid()
    }

    constructor (hasSession: bool, configured: Option<string>)
      ensures Valid() && Now() == Startup(hasSession, configured).state && fresh(conversation)
    {
      conversation := new Conversation();
      phase := if !hasSession then Failed else if configured.Some? then CreatingSession else DiscoveringUsers;
      closing, power, client := None, Idle, false;
      username := if configured.Some? then configured.value else "";
      accounts := if configured.Some? then 1 else 0;
      session, selectionCancelled := hasSession, false;
    }

    /** Builds the first screen and returns the tasks it launches. */
    static method Launch(hasSession: bool, configured: Option<string>) returns (app: App, tasks: seq<Task>)
      ensures fresh(app) && fresh(app.conversation) && app.Valid()
      ensures Reaction(app.Now(), tasks) == Startup(hasSession, configured)
    {
      app := new App(hasSession, configured);
      if !hasSession { return app, []; }
      if configured.None? { return app, [DiscoverAccounts]; }
      return app, [Begin(app.username, app.conversation.attempt, true)];
    }

    /** Runs one message and returns the tasks it launches. */
    method Update(m: Message) returns (tasks: seq<Task>)
      requires Valid()
      modifies this, conversation
      ensures Valid() && Reaction(Now(), tasks) == GreeterState.Update(old(Now()), m)
    {
      hide GreeterState.Handle;
      if closing.Some? && !ClosingAllows(closing.value, m) { return []; }
      if !PowerAllows(power, m) { return []; }
      tasks := Handle(m);
    }

    method Handle(m: Message) returns (tasks: seq<Task>)
      requires Valid()
      modifies this, conversation
      ensures Valid() && Reaction(Now(), tasks) == GreeterState.Handle(old(Now()), m)
    {
      hide SubmitStep, RetryStep, RetrySessionStep, AuthStep, AccountsStep, ChangedUser, SelectionCancelledStep;
      hide CloseStep, GreeterState.Choose, PowerStep;
      match m {
        case InputChanged(value) =>
          var changed := conversation.UpdateInput(value);
          return [];
        case Submit => tasks := SubmitResponse();
        case Retry => tasks := RetryFailed();
        case RetrySession(found) => tasks := RetryDiscovery(found);
        case AuthDone(attempt, result) => tasks := HandleAuthResult(attempt, result);
        case AccountsFound(count, preferred) => tasks := ShowAccounts(count, preferred);
        case AccountsFailed => tasks := Fail();
        case ChangeUser => tasks := ChangeAccount();
        case UserSelectionCancelled(attempt, ok) => tasks := FinishSelectionCancellation(attempt, ok);
        case UserSelectionCancellationSlow(_) => return [];
        case RetryUserSelectionCancellation => tasks := RetrySelectionCancellation();
        case SelectAccount(name) => tasks := ChooseOffered(name);
        case SelectSession =>
          if CanSelectSession(View()) { session := true; }
          return [];
        case CloseRequested(window) => tasks := BeginClosing(window);
        case SessionCancelled(window) => tasks := FinishCancellation(window);
        case CloseTimeout(window) => tasks := CloseAnyway(window);
        case _ => tasks := HandlePower(m);
      }
    }

    method ChooseOffered(name: string) returns (tasks: seq<Task>)
      requires Valid()
      modifies this, conversation
      ensures Valid() && Reaction(Now(), tasks) == GreeterState.Handle(old(Now()), SelectAccount(name))
    {
      hide GreeterState.Choose;
      if !CanSelectAccount(View()) || name == username { return []; }
      tasks := Choose(name);
    }

    method FinishCancellation(window: Window) returns (tasks: seq<Task>)
      requires Valid()
      modifies this`closing
      ensures Valid() && Reaction(Now(), tasks) == GreeterState.Handle(old(Now()), SessionCancelled(window))
    {
      if !IsCleaning(closing, window) { return []; }
      tasks := Dispatch(window);
    }

    method CloseAnyway(window: Window) returns (tasks: seq<Task>)
      requires Valid()
      modifies this`closing, conversation
      ensures Valid() && Reaction(Now(), tasks) == GreeterState.Handle(old(Now()), CloseTimeout(window))
    {
      if !IsCleaning(closing, window) { return []; }
      conversation.Invalidate();
      tasks := Dispatch(window);
    }

    /** The guards read only the screen; the conversation they ignore is blanked. */
    function View(): State
      reads this
    {
      State(phase, closing, power, client, username, accounts, session, selectionCancelled, FRESH)
    }

    method SubmitResponse() returns (tasks: seq<Task>)
      requires Valid()
      modifies this, conversation
      ensures Valid() && Reaction(Now(), tasks) == SubmitStep(old(Now()))
    {
      if conversation.status != Waiting { return []; }
      if !client { tasks := Fail(); return; }
      var submitted := conversation.Submit();
      phase := Authenticating;
      return [Exchange(Respond(submitted.value.1), submitted.value.0)];
    }

    method Fail() returns (tasks: seq<Task>)
      requires Valid()
      modifies this`phase, conversation
      ensures Valid() && Reaction(Now(), tasks) == Still(GreeterState.Fail(old(Now())))
    {
      phase := Failed;
      conversation.Fail();
      return [];
    }

    method Choose(name: string) returns (tasks: seq<Task>)
      requires Valid()
      modifies this, conversation
      ensures Valid() && Reaction(Now(), tasks) == GreeterState.Choose(old(Now()), name)
    {
      var replacing := username != "";
      username := name;
      phase := CreatingSession;
      var attempt := conversation.Begin();
      var recover := !selectionCancelled;
      selectionCancelled := false;
      if replacing {
        var held := client;
        client := false;
        return [Restart(held, username, attempt)];
      }
      return [Begin(username, attempt, recover)];
    }

    method RetryAuthentication() returns (tasks: seq<Task>)
      requires Valid()
      modifies this, conversation
      ensures Valid() && Reaction(Now(), tasks) == GreeterState.RetryAuthentication(old(Now()))
    {
      phase := CreatingSession;
      var held := client;
      client := false;
      var attempt := conversation.Begin();
      return [Restart(held, username, attempt)];
    }

    method RetryFailed() returns (tasks: seq<Task>)
      requires Valid()
      modifies this, conversation
      ensures Valid() && Reaction(Now(), tasks) == RetryStep(old(Now()))
    {
      if phase != Failed { return []; }
      if username == "" {
        phase := DiscoveringUsers;
        return [DiscoverAccounts];
      }
      tasks := RetryAuthentication();
    }

    method RetryDiscovery(found: bool) returns (tasks: seq<Task>)
      requires Valid()
      modifies this, conversation
      ensures Valid() && Reaction(Now(), tasks) == RetrySessionStep(old(Now()), found)
    {
      if phase != Failed || session { return []; }
      session := found;
      if !session { return []; }
      if username == "" {
        phase := DiscoveringUsers;
        return [DiscoverAccounts];
      }
      tasks := RetryAuthentication();
    }

    method ShowAccounts(count: nat, preferred: Option<string>) returns (tasks: seq<Task>)
      requires Valid()
      modifies this, conversation
      ensures Valid() && Reaction(Now(), tasks) == AccountsStep(old(Now()), count, preferred)
    {
      if count == 0 { tasks := Fail(); return; }
      accounts := count;
      if preferred.Some? { tasks := Choose(preferred.value); return; }
      phase := SelectingUser;
      return [];
    }

    method ChangeAccount() returns (tasks: seq<Task>)
      requires Valid()
      modifies this, conversation
      ensures Valid()
      ensures Reaction(Now(), tasks) == if CanChangeUser(old(Now())) then ChangedUser(old(Now())) else Still(old(Now()))
    {
      if !CanChangeUser(View()) { return []; }
      var held := client;
      client := false;
      var attempt := conversation.Begin();
      username := "";
      selectionCancelled := false;
      phase := CancellingForUserSelection;
      return [CancelForUserSelection(held, attempt), SlowNotice(attempt)];
    }

    method FinishSelectionCancellation(attempt: nat, ok: bool) returns (tasks: seq<Task>)
      requires Valid()
      modifies this
      ensures Valid() && Reaction(Now(), tasks) == SelectionCancelledStep(old(Now()), attempt, ok)
    {
      if attempt != conversation.attempt { return []; }
      if closing.Some? && closing.value.WaitingForUserSelectionCancellation? {
        tasks := Dispatch(closing.value.window);
        return;
      }
      if phase != CancellingForUserSelection { return []; }
      if ok {
        phase := SelectingUser;
        selectionCancelled := true;
      } else {
        phase := UserSelectionCancellationFailed;
      }
      return [];
    }

    method RetrySelectionCancellation() returns (tasks: seq<Task>)
      requires Valid()
      modifies this, conversation
      ensures Valid() && Reaction(Now(), tasks) == GreeterState.Handle(old(Now()), RetryUserSelectionCancellation)
    {
      if phase != UserSelectionCancellationFailed { return []; }
      var attempt := conversation.Begin();
      phase := CancellingForUserSelection;
      return [CancelForUserSelection(false, attempt), SlowNotice(attempt)];
    }

    method Dispatch(window: Window) returns (tasks: seq<Task>)
      requires Valid()
      modifies this`closing
      ensures Valid() && Reaction(Now(), tasks) == GreeterState.Dispatch(old(Now()), window)
    {
      closing := Some(Dispatching(window));
      return [CloseWindow(window)];
    }

    method BeginClosing(window: Window) returns (tasks: seq<Task>)
      requires Valid()
      modifies this, conversation
      ensures Valid() && Reaction(Now(), tasks) == CloseStep(old(Now()), window)
    {
      if selectionCancelled { tasks := Dispatch(window); return; }
      if phase == CancellingForUserSelection {
        closing := Some(WaitingForUserSelectionCancellation(window));
        return [CloseTimer(window)];
      }
      if client {
        conversation.Invalidate();
        closing := Some(Cancelling(window));
        client := false;
        return [CancelForClose(true, window), CloseTimer(window)];
      }
      if phase == CreatingSession {
        closing := Some(WaitingForClient(window));
        return [CloseTimer(window)];
      }
      conversation.Invalidate();
      closing := Some(Cancelling(window));
      return [CancelForClose(false, window), CloseTimer(window)];
    }

    method HandleAuthResult(attempt: nat, result: AuthResult) returns (tasks: seq<Task>)
      requires Valid()
      modifies this, conversation
      ensures Valid() && Reaction(Now(), tasks) == AuthStep(old(Now()), attempt, result)
    {
      if attempt != conversation.attempt { return []; }
      if closing.Some? && closing.value.WaitingForClient? {
        var window := closing.value.window;
        conversation.Invalidate();
        closing := Some(Cancelling(window));
        return [CancelForClose(result.Answered? && result.connected, window)];
      }
      match result {
        case Answered(connected, answer) =>
          if connected { client := true; }
          tasks := HandleAuthResponse(answer);
        case Lost => tasks := Fail();
      }
    }

    method HandleAuthResponse(answer: Answer) returns (tasks: seq<Task>)
      requires Valid()
      modifies this, conversation
      ensures Valid() && Reaction(Now(), tasks) == AnswerStep(old(Now()), answer)
    {
      if phase == StartingSession && answer == Accepted { return [Exit]; }
      var attempt := conversation.attempt;
      var effect := conversation.Receive(attempt, ResponseOf(answer));
      match effect.value {
        case Prompted =>
          phase := WaitingForInput;
          return [];
        case Noticed =>
          if !client { tasks := Fail(); return; }
          return [Exchange(Acknowledge, attempt)];
        case Authenticated =>
          if !session { tasks := Fail(); return; }
          phase := StartingSession;
          if !client { tasks := Fail(); return; }
          return [Exchange(Start, attempt)];
        case Denied => tasks := Fail();
      }
    }

    method HandlePower(m: Message) returns (tasks: seq<Task>)
      requires Valid() && (m.AskPower? || m.CancelPower? || m.ConfirmPower? || m.PowerDone? || m.Escape?)
      modifies this`power
      ensures Valid() && Reaction(Now(), tasks) == PowerStep(old(Now()), m)
    {
      if m.AskPower? {
        if CanRequestPower(View()) { power := Confirming(m.action); }
      } else if m.ConfirmPower? {
        if power == Confirming(m.action) {
          power := Executing(m.action);
          return [ExecutePower(m.action)];
        }
      } else if m.PowerDone? {
        if !m.ok || power == Executing(Suspend) { power := Idle; }
      } else if power.Confirming? {
        power := Idle;
      }
      return [];
    }
  }
}
