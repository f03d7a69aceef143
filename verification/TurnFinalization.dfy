/**
  Turn finalization on the shared application state, as the source has it. Every method is one
  stretch up to the next `await` and is the step of TurnMachine it stands for. Everything the host
  may call keeps what is proved of runs: claims and messages happen once, finalizations exclude
  each other until a stale one finishes.
*/
module TurnFinalization {
  import opened Options
  import opened TurnMachine
  import Properties = TurnProperties

  class AppState {
    var finalizedRuntimeSessions: set<SessionId>
    var finalizingTurn: bool
    var streamWatchdog: Option<SessionId>
    var conv: Chat

    // the suspended async functions, and what was written so far
    var tasks: map<nat, Task>
    var nextTicket: nat
    var log: seq<Effect>
    const wording: Wording

    // the first ticket since the last switch, and whether no older finalization has finished since then
    ghost var since: nat
    ghost var unspoilt: bool

    ghost function Abs(): State
      reads this
    {
      State(Guard(finalizedRuntimeSessions, finalizingTurn), streamWatchdog, conv, Tasks(tasks, nextTicket), log)
    }

    /** What every handler requires and keeps. */
    ghost predicate Valid()
      reads this
    {
      Properties.Kept(Abs(), since, unspoilt)
    }

    constructor (wording: Wording)
      ensures Valid() && since == 0 && unspoilt && Abs() == Init() && this.wording == wording
    {
      this.wording := wording;
      since, unspoilt := 0, true;
      finalizedRuntimeSessions, finalizingTurn, streamWatchdog := {}, false, None;
      conv := Chat(None, None, Resting);
      tasks, nextTicket, log := map[], 0, [];
    }

    /** The guard: a session passes at most once, and not while another finalization runs. */
    method BeginTurnFinalization(sessionId: SessionId) returns (ok: bool)
      modifies `finalizedRuntimeSessions
      ensures ok == old(MayFinalize(Guard(finalizedRuntimeSessions, finalizingTurn), sessionId))
      ensures finalizedRuntimeSessions == old(finalizedRuntimeSessions) + if ok then {sessionId} else {}
    {
      if finalizingTurn { return false; }
      if sessionId in finalizedRuntimeSessions { return false; }
      finalizedRuntimeSessions := finalizedRuntimeSessions + {sessionId};
      return true;
    }

    method StopStreamWatchdog()
      modifies `streamWatchdog
      ensures streamWatchdog == None
    {
      if streamWatchdog.Some? { streamWatchdog := None; }
    }

    method Suspend(task: Task)
      modifies `tasks, `nextTicket
      ensures Tasks(tasks, nextTicket) == Begin(old(Tasks(tasks, nextTicket)), task)
    {
      tasks := tasks[nextTicket := task];
      nextTicket := nextTicket + 1;
    }

    method FinalizeConversationTurn(view: TurnView, sessionId: SessionId, client: bool)
      modifies `finalizedRuntimeSessions, `finalizingTurn, `streamWatchdog, `log, `tasks, `nextTicket
      ensures Abs() == Finalize(old(Abs()), sessionId, view, client)
    {
      if view.terminal.None? { return; }
      var ok := BeginTurnFinalization(sessionId);
      if !ok { return; }
      var terminal := view.terminal.value;
      finalizingTurn := true;
      StopStreamWatchdog();
      log := log + [Claimed(nextTicket, sessionId)];
      if terminal == Ev.RunCompleted && Blank(view.text) && client {
        Suspend(Final(sessionId, Fetching(view)));
      } else {
        Suspend(Final(sessionId, Resolve(view, terminal, None)));
      }
    }

    method OnView(sessionId: SessionId, view: TurnView, client: bool)
      requires Valid()
      modifies this
      ensures Valid() && Abs() == Step(old(Abs()), Event.OnView(sessionId, view, client), wording)
    {
      Properties.StepKeepsAll(Abs(), Event.OnView(sessionId, view, client), wording, since, unspoilt);
      if conv.session != Some(sessionId) { return; }
      FinalizeConversationTurn(view, sessionId, client);
    }

    /** The interval callback of the watchdog. */
    method WatchdogTick(idleFor: nat, pending: bool, client: bool)
      requires Valid() && streamWatchdog.Some?
      modifies this
      ensures Valid() && Abs() == Step(old(Abs()), Tick(idleFor, pending, client), wording)
    {
      Properties.StepKeepsAll(Abs(), Tick(idleFor, pending, client), wording, since, unspoilt);
      var sessionId := streamWatchdog.value;
      if conv.phase != Running && conv.phase != Cancelling {
        StopStreamWatchdog();
        return;
      }
      if pending { return; }
      if idleFor < STALL_AFTER_MS { return; }
      if idleFor > TIMEOUT_MS {
        StopStreamWatchdog();
        conv := conv.(phase := Ended(Ev.RunErrored));
        Suspend(Late(sessionId, SavingPhase(wording.timeout, conv.active)));
        return;
      }
      if !client || finalizingTurn { return; }
      Suspend(Poll(sessionId));
    }

    method PollAnswered(ticket: nat, refreshed: Option<TurnView>, client: bool)
      requires Valid() && ticket in tasks && tasks[ticket].Poll?
      modifies this
      ensures Valid() && Abs() == Step(old(Abs()), PollDone(ticket, refreshed, client), wording)
    {
      Properties.StepKeepsAll(Abs(), PollDone(ticket, refreshed, client), wording, since, unspoilt);
      UsePoll(ticket, refreshed, client);
    }

    method UsePoll(ticket: nat, refreshed: Option<TurnView>, client: bool)
      requires ticket in tasks && tasks[ticket].Poll?
      modifies `finalizedRuntimeSessions, `finalizingTurn, `streamWatchdog, `log, `tasks, `nextTicket
      ensures Abs() == OnPollDone(old(Abs()), ticket, refreshed, client)
    {
      var sessionId := tasks[ticket].session;
      tasks := tasks - {ticket};
      if refreshed.None? { return; }
      if refreshed.value.terminal.Some? {
        StopStreamWatchdog();
        FinalizeConversationTurn(refreshed.value, sessionId, client);
      }
    }

    method TextFetched(ticket: nat, answer: Option<string>)
      requires Valid() && ticket in tasks && tasks[ticket].Final? && tasks[ticket].stage.Fetching?
      modifies `tasks
      ensures Valid() && Abs() == Step(old(Abs()), Fetched(ticket, answer), wording)
    {
      Properties.StepKeepsAll(Abs(), Fetched(ticket, answer), wording, since, unspoilt);
      var task := tasks[ticket];
      tasks := tasks[ticket := task.(stage := ResolveFetched(task.stage.view, Ev.RunCompleted, answer))];
    }

    method FileTasksSettled(ticket: nat, unverified: bool)
      requires Valid() && ticket in tasks && tasks[ticket].Final? && tasks[ticket].stage.Settling?
      modifies `tasks, `conv
      ensures Valid() && Abs() == Step(old(Abs()), FilesSettled(ticket, unverified), wording)
    {
      Properties.StepKeepsAll(Abs(), FilesSettled(ticket, unverified), wording, since, unspoilt);
      var task := tasks[ticket];
      var text := task.stage.text;
      if task.stage.terminal == Ev.RunCompleted && unverified {
        text := wording.unverified(text);
      }
      conv := conv.(phase := PhaseFor(task.stage.terminal, task.stage.answered));
      tasks := tasks[ticket := task.(stage := SavingPhase(text, conv.active))];
    }

    /** The request in `setRuntimePhase` is settled; only its record leads on to a refresh of the list. */
    method PhasePatched(ticket: nat, reply: Reply)
      requires Valid() && ticket in tasks && !tasks[ticket].Poll? && tasks[ticket].stage.SavingPhase?
      modifies `tasks, `conv, `log
      ensures Valid() && Abs() == Step(old(Abs()), PhaseSaved(ticket, reply), wording)
    {
      Properties.StepKeepsAll(Abs(), PhaseSaved(ticket, reply), wording, since, unspoilt);
      UsePhase(ticket, reply);
    }

    method UsePhase(ticket: nat, reply: Reply)
      requires ticket in tasks && !tasks[ticket].Poll? && tasks[ticket].stage.SavingPhase?
      modifies `tasks, `conv, `log
      ensures Abs() == OnPhaseSaved(old(Abs()), ticket, reply, wording)
    {
      var task := tasks[ticket];
      var SavingPhase(text, patched) := task.stage;
      if patched.Some? && reply.Saved? {
        conv := Sync(conv, patched, reply);
        tasks := tasks[ticket := task.(stage := Refreshing(text, patched.value))];
      } else {
        RecordAssistantMessage(ticket, text);
      }
    }

    /** `setRuntimePhase` is back; whether the list could be loaded makes no difference. */
    method ListLoaded(ticket: nat)
      requires Valid() && ticket in tasks && !tasks[ticket].Poll? && tasks[ticket].stage.Refreshing?
      modifies `tasks, `log
      ensures Valid() && Abs() == Step(old(Abs()), ListRefreshed(ticket), wording)
    {
      Properties.StepKeepsAll(Abs(), ListRefreshed(ticket), wording, since, unspoilt);
      ghost var after := Step(Abs(), ListRefreshed(ticket), wording);
      RecordAssistantMessage(ticket, tasks[ticket].stage.text);
      assert Abs() == after;
    }

    method RecordAssistantMessage(ticket: nat, text: string)
      requires ticket in tasks && !tasks[ticket].Poll?
      modifies `tasks, `log
      ensures Abs() == Write(old(Abs()), ticket, text, wording)
    {
      var task := tasks[ticket];
      var shown := text;
      if task.Final? { shown := wording.display(text); }
      if conv.active.None? || Blank(shown) {
        tasks := tasks[ticket := task.(stage := Recording(None))];
        return;
      }
      log := log + [Posted(ticket, task.session, conv.active.value, shown, task.Late?)];
      tasks := tasks[ticket := task.(stage := Recording(conv.active))];
    }

    method MessageRecorded(ticket: nat, reply: Reply)
      requires Valid() && ticket in tasks && !tasks[ticket].Poll? && tasks[ticket].stage.Recording?
      modifies `tasks, `conv, `log
      ensures Valid() && Abs() == Step(old(Abs()), Recorded(ticket, reply), wording)
    {
      Properties.StepKeepsAll(Abs(), Recorded(ticket, reply), wording, since, unspoilt);
      var task := tasks[ticket];
      if task.stage.conv.Some? && reply.Lost? {
        tasks := tasks - {ticket};
        if task.Final? { log := log + [Died(ticket)]; }
        return;
      }
      conv := Sync(conv, task.stage.conv, reply);
      if task.Late? {
        tasks := tasks - {ticket};
      } else {
        tasks := tasks[ticket := task.(stage := SavingTurn(conv.active))];
      }
    }

    method RuntimeTurnCompleted(ticket: nat, reply: Reply)
      requires Valid() && ticket in tasks && tasks[ticket].Final? && tasks[ticket].stage.SavingTurn?
      modifies `tasks, `conv, `log
      ensures Valid() && Abs() == Step(old(Abs()), TurnSaved(ticket, reply), wording)
    {
      Properties.StepKeepsAll(Abs(), TurnSaved(ticket, reply), wording, since, unspoilt);
      var task := tasks[ticket];
      if task.stage.conv.Some? && reply.Lost? {
        tasks := tasks - {ticket};
        log := log + [Died(ticket)];
        return;
      }
      conv := Sync(conv, task.stage.conv, reply);
      tasks := tasks[ticket := task.(stage := SavingActivity)];
    }

    method ActivityPersisted(ticket: nat)
      requires Valid() && ticket in tasks && tasks[ticket].Final? && tasks[ticket].stage.SavingActivity?
      modifies `tasks, `finalizingTurn, `unspoilt
      ensures Valid() && Abs() == Step(old(Abs()), ActivitySaved(ticket), wording)
      ensures !finalizingTurn && (unspoilt <==> old(unspoilt) && ticket >= since)
    {
      Properties.StepKeepsAll(Abs(), ActivitySaved(ticket), wording, since, unspoilt && ticket >= since);
      unspoilt := unspoilt && ticket >= since;
      tasks := tasks - {ticket};
      finalizingTurn := false;
    }

    method StopStream()
      requires Valid()
      modifies `streamWatchdog
      ensures Valid() && Abs() == Step(old(Abs()), Event.StopStream, wording)
    {
      Properties.StepKeepsAll(Abs(), Event.StopStream, wording, since, unspoilt);
      StopStreamWatchdog();
    }

    method BindEvStream(sessionId: SessionId)
      requires Valid()
      modifies `streamWatchdog
      ensures Valid() && Abs() == Step(old(Abs()), Bind(sessionId), wording)
    {
      Properties.StepKeepsAll(Abs(), Bind(sessionId), wording, since, unspoilt);
      StopStream();
      streamWatchdog := Some(sessionId);
    }

    /** The conversation controller changes the record or the phase by itself. */
    method ChatChanged(chat: Chat)
      requires Valid()
      modifies `conv
      ensures Valid() && Abs() == Step(old(Abs()), Elsewhere(chat), wording)
    {
      Properties.StepKeepsAll(Abs(), Elsewhere(chat), wording, since, unspoilt);
      conv := chat;
    }

    /** The rest of `switchConversation` once `select` is back, whether or not it could open the record. */
    method ConversationSelected(chosen: Option<Chat>)
      requires Valid()
      modifies `finalizedRuntimeSessions, `finalizingTurn, `conv, `log, `since, `unspoilt
      ensures Valid() && Abs() == Step(old(Abs()), Switched(chosen), wording)
      ensures unspoilt && since == nextTicket
    {
      Properties.SwitchKeepsAll(Abs(), chosen, wording);
      since, unspoilt := nextTicket, true;
      ClearFinalization(chosen);
    }

    method ClearFinalization(chosen: Option<Chat>)
      modifies `finalizedRuntimeSessions, `finalizingTurn, `conv, `log
      ensures Abs() == OnSwitched(old(Abs()), chosen)
    {
      if chosen.Some? { conv := chosen.value; }
      finalizedRuntimeSessions := {};
      finalizingTurn := false;
      log := log + [Cleared];
    }
  }

  /** A session whose turn has been finalized since the last switch does not pass the guard again. */
  lemma {:induction false} GuardIsExact(app: AppState, x: SessionId)
    requires app.Valid()
    ensures x in app.finalizedRuntimeSessions <==> x in Properties.ClaimedSince(app.log)
    ensures MayFinalize(Guard(app.finalizedRuntimeSessions, app.finalizingTurn), x) ==> x !in Properties.ClaimedSince(app.log)
  {
    assert Properties.GuardInv(app.Abs());
  }

  /** Until the first switch a session has at most one message of its own. */
  lemma {:induction false} OneMessage(app: AppState, i: nat, j: nat)
    requires app.Valid() && Cleared !in app.log
    requires i < |app.log| && j < |app.log| && app.log[i].Posted? && app.log[j].Posted?
    requires !app.log[i].late && !app.log[j].late && app.log[i].session == app.log[j].session
    ensures i == j
  {
    Properties.OneMessageIn(app.log, i, j);
  }

  /** As long as no finalization from before the last switch has finished, two never run at once. */
  lemma {:induction false} NeverTwo(app: AppState, t: nat, u: nat)
    requires app.Valid() && app.unspoilt && t in app.tasks && u in app.tasks && app.tasks[t].Final? && app.tasks[u].Final?
    requires t >= app.since && u >= app.since
    ensures t == u && app.finalizingTurn
  {
    assert Properties.Young(app.Abs(), t, app.since) && Properties.Young(app.Abs(), u, app.since);
  }
}
