/**
  What makes something happen while turns are finalized: every entry of the log has its one cause,
  the watchdog gives up or asks exactly when it should, and a record that comes back becomes the
  active one.
*/
module TurnCauses {
  import opened Options
  import opened Text
  import opened TurnMachine
  import opened TurnProperties
  import opened TurnScenarios

  // --- the log -----------------------------------------------------------------------------

  /** Session `x` is neither being finalized nor finalized since the last switch, and no other is being finalized. */
  predicate Free(s: State, x: SessionId) { !s.guard.finalizing && x !in s.guard.finalized }

  predicate IsOver(view: TurnView) { view.terminal.Some? }

  predicate Polls(s: State, t: nat) { t in s.tasks.live && s.tasks.live[t].Poll? }

  /** The message that task `t` writes now: none if no conversation is active or nothing would be seen of it. */
  function Message(s: State, t: nat, text: string, w: Wording): seq<Effect>
    requires InStage(s, t)
  {
    var task := s.tasks.live[t];
    var shown := if task.Late? then text else w.display(text);
    match s.chat.active
    case Some(conv) => if Blank(shown) then [] else [Posted(t, task.session, conv, shown, task.Late?)]
    case None => []
  }

  /** Task `t` waits for the phase to be saved, and there will be no record to load the list for. */
  predicate WritesAtOnce(s: State, t: nat, r: Reply) {
    InStage(s, t) && s.tasks.live[t].stage.SavingPhase? && (r.Lost? || s.tasks.live[t].stage.conv.None?)
  }

  /** A write about a conversation is lost in the middle of a finalization. */
  predicate LosesWrite(s: State, t: nat, r: Reply, recording: bool) {
    && InFinal(s, t) && r.Lost?
    && match s.tasks.live[t].stage
       case Recording(conv) => recording && conv.Some?
       case SavingTurn(conv) => !recording && conv.Some?
       case _ => false
  }

  /** What event `e` adds to the log. */
  function Logs(s: State, e: Event, w: Wording): seq<Effect> {
    match e
    case OnView(x, view, _) =>
      if s.chat.session == Some(x) && IsOver(view) && Free(s, x) then [Claimed(s.tasks.next, x)] else []
    case PollDone(t, got, _) =>
      if Polls(s, t) && got.Some? && IsOver(got.value) && Free(s, s.tasks.live[t].session)
      then [Claimed(s.tasks.next, s.tasks.live[t].session)] else []
    case PhaseSaved(t, r) => if WritesAtOnce(s, t, r) then Message(s, t, s.tasks.live[t].stage.text, w) else []
    case ListRefreshed(t) =>
      if InStage(s, t) && s.tasks.live[t].stage.Refreshing? then Message(s, t, s.tasks.live[t].stage.text, w) else []
    case Recorded(t, r) => if LosesWrite(s, t, r, true) then [Died(t)] else []
    case TurnSaved(t, r) => if LosesWrite(s, t, r, false) then [Died(t)] else []
    case Switched(_) => [Cleared]
    case _ => []
  }

  lemma {:induction false} FinalizeLogs(s: State, x: SessionId, view: TurnView, client: bool)
    ensures Finalize(s, x, view, client).log
            == s.log + (if IsOver(view) && Free(s, x) then [Claimed(s.tasks.next, x)] else [])
  {
    NothingMore(s.log);
  }

  lemma {:induction false} NothingMore(log: seq<Effect>)
    ensures log + [] == log
  {}

  lemma {:induction false} WriteLogs(s: State, t: nat, text: string, w: Wording)
    requires InStage(s, t)
    ensures Write(s, t, text, w).log == s.log + Message(s, t, text, w)
  {
    NothingMore(s.log);
  }

  /**
    Every entry of the log has its one cause, and every cause its entry: a finalization is claimed
    when the view of the active session, or a poll of the watchdog, brings a terminal and the guard
    is open; a message is written when the phase was saved without a record, or when the list has
    come; a finalization dies of a lost write about a conversation; only a switch clears the guard.
  */
  lemma {:induction false} EveryEntryHasItsCause(es: seq<Event>, e: Event, w: Wording)
    ensures Run(Init(), es + [e], w).log == Run(Init(), es, w).log + Logs(Run(Init(), es, w), e, w)
  {
    RunNext(Init(), es, e, w);
    StepLogs(Run(Init(), es, w), e, w);
  }

  lemma {:induction false} StepLogs(s: State, e: Event, w: Wording)
    ensures Step(s, e, w).log == s.log + Logs(s, e, w)
  {
    NothingMore(s.log);
    match e {
      case OnView(x, view, client) => FinalizeLogs(s, x, view, client);
      case PollDone(t, got, client) =>
        if Polls(s, t) && got.Some? {
          FinalizeLogs(s.(tasks := Drop(s.tasks, t), watchdog := None), s.tasks.live[t].session, got.value, client);
        }
      case PhaseSaved(t, r) => if WritesAtOnce(s, t, r) { WriteLogs(s, t, s.tasks.live[t].stage.text, w); }
      case ListRefreshed(t) =>
        if InStage(s, t) && s.tasks.live[t].stage.Refreshing? { WriteLogs(s, t, s.tasks.live[t].stage.text, w); }
      case _ =>
    }
  }

  // --- what a claim waits for --------------------------------------------------------------

  /**
    A claimed finalization asks the service for the text first exactly if the turn completed, nothing
    was streamed and there is a client; otherwise it goes on with the text of the view. The guard is
    shut and the watchdog is off.
  */
  lemma {:induction false} ClaimAsksIff(s: State, x: SessionId, view: TurnView, client: bool, w: Wording)
    requires s.chat.session == Some(x) && IsOver(view) && Free(s, x)
    ensures var n := Step(s, OnView(x, view, client), w);
      && s.tasks.next in n.tasks.live && n.tasks.live[s.tasks.next].Final? && n.tasks.live[s.tasks.next].session == x
      && n.watchdog.None? && n.guard == Guard(s.guard.finalized + {x}, true)
      && var st := n.tasks.live[s.tasks.next].stage;
         && (st.Fetching? <==> view.terminal.value == Ev.RunCompleted && Blank(view.text) && client)
         && (st.Fetching? ==> st.view == view)
         && (!st.Fetching? ==> st == Resolve(view, view.terminal.value, None))
  {}

  // --- the watchdog ------------------------------------------------------------------------

  predicate Busy(s: State) { s.chat.phase == Running || s.chat.phase == Cancelling }

  /** More than 90 seconds without an event and no permission pending: the watchdog gives up. */
  predicate GivesUp(s: State, idle: nat, pending: bool) { Busy(s) && !pending && idle > 90_000 }

  /** 12 to 90 seconds: it asks for the session, if it can and nothing is being finalized. */
  predicate Asks(s: State, idle: nat, pending: bool, client: bool) {
    Busy(s) && !pending && 12_000 <= idle <= 90_000 && client && !s.guard.finalizing
  }

  /**
    A tick of the watchdog over session `x` does one of three things, and changes nothing else: it
    gives up, marks the conversation as failed and reports the timeout; it starts a poll; or, once
    the conversation is no longer busy, it just stops.
  */
  lemma {:induction false} WatchdogActs(s: State, x: SessionId, idle: nat, pending: bool, client: bool, w: Wording)
    requires s.watchdog == Some(x)
    ensures var n := Step(s, Tick(idle, pending, client), w);
      if GivesUp(s, idle, pending) then
        n == s.(watchdog := None, chat := s.chat.(phase := Ended(Ev.RunErrored)), tasks := n.tasks)
        && n.tasks.next == s.tasks.next + 1
        && n.tasks.live == s.tasks.live[s.tasks.next := Late(x, SavingPhase(w.timeout, s.chat.active))]
      else if Asks(s, idle, pending, client) then
        n == s.(tasks := n.tasks)
        && n.tasks.next == s.tasks.next + 1 && n.tasks.live == s.tasks.live[s.tasks.next := Poll(x)]
      else n == s.(watchdog := if Busy(s) then Some(x) else None)
  {}

  /** A poll that finds the session over switches the watchdog off, whether or not it may finalize; any other leaves it. */
  lemma {:induction false} PollEndsWatch(s: State, t: nat, got: Option<TurnView>, client: bool, w: Wording)
    requires Polls(s, t) && t < s.tasks.next
    ensures var n := Step(s, PollDone(t, got, client), w);
      && t !in n.tasks.live
      && n.watchdog == (if got.Some? && IsOver(got.value) then None else s.watchdog)
  {}

  // --- what is handed on -------------------------------------------------------------------

  /**
    A finalization whose files have settled says nothing from then on but its text, as it is
    displayed, marked if and only if the turn completed and left file actions unverified.
  */
  lemma {:induction false} SettledMessageSays(s: State, t: nat, unverified: bool, es: seq<Event>, w: Wording, i: nat)
    requires InFinal(s, t) && t < s.tasks.next && s.tasks.live[t].stage.Settling?
    requires var log := Run(Step(s, FilesSettled(t, unverified), w), es, w).log;
      |s.log| <= i < |log| && log[i].Posted? && log[i].ticket == t
    ensures var m, st := Run(Step(s, FilesSettled(t, unverified), w), es, w).log[i], s.tasks.live[t].stage;
      m.text == w.display(if st.terminal == Ev.RunCompleted && unverified then w.unverified(st.text) else st.text)
  {
    var n, st := Step(s, FilesSettled(t, unverified), w), s.tasks.live[t].stage;
    var text := if st.terminal == Ev.RunCompleted && unverified then w.unverified(st.text) else st.text;
    StepLogs(s, FilesSettled(t, unverified), w);
    NothingMore(s.log);
    RunKeepsSaying(n, es, t, text, Ev.RunErrored, |s.log|, w);
    assert SaysOnly(Run(n, es, w).log[i], text, Ev.RunErrored, w);
  }

  /** A message that is written is awaited; if none is, there is nothing to lose. */
  lemma {:induction false} MessageIsAwaitedIff(s: State, t: nat, text: string, w: Wording)
    requires InStage(s, t)
    ensures var n := Write(s, t, text, w);
      && t in n.tasks.live
      && n.tasks.live[t].stage == Recording(if Message(s, t, text, w) == [] then None else s.chat.active)
      && n.chat == s.chat && n.guard == s.guard && n.watchdog == s.watchdog
  {}

  /** The conversation that the replies to task `t` are about, while one is awaited. */
  function About(s: State, t: nat): Option<ConvId> {
    if !InStage(s, t) then None
    else match s.tasks.live[t].stage
      case SavingPhase(_, conv) => conv
      case Recording(conv) => conv
      case SavingTurn(conv) => conv
      case _ => None
  }

  /** A reply that fits what task `t` waits for. */
  predicate Answers(s: State, t: nat, e: Event, r: Reply) {
    InStage(s, t)
    && match s.tasks.live[t].stage
       case SavingPhase(_, _) => e == PhaseSaved(t, r)
       case Recording(_) => e == Recorded(t, r)
       case SavingTurn(_) => s.tasks.live[t].Final? && e == TurnSaved(t, r)
       case _ => false
  }

  /**
    Whatever a task waits for, a record that comes back becomes the active one, with the session
    linked to it, even if the user has moved on; a lost reply leaves the active conversation alone.
  */
  lemma {:induction false} RecordBecomesActive(s: State, t: nat, e: Event, r: Reply, w: Wording)
    requires Answers(s, t, e, r)
    ensures var n := Step(s, e, w);
      && n.chat.phase == s.chat.phase
      && if r.Saved? && About(s, t).Some? then n.chat.active == About(s, t) && n.chat.session == r.linked
         else n.chat == s.chat
  {}

  /** A finalization that finishes opens the guard, and keeps its session out of it until the next switch. */
  lemma {:induction false} FinishOpensGuard(s: State, t: nat, w: Wording)
    requires InFinal(s, t) && s.tasks.live[t].stage.SavingActivity?
    ensures var n := Step(s, ActivitySaved(t), w);
      t !in n.tasks.live && !n.guard.finalizing && n.guard.finalized == s.guard.finalized && n.chat == s.chat
  {}
}
