/**
  Finalizing a conversation turn: stream, watchdog and a switch of conversation race for one guard.
  One event is one atomic stretch of the code, up to the next `await`; a task is a suspended async
  function, known by the ticket it got when it started.
*/
module TurnMachine {
  import opened Options
  import opened Text
  import Ev = EvEvents

  type SessionId = string
  type ConvId = string

  const STALL_AFTER_MS: nat := 12_000
  const TIMEOUT_MS: nat := 90_000
  const MISSING_FINAL := "Tác vụ đã hoàn tất " + "nhưng runtime không trả về phản hồi cuối."
  const DENIED_TEXT := "Yêu cầu đã bị từ chối."
  const CANCELLED_TEXT := "Phiên đã bị hủy."

  /** What finalization reads of a session view. */
  datatype TurnView = TurnView(terminal: Option<Ev.TerminalState>, text: string, error: Option<string>)

  datatype Phase = Resting | Starting | Running | Cancelling | Ended(how: Ev.TerminalState) | EndedWithoutAnswer

  /** The active conversation, the runtime session linked to it, and the runtime phase. */
  datatype Chat = Chat(active: Option<ConvId>, session: Option<SessionId>, phase: Phase)

  datatype Guard = Guard(finalized: set<SessionId>, finalizing: bool)

  /**
    Where a suspended finalization is. `conv` is the conversation its pending request is about, and
    `home` the one whose record came back when the phase was saved.
  */
  datatype Stage =
    | Fetching(view: TurnView)
    | Settling(text: string, terminal: Ev.TerminalState, answered: bool)
    | SavingPhase(text: string, conv: Option<ConvId>)
    | Refreshing(text: string, home: ConvId)
    | Recording(conv: Option<ConvId>)
    | SavingTurn(conv: Option<ConvId>)
    | SavingActivity

  datatype Task =
    | Poll(session: SessionId)
    | Final(session: SessionId, stage: Stage)
    | Late(session: SessionId, stage: Stage)

  datatype Tasks = Tasks(live: map<nat, Task>, next: nat)

  datatype Effect =
    | Claimed(ticket: nat, session: SessionId)
    | Posted(ticket: nat, session: SessionId, conv: ConvId, text: string, late: bool)
    | Died(ticket: nat)
    | Cleared

  datatype State = State(guard: Guard, watchdog: Option<SessionId>, chat: Chat, tasks: Tasks, log: seq<Effect>)

  /** A service call about a conversation fails, or brings back its record. */
  datatype Reply = Lost | Saved(linked: Option<SessionId>)

  datatype Event =
    | Bind(session: SessionId)
    | StopStream
    | OnView(session: SessionId, view: TurnView, client: bool)
    | Tick(idle: nat, pending: bool, client: bool)
    | PollDone(ticket: nat, got: Option<TurnView>, client: bool)
    | Fetched(ticket: nat, answer: Option<string>)
    | FilesSettled(ticket: nat, unverified: bool)
    | PhaseSaved(ticket: nat, reply: Reply)
    | ListRefreshed(ticket: nat)
    | Recorded(ticket: nat, reply: Reply)
    | TurnSaved(ticket: nat, reply: Reply)
    | ActivitySaved(ticket: nat)
    | Switched(chosen: Option<Chat>)
    | Elsewhere(chat: Chat)

  /** What the transcript shows of a text, how an unverified file action is marked, and the timeout message. */
  datatype Wording = Wording(display: string -> string, unverified: string -> string, timeout: string)

  function Init(): State {
    State(Guard({}, false), None, Chat(None, None, Resting), Tasks(map[], 0), [])
  }

  // --- the text of a turn ------------------------------------------------------------------

  predicate Blank(t: string) { Trim(t) == "" }

  /** Streamed text first, then the fetched one, then an honest fallback. */
  function ResolveFinalAssistantText(streamed: string, fetched: Option<string>): string {
    if !Blank(streamed) then Trim(streamed)
    else if fetched.Some? && !Blank(fetched.value) then Trim(fetched.value)
    else MISSING_FINAL
  }

  predicate Answered(streamed: string, fetched: Option<string>) {
    !Blank(streamed) || (fetched.Some? && !Blank(fetched.value))
  }

  /** A present error message wins even if it is blank, and then a present text, even if blank. */
  function ErroredText(v: TurnView): string {
    if v.error.Some? then Trim(v.error.value) else Trim(v.text)
  }

  function Resolve(v: TurnView, terminal: Ev.TerminalState, fetched: Option<string>): Stage {
    match terminal
    case RunCompleted => Settling(ResolveFinalAssistantText(v.text, fetched), terminal, Answered(v.text, fetched))
    case RunDenied => Settling(if Blank(v.text) then DENIED_TEXT else Trim(v.text), terminal, true)
    case RunCancelled => Settling(if Blank(v.text) then CANCELLED_TEXT else Trim(v.text), terminal, true)
    case RunErrored => Settling(ErroredText(v), terminal, true)
  }

  /** The fetched text replaces a shorter one; it only counts as fetched when it is not blank. */
  function ResolveFetched(v: TurnView, terminal: Ev.TerminalState, got: Option<string>): Stage {
    if got.None? then Resolve(v, terminal, None)
    else
      var fetched := if Blank(got.value) then None else Some(Trim(got.value));
      var v1 := if |Trim(got.value)| > |Trim(v.text)| then v.(text := got.value) else v;
      Resolve(v1, terminal, fetched)
  }

  function PhaseFor(terminal: Ev.TerminalState, answered: bool): Phase {
    if terminal == Ev.RunCompleted && !answered then EndedWithoutAnswer else Ended(terminal)
  }

  // --- tasks -------------------------------------------------------------------------------

  function Begin(ts: Tasks, t: Task): Tasks { Tasks(ts.live[ts.next := t], ts.next + 1) }
  function Move(ts: Tasks, ticket: nat, t: Task): Tasks { ts.(live := ts.live[ticket := t]) }
  function Drop(ts: Tasks, ticket: nat): Tasks { ts.(live := ts.live - {ticket}) }

  /** The record of a reply becomes the active one. */
  function Sync(c: Chat, conv: Option<ConvId>, r: Reply): Chat {
    if conv.Some? && r.Saved? then c.(active := conv, session := r.linked) else c
  }

  // --- the guard ---------------------------------------------------------------------------

  predicate MayFinalize(g: Guard, session: SessionId) { !g.finalizing && session !in g.finalized }

  /** `finalizeConversationTurn` up to its first await. */
  function Finalize(s: State, session: SessionId, view: TurnView, client: bool): State {
    if view.terminal.None? || !MayFinalize(s.guard, session) then s
    else
      var terminal := view.terminal.value;
      var stage := if terminal == Ev.RunCompleted && Blank(view.text) && client then Fetching(view)
                   else Resolve(view, terminal, None);
      s.(guard := Guard(s.guard.finalized + {session}, true),
         watchdog := None,
         tasks := Begin(s.tasks, Final(session, stage)),
         log := s.log + [Claimed(s.tasks.next, session)])
  }

  // --- the steps ---------------------------------------------------------------------------

  function OnTick(s: State, idle: nat, pending: bool, client: bool, w: Wording): State
    requires s.watchdog.Some?
  {
    if s.chat.phase != Running && s.chat.phase != Cancelling then s.(watchdog := None)
    else if pending || idle < STALL_AFTER_MS then s
    else if idle > TIMEOUT_MS then
      s.(watchdog := None,
         chat := s.chat.(phase := Ended(Ev.RunErrored)),
         tasks := Begin(s.tasks, Late(s.watchdog.value, SavingPhase(w.timeout, s.chat.active))))
    else if !client || s.guard.finalizing then s
    else s.(tasks := Begin(s.tasks, Poll(s.watchdog.value)))
  }

  function OnPollDone(s: State, t: nat, got: Option<TurnView>, client: bool): State
    requires t in s.tasks.live && s.tasks.live[t].Poll?
  {
    var s1 := s.(tasks := Drop(s.tasks, t));
    if got.None? || got.value.terminal.None? then s1
    else Finalize(s1.(watchdog := None), s.tasks.live[t].session, got.value, client)
  }

  function OnFetched(s: State, t: nat, got: Option<string>): State
    requires InFinal(s, t) && s.tasks.live[t].stage.Fetching?
  {
    var task := s.tasks.live[t];
    s.(tasks := Move(s.tasks, t, task.(stage := ResolveFetched(task.stage.view, Ev.RunCompleted, got))))
  }

  function OnFilesSettled(s: State, t: nat, unverified: bool, w: Wording): State
    requires t in s.tasks.live && s.tasks.live[t].Final? && s.tasks.live[t].stage.Settling?
  {
    var task := s.tasks.live[t];
    var Settling(text, terminal, answered) := task.stage;
    var text1 := if terminal == Ev.RunCompleted && unverified then w.unverified(text) else text;
    s.(chat := s.chat.(phase := PhaseFor(terminal, answered)),
       tasks := Move(s.tasks, t, task.(stage := SavingPhase(text1, s.chat.active))))
  }

  /** `recordAssistantMessage`: the message goes to the conversation that is active now. */
  function Write(s: State, t: nat, text: string, w: Wording): State
    requires InStage(s, t)
  {
    var task := s.tasks.live[t];
    var shown := if task.Late? then text else w.display(text);
    if s.chat.active.None? || Blank(shown) then
      s.(tasks := Move(s.tasks, t, task.(stage := Recording(None))))
    else
      s.(tasks := Move(s.tasks, t, task.(stage := Recording(s.chat.active))),
         log := s.log + [Posted(t, task.session, s.chat.active.value, shown, task.Late?)])
  }

  /** After a record has come back the list is loaded anew before the message is written. */
  function OnPhaseSaved(s: State, t: nat, r: Reply, w: Wording): State
    requires InStage(s, t) && s.tasks.live[t].stage.SavingPhase?
  {
    var task := s.tasks.live[t];
    var SavingPhase(text, conv) := task.stage;
    if conv.Some? && r.Saved? then
      s.(chat := Sync(s.chat, conv, r),
         tasks := Move(s.tasks, t, task.(stage := Refreshing(text, conv.value))))
    else Write(s, t, text, w)
  }

  /** A failed write ends a finalization where it is; nothing after it runs. */
  function Die(s: State, t: nat): State {
    s.(tasks := Drop(s.tasks, t), log := s.log + [Died(t)])
  }

  function OnRecorded(s: State, t: nat, r: Reply): State
    requires t in s.tasks.live && !s.tasks.live[t].Poll? && s.tasks.live[t].stage.Recording?
  {
    var task := s.tasks.live[t];
    if task.stage.conv.Some? && r.Lost? then
      if task.Late? then s.(tasks := Drop(s.tasks, t)) else Die(s, t)
    else
      var s1 := s.(chat := Sync(s.chat, task.stage.conv, r));
      if task.Late? then s1.(tasks := Drop(s.tasks, t))
      else s1.(tasks := Move(s.tasks, t, task.(stage := SavingTurn(s1.chat.active))))
  }

  function OnTurnSaved(s: State, t: nat, r: Reply): State
    requires t in s.tasks.live && s.tasks.live[t].Final? && s.tasks.live[t].stage.SavingTurn?
  {
    var task := s.tasks.live[t];
    if task.stage.conv.Some? && r.Lost? then Die(s, t)
    else
      s.(chat := Sync(s.chat, task.stage.conv, r),
         tasks := Move(s.tasks, t, task.(stage := SavingActivity)))
  }

  function OnActivitySaved(s: State, t: nat): State {
    s.(tasks := Drop(s.tasks, t), guard := s.guard.(finalizing := false))
  }

  /** After `select`: the guard is reset whether or not the conversation could be opened. */
  function OnSwitched(s: State, chosen: Option<Chat>): State {
    s.(guard := Guard({}, false), log := s.log + [Cleared],
       chat := if chosen.Some? then chosen.value else s.chat)
  }

  predicate InStage(s: State, t: nat) { t in s.tasks.live && !s.tasks.live[t].Poll? }
  predicate InFinal(s: State, t: nat) { t in s.tasks.live && s.tasks.live[t].Final? }

  /** An event that cannot happen in `s` leaves it as it is. */
  function Step(s: State, e: Event, w: Wording): State {
    match e
    case Bind(session) => s.(watchdog := Some(session))
    case StopStream => s.(watchdog := None)
    case OnView(session, view, client) =>
      if s.chat.session == Some(session) then Finalize(s, session, view, client) else s
    case Tick(idle, pending, client) => if s.watchdog.Some? then OnTick(s, idle, pending, client, w) else s
    case PollDone(t, got, client) =>
      if t in s.tasks.live && s.tasks.live[t].Poll? then OnPollDone(s, t, got, client) else s
    case Fetched(t, got) =>
      if InFinal(s, t) && s.tasks.live[t].stage.Fetching? then OnFetched(s, t, got) else s
    case FilesSettled(t, unverified) =>
      if InFinal(s, t) && s.tasks.live[t].stage.Settling? then OnFilesSettled(s, t, unverified, w) else s
    case PhaseSaved(t, r) =>
      if InStage(s, t) && s.tasks.live[t].stage.SavingPhase? then OnPhaseSaved(s, t, r, w) else s
    case ListRefreshed(t) =>
      if InStage(s, t) && s.tasks.live[t].stage.Refreshing? then Write(s, t, s.tasks.live[t].stage.text, w) else s
    case Recorded(t, r) =>
      if InStage(s, t) && s.tasks.live[t].stage.Recording? then OnRecorded(s, t, r) else s
    case TurnSaved(t, r) =>
      if InFinal(s, t) && s.tasks.live[t].stage.SavingTurn? then OnTurnSaved(s, t, r) else s
    case ActivitySaved(t) =>
      if InFinal(s, t) && s.tasks.live[t].stage.SavingActivity? then OnActivitySaved(s, t) else s
    case Switched(chosen) => OnSwitched(s, chosen)
    case Elsewhere(chat) => s.(chat := chat)
  }

  function Run(s: State, es: seq<Event>, w: Wording): State {
    if es == [] then s else Step(Run(s, es[..|es|-1], w), es[|es|-1], w)
  }

  lemma {:induction false} RunSplit(s: State, a: seq<Event>, b: seq<Event>, w: Wording)
    ensures Run(s, a + b, w) == Run(Run(s, a, w), b, w)
    decreases |b|
  {
    if b == [] {
      assert a + b == a;
    } else {
      RunSplit(s, a, b[..|b|-1], w);
      assert (a + b)[..|a + b|-1] == a + b[..|b|-1];
    }
  }

  lemma {:induction false} RunNext(s: State, es: seq<Event>, e: Event, w: Wording)
    ensures Run(s, es + [e], w) == Step(Run(s, es, w), e, w)
  {
    assert (es + [e])[..|es|] == es;
  }
}
