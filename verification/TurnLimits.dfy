/**
  The edges of turn finalization: a lost write shuts the guard until the next switch, the watchdog
  writes past the guard, a switch breaks exclusion, and an errored turn can end without a word.
*/
module TurnLimits {
  import opened Options
  import opened TurnMachine
  import opened TurnProperties

  // --- a lost write ------------------------------------------------------------------------

  predicate HasDied(log: seq<Effect>) { exists e <- log :: e.Died? }

  ghost predicate Finalizes(s: State) { exists t :: InFinal(s, t) }

  /** The guard is shut exactly while a finalization runs or because one has died. */
  ghost predicate ShutInv(s: State) {
    && Exclusive(s, 0)
    && (s.guard.finalizing <==> Finalizes(s) || HasDied(s.log))
    && !(Finalizes(s) && HasDied(s.log))
  }

  lemma {:induction false} FinalizeKeepsShut(s: State, x: SessionId, view: TurnView, client: bool)
    requires ShutInv(s)
    ensures ShutInv(Finalize(s, x, view, client))
  {
    var n := Finalize(s, x, view, client);
    if n != s {
      assert InFinal(n, s.tasks.next);
      assert forall t | Young(n, t, 0) && t != s.tasks.next :: Young(s, t, 0);
      assert HasDied(n.log) ==> HasDied(s.log);
    }
  }

  /** A task of its own kind appears, moves on or goes away; no finalization does. */
  lemma {:induction false} OthersKeepShut(s: State, n: State)
    requires ShutInv(s) && n.guard.finalizing == s.guard.finalizing && s.tasks.next <= n.tasks.next
    requires HasDied(n.log) <==> HasDied(s.log)
    requires forall t <- n.tasks.live :: t < n.tasks.next
    requires forall t :: InFinal(n, t) <==> InFinal(s, t)
    ensures ShutInv(n)
  {
    assert forall t | Young(n, t, 0) :: Young(s, t, 0);
    if Finalizes(s) {
      var t :| InFinal(s, t);
      assert InFinal(n, t);
    }
  }

  /** The one running finalization ends: either cleanly, or by a lost write. */
  lemma {:induction false} EndKeepsShut(s: State, t: nat)
    requires ShutInv(s) && InFinal(s, t)
    ensures ShutInv(OnActivitySaved(s, t)) && ShutInv(Die(s, t))
  {
    var done, dead := OnActivitySaved(s, t), Die(s, t);
    assert Young(s, t, 0);
    forall u ensures !InFinal(done, u) && !InFinal(dead, u) {
      if u in s.tasks.live && u != t { assert Young(s, u, 0) ==> u == t; }
    }
    assert dead.log[|s.log|].Died?;
  }

  lemma {:induction false} SaveKeepsShut(s: State, e: Event, w: Wording)
    requires ShutInv(s) && (e.PhaseSaved? || e.ListRefreshed?)
    ensures ShutInv(Step(s, e, w))
  {
    var n := Step(s, e, w);
    assert HasDied(n.log) ==> HasDied(s.log);
    assert forall e <- s.log :: e in n.log;
    OthersKeepShut(s, n);
  }

  lemma {:induction false} WriteKeepsShut(s: State, e: Event, t: nat, w: Wording)
    requires ShutInv(s) && ((e.Recorded? && e.ticket == t) || (e.TurnSaved? && e.ticket == t))
    ensures ShutInv(Step(s, e, w))
  {
    var n := Step(s, e, w);
    if n.log != s.log { EndKeepsShut(s, t); } else { OthersKeepShut(s, n); }
  }

  lemma {:induction false} PollKeepsShut(s: State, t: nat, got: Option<TurnView>, client: bool)
    requires ShutInv(s) && t in s.tasks.live && s.tasks.live[t].Poll?
    ensures ShutInv(OnPollDone(s, t, got, client))
  {
    var s1 := s.(tasks := Drop(s.tasks, t));
    OthersKeepShut(s, s1);
    if got.Some? {
      OthersKeepShut(s1, s1.(watchdog := None));
      FinalizeKeepsShut(s1.(watchdog := None), s.tasks.live[t].session, got.value, client);
    }
  }

  lemma {:induction false} StepKeepsShut(s: State, e: Event, w: Wording)
    requires ShutInv(s) && !e.Switched?
    ensures ShutInv(Step(s, e, w))
  {
    var n := Step(s, e, w);
    match e {
      case OnView(x, view, client) => FinalizeKeepsShut(s, x, view, client);
      case PollDone(t, got, client) =>
        if t in s.tasks.live && s.tasks.live[t].Poll? { PollKeepsShut(s, t, got, client); }
      case PhaseSaved(_, _) => SaveKeepsShut(s, e, w);
      case ListRefreshed(_) => SaveKeepsShut(s, e, w);
      case Recorded(t, r) => WriteKeepsShut(s, e, t, w);
      case TurnSaved(t, r) => WriteKeepsShut(s, e, t, w);
      case ActivitySaved(t) => if n != s { EndKeepsShut(s, t); }
      case _ => OthersKeepShut(s, n);
    }
  }

  lemma {:induction false} RunKeepsShut(es: seq<Event>, w: Wording)
    requires NoSwitch(es)
    ensures ShutInv(Run(Init(), es, w))
  {
    if es != [] {
      RunKeepsShut(es[..|es|-1], w);
      StepKeepsShut(Run(Init(), es[..|es|-1], w), es[|es|-1], w);
    }
  }

  /** Without a switch the guard is shut if and only if a finalization is running or one has died. */
  lemma {:induction false} ShutIff(es: seq<Event>, w: Wording)
    requires NoSwitch(es)
    ensures var s := Run(Init(), es, w);
      s.guard.finalizing <==> (exists t :: InFinal(s, t)) || HasDied(s.log)
  {
    RunKeepsShut(es, w);
  }

  ghost predicate Wedged(s: State) { s.guard.finalizing && !Finalizes(s) }

  /** While the guard is shut no finalization starts and nothing is claimed. */
  lemma {:induction false} ShutStartsNothing(s: State, e: Event, w: Wording, t: nat)
    requires s.guard.finalizing && !e.Switched?
    ensures InFinal(Step(s, e, w), t) ==> InFinal(s, t)
  {}

  lemma {:induction false} ShutClaimsNothing(s: State, e: Event, w: Wording)
    requires s.guard.finalizing
    ensures var n := Step(s, e, w);
      n.log != s.log ==> n.log == s.log + [n.log[|s.log|]] && !n.log[|s.log|].Claimed?
  {}

  lemma {:induction false} OnlyFinalsOpen(s: State, e: Event, w: Wording)
    requires s.guard.finalizing && !e.Switched? && (e.ActivitySaved? ==> !InFinal(s, e.ticket))
    ensures Step(s, e, w).guard.finalizing
  {}

  lemma {:induction false} StepKeepsWedged(s: State, e: Event, w: Wording)
    requires Wedged(s) && !e.Switched?
    ensures Wedged(Step(s, e, w)) && Claims(Step(s, e, w).log) == Claims(s.log)
  {
    var n := Step(s, e, w);
    assert forall t :: !InFinal(s, t);
    OnlyFinalsOpen(s, e, w);
    forall t ensures !InFinal(n, t) { ShutStartsNothing(s, e, w, t); }
    ShutClaimsNothing(s, e, w);
    if n.log != s.log { Append(s.log, n.log[|s.log|]); }
  }

  lemma {:induction false} WedgedForever(s: State, es: seq<Event>, w: Wording)
    requires Wedged(s) && NoSwitch(es)
    ensures Wedged(Run(s, es, w)) && Claims(Run(s, es, w).log) == Claims(s.log)
  {
    if es != [] {
      WedgedForever(s, es[..|es|-1], w);
      StepKeepsWedged(Run(s, es[..|es|-1], w), es[|es|-1], w);
    }
  }

  /**
    Once a finalization has died of a lost write, no session is ever finalized again until the
    conversation is switched, whatever arrives.
  */
  lemma {:induction false} LostWriteStopsFinalization(es: seq<Event>, more: seq<Event>, w: Wording)
    requires NoSwitch(es) && NoSwitch(more) && HasDied(Run(Init(), es, w).log)
    ensures var s := Run(Init(), es, w);
      Run(s, more, w).guard.finalizing && Claims(Run(s, more, w).log) == Claims(s.log)
  {
    RunKeepsShut(es, w);
    WedgedForever(Run(Init(), es, w), more, w);
  }

  // --- the watchdog's own message ----------------------------------------------------------

  function Binds(es: seq<Event>): nat {
    if es == [] then 0 else Binds(es[..|es|-1]) + if es[|es|-1].Bind? then 1 else 0
  }

  function LatePosts(log: seq<Effect>): nat {
    if log == [] then 0
    else LatePosts(log[..|log|-1]) + if log[|log|-1].Posted? && log[|log|-1].late then 1 else 0
  }

  predicate IsWaiting(task: Task) { task.Late? && (task.stage.SavingPhase? || task.stage.Refreshing?) }

  function Waiting(ts: Tasks): set<nat> { set t | t in ts.live && IsWaiting(ts.live[t]) }

  function Armed(s: State): nat { if s.watchdog.Some? then 1 else 0 }

  predicate Bounded(s: State, binds: nat) {
    && (forall t <- s.tasks.live :: t < s.tasks.next)
    && LatePosts(s.log) + |Waiting(s.tasks)| + Armed(s) <= binds
  }

  lemma {:induction false} LateCount(log: seq<Effect>, e: Effect)
    ensures LatePosts(log + [e]) == LatePosts(log) + if e.Posted? && e.late then 1 else 0
  {
    Append(log, e);
  }

  lemma {:induction false} TickKeepsBound(s: State, idle: nat, pending: bool, client: bool, binds: nat, w: Wording)
    requires Bounded(s, binds) && s.watchdog.Some?
    ensures Bounded(OnTick(s, idle, pending, client, w), binds)
  {
    var n := OnTick(s, idle, pending, client, w);
    if n.tasks != s.tasks {
      assert Waiting(n.tasks) == Waiting(s.tasks) + if n.watchdog.Some? then {} else {s.tasks.next};
    }
  }

  lemma {:induction false} WriteKeepsBound(s: State, t: nat, text: string, w: Wording, binds: nat)
    requires Bounded(s, binds) && InStage(s, t) && (s.tasks.live[t].Late? ==> IsWaiting(s.tasks.live[t]))
    ensures Bounded(Write(s, t, text, w), binds)
  {
    var n := Write(s, t, text, w);
    assert Waiting(n.tasks) == Waiting(s.tasks) - {t};
    if n.log != s.log { LateCount(s.log, n.log[|s.log|]); }
  }

  lemma {:induction false} SaveKeepsBound(s: State, t: nat, r: Reply, w: Wording, binds: nat)
    requires Bounded(s, binds) && InStage(s, t) && s.tasks.live[t].stage.SavingPhase?
    ensures Bounded(OnPhaseSaved(s, t, r, w), binds)
  {
    var n := OnPhaseSaved(s, t, r, w);
    if n.tasks.live[t].stage.Refreshing? {
      assert Waiting(n.tasks) == Waiting(s.tasks);
    } else {
      WriteKeepsBound(s, t, s.tasks.live[t].stage.text, w, binds);
    }
  }

  lemma {:induction false} FinalizeKeepsBound(s: State, x: SessionId, view: TurnView, client: bool, binds: nat)
    requires Bounded(s, binds)
    ensures Bounded(Finalize(s, x, view, client), binds)
  {
    var n := Finalize(s, x, view, client);
    assert Waiting(n.tasks) == Waiting(s.tasks);
    if n.log != s.log { LateCount(s.log, n.log[|s.log|]); }
  }

  lemma {:induction false} EndKeepsWaiting(ts: Tasks, t: nat)
    requires t in ts.live && !IsWaiting(ts.live[t])
    ensures Waiting(Drop(ts, t)) == Waiting(ts)
  {}

  lemma {:induction false} MoveKeepsWaiting(ts: Tasks, t: nat, task: Task)
    requires t in ts.live && !IsWaiting(ts.live[t]) && !IsWaiting(task)
    ensures Waiting(Move(ts, t, task)) == Waiting(ts)
  {}

  /** A task that is past its message ends, with or without an entry in the log. */
  lemma {:induction false} EndKeepsBound(s: State, t: nat, binds: nat)
    requires Bounded(s, binds) && t in s.tasks.live && !IsWaiting(s.tasks.live[t])
    ensures Bounded(s.(tasks := Drop(s.tasks, t)), binds)
  {
    EndKeepsWaiting(s.tasks, t);
  }

  lemma {:induction false} DeathKeepsBound(s: State, t: nat, binds: nat)
    requires Bounded(s, binds) && t in s.tasks.live && !IsWaiting(s.tasks.live[t])
    ensures Bounded(Die(s, t), binds)
  {
    EndKeepsWaiting(s.tasks, t);
    LateCount(s.log, Died(t));
    assert Waiting(Die(s, t).tasks) == Waiting(s.tasks);
  }

  lemma {:induction false} MoveKeepsBound(s: State, t: nat, task: Task, chat: Chat, binds: nat)
    requires Bounded(s, binds) && t in s.tasks.live && !IsWaiting(s.tasks.live[t]) && !IsWaiting(task)
    ensures Bounded(s.(chat := chat, tasks := Move(s.tasks, t, task)), binds)
    ensures Bounded(s.(chat := chat, tasks := Drop(s.tasks, t)), binds)
  {
    MoveKeepsWaiting(s.tasks, t, task);
    EndKeepsWaiting(s.tasks, t);
  }

  lemma {:induction false} RecordKeepsBound(s: State, t: nat, r: Reply, binds: nat)
    requires Bounded(s, binds) && InStage(s, t) && s.tasks.live[t].stage.Recording?
    ensures Bounded(OnRecorded(s, t, r), binds)
  {
    var task := s.tasks.live[t];
    var chat := Sync(s.chat, task.stage.conv, r);
    EndKeepsBound(s, t, binds);
    DeathKeepsBound(s, t, binds);
    MoveKeepsBound(s, t, task.(stage := SavingTurn(chat.active)), chat, binds);
  }

  lemma {:induction false} SaveTurnKeepsBound(s: State, t: nat, r: Reply, binds: nat)
    requires Bounded(s, binds) && InFinal(s, t) && s.tasks.live[t].stage.SavingTurn?
    ensures Bounded(OnTurnSaved(s, t, r), binds)
  {
    EndKeepsWaiting(s.tasks, t);
    MoveKeepsWaiting(s.tasks, t, s.tasks.live[t].(stage := SavingActivity));
    LateCount(s.log, Died(t));
  }

  lemma {:induction false} StepKeepsBound(s: State, e: Event, binds: nat, w: Wording)
    requires Bounded(s, binds)
    ensures Bounded(Step(s, e, w), if e.Bind? then binds + 1 else binds)
  {
    match e {
      case Tick(idle, pending, client) =>
        if s.watchdog.Some? { TickKeepsBound(s, idle, pending, client, binds, w); }
      case PhaseSaved(t, r) =>
        if InStage(s, t) && s.tasks.live[t].stage.SavingPhase? { SaveKeepsBound(s, t, r, w, binds); }
      case ListRefreshed(t) =>
        if InStage(s, t) && s.tasks.live[t].stage.Refreshing? {
          WriteKeepsBound(s, t, s.tasks.live[t].stage.text, w, binds);
        }
      case OnView(x, view, client) => FinalizeKeepsBound(s, x, view, client, binds);
      case PollDone(t, got, client) =>
        if t in s.tasks.live && s.tasks.live[t].Poll? { PollKeepsBound(s, t, got, client, binds); }
      case Recorded(t, r) =>
        if InStage(s, t) && s.tasks.live[t].stage.Recording? { RecordKeepsBound(s, t, r, binds); }
      case TurnSaved(t, r) =>
        if InFinal(s, t) && s.tasks.live[t].stage.SavingTurn? { SaveTurnKeepsBound(s, t, r, binds); }
      case ActivitySaved(t) => if InFinal(s, t) && s.tasks.live[t].stage.SavingActivity? { EndKeepsWaiting(s.tasks, t); }
      case Switched(_) => LateCount(s.log, Cleared);
      case _ => OthersKeepBound(s, e, binds, w);
    }
  }

  lemma {:induction false} PollKeepsBound(s: State, t: nat, got: Option<TurnView>, client: bool, binds: nat)
    requires Bounded(s, binds) && t in s.tasks.live && s.tasks.live[t].Poll?
    ensures Bounded(OnPollDone(s, t, got, client), binds)
  {
    var s1 := s.(tasks := Drop(s.tasks, t));
    EndKeepsWaiting(s.tasks, t);
    assert Bounded(s1, binds);
    if got.Some? {
      FinalizeKeepsBound(s1.(watchdog := None), s.tasks.live[t].session, got.value, client, binds);
    }
  }

  lemma {:induction false} OthersKeepBound(s: State, e: Event, binds: nat, w: Wording)
    requires Bounded(s, binds)
    requires e.Bind? || e.StopStream? || e.Elsewhere? || e.Fetched? || e.FilesSettled?
    ensures Bounded(Step(s, e, w), if e.Bind? then binds + 1 else binds)
  {
    assert Waiting(Step(s, e, w).tasks) == Waiting(s.tasks);
  }

  lemma {:induction false} RunKeepsBound(es: seq<Event>, w: Wording)
    ensures Bounded(Run(Init(), es, w), Binds(es))
  {
    if es == [] {
      assert Waiting(Init().tasks) == {};
    } else {
      RunKeepsBound(es[..|es|-1], w);
      StepKeepsBound(Run(Init(), es[..|es|-1], w), es[|es|-1], Binds(es[..|es|-1]), w);
    }
  }

  /** Over every run: the watchdog writes at most one timeout message for each time a stream was bound. */
  lemma {:induction false} OneTimeoutPerBind(es: seq<Event>, w: Wording)
    ensures LatePosts(Run(Init(), es, w).log) <= Binds(es)
  {
    RunKeepsBound(es, w);
  }

  // --- where a message lands ---------------------------------------------------------------

  predicate Home(s: State, conv: Option<ConvId>) {
    && s.chat.active == conv
    && forall t <- s.tasks.live :: AtHome(s.tasks.live[t], conv)
  }

  predicate AtHome(task: Task, conv: Option<ConvId>) {
    task.Poll? || task.stage.Fetching? || task.stage.Settling? || task.stage.Refreshing? || task.stage.SavingActivity?
    || task.stage.conv in {None, conv}
  }

  lemma {:induction false} StepStaysHome(s: State, e: Event, w: Wording, conv: Option<ConvId>)
    requires Home(s, conv) && !e.Switched? && !e.Elsewhere?
    ensures var n := Step(s, e, w);
      Home(n, conv) && (n.log != s.log && n.log[|s.log|].Posted? ==> Some(n.log[|s.log|].conv) == conv)
  {
    var n := Step(s, e, w);
    forall t | t in n.tasks.live ensures AtHome(n.tasks.live[t], conv) {
      if t in s.tasks.live { assert AtHome(s.tasks.live[t], conv); }
    }
  }

  /** As long as nothing changes the active conversation, every message goes to it. */
  lemma {:induction false} MessagesStayHome(s: State, es: seq<Event>, w: Wording, conv: Option<ConvId>)
    requires Home(s, conv) && forall e <- es :: !e.Switched? && !e.Elsewhere?
    ensures var n := Run(s, es, w);
      && Home(n, conv) && |n.log| >= |s.log|
      && forall i | |s.log| <= i < |n.log| && n.log[i].Posted? :: Some(n.log[i].conv) == conv
  {
    if es != [] {
      var before := Run(s, es[..|es|-1], w);
      MessagesStayHome(s, es[..|es|-1], w, conv);
      StepStaysHome(before, es[|es|-1], w, conv);
      LogGrows(before, es[|es|-1], w);
    }
  }

  /** What an event makes the active conversation: nothing if it leaves it alone, or else the new one. */
  function Opens(s: State, e: Event): Option<Option<ConvId>> {
    match e
    case Elsewhere(chat) => Some(chat.active)
    case Switched(Some(chat)) => Some(chat.active)
    case PhaseSaved(t, Saved(_)) => if InStage(s, t) && s.tasks.live[t].stage.SavingPhase? then Back(s, t) else None
    case Recorded(t, Saved(_)) => if InStage(s, t) && s.tasks.live[t].stage.Recording? then Back(s, t) else None
    case TurnSaved(t, Saved(_)) => if InFinal(s, t) && s.tasks.live[t].stage.SavingTurn? then Back(s, t) else None
    case _ => None
  }

  /** A record that comes back becomes the active one, whatever is open by then. */
  function Back(s: State, t: nat): Option<Option<ConvId>>
    requires InStage(s, t)
    requires var st := s.tasks.live[t].stage; st.SavingPhase? || st.Recording? || st.SavingTurn?
  {
    var conv := s.tasks.live[t].stage.conv;
    if conv.Some? then Some(conv) else None
  }

  /** The last change of the active conversation in `es`, if there is one. */
  function LastOpened(s: State, es: seq<Event>, w: Wording): Option<Option<ConvId>> {
    if es == [] then None
    else
      var o := Opens(Run(s, es[..|es|-1], w), es[|es|-1]);
      if o.Some? then o else LastOpened(s, es[..|es|-1], w)
  }

  function OrStill(opens: Option<Option<ConvId>>, active: Option<ConvId>): Option<ConvId> {
    if opens.Some? then opens.value else active
  }

  lemma {:induction false} OpensIsExact(s: State, e: Event, w: Wording)
    ensures Step(s, e, w).chat.active == OrStill(Opens(s, e), s.chat.active)
  {}

  lemma {:induction false} LastOpenedIsActive(s: State, es: seq<Event>, w: Wording)
    ensures Run(s, es, w).chat.active == OrStill(LastOpened(s, es, w), s.chat.active)
  {
    if es != [] {
      LastOpenedIsActive(s, es[..|es|-1], w);
      OpensIsExact(Run(s, es[..|es|-1], w), es[|es|-1], w);
    }
  }

  /** The conversation that is active now is the last one opened since event `k`, or the one that was active then. */
  lemma {:induction false} ActiveSince(es: seq<Event>, k: nat, w: Wording)
    requires k <= |es|
    ensures var before := Run(Init(), es[..k], w);
      Run(Init(), es, w).chat.active == OrStill(LastOpened(before, es[k..], w), before.chat.active)
  {
    assert es[..k] + es[k..] == es;
    RunSplit(Init(), es[..k], es[k..], w);
    LastOpenedIsActive(Run(Init(), es[..k], w), es[k..], w);
  }

  /** At its `i`-th event task `t` started the request that saves the phase, while `home` was active. */
  ghost predicate SettledAt(es: seq<Event>, i: nat, t: nat, home: ConvId, w: Wording) {
    && i < |es| && ((es[i].FilesSettled? && es[i].ticket == t) || es[i].Tick?)
    && Run(Init(), es[..i], w).chat.active == Some(home) == Run(Init(), es[..i+1], w).chat.active
    && var s := Run(Init(), es[..i+1], w);
      InStage(s, t) && s.tasks.live[t].stage.SavingPhase? && s.tasks.live[t].stage.conv == Some(home)
  }

  /** At its `i`-th event that request came back with its record. */
  ghost predicate SavedAt(es: seq<Event>, i: nat, t: nat, home: ConvId, w: Wording) {
    && i < |es| && es[i].PhaseSaved? && es[i].ticket == t && es[i].reply.Saved?
    && Run(Init(), es[..i+1], w).chat.active == Some(home)
    && exists j :: SettledAt(es[..i], j, t, home, w)
  }

  lemma {:induction false} StepSettles(s: State, e: Event, t: nat, w: Wording)
    requires var n := Step(s, e, w); InStage(n, t) && n.tasks.live[t].stage.SavingPhase?
    ensures var n := Step(s, e, w);
      || (InStage(s, t) && s.tasks.live[t] == n.tasks.live[t])
      || (((e.FilesSettled? && e.ticket == t) || e.Tick?)
          && s.chat.active == n.chat.active == n.tasks.live[t].stage.conv)
  {}

  lemma {:induction false} StepSaves(s: State, e: Event, t: nat, w: Wording)
    requires var n := Step(s, e, w); InStage(n, t) && n.tasks.live[t].stage.Refreshing?
    ensures var n := Step(s, e, w);
      || (InStage(s, t) && s.tasks.live[t] == n.tasks.live[t])
      || (&& e.PhaseSaved? && e.ticket == t && e.reply.Saved?
          && InStage(s, t) && s.tasks.live[t].stage.SavingPhase?
          && s.tasks.live[t].stage.conv == n.chat.active == Some(n.tasks.live[t].stage.home))
  {}

  /** The conversation a waiting task is about is the one in which its turn was settled. */
  lemma {:induction false} WhereItSettled(es: seq<Event>, t: nat, home: ConvId, w: Wording) returns (k: nat)
    requires var s := Run(Init(), es, w);
      InStage(s, t) && s.tasks.live[t].stage.SavingPhase? && s.tasks.live[t].stage.conv == Some(home)
    ensures SettledAt(es, k, t, home, w)
  {
    var last := |es| - 1;
    var s, n := Run(Init(), es[..last], w), Run(Init(), es, w);
    StepSettles(s, es[last], t, w);
    if InStage(s, t) && s.tasks.live[t] == n.tasks.live[t] {
      k := WhereItSettled(es[..last], t, home, w);
      assert es[..last][..k] == es[..k] && es[..last][..k+1] == es[..k+1];
    } else {
      k := last;
      assert es[..last+1] == es;
    }
  }

  lemma {:induction false} WhereItWasSaved(es: seq<Event>, t: nat, w: Wording) returns (k: nat)
    requires var s := Run(Init(), es, w); InStage(s, t) && s.tasks.live[t].stage.Refreshing?
    ensures SavedAt(es, k, t, Run(Init(), es, w).tasks.live[t].stage.home, w)
  {
    var last := |es| - 1;
    var s, n := Run(Init(), es[..last], w), Run(Init(), es, w);
    var home := n.tasks.live[t].stage.home;
    StepSaves(s, es[last], t, w);
    if InStage(s, t) && s.tasks.live[t] == n.tasks.live[t] {
      k := WhereItWasSaved(es[..last], t, w);
      assert es[..last][..k] == es[..k] && es[..last][..k+1] == es[..k+1];
    } else {
      k := last;
      assert es[..last+1] == es;
      var j := WhereItSettled(es[..last], t, home, w);
    }
  }

  /** The conversation whose turn a waiting task ends, if one was active when it settled. */
  function HomeOf(task: Task): Option<ConvId> {
    if task.Poll? then None
    else match task.stage
      case SavingPhase(_, conv) => conv
      case Refreshing(_, home) => Some(home)
      case _ => None
  }

  predicate Writes(s: State, e: Event, t: nat, w: Wording) {
    var n := Step(s, e, w);
    n.log != s.log && n.log[|s.log|].Posted? && n.log[|s.log|].ticket == t
  }

  lemma {:induction false} WrittenWhere(s: State, e: Event, t: nat, w: Wording)
    requires Writes(s, e, t, w)
    ensures InStage(s, t) && Some(Step(s, e, w).log[|s.log|].conv) == s.chat.active
    ensures (e == ListRefreshed(t) && s.tasks.live[t].stage.Refreshing?)
            || (e.PhaseSaved? && e.ticket == t && s.tasks.live[t].stage.SavingPhase?
                && (e.reply.Lost? || s.tasks.live[t].stage.conv.None?))
  {}

  /**
    Where a message lands, in every run. It is written either when the request that saves the phase
    is lost or, if that brought back its record, when the list loaded after it has come. It lands in
    the conversation in which its turn was settled if and only if the last change of the active
    conversation since that request began, or since its record came back, led to that conversation,
    or there was none.
  */
  lemma {:induction false} MessageLandsHomeIff(es: seq<Event>, e: Event, t: nat, home: ConvId, w: Wording) returns (k: nat)
    requires var s := Run(Init(), es, w);
      Writes(s, e, t, w) && t in s.tasks.live && HomeOf(s.tasks.live[t]) == Some(home)
    ensures k < |es|
    ensures (e == PhaseSaved(t, Lost) && SettledAt(es, k, t, home, w)) || (e == ListRefreshed(t) && SavedAt(es, k, t, home, w))
    ensures var s := Run(Init(), es, w);
      Step(s, e, w).log[|s.log|].conv == home
      <==> LastOpened(Run(Init(), es[..k+1], w), es[k+1..], w) in {None, Some(Some(home))}
  {
    WrittenWhere(Run(Init(), es, w), e, t, w);
    if e.PhaseSaved? { k := WhereItSettled(es, t, home, w); } else { k := WhereItWasSaved(es, t, w); }
    assert Run(Init(), es[..k+1], w).chat.active == Some(home);
    ActiveSince(es, k + 1, w);
  }
}
