/**
  What the runs of TurnMachine promise, and where they stop promising it: at most one claim and one
  message per session between two switches, mutual exclusion, and a guard that a lost write leaves shut.
*/
module TurnProperties {
  import opened Options
  import opened TurnMachine

  predicate NoSwitch(es: seq<Event>) { forall e <- es :: !e.Switched? }

  /** A step appends at most one entry to the log. */
  lemma {:induction false} LogGrows(s: State, e: Event, w: Wording)
    ensures var t := Step(s, e, w);
      t.log == s.log || (|t.log| == |s.log| + 1 && t.log[..|s.log|] == s.log)
  {}

  // --- at most one claim per session between two switches ----------------------------------

  /** The sessions claimed since the guard was last cleared. */
  function ClaimedSince(log: seq<Effect>): set<SessionId> {
    if log == [] then {}
    else
      var before := ClaimedSince(log[..|log|-1]);
      match log[|log|-1]
      case Claimed(_, x) => before + {x}
      case Cleared => {}
      case _ => before
  }

  predicate OncePerClearing(log: seq<Effect>) {
    log != [] ==>
      var before := log[..|log|-1];
      OncePerClearing(before) && (log[|log|-1].Claimed? ==> log[|log|-1].session !in ClaimedSince(before))
  }

  predicate GuardInv(s: State) { s.guard.finalized == ClaimedSince(s.log) && OncePerClearing(s.log) }

  lemma {:induction false} Append(log: seq<Effect>, e: Effect)
    ensures (log + [e])[..|log + [e]|-1] == log
  {}

  /** What an entry of the log does to the guard's set. */
  function After(finalized: set<SessionId>, e: Effect): set<SessionId> {
    match e
    case Claimed(_, x) => finalized + {x}
    case Cleared => {}
    case _ => finalized
  }

  /** The set moves with the log, and only a session outside it is claimed. */
  lemma {:induction false} GuardFollowsLog(s: State, e: Event, w: Wording)
    ensures var n := Step(s, e, w);
      if n.log == s.log then n.guard.finalized == s.guard.finalized
      else
        && |n.log| == |s.log| + 1 && n.log == s.log + [n.log[|s.log|]]
        && n.guard.finalized == After(s.guard.finalized, n.log[|s.log|])
        && (n.log[|s.log|].Claimed? ==> n.log[|s.log|].session !in s.guard.finalized)
  {}

  lemma {:induction false} EntryKeepsOnce(log: seq<Effect>, e: Effect)
    requires OncePerClearing(log) && (e.Claimed? ==> e.session !in ClaimedSince(log))
    ensures OncePerClearing(log + [e]) && ClaimedSince(log + [e]) == After(ClaimedSince(log), e)
  {
    Append(log, e);
  }

  lemma {:induction false} StepKeepsGuard(s: State, e: Event, w: Wording)
    requires GuardInv(s)
    ensures GuardInv(Step(s, e, w))
  {
    GuardFollowsLog(s, e, w);
    var n := Step(s, e, w);
    if n.log != s.log { EntryKeepsOnce(s.log, n.log[|s.log|]); }
  }

  lemma {:induction false} RunKeepsGuard(es: seq<Event>, w: Wording)
    ensures GuardInv(Run(Init(), es, w))
  {
    if es != [] {
      RunKeepsGuard(es[..|es|-1], w);
      StepKeepsGuard(Run(Init(), es[..|es|-1], w), es[|es|-1], w);
    }
  }

  lemma {:induction false} ForgottenOnlyByClearing(log: seq<Effect>, i: nat)
    requires i < |log| && log[i].Claimed? && log[i].session !in ClaimedSince(log)
    ensures Cleared in log[i+1..]
  {
    var last := |log| - 1;
    if i < last && log[last] != Cleared {
      ForgottenOnlyByClearing(log[..last], i);
      assert log[..last][i+1..] == log[i+1..last];
    } else {
      assert log[last] in log[i+1..];
    }
  }

  lemma {:induction false} OnceAt(log: seq<Effect>, i: nat, j: nat)
    requires OncePerClearing(log)
    requires i < j < |log| && log[i].Claimed? && log[j].Claimed? && log[i].session == log[j].session
    ensures Cleared in log[i+1..j]
  {
    var last := |log| - 1;
    if j < last {
      OnceAt(log[..last], i, j);
      assert log[..last][i+1..j] == log[i+1..j];
    } else {
      ForgottenOnlyByClearing(log[..last], i);
      assert log[..last][i+1..] == log[i+1..j];
    }
  }

  /** Over every run: a session that passes the guard twice does so across a switch of conversation. */
  lemma {:induction false} ClaimedOncePerClearing(es: seq<Event>, w: Wording, i: nat, j: nat)
    requires var log := Run(Init(), es, w).log;
      i < j < |log| && log[i].Claimed? && log[j].Claimed? && log[i].session == log[j].session
    ensures Cleared in Run(Init(), es, w).log[i+1..j]
  {
    RunKeepsGuard(es, w);
    OnceAt(Run(Init(), es, w).log, i, j);
  }

  // --- at most one message per claim -------------------------------------------------------

  /** The tickets that claimed the guard, with their sessions. */
  function Claims(log: seq<Effect>): set<(nat, SessionId)> {
    if log == [] then {}
    else
      var before := Claims(log[..|log|-1]);
      match log[|log|-1]
      case Claimed(t, x) => before + {(t, x)}
      case _ => before
  }

  function PostedTickets(log: seq<Effect>): set<nat> {
    if log == [] then {}
    else
      var before := PostedTickets(log[..|log|-1]);
      match log[|log|-1]
      case Posted(t, _, _, _, _) => before + {t}
      case _ => before
  }

  predicate WellPosted(log: seq<Effect>) {
    log != [] ==>
      var before, last := log[..|log|-1], log[|log|-1];
      WellPosted(before)
      && (last.Posted? ==>
            && last.ticket !in PostedTickets(before)
            && (!last.late ==> (last.ticket, last.session) in Claims(before))
            && !Blank(last.text))
  }

  predicate BeforePost(st: Stage) { st.Fetching? || st.Settling? || st.SavingPhase? || st.Refreshing? }

  ghost predicate TaskInv(log: seq<Effect>, t: nat, task: Task) {
    task.Poll?
    || ((task.Final? ==> (t, task.session) in Claims(log))
        && (task.Late? ==> task.stage.SavingPhase? || task.stage.Refreshing? || task.stage.Recording?)
        && (BeforePost(task.stage) ==> t !in PostedTickets(log)))
  }

  ghost predicate PostInv(log: seq<Effect>, ts: Tasks) {
    && WellPosted(log)
    && (forall t <- ts.live :: t < ts.next && TaskInv(log, t, ts.live[t]))
    && (forall t <- PostedTickets(log) :: t < ts.next)
    && (forall c <- Claims(log) :: c.0 < ts.next)
  }

  lemma {:induction false} ClaimKeepsPosts(log: seq<Effect>, ts: Tasks, x: SessionId, st: Stage)
    requires PostInv(log, ts)
    ensures PostInv(log + [Claimed(ts.next, x)], Begin(ts, Final(x, st)))
  {
    var e := Claimed(ts.next, x);
    Append(log, e);
    assert Claims(log + [e]) == Claims(log) + {(ts.next, x)} && PostedTickets(log + [e]) == PostedTickets(log);
    KnownTasks(log, e, ts);
  }

  /** A new entry that is no message takes nothing from what is known of the tasks. */
  lemma {:induction false} KnownTasks(log: seq<Effect>, e: Effect, ts: Tasks)
    requires PostInv(log, ts) && Claims(log) <= Claims(log + [e]) && PostedTickets(log + [e]) == PostedTickets(log)
    ensures forall t <- ts.live :: TaskInv(log + [e], t, ts.live[t])
  {
    forall t | t in ts.live ensures TaskInv(log + [e], t, ts.live[t]) {
      assert TaskInv(log, t, ts.live[t]);
    }
  }

  lemma {:induction false} BeginKeepsPosts(log: seq<Effect>, ts: Tasks, task: Task)
    requires PostInv(log, ts) && TaskInv(log, ts.next, task)
    ensures PostInv(log, Begin(ts, task))
  {}

  lemma {:induction false} MoveKeepsPosts(log: seq<Effect>, ts: Tasks, t: nat, st: Stage)
    requires PostInv(log, ts) && t in ts.live && !ts.live[t].Poll?
    requires TaskInv(log, t, ts.live[t].(stage := st))
    ensures PostInv(log, Move(ts, t, ts.live[t].(stage := st)))
  {}

  lemma {:induction false} PostKeepsPosts(log: seq<Effect>, ts: Tasks, t: nat, conv: ConvId, text: string)
    requires PostInv(log, ts) && t in ts.live && !ts.live[t].Poll? && BeforePost(ts.live[t].stage)
    requires !Blank(text)
    ensures PostInv(log + [Posted(t, ts.live[t].session, conv, text, ts.live[t].Late?)],
                    Move(ts, t, ts.live[t].(stage := Recording(Some(conv)))))
  {
    var post := Posted(t, ts.live[t].session, conv, text, ts.live[t].Late?);
    assert TaskInv(log, t, ts.live[t]);
    Append(log, post);
    assert Claims(log + [post]) == Claims(log) && PostedTickets(log + [post]) == PostedTickets(log) + {t};
    forall u | u in ts.live && u != t ensures TaskInv(log + [post], u, ts.live[u]) {
      assert TaskInv(log, u, ts.live[u]);
    }
  }

  lemma {:induction false} PlainEntryKeepsPosts(log: seq<Effect>, ts: Tasks, e: Effect)
    requires PostInv(log, ts) && (e.Died? || e.Cleared?)
    ensures PostInv(log + [e], ts)
  {
    Append(log, e);
    assert Claims(log + [e]) == Claims(log) && PostedTickets(log + [e]) == PostedTickets(log);
    KnownTasks(log, e, ts);
  }

  lemma {:induction false} DropKeepsPosts(log: seq<Effect>, ts: Tasks, t: nat)
    requires PostInv(log, ts)
    ensures PostInv(log, Drop(ts, t))
  {}

  lemma {:induction false} FinalizeKeepsPosts(s: State, x: SessionId, view: TurnView, client: bool)
    requires PostInv(s.log, s.tasks)
    ensures var n := Finalize(s, x, view, client); PostInv(n.log, n.tasks)
  {
    if view.terminal.Some? && MayFinalize(s.guard, x) {
      var n := Finalize(s, x, view, client);
      ClaimKeepsPosts(s.log, s.tasks, x, n.tasks.live[s.tasks.next].stage);
    }
  }

  lemma {:induction false} TickKeepsPosts(s: State, idle: nat, pending: bool, client: bool, w: Wording)
    requires PostInv(s.log, s.tasks) && s.watchdog.Some?
    ensures var n := OnTick(s, idle, pending, client, w); PostInv(n.log, n.tasks)
  {
    var n := OnTick(s, idle, pending, client, w);
    if n.tasks != s.tasks { BeginKeepsPosts(s.log, s.tasks, n.tasks.live[s.tasks.next]); }
  }

  lemma {:induction false} WriteKeepsPosts(s: State, t: nat, text: string, w: Wording)
    requires PostInv(s.log, s.tasks) && InStage(s, t) && BeforePost(s.tasks.live[t].stage)
    ensures var n := Write(s, t, text, w); PostInv(n.log, n.tasks)
  {
    var n := Write(s, t, text, w);
    assert TaskInv(s.log, t, s.tasks.live[t]);
    if n.log == s.log {
      MoveKeepsPosts(s.log, s.tasks, t, Recording(None));
    } else {
      PostKeepsPosts(s.log, s.tasks, t, n.chat.active.value, n.log[|s.log|].text);
    }
  }

  lemma {:induction false} SaveKeepsPosts(s: State, t: nat, r: Reply, w: Wording)
    requires PostInv(s.log, s.tasks) && InStage(s, t) && s.tasks.live[t].stage.SavingPhase?
    ensures var n := OnPhaseSaved(s, t, r, w); PostInv(n.log, n.tasks)
  {
    var SavingPhase(text, conv) := s.tasks.live[t].stage;
    if conv.Some? && r.Saved? {
      MoveKeepsPosts(s.log, s.tasks, t, Refreshing(text, conv.value)) by { assert TaskInv(s.log, t, s.tasks.live[t]); }
    } else {
      WriteKeepsPosts(s, t, text, w);
    }
  }

  lemma {:induction false} RecordKeepsPosts(s: State, t: nat, r: Reply)
    requires PostInv(s.log, s.tasks) && InStage(s, t)
    ensures s.tasks.live[t].stage.Recording? ==> var n := OnRecorded(s, t, r); PostInv(n.log, n.tasks)
    ensures s.tasks.live[t].Final? && s.tasks.live[t].stage.SavingTurn? ==>
              var n := OnTurnSaved(s, t, r); PostInv(n.log, n.tasks)
  {
    DropKeepsPosts(s.log, s.tasks, t);
    PlainEntryKeepsPosts(s.log, Drop(s.tasks, t), Died(t));
    if s.tasks.live[t].Final? && (s.tasks.live[t].stage.Recording? || s.tasks.live[t].stage.SavingTurn?) {
      MoveKeepsPosts(s.log, s.tasks, t, SavingTurn(Sync(s.chat, s.tasks.live[t].stage.conv, r).active))
        by { assert TaskInv(s.log, t, s.tasks.live[t]); }
      MoveKeepsPosts(s.log, s.tasks, t, SavingActivity);
    }
  }

  lemma {:induction false} StepKeepsPosts(s: State, e: Event, w: Wording)
    requires PostInv(s.log, s.tasks)
    ensures var n := Step(s, e, w); PostInv(n.log, n.tasks)
  {
    match e {
      case OnView(x, view, client) => FinalizeKeepsPosts(s, x, view, client);
      case Tick(idle, pending, client) =>
        if s.watchdog.Some? { TickKeepsPosts(s, idle, pending, client, w); }
      case PollDone(t, got, client) =>
        if t in s.tasks.live && s.tasks.live[t].Poll? {
          DropKeepsPosts(s.log, s.tasks, t);
          if got.Some? {
            FinalizeKeepsPosts(s.(tasks := Drop(s.tasks, t), watchdog := None), s.tasks.live[t].session, got.value, client);
          }
        }
      case PhaseSaved(t, r) =>
        if InStage(s, t) && s.tasks.live[t].stage.SavingPhase? { SaveKeepsPosts(s, t, r, w); }
      case ListRefreshed(t) =>
        if InStage(s, t) && s.tasks.live[t].stage.Refreshing? { WriteKeepsPosts(s, t, s.tasks.live[t].stage.text, w); }
      case Recorded(t, r) => if InStage(s, t) { RecordKeepsPosts(s, t, r); }
      case TurnSaved(t, r) => if InStage(s, t) { RecordKeepsPosts(s, t, r); }
      case ActivitySaved(t) => DropKeepsPosts(s.log, s.tasks, t);
      case Switched(_) => PlainEntryKeepsPosts(s.log, s.tasks, Cleared);
      case _ => ReadKeepsPosts(s, e, w);
    }
  }

  lemma {:induction false} ReadKeepsPosts(s: State, e: Event, w: Wording)
    requires PostInv(s.log, s.tasks)
    requires e.Bind? || e.StopStream? || e.Elsewhere? || e.Fetched? || e.FilesSettled?
    ensures var n := Step(s, e, w); PostInv(n.log, n.tasks)
  {
    var n := Step(s, e, w);
    if n.tasks != s.tasks {
      assert TaskInv(s.log, e.ticket, s.tasks.live[e.ticket]);
      MoveKeepsPosts(s.log, s.tasks, e.ticket, n.tasks.live[e.ticket].stage);
    }
  }

  lemma {:induction false} RunKeepsPosts(es: seq<Event>, w: Wording)
    ensures var s := Run(Init(), es, w); PostInv(s.log, s.tasks)
  {
    if es != [] {
      RunKeepsPosts(es[..|es|-1], w);
      StepKeepsPosts(Run(Init(), es[..|es|-1], w), es[|es|-1], w);
    }
  }

  lemma {:induction false} ClaimAt(log: seq<Effect>, c: (nat, SessionId)) returns (k: nat)
    requires c in Claims(log)
    ensures k < |log| && log[k] == Claimed(c.0, c.1)
  {
    var last := |log| - 1;
    if log[last] == Claimed(c.0, c.1) { k := last; } else { k := ClaimAt(log[..last], c); }
  }

  lemma {:induction false} PostAt(log: seq<Effect>, i: nat)
    requires WellPosted(log) && i < |log| && log[i].Posted?
    ensures !log[i].late ==> (log[i].ticket, log[i].session) in Claims(log[..i])
    ensures !Blank(log[i].text) && log[i].ticket in PostedTickets(log)
  {
    if i < |log| - 1 {
      PostAt(log[..|log|-1], i);
      assert log[..|log|-1][..i] == log[..i];
    }
  }

  lemma {:induction false} PostsDiffer(log: seq<Effect>, i: nat, j: nat)
    requires WellPosted(log) && i < j < |log| && log[i].Posted? && log[j].Posted?
    ensures log[i].ticket != log[j].ticket
  {
    var before := log[..|log|-1];
    if j < |log| - 1 { PostsDiffer(before, i, j); } else { PostAt(before, i); }
  }

  /**
    Over every run: a message that is not the watchdog's was claimed before it was written, by the
    same task for the same session, and no message is blank.
  */
  lemma {:induction false} EveryMessageWasClaimed(es: seq<Event>, w: Wording, i: nat) returns (k: nat)
    requires var log := Run(Init(), es, w).log; i < |log| && log[i].Posted? && !log[i].late
    ensures k < i && Run(Init(), es, w).log[k] == Claimed(Run(Init(), es, w).log[i].ticket, Run(Init(), es, w).log[i].session)
    ensures !Blank(Run(Init(), es, w).log[i].text)
  {
    var log := Run(Init(), es, w).log;
    RunKeepsPosts(es, w);
    PostAt(log, i);
    k := ClaimAt(log[..i], (log[i].ticket, log[i].session));
  }

  lemma {:induction false} ClaimOfPost(log: seq<Effect>, i: nat) returns (k: nat)
    requires WellPosted(log) && i < |log| && log[i].Posted? && !log[i].late
    ensures k < i && log[k] == Claimed(log[i].ticket, log[i].session)
  {
    PostAt(log, i);
    k := ClaimAt(log[..i], (log[i].ticket, log[i].session));
  }

  /** A log with one claim per clearing has one message per session between two clearings. */
  lemma {:induction false} OneMessageIn(log: seq<Effect>, i: nat, j: nat)
    requires OncePerClearing(log) && WellPosted(log) && Cleared !in log
    requires i < |log| && j < |log| && log[i].Posted? && log[j].Posted?
    requires !log[i].late && !log[j].late && log[i].session == log[j].session
    ensures i == j
  {
    var k := ClaimOfPost(log, i);
    var l := ClaimOfPost(log, j);
    if k < l { OnceAt(log, k, l); }
    if l < k { OnceAt(log, l, k); }
    if i < j { PostsDiffer(log, i, j); }
    if j < i { PostsDiffer(log, j, i); }
  }

  /** While no conversation is switched, finalization writes at most one message per session. */
  lemma {:induction false} OneMessagePerSession(es: seq<Event>, w: Wording, i: nat, j: nat)
    requires var log := Run(Init(), es, w).log;
      && Cleared !in log && i < |log| && j < |log| && log[i].Posted? && log[j].Posted?
      && !log[i].late && !log[j].late && log[i].session == log[j].session
    ensures i == j
  {
    RunKeepsPosts(es, w);
    RunKeepsGuard(es, w);
    OneMessageIn(Run(Init(), es, w).log, i, j);
  }

  // --- mutual exclusion --------------------------------------------------------------------

  /** Nothing that reopens the guard early: no switch, and no finish of a finalization begun before `base`. */
  predicate Quiet(e: Event, base: nat) {
    !e.Switched? && (e.ActivitySaved? ==> e.ticket >= base)
  }

  predicate Young(s: State, t: nat, base: nat) { InFinal(s, t) && t >= base }

  ghost predicate Exclusive(s: State, base: nat) {
    && (forall t <- s.tasks.live :: t < s.tasks.next)
    && base <= s.tasks.next
    && (forall t | Young(s, t, base) :: s.guard.finalizing)
    && (forall t, u | Young(s, t, base) && Young(s, u, base) :: t == u)
  }

  lemma {:induction false} StepKeepsExclusive(s: State, e: Event, base: nat, w: Wording)
    requires Exclusive(s, base) && Quiet(e, base)
    ensures Exclusive(Step(s, e, w), base)
  {
    var n := Step(s, e, w);
    assert forall t | Young(n, t, base) && t != s.tasks.next :: Young(s, t, base);
    if e.ActivitySaved? && InFinal(s, e.ticket) { assert Young(s, e.ticket, base); }
  }

  lemma {:induction false} RunKeepsExclusive(s: State, es: seq<Event>, base: nat, w: Wording)
    requires Exclusive(s, base) && forall e <- es :: Quiet(e, base)
    ensures Exclusive(Run(s, es, w), base)
  {
    if es != [] {
      RunKeepsExclusive(s, es[..|es|-1], base, w);
      StepKeepsExclusive(Run(s, es[..|es|-1], w), es[|es|-1], base, w);
    }
  }

  /** Right after a switch no finalization begun since then is running yet. */
  lemma {:induction false} SwitchStartsAfresh(s: State, chosen: Option<Chat>, w: Wording)
    requires PostInv(s.log, s.tasks)
    ensures Exclusive(Step(s, Switched(chosen), w), s.tasks.next)
  {
    assert forall t <- s.tasks.live :: t < s.tasks.next;
  }

  /** Finalizations exclude each other for as long as no conversation is switched. */
  lemma {:induction false} NeverTwoWithoutSwitch(es: seq<Event>, w: Wording, t: nat, u: nat)
    requires NoSwitch(es)
    requires InFinal(Run(Init(), es, w), t) && InFinal(Run(Init(), es, w), u)
    ensures t == u && Run(Init(), es, w).guard.finalizing
  {
    RunKeepsExclusive(Init(), es, 0, w);
    assert Young(Run(Init(), es, w), t, 0) && Young(Run(Init(), es, w), u, 0);
  }

  /**
    After a switch the finalizations begun since then still exclude each other, provided none from
    before the switch finishes meanwhile.
  */
  lemma {:induction false} NeverTwoSinceSwitch(before: seq<Event>, chosen: Option<Chat>, es: seq<Event>, w: Wording, t: nat, u: nat)
    requires var s := Step(Run(Init(), before, w), Switched(chosen), w);
      && (forall e <- es :: Quiet(e, s.tasks.next))
      && Young(Run(s, es, w), t, s.tasks.next) && Young(Run(s, es, w), u, s.tasks.next)
    ensures t == u
  {
    var s := Step(Run(Init(), before, w), Switched(chosen), w);
    RunKeepsPosts(before, w);
    SwitchStartsAfresh(Run(Init(), before, w), chosen, w);
    RunKeepsExclusive(s, es, s.tasks.next, w);
  }

  // --- all of it, from step to step ---------------------------------------------------------

  /**
    What every step keeps. Exclusion counts from ticket `since`, the first one after the last switch,
    and only while it is `unspoilt` by the finish of an older finalization.
  */
  ghost predicate Kept(s: State, since: nat, unspoilt: bool) {
    GuardInv(s) && PostInv(s.log, s.tasks) && (unspoilt ==> Exclusive(s, since))
  }

  lemma {:induction false} StepKeepsAll(s: State, e: Event, w: Wording, since: nat, unspoilt: bool)
    requires Kept(s, since, unspoilt) && (unspoilt ==> Quiet(e, since))
    ensures Kept(Step(s, e, w), since, unspoilt)
  {
    StepKeepsGuard(s, e, w);
    StepKeepsPosts(s, e, w);
    if unspoilt { StepKeepsExclusive(s, e, since, w); }
  }

  lemma {:induction false} SwitchKeepsAll(s: State, chosen: Option<Chat>, w: Wording)
    requires GuardInv(s) && PostInv(s.log, s.tasks)
    ensures Kept(Step(s, Switched(chosen), w), s.tasks.next, true)
  {
    StepKeepsGuard(s, Switched(chosen), w);
    StepKeepsPosts(s, Switched(chosen), w);
    SwitchStartsAfresh(s, chosen, w);
  }
}
