/**
  The permission controller as a state machine. One event is one atomic stretch of the
  controller's code, from the moment the host enters it to the next `await`; the host
  (timers, replies, visibility, clicks) picks the events, in any order.
*/
module PermissionMachine {
  import opened Options

  datatype Level = Standard | Elevated
  datatype Mode = Ask | WorkspaceAuto | ReadOnly
  datatype Scope = Once | Always
  datatype Request = Request(id: string, session: string, level: Level)
  datatype Post = Allow(id: string, scope: Scope) | Deny(id: string)

  /** The open dialog; `submitted` once a button was pressed in it. */
  datatype Modal = Modal(id: string, submitted: bool)

  /** One `onDecision` callback: the request that was posted and the one it was told about. */
  datatype Notice = Notice(posted: string, named: string)

  /** All the timers the host keeps alive. */
  datatype Clock = Clock(intervals: set<nat>, timeouts: set<nat>, next: nat)

  /** The two timers the controller knows of, and the host's clock. */
  datatype Timers = Timers(interval: Option<nat>, backoff: Option<nat>, clock: Clock)

  /** All list calls, decision POSTs and `onDecision` callbacks so far. */
  datatype Log = Log(polls: nat, posts: seq<Post>, notices: seq<Notice>)

  /**
    Controller fields, then the host's side: visibility, the calls in flight (`lists`, `posting`)
    and the log. `paused` remembers a `pause()` not yet followed by `resume()` or by a fresh
    `start()`.
  */
  datatype State = State(
    modal: Option<Modal>, lastPending: Option<Request>, announced: set<string>,
    polling: bool, deciding: bool, failures: nat, timers: Timers,
    hidden: bool, paused: bool, lists: nat, posting: seq<Post>, log: Log)

  datatype Event =
    | Start | Stop | Pause | Resume | Refresh
    | Visibility(hidden: bool)
    | Tick(handle: nat)
    | BackoffFires(handle: nat)
    | Listed(pending: seq<Request>, mode: Mode)
    | ListFailed
    | Decided(k: nat, ok: bool)
    | ClickAllow(scope: Scope)
    | ClickDeny

  function Init(hidden: bool): State {
    State(None, None, {}, false, false, 0, Timers(None, None, Clock({}, {}, 0)), hidden, false, 0, [], Log(0, [], []))
  }

  // --- the controller's helpers ------------------------------------------------------------

  function CloseModal(s: State): State { s.(modal := None) }

  function StartInterval(t: Timers): Timers {
    if t.interval.Some? then t
    else Timers(Some(t.clock.next), t.backoff,
                t.clock.(intervals := t.clock.intervals + {t.clock.next}, next := t.clock.next + 1))
  }

  function StopInterval(t: Timers): Timers {
    if t.interval.None? then t
    else Timers(None, t.backoff, t.clock.(intervals := t.clock.intervals - {t.interval.value}))
  }

  function ClearBackoff(t: Timers): Timers {
    if t.backoff.None? then t
    else Timers(t.interval, None, t.clock.(timeouts := t.clock.timeouts - {t.backoff.value}))
  }

  function ArmBackoff(t: Timers): Timers {
    if t.backoff.Some? then t
    else Timers(t.interval, Some(t.clock.next),
                t.clock.(timeouts := t.clock.timeouts + {t.clock.next}, next := t.clock.next + 1))
  }

  /** The host drops a timeout when it fires; the callback forgets the handle. */
  function BackoffGone(t: Timers, h: nat): Timers {
    Timers(t.interval, None, t.clock.(timeouts := t.clock.timeouts - {h}))
  }

  /** `refresh()` up to its `await`. */
  function StartRefresh(s: State): State {
    if s.deciding then s
    else s.(lists := s.lists + 1, log := s.log.(polls := s.log.polls + 1))
  }

  /** `decide()` up to its `await`. */
  function Decide(s: State, post: Post): State {
    if s.deciding then s
    else CloseModal(s).(deciding := true, posting := s.posting + [post],
                            log := s.log.(posts := s.log.posts + [post]))
  }

  function ShowHead(s: State, head: Request, mode: Mode): State {
    var s1 := s.(lastPending := Some(head), announced := s.announced + {head.id});
    if mode == ReadOnly then Decide(CloseModal(s1), Deny(head.id))
    else if mode == WorkspaceAuto && head.level == Standard then Decide(CloseModal(s1), Allow(head.id, Once))
    else if s1.modal.Some? && s1.modal.value.id == head.id then s1
    else s1.(modal := Some(Modal(head.id, false)))
  }

  function Scoped(pending: seq<Request>, filter: string -> bool): seq<Request> {
    if pending == [] then []
    else if filter(pending[0].session) then [pending[0]] + Scoped(pending[1..], filter)
    else Scoped(pending[1..], filter)
  }

  // --- the steps ---------------------------------------------------------------------------

  /** The list call came back: reset the failure count and resume the interval if it was lost. */
  function OnTransportOk(s: State): State
    requires s.lists > 0
  {
    var s1 := s.(lists := s.lists - 1, failures := 0);
    if s1.polling && !s1.hidden then s1.(timers := StartInterval(s1.timers)) else s1
  }

  function Reconcile(s: State, scoped: seq<Request>, mode: Mode): State {
    if scoped == [] then CloseModal(s).(announced := {}, lastPending := None)
    else ShowHead(s, scoped[0], mode)
  }

  function OnListed(s: State, pending: seq<Request>, mode: Mode, filter: string -> bool): State
    requires s.lists > 0
  {
    Reconcile(OnTransportOk(s), Scoped(pending, filter), mode)
  }

  function OnListFailed(s: State): State
    requires s.lists > 0
  {
    var s1 := s.(lists := s.lists - 1, failures := s.failures + 1);
    if s1.failures < 3 then s1
    else
      var stopped := StopInterval(s1.timers);
      s1.(timers := if s1.polling then ArmBackoff(stopped) else stopped)
  }

  function OnDecided(s: State, k: nat, ok: bool): State
    requires k < |s.posting|
  {
    var told := if ok && s.lastPending.Some?
                then [Notice(s.posting[k].id, s.lastPending.value.id)] else [];
    StartRefresh(s.(posting := s.posting[..k] + s.posting[k+1..], log := s.log.(notices := s.log.notices + told),
                    deciding := false))
  }

  function OnBackoff(s: State, h: nat): State {
    var s1 := s.(timers := BackoffGone(s.timers, h));
    if !s1.polling || s1.hidden then s1 else StartRefresh(s1)
  }

  function OnVisibility(s: State, hidden: bool): State {
    var s1 := s.(hidden := hidden);
    if !s1.polling then s1
    else if hidden then s1.(timers := StopInterval(s1.timers))
    else StartRefresh(s1).(timers := StartInterval(s1.timers))
  }

  function OnStart(s: State): State {
    if s.polling then s
    else
      var s1 := s.(polling := true, paused := false);
      if s1.hidden then s1 else StartRefresh(s1).(timers := StartInterval(s1.timers))
  }

  function OnStop(s: State): State {
    CloseModal(s.(polling := false, timers := ClearBackoff(StopInterval(s.timers))))
  }

  function OnPause(s: State): State {
    s.(paused := true, timers := ClearBackoff(StopInterval(s.timers)))
  }

  function OnResume(s: State): State {
    var s1 := s.(paused := false);
    if !s1.polling || s1.hidden then s1
    else StartRefresh(s1).(failures := 0, timers := StartInterval(ClearBackoff(s1.timers)))
  }

  predicate Clickable(s: State) { s.modal.Some? && !s.modal.value.submitted }

  function OnClick(s: State, post: Post): State
    requires Clickable(s)
  {
    Decide(s.(modal := Some(s.modal.value.(submitted := true))), post)
  }

  /** An event that the host cannot produce in `s` leaves it as it is. */
  function Step(s: State, e: Event, filter: string -> bool): State {
    match e
    case Start => OnStart(s)
    case Stop => OnStop(s)
    case Pause => OnPause(s)
    case Resume => OnResume(s)
    case Refresh => StartRefresh(s)
    case Visibility(hidden) => OnVisibility(s, hidden)
    case Tick(h) => if h in s.timers.clock.intervals then StartRefresh(s) else s
    case BackoffFires(h) => if h in s.timers.clock.timeouts then OnBackoff(s, h) else s
    case Listed(pending, mode) => if s.lists > 0 then OnListed(s, pending, mode, filter) else s
    case ListFailed => if s.lists > 0 then OnListFailed(s) else s
    case Decided(k, ok) => if k < |s.posting| then OnDecided(s, k, ok) else s
    case ClickAllow(scope) => if Clickable(s) then OnClick(s, Allow(s.modal.value.id, scope)) else s
    case ClickDeny => if Clickable(s) then OnClick(s, Deny(s.modal.value.id)) else s
  }

  function Run(s: State, es: seq<Event>, filter: string -> bool): State {
    if es == [] then s
    else Step(Run(s, es[..|es|-1], filter), es[|es|-1], filter)
  }

  lemma {:induction false} RunSplit(s: State, a: seq<Event>, b: seq<Event>, filter: string -> bool)
    ensures Run(s, a + b, filter) == Run(Run(s, a, filter), b, filter)
    decreases |b|
  {
    if b == [] {
      assert a + b == a;
    } else {
      var c := b[..|b|-1];
      RunSplit(s, a, c, filter);
      assert (a + b)[..|a + b|-1] == a + c;
    }
  }

  lemma {:induction false} RunOne(s: State, e: Event, filter: string -> bool)
    ensures Run(s, [e], filter) == Step(s, e, filter)
  {
    assert [e][..0] == [];
    assert Run(s, [], filter) == s;
  }

  // --- what every reachable state keeps ----------------------------------------------------

  function Handles(h: Option<nat>): set<nat> { if h.None? then {} else {h.value} }

  /** Nobody asked the controller to be quiet: it is started, visible and not paused. */
  predicate Awake(s: State) { s.polling && !s.hidden && !s.paused }

  /** The host keeps alive exactly the timers the controller knows of. */
  predicate TimersKnown(t: Timers) {
    t.clock.intervals == Handles(t.interval) && t.clock.timeouts == Handles(t.backoff)
  }

  /** Something that is still to happen will make the controller poll. */
  predicate WakeUpOwed(s: State) {
    s.timers.interval.Some? || s.timers.backoff.Some? || s.lists > 0 || s.deciding
  }

  ghost predicate Inv(s: State) {
    && TimersKnown(s.timers)
    && (s.timers.interval.Some? ==> s.polling && !s.hidden)
    && (s.timers.backoff.Some? ==> s.polling)
    && |s.posting| == (if s.deciding then 1 else 0)
    && (s.modal.Some? ==> s.lastPending.Some? && s.lastPending.value.id == s.modal.value.id)
    && (Awake(s) ==> WakeUpOwed(s))
    && (Awake(s) && s.timers.interval.None? ==> s.failures >= 3)
  }

  lemma {:induction false} DecideKeepsInv(s: State, post: Post)
    requires Inv(s)
    ensures Inv(Decide(s, post))
  {}

  lemma {:induction false} ShowHeadKeepsInv(s: State, head: Request, mode: Mode)
    requires Inv(s)
    ensures Inv(ShowHead(s, head, mode))
  {
    var s1 := CloseModal(s.(lastPending := Some(head), announced := s.announced + {head.id}));
    assert Inv(s1);
    DecideKeepsInv(s1, Deny(head.id));
    DecideKeepsInv(s1, Allow(head.id, Once));
  }

  lemma {:induction false} TimersStayKnown(t: Timers)
    requires TimersKnown(t)
    ensures TimersKnown(StartInterval(t)) && TimersKnown(StopInterval(t))
    ensures TimersKnown(ClearBackoff(t)) && TimersKnown(ArmBackoff(t))
  {}

  lemma {:induction false} TransportOkKeepsInv(s: State)
    requires Inv(s) && s.lists > 0
    ensures Inv(OnTransportOk(s))
  {}

  lemma {:induction false} ReconcileKeepsInv(s: State, scoped: seq<Request>, mode: Mode)
    requires Inv(s)
    ensures Inv(Reconcile(s, scoped, mode))
  {
    if scoped != [] {
      ShowHeadKeepsInv(s, scoped[0], mode);
    }
  }

  lemma {:induction false} ListedKeepsInv(s: State, pending: seq<Request>, mode: Mode, filter: string -> bool)
    requires Inv(s) && s.lists > 0
    ensures Inv(OnListed(s, pending, mode, filter))
  {
    TransportOkKeepsInv(s);
    ReconcileKeepsInv(OnTransportOk(s), Scoped(pending, filter), mode);
  }

  lemma {:induction false} ListFailedKeepsInv(s: State)
    requires Inv(s) && s.lists > 0
    ensures Inv(OnListFailed(s))
    ensures var t := OnListFailed(s);
      t.polling && t.failures >= 3 ==> t.timers.interval.None? && t.timers.backoff.Some?
  {}

  lemma {:induction false} DecidedKeepsInv(s: State, k: nat, ok: bool)
    requires Inv(s) && k < |s.posting|
    ensures Inv(OnDecided(s, k, ok))
  {}

  lemma {:induction false} OnOffKeepsInv(s: State)
    requires Inv(s)
    ensures Inv(OnStart(s)) && Inv(OnStop(s))
  {}

  lemma {:induction false} PauseKeepsInv(s: State)
    requires Inv(s)
    ensures Inv(OnPause(s))
  {}

  lemma {:induction false} ResumeKeepsInv(s: State)
    requires Inv(s)
    ensures Inv(OnResume(s))
    ensures var t := OnResume(s);
      t.polling && !t.hidden ==> t.timers.interval.Some? && t.timers.backoff.None? && t.failures == 0
  {}

  lemma {:induction false} VisibilityKeepsInv(s: State, hidden: bool)
    requires Inv(s)
    ensures Inv(OnVisibility(s, hidden))
  {}

  lemma {:induction false} BackoffKeepsInv(s: State, h: nat)
    requires Inv(s) && h in s.timers.clock.timeouts
    ensures Inv(OnBackoff(s, h))
  {}

  lemma {:induction false} ClickKeepsInv(s: State, post: Post)
    requires Inv(s) && Clickable(s)
    ensures Inv(OnClick(s, post))
  {
    DecideKeepsInv(s.(modal := Some(s.modal.value.(submitted := true))), post);
  }

  lemma {:induction false} StepKeepsInv(s: State, e: Event, filter: string -> bool)
    requires Inv(s)
    ensures Inv(Step(s, e, filter))
  {
    match e {
      case Start => OnOffKeepsInv(s);
      case Stop => OnOffKeepsInv(s);
      case Pause => PauseKeepsInv(s);
      case Resume => ResumeKeepsInv(s);
      case Refresh =>
      case Visibility(hidden) => VisibilityKeepsInv(s, hidden);
      case Tick(h) =>
      case BackoffFires(h) => if h in s.timers.clock.timeouts { BackoffKeepsInv(s, h); }
      case Listed(pending, mode) =>
        if s.lists > 0 { ListedKeepsInv(s, pending, mode, filter); }
      case ListFailed => if s.lists > 0 { ListFailedKeepsInv(s); }
      case Decided(k, ok) => if k < |s.posting| { DecidedKeepsInv(s, k, ok); }
      case ClickAllow(scope) => if Clickable(s) { ClickKeepsInv(s, Allow(s.modal.value.id, scope)); }
      case ClickDeny => if Clickable(s) { ClickKeepsInv(s, Deny(s.modal.value.id)); }
    }
  }

  lemma {:induction false} RunKeepsInv(s: State, es: seq<Event>, filter: string -> bool)
    requires Inv(s)
    ensures Inv(Run(s, es, filter))
  {
    if es != [] {
      RunKeepsInv(s, es[..|es|-1], filter);
      StepKeepsInv(Run(s, es[..|es|-1], filter), es[|es|-1], filter);
    }
  }

  /**
    No wake-up is lost: in every run from a new controller, a started, visible, unpaused
    controller has an interval, a backoff timer, a list call or a decision outstanding, and only
    three consecutive poll failures take its interval away. The host never holds more than the
    one interval and the one timeout the controller knows of, the interval ticks only while
    polling and visible, and at most one decision POST is in flight.
  */
  lemma {:induction false} NoLostWakeUp(hidden: bool, es: seq<Event>, filter: string -> bool)
    ensures var s := Run(Init(hidden), es, filter);
      && (Awake(s) ==> s.timers.interval.Some? || s.timers.backoff.Some? || s.lists > 0 || s.deciding)
      && (Awake(s) && s.timers.interval.None? ==> s.failures >= 3)
      && s.timers.clock.intervals == Handles(s.timers.interval) && s.timers.clock.timeouts == Handles(s.timers.backoff)
      && (s.timers.interval.Some? ==> s.polling && !s.hidden)
      && |s.posting| <= 1 && (s.deciding <==> |s.posting| == 1)
  {
    RunKeepsInv(Init(hidden), es, filter);
  }

  /** The host's own doing: a timer fires or a call settles. No user, tab or app call. */
  predicate IsCompletion(e: Event) {
    e.Tick? || e.BackoffFires? || e.Listed? || e.ListFailed? || e.Decided?
  }

  predicate OnlyCompletions(es: seq<Event>) { forall e <- es :: IsCompletion(e) }

  /** The wake-up that is owed is a real one: at most two completions away there is a new poll. */
  lemma {:induction false} PollWithinTwoCompletions(hidden: bool, es: seq<Event>, filter: string -> bool)
    requires Awake(Run(Init(hidden), es, filter))
    ensures exists next: seq<Event> :: |next| <= 2 && OnlyCompletions(next)
              && Run(Init(hidden), es + next, filter).log.polls > Run(Init(hidden), es, filter).log.polls
  {
    var s := Run(Init(hidden), es, filter);
    RunKeepsInv(Init(hidden), es, filter);
    var next := NextPoll(s, filter);
    RunSplit(Init(hidden), es, next, filter);
  }

  lemma {:induction false} NextPoll(s: State, filter: string -> bool) returns (next: seq<Event>)
    requires Inv(s) && Awake(s)
    ensures |next| <= 2 && OnlyCompletions(next) && Run(s, next, filter).log.polls > s.log.polls
  {
    if !s.deciding && s.timers.interval.None? && s.timers.backoff.None? {
      next := [ListFailed] + [BackoffFires(s.timers.clock.next)];
      RunOne(s, ListFailed, filter);
      RunSplit(s, [ListFailed], [BackoffFires(s.timers.clock.next)], filter);
      RunOne(Step(s, ListFailed, filter), BackoffFires(s.timers.clock.next), filter);
      FailureArms(s);
    } else {
      var e :=
        if s.deciding then Decided(0, false)
        else if s.timers.interval.Some? then Tick(s.timers.interval.value)
        else BackoffFires(s.timers.backoff.value);
      next := [e];
      RunOne(s, e, filter);
    }
  }

  /** Without interval and backoff timer, one more failure arms the backoff timer. */
  lemma {:induction false} FailureArms(s: State)
    requires Inv(s) && Awake(s) && !s.deciding && s.timers.interval.None? && s.timers.backoff.None?
    ensures s.lists > 0 && s.timers.clock.next in OnListFailed(s).timers.clock.timeouts
    ensures OnListFailed(s).log == s.log && Awake(OnListFailed(s)) && !OnListFailed(s).deciding
  {}
}
