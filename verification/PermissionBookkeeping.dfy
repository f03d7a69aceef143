/**
  What the permission controller's counters, callbacks and list calls say, told by the events of a
  run alone: every list call has its reason and its reply, failures are counted in a row, a
  decision is reported once with the right names, and `stop()` leaves nothing behind.
*/
module PermissionBookkeeping {
  import opened Options
  import opened PermissionMachine
  import opened PermissionProperties

  // --- list calls --------------------------------------------------------------------------

  /** In state `s` event `e` asks for a refresh: a command, a live timer, a return to sight, the end of a decision. */
  predicate AsksForList(s: State, e: Event) {
    match e
    case Refresh => !s.deciding
    case Tick(h) => s.timers.interval == Some(h) && !s.deciding
    case BackoffFires(h) => s.timers.backoff == Some(h) && s.polling && !s.hidden && !s.deciding
    case Visibility(hidden) => s.polling && !hidden && !s.deciding
    case Start => !s.polling && !s.hidden && !s.deciding
    case Resume => s.polling && !s.hidden && !s.deciding
    case Decided(k, _) => k < |s.posting|
    case _ => false
  }

  predicate Replies(s: State, e: Event) { (e.Listed? || e.ListFailed?) && s.lists > 0 }

  /** The list calls that the first events of a run asked for, and the replies that came. */
  function Asked(hidden: bool, es: seq<Event>, filter: string -> bool): nat {
    if es == [] then 0
    else
      var before := es[..|es|-1];
      Asked(hidden, before, filter) + if AsksForList(Run(Init(hidden), before, filter), es[|es|-1]) then 1 else 0
  }

  function Answered(hidden: bool, es: seq<Event>, filter: string -> bool): nat {
    if es == [] then 0
    else
      var before := es[..|es|-1];
      Answered(hidden, before, filter) + if Replies(Run(Init(hidden), before, filter), es[|es|-1]) then 1 else 0
  }

  lemma {:induction false} ReconcileCallsNothing(s: State, scoped: seq<Request>, mode: Mode)
    ensures var t := Reconcile(s, scoped, mode);
      t.lists == s.lists && t.log.polls == s.log.polls && t.failures == s.failures && t.log.notices == s.log.notices
  {}

  lemma {:induction false} ListedCallsNothing(s: State, pending: seq<Request>, mode: Mode, filter: string -> bool)
    requires s.lists > 0
    ensures var t := OnListed(s, pending, mode, filter);
      t.lists == s.lists - 1 && t.log.polls == s.log.polls && t.failures == 0 && t.log.notices == s.log.notices
  {
    var s1 := OnTransportOk(s);
    assert s1.lists == s.lists - 1 && s1.log == s.log && s1.failures == 0;
    ReconcileCallsNothing(s1, Scoped(pending, filter), mode);
  }

  lemma {:induction false} StepCalls(s: State, e: Event, filter: string -> bool)
    requires Inv(s)
    ensures var t := Step(s, e, filter);
      var asked, answered := if AsksForList(s, e) then 1 else 0, if Replies(s, e) then 1 else 0;
      t.log.polls == s.log.polls + asked && t.lists + answered == s.lists + asked
  {
    if e.Listed? && s.lists > 0 { ListedCallsNothing(s, e.pending, e.mode, filter); }
  }

  /**
    In every run there is one list call for each event that asks for one, no other, and each is in
    flight until its reply. During a decision only its own end asks.
  */
  lemma {:induction false} ListCallsAreConserved(hidden: bool, es: seq<Event>, filter: string -> bool)
    ensures var s := Run(Init(hidden), es, filter);
      s.log.polls == Asked(hidden, es, filter) && s.log.polls == Answered(hidden, es, filter) + s.lists
  {
    if es != [] {
      ListCallsAreConserved(hidden, es[..|es|-1], filter);
      RunKeepsInv(Init(hidden), es[..|es|-1], filter);
      StepCalls(Run(Init(hidden), es[..|es|-1], filter), es[|es|-1], filter);
    }
  }

  // --- failures in a row -------------------------------------------------------------------

  /** Failed list calls since the last that succeeded, or since polling was resumed. */
  function FailedInARow(hidden: bool, es: seq<Event>, filter: string -> bool): nat {
    if es == [] then 0
    else
      var s, before := Run(Init(hidden), es[..|es|-1], filter), FailedInARow(hidden, es[..|es|-1], filter);
      match es[|es|-1]
      case ListFailed => if s.lists > 0 then before + 1 else before
      case Listed(_, _) => if s.lists > 0 then 0 else before
      case Resume => if s.polling && !s.hidden then 0 else before
      case _ => before
  }

  lemma {:induction false} StepCounts(s: State, e: Event, filter: string -> bool)
    ensures Step(s, e, filter).failures ==
            (if e.ListFailed? && s.lists > 0 then s.failures + 1
             else if (e.Listed? && s.lists > 0) || (e.Resume? && s.polling && !s.hidden) then 0 else s.failures)
  {
    if e.Listed? && s.lists > 0 { ListedCallsNothing(s, e.pending, e.mode, filter); }
  }

  lemma {:induction false} FailuresAreCounted(hidden: bool, es: seq<Event>, filter: string -> bool)
    ensures Run(Init(hidden), es, filter).failures == FailedInARow(hidden, es, filter)
  {
    if es != [] {
      FailuresAreCounted(hidden, es[..|es|-1], filter);
      StepCounts(Run(Init(hidden), es[..|es|-1], filter), es[|es|-1], filter);
    }
  }

  /**
    The third failed list call in a row, and each one after it, stops the interval and leaves one
    retry: the backoff timer of a controller that polls. Before the third nothing changes.
  */
  lemma {:induction false} ThirdFailureBacksOff(hidden: bool, es: seq<Event>, filter: string -> bool)
    requires Run(Init(hidden), es, filter).lists > 0
    ensures var s, t := Run(Init(hidden), es, filter), Run(Init(hidden), es + [ListFailed], filter);
      if FailedInARow(hidden, es, filter) >= 2 then t.timers.interval.None? && (t.timers.backoff.Some? <==> s.polling)
      else t.timers == s.timers
  {
    FailuresAreCounted(hidden, es, filter);
    RunNext(Init(hidden), es, ListFailed, filter);
    RunKeepsInv(Init(hidden), es, filter);
  }

  // --- what is reported and remembered -----------------------------------------------------

  /** The request that the last reply put in front: the first that passes, if one does. */
  function Front(hidden: bool, es: seq<Event>, filter: string -> bool): Option<Request> {
    if es == [] then None
    else
      var e := es[|es|-1];
      if Replies(Run(Init(hidden), es[..|es|-1], filter), e) && e.Listed? then FirstPassing(e.pending, 0, filter)
      else Front(hidden, es[..|es|-1], filter)
  }

  function FirstPassing(pending: seq<Request>, i: nat, filter: string -> bool): (r: Option<Request>)
    requires i <= |pending|
    ensures r.None? ==> forall k | i <= k < |pending| :: !filter(pending[k].session)
    ensures r.Some? ==> exists k | i <= k < |pending| :: pending[k] == r.value && filter(r.value.session)
                                                         && forall j | i <= j < k :: !filter(pending[j].session)
    decreases |pending| - i
  {
    if i == |pending| then None else if filter(pending[i].session) then Some(pending[i]) else FirstPassing(pending, i + 1, filter)
  }

  /** The ids that replies have put in front since the last reply with nothing in it. */
  function Fronts(hidden: bool, es: seq<Event>, filter: string -> bool): set<string> {
    if es == [] then {}
    else
      var e, before := es[|es|-1], Fronts(hidden, es[..|es|-1], filter);
      if Replies(Run(Init(hidden), es[..|es|-1], filter), e) && e.Listed? then
        var r := FirstPassing(e.pending, 0, filter);
        if r.Some? then before + {r.value.id} else {}
      else before
  }

  lemma {:induction false} FrontIsHead(pending: seq<Request>, filter: string -> bool)
    ensures var r := FirstPassing(pending, 0, filter);
      Scoped(pending, filter) == [] <==> r.None?
    ensures var r := FirstPassing(pending, 0, filter); r.Some? ==> Scoped(pending, filter)[0] == r.value
  {
    var r := FirstPassing(pending, 0, filter);
    if r.Some? {
      var k :| 0 <= k < |pending| && pending[k] == r.value && filter(r.value.session)
               && forall j | 0 <= j < k :: !filter(pending[j].session);
      FirstIsHead(pending, k, filter);
    } else {
      NonePassesIsEmpty(pending, filter);
    }
  }

  lemma {:induction false} ReconcileRemembers(s: State, scoped: seq<Request>, mode: Mode)
    ensures var t := Reconcile(s, scoped, mode);
      if scoped == [] then t.lastPending.None? && t.announced == {}
      else t.lastPending == Some(scoped[0]) && t.announced == s.announced + {scoped[0].id}
  {}

  lemma {:induction false} StepRemembers(s: State, e: Event, filter: string -> bool)
    ensures var t := Step(s, e, filter);
      var r := if e.Listed? then FirstPassing(e.pending, 0, filter) else None;
      if e.Listed? && s.lists > 0 then t.lastPending == r && t.announced == (if r.Some? then s.announced + {r.value.id} else {})
      else t.lastPending == s.lastPending && t.announced == s.announced
  {
    if e.Listed? && s.lists > 0 {
      FrontIsHead(e.pending, filter);
      var s1 := OnTransportOk(s);
      assert s1.announced == s.announced;
      ReconcileRemembers(s1, Scoped(e.pending, filter), e.mode);
    }
  }

  /** The controller remembers the request in front, and has announced those put in front since the list was last empty. */
  lemma {:induction false} RemembersTheFront(hidden: bool, es: seq<Event>, filter: string -> bool)
    ensures var s := Run(Init(hidden), es, filter);
      s.lastPending == Front(hidden, es, filter) && s.announced == Fronts(hidden, es, filter)
  {
    if es != [] {
      RemembersTheFront(hidden, es[..|es|-1], filter);
      StepRemembers(Run(Init(hidden), es[..|es|-1], filter), es[|es|-1], filter);
    }
  }

  /** The POST in flight is the last one that was sent. */
  predicate InFlightIsLast(s: State) {
    s.posting != [] ==> |s.posting| == 1 && s.log.posts != [] && s.posting[0] == s.log.posts[|s.log.posts|-1]
  }

  lemma {:induction false} DecideKeepsInFlight(s: State, post: Post)
    requires InFlightIsLast(s) && (s.posting == [] <==> !s.deciding)
    ensures InFlightIsLast(Decide(s, post))
  {}

  lemma {:induction false} ReconcileKeepsInFlight(s: State, scoped: seq<Request>, mode: Mode)
    requires InFlightIsLast(s) && (s.posting == [] <==> !s.deciding)
    ensures InFlightIsLast(Reconcile(s, scoped, mode))
  {
    if scoped != [] {
      var head := scoped[0];
      var s1 := CloseModal(s.(lastPending := Some(head), announced := s.announced + {head.id}));
      DecideKeepsInFlight(s1, Deny(head.id));
      DecideKeepsInFlight(s1, Allow(head.id, Once));
    }
  }

  lemma {:induction false} StepKeepsInFlight(s: State, e: Event, filter: string -> bool)
    requires Inv(s) && InFlightIsLast(s)
    ensures InFlightIsLast(Step(s, e, filter))
  {
    match e {
      case Listed(pending, mode) =>
        if s.lists > 0 {
          TransportOkIsNeutral(s);
          ReconcileKeepsInFlight(OnTransportOk(s), Scoped(pending, filter), mode);
        }
      case ClickAllow(scope) =>
        if Clickable(s) { DecideKeepsInFlight(s.(modal := Some(s.modal.value.(submitted := true))), Allow(s.modal.value.id, scope)); }
      case ClickDeny =>
        if Clickable(s) { DecideKeepsInFlight(s.(modal := Some(s.modal.value.(submitted := true))), Deny(s.modal.value.id)); }
      case _ =>
    }
  }

  lemma {:induction false} RunKeepsInFlight(hidden: bool, es: seq<Event>, filter: string -> bool)
    ensures InFlightIsLast(Run(Init(hidden), es, filter))
  {
    if es != [] {
      RunKeepsInFlight(hidden, es[..|es|-1], filter);
      RunKeepsInv(Init(hidden), es[..|es|-1], filter);
      StepKeepsInFlight(Run(Init(hidden), es[..|es|-1], filter), es[|es|-1], filter);
    }
  }

  lemma {:induction false} DecisionEnds(s: State, ok: bool, filter: string -> bool)
    requires |s.posting| == 1 && s.deciding
    ensures var t := Step(s, Decided(0, ok), filter);
      && t.log.notices == s.log.notices
                          + (if ok && s.lastPending.Some? then [Notice(s.posting[0].id, s.lastPending.value.id)] else [])
      && !t.deciding && t.posting == [] && t.log.posts == s.log.posts && t.log.polls == s.log.polls + 1
  {}

  /**
    When a decision ends well it is reported once, as the outcome of the last POST, under the name
    of the request that is in front by then, unless none is; a failed one is not reported. Either
    way the controller is free again and asks for the list.
  */
  lemma {:induction false} DecisionIsReported(hidden: bool, es: seq<Event>, ok: bool, filter: string -> bool)
    requires Run(Init(hidden), es, filter).deciding
    ensures var s, t := Run(Init(hidden), es, filter), Run(Init(hidden), es + [Decided(0, ok)], filter);
      var front := Front(hidden, es, filter);
      && s.log.posts != []
      && t.log.notices == s.log.notices
                          + (if ok && front.Some? then [Notice(s.log.posts[|s.log.posts|-1].id, front.value.id)] else [])
      && !t.deciding && t.posting == [] && t.log.posts == s.log.posts && t.log.polls == s.log.polls + 1
  {
    RunKeepsInv(Init(hidden), es, filter);
    RunKeepsInFlight(hidden, es, filter);
    RemembersTheFront(hidden, es, filter);
    RunNext(Init(hidden), es, Decided(0, ok), filter);
    DecisionEnds(Run(Init(hidden), es, filter), ok, filter);
  }

  /** Nothing else reports a decision. */
  lemma {:induction false} OnlyDecisionsReport(s: State, e: Event, filter: string -> bool)
    requires !e.Decided?
    ensures Step(s, e, filter).log.notices == s.log.notices
  {
    if e.Listed? && s.lists > 0 { ListedCallsNothing(s, e.pending, e.mode, filter); }
  }

  // --- stop --------------------------------------------------------------------------------

  /** Switched off: no dialog, no timer, on either side. */
  predicate Off(s: State) {
    && !s.polling && s.modal.None?
    && s.timers.interval.None? && s.timers.backoff.None? && s.timers.clock.intervals == {} && s.timers.clock.timeouts == {}
  }

  lemma {:induction false} OffStaysOff(s: State, es: seq<Event>, filter: string -> bool)
    requires Off(s) && forall e <- es :: !e.Start? && !e.Listed?
    ensures Off(Run(s, es, filter))
  {
    if es != [] {
      assert es[|es|-1] in es;
      OffStaysOff(s, es[..|es|-1], filter);
    }
  }

  /** After `stop()` there is no dialog and no timer, and none comes back before a `start()` or a list reply. */
  lemma {:induction false} StopLeavesNothing(hidden: bool, es: seq<Event>, rest: seq<Event>, filter: string -> bool)
    requires forall e <- rest :: !e.Start? && !e.Listed?
    ensures Off(Run(Init(hidden), es + [Stop] + rest, filter))
  {
    RunKeepsInv(Init(hidden), es, filter);
    RunNext(Init(hidden), es, Stop, filter);
    RunSplit(Init(hidden), es + [Stop], rest, filter);
    OffStaysOff(Run(Init(hidden), es + [Stop], filter), rest, filter);
  }
}
