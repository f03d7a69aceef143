/**
  What the permission controller's runs promise about decisions: where every POST comes from,
  which clicks are answered, what `onDecision` is told and how quiet `pause()` is.
*/
module PermissionProperties {
  import opened Options
  import opened PermissionMachine

  // --- every POST has a cause --------------------------------------------------------------

  /** A reply whose first request passing the session filter is `r`. */
  ghost predicate Heads(s: State, e: Event, r: Request, filter: string -> bool) {
    e.Listed? && s.lists > 0 && Scoped(e.pending, filter) != [] && Scoped(e.pending, filter)[0] == r
  }

  /** The mode leaves the decision about `r` to the user. */
  predicate Asks(mode: Mode, r: Request) {
    mode == Ask || (mode == WorkspaceAuto && r.level == Elevated)
  }

  /** The reply puts a dialog for `id` in front of the user. */
  ghost predicate Opens(s: State, e: Event, id: string, filter: string -> bool) {
    exists r :: Heads(s, e, r, filter) && r.id == id && Asks(e.mode, r)
  }

  ghost predicate ClickCauses(s: State, e: Event, post: Post) {
    Clickable(s) && s.modal.value.id == post.id
    && match post
       case Allow(_, scope) => e == ClickAllow(scope)
       case Deny(_) => e == ClickDeny
  }

  /** Only a standard request is ever allowed without a click, only once, only in that mode. */
  ghost predicate ModeCauses(s: State, e: Event, post: Post, filter: string -> bool) {
    exists r :: Heads(s, e, r, filter) && r.id == post.id
      && match post
         case Allow(_, scope) => e.mode == WorkspaceAuto && r.level == Standard && scope == Once
         case Deny(_) => e.mode == ReadOnly
  }

  lemma {:induction false} ReconcilePosts(s: State, scoped: seq<Request>, mode: Mode)
    ensures var t := Reconcile(s, scoped, mode);
      t.log.posts == s.log.posts
      || (scoped != [] && !s.deciding
          && ((mode == ReadOnly && t.log.posts == s.log.posts + [Deny(scoped[0].id)])
              || (mode == WorkspaceAuto && scoped[0].level == Standard
                  && t.log.posts == s.log.posts + [Allow(scoped[0].id, Once)])))
  {}

  lemma {:induction false} StepPosts(s: State, e: Event, filter: string -> bool)
    ensures var t := Step(s, e, filter);
      t.log.posts == s.log.posts
      || (!s.deciding && |t.log.posts| == |s.log.posts| + 1 && t.log.posts[..|s.log.posts|] == s.log.posts
          && (ClickCauses(s, e, t.log.posts[|s.log.posts|]) || ModeCauses(s, e, t.log.posts[|s.log.posts|], filter)))
  {
    if e.Listed? && s.lists > 0 {
      var scoped := Scoped(e.pending, filter);
      ReconcilePosts(OnTransportOk(s), scoped, e.mode);
      if scoped != [] { assert Heads(s, e, scoped[0], filter); }
    }
  }

  lemma {:induction false} ReconcileModal(s: State, scoped: seq<Request>, mode: Mode)
    ensures var t := Reconcile(s, scoped, mode);
      t.modal.Some? ==>
        scoped != [] && t.modal.value.id == scoped[0].id && Asks(mode, scoped[0])
        && (t.modal == s.modal || !t.modal.value.submitted)
  {}

  lemma {:induction false} StepModal(s: State, e: Event, filter: string -> bool)
    ensures var t := Step(s, e, filter);
      t.modal.Some? ==> Opens(s, e, t.modal.value.id, filter)
                        || (s.modal.Some? && s.modal.value.id == t.modal.value.id)
  {
    if e.Listed? && s.lists > 0 {
      var scoped := Scoped(e.pending, filter);
      ReconcileModal(OnTransportOk(s), scoped, e.mode);
      if scoped != [] { assert Heads(s, e, scoped[0], filter); }
    }
  }

  /** An open dialog was opened, earlier in the run, by a reply headed by its request. */
  lemma {:induction false} ModalWasOpened(hidden: bool, es: seq<Event>, filter: string -> bool) returns (j: nat)
    requires Run(Init(hidden), es, filter).modal.Some?
    ensures j < |es|
    ensures Opens(Run(Init(hidden), es[..j], filter), es[j],
                  Run(Init(hidden), es, filter).modal.value.id, filter)
  {
    var last := |es| - 1;
    var s := Run(Init(hidden), es[..last], filter);
    StepModal(s, es[last], filter);
    if Opens(s, es[last], Run(Init(hidden), es, filter).modal.value.id, filter) {
      j := last;
    } else {
      j := ModalWasOpened(hidden, es[..last], filter);
      assert es[..last][..j] == es[..j];
    }
  }

  /**
    Every POST has a cause. The `p`-th POST of a run was sent by event `k`, at a moment with no
    other decision in flight: either the user pressed that very button in a dialog that reply `j`
    had opened for that request, or a reply headed by the request arrived in a mode that decides
    it alone. So an elevated request is never allowed without a click.
  */
  lemma {:induction false} EveryPostHasCause(hidden: bool, es: seq<Event>, filter: string -> bool, p: nat)
    returns (k: nat, j: nat)
    requires p < |Run(Init(hidden), es, filter).log.posts|
    ensures k < |es| && !Run(Init(hidden), es[..k], filter).deciding
    ensures |Run(Init(hidden), es[..k], filter).log.posts| == p
    ensures var post := Run(Init(hidden), es, filter).log.posts[p];
      var s := Run(Init(hidden), es[..k], filter);
      ModeCauses(s, es[k], post, filter)
      || (ClickCauses(s, es[k], post) && j < k
          && Opens(Run(Init(hidden), es[..j], filter), es[j], post.id, filter))
  {
    var last := |es| - 1;
    var s := Run(Init(hidden), es[..last], filter);
    StepPosts(s, es[last], filter);
    if p < |s.log.posts| {
      k, j := EveryPostHasCause(hidden, es[..last], filter, p);
      assert es[..last][..k] == es[..k];
      if j < k { assert es[..last][..j] == es[..j]; }
    } else {
      k, j := last, 0;
      if ClickCauses(s, es[k], Run(Init(hidden), es, filter).log.posts[p]) {
        j := ModalWasOpened(hidden, es[..last], filter);
        assert es[..last][..j] == es[..j];
      }
    }
  }

  // --- what a reply leads to ---------------------------------------------------------------

  /** The `i`-th pending request is the first one whose session passes the filter. */
  predicate IsFirst(pending: seq<Request>, i: nat, filter: string -> bool) {
    i < |pending| && filter(pending[i].session) && forall k | 0 <= k < i :: !filter(pending[k].session)
  }

  lemma {:induction false} FirstIsHead(pending: seq<Request>, i: nat, filter: string -> bool)
    requires IsFirst(pending, i, filter)
    ensures Scoped(pending, filter) != [] && Scoped(pending, filter)[0] == pending[i]
  {
    if i > 0 {
      assert !filter(pending[0].session);
      FirstIsHead(pending[1..], i - 1, filter);
    }
  }

  lemma {:induction false} NonePassesIsEmpty(pending: seq<Request>, filter: string -> bool)
    requires forall r <- pending :: !filter(r.session)
    ensures Scoped(pending, filter) == []
  {
    if pending != [] {
      assert pending[0] in pending;
      NonePassesIsEmpty(pending[1..], filter);
    }
  }

  /** `post` is sent, unless a decision is in flight; no dialog is open afterwards. */
  predicate AnswersAlone(s: State, t: State, post: Post) {
    && t.modal.None?
    && (if s.deciding then t.log.posts == s.log.posts && t.posting == s.posting && t.deciding
        else t.log.posts == s.log.posts + [post] && t.posting == s.posting + [post] && t.deciding)
  }

  /** Nothing is sent; the dialog for `id` is open, as it was or with its buttons ready. */
  predicate AsksTheUser(s: State, t: State, id: string) {
    && t.log.posts == s.log.posts && t.posting == s.posting && t.deciding == s.deciding
    && t.modal == (if s.modal.Some? && s.modal.value.id == id then s.modal else Some(Modal(id, false)))
  }

  lemma {:induction false} RunNext(s: State, es: seq<Event>, e: Event, filter: string -> bool)
    ensures Run(s, es + [e], filter) == Step(Run(s, es, filter), e, filter)
  {
    assert (es + [e])[..|es|] == es;
  }

  /** What the first request `r` that passes the filter leads to. */
  predicate ActedOn(s: State, t: State, r: Request, mode: Mode) {
    && t.lastPending == Some(r)
    && match mode
       case ReadOnly => AnswersAlone(s, t, Deny(r.id))
       case WorkspaceAuto =>
         if r.level == Standard then AnswersAlone(s, t, Allow(r.id, Once)) else AsksTheUser(s, t, r.id)
       case Ask => AsksTheUser(s, t, r.id)
  }

  lemma {:induction false} ReconcileActs(s: State, scoped: seq<Request>, mode: Mode)
    requires scoped != []
    ensures ActedOn(s, Reconcile(s, scoped, mode), scoped[0], mode)
  {}

  lemma {:induction false} TransportOkIsNeutral(s: State)
    requires s.lists > 0
    ensures var t := OnTransportOk(s);
      t.modal == s.modal && t.log == s.log && t.posting == s.posting && t.deciding == s.deciding
  {}

  /**
    Every reply is acted on, in every state of every run. For the first request that passes the
    session filter: in read-only mode it is denied and in the automatic mode a standard one is
    allowed once, each time without a dialog; in all other cases its dialog is open. Only a
    decision already in flight keeps the answer back; what is remembered is that request.
  */
  lemma {:induction false} ReplyIsActedOn(hidden: bool, es: seq<Event>, pending: seq<Request>, mode: Mode, i: nat, filter: string -> bool)
    requires Run(Init(hidden), es, filter).lists > 0 && IsFirst(pending, i, filter)
    ensures ActedOn(Run(Init(hidden), es, filter), Run(Init(hidden), es + [Listed(pending, mode)], filter), pending[i], mode)
  {
    FirstIsHead(pending, i, filter);
    RunNext(Init(hidden), es, Listed(pending, mode), filter);
    var s := Run(Init(hidden), es, filter);
    TransportOkIsNeutral(s);
    ReconcileActs(OnTransportOk(s), Scoped(pending, filter), mode);
  }

  /** A reply without a request that passes closes the dialog, sends nothing and forgets the last request. */
  lemma {:induction false} EmptyReplyClosesDialog(hidden: bool, es: seq<Event>, pending: seq<Request>, mode: Mode, filter: string -> bool)
    requires Run(Init(hidden), es, filter).lists > 0 && forall r <- pending :: !filter(r.session)
    ensures var s := Run(Init(hidden), es, filter);
      var t := Run(Init(hidden), es + [Listed(pending, mode)], filter);
      t.modal.None? && t.lastPending.None? && t.log.posts == s.log.posts && t.posting == s.posting && t.deciding == s.deciding
  {
    NonePassesIsEmpty(pending, filter);
    RunNext(Init(hidden), es, Listed(pending, mode), filter);
    TransportOkIsNeutral(Run(Init(hidden), es, filter));
  }

  // --- which clicks are answered -----------------------------------------------------------

  /** The click that asks for `post`. */
  function ClickFor(post: Post): Event {
    match post
    case Allow(_, scope) => ClickAllow(scope)
    case Deny(_) => ClickDeny
  }

  /** A click on either button is turned into a POST exactly when no decision is in flight. */
  lemma {:induction false} ClickIsPostedIff(s: State, post: Post, filter: string -> bool)
    requires Clickable(s) && post.id == s.modal.value.id
    ensures !s.deciding <==> Step(s, ClickFor(post), filter).log.posts == s.log.posts + [post]
    ensures s.deciding ==> Step(s, ClickFor(post), filter).log.posts == s.log.posts
  {
    assert |s.log.posts + [post]| != |s.log.posts|;
  }

  /** The controller keeps running and `id` stays the head of a queue the user must decide. */
  ghost predicate StaysPending(e: Event, id: string, filter: string -> bool) {
    !e.Stop? && (e.Listed? ==> Scoped(e.pending, filter) != [] && Scoped(e.pending, filter)[0].id == id
                               && Asks(e.mode, Scoped(e.pending, filter)[0]))
  }

  lemma {:induction false} StuckStep(s: State, e: Event, id: string, filter: string -> bool)
    requires s.modal == Some(Modal(id, true)) && StaysPending(e, id, filter)
    ensures Step(s, e, filter).modal == s.modal && Step(s, e, filter).log.posts == s.log.posts
  {
    if e.Listed? && s.lists > 0 {
      StuckReconcile(OnTransportOk(s), Scoped(e.pending, filter), e.mode, id);
    }
  }

  lemma {:induction false} StuckReconcile(s: State, scoped: seq<Request>, mode: Mode, id: string)
    requires s.modal == Some(Modal(id, true)) && scoped != [] && scoped[0].id == id && Asks(mode, scoped[0])
    ensures Reconcile(s, scoped, mode).modal == s.modal && Reconcile(s, scoped, mode).log.posts == s.log.posts
  {}

  /**
    A click made while a decision is in flight is lost, and for good: as long as the request
    stays at the head of the queue and the controller is not stopped, its dialog stays open with
    its buttons spent, and no POST is ever sent again.
  */
  lemma {:induction false} SwallowedClickSticks(s: State, click: Event, cs: seq<Event>, filter: string -> bool)
    requires Clickable(s) && s.deciding && (click.ClickAllow? || click.ClickDeny?)
    requires forall e <- cs :: StaysPending(e, s.modal.value.id, filter)
    ensures Run(Step(s, click, filter), cs, filter).modal == Some(Modal(s.modal.value.id, true))
    ensures Run(Step(s, click, filter), cs, filter).log.posts == s.log.posts
  {
    if cs != [] {
      var last := |cs| - 1;
      SwallowedClickSticks(s, click, cs[..last], filter);
      assert cs[last] in cs;
      StuckStep(Run(Step(s, click, filter), cs[..last], filter), cs[last], s.modal.value.id, filter);
    }
  }

  /** Such a moment arises when a list call is in flight at a click: its late reply reopens the dialog. */
  lemma {:induction false} LateReplyReopens(s: State, r: Request, scope: Scope, filter: string -> bool)
    requires Clickable(s) && !s.deciding && s.lists > 0 && filter(r.session)
    ensures var t := Step(Step(s, ClickAllow(scope), filter), Listed([r], Ask), filter);
      Clickable(t) && t.deciding && t.modal.value.id == r.id
  {
    assert Scoped([r], filter) == [r] by { assert Scoped([r][1..], filter) == []; }
    var s1 := Step(s, ClickAllow(scope), filter);
    assert s1.deciding && s1.lists > 0 && s1.modal.None?;
    var s2 := OnTransportOk(s1);
    assert s2.deciding && s2.modal.None?;
  }

  lemma {:induction false} ClickWithListInFlightIsReachable(r: Request, filter: string -> bool)
    requires filter(r.session)
    ensures var s := Run(Init(false), [Start, Listed([r], Ask), Tick(0)], filter);
      Clickable(s) && !s.deciding && s.lists > 0
  {
    assert Scoped([r], filter) == [r] by { assert Scoped([r][1..], filter) == []; }
    var es := [Start, Listed([r], Ask), Tick(0)];
    RunOne(Init(false), es[0], filter);
    RunSnoc(Init(false), es, 1, filter);
    RunSnoc(Init(false), es, 2, filter);
    assert es[..1] == [Start] && es[..3] == es;
  }

  lemma {:induction false} RunSnoc(s: State, es: seq<Event>, k: nat, filter: string -> bool)
    requires k < |es|
    ensures Run(s, es[..k+1], filter) == Step(Run(s, es[..k], filter), es[k], filter)
  {
    assert es[..k+1][..k] == es[..k];
  }

  // --- what onDecision is told -------------------------------------------------------------

  ghost predicate NoDecision(cs: seq<Event>) { forall e <- cs :: !e.Decided? }

  /** If the decision settled now, `onDecision` would be told the request that was posted. */
  ghost predicate WouldNamePosted(t: State, id: string) {
    t.posting != [] && OnDecided(t, 0, true).log.notices == t.log.notices + [Notice(id, id)]
  }

  lemma {:induction false} QuietDecisionStep(s: State, e: Event, filter: string -> bool)
    requires s.deciding && s.lists == 0 && !e.Decided?
    ensures var t := Step(s, e, filter);
      t.deciding && t.lists == 0 && t.lastPending == s.lastPending && t.posting == s.posting
  {}

  lemma {:induction false} QuietDecisionKeepsName(s: State, cs: seq<Event>, filter: string -> bool)
    requires s.deciding && s.lists == 0 && NoDecision(cs)
    ensures var t := Run(s, cs, filter);
      t.deciding && t.lists == 0 && t.lastPending == s.lastPending && t.posting == s.posting
  {
    if cs != [] {
      var last := |cs| - 1;
      QuietDecisionKeepsName(s, cs[..last], filter);
      assert cs[last] in cs;
      QuietDecisionStep(Run(s, cs[..last], filter), cs[last], filter);
    }
  }

  lemma {:induction false} PostNamesLastPending(s: State, e: Event, filter: string -> bool)
    requires Inv(s) && !s.deciding && Step(s, e, filter).deciding
    ensures var t := Step(s, e, filter);
      |t.posting| == 1 && t.lastPending.Some? && t.lastPending.value.id == t.posting[0].id
  {
    if e.Listed? && s.lists > 0 {
      TransportOkKeepsInv(s);
      ReconcileNames(OnTransportOk(s), Scoped(e.pending, filter), e.mode);
    }
  }

  lemma {:induction false} ReconcileNames(s: State, scoped: seq<Request>, mode: Mode)
    requires Inv(s) && !s.deciding && Reconcile(s, scoped, mode).deciding
    ensures var t := Reconcile(s, scoped, mode);
      |t.posting| == 1 && t.lastPending.Some? && t.lastPending.value.id == t.posting[0].id
  {}

  /**
    `onDecision` names the request that was posted in every continuation exactly when no list
    call was in flight at the moment of the POST. Otherwise a late reply replaces or clears the
    remembered request first.
  */
  lemma {:induction false} NamesPostedIff(hidden: bool, es: seq<Event>, e: Event, filter: string -> bool)
    requires !Run(Init(hidden), es, filter).deciding
    requires Step(Run(Init(hidden), es, filter), e, filter).deciding
    ensures var s := Step(Run(Init(hidden), es, filter), e, filter);
      s.posting != []
      && (s.lists == 0 <==>
          forall cs: seq<Event> :: NoDecision(cs) ==> WouldNamePosted(Run(s, cs, filter), s.posting[0].id))
  {
    RunKeepsInv(Init(hidden), es, filter);
    var s0 := Run(Init(hidden), es, filter);
    var s := Step(s0, e, filter);
    PostNamesLastPending(s0, e, filter);
    var id := s.posting[0].id;
    if s.lists == 0 {
      forall cs: seq<Event> | NoDecision(cs) ensures WouldNamePosted(Run(s, cs, filter), id) {
        QuietDecisionKeepsName(s, cs, filter);
      }
    } else {
      var cs := [Listed([], Ask)];
      RunOne(s, cs[0], filter);
      var t := Run(s, cs, filter);
      assert t.lastPending.None?;
      assert !WouldNamePosted(t, id) by {
        assert |t.log.notices + [Notice(id, id)]| == |t.log.notices| + 1;
        if t.posting != [] { assert OnDecided(t, 0, true).log.notices == t.log.notices + []; }
      }
      assert NoDecision(cs);
    }
  }

  // --- how quiet pause() is ----------------------------------------------------------------

  ghost predicate Quiet(s: State, t: State) { t.log.polls == s.log.polls && t.timers.interval.None? }

  lemma {:induction false} NothingOutstandingIsQuiet(s: State, cs: seq<Event>, filter: string -> bool)
    requires Inv(s) && s.timers.interval.None? && s.timers.backoff.None? && s.lists == 0 && !s.deciding
    requires OnlyCompletions(cs)
    ensures Run(s, cs, filter) == s
  {
    if cs != [] {
      var last := |cs| - 1;
      NothingOutstandingIsQuiet(s, cs[..last], filter);
      assert cs[last] in cs && IsCompletion(cs[last]);
    }
  }

  /** No session of a list reply passes the filter, so no reply shows or decides anything. */
  ghost predicate FiltersAll(filter: string -> bool) { forall x: string :: !filter(x) }

  lemma {:induction false} FiltersAllScopes(pending: seq<Request>, filter: string -> bool)
    requires FiltersAll(filter)
    ensures Scoped(pending, filter) == []
  {
    if pending != [] { FiltersAllScopes(pending[1..], filter); }
  }

  /** Hidden or not started, with no decision in flight and none that a reply could start. */
  ghost predicate Muted(s: State) {
    Inv(s) && s.timers.interval.None? && !s.deciding && (s.hidden || !s.polling)
  }

  lemma {:induction false} MutedStep(s: State, e: Event, filter: string -> bool)
    requires Muted(s) && IsCompletion(e) && FiltersAll(filter)
    ensures Muted(Step(s, e, filter)) && Step(s, e, filter).log.polls == s.log.polls
  {
    StepKeepsInv(s, e, filter);
    if e.Listed? { FiltersAllScopes(e.pending, filter); }
  }

  lemma {:induction false} MutedStaysQuiet(s: State, cs: seq<Event>, filter: string -> bool)
    requires Muted(s) && OnlyCompletions(cs) && FiltersAll(filter)
    ensures Muted(Run(s, cs, filter)) && Quiet(s, Run(s, cs, filter))
  {
    if cs != [] {
      var last := |cs| - 1;
      MutedStaysQuiet(s, cs[..last], filter);
      assert cs[last] in cs && IsCompletion(cs[last]);
      MutedStep(Run(s, cs[..last], filter), cs[last], filter);
    }
  }

  /** A late reply can still start a decision, whose own completion polls. */
  lemma {:induction false} ReplyThenDecisionPolls(s: State, x: string, filter: string -> bool)
    requires Inv(s) && !s.deciding && s.lists > 0 && filter(x)
    ensures var cs := [Listed([Request("", x, Standard)], ReadOnly)] + [Decided(0, true)];
      OnlyCompletions(cs) && Run(s, cs, filter).log.polls > s.log.polls
  {
    var r := Request("", x, Standard);
    var reply, settled := Listed([r], ReadOnly), Decided(0, true);
    assert Scoped([r], filter) == [r] by { assert Scoped([r][1..], filter) == []; }
    RunOne(s, reply, filter);
    RunSplit(s, [reply], [settled], filter);
    var t := Step(s, reply, filter);
    assert t.deciding && |t.posting| == 1 && t.log.polls == s.log.polls;
    RunOne(t, settled, filter);
  }

  /** What makes a paused controller quiet. */
  ghost predicate StaysQuiet(s: State, filter: string -> bool) {
    !s.deciding && (s.lists == 0 || ((s.hidden || !s.polling) && FiltersAll(filter)))
  }

  lemma {:induction false} NotQuiet(s: State, filter: string -> bool) returns (cs: seq<Event>)
    requires Inv(s) && s.timers.interval.None? && !StaysQuiet(s, filter)
    ensures OnlyCompletions(cs) && !Quiet(s, Run(s, cs, filter))
  {
    if s.deciding {
      cs := [Decided(0, true)];
      RunOne(s, cs[0], filter);
    } else if s.polling && !s.hidden {
      cs := [Listed([], Ask)];
      RunOne(s, cs[0], filter);
    } else {
      var x :| filter(x);
      ReplyThenDecisionPolls(s, x, filter);
      cs := [Listed([Request("", x, Standard)], ReadOnly)] + [Decided(0, true)];
    }
  }

  /**
    After `pause()`, in every reachable state, the host's completions stay silent (no poll, no
    interval) exactly when no decision was in flight, and either no list call was, or the
    controller is hidden or not started and the filter lets no session through. A late list reply
    restarts the interval of a visible controller; in a mode that decides by itself it starts a
    decision; and every decision that settles polls again.
  */
  lemma {:induction false} PauseIsQuietIff(hidden: bool, es: seq<Event>, filter: string -> bool)
    ensures var s := Step(Run(Init(hidden), es, filter), Pause, filter);
      StaysQuiet(s, filter) <==> forall cs: seq<Event> :: OnlyCompletions(cs) ==> Quiet(s, Run(s, cs, filter))
  {
    RunKeepsInv(Init(hidden), es, filter);
    var s0 := Run(Init(hidden), es, filter);
    StepKeepsInv(s0, Pause, filter);
    var s := Step(s0, Pause, filter);
    assert s.timers.interval.None? && s.timers.backoff.None?;
    if StaysQuiet(s, filter) {
      forall cs: seq<Event> | OnlyCompletions(cs) ensures Quiet(s, Run(s, cs, filter)) {
        if s.lists == 0 {
          NothingOutstandingIsQuiet(s, cs, filter);
        } else {
          MutedStaysQuiet(s, cs, filter);
        }
      }
    } else {
      var cs := NotQuiet(s, filter);
    }
  }
}
