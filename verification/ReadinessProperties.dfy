/**
  What the readiness controller's runs promise: it never stalls, `ready` is honest and final,
  delays grow up to the cap, and when `retry()` really starts over.
*/
module ReadinessProperties {
  import opened Options
  import opened ReadinessMachine

  lemma {:induction false} RunOne(s: State, e: Event, b: Backoff)
    ensures Run(s, [e], b) == Step(s, e, b)
  {
    assert [e][..0] == [];
    assert Run(s, [], b) == s;
  }

  // --- progress ----------------------------------------------------------------------------

  /**
    A started controller is always trying, about to try again, or has said `ready`. At most one
    probe and one timer exist, and no delay exceeds the cap.
  */
  lemma {:induction false} NeverStalls(es: seq<Event>, b: Backoff)
    ensures var s := Run(Init(), es, b);
      && (s.started ==> s.inFlight || s.timers.pending.Some? || LastIsReady(s))
      && |s.probes| <= 1 && (s.inFlight <==> |s.probes| == 1)
      && s.timers.live.Keys == (if s.timers.pending.Some? then {s.timers.pending.value} else {})
      && (forall h <- s.timers.live :: s.timers.live[h] <= b.maxMs)
  {
    RunKeepsInv(es, b);
  }

  predicate IsCompletion(e: Event) { !e.Start? && !e.Retry? && !e.Stop? }

  /** From every reachable started state at most three completions lead to a fresh `ready`. */
  lemma {:induction false} ReadyStaysReachable(es: seq<Event>, b: Backoff) returns (next: seq<Event>)
    requires Run(Init(), es, b).started
    ensures |next| <= 3 && forall e <- next :: IsCompletion(e)
    ensures LastIsReady(Run(Run(Init(), es, b), next, b))
  {
    RunKeepsInv(es, b);
    var s := Run(Init(), es, b);
    if s.inFlight {
      next := FinishProbe(s, b);
    } else if s.timers.pending.Some? {
      var fire := Fires(s.timers.pending.value);
      var t := Step(s, fire, b);
      var rest := FinishProbe(t, b);
      next := [fire] + rest;
      RunPrefix(s, fire, rest, b);
    } else {
      next := [];
    }
  }

  lemma {:induction false} FinishProbe(s: State, b: Backoff) returns (next: seq<Event>)
    requires s.inFlight && |s.probes| == 1 && !s.disposed
    ensures |next| <= 2 && forall e <- next :: IsCompletion(e)
    ensures LastIsReady(Run(s, next, b))
  {
    if s.probes[0].AwaitHealth? {
      next := [HealthOk(0)];
      RunOne(s, HealthOk(0), b);
    } else {
      var t := Step(s, BootstrapGot(0, true), b);
      assert t.probes == [AwaitHealth(s.probes[0].handshake)];
      next := [BootstrapGot(0, true)] + [HealthOk(0)];
      RunPrefix(s, BootstrapGot(0, true), [HealthOk(0)], b);
      RunOne(t, HealthOk(0), b);
    }
  }

  lemma {:induction false} RunPrefix(s: State, e: Event, es: seq<Event>, b: Backoff)
    ensures Run(s, [e] + es, b) == Run(Step(s, e, b), es, b)
  {
    if es == [] {
      assert [e] + es == [e];
      RunOne(s, e, b);
    } else {
      var init, last := es[..|es|-1], es[|es|-1];
      RunPrefix(s, e, init, b);
      assert [e] + es == [e] + init + [last] && es == init + [last];
      RunNext(s, [e] + init, last, b);
      RunNext(Step(s, e, b), init, last, b);
    }
  }

  // --- honesty -----------------------------------------------------------------------------

  lemma {:induction false} StartProbePhases(s: State)
    ensures var t := StartProbe(s);
      t.log.phases == s.log.phases || exists p: Phase :: !p.Ready? && t.log.phases == s.log.phases + [p]
  {
    assert s.client.Some? ==> !Connecting(s.attempt + 1).Ready?;
    assert !Starting.Ready?;
  }

  lemma {:induction false} StepPhases(s: State, e: Event, b: Backoff)
    ensures var t := Step(s, e, b);
      t.log.phases == s.log.phases
      || (|t.log.phases| == |s.log.phases| + 1 && t.log.phases[..|s.log.phases|] == s.log.phases
          && (t.log.phases[|s.log.phases|].Ready? ==> IsHealthReply(s, e, t.log.phases[|s.log.phases|].handshake)))
  {
    match e {
      case Start => StartProbePhases(s.(started := true, disposed := false));
      case Retry =>
        StartProbePhases(s.(timers := ClearPending(s.timers), failures := 0, attempt := 0, client := None,
                            early := s.early || !s.started));
      case Fires(h) => StartProbePhases(s.(timers := Timers(None, s.timers.live - {h}, s.timers.next)));
      case _ =>
    }
  }

  /** A successful health reply to the probe that uses this handshake. */
  ghost predicate IsHealthReply(s: State, e: Event, handshake: nat) {
    e.HealthOk? && e.k < |s.probes| && s.probes[e.k] == AwaitHealth(handshake) && !s.disposed
  }

  /** Every `ready` ever emitted is the reply of a real health probe, made while not stopped. */
  lemma {:induction false} EveryReadyIsHonest(es: seq<Event>, b: Backoff, p: nat) returns (k: nat)
    requires p < |Run(Init(), es, b).log.phases| && Run(Init(), es, b).log.phases[p].Ready?
    ensures k < |es|
    ensures |Run(Init(), es[..k], b).log.phases| == p
    ensures IsHealthReply(Run(Init(), es[..k], b), es[k], Run(Init(), es, b).log.phases[p].handshake)
  {
    var last := |es| - 1;
    var s := Run(Init(), es[..last], b);
    StepPhases(s, es[last], b);
    if p < |s.log.phases| {
      k := EveryReadyIsHonest(es[..last], b, p);
      assert es[..last][..k] == es[..k];
    } else {
      k := last;
    }
  }

  // --- polling stops at ready --------------------------------------------------------------

  /** No `retry()` before the first `start()`. */
  predicate StartsFirst(es: seq<Event>) {
    forall i | 0 <= i < |es| && es[i].Retry? :: Start in es[..i]
  }

  lemma {:induction false} StartsFirstIsNeverEarly(es: seq<Event>, b: Backoff)
    requires StartsFirst(es)
    ensures var s := Run(Init(), es, b);
      !s.early && (Start in es && !s.started ==> s.disposed)
  {
    if es != [] {
      var last := |es| - 1;
      assert StartsFirst(es[..last]) by {
        forall i | 0 <= i < last && es[..last][i].Retry? ensures Start in es[..last][..i] {
          assert es[i].Retry? && es[..last][..i] == es[..i];
        }
      }
      StartsFirstIsNeverEarly(es[..last], b);
      assert es == es[..last] + [es[last]];
      if es[last].Retry? { assert Start in es[..last]; }
      NeverEarlyStep(Run(Init(), es[..last], b), es[last], b, Start in es[..last]);
    }
  }

  lemma {:induction false} NeverEarlyStep(s: State, e: Event, b: Backoff, begun: bool)
    requires !s.early && (begun && !s.started ==> s.disposed) && (e.Retry? ==> begun)
    ensures !Step(s, e, b).early
    ensures begun || e.Start? ==> Step(s, e, b).started || Step(s, e, b).disposed
  {}

  /**
    `ready` is final until the app asks again: whenever the app starts the controller before it
    first retries, no probe and no timer is left behind a `ready`, so no completion changes anything.
  */
  lemma {:induction false} ReadyIsFinal(es: seq<Event>, cs: seq<Event>, b: Backoff)
    requires StartsFirst(es) && LastIsReady(Run(Init(), es, b)) && forall e <- cs :: IsCompletion(e)
    ensures Run(Run(Init(), es, b), cs, b) == Run(Init(), es, b)
  {
    RunKeepsInv(es, b);
    StartsFirstIsNeverEarly(es, b);
    NothingOutstanding(Run(Init(), es, b), cs, b);
  }

  lemma {:induction false} NothingOutstanding(s: State, cs: seq<Event>, b: Backoff)
    requires s.timers.live == map[] && s.probes == [] && forall e <- cs :: IsCompletion(e)
    ensures Run(s, cs, b) == s
  {
    if cs != [] {
      NothingOutstanding(s, cs[..|cs|-1], b);
      assert cs[|cs|-1] in cs;
      NothingToComplete(s, cs[|cs|-1], b);
    }
  }

  lemma {:induction false} NothingToComplete(s: State, e: Event, b: Backoff)
    requires s.timers.live == map[] && s.probes == [] && IsCompletion(e)
    ensures Step(s, e, b) == s
  {}

  /** Every completion in every order leaves the state as it is. */
  ghost predicate Final(s: State, b: Backoff) {
    forall cs: seq<Event> :: (forall e <- cs :: IsCompletion(e)) ==> Run(s, cs, b) == s
  }

  /** Exactly: in every reachable state that ends in `ready`, nothing changes by itself if and only if no timer is armed. */
  lemma {:induction false} ReadyIsFinalIff(es: seq<Event>, b: Backoff)
    requires LastIsReady(Run(Init(), es, b))
    ensures var s := Run(Init(), es, b);
      Final(s, b) <==> s.timers.pending.None?
  {
    RunKeepsInv(es, b);
    var s := Run(Init(), es, b);
    if s.timers.pending.None? {
      forall cs: seq<Event> | forall e <- cs :: IsCompletion(e) ensures Run(s, cs, b) == s {
        NothingOutstanding(s, cs, b);
      }
    } else {
      var fire := Fires(s.timers.pending.value);
      RunOne(s, fire, b);
      assert forall e <- [fire] :: IsCompletion(e);
      FiringChanges(s, s.timers.pending.value, b);
      assert Run(s, [fire], b) != s;
    }
  }

  lemma {:induction false} FiringChanges(s: State, h: nat, b: Backoff)
    requires s.timers.pending == Some(h) && h in s.timers.live
    ensures Step(s, Fires(h), b).timers.pending.None?
  {}

  /** The condition matters: a timer armed by an early retry survives `ready` and probes again. */
  lemma {:induction false} EarlyRetryOutlivesReady(b: Backoff)
    ensures var s := Run(Init(), [Retry, BootstrapFails(0), Start] + [BootstrapGot(0, true), HealthOk(0)], b);
      LastIsReady(s) && s.timers.pending.Some? && !LastIsReady(Step(s, Fires(s.timers.pending.value), b))
  {
    var early := [Retry, BootstrapFails(0), Start];
    EarlyTimer(b);
    var s := Run(Init(), early, b);
    RunNext(Init(), early, BootstrapGot(0, true), b);
    RunNext(Init(), early + [BootstrapGot(0, true)], HealthOk(0), b);
    assert early + [BootstrapGot(0, true), HealthOk(0)] == early + [BootstrapGot(0, true)] + [HealthOk(0)];
    var t := Step(s, BootstrapGot(0, true), b);
    assert t.probes == [AwaitHealth(1)];
  }

  lemma {:induction false} EarlyTimer(b: Backoff)
    ensures var s := Run(Init(), [Retry, BootstrapFails(0), Start], b);
      s.timers.pending == Some(0) && 0 in s.timers.live && s.probes == [AwaitBootstrap(1)] && s.inFlight && !s.disposed
  {
    RunOne(Init(), Retry, b);
    RunNext(Init(), [Retry], BootstrapFails(0), b);
    assert [Retry] + [BootstrapFails(0)] == [Retry, BootstrapFails(0)];
    RunNext(Init(), [Retry, BootstrapFails(0)], Start, b);
    assert [Retry, BootstrapFails(0)] + [Start] == [Retry, BootstrapFails(0), Start];
  }

  // --- delays ------------------------------------------------------------------------------

  lemma {:induction false} PowGrows(x: real, m: nat, n: nat)
    requires x >= 1.0 && m <= n
    ensures 1.0 <= Pow(x, m) <= Pow(x, n)
    decreases n
  {
    if n > 0 {
      if m == n { PowGrows(x, m - 1, n - 1); } else { PowGrows(x, m, n - 1); }
      assert x * Pow(x, n - 1) >= Pow(x, n - 1);
    }
  }

  lemma {:induction false} DelayGrows(b: Backoff, m: nat, n: nat)
    requires b.baseMs >= 0.0 && b.factor >= 1.0 && m <= n
    ensures Delay(b, m) <= Delay(b, n) <= b.maxMs
  {
    var m', n' := if m <= 16 then m else 16, if n <= 16 then n else 16;
    PowGrows(b.factor, m', n');
    assert b.baseMs * Pow(b.factor, m') <= b.baseMs * Pow(b.factor, n');
  }

  /** `n` failures in a row, by the events alone: a failed handshake or probe counts, a success or a retry starts over. */
  function FailedInARow(es: seq<Event>, b: Backoff): nat {
    if es == [] then 0
    else
      var s, e := Run(Init(), es[..|es|-1], b), es[|es|-1];
      var before := FailedInARow(es[..|es|-1], b);
      if s.disposed then before
      else match e
        case Retry => 0
        case HealthOk(k) => if AwaitsHealth(s, k) then 0 else before
        case HealthFails(k) => if AwaitsHealth(s, k) then before + 1 else before
        case BootstrapFails(k) => if AwaitsBootstrap(s, k) then before + 1 else before
        case BootstrapGot(k, complete) => if AwaitsBootstrap(s, k) && !complete then before + 1 else before
        case _ => before
  }

  lemma {:induction false} StartProbeCounts(s: State)
    ensures StartProbe(s).failures == s.failures
  {}

  lemma {:induction false} FailuresAreCounted(es: seq<Event>, b: Backoff)
    ensures Run(Init(), es, b).failures == FailedInARow(es, b)
  {
    if es != [] { FailuresAreCounted(es[..|es|-1], b); }
  }

  function Times(base: real, factor: real, n: nat): real { if n == 0 then base else Times(base, factor, n - 1) * factor }

  lemma {:induction false} TimesIsPow(base: real, factor: real, n: nat)
    ensures base * Pow(factor, n) == Times(base, factor, n)
  {
    if n > 0 {
      TimesIsPow(base, factor, n - 1);
      assert base * (factor * Pow(factor, n - 1)) == base * Pow(factor, n - 1) * factor;
    }
  }

  /** The base, multiplied by the factor for each failure up to the sixteenth, or the cap if that is less. */
  function DelayAfter(b: Backoff, n: nat): real {
    var uncapped := Times(b.baseMs, b.factor, if n <= 16 then n else 16);
    if uncapped <= b.maxMs then uncapped else b.maxMs
  }

  lemma {:induction false} DelayIs(b: Backoff, n: nat)
    ensures Delay(b, n) == DelayAfter(b, n)
  {
    TimesIsPow(b.baseMs, b.factor, if n <= 16 then n else 16);
  }

  predicate Armed(s: State, delay: real) {
    s.timers.pending.Some? && s.timers.pending.value in s.timers.live && s.timers.live[s.timers.pending.value] == delay
  }

  lemma {:induction false} CalmDelay(s: State, b: Backoff)
    requires Inv(s, b) && !s.early && s.timers.pending.Some?
    ensures Armed(s, Delay(b, s.failures))
  {}

  /** The timer armed after `n` failures in a row has exactly the delay for `n` failures. */
  lemma {:induction false} ArmedDelayIs(es: seq<Event>, b: Backoff)
    requires StartsFirst(es) && Run(Init(), es, b).timers.pending.Some?
    ensures Armed(Run(Init(), es, b), DelayAfter(b, FailedInARow(es, b)))
  {
    RunKeepsInv(es, b);
    StartsFirstIsNeverEarly(es, b);
    FailuresAreCounted(es, b);
    CalmDelay(Run(Init(), es, b), b);
    DelayIs(b, FailedInARow(es, b));
  }

  /** No success and no manual retry. */
  predicate KeepsFailing(e: Event) { !e.HealthOk? && !e.Retry? }

  lemma {:induction false} FailuresGrow(s: State, cs: seq<Event>, b: Backoff)
    requires forall e <- cs :: KeepsFailing(e)
    ensures Run(s, cs, b).failures >= s.failures && (Run(s, cs, b).early <==> s.early)
  {
    if cs != [] {
      FailuresGrow(s, cs[..|cs|-1], b);
      assert cs[|cs|-1] in cs;
      FailuresStep(Run(s, cs[..|cs|-1], b), cs[|cs|-1], b);
    }
  }

  lemma {:induction false} FailuresStep(s: State, e: Event, b: Backoff)
    requires KeepsFailing(e)
    ensures Step(s, e, b).failures >= s.failures && (Step(s, e, b).early <==> s.early)
  {}

  /** While the service keeps failing, the armed delay never shrinks and never passes the cap. */
  lemma {:induction false} BackoffNeverShrinks(es: seq<Event>, cs: seq<Event>, b: Backoff)
    requires b.baseMs >= 0.0 && b.factor >= 1.0 && StartsFirst(es) && forall e <- cs :: KeepsFailing(e)
    ensures var s := Run(Init(), es, b);
      var t := Run(s, cs, b);
      s.timers.pending.Some? && t.timers.pending.Some?
        && s.timers.pending.value in s.timers.live && t.timers.pending.value in t.timers.live
      ==> s.timers.live[s.timers.pending.value] <= t.timers.live[t.timers.pending.value] <= b.maxMs
  {
    var s := Run(Init(), es, b);
    RunKeepsInv(es, b);
    StartsFirstIsNeverEarly(es, b);
    FailuresGrow(s, cs, b);
    RunFromKeepsInv(s, cs, b);
    DelayGrows(b, s.failures, Run(s, cs, b).failures);
  }

  lemma {:induction false} RunFromKeepsInv(s: State, es: seq<Event>, b: Backoff)
    requires Inv(s, b)
    ensures Inv(Run(s, es, b), b)
  {
    if es != [] {
      RunFromKeepsInv(s, es[..|es|-1], b);
      StepKeepsInv(Run(s, es[..|es|-1], b), es[|es|-1], b);
    }
  }

  // --- what retry() really starts ----------------------------------------------------------

  /** Every `ready` emitted after the first `from` phases belongs to handshake `since` or later. */
  ghost predicate ReadySince(s: State, from: nat, since: nat) {
    from <= |s.log.phases|
    && forall i | from <= i < |s.log.phases| && s.log.phases[i].Ready? :: s.log.phases[i].handshake >= since
  }

  /** Nothing in the controller remembers a handshake older than `since`. */
  ghost predicate Renewed(s: State, from: nat, since: nat) {
    && s.log.asked >= since && ReadySince(s, from, since)
    && (s.client.Some? ==> s.client.value >= since)
    && forall p <- s.probes :: p.handshake >= since
  }

  lemma {:induction false} SettleStaysRenewed(s: State, k: nat, from: nat, since: nat)
    requires Renewed(s, from, since) && k < |s.probes|
    ensures Renewed(Settle(s, k), from, since) && s.probes[k].handshake >= since
  {
    assert s.probes[k] in s.probes;
  }

  lemma {:induction false} EmitStaysRenewed(s: State, p: Phase, from: nat, since: nat)
    requires Renewed(s, from, since) && (p.Ready? ==> p.handshake >= since)
    ensures Renewed(Emit(s, p), from, since)
  {}

  lemma {:induction false} StartProbeStaysRenewed(s: State, from: nat, since: nat)
    requires Renewed(s, from, since)
    ensures Renewed(StartProbe(s), from, since)
  {}

  lemma {:induction false} FailStaysRenewed(s: State, k: nat, p: Phase, b: Backoff, from: nat, since: nat)
    requires Renewed(s, from, since) && k < |s.probes| && !p.Ready?
    ensures Renewed(FailWith(Settle(s, k), p, b), from, since)
  {
    var s1 := Settle(s, k);
    SettleStaysRenewed(s, k, from, since);
    EmitStaysRenewed(s1.(failures := s1.failures + 1), p, from, since);
  }

  lemma {:induction false} AskStaysRenewed(s: State, handshake: nat, from: nat, since: nat)
    requires Renewed(s, from, since) && handshake >= since
    ensures Renewed(AskHealth(s, handshake), from, since)
  {
    EmitStaysRenewed(s.(attempt := s.attempt + 1, probes := s.probes + [AwaitHealth(handshake)]),
                     Connecting(s.attempt + 1), from, since);
  }

  lemma {:induction false} BootstrapStaysRenewed(s: State, k: nat, complete: bool, b: Backoff, from: nat, since: nat)
    requires Renewed(s, from, since) && k < |s.probes|
    ensures Renewed(OnBootstrap(s, k, complete, b), from, since)
    ensures Renewed(OnBootstrapFailed(s, k, b), from, since) && Renewed(OnHealthFailed(s, k, b), from, since)
  {
    var handshake := s.probes[k].handshake;
    SettleStaysRenewed(s, k, from, since);
    FailStaysRenewed(s, k, NotConnected, b, from, since);
    FailStaysRenewed(s, k, Unreachable(Settle(s, k).attempt), b, from, since);
    AskStaysRenewed(Settle(s, k).(inFlight := true, client := Some(handshake)), handshake, from, since);
  }

  lemma {:induction false} HealthStaysRenewed(s: State, k: nat, from: nat, since: nat)
    requires Renewed(s, from, since) && k < |s.probes|
    ensures Renewed(OnHealth(s, k), from, since)
  {
    var s1 := Settle(s, k);
    SettleStaysRenewed(s, k, from, since);
    EmitStaysRenewed(s1.(failures := 0), Ready(s.probes[k].handshake), from, since);
  }

  lemma {:induction false} StepStaysRenewed(s: State, e: Event, b: Backoff, from: nat, since: nat)
    requires Renewed(s, from, since)
    ensures Renewed(Step(s, e, b), from, since)
  {
    match e {
      case Start => StartProbeStaysRenewed(s.(started := true, disposed := false), from, since);
      case Retry =>
        StartProbeStaysRenewed(s.(timers := ClearPending(s.timers), failures := 0, attempt := 0, client := None,
                                  early := s.early || !s.started), from, since);
      case Stop =>
      case Fires(h) =>
        StartProbeStaysRenewed(s.(timers := Timers(None, s.timers.live - {h}, s.timers.next)), from, since);
      case BootstrapFails(k) => if k < |s.probes| { BootstrapStaysRenewed(s, k, false, b, from, since); }
      case BootstrapGot(k, complete) => if k < |s.probes| { BootstrapStaysRenewed(s, k, complete, b, from, since); }
      case HealthFails(k) => if k < |s.probes| { BootstrapStaysRenewed(s, k, false, b, from, since); }
      case HealthOk(k) => if k < |s.probes| { HealthStaysRenewed(s, k, from, since); }
    }
  }

  lemma {:induction false} RunStaysRenewed(s: State, cs: seq<Event>, b: Backoff, from: nat, since: nat)
    requires Renewed(s, from, since)
    ensures Renewed(Run(s, cs, b), from, since)
  {
    if cs != [] {
      RunStaysRenewed(s, cs[..|cs|-1], b, from, since);
      StepStaysRenewed(Run(s, cs[..|cs|-1], b), cs[|cs|-1], b, from, since);
    }
  }

  /**
    `retry()` on a controller that is not stopped makes every later `ready` belong to a handshake
    requested by or after it exactly when no probe was in flight. Otherwise the old probe may
    still report `ready` for the old handshake.
  */
  lemma {:induction false} RetryRenewsIff(es: seq<Event>, b: Backoff)
    requires !Run(Init(), es, b).disposed
    ensures var s0 := Run(Init(), es, b);
      var s := Step(s0, Retry, b);
      !s0.inFlight <==>
      forall cs: seq<Event> :: ReadySince(Run(s, cs, b), |s0.log.phases|, s0.log.asked)
  {
    RunKeepsInv(es, b);
    var s0 := Run(Init(), es, b);
    var s := Step(s0, Retry, b);
    if !s0.inFlight {
      assert Renewed(s, |s0.log.phases|, s0.log.asked);
      forall cs: seq<Event> ensures ReadySince(Run(s, cs, b), |s0.log.phases|, s0.log.asked) {
        RunStaysRenewed(s, cs, b, |s0.log.phases|, s0.log.asked);
      }
    } else {
      assert s.probes == s0.probes && s0.probes[0] in s0.probes;
      var cs := FinishProbe(s, b);
      var t := Run(s, cs, b);
      OldProbeReports(s, b);
    }
  }

  lemma {:induction false} OldProbeReports(s: State, b: Backoff)
    requires s.inFlight && |s.probes| == 1 && !s.disposed
    ensures exists cs: seq<Event> :: var t := Run(s, cs, b);
      |t.log.phases| > |s.log.phases| && t.log.phases[|t.log.phases|-1] == Ready(s.probes[0].handshake)
  {
    if s.probes[0].AwaitHealth? {
      RunOne(s, HealthOk(0), b);
      assert Run(s, [HealthOk(0)], b).log.phases == s.log.phases + [Ready(s.probes[0].handshake)];
    } else {
      var t := Step(s, BootstrapGot(0, true), b);
      assert t.probes == [AwaitHealth(s.probes[0].handshake)];
      RunPrefix(s, BootstrapGot(0, true), [HealthOk(0)], b);
      RunOne(t, HealthOk(0), b);
      var u := Run(s, [BootstrapGot(0, true)] + [HealthOk(0)], b);
      assert u.log.phases == t.log.phases + [Ready(s.probes[0].handshake)];
    }
  }
}
