/**
  The readiness controller as a state machine: one event is one atomic stretch of its code, up to
  the next `await`. Handshakes are numbered in the order they are requested, so that a health
  client, a probe and a `ready` phase can say which handshake they belong to.
*/
module ReadinessMachine {
  import opened Options

  datatype Backoff = Backoff(baseMs: real, factor: real, maxMs: real)

  datatype Phase =
    | Starting
    | NotConnected
    | Connecting(attempt: nat)
    | Ready(handshake: nat)
    | Unreachable(attempt: nat)

  /** What the probe in flight waits for, and with which handshake. */
  datatype Probe = AwaitBootstrap(handshake: nat) | AwaitHealth(handshake: nat)

  /** The timer the controller knows of, and the delays of all timers the host keeps alive. */
  datatype Timers = Timers(pending: Option<nat>, live: map<nat, real>, next: nat)

  /** The phases emitted so far and the number of handshakes requested. */
  datatype Log = Log(phases: seq<Phase>, asked: nat)

  /** `early` remembers a `retry()` made before the first `start()`. */
  datatype State = State(
    client: Option<nat>, timers: Timers, attempt: nat, failures: nat,
    started: bool, disposed: bool, inFlight: bool, early: bool, probes: seq<Probe>, log: Log)

  datatype Event =
    | Start | Retry | Stop
    | Fires(handle: nat)
    | BootstrapFails(k: nat)
    | BootstrapGot(k: nat, complete: bool)
    | HealthOk(k: nat)
    | HealthFails(k: nat)

  function Init(): State {
    State(None, Timers(None, map[], 0), 0, 0, false, false, false, false, [], Log([], 0))
  }

  function Min(a: real, b: real): real { if a <= b then a else b }

  function Pow(b: real, n: nat): real { if n == 0 then 1.0 else b * Pow(b, n - 1) }

  function Delay(b: Backoff, failures: nat): real {
    Min(b.baseMs * Pow(b.factor, if failures <= 16 then failures else 16), b.maxMs)
  }

  // --- the controller's helpers ------------------------------------------------------------

  function ClearPending(t: Timers): Timers {
    if t.pending.None? then t else t.(live := t.live - {t.pending.value}, pending := None)
  }

  function Arm(t: Timers, delay: real): Timers {
    t.(pending := Some(t.next), live := t.live[t.next := delay], next := t.next + 1)
  }

  function Schedule(s: State, b: Backoff): State {
    if s.disposed then s
    else s.(timers := Arm(ClearPending(s.timers), Delay(b, s.failures)))
  }

  function Emit(s: State, p: Phase): State { s.(log := s.log.(phases := s.log.phases + [p])) }

  /** From `attempt += 1` to the await of `client.health()`. */
  function AskHealth(s: State, handshake: nat): State {
    Emit(s.(attempt := s.attempt + 1, probes := s.probes + [AwaitHealth(handshake)]),
         Connecting(s.attempt + 1))
  }

  /** `probe()` up to its first await. */
  function StartProbe(s: State): State {
    if s.disposed || s.inFlight then s
    else if s.client.Some? then AskHealth(s.(inFlight := true), s.client.value)
    else
      var s1 := Emit(s.(inFlight := true, probes := s.probes + [AwaitBootstrap(s.log.asked)]), Starting);
      s1.(log := s1.log.(asked := s1.log.asked + 1))
  }

  /** The await of probe `k` is over. */
  function Settle(s: State, k: nat): State
    requires k < |s.probes|
  {
    s.(probes := s.probes[..k] + s.probes[k+1..], inFlight := false)
  }

  function FailWith(s: State, p: Phase, b: Backoff): State {
    Schedule(Emit(s.(failures := s.failures + 1), p), b)
  }

  // --- the steps ---------------------------------------------------------------------------

  function OnBootstrapFailed(s: State, k: nat, b: Backoff): State
    requires k < |s.probes|
  {
    var s1 := Settle(s, k);
    if s1.disposed then s1 else FailWith(s1, NotConnected, b)
  }

  function OnBootstrap(s: State, k: nat, complete: bool, b: Backoff): State
    requires k < |s.probes|
  {
    var s1 := Settle(s, k);
    if s1.disposed then s1
    else if !complete then FailWith(s1, NotConnected, b)
    else
      var handshake := s.probes[k].handshake;
      AskHealth(s1.(inFlight := true, client := Some(handshake)), handshake)
  }

  function OnHealthFailed(s: State, k: nat, b: Backoff): State
    requires k < |s.probes|
  {
    var s1 := Settle(s, k);
    if s1.disposed then s1 else FailWith(s1, Unreachable(s1.attempt), b)
  }

  function OnHealth(s: State, k: nat): State
    requires k < |s.probes|
  {
    var s1 := Settle(s, k);
    if s1.disposed then s1 else Emit(s1.(failures := 0), Ready(s.probes[k].handshake))
  }

  function OnStart(s: State): State {
    if s.started then s else StartProbe(s.(started := true, disposed := false))
  }

  function OnRetry(s: State): State {
    if s.disposed then s
    else StartProbe(s.(timers := ClearPending(s.timers), failures := 0, attempt := 0, client := None,
                       early := s.early || !s.started))
  }

  function OnStop(s: State): State {
    s.(disposed := true, started := false, timers := ClearPending(s.timers))
  }

  function OnFire(s: State, h: nat): State {
    StartProbe(s.(timers := Timers(None, s.timers.live - {h}, s.timers.next)))
  }

  predicate AwaitsBootstrap(s: State, k: nat) { k < |s.probes| && s.probes[k].AwaitBootstrap? }
  predicate AwaitsHealth(s: State, k: nat) { k < |s.probes| && s.probes[k].AwaitHealth? }

  /** An event that the host cannot produce in `s` leaves it as it is. */
  function Step(s: State, e: Event, b: Backoff): State {
    match e
    case Start => OnStart(s)
    case Retry => OnRetry(s)
    case Stop => OnStop(s)
    case Fires(h) => if h in s.timers.live then OnFire(s, h) else s
    case BootstrapFails(k) => if AwaitsBootstrap(s, k) then OnBootstrapFailed(s, k, b) else s
    case BootstrapGot(k, complete) => if AwaitsBootstrap(s, k) then OnBootstrap(s, k, complete, b) else s
    case HealthOk(k) => if AwaitsHealth(s, k) then OnHealth(s, k) else s
    case HealthFails(k) => if AwaitsHealth(s, k) then OnHealthFailed(s, k, b) else s
  }

  function Run(s: State, es: seq<Event>, b: Backoff): State {
    if es == [] then s else Step(Run(s, es[..|es|-1], b), es[|es|-1], b)
  }

  lemma {:induction false} RunNext(s: State, es: seq<Event>, e: Event, b: Backoff)
    ensures Run(s, es + [e], b) == Step(Run(s, es, b), e, b)
  {
    assert (es + [e])[..|es|] == es;
  }

  // --- what every reachable state keeps ----------------------------------------------------

  predicate TimersKnown(t: Timers) {
    && t.live.Keys == (if t.pending.None? then {} else {t.pending.value})
    && t.next !in t.live
    && forall h <- t.live.Keys :: h < t.next
  }

  predicate LastIsReady(s: State) { s.log.phases != [] && s.log.phases[|s.log.phases|-1].Ready? }

  ghost predicate Sound(s: State, b: Backoff) {
    && TimersKnown(s.timers)
    && (s.timers.pending.Some? ==> !s.disposed && s.timers.live[s.timers.pending.value] <= b.maxMs)
    && |s.probes| == (if s.inFlight then 1 else 0)
    && (s.started ==> !s.disposed)
    && (s.inFlight ==> !LastIsReady(s))
    && (forall p <- s.probes :: p.handshake < s.log.asked)
    && (s.client.Some? ==> s.client.value < s.log.asked)
    && (s.early || Calm(s, b))
  }

  /** Without an early `retry()`, a timer is armed only while nothing else is going on, for the current delay. */
  ghost predicate Calm(s: State, b: Backoff)
    requires TimersKnown(s.timers)
  {
    && (s.timers.pending.Some? ==>
          && s.started && !s.inFlight && !LastIsReady(s)
          && s.timers.live[s.timers.pending.value] == Delay(b, s.failures))
    && (!s.started && !s.disposed ==> !s.inFlight)
  }

  /** The controller is trying, is about to try again, or has said `ready`. */
  predicate Progressing(s: State) { s.inFlight || s.timers.pending.Some? || LastIsReady(s) }

  ghost predicate Inv(s: State, b: Backoff) {
    Sound(s, b) && (s.started ==> Progressing(s))
  }

  lemma {:induction false} TimersStayKnown(t: Timers, delay: real)
    requires TimersKnown(t)
    ensures TimersKnown(ClearPending(t)) && TimersKnown(Arm(ClearPending(t), delay))
    ensures Arm(ClearPending(t), delay).live == map[t.next := delay]
  {}

  lemma {:induction false} StartProbeKeepsInv(s: State, b: Backoff)
    requires Sound(s, b) && (s.early || (s.timers.pending.None? && (s.started || s.disposed)))
    ensures Inv(StartProbe(s), b)
  {}

  lemma {:induction false} FailKeepsInv(s: State, p: Phase, b: Backoff)
    requires Sound(s, b) && !s.inFlight && !p.Ready? && !s.disposed && (s.early || s.started)
    ensures Inv(FailWith(s, p, b), b)
  {
    TimersStayKnown(s.timers, Delay(b, s.failures + 1));
  }

  lemma {:induction false} SettleKeepsSound(s: State, k: nat, b: Backoff)
    requires Sound(s, b) && k < |s.probes|
    ensures Sound(Settle(s, k), b)
  {}

  lemma {:induction false} BootstrapKeepsInv(s: State, k: nat, complete: bool, b: Backoff)
    requires Inv(s, b) && AwaitsBootstrap(s, k)
    ensures Inv(OnBootstrap(s, k, complete, b), b) && Inv(OnBootstrapFailed(s, k, b), b)
  {
    SettleKeepsSound(s, k, b);
    if !s.disposed {
      FailKeepsInv(Settle(s, k), NotConnected, b);
      if complete {
        assert s.inFlight && s.probes[k] in s.probes && |s.probes| == 1;
        var t := OnBootstrap(s, k, complete, b);
        assert t.probes == [AwaitHealth(s.probes[k].handshake)];
      }
    }
  }

  lemma {:induction false} HealthKeepsInv(s: State, k: nat, b: Backoff)
    requires Inv(s, b) && AwaitsHealth(s, k)
    ensures Inv(OnHealth(s, k), b) && Inv(OnHealthFailed(s, k, b), b)
  {
    SettleKeepsSound(s, k, b);
    if !s.disposed {
      FailKeepsInv(Settle(s, k), Unreachable(s.attempt), b);
      var t := OnHealth(s, k);
      assert LastIsReady(t);
    }
  }

  lemma {:induction false} RetryKeepsInv(s: State, b: Backoff)
    requires Inv(s, b)
    ensures Inv(OnRetry(s), b)
  {
    TimersStayKnown(s.timers, 0.0);
    if !s.disposed {
      StartProbeKeepsInv(s.(timers := ClearPending(s.timers), failures := 0, attempt := 0,
                            client := None, early := s.early || !s.started), b);
    }
  }

  lemma {:induction false} StepKeepsInv(s: State, e: Event, b: Backoff)
    requires Inv(s, b)
    ensures Inv(Step(s, e, b), b)
  {
    TimersStayKnown(s.timers, 0.0);
    match e {
      case Start => if !s.started { StartProbeKeepsInv(s.(started := true, disposed := false), b); }
      case Retry => RetryKeepsInv(s, b);
      case Stop =>
      case Fires(h) =>
        if h in s.timers.live {
          StartProbeKeepsInv(s.(timers := Timers(None, s.timers.live - {h}, s.timers.next)), b);
        }
      case BootstrapFails(k) => if AwaitsBootstrap(s, k) { BootstrapKeepsInv(s, k, false, b); }
      case BootstrapGot(k, complete) => if AwaitsBootstrap(s, k) { BootstrapKeepsInv(s, k, complete, b); }
      case HealthOk(k) => if AwaitsHealth(s, k) { HealthKeepsInv(s, k, b); }
      case HealthFails(k) => if AwaitsHealth(s, k) { HealthKeepsInv(s, k, b); }
    }
  }

  lemma {:induction false} RunKeepsInv(es: seq<Event>, b: Backoff)
    ensures Inv(Run(Init(), es, b), b)
  {
    if es != [] {
      RunKeepsInv(es[..|es|-1], b);
      StepKeepsInv(Run(Init(), es[..|es|-1], b), es[|es|-1], b);
    }
  }
}
