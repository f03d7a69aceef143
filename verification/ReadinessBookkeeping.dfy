/**
  What the readiness controller says, event by event, and with which numbers: attempts count the
  health calls since the last `retry()`, and a handshake stays in use until the next one.
*/
module ReadinessBookkeeping {
  import opened Options
  import opened ReadinessMachine
  import opened ReadinessProperties

  /** In state `s` event `e` starts a probe: the first start, a retry, or the armed timer, with none in flight. */
  predicate StartsProbe(s: State, e: Event) {
    match e
    case Start => !s.started && !s.inFlight
    case Retry => !s.disposed && !s.inFlight
    case Fires(h) => h in s.timers.live && !s.disposed && !s.inFlight
    case _ => false
  }

  /** A handshake comes back complete. */
  predicate Connects(s: State, e: Event) {
    e.BootstrapGot? && AwaitsBootstrap(s, e.k) && e.complete && !s.disposed
  }

  predicate Forgets(s: State, e: Event) { e.Retry? && !s.disposed }

  /** The handshake in use: the last one that came back complete, unless a retry came after it. */
  function InUse(es: seq<Event>, b: Backoff): Option<nat> {
    if es == [] then None
    else
      var s, e := Run(Init(), es[..|es|-1], b), es[|es|-1];
      if Forgets(s, e) then None
      else if Connects(s, e) then Some(s.probes[e.k].handshake)
      else InUse(es[..|es|-1], b)
  }

  /** How often the health of the service has been asked for since the last retry. */
  function Tries(es: seq<Event>, b: Backoff): nat {
    if es == [] then 0
    else
      var s, e := Run(Init(), es[..|es|-1], b), es[|es|-1];
      var before := Tries(es[..|es|-1], b);
      if Forgets(s, e) then 0
      else if Connects(s, e) || (StartsProbe(s, e) && InUse(es[..|es|-1], b).Some?) then before + 1
      else before
  }

  lemma {:induction false} StepUses(s: State, e: Event, b: Backoff)
    ensures Step(s, e, b).client ==
            if Forgets(s, e) then None else if Connects(s, e) then Some(s.probes[e.k].handshake) else s.client
    ensures Step(s, e, b).attempt ==
            if Forgets(s, e) then 0
            else if Connects(s, e) || (StartsProbe(s, e) && s.client.Some?) then s.attempt + 1 else s.attempt
  {}

  lemma {:induction false} ClientIsInUse(es: seq<Event>, b: Backoff)
    ensures Run(Init(), es, b).client == InUse(es, b) && Run(Init(), es, b).attempt == Tries(es, b)
  {
    if es != [] {
      ClientIsInUse(es[..|es|-1], b);
      StepUses(Run(Init(), es[..|es|-1], b), es[|es|-1], b);
    }
  }

  /** What event `e` makes the controller say, when `tries` health calls have been made and `handshake` is in use. */
  function Says(s: State, e: Event, tries: nat, handshake: Option<nat>): seq<Phase> {
    if StartsProbe(s, e) then
      if e.Retry? || handshake.None? then [Starting] else [Connecting(tries + 1)]
    else if s.disposed then []
    else match e
      case BootstrapFails(k) => if AwaitsBootstrap(s, k) then [NotConnected] else []
      case BootstrapGot(k, complete) =>
        if AwaitsBootstrap(s, k) then [if complete then Connecting(tries + 1) else NotConnected] else []
      case HealthFails(k) => if AwaitsHealth(s, k) then [Unreachable(tries)] else []
      case HealthOk(k) => if AwaitsHealth(s, k) then [Ready(s.probes[k].handshake)] else []
      case _ => []
  }

  lemma {:induction false} NothingSaid(phases: seq<Phase>)
    ensures phases + [] == phases
  {}

  lemma {:induction false} StartProbeSays(s: State)
    ensures var t := StartProbe(s);
      if s.disposed || s.inFlight then t.log == s.log
      else if s.client.Some? then t.log.asked == s.log.asked && t.log.phases == s.log.phases + [Connecting(s.attempt + 1)]
      else t.log.asked == s.log.asked + 1 && t.log.phases == s.log.phases + [Starting]
  {}

  lemma {:induction false} StepSays(s: State, e: Event, b: Backoff)
    ensures Step(s, e, b).log.phases == s.log.phases + Says(s, e, s.attempt, s.client)
    ensures Step(s, e, b).log.asked ==
            s.log.asked + if StartsProbe(s, e) && (e.Retry? || s.client.None?) then 1 else 0
  {
    NothingSaid(s.log.phases);
    match e {
      case Start => StartProbeSays(s.(started := true, disposed := false));
      case Retry =>
        StartProbeSays(s.(timers := ClearPending(s.timers), failures := 0, attempt := 0, client := None,
                          early := s.early || !s.started));
      case Fires(h) => StartProbeSays(s.(timers := Timers(None, s.timers.live - {h}, s.timers.next)));
      case _ =>
    }
  }

  /**
    In every run each event says exactly what it should: a probe announces itself as starting, or
    as the next attempt if a handshake is in use; a failed or incomplete handshake is not
    connected; a failed health call is unreachable, with the number of this attempt; a successful
    one is ready, with the handshake of its probe; everything else, and everything after a stop,
    says nothing. Only a probe without a handshake in use asks for one.
  */
  lemma {:induction false} EveryEventSpeaks(es: seq<Event>, e: Event, b: Backoff)
    ensures var s, t := Run(Init(), es, b), Run(Init(), es + [e], b);
      && t.log.phases == s.log.phases + Says(s, e, Tries(es, b), InUse(es, b))
      && t.log.asked == s.log.asked + (if StartsProbe(s, e) && (e.Retry? || InUse(es, b).None?) then 1 else 0)
  {
    RunNext(Init(), es, e, b);
    ClientIsInUse(es, b);
    StepSays(Run(Init(), es, b), e, b);
  }

  /** No handshake is being fetched. */
  predicate OnlyHealth(s: State) { forall p <- s.probes :: p.AwaitHealth? }

  lemma {:induction false} FetchesNone(s: State, e: Event, b: Backoff)
    requires s.client.Some? && !e.Retry? && OnlyHealth(s)
    ensures OnlyHealth(Step(s, e, b)) && Step(s, e, b).log.asked == s.log.asked && Step(s, e, b).client == s.client
  {
    HealthIsNoBootstrap(s);
  }

  lemma {:induction false} HealthIsNoBootstrap(s: State)
    requires OnlyHealth(s)
    ensures forall k: nat :: !AwaitsBootstrap(s, k)
  {
    forall k: nat ensures !AwaitsBootstrap(s, k) {
      assert k < |s.probes| ==> s.probes[k] in s.probes;
    }
  }

  lemma {:induction false} FetchesNoneForLong(s: State, rest: seq<Event>, b: Backoff)
    requires s.client.Some? && OnlyHealth(s) && forall e <- rest :: !e.Retry?
    ensures var t := Run(s, rest, b);
      OnlyHealth(t) && t.log.asked == s.log.asked && t.client == s.client
  {
    if rest != [] {
      FetchesNoneForLong(s, rest[..|rest|-1], b);
      assert rest[|rest|-1] in rest;
      FetchesNone(Run(s, rest[..|rest|-1], b), rest[|rest|-1], b);
    }
  }

  lemma {:induction false} RunSplit(es: seq<Event>, rest: seq<Event>, b: Backoff)
    ensures Run(Init(), es + rest, b) == Run(Run(Init(), es, b), rest, b)
    decreases |rest|
  {
    if rest == [] {
      assert es + rest == es;
    } else {
      RunSplit(es, rest[..|rest|-1], b);
      assert (es + rest)[..|es + rest|-1] == es + rest[..|rest|-1];
    }
  }

  /** Once a handshake is in use no other is asked for before the next retry, however often the service fails. */
  lemma {:induction false} HandshakeIsKept(es: seq<Event>, rest: seq<Event>, b: Backoff)
    requires InUse(es, b).Some? && OnlyHealth(Run(Init(), es, b)) && forall e <- rest :: !e.Retry?
    ensures Run(Init(), es + rest, b).log.asked == Run(Init(), es, b).log.asked
    ensures InUse(es + rest, b) == InUse(es, b)
  {
    ClientIsInUse(es, b);
    ClientIsInUse(es + rest, b);
    RunSplit(es, rest, b);
    FetchesNoneForLong(Run(Init(), es, b), rest, b);
  }
}
