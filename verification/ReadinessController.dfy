/**
  The readiness controller in the form it has in the source. Every method is the step of
  ReadinessMachine it stands for, and every handler keeps the invariant behind the theorems about
  runs: a started controller makes progress.
*/
module ReadinessControllerModule {
  import opened Options
  import Machine = ReadinessMachine

  class ReadinessController {
    // the closure variables
    var client: Option<nat>
    var pendingTimer: Option<nat>
    var attempt: nat
    var failures: nat
    var started: bool
    var disposed: bool
    var inFlight: bool
    const backoff: Machine.Backoff

    // the host around it
    var live: map<nat, real>
    var nextHandle: nat
    var probes: seq<Machine.Probe>
    var log: Machine.Log
    ghost var early: bool

    ghost function Abs(): Machine.State
      reads this
    {
      Machine.State(client, Timers(), attempt, failures, started, disposed, inFlight, early, probes, log)
    }

    ghost function Timers(): Machine.Timers
      reads this
    {
      Machine.Timers(pendingTimer, live, nextHandle)
    }

    /** What every handler requires and keeps. */
    ghost predicate Valid()
      reads this
    {
      Machine.Inv(Abs(), backoff)
    }

    constructor (backoff: Machine.Backoff)
      ensures Valid() && Abs() == Machine.Init() && this.backoff == backoff
    {
      this.backoff := backoff;
      client, pendingTimer, attempt, failures := None, None, 0, 0;
      started, disposed, inFlight, early := false, false, false, false;
      live, nextHandle, probes, log := map[], 0, [], Machine.Log([], 0);
    }

    method ClearPending()
      modifies `pendingTimer, `live
      ensures Timers() == Machine.ClearPending(old(Timers()))
    {
      if pendingTimer.Some? {
        live := live - {pendingTimer.value};
        pendingTimer := None;
      }
    }

    method Schedule()
      modifies `pendingTimer, `live, `nextHandle
      ensures Abs() == Machine.Schedule(old(Abs()), backoff)
    {
      if disposed { return; }
      ClearPending();
      var delay := Machine.Delay(backoff, failures);
      live := live[nextHandle := delay];
      pendingTimer := Some(nextHandle);
      nextHandle := nextHandle + 1;
    }

    method Emit(p: Machine.Phase)
      modifies `log
      ensures Abs() == Machine.Emit(old(Abs()), p)
    {
      log := log.(phases := log.phases + [p]);
    }

    /** From `attempt += 1` to the await of `client.health()`. */
    method AskHealth(handshake: nat)
      modifies `attempt, `log, `probes
      ensures Abs() == Machine.AskHealth(old(Abs()), handshake)
    {
      attempt := attempt + 1;
      Emit(Machine.Connecting(attempt));
      probes := probes + [Machine.AwaitHealth(handshake)];
    }

    /** `probe()` up to its first await. */
    method Probe()
      modifies `inFlight, `attempt, `log, `probes
      ensures Abs() == Machine.StartProbe(old(Abs()))
    {
      if disposed || inFlight { return; }
      inFlight := true;
      if client.None? {
        Emit(Machine.Starting);
        probes := probes + [Machine.AwaitBootstrap(log.asked)];
        log := log.(asked := log.asked + 1);
      } else {
        AskHealth(client.value);
      }
    }

    method Fail(p: Machine.Phase)
      modifies `failures, `log, `pendingTimer, `live, `nextHandle
      ensures Abs() == Machine.FailWith(old(Abs()), p, backoff)
    {
      failures := failures + 1;
      Emit(p);
      Schedule();
    }

    method BootstrapFailed(k: nat)
      requires Valid() && Machine.AwaitsBootstrap(Abs(), k)
      modifies this
      ensures Valid() && Abs() == Machine.OnBootstrapFailed(old(Abs()), k, backoff)
      ensures !disposed ==> !inFlight && pendingTimer.Some?
    {
      Machine.BootstrapKeepsInv(Abs(), k, false, backoff);
      probes := probes[..k] + probes[k+1..];
      inFlight := false;
      if disposed { return; }
      Fail(Machine.NotConnected);
    }

    method Bootstrap(k: nat, complete: bool)
      requires Valid() && Machine.AwaitsBootstrap(Abs(), k)
      modifies this
      ensures Valid() && Abs() == Machine.OnBootstrap(old(Abs()), k, complete, backoff)
      ensures !disposed ==> (inFlight <==> complete) && (!complete ==> pendingTimer.Some?)
    {
      Machine.BootstrapKeepsInv(Abs(), k, complete, backoff);
      var handshake := probes[k].handshake;
      probes := probes[..k] + probes[k+1..];
      inFlight := false;
      if disposed { return; }
      if !complete {
        Fail(Machine.NotConnected);
        return;
      }
      inFlight := true;
      client := Some(handshake);
      AskHealth(handshake);
    }

    method HealthFailed(k: nat)
      requires Valid() && Machine.AwaitsHealth(Abs(), k)
      modifies this
      ensures Valid() && Abs() == Machine.OnHealthFailed(old(Abs()), k, backoff)
      ensures !disposed ==> !inFlight && pendingTimer.Some?
    {
      Machine.HealthKeepsInv(Abs(), k, backoff);
      probes := probes[..k] + probes[k+1..];
      inFlight := false;
      if disposed { return; }
      Fail(Machine.Unreachable(attempt));
    }

    method Health(k: nat)
      requires Valid() && Machine.AwaitsHealth(Abs(), k)
      modifies this
      ensures Valid() && Abs() == Machine.OnHealth(old(Abs()), k)
      ensures !disposed ==> !inFlight && failures == 0 && Machine.LastIsReady(Abs())
    {
      Machine.HealthKeepsInv(Abs(), k, backoff);
      var handshake := probes[k].handshake;
      probes := probes[..k] + probes[k+1..];
      inFlight := false;
      if disposed { return; }
      failures := 0;
      Emit(Machine.Ready(handshake));
    }

    method Fires(h: nat)
      requires Valid() && h in live
      modifies this
      ensures Valid() && Abs() == Machine.OnFire(old(Abs()), h)
      ensures inFlight && pendingTimer.None?
    {
      Machine.StepKeepsInv(Abs(), Machine.Fires(h), backoff);
      live := live - {h};
      pendingTimer := None;
      Probe();
    }

    method Start()
      requires Valid()
      modifies this
      ensures Valid() && Abs() == Machine.OnStart(old(Abs()))
      ensures started && (!old(started) ==> inFlight)
    {
      Machine.StepKeepsInv(Abs(), Machine.Start, backoff);
      if started { return; }
      started := true;
      disposed := false;
      Probe();
    }

    method Retry()
      requires Valid()
      modifies this
      ensures Valid() && Abs() == Machine.OnRetry(old(Abs()))
      ensures !disposed ==> inFlight && failures == 0 && pendingTimer.None?
    {
      Machine.RetryKeepsInv(Abs(), backoff);
      if disposed { return; }
      early := early || !started;
      ClearPending();
      StartOver();
    }

    /** Forget the failures and the client, and probe at once. */
    method StartOver()
      modifies `failures, `attempt, `client, `inFlight, `log, `probes
      ensures Abs() == Machine.StartProbe(old(Abs()).(failures := 0, attempt := 0, client := None))
    {
      failures := 0;
      attempt := 0;
      client := None;
      Probe();
    }

    method Stop()
      requires Valid()
      modifies this
      ensures Valid() && Abs() == Machine.OnStop(old(Abs()))
      ensures !started && live == map[]
    {
      Machine.StepKeepsInv(Abs(), Machine.Stop, backoff);
      disposed := true;
      started := false;
      ClearPending();
    }
  }

  /**
    What an app can rely on at every moment: a started controller is trying, is about to try
    again, or has said `ready`; one probe and one timer at most, with no delay beyond the cap.
  */
  lemma {:induction false} KeepsTrying(c: ReadinessController)
    requires c.Valid()
    ensures c.started ==> c.inFlight || c.pendingTimer.Some? || Machine.LastIsReady(c.Abs())
    ensures |c.probes| == (if c.inFlight then 1 else 0)
    ensures c.live.Keys == (if c.pendingTimer.Some? then {c.pendingTimer.value} else {})
    ensures forall h <- c.live :: c.live[h] <= c.backoff.maxMs
  {
    assert Machine.TimersKnown(c.Timers());
  }
}
