/**
  The permission controller in the form it has in the source: closure variables updated step by
  step. Every method is the step of PermissionMachine it stands for, and every handler the host or
  the app may call keeps the invariant behind the theorems about runs: no wake-up is lost.
*/
module PermissionControllerModule {
  import opened Options
  import Machine = PermissionMachine

  class PermissionController {
    // the closure variables
    var modal: Option<Machine.Modal>
    var timerHandle: Option<nat>
    var polling: bool
    var deciding: bool
    var lastPending: Option<Machine.Request>
    var consecutivePollFailures: nat
    var backoffTimer: Option<nat>
    var announced: set<string>
    const sessionFilter: string -> bool

    // the host around it
    var hidden: bool
    var clock: Machine.Clock
    var lists: nat
    var posting: seq<Machine.Post>
    ghost var paused: bool
    ghost var log: Machine.Log

    ghost function Abs(): Machine.State
      reads this
    {
      Machine.State(modal, lastPending, announced, polling, deciding, consecutivePollFailures, Timers(),
                    hidden, paused, lists, posting, log)
    }

    ghost function Timers(): Machine.Timers
      reads this
    {
      Machine.Timers(timerHandle, backoffTimer, clock)
    }

    /** What every handler requires and keeps. */
    ghost predicate Valid()
      reads this
    {
      Machine.Inv(Abs())
    }

    /** Nobody asked the controller to be quiet. */
    ghost predicate Awake()
      reads this
    {
      polling && !hidden && !paused
    }

    constructor (filter: string -> bool, hidden: bool)
      ensures Valid() && Abs() == Machine.Init(hidden) && sessionFilter == filter
    {
      sessionFilter := filter;
      modal, timerHandle, polling, deciding := None, None, false, false;
      lastPending, consecutivePollFailures, backoffTimer, announced := None, 0, None, {};
      this.hidden, clock := hidden, Machine.Clock({}, {}, 0);
      lists, posting, paused, log := 0, [], false, Machine.Log(0, [], []);
    }

    method CloseModal()
      modifies `modal
      ensures Abs() == Machine.CloseModal(old(Abs()))
    {
      modal := None;
    }

    method StartInterval()
      modifies `timerHandle, `backoffTimer, `clock
      ensures Timers() == Machine.StartInterval(old(Timers()))
    {
      if timerHandle.Some? { return; }
      timerHandle := Some(clock.next);
      clock := clock.(intervals := clock.intervals + {clock.next}, next := clock.next + 1);
    }

    method StopInterval()
      modifies `timerHandle, `backoffTimer, `clock
      ensures Timers() == Machine.StopInterval(old(Timers()))
    {
      if timerHandle.Some? {
        clock := clock.(intervals := clock.intervals - {timerHandle.value});
        timerHandle := None;
      }
    }

    method ClearBackoff()
      modifies `timerHandle, `backoffTimer, `clock
      ensures Timers() == Machine.ClearBackoff(old(Timers()))
    {
      if backoffTimer.Some? {
        clock := clock.(timeouts := clock.timeouts - {backoffTimer.value});
        backoffTimer := None;
      }
    }

    /** `refresh()` up to the list call. */
    method Refresh()
      modifies `lists, `log
      ensures Abs() == Machine.StartRefresh(old(Abs()))
    {
      if deciding { return; }
      lists := lists + 1;
      log := log.(polls := log.polls + 1);
    }

    /** `decide()` up to the POST. */
    method Decide(post: Machine.Post)
      modifies `modal, `deciding, `posting, `log
      ensures Abs() == Machine.Decide(old(Abs()), post)
    {
      if deciding { return; }
      deciding := true;
      CloseModal();
      posting := posting + [post];
      log := log.(posts := log.posts + [post]);
    }

    method ShowHead(head: Machine.Request, mode: Machine.Mode)
      modifies `lastPending, `announced, `modal, `deciding, `posting, `log
      ensures Abs() == Machine.ShowHead(old(Abs()), head, mode)
    {
      lastPending := Some(head);
      if head.id !in announced {
        announced := announced + {head.id};
      }
      assert announced == old(announced) + {head.id};
      if mode == Machine.ReadOnly {
        CloseModal();
        Decide(Machine.Deny(head.id));
        return;
      }
      if mode == Machine.WorkspaceAuto && head.level == Machine.Standard {
        CloseModal();
        Decide(Machine.Allow(head.id, Machine.Once));
        return;
      }
      if modal.Some? && modal.value.id == head.id { return; }
      CloseModal();
      modal := Some(Machine.Modal(head.id, false));
    }

    /** The rest of `refresh()` after the list call came back. */
    method Listed(pending: seq<Machine.Request>, mode: Machine.Mode)
      requires Valid() && lists > 0
      modifies this
      ensures Valid() && Abs() == Machine.OnListed(old(Abs()), pending, mode, sessionFilter)
    {
      Machine.ListedKeepsInv(Abs(), pending, mode, sessionFilter);
      TransportOk();
      Reconcile(Machine.Scoped(pending, sessionFilter), mode);
    }

    /** The list call came back: the failure count starts over, and the interval if it was lost. */
    method TransportOk()
      requires lists > 0
      modifies `lists, `consecutivePollFailures, `timerHandle, `backoffTimer, `clock
      ensures Abs() == Machine.OnTransportOk(old(Abs()))
    {
      lists := lists - 1;
      consecutivePollFailures := 0;
      if polling && !hidden && timerHandle.None? {
        StartInterval();
      }
    }

    /** What `refresh()` does with the requests that passed the session filter. */
    method Reconcile(scoped: seq<Machine.Request>, mode: Machine.Mode)
      modifies `lastPending, `announced, `modal, `deciding, `posting, `log
      ensures Abs() == Machine.Reconcile(old(Abs()), scoped, mode)
    {
      if |scoped| == 0 {
        CloseModal();
        announced := {};
        lastPending := None;
        return;
      }
      ShowHead(scoped[0], mode);
    }

    /** The rest of `refresh()` after the list call threw. */
    method ListFailed()
      requires Valid() && lists > 0
      modifies `lists, `consecutivePollFailures, `timerHandle, `backoffTimer, `clock
      ensures Valid() && Abs() == Machine.OnListFailed(old(Abs()))
    {
      Machine.ListFailedKeepsInv(Abs());
      CountFailure();
    }

    method CountFailure()
      requires lists > 0
      modifies `lists, `consecutivePollFailures, `timerHandle, `backoffTimer, `clock
      ensures Abs() == Machine.OnListFailed(old(Abs()))
    {
      lists := lists - 1;
      consecutivePollFailures := consecutivePollFailures + 1;
      if consecutivePollFailures >= 3 { BackOff(); }
    }

    /** From the third failure in a row on: a slower timer instead of the interval. */
    method BackOff()
      modifies `timerHandle, `backoffTimer, `clock
      ensures var stopped := Machine.StopInterval(old(Timers()));
        Timers() == (if polling then Machine.ArmBackoff(stopped) else stopped)
    {
      StopInterval();
      if polling { ArmBackoff(); }
    }

    method ArmBackoff()
      modifies `timerHandle, `backoffTimer, `clock
      ensures Timers() == Machine.ArmBackoff(old(Timers()))
    {
      if backoffTimer.None? {
        backoffTimer := Some(clock.next);
        clock := clock.(timeouts := clock.timeouts + {clock.next}, next := clock.next + 1);
      }
    }

    /** The rest of `decide()`: the callback, then `finally` with its refresh. */
    method Decided(k: nat, ok: bool)
      requires Valid() && k < |posting|
      modifies this
      ensures Valid() && Abs() == Machine.OnDecided(old(Abs()), k, ok)
      ensures !deciding && lists == old(lists) + 1
    {
      Machine.DecidedKeepsInv(Abs(), k, ok);
      if ok && lastPending.Some? {
        log := log.(notices := log.notices + [Machine.Notice(posting[k].id, lastPending.value.id)]);
      }
      posting := posting[..k] + posting[k+1..];
      deciding := false;
      Refresh();
    }

    method Tick(h: nat)
      requires Valid() && h in clock.intervals
      modifies this
      ensures Valid() && Abs() == Machine.Step(old(Abs()), Machine.Tick(h), sessionFilter)
    {
      Refresh();
    }

    method BackoffFires(h: nat)
      requires Valid() && h in clock.timeouts
      modifies this
      ensures Valid() && Abs() == Machine.OnBackoff(old(Abs()), h)
    {
      Machine.BackoffKeepsInv(Abs(), h);
      clock := clock.(timeouts := clock.timeouts - {h});
      backoffTimer := None;
      if !polling || hidden { return; }
      Refresh();
    }

    method OnVisibility(nowHidden: bool)
      requires Valid()
      modifies this
      ensures Valid() && Abs() == Machine.OnVisibility(old(Abs()), nowHidden)
      ensures polling ==> (timerHandle.Some? <==> !nowHidden)
    {
      Machine.VisibilityKeepsInv(Abs(), nowHidden);
      hidden := nowHidden;
      if !polling { return; }
      if hidden {
        StopInterval();
      } else {
        Refresh();
        StartInterval();
      }
    }

    method Start()
      requires Valid()
      modifies this
      ensures Valid() && Abs() == Machine.OnStart(old(Abs()))
      ensures polling && (!old(polling) && !hidden ==> timerHandle.Some?)
    {
      Machine.OnOffKeepsInv(Abs());
      if polling { return; }
      polling := true;
      paused := false;
      if hidden { return; }
      Refresh();
      StartInterval();
    }

    method Stop()
      requires Valid()
      modifies this
      ensures Valid() && Abs() == Machine.OnStop(old(Abs()))
      ensures modal.None? && clock.intervals == {} && clock.timeouts == {}
    {
      Machine.OnOffKeepsInv(Abs());
      polling := false;
      StopInterval();
      ClearBackoff();
      CloseModal();
    }

    method Pause()
      requires Valid()
      modifies this
      ensures Valid() && Abs() == Machine.OnPause(old(Abs()))
      ensures clock.intervals == {} && clock.timeouts == {}
    {
      Machine.PauseKeepsInv(Abs());
      paused := true;
      StopInterval();
      ClearBackoff();
    }

    method Resume()
      requires Valid()
      modifies `paused, `lists, `log, `consecutivePollFailures, `timerHandle, `backoffTimer, `clock
      ensures Valid() && Abs() == Machine.OnResume(old(Abs()))
      ensures polling && !hidden ==> timerHandle.Some? && backoffTimer.None? && consecutivePollFailures == 0
    {
      Machine.ResumeKeepsInv(Abs());
      paused := false;
      if !polling || hidden { return; }
      WakeUp();
    }

    method WakeUp()
      modifies `lists, `log, `consecutivePollFailures, `timerHandle, `backoffTimer, `clock
      ensures Abs() == Machine.StartRefresh(old(Abs())).(
                         failures := 0, timers := Machine.StartInterval(Machine.ClearBackoff(old(Timers()))))
    {
      ClearBackoff();
      consecutivePollFailures := 0;
      Refresh();
      StartInterval();
    }

    /** A button of the dialog: once closed or submitted it does nothing. */
    method Click(allow: bool, scope: Machine.Scope)
      requires Valid()
      modifies this
      ensures Valid()
      ensures Abs() == Machine.Step(old(Abs()),
                                    if allow then Machine.ClickAllow(scope) else Machine.ClickDeny, sessionFilter)
    {
      Machine.StepKeepsInv(Abs(), if allow then Machine.ClickAllow(scope) else Machine.ClickDeny, sessionFilter);
      if modal.None? || modal.value.submitted { return; }
      modal := Some(modal.value.(submitted := true));
      var id := modal.value.id;
      Decide(if allow then Machine.Allow(id, scope) else Machine.Deny(id));
    }
  }

  /**
    What an app can rely on at every moment: while awake the controller has an interval, a backoff
    timer, a list call or a decision outstanding, and only three failures in a row take the
    interval away; at most one decision is in flight; and no timer is left behind in the host.
  */
  lemma {:induction false} WakeUpIsOwed(c: PermissionController)
    requires c.Valid()
    ensures c.Awake() ==> c.timerHandle.Some? || c.backoffTimer.Some? || c.lists > 0 || c.deciding
    ensures c.Awake() && c.timerHandle.None? ==> c.consecutivePollFailures >= 3
    ensures |c.posting| <= 1 && (c.deciding <==> |c.posting| == 1)
    ensures c.clock.intervals == Machine.Handles(c.timerHandle) && c.clock.timeouts == Machine.Handles(c.backoffTimer)
    ensures c.modal.Some? ==> c.lastPending.Some? && c.lastPending.value.id == c.modal.value.id
  {
    assert Machine.TimersKnown(c.Timers());
  }
}
