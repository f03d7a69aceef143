/**
  The coalescer in the form it has in the source: closure variables updated step by step. Every
  method is the step of CoordinatorMachine it stands for, and what the service and the timers may
  call keeps its promise: nothing is stuck, nothing piles up, and no second terminal is sent.
*/
module StreamCoordinatorModule {
  import opened Options
  import opened EvEvents
  import Machine = CoordinatorMachine

  class StreamCoordinator {
    var pending: Option<Machine.Batch>
    var window: bool
    var grace: bool
    var pendingTerminal: Option<Event>
    var terminated: bool
    var out: seq<Event>
    const maxBatchTokens: nat

    ghost function Abs(): Machine.State
      reads this
    {
      Machine.State(pending, window, pendingTerminal, grace, terminated, out)
    }

    /** What every handler requires and keeps. */
    ghost predicate Valid()
      reads this
    {
      Machine.Sound(Abs(), maxBatchTokens)
    }

    constructor (maxBatchTokens: nat)
      ensures Valid() && Abs() == Machine.Init() && this.maxBatchTokens == maxBatchTokens
    {
      this.maxBatchTokens := maxBatchTokens;
      pending, window, grace, pendingTerminal, terminated, out := None, false, false, None, false, [];
    }

    method Emit(e: Event)
      modifies `out
      ensures out == old(out) + [e]
    {
      out := out + [e];
    }

    method EmitTerminalNow()
      modifies this
      ensures Abs() == Machine.EmitTerminalNow(old(Abs()))
    {
      grace := false;
      if pendingTerminal.None? { return; }
      var terminal := pendingTerminal.value;
      pendingTerminal := None;
      Emit(terminal);
      terminated := true;
      window := false;
    }

    method FlushPending()
      modifies `pending, `window, `out
      ensures Abs() == Machine.FlushPending(old(Abs()))
    {
      window := false;
      if pending.None? { return; }
      var batch := Machine.AsToken(pending.value);
      pending := None;
      Emit(batch);
    }

    method Accumulate(e: Event)
      requires e.Token?
      modifies `pending, `window, `out
      ensures Abs() == Machine.Accumulate(old(Abs()), e, maxBatchTokens)
    {
      if pending.None? {
        pending := Some(Machine.Batch(e.no, e.at, e.delta, 1));
      } else {
        var b := pending.value;
        pending := Some(Machine.Batch(e.no, e.at, b.delta + e.delta, b.count + 1));
      }
      if pending.value.count >= maxBatchTokens {
        FlushPending();
        return;
      }
      if !window {
        window := true;
      }
    }

    method Push(e: Event)
      requires Valid()
      modifies this
      ensures Valid() && Abs() == Machine.OnPush(old(Abs()), e, maxBatchTokens)
    {
      Machine.PushKeepsSound(Abs(), e, maxBatchTokens);
      if terminated { return; }
      if e.Token? {
        Accumulate(e);
        return;
      }
      FlushPending();
      if e.Terminal? {
        pendingTerminal := Some(e);
        grace := true;
        return;
      }
      Emit(e);
    }

    method Flush()
      requires Valid()
      modifies this
      ensures Valid() && Abs() == Machine.Next(old(Abs()), Machine.FlushNow, maxBatchTokens)
      ensures pending.None? && pendingTerminal.None? && !window && !grace
    {
      Machine.NextKeepsSound(Abs(), Machine.FlushNow, maxBatchTokens);
      FlushPending();
      EmitTerminalNow();
    }

    method WindowFires()
      requires Valid() && window
      modifies this
      ensures Valid() && Abs() == Machine.Next(old(Abs()), Machine.WindowFires, maxBatchTokens)
      ensures pending.None? && |out| == |old(out)| + 1
    {
      Machine.NextKeepsSound(Abs(), Machine.WindowFires, maxBatchTokens);
      window := false;
      FlushPending();
    }

    method GraceFires()
      requires Valid() && grace
      modifies this
      ensures Valid() && Abs() == Machine.Next(old(Abs()), Machine.GraceFires, maxBatchTokens)
      ensures terminated && out == old(out) + [old(pendingTerminal).value]
    {
      Machine.NextKeepsSound(Abs(), Machine.GraceFires, maxBatchTokens);
      grace := false;
      EmitTerminalNow();
    }
  }

  /** What the service can rely on at every moment. */
  lemma {:induction false} NothingIsStuck(c: StreamCoordinator)
    requires c.Valid()
    ensures c.pending.Some? && !c.terminated ==> c.window
    ensures c.pending.Some? ==> c.pending.value.count < c.maxBatchTokens
    ensures c.pendingTerminal.Some? ==> c.grace && !c.terminated
    ensures !c.terminated ==> Machine.Plain(c.out)
    ensures forall i, j | 0 <= i < j < |c.out| && c.out[i].Terminal? :: !c.out[j].Terminal?
  {
    assert Machine.AtMostOneTerminal(c.out);
  }
}
