/**
  The EV stream client in the form it has in the source. Every method is the step of
  EvStreamMachine it stands for, and every handler keeps the invariant behind the theorems about
  runs: at most one flush is outstanding and no render is lost.
*/
module EvStreamClientModule {
  import opened Options
  import opened EvEvents
  import opened SseFraming
  import Machine = EvStreamMachine

  class EvStreamClient {
    // the closure variables
    var view: View
    var flushScheduled: bool
    var stopped: bool
    var buffer: string
    const parse: string -> Option<Event>

    // where the asynchronous code stands, and what surrounds it
    var phase: Machine.Phase
    var flushes: nat
    var sink: Machine.Sink
    var sinceSeq: int
    ghost var adopted: View
    ghost var received: string

    ghost function Abs(): Machine.State
      reads this
    {
      Machine.State(view, flushScheduled, flushes, stopped, phase, buffer,
                    Machine.Link(adopted, sinceSeq, received), sink)
    }

    /** What every handler requires and keeps. */
    ghost predicate Valid()
      reads this
    {
      Machine.Inv(Abs(), parse)
    }

    constructor (parse: string -> Option<Event>)
      ensures Valid() && Abs() == Machine.Init() && this.parse == parse
    {
      this.parse := parse;
      view, flushScheduled, stopped, buffer := InitialView(), false, false, "";
      phase, flushes, sink := Machine.AwaitSnapshot, 0, Machine.Sink([], None, 0);
      sinceSeq, adopted, received := -1, InitialView(), "";
    }

    method Emit()
      modifies `flushScheduled, `flushes
      ensures Abs() == Machine.Emit(old(Abs()))
    {
      if flushScheduled { return; }
      flushScheduled := true;
      flushes := flushes + 1;
    }

    /** The scheduled callback. */
    method Flush()
      requires Valid() && flushes > 0
      modifies `flushScheduled, `flushes, `sink
      ensures Valid() && Abs() == Machine.OnFlush(old(Abs()))
      ensures flushes == 0 && sink.delivered == Some(view)
    {
      Machine.NextKeepsInv(Abs(), Machine.Flush, parse);
      flushes := flushes - 1;
      flushScheduled := false;
      sink := sink.(delivered := Some(view));
    }

    method Apply(e: Event)
      modifies `view, `sink, `flushScheduled, `flushes
      ensures Abs() == Machine.Apply(old(Abs()), e)
    {
      view := Reduce(view, e);
      sink := sink.(seen := sink.seen + [e]);
      Emit();
    }

    method ReportError()
      modifies `sink
      ensures Abs() == Machine.ReportError(old(Abs()))
    {
      sink := sink.(errors := sink.errors + 1);
    }

    method SurfaceDisconnect()
      modifies `view, `sink, `flushScheduled, `flushes
      ensures Abs() == Machine.ReportError(Machine.Emit(old(Abs()).(view := Machine.WithDisconnect(old(view)))))
    {
      view := Machine.WithDisconnect(view);
      Emit();
      ReportError();
    }

    /** After the read loop, once the reader is released. */
    method EndOfStream()
      modifies this
      ensures Abs() == Machine.EndOfStream(old(Abs()))
    {
      if view.terminal.None? && !stopped {
        phase := Machine.Done(Machine.Disconnected);
        SurfaceDisconnect();
      } else {
        phase := Machine.Done(if view.terminal.Some? then Machine.Finished else Machine.Stopped);
      }
    }

    /** `settle`: an exception reached the top. */
    method Fail()
      modifies this
      ensures Abs() == Machine.Fail(old(Abs()))
    {
      if stopped {
        phase := Machine.Done(Machine.Stopped);
        return;
      }
      phase := Machine.Done(Machine.Failed);
      ReportError();
    }

    method SnapshotArrives(reply: Machine.Reply)
      requires Valid() && phase.AwaitSnapshot?
      modifies this
      ensures Valid() && Abs() == Machine.OnSnapshot(old(Abs()), reply)
    {
      Machine.NextKeepsInv(Abs(), Machine.SnapshotArrives(reply), parse);
      UseReply(reply);
    }

    /** `loadSnapshot` is back: adopt what it brought and ask for the stream after it. */
    method UseReply(reply: Machine.Reply)
      modifies this
      ensures Abs() == Machine.OnSnapshot(old(Abs()), reply)
    {
      match reply {
        case Refused =>
          Fail();
          return;
        case NotFound =>
          view, sinceSeq := InitialView(), -1;
        case Found(v, resume) =>
          view, sinceSeq := v, if resume.Some? then resume.value else -1;
      }
      adopted, received := view, "";
      Emit();
      phase := if view.terminal.Some? then Machine.Done(Machine.Finished) else Machine.AwaitStream;
    }

    method StreamOpens(hasBody: bool)
      requires Valid() && phase.AwaitStream?
      modifies this
      ensures Valid() && Abs() == Machine.OnOpen(old(Abs()), hasBody)
    {
      Machine.OpenKeepsInv(Abs(), hasBody, parse);
      if !hasBody {
        phase := Machine.Done(Machine.NoBody);
        return;
      }
      phase := Machine.Reading;
      buffer := "";
      received := "";
    }

    /** One turn of the read loop: split what has arrived and apply every complete block. */
    method Chunk(text: string)
      requires Valid() && phase.Reading?
      modifies this
      ensures Valid() && Abs() == Machine.OnChunk(old(Abs()), text, parse)
    {
      Machine.ChunkKeepsInv(Abs(), text, parse);
      buffer := buffer + text;
      if |buffer| > Machine.MAX_SSE_BUFFER {
        phase := Machine.Closing(false);
        return;
      }
      var pieces := Split(buffer);
      var blocks := pieces[..|pieces|-1];
      buffer := pieces[|pieces|-1];
      received := received + text;
      ApplyBlocks(blocks);
      if view.terminal.Some? {
        phase := Machine.Closing(false);
      }
    }

    method ApplyBlocks(blocks: seq<string>)
      modifies `view, `sink, `flushScheduled, `flushes
      ensures Abs() == Machine.ApplyAll(old(Abs()), Decoded(blocks, parse))
    {
      for i := 0 to |blocks|
        invariant Abs() == Machine.ApplyAll(old(Abs()), Decoded(blocks[..i], parse))
      {
        assert blocks[..i+1][..i] == blocks[..i];
        var e := DecodeFrame(blocks[i], parse);
        if e.Some? {
          ghost var done := Decoded(blocks[..i], parse);
          assert (done + [e.value])[..|done|] == done;
          Apply(e.value);
        }
      }
      assert blocks[..|blocks|] == blocks;
    }

    /** The stream ends without a terminal block. */
    method Eof()
      requires Valid() && phase.Reading?
      modifies `phase
      ensures Valid() && Abs() == Machine.Next(old(Abs()), Machine.Eof, parse)
    {
      Machine.NextKeepsInv(Abs(), Machine.Eof, parse);
      phase := Machine.Closing(false);
    }

    method ReadThrows()
      requires Valid() && phase.Reading?
      modifies `phase
      ensures Valid() && Abs() == Machine.Next(old(Abs()), Machine.ReadFails, parse)
    {
      Machine.NextKeepsInv(Abs(), Machine.ReadFails, parse);
      phase := Machine.Closing(true);
    }

    /** The reader is cancelled; a `stop()` until now keeps the end of the attempt silent. */
    method ReaderCancelled()
      requires Valid() && phase.Closing?
      modifies this
      ensures Valid() && Abs() == Machine.OnClosed(old(Abs()))
      ensures sink.errors == old(sink.errors) + if stopped || (view.terminal.Some? && !old(phase.broken)) then 0 else 1
    {
      Machine.NextKeepsInv(Abs(), Machine.Closed, parse);
      if phase.broken { Fail(); } else { EndOfStream(); }
    }

    /** A request throws. */
    method FetchThrows()
      requires Valid() && (phase.AwaitSnapshot? || phase.AwaitStream?)
      modifies this
      ensures Valid() && Abs() == Machine.Fail(old(Abs()))
      ensures !stopped ==> sink.errors == old(sink.errors) + 1
    {
      Machine.NextKeepsInv(Abs(), Machine.FetchFails, parse);
      Fail();
    }

    method Stop()
      requires Valid()
      modifies `stopped
      ensures Valid() && Abs() == Machine.Next(old(Abs()), Machine.Stop, parse)
    {
      Machine.NextKeepsInv(Abs(), Machine.Stop, parse);
      stopped := true;
    }

    method Reconnect()
      requires Valid() && phase.Done?
      modifies `phase
      ensures Valid() && Abs() == Machine.Next(old(Abs()), Machine.Reconnect, parse)
    {
      Machine.NextKeepsInv(Abs(), Machine.Reconnect, parse);
      if stopped { return; }
      phase := Machine.AwaitSnapshot;
    }
  }

  /**
    What the app can rely on at every moment: at most one flush is outstanding, without one it has
    been given the current view, and while reading the view is what the received text makes of
    the snapshot, however it was cut.
  */
  lemma {:induction false} NoRenderIsLost(c: EvStreamClient)
    requires c.Valid()
    ensures c.flushes <= 1 && (c.flushScheduled <==> c.flushes == 1)
    ensures c.flushes == 0 ==> c.sink.delivered == Some(c.view) || (c.sink.delivered.None? && c.view == InitialView())
    ensures c.phase.Reading? ==> c.view == Fold(c.adopted, Decoded(Blocks(c.received), c.parse))
    ensures c.phase.Reading? ==> c.buffer == Residue(c.received) && c.view.terminal.None?
  {
    assert Machine.UpToDate(c.Abs());
  }
}
