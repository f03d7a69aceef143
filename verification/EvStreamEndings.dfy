/** How a connection of the EV stream client ends when nobody stopped it, and what the app is told. */
module EvStreamEndings {
  import opened Options
  import opened EvEvents
  import opened SseFraming
  import opened EvStreamMachine
  import opened EvStreamProperties

  /** One error is reported and the view stays as it was. */
  predicate ToldOnly(s: State, t: State) {
    t.phase == Done(Failed) && t.view == s.view && t.sink == s.sink.(errors := s.sink.errors + 1)
  }

  /** One error is reported, and the view that the app gets next carries the notice and is otherwise unchanged. */
  predicate ToldInView(s: State, t: State) {
    && t.phase == Done(Disconnected) && t.sink == s.sink.(errors := s.sink.errors + 1) && t.flushScheduled
    && t.view.board.error == Some(ErrorView("Mất kết nối luồng sự kiện.", Some("retry")))
    && t.view == s.view.(board := s.view.board.(error := t.view.board.error))
  }

  /** A request fails, or the snapshot is refused. */
  predicate RequestFails(s: State, c: Input) {
    || (c == FetchFails && (s.phase.AwaitSnapshot? || s.phase.AwaitStream?))
    || (c == SnapshotArrives(Refused) && s.phase.AwaitSnapshot?)
  }

  lemma {:induction false} FailedRequestIsTold(cs: seq<Input>, c: Input, parse: string -> Option<Event>)
    requires var s := Run(Init(), cs, parse); !s.stopped && RequestFails(s, c)
    ensures ToldOnly(Run(Init(), cs, parse), Run(Init(), cs + [c], parse))
  {
    RunNext(Init(), cs, c, parse);
  }

  lemma {:induction false} RunTwo(s: State, cs: seq<Input>, c: Input, d: Input, parse: string -> Option<Event>)
    ensures Run(s, cs + [c, d], parse) == Next(Next(Run(s, cs, parse), c, parse), d, parse)
  {
    OneByOne(cs, c, d);
    RunNext(s, cs, c, parse);
    RunNext(s, cs + [c], d, parse);
  }

  lemma {:induction false} OneByOne(cs: seq<Input>, c: Input, d: Input)
    ensures cs + [c, d] == cs + [c] + [d]
  {}

  lemma {:induction false} BrokenConnection(s: State, parse: string -> Option<Event>)
    requires s.phase.Reading? && !s.stopped
    ensures ToldOnly(s, Next(Next(s, ReadFails, parse), Closed, parse))
  {}

  lemma {:induction false} LostConnection(s: State, parse: string -> Option<Event>)
    requires s.phase == Closing(false) && !s.stopped && s.view.terminal.None?
    ensures ToldInView(s, Next(s, Closed, parse))
  {}

  lemma {:induction false} QuietEnd(s: State, parse: string -> Option<Event>)
    ensures s.phase == Closing(false) && s.view.terminal.Some? ==> Next(s, Closed, parse) == s.(phase := Done(Finished))
  {}

  /** The text received so far that is not yet a complete block, and `text` behind it, as far as they are read. */
  predicate Fits(s: State, text: string) { |Residue(s.link.received)| + |text| <= 1024 * 1024 }

  lemma {:induction false} OneRead(s: State, text: string, parse: string -> Option<Event>)
    requires Inv(s, parse) && s.phase.Reading?
    ensures var t := Next(s, Chunk(text), parse);
      if Fits(s, text) then
        && t.view == Fold(s.view, Decoded(Blocks(Residue(s.link.received) + text), parse))
        && t.phase == (if t.view.terminal.Some? then Closing(false) else Reading)
        && t.sink.errors == s.sink.errors && t.stopped == s.stopped
      else t == s.(buffer := t.buffer, phase := Closing(false))
  {
    var b := s.buffer + text;
    if |b| <= MAX_SSE_BUFFER {
      var s1 := s.(buffer := Residue(b), link := s.link.(received := s.link.received + text));
      ApplyAllFolds(s1, Decoded(Blocks(b), parse));
    }
  }

  lemma {:induction false} InitKeepsInv(cs: seq<Input>, parse: string -> Option<Event>)
    ensures Inv(Run(Init(), cs, parse), parse)
  {
    RunKeepsInv(Init(), cs, parse);
  }

  /**
    A connection that breaks is told as a failure; a stream that ends before the run is over is told
    as a lost connection, in the view as well.
  */
  lemma {:induction false} EveryPrematureEndIsTold(cs: seq<Input>, parse: string -> Option<Event>)
    requires Run(Init(), cs, parse).phase.Reading? && !Run(Init(), cs, parse).stopped
    ensures ToldOnly(Run(Init(), cs, parse), Run(Init(), cs + [ReadFails, Closed], parse))
    ensures ToldInView(Run(Init(), cs, parse), Run(Init(), cs + [Eof, Closed], parse))
  {
    var s := Run(Init(), cs, parse);
    InitKeepsInv(cs, parse);
    RunTwo(Init(), cs, ReadFails, Closed, parse);
    RunTwo(Init(), cs, Eof, Closed, parse);
    BrokenConnection(s, parse);
    LostConnection(Next(s, Eof, parse), parse);
  }

  /** A read that takes the buffer over its cap counts as the end of the stream: what it brought is dropped. */
  lemma {:induction false} TooMuchTextIsTold(cs: seq<Input>, text: string, parse: string -> Option<Event>)
    requires Run(Init(), cs, parse).phase.Reading? && !Run(Init(), cs, parse).stopped
    requires !Fits(Run(Init(), cs, parse), text)
    ensures ToldInView(Run(Init(), cs, parse), Run(Init(), cs + [Chunk(text), Closed], parse))
  {
    var s := Run(Init(), cs, parse);
    InitKeepsInv(cs, parse);
    RunTwo(Init(), cs, Chunk(text), Closed, parse);
    OneRead(s, text, parse);
    LostConnection(Next(s, Chunk(text), parse), parse);
  }

  /** Any other read is applied; if it brings the terminal the connection ends quietly, if not it reads on. */
  lemma {:induction false} ReadIsApplied(cs: seq<Input>, text: string, parse: string -> Option<Event>)
    requires Run(Init(), cs, parse).phase.Reading? && Fits(Run(Init(), cs, parse), text)
    ensures var s, t := Run(Init(), cs, parse), Run(Init(), cs + [Chunk(text)], parse);
      && t.view == Fold(s.view, Decoded(Blocks(Residue(s.link.received) + text), parse)) && t.sink.errors == s.sink.errors
      && (if t.view.terminal.None? then t.phase.Reading?
          else var u := Run(Init(), cs + [Chunk(text), Closed], parse);
               u.phase == Done(Finished) && u.view == t.view && u.sink == t.sink)
  {
    InitKeepsInv(cs, parse);
    RunNext(Init(), cs, Chunk(text), parse);
    RunTwo(Init(), cs, Chunk(text), Closed, parse);
    OneRead(Run(Init(), cs, parse), text, parse);
    QuietEnd(Next(Run(Init(), cs, parse), Chunk(text), parse), parse);
  }

  lemma {:induction false} RunSplit(s: State, a: seq<Input>, b: seq<Input>, parse: string -> Option<Event>)
    ensures Run(s, a + b, parse) == Run(Run(s, a, parse), b, parse)
    decreases |b|
  {
    if b == [] {
      assert a + b == a;
    } else {
      RunSplit(s, a, b[..|b|-1], parse);
      assert (a + b)[..|a + b|-1] == a + b[..|b|-1];
    }
  }

  /** After `stop()` the app is told of no error any more, however the connection ends. */
  lemma {:induction false} NothingIsToldAfterStop(cs: seq<Input>, rest: seq<Input>, parse: string -> Option<Event>)
    ensures var s, t := Run(Init(), cs, parse), Run(Init(), cs + [Stop] + rest, parse);
      t.stopped && t.sink.errors == s.sink.errors && (s.phase != Done(Disconnected) ==> t.phase != Done(Disconnected))
  {
    RunNext(Init(), cs, Stop, parse);
    RunSplit(Init(), cs + [Stop], rest, parse);
    StopIsSilent(Run(Init(), cs + [Stop], parse), rest, parse);
  }
}
