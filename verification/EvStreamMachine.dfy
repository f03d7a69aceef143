/**
  The renderer's EV stream client as a state machine: snapshot first, then live blocks folded into
  the running view, renders coalesced into one outstanding flush. One event is one atomic stretch
  of its code, up to the next `await`. A reconnect is possible once `done` has settled.
*/
module EvStreamMachine {
  import opened Options
  import opened EvEvents
  import opened SseFraming

  const MAX_SSE_BUFFER: nat := 1_048_576
  const DISCONNECT_MESSAGE := "Mất kết nối luồng sự kiện."

  datatype Why = Finished | Disconnected | Failed | NoBody | Stopped

  /** `Closing` is the wait for the reader to be cancelled, after the loop or after an exception in it. */
  datatype Phase = AwaitSnapshot | AwaitStream | Reading | Closing(broken: bool) | Done(why: Why)

  /** The snapshot endpoint's answer; `Refused` is a wrong protocol tag or an error envelope. */
  datatype Reply = Found(view: View, resumeSeq: Option<int>) | NotFound | Refused

  /** What the app was given: `onEvent` calls, the last `onView` view, the number of `onError` calls. */
  datatype Sink = Sink(seen: seq<Event>, delivered: Option<View>, errors: nat)

  /** The snapshot a connection continues, the cursor its stream was asked for, and the text received on it. */
  datatype Link = Link(adopted: View, since: int, received: string)

  datatype State = State(
    view: View, flushScheduled: bool, flushes: nat, stopped: bool,
    phase: Phase, buffer: string, link: Link, sink: Sink)

  datatype Input =
    | SnapshotArrives(reply: Reply)
    | FetchFails
    | StreamOpens(hasBody: bool)
    | Chunk(text: string)
    | Eof
    | ReadFails
    | Closed
    | Flush
    | Stop
    | Reconnect

  function Init(): State {
    State(InitialView(), false, 0, false, AwaitSnapshot, "", Link(InitialView(), -1, ""), Sink([], None, 0))
  }

  // --- the client's helpers ----------------------------------------------------------------

  function Emit(s: State): State {
    if s.flushScheduled then s else s.(flushScheduled := true, flushes := s.flushes + 1)
  }

  function ReportError(s: State): State { s.(sink := s.sink.(errors := s.sink.errors + 1)) }

  function Apply(s: State, e: Event): State {
    Emit(s.(view := Reduce(s.view, e), sink := s.sink.(seen := s.sink.seen + [e])))
  }

  function ApplyAll(s: State, es: seq<Event>): State {
    if es == [] then s else Apply(ApplyAll(s, es[..|es|-1]), es[|es|-1])
  }

  function WithDisconnect(v: View): View {
    v.(board := v.board.(error := Some(ErrorView(DISCONNECT_MESSAGE, Some("retry")))))
  }

  /** The read loop is over and the reader released: finished, stopped on purpose, or a premature disconnect. */
  function EndOfStream(s: State): State {
    if s.view.terminal.Some? then s.(phase := Done(Finished))
    else if s.stopped then s.(phase := Done(Stopped))
    else ReportError(Emit(s.(view := WithDisconnect(s.view), phase := Done(Disconnected))))
  }

  function Fail(s: State): State {
    if s.stopped then s.(phase := Done(Stopped)) else ReportError(s.(phase := Done(Failed)))
  }

  function OnClosed(s: State): State
    requires s.phase.Closing?
  {
    if s.phase.broken then Fail(s) else EndOfStream(s)
  }

  // --- the steps ---------------------------------------------------------------------------

  function Adopt(s: State, v: View, since: int): State {
    var s1 := Emit(s.(view := v, link := Link(v, since, "")));
    s1.(phase := if v.terminal.Some? then Done(Finished) else AwaitStream)
  }

  function OnSnapshot(s: State, reply: Reply): State {
    match reply
    case Refused => Fail(s)
    case NotFound => Adopt(s, InitialView(), -1)
    case Found(v, resume) => Adopt(s, v, if resume.Some? then resume.value else -1)
  }

  function OnOpen(s: State, hasBody: bool): State {
    if hasBody then s.(phase := Reading, buffer := "", link := s.link.(received := ""))
    else s.(phase := Done(NoBody))
  }

  function OnChunk(s: State, text: string, parse: string -> Option<Event>): State {
    var buffer := s.buffer + text;
    if |buffer| > MAX_SSE_BUFFER then s.(buffer := buffer, phase := Closing(false))
    else
      var s1 := s.(buffer := Residue(buffer), link := s.link.(received := s.link.received + text));
      var s2 := ApplyAll(s1, Decoded(Blocks(buffer), parse));
      if s2.view.terminal.Some? then s2.(phase := Closing(false)) else s2
  }

  function OnFlush(s: State): State
    requires s.flushes > 0
  {
    s.(flushes := s.flushes - 1, flushScheduled := false, sink := s.sink.(delivered := Some(s.view)))
  }

  /** An event that the environment cannot produce in `s` leaves it as it is. */
  function Next(s: State, e: Input, parse: string -> Option<Event>): State {
    match e
    case SnapshotArrives(reply) => if s.phase.AwaitSnapshot? then OnSnapshot(s, reply) else s
    case FetchFails => if s.phase.AwaitSnapshot? || s.phase.AwaitStream? then Fail(s) else s
    case StreamOpens(hasBody) => if s.phase.AwaitStream? then OnOpen(s, hasBody) else s
    case Chunk(text) => if s.phase.Reading? then OnChunk(s, text, parse) else s
    case Eof => if s.phase.Reading? then s.(phase := Closing(false)) else s
    case ReadFails => if s.phase.Reading? then s.(phase := Closing(true)) else s
    case Closed => if s.phase.Closing? then OnClosed(s) else s
    case Flush => if s.flushes > 0 then OnFlush(s) else s
    case Stop => s.(stopped := true)
    case Reconnect => if s.phase.Done? && !s.stopped then s.(phase := AwaitSnapshot) else s
  }

  function Run(s: State, es: seq<Input>, parse: string -> Option<Event>): State {
    if es == [] then s else Next(Run(s, es[..|es|-1], parse), es[|es|-1], parse)
  }

  // --- what every reachable state keeps ----------------------------------------------------

  lemma {:induction false} ApplyAllFolds(s: State, es: seq<Event>)
    ensures var t := ApplyAll(s, es);
      t.view == Fold(s.view, es) && t.sink == s.sink.(seen := s.sink.seen + es)
      && t.phase == s.phase && t.buffer == s.buffer && t.link == s.link && t.stopped == s.stopped
      && (es == [] ==> t == s)
      && (es != [] ==> t.flushScheduled && t.flushes == (if s.flushScheduled then s.flushes else s.flushes + 1))
  {
    if es != [] {
      ApplyAllFolds(s, es[..|es|-1]);
      assert s.sink.seen + es == (s.sink.seen + es[..|es|-1]) + [es[|es|-1]];
    } else {
      assert s.sink.seen + es == s.sink.seen;
    }
  }

  /** One flush is outstanding, or the app has already been given the current view. */
  predicate UpToDate(s: State) {
    s.flushScheduled || s.sink.delivered == Some(s.view) || (s.sink.delivered.None? && s.view == InitialView())
  }

  /** What is in the view and in the buffer is a function of the text received, not of its chunks. */
  ghost predicate InStep(s: State, parse: string -> Option<Event>) {
    && s.buffer == Residue(s.link.received)
    && s.view == Fold(s.link.adopted, Decoded(Blocks(s.link.received), parse))
  }

  ghost predicate Inv(s: State, parse: string -> Option<Event>) {
    && s.flushes == (if s.flushScheduled then 1 else 0) && UpToDate(s)
    && (s.phase.AwaitStream? ==> s.view == s.link.adopted && s.view.terminal.None?)
    && (s.phase.Reading? ==> s.view.terminal.None? && InStep(s, parse))
    && (s.phase == Done(Finished) ==> s.view.terminal.Some?)
    && (s.phase == Done(NoBody) ==> s.view.terminal.None?)
  }

  lemma {:induction false} ChunkKeepsInv(s: State, text: string, parse: string -> Option<Event>)
    requires Inv(s, parse) && s.phase.Reading?
    ensures Inv(OnChunk(s, text, parse), parse)
  {
    var buffer := s.buffer + text;
    if |buffer| <= MAX_SSE_BUFFER {
      var r := s.link.received;
      SplitInPieces(r, text);
      DecodedSplit(Blocks(r), Blocks(buffer), parse);
      FoldSplit(s.link.adopted, Decoded(Blocks(r), parse), Decoded(Blocks(buffer), parse));
      var s1 := s.(buffer := Residue(buffer), link := s.link.(received := r + text));
      ApplyAllFolds(s1, Decoded(Blocks(buffer), parse));
    }
  }

  lemma {:induction false} OpenKeepsInv(s: State, hasBody: bool, parse: string -> Option<Event>)
    requires Inv(s, parse) && s.phase.AwaitStream?
    ensures Inv(OnOpen(s, hasBody), parse)
  {
    assert Split("") == [""];
  }

  lemma {:induction false} NextKeepsInv(s: State, e: Input, parse: string -> Option<Event>)
    requires Inv(s, parse)
    ensures Inv(Next(s, e, parse), parse)
  {
    match e {
      case Chunk(text) => if s.phase.Reading? { ChunkKeepsInv(s, text, parse); }
      case StreamOpens(hasBody) => if s.phase.AwaitStream? { OpenKeepsInv(s, hasBody, parse); }
      case _ =>
    }
  }

  lemma {:induction false} RunKeepsInv(s: State, es: seq<Input>, parse: string -> Option<Event>)
    requires Inv(s, parse)
    ensures Inv(Run(s, es, parse), parse)
  {
    if es != [] {
      RunKeepsInv(s, es[..|es|-1], parse);
      NextKeepsInv(Run(s, es[..|es|-1], parse), es[|es|-1], parse);
    }
  }
}
