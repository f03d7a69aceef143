/**
  The service's token coalescer, which sits between the authoritative log and every live stream:
  consecutive tokens are merged into one event that carries the last sequence number, everything
  else is sent at once, and a terminal waits for a grace delay.
*/
module CoordinatorMachine {
  import opened Options
  import opened EvEvents

  datatype Batch = Batch(no: int, at: string, delta: string, count: nat)

  /** `window` and `grace` are the two armed timers, `out` everything emitted so far. */
  datatype State = State(
    pending: Option<Batch>, window: bool, terminal: Option<Event>, grace: bool, terminated: bool, out: seq<Event>)

  datatype Input = Push(event: Event) | WindowFires | GraceFires | FlushNow

  function Init(): State { State(None, false, None, false, false, []) }

  function AsToken(b: Batch): Event { Token(b.no, b.at, b.delta) }

  function FlushPending(c: State): State {
    if c.pending.None? then c.(window := false)
    else c.(window := false, pending := None, out := c.out + [AsToken(c.pending.value)])
  }

  function EmitTerminalNow(c: State): State {
    if c.terminal.None? then c.(grace := false)
    else c.(grace := false, window := false, terminal := None, terminated := true, out := c.out + [c.terminal.value])
  }

  function Merge(b: Option<Batch>, e: Event): Batch
    requires e.Token?
  {
    match b
    case None => Batch(e.no, e.at, e.delta, 1)
    case Some(b) => Batch(e.no, e.at, b.delta + e.delta, b.count + 1)
  }

  function Accumulate(c: State, e: Event, maxBatch: nat): State
    requires e.Token?
  {
    var b := Merge(c.pending, e);
    var c1 := c.(pending := Some(b));
    if b.count >= maxBatch then FlushPending(c1) else c1.(window := true)
  }

  function OnPush(c: State, e: Event, maxBatch: nat): State {
    if c.terminated then c
    else if e.Token? then Accumulate(c, e, maxBatch)
    else if e.Terminal? then FlushPending(c).(terminal := Some(e), grace := true)
    else
      var c1 := FlushPending(c);
      c1.(out := c1.out + [e])
  }

  function Next(c: State, i: Input, maxBatch: nat): State {
    match i
    case Push(e) => OnPush(c, e, maxBatch)
    case WindowFires => if c.window then FlushPending(c) else c
    case GraceFires => if c.grace then EmitTerminalNow(c) else c
    case FlushNow => EmitTerminalNow(FlushPending(c))
  }

  function Run(c: State, ins: seq<Input>, maxBatch: nat): State {
    if ins == [] then c else Next(Run(c, ins[..|ins|-1], maxBatch), ins[|ins|-1], maxBatch)
  }

  /** The events fed in, in order. */
  function Pushed(ins: seq<Input>): seq<Event> {
    if ins == [] then []
    else Pushed(ins[..|ins|-1]) + (if ins[|ins|-1].Push? then [ins[|ins|-1].event] else [])
  }

  // --- what every reachable state keeps ----------------------------------------------------

  predicate AtMostOneTerminal(es: seq<Event>) {
    forall i, j | 0 <= i < j < |es| :: !(es[i].Terminal? && es[j].Terminal?)
  }

  /**
    Nothing is stuck and nothing piles up: text held back is owed the window timer while the stream
    is live, a terminal held back is owed the grace timer, a batch is never full, and no second
    terminal is ever sent.
  */
  predicate Sound(c: State, maxBatch: nat) {
    && (c.pending.Some? ==> 0 < c.pending.value.count < maxBatch && (c.terminated || c.window))
    && (c.window ==> c.pending.Some?)
    && (c.grace <==> c.terminal.Some?) && (c.terminal.Some? ==> c.terminal.value.Terminal? && !c.terminated)
    && (c.terminated || Plain(c.out)) && AtMostOneTerminal(c.out)
  }

  lemma {:induction false} OneMorePlain(es: seq<Event>, e: Event)
    requires !e.Terminal? && AtMostOneTerminal(es)
    ensures AtMostOneTerminal(es + [e]) && (Plain(es) ==> Plain(es + [e]))
  {}

  lemma {:induction false} FlushKeepsSound(c: State, maxBatch: nat)
    requires Sound(c.(window := c.pending.Some? && !c.terminated), maxBatch + 1)
    ensures Sound(FlushPending(c), maxBatch)
  {
    if c.pending.Some? { OneMorePlain(c.out, AsToken(c.pending.value)); }
  }

  lemma {:induction false} EmitTerminalKeepsSound(c: State, maxBatch: nat)
    requires Sound(c, maxBatch)
    ensures Sound(EmitTerminalNow(c), maxBatch)
  {
    if c.terminal.Some? {
      var out := c.out + [c.terminal.value];
      forall i, j | 0 <= i < j < |out| ensures !(out[i].Terminal? && out[j].Terminal?) {
        assert out[i] == c.out[i] && out[i] in c.out;
      }
    }
  }

  lemma {:induction false} PushKeepsSound(c: State, e: Event, maxBatch: nat)
    requires Sound(c, maxBatch)
    ensures Sound(OnPush(c, e, maxBatch), maxBatch)
  {
    if !c.terminated {
      if e.Token? {
        var c1 := c.(pending := Some(Merge(c.pending, e)));
        FullBatchIsSent(c1, maxBatch);
      } else {
        FlushKeepsSound(c, maxBatch);
        if !e.Terminal? { OneMorePlain(FlushPending(c).out, e); }
      }
    }
  }

  lemma {:induction false} FullBatchIsSent(c: State, maxBatch: nat)
    requires c.pending.Some? && !c.terminated && Sound(c.(pending := None, window := false), maxBatch)
    ensures Sound(FlushPending(c), maxBatch)
    ensures 0 < c.pending.value.count < maxBatch ==> Sound(c.(window := true), maxBatch)
  {
    OneMorePlain(c.out, AsToken(c.pending.value));
  }

  lemma {:induction false} NextKeepsSound(c: State, i: Input, maxBatch: nat)
    requires Sound(c, maxBatch)
    ensures Sound(Next(c, i, maxBatch), maxBatch)
  {
    match i {
      case Push(e) => PushKeepsSound(c, e, maxBatch);
      case WindowFires => FlushKeepsSound(c, maxBatch);
      case GraceFires => EmitTerminalKeepsSound(c, maxBatch);
      case FlushNow =>
        FlushKeepsSound(c, maxBatch);
        EmitTerminalKeepsSound(FlushPending(c), maxBatch);
    }
  }

  /**
    In every run, whatever is pushed and however the timers fire, text held back by a live stream
    is owed a flush, a terminal held back is owed the grace timer, less than a full batch is
    buffered, and at most one terminal is ever sent.
  */
  lemma {:induction false} NothingIsStuck(ins: seq<Input>, maxBatch: nat)
    ensures Sound(Run(Init(), ins, maxBatch), maxBatch)
  {
    if ins != [] {
      NothingIsStuck(ins[..|ins|-1], maxBatch);
      NextKeepsSound(Run(Init(), ins[..|ins|-1], maxBatch), ins[|ins|-1], maxBatch);
    }
  }

  // --- coalescing preserves meaning --------------------------------------------------------

  predicate Plain(es: seq<Event>) { forall e <- es :: !e.Terminal? }

  /** Nothing is fed in after a terminal. */
  predicate EndsAtTerminal(es: seq<Event>) { es == [] || Plain(es[..|es|-1]) }

  /** What is still held back, in the order in which it would be sent. */
  function Held(c: State): seq<Event> {
    (if c.pending.Some? then [AsToken(c.pending.value)] else [])
    + (if c.terminal.Some? then [c.terminal.value] else [])
  }

  /** What was emitted since position `from`. */
  function Since(c: State, from: nat): seq<Event>
    requires from <= |c.out|
  {
    c.out[from..]
  }

  /**
    A reader that starts from view `v` when `from` events are out: what it has been sent, followed
    by what is held back for it, means the same as the events `es` fed in meanwhile.
  */
  ghost predicate Means(v: View, from: nat, c: State, es: seq<Event>) {
    from <= |c.out|
    && var now := Fold(v, Since(c, from));
    && Fold(now, Held(c)) == Fold(v, es)
    && (c.pending.Some? ==> c.terminal.None? && now.terminal.None? && (c.pending.value.no > now.lastSeq || c.pending.value.delta == ""))
    && (c.terminal.Some? ==> c.pending.None? && now.terminal.None?)
    && (c.terminated ==> c.pending.None? && c.terminal.None?)
    && (c.terminated || c.terminal.Some? ==> es != [] && es[|es|-1].Terminal?)
    && (!c.terminated ==> now.terminal.None?)
  }

  lemma {:induction false} FoldOneMore(v: View, from: nat, c: State, d: State, e: Event)
    requires from <= |c.out| && d.out == c.out + [e]
    ensures Since(d, from) == Since(c, from) + [e]
    ensures Fold(v, Since(d, from)) == Reduce(Fold(v, Since(c, from)), e)
  {
    FoldNext(v, Since(c, from), e);
  }

  lemma {:induction false} FlushMeans(v: View, from: nat, c: State, es: seq<Event>)
    requires Means(v, from, c, es)
    ensures Means(v, from, FlushPending(c), es)
  {
    if c.pending.Some? {
      var t := AsToken(c.pending.value);
      FoldOneMore(v, from, c, FlushPending(c), t);
      FoldSingle(Fold(v, Since(c, from)), t);
      assert Held(c) == [t];
    }
  }

  lemma {:induction false} TerminalMeans(v: View, from: nat, c: State, es: seq<Event>)
    requires Means(v, from, c, es)
    ensures Means(v, from, EmitTerminalNow(c), es)
  {
    if c.terminal.Some? {
      FoldOneMore(v, from, c, EmitTerminalNow(c), c.terminal.value);
      FoldSingle(Fold(v, Since(c, from)), c.terminal.value);
      assert Held(c) == [c.terminal.value];
    }
  }

  /** Two tokens in a row and their merger do the same to a live view. */
  lemma {:induction false} TokensMerge(w: View, b: Option<Batch>, e: Event)
    requires w.terminal.None? && e.Token? && (b.Some? ==> e.no > b.value.no)
    requires b.Some? ==> b.value.no > w.lastSeq || b.value.delta == ""
    requires e.no > w.lastSeq
    ensures Reduce(w, AsToken(Merge(b, e))) == Reduce(if b.Some? then Reduce(w, AsToken(b.value)) else w, e)
    ensures b.Some? ==> Reduce(w, AsToken(b.value)).terminal.None?
  {
    if b.Some? {
      assert w.text + (b.value.delta + e.delta) == (w.text + b.value.delta) + e.delta;
      if b.value.delta == "" { assert b.value.delta + e.delta == e.delta && w.text + "" == w.text; }
    }
  }

  lemma {:induction false} TokenMeans(v: View, from: nat, c: State, es: seq<Event>, e: Event, maxBatch: nat)
    requires Means(v, from, c, es) && Plain(es) && e.Token? && Fresh(v, es, c, e)
    ensures Means(v, from, Accumulate(c, e, maxBatch), es + [e])
  {
    var now := Fold(v, Since(c, from));
    NotOverYet(v, from, c, es);
    FoldNext(v, es, e);
    var b := Merge(c.pending, e);
    var c1 := c.(pending := Some(b));
    assert Held(c1) == [AsToken(b)];
    FoldSingle(now, AsToken(b));
    if c.pending.Some? {
      assert Held(c) == [AsToken(c.pending.value)];
      FoldSingle(now, AsToken(c.pending.value));
    } else {
      assert Held(c) == [];
    }
    TokensMerge(now, c.pending, e);
    assert Means(v, from, c1, es + [e]);
    FlushMeans(v, from, c1, es + [e]);
  }

  /** The next event of an ascending log. */
  predicate Fresh(v: View, es: seq<Event>, c: State, e: Event) {
    e.no > Fold(v, es).lastSeq && (c.pending.Some? ==> e.no > c.pending.value.no)
  }

  /** A log without a terminal has not sent or held back one. */
  lemma {:induction false} NotOverYet(v: View, from: nat, c: State, es: seq<Event>)
    requires Means(v, from, c, es) && Plain(es)
    ensures !c.terminated && c.terminal.None?
  {
    if es != [] { assert es[|es|-1] in es; }
  }

  lemma {:induction false} PlainPushMeans(v: View, from: nat, c: State, es: seq<Event>, e: Event, maxBatch: nat)
    requires Means(v, from, c, es) && Plain(es) && !e.Token?
    ensures Means(v, from, OnPush(c, e, maxBatch), es + [e])
  {
    NotOverYet(v, from, c, es);
    FlushMeans(v, from, c, es);
    var c1 := FlushPending(c);
    assert Held(c1) == [];
    FoldNext(v, es, e);
    if e.Terminal? { HoldMeans(v, from, c1, es, e); } else { SendMeans(v, from, c1, es, e); }
  }

  /** A terminal is held back, everything else is sent on at once. */
  lemma {:induction false} HoldMeans(v: View, from: nat, c: State, es: seq<Event>, e: Event)
    requires Means(v, from, c, es) && e.Terminal? && Held(c) == [] && !c.terminated
    ensures Means(v, from, c.(terminal := Some(e)), es + [e])
  {
    var d := c.(terminal := Some(e));
    assert Held(d) == [e] && Since(d, from) == Since(c, from);
    FoldNext(v, es, e);
    FoldSingle(Fold(v, Since(c, from)), e);
  }

  lemma {:induction false} SendMeans(v: View, from: nat, c: State, es: seq<Event>, e: Event)
    requires Means(v, from, c, es) && !e.Terminal? && Held(c) == [] && !c.terminated && c.pending.None?
    ensures Means(v, from, c.(out := c.out + [e]), es + [e])
  {
    var d := c.(out := c.out + [e]);
    FoldOneMore(v, from, c, d, e);
    FoldNext(v, es, e);
    assert Held(d) == [];
  }
}
