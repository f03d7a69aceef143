/**
  From the authoritative log to the screen: the server folds raw events and feeds them to the
  coalescer, the route drops what the reader's cursor covers and frames the rest, the connection
  cuts the text anywhere, and the client folds what it can decode.
*/
module EndToEnd {
  import opened Options
  import opened EvEvents
  import opened SseFraming
  import opened EvStreamMachine
  import opened EvStreamProperties
  import C = CoordinatorMachine
  import P = CoordinatorProperties
  import R = ResumeProperties

  // --- the terminal is the last thing delivered ---------------------------------------------

  /** After being fed `es`, with no terminal before position `from`: what was sent ends at its terminal. */
  ghost predicate Ends(d: C.State, from: nat, es: seq<Event>) {
    && from <= |d.out| && C.EndsAtTerminal(es)
    && (C.Plain(es) ==> !d.terminated && d.terminal.None? && C.Plain(C.Since(d, from)))
    && (!C.Plain(es) && !d.terminated ==> d.pending.None? && C.Plain(C.Since(d, from)))
    && (!C.Plain(es) && d.terminated ==> d.pending.None? && d.terminal.None? && C.EndsAtTerminal(C.Since(d, from)))
  }

  lemma {:induction false} PlainMore(es: seq<Event>, e: Event)
    ensures C.Plain(es + [e]) <==> C.Plain(es) && !e.Terminal?
    ensures C.Plain(es) ==> C.EndsAtTerminal(es + [e])
  {
    assert e in es + [e] && forall x <- es :: x in es + [e];
    assert (es + [e])[..|es|] == es;
  }

  lemma {:induction false} FlushEnds(d: C.State, from: nat, es: seq<Event>)
    requires Ends(d, from, es)
    ensures Ends(C.FlushPending(d), from, es)
  {
    if d.pending.Some? {
      var t := C.AsToken(d.pending.value);
      assert C.Since(C.FlushPending(d), from) == C.Since(d, from) + [t];
      PlainMore(C.Since(d, from), t);
    }
  }

  lemma {:induction false} TerminalEnds(d: C.State, from: nat, es: seq<Event>)
    requires Ends(d, from, es)
    ensures Ends(C.EmitTerminalNow(d), from, es)
  {
    if d.terminal.Some? {
      assert C.Since(C.EmitTerminalNow(d), from) == C.Since(d, from) + [d.terminal.value];
      PlainMore(C.Since(d, from), d.terminal.value);
    }
  }

  lemma {:induction false} PushEnds(d: C.State, from: nat, es: seq<Event>, e: Event, maxBatch: nat)
    requires Ends(d, from, es) && C.Plain(es)
    ensures Ends(C.OnPush(d, e, maxBatch), from, es + [e])
  {
    PlainMore(es, e);
    FlushEnds(d, from, es);
    if e.Token? {
      var t := d.(pending := Some(C.Merge(d.pending, e)));
      assert C.Since(t, from) == C.Since(d, from);
      FlushEnds(t, from, es + [e]);
      assert C.Since(t.(window := true), from) == C.Since(t, from);
    } else if !e.Terminal? {
      var f := C.FlushPending(d);
      assert C.Since(C.OnPush(d, e, maxBatch), from) == C.Since(f, from) + [e];
      PlainMore(C.Since(f, from), e);
    } else {
      assert C.Since(C.OnPush(d, e, maxBatch), from) == C.Since(C.FlushPending(d), from);
    }
  }

  lemma {:induction false} RunEnds(d: C.State, from: nat, es: seq<Event>, ins: seq<C.Input>, maxBatch: nat)
    requires Ends(d, from, es) && C.EndsAtTerminal(es + C.Pushed(ins))
    ensures Ends(C.Run(d, ins, maxBatch), from, es + C.Pushed(ins))
  {
    if ins == [] {
      assert es + [] == es;
    } else {
      var init, i := ins[..|ins|-1], ins[|ins|-1];
      var fed := es + C.Pushed(init);
      var t := C.Run(d, init, maxBatch);
      if i.Push? {
        assert es + C.Pushed(ins) == fed + [i.event];
        EndsLess(fed, i.event);
        RunEnds(d, from, es, init, maxBatch);
        PushEnds(t, from, fed, i.event, maxBatch);
      } else {
        assert C.Pushed(ins) == C.Pushed(init);
        RunEnds(d, from, es, init, maxBatch);
        FlushEnds(t, from, fed);
        TerminalEnds(t, from, fed);
        TerminalEnds(C.FlushPending(t), from, fed);
      }
    }
  }

  lemma {:induction false} EndsLess(es: seq<Event>, e: Event)
    requires C.EndsAtTerminal(es + [e])
    ensures C.Plain(es) && C.EndsAtTerminal(es)
  {
    assert (es + [e])[..|es|] == es;
    if es != [] { assert forall x <- es[..|es|-1] :: x in es; }
  }

  lemma {:induction false} NewerEnds(es: seq<Event>, since: int)
    requires C.EndsAtTerminal(es)
    ensures C.EndsAtTerminal(P.Newer(es, since)) && (C.Plain(es) ==> C.Plain(P.Newer(es, since)))
  {
    if es != [] {
      var init, e := es[..|es|-1], es[|es|-1];
      assert forall x <- init :: x in es;
      assert e in es;
      if init != [] { assert forall x <- init[..|init|-1] :: x in init; }
      NewerEnds(init, since);
      PlainMore(P.Newer(init, since), e);
    }
  }

  /** What a reader is sent holds no terminal but the last event. */
  lemma {:induction false} DeliveredEnds(since: int, w: View, missed: seq<Event>, d: C.State, ins: seq<C.Input>, maxBatch: nat)
    requires w.terminal.None? && P.Continues(missed, w.lastSeq)
    requires C.Plain(missed) ==> !d.terminated && d.terminal.None? && C.EndsAtTerminal(C.Pushed(ins))
    ensures C.EndsAtTerminal(R.Delivered(since, w, missed, d, ins, maxBatch))
  {
    R.StillLiveIff(w, missed);
    if C.Plain(missed) {
      assert C.Since(d, |d.out|) == [] && [] + C.Pushed(ins) == C.Pushed(ins);
      RunEnds(d, |d.out|, [], ins, maxBatch);
      NewerEnds(R.SentFrom(d, ins, maxBatch), since);
    }
  }

  // --- the client shows exactly what the sent events mean -----------------------------------

  /** A client that has just opened the live stream on snapshot `w`. */
  ghost predicate Opened(s: State, w: View) {
    s.phase.Reading? && s.view == w && w.terminal.None? && s.buffer == ""
  }

  /** Once the whole wire text of `es` has been read, in any chunks, the view is the fold of `es`. */
  lemma {:induction false} WireShows(s: State, w: View, es: seq<Event>, fs: seq<Frame>, chunks: seq<string>,
                                     parse: string -> Option<Event>, stringify: Event -> string)
    requires Opened(s, w) && Codec(parse, stringify) && C.EndsAtTerminal(es)
    requires Events(fs) == es && Concat(chunks) == Wire(fs, stringify) && WithinCap("", chunks)
    ensures Read(s, chunks, parse).view == Fold(w, es)
  {
    EmptyBuffer();
    WholeText(Wire(fs, stringify));
    WholeWire(fs, parse, stringify);
    var m := ReadAppliesPrefix(s, chunks, parse);
    EndsWithTerminal(w, es, m);
  }

  lemma {:induction false} EmptyBuffer()
    ensures Residue("") == "" && Blocks("") == []
  {
    assert Split("") == [""];
  }

  lemma {:induction false} WholeText(text: string)
    ensures "" + text == text
  {}

  /** A prefix that ends the run is everything. */
  lemma {:induction false} EndsWithTerminal(w: View, es: seq<Event>, m: nat)
    requires w.terminal.None? && C.EndsAtTerminal(es) && m <= |es|
    requires m == |es| || Fold(w, es[..m]).terminal.Some?
    ensures Fold(w, es[..m]) == Fold(w, es)
  {
    if m < |es| {
      assert forall x <- es[..m] :: x in es[..|es|-1];
      NoTerminalNoEnd(w, es[..m]);
    } else {
      assert es[..m] == es;
    }
  }

  /** How the route reads the cursor of a stream request. */
  function ReadCursor(since: int): int { if since >= 0 then since else -1 }

  /** The client's steps to the open stream, with the server's snapshot of a session it knows, or not. */
  function Opening(w: View, known: bool): seq<Input> {
    [SnapshotArrives(if known then Found(w, Some(w.lastSeq)) else NotFound), StreamOpens(true)]
  }

  /** The stream is asked for since a cursor that the snapshot covers. */
  lemma {:induction false} OpeningOpens(s0: State, w: View, known: bool, parse: string -> Option<Event>)
    requires s0.phase.AwaitSnapshot? && w.terminal.None? && w.lastSeq >= 0 && (known || w == InitialView())
    ensures var s := Run(s0, Opening(w, known), parse);
      Opened(s, w) && s.link.since == (if known then w.lastSeq else -1) && ReadCursor(s.link.since) <= w.lastSeq
  {
    var first := Opening(w, known)[0];
    RunOne(s0, first, parse);
    RunNext(s0, [first], StreamOpens(true), parse);
    assert [first] + [StreamOpens(true)] == Opening(w, known);
  }

  /**
    Any client that waits for a snapshot, also one that reconnects: with the stream answered for the
    cursor it asks for, its view is the one computed by the resume analysis, harmless or not.
  */
  lemma {:induction false} ClientShowsResumed(
      s0: State, w: View, known: bool, missed: seq<Event>, d: C.State, ins: seq<C.Input>, maxBatch: nat,
      fs: seq<Frame>, chunks: seq<string>, parse: string -> Option<Event>, stringify: Event -> string)
    requires s0.phase.AwaitSnapshot? && w.terminal.None? && w.lastSeq >= 0 && (known || w == InitialView())
    requires Codec(parse, stringify) && P.Continues(missed, w.lastSeq)
    requires C.Plain(missed) ==> !d.terminated && d.terminal.None? && C.EndsAtTerminal(C.Pushed(ins))
    requires var asked := Run(s0, Opening(w, known), parse).link.since;
      Events(fs) == R.Delivered(ReadCursor(asked), w, missed, d, ins + [C.FlushNow], maxBatch)
    requires Concat(chunks) == Wire(fs, stringify) && WithinCap("", chunks)
    ensures Read(Run(s0, Opening(w, known), parse), chunks, parse).view == R.Resumed(w, missed, d, ins, maxBatch)
  {
    var s := Run(s0, Opening(w, known), parse);
    OpeningOpens(s0, w, known, parse);
    P.RunNext(d, ins, C.FlushNow, maxBatch);
    assert C.Pushed(ins + [C.FlushNow]) == C.Pushed(ins);
    DeliveredEnds(ReadCursor(s.link.since), w, missed, d, ins + [C.FlushNow], maxBatch);
    WireShows(s, w, Events(fs), fs, chunks, parse, stringify);
    AnyCursorWillDo(ReadCursor(s.link.since), w, missed, d, ins + [C.FlushNow], maxBatch);
  }

  lemma {:induction false} AnyCursorWillDo(since: int, w: View, missed: seq<Event>, d: C.State, ins: seq<C.Input>, maxBatch: nat)
    requires since <= w.lastSeq
    ensures Fold(w, R.Delivered(since, w, missed, d, ins, maxBatch)) == Fold(w, R.Delivered(w.lastSeq, w, missed, d, ins, maxBatch))
  {
    P.DroppingSeenIsHarmless(w, R.SentFrom(d, ins, maxBatch), since);
    P.DroppingSeenIsHarmless(w, R.SentFrom(d, ins, maxBatch), w.lastSeq);
  }

  /**
    End to end: let the server be fed `before`, then answer the snapshot request, be fed `between`,
    open the stream, be fed `ins` and flush, with any timing of the coalescer throughout; let the
    frames carry what it sent that is newer than the client asked for, with any heartbeats, and be
    cut into any chunks within the buffer cap. If the gap was harmless, the reader shows exactly the
    fold of the server's log. A session may be unknown to the server until after the snapshot.
  */
  lemma {:induction false} EndToEnd(
      before: seq<C.Input>, known: bool, between: seq<C.Input>, ins: seq<C.Input>, maxBatch: nat,
      fs: seq<Frame>, chunks: seq<string>, parse: string -> Option<Event>, stringify: Event -> string)
    requires Codec(parse, stringify) && C.Plain(C.Pushed(before)) && (known || before == [])
    requires P.Continues(C.Pushed(before) + (C.Pushed(between) + C.Pushed(ins)), 0)
    requires var c := C.Run(C.Init(), before, maxBatch);
      var w := Fold(InitialView(), C.Pushed(before));
      var d := C.Run(c, between, maxBatch);
      var asked := Run(Init(), Opening(w, known), parse).link.since;
      R.Harmless(w, c, C.Pushed(between), d)
      && Events(fs) == R.Delivered(ReadCursor(asked), w, C.Pushed(between), d, ins + [C.FlushNow], maxBatch)
    requires Concat(chunks) == Wire(fs, stringify) && WithinCap("", chunks)
    ensures var w := Fold(InitialView(), C.Pushed(before));
      Read(Run(Init(), Opening(w, known), parse), chunks, parse).view
      == Fold(InitialView(), C.Pushed(before) + (C.Pushed(between) + C.Pushed(ins)))
  {
    var c, w := C.Run(C.Init(), before, maxBatch), Fold(InitialView(), C.Pushed(before));
    var d, missed := C.Run(c, between, maxBatch), C.Pushed(between);
    LogParts(C.Pushed(before), missed, C.Pushed(ins));
    R.SnapshotTaken(before, maxBatch);
    R.RunHolds(c, between, maxBatch);
    R.ResumeConvergesIff(before, between, maxBatch);
    CursorIsNatural(C.Pushed(before));
    ClientShowsResumed(Init(), w, known, missed, d, ins, maxBatch, fs, chunks, parse, stringify);
    FoldSplit(InitialView(), C.Pushed(before), missed + C.Pushed(ins));
  }

  lemma {:induction false} CursorIsNatural(es: seq<Event>)
    ensures Fold(InitialView(), es).lastSeq >= 0
  {
    P.DroppingSeenIsHarmless(InitialView(), es, 0);
  }

  lemma {:induction false} LogParts(a: seq<Event>, b: seq<Event>, i: seq<Event>)
    requires P.Continues(a + (b + i), 0) && C.Plain(a) && C.Plain(b)
    ensures P.Continues(a + b, 0) && P.Continues(a, 0)
    ensures var n := Fold(InitialView(), a).lastSeq; P.Continues(b + i, n) && P.Continues(b, n)
    ensures C.EndsAtTerminal(i)
  {
    R.ContinuesParts(a, b + i);
    assert a + (b + i) == a + b + i;
    PlainBoth(a, b);
    R.ContinuesStart(a + b, i, 0);
    R.ContinuesRest(a + b, i, 0);
    R.ContinuesStart(b, i, Fold(InitialView(), a).lastSeq);
  }

  lemma {:induction false} PlainBoth(a: seq<Event>, b: seq<Event>)
    requires C.Plain(a) && C.Plain(b)
    ensures C.Plain(a + b)
  {}

  // --- at every moment, over any number of connections --------------------------------------

  /** `u` is where a prefix of `es` of at least `lo` events takes `v`. */
  ghost predicate Reaches(v: View, es: seq<Event>, lo: nat, u: View) {
    exists k | lo <= k <= |es| :: u == Fold(v, es[..k])
  }

  /** Every non-empty prefix of `sent` takes `v` to where a prefix of `es` of at least `lo` events takes it. */
  ghost predicate OnPrefixes(v: View, sent: seq<Event>, es: seq<Event>, lo: nat) {
    forall j | 0 < j <= |sent| :: Reaches(v, es, lo, Fold(v, sent[..j]))
  }

  lemma {:induction false} PrefixesGrow(v: View, sent: seq<Event>, es: seq<Event>, e: Event, lo: nat)
    requires OnPrefixes(v, sent, es, lo)
    ensures OnPrefixes(v, sent, es + [e], lo)
  {
    forall j | 0 < j <= |sent| ensures Reaches(v, es + [e], lo, Fold(v, sent[..j])) {
      var k :| lo <= k <= |es| && Fold(v, sent[..j]) == Fold(v, es[..k]);
      assert (es + [e])[..k] == es[..k];
    }
  }

  lemma {:induction false} SentGrows(v: View, sent: seq<Event>, x: Event, es: seq<Event>, lo: nat)
    requires OnPrefixes(v, sent, es, lo) && lo <= |es| && Fold(v, sent + [x]) == Fold(v, es)
    ensures OnPrefixes(v, sent + [x], es, lo)
  {
    forall j | 0 < j <= |sent + [x]| ensures Reaches(v, es, lo, Fold(v, (sent + [x])[..j])) {
      if j <= |sent| {
        assert (sent + [x])[..j] == sent[..j];
      } else {
        assert (sent + [x])[..j] == sent + [x] && es[..|es|] == es;
      }
    }
  }

  /** The coalescer is in step: it means `es`, and so does every prefix of what it has sent. */
  ghost predicate InStepWith(v: View, from: nat, d: C.State, es: seq<Event>, lo: nat) {
    C.Means(v, from, d, es) && lo <= |es| && OnPrefixes(v, C.Since(d, from), es, lo)
  }

  lemma {:induction false} FlushInStep(v: View, from: nat, d: C.State, es: seq<Event>, lo: nat)
    requires InStepWith(v, from, d, es, lo)
    ensures InStepWith(v, from, C.FlushPending(d), es, lo)
  {
    C.FlushMeans(v, from, d, es);
    if d.pending.Some? {
      var t := C.AsToken(d.pending.value);
      var f := C.FlushPending(d);
      assert C.Since(f, from) == C.Since(d, from) + [t];
      assert C.Held(f) == [];
      SentGrows(v, C.Since(d, from), t, es, lo);
      assert OnPrefixes(v, C.Since(f, from), es, lo);
    } else {
      assert C.Since(C.FlushPending(d), from) == C.Since(d, from);
    }
  }

  lemma {:induction false} TerminalInStep(v: View, from: nat, d: C.State, es: seq<Event>, lo: nat)
    requires InStepWith(v, from, d, es, lo)
    ensures InStepWith(v, from, C.EmitTerminalNow(d), es, lo)
  {
    C.TerminalMeans(v, from, d, es);
    var t := C.EmitTerminalNow(d);
    if d.terminal.Some? {
      assert C.Since(t, from) == C.Since(d, from) + [d.terminal.value];
      assert C.Held(t) == [];
      SentGrows(v, C.Since(d, from), d.terminal.value, es, lo);
    } else {
      assert C.Since(t, from) == C.Since(d, from);
    }
  }

  lemma {:induction false} TokenInStep(v: View, from: nat, d: C.State, es: seq<Event>, lo: nat, e: Event, maxBatch: nat)
    requires InStepWith(v, from, d, es, lo) && C.Plain(es) && e.Token? && C.Fresh(v, es, d, e)
    ensures InStepWith(v, from, C.Accumulate(d, e, maxBatch), es + [e], lo)
  {
    var b := C.Merge(d.pending, e);
    var held := d.(pending := Some(b), window := true);
    C.TokenMeans(v, from, d, es, e, b.count + 1);
    assert C.Accumulate(d, e, b.count + 1) == held;
    PrefixesGrow(v, C.Since(d, from), es, e, lo);
    assert C.Since(held, from) == C.Since(d, from);
    FlushInStep(v, from, held, es + [e], lo);
    assert C.FlushPending(held) == C.FlushPending(d.(pending := Some(b)));
  }

  lemma {:induction false} PlainInStep(v: View, from: nat, d: C.State, es: seq<Event>, lo: nat, e: Event, maxBatch: nat)
    requires InStepWith(v, from, d, es, lo) && C.Plain(es) && !e.Token?
    ensures InStepWith(v, from, C.OnPush(d, e, maxBatch), es + [e], lo)
  {
    C.NotOverYet(v, from, d, es);
    C.PlainPushMeans(v, from, d, es, e, maxBatch);
    FlushInStep(v, from, d, es, lo);
    var f, t := C.FlushPending(d), C.OnPush(d, e, maxBatch);
    PrefixesGrow(v, C.Since(f, from), es, e, lo);
    if e.Terminal? {
      assert C.Since(t, from) == C.Since(f, from);
    } else {
      assert C.Since(t, from) == C.Since(f, from) + [e];
      assert C.Held(t) == [];
      SentGrows(v, C.Since(f, from), e, es + [e], lo);
    }
  }

  lemma {:induction false} PushInStep(v: View, from: nat, d: C.State, es: seq<Event>, lo: nat, e: Event, maxBatch: nat)
    requires InStepWith(v, from, d, es, lo) && P.Continues(es + [e], v.lastSeq)
    requires d.pending.Some? ==> e.no > d.pending.value.no
    ensures InStepWith(v, from, C.OnPush(d, e, maxBatch), es + [e], lo)
  {
    P.ContinuesPrefix(es, e, v.lastSeq);
    FoldCursor(v, es);
    C.NotOverYet(v, from, d, es);
    if e.Token? {
      TokenInStep(v, from, d, es, lo, e, maxBatch);
    } else {
      PlainInStep(v, from, d, es, lo, e, maxBatch);
    }
  }

  lemma {:induction false} RunInStep(v: View, from: nat, c: C.State, es: seq<Event>, ins: seq<C.Input>, maxBatch: nat)
    requires C.Means(v, from, c, es) && from == |c.out| && P.Continues(es + C.Pushed(ins), v.lastSeq)
    requires c.pending.Some? ==> Above(C.Pushed(ins), c.pending.value.no)
    ensures InStepWith(v, from, C.Run(c, ins, maxBatch), es + C.Pushed(ins), |es|)
  {
    if ins == [] {
      assert es + [] == es && C.Since(c, from) == [];
    } else {
      var init, i := ins[..|ins|-1], ins[|ins|-1];
      var fed := C.Pushed(init);
      var d := C.Run(c, init, maxBatch);
      if i.Push? {
        P.ContinuesLess(es, fed, i.event, v.lastSeq);
        P.PushedLast(fed, i.event, c);
        RunInStep(v, from, c, es, init, maxBatch);
        P.RunMeans(v, from, c, es, init, maxBatch);
        FedInStep(v, from, c, d, es, fed, i.event, maxBatch);
      } else {
        assert C.Pushed(ins) == fed;
        RunInStep(v, from, c, es, init, maxBatch);
        TimerInStep(v, from, d, es + fed, |es|, i, maxBatch);
      }
    }
  }

  lemma {:induction false} FedInStep(
      v: View, from: nat, c: C.State, d: C.State, es: seq<Event>, fed: seq<Event>, e: Event, maxBatch: nat)
    requires InStepWith(v, from, d, es + fed, |es|) && P.PendingFrom(c, d, fed)
    requires P.Continues(es + (fed + [e]), v.lastSeq) && (c.pending.Some? ==> e.no > c.pending.value.no)
    ensures InStepWith(v, from, C.OnPush(d, e, maxBatch), es + (fed + [e]), |es|)
  {
    PendingIsOlder(c, d, es, fed, e, v.lastSeq);
    assert es + (fed + [e]) == es + fed + [e];
    PushInStep(v, from, d, es + fed, |es|, e, maxBatch);
  }

  lemma {:induction false} PendingIsOlder(c: C.State, d: C.State, es: seq<Event>, fed: seq<Event>, e: Event, n: int)
    requires P.PendingFrom(c, d, fed) && P.Continues(es + (fed + [e]), n) && (c.pending.Some? ==> e.no > c.pending.value.no)
    ensures d.pending.Some? ==> e.no > d.pending.value.no
  {
    var all := es + (fed + [e]);
    if fed != [] { assert all[|all|-1] == e && all[|all|-2] == fed[|fed|-1]; }
  }

  lemma {:induction false} TimerInStep(v: View, from: nat, d: C.State, es: seq<Event>, lo: nat, i: C.Input, maxBatch: nat)
    requires InStepWith(v, from, d, es, lo) && !i.Push?
    ensures InStepWith(v, from, C.Next(d, i, maxBatch), es, lo)
  {
    FlushInStep(v, from, d, es, lo);
    TerminalInStep(v, from, d, es, lo);
    TerminalInStep(v, from, C.FlushPending(d), es, lo);
  }

  /** Dropping what the cursor covers commutes with taking a prefix. */
  lemma {:induction false} NewerPrefix(es: seq<Event>, since: int, j: nat) returns (i: nat)
    requires j <= |P.Newer(es, since)|
    ensures i <= |es| && P.Newer(es[..i], since) == P.Newer(es, since)[..j]
  {
    if j == |P.Newer(es, since)| {
      i := |es|;
      assert es[..i] == es;
    } else {
      i := NewerPrefix(es[..|es|-1], since, j);
      assert es[..|es|-1][..i] == es[..i];
    }
  }

  /** After a harmless gap, what is still held back stands for everything missed. */
  lemma {:induction false} HarmlessMeans(w: View, c: C.State, missed: seq<Event>, d: C.State) returns (held: seq<Event>)
    requires R.Snapshot(w, c) && R.HoldsSince(c, d, missed) && R.Harmless(w, c, missed, d) && P.Continues(missed, w.lastSeq)
    ensures |held| <= |missed| && held == missed[|missed|-|held|..]
    ensures C.Means(w, |d.out|, d, held) && Fold(w, held) == Fold(w, missed)
    ensures d.pending.Some? ==> d.pending.value.no <= (if held == [] then w.lastSeq else held[|held|-1].no)
  {
    if |d.out| == |c.out| {
      held := missed;
      R.BlankHeldMeans(w, c, d, missed);
    } else {
      held := R.StillHeld(d, missed);
      if d.pending.None? { assert held == []; }
      R.GapMeans(w, d, missed);
      R.LossIff(w, d, missed);
    }
  }

  /**
    At every moment of a resumed connection the events sent so far take the snapshot to a view of
    the server's log, although merged tokens jump over some of its views.
  */
  lemma {:induction false} DeliveredIsOnLog(
      since: int, before: seq<C.Input>, between: seq<C.Input>, ins: seq<C.Input>, maxBatch: nat, j: nat) returns (k: nat)
    requires C.Plain(C.Pushed(before)) && since <= Fold(InitialView(), C.Pushed(before)).lastSeq
    requires P.Continues(C.Pushed(before) + (C.Pushed(between) + C.Pushed(ins)), 0)
    requires var c := C.Run(C.Init(), before, maxBatch);
      var w := Fold(InitialView(), C.Pushed(before));
      var d := C.Run(c, between, maxBatch);
      R.Harmless(w, c, C.Pushed(between), d) && j <= |R.Delivered(since, w, C.Pushed(between), d, ins, maxBatch)|
    ensures var log := C.Pushed(before) + (C.Pushed(between) + C.Pushed(ins));
      var w := Fold(InitialView(), C.Pushed(before));
      var d := C.Run(C.Run(C.Init(), before, maxBatch), between, maxBatch);
      k <= |log|
      && Fold(w, R.Delivered(since, w, C.Pushed(between), d, ins, maxBatch)[..j]) == ViewAt(log, k)
  {
    var c, w := C.Run(C.Init(), before, maxBatch), Fold(InitialView(), C.Pushed(before));
    var d, missed := C.Run(c, between, maxBatch), C.Pushed(between);
    LogParts(C.Pushed(before), missed, C.Pushed(ins));
    R.SnapshotTaken(before, maxBatch);
    R.RunHolds(c, between, maxBatch);
    var held := HarmlessMeans(w, c, missed, d);
    var m := SentIsOnLog(since, w, missed, held, d, ins, maxBatch, j);
    k := OntoLog(C.Pushed(before), w, missed + C.Pushed(ins), m);
  }

  lemma {:induction false} OntoLog(a: seq<Event>, w: View, es: seq<Event>, m: nat) returns (k: nat)
    requires w == Fold(InitialView(), a) && m <= |es|
    ensures k <= |a + es| && Fold(w, es[..m]) == ViewAt(a + es, k)
  {
    k := |a| + m;
    assert (a + es)[..k] == a + es[..m];
    FoldSplit(InitialView(), a, es[..m]);
  }

  lemma {:induction false} SentIsOnLog(
      since: int, w: View, missed: seq<Event>, held: seq<Event>, d: C.State, ins: seq<C.Input>, maxBatch: nat, j: nat)
    returns (m: nat)
    requires since <= w.lastSeq && w.terminal.None? && C.Plain(missed) && P.Continues(missed + C.Pushed(ins), w.lastSeq)
    requires |held| <= |missed| && held == missed[|missed|-|held|..]
    requires C.Means(w, |d.out|, d, held) && Fold(w, held) == Fold(w, missed)
    requires d.pending.Some? ==> d.pending.value.no <= (if held == [] then w.lastSeq else held[|held|-1].no)
    requires j <= |R.Delivered(since, w, missed, d, ins, maxBatch)|
    ensures m <= |missed + C.Pushed(ins)|
    ensures Fold(w, R.Delivered(since, w, missed, d, ins, maxBatch)[..j]) == Fold(w, (missed + C.Pushed(ins))[..m])
  {
    var fed := C.Pushed(ins);
    var x := missed[..|missed|-|held|];
    assert x + held == missed;
    R.ContinuesTail(x, held, fed, w.lastSeq);
    NoTerminalNoEnd(w, missed);
    if held == [] { assert held + fed == fed; }
    RunInStep(w, |d.out|, d, held, ins, maxBatch);
    R.OutStays(d, ins, maxBatch);
    var sent := R.SentFrom(d, ins, maxBatch);
    var i := NewerPrefix(sent, since, j);
    P.DroppingSeenIsHarmless(w, sent[..i], since);
    m := PrefixOnLog(w, sent, i, held, missed, fed);
  }

  lemma {:induction false} PrefixOnLog(w: View, sent: seq<Event>, i: nat, held: seq<Event>, missed: seq<Event>, fed: seq<Event>)
    returns (m: nat)
    requires OnPrefixes(w, sent, held + fed, |held|) && i <= |sent| && Fold(w, held) == Fold(w, missed)
    ensures m <= |missed + fed| && Fold(w, sent[..i]) == Fold(w, (missed + fed)[..m])
  {
    if i == 0 {
      m := 0;
      assert sent[..0] == (missed + fed)[..0] == [];
    } else {
      var k :| |held| <= k <= |held + fed| && Fold(w, sent[..i]) == Fold(w, (held + fed)[..k]);
      var more := fed[..k-|held|];
      assert (held + fed)[..k] == held + more;
      m := |missed| + |more|;
      assert (missed + fed)[..m] == missed + more;
      R.SameContinuation(w, held, missed, more);
    }
  }

  /**
    One live connection of a server whose whole history is `all`: snapshot after `before`,
    subscription after `between`, `ins` so far, and the frames for what was sent that is newer than
    asked for, cut after `n`.
  */
  ghost predicate CutOf(
      all: seq<C.Input>, before: seq<C.Input>, between: seq<C.Input>, ins: seq<C.Input>, maxBatch: nat,
      fs: seq<Frame>, n: nat, adopted: View, since: int, received: string, stringify: Event -> string) {
    var c := C.Run(C.Init(), before, maxBatch);
    var d := C.Run(c, between, maxBatch);
    && before + (between + ins) <= all && C.Plain(C.Pushed(before))
    && adopted == Fold(InitialView(), C.Pushed(before))
    && R.Harmless(adopted, c, C.Pushed(between), d)
    && Events(fs) == R.Delivered(ReadCursor(since), adopted, C.Pushed(between), d, ins, maxBatch)
    && n <= |Wire(fs, stringify)| && received == Wire(fs, stringify)[..n]
  }

  ghost predicate FromConnection(all: seq<C.Input>, maxBatch: nat, link: Link, text: string, stringify: Event -> string) {
    exists before, between, ins, fs, n ::
      CutOf(all, before, between, ins, maxBatch, fs, n, link.adopted, link.since, link.received + text, stringify)
  }

  ghost predicate IsSnapshot(all: seq<C.Input>, v: View) {
    exists before | before <= all :: v == Fold(InitialView(), C.Pushed(before))
  }

  /** What the server does in step `c` of the client, with its coalescer between log and stream. */
  ghost predicate ServedLive(all: seq<C.Input>, maxBatch: nat, s: State, c: Input, stringify: Event -> string) {
    match c
    case SnapshotArrives(Found(v, resume)) => IsSnapshot(all, v) && resume == Some(v.lastSeq)
    case Chunk(text) => s.phase.Reading? ==> FromConnection(all, maxBatch, s.link, text, stringify)
    case _ => true
  }

  lemma {:induction false} PushedPrefix(a: seq<C.Input>, b: seq<C.Input>)
    requires a <= b
    ensures C.Pushed(a) <= C.Pushed(b)
  {
    assert b == a + b[|a|..];
    P.RunSplit(C.Init(), a, b[|a|..], 0);
  }

  lemma {:induction false} SnapshotOnLog(all: seq<C.Input>, v: View)
    requires IsSnapshot(all, v)
    ensures exists p | 0 <= p <= |C.Pushed(all)| :: v == ViewAt(C.Pushed(all), p)
  {
    var before :| before <= all && v == Fold(InitialView(), C.Pushed(before));
    PushedPrefix(before, all);
    assert C.Pushed(all)[..|C.Pushed(before)|] == C.Pushed(before);
    assert v == ViewAt(C.Pushed(all), |C.Pushed(before)|);
  }

  lemma {:induction false} ContinuesShorter(log: seq<Event>, start: seq<Event>, n: int)
    requires P.Continues(log, n) && start <= log
    ensures P.Continues(start, n)
  {
    assert forall e <- start :: e in log;
    forall i, j | 0 <= i < j < |start| ensures start[i].no < start[j].no { assert log[i].no < log[j].no; }
    if start != [] {
      var n' := |start| - 1;
      forall e | e in start[..n'] ensures e in log[..|log|-1] {
        var i :| 0 <= i < n' && e == start[..n'][i];
        assert log[..|log|-1][i] == e;
      }
    }
  }

  /** What was fed in up to now is the beginning of the whole log. */
  lemma {:induction false} LogSoFar(all: seq<C.Input>, before: seq<C.Input>, between: seq<C.Input>, ins: seq<C.Input>)
    returns (part: seq<Event>)
    requires before + (between + ins) <= all && P.Continues(C.Pushed(all), 0)
    ensures part == C.Pushed(before) + (C.Pushed(between) + C.Pushed(ins))
    ensures part <= C.Pushed(all) && P.Continues(part, 0)
  {
    part := C.Pushed(before) + (C.Pushed(between) + C.Pushed(ins));
    PushedPrefix(before + (between + ins), all);
    P.RunSplit(C.Init(), before, between + ins, 0);
    P.RunSplit(C.Init(), between, ins, 0);
    ContinuesShorter(C.Pushed(all), part, 0);
  }

  lemma {:induction false} ViewOfLonger(part: seq<Event>, log: seq<Event>, k: nat)
    requires part <= log && k <= |part|
    ensures ViewAt(part, k) == ViewAt(log, k)
  {
    assert part[..k] == log[..k];
  }

  lemma {:induction false} ConnectionLeadsOntoLog(
      all: seq<C.Input>, before: seq<C.Input>, between: seq<C.Input>, ins: seq<C.Input>, maxBatch: nat, fs: seq<Frame>,
      n: nat, adopted: View, since: int, received: string, parse: string -> Option<Event>, stringify: Event -> string)
    requires Codec(parse, stringify) && P.Continues(C.Pushed(all), 0) && since <= adopted.lastSeq
    requires CutOf(all, before, between, ins, maxBatch, fs, n, adopted, since, received, stringify)
    ensures LeadsOntoLog(C.Pushed(all), adopted, received, parse)
  {
    var part := LogSoFar(all, before, between, ins);
    CutDecodesToPrefix(fs, n, parse, stringify);
    CursorIsNatural(C.Pushed(before));
    var got := Decoded(Blocks(received), parse);
    var k := DeliveredIsOnLog(ReadCursor(since), before, between, ins, maxBatch, |got|);
    ViewOfLonger(part, C.Pushed(all), k);
    assert Fold(adopted, got) == ViewAt(C.Pushed(all), k);
  }

  lemma {:induction false} LiveKeepsLog(
      all: seq<C.Input>, maxBatch: nat, s: State, c: Input, parse: string -> Option<Event>, stringify: Event -> string)
    requires Codec(parse, stringify) && P.Continues(C.Pushed(all), 0) && ServedLive(all, maxBatch, s, c, stringify)
    requires AskedOnLog(C.Pushed(all), s)
    ensures KeepsLog(C.Pushed(all), s, c, parse)
  {
    match c {
      case SnapshotArrives(Found(v, _)) => SnapshotOnLog(all, v);
      case Chunk(text) =>
        if s.phase.Reading? {
          var adopted, since, received := s.link.adopted, s.link.since, s.link.received + text;
          var before, between, ins, fs, n :|
            CutOf(all, before, between, ins, maxBatch, fs, n, adopted, since, received, stringify);
          ConnectionLeadsOntoLog(all, before, between, ins, maxBatch, fs, n, adopted, since, received, parse, stringify);
        }
      case _ =>
    }
  }

  ghost predicate AllServedLive(
      all: seq<C.Input>, maxBatch: nat, cs: seq<Input>, parse: string -> Option<Event>, stringify: Event -> string) {
    forall i {:trigger cs[i]} | 0 <= i < |cs| :: ServedLive(all, maxBatch, Run(Init(), cs[..i], parse), cs[i], stringify)
  }

  lemma {:induction false} FewerServedLive(
      all: seq<C.Input>, maxBatch: nat, cs: seq<Input>, parse: string -> Option<Event>, stringify: Event -> string)
    requires cs != [] && AllServedLive(all, maxBatch, cs, parse, stringify)
    ensures var last := |cs| - 1;
      AllServedLive(all, maxBatch, cs[..last], parse, stringify)
      && ServedLive(all, maxBatch, Run(Init(), cs[..last], parse), cs[last], stringify)
  {
    var init := cs[..|cs|-1];
    forall i | 0 <= i < |init| ensures ServedLive(all, maxBatch, Run(Init(), init[..i], parse), init[i], stringify) {
      assert init[..i] == cs[..i] && init[i] == cs[i];
    }
  }

  lemma {:induction false} LiveAsksOnLog(
      all: seq<C.Input>, maxBatch: nat, cs: seq<Input>, parse: string -> Option<Event>, stringify: Event -> string)
    requires AllServedLive(all, maxBatch, cs, parse, stringify)
    ensures AskedOnLog(C.Pushed(all), Run(Init(), cs, parse))
  {
    var s, log := Run(Init(), cs, parse), C.Pushed(all);
    if s.phase.AwaitStream? || s.phase.Reading? {
      var j := AsksFromSnapshot(cs, parse);
      assert ServedLive(all, maxBatch, Run(Init(), cs[..j], parse), cs[j], stringify);
      if cs[j].reply.Found? {
        SnapshotOnLog(all, cs[j].reply.view);
      } else {
        assert ViewAt(log, 0) == InitialView() by { assert log[..0] == []; }
      }
    }
  }

  /**
    Over any number of connections, each with its own snapshot, harmless gap, timing, heartbeats
    and cut, and each answered for the cursor the client asked for, the view is at every moment a view of the server's own log, possibly with the
    disconnect notice on top: merging tokens and dropping seen events never shows anything that the
    server has not been at.
  */
  lemma {:induction false} ViewIsAlwaysOnServersLog(
      all: seq<C.Input>, maxBatch: nat, cs: seq<Input>, parse: string -> Option<Event>, stringify: Event -> string)
    requires Codec(parse, stringify) && P.Continues(C.Pushed(all), 0)
    requires AllServedLive(all, maxBatch, cs, parse, stringify)
    ensures OnLogState(C.Pushed(all), Run(Init(), cs, parse))
  {
    if cs == [] {
      InitIsOnLog(C.Pushed(all));
    } else {
      var last := |cs| - 1;
      var init := cs[..last];
      FewerServedLive(all, maxBatch, cs, parse, stringify);
      ViewIsAlwaysOnServersLog(all, maxBatch, init, parse, stringify);
      RunKeepsInv(Init(), init, parse);
      LiveAsksOnLog(all, maxBatch, init, parse, stringify);
      LiveKeepsLog(all, maxBatch, Run(Init(), init, parse), cs[last], parse, stringify);
      NextStaysOnLog(C.Pushed(all), Run(Init(), init, parse), cs[last], parse);
    }
  }
}
