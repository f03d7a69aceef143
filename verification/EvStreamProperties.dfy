/**
  What the EV stream client promises over whole runs: no render is lost, a run never ends in
  silence (but for one branch), chunk boundaries do not matter (but for late tokens), and every
  view is a fold of a prefix of the server's log.
*/
module EvStreamProperties {
  import opened Options
  import opened Text
  import opened EvEvents
  import opened SseFraming
  import opened EvStreamMachine

  lemma {:induction false} RunOne(s: State, e: Input, parse: string -> Option<Event>)
    ensures Run(s, [e], parse) == Next(s, e, parse)
  {
    assert [e][..0] == [];
    assert Run(s, [], parse) == s;
  }

  lemma {:induction false} RunNext(s: State, es: seq<Input>, e: Input, parse: string -> Option<Event>)
    ensures Run(s, es + [e], parse) == Next(Run(s, es, parse), e, parse)
  {
    assert (es + [e])[..|es|] == es;
  }

  // --- render coalescing -------------------------------------------------------------------

  /**
    Coalescing loses nothing: in every reachable state there is at most one outstanding flush, and
    without one the app has been given the current view (or there is nothing to give yet).
  */
  lemma {:induction false} CoalescingLosesNothing(es: seq<Input>, parse: string -> Option<Event>)
    ensures var s := Run(Init(), es, parse);
      s.flushes <= 1
      && (s.flushes == 0 ==> s.sink.delivered == Some(s.view)
                             || (s.sink.delivered.None? && s.view == InitialView()))
  {
    RunKeepsInv(Init(), es, parse);
  }

  // --- honest endings ----------------------------------------------------------------------

  ghost predicate Uninterrupted(cs: seq<Input>) { forall c <- cs :: !c.Stop? && !c.Reconnect? }

  /** Nobody was told anything: no terminal in the view and no error reported since `s`. */
  predicate Silent(s: State, t: State) { t.view.terminal.None? && t.sink.errors == s.sink.errors }

  /** One connection attempt, from the snapshot on, seen from its start `s`. */
  ghost predicate Attempt(s: State, t: State) {
    && !t.stopped
    && (!t.phase.Done? ==> t.sink.errors == s.sink.errors)
    && (t.phase.AwaitStream? || t.phase.Reading? ==> t.view.terminal.None?)
    && (t.phase.Done? ==> (Silent(s, t) <==> t.phase == Done(NoBody)))
  }

  lemma {:induction false} ChunkKeepsErrors(s: State, text: string, parse: string -> Option<Event>)
    requires s.phase.Reading? && !s.stopped
    ensures var t := OnChunk(s, text, parse);
      !t.stopped && t.sink.errors == s.sink.errors
      && ((t.phase.Reading? && t.view.terminal.None?) || t.phase == Closing(false))
  {
    var buffer := s.buffer + text;
    if |buffer| <= MAX_SSE_BUFFER {
      var s1 := s.(buffer := Residue(buffer), link := s.link.(received := s.link.received + text));
      ApplyAllFolds(s1, Decoded(Blocks(buffer), parse));
    }
  }

  lemma {:induction false} NextKeepsAttempt(s: State, t: State, c: Input, parse: string -> Option<Event>)
    requires Attempt(s, t) && !c.Stop? && !c.Reconnect?
    ensures Attempt(s, Next(t, c, parse))
    ensures Next(t, c, parse).phase == Done(NoBody) ==>
              t.phase == Done(NoBody) || (t.phase.AwaitStream? && c == StreamOpens(false))
    ensures t.phase.Done? ==> Next(t, c, parse).phase == t.phase
  {
    if c.Chunk? && t.phase.Reading? { ChunkKeepsErrors(t, c.text, parse); }
  }

  lemma {:induction false} RunKeepsAttempt(s: State, cs: seq<Input>, parse: string -> Option<Event>)
    requires s.phase.AwaitSnapshot? && !s.stopped && Uninterrupted(cs)
    ensures Attempt(s, Run(s, cs, parse))
  {
    if cs != [] {
      RunKeepsAttempt(s, cs[..|cs|-1], parse);
      NextKeepsAttempt(s, Run(s, cs[..|cs|-1], parse), cs[|cs|-1], parse);
    }
  }

  /** The stream endpoint answered without a body. */
  ghost predicate AnsweredWithoutBody(s: State, cs: seq<Input>, parse: string -> Option<Event>) {
    exists k | 0 <= k < |cs| :: cs[k] == StreamOpens(false) && Run(s, cs[..k], parse).phase.AwaitStream?
  }

  lemma {:induction false} AnsweredNext(s: State, cs: seq<Input>, parse: string -> Option<Event>)
    requires cs != []
    ensures var init, last := cs[..|cs|-1], cs[|cs|-1];
      AnsweredWithoutBody(s, cs, parse)
      <==> AnsweredWithoutBody(s, init, parse) || (last == StreamOpens(false) && Run(s, init, parse).phase.AwaitStream?)
  {
    var n := |cs| - 1;
    assert forall k | 0 <= k < n :: cs[..n][..k] == cs[..k] && cs[..n][k] == cs[k];
    if AnsweredWithoutBody(s, cs[..n], parse) {
      var k :| 0 <= k < n && cs[..n][k] == StreamOpens(false) && Run(s, cs[..n][..k], parse).phase.AwaitStream?;
      assert cs[k] == StreamOpens(false) && Run(s, cs[..k], parse).phase.AwaitStream?;
    }
    if AnsweredWithoutBody(s, cs, parse) {
      var k :| 0 <= k < |cs| && cs[k] == StreamOpens(false) && Run(s, cs[..k], parse).phase.AwaitStream?;
      assert k < n ==> cs[..n][k] == StreamOpens(false) && Run(s, cs[..n][..k], parse).phase.AwaitStream?;
    }
  }

  lemma {:induction false} NoBodyCause(s: State, cs: seq<Input>, parse: string -> Option<Event>)
    requires s.phase.AwaitSnapshot? && !s.stopped && Uninterrupted(cs)
    ensures Run(s, cs, parse).phase == Done(NoBody) <==> AnsweredWithoutBody(s, cs, parse)
  {
    if cs != [] {
      var last := |cs| - 1;
      NoBodyCause(s, cs[..last], parse);
      RunKeepsAttempt(s, cs[..last], parse);
      NextKeepsAttempt(s, Run(s, cs[..last], parse), cs[last], parse);
      AnsweredNext(s, cs, parse);
    }
  }

  /**
    An uninterrupted connection attempt that has settled left the app without a terminal and
    without an error exactly when the stream endpoint answered without a body. Every other
    premature end is reported.
  */
  lemma {:induction false} SilentIffNoBody(s: State, cs: seq<Input>, parse: string -> Option<Event>)
    requires s.phase.AwaitSnapshot? && !s.stopped && Uninterrupted(cs) && Run(s, cs, parse).phase.Done?
    ensures Silent(s, Run(s, cs, parse)) <==> AnsweredWithoutBody(s, cs, parse)
  {
    RunKeepsAttempt(s, cs, parse);
    NoBodyCause(s, cs, parse);
  }

  /** The branch is reachable from a fresh client. */
  lemma {:induction false} SilenceIsReachable(parse: string -> Option<Event>)
    ensures var s := Run(Init(), [SnapshotArrives(NotFound), StreamOpens(false)], parse);
      s.phase.Done? && Silent(Init(), s)
  {
    RunOne(Init(), SnapshotArrives(NotFound), parse);
    RunNext(Init(), [SnapshotArrives(NotFound)], StreamOpens(false), parse);
    assert [SnapshotArrives(NotFound)] + [StreamOpens(false)] == [SnapshotArrives(NotFound), StreamOpens(false)];
  }

  /** The view moves only by adopting a snapshot or folding events in. */
  ghost predicate Moved(v: View, w: View) {
    w == v || exists es: seq<Event> :: w == Fold(v, es)
  }

  /** A snapshot arrives and is `v`; an unknown session counts as an empty one. */
  predicate Adopts(c: Input, v: View) {
    c.SnapshotArrives? && !c.reply.Refused? && v == (if c.reply.Found? then c.reply.view else InitialView())
  }

  /**
    After `stop()` nothing is reported and no notice is put into the view: a step leaves it, adopts
    the snapshot that arrives, or folds events in.
  */
  lemma {:induction false} StoppedStep(s: State, c: Input, parse: string -> Option<Event>)
    requires s.stopped
    ensures var t := Next(s, c, parse);
      && t.stopped && t.sink.errors == s.sink.errors && (s.phase != Done(Disconnected) ==> t.phase != Done(Disconnected))
      && (Moved(s.view, t.view)
          || Adopts(c, t.view))
  {
    if c.Chunk? && s.phase.Reading? { StoppedChunk(s, c.text, parse); }
  }

  /**
    After `stop()` no error is ever reported and no disconnect ends the attempt or is put into the
    view: whatever is shown is the view at that moment, or a snapshot that arrived since, with
    events folded in.
  */
  lemma {:induction false} StopIsSilent(s: State, cs: seq<Input>, parse: string -> Option<Event>)
    requires s.stopped
    ensures var t := Run(s, cs, parse);
      t.stopped && t.sink.errors == s.sink.errors && (s.phase != Done(Disconnected) ==> t.phase != Done(Disconnected))
    ensures StoppedView(s, cs, Run(s, cs, parse).view)
  {
    if cs != [] {
      var init, c := cs[..|cs|-1], cs[|cs|-1];
      StopIsSilent(s, init, parse);
      StoppedStep(Run(s, init, parse), c, parse);
      StoppedViewGrows(s, init, c, Run(s, init, parse).view, Run(s, cs, parse).view);
    } else {
      assert s.view == Fold(s.view, []);
    }
  }

  /** Built from the view at `stop()` or from a snapshot that arrived since, by folding events in. */
  ghost predicate StoppedView(s: State, cs: seq<Input>, v: View) {
    exists base: View, es: seq<Event> :: Base(s, cs, base) && v == Fold(base, es)
  }

  ghost predicate Base(s: State, cs: seq<Input>, base: View) {
    base == s.view || exists i | 0 <= i < |cs| :: Adopts(cs[i], base)
  }

  lemma {:induction false} StoppedViewGrows(s: State, init: seq<Input>, c: Input, v: View, w: View)
    requires StoppedView(s, init, v)
    requires Moved(v, w) || Adopts(c, w)
    ensures StoppedView(s, init + [c], w)
  {
    var cs := init + [c];
    var base: View, es: seq<Event> :| Base(s, init, base) && v == Fold(base, es);
    if w == v || Moved(v, w) {
      assert Base(s, cs, base) by { assert forall i | 0 <= i < |init| :: cs[i] == init[i]; }
      if w != v {
        var more: seq<Event> :| w == Fold(v, more);
        FoldSplit(base, es, more);
        assert w == Fold(base, es + more);
      }
    } else {
      assert cs[|init|] == c;
      assert Base(s, cs, w) && w == Fold(w, []);
    }
  }

  lemma {:induction false} StoppedChunk(s: State, text: string, parse: string -> Option<Event>)
    requires s.phase.Reading? && s.stopped
    ensures var t := OnChunk(s, text, parse);
      t.stopped && t.sink.errors == s.sink.errors && t.phase != Done(Disconnected) && Moved(s.view, t.view)
  {
    var buffer := s.buffer + text;
    if |buffer| <= MAX_SSE_BUFFER {
      var s1 := s.(buffer := Residue(buffer), link := s.link.(received := s.link.received + text));
      ApplyAllFolds(s1, Decoded(Blocks(buffer), parse));
    }
  }

  // --- chunk boundaries --------------------------------------------------------------------

  function Concat(chunks: seq<string>): string {
    if chunks == [] then "" else Concat(chunks[..|chunks|-1]) + chunks[|chunks|-1]
  }

  /** Reading the chunks one after the other. */
  function Read(s: State, chunks: seq<string>, parse: string -> Option<Event>): State {
    if chunks == [] then s
    else Next(Read(s, chunks[..|chunks|-1], parse), Chunk(chunks[|chunks|-1]), parse)
  }

  /** The events in the text `w` that follows what is in the buffer. */
  function EventsIn(s: State, w: string, parse: string -> Option<Event>): seq<Event> {
    Decoded(Blocks(s.buffer + w), parse)
  }

  lemma {:induction false} EventsGrow(s: State, x: string, y: string, parse: string -> Option<Event>)
    ensures EventsIn(s, x + y, parse) == EventsIn(s, x, parse) + Decoded(Blocks(Residue(s.buffer + x) + y), parse)
    ensures Residue(s.buffer + (x + y)) == Residue(Residue(s.buffer + x) + y)
  {
    assert s.buffer + (x + y) == (s.buffer + x) + y;
    SplitInPieces(s.buffer + x, y);
    DecodedSplit(Blocks(s.buffer + x), Blocks(Residue(s.buffer + x) + y), parse);
  }

  lemma {:induction false} ResidueIsShort(t: string)
    ensures |Residue(t)| <= |t|
    decreases |t|
  {
    if !NoBreak(t) { ResidueIsShort(t[NextBreak(t)+2..]); }
  }

  /** Reading these chunks never makes the buffer exceed its cap. */
  predicate WithinCap(buffer: string, chunks: seq<string>) {
    forall i | 0 <= i < |chunks| :: |Residue(buffer + Concat(chunks[..i])) + chunks[i]| <= MAX_SSE_BUFFER
  }

  lemma {:induction false} ShortTextFits(buffer: string, chunks: seq<string>)
    requires |buffer + Concat(chunks)| <= MAX_SSE_BUFFER
    ensures WithinCap(buffer, chunks)
  {
    if chunks != [] {
      var last := |chunks| - 1;
      ShortTextFits(buffer, chunks[..last]);
      ResidueIsShort(buffer + Concat(chunks[..last]));
      forall i | 0 <= i < |chunks|
        ensures |Residue(buffer + Concat(chunks[..i])) + chunks[i]| <= MAX_SSE_BUFFER
      {
        if i < last { assert chunks[..last][..i] == chunks[..i] && chunks[..last][i] == chunks[i]; }
      }
    }
  }

  lemma {:induction false} FewerChunksFit(buffer: string, chunks: seq<string>)
    requires chunks != [] && WithinCap(buffer, chunks)
    ensures WithinCap(buffer, chunks[..|chunks|-1])
    ensures |Residue(buffer + Concat(chunks[..|chunks|-1])) + chunks[|chunks|-1]| <= MAX_SSE_BUFFER
  {
    var fewer := chunks[..|chunks|-1];
    forall i | 0 <= i < |fewer| ensures |Residue(buffer + Concat(fewer[..i])) + fewer[i]| <= MAX_SSE_BUFFER {
      assert fewer[..i] == chunks[..i];
    }
  }

  /** Text `w` has taken `s` to `t`: `m` of its events are applied, all of them if `t` is still reading. */
  ghost predicate Applied(s: State, t: State, w: string, m: nat, parse: string -> Option<Event>) {
    var es := EventsIn(s, w, parse);
    m <= |es| && t.view == Fold(s.view, es[..m])
    && ((t.phase == Reading && m == |es| && t.view.terminal.None? && t.buffer == Residue(s.buffer + w))
        || (t.phase == Closing(false) && t.view.terminal.Some?))
  }

  lemma {:induction false} AppliesMore(s: State, t: State, x: string, y: string, had: nat, parse: string -> Option<Event>)
    returns (m: nat)
    requires Applied(s, t, x, had, parse)
    requires t.phase == Reading ==> |Residue(s.buffer + x) + y| <= MAX_SSE_BUFFER
    ensures Applied(s, Next(t, Chunk(y), parse), x + y, m, parse)
  {
    if t.phase == Reading {
      WholePrefix(EventsIn(s, x, parse));
      NextReadApplies(s, t, x, y, parse);
      m := |EventsIn(s, x + y, parse)|;
      WholePrefix(EventsIn(s, x + y, parse));
    } else {
      m := had;
      EventsGrow(s, x, y, parse);
      SamePrefix(EventsIn(s, x, parse), EventsIn(s, x + y, parse), m);
    }
  }

  /**
    Whatever the chunks, the client applies the first `m` events of the text: all of them while it
    is still reading, and at least up to the terminal once it has finished.
  */
  lemma {:induction false} ReadAppliesPrefix(s: State, chunks: seq<string>, parse: string -> Option<Event>) returns (m: nat)
    requires BetweenReads(s) && WithinCap(s.buffer, chunks)
    ensures Applied(s, Read(s, chunks, parse), Concat(chunks), m, parse)
  {
    if chunks == [] {
      m := 0;
      assert s.buffer + "" == s.buffer;
    } else {
      var last := |chunks| - 1;
      FewerChunksFit(s.buffer, chunks);
      var had := ReadAppliesPrefix(s, chunks[..last], parse);
      m := AppliesMore(s, Read(s, chunks[..last], parse), Concat(chunks[..last]), chunks[last], had, parse);
    }
  }

  lemma {:induction false} WholePrefix(es: seq<Event>)
    ensures es[..|es|] == es
  {}

  /** One more chunk, read by a client that has applied everything in `x` and is still reading. */
  lemma {:induction false} NextReadApplies(s: State, t: State, x: string, y: string, parse: string -> Option<Event>)
    requires t.phase == Reading && t.view == Fold(s.view, EventsIn(s, x, parse)) && t.buffer == Residue(s.buffer + x)
    requires |t.buffer + y| <= MAX_SSE_BUFFER
    ensures var u := OnChunk(t, y, parse);
      u.view == Fold(s.view, EventsIn(s, x + y, parse)) && u.buffer == Residue(s.buffer + (x + y))
      && u.phase == (if u.view.terminal.Some? then Closing(false) else Reading)
  {
    EventsGrow(s, x, y, parse);
    ChunkApplies(t, y, parse);
    FoldSplit(s.view, EventsIn(s, x, parse), Decoded(Blocks(t.buffer + y), parse));
  }

  lemma {:induction false} ChunkApplies(s: State, text: string, parse: string -> Option<Event>)
    requires s.phase.Reading? && |s.buffer + text| <= MAX_SSE_BUFFER
    ensures var t := OnChunk(s, text, parse);
      t.view == Fold(s.view, Decoded(Blocks(s.buffer + text), parse)) && t.buffer == Residue(s.buffer + text)
      && t.phase == (if t.view.terminal.Some? then Closing(false) else Reading)
  {
    var buffer := s.buffer + text;
    var s1 := s.(buffer := Residue(buffer), link := s.link.(received := s.link.received + text));
    ApplyAllFolds(s1, Decoded(Blocks(buffer), parse));
  }

  predicate NoText(es: seq<Event>) { forall e <- es :: e.Token? ==> e.delta == "" }

  lemma {:induction false} LateStep(v: View, e: Event)
    requires v.terminal.Some? && e.no > v.lastSeq
    ensures Reduce(v, e).text == (if e.Token? && Trim(v.text) == "" then v.text + e.delta else v.text)
    ensures e.Token? && e.delta == "" ==> Reduce(v, e).text == v.text
  {
    assert e.Token? && e.delta == "" ==> v.text + e.delta == v.text;
  }

  lemma {:induction false} AscendingSlice(es: seq<Event>, i: nat, j: nat)
    requires Ascending(es) && i <= j <= |es|
    ensures Ascending(es[i..j])
  {
    forall a, b | 0 <= a < b < j - i ensures es[i..j][a].no < es[i..j][b].no {
      assert es[i+a].no < es[i+b].no;
    }
  }

  lemma {:induction false} AboveSlice(es: seq<Event>, n: int, i: nat, j: nat)
    requires i <= j <= |es| && forall k | i <= k < j :: es[k].no > n
    ensures Above(es[i..j], n)
  {
    forall e | e in es[i..j] ensures e.no > n {
      var k :| 0 <= k < j - i && e == es[i..j][k];
      assert e == es[i+k];
    }
  }

  lemma {:induction false} AboveAt(es: seq<Event>, n: int, k: nat)
    requires Above(es, n) && k < |es|
    ensures es[k].no > n
  {
    assert es[k] in es;
  }

  /** After the first `d` events every later one is still new. */
  lemma {:induction false} StretchIsFresh(v: View, all: seq<Event>, d: nat, m: nat)
    requires Ascending(all) && Above(all, v.lastSeq) && d <= m <= |all|
    ensures Ascending(all[d..m]) && Above(all[d..m], Fold(v, all[..d]).lastSeq)
  {
    AscendingSlice(all, 0, d);
    AscendingSlice(all, d, m);
    assert all[0..d] == all[..d];
    FoldCursor(v, all[..d]);
    var n := Fold(v, all[..d]).lastSeq;
    forall k | d <= k < m ensures all[k].no > n {
      AboveAt(all, v.lastSeq, k);
      if d > 0 { assert all[d-1].no < all[k].no; }
    }
    AboveSlice(all, n, d, m);
  }

  lemma {:induction false} FreshPrefix(v: View, es: seq<Event>)
    requires es != [] && Ascending(es) && Above(es, v.lastSeq)
    ensures var init := es[..|es|-1];
      Ascending(init) && Above(init, v.lastSeq) && es[|es|-1].no > Fold(v, init).lastSeq
      && (NoText(es) <==> NoText(init) && (es[|es|-1].Token? ==> es[|es|-1].delta == ""))
  {
    var n := |es| - 1;
    LastIsFresh(v, es);
    NoTextSnoc(es[..n], es[n]);
    assert es == es[..n] + [es[n]];
  }

  lemma {:induction false} LastIsFresh(v: View, es: seq<Event>)
    requires es != [] && Ascending(es) && Above(es, v.lastSeq)
    ensures var init := es[..|es|-1];
      Ascending(init) && Above(init, v.lastSeq) && es[|es|-1].no > Fold(v, init).lastSeq
  {
    var init := es[..|es|-1];
    assert forall x <- init :: x in es;
    assert es[|es|-1] in es;
    FoldCursor(v, init);
  }

  lemma {:induction false} NoTextSnoc(init: seq<Event>, e: Event)
    ensures NoText(init + [e]) <==> NoText(init) && (e.Token? ==> e.delta == "")
  {
    assert e in init + [e] && forall x <- init :: x in init + [e];
  }

  /** After the terminal, a shown text and tokens without text leave everything as it is. */
  lemma {:induction false} NoLateTextStays(v: View, es: seq<Event>)
    requires v.terminal.Some? && Ascending(es) && Above(es, v.lastSeq) && (Trim(v.text) != "" || NoText(es))
    ensures Fold(v, es).text == v.text
  {
    if es != [] {
      FreshPrefix(v, es);
      NoLateTextStays(v, es[..|es|-1]);
      TerminalSticks(v, es[..|es|-1]);
      LateStep(Fold(v, es[..|es|-1]), es[|es|-1]);
    }
  }

  /** Otherwise the text grows. */
  lemma {:induction false} LateTextGrows(v: View, es: seq<Event>)
    requires v.terminal.Some? && Ascending(es) && Above(es, v.lastSeq) && Trim(v.text) == "" && !NoText(es)
    ensures |Fold(v, es).text| > |v.text|
  {
    if es != [] {
      var init := es[..|es|-1];
      FreshPrefix(v, es);
      TerminalSticks(v, init);
      LateStep(Fold(v, init), es[|es|-1]);
      if NoText(init) { NoLateTextStays(v, init); } else { LateTextGrows(v, init); }
    }
  }

  /** The number of events up to and including the one that ends the run; |es| if none does. */
  function UpToEnd(v: View, es: seq<Event>): (m: nat)
    requires v.terminal.None?
    ensures m <= |es|
    ensures Fold(v, es).terminal.Some? ==> Fold(v, es[..m]).terminal.Some?
    ensures forall k | 0 <= k <= |es| && Fold(v, es[..k]).terminal.Some? :: m <= k
  {
    if es == [] then 0
    else
      var init := es[..|es|-1];
      var m := UpToEnd(v, init);
      assert forall k | 0 <= k < |es| :: init[..k] == es[..k];
      assert es[..|es|] == es;
      if Fold(v, init).terminal.Some? then m else |es|
  }

  lemma {:induction false} OneCharOneBlock(r: string, c: char)
    requires NoBreak(r)
    ensures |Blocks(r + [c])| <= 1
  {
    var i := NextBreak(r + [c]);
    if i < |r| + 1 {
      if i + 2 <= |r| {
        assert (r + [c])[i] == r[i] && (r + [c])[i+1] == r[i+1];
        BreakIsSeen(r, i);
      }
      assert (r + [c])[i+2..] == "";
      assert Split("") == [""];
    }
  }

  lemma {:induction false} BreakIsSeen(r: string, i: nat)
    requires i + 2 <= |r| && r[i] == '\n' && r[i+1] == '\n'
    ensures NextBreak(r) <= i
  {
    if i > 0 && !(r[0] == '\n' && r[1] == '\n') { BreakIsSeen(r[1..], i - 1); }
  }

  /** Some prefix of the text carries exactly the first `d` events. */
  lemma {:induction false} PrefixWith(s: State, w: string, d: nat, parse: string -> Option<Event>) returns (n: nat)
    requires Blocks(s.buffer) == [] && d <= |EventsIn(s, w, parse)|
    ensures n <= |w| && EventsIn(s, w[..n], parse) == EventsIn(s, w, parse)[..d]
  {
    if w == "" {
      n := 0;
      assert s.buffer + w == s.buffer;
    } else {
      var x, c := w[..|w|-1], w[|w|-1];
      assert x + [c] == w;
      OneMoreChar(s, x, c, parse);
      var had, all := EventsIn(s, x, parse), EventsIn(s, w, parse);
      if d <= |had| {
        n := PrefixWith(s, x, d, parse);
        assert x[..n] == w[..n];
        SamePrefix(had, all, d);
      } else {
        n := |w|;
        assert w[..n] == w && all[..d] == all;
      }
    }
  }

  lemma {:induction false} SamePrefix<T>(a: seq<T>, b: seq<T>, d: nat)
    requires a <= b && d <= |a|
    ensures a[..d] == b[..d]
  {}

  /** One more character completes at most one event. */
  lemma {:induction false} OneMoreChar(s: State, x: string, c: char, parse: string -> Option<Event>)
    ensures EventsIn(s, x, parse) <= EventsIn(s, x + [c], parse)
    ensures |EventsIn(s, x + [c], parse)| <= |EventsIn(s, x, parse)| + 1
  {
    EventsGrow(s, x, [c], parse);
    ResidueHasNoBreak(s.buffer + x);
    OneCharOneBlock(Residue(s.buffer + x), c);
    AtMostOne(Blocks(Residue(s.buffer + x) + [c]), parse);
  }

  lemma {:induction false} AtMostOne(blocks: seq<string>, parse: string -> Option<Event>)
    requires |blocks| <= 1
    ensures |Decoded(blocks, parse)| <= 1
  {
    if blocks != [] { assert Decoded(blocks[..0], parse) == []; }
  }

  lemma {:induction false} ReadTwo(s: State, x: string, y: string, parse: string -> Option<Event>)
    ensures Concat([x, y]) == x + y && Concat([x]) == x
    ensures Read(s, [x], parse) == Next(s, Chunk(x), parse)
    ensures Read(s, [x, y], parse) == Next(Next(s, Chunk(x), parse), Chunk(y), parse)
  {
    assert [x][..0] == [] && [x, y][..1] == [x];
    assert Concat([]) == "" && "" + x == x;
    assert Read(s, [], parse) == s;
  }

  /**
    Chunk boundaries never change what the client learns about the run: for every way to cut a
    text that keeps within the buffer cap, status, terminal and board end up as for the text in one piece, and
    without a terminal the whole view does.
  */
  lemma {:induction false} ChunkingKeepsOutcome(es: seq<Input>, chunks: seq<string>, parse: string -> Option<Event>)
    requires Run(Init(), es, parse).phase.Reading? && WithinCap(Run(Init(), es, parse).buffer, chunks)
    ensures var s := Run(Init(), es, parse);
      var whole := Fold(s.view, EventsIn(s, Concat(chunks), parse));
      var t := Read(s, chunks, parse);
      && t.view.terminal == whole.terminal && t.view.status == whole.status && t.view.board == whole.board
      && (whole.terminal.None? ==> t.view == whole && t.phase == Reading)
  {
    var s := Run(Init(), es, parse);
    RunKeepsInv(Init(), es, parse);
    ResidueHasNoBreak(s.link.received);
    var m := ReadAppliesPrefix(s, chunks, parse);
    SameOutcome(s.view, EventsIn(s, Concat(chunks), parse), m);
  }

  /** A prefix that is everything, or that ends the run, has the outcome of the whole. */
  lemma {:induction false} SameOutcome(v: View, all: seq<Event>, m: nat)
    requires m <= |all| && (m == |all| || Fold(v, all[..m]).terminal.Some?)
    ensures var t, whole := Fold(v, all[..m]), Fold(v, all);
      && t.terminal == whole.terminal && t.status == whole.status && t.board == whole.board
      && (m == |all| ==> t == whole)
  {
    if m == |all| {
      WholePrefix(all);
    } else {
      FoldSplit(v, all[..m], all[m..]);
      assert all[..m] + all[m..] == all;
      TerminalSticks(Fold(v, all[..m]), all[m..]);
    }
  }

  ghost predicate SameTextForAllChunkings(s: State, w: string, parse: string -> Option<Event>) {
    forall a: seq<string>, b: seq<string> :: Concat(a) == w && Concat(b) == w ==>
      Read(s, a, parse).view.text == Read(s, b, parse).view.text
  }

  /**
    The text shown does depend on chunk boundaries, in one case. For a text that ends the run, all
    chunkings show the same text exactly when the text at the terminal is not blank or no token
    after the terminal carries any.
  */
  lemma {:induction false} TextIgnoresChunksIff(es: seq<Input>, w: string, parse: string -> Option<Event>)
    requires Run(Init(), es, parse).phase.Reading?
    requires |Run(Init(), es, parse).buffer + w| <= MAX_SSE_BUFFER
    requires var s := Run(Init(), es, parse);
      var all := EventsIn(s, w, parse);
      Ascending(all) && Above(all, s.view.lastSeq) && Fold(s.view, all).terminal.Some?
    ensures var s := Run(Init(), es, parse);
      s.view.terminal.None?
      && var all := EventsIn(s, w, parse);
         var d := UpToEnd(s.view, all);
         SameTextForAllChunkings(s, w, parse) <==>
         Trim(Fold(s.view, all[..d]).text) != "" || NoText(all[d..])
  {
    var s := Run(Init(), es, parse);
    RunKeepsInv(Init(), es, parse);
    ResidueHasNoBreak(s.link.received);
    var all := EventsIn(s, w, parse);
    var d := UpToEnd(s.view, all);
    var over := Fold(s.view, all[..d]);
    assert BetweenReads(s);
    if Trim(over.text) != "" || NoText(all[d..]) {
      forall a: seq<string> | Concat(a) == w ensures Read(s, a, parse).view.text == over.text {
        NoLateText(s, a, all, d, parse);
      }
    } else {
      var a, b := LateTextShows(s, w, all, d, parse);
    }
  }

  lemma {:induction false} NoTextSlice(all: seq<Event>, d: nat, m: nat)
    requires d <= m <= |all| && NoText(all[d..])
    ensures NoText(all[d..m])
  {
    assert all[d..m] == all[d..][..m-d];
  }

  lemma {:induction false} TailStays(v: View, all: seq<Event>, d: nat, m: nat)
    requires Ascending(all) && Above(all, v.lastSeq) && d <= m <= |all| && Fold(v, all[..d]).terminal.Some?
    requires Trim(Fold(v, all[..d]).text) != "" || NoText(all[d..])
    ensures Fold(v, all[..m]).text == Fold(v, all[..d]).text
  {
    StretchIsFresh(v, all, d, m);
    SplitAt(all, 0, d, m);
    FoldSplit(v, all[..d], all[d..m]);
    if NoText(all[d..]) { NoTextSlice(all, d, m); }
    NoLateTextStays(Fold(v, all[..d]), all[d..m]);
  }

  lemma {:induction false} TailGrows(v: View, all: seq<Event>, d: nat)
    requires Ascending(all) && Above(all, v.lastSeq) && d <= |all| && Fold(v, all[..d]).terminal.Some?
    requires Trim(Fold(v, all[..d]).text) == "" && !NoText(all[d..])
    ensures |Fold(v, all).text| > |Fold(v, all[..d]).text|
  {
    FoldTail(v, all, d);
    LateTextGrows(Fold(v, all[..d]), all[d..]);
  }

  lemma {:induction false} FoldTail(v: View, all: seq<Event>, d: nat)
    requires Ascending(all) && Above(all, v.lastSeq) && d <= |all|
    ensures Fold(v, all) == Fold(Fold(v, all[..d]), all[d..])
    ensures Ascending(all[d..]) && Above(all[d..], Fold(v, all[..d]).lastSeq)
  {
    StretchIsFresh(v, all, d, |all|);
    assert all[d..|all|] == all[d..] && all[..d] + all[d..] == all;
    FoldSplit(v, all[..d], all[d..]);
  }

  /** The client is between two reads: still live, and no complete block is left in the buffer. */
  ghost predicate BetweenReads(s: State) {
    s.phase.Reading? && s.view.terminal.None? && Residue(s.buffer) == s.buffer && Blocks(s.buffer) == []
  }

  lemma {:induction false} NoLateText(s: State, a: seq<string>, all: seq<Event>, d: nat, parse: string -> Option<Event>)
    requires BetweenReads(s) && |s.buffer + Concat(a)| <= MAX_SSE_BUFFER && all == EventsIn(s, Concat(a), parse)
    requires Ascending(all) && Above(all, s.view.lastSeq) && Fold(s.view, all).terminal.Some?
    requires d == UpToEnd(s.view, all)
    requires Trim(Fold(s.view, all[..d]).text) != "" || NoText(all[d..])
    ensures Read(s, a, parse).view.text == Fold(s.view, all[..d]).text
  {
    ShortTextFits(s.buffer, a);
    var m := ReadAppliesPrefix(s, a, parse);
    if m == |all| { assert all[..m] == all; }
    assert d <= m;
    TailStays(s.view, all, d, m);
  }

  lemma {:induction false} LateTextShows(s: State, w: string, all: seq<Event>, d: nat, parse: string -> Option<Event>)
    returns (a: seq<string>, b: seq<string>)
    requires BetweenReads(s) && |s.buffer + w| <= MAX_SSE_BUFFER && all == EventsIn(s, w, parse)
    requires Ascending(all) && Above(all, s.view.lastSeq) && Fold(s.view, all).terminal.Some?
    requires d == UpToEnd(s.view, all)
    requires Trim(Fold(s.view, all[..d]).text) == "" && !NoText(all[d..])
    ensures Concat(a) == w && Concat(b) == w && Read(s, a, parse).view.text != Read(s, b, parse).view.text
  {
    var n := PrefixWith(s, w, d, parse);
    CutShows(s, w, n, all, d, parse);
    a, b := [w[..n], w[n..]], [w];
  }

  lemma {:induction false} CutShows(s: State, w: string, n: nat, all: seq<Event>, d: nat, parse: string -> Option<Event>)
    requires BetweenReads(s) && |s.buffer + w| <= MAX_SSE_BUFFER && all == EventsIn(s, w, parse) && n <= |w|
    requires Ascending(all) && Above(all, s.view.lastSeq) && d <= |all|
    requires EventsIn(s, w[..n], parse) == all[..d] && Fold(s.view, all[..d]).terminal.Some?
    requires Trim(Fold(s.view, all[..d]).text) == "" && !NoText(all[d..])
    ensures Concat([w[..n], w[n..]]) == w && Concat([w]) == w
    ensures Read(s, [w[..n], w[n..]], parse).view.text != Read(s, [w], parse).view.text
  {
    assert w[..n] + w[n..] == w;
    ReadShows(s, w, w[..n], w[n..], parse);
    TailGrows(s.view, all, d);
  }

  /** The text in one piece, and cut after a prefix that ends the run. */
  lemma {:induction false} ReadShows(s: State, w: string, x: string, y: string, parse: string -> Option<Event>)
    requires BetweenReads(s) && |s.buffer + w| <= MAX_SSE_BUFFER && x + y == w
    requires Fold(s.view, EventsIn(s, x, parse)).terminal.Some?
    ensures Concat([x, y]) == w && Concat([w]) == w
    ensures Read(s, [w], parse).view == Fold(s.view, EventsIn(s, w, parse))
    ensures Read(s, [x, y], parse).view == Fold(s.view, EventsIn(s, x, parse))
  {
    ReadTwo(s, x, y, parse);
    ReadTwo(s, w, "", parse);
    ReadWhole(s, w, parse);
    ReadCut(s, x, y, parse);
  }

  lemma {:induction false} ReadWhole(s: State, w: string, parse: string -> Option<Event>)
    requires s.phase.Reading? && |s.buffer + w| <= MAX_SSE_BUFFER
    ensures Read(s, [w], parse).view == Fold(s.view, EventsIn(s, w, parse))
  {
    ReadTwo(s, w, "", parse);
    ChunkApplies(s, w, parse);
  }

  /** What follows the end of the run is not applied. */
  lemma {:induction false} ReadCut(s: State, x: string, y: string, parse: string -> Option<Event>)
    requires s.phase.Reading? && |s.buffer + x| <= MAX_SSE_BUFFER
    requires Fold(s.view, EventsIn(s, x, parse)).terminal.Some?
    ensures Read(s, [x, y], parse).view == Fold(s.view, EventsIn(s, x, parse))
  {
    ReadTwo(s, x, y, parse);
    ChunkApplies(s, x, parse);
  }

  // --- convergence to the server's log -----------------------------------------------------

  /** The view that has folded the first `k` events of the log. */
  function ViewAt(log: seq<Event>, k: nat): View
    requires k <= |log|
  {
    Fold(InitialView(), log[..k])
  }

  /**
    The server's side of the contract: a snapshot is the fold of a prefix of the log and carries its
    cursor, and the stream carries the log from some event on, leaving out only what is not newer
    than the client asked for.
  */
  ghost predicate Served(log: seq<Event>, s: State, c: Input, parse: string -> Option<Event>) {
    match c
    case SnapshotArrives(Found(v, resume)) => resume == Some(v.lastSeq) && exists p | 0 <= p <= |log| :: v == ViewAt(log, p)
    case Chunk(text) => s.phase.Reading? ==> Stretch(log, s.link.since, s.link.received + text, parse)
    case _ => true
  }

  predicate Covers(log: seq<Event>, since: int, q: nat) { q <= |log| && forall i | 0 <= i < q :: log[i].no <= since }

  ghost predicate Stretch(log: seq<Event>, since: int, received: string, parse: string -> Option<Event>) {
    exists q, r | 0 <= q <= r <= |log| :: Covers(log, since, q) && Decoded(Blocks(received), parse) == log[q..r]
  }

  ghost predicate AllServed(log: seq<Event>, cs: seq<Input>, parse: string -> Option<Event>) {
    forall i | 0 <= i < |cs| :: Served(log, Run(Init(), cs[..i], parse), cs[i], parse)
  }

  /** What the client asks for after this answer to its snapshot request. */
  predicate AsksSince(c: Input, v: View, since: int) {
    && Adopts(c, v)
    && since == (if c.reply.Found? && c.reply.resumeSeq.Some? then c.reply.resumeSeq.value else -1)
  }

  /**
    In every run the stream is asked for what is newer than the cursor of the last snapshot, and for
    everything when that carried none or the session was unknown.
  */
  lemma {:induction false} AsksFromSnapshot(cs: seq<Input>, parse: string -> Option<Event>) returns (j: nat)
    requires var s := Run(Init(), cs, parse); s.phase.AwaitStream? || s.phase.Reading?
    ensures j < |cs| && forall i | j < i < |cs| :: Run(Init(), cs[..i], parse).phase.AwaitStream? || Run(Init(), cs[..i], parse).phase.Reading?
    ensures var s := Run(Init(), cs, parse); AsksSince(cs[j], s.link.adopted, s.link.since)
  {
    var last := |cs| - 1;
    var s, t := Run(Init(), cs[..last], parse), Run(Init(), cs, parse);
    NextAsks(s, cs[last], parse);
    if s.phase.AwaitStream? || s.phase.Reading? {
      j := AsksFromSnapshot(cs[..last], parse);
      forall i | j < i < |cs| ensures Run(Init(), cs[..i], parse).phase.AwaitStream? || Run(Init(), cs[..i], parse).phase.Reading? {
        if i < last { assert cs[..last][..i] == cs[..i]; }
      }
    } else {
      j := last;
    }
  }

  lemma {:induction false} NextAsks(s: State, c: Input, parse: string -> Option<Event>)
    requires var t := Next(s, c, parse); t.phase.AwaitStream? || t.phase.Reading?
    ensures var t := Next(s, c, parse);
      if s.phase.AwaitStream? || s.phase.Reading? then t.link.adopted == s.link.adopted && t.link.since == s.link.since
      else AsksSince(c, t.link.adopted, t.link.since)
  {
    if c.Chunk? && s.phase.Reading? {
      var buffer := s.buffer + c.text;
      var s1 := s.(buffer := Residue(buffer), link := s.link.(received := s.link.received + c.text));
      ApplyAllFolds(s1, Decoded(Blocks(buffer), parse));
    }
  }

  ghost predicate AskedOnLog(log: seq<Event>, s: State) {
    s.phase.AwaitStream? || s.phase.Reading? ==>
      s.link.since <= s.link.adopted.lastSeq && exists p | 0 <= p <= |log| :: s.link.adopted == ViewAt(log, p)
  }

  lemma {:induction false} ServedAsksOnLog(log: seq<Event>, cs: seq<Input>, parse: string -> Option<Event>)
    requires AllServed(log, cs, parse)
    ensures AskedOnLog(log, Run(Init(), cs, parse))
  {
    var s := Run(Init(), cs, parse);
    if s.phase.AwaitStream? || s.phase.Reading? {
      var j := AsksFromSnapshot(cs, parse);
      assert Served(log, Run(Init(), cs[..j], parse), cs[j], parse);
      assert ViewAt(log, 0) == InitialView() by { assert log[..0] == []; }
    }
  }

  lemma {:induction false} NextIsNewer(log: seq<Event>, p: nat)
    requires Ascending(log) && Above(log, 0) && p < |log|
    ensures ViewAt(log, p).lastSeq < log[p].no
  {
    assert forall e <- log[..p] :: e in log;
    FoldCursor(InitialView(), log[..p]);
    assert log[p] in log;
  }

  /** What the cursor of a view of the log covers is in that view. */
  lemma {:induction false} CoveredIsInView(log: seq<Event>, p: nat, q: nat, since: int)
    requires Ascending(log) && Above(log, 0) && p <= |log| && Covers(log, since, q) && since <= ViewAt(log, p).lastSeq
    ensures q <= p
  {
    if q > p { NextIsNewer(log, p); }
  }

  /** The view is a prefix of the log, possibly with the disconnect notice on top. */
  ghost predicate OnLog(log: seq<Event>, v: View) {
    exists k | 0 <= k <= |log| :: v == ViewAt(log, k) || v == WithDisconnect(ViewAt(log, k))
  }

  ghost predicate OnLogState(log: seq<Event>, s: State) {
    && OnLog(log, s.view)
    && (s.phase.AwaitStream? || s.phase.Reading? || s.phase.Closing? ==>
          exists k | 0 <= k <= |log| :: s.view == ViewAt(log, k))
  }

  /** The text received so far takes the adopted view to a view of the log. */
  ghost predicate LeadsOntoLog(log: seq<Event>, adopted: View, received: string, parse: string -> Option<Event>) {
    exists k | 0 <= k <= |log| :: Fold(adopted, Decoded(Blocks(received), parse)) == ViewAt(log, k)
  }

  /** What every kind of server has to keep in step `c`: snapshots on the log, text that leads onto it. */
  ghost predicate KeepsLog(log: seq<Event>, s: State, c: Input, parse: string -> Option<Event>) {
    match c
    case SnapshotArrives(Found(v, _)) => exists p | 0 <= p <= |log| :: v == ViewAt(log, p)
    case Chunk(text) => s.phase.Reading? ==> LeadsOntoLog(log, s.link.adopted, s.link.received + text, parse)
    case _ => true
  }

  lemma {:induction false} ChunkStaysOnLog(log: seq<Event>, s: State, text: string, parse: string -> Option<Event>)
    requires Inv(s, parse) && s.phase.Reading? && OnLogState(log, s)
    requires LeadsOntoLog(log, s.link.adopted, s.link.received + text, parse)
    ensures OnLogState(log, OnChunk(s, text, parse))
  {
    var k0 :| 0 <= k0 <= |log| && s.view == ViewAt(log, k0);
    var buffer := s.buffer + text;
    if |buffer| <= MAX_SSE_BUFFER {
      var had := s.link.received;
      ChunkApplies(s, text, parse);
      SplitInPieces(had, text);
      DecodedSplit(Blocks(had), Blocks(buffer), parse);
      FoldSplit(s.link.adopted, Decoded(Blocks(had), parse), Decoded(Blocks(buffer), parse));
      assert OnChunk(s, text, parse).view == Fold(s.link.adopted, Decoded(Blocks(had + text), parse));
    } else {
      assert OnChunk(s, text, parse).view == ViewAt(log, k0);
    }
  }

  lemma {:induction false} NextStaysOnLog(log: seq<Event>, s: State, c: Input, parse: string -> Option<Event>)
    requires Inv(s, parse) && OnLogState(log, s) && KeepsLog(log, s, c, parse)
    ensures OnLogState(log, Next(s, c, parse))
  {
    match c {
      case SnapshotArrives(reply) => assert ViewAt(log, 0) == InitialView() by { assert log[..0] == []; }
      case Chunk(text) => if s.phase.Reading? { ChunkStaysOnLog(log, s, text, parse); }
      case Closed => if s.phase.Closing? {
        var k :| 0 <= k <= |log| && s.view == ViewAt(log, k);
        assert Next(s, c, parse).view == WithDisconnect(ViewAt(log, k)) || Next(s, c, parse).view == s.view;
      }
      case _ =>
    }
  }

  lemma {:induction false} InitIsOnLog(log: seq<Event>)
    ensures OnLogState(log, Init())
  {
    assert ViewAt(log, 0) == InitialView() by { assert log[..0] == []; }
  }

  /** An exact stretch leads onto the log. */
  lemma {:induction false} ServedKeepsLog(log: seq<Event>, s: State, c: Input, parse: string -> Option<Event>)
    requires Ascending(log) && Above(log, 0) && Served(log, s, c, parse) && AskedOnLog(log, s)
    ensures KeepsLog(log, s, c, parse)
  {
    if c.Chunk? && s.phase.Reading? {
      var got := Decoded(Blocks(s.link.received + c.text), parse);
      var p :| 0 <= p <= |log| && s.link.adopted == ViewAt(log, p);
      var q, r :| 0 <= q <= r <= |log| && Covers(log, s.link.since, q) && got == log[q..r];
      CoveredIsInView(log, p, q, s.link.since);
      ResumeIsExact(InitialView(), log, p, q, r);
      assert Fold(s.link.adopted, got) == ViewAt(log, if r > p then r else p);
    }
  }

  /**
    Convergence: against a server that keeps its contract, the view is at every moment the fold of
    a prefix of the log, across any number of disconnects, cuts inside a frame, replays and
    reconnects; only a disconnect adds its notice to it.
  */
  lemma {:induction false} ViewIsAlwaysOnLog(log: seq<Event>, cs: seq<Input>, parse: string -> Option<Event>)
    requires Ascending(log) && Above(log, 0) && AllServed(log, cs, parse)
    ensures OnLogState(log, Run(Init(), cs, parse))
  {
    if cs == [] {
      InitIsOnLog(log);
    } else {
      var last := |cs| - 1;
      assert AllServed(log, cs[..last], parse) by {
        forall i | 0 <= i < last ensures Served(log, Run(Init(), cs[..last][..i], parse), cs[..last][i], parse) {
          assert cs[..last][..i] == cs[..i];
        }
      }
      ViewIsAlwaysOnLog(log, cs[..last], parse);
      RunKeepsInv(Init(), cs[..last], parse);
      ServedAsksOnLog(log, cs[..last], parse);
      ServedKeepsLog(log, Run(Init(), cs[..last], parse), cs[last], parse);
      NextStaysOnLog(log, Run(Init(), cs[..last], parse), cs[last], parse);
    }
  }

  /**
    A connection that has received the encoded frames of everything newer than it asked for shows
    the whole log: nothing is lost and nothing is counted twice, however the bytes were cut.
  */
  lemma {:induction false} CaughtUp(log: seq<Event>, cs: seq<Input>, fs: seq<Frame>, q: nat,
                 parse: string -> Option<Event>, stringify: Event -> string)
    requires Ascending(log) && Above(log, 0) && Codec(parse, stringify) && AllServed(log, cs, parse)
    requires var s := Run(Init(), cs, parse);
      s.phase.Reading? && Covers(log, s.link.since, q)
      && s.link.received == Wire(fs, stringify) && Events(fs) == log[q..]
    ensures Run(Init(), cs, parse).view == ViewAt(log, |log|)
  {
    var s := Run(Init(), cs, parse);
    RunKeepsInv(Init(), cs, parse);
    ServedAsksOnLog(log, cs, parse);
    var p :| 0 <= p <= |log| && s.link.adopted == ViewAt(log, p);
    CoveredIsInView(log, p, q, s.link.since);
    RestOfLogCompletes(log, fs, p, q, parse, stringify);
  }

  lemma {:induction false} RestOfLogCompletes(log: seq<Event>, fs: seq<Frame>, p: nat, q: nat,
                           parse: string -> Option<Event>, stringify: Event -> string)
    requires Ascending(log) && Above(log, 0) && q <= p <= |log| && Codec(parse, stringify)
    requires Events(fs) == log[q..]
    ensures Fold(ViewAt(log, p), Decoded(Blocks(Wire(fs, stringify)), parse)) == ViewAt(log, |log|)
  {
    WholeWire(fs, parse, stringify);
    ResumeIsExact(InitialView(), log, p, q, |log|);
    assert log[q..|log|] == log[q..];
  }

  lemma {:induction false} WholeWire(fs: seq<Frame>, parse: string -> Option<Event>, stringify: Event -> string)
    requires Codec(parse, stringify)
    ensures Decoded(Blocks(Wire(fs, stringify)), parse) == Events(fs)
  {
    var w := Wire(fs, stringify);
    assert w[..|w|] == w;
    CutDecodesToPrefix(fs, |w|, parse, stringify);
  }

  /** Real frames keep the stream's half of the contract, wherever the connection is cut. */
  lemma {:induction false} WireKeepsContract(log: seq<Event>, since: int, fs: seq<Frame>, q: nat, n: nat,
                          parse: string -> Option<Event>, stringify: Event -> string)
    requires Covers(log, since, q) && Codec(parse, stringify) && n <= |Wire(fs, stringify)| && Events(fs) == log[q..]
    ensures Stretch(log, since, Wire(fs, stringify)[..n], parse)
  {
    CutDecodesToPrefix(fs, n, parse, stringify);
    var got := Decoded(Blocks(Wire(fs, stringify)[..n]), parse);
    assert got == log[q..][..|got|] == log[q..q+|got|];
  }
}
