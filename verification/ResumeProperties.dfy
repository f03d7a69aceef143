/**
  A reader that resumes: it adopts the server's snapshot, and subscribes to the live stream with a
  second request. What the server is fed between the two requests is in neither unless it is still
  held back; what it holds back at both is in both. This module says exactly when the reader
  nevertheless ends up with the server's view.
*/
module ResumeProperties {
  import opened Options
  import opened EvEvents
  import opened CoordinatorMachine
  import opened CoordinatorProperties

  // --- what the reader gets ----------------------------------------------------------------

  /** What a subscriber is sent from state `d` on; the hub replays nothing. */
  function SentFrom(d: State, ins: seq<Input>, maxBatch: nat): seq<Event> {
    var out := Run(d, ins, maxBatch).out;
    if |d.out| <= |out| then out[|d.out|..] else []
  }

  lemma {:induction false} OutStays(c: State, ins: seq<Input>, maxBatch: nat)
    ensures c.out <= Run(c, ins, maxBatch).out
  {
    if ins != [] {
      var d := Run(c, ins[..|ins|-1], maxBatch);
      OutStays(c, ins[..|ins|-1], maxBatch);
      NextKeepsOut(d, ins[|ins|-1], maxBatch);
      PrefixOfPrefix(c.out, d.out, Next(d, ins[|ins|-1], maxBatch).out);
    }
  }

  lemma {:induction false} NextKeepsOut(d: State, i: Input, maxBatch: nat)
    ensures d.out <= Next(d, i, maxBatch).out
  {}

  lemma {:induction false} PrefixOfPrefix(a: seq<Event>, b: seq<Event>, c: seq<Event>)
    requires a <= b && b <= c
    ensures a <= c
  {}

  /**
    What the stream route writes for a reader with view `w` that asked for what is newer than `since`
    and subscribes in state `d`, after the server was fed `missed` since the snapshot: nothing if the
    server's view is over by then, else what was sent from then on and is newer than asked.
  */
  function Delivered(since: int, w: View, missed: seq<Event>, d: State, ins: seq<Input>, maxBatch: nat): seq<Event> {
    if Fold(w, missed).terminal.Some? then [] else Newer(SentFrom(d, ins, maxBatch), since)
  }

  /** The reader's view once `ins` has happened after the subscription and has been flushed. */
  function Resumed(w: View, missed: seq<Event>, d: State, ins: seq<Input>, maxBatch: nat): View {
    Fold(w, Delivered(w.lastSeq, w, missed, d, ins + [FlushNow], maxBatch))
  }

  /** The reader agrees with the server after every continuation of the log. */
  ghost predicate AlwaysConverges(w: View, missed: seq<Event>, d: State, maxBatch: nat) {
    forall ins: seq<Input> :: Continues(missed + Pushed(ins), w.lastSeq) ==>
      Resumed(w, missed, d, ins, maxBatch) == Fold(w, missed + Pushed(ins))
  }

  // --- what is held back at the subscription -----------------------------------------------

  predicate Tokens(es: seq<Event>) { forall e <- es :: e.Token? }

  /** The batch `b` after the tokens `es` have joined it. */
  function Merged(b: Option<Batch>, es: seq<Event>): Option<Batch>
    requires Tokens(es)
  {
    if es == [] then b else Some(Merge(Merged(b, Front(es)), es[|es|-1]))
  }

  function Front(es: seq<Event>): (init: seq<Event>)
    requires es != []
    ensures init == es[..|es|-1] && forall e <- init :: e in es
  {
    es[..|es|-1]
  }

  /** How many of the events fed in meanwhile are still held back in `d`. */
  function HeldCount(d: State, missed: seq<Event>): (n: nat)
    ensures n <= |missed|
  {
    if d.pending.None? then 0 else if d.pending.value.count <= |missed| then d.pending.value.count else |missed|
  }

  function StillHeld(d: State, missed: seq<Event>): seq<Event> { missed[|missed|-HeldCount(d, missed)..] }

  /** Fed in after the snapshot and sent before the subscription: the reader never gets these. */
  function Lost(d: State, missed: seq<Event>): seq<Event> { missed[..|missed|-HeldCount(d, missed)] }

  /** Text that was held back at the snapshot, which contains it, and is still to be sent. */
  predicate Repeats(c: State, d: State) {
    |d.out| == |c.out| && c.pending.Some? && c.pending.value.delta != ""
  }

  /** What was lost cannot be seen: text and board are the same without it, and a held token moves the cursor on. */
  predicate LossIsInvisible(w: View, d: State, missed: seq<Event>) {
    var lost := Lost(d, missed);
    lost == [] || (d.pending.Some? && Fold(w, lost).text == w.text && Fold(w, lost).board == w.board)
  }

  predicate Harmless(w: View, c: State, missed: seq<Event>, d: State) {
    Plain(missed) && !Repeats(c, d) && LossIsInvisible(w, d, missed)
  }

  /** Between snapshot `c` and subscription `d`: either nothing was sent, or what is held back came in since. */
  ghost predicate HoldsSince(c: State, d: State, missed: seq<Event>) {
    && !d.terminated && d.terminal.None? && |c.out| <= |d.out|
    && (|d.out| == |c.out| ==> Tokens(missed) && d.pending == Merged(c.pending, missed))
    && (|d.out| > |c.out| && d.pending.Some? ==>
          0 < d.pending.value.count <= |missed|
          && Tokens(StillHeld(d, missed)) && d.pending == Merged(None, StillHeld(d, missed)))
  }

  lemma {:induction false} MergedOneMore(b: Option<Batch>, es: seq<Event>, e: Event)
    requires Tokens(es) && e.Token?
    ensures Tokens(es + [e]) && Merged(b, es + [e]) == Some(Merge(Merged(b, es), e))
  {
    assert Front(es + [e]) == es;
  }

  lemma {:induction false} TokenHolds(c: State, d: State, missed: seq<Event>, e: Event)
    requires HoldsSince(c, d, missed) && e.Token?
    ensures HoldsSince(c, d.(pending := Some(Merge(d.pending, e))), missed + [e])
  {
    var t := d.(pending := Some(Merge(d.pending, e)));
    if |d.out| == |c.out| {
      MergedOneMore(c.pending, missed, e);
    } else {
      var held := if d.pending.Some? then StillHeld(d, missed) else [];
      MergedOneMore(None, held, e);
      assert StillHeld(t, missed + [e]) == held + [e];
    }
  }

  lemma {:induction false} NextHolds(c: State, d: State, missed: seq<Event>, i: Input, maxBatch: nat)
    requires HoldsSince(c, d, missed) && (i.Push? ==> !i.event.Terminal?)
    ensures HoldsSince(c, Next(d, i, maxBatch), missed + (if i.Push? then [i.event] else []))
  {
    if i.Push? && i.event.Token? {
      TokenHolds(c, d, missed, i.event);
    } else if !i.Push? {
      assert missed + [] == missed;
    }
  }

  lemma {:induction false} RunHolds(c: State, ins: seq<Input>, maxBatch: nat)
    requires !c.terminated && c.terminal.None? && Plain(Pushed(ins))
    ensures HoldsSince(c, Run(c, ins, maxBatch), Pushed(ins))
  {
    if ins != [] {
      var init, i := ins[..|ins|-1], ins[|ins|-1];
      assert forall e <- Pushed(init) :: e in Pushed(ins);
      if i.Push? { assert i.event in Pushed(ins); }
      RunHolds(c, init, maxBatch);
      NextHolds(c, Run(c, init, maxBatch), Pushed(init), i, maxBatch);
    }
  }

  // --- what merged tokens do to a view ------------------------------------------------------

  function TextOf(es: seq<Event>): string {
    if es == [] then "" else TextOf(Front(es)) + (if es[|es|-1].Token? then es[|es|-1].delta else "")
  }

  /** Terminal-free tokens, newer than cursor `n`. */
  ghost predicate NewTokens(es: seq<Event>, n: int) { Tokens(es) && Ascending(es) && Above(es, n) }

  lemma {:induction false} NewTokensFront(es: seq<Event>, n: int)
    requires NewTokens(es, n) && es != []
    ensures NewTokens(Front(es), n) && es[|es|-1].Token? && es[|es|-1].no > n
    ensures |es| > 1 ==> es[|es|-1].no > Front(es)[|es|-2].no
  {
    assert es[|es|-1] in es;
  }

  lemma {:induction false} TextOfOneMore(es: seq<Event>)
    requires es != [] && es[|es|-1].Token?
    ensures TextOf(es) == TextOf(Front(es)) + es[|es|-1].delta
  {}

  lemma {:induction false} Append3(a: string, b: string, c: string)
    ensures a + (b + c) == a + b + c && "" + a == a && a + "" == a
  {}

  /** Tokens append their text and move the cursor; nothing else changes. */
  lemma {:induction false} TokensAppend(v: View, es: seq<Event>)
    requires v.terminal.None? && NewTokens(es, v.lastSeq) && es != []
    ensures Fold(v, es) == v.(status := Live, text := v.text + TextOf(es), lastSeq := es[|es|-1].no)
  {
    var init, e := Front(es), es[|es|-1];
    NewTokensFront(es, v.lastSeq);
    TextOfOneMore(es);
    if init == [] {
      Append3(e.delta, "", "");
      assert Fold(v, init) == v;
      OneAppends(v, e);
    } else {
      TokensAppend(v, init);
      OneAppends(Fold(v, init), e);
      Append3(v.text, TextOf(init), e.delta);
    }
  }

  lemma {:induction false} OneAppends(v: View, e: Event)
    requires v.terminal.None? && e.Token? && e.no > v.lastSeq
    ensures Reduce(v, e) == v.(status := Live, text := v.text + e.delta, lastSeq := e.no)
  {}

  function DeltaOf(b: Option<Batch>): string { if b.Some? then b.value.delta else "" }
  function CountOf(b: Option<Batch>): nat { if b.Some? then b.value.count else 0 }

  lemma {:induction false} MergedIs(b: Option<Batch>, es: seq<Event>)
    requires Tokens(es) && es != []
    ensures var m := Merged(b, es);
      m.Some? && m.value.no == es[|es|-1].no
      && m.value.delta == DeltaOf(b) + TextOf(es) && m.value.count == CountOf(b) + |es|
  {
    var init, e := Front(es), es[|es|-1];
    assert e in es;
    TextOfOneMore(es);
    if init == [] {
      Append3(e.delta, "", "");
    } else {
      MergedIs(b, init);
      Append3(DeltaOf(b), TextOf(init), e.delta);
    }
  }

  /** A batch held back for a live reader, which means `es`. */
  lemma {:induction false} BatchMeans(w: View, d: State, t: Event, es: seq<Event>)
    requires w.terminal.None? && !d.terminated && d.terminal.None?
    requires d.pending.Some? && t == AsToken(d.pending.value)
    requires Reduce(w, t) == Fold(w, es) && (t.no > w.lastSeq || t.delta == "")
    ensures Means(w, |d.out|, d, es)
  {
    assert Since(d, |d.out|) == [];
    assert Held(d) == [t];
    FoldSingle(w, t);
  }

  lemma {:induction false} EmptyMeans(w: View, d: State)
    requires w.terminal.None? && !d.terminated && d.terminal.None? && d.pending.None?
    ensures Means(w, |d.out|, d, [])
  {
    assert Since(d, |d.out|) == [] && Held(d) == [];
  }

  /** The batch that `es` became does what they did. */
  lemma {:induction false} MergedDoes(w: View, b: Option<Batch>, es: seq<Event>)
    requires w.terminal.None? && NewTokens(es, w.lastSeq) && es != [] && DeltaOf(b) == ""
    ensures Merged(b, es).Some? && Merged(b, es).value.no == es[|es|-1].no > w.lastSeq
    ensures Reduce(w, AsToken(Merged(b, es).value)) == Fold(w, es)
  {
    MergedIs(b, es);
    Append3(TextOf(es), "", "");
    TokensAppend(w, es);
    assert es[|es|-1] in es;
    OneAppends(w, AsToken(Merged(b, es).value));
  }

  /** For a reader whose view lacks them, the held tokens mean what they meant one by one. */
  lemma {:induction false} HeldMeans(w: View, d: State, held: seq<Event>)
    requires w.terminal.None? && !d.terminated && d.terminal.None? && NewTokens(held, w.lastSeq)
    requires d.pending == Merged(None, held)
    ensures Means(w, |d.out|, d, held)
    ensures d.pending.Some? ==> held != [] && d.pending.value.no == held[|held|-1].no
  {
    if held == [] {
      EmptyMeans(w, d);
    } else {
      MergedDoes(w, None, held);
      BatchMeans(w, d, AsToken(d.pending.value), held);
    }
  }

  // --- the reader's view -------------------------------------------------------------------

  /** A live server and a snapshot that contains everything it was fed. */
  ghost predicate Snapshot(w: View, c: State) {
    w.terminal.None? && !c.terminated && c.terminal.None? && (c.pending.Some? ==> c.pending.value.no <= w.lastSeq)
  }

  lemma {:induction false} SnapshotTaken(before: seq<Input>, maxBatch: nat)
    requires Continues(Pushed(before), 0) && Plain(Pushed(before))
    ensures Snapshot(Fold(InitialView(), Pushed(before)), Run(Init(), before, maxBatch))
  {
    var v, log := InitialView(), Pushed(before);
    InitMeans(v);
    assert [] + log == log;
    RunMeans(v, 0, Init(), [], before, maxBatch);
    NotOverYet(v, 0, Run(Init(), before, maxBatch), log);
    FoldCursor(v, log);
    NoTerminalNoEnd(v, log);
    if log != [] { assert log[|log|-1] in log; }
  }

  /** If the held tokens `held` are all the reader will see of what it missed. */
  lemma {:induction false} ReaderShows(
      w: View, missed: seq<Event>, d: State, held: seq<Event>, ins: seq<Input>, maxBatch: nat)
    requires w.terminal.None? && Plain(missed) && Means(w, |d.out|, d, held)
    requires Continues(held + Pushed(ins), w.lastSeq)
    requires d.pending.Some? ==> Above(Pushed(ins), d.pending.value.no)
    ensures Resumed(w, missed, d, ins, maxBatch) == Fold(w, held + Pushed(ins))
  {
    NoTerminalNoEnd(w, missed);
    FlushedMeans(w, |d.out|, d, held, ins, maxBatch);
    DroppingSeenIsHarmless(w, SentFrom(d, ins + [FlushNow], maxBatch), w.lastSeq);
  }

  lemma {:induction false} ContinuesTail(x: seq<Event>, held: seq<Event>, i: seq<Event>, n: int)
    requires Continues(x + held + i, n) && Plain(x + held)
    ensures Continues(held + i, n) && (held != [] ==> Above(i, held[|held|-1].no)) && (x + held != [] ==> Above(i, (x + held)[|x + held|-1].no))
  {
    var all, tail := x + held + i, held + i;
    assert all == x + tail;
    forall a, b | 0 <= a < b < |tail| ensures tail[a].no < tail[b].no { assert all[|x|+a].no < all[|x|+b].no; }
    forall e | e in tail ensures e.no > n { assert e in all; }
    if tail != [] {
      forall e | e in tail[..|tail|-1] ensures !e.Terminal? {
        assert all[..|all|-1] == x + tail[..|tail|-1];
        assert e in all[..|all|-1];
      }
    }
    var k := |x + held|;
    if k > 0 {
      forall e | e in i ensures e.no > (x + held)[k-1].no {
        var j :| 0 <= j < |i| && i[j] == e;
        assert all[k-1].no < all[k+j].no;
      }
    }
  }

  // --- nothing was sent in between ----------------------------------------------------------

  lemma {:induction false} AllHeld(c: State, d: State, missed: seq<Event>)
    requires HoldsSince(c, d, missed) && |d.out| == |c.out|
    ensures Lost(d, missed) == []
  {
    if missed != [] { MergedIs(c.pending, missed); }
  }

  /** What was held back at the snapshot is blank and everything since is still to come. */
  lemma {:induction false} BlankHeldMeans(w: View, c: State, d: State, missed: seq<Event>)
    requires Snapshot(w, c) && HoldsSince(c, d, missed) && |d.out| == |c.out| && !Repeats(c, d)
    requires NewTokens(missed, w.lastSeq)
    ensures Means(w, |d.out|, d, missed)
    ensures d.pending.Some? ==> d.pending.value.no == (if missed == [] then c.pending.value.no else missed[|missed|-1].no)
  {
    if c.pending.None? {
      HeldMeans(w, d, missed);
    } else {
      if missed != [] { MergedDoes(w, c.pending, missed); }
      BatchMeans(w, d, AsToken(d.pending.value), missed);
    }
  }

  /** Text held back all along is shown twice as soon as one more token follows. */
  lemma {:induction false} HeldTextShowsTwice(w: View, c: State, d: State, missed: seq<Event>, maxBatch: nat)
    requires Snapshot(w, c) && HoldsSince(c, d, missed) && Repeats(c, d) && NewTokens(missed, w.lastSeq)
    ensures !AlwaysConverges(w, missed, d, maxBatch)
  {
    var n := if missed == [] then w.lastSeq else missed[|missed|-1].no;
    if missed != [] { assert missed[|missed|-1] in missed; }
    var e := Token(n + 1, "", "");
    OneMoreToken(missed, e, w.lastSeq);
    OnePushed(e);
    MergedOneMore(c.pending, missed, e);
    OneBatchSent(w, d, e, maxBatch);
    NoTerminalNoEnd(w, missed);
    TwiceAsLong(w, c.pending, missed + [e]);
    FoldSingle(w, AsToken(Merge(d.pending, e)));
    assert Resumed(w, missed, d, [Push(e)], maxBatch) != Fold(w, missed + Pushed([Push(e)]));
  }

  lemma {:induction false} OnePushed(e: Event)
    ensures Pushed([Push(e)]) == [e]
  {
    assert [Push(e)][..0] == [] && Pushed([]) == [] && [] + [e] == [e];
  }

  lemma {:induction false} TwiceAsLong(w: View, b: Option<Batch>, all: seq<Event>)
    requires w.terminal.None? && b.Some? && b.value.delta != "" && NewTokens(all, w.lastSeq) && all != []
    ensures Reduce(w, AsToken(Merged(b, all).value)).text != Fold(w, all).text
  {
    TokensAppend(w, all);
    MergedIs(b, all);
    assert all[|all|-1] in all;
    assert |Reduce(w, AsToken(Merged(b, all).value)).text| > |Fold(w, all).text|;
  }

  lemma {:induction false} OneMoreToken(es: seq<Event>, e: Event, n: int)
    requires NewTokens(es, n) && e.Token? && e.no > n && (es != [] ==> e.no > es[|es|-1].no)
    ensures NewTokens(es + [e], n) && Continues(es + [e], n)
  {
    assert (es + [e])[..|es|] == es;
  }

  lemma {:induction false} OneBatchSent(w: View, d: State, e: Event, maxBatch: nat)
    requires !d.terminated && d.terminal.None? && e.Token? && e.no > w.lastSeq
    ensures Newer(SentFrom(d, [Push(e)] + [FlushNow], maxBatch), w.lastSeq) == [AsToken(Merge(d.pending, e))]
  {
    var b := Merge(d.pending, e);
    RunSingle(d, Push(e), maxBatch);
    RunNext(d, [Push(e)], FlushNow, maxBatch);
    assert Run(d, [Push(e)] + [FlushNow], maxBatch).out == d.out + [AsToken(b)];
    assert SentFrom(d, [Push(e)] + [FlushNow], maxBatch) == [AsToken(b)];
    assert [AsToken(b)][..0] == [];
    assert Newer([], w.lastSeq) == [];
  }

  // --- something was sent in between --------------------------------------------------------

  /** With and without the lost events the view is the same exactly when their loss is invisible. */
  lemma {:induction false} SameViewIff(w: View, x: seq<Event>, held: seq<Event>)
    requires w.terminal.None? && Plain(x) && Ascending(x) && Above(x, w.lastSeq) && NewTokens(held, w.lastSeq)
    requires x != [] && held != [] ==> held[0].no > x[|x|-1].no
    ensures Fold(w, held) == Fold(w, x + held) <==>
            x == [] || (held != [] && Fold(w, x).text == w.text && Fold(w, x).board == w.board)
  {
    FoldSplit(w, x, held);
    NoTerminalNoEnd(w, x);
    FoldCursor(w, x);
    var u := Fold(w, x);
    if x == [] {
    } else if held == [] {
      assert x[|x|-1] in x;
    } else {
      NewerThan(held, u.lastSeq);
      TokensAppend(w, held);
      TokensAppend(u, held);
      SuffixCancels(w.text, u.text, TextOf(held));
    }
  }

  lemma {:induction false} NewerThan(es: seq<Event>, n: int)
    requires es != [] && Ascending(es) && es[0].no > n
    ensures Above(es, n)
  {
    forall e | e in es ensures e.no > n {
      var i :| 0 <= i < |es| && es[i] == e;
      assert i > 0 ==> es[0].no < es[i].no;
    }
  }

  lemma {:induction false} SuffixCancels(a: string, b: string, s: string)
    ensures a + s == b + s <==> a == b
  {
    if a + s == b + s {
      assert |a| == |b|;
      assert a == (a + s)[..|a|] == (b + s)[..|b|] == b;
    }
  }

  lemma {:induction false} SplitLog(missed: seq<Event>, k: nat, n: int)
    requires Plain(missed) && Ascending(missed) && Above(missed, n) && k <= |missed|
    ensures var x, held := missed[..k], missed[k..];
      Plain(x) && Ascending(x) && Above(x, n) && Ascending(held) && Above(held, n)
      && (x != [] && held != [] ==> held[0].no > x[|x|-1].no)
  {
    var x, held := missed[..k], missed[k..];
    forall i, j | 0 <= i < j < |held| ensures held[i].no < held[j].no { assert missed[k+i].no < missed[k+j].no; }
    assert forall e <- held :: e in missed;
    assert forall e <- x :: e in missed;
    if x != [] && held != [] { assert missed[k-1].no < missed[k].no; }
  }

  /** What the subscriber is still sent means what is still held back. */
  lemma {:induction false} GapMeans(w: View, d: State, missed: seq<Event>)
    requires w.terminal.None? && !d.terminated && d.terminal.None? && Plain(missed) && Ascending(missed) && Above(missed, w.lastSeq)
    requires Tokens(StillHeld(d, missed)) && d.pending == Merged(None, StillHeld(d, missed))
    ensures var held := StillHeld(d, missed);
      Means(w, |d.out|, d, held) && (d.pending.Some? ==> held != [] && d.pending.value.no == held[|held|-1].no)
  {
    SplitLog(missed, |missed| - HeldCount(d, missed), w.lastSeq);
    HeldMeans(w, d, StillHeld(d, missed));
  }

  /** The reader's view without the lost events, and with them. */
  lemma {:induction false} LossIff(w: View, d: State, missed: seq<Event>)
    requires w.terminal.None? && Plain(missed) && Ascending(missed) && Above(missed, w.lastSeq)
    requires Tokens(StillHeld(d, missed)) && (d.pending.Some? <==> StillHeld(d, missed) != [])
    ensures Fold(w, StillHeld(d, missed)) == Fold(w, missed) <==> LossIsInvisible(w, d, missed)
  {
    SplitLog(missed, |missed| - HeldCount(d, missed), w.lastSeq);
    assert Lost(d, missed) + StillHeld(d, missed) == missed;
    SameViewIff(w, Lost(d, missed), StillHeld(d, missed));
  }

  lemma {:induction false} GapConvergesIff(w: View, c: State, d: State, missed: seq<Event>, maxBatch: nat)
    requires Snapshot(w, c) && HoldsSince(c, d, missed) && |d.out| > |c.out|
    requires Continues(missed, w.lastSeq) && Plain(missed)
    ensures AlwaysConverges(w, missed, d, maxBatch) <==> LossIsInvisible(w, d, missed)
  {
    if d.pending.None? { assert StillHeld(d, missed) == []; }
    GapMeans(w, d, missed);
    LossIff(w, d, missed);
    if LossIsInvisible(w, d, missed) {
      forall ins: seq<Input> | Continues(missed + Pushed(ins), w.lastSeq)
        ensures Resumed(w, missed, d, ins, maxBatch) == Fold(w, missed + Pushed(ins))
      {
        GapShows(w, missed, d, ins, maxBatch);
        SameContinuation(w, StillHeld(d, missed), missed, Pushed(ins));
      }
    } else {
      LossShows(w, missed, d, maxBatch);
    }
  }

  lemma {:induction false} SameContinuation(w: View, a: seq<Event>, b: seq<Event>, more: seq<Event>)
    requires Fold(w, a) == Fold(w, b)
    ensures Fold(w, a + more) == Fold(w, b + more)
  {
    FoldSplit(w, a, more);
    FoldSplit(w, b, more);
  }

  lemma {:induction false} LossShows(w: View, missed: seq<Event>, d: State, maxBatch: nat)
    requires w.terminal.None? && Plain(missed) && Continues(missed, w.lastSeq)
    requires var held := StillHeld(d, missed);
      Means(w, |d.out|, d, held) && (d.pending.Some? ==> held != [] && d.pending.value.no == held[|held|-1].no)
    requires Fold(w, StillHeld(d, missed)) != Fold(w, missed)
    ensures !AlwaysConverges(w, missed, d, maxBatch)
  {
    assert missed + Pushed([]) == missed && StillHeld(d, missed) + Pushed([]) == StillHeld(d, missed);
    GapShows(w, missed, d, [], maxBatch);
  }

  lemma {:induction false} GapShows(w: View, missed: seq<Event>, d: State, ins: seq<Input>, maxBatch: nat)
    requires w.terminal.None? && Plain(missed) && Continues(missed + Pushed(ins), w.lastSeq)
    requires var held := StillHeld(d, missed);
      Means(w, |d.out|, d, held) && (d.pending.Some? ==> held != [] && d.pending.value.no == held[|held|-1].no)
    ensures Resumed(w, missed, d, ins, maxBatch) == Fold(w, StillHeld(d, missed) + Pushed(ins))
  {
    var x, held := Lost(d, missed), StillHeld(d, missed);
    assert x + held == missed;
    ContinuesTail(x, held, Pushed(ins), w.lastSeq);
    ReaderShows(w, missed, d, held, ins, maxBatch);
  }

  // --- the theorem -------------------------------------------------------------------------

  lemma {:induction false} StillLiveIff(w: View, missed: seq<Event>)
    requires w.terminal.None? && Continues(missed, w.lastSeq)
    ensures Fold(w, missed).terminal.None? <==> Plain(missed)
  {
    if missed != [] {
      var init, e := Front(missed), missed[|missed|-1];
      assert missed == init + [e];
      ContinuesPrefix(init, e, w.lastSeq);
      PlainOneMore(init, e);
      LastEnds(w, init, e);
    }
  }

  lemma {:induction false} LastEnds(w: View, init: seq<Event>, e: Event)
    requires w.terminal.None? && Plain(init) && Ascending(init) && e.no > w.lastSeq && (init != [] ==> e.no > init[|init|-1].no)
    ensures Fold(w, init + [e]).terminal.None? <==> !e.Terminal?
  {
    NoTerminalNoEnd(w, init);
    FoldCursor(w, init);
    FoldNext(w, init, e);
  }

  lemma {:induction false} PlainOneMore(es: seq<Event>, e: Event)
    requires Plain(es)
    ensures Plain(es + [e]) <==> !e.Terminal?
  {
    assert e in es + [e];
  }

  /** A run that ended in between is over for the server, and its stream ends before it says so. */
  lemma {:induction false} EndIsMissed(w: View, d: State, missed: seq<Event>, maxBatch: nat)
    requires w.terminal.None? && Continues(missed, w.lastSeq) && !Plain(missed)
    ensures !AlwaysConverges(w, missed, d, maxBatch)
  {
    StillLiveIff(w, missed);
    assert missed + Pushed([]) == missed;
    assert Resumed(w, missed, d, [], maxBatch) == w;
  }

  lemma {:induction false} NoGapConvergesIff(w: View, c: State, d: State, missed: seq<Event>, maxBatch: nat)
    requires Snapshot(w, c) && HoldsSince(c, d, missed) && |d.out| == |c.out|
    requires Continues(missed, w.lastSeq) && Plain(missed)
    ensures AlwaysConverges(w, missed, d, maxBatch) <==> !Repeats(c, d)
  {
    assert NewTokens(missed, w.lastSeq);
    if Repeats(c, d) {
      HeldTextShowsTwice(w, c, d, missed, maxBatch);
    } else {
      BlankHeldMeans(w, c, d, missed);
      forall ins: seq<Input> | Continues(missed + Pushed(ins), w.lastSeq)
        ensures Resumed(w, missed, d, ins, maxBatch) == Fold(w, missed + Pushed(ins))
      {
        NoGapShows(w, c, d, missed, ins, maxBatch);
      }
    }
  }

  lemma {:induction false} NoGapShows(w: View, c: State, d: State, missed: seq<Event>, ins: seq<Input>, maxBatch: nat)
    requires Snapshot(w, c) && Means(w, |d.out|, d, missed) && Plain(missed)
    requires d.pending.Some? && missed == [] ==> c.pending.Some? && d.pending.value.no == c.pending.value.no
    requires d.pending.Some? && missed != [] ==> d.pending.value.no == missed[|missed|-1].no
    requires Continues(missed + Pushed(ins), w.lastSeq)
    ensures Resumed(w, missed, d, ins, maxBatch) == Fold(w, missed + Pushed(ins))
  {
    assert [] + missed == missed;
    ContinuesTail([], missed, Pushed(ins), w.lastSeq);
    if missed == [] { assert missed + Pushed(ins) == Pushed(ins); }
    ReaderShows(w, missed, d, missed, ins, maxBatch);
  }

  /**
    Resuming is exact or it is not: a reader that adopts the snapshot taken after `before` and
    subscribes after `between` agrees with the server in every continuation of the log if and only
    if the run did not end in between, no text held back at the snapshot is still to be sent, and
    what was sent in between leaves text and board as they were (with a token still held back
    that moves the cursor on), or nothing newer than the snapshot was sent in between at all.
  */
  lemma {:induction false} ResumeConvergesIff(before: seq<Input>, between: seq<Input>, maxBatch: nat)
    requires Continues(Pushed(before) + Pushed(between), 0) && Plain(Pushed(before))
    ensures var c := Run(Init(), before, maxBatch);
      var w := Fold(InitialView(), Pushed(before));
      var d := Run(c, between, maxBatch);
      AlwaysConverges(w, Pushed(between), d, maxBatch) <==> Harmless(w, c, Pushed(between), d)
  {
    var c := Run(Init(), before, maxBatch);
    var w := Fold(InitialView(), Pushed(before));
    var d, missed := Run(c, between, maxBatch), Pushed(between);
    ContinuesParts(Pushed(before), missed);
    SnapshotTaken(before, maxBatch);
    if !Plain(missed) {
      EndIsMissed(w, d, missed, maxBatch);
    } else {
      RunHolds(c, between, maxBatch);
      if |d.out| == |c.out| {
        AllHeld(c, d, missed);
        NoGapConvergesIff(w, c, d, missed, maxBatch);
      } else {
        GapConvergesIff(w, c, d, missed, maxBatch);
      }
    }
  }

  lemma {:induction false} ContinuesParts(a: seq<Event>, b: seq<Event>)
    requires Continues(a + b, 0) && Plain(a)
    ensures Continues(a, 0) && Continues(b, Fold(InitialView(), a).lastSeq)
  {
    ContinuesStart(a, b, 0);
    ContinuesRest(a, b, 0);
    FoldCursor(InitialView(), a);
    if a != [] { assert a[|a|-1] in a; }
  }

  lemma {:induction false} ContinuesStart(a: seq<Event>, b: seq<Event>, n: int)
    requires Continues(a + b, n) && Plain(a)
    ensures Continues(a, n)
  {
    var all := a + b;
    assert forall x <- a :: x in all;
    forall i, j | 0 <= i < j < |a| ensures a[i].no < a[j].no { assert all[i].no < all[j].no; }
    if a != [] { assert forall x <- a[..|a|-1] :: x in a; }
  }

  lemma {:induction false} ContinuesRest(a: seq<Event>, b: seq<Event>, n: int)
    requires Continues(a + b, n) && Plain(a)
    ensures Continues(b, n) && (a != [] ==> Continues(b, a[|a|-1].no))
  {
    assert a + [] == a && a + [] + b == a + b && [] + b == b;
    ContinuesTail(a, [], b, n);
  }


  // --- the cause in terms of what was sent --------------------------------------------------

  /** Since snapshot `c` only the text held back then was sent, or the last event sent is the last one lost. */
  ghost predicate SentSince(c: State, d: State, missed: seq<Event>) {
    |d.out| > |c.out| ==>
      var lost := Lost(d, missed);
      && (lost == [] ==> c.pending.Some? && d.out == c.out + [AsToken(c.pending.value)])
      && (lost != [] ==> d.out[|d.out|-1].no == lost[|lost|-1].no)
  }

  lemma {:induction false} FlushSent(c: State, d: State, missed: seq<Event>)
    requires HoldsSince(c, d, missed) && SentSince(c, d, missed) && c.out <= d.out
    ensures SentSince(c, FlushPending(d), missed)
  {
    if d.pending.Some? {
      var t := FlushPending(d);
      assert Lost(t, missed) == missed;
      if |d.out| > |c.out| {
        MergedIs(None, StillHeld(d, missed));
      } else if missed != [] {
        MergedIs(c.pending, missed);
      } else {
        assert d.out == c.out;
      }
    }
  }

  lemma {:induction false} PushSent(c: State, d: State, missed: seq<Event>, e: Event, maxBatch: nat)
    requires HoldsSince(c, d, missed) && SentSince(c, d, missed) && c.out <= d.out && !e.Terminal?
    ensures SentSince(c, OnPush(d, e, maxBatch), missed + [e])
  {
    if e.Token? {
      var t := d.(pending := Some(Merge(d.pending, e)));
      TokenHolds(c, d, missed, e);
      StillLost(c, d, t, missed, e);
      FlushSent(c, t, missed + [e]);
      WindowDoesNotMatter(c, t, missed + [e]);
    } else {
      assert Lost(OnPush(d, e, maxBatch), missed + [e]) == missed + [e];
    }
  }

  lemma {:induction false} WindowDoesNotMatter(c: State, d: State, missed: seq<Event>)
    requires SentSince(c, d, missed)
    ensures SentSince(c, d.(window := true), missed)
  {
    assert Lost(d.(window := true), missed) == Lost(d, missed);
  }

  lemma {:induction false} StillLost(c: State, d: State, t: State, missed: seq<Event>, e: Event)
    requires HoldsSince(c, d, missed) && SentSince(c, d, missed)
    requires e.Token? && t == d.(pending := Some(Merge(d.pending, e)))
    ensures SentSince(c, t, missed + [e])
  {
    if |d.out| > |c.out| {
      assert HeldCount(t, missed + [e]) == HeldCount(d, missed) + 1;
      assert Lost(t, missed + [e]) == Lost(d, missed);
    }
  }

  lemma {:induction false} RunSent(c: State, ins: seq<Input>, maxBatch: nat)
    requires !c.terminated && c.terminal.None? && Plain(Pushed(ins))
    ensures SentSince(c, Run(c, ins, maxBatch), Pushed(ins))
  {
    if ins != [] {
      var init, i := ins[..|ins|-1], ins[|ins|-1];
      assert forall e <- Pushed(init) :: e in Pushed(ins);
      if i.Push? { assert i.event in Pushed(ins); }
      RunSent(c, init, maxBatch);
      RunHolds(c, init, maxBatch);
      OutStays(c, init, maxBatch);
      NextSent(c, Run(c, init, maxBatch), Pushed(init), i, maxBatch);
    }
  }

  lemma {:induction false} NextSent(c: State, d: State, missed: seq<Event>, i: Input, maxBatch: nat)
    requires HoldsSince(c, d, missed) && SentSince(c, d, missed) && c.out <= d.out
    requires i.Push? ==> !i.event.Terminal?
    ensures SentSince(c, Next(d, i, maxBatch), missed + (if i.Push? then [i.event] else []))
  {
    if i.Push? {
      PushSent(c, d, missed, i.event, maxBatch);
    } else {
      assert missed + [] == missed;
      FlushSent(c, d, missed);
    }
  }

  /**
    Seen from what was sent: nothing is lost exactly when everything sent between snapshot and
    subscription is at or below the reader's cursor.
  */
  lemma {:induction false} NothingLostIff(w: View, c: State, between: seq<Input>, maxBatch: nat)
    requires Snapshot(w, c) && Plain(Pushed(between)) && Above(Pushed(between), w.lastSeq)
    ensures var d := Run(c, between, maxBatch);
      |c.out| <= |d.out|
      && (Lost(d, Pushed(between)) == [] <==> forall e <- d.out[|c.out|..] :: e.no <= w.lastSeq)
  {
    RunSent(c, between, maxBatch);
    RunHolds(c, between, maxBatch);
    OutStays(c, between, maxBatch);
    LostIffSent(w, c, Run(c, between, maxBatch), Pushed(between));
  }

  lemma {:induction false} LostIffSent(w: View, c: State, d: State, missed: seq<Event>)
    requires Snapshot(w, c) && Above(missed, w.lastSeq) && c.out <= d.out
    requires HoldsSince(c, d, missed) && SentSince(c, d, missed)
    ensures Lost(d, missed) == [] <==> forall e <- d.out[|c.out|..] :: e.no <= w.lastSeq
  {
    var sent, lost := d.out[|c.out|..], Lost(d, missed);
    if |d.out| == |c.out| {
      AllHeld(c, d, missed);
    } else if lost == [] {
      assert sent == [AsToken(c.pending.value)];
    } else {
      assert sent[|sent|-1] == d.out[|d.out|-1] && sent[|sent|-1] in sent;
      assert lost[|lost|-1] in missed;
    }
  }

  /**
    The plain reading of the condition is sufficient: a reader converges if the run did not end in
    between, the coalescer held no text at the snapshot, and nothing newer was sent in between.
  */
  lemma {:induction false} NothingNewSentConverges(before: seq<Input>, between: seq<Input>, maxBatch: nat)
    requires Continues(Pushed(before) + Pushed(between), 0) && Plain(Pushed(before)) && Plain(Pushed(between))
    requires var c := Run(Init(), before, maxBatch);
      c.pending.None? || c.pending.value.delta == ""
    requires var c := Run(Init(), before, maxBatch);
      var w := Fold(InitialView(), Pushed(before));
      var d := Run(c, between, maxBatch);
      |c.out| <= |d.out| ==> forall e <- d.out[|c.out|..] :: e.no <= w.lastSeq
    ensures var c := Run(Init(), before, maxBatch);
      AlwaysConverges(Fold(InitialView(), Pushed(before)), Pushed(between), Run(c, between, maxBatch), maxBatch)
  {
    var c, w := Run(Init(), before, maxBatch), Fold(InitialView(), Pushed(before));
    ResumeConvergesIff(before, between, maxBatch);
    ContinuesParts(Pushed(before), Pushed(between));
    SnapshotTaken(before, maxBatch);
    NothingLostIff(w, c, between, maxBatch);
  }

  /**
    It is not necessary: text held back at the snapshot does no harm when it leaves before the
    subscription, because the hub replays nothing.
  */
  lemma {:induction false} HeldTextMayLeaveMeanwhile(before: seq<Input>, maxBatch: nat)
    requires Continues(Pushed(before), 0) && Plain(Pushed(before))
    requires var c := Run(Init(), before, maxBatch); c.pending.Some? && c.window
    ensures AlwaysConverges(Fold(InitialView(), Pushed(before)), [], Run(Init(), before + [WindowFires], maxBatch), maxBatch)
  {
    var c := Run(Init(), before, maxBatch);
    RunSplit(Init(), before, [WindowFires], maxBatch);
    RunSingle(c, WindowFires, maxBatch);
    assert [WindowFires][..0] == [] && Pushed([WindowFires]) == Pushed([]) == [];
    assert Pushed(before) + [] == Pushed(before);
    ResumeConvergesIff(before, [WindowFires], maxBatch);
  }
}
