/**
  What the coalescer does to the meaning of the log: nothing, for a reader that was there from the
  start and for a log that ends at its terminal; and exactly when it hides the end of the run.
*/
module CoordinatorProperties {
  import opened Options
  import opened EvEvents
  import opened CoordinatorMachine

  lemma {:induction false} RunNext(c: State, ins: seq<Input>, i: Input, maxBatch: nat)
    ensures Run(c, ins + [i], maxBatch) == Next(Run(c, ins, maxBatch), i, maxBatch)
    ensures Pushed(ins + [i]) == Pushed(ins) + (if i.Push? then [i.event] else [])
  {
    assert (ins + [i])[..|ins|] == ins;
  }

  /** A pending batch carries the number of the last event fed in, or is still the one `c` had. */
  ghost predicate PendingFrom(c: State, d: State, es: seq<Event>) {
    d.pending.Some? ==>
      (es != [] && d.pending.value.no == es[|es|-1].no)
      || (es == [] && c.pending.Some? && d.pending.value.no == c.pending.value.no)
  }

  /** A log that continues after cursor `n` and ends at its terminal, if it has one. */
  ghost predicate Continues(es: seq<Event>, n: int) { Ascending(es) && Above(es, n) && EndsAtTerminal(es) }

  lemma {:induction false} ContinuesPrefix(es: seq<Event>, e: Event, n: int)
    requires Continues(es + [e], n)
    ensures Continues(es, n) && Plain(es) && e.no > n && (es != [] ==> e.no > es[|es|-1].no)
  {
    var all := es + [e];
    assert all[..|es|] == es && e in all && forall x <- es :: x in all;
    AscendingPrefix(es, e);
    if es != [] { assert forall x <- es[..|es|-1] :: x in es; }
  }

  lemma {:induction false} AscendingPrefix(es: seq<Event>, e: Event)
    requires Ascending(es + [e])
    ensures Ascending(es) && (es != [] ==> e.no > es[|es|-1].no)
  {
    var all := es + [e];
    forall i, j | 0 <= i < j < |es| ensures es[i].no < es[j].no { assert all[i].no < all[j].no; }
    if es != [] { assert all[|es|-1].no < all[|es|].no; }
  }

  /**
    The meaning is kept over a whole run: a reader for whom `c` already means `es` finds the same
    meaning in whatever state `c` gets to, extended by what is fed in.
  */
  lemma {:induction false} RunMeans(v: View, from: nat, c: State, es: seq<Event>, ins: seq<Input>, maxBatch: nat)
    requires Means(v, from, c, es) && Continues(es + Pushed(ins), v.lastSeq)
    requires c.pending.Some? ==> Above(Pushed(ins), c.pending.value.no)
    ensures Means(v, from, Run(c, ins, maxBatch), es + Pushed(ins))
    ensures PendingFrom(c, Run(c, ins, maxBatch), Pushed(ins))
  {
    if ins == [] {
      assert es + [] == es;
    } else {
      var init, i := ins[..|ins|-1], ins[|ins|-1];
      var fed := Pushed(init);
      if i.Push? {
        ContinuesLess(es, fed, i.event, v.lastSeq);
        PushedLast(fed, i.event, c);
        RunMeans(v, from, c, es, init, maxBatch);
        PushMeans(v, from, c, Run(c, init, maxBatch), es, fed, i.event, maxBatch);
      } else {
        assert Pushed(ins) == fed;
        RunMeans(v, from, c, es, init, maxBatch);
        TimerMeans(v, from, c, Run(c, init, maxBatch), es + fed, fed, i, maxBatch);
      }
    }
  }

  lemma {:induction false} ContinuesLess(es: seq<Event>, fed: seq<Event>, e: Event, n: int)
    requires Continues(es + (fed + [e]), n)
    ensures Continues(es + fed, n)
  {
    assert es + (fed + [e]) == es + fed + [e];
    ContinuesPrefix(es + fed, e, n);
  }

  lemma {:induction false} PushMeans(
      v: View, from: nat, c: State, d: State, es: seq<Event>, fed: seq<Event>, e: Event, maxBatch: nat)
    requires Means(v, from, d, es + fed) && PendingFrom(c, d, fed) && Continues(es + (fed + [e]), v.lastSeq)
    requires c.pending.Some? ==> e.no > c.pending.value.no
    ensures Means(v, from, OnPush(d, e, maxBatch), es + (fed + [e]))
    ensures PendingFrom(c, OnPush(d, e, maxBatch), fed + [e])
  {
    var all := es + fed;
    assert es + (fed + [e]) == all + [e];
    ContinuesPrefix(all, e, v.lastSeq);
    if fed != [] { assert all[|all|-1] == fed[|fed|-1]; }
    OnPushMeans(v, from, c, d, all, fed, e, maxBatch);
  }

  lemma {:induction false} PushedLast(fed: seq<Event>, e: Event, c: State)
    requires c.pending.Some? ==> Above(fed + [e], c.pending.value.no)
    ensures c.pending.Some? ==> Above(fed, c.pending.value.no) && e.no > c.pending.value.no
  {
    assert e in fed + [e] && forall x <- fed :: x in fed + [e];
  }

  lemma {:induction false} OnPushMeans(
      v: View, from: nat, c: State, d: State, es: seq<Event>, fed: seq<Event>, e: Event, maxBatch: nat)
    requires Means(v, from, d, es) && PendingFrom(c, d, fed) && Ascending(es) && Plain(es)
    requires e.no > v.lastSeq && (es != [] ==> e.no > es[|es|-1].no)
    requires fed != [] ==> e.no > fed[|fed|-1].no
    requires c.pending.Some? ==> e.no > c.pending.value.no
    ensures Means(v, from, OnPush(d, e, maxBatch), es + [e])
    ensures PendingFrom(c, OnPush(d, e, maxBatch), fed + [e])
  {
    FoldCursor(v, es);
    NotOverYet(v, from, d, es);
    if e.Token? { TokenMeans(v, from, d, es, e, maxBatch); } else { PlainPushMeans(v, from, d, es, e, maxBatch); }
  }

  lemma {:induction false} TimerMeans(
      v: View, from: nat, c: State, d: State, es: seq<Event>, fed: seq<Event>, i: Input, maxBatch: nat)
    requires Means(v, from, d, es) && PendingFrom(c, d, fed) && !i.Push?
    ensures Means(v, from, Next(d, i, maxBatch), es) && PendingFrom(c, Next(d, i, maxBatch), fed)
  {
    match i {
      case WindowFires => FlushMeans(v, from, d, es);
      case GraceFires => TerminalMeans(v, from, d, es);
      case FlushNow =>
        FlushMeans(v, from, d, es);
        TerminalMeans(v, from, FlushPending(d), es);
    }
  }

  /** After a flush nothing is held back: what was sent means what was fed in. */
  lemma {:induction false} FlushedMeans(v: View, from: nat, c: State, es: seq<Event>, ins: seq<Input>, maxBatch: nat)
    requires Means(v, from, c, es) && Continues(es + Pushed(ins), v.lastSeq)
    requires c.pending.Some? ==> Above(Pushed(ins), c.pending.value.no)
    ensures var d := Run(c, ins + [FlushNow], maxBatch);
      from <= |d.out| && Fold(v, d.out[from..]) == Fold(v, es + Pushed(ins))
  {
    RunMeans(v, from, c, es, ins, maxBatch);
    var d := Run(c, ins, maxBatch);
    RunNext(c, ins, FlushNow, maxBatch);
    TimerMeans(v, from, c, d, es + Pushed(ins), Pushed(ins), FlushNow, maxBatch);
    assert Held(Next(d, FlushNow, maxBatch)) == [];
  }

  /** A new coalescer has nothing to say. */
  lemma {:induction false} InitMeans(v: View)
    requires v.terminal.None?
    ensures Means(v, 0, Init(), [])
  {
    assert Held(Init()) == [] && Since(Init(), 0) == [];
  }

  /**
    Coalescing preserves meaning: for every log that ends at its terminal and every timing of the
    window, the grace delay and forced flushes, folding the events sent gives the same view as
    folding the events fed in.
  */
  lemma {:induction false} CoalescingPreservesMeaning(v: View, ins: seq<Input>, maxBatch: nat)
    requires v.terminal.None? && Continues(Pushed(ins), v.lastSeq)
    ensures Fold(v, Run(Init(), ins + [FlushNow], maxBatch).out) == Fold(v, Pushed(ins))
  {
    InitMeans(v);
    assert [] + Pushed(ins) == Pushed(ins);
    FlushedMeans(v, 0, Init(), [], ins, maxBatch);
    var out := Run(Init(), ins + [FlushNow], maxBatch).out;
    assert out[0..] == out;
  }

  // --- a reader that resumes from a snapshot -----------------------------------------------

  /** The stream route drops what the reader's cursor already covers. */
  function Newer(es: seq<Event>, since: int): seq<Event> {
    if es == [] then []
    else Newer(es[..|es|-1], since) + (if es[|es|-1].no > since then [es[|es|-1]] else [])
  }

  /** Whatever is dropped at or below the cursor, or sent again, the view comes out the same. */
  lemma {:induction false} DroppingSeenIsHarmless(v: View, es: seq<Event>, since: int)
    requires since <= v.lastSeq
    ensures Fold(v, Newer(es, since)) == Fold(v, es) && Fold(v, es).lastSeq >= v.lastSeq
  {
    if es != [] {
      var init, e := es[..|es|-1], es[|es|-1];
      DroppingSeenIsHarmless(v, init, since);
      if e.no > since {
        FoldNext(v, Newer(init, since), e);
      } else {
        assert Newer(es, since) == Newer(init, since);
      }
    }
  }

  // --- events that arrive during the grace delay -------------------------------------------

  /** What a flush would have sent by now, without the terminal. */
  function Sent(c: State): seq<Event> {
    c.out + if c.pending.Some? then [AsToken(c.pending.value)] else []
  }

  /** Waiting for the grace delay to end with terminal `t`; what is sent meanwhile is newer than `t`. */
  ghost predicate Waiting(c: State, t: Event, ahead: nat) {
    && !c.terminated && c.terminal == Some(t) && c.grace && ahead <= |c.out|
    && forall i | ahead <= i < |Sent(c)| :: !Sent(c)[i].Terminal? && Sent(c)[i].no > t.no
  }

  lemma {:induction false} WaitingNext(c: State, t: Event, ahead: nat, i: Input, maxBatch: nat)
    requires Waiting(c, t, ahead) && (i.WindowFires? || (i.Push? && !i.event.Terminal? && i.event.no > t.no))
    ensures Waiting(Next(c, i, maxBatch), t, ahead) && c.out <= Next(c, i, maxBatch).out
  {
    var d := Next(c, i, maxBatch);
    match i {
      case Push(e) =>
        if e.Token? {
          assert Sent(d) == c.out + [AsToken(Merge(c.pending, e))];
          forall k | ahead <= k < |c.out| ensures Sent(d)[k] == Sent(c)[k] {}
        } else {
          assert Sent(d) == Sent(c) + [e];
        }
      case WindowFires => assert Sent(d) == Sent(c);
    }
  }

  /** The first input that ends the grace delay: its timer, or a forced flush. */
  function EndOfGrace(rest: seq<Input>): (j: nat)
    ensures j <= |rest|
    ensures j < |rest| ==> rest[j].GraceFires? || rest[j].FlushNow?
    ensures forall i | 0 <= i < j :: rest[i].Push? || rest[i].WindowFires?
  {
    if rest == [] then 0
    else if rest[0].GraceFires? || rest[0].FlushNow? then 0
    else 1 + EndOfGrace(rest[1..])
  }

  lemma {:induction false} WaitingRun(c: State, t: Event, ahead: nat, rest: seq<Input>, maxBatch: nat)
    requires Waiting(c, t, ahead) && forall i <- rest :: i.Push? || i.WindowFires?
    requires forall e <- Pushed(rest) :: !e.Terminal? && e.no > t.no
    ensures Waiting(Run(c, rest, maxBatch), t, ahead) && c.out <= Run(c, rest, maxBatch).out
  {
    if rest != [] {
      var init, i := rest[..|rest|-1], rest[|rest|-1];
      assert i in rest && (i.Push? ==> i.event in Pushed(rest)) && forall e <- Pushed(init) :: e in Pushed(rest);
      assert forall x <- init :: x in rest;
      WaitingRun(c, t, ahead, init, maxBatch);
      WaitingNext(Run(c, init, maxBatch), t, ahead, i, maxBatch);
    }
  }

  /** Once the terminal is out nothing is taken in any more; only a held token can still leave. */
  lemma {:induction false} OverRun(c: State, ins: seq<Input>, maxBatch: nat)
    requires c.terminated && c.terminal.None? && !c.window
    ensures var d := Run(c, ins, maxBatch);
      d.terminated && d.terminal.None? && !d.window && Sent(d) == Sent(c)
  {
    if ins != [] { OverRun(c, ins[..|ins|-1], maxBatch); }
  }

  lemma {:induction false} RunSplit(c: State, a: seq<Input>, b: seq<Input>, maxBatch: nat)
    ensures Run(c, a + b, maxBatch) == Run(Run(c, a, maxBatch), b, maxBatch)
    ensures Pushed(a + b) == Pushed(a) + Pushed(b)
    decreases |b|
  {
    if b == [] {
      assert a + b == a && Pushed(a) + [] == Pushed(a);
    } else {
      RunSplit(c, a, b[..|b|-1], maxBatch);
      assert (a + b)[..|a + b|-1] == a + b[..|b|-1];
    }
  }

  lemma {:induction false} RunSingle(c: State, i: Input, maxBatch: nat)
    ensures Run(c, [i], maxBatch) == Next(c, i, maxBatch)
  {
    assert [i][..0] == [];
    assert Run(c, [], maxBatch) == c;
  }

  /** What is sent once the grace delay ends, and how the terminal and the held tokens are ordered. */
  lemma {:induction false} GraceStep(d: State, t: Event, ahead: nat, i: Input, more: seq<Input>, maxBatch: nat)
    requires Waiting(d, t, ahead) && (i.GraceFires? || i.FlushNow?)
    ensures var held := Sent(d)[|d.out|..];
      Next(Run(Next(d, i, maxBatch), more, maxBatch), FlushNow, maxBatch).out
      == (if i.GraceFires? then d.out + [t] + held else d.out + held + [t])
  {
    var over := Next(d, i, maxBatch);
    OverRun(over, more, maxBatch);
    var end := Run(over, more, maxBatch);
    assert Next(end, FlushNow, maxBatch).out == Sent(over);
  }

  /**
    Everything ever sent, for terminal `t` held back in `c`: what was sent before the grace delay
    ended, then the terminal; tokens held at that moment go ahead of it on a forced flush, and
    behind it when the timer fires.
  */
  lemma {:induction false} GraceEnds(c: State, t: Event, rest: seq<Input>, maxBatch: nat)
    requires Waiting(c, t, |c.out|) && forall e <- Pushed(rest) :: !e.Terminal? && e.no > t.no
    ensures var j := EndOfGrace(rest);
      var d := Run(c, rest[..j], maxBatch);
      var held := Sent(d)[|d.out|..];
      Waiting(d, t, |c.out|) && c.out <= d.out
      && Run(c, rest + [FlushNow], maxBatch).out ==
         (if j < |rest| && rest[j].GraceFires? then d.out + [t] + held else d.out + held + [t])
  {
    var j := EndOfGrace(rest);
    var first, more := rest[..j], rest[j..];
    assert first + more == rest;
    RunSplit(c, first, more, maxBatch);
    WaitingRun(c, t, |c.out|, first, maxBatch);
    RunNext(c, rest, FlushNow, maxBatch);
    AfterGrace(Run(c, first, maxBatch), t, |c.out|, more, maxBatch);
  }

  lemma {:induction false} AfterGrace(d: State, t: Event, ahead: nat, more: seq<Input>, maxBatch: nat)
    requires Waiting(d, t, ahead) && (more != [] ==> more[0].GraceFires? || more[0].FlushNow?)
    ensures var held := Sent(d)[|d.out|..];
      Next(Run(d, more, maxBatch), FlushNow, maxBatch).out
      == (if more != [] && more[0].GraceFires? then d.out + [t] + held else d.out + held + [t])
  {
    if more == [] {
      assert Next(d, FlushNow, maxBatch).out == Sent(d) + [t];
      assert Sent(d) == d.out + Sent(d)[|d.out|..];
    } else {
      assert more == [more[0]] + more[1..];
      RunSplit(d, [more[0]], more[1..], maxBatch);
      RunSingle(d, more[0], maxBatch);
      GraceStep(d, t, ahead, more[0], more[1..], maxBatch);
    }
  }

  /** The cursor reaches at least every event folded in, in whatever order. */
  lemma {:induction false} FoldReaches(v: View, es: seq<Event>, i: nat)
    requires i < |es|
    ensures Fold(v, es).lastSeq >= es[i].no
  {
    if i < |es| - 1 { FoldReaches(v, es[..|es|-1], i); }
  }

  lemma {:induction false} PlainSent(ins: seq<Input>, maxBatch: nat)
    requires Plain(Pushed(ins))
    ensures var c := Run(Init(), ins, maxBatch);
      Plain(c.out) && !c.terminated && c.terminal.None?
  {
    if ins != [] {
      assert forall e <- Pushed(ins[..|ins|-1]) :: e in Pushed(ins);
      if ins[|ins|-1].Push? { assert ins[|ins|-1].event in Pushed(ins); }
      PlainSent(ins[..|ins|-1], maxBatch);
    }
  }

  /** The state that holds back the first terminal of an ascending log. */
  lemma {:induction false} HoldsTerminal(v: View, pre: seq<Input>, t: Event, maxBatch: nat)
    requires v.terminal.None? && t.Terminal? && Plain(Pushed(pre)) && Continues(Pushed(pre) + [t], v.lastSeq)
    ensures var c := Run(Init(), pre + [Push(t)], maxBatch);
      Waiting(c, t, |c.out|) && Plain(c.out) && Fold(v, c.out + [t]).terminal.Some?
  {
    var es := Pushed(pre);
    RunNext(Init(), pre, Push(t), maxBatch);
    PlainSent(pre, maxBatch);
    var c := Run(Init(), pre + [Push(t)], maxBatch);
    assert Sent(c) == c.out;
    InitMeans(v);
    assert [] + (es + [t]) == es + [t];
    RunMeans(v, 0, Init(), [], pre + [Push(t)], maxBatch);
    HeldTerminalEnds(v, c, es, t);
    PlainFlushed(Run(Init(), pre, maxBatch));
  }

  lemma {:induction false} PlainFlushed(c: State)
    requires Plain(c.out)
    ensures Plain(FlushPending(c).out)
  {}

  lemma {:induction false} HeldTerminalEnds(v: View, c: State, es: seq<Event>, t: Event)
    requires Means(v, 0, c, es + [t]) && c.terminal == Some(t) && t.Terminal?
    requires v.terminal.None? && Continues(es + [t], v.lastSeq)
    ensures Fold(v, c.out + [t]).terminal.Some?
  {
    assert Held(c) == [t] && Since(c, 0) == c.out;
    FoldSingle(Fold(v, c.out), t);
    FoldNext(v, c.out, t);
    ContinuesPrefix(es, t, v.lastSeq);
    FoldNext(v, es, t);
    FoldCursor(v, es);
    NoTerminalNoEnd(v, es);
  }

  /** A terminal with anything newer ahead of it is stale; otherwise it ends the run. */
  lemma {:induction false} TerminalCounts(v: View, first: seq<Event>, ahead: seq<Event>, t: Event, late: seq<Event>)
    requires v.terminal.None? && Plain(first + ahead) && Plain(late) && t.Terminal?
    requires Fold(v, first + [t]).terminal.Some? && forall e <- ahead :: e.no > t.no
    ensures Fold(v, first + ahead + [t] + late).terminal.Some? <==> ahead == []
  {
    var shown := first + ahead;
    FoldSplit(v, shown + [t], late);
    if ahead == [] {
      assert shown == first;
      TerminalSticks(Fold(v, shown + [t]), late);
    } else {
      FoldReaches(v, shown, |first|);
      assert shown[|first|] == ahead[0] && ahead[0] in ahead;
      FoldNext(v, shown, t);
      NoTerminalNoEnd(v, shown);
      NoTerminalNoEnd(Fold(v, shown), late);
    }
  }

  /** `out` holds terminal `t` at `k` and no other; what is sent since `before` and ahead of it is newer. */
  ghost predicate InOrder(out: seq<Event>, t: Event, before: nat, k: nat) {
    && before <= k < |out| && out[k] == t && Plain(out[..k])
    && (forall i | before <= i < k :: out[i].no > t.no)
    && |out| <= k + 2 && (forall i | k < i < |out| :: out[i].Token?)
  }

  /**
    Does a live reader see the end of the run? Let terminal `t` be fed in after `pre`, and `rest`,
    which may hold events too, after it, with any timers in between. Exactly one terminal is sent,
    at most one token follows it, and the reader sees the run end if and only if nothing was sent
    in the meantime, between the moment `t` was fed in and the moment it was sent: anything sent
    ahead of it is newer and makes it stale.
  */
  lemma {:induction false} TerminalReachesReaderIff(
      v: View, pre: seq<Input>, t: Event, rest: seq<Input>, maxBatch: nat) returns (k: nat)
    requires v.terminal.None? && t.Terminal? && Plain(Pushed(pre)) && Plain(Pushed(rest))
    requires Ascending(Pushed(pre) + [t] + Pushed(rest)) && Above(Pushed(pre) + [t] + Pushed(rest), v.lastSeq)
    ensures var out := Run(Init(), pre + [Push(t)] + rest + [FlushNow], maxBatch).out;
      var before := |Run(Init(), pre + [Push(t)], maxBatch).out|;
      InOrder(out, t, before, k) && (Fold(v, out).terminal.Some? <==> k == before)
  {
    var first := Run(Init(), pre + [Push(t)], maxBatch).out;
    var out, j, d := AllSent(v, pre, t, rest, maxBatch);
    k := SeenIff(v, first, d, t, j < |rest| && rest[j].GraceFires?, out);
  }

  /** The same for everything sent, `out`, and the state `d` in which the grace delay ends. */
  lemma {:induction false} SeenIff(v: View, first: seq<Event>, d: State, t: Event, byTimer: bool, out: seq<Event>)
    returns (k: nat)
    requires v.terminal.None? && t.Terminal? && Plain(first) && Fold(v, first + [t]).terminal.Some?
    requires Waiting(d, t, |first|) && first <= d.out
    requires var held := Sent(d)[|d.out|..];
      out == (if byTimer then d.out + [t] + held else d.out + held + [t])
    ensures InOrder(out, t, |first|, k) && (Fold(v, out).terminal.Some? <==> k == |first|)
  {
    var ahead, late := Around(first, d, t, byTimer, out);
    k := |first| + |ahead|;
    Counted(v, first, ahead, t, late);
  }

  lemma {:induction false} Counted(v: View, first: seq<Event>, ahead: seq<Event>, t: Event, late: seq<Event>)
    requires v.terminal.None? && t.Terminal? && Plain(first) && Fold(v, first + [t]).terminal.Some?
    requires (forall e <- ahead :: !e.Terminal? && e.no > t.no) && |late| <= 1 && forall e <- late :: e.Token?
    ensures var out := first + ahead + [t] + late;
      InOrder(out, t, |first|, |first| + |ahead|) && (Fold(v, out).terminal.Some? <==> ahead == [])
  {
    PartsOf(first, ahead, t, late);
    assert Plain(late);
    TerminalCounts(v, first, ahead, t, late);
  }

  /** Everything sent for `pre`, the terminal and `rest`, from the state `d` in which the grace delay ends. */
  lemma {:induction false} AllSent(v: View, pre: seq<Input>, t: Event, rest: seq<Input>, maxBatch: nat)
    returns (out: seq<Event>, j: nat, d: State)
    requires v.terminal.None? && t.Terminal? && Plain(Pushed(pre)) && Plain(Pushed(rest))
    requires Ascending(Pushed(pre) + [t] + Pushed(rest)) && Above(Pushed(pre) + [t] + Pushed(rest), v.lastSeq)
    ensures out == Run(Init(), pre + [Push(t)] + rest + [FlushNow], maxBatch).out
    ensures j == EndOfGrace(rest) && d == Run(Init(), pre + [Push(t)] + rest[..j], maxBatch)
    ensures var c := Run(Init(), pre + [Push(t)], maxBatch);
      Plain(c.out) && Fold(v, c.out + [t]).terminal.Some? && Waiting(d, t, |c.out|) && c.out <= d.out
    ensures var held := Sent(d)[|d.out|..];
      out == (if j < |rest| && rest[j].GraceFires? then d.out + [t] + held else d.out + held + [t])
  {
    UpToTerminal(Pushed(pre), t, Pushed(rest), v.lastSeq);
    HoldsTerminal(v, pre, t, maxBatch);
    out, j, d := GraceFrom(pre + [Push(t)], t, rest, maxBatch);
  }

  lemma {:induction false} GraceFrom(first: seq<Input>, t: Event, rest: seq<Input>, maxBatch: nat)
    returns (out: seq<Event>, j: nat, d: State)
    requires var c := Run(Init(), first, maxBatch); Waiting(c, t, |c.out|)
    requires forall e <- Pushed(rest) :: !e.Terminal? && e.no > t.no
    ensures out == Run(Init(), first + rest + [FlushNow], maxBatch).out
    ensures j == EndOfGrace(rest) && d == Run(Init(), first + rest[..j], maxBatch)
    ensures var c := Run(Init(), first, maxBatch);
      Waiting(d, t, |c.out|) && c.out <= d.out
    ensures var held := Sent(d)[|d.out|..];
      out == (if j < |rest| && rest[j].GraceFires? then d.out + [t] + held else d.out + held + [t])
  {
    var c := Run(Init(), first, maxBatch);
    j := EndOfGrace(rest);
    d := Run(c, rest[..j], maxBatch);
    out := Run(c, rest + [FlushNow], maxBatch).out;
    assert first + rest + [FlushNow] == first + (rest + [FlushNow]);
    RunSplit(Init(), first, rest + [FlushNow], maxBatch);
    RunSplit(Init(), first, rest[..j], maxBatch);
    GraceEnds(c, t, rest, maxBatch);
  }

  /** What lies between the events sent first and the terminal, and what follows it. */
  lemma {:induction false} Around(first: seq<Event>, d: State, t: Event, byTimer: bool, out: seq<Event>)
    returns (ahead: seq<Event>, late: seq<Event>)
    requires Waiting(d, t, |first|) && first <= d.out
    requires var held := Sent(d)[|d.out|..];
      out == (if byTimer then d.out + [t] + held else d.out + held + [t])
    ensures out == first + ahead + [t] + late
    ensures (forall e <- ahead :: !e.Terminal? && e.no > t.no) && |late| <= 1 && forall e <- late :: e.Token?
  {
    var held := Sent(d)[|d.out|..];
    assert d.out + held == Sent(d);
    if byTimer {
      ahead, late := d.out[|first|..], held;
      assert ahead == Sent(d)[|first|..|d.out|];
      AheadIsNewer(d, t, |first|, |d.out|);
    } else {
      ahead, late := Sent(d)[|first|..], [];
      assert ahead == Sent(d)[|first|..|Sent(d)|];
      AheadIsNewer(d, t, |first|, |Sent(d)|);
    }
  }

  lemma {:induction false} PartsOf(first: seq<Event>, ahead: seq<Event>, t: Event, late: seq<Event>)
    requires Plain(first) && (forall e <- ahead :: !e.Terminal? && e.no > t.no) && |late| <= 1 && forall e <- late :: e.Token?
    ensures Plain(first + ahead) && InOrder(first + ahead + [t] + late, t, |first|, |first| + |ahead|)
  {
    var out := first + ahead + [t] + late;
    var k := |first| + |ahead|;
    assert out[..k] == first + ahead;
    forall i | |first| <= i < k ensures out[i].no > t.no { assert out[i] == ahead[i-|first|]; }
  }

  /**
    Is the terminal the last thing ever sent, as the coordinator's header promises? Not when its
    timer fires while a token that came after it is still held back: that token leaves behind it
    with the next forced flush. In every other run it is.
  */
  lemma {:induction false} TerminalIsLastIff(v: View, pre: seq<Input>, t: Event, rest: seq<Input>, maxBatch: nat)
    requires v.terminal.None? && t.Terminal? && Plain(Pushed(pre)) && Plain(Pushed(rest))
    requires Ascending(Pushed(pre) + [t] + Pushed(rest)) && Above(Pushed(pre) + [t] + Pushed(rest), v.lastSeq)
    ensures var out := Run(Init(), pre + [Push(t)] + rest + [FlushNow], maxBatch).out;
      var j := EndOfGrace(rest);
      var atEnd := Run(Init(), pre + [Push(t)] + rest[..j], maxBatch);
      out != [] && (out[|out|-1] == t <==> !(j < |rest| && rest[j].GraceFires? && atEnd.pending.Some?))
  {
    var out, j, d := AllSent(v, pre, t, rest, maxBatch);
  }

  lemma {:induction false} UpToTerminal(a: seq<Event>, t: Event, b: seq<Event>, n: int)
    requires Plain(a) && Ascending(a + [t] + b) && Above(a + [t] + b, n)
    ensures Continues(a + [t], n) && forall e <- b :: e.no > t.no
  {
    var es := a + [t] + b;
    assert (a + [t])[..|a|] == a;
    assert forall x <- a + [t] :: x in es;
    HeadAscends(a + [t], b);
    forall e | e in b ensures e.no > t.no {
      var i :| 0 <= i < |b| && b[i] == e;
      assert es[|a|] == t && es[|a|+1+i] == e;
    }
  }

  lemma {:induction false} HeadAscends(a: seq<Event>, b: seq<Event>)
    requires Ascending(a + b)
    ensures Ascending(a)
  {
    forall i, j | 0 <= i < j < |a| ensures a[i].no < a[j].no { assert (a + b)[i].no < (a + b)[j].no; }
  }

  lemma {:induction false} AheadIsNewer(d: State, t: Event, before: nat, n: nat)
    requires Waiting(d, t, before) && before <= n <= |Sent(d)|
    ensures forall e <- Sent(d)[before..n] :: !e.Terminal? && e.no > t.no
  {
    var ahead := Sent(d)[before..n];
    forall e | e in ahead ensures !e.Terminal? && e.no > t.no {
      var i :| 0 <= i < |ahead| && ahead[i] == e;
      assert e == Sent(d)[before + i];
    }
  }

  // --- how tokens travel -------------------------------------------------------------------

  function PushAll(es: seq<Event>): seq<Input> {
    if es == [] then [] else PushAll(es[..|es|-1]) + [Push(es[|es|-1])]
  }

  /** The text of the tokens. */
  function Deltas(ts: seq<Event>): string
    requires forall e <- ts :: e.Token?
  {
    if ts == [] then "" else Deltas(ts[..|ts|-1]) + Last(ts).delta
  }

  function Last(ts: seq<Event>): (e: Event)
    requires ts != []
    ensures e in ts
  {
    ts[|ts|-1]
  }

  lemma {:induction false} PushNext(c: State, ts: seq<Event>, maxBatch: nat)
    requires ts != []
    ensures Run(c, PushAll(ts), maxBatch) == OnPush(Run(c, PushAll(ts[..|ts|-1]), maxBatch), Last(ts), maxBatch)
  {
    RunNext(c, PushAll(ts[..|ts|-1]), Push(Last(ts)), maxBatch);
  }

  /** Fewer tokens than a batch are held together, with the number and time of the last, and nothing is sent. */
  lemma {:induction false} TokensAreHeld(c: State, ts: seq<Event>, maxBatch: nat)
    requires c.pending.None? && !c.terminated && 0 < |ts| < maxBatch && forall e <- ts :: e.Token?
    ensures Run(c, PushAll(ts), maxBatch)
            == c.(pending := Some(Batch(Last(ts).no, Last(ts).at, Deltas(ts), |ts|)), window := true)
  {
    PushNext(c, ts, maxBatch);
    if |ts| > 1 {
      TokensAreHeld(c, ts[..|ts|-1], maxBatch);
    } else {
      assert ts[..0] == [] && "" + Last(ts).delta == Last(ts).delta;
    }
  }

  /** The token that completes a batch sends it: one event with all the text, and the number and time of the last. */
  lemma {:induction false} FullBatchLeaves(c: State, ts: seq<Event>, maxBatch: nat)
    requires c.pending.None? && !c.terminated && 0 < |ts| == maxBatch && forall e <- ts :: e.Token?
    ensures Run(c, PushAll(ts), maxBatch)
            == c.(window := false, out := c.out + [Token(Last(ts).no, Last(ts).at, Deltas(ts))])
  {
    PushNext(c, ts, maxBatch);
    if |ts| > 1 {
      TokensAreHeld(c, ts[..|ts|-1], maxBatch);
    } else {
      assert ts[..0] == [] && "" + Last(ts).delta == Last(ts).delta;
    }
  }
}
