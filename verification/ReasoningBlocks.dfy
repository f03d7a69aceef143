/**
  Any number of reasoning blocks in streamed text, with plain text before, between and behind them:
  what is shown of every prefix.
*/
module ReasoningBlocks {
  import opened Options
  import opened Text
  import opened AssistantOutput
  import opened ReasoningStream

  /** A reasoning block and the plain text before it. */
  datatype Block = Block(before: string, open: string, reasoning: string, close: string, name: Name) {
    function Tagged(): string { open + reasoning + close }
    function Text(): string { before + Tagged() }
    function Opened(): nat { |before| + |open| }
  }

  function Whole(bs: seq<Block>, tail: string): string {
    if bs == [] then tail else bs[0].Text() + Whole(bs[1..], tail)
  }

  /** The plain text alone. */
  function Answer(bs: seq<Block>, tail: string): string {
    if bs == [] then tail else bs[0].before + Answer(bs[1..], tail)
  }

  /** An opening tag begins at `i`, complete or not. */
  predicate Begins(t: string, i: nat) {
    i < |t| && t[i] == '<' && (WholeNameAt(t, i + 1, Think) || WholeNameAt(t, i + 1, Thinking))
  }

  predicate Settled(t: string) { forall i | 0 <= i < |t| :: !Begins(t, i) }

  predicate GoodBlock(b: Block) {
    Settled(b.before) && IsOpen(b.open, b.name) && NoClose(b.open) && NoClose(b.reasoning) && IsClose(b.close, b.name)
  }

  predicate GoodText(bs: seq<Block>, tail: string) {
    (forall b <- bs :: GoodBlock(b)) && NoOpen(Answer(bs, tail)) && NoClose(Answer(bs, tail))
  }

  /** The plain text in what has been received so far. */
  function PlainIn(bs: seq<Block>, s: string): string {
    if bs == [] || |s| <= |bs[0].before| then s
    else if |s| < |bs[0].Text()| then bs[0].before
    else bs[0].before + PlainIn(bs[1..], s[|bs[0].Text()|..])
  }

  /** What has been received so far ends inside a block. */
  predicate InBlock(bs: seq<Block>, s: string) {
    bs != [] && |bs[0].before| < |s|
    && (|s| < |bs[0].Text()| || InBlock(bs[1..], s[|bs[0].Text()|..]))
  }

  /** It ends inside an opening tag. */
  predicate InOpeningTag(bs: seq<Block>, s: string) {
    bs != [] && |bs[0].before| < |s|
    && (|s| < bs[0].Opened() || (|s| >= |bs[0].Text()| && InOpeningTag(bs[1..], s[|bs[0].Text()|..])))
  }

  /** The half received opening tag, if it ends in one. */
  function HalfTag(bs: seq<Block>, s: string): string {
    if bs == [] || |s| <= |bs[0].before| then ""
    else if |s| < bs[0].Opened() then s[|bs[0].before|..]
    else if |s| < |bs[0].Text()| then ""
    else HalfTag(bs[1..], s[|bs[0].Text()|..])
  }

  // --- removing pairs looks only ahead -----------------------------------------------------

  predicate Shifted(d: Option<nat>, a: nat, e: Option<nat>) {
    d == if e.Some? then Some(a + e.value) else None
  }

  lemma {:induction false} OpenShift(s: string, a: nat, i: nat, n: Name, e: nat)
    requires a <= i < e <= |s|
    ensures OpenEnd(s, i, n) == Some(e) <==> OpenEnd(s[a..], i - a, n) == Some(e - a)
  {
    assert s[a..][i-a..e-a] == s[i..e];
    SameOpen(s, i, e, s[a..], i - a, e - a, n);
  }

  lemma {:induction false} OpenOver(s: string, a: nat, i: nat, n: Name)
    requires a <= i <= |s| && OpenEnd(s, i, n).Some?
    ensures OpenEnd(s[a..], i - a, n) == Some(OpenEnd(s, i, n).value - a)
  {
    OpenShift(s, a, i, n, OpenEnd(s, i, n).value);
  }

  lemma {:induction false} OpenBack(s: string, a: nat, i: nat, n: Name)
    requires a <= i <= |s| && OpenEnd(s[a..], i - a, n).Some?
    ensures OpenEnd(s, i, n) == Some(a + OpenEnd(s[a..], i - a, n).value)
  {
    OpenShift(s, a, i, n, a + OpenEnd(s[a..], i - a, n).value);
  }

  lemma {:induction false} OpenAhead(s: string, a: nat, i: nat, n: Name)
    requires a <= i <= |s|
    ensures Shifted(OpenEnd(s, i, n), a, OpenEnd(s[a..], i - a, n))
  {
    if OpenEnd(s, i, n).Some? {
      OpenOver(s, a, i, n);
    } else if OpenEnd(s[a..], i - a, n).Some? {
      OpenBack(s, a, i, n);
    }
  }

  lemma {:induction false} CloseShift(s: string, a: nat, i: nat, n: Name, e: nat)
    requires a <= i < e <= |s|
    ensures CloseEnd(s, i, n) == Some(e) <==> CloseEnd(s[a..], i - a, n) == Some(e - a)
  {
    assert s[a..][i-a..e-a] == s[i..e];
    SameClose(s, i, e, s[a..], i - a, e - a, n);
  }

  lemma {:induction false} CloseOver(s: string, a: nat, i: nat, n: Name)
    requires a <= i <= |s| && CloseEnd(s, i, n).Some?
    ensures CloseEnd(s[a..], i - a, n) == Some(CloseEnd(s, i, n).value - a)
  {
    CloseShift(s, a, i, n, CloseEnd(s, i, n).value);
  }

  lemma {:induction false} CloseBack(s: string, a: nat, i: nat, n: Name)
    requires a <= i <= |s| && CloseEnd(s[a..], i - a, n).Some?
    ensures CloseEnd(s, i, n) == Some(a + CloseEnd(s[a..], i - a, n).value)
  {
    CloseShift(s, a, i, n, a + CloseEnd(s[a..], i - a, n).value);
  }

  lemma {:induction false} CloseAhead(s: string, a: nat, i: nat, n: Name)
    requires a <= i <= |s|
    ensures Shifted(CloseEnd(s, i, n), a, CloseEnd(s[a..], i - a, n))
  {
    if CloseEnd(s, i, n).Some? {
      CloseOver(s, a, i, n);
    } else if CloseEnd(s[a..], i - a, n).Some? {
      CloseBack(s, a, i, n);
    }
  }

  lemma {:induction false} SameStep(s: string, i: nat, t: string, j: nat, n: Name, a: nat)
    requires i < |s| && j < |t| && Shifted(CloseEnd(s, i, n), a, CloseEnd(t, j, n))
    requires Shifted(CloseAfter(s, i + 1, n), a, CloseAfter(t, j + 1, n))
    ensures Shifted(CloseAfter(s, i, n), a, CloseAfter(t, j, n))
  {}

  lemma {:induction false} CloseAfterAhead(s: string, a: nat, i: nat, n: Name)
    requires a <= i <= |s|
    ensures Shifted(CloseAfter(s, i, n), a, CloseAfter(s[a..], i - a, n))
    decreases |s| - i
  {
    if i < |s| {
      CloseAhead(s, a, i, n);
      CloseAfterAhead(s, a, i + 1, n);
      SameStep(s, i, s[a..], i - a, n, a);
    }
  }

  lemma {:induction false} SamePair(s: string, i: nat, t: string, j: nat, n: Name, a: nat, o: nat)
    requires a <= o && OpenEnd(s, i, n) == Some(o) && OpenEnd(t, j, n) == Some(o - a)
    requires Shifted(CloseAfter(s, o, n), a, CloseAfter(t, o - a, n))
    ensures Shifted(PairEndOf(s, i, n), a, PairEndOf(t, j, n))
  {}

  lemma {:induction false} SameLack(s: string, i: nat, t: string, j: nat, n: Name, a: nat)
    requires OpenEnd(s, i, n).None? && OpenEnd(t, j, n).None?
    ensures Shifted(PairEndOf(s, i, n), a, PairEndOf(t, j, n))
  {}

  lemma {:induction false} PairFrom(s: string, a: nat, i: nat, t: string, j: nat, n: Name, o: nat)
    requires a <= o <= |s| && t == s[a..] && OpenEnd(s, i, n) == Some(o) && OpenEnd(t, j, n) == Some(o - a)
    ensures Shifted(PairEndOf(s, i, n), a, PairEndOf(t, j, n))
  {
    CloseAfterAhead(s, a, o, n);
    SamePair(s, i, t, j, n, a, o);
  }

  lemma {:induction false} PairAhead(s: string, a: nat, i: nat, n: Name)
    requires a <= i <= |s|
    ensures Shifted(PairEndOf(s, i, n), a, PairEndOf(s[a..], i - a, n))
  {
    OpenAhead(s, a, i, n);
    if OpenEnd(s, i, n).Some? {
      PairFrom(s, a, i, s[a..], i - a, n, OpenEnd(s, i, n).value);
    } else {
      SameLack(s, i, s[a..], i - a, n, a);
    }
  }

  lemma {:induction false} PairEndAhead(s: string, a: nat, i: nat)
    requires a <= i <= |s|
    ensures Shifted(PairEnd(s, i), a, PairEnd(s[a..], i - a))
  {
    PairAhead(s, a, i, Think);
    PairAhead(s, a, i, Thinking);
  }

  /** Removing stretches of which only the ends are known. */
  function StripBy(s: string, i: nat, ends: nat -> Option<nat>): string
    decreases |s| - i
  {
    if i >= |s| then ""
    else
      var e := ends(i);
      if e.Some? && i < e.value <= |s| then StripBy(s, e.value, ends) else [s[i]] + StripBy(s, i + 1, ends)
  }

  ghost predicate Finds(s: string, ends: nat -> Option<nat>) { forall k | 0 <= k < |s| :: ends(k) == PairEnd(s, k) }

  lemma {:induction false} StripPairsIsBy(s: string, i: nat, ends: nat -> Option<nat>)
    requires Finds(s, ends)
    ensures StripPairs(s, i) == StripBy(s, i, ends)
    decreases |s| - i
  {
    if i < |s| {
      assert ends(i) == PairEnd(s, i);
      StripPairsIsBy(s, if PairEnd(s, i).Some? then PairEnd(s, i).value else i + 1, ends);
    }
  }

  ghost predicate SameEnds(a: nat, n: nat, ends: nat -> Option<nat>, later: nat -> Option<nat>) {
    forall i | a <= i < n :: Shifted(ends(i), a, later(i - a))
  }

  lemma {:induction false} StripByAhead(s: string, a: nat, ends: nat -> Option<nat>, t: string, later: nat -> Option<nat>, i: nat)
    requires a <= i <= |s| && t == s[a..] && SameEnds(a, |s|, ends, later)
    ensures StripBy(s, i, ends) == StripBy(t, i - a, later)
    decreases |s| - i
  {
    if i < |s| {
      assert s[i] == t[i-a] && Shifted(ends(i), a, later(i - a));
      var e := ends(i);
      StripByAhead(s, a, ends, t, later, if e.Some? && i < e.value <= |s| then e.value else i + 1);
    }
  }

  lemma {:induction false} PairsAhead(s: string, a: nat, t: string)
    requires a <= |s| && t == s[a..]
    ensures forall i | a <= i < |s| :: Shifted(PairEnd(s, i), a, PairEnd(t, i - a))
  {
    forall i | a <= i < |s| ensures Shifted(PairEnd(s, i), a, PairEnd(t, i - a)) { PairEndAhead(s, a, i); }
  }

  lemma {:induction false} EndsAhead(s: string, a: nat, ends: nat -> Option<nat>, t: string, later: nat -> Option<nat>)
    requires a <= |s| && t == s[a..] && Finds(s, ends) && Finds(t, later)
    ensures SameEnds(a, |s|, ends, later)
  {
    PairsAhead(s, a, t);
  }

  lemma {:induction false} StripAhead(s: string, a: nat)
    requires a <= |s|
    ensures StripPairs(s, a) == StripPairs(s[a..], 0)
  {
    var t := s[a..];
    StripAheadBy(s, a, k => PairEnd(s, k), t, k => PairEnd(t, k));
  }

  lemma {:induction false} StripAheadBy(s: string, a: nat, ends: nat -> Option<nat>, t: string, later: nat -> Option<nat>)
    requires a <= |s| && t == s[a..] && Finds(s, ends) && Finds(t, later)
    ensures StripPairs(s, a) == StripPairs(t, 0)
  {
    EndsAhead(s, a, ends, t, later);
    StripPairsIsBy(s, a, ends);
    StripPairsIsBy(t, 0, later);
    StripByAhead(s, a, ends, t, later, a);
  }

  lemma {:induction false} NothingOpensLater(s: string, a: nat, k: nat)
    requires a <= |s| && a + k < |s| && !OpenAt(s, a + k)
    ensures !OpenAt(s[a..], k)
  {
    assert s[a..|s|] == s[a..];
    if OpenAt(s[a..|s|], k) { OpenInWhole(s, a, |s|, k); }
  }

  lemma {:induction false} HeadStays(s: string)
    requires s != "" && !OpenAt(s, 0)
    ensures StripPairs(s, 0) == [s[0]] + StripPairs(s[1..], 0)
  {
    assert PairEnd(s, 0).None?;
    StripAhead(s, 1);
  }

  /** Text in which no pair begins stays. */
  lemma {:induction false} PlainFirst(s: string, n: nat)
    requires n <= |s| && forall k | 0 <= k < n :: !OpenAt(s, k)
    ensures StripPairs(s, 0) == s[..n] + StripPairs(s[n..], 0)
  {
    if n == 0 {
      assert s[0..] == s;
    } else {
      forall k | 0 <= k < n - 1 ensures !OpenAt(s[1..], k) { NothingOpensLater(s, 1, k); }
      PlainFirst(s[1..], n - 1);
      HeadStays(s);
      HeadAndRest(s, n, StripPairs(s[n..], 0));
    }
  }

  lemma {:induction false} HeadAndRest(s: string, n: nat, r: string)
    requires 0 < n <= |s|
    ensures s[1..][n-1..] == s[n..] && [s[0]] + (s[1..][..n-1] + r) == s[..n] + r
  {}

  // --- one block ---------------------------------------------------------------------------

  /** A name has no angle bracket, so what begins with one is not part of it. */
  lemma {:induction false} NameEndsBefore(a: string, u: string, i: nat, n: Name)
    requires i <= |a| && NameAt(a + u, i, n) && u != "" && u[0] == '<'
    ensures NameAt(a, i, n)
  {
    var t := (a + u)[i..i+Size(n)];
    if i + Size(n) > |a| {
      assert t[|a|-i] == u[0];
      SpelledPlainly(t, n, |a| - i);
    } else {
      assert a[i..i+Size(n)] == t;
    }
  }

  lemma {:induction false} OpenBegins(a: string, u: string, k: nat)
    requires OpenAt(a + u, k) && k < |a| && (u == "" || u[0] == '<')
    ensures Begins(a, k)
  {
    if u == "" {
      assert a + u == a;
    } else {
      NameEndsBefore(a, u, k + 1, OpenName(a + u, k));
    }
  }

  /** Where no opening tag begins, none is completed by what follows, since that starts anew. */
  lemma {:induction false} NothingOpensBefore(a: string, u: string, k: nat)
    requires Settled(a) && k < |a| && (u == "" || u[0] == '<')
    ensures !OpenAt(a + u, k)
  {
    if OpenAt(a + u, k) { OpenBegins(a, u, k); }
  }

  lemma {:induction false} SettledHasNoOpen(a: string)
    requires Settled(a)
    ensures NoOpen(a)
  {
    assert a + "" == a;
    forall i | 0 <= i < |a| ensures !OpenAt(a, i) { NothingOpensBefore(a, "", i); }
  }

  /** Begins with an opening tag that nothing closes yet. */
  predicate Pending(y: string) { y != "" && y[0] == '<' && OpenAt(y, 0) && NoClose(y) }

  predicate GoodParts(p: Parts) { WellFormed(p) && NoClose(p.open) && p.answer == "" }

  lemma {:induction false} NothingClosesIt(p: Parts, y: string)
    requires GoodParts(p) && y <= p.Text() && |y| < p.AnswerAt()
    ensures NoClose(y)
  {
    PrefixIsReceived(p, y);
    NoCloseUntilAnswer(p, y);
  }

  lemma {:induction false} HalfBlockOpens(open: string, n: Name, y: string)
    requires IsOpen(open, n) && open <= y
    ensures y != "" && y[0] == '<' && OpenAt(y, 0)
  {
    assert y[0..|open|] == open;
    IsOpenIsOpenEnd(y, 0, n, |open|);
  }

  lemma {:induction false} HalfBlockIsPending(p: Parts, y: string)
    requires GoodParts(p) && y <= p.Text() && |p.open| <= |y| < p.AnswerAt()
    ensures Pending(y)
  {
    NothingClosesIt(p, y);
    TextWithoutAnswer(p);
    HalfBlockOpens(p.open, p.name, y);
  }

  /** The first closing tag behind an opening tag ends the pair. */
  lemma {:induction false} PairIsFound(u: string, o: nat, h: nat, e: nat, n: Name)
    requires o <= h < e <= |u| && o > 0 && IsOpen(u[0..o], n) && IsClose(u[h..e], n)
    requires forall k | o <= k < h :: !CloseAt(u, k)
    ensures PairEnd(u, 0) == Some(e)
  {
    IsCloseIsCloseEnd(u, h, n, e);
    FindsClose(u, o, h, n);
    IsOpenIsOpenEnd(u, 0, n, o);
    if n.Thinking? { OpenNamesExclude(u, 0); }
  }

  lemma {:induction false} NoCloseInAll(head: string, after: string)
    requires NoClose(head) && after != "" && after[0] == '<'
    ensures forall k | 0 <= k < |head| :: !CloseAt(head + after, k)
  {
    forall k | 0 <= k < |head| ensures !CloseAt(head + after, k) { NoCloseBefore(head, after, k); }
  }

  lemma {:induction false} ThreeParts(head: string, o: nat, close: string, rest: string)
    requires o <= |head|
    ensures var u, h := head + close + rest, |head|;
      u == head + (close + rest) && u[h..h+|close|] == close && u[0..o] == head[..o]
  {}

  lemma {:induction false} PairEndsThere(head: string, o: nat, close: string, rest: string, n: Name)
    requires 0 < o <= |head| && IsOpen(head[..o], n) && NoClose(head) && IsClose(close, n)
    ensures PairEnd(head + close + rest, 0) == Some(|head| + |close|)
  {
    ThreeParts(head, o, close, rest);
    NoCloseInAll(head, close + rest);
    PairIsFound(head + close + rest, o, |head|, |head| + |close|, n);
  }

  lemma {:induction false} TextWithoutAnswer(p: Parts)
    requires p.answer == ""
    ensures var head := p.open + p.reasoning;
      p.Text() == head + p.close && head <= p.Text() && head[..|p.open|] == p.open && p.open <= p.Text()
  {}

  lemma {:induction false} HeadHasNoClose(p: Parts)
    requires GoodParts(p)
    ensures NoClose(p.open + p.reasoning)
  {
    TextWithoutAnswer(p);
    NothingClosesIt(p, p.open + p.reasoning);
  }

  lemma {:induction false} PairGoes(pair: string, rest: string)
    requires pair != "" && PairEnd(pair + rest, 0) == Some(|pair|)
    ensures StripPairs(pair + rest, 0) == StripPairs(rest, 0)
  {
    assert (pair + rest)[|pair|..] == rest;
    StripAhead(pair + rest, |pair|);
  }

  /** A complete block goes as a whole, whatever follows it. */
  lemma {:induction false} WholeBlockGoes(p: Parts, rest: string)
    requires GoodParts(p)
    ensures StripPairs(p.Text() + rest, 0) == StripPairs(rest, 0)
  {
    HeadHasNoClose(p);
    TextWithoutAnswer(p);
    PairEndsThere(p.open + p.reasoning, |p.open|, p.close, rest, p.name);
    PairGoes(p.Text(), rest);
  }

  // --- all blocks --------------------------------------------------------------------------

  lemma {:induction false} PrefixRest(a: string, b: string, s: string)
    requires s <= a + b && |a| <= |s|
    ensures s == a + s[|a|..] && s[|a|..] <= b
  {
    assert (a + b)[..|s|] == a + b[..|s|-|a|];
  }

  lemma {:induction false} PrefixHead(a: string, b: string, s: string)
    requires s <= a + b && |s| <= |a|
    ensures s <= a
  {
    assert (a + b)[..|s|] == a[..|s|];
  }

  function PartsOf(b: Block): (p: Parts)
    requires GoodBlock(b)
    ensures GoodParts(p) && p.Text() == b.Tagged() && p.AnswerAt() == |p.Text()| && b.Tagged()[0] == '<'
  {
    Parts(b.open, b.reasoning, b.close, "", b.name)
  }

  lemma {:induction false} PlainStays(t: string, s: string)
    requires NoOpen(t) && s <= t
    ensures StripPairs(s, 0) == s
  {
    assert t[..|s|] == s == s[0..];
    PrefixHasNoOpen(t, |s|);
    NoPairsInTail(s, 0, s);
  }

  lemma {:induction false} PlainThenBlock(before: string, u: string)
    requires Settled(before) && u != "" && u[0] == '<'
    ensures StripPairs(before + u, 0) == before + StripPairs(u, 0)
  {
    var s, n := before + u, |before|;
    forall k | 0 <= k < n ensures !OpenAt(s, k) { NothingOpensBefore(before, u, k); }
    PlainFirst(s, n);
    assert s[..n] == before && s[n..] == u;
  }

  lemma {:induction false} Assoc(a: string, b: string, c: string)
    ensures (a + b) + c == a + (b + c)
  {}

  lemma {:induction false} HalfBlock(b: Block, rest: string, s: string) returns (y: string)
    requires GoodBlock(b) && s <= b.Text() + rest && b.Opened() <= |s| < |b.Text()|
    ensures StripPairs(s, 0) == b.before + y && Pending(y)
  {
    PrefixHead(b.Text(), rest, s);
    PrefixRest(b.before, b.Tagged(), s);
    y := s[|b.before|..];
    var p := PartsOf(b);
    HalfBlockIsPending(p, y);
    NoPairs(y);
    PlainThenBlock(b.before, y);
  }

  /** Begins like a tag, and contains none. */
  predicate Partial(y: string) { y != "" && y[0] == '<' && '>' !in y }

  lemma {:induction false} TagEndsWithGt(s: string, k: nat, n: Name)
    ensures OpenEnd(s, k, n).Some? ==> s[OpenEnd(s, k, n).value-1] == '>'
    ensures CloseEnd(s, k, n).Some? ==> s[CloseEnd(s, k, n).value-1] == '>'
  {}

  lemma {:induction false} NoGtNoTag(s: string, k: nat)
    requires forall j | k <= j < |s| :: s[j] != '>'
    ensures !OpenAt(s, k) && !CloseAt(s, k)
  {
    TagEndsWithGt(s, k, Think);
    TagEndsWithGt(s, k, Thinking);
  }

  lemma {:induction false} PartialHasNoTag(y: string)
    requires '>' !in y
    ensures NoOpen(y) && NoClose(y)
  {
    forall k | 0 <= k < |y| ensures !OpenAt(y, k) && !CloseAt(y, k) { NoGtNoTag(y, k); }
  }

  lemma {:induction false} HalfTagIsPartial(open: string, n: Name, y: string)
    requires IsOpen(open, n) && y != "" && y <= open && |y| < |open|
    ensures Partial(y)
  {
    forall k | 0 <= k < |y| ensures y[k] != '>' { OpenEndsOnce(open, n, k); }
  }

  lemma {:induction false} HalfOpening(b: Block, rest: string, s: string) returns (y: string)
    requires GoodBlock(b) && s <= b.Text() + rest && |b.before| < |s| < b.Opened()
    ensures StripPairs(s, 0) == b.before + y && y == s[|b.before|..] && Partial(y)
  {
    PrefixHead(b.Text(), rest, s);
    PrefixRest(b.before, b.Tagged(), s);
    y := s[|b.before|..];
    Assoc(b.open, b.reasoning, b.close);
    PrefixHead(b.open, b.reasoning + b.close, y);
    HalfTagIsPartial(b.open, b.name, y);
    PartialHasNoTag(y);
    NoPairs(y);
    PlainThenBlock(b.before, y);
  }

  lemma {:induction false} FullBlock(b: Block, v: string, s: string)
    requires GoodBlock(b) && s == b.Text() + v
    ensures StripPairs(s, 0) == b.before + StripPairs(v, 0)
  {
    Assoc(b.before, b.Tagged(), v);
    var p := PartsOf(b);
    WholeBlockGoes(p, v);
    PlainThenBlock(b.before, b.Tagged() + v);
  }

  /** Removing the pairs leaves the plain text and, inside a block, what is there of the block. */
  lemma {:induction false} PairsGo(bs: seq<Block>, tail: string, s: string) returns (y: string)
    requires (forall b <- bs :: GoodBlock(b)) && NoOpen(tail) && s <= Whole(bs, tail)
    ensures StripPairs(s, 0) == PlainIn(bs, s) + y
    ensures if InOpeningTag(bs, s) then Partial(y) && y == HalfTag(bs, s)
            else HalfTag(bs, s) == "" && if InBlock(bs, s) then Pending(y) else y == ""
  {
    if bs == [] {
      y := "";
      PlainStays(tail, s);
    } else if |s| <= |bs[0].before| {
      y := "";
      assert bs[0] in bs;
      PrefixHead(bs[0].before, bs[0].Tagged() + Whole(bs[1..], tail), s)
        by { Assoc(bs[0].before, bs[0].Tagged(), Whole(bs[1..], tail)); }
      SettledHasNoOpen(bs[0].before);
      PlainStays(bs[0].before, s);
    } else if |s| < bs[0].Opened() {
      assert bs[0] in bs;
      y := HalfOpening(bs[0], Whole(bs[1..], tail), s);
    } else if |s| < |bs[0].Text()| {
      assert bs[0] in bs;
      y := HalfBlock(bs[0], Whole(bs[1..], tail), s);
    } else {
      var b := bs[0];
      PrefixRest(b.Text(), Whole(bs[1..], tail), s);
      var v := s[|b.Text()|..];
      y := PairsGo(bs[1..], tail, v);
      assert b in bs;
      FullBlock(b, v, s);
      Assoc(b.before, PlainIn(bs[1..], v), y);
    }
  }

  lemma {:induction false} PlainIsPrefix(bs: seq<Block>, tail: string, s: string)
    requires s <= Whole(bs, tail)
    ensures PlainIn(bs, s) <= Answer(bs, tail)
    ensures s == Whole(bs, tail) ==> PlainIn(bs, s) == Answer(bs, tail) && !InBlock(bs, s) && !InOpeningTag(bs, s)
  {
    if bs != [] {
      var b, rest := bs[0], Whole(bs[1..], tail);
      if |s| < |b.Text()| {
        if |s| <= |b.before| {
          Assoc(b.before, b.Tagged(), rest);
          PrefixHead(b.before, b.Tagged() + rest, s);
        }
      } else {
        PrefixRest(b.Text(), rest, s);
        PlainIsPrefix(bs[1..], tail, s[|b.Text()|..]);
      }
    }
  }

  // --- what is shown -----------------------------------------------------------------------

  lemma {:induction false} CloseInTail(s: string, i: nat, y: string, k: nat)
    requires i <= k < |s| && y == s[i..] && !CloseAt(y, k - i)
    ensures !CloseAt(s, k)
  {
    CloseAhead(s, i, k, Think);
    CloseAhead(s, i, k, Thinking);
  }

  lemma {:induction false} NoCloseThrough(x: string, y: string)
    requires NoClose(x) && NoClose(y) && y != "" && y[0] == '<'
    ensures NoClose(x + y)
  {
    assert (x + y)[|x|..] == y;
    forall k | 0 <= k < |x + y| ensures !CloseAt(x + y, k) {
      if k < |x| {
        NoCloseBefore(x, y, k);
      } else {
        assert !CloseAt(y, k - |x|);
        CloseInTail(x + y, |x|, y, k);
      }
    }
  }

  lemma {:induction false} GtIsBefore(x: string, y: string, j: nat)
    requires '>' !in y && j < |x + y| && (x + y)[j] == '>'
    ensures j < |x|
  {}

  lemma {:induction false} EndsBefore(x: string, y: string, k: nat, n: Name)
    requires '>' !in y && OpenEnd(x + y, k, n).Some?
    ensures k < |x| && OpenAt(x, k)
  {
    var s, e := x + y, OpenEnd(x + y, k, n).value;
    TagEndsWithGt(s, k, n);
    GtIsBefore(x, y, e - 1);
    assert s[k..e] == x[k..e];
    SameOpen(s, k, e, x, k, e, n);
  }

  lemma {:induction false} NoOpenThrough(x: string, y: string)
    requires NoOpen(x) && '>' !in y
    ensures NoOpen(x + y)
  {
    forall k | 0 <= k < |x + y| ensures !OpenAt(x + y, k) {
      if OpenAt(x + y, k) { EndsBefore(x, y, k, OpenName(x + y, k)); }
    }
  }

  lemma {:induction false} OpensBehind(x: string, y: string)
    requires OpenAt(y, 0)
    ensures OpenAt(x + y, |x|)
  {
    assert (x + y)[|x|..] == y;
    OpenAhead(x + y, |x|, |x|, Think);
    OpenAhead(x + y, |x|, |x|, Thinking);
  }

  /** From the pending opening tag on everything is cut off. */
  lemma {:induction false} CutBeforePending(x: string, y: string)
    requires NoClose(x) && Pending(y)
    ensures CutOpen(DropLeading(x + y)) <= x && (Settled(x) ==> CutOpen(DropLeading(x + y)) == x)
  {
    NoCloseThrough(x, y);
    OpensBehind(x, y);
    CutsFrom(x + y, |x|);
    assert (x + y)[..|x|] == x;
    if Settled(x) { CutsRightThere(x, y); }
  }

  lemma {:induction false} CutsRightThere(x: string, y: string)
    requires NoClose(x + y) && Settled(x) && Pending(y) && OpenAt(x + y, |x|)
    ensures CutOpen(DropLeading(x + y)) == x
  {
    FindsNoClose(x + y, 0, Think);
    forall k | 0 <= k < |x| ensures !OpenAt(x + y, k) { NothingOpensBefore(x, y, k); }
    assert FirstOpen(x + y, 0) == |x|;
  }

  /** A half opening tag is shown as it is. */
  lemma {:induction false} PartialStays(x: string, y: string)
    requires NoOpen(x) && NoClose(x) && Partial(y)
    ensures CutOpen(DropLeading(x + y)) == x + y
  {
    PartialHasNoTag(y);
    NoCloseThrough(x, y);
    NoOpenThrough(x, y);
    Untagged(x + y);
  }

  lemma {:induction false} AnswerEndsInTail(bs: seq<Block>, tail: string) returns (n: nat)
    ensures n <= |Answer(bs, tail)| && Answer(bs, tail)[n..] == tail
  {
    if bs == [] {
      n := 0;
    } else {
      var m := AnswerEndsInTail(bs[1..], tail);
      n := |bs[0].before| + m;
    }
  }

  lemma {:induction false} GoodTail(bs: seq<Block>, tail: string)
    requires GoodText(bs, tail)
    ensures NoOpen(tail)
  {
    var a := Answer(bs, tail);
    var n := AnswerEndsInTail(bs, tail);
    PartHasNoOpen(a, n, |a|);
    assert a[n..|a|] == tail;
  }

  lemma {:induction false} PrefixIsUntagged(a: string, x: string)
    requires NoOpen(a) && NoClose(a) && x <= a
    ensures NoOpen(x) && NoClose(x)
  {
    assert a[0..|x|] == x;
    PartHasNoOpen(a, 0, |x|);
    PartHasNoClose(a, 0, |x|);
  }

  lemma {:induction false} PartOfPrefix(x: string, y: string, z: string, s: string)
    requires s <= x + y + z && |x + y| <= |s|
    ensures s[|x|..|x + y|] == y
  {
    assert (x + y + z)[|x|..|x + y|] == y;
    assert s[|x|..|x + y|] == (x + y + z)[|x|..|x + y|];
  }

  lemma {:induction false} Regroup(a: string, b: string, c: string, d: string, e: string)
    ensures a + (b + c + d) + e == a + b + (c + d + e)
  {}

  lemma {:induction false} PrefixHasTag(x: string, open: string, z: string, n: Name, s: string)
    requires IsOpen(open, n) && s <= x + open + z && |x + open| <= |s|
    ensures HasTag(s)
  {
    PartOfPrefix(x, open, z, s);
    TagIsFound(s, |x|, |x + open|, n);
  }

  lemma {:induction false} BlockHasTag(b: Block, rest: string, s: string)
    requires GoodBlock(b) && s <= b.Text() + rest && b.Opened() <= |s|
    ensures HasTag(s)
  {
    Regroup(b.before, b.open, b.reasoning, b.close, rest);
    PrefixHasTag(b.before, b.open, b.reasoning + b.close + rest, b.name, s);
  }

  lemma {:induction false} TagIsFound(s: string, i: nat, e: nat, n: Name)
    requires i < e <= |s| && IsOpen(s[i..e], n)
    ensures HasTag(s)
  {
    IsOpenIsOpenEnd(s, i, n, e);
    OpenStartsTag(s, i);
  }

  /** What is shown is trimmed as soon as the text has the start of a tag, and not before. */
  function Trimmed(s: string, t: string): string { if HasTag(s) then TrimLeft(t) else t }

  lemma {:induction false} TaglessIsPlain(bs: seq<Block>, tail: string, s: string)
    requires (forall b <- bs :: GoodBlock(b)) && s <= Whole(bs, tail) && !HasTag(s)
    ensures !InBlock(bs, s) || InOpeningTag(bs, s)
    ensures s == PlainIn(bs, s) + HalfTag(bs, s)
  {
    if bs != [] {
      assert bs[0] in bs;
      if bs[0].Opened() <= |s| {
        BlockHasTag(bs[0], Whole(bs[1..], tail), s);
      } else if |s| > |bs[0].before| {
        PrefixRest(bs[0].before, bs[0].Tagged() + Whole(bs[1..], tail), s)
          by { Assoc(bs[0].before, bs[0].Tagged(), Whole(bs[1..], tail)); }
      }
    }
  }

  /** Outside the blocks, and inside an opening tag, all that has been received is shown but the blocks. */
  ghost predicate ShowsPlain(bs: seq<Block>, s: string) {
    StripReasoningBlocks(s) == Trimmed(s, PlainIn(bs, s) + HalfTag(bs, s))
  }

  /**
    Any number of reasoning blocks in plain text, also none, at every moment of the stream: outside the
    blocks exactly the plain text so far is shown, and a half received opening tag as it is; inside a
    block no more than the plain text so far, and all of it if no opening tag begins in it. Leading
    white space goes once a tag has begun. So no reasoning ever shows, no plain text is lost, and what
    is shown is a prefix of what will be shown at the end.
  */
  lemma {:induction false} BlocksNeverShow(bs: seq<Block>, tail: string, s: string)
    requires GoodText(bs, tail) && s <= Whole(bs, tail)
    ensures !InBlock(bs, s) || InOpeningTag(bs, s) ==> ShowsPlain(bs, s)
    ensures InBlock(bs, s) && !InOpeningTag(bs, s) ==>
              StripReasoningBlocks(s) <= TrimLeft(PlainIn(bs, s))
              && (Settled(PlainIn(bs, s)) ==> StripReasoningBlocks(s) == TrimLeft(PlainIn(bs, s)))
    ensures PlainIn(bs, s) <= Answer(bs, tail) && TrimLeft(PlainIn(bs, s)) <= TrimLeft(Answer(bs, tail))
    ensures s == Whole(bs, tail) ==> StripReasoningBlocks(s) == Trimmed(s, Answer(bs, tail))
    ensures bs != [] && bs[0].Opened() <= |s| ==> HasTag(s)
  {
    var x, a := PlainIn(bs, s), Answer(bs, tail);
    GoodTail(bs, tail);
    var y := PairsGo(bs, tail, s);
    PlainIsPrefix(bs, tail, s);
    PrefixIsUntagged(a, x);
    TrimmedPrefix(a, |x|);
    assert a[..|x|] == x && x + "" == x;
    if bs != [] && bs[0].Opened() <= |s| {
      assert bs[0] in bs;
      BlockHasTag(bs[0], Whole(bs[1..], tail), s);
    }
    if !HasTag(s) {
      TaglessIsPlain(bs, tail, s);
    } else {
      ShownOf(s, x, y);
      if !InOpeningTag(bs, s) && InBlock(bs, s) { ShownPrefix(x, y); }
    }
  }

  /** What is shown once the pairs are gone: the plain text, and a tag that is pending or half received. */
  lemma {:induction false} ShownOf(s: string, x: string, y: string)
    requires HasTag(s) && StripPairs(s, 0) == x + y && NoOpen(x) && NoClose(x)
    ensures y == "" || Partial(y) ==> StripReasoningBlocks(s) == TrimLeft(x + y)
    ensures Pending(y) ==> StripReasoningBlocks(s) == TrimLeft(CutOpen(DropLeading(x + y)))
  {
    if y == "" {
      assert x + y == x;
      Untagged(x);
    } else if Partial(y) {
      PartialStays(x, y);
    }
  }

  lemma {:induction false} ShownPrefix(x: string, y: string)
    requires NoClose(x) && Pending(y)
    ensures var shown := TrimLeft(CutOpen(DropLeading(x + y)));
      shown <= TrimLeft(x) && (Settled(x) ==> shown == TrimLeft(x))
  {
    CutBeforePending(x, y);
    var cut := CutOpen(DropLeading(x + y));
    assert x[..|cut|] == cut;
    TrimmedPrefix(x, |cut|);
  }

  /** Text without complete tags loses its leading white space at most, and not even that without the start of a tag. */
  lemma {:induction false} NothingToStrip(s: string)
    requires NoOpen(s) && NoClose(s)
    ensures StripReasoningBlocks(s) == (if HasTag(s) then TrimLeft(s) else s)
  {
    NoPairs(s);
    Untagged(s);
  }

  /** A closing tag begins at `i`, complete or not. */
  predicate BeginsClosing(t: string, i: nat) {
    i + 1 < |t| && t[i] == '<' && t[i+1] == '/' && (WholeNameAt(t, i + 2, Think) || WholeNameAt(t, i + 2, Thinking))
  }

  lemma {:induction false} TagStartsIff(s: string, i: nat)
    ensures TagStartsAt(s, i) <==> Begins(s, i) || BeginsClosing(s, i)
  {
    if NameAt(s, i + 1, Think) { NameStartsWithT(s, i + 1, Think); }
    if NameAt(s, i + 1, Thinking) { NameStartsWithT(s, i + 1, Thinking); }
  }

  /** An ordinary answer, in which no tag begins, is shown as it is, leading white space included. */
  lemma {:induction false} OrdinaryTextIsKept(s: string)
    requires forall i | 0 <= i < |s| :: !Begins(s, i) && !BeginsClosing(s, i)
    ensures StripReasoningBlocks(s) == s
  {
    forall i | 0 <= i < |s| ensures !TagStartsAt(s, i) { TagStartsIff(s, i); }
  }
}
