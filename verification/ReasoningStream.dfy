/**
  Reasoning in streamed text: what is shown of every prefix of an opening tag, reasoning, a closing
  tag and an answer; and what is shown when only closing tags arrive.
*/
module ReasoningStream {
  import opened Options
  import opened Text
  import opened AssistantOutput

  datatype Parts = Parts(open: string, reasoning: string, close: string, answer: string, name: Name) {
    function Text(): string { open + reasoning + close + answer }
    function CloseAt(): nat { |open| + |reasoning| }
    function AnswerAt(): nat { CloseAt() + |close| }
    function Size(): nat { AnswerAt() + |answer| }

    function CharAt(i: nat): char
      requires i < Size()
    {
      if i < |open| then open[i]
      else if i < CloseAt() then reasoning[i-|open|]
      else if i < AnswerAt() then close[i-CloseAt()]
      else answer[i-AnswerAt()]
    }
  }

  /**
    An opening tag, reasoning without a closing tag, the closing tag of the same name, and an
    answer without tags.
  */
  predicate WellFormed(p: Parts) {
    && IsOpen(p.open, p.name)
    && NoClose(p.reasoning)
    && IsClose(p.close, p.name)
    && NoOpen(p.answer) && NoClose(p.answer)
  }

  /** `s` is what has been received so far, character by character; no closing tag hides in the opening one. */
  predicate Received(p: Parts, s: string) {
    WellFormed(p) && NoClose(p.open) && |s| <= p.Size() && forall i | 0 <= i < |s| :: s[i] == p.CharAt(i)
  }

  lemma {:induction false} PrefixIsReceived(p: Parts, s: string)
    requires WellFormed(p) && NoClose(p.open) && s <= p.Text()
    ensures Received(p, s) && (s == p.Text() <==> |s| == p.Size())
  {
    forall i | 0 <= i < |s| ensures s[i] == p.CharAt(i) { assert p.Text()[i] == p.CharAt(i); }
  }

  lemma {:induction false} ReasoningPart(p: Parts, s: string, i: nat, e: nat)
    requires Received(p, s) && |p.open| <= i <= e <= |s| && e <= p.CloseAt()
    ensures s[i..e] == p.reasoning[i-|p.open|..e-|p.open|]
  {
    forall k | i <= k < e ensures s[k] == p.reasoning[k-|p.open|] {}
  }

  lemma {:induction false} OpenPart(p: Parts, s: string, i: nat, e: nat)
    requires Received(p, s) && i <= e <= |s| && e <= |p.open|
    ensures s[i..e] == p.open[i..e]
  {
    forall k | i <= k < e ensures s[k] == p.open[k] {}
  }

  /** An opening tag has its `>` at the end and nowhere else. */
  lemma {:induction false} OpenEndsOnce(t: string, n: Name, k: nat)
    requires IsOpen(t, n) && k < |t|
    ensures t[k] == '>' <==> k == |t| - 1
  {
    var m := 1 + Size(n);
    if 1 <= k < m {
      SpelledPlainly(t[1..m], n, k - 1);
    } else if m <= k < |t| - 1 {
      assert t[k] == t[m..|t|-1][k-m] && t[k] in t[m..|t|-1];
    }
  }

  lemma {:induction false} NotWithinOpen(p: Parts, s: string, i: nat, e: nat, m: Name)
    requires Received(p, s) && i < e <= |s| && e <= |p.open|
    ensures CloseEnd(s, i, m) != Some(e)
  {
    OpenPart(p, s, i, e);
    SameClose(s, i, e, p.open, i, e, m);
    assert !CloseAt(p.open, i);
  }

  /** A closing tag cannot reach across the `>` of the opening tag. */
  lemma {:induction false} NotOutOfOpen(p: Parts, s: string, i: nat, e: nat, m: Name)
    requires Received(p, s) && i < |p.open| < e <= |s|
    ensures CloseEnd(s, i, m) != Some(e)
  {
    var k := |p.open| - 1 - i;
    OpenEndsOnce(p.open, p.name, |p.open| - 1);
    assert s[i..e][k] == s[|p.open|-1] == '>';
    CloseIff(s, i, m, e);
    if IsClose(s[i..e], m) { CloseIsPlain(s[i..e], m, k); }
  }

  /** No closing tag begins inside the opening tag. */
  lemma {:induction false} NoCloseInOpen(p: Parts, s: string, i: nat, m: Name)
    requires Received(p, s) && i < |s| && i < |p.open|
    ensures CloseEnd(s, i, m).None?
  {
    if CloseEnd(s, i, m).Some? {
      var e := CloseEnd(s, i, m).value;
      if e <= |p.open| { NotWithinOpen(p, s, i, e, m); } else { NotOutOfOpen(p, s, i, e, m); }
    }
  }

  lemma {:induction false} NotWithinReasoning(p: Parts, s: string, i: nat, e: nat, m: Name)
    requires Received(p, s) && |p.open| <= i < e <= |s| && e <= p.CloseAt()
    ensures CloseEnd(s, i, m) != Some(e)
  {
    ReasoningPart(p, s, i, e);
    SameClose(s, i, e, p.reasoning, i - |p.open|, e - |p.open|, m);
    assert !CloseAt(p.reasoning, i - |p.open|);
  }

  lemma {:induction false} NotAcross(p: Parts, s: string, i: nat, e: nat, m: Name)
    requires Received(p, s) && i < p.CloseAt() < e <= |s|
    ensures CloseEnd(s, i, m) != Some(e)
  {
    var k := p.CloseAt() - i;
    assert s[i..e][k] == '<';
    CloseIff(s, i, m, e);
    if IsClose(s[i..e], m) { CloseIsPlain(s[i..e], m, k); }
  }

  /** Nor inside the reasoning: it would have to reach into the real closing tag, past its `<`. */
  lemma {:induction false} NoCloseInReasoning(p: Parts, s: string, i: nat, m: Name)
    requires Received(p, s) && i < |s| && |p.open| <= i < p.CloseAt()
    ensures CloseEnd(s, i, m).None?
  {
    if CloseEnd(s, i, m).Some? {
      var e := CloseEnd(s, i, m).value;
      if e <= p.CloseAt() { NotWithinReasoning(p, s, i, e, m); } else { NotAcross(p, s, i, e, m); }
    }
  }

  lemma {:induction false} NoCloseInHead(p: Parts, s: string, i: nat)
    requires Received(p, s) && i < |s| && i < p.CloseAt()
    ensures !CloseAt(s, i)
  {
    if i < |p.open| {
      NoCloseInOpen(p, s, i, Think);
      NoCloseInOpen(p, s, i, Thinking);
    } else {
      NoCloseInReasoning(p, s, i, Think);
      NoCloseInReasoning(p, s, i, Thinking);
    }
  }

  lemma {:induction false} NoGtYet(p: Parts, s: string, k: nat)
    requires Received(p, s) && p.CloseAt() <= k < |s| < p.AnswerAt()
    ensures s[k] != '>'
  {
    CloseIsPlain(p.close, p.name, k - p.CloseAt());
  }

  /** An incomplete closing tag is none. */
  lemma {:induction false} NoCloseYet(p: Parts, s: string, i: nat, m: Name)
    requires Received(p, s) && |s| < p.AnswerAt() && p.CloseAt() <= i < |s|
    ensures CloseEnd(s, i, m).None?
  {
    if CloseEnd(s, i, m).Some? { NoGtYet(p, s, CloseEnd(s, i, m).value - 1); }
  }

  lemma {:induction false} OpensAtStart(p: Parts, s: string)
    requires Received(p, s) && |p.open| <= |s|
    ensures OpenEnd(s, 0, p.name) == Some(|p.open|) && HasTag(s)
  {
    assert s[0..|p.open|] == p.open;
    IsOpenIsOpenEnd(s, 0, p.name, |p.open|);
    OpenStartsTag(s, 0);
  }

  lemma {:induction false} NoCloseUntilAnswer(p: Parts, s: string)
    requires Received(p, s) && |s| < p.AnswerAt()
    ensures NoClose(s)
  {
    forall i | 0 <= i < |s| ensures !CloseAt(s, i) {
      if i < p.CloseAt() {
        NoCloseInHead(p, s, i);
      } else {
        NoCloseYet(p, s, i, Think);
        NoCloseYet(p, s, i, Thinking);
      }
    }
  }

  /** Without closing tags there is no pair. */
  lemma {:induction false} NoPairs(s: string)
    requires NoClose(s)
    ensures StripPairs(s, 0) == s
  {
    forall k | 0 <= k < |s| ensures PairEnd(s, k).None? {
      if OpenEnd(s, k, Think).Some? { FindsNoClose(s, OpenEnd(s, k, Think).value, Think); }
      if OpenEnd(s, k, Thinking).Some? { FindsNoClose(s, OpenEnd(s, k, Thinking).value, Thinking); }
    }
    StripsNoPair(s, 0);
  }

  /** From an opening tag that nothing closes on, everything is cut off. */
  lemma {:induction false} CutsFrom(s: string, n: nat)
    requires NoClose(s) && n < |s| && OpenAt(s, n)
    ensures CutOpen(DropLeading(s)) <= s[..n]
  {
    FindsNoClose(s, 0, Think);
    assert FirstOpen(s, 0) <= n;
  }

  /** While the closing tag is not complete, nothing is shown. */
  lemma {:induction false} NothingShownYet(p: Parts, s: string)
    requires Received(p, s) && |p.open| <= |s| < p.AnswerAt()
    ensures StripReasoningBlocks(s) == ""
  {
    OpensAtStart(p, s);
    NoCloseUntilAnswer(p, s);
    NoPairs(s);
    CutsFrom(s, 0);
  }

  lemma {:induction false} OpenInTail(s: string, a: nat, k: nat)
    requires a <= k < |s| && OpenAt(s, k)
    ensures k - a < |s[a..]| && OpenAt(s[a..], k - a)
  {
    var m := OpenName(s, k);
    var e := OpenEnd(s, k, m).value;
    assert s[a..][k-a..e-a] == s[k..e];
    SameOpen(s, k, e, s[a..], k - a, e - a, m);
  }

  /** A text without complete tags loses its leading white space at most. */
  lemma {:induction false} Untagged(s: string)
    requires NoOpen(s) && NoClose(s)
    ensures CutOpen(DropLeading(s)) == s
  {
    FindsNoClose(s, 0, Think);
  }

  lemma {:induction false} RealClosingTag(p: Parts, s: string)
    requires Received(p, s) && p.AnswerAt() <= |s|
    ensures CloseAfter(s, |p.open|, p.name) == Some(p.AnswerAt())
  {
    var h, a := p.CloseAt(), p.AnswerAt();
    assert s[h..a] == p.close;
    IsCloseIsCloseEnd(s, h, p.name, a);
    forall k | |p.open| <= k < h ensures !CloseAt(s, k) { NoCloseInHead(p, s, k); }
    FindsClose(s, |p.open|, h, p.name);
  }

  /** The pair at the start is the opening tag and the real closing tag. */
  lemma {:induction false} PairAtStart(p: Parts, s: string)
    requires Received(p, s) && p.AnswerAt() <= |s|
    ensures PairEnd(s, 0) == Some(p.AnswerAt())
  {
    OpensAtStart(p, s);
    RealClosingTag(p, s);
    if p.name.Thinking? { OpenNamesExclude(s, 0); }
  }

  lemma {:induction false} TailIsAnswer(p: Parts, s: string)
    requires Received(p, s) && p.AnswerAt() <= |s|
    ensures s[p.AnswerAt()..] == p.answer[..|s|-p.AnswerAt()]
  {
    var a := p.AnswerAt();
    forall k | a <= k < |s| ensures s[k] == p.answer[k-a] {}
  }

  lemma {:induction false} NoPairsInTail(s: string, a: nat, tail: string)
    requires a <= |s| && s[a..] == tail && NoOpen(tail)
    ensures StripPairs(s, a) == tail
  {
    forall k | a <= k < |s| ensures PairEnd(s, k).None? {
      if OpenAt(s, k) { OpenInTail(s, a, k); }
    }
    StripsNoPair(s, a);
  }

  lemma {:induction false} AfterThePair(p: Parts, s: string)
    requires Received(p, s) && p.AnswerAt() <= |s|
    ensures StripPairs(s, p.AnswerAt()) == p.answer[..|s|-p.AnswerAt()]
  {
    var a := p.AnswerAt();
    var n := |s| - a;
    TailIsAnswer(p, s);
    PrefixHasNoOpen(p.answer, n);
    NoPairsInTail(s, a, p.answer[..n]);
  }

  lemma {:induction false} PrefixHasNoOpen(t: string, n: nat)
    requires NoOpen(t) && n <= |t|
    ensures NoOpen(t[..n])
  {
    PartHasNoOpen(t, 0, n);
    assert t[0..n] == t[..n];
  }

  /** From the closing tag on, exactly the answer received so far is shown, without leading white space. */
  lemma {:induction false} AnswerIsShown(p: Parts, s: string)
    requires Received(p, s) && p.AnswerAt() <= |s|
    ensures StripReasoningBlocks(s) == TrimLeft(p.answer[..|s|-p.AnswerAt()])
  {
    var shown := p.answer[..|s|-p.AnswerAt()];
    OpensAtStart(p, s);
    PairAtStart(p, s);
    AfterThePair(p, s);
    assert p.answer[0..|shown|] == shown;
    PartHasNoOpen(p.answer, 0, |shown|);
    PartHasNoClose(p.answer, 0, |shown|);
    Untagged(shown);
  }

  lemma {:induction false} TrimmedPrefix(s: string, n: nat)
    requires n <= |s|
    ensures TrimLeft(s[..n]) <= TrimLeft(s)
  {
    if n > 0 && IsSpace(s[0]) {
      TrimmedPrefix(s[1..], n - 1);
      assert s[..n][1..] == s[1..][..n-1];
    }
  }

  /**
    Streamed reasoning never shows, as long as no closing tag hides in the opening one: from the
    complete opening tag on, every prefix of the text is shown as a prefix of the answer.
  */
  lemma {:induction false} ReasoningNeverShows(p: Parts, s: string)
    requires WellFormed(p) && NoClose(p.open) && s <= p.Text() && |p.open| <= |s|
    ensures StripReasoningBlocks(s) <= TrimLeft(p.answer)
    ensures |s| < p.AnswerAt() ==> StripReasoningBlocks(s) == ""
    ensures s == p.Text() ==> StripReasoningBlocks(s) == TrimLeft(p.answer)
  {
    PrefixIsReceived(p, s);
    if |s| < p.AnswerAt() {
      NothingShownYet(p, s);
    } else {
      AnswerIsShown(p, s);
      assert s == p.Text() ==> p.answer[..|s|-p.AnswerAt()] == p.answer;
      TrimmedPrefix(p.answer, |s| - p.AnswerAt());
    }
  }

  // --- which opening tags hide their reasoning ----------------------------------------------

  /** Plain text, without the characters that tags are made of. */
  predicate NoAngles(r: string) { '<' !in r && '>' !in r }

  lemma {:induction false} OnlyGt(open: string, r: string, n: Name, k: nat)
    requires IsOpen(open, n) && NoAngles(r) && k < |open + r|
    ensures (open + r)[k] == '>' ==> k == |open| - 1
    ensures (open + r)[k] == '<' ==> k < |open| - 1
  {
    if k < |open| {
      OpenEndsOnce(open, n, k);
    } else {
      assert (open + r)[k] == r[k-|open|] && r[k-|open|] in r;
    }
  }

  lemma {:induction false} NoPairInOpen(open: string, r: string, n: Name, k: nat, m: Name)
    requires IsOpen(open, n) && NoAngles(r) && k < |open + r|
    ensures PairEndOf(open + r, k, m).None?
  {
    var s := open + r;
    if OpenEnd(s, k, m).Some? {
      var e := OpenEnd(s, k, m).value;
      OpenEndIsOpen(s, k, m);
      assert s[k..e][|s[k..e]|-1] == s[e-1];
      OnlyGt(open, r, n, e - 1);
      forall j | e <= j < |s| ensures !CloseAt(s, j) { OnlyGt(open, r, n, j); }
      FindsNoClose(s, e, m);
    }
  }

  lemma {:induction false} AnyCloseIsFound(s: string, i: nat, j: nat)
    requires i <= j < |s| && CloseAt(s, j)
    ensures AnyCloseAfter(s, i).Some?
    decreases j - i
  {
    if i < j { AnyCloseIsFound(s, i + 1, j); }
  }

  lemma {:induction false} CloseInPrefix(open: string, r: string, j: nat)
    requires j < |open| && CloseAt(open, j)
    ensures CloseAt(open + r, j)
  {
    assert (open + r)[0..|open|] == open;
    CloseInWhole(open + r, 0, |open|, j);
  }

  lemma {:induction false} OddPairs(open: string, r: string, n: Name)
    requires IsOpen(open, n) && NoAngles(r)
    ensures StripPairs(open + r, 0) == open + r
  {
    var s := open + r;
    forall k | 0 <= k < |s| ensures PairEnd(s, k).None? {
      NoPairInOpen(open, r, n, k, Think);
      NoPairInOpen(open, r, n, k, Thinking);
    }
    StripsNoPair(s, 0);
  }

  lemma {:induction false} OddLeading(open: string, r: string, n: Name)
    requires IsOpen(open, n) && !NoClose(open) && NoAngles(r)
    ensures DropLeading(open + r) == r
  {
    var s := open + r;
    var j :| 0 <= j < |open| && CloseAt(open, j);
    CloseInPrefix(open, r, j);
    AnyCloseIsFound(s, 0, j);
    OnlyGt(open, r, n, AnyCloseAfter(s, 0).value - 1);
    assert s[|open|..] == r;
  }

  lemma {:induction false} PlainTextStays(r: string)
    requires NoAngles(r)
    ensures CutOpen(r) == r
  {
    forall k | 0 <= k < |r| ensures !OpenAt(r, k) { assert r[k] in r; }
  }

  /** A closing tag in the opening one counts as the first: what comes after the opening tag is shown. */
  lemma {:induction false} OddOpeningTagShowsReasoning(open: string, n: Name, r: string)
    requires IsOpen(open, n) && !NoClose(open) && NoAngles(r)
    ensures StripReasoningBlocks(open + r) == TrimLeft(r)
  {
    var s := open + r;
    OddPairs(open, r, n);
    OddLeading(open, r, n);
    PlainTextStays(r);
    assert s[0..|open|] == open;
    IsOpenIsOpenEnd(s, 0, n, |open|);
    OpenStartsTag(s, 0);
  }

  /** Nothing but the answer is ever shown behind this opening tag. */
  ghost predicate HidesReasoning(open: string, n: Name) {
    forall p: Parts, s: string ::
      WellFormed(p) && p.open == open && p.name == n && s <= p.Text() && |open| <= |s| ==>
        StripReasoningBlocks(s) <= TrimLeft(p.answer)
  }

  /** A plain closing tag of either name. */
  function PlainClose(n: Name): string { "</" + Letters(n) + ">" }

  lemma {:induction false} PlainCloseIs(n: Name)
    ensures IsClose(PlainClose(n), n)
  {
    var t, m := PlainClose(n), 2 + Size(n);
    assert t[2..m] == Letters(n);
    assert forall k | 0 <= k < Size(n) :: Fold(Letters(n)[k]) == Letters(n)[k];
    assert t[m..|t|-1] == [];
  }

  /**
    Which opening tags hide their reasoning: an opening tag does, for every reasoning and answer
    and at every moment of the stream, if and only if there is no closing tag in its attributes.
  */
  lemma {:induction false} OpeningTagHidesIff(open: string, n: Name)
    requires IsOpen(open, n)
    ensures HidesReasoning(open, n) <==> NoClose(open)
  {
    if NoClose(open) {
      forall p: Parts, s: string
        | WellFormed(p) && p.open == open && p.name == n && s <= p.Text() && |open| <= |s|
        ensures StripReasoningBlocks(s) <= TrimLeft(p.answer)
      {
        ReasoningNeverShows(p, s);
      }
    } else {
      PlainLetter();
      PlainCloseIs(n);
      OddTagDoesNotHide(open, n, "x", PlainClose(n));
    }
  }

  lemma {:induction false} OddTagDoesNotHide(open: string, n: Name, r: string, close: string)
    requires IsOpen(open, n) && !NoClose(open) && NoAngles(r) && NoClose(r) && TrimLeft(r) != "" && IsClose(close, n)
    ensures !HidesReasoning(open, n)
  {
    var p := Parts(open, r, close, "", n);
    OddOpeningTagShowsReasoning(open, n, r);
    assert p.Text()[..|open + r|] == open + r;
    assert WellFormed(p);
    assert !(StripReasoningBlocks(open + r) <= TrimLeft(p.answer));
  }

  lemma {:induction false} PlainLetter()
    ensures NoAngles("x") && NoClose("x") && NoOpen("") && NoClose("") && TrimLeft("x") == "x" && TrimLeft("") == ""
  {
    assert "x"[0] == 'x';
  }

  // --- closing tags alone ------------------------------------------------------------------

  /** Where no closing tag ends in `before`, none begins there either, because the next tag starts anew. */
  lemma {:induction false} NoCloseBefore(before: string, after: string, k: nat)
    requires NoClose(before) && after != "" && after[0] == '<' && k < |before|
    ensures !CloseAt(before + after, k)
  {
    var s, b := before + after, |before|;
    if CloseAt(s, k) {
      var m := if CloseEnd(s, k, Think).Some? then Think else Thinking;
      var e := CloseEnd(s, k, m).value;
      if e <= b {
        assert s[k..e] == before[k..e];
        assert !CloseAt(before, k);
        SameClose(s, k, e, before, k, e, m);
      } else {
        var t := s[k..e];
        assert t[b-k] == s[b] == '<';
        CloseEndIsClose(s, k, m);
        CloseIsPlain(t, m, b - k);
      }
    }
  }

  lemma {:induction false} LeadingGoes(before: string, close: string, after: string, n: Name)
    requires NoClose(before) && IsClose(close, n)
    ensures var s := before + close + after; DropLeading(s) == after && HasTag(s)
  {
    var s, b, e := before + close + after, |before|, |before| + |close|;
    assert s[b..e] == close && s[e..] == after && s == before + (close + after);
    IsCloseIsCloseEnd(s, b, n, e);
    forall k | 0 <= k < b ensures !CloseAt(s, k) { NoCloseBefore(before, close + after, k); }
    FindsAnyClose(s, 0, b, n);
    CloseStartsTag(s, b, n);
  }

  /**
    When the opening tag was lost upstream, what comes before the first closing tag goes; but only
    that one tag does: any later closing tag in `after` is shown.
  */
  lemma {:induction false} OnlyFirstClosingTagGoes(before: string, close: string, after: string, n: Name)
    requires NoClose(before) && IsClose(close, n) && NoOpen(before + close + after)
    ensures StripReasoningBlocks(before + close + after) == TrimLeft(after)
  {
    var s, e := before + close + after, |before| + |close|;
    assert s[0..] == s && s[e..|s|] == after;
    NoPairsInTail(s, 0, s);
    LeadingGoes(before, close, after, n);
    PartHasNoOpen(s, e, |s|);
    assert CutOpen(after) == after;
  }

  lemma {:induction false} CloseStartsTag(s: string, i: nat, n: Name)
    requires CloseEnd(s, i, n).Some?
    ensures i < |s| && TagStartsAt(s, i)
  {
    CloseEndIsClose(s, i, n);
    var e := CloseEnd(s, i, n).value;
    CloseNameEnds(s[i..e], n);
    assert s[i..e][2+Size(n)] == s[i+2+Size(n)];
  }

  predicate SlashFollows(s: string) { forall i | 0 <= i < |s| && s[i] == '<' :: i + 1 < |s| && s[i+1] == '/' }

  lemma {:induction false} OnlyClosingTags(s: string)
    requires SlashFollows(s)
    ensures NoOpen(s)
  {
    forall i | 0 <= i < |s| ensures !OpenAt(s, i) {
      if OpenAt(s, i) { NameStartsWithT(s, i + 1, OpenName(s, i)); }
    }
  }

  /** A second closing tag is left in what is shown. */
  lemma {:induction false} ClosingTagSurvives()
    ensures StripReasoningBlocks("a" + "</think>" + "b</think>c") == "b</think>c"
  {
    PlainCloseIs(Think);
    assert PlainClose(Think) == "</think>";
    assert SlashFollows("</think>") && SlashFollows("b</think>c");
    assert "a"[0] == 'a';
    OnlyClosingTags("a" + "</think>" + "b</think>c");
    OnlyFirstClosingTagGoes("a", "</think>", "b</think>c", Think);
  }
}
