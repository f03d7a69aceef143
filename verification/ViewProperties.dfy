/**
  What a session view shows, told by the events alone: every step and every tool call once, at the
  place of its first event and as its last event left it; the files in order; the last plan, error,
  progress and usage; the text of all tokens; and what of this still changes once the run is over.
*/
module ViewProperties {
  import opened Options
  import opened Text
  import opened EvEvents

  // --- one entry per key -------------------------------------------------------------------

  predicate IsFirst<T>(items: seq<T>, i: nat, key: T -> string) {
    i < |items| && forall j | 0 <= j < i :: key(items[j]) != key(items[i])
  }

  predicate IsLast<T>(items: seq<T>, i: nat, l: nat, key: T -> string) {
    && i < |items| && l < |items| && key(items[l]) == key(items[i])
    && forall j | l < j < |items| :: key(items[j]) != key(items[i])
  }

  /** How many different keys the first `n` items have. */
  function Keys<T>(items: seq<T>, n: nat, key: T -> string): nat
    requires n <= |items|
  {
    if n == 0 then 0 else Keys(items, n - 1, key) + if IsFirst(items, n - 1, key) then 1 else 0
  }

  /** One entry for each key, in the order in which the keys came up, and as the last item with that key left it. */
  ghost predicate LatestByKey<T>(list: seq<T>, items: seq<T>, key: T -> string) {
    && |list| == Keys(items, |items|, key)
    && forall i: nat, l: nat | IsFirst(items, i, key) && IsLast(items, i, l, key) ::
         Keys(items, i, key) < |list| && list[Keys(items, i, key)] == items[l]
  }

  lemma {:induction false} KeysGrow<T>(items: seq<T>, i: nat, n: nat, key: T -> string)
    requires i < n <= |items|
    ensures Keys(items, i, key) <= Keys(items, n, key)
    ensures IsFirst(items, i, key) ==> Keys(items, i, key) < Keys(items, n, key)
  {
    if i + 1 < n { KeysGrow(items, i, n - 1, key); }
  }

  lemma {:induction false} KeysStay<T>(items: seq<T>, item: T, n: nat, key: T -> string)
    requires n <= |items|
    ensures Keys(items + [item], n, key) == Keys(items, n, key)
  {
    if n > 0 {
      KeysStay(items, item, n - 1, key);
      FirstStays(items, item, n - 1, key);
    }
  }

  lemma {:induction false} FirstStays<T>(items: seq<T>, item: T, i: nat, key: T -> string)
    requires i < |items|
    ensures IsFirst(items + [item], i, key) <==> IsFirst(items, i, key)
  {
    assert forall j | 0 <= j <= i :: (items + [item])[j] == items[j];
  }

  /** The item that brought up the `p`-th key. */
  lemma {:induction false} FirstOf<T>(items: seq<T>, n: nat, p: nat, key: T -> string) returns (i: nat)
    requires n <= |items| && p < Keys(items, n, key)
    ensures i < n && IsFirst(items, i, key) && Keys(items, i, key) == p
  {
    if IsFirst(items, n - 1, key) && p == Keys(items, n - 1, key) { i := n - 1; } else { i := FirstOf(items, n - 1, p, key); }
  }

  /** The first and the last item with the key of item `k`. */
  lemma {:induction false} FirstWith<T>(items: seq<T>, k: nat, key: T -> string) returns (i: nat)
    requires k < |items|
    ensures i <= k && IsFirst(items, i, key) && key(items[i]) == key(items[k])
  {
    if j: nat :| j < k && key(items[j]) == key(items[k]) { i := FirstWith(items, j, key); } else { i := k; }
  }

  lemma {:induction false} LastWith<T>(items: seq<T>, k: nat, key: T -> string) returns (l: nat)
    requires k < |items|
    ensures k <= l && IsLast(items, k, l, key)
    decreases |items| - k
  {
    if j: nat :| k < j < |items| && key(items[j]) == key(items[k]) { l := LastWith(items, j, key); } else { l := k; }
  }

  lemma {:induction false} EntryIs<T>(list: seq<T>, items: seq<T>, p: nat, key: T -> string) returns (i: nat)
    requires LatestByKey(list, items, key) && p < |list|
    ensures IsFirst(items, i, key) && Keys(items, i, key) == p && key(list[p]) == key(items[i])
  {
    i := FirstOf(items, |items|, p, key);
    var l := LastWith(items, i, key);
  }

  lemma {:induction false} UpsertReplaces<T>(list: seq<T>, item: T, p: nat, key: T -> string)
    requires p < |list| && key(list[p]) == key(item) && forall q | 0 <= q < p :: key(list[q]) != key(item)
    ensures Upsert(list, item, key) == list[p := item]
  {
    if p > 0 {
      UpsertReplaces(list[1..], item, p - 1, key);
      assert list[p := item] == [list[0]] + list[1..][p - 1 := item];
    }
  }

  lemma {:induction false} UpsertAppends<T>(list: seq<T>, item: T, key: T -> string)
    requires forall q | 0 <= q < |list| :: key(list[q]) != key(item)
    ensures Upsert(list, item, key) == list + [item]
  {
    if list != [] {
      UpsertAppends(list[1..], item, key);
      assert list + [item] == [list[0]] + (list[1..] + [item]);
    }
  }

  /** An item with a new key goes behind all others. */
  lemma {:induction false} NewKeyGoesLast<T>(list: seq<T>, items: seq<T>, item: T, key: T -> string)
    requires LatestByKey(list, items, key) && forall j | 0 <= j < |items| :: key(items[j]) != key(item)
    ensures LatestByKey(Upsert(list, item, key), items + [item], key)
  {
    var more := items + [item];
    forall q | 0 <= q < |list| ensures key(list[q]) != key(item) { var i := EntryIs(list, items, q, key); }
    UpsertAppends(list, item, key);
    assert IsFirst(more, |items|, key);
    KeysStay(items, item, |items|, key);
    forall i: nat, l: nat | IsFirst(more, i, key) && IsLast(more, i, l, key)
      ensures Keys(more, i, key) < |list| + 1 && (list + [item])[Keys(more, i, key)] == more[l]
    {
      KeysStay(items, item, i, key);
      if i < |items| {
        FirstStays(items, item, i, key);
        LastStays(items, item, i, l, key);
      }
    }
  }

  lemma {:induction false} LastStays<T>(items: seq<T>, item: T, i: nat, l: nat, key: T -> string)
    requires i < |items| && key(items[i]) != key(item) && IsLast(items + [item], i, l, key)
    ensures IsLast(items, i, l, key)
  {
    assert (items + [item])[|items|] == item;
    assert forall j | 0 <= j < |items| :: (items + [item])[j] == items[j];
  }

  /** An item with a known key replaces the entry of that key. */
  lemma {:induction false} KnownKeyIsReplaced<T>(list: seq<T>, items: seq<T>, item: T, k: nat, key: T -> string)
    requires LatestByKey(list, items, key) && IsFirst(items, k, key) && key(items[k]) == key(item)
    ensures LatestByKey(Upsert(list, item, key), items + [item], key)
  {
    var more, p := items + [item], Keys(items, k, key);
    KeysGrow(items, k, |items|, key);
    var kl := LastWith(items, k, key);
    forall q | 0 <= q < p ensures key(list[q]) != key(item) {
      var i := EntryIs(list, items, q, key);
      DifferentKeys(items, i, k, key);
    }
    UpsertReplaces(list, item, p, key);
    KeysStay(items, item, |items|, key);
    assert more[k] == items[k] && !IsFirst(more, |items|, key);
    forall i: nat, l: nat | IsFirst(more, i, key) && IsLast(more, i, l, key)
      ensures Keys(more, i, key) < |list| && list[p := item][Keys(more, i, key)] == more[l]
    {
      assert i < |items|;
      KeysStay(items, item, i, key);
      FirstStays(items, item, i, key);
      if key(items[i]) == key(item) {
        SameFirst(items, i, k, key);
        assert more[|items|] == item;
      } else {
        LastStays(items, item, i, l, key);
        DifferentPlaces(items, i, k, key);
      }
    }
  }

  lemma {:induction false} SameFirst<T>(items: seq<T>, i: nat, k: nat, key: T -> string)
    requires IsFirst(items, i, key) && IsFirst(items, k, key) && key(items[i]) == key(items[k])
    ensures i == k
  {}

  lemma {:induction false} DifferentKeys<T>(items: seq<T>, i: nat, k: nat, key: T -> string)
    requires IsFirst(items, i, key) && IsFirst(items, k, key) && Keys(items, i, key) != Keys(items, k, key)
    ensures key(items[i]) != key(items[k])
  {}

  lemma {:induction false} DifferentPlaces<T>(items: seq<T>, i: nat, k: nat, key: T -> string)
    requires IsFirst(items, i, key) && IsFirst(items, k, key) && i != k
    ensures Keys(items, i, key) != Keys(items, k, key)
  {
    if i < k { KeysGrow(items, i, k, key); } else { KeysGrow(items, k, i, key); }
  }

  lemma {:induction false} UpsertKeepsLatest<T>(list: seq<T>, items: seq<T>, item: T, key: T -> string)
    requires LatestByKey(list, items, key)
    ensures LatestByKey(Upsert(list, item, key), items + [item], key)
  {
    if k: nat :| k < |items| && key(items[k]) == key(item) {
      var i := FirstWith(items, k, key);
      KnownKeyIsReplaced(list, items, item, i, key);
    } else {
      NewKeyGoesLast(list, items, item, key);
    }
  }

  // --- what the events say -----------------------------------------------------------------

  function StepViews(es: seq<Event>): seq<StepView> {
    if es == [] then []
    else
      var e := es[|es|-1];
      StepViews(es[..|es|-1]) + if e.Step? then [StepView(e.stepId, e.caption, e.status)] else []
  }

  function ToolViews(es: seq<Event>): seq<ToolView> {
    if es == [] then []
    else
      var e := es[|es|-1];
      ToolViews(es[..|es|-1])
      + if e.ToolCall? then [ToolView(e.callId, e.toolName, e.status, if e.summary == Some("") then None else e.summary)] else []
  }

  function FileViews(es: seq<Event>): seq<FileView> {
    if es == [] then []
    else
      var e := es[|es|-1];
      FileViews(es[..|es|-1])
      + if e.FileMutation? then [FileView(e.op, e.path, if e.previousPath == Some("") then None else e.previousPath)] else []
  }

  /** The text of all tokens. */
  function Texts(es: seq<Event>): string {
    if es == [] then "" else Texts(es[..|es|-1]) + if es[|es|-1].Token? then es[|es|-1].delta else ""
  }

  datatype Topic = Plans | Errors | Captions | Usages

  predicate About(e: Event, topic: Topic) {
    match topic
    case Plans => e.Plan?
    case Errors => e.Error?
    case Captions => e.Progress?
    case Usages => e.Metrics?
  }

  /** Event `i` is the last one on the topic. */
  predicate LastAbout(es: seq<Event>, i: nat, topic: Topic) {
    i < |es| && About(es[i], topic) && forall j | i < j < |es| :: !About(es[j], topic)
  }

  /** The board shows what `e` says on the topic. */
  predicate ShowsIt(b: Board, e: Event, topic: Topic)
    requires About(e, topic)
  {
    match topic
    case Plans => b.todos == e.todos
    case Errors => b.error == Some(ErrorView(e.message, e.recovery))
    case Captions => b.progress == Some((e.caption, e.ratio))
    case Usages => b.usage == Some(e.usage)
  }

  predicate ShowsNothing(b: Board, topic: Topic) {
    match topic
    case Plans => b.todos == []
    case Errors => b.error.None?
    case Captions => b.progress.None?
    case Usages => b.usage.None?
  }

  /** On every topic: the last event, or nothing if there is none. */
  ghost predicate TellsLast(b: Board, es: seq<Event>) {
    && (forall i: nat, topic: Topic | LastAbout(es, i, topic) :: ShowsIt(b, es[i], topic))
    && (forall topic: Topic | forall e <- es :: !About(e, topic) :: ShowsNothing(b, topic))
  }

  ghost predicate BoardTells(b: Board, es: seq<Event>) {
    && LatestByKey(b.steps, StepViews(es), StepKey)
    && LatestByKey(b.tools, ToolViews(es), ToolKey)
    && b.files == FileViews(es) && TellsLast(b, es)
  }

  lemma {:induction false} Snoc(es: seq<Event>, e: Event)
    ensures (es + [e])[..|es|] == es && (es + [e])[|es|] == e
    ensures forall x :: x in es + [e] <==> x in es || x == e
  {}

  lemma {:induction false} LastAboutNext(es: seq<Event>, e: Event, i: nat, topic: Topic)
    requires LastAbout(es + [e], i, topic)
    ensures if About(e, topic) then i == |es| else LastAbout(es, i, topic)
  {
    Snoc(es, e);
    assert forall j | 0 <= j < |es| :: (es + [e])[j] == es[j];
  }

  lemma {:induction false} ShowIsAbout(b: Board, e: Event, topic: Topic)
    requires !e.Terminal?
    ensures if About(e, topic) then ShowsIt(Show(b, e), e, topic)
            else forall x | About(x, topic) :: ShowsIt(Show(b, e), x, topic) <==> ShowsIt(b, x, topic)
    ensures !About(e, topic) ==> (ShowsNothing(Show(b, e), topic) <==> ShowsNothing(b, topic))
  {}

  lemma {:induction false} OneMoreLast(b: Board, es: seq<Event>, e: Event)
    requires TellsLast(b, es) && !e.Terminal?
    ensures TellsLast(Show(b, e), es + [e])
  {
    Snoc(es, e);
    forall i: nat, topic: Topic | LastAbout(es + [e], i, topic) ensures ShowsIt(Show(b, e), (es + [e])[i], topic) {
      LastAboutNext(es, e, i, topic);
      ShowIsAbout(b, e, topic);
    }
    forall topic: Topic | forall x <- es + [e] :: !About(x, topic) ensures ShowsNothing(Show(b, e), topic) {
      assert e in es + [e] && forall x <- es :: x in es + [e];
      ShowIsAbout(b, e, topic);
    }
  }

  lemma {:induction false} OneMoreRow(b: Board, es: seq<Event>, e: Event)
    requires LatestByKey(b.steps, StepViews(es), StepKey) && LatestByKey(b.tools, ToolViews(es), ToolKey)
    requires b.files == FileViews(es) && !e.Terminal?
    ensures var c, more := Show(b, e), es + [e];
      LatestByKey(c.steps, StepViews(more), StepKey) && LatestByKey(c.tools, ToolViews(more), ToolKey) && c.files == FileViews(more)
  {
    Snoc(es, e);
    NothingMore(StepViews(es), ToolViews(es), FileViews(es));
    if e.Step? { UpsertKeepsLatest(b.steps, StepViews(es), StepView(e.stepId, e.caption, e.status), StepKey); }
    if e.ToolCall? {
      UpsertKeepsLatest(b.tools, ToolViews(es), ToolView(e.callId, e.toolName, e.status, Truthy(e.summary)), ToolKey);
    }
  }

  lemma {:induction false} NothingMore(steps: seq<StepView>, tools: seq<ToolView>, files: seq<FileView>)
    ensures steps + [] == steps && tools + [] == tools && files + [] == files
  {}

  lemma {:induction false} LiveReduce(v: View, e: Event)
    requires v.terminal.None? && !e.Terminal? && e.no > v.lastSeq
    ensures var w := Reduce(v, e);
      && w.board == Show(v.board, e) && w.terminal.None? && w.status == Live && w.lastSeq == e.no
      && w.text == v.text + if e.Token? then e.delta else ""
  {
    assert v.text + "" == v.text;
  }

  lemma {:induction false} BoardNext(b: Board, es: seq<Event>, e: Event)
    requires BoardTells(b, es) && !e.Terminal?
    ensures BoardTells(Show(b, e), es + [e])
  {
    OneMoreRow(b, es, e);
    OneMoreLast(b, es, e);
  }

  /**
    While a run is live its view shows exactly what its events said: one entry per step and per
    tool call, the files, the last plan, error, progress and usage, and the text of all tokens.
  */
  lemma {:induction false} LiveViewTells(es: seq<Event>)
    requires Ascending(es) && Above(es, 0) && forall e <- es :: !e.Terminal?
    ensures var v := Fold(InitialView(), es);
      && BoardTells(v.board, es) && v.text == Texts(es) && v.terminal.None?
      && v.status == (if es == [] then Idle else Live) && v.lastSeq == (if es == [] then 0 else es[|es|-1].no)
  {
    if es == [] {
      assert StepViews(es) == [] && ToolViews(es) == [];
    } else {
      var init, e := es[..|es|-1], es[|es|-1];
      LiveViewTells(init);
      assert es == init + [e] && e in es && e.no > 0;
      assert init != [] ==> init[|init|-1] == es[|es|-2];
      LiveReduce(Fold(InitialView(), init), e);
      BoardNext(Fold(InitialView(), init).board, init, e);
    }
  }

  lemma {:induction false} LateReduce(v: View, e: Event)
    requires v.terminal.Some? && e.no > v.lastSeq
    ensures var w := Reduce(v, e);
      && w.terminal == v.terminal && w.status == v.status && w.board == v.board && w.lastSeq == e.no
      && w.text == v.text + if Trim(v.text) == "" && e.Token? then e.delta else ""
  {
    assert v.text + "" == v.text;
  }

  /** `text` is `before` and the tokens of the first `k` events: as many as it took to be no longer blank. */
  ghost predicate GrownTo(text: string, before: string, rest: seq<Event>, k: nat) {
    && k <= |rest| && text == before + Texts(rest[..k]) && (k < |rest| ==> Trim(text) != "")
    && forall j | 0 <= j < k :: Trim(before + Texts(rest[..j])) == ""
  }

  lemma {:induction false} PrefixOfInit(rest: seq<Event>, e: Event, k: nat)
    requires k <= |rest|
    ensures (rest + [e])[..k] == rest[..k]
  {}

  lemma {:induction false} GrowsOn(text: string, before: string, rest: seq<Event>, e: Event, k: nat)
    requires GrownTo(text, before, rest, k) && Trim(text) == ""
    ensures GrownTo(text + if e.Token? then e.delta else "", before, rest + [e], |rest| + 1)
  {
    var more := rest + [e];
    assert k == |rest| && rest[..k] == rest && more[..|rest|+1] == more;
    OneMoreText(before, rest, e);
    forall j | 0 <= j < |rest| + 1 ensures Trim(before + Texts(more[..j])) == "" { PrefixOfInit(rest, e, j); }
  }

  lemma {:induction false} GrowsNoMore(text: string, before: string, rest: seq<Event>, e: Event, k: nat)
    requires GrownTo(text, before, rest, k) && Trim(text) != ""
    ensures GrownTo(text, before, rest + [e], k)
  {
    forall j | 0 <= j <= k ensures (rest + [e])[..j] == rest[..j] { PrefixOfInit(rest, e, j); }
  }

  lemma {:induction false} OneMoreText(before: string, es: seq<Event>, e: Event)
    ensures before + Texts(es + [e]) == before + Texts(es) + if e.Token? then e.delta else ""
  {
    Snoc(es, e);
    Regroup(before, Texts(es), if e.Token? then e.delta else "");
  }

  lemma {:induction false} Regroup(a: string, b: string, c: string)
    ensures a + (b + c) == a + b + c
  {}

  /** After the end tokens still add text as long as it is blank. */
  lemma {:induction false} LateTokens(v: View, rest: seq<Event>) returns (k: nat)
    requires v.terminal.Some? && Ascending(rest) && Above(rest, v.lastSeq)
    ensures GrownTo(Fold(v, rest).text, v.text, rest, k)
    ensures Fold(v, rest).lastSeq == (if rest == [] then v.lastSeq else rest[|rest|-1].no)
  {
    if rest == [] {
      k := 0;
      assert v.text + "" == v.text;
    } else {
      var init, e := rest[..|rest|-1], rest[|rest|-1];
      assert rest == init + [e];
      AscendingParts(init, [e], v.lastSeq);
      assert e in [e];
      k := LateTokens(v, init);
      TerminalSticks(v, init);
      var w := Fold(v, init);
      LateReduce(w, e);
      if Trim(w.text) == "" {
        GrowsOn(w.text, v.text, init, e, k);
        k := |rest|;
      } else {
        GrowsNoMore(w.text, v.text, init, e, k);
        assert w.text + "" == w.text;
      }
    }
  }

  lemma {:induction false} AscendingParts(a: seq<Event>, b: seq<Event>, n: int)
    requires Ascending(a + b) && Above(a + b, n)
    ensures Ascending(a) && Above(a, n) && Ascending(b) && Above(b, if a == [] then n else a[|a|-1].no)
  {
    var all := a + b;
    forall i, j | 0 <= i < j < |a| ensures a[i].no < a[j].no { assert all[i].no < all[j].no; }
    forall i, j | 0 <= i < j < |b| ensures b[i].no < b[j].no { assert all[|a|+i].no < all[|a|+j].no; }
    forall e | e in a ensures e.no > n { assert e in all; }
    forall e | e in b ensures e.no > if a == [] then n else a[|a|-1].no {
      var i :| 0 <= i < |b| && b[i] == e;
      assert all[|a|+i] == e && e in all;
      if a != [] { assert all[|a|-1].no < all[|a|+i].no; }
    }
  }

  /**
    Once a run is over its view keeps what it showed then, apart from the progress, which goes, and
    shows how the run ended: the first terminal, whatever comes later. Only the text may still
    grow, by the tokens of the first `k` later events, and only while it is blank.
  */
  lemma {:induction false} OverViewTells(es: seq<Event>, t: Event, rest: seq<Event>) returns (k: nat)
    requires Ascending(es + [t] + rest) && Above(es + [t] + rest, 0)
    requires t.Terminal? && forall e <- es :: !e.Terminal?
    ensures var before, v := Fold(InitialView(), es), Fold(InitialView(), es + [t] + rest);
      && v.board == before.board.(progress := None) && v.status == Over(t.state) && v.terminal == Some(t.state)
      && GrownTo(v.text, Texts(es), rest, k)
  {
    AscendingParts(es + [t], rest, 0);
    EndOfRun(es, t);
    FoldSplit(InitialView(), es + [t], rest);
    var v := Fold(InitialView(), es + [t]);
    assert (es + [t])[|es|] == t;
    k := LateTokens(v, rest);
    TerminalSticks(v, rest);
  }

  lemma {:induction false} EndOfRun(es: seq<Event>, t: Event)
    requires Ascending(es + [t]) && Above(es + [t], 0)
    requires t.Terminal? && forall e <- es :: !e.Terminal?
    ensures var before, w := Fold(InitialView(), es), Fold(InitialView(), es + [t]);
      && w.board == before.board.(progress := None) && w.status == Over(t.state) && w.terminal == Some(t.state)
      && w.text == Texts(es) && w.lastSeq == t.no
  {
    AscendingParts(es, [t], 0);
    assert t in [t];
    LiveViewTells(es);
    FoldNext(InitialView(), es, t);
    EndsRun(Fold(InitialView(), es), t);
  }

  lemma {:induction false} EndsRun(v: View, t: Event)
    requires v.terminal.None? && t.Terminal? && t.no > v.lastSeq
    ensures var w := Reduce(v, t);
      && w.board == v.board.(progress := None) && w.status == Over(t.state) && w.terminal == Some(t.state)
      && w.text == v.text && w.lastSeq == t.no
  {}
}
