/**
  Merging delivered EV events into the list the activity timeline is built from, keyed by
  sequence number.
*/
module EventMerge {
  import opened Options
  import opened EvEvents

  // --- what a merge is ---------------------------------------------------------------------

  function FirstWith(es: seq<Event>, n: int): Option<Event> {
    if es == [] then None else if es[0].no == n then Some(es[0]) else FirstWith(es[1..], n)
  }

  function LastWith(es: seq<Event>, n: int): Option<Event> {
    if es == [] then None else if es[|es|-1].no == n then Some(es[|es|-1]) else LastWith(es[..|es|-1], n)
  }

  /** What is already there stays; among the incoming events the first delivered wins. */
  function Chosen(existing: seq<Event>, incoming: seq<Event>, n: int): Option<Event> {
    if LastWith(existing, n).Some? then LastWith(existing, n) else FirstWith(incoming, n)
  }

  /** Strictly ascending, and for every number exactly the event chosen for it. */
  ghost predicate IsMerge(existing: seq<Event>, incoming: seq<Event>, merged: seq<Event>) {
    Ascending(merged) && forall e :: e in merged <==> Chosen(existing, incoming, e.no) == Some(e)
  }

  lemma {:induction false} FirstWithIs(es: seq<Event>, n: int)
    ensures FirstWith(es, n).Some? ==> FirstWith(es, n).value in es && FirstWith(es, n).value.no == n
    ensures FirstWith(es, n).None? <==> forall e <- es :: e.no != n
  {
    if es != [] {
      FirstWithIs(es[1..], n);
      assert es == [es[0]] + es[1..];
    }
  }

  lemma {:induction false} LastWithIs(es: seq<Event>, n: int)
    ensures LastWith(es, n).Some? ==> LastWith(es, n).value in es && LastWith(es, n).value.no == n
    ensures LastWith(es, n).None? <==> forall e <- es :: e.no != n
  {
    if es != [] {
      LastWithIs(es[..|es|-1], n);
      assert es == es[..|es|-1] + [es[|es|-1]];
    }
  }

  lemma {:induction false} FirstWithConcat(a: seq<Event>, b: seq<Event>, n: int)
    ensures FirstWith(a + b, n) == (if FirstWith(a, n).Some? then FirstWith(a, n) else FirstWith(b, n))
  {
    if a == [] {
      assert a + b == b;
    } else {
      FirstWithConcat(a[1..], b, n);
      assert (a + b)[1..] == a[1..] + b;
    }
  }

  lemma {:induction false} SameNumberSameEvent(es: seq<Event>, x: Event, y: Event)
    requires Ascending(es) && x in es && y in es && x.no == y.no
    ensures x == y
  {
    var i :| 0 <= i < |es| && es[i] == x;
    var j :| 0 <= j < |es| && es[j] == y;
  }

  lemma {:induction false} EmptyOrInhabited(es: seq<Event>)
    ensures es == [] || exists e :: e in es
  {
    if es != [] { assert es[0] in es; }
  }

  lemma {:induction false} HeadIsLeast(es: seq<Event>, e: Event)
    requires Ascending(es) && e in es
    ensures es[0].no <= e.no
  {
    var i :| 0 <= i < |es| && es[i] == e;
  }

  /** In an ascending list the event with a number is the only one. */
  lemma {:induction false} AscendingHolds(es: seq<Event>, e: Event)
    requires Ascending(es)
    ensures LastWith(es, e.no) == Some(e) <==> e in es
  {
    LastWithIs(es, e.no);
    if e in es {
      SameNumberSameEvent(es, LastWith(es, e.no).value, e);
    }
  }

  /** Two ascending lists with the same events are the same list. */
  lemma {:induction false} AscendingIsUnique(a: seq<Event>, b: seq<Event>)
    requires Ascending(a) && Ascending(b) && forall e :: e in a <==> e in b
    ensures a == b
    decreases |a|
  {
    if a == [] {
      EmptyOrInhabited(b);
    } else {
      assert a[0] in a && a[0] in b;
      assert b[0] in b && b[0] in a;
      HeadIsLeast(a, b[0]);
      HeadIsLeast(b, a[0]);
      SameNumberSameEvent(a, a[0], b[0]);
      assert a[0] == b[0];
      assert a == [a[0]] + a[1..] && b == [b[0]] + b[1..];
      forall e ensures e in a[1..] <==> e in b[1..] {
        if e in a[1..] { TailIsAbove(a, e); }
        if e in b[1..] { TailIsAbove(b, e); }
      }
      AscendingIsUnique(a[1..], b[1..]);
    }
  }

  lemma {:induction false} TailIsAbove(a: seq<Event>, e: Event)
    requires a != [] && Ascending(a) && e in a[1..]
    ensures e in a && e.no > a[0].no && e != a[0]
  {
    var i :| 0 <= i < |a| - 1 && a[1..][i] == e;
    assert a[i+1] == e;
  }

  /** A merge is determined by what went into it. */
  lemma {:induction false} MergeIsUnique(existing: seq<Event>, incoming: seq<Event>, m1: seq<Event>, m2: seq<Event>)
    requires IsMerge(existing, incoming, m1) && IsMerge(existing, incoming, m2)
    ensures m1 == m2
  {
    AscendingIsUnique(m1, m2);
  }

  /** Merging a batch is merging its events one batch after the other. */
  lemma {:induction false} MergeInBatches(existing: seq<Event>, a: seq<Event>, b: seq<Event>, m1: seq<Event>, m2: seq<Event>)
    requires IsMerge(existing, a, m1) && IsMerge(m1, b, m2)
    ensures IsMerge(existing, a + b, m2)
  {
    forall e ensures e in m2 <==> Chosen(existing, a + b, e.no) == Some(e) {
      var n := e.no;
      FirstWithConcat(a, b, n);
      LastWithIs(m1, n);
      LastWithIs(existing, n);
      FirstWithIs(a, n);
      var c := Chosen(existing, a, n);
      if c.Some? {
        assert c.value.no == n && c.value in m1;
        AscendingHolds(m1, c.value);
      } else {
        assert forall x <- m1 :: x.no != n;
      }
    }
  }

  /** Delivering again what the list already has changes nothing. */
  lemma {:induction false} RedeliveryIsHarmless(merged: seq<Event>, again: seq<Event>)
    requires Ascending(merged) && forall e <- again :: exists x <- merged :: x.no == e.no
    ensures IsMerge(merged, again, merged)
  {
    forall e ensures e in merged <==> Chosen(merged, again, e.no) == Some(e) {
      AscendingHolds(merged, e);
      LastWithIs(merged, e.no);
      FirstWithIs(again, e.no);
    }
  }

  /** An event newer than all others goes to the end. */
  lemma {:induction false} NewestGoesLast(merged: seq<Event>, e: Event)
    requires Ascending(merged) && forall x <- merged :: x.no < e.no
    ensures IsMerge(merged, [e], merged + [e])
  {
    forall x ensures x in merged + [e] <==> Chosen(merged, [e], x.no) == Some(x) {
      AscendingHolds(merged, x);
      LastWithIs(merged, x.no);
      assert FirstWith([e], x.no) == (if e.no == x.no then Some(e) else None) by { assert [e][1..] == []; }
    }
  }

  // --- the algorithm -----------------------------------------------------------------------

  function InsertByNo(e: Event, sorted: seq<Event>): seq<Event> {
    if sorted == [] then [e]
    else if e.no < sorted[0].no then [e] + sorted
    else [sorted[0]] + InsertByNo(e, sorted[1..])
  }

  function SortByNo(es: seq<Event>): seq<Event> {
    if es == [] then [] else InsertByNo(es[|es|-1], SortByNo(es[..|es|-1]))
  }

  lemma {:induction false} InsertKeepsAscending(e: Event, sorted: seq<Event>)
    requires Ascending(sorted) && forall x <- sorted :: x.no != e.no
    ensures Ascending(InsertByNo(e, sorted))
    ensures forall x :: x in InsertByNo(e, sorted) <==> x == e || x in sorted
  {
    if sorted != [] && e.no >= sorted[0].no {
      assert sorted == [sorted[0]] + sorted[1..];
      InsertKeepsAscending(e, sorted[1..]);
      var rest := InsertByNo(e, sorted[1..]);
      forall x | x in rest ensures x.no > sorted[0].no {
        if x != e { TailIsAbove(sorted, x); }
      }
    }
  }

  lemma {:induction false} SortSorts(es: seq<Event>)
    requires forall i, j | 0 <= i < j < |es| :: es[i].no != es[j].no
    ensures Ascending(SortByNo(es)) && forall x :: x in SortByNo(es) <==> x in es
  {
    if es != [] {
      var init, e := es[..|es|-1], es[|es|-1];
      SortSorts(init);
      assert es == init + [e];
      InsertKeepsAscending(e, SortByNo(init));
    }
  }

  /** A Map: distinct keys in insertion order, each bound to an event with that number. */
  ghost predicate MapOk(keys: seq<int>, bySeq: map<int, Event>) {
    && (forall i, j | 0 <= i < j < |keys| :: keys[i] != keys[j])
    && (forall n :: n in keys <==> n in bySeq)
    && (forall n <- bySeq :: bySeq[n].no == n)
  }

  lemma {:induction false} KeysAreBound(keys: seq<int>, bySeq: map<int, Event>)
    requires MapOk(keys, bySeq)
    ensures forall i | 0 <= i < |keys| :: keys[i] in bySeq
  {
    forall i | 0 <= i < |keys| ensures keys[i] in bySeq {
      var n := keys[i];
      assert n in keys;
    }
  }

  /** The values of a Map in insertion order. */
  function Values(keys: seq<int>, bySeq: map<int, Event>): (es: seq<Event>)
    requires MapOk(keys, bySeq)
    ensures |es| == |keys|
    ensures forall i {:trigger keys[i]} {:trigger es[i]} | 0 <= i < |keys| :: keys[i] in bySeq && es[i] == bySeq[keys[i]]
  {
    KeysAreBound(keys, bySeq);
    ValuesOf(keys, bySeq)
  }

  function ValuesOf(keys: seq<int>, bySeq: map<int, Event>): (es: seq<Event>)
    requires forall i | 0 <= i < |keys| :: keys[i] in bySeq
    ensures |es| == |keys| && forall i {:trigger es[i]} | 0 <= i < |keys| :: es[i] == bySeq[keys[i]]
  {
    if keys == [] then [] else ValuesOf(keys[..|keys|-1], bySeq) + [bySeq[keys[|keys|-1]]]
  }

  /** The Map holds the chosen event for every number. */
  ghost predicate Holds(bySeq: map<int, Event>, existing: seq<Event>, incoming: seq<Event>) {
    forall n: int :: Chosen(existing, incoming, n) == (if n in bySeq then Some(bySeq[n]) else None)
  }

  /** `bySeq.set(event.seq, event)`. */
  method Put(keys: seq<int>, bySeq: map<int, Event>, e: Event) returns (keys': seq<int>, bySeq': map<int, Event>)
    requires MapOk(keys, bySeq)
    ensures MapOk(keys', bySeq') && bySeq' == bySeq[e.no := e]
  {
    keys' := if e.no in bySeq then keys else keys + [e.no];
    bySeq' := bySeq[e.no := e];
  }

  method MergeEvEvents(existing: seq<Event>, incoming: seq<Event>) returns (merged: seq<Event>)
    ensures IsMerge(existing, incoming, merged)
  {
    var keys: seq<int>, bySeq: map<int, Event> := [], map[];
    var maxSeq := 0;
    for i := 0 to |existing|
      invariant MapOk(keys, bySeq) && Holds(bySeq, existing[..i], [])
    {
      assert existing[..i+1][..i] == existing[..i];
      keys, bySeq := Put(keys, bySeq, existing[i]);
    }
    assert existing[..|existing|] == existing;
    for i := 0 to |existing|
      invariant forall e <- existing[..i] :: e.no <= maxSeq
    {
      maxSeq := if existing[i].no > maxSeq then existing[i].no else maxSeq;
    }
    KeysAreBelow(existing, bySeq, maxSeq);
    for i := 0 to |incoming|
      invariant MapOk(keys, bySeq) && Holds(bySeq, existing, incoming[..i])
      invariant forall n <- bySeq :: n <= maxSeq
    {
      var e := incoming[i];
      OneMoreIncoming(bySeq, existing, incoming[..i], e);
      assert incoming[..i+1] == incoming[..i] + [e];
      if !(e.no <= maxSeq && e.no in bySeq) {
        if e.no > maxSeq { maxSeq := e.no; }
        keys, bySeq := Put(keys, bySeq, e);
      }
    }
    assert incoming[..|incoming|] == incoming;
    var values := Values(keys, bySeq);
    SortSorts(values);
    merged := SortByNo(values);
    ValuesAreChosen(keys, bySeq, existing, incoming);
  }

  lemma {:induction false} KeysAreBelow(existing: seq<Event>, bySeq: map<int, Event>, maxSeq: int)
    requires Holds(bySeq, existing, []) && forall e <- existing :: e.no <= maxSeq
    ensures forall n <- bySeq :: n <= maxSeq
  {
    forall n | n in bySeq ensures n <= maxSeq {
      assert Chosen(existing, [], n) == Some(bySeq[n]);
      LastWithIs(existing, n);
    }
  }

  lemma {:induction false} OneMoreIncoming(bySeq: map<int, Event>, existing: seq<Event>, incoming: seq<Event>, e: Event)
    requires Holds(bySeq, existing, incoming)
    ensures Holds(if e.no in bySeq then bySeq else bySeq[e.no := e], existing, incoming + [e])
  {
    var after := if e.no in bySeq then bySeq else bySeq[e.no := e];
    forall n: int
      ensures Chosen(existing, incoming + [e], n) == (if n in after then Some(after[n]) else None)
    {
      FirstWithConcat(incoming, [e], n);
      assert FirstWith([e], n) == (if e.no == n then Some(e) else None) by { assert [e][1..] == []; }
    }
  }

  lemma {:induction false} ValuesAreChosen(keys: seq<int>, bySeq: map<int, Event>, existing: seq<Event>, incoming: seq<Event>)
    requires MapOk(keys, bySeq) && Holds(bySeq, existing, incoming)
    ensures forall e :: e in Values(keys, bySeq) <==> Chosen(existing, incoming, e.no) == Some(e)
  {
    var values := Values(keys, bySeq);
    forall e ensures e in values <==> Chosen(existing, incoming, e.no) == Some(e) {
      if e in values {
        var i :| 0 <= i < |values| && values[i] == e;
        assert keys[i] in keys;
      }
      if Chosen(existing, incoming, e.no) == Some(e) {
        var i :| 0 <= i < |keys| && keys[i] == e.no;
        assert values[i] == e;
      }
    }
  }
}
