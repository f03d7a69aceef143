// What a stable sort by a total preorder is, and that there is only one result it can have.
module StableSorting {
  ghost predicate IsTotalPreorder<T(!new)>(leq: (T, T) -> bool) {
    && (forall a, b :: leq(a, b) || leq(b, a))
    && (forall a, b, c :: leq(a, b) && leq(b, c) ==> leq(a, c))
  }

  predicate Tied<T>(a: T, b: T, leq: (T, T) -> bool) { leq(a, b) && leq(b, a) }

  predicate Sorted<T>(s: seq<T>, leq: (T, T) -> bool) {
    forall i, j | 0 <= i < j < |s| :: leq(s[i], s[j])
  }

  /** The elements of `s` that tie with `v`, in order. */
  function Ties<T>(s: seq<T>, v: T, leq: (T, T) -> bool): seq<T> {
    if s == [] then []
    else (if Tied(s[0], v, leq) then [s[0]] else []) + Ties(s[1..], v, leq)
  }

  /** `t` is sorted, and the elements that tie with each other are those of `s` in the same order. */
  ghost predicate IsStableSort<T(!new)>(s: seq<T>, t: seq<T>, leq: (T, T) -> bool) {
    Sorted(t, leq) && forall v :: Ties(t, v, leq) == Ties(s, v, leq)
  }

  function Insert<T>(x: T, s: seq<T>, leq: (T, T) -> bool): seq<T> {
    if s == [] || leq(x, s[0]) then [x] + s else [s[0]] + Insert(x, s[1..], leq)
  }

  function StableSort<T>(s: seq<T>, leq: (T, T) -> bool): seq<T> {
    if s == [] then [] else Insert(s[0], StableSort(s[1..], leq), leq)
  }

  lemma {:induction false} InsertKeepsElements<T>(x: T, s: seq<T>, leq: (T, T) -> bool)
    ensures multiset(Insert(x, s, leq)) == multiset{x} + multiset(s)
  {
    if s != [] && !leq(x, s[0]) {
      InsertKeepsElements(x, s[1..], leq);
      assert s == [s[0]] + s[1..];
    }
  }

  lemma {:induction false} SortKeepsElements<T>(s: seq<T>, leq: (T, T) -> bool)
    ensures multiset(StableSort(s, leq)) == multiset(s) && |StableSort(s, leq)| == |s|
  {
    if s != [] {
      SortKeepsElements(s[1..], leq);
      InsertKeepsElements(s[0], StableSort(s[1..], leq), leq);
      assert s == [s[0]] + s[1..];
      assert |multiset(StableSort(s, leq))| == |multiset(s)|;
    }
  }

  lemma {:induction false} InsertSorts<T(!new)>(x: T, s: seq<T>, leq: (T, T) -> bool)
    requires IsTotalPreorder(leq) && Sorted(s, leq)
    ensures Sorted(Insert(x, s, leq), leq)
  {
    var r := Insert(x, s, leq);
    if s != [] {
      if leq(x, s[0]) {
        forall j | 0 < j < |r| ensures leq(r[0], r[j]) {
          assert r[j] == s[j-1];
          if j > 1 { assert leq(s[0], s[j-1]); }
        }
      } else {
        InsertSorts(x, s[1..], leq);
        InsertKeepsElements(x, s[1..], leq);
        forall j | 0 < j < |r| ensures leq(r[0], r[j]) {
          assert r[j] in multiset(Insert(x, s[1..], leq));
          if r[j] != x { assert r[j] in s[1..]; }
        }
      }
    }
  }

  lemma {:induction false} InsertIsStable<T(!new)>(x: T, s: seq<T>, v: T, leq: (T, T) -> bool)
    requires IsTotalPreorder(leq)
    ensures Ties(Insert(x, s, leq), v, leq) == Ties([x] + s, v, leq)
  {
    assert ([x] + s)[1..] == s;
    if s != [] && !leq(x, s[0]) {
      var rest := Insert(x, s[1..], leq);
      InsertIsStable(x, s[1..], v, leq);
      assert ([s[0]] + rest)[1..] == rest && ([x] + s[1..])[1..] == s[1..];
      assert !(Tied(x, v, leq) && Tied(s[0], v, leq));
    }
  }

  lemma {:induction false} SortIsStable<T(!new)>(s: seq<T>, leq: (T, T) -> bool)
    requires IsTotalPreorder(leq)
    ensures IsStableSort(s, StableSort(s, leq), leq)
  {
    if s != [] {
      var t := StableSort(s[1..], leq);
      SortIsStable(s[1..], leq);
      InsertSorts(s[0], t, leq);
      forall v ensures Ties(StableSort(s, leq), v, leq) == Ties(s, v, leq) {
        InsertIsStable(s[0], t, v, leq);
        assert ([s[0]] + t)[1..] == t;
      }
    }
  }

  lemma {:induction false} TiesSound<T>(s: seq<T>, v: T, leq: (T, T) -> bool, k: nat)
    requires k < |Ties(s, v, leq)|
    ensures Ties(s, v, leq)[k] in s && Tied(Ties(s, v, leq)[k], v, leq)
  {
    if Tied(s[0], v, leq) {
      if k > 0 { TiesSound(s[1..], v, leq, k - 1); }
    } else {
      TiesSound(s[1..], v, leq, k);
    }
  }

  lemma {:induction false} TiesOfTail<T>(s: seq<T>, v: T, leq: (T, T) -> bool)
    requires s != []
    ensures Ties(s[1..], v, leq) == if Tied(s[0], v, leq) then Ties(s, v, leq)[1..] else Ties(s, v, leq)
  {}

  lemma {:induction false} NotEmpty<T(!new)>(s: seq<T>, t: seq<T>, leq: (T, T) -> bool)
    requires IsTotalPreorder(leq) && s != [] && forall v :: Ties(s, v, leq) == Ties(t, v, leq)
    ensures t != []
  {
    assert leq(s[0], s[0]);
    assert |Ties(s, s[0], leq)| > 0 && Ties(s, s[0], leq) == Ties(t, s[0], leq);
  }

  /** Whatever is sorted and stable is the result: nothing else of the sorting routine matters. */
  lemma {:induction false} StableSortIsUnique<T(!new)>(s: seq<T>, t: seq<T>, leq: (T, T) -> bool)
    requires IsTotalPreorder(leq) && Sorted(s, leq) && Sorted(t, leq)
    requires forall v :: Ties(s, v, leq) == Ties(t, v, leq)
    ensures s == t
  {
    if s != [] { NotEmpty(s, t, leq); }
    if t != [] { NotEmpty(t, s, leq); }
    if s != [] {
      HeadsTie(s, t, leq);
      HeadsTie(t, s, leq);
      assert Tied(s[0], s[0], leq) && Tied(t[0], s[0], leq);
      assert Ties(s, s[0], leq) == Ties(t, s[0], leq);
      assert Ties(s, s[0], leq)[0] == s[0] && Ties(t, s[0], leq)[0] == t[0];
      assert s[0] == t[0];
      forall v ensures Ties(s[1..], v, leq) == Ties(t[1..], v, leq) {
        TiesOfTail(s, v, leq);
        TiesOfTail(t, v, leq);
        assert Ties(s, v, leq) == Ties(t, v, leq);
      }
      StableSortIsUnique(s[1..], t[1..], leq);
    }
  }

  /** The least element of one list is at most the least of the other. */
  lemma {:induction false} HeadsTie<T(!new)>(s: seq<T>, t: seq<T>, leq: (T, T) -> bool)
    requires IsTotalPreorder(leq) && Sorted(s, leq) && s != [] && t != []
    requires forall v :: Ties(s, v, leq) == Ties(t, v, leq)
    ensures leq(s[0], t[0])
  {
    assert leq(t[0], t[0]);
    assert Ties(s, t[0], leq) == Ties(t, t[0], leq) && |Ties(t, t[0], leq)| > 0;
    TiesSound(s, t[0], leq, 0);
    var e := Ties(s, t[0], leq)[0];
    var i :| 0 <= i < |s| && s[i] == e;
    assert leq(s[0], s[i]);
  }

  /** The first `n` elements, or all of them. */
  function Take<T>(s: seq<T>, n: nat): seq<T> { if |s| <= n then s else s[..n] }

  /** Cutting a sorted list off keeps the best: what is left out ranks after everything kept. */
  lemma {:induction false} TakeKeepsTheBest<T>(s: seq<T>, n: nat, leq: (T, T) -> bool) returns (hidden: seq<T>)
    requires Sorted(s, leq)
    ensures Take(s, n) + hidden == s && Sorted(Take(s, n), leq)
    ensures |Take(s, n)| == n || (|Take(s, n)| < n && hidden == [])
    ensures forall a <- Take(s, n), b <- hidden :: leq(a, b)
  {
    var shown := Take(s, n);
    hidden := s[|shown|..];
    forall a, b | a in shown && b in hidden ensures leq(a, b) {
      var i :| 0 <= i < |shown| && shown[i] == a;
      var j :| 0 <= j < |hidden| && hidden[j] == b;
      assert s[i] == a && s[|shown| + j] == b;
    }
  }

  lemma {:induction false} SameElements<T>(s: seq<T>, t: seq<T>, e: T)
    requires multiset(s) == multiset(t)
    ensures e in s <==> e in t
  {
    assert e in multiset(s) <==> e in multiset(t);
  }
}
