/**
  Stripping reasoning blocks from assistant text. The four regular expressions of the source are
  written out as functions on positions: a tag is found by looking at what starts at an index.
*/
module AssistantOutput {
  import opened Options
  import opened Text

  // --- the tags ----------------------------------------------------------------------------

  /** Case folding as far as it can matter here; the Kelvin sign folds to `k`. */
  function Fold(c: char): char {
    if 'A' <= c <= 'Z' then c - 'A' + 'a' else if c == '\U{212A}' then 'k' else c
  }

  predicate IsWord(c: char) {
    'a' <= c <= 'z' || 'A' <= c <= 'Z' || '0' <= c <= '9' || c == '_' || c == '\U{017F}' || c == '\U{212A}'
  }

  datatype Name = Think | Thinking

  function Letters(n: Name): string { if n.Think? then "think" else "thinking" }

  function Size(n: Name): nat { if n.Think? then 5 else 8 }

  predicate Spells(t: string, n: Name) {
    |t| == Size(n) && |t| == |Letters(n)| && forall k | 0 <= k < |t| :: Fold(t[k]) == Letters(n)[k]
  }

  predicate NameAt(s: string, i: nat, n: Name) {
    i + Size(n) <= |s| && Spells(s[i..i+Size(n)], n)
  }

  /** A name at `i` that is not the beginning of a longer word. */
  predicate WholeNameAt(s: string, i: nat, n: Name) {
    var e := i + Size(n);
    NameAt(s, i, n) && (e == |s| || !IsWord(s[e]))
  }

  /** The index after the first `>` at or after `i`. */
  function AfterGt(s: string, i: nat): (e: Option<nat>)
    ensures e.Some? ==> i < e.value <= |s| && s[e.value-1] == '>' && '>' !in s[i..e.value-1]
    decreases |s| - i
  {
    if i >= |s| then None else if s[i] == '>' then Some(i + 1) else AfterGt(s, i + 1)
  }

  /** A complete opening tag at `i`: its end. */
  function OpenEnd(s: string, i: nat, n: Name): (e: Option<nat>)
    ensures e.Some? ==> i < e.value <= |s|
  {
    if i < |s| && s[i] == '<' && WholeNameAt(s, i + 1, n) then AfterGt(s, i + 1 + Size(n)) else None
  }

  predicate OpenAt(s: string, i: nat) { OpenEnd(s, i, Think).Some? || OpenEnd(s, i, Thinking).Some? }

  predicate AllSpace(t: string) { forall c <- t :: IsSpace(c) }

  function SkipSpace(s: string, i: nat): (j: nat)
    ensures i <= j && (i <= |s| ==> j <= |s| && AllSpace(s[i..j]))
    decreases |s| - i
  {
    if i < |s| && IsSpace(s[i]) then SkipSpace(s, i + 1) else i
  }

  /** A complete closing tag at `i`: its end. */
  function CloseEnd(s: string, i: nat, n: Name): (e: Option<nat>)
    ensures e.Some? ==> i < e.value <= |s| && s[e.value-1] == '>'
  {
    if i + 1 < |s| && s[i] == '<' && s[i+1] == '/' && NameAt(s, i + 2, n) then
      var j := SkipSpace(s, i + 2 + Size(n));
      if j < |s| && s[j] == '>' then Some(j + 1) else None
    else None
  }

  predicate CloseAt(s: string, i: nat) { CloseEnd(s, i, Think).Some? || CloseEnd(s, i, Thinking).Some? }

  /** What the source tests for first: the start of a tag of either kind, complete or not. */
  predicate TagStartsAt(s: string, i: nat) {
    && i < |s| && s[i] == '<'
    && var j := if i + 1 < |s| && s[i+1] == '/' then i + 2 else i + 1;
       WholeNameAt(s, j, Think) || WholeNameAt(s, j, Thinking)
  }

  predicate HasTag(s: string) { exists i | 0 <= i < |s| :: TagStartsAt(s, i) }

  // --- the four replacements ---------------------------------------------------------------

  /** The end of the first closing tag of `n` at or after `i`. */
  function CloseAfter(s: string, i: nat, n: Name): (e: Option<nat>)
    ensures e.Some? ==> i < e.value <= |s|
    decreases |s| - i
  {
    if i >= |s| then None
    else if CloseEnd(s, i, n).Some? then CloseEnd(s, i, n)
    else CloseAfter(s, i + 1, n)
  }

  /** A matched pair at `i`: the end of the first fitting closing tag after the opening one. */
  function PairEndOf(s: string, i: nat, n: Name): (e: Option<nat>)
    ensures e.Some? ==> i < e.value <= |s|
  {
    var o := OpenEnd(s, i, n);
    if o.None? then None else CloseAfter(s, o.value, n)
  }

  function PairEnd(s: string, i: nat): (e: Option<nat>)
    ensures e.Some? ==> i < e.value <= |s|
  {
    var e := PairEndOf(s, i, Think);
    if e.Some? then e else PairEndOf(s, i, Thinking)
  }

  /** Matched pairs from `i` on are removed, left to right. */
  function StripPairs(s: string, i: nat): string
    decreases |s| - i
  {
    if i >= |s| then ""
    else if PairEnd(s, i).Some? then StripPairs(s, PairEnd(s, i).value)
    else [s[i]] + StripPairs(s, i + 1)
  }

  /** The end of the first closing tag of either name. */
  function AnyCloseAfter(s: string, i: nat): (e: Option<nat>)
    ensures e.Some? ==> i < e.value <= |s| && s[e.value-1] == '>'
    decreases |s| - i
  {
    if i >= |s| then None
    else if CloseEnd(s, i, Think).Some? then CloseEnd(s, i, Think)
    else if CloseEnd(s, i, Thinking).Some? then CloseEnd(s, i, Thinking)
    else AnyCloseAfter(s, i + 1)
  }

  /** Everything up to and including the first remaining closing tag goes. */
  function DropLeading(s: string): string {
    var e := AnyCloseAfter(s, 0);
    if e.Some? then s[e.value..] else s
  }

  function FirstOpen(s: string, i: nat): (j: nat)
    ensures i <= |s| ==> i <= j <= |s|
    ensures j < |s| ==> OpenAt(s, j)
    ensures forall k | i <= k < j && k < |s| :: !OpenAt(s, k)
    decreases |s| - i
  {
    if i >= |s| || OpenAt(s, i) then i else FirstOpen(s, i + 1)
  }

  /** From the first remaining opening tag everything goes. */
  function CutOpen(s: string): string { s[..FirstOpen(s, 0)] }

  function StripReasoningBlocks(s: string): string {
    if !HasTag(s) then s else TrimLeft(CutOpen(DropLeading(StripPairs(s, 0))))
  }

  // --- which characters count --------------------------------------------------------------

  /** A letter in either case; the Kelvin sign counts as a `k`. */
  function EitherCase(d: char): string
    requires 'a' <= d <= 'z'
  {
    if d == 'k' then "kK\U{212A}" else [d, d - 'a' + 'A']
  }

  lemma {:induction false} FoldIff(c: char, d: char)
    requires 'a' <= d <= 'z'
    ensures Fold(c) == d <==> c in EitherCase(d)
  {}

  /** A name is spelled by its letters in either case. */
  lemma {:induction false} SpellsIff(t: string, n: Name)
    ensures forall k | 0 <= k < |Letters(n)| :: 'a' <= Letters(n)[k] <= 'z'
    ensures Spells(t, n) <==>
            |t| == |Letters(n)| && forall k | 0 <= k < |t| :: t[k] in EitherCase(Letters(n)[k])
  {
    if |t| == |Letters(n)| {
      forall k | 0 <= k < |t| ensures Fold(t[k]) == Letters(n)[k] <==> t[k] in EitherCase(Letters(n)[k]) {
        FoldIff(t[k], Letters(n)[k]);
      }
    }
  }

  // --- a tag is exactly its own characters -------------------------------------------------

  predicate IsOpen(t: string, n: Name) {
    var k := 1 + Size(n);
    && k < |t| && t[0] == '<' && Spells(t[1..k], n) && !IsWord(t[k])
    && t[|t|-1] == '>' && '>' !in t[k..|t|-1]
  }

  predicate IsClose(t: string, n: Name) {
    var k := 2 + Size(n);
    && k < |t| && t[0] == '<' && t[1] == '/' && Spells(t[2..k], n)
    && t[|t|-1] == '>' && AllSpace(t[k..|t|-1])
  }

  lemma {:induction false} PartOfPart(s: string, i: nat, e: nat, a: nat, b: nat)
    requires i <= e <= |s| && a <= b <= e - i
    ensures s[i..e][a..b] == s[i+a..i+b]
  {
    forall k | 0 <= k < b - a ensures s[i..e][a..b][k] == s[i+a..i+b][k] {
      assert s[i..e][a+k] == s[i+a+k];
    }
  }

  lemma {:induction false} GtIsFirst(s: string, i: nat, e: nat)
    requires i < e <= |s| && s[e-1] == '>' && '>' !in s[i..e-1]
    ensures AfterGt(s, i) == Some(e)
    decreases e - i
  {
    if i < e - 1 {
      assert s[i..e-1] == [s[i]] + s[i+1..e-1];
      GtIsFirst(s, i + 1, e);
    }
  }

  lemma {:induction false} OpenEndIsOpen(s: string, i: nat, n: Name)
    requires OpenEnd(s, i, n).Some?
    ensures IsOpen(s[i..OpenEnd(s, i, n).value], n)
  {
    var e, k := OpenEnd(s, i, n).value, 1 + Size(n);
    PartOfPart(s, i, e, 1, k);
    PartOfPart(s, i, e, k, e - i - 1);
  }

  lemma {:induction false} IsOpenIsOpenEnd(s: string, i: nat, n: Name, e: nat)
    requires i < e <= |s| && IsOpen(s[i..e], n)
    ensures OpenEnd(s, i, n) == Some(e)
  {
    var k := 1 + Size(n);
    PartOfPart(s, i, e, 1, k);
    PartOfPart(s, i, e, k, e - i - 1);
    GtIsFirst(s, i + k, e);
  }

  lemma {:induction false} OpenIff(s: string, i: nat, n: Name, e: nat)
    ensures OpenEnd(s, i, n) == Some(e) <==> i < e <= |s| && IsOpen(s[i..e], n)
  {
    if OpenEnd(s, i, n) == Some(e) { OpenEndIsOpen(s, i, n); }
    if i < e <= |s| && IsOpen(s[i..e], n) { IsOpenIsOpenEnd(s, i, n, e); }
  }

  lemma {:induction false} SpacesAreSkipped(s: string, i: nat, j: nat)
    requires i <= j < |s| && !IsSpace(s[j]) && AllSpace(s[i..j])
    ensures SkipSpace(s, i) == j
    decreases j - i
  {
    if i < j {
      assert s[i..j][0] == s[i] && s[i..j][1..] == s[i+1..j];
      SpacesAreSkipped(s, i + 1, j);
    }
  }

  lemma {:induction false} CloseEndIsClose(s: string, i: nat, n: Name)
    requires CloseEnd(s, i, n).Some?
    ensures IsClose(s[i..CloseEnd(s, i, n).value], n)
  {
    var e, k := CloseEnd(s, i, n).value, 2 + Size(n);
    PartOfPart(s, i, e, 2, k);
    PartOfPart(s, i, e, k, e - i - 1);
    assert s[i..e][1] == s[i+1];
  }

  lemma {:induction false} IsCloseIsCloseEnd(s: string, i: nat, n: Name, e: nat)
    requires i < e <= |s| && IsClose(s[i..e], n)
    ensures CloseEnd(s, i, n) == Some(e)
  {
    var k := 2 + Size(n);
    PartOfPart(s, i, e, 2, k);
    PartOfPart(s, i, e, k, e - i - 1);
    assert s[i..e][1] == s[i+1];
    SpacesAreSkipped(s, i + k, e - 1);
  }

  lemma {:induction false} CloseIff(s: string, i: nat, n: Name, e: nat)
    ensures CloseEnd(s, i, n) == Some(e) <==> i < e <= |s| && IsClose(s[i..e], n)
  {
    if CloseEnd(s, i, n) == Some(e) { CloseEndIsClose(s, i, n); }
    if i < e <= |s| && IsClose(s[i..e], n) { IsCloseIsCloseEnd(s, i, n, e); }
  }

  /** The same characters are a tag wherever they stand. */
  lemma {:induction false} SameOpen(s: string, i: nat, e: nat, t: string, j: nat, f: nat, n: Name)
    requires i < e <= |s| && j < f <= |t| && s[i..e] == t[j..f]
    ensures OpenEnd(s, i, n) == Some(e) <==> OpenEnd(t, j, n) == Some(f)
  {
    OpenIff(s, i, n, e);
    OpenIff(t, j, n, f);
  }

  lemma {:induction false} SameClose(s: string, i: nat, e: nat, t: string, j: nat, f: nat, n: Name)
    requires i < e <= |s| && j < f <= |t| && s[i..e] == t[j..f]
    ensures CloseEnd(s, i, n) == Some(e) <==> CloseEnd(t, j, n) == Some(f)
  {
    CloseIff(s, i, n, e);
    CloseIff(t, j, n, f);
  }

  // --- no opening tag survives -------------------------------------------------------------

  predicate NoOpen(s: string) { forall i | 0 <= i < |s| :: !OpenAt(s, i) }

  function OpenName(s: string, i: nat): (n: Name)
    requires OpenAt(s, i)
    ensures OpenEnd(s, i, n).Some?
  {
    if OpenEnd(s, i, Think).Some? then Think else Thinking
  }

  lemma {:induction false} OpenInWhole(s: string, i: nat, e: nat, k: nat)
    requires i <= e <= |s| && OpenAt(s[i..e], k)
    ensures i + k < e && OpenAt(s, i + k)
  {
    var part := s[i..e];
    var n := OpenName(part, k);
    var x := OpenEnd(part, k, n).value;
    PartOfPart(s, i, e, k, x);
    SameOpen(part, k, x, s, i + k, i + x, n);
  }

  lemma {:induction false} CloseInWhole(s: string, i: nat, e: nat, k: nat)
    requires i <= e <= |s| && CloseAt(s[i..e], k)
    ensures i + k < e && CloseAt(s, i + k)
  {
    var n := if CloseEnd(s[i..e], k, Think).Some? then Think else Thinking;
    var x := CloseEnd(s[i..e], k, n).value;
    PartOfPart(s, i, e, k, x);
    SameClose(s[i..e], k, x, s, i + k, i + x, n);
  }

  /** Part of a text without opening tags has none. */
  lemma {:induction false} PartHasNoOpen(s: string, i: nat, e: nat)
    requires i <= e <= |s| && forall k | i <= k < e :: !OpenAt(s, k)
    ensures NoOpen(s[i..e])
  {
    var t := s[i..e];
    forall k | 0 <= k < |t| ensures !OpenAt(t, k) {
      if OpenAt(t, k) { OpenInWhole(s, i, e, k); }
    }
  }

  predicate NoClose(s: string) { forall i | 0 <= i < |s| :: !CloseAt(s, i) }

  lemma {:induction false} PartHasNoClose(s: string, i: nat, e: nat)
    requires i <= e <= |s| && forall k | i <= k < e :: !CloseAt(s, k)
    ensures NoClose(s[i..e])
  {
    var t := s[i..e];
    forall k | 0 <= k < |t| ensures !CloseAt(t, k) {
      if CloseAt(t, k) { CloseInWhole(s, i, e, k); }
    }
  }

  lemma {:induction false} TrimLeftIsSuffix(s: string) returns (n: nat)
    ensures n <= |s| && TrimLeft(s) == s[n..]
    ensures forall k | 0 <= k < n :: IsSpace(s[k])
    ensures n < |s| ==> !IsSpace(s[n])
  {
    if s != [] && IsSpace(s[0]) {
      var m := TrimLeftIsSuffix(s[1..]);
      n := m + 1;
    } else {
      n := 0;
    }
  }

  lemma {:induction false} NameStartsWithT(s: string, i: nat, n: Name)
    requires NameAt(s, i, n)
    ensures i < |s| && Fold(s[i]) == 't' && s[i] != '/' && s[i] != '<'
  {
    var t := s[i..i+Size(n)];
    assert Fold(t[0]) == Letters(n)[0] && t[0] == s[i];
  }

  lemma {:induction false} OpenStartsTag(s: string, i: nat)
    requires OpenAt(s, i)
    ensures TagStartsAt(s, i) && i < |s|
  {
    NameStartsWithT(s, i + 1, OpenName(s, i));
  }

  /** Whatever the text: no complete opening tag is left in what is shown. */
  lemma {:induction false} NoOpeningTagSurvives(s: string)
    ensures NoOpen(StripReasoningBlocks(s))
  {
    if HasTag(s) {
      var rest := DropLeading(StripPairs(s, 0));
      var cut := CutOpen(rest);
      var n := TrimLeftIsSuffix(cut);
      assert cut[n..] == rest[n..|cut|];
      PartHasNoOpen(rest, n, |cut|);
    } else {
      forall i | 0 <= i < |s| ensures !OpenAt(s, i) {
        if OpenAt(s, i) { OpenStartsTag(s, i); }
      }
    }
  }

  // --- what is left when there is nothing to strip -----------------------------------------

  lemma {:induction false} StripsNoPair(s: string, i: nat)
    requires i <= |s| && forall k | i <= k < |s| :: PairEnd(s, k).None?
    ensures StripPairs(s, i) == s[i..]
    decreases |s| - i
  {
    if i < |s| { StripsNoPair(s, i + 1); }
  }

  lemma {:induction false} FindsNoClose(s: string, i: nat, n: Name)
    requires forall k | i <= k < |s| :: !CloseAt(s, k)
    ensures AnyCloseAfter(s, i).None? && CloseAfter(s, i, n).None?
    decreases |s| - i
  {
    if i < |s| {
      assert !CloseAt(s, i);
      FindsNoClose(s, i + 1, n);
    }
  }

  lemma {:induction false} FindsClose(s: string, i: nat, j: nat, n: Name)
    requires i <= j < |s| && CloseEnd(s, j, n).Some? && forall k | i <= k < j :: !CloseAt(s, k)
    ensures CloseAfter(s, i, n) == CloseEnd(s, j, n)
    decreases j - i
  {
    if i < j {
      assert !CloseAt(s, i);
      FindsClose(s, i + 1, j, n);
    }
  }

  lemma {:induction false} FindsAnyClose(s: string, i: nat, j: nat, n: Name)
    requires i <= j < |s| && CloseEnd(s, j, n).Some? && forall k | i <= k < j :: !CloseAt(s, k)
    ensures AnyCloseAfter(s, i) == CloseEnd(s, j, n)
    decreases j - i
  {
    if i < j {
      assert !CloseAt(s, i);
      FindsAnyClose(s, i + 1, j, n);
    } else if n.Thinking? {
      CloseNamesExclude(s, j);
    }
  }

  /** "thinking" is not "think" with something after it: the name of a tag is unique. */
  lemma {:induction false} NamesDiffer(t: string, u: string)
    requires Spells(t, Think) && Spells(u, Thinking) && u[..5] == t
    ensures Fold(u[5]) == 'i'
  {
    assert Fold(u[5]) == Letters(Thinking)[5];
  }

  lemma {:induction false} CloseNamesExclude(s: string, i: nat)
    requires CloseEnd(s, i, Thinking).Some?
    ensures CloseEnd(s, i, Think).None?
  {
    if NameAt(s, i + 2, Think) {
      NamesDiffer(s[i+2..i+7], s[i+2..i+10]);
      var j := SkipSpace(s, i + 7);
      assert s[i+7] == s[i+2..i+10][5];
      assert Fold(s[i+7]) == 'i';
    }
  }

  lemma {:induction false} OpenNamesExclude(s: string, i: nat)
    requires OpenEnd(s, i, Thinking).Some?
    ensures OpenEnd(s, i, Think).None?
  {
    if NameAt(s, i + 1, Think) {
      NamesDiffer(s[i+1..i+6], s[i+1..i+9]);
      assert s[i+6] == s[i+1..i+9][5];
      assert Fold(s[i+6]) == 'i';
    }
  }

  lemma {:induction false} SpelledPlainly(t: string, n: Name, k: nat)
    requires Spells(t, n) && k < |t|
    ensures t[k] != '<' && t[k] != '>'
  {
    assert Fold(t[k]) == Letters(n)[k];
  }

  /** A closing tag has its `<` at the start and its `>` at the end, and nowhere else. */
  lemma {:induction false} CloseIsPlain(t: string, n: Name, k: nat)
    requires IsClose(t, n) && k < |t|
    ensures (t[k] == '<' ==> k == 0) && (t[k] == '>' ==> k == |t| - 1)
  {
    var m := 2 + Size(n);
    if 2 <= k < m {
      SpelledPlainly(t[2..m], n, k - 2);
    } else if m <= k < |t| - 1 {
      assert t[k] == t[m..|t|-1][k-m] && t[k] in t[m..|t|-1];
    }
  }

  lemma {:induction false} CloseNameEnds(t: string, n: Name)
    requires IsClose(t, n)
    ensures !IsWord(t[2+Size(n)])
  {
    var k := 2 + Size(n);
    if k < |t| - 1 { assert t[k] == t[k..|t|-1][0] && t[k] in t[k..|t|-1]; }
  }
}
