/**
  Mentions in the composer: finding the `@` fragment at the caret, replacing it, and ranking the
  workspace files that match it.
*/
module MentionTypeahead {
  import opened Options
  import opened Text
  import opened StableSorting

  datatype Token = Token(start: nat, fragment: string)

  predicate Plain(c: char) { c != '@' && !IsSpace(c) }

  /** An `@` at `i`, at the start or after white space, with neither white space nor `@` up to the caret. */
  predicate TokenAt(text: string, caret: int, i: int) {
    && 0 <= i < caret <= |text| && text[i] == '@'
    && (i > 0 ==> IsSpace(text[i-1]))
    && forall k | i < k < caret :: Plain(text[k])
  }

  method FindMentionToken(text: string, caret: int) returns (t: Option<Token>)
    ensures forall i :: TokenAt(text, caret, i) <==> t.Some? && i == t.value.start
    ensures t.Some? ==> TokenAt(text, caret, t.value.start) && t.value.fragment == text[t.value.start+1..caret]
  {
    if caret < 0 || caret > |text| { return None; }
    var i := caret - 1;
    while i >= 0
      invariant -1 <= i < caret
      invariant forall k | i < k < caret :: Plain(text[k])
    {
      var ch := text[i];
      if ch == '@' {
        if i > 0 && !IsSpace(text[i-1]) { return None; }
        return Some(Token(i, text[i+1..caret]));
      }
      if IsSpace(ch) { return None; }
      i := i - 1;
    }
    return None;
  }

  datatype Edit = Edit(text: string, caret: nat)

  function ApplyMention(text: string, start: nat, caret: nat, path: string): Edit
    requires start <= caret <= |text|
  {
    var inserted := "@" + path + " ";
    Edit(text[..start] + inserted + text[caret..], start + |inserted|)
  }

  /** The text on both sides stays, the caret comes after the mention, and no token is active there. */
  lemma {:induction false} MentionKeepsSides(text: string, start: nat, caret: nat, path: string, i: int)
    requires TokenAt(text, caret, start)
    ensures var e := ApplyMention(text, start, caret, path);
      && e.caret <= |e.text|
      && e.text[..start] == text[..start] && e.text[e.caret..] == text[caret..]
      && e.text[start..e.caret] == "@" + path + " "
      && !TokenAt(e.text, e.caret, i)
  {
    var inserted := "@" + path + " ";
    ThreeParts(text[..start], inserted, text[caret..]);
    assert inserted[|inserted|-1] == ' ' && IsSpace(' ');
  }

  lemma {:induction false} ThreeParts(a: string, b: string, c: string)
    requires b != []
    ensures var t := a + b + c;
      t[..|a|] == a && t[|a|..|a|+|b|] == b && t[|a|+|b|..] == c && t[|a|+|b|-1] == b[|b|-1]
  {}

  /**
    Stepping back over the space finds the mention again, with the whole path as its fragment,
    exactly when the path has neither white space nor `@` in it.
  */
  lemma {:induction false} MentionIsFoundAgainIff(text: string, start: nat, caret: nat, path: string)
    requires TokenAt(text, caret, start)
    ensures var e := ApplyMention(text, start, caret, path);
      && e.text[start+1..e.caret-1] == path
      && (TokenAt(e.text, e.caret - 1, start) <==> forall c <- path :: Plain(c))
  {
    var e := ApplyMention(text, start, caret, path);
    MentionAt(text, start, caret, path);
    if TokenAt(e.text, e.caret - 1, start) {
      forall c | c in path ensures Plain(c) {
        var k :| 0 <= k < |path| && path[k] == c;
        assert e.text[start + 1 + k] == c;
      }
    } else if forall c <- path :: Plain(c) {
      forall k | start < k < e.caret - 1 ensures Plain(e.text[k]) {
        assert e.text[start + 1 + (k - start - 1)] == path[k - start - 1];
        assert path[k - start - 1] in path;
      }
    }
  }

  /** Where the characters of the mention stand. */
  lemma {:induction false} MentionAt(text: string, start: nat, caret: nat, path: string)
    requires start <= caret <= |text|
    ensures var e := ApplyMention(text, start, caret, path);
      && e.caret == start + |path| + 2 <= |e.text| && e.text[start] == '@'
      && (start > 0 ==> e.text[start-1] == text[start-1])
      && e.text[start+1..e.caret-1] == path
      && forall k {:trigger path[k]} | 0 <= k < |path| :: e.text[start + 1 + k] == path[k]
  {
    var inserted := "@" + path + " ";
    assert inserted[1..|inserted|-1] == path;
    ThreeParts(text[..start], inserted, text[caret..]);
  }

  // --- ranking -----------------------------------------------------------------------------

  /** Lower-casing and the collation of `localeCompare` are the host's. */
  datatype Host = Host(lower: string -> string, before: (string, string) -> bool)

  datatype Scored = Scored(path: string, score: nat)

  predicate StartsWith(s: string, t: string) { At(s, 0, t) }

  /** What follows the last slash or backslash. */
  function BaseName(s: string): string
    decreases |s|
  {
    if exists i | 0 <= i < |s| :: IsSlash(s[i]) then BaseName(AfterSlash(s)) else s
  }

  predicate IsSlash(c: char) { c == '/' || c == '\\' }

  function AfterSlash(s: string): (r: string)
    requires exists i | 0 <= i < |s| :: IsSlash(s[i])
    ensures |r| < |s|
  {
    if IsSlash(s[0]) then s[1..] else AfterSlash(s[1..])
  }

  /** Base name prefix, path prefix, base name hit, path hit; none if the needle does not occur. */
  function Score(path: string, needle: string, h: Host): Option<nat> {
    var lower := h.lower(path);
    var base := BaseName(lower);
    if StartsWith(base, needle) then Some(0)
    else if StartsWith(lower, needle) then Some(1)
    else if Contains(base, needle) then Some(2)
    else if Contains(lower, needle) then Some(3)
    else None
  }

  function ScoredPaths(paths: seq<string>, needle: string, h: Host): seq<Scored> {
    if paths == [] then []
    else
      var n := |paths| - 1;
      ScoredPaths(paths[..n], needle, h)
      + match Score(paths[n], needle, h) { case Some(score) => [Scored(paths[n], score)] case None => [] }
  }

  function Ranks(h: Host): (Scored, Scored) -> bool {
    (a: Scored, b: Scored) => a.score < b.score || (a.score == b.score && h.before(a.path, b.path))
  }

  function PathsOf(s: seq<Scored>): (r: seq<string>)
    ensures |r| == |s| && forall i {:trigger r[i]} | 0 <= i < |r| :: r[i] == s[i].path
  {
    seq(|s|, i requires 0 <= i < |s| => s[i].path)
  }

  function Candidates(paths: seq<string>, fragment: string, limit: nat, h: Host): seq<string> {
    var needle := h.lower(fragment);
    if needle == "" then Take(paths, limit)
    else PathsOf(Take(StableSort(ScoredPaths(paths, needle, h), Ranks(h)), limit))
  }

  /** Without a fragment the first files are shown, in their order. */
  method FilterMentionCandidates(paths: seq<string>, fragment: string, limit: nat, h: Host) returns (r: seq<string>)
    ensures r == Candidates(paths, fragment, limit, h)
    ensures h.lower(fragment) == "" ==> r <= paths && (|r| == limit || (|r| < limit && r == paths))
  {
    var needle := h.lower(fragment);
    if |needle| == 0 { return Take(paths, limit); }
    var scored: seq<Scored> := [];
    for i := 0 to |paths|
      invariant scored == ScoredPaths(paths[..i], needle, h)
    {
      assert paths[..i+1][..i] == paths[..i];
      var score := Score(paths[i], needle, h);
      if score.None? { continue; }
      scored := scored + [Scored(paths[i], score.value)];
    }
    assert paths[..|paths|] == paths;
    scored := StableSort(scored, Ranks(h));
    r := PathsOf(Take(scored, limit));
  }

  /** The base name is what follows the last slash or backslash. */
  lemma {:induction false} BaseNameIs(s: string) returns (dir: string)
    ensures s == dir + BaseName(s) && forall c <- BaseName(s) :: !IsSlash(c)
    ensures dir == "" || IsSlash(dir[|dir|-1])
    decreases |s|
  {
    if exists i | 0 <= i < |s| :: IsSlash(s[i]) {
      var first := SlashIs(s);
      var rest := BaseNameIs(AfterSlash(s));
      dir := first + rest;
      assert s == first + (rest + BaseName(s));
    } else {
      dir := "";
    }
  }

  lemma {:induction false} SlashIs(s: string) returns (dir: string)
    requires exists i | 0 <= i < |s| :: IsSlash(s[i])
    ensures s == dir + AfterSlash(s) && dir != "" && IsSlash(dir[|dir|-1])
  {
    if IsSlash(s[0]) {
      dir := s[..1];
    } else {
      var rest := SlashIs(s[1..]);
      dir := [s[0]] + rest;
    }
  }

  lemma {:induction false} AtBehind(a: string, s: string, i: nat, t: string)
    requires i <= |s| && At(s, i, t)
    ensures At(a + s, |a| + i, t)
  {
    assert (a + s)[|a| + i..|a| + i + |t|] == s[i..i + |t|];
  }

  /** What occurs in a part occurs in the whole. */
  lemma {:induction false} ContainsMore(a: string, s: string, t: string)
    requires Contains(s, t)
    ensures Contains(a + s, t)
  {
    var i :| 0 <= i <= |s| && At(s, i, t);
    AtBehind(a, s, i, t);
  }

  /**
    How a path ranks: at the start of its base name first, at its own start next, inside the base
    name, anywhere; and it is no match exactly if the needle does not occur in it at all.
  */
  lemma {:induction false} ScoreIs(path: string, needle: string, h: Host)
    ensures var lower := h.lower(path);
      var score := Score(path, needle, h);
      && (score == Some(0) <==> At(BaseName(lower), 0, needle))
      && (score == Some(1) <==> At(lower, 0, needle) && !At(BaseName(lower), 0, needle))
      && (score == Some(2) <==> Contains(BaseName(lower), needle) && !At(lower, 0, needle) && !At(BaseName(lower), 0, needle))
      && (score == Some(3) <==> Contains(lower, needle) && !Contains(BaseName(lower), needle) && !At(lower, 0, needle))
      && (score.None? <==> !Contains(lower, needle))
  {
    var lower := h.lower(path);
    var base := BaseName(lower);
    var dir := BaseNameIs(lower);
    if Contains(base, needle) { ContainsMore(dir, base, needle); }
    if At(base, 0, needle) { AtBehind(dir, base, 0, needle); }
  }

  lemma {:induction false} RanksIsTotal(h: Host)
    requires IsTotalPreorder(h.before)
    ensures IsTotalPreorder(Ranks(h))
  {
    var leq := Ranks(h);
    forall a, b, c | leq(a, b) && leq(b, c) ensures leq(a, c) {
      assert a.score <= b.score <= c.score;
      if a.score == c.score { assert h.before(a.path, b.path) && h.before(b.path, c.path); }
    }
    forall a, b ensures leq(a, b) || leq(b, a) {
      assert h.before(a.path, b.path) || h.before(b.path, a.path);
    }
  }

  lemma {:induction false} ScoredIff(paths: seq<string>, needle: string, h: Host, e: Scored)
    ensures e in ScoredPaths(paths, needle, h) <==> e.path in paths && Score(e.path, needle, h) == Some(e.score)
  {
    if paths != [] {
      var n := |paths| - 1;
      ScoredIff(paths[..n], needle, h, e);
      assert paths == paths[..n] + [paths[n]];
    }
  }

  /**
    The list shown is made of matching paths, best first, and no match that is left out ranks before
    one that is shown. With room for all, all matches are shown. ScoredIff says which the matches are.
  */
  lemma {:induction false} CandidatesAreTheBest(paths: seq<string>, fragment: string, limit: nat, h: Host)
    returns (shown: seq<Scored>, hidden: seq<Scored>)
    requires h.lower(fragment) != "" && IsTotalPreorder(h.before)
    ensures Candidates(paths, fragment, limit, h) == PathsOf(shown)
    ensures |shown| == limit || (|shown| < limit && hidden == [])
    ensures Sorted(shown, Ranks(h)) && forall a <- shown, b <- hidden :: Ranks(h)(a, b)
    ensures multiset(shown + hidden) == multiset(ScoredPaths(paths, h.lower(fragment), h))
  {
    var all := ScoredPaths(paths, h.lower(fragment), h);
    RanksIsTotal(h);
    SortIsStable(all, Ranks(h));
    SortKeepsElements(all, Ranks(h));
    shown := Take(StableSort(all, Ranks(h)), limit);
    hidden := TakeKeepsTheBest(StableSort(all, Ranks(h)), limit, Ranks(h));
  }
}
