// Strings as the source's JavaScript sees them: white space, trimming, searching.
module Text {
  /** White space in the sense of `String.prototype.trim` and of `\s`. */
  predicate IsSpace(c: char) {
    || '\t' <= c <= '\r' || c == ' ' || c == '\U{00A0}' || c == '\U{1680}' || '\U{2000}' <= c <= '\U{200A}'
    || c == '\U{2028}' || c == '\U{2029}' || c == '\U{202F}' || c == '\U{205F}' || c == '\U{3000}' || c == '\U{FEFF}'
  }

  function TrimLeft(s: string): string
    decreases |s|
  {
    if s != [] && IsSpace(s[0]) then TrimLeft(s[1..]) else s
  }

  function TrimRight(s: string): string
    decreases |s|
  {
    if s != [] && IsSpace(s[|s|-1]) then TrimRight(s[..|s|-1]) else s
  }

  function Trim(s: string): string { TrimRight(TrimLeft(s)) }

  lemma {:induction false} TrimRightKeepsStart(s: string)
    requires s != [] && !IsSpace(s[0])
    ensures TrimRight(s) != [] && TrimRight(s)[0] == s[0]
  {
    if IsSpace(s[|s|-1]) { TrimRightKeepsStart(s[..|s|-1]); }
  }

  lemma {:induction false} TrimLeftStartsSolid(s: string)
    ensures TrimLeft(s) != [] ==> !IsSpace(TrimLeft(s)[0])
  {
    if s != [] && IsSpace(s[0]) { TrimLeftStartsSolid(s[1..]); }
  }

  /** A text that starts with something else than white space is not blank. */
  lemma {:induction false} StartsSolid(s: string)
    requires s != [] && !IsSpace(s[0])
    ensures Trim(s) != []
  {
    TrimRightKeepsStart(s);
  }

  /** Trimming a trimmed text leaves it blank, or not blank, as it was. */
  lemma {:induction false} TrimTwice(s: string)
    ensures Trim(Trim(s)) == [] <==> Trim(s) == []
  {
    TrimLeftStartsSolid(s);
    if TrimLeft(s) != [] {
      TrimRightKeepsStart(TrimLeft(s));
      StartsSolid(Trim(s));
    }
  }

  predicate Spaces(s: string) { forall c <- s :: IsSpace(c) }

  /** Trimming takes the white space at both ends, all of it and nothing else. */
  lemma {:induction false} TrimIs(s: string) returns (left: string, right: string)
    ensures s == left + Trim(s) + right && Spaces(left) && Spaces(right)
    ensures Trim(s) != [] ==> !IsSpace(Trim(s)[0]) && !IsSpace(Trim(s)[|Trim(s)|-1])
  {
    left := TrimLeftIs(s);
    right := TrimRightIs(TrimLeft(s));
    TrimLeftStartsSolid(s);
    if TrimLeft(s) != [] { TrimRightKeepsStart(TrimLeft(s)); }
    assert left + (Trim(s) + right) == left + Trim(s) + right;
  }

  lemma {:induction false} TrimLeftIs(s: string) returns (left: string)
    ensures s == left + TrimLeft(s) && Spaces(left)
  {
    if s != [] && IsSpace(s[0]) {
      var rest := TrimLeftIs(s[1..]);
      left := [s[0]] + rest;
    } else {
      left := "";
    }
  }

  lemma {:induction false} TrimRightIs(s: string) returns (right: string)
    ensures s == TrimRight(s) + right && Spaces(right)
    ensures TrimRight(s) != [] ==> !IsSpace(TrimRight(s)[|TrimRight(s)|-1])
  {
    if s != [] && IsSpace(s[|s|-1]) {
      var rest := TrimRightIs(s[..|s|-1]);
      right := rest + [s[|s|-1]];
    } else {
      right := "";
    }
  }

  /** The white space characters one by one. */
  lemma {:induction false} SpaceIff(c: char)
    ensures IsSpace(c) <==>
            c in "\U{0009}\U{000A}\U{000B}\U{000C}\U{000D}\U{0020}\U{00A0}\U{1680}"
               + "\U{2000}\U{2001}\U{2002}\U{2003}\U{2004}\U{2005}\U{2006}\U{2007}\U{2008}\U{2009}\U{200A}"
               + "\U{2028}\U{2029}\U{202F}\U{205F}\U{3000}\U{FEFF}"
  {}

  /** Does `t` occur in `s` at `i`? */
  predicate At(s: string, i: nat, t: string) {
    i + |t| <= |s| && s[i..i+|t|] == t
  }

  predicate Contains(s: string, t: string) {
    exists i | 0 <= i <= |s| :: At(s, i, t)
  }

  function Join(parts: seq<string>, sep: string): string {
    if parts == [] then ""
    else if |parts| == 1 then parts[0]
    else parts[0] + sep + Join(parts[1..], sep)
  }

  /** The total length of `parts` with one separator of length `n` between neighbours. */
  function JoinedLength(parts: seq<string>, n: nat): nat {
    if parts == [] then 0
    else if |parts| == 1 then |parts[0]|
    else |parts[0]| + n + JoinedLength(parts[1..], n)
  }

  lemma {:induction false} JoinLength(parts: seq<string>, sep: string)
    ensures |Join(parts, sep)| == JoinedLength(parts, |sep|)
  {
    if |parts| > 1 {
      JoinLength(parts[1..], sep);
    }
  }

  lemma {:induction false} JoinedLengthSnoc(parts: seq<string>, last: string, n: nat)
    ensures JoinedLength(parts + [last], n)
            == (if parts == [] then |last| else JoinedLength(parts, n) + n + |last|)
  {
    if |parts| <= 1 {
      if |parts| == 1 { assert (parts + [last])[1..] == [last]; }
    } else {
      JoinedLengthSnoc(parts[1..], last, n);
      assert (parts + [last])[1..] == parts[1..] + [last];
    }
  }
}
