/**
  SSE framing of EV events: the LF-LF subset of sections 9.2.5 and 9.2.6 of the WHATWG HTML
  Standard. A block ends at the first blank line; the piece after the last one stays in the
  receive buffer.
*/
module SseFraming {
  import opened Options
  import opened Text
  import opened EvEvents

  // --- splitting at blank lines ------------------------------------------------------------

  /** The first position of LF LF, or the length of `t` if there is none. */
  function NextBreak(t: string): (i: nat)
    ensures i <= |t| && (i < |t| ==> i + 2 <= |t| && t[i] == '\n' && t[i+1] == '\n')
  {
    if |t| < 2 then |t|
    else if t[0] == '\n' && t[1] == '\n' then 0
    else 1 + NextBreak(t[1..])
  }

  predicate NoBreak(t: string) { NextBreak(t) == |t| }

  /** `t.split(/\n\n/)`. */
  function Split(t: string): (pieces: seq<string>)
    ensures pieces != []
    decreases |t|
  {
    var i := NextBreak(t);
    if i == |t| then [t] else [t[..i]] + Split(t[i+2..])
  }

  function Blocks(t: string): seq<string> { Split(t)[..|Split(t)|-1] }
  function Residue(t: string): string { Split(t)[|Split(t)|-1] }

  lemma {:induction false} BreakStays(x: string, y: string)
    requires !NoBreak(x)
    ensures NextBreak(x + y) == NextBreak(x)
  {
    if !(x[0] == '\n' && x[1] == '\n') {
      BreakStays(x[1..], y);
      assert (x + y)[1..] == x[1..] + y;
    }
  }

  /**
    Feeding text in pieces loses and invents no block: splitting `x + y` gives the blocks of `x`,
    then the blocks of the residue of `x` continued by `y`, with the same residue.
  */
  lemma {:induction false} SplitInPieces(x: string, y: string)
    ensures Blocks(x + y) == Blocks(x) + Blocks(Residue(x) + y)
    ensures Residue(x + y) == Residue(Residue(x) + y)
    decreases |x|
  {
    var i := NextBreak(x);
    if i < |x| {
      var x', t := x[i+2..], x + y;
      BreakStays(x, y);
      assert t[..i] == x[..i] && t[i+2..] == x' + y;
      SplitInPieces(x', y);
      FirstBlock(x, x[..i], x');
      FirstBlock(t, x[..i], x' + y);
      Append3(x[..i], Blocks(x'), Blocks(Residue(x') + y));
    } else {
      assert Blocks(x) == [] && Residue(x) == x;
      assert [] + Blocks(x + y) == Blocks(x + y);
    }
  }

  lemma {:induction false} Append3(a: string, b: seq<string>, c: seq<string>)
    ensures [a] + (b + c) == [a] + b + c
  {}

  lemma {:induction false} FirstBlock(t: string, body: string, rest: string)
    requires NextBreak(t) == |body| < |t| && t[..|body|] == body && t[|body|+2..] == rest
    ensures Blocks(t) == [body] + Blocks(rest) && Residue(t) == Residue(rest)
  {
    assert Split(t) == [body] + Split(rest);
    assert Split(t)[..|Split(t)|-1] == [body] + Split(rest)[..|Split(rest)|-1];
  }

  /** What is left in the buffer holds no complete block. */
  lemma {:induction false} ResidueHasNoBreak(t: string)
    ensures NoBreak(Residue(t)) && Split(Residue(t)) == [Residue(t)]
    decreases |t|
  {
    if !NoBreak(t) { ResidueHasNoBreak(t[NextBreak(t)+2..]); }
  }

  lemma {:induction false} NoNewlineNoBreak(t: string)
    requires '\n' !in t
    ensures NoBreak(t)
  {
    if |t| >= 2 { NoNewlineNoBreak(t[1..]); }
  }

  lemma {:induction false} NoBreakConcat(a: string, b: string)
    requires NoBreak(a) && NoBreak(b)
    requires a == [] || b == [] || a[|a|-1] != '\n' || b[0] != '\n'
    ensures NoBreak(a + b)
  {
    if a == [] {
      assert a + b == b;
    } else if |a + b| >= 2 {
      assert NoBreak(a[1..]);
      if |a| == 1 { assert (a + b)[1..] == b; } else { assert (a + b)[1..] == a[1..] + b; }
      NoBreakConcat(a[1..], b);
    }
  }

  lemma {:induction false} NoBreakPrefix(t: string, n: nat)
    requires NoBreak(t) && n <= |t|
    ensures NoBreak(t[..n])
  {
    if n >= 2 {
      NoBreakPrefix(t[1..], n - 1);
      assert t[..n][1..] == t[1..][..n-1];
    }
  }

  lemma {:induction false} BreakAfterBody(body: string, z: string)
    requires NoBreak(body) && body != [] && body[|body|-1] != '\n'
    ensures NextBreak(body + "\n\n" + z) == |body|
  {
    var t := body + "\n\n" + z;
    if |body| == 1 {
      assert t[1..] == "\n\n" + z;
      assert t[1..][0] == '\n' && t[1..][1] == '\n';
    } else {
      BreakAfterBody(body[1..], z);
      assert t[1..] == body[1..] + "\n\n" + z;
    }
  }

  // --- frames ------------------------------------------------------------------------------

  /** One frame on the wire: an event, or a comment that only keeps the socket alive. */
  datatype Frame = Ev(event: Event) | Heartbeat

  /** The frame without its blank line. */
  function Body(f: Frame, stringify: Event -> string): string {
    match f
    case Ev(e) => "event: ev" + "\n" + "data: " + stringify(e)
    case Heartbeat => ": keep-alive"
  }

  function Wire(fs: seq<Frame>, stringify: Event -> string): string {
    if fs == [] then "" else Body(fs[0], stringify) + "\n\n" + Wire(fs[1..], stringify)
  }

  function Bodies(fs: seq<Frame>, stringify: Event -> string): (bs: seq<string>)
    ensures |bs| == |fs|
  {
    if fs == [] then [] else [Body(fs[0], stringify)] + Bodies(fs[1..], stringify)
  }

  function Events(fs: seq<Frame>): seq<Event> {
    if fs == [] then [] else (if fs[0].Ev? then [fs[0].event] else []) + Events(fs[1..])
  }

  function Lines(t: string): (ls: seq<string>)
    ensures ls != []
  {
    if t == "" then [""]
    else
      var rest := Lines(t[1..]);
      if t[0] == '\n' then [""] + rest else [[t[0]] + rest[0]] + rest[1..]
  }

  function DataLines(lines: seq<string>): seq<string> {
    if lines == [] then []
    else if At(lines[0], 0, "data:") then
      var data := lines[0][5..];
      [if data != "" && data[0] == ' ' then data[1..] else data] + DataLines(lines[1..])
    else DataLines(lines[1..])
  }

  /** `decodeEvSseFrame`; `parse` is JSON parsing with the structural guard, None when it fails. */
  function DecodeFrame(block: string, parse: string -> Option<Event>): Option<Event> {
    var data := DataLines(Lines(block));
    if data == [] then None else parse(Join(data, "\n"))
  }

  function Decoded(blocks: seq<string>, parse: string -> Option<Event>): seq<Event> {
    if blocks == [] then []
    else
      var rest := Decoded(blocks[..|blocks|-1], parse);
      var e := DecodeFrame(blocks[|blocks|-1], parse);
      if e.Some? then rest + [e.value] else rest
  }

  lemma {:induction false} DecodedSplit(a: seq<string>, b: seq<string>, parse: string -> Option<Event>)
    ensures Decoded(a + b, parse) == Decoded(a, parse) + Decoded(b, parse)
    decreases |b|
  {
    if b == [] {
      assert a + b == a;
    } else {
      DecodedSplit(a, b[..|b|-1], parse);
      assert (a + b)[..|a + b|-1] == a + b[..|b|-1];
    }
  }

  /** JSON on one line, and back. */
  ghost predicate Codec(parse: string -> Option<Event>, stringify: Event -> string) {
    forall e: Event :: parse(stringify(e)) == Some(e) && '\n' !in stringify(e)
  }

  lemma {:induction false} LinesOfLine(t: string)
    requires '\n' !in t
    ensures Lines(t) == [t]
  {
    if t != "" {
      LinesOfLine(t[1..]);
      assert [t[0]] + t[1..] == t;
    }
  }

  lemma {:induction false} LinesOfTwo(a: string, b: string)
    requires '\n' !in a
    ensures Lines(a + "\n" + b) == [a] + Lines(b)
  {
    var t := a + "\n" + b;
    if a == "" {
      assert t[1..] == b;
    } else {
      LinesOfTwo(a[1..], b);
      assert t[1..] == a[1..] + "\n" + b;
      assert [a[0]] + a[1..] == a;
      assert ([a[1..]] + Lines(b))[0] == a[1..] && ([a[1..]] + Lines(b))[1..] == Lines(b);
    }
  }

  /** A frame decodes to the event it was made from; a heartbeat decodes to nothing. */
  lemma {:induction false} FrameRoundTrip(f: Frame, parse: string -> Option<Event>, stringify: Event -> string)
    requires Codec(parse, stringify)
    ensures DecodeFrame(Body(f, stringify), parse) == (if f.Ev? then Some(f.event) else None)
  {
    match f
    case Ev(e) => DataFrameRoundTrip(stringify(e), parse);
    case Heartbeat => CommentCarriesNothing(": keep-alive", parse);
  }

  lemma {:induction false} CommentCarriesNothing(line: string, parse: string -> Option<Event>)
    requires '\n' !in line && line != "" && line[0] == ':'
    ensures DecodeFrame(line, parse) == None
  {
    LinesOfLine(line);
    NotData(line);
    assert DataLines([line][1..]) == [];
  }

  lemma {:induction false} NotData(line: string)
    requires line != "" && line[0] != 'd'
    ensures !At(line, 0, "data:")
  {
    assert "data:"[0] == 'd';
    assert |line| >= 5 ==> line[0..5][0] == line[0];
  }

  lemma {:induction false} DataFrameRoundTrip(json: string, parse: string -> Option<Event>)
    requires '\n' !in json
    ensures DecodeFrame("event: ev" + "\n" + "data: " + json, parse) == parse(json)
  {
    var line := "data: " + json;
    assert "event: ev" + "\n" + "data: " + json == "event: ev" + "\n" + line;
    LinesOfTwo("event: ev", line);
    LinesOfLine(line);
    NotData("event: ev");
    assert DataLines([line][1..]) == [] && ["event: ev", line][1..] == [line];
    assert line[5..] == " " + json && line[5..][1..] == json;
    assert DataLines([line]) == [json];
    assert DataLines(["event: ev", line]) == [json];
  }

  // --- blocks of any shape -----------------------------------------------------------------

  /** A line of a block: some data, with or without a space behind the colon, or a line that carries none. */
  datatype Field = Payload(line: string, spaced: bool) | Other(line: string)

  /** It is one line, and reads as what it is meant to be. */
  predicate Readable(f: Field) {
    && '\n' !in f.line
    && (f.Payload? && !f.spaced ==> f.line == "" || f.line[0] != ' ')
    && (f.Other? ==> !At(f.line, 0, "data:"))
  }

  function Written(f: Field): string {
    match f
    case Payload(line, spaced) => (if spaced then "data: " else "data:") + line
    case Other(line) => line
  }

  function AllWritten(fields: seq<Field>): (lines: seq<string>)
    ensures |lines| == |fields|
  {
    if fields == [] then [] else [Written(fields[0])] + AllWritten(fields[1..])
  }

  function Payloads(fields: seq<Field>): seq<string> {
    if fields == [] then [] else (if fields[0].Payload? then [fields[0].line] else []) + Payloads(fields[1..])
  }

  lemma {:induction false} LinesOfJoined(fields: seq<Field>)
    requires fields != [] && forall f <- fields :: Readable(f)
    ensures Lines(Join(AllWritten(fields), "\n")) == AllWritten(fields)
  {
    var f, rest := fields[0], fields[1..];
    assert f in fields && forall g <- rest :: g in fields;
    WrittenIsOneLine(f);
    if rest == [] {
      assert AllWritten(fields) == [Written(f)];
      LinesOfLine(Written(f));
    } else {
      LinesOfJoined(rest);
      LinesOfTwo(Written(f), Join(AllWritten(rest), "\n"));
      assert AllWritten(fields)[1..] == AllWritten(rest);
    }
  }

  lemma {:induction false} WrittenIsOneLine(f: Field)
    requires Readable(f)
    ensures '\n' !in Written(f)
  {}

  lemma {:induction false} PayloadIsRead(f: Field)
    requires Readable(f)
    ensures DataLines([Written(f)]) == if f.Payload? then [f.line] else []
  {
    var line := Written(f);
    assert DataLines([line][1..]) == [];
    if f.Payload? {
      assert line[0..5] == "data:" && line[5..] == (if f.spaced then " " + f.line else f.line);
      if f.spaced { assert line[5..][1..] == f.line; }
    }
  }

  lemma {:induction false} PayloadsAreRead(fields: seq<Field>)
    requires forall f <- fields :: Readable(f)
    ensures DataLines(AllWritten(fields)) == Payloads(fields)
  {
    if fields != [] {
      var f, rest := fields[0], fields[1..];
      assert f in fields && forall g <- rest :: g in fields;
      PayloadsAreRead(rest);
      PayloadIsRead(f);
      var lines := AllWritten(fields);
      assert lines[0] == Written(f) && lines[1..] == AllWritten(rest);
      assert [Written(f)][0] == Written(f) && [Written(f)][1..] == [];
    }
  }

  /**
    A block of any number of lines in any order decodes to what its data lines say together, one per
    line, with at most one space dropped behind each colon; without a data line it decodes to nothing.
  */
  lemma {:induction false} FieldsAreDecoded(fields: seq<Field>, parse: string -> Option<Event>)
    requires forall f <- fields :: Readable(f)
    ensures DecodeFrame(Join(AllWritten(fields), "\n"), parse)
            == if Payloads(fields) == [] then None else parse(Join(Payloads(fields), "\n"))
  {
    if fields == [] {
      CarriesNothing(parse);
    } else {
      LinesOfJoined(fields);
      PayloadsAreRead(fields);
    }
  }

  lemma {:induction false} CarriesNothing(parse: string -> Option<Event>)
    ensures DecodeFrame("", parse) == None
  {
    assert !At("", 0, "data:") && [""][1..] == [];
  }

  lemma {:induction false} LineIsOneBlock(line: string)
    requires '\n' !in line && line != ""
    ensures NoBreak(line) && line[|line|-1] != '\n'
  {
    NoNewlineNoBreak(line);
    assert line[|line|-1] in line;
  }

  lemma {:induction false} TwoLinesAreOneBlock(a: string, b: string)
    requires '\n' !in a && a != "" && '\n' !in b && b != ""
    ensures var t := a + "\n" + b; NoBreak(t) && t[|t|-1] != '\n'
  {
    LineIsOneBlock(a);
    LineIsOneBlock(b);
    NoBreakConcat(a, "\n");
    NoBreakConcat(a + "\n", b);
  }

  lemma {:induction false} DataLineIsPlain(json: string)
    requires '\n' !in json
    ensures '\n' !in "data: " + json && '\n' !in "event: ev"
  {}

  lemma {:induction false} DataBodyIsOneBlock(json: string)
    requires '\n' !in json
    ensures var b := "event: ev" + "\n" + "data: " + json; b != [] && NoBreak(b) && b[|b|-1] != '\n'
  {
    DataLineIsPlain(json);
    TwoLinesAreOneBlock("event: ev", "data: " + json);
    assert "event: ev" + "\n" + "data: " + json == "event: ev" + "\n" + ("data: " + json);
  }

  lemma {:induction false} BodyIsOneBlock(f: Frame, parse: string -> Option<Event>, stringify: Event -> string)
    requires Codec(parse, stringify)
    ensures var b := Body(f, stringify); b != [] && NoBreak(b) && b[|b|-1] != '\n'
  {
    match f
    case Ev(e) => DataBodyIsOneBlock(stringify(e));
    case Heartbeat => LineIsOneBlock(": keep-alive");
  }

  /** A cut inside a frame yields no block of it. */
  lemma {:induction false} CutInsideFrame(body: string, rest: string, n: nat)
    requires NoBreak(body) && body != [] && body[|body|-1] != '\n' && n < |body| + 2
    ensures Blocks((body + "\n\n" + rest)[..n]) == []
  {
    NoBreakConcat(body, "\n");
    NoBreakPrefix(body + "\n", n);
    assert (body + "\n\n" + rest)[..n] == (body + "\n")[..n];
  }

  lemma {:induction false} CutAfterFrame(body: string, rest: string, n: nat)
    requires NoBreak(body) && body != [] && body[|body|-1] != '\n' && |body| + 2 <= n <= |body + "\n\n" + rest|
    ensures n - |body| - 2 <= |rest|
    ensures Blocks((body + "\n\n" + rest)[..n]) == [body] + Blocks(rest[..n-|body|-2])
  {
    var cut := rest[..n-|body|-2];
    var t := body + "\n\n" + cut;
    assert (body + "\n\n" + rest)[..n] == t;
    BreakAfterBody(body, cut);
    assert t[|body|+2..] == cut && t[..|body|] == body;
    FirstBlock(t, body, cut);
  }

  /**
    However the connection is cut, even inside a frame, the blocks received are exactly those of
    the first `k` frames: no partial frame is ever decoded.
  */
  lemma {:induction false} CutKeepsWholeFrames(fs: seq<Frame>, n: nat, parse: string -> Option<Event>, stringify: Event -> string)
    returns (k: nat)
    requires Codec(parse, stringify) && n <= |Wire(fs, stringify)|
    ensures k <= |fs| && Blocks(Wire(fs, stringify)[..n]) == Bodies(fs[..k], stringify)
    ensures n == |Wire(fs, stringify)| ==> k == |fs|
  {
    k := 0;
    if fs != [] {
      var body, rest := Body(fs[0], stringify), Wire(fs[1..], stringify);
      BodyIsOneBlock(fs[0], parse, stringify);
      if n < |body| + 2 {
        CutInsideFrame(body, rest, n);
      } else {
        CutAfterFrame(body, rest, n);
        var k' := CutKeepsWholeFrames(fs[1..], n - |body| - 2, parse, stringify);
        k := k' + 1;
        assert fs[..k][1..] == fs[1..][..k'];
      }
    }
  }

  lemma {:induction false} DecodedBodies(fs: seq<Frame>, parse: string -> Option<Event>, stringify: Event -> string)
    requires Codec(parse, stringify)
    ensures Decoded(Bodies(fs, stringify), parse) == Events(fs)
  {
    if fs != [] {
      FrameRoundTrip(fs[0], parse, stringify);
      DecodedBodies(fs[1..], parse, stringify);
      DecodedSplit([Body(fs[0], stringify)], Bodies(fs[1..], stringify), parse);
      assert Decoded([Body(fs[0], stringify)], parse) == (if fs[0].Ev? then [fs[0].event] else []) by {
        assert [Body(fs[0], stringify)][..0] == [];
      }
    }
  }

  lemma {:induction false} EventsPrefix(fs: seq<Frame>, k: nat)
    requires k <= |fs|
    ensures |Events(fs[..k])| <= |Events(fs)| && Events(fs[..k]) == Events(fs)[..|Events(fs[..k])|]
  {
    if k > 0 {
      EventsPrefix(fs[1..], k - 1);
      assert fs[..k][1..] == fs[1..][..k-1];
    }
  }

  /**
    End to end over the wire: every prefix of the encoded stream decodes to a prefix of the events
    sent, whatever heartbeats lie between them, and the whole stream decodes to all of them.
  */
  lemma {:induction false} CutDecodesToPrefix(fs: seq<Frame>, n: nat, parse: string -> Option<Event>, stringify: Event -> string)
    requires Codec(parse, stringify) && n <= |Wire(fs, stringify)|
    ensures var got := Decoded(Blocks(Wire(fs, stringify)[..n]), parse);
      |got| <= |Events(fs)| && got == Events(fs)[..|got|]
      && (n == |Wire(fs, stringify)| ==> got == Events(fs))
  {
    var k := CutKeepsWholeFrames(fs, n, parse, stringify);
    DecodedBodies(fs[..k], parse, stringify);
    EventsPrefix(fs, k);
    if n == |Wire(fs, stringify)| { assert fs[..k] == fs; }
  }
}
