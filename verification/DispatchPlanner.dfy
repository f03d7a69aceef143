/**
  Planning an outbound dispatch under a character budget: fixed parts, prior turns, attachments.
  Any attachment that does not fit fails the whole plan.
*/
module DispatchPlanner {
  import opened Text
  import opened ContextPacking

  datatype Attachment = Attachment(path: string, filename: string, block: string)
  datatype Status = Selected | Included | OmittedByBudget
  datatype Entry = Entry(path: string, filename: string, status: Status)
  datatype Cause = FixedPartsTooLong | NoRoomLeft | AttachmentsDoNotFit | TextTooLong

  /**
    `ms365`, `workspace` and `skills` are the optional blocks, empty when absent; `user` is the
    wrapped request; `prior` the formatted lines of the eligible prior messages.
  */
  datatype Request = Request(
    system: string, ms365: string, workspace: string, skills: string, user: string,
    prior: seq<string>, attachments: seq<Attachment>, maxChars: int, marks: Envelopes)

  datatype Envelopes = Envelopes(turns: Marks, files: Marks)

  /** The fixed strings of the source. The theorems hold for any others as well. */
  const ENVELOPES := Envelopes(PRIOR_TURNS, ATTACHMENTS)

  datatype Plan =
    | Ok(text: string, entries: seq<Entry>, priorTruncated: bool)
    | Failed(cause: Cause, entries: seq<Entry>)

  // --- the budget --------------------------------------------------------------------------

  /** What an optional part costs: its length and a separator, if it is there. */
  function Charge(t: string): nat { if t == "" then 0 else |t| + 2 }

  function Fixed(r: Request): nat {
    |r.system| + 2 + Charge(r.ms365) + |r.user| + Charge(r.workspace) + Charge(r.skills)
  }

  function Remaining(r: Request): int { r.maxChars - Fixed(r) - 4 }

  /** All of the rest for the prior turns, or 55% of it when there are attachments. */
  function PriorBudget(r: Request): int {
    if r.attachments == [] then Remaining(r) else Remaining(r) * 55 / 100
  }

  function PriorText(r: Request): string { TranscriptText(r.marks.turns, r.prior, PriorBudget(r)) }

  predicate TurnsDropped(r: Request) { LinesKept(r.marks.turns, r.prior, PriorBudget(r)) < |r.prior| }

  function Room(r: Request): int { Remaining(r) - Charge(PriorText(r)) }

  function Blocks(attachments: seq<Attachment>): (bs: seq<string>)
    ensures |bs| == |attachments| && forall i {:trigger bs[i]} | 0 <= i < |bs| :: bs[i] == attachments[i].block
  {
    seq(|attachments|, i requires 0 <= i < |attachments| => attachments[i].block)
  }

  function Packed(r: Request): (n: nat)
    ensures n <= |r.attachments|
  {
    BlocksPacked(r.marks.files, Blocks(r.attachments), Room(r))
  }

  predicate FilesFit(r: Request) { r.marks.files.Overhead() + Cost(Blocks(r.attachments), 2) <= Room(r) }

  /** When a request is accepted, in closed form. */
  predicate Accepts(r: Request) {
    Fixed(r) <= r.maxChars - 200
    && (r.attachments != [] ==> Remaining(r) >= 200 && FilesFit(r))
  }

  // --- the text ----------------------------------------------------------------------------

  function Push(parts: seq<string>, t: string): seq<string> { if t == "" then parts else parts + [t] }

  /** System prompt, optional parts in their fixed order, attachments, and the user's request last. */
  function Parts(r: Request): seq<string> {
    var text := AttachmentText(r.marks.files, Blocks(r.attachments), |r.attachments|);
    Push(Push(Push(Push(Push([r.system], r.ms365), r.workspace), PriorText(r)), r.skills), text) + [r.user]
  }

  // --- what an accepted text looks like ----------------------------------------------------

  /** A part that is there stands behind a blank line. */
  function Apart(t: string): string { if t == "" then "" else "\n\n" + t }

  /** The parts of a text in their order: the system prompt first, the request last. */
  predicate InOrder(text: string, r: Request, turns: string, files: string) {
    text == r.system + Apart(r.ms365) + Apart(r.workspace) + Apart(turns) + Apart(r.skills) + Apart(files) + "\n\n" + r.user
  }

  /** What the newest `k` prior turns need: their envelope, and each line with its line feed. */
  predicate TurnsFit(r: Request, k: nat)
    requires k <= |r.prior|
  {
    var free := r.maxChars - (|r.system| + 2 + Charge(r.ms365) + |r.user| + Charge(r.workspace) + Charge(r.skills)) - 4;
    var marks := r.marks.turns;
    |marks.start| + |marks.preamble| + |marks.end| + 4 + Cost(r.prior[|r.prior|-k..], 1)
    <= if r.attachments == [] then free else free * 55 / 100
  }

  /** The newest prior turns in their order, as many as fit, marked as untrusted; nothing if none fits. */
  ghost predicate HoldsNewestTurns(r: Request, turns: string) { exists k :: HoldsNewest(r, turns, k) }

  predicate HoldsNewest(r: Request, turns: string, k: nat) {
    && k <= |r.prior|
    && (k > 0 ==> TurnsFit(r, k)) && (forall j | k < j <= |r.prior| :: !TurnsFit(r, j))
    && (if k == 0 then turns == "" else Encloses(turns, r.marks.turns, Chain(r.prior[|r.prior|-k..], "\n")))
  }

  /** All attachments in their order, marked as untrusted; nothing if there is none. */
  predicate HoldsAttachments(r: Request, files: string) {
    if r.attachments == [] then files == "" else Encloses(files, r.marks.files, Chain(Blocks(r.attachments), "\n\n"))
  }

  ghost predicate LaidOut(text: string, r: Request) {
    exists turns, files :: InOrder(text, r, turns, files) && HoldsNewestTurns(r, turns) && HoldsAttachments(r, files)
  }

  lemma {:induction false} JoinLast(parts: seq<string>, t: string, sep: string)
    requires parts != []
    ensures Join(parts + [t], sep) == Join(parts, sep) + sep + t
  {
    JoinIsChain(parts + [t], sep);
    JoinIsChain(parts, sep);
    assert (parts + [t])[..|parts|] == parts;
  }

  lemma {:induction false} JoinPushed(parts: seq<string>, t: string)
    requires parts != []
    ensures Push(parts, t) != [] && Join(Push(parts, t), "\n\n") == Join(parts, "\n\n") + Apart(t)
  {
    if t == "" {
      assert Join(parts, "\n\n") + "" == Join(parts, "\n\n");
    } else {
      JoinLast(parts, t, "\n\n");
      assert Join(parts, "\n\n") + "\n\n" + t == Join(parts, "\n\n") + ("\n\n" + t);
    }
  }

  lemma {:induction false} JoinedInOrder(
      first: string, ms365: string, workspace: string, prior: string, skills: string, files: string, last: string)
    ensures Join(Push(Push(Push(Push(Push([first], ms365), workspace), prior), skills), files) + [last], "\n\n")
            == first + Apart(ms365) + Apart(workspace) + Apart(prior) + Apart(skills) + Apart(files) + "\n\n" + last
  {
    var p1 := Push([first], ms365);
    JoinPushed([first], ms365);
    var p2 := Push(p1, workspace);
    JoinPushed(p1, workspace);
    var p3 := Push(p2, prior);
    JoinPushed(p2, prior);
    var p4 := Push(p3, skills);
    JoinPushed(p3, skills);
    var p5 := Push(p4, files);
    JoinPushed(p4, files);
    JoinLast(p5, last, "\n\n");
  }

  lemma {:induction false} TurnsFitIff(r: Request, k: nat)
    requires k <= |r.prior|
    ensures TurnsFit(r, k) <==> LinesFit(r.marks.turns, r.prior, k, PriorBudget(r))
  {}

  lemma {:induction false} TurnsAreNewest(r: Request)
    ensures HoldsNewestTurns(r, PriorText(r))
  {
    var k := LinesKept(r.marks.turns, r.prior, PriorBudget(r));
    MostLinesFit(r.marks.turns, r.prior, |r.prior|, PriorBudget(r));
    TurnsFitIff(r, k);
    forall j | k < j <= |r.prior| ensures !TurnsFit(r, j) { TurnsFitIff(r, j); }
    JoinIsChain(r.prior[|r.prior|-k..], "\n");
    assert HoldsNewest(r, PriorText(r), k);
  }

  lemma {:induction false} FilesAreAll(r: Request)
    ensures HoldsAttachments(r, AttachmentText(r.marks.files, Blocks(r.attachments), |r.attachments|))
  {
    var blocks := Blocks(r.attachments);
    assert blocks[..|blocks|] == blocks;
    JoinIsChain(blocks, "\n\n");
  }

  lemma {:induction false} PartsAreLaidOut(r: Request)
    ensures LaidOut(Join(Parts(r), "\n\n"), r)
  {
    var files := AttachmentText(r.marks.files, Blocks(r.attachments), |r.attachments|);
    JoinedInOrder(r.system, r.ms365, r.workspace, PriorText(r), r.skills, files, r.user);
    TurnsAreNewest(r);
    FilesAreAll(r);
    assert InOrder(Join(Parts(r), "\n\n"), r, PriorText(r), files);
  }

  lemma {:induction false} StillStarts(a: string, b: string, c: string)
    requires a <= b
    ensures a <= b + c
  {}

  lemma {:induction false} EndsIn(a: string, b: string)
    ensures (a + b)[|a + b|-|b|..] == b
  {}

  /** So it starts with the system prompt and ends with the request. */
  lemma {:induction false} StartsAndEnds(text: string, r: Request)
    requires LaidOut(text, r)
    ensures r.system <= text && |text| >= |r.user| && text[|text|-|r.user|..] == r.user
  {
    var turns, files :| InOrder(text, r, turns, files) && HoldsNewestTurns(r, turns) && HoldsAttachments(r, files);
    Outer(r.system, Apart(r.ms365), Apart(r.workspace), Apart(turns), Apart(r.skills), Apart(files), r.user);
  }

  lemma {:induction false} Outer(s: string, a: string, b: string, c: string, d: string, e: string, u: string)
    ensures var text := s + a + b + c + d + e + "\n\n" + u;
      s <= text && |text| >= |u| && text[|text|-|u|..] == u
  {
    StillStarts(s, s, a);
    StillStarts(s, s + a, b);
    StillStarts(s, s + a + b, c);
    StillStarts(s, s + a + b + c, d);
    StillStarts(s, s + a + b + c + d, e);
    var head := s + a + b + c + d + e;
    StillStarts(s, head, "\n\n");
    StillStarts(s, head + "\n\n", u);
    EndsIn(head + "\n\n", u);
  }

  lemma {:induction false} PushCosts(parts: seq<string>, t: string)
    ensures Cost(Push(parts, t), 2) == Cost(parts, 2) + Charge(t)
    ensures |Push(parts, t)| >= |parts|
  {
    assert (parts + [t])[..|parts|] == parts;
  }

  lemma {:induction false} PushedLength(parts: seq<string>, t: string, u: string, cost: nat)
    requires parts != [] && cost == Cost(parts, 2)
    ensures Push(parts, t) != [] && Cost(Push(parts, t), 2) == cost + Charge(t)
    ensures |Join(parts + [u], "\n\n")| == cost + |u|
  {
    PushCosts(parts, t);
    assert (parts + [u])[..|parts|] == parts;
    JoinCosts(parts + [u], "\n\n");
  }

  /** Joining the parts comes to exactly what was charged for them. */
  lemma {:induction false} TextLength(r: Request)
    ensures |Join(Parts(r), "\n\n")|
            == Fixed(r) + Charge(PriorText(r)) + Charge(AttachmentText(r.marks.files, Blocks(r.attachments), |r.attachments|))
  {
    var prior, files := PriorText(r), AttachmentText(r.marks.files, Blocks(r.attachments), |r.attachments|);
    JoinedLength(r.system, r.ms365, r.workspace, prior, r.skills, files, r.user);
  }

  lemma {:induction false} JoinedLength(
      first: string, ms365: string, workspace: string, prior: string, skills: string, files: string, last: string)
    ensures |Join(Push(Push(Push(Push(Push([first], ms365), workspace), prior), skills), files) + [last], "\n\n")|
            == |first| + 2 + Charge(ms365) + Charge(workspace) + Charge(prior) + Charge(skills) + Charge(files) + |last|
  {
    var n0 := |first| + 2;
    CostOfOne(first, 2);
    var p1, n1 := Push([first], ms365), n0 + Charge(ms365);
    PushedLength([first], ms365, last, n0);
    var p2, n2 := Push(p1, workspace), n1 + Charge(workspace);
    PushedLength(p1, workspace, last, n1);
    var p3, n3 := Push(p2, prior), n2 + Charge(prior);
    PushedLength(p2, prior, last, n2);
    var p4, n4 := Push(p3, skills), n3 + Charge(skills);
    PushedLength(p3, skills, last, n3);
    var p5, n5 := Push(p4, files), n4 + Charge(files);
    PushedLength(p4, files, last, n4);
    PushedLength(p5, "", last, n5);
  }

  lemma {:induction false} CostOfOne(piece: string, sep: nat)
    ensures Cost([piece], sep) == |piece| + sep
  {
    assert [piece][..0] == [];
  }

  /**
    Budget soundness: whatever passes the checks fits, with two characters to spare, or four when
    there are attachments. The final length checks can never fail.
  */
  lemma {:induction false} AcceptedTextFits(r: Request)
    requires Accepts(r)
    ensures |Join(Parts(r), "\n\n")| <= r.maxChars - (if r.attachments == [] then 2 else 4)
  {
    TextLength(r);
    TranscriptWithinBudget(r.marks.turns, r.prior, PriorBudget(r));
    if r.attachments != [] {
      var blocks := Blocks(r.attachments);
      AttachmentTextLength(r.marks.files, blocks, |blocks|);
      assert blocks[..|blocks|] == blocks;
    }
  }

  // --- planning ----------------------------------------------------------------------------

  function Paths(attachments: seq<Attachment>): set<string> { set a <- attachments :: a.path }

  function Marked(attachments: seq<Attachment>, status: Status): (es: seq<Entry>)
    ensures |es| == |attachments|
    ensures forall i {:trigger es[i]} | 0 <= i < |es| :: es[i] == Entry(attachments[i].path, attachments[i].filename, status)
  {
    seq(|attachments|, i requires 0 <= i < |attachments| =>
      Entry(attachments[i].path, attachments[i].filename, status))
  }

  /** Omitted are all entries that share a path with an attachment that was not packed. */
  function MarkedByPath(attachments: seq<Attachment>, omitted: set<string>): (es: seq<Entry>)
    ensures |es| == |attachments|
    ensures forall i {:trigger es[i]} | 0 <= i < |es| ::
              es[i] == Entry(attachments[i].path, attachments[i].filename,
                             if attachments[i].path in omitted then OmittedByBudget else Included)
  {
    seq(|attachments|, i requires 0 <= i < |attachments| =>
      Entry(attachments[i].path, attachments[i].filename,
            if attachments[i].path in omitted then OmittedByBudget else Included))
  }

  /** The entries after a packing failure. */
  function PackingReport(r: Request): (es: seq<Entry>)
    ensures |es| == |r.attachments|
  {
    MarkedByPath(r.attachments, Paths(r.attachments[Packed(r)..]))
  }

  /** All attachments are packed exactly when what they cost fits the room left by the prior turns. */
  lemma {:induction false} PacksAllIff(r: Request)
    requires r.attachments != []
    ensures Packed(r) == |r.attachments| <==> FilesFit(r)
  {
    var blocks := Blocks(r.attachments);
    PackedIsLongestPrefix(r.marks.files, blocks, |blocks|, Room(r));
    assert blocks[..|blocks|] == blocks;
  }

  /** Collects the parts and joins them; the last length check of the source is dead code after this. */
  method JoinParts(r: Request, prior: string, files: string) returns (text: string)
    requires Accepts(r) && prior == PriorText(r)
    requires files == AttachmentText(r.marks.files, Blocks(r.attachments), |r.attachments|)
    ensures text == Join(Parts(r), "\n\n") && |text| <= r.maxChars
  {
    var parts := [r.system];
    if |r.ms365| > 0 { parts := parts + [r.ms365]; }
    if |r.workspace| > 0 { parts := parts + [r.workspace]; }
    if |prior| > 0 { parts := parts + [prior]; }
    if |r.skills| > 0 { parts := parts + [r.skills]; }
    if |files| > 0 { parts := parts + [files]; }
    parts := parts + [r.user];
    text := Join(parts, "\n\n");
    AcceptedTextFits(r);
  }

  method PlanDispatchPrompt(r: Request) returns (plan: Plan)
    ensures plan.Ok? <==> Accepts(r)
    ensures plan.Ok? ==> plan.text == Join(Parts(r), "\n\n") && |plan.text| <= r.maxChars
    ensures plan.Ok? ==> LaidOut(plan.text, r)
    ensures plan.Ok? ==> r.system <= plan.text && |plan.text| >= |r.user| && plan.text[|plan.text|-|r.user|..] == r.user
    ensures plan.Ok? ==> plan.entries == Marked(r.attachments, Included)
                         && (plan.priorTruncated <==> TurnsDropped(r))
    ensures plan.Failed? ==> plan.cause != TextTooLong
    ensures plan.Failed? && plan.cause == FixedPartsTooLong ==>
              Fixed(r) > r.maxChars - 200 && plan.entries == Marked(r.attachments, Selected)
    ensures plan.Failed? && plan.cause == NoRoomLeft ==>
              r.attachments != [] && Remaining(r) < 200 && plan.entries == Marked(r.attachments, OmittedByBudget)
    ensures plan.Failed? && plan.cause == AttachmentsDoNotFit ==>
              Packed(r) < |r.attachments| && plan.entries == PackingReport(r)
  {
    if Fixed(r) > r.maxChars - 200 {
      return Failed(FixedPartsTooLong, Marked(r.attachments, Selected));
    }
    PartsAreLaidOut(r);
    StartsAndEnds(Join(Parts(r), "\n\n"), r);
    if |r.attachments| == 0 {
      plan := PlanWithoutAttachments(r);
    } else {
      plan := PlanWithAttachments(r);
    }
  }

  /** Without attachments the prior turns get all of the rest, and there is no attachment text. */
  method PackPrior(r: Request) returns (prior: Context, files: string)
    requires r.attachments == []
    ensures prior.text == PriorText(r) && (prior.truncated <==> TurnsDropped(r))
    ensures files == AttachmentText(r.marks.files, Blocks(r.attachments), |r.attachments|)
  {
    var budget := r.maxChars - Fixed(r) - 4;
    assert budget == PriorBudget(r);
    prior := AssembleTranscriptContext(r.marks.turns, r.prior, budget);
    files := "";
  }

  method PlanWithoutAttachments(r: Request) returns (plan: Plan)
    requires Accepts(r) && r.attachments == []
    ensures plan.Ok?
    ensures plan.Ok? ==> plan.text == Join(Parts(r), "\n\n") && |plan.text| <= r.maxChars
    ensures plan.Ok? ==> |plan.entries| == 0 && (plan.priorTruncated <==> TurnsDropped(r))
  {
    var prior, files := PackPrior(r);
    var text := JoinParts(r, prior.text, files);
    plan := Checked(r, text, Marked(r.attachments, Selected), prior.truncated);
  }

  /** The last length check, and the result. */
  method Checked(r: Request, text: string, entries: seq<Entry>, priorTruncated: bool) returns (plan: Plan)
    ensures |text| <= r.maxChars ==> plan == Ok(text, entries, priorTruncated)
    ensures |text| > r.maxChars ==> plan == Failed(TextTooLong, entries)
  {
    if |text| > r.maxChars { return Failed(TextTooLong, entries); }
    plan := Ok(text, entries, priorTruncated);
  }

  /** Prior turns get their share first, the attachments what is left after them. */
  method PackContext(r: Request) returns (prior: Context, files: Context, allIncluded: bool, report: seq<Entry>)
    requires r.attachments != []
    ensures prior.text == PriorText(r)
    ensures prior.truncated <==> TurnsDropped(r)
    ensures files.count == Packed(r) && files.text == AttachmentText(r.marks.files, Blocks(r.attachments), Packed(r))
    ensures allIncluded <==> Packed(r) == |r.attachments|
    ensures report == PackingReport(r)
  {
    var remaining := r.maxChars - Fixed(r) - 4;
    prior := AssembleTranscriptContext(r.marks.turns, r.prior, remaining * 55 / 100);
    assert prior.text == PriorText(r);
    remaining := remaining - (if |prior.text| > 0 then |prior.text| + 2 else 0);
    assert remaining == Room(r);
    var blocks := Blocks(r.attachments);
    files := AssembleAttachmentContext(r.marks.files, blocks, remaining);
    allIncluded := files.count == |r.attachments| && !files.truncated;
    report := MarkedByPath(r.attachments, Paths(r.attachments[files.count..]));
  }

  method PlanWithAttachments(r: Request) returns (plan: Plan)
    requires Fixed(r) <= r.maxChars - 200 && r.attachments != []
    ensures plan.Ok? <==> Accepts(r)
    ensures plan.Ok? ==> plan.text == Join(Parts(r), "\n\n") && |plan.text| <= r.maxChars
                         && plan.entries == Marked(r.attachments, Included)
                         && (plan.priorTruncated <==> TurnsDropped(r))
    ensures plan.Failed? ==> plan.cause.NoRoomLeft? || plan.cause.AttachmentsDoNotFit?
    ensures plan.Failed? && plan.cause == NoRoomLeft ==>
              Remaining(r) < 200 && plan.entries == Marked(r.attachments, OmittedByBudget)
    ensures plan.Failed? && plan.cause == AttachmentsDoNotFit ==>
              Packed(r) < |r.attachments| && plan.entries == PackingReport(r)
  {
    var remaining := r.maxChars - Fixed(r) - 4;
    if remaining < 200 {
      return Failed(NoRoomLeft, Marked(r.attachments, OmittedByBudget));
    }
    var prior, files, allIncluded, report := PackContext(r);
    PacksAllIff(r);
    if !allIncluded {
      return Failed(AttachmentsDoNotFit, report);
    }
    var text := JoinParts(r, prior.text, files.text);
    if |text| > r.maxChars {
      return Failed(TextTooLong, Marked(r.attachments, OmittedByBudget));
    }
    plan := Ok(text, Marked(r.attachments, Included), prior.truncated);
  }

  // --- what the verdict depends on ---------------------------------------------------------

  /** Taking one piece out saves its length and its separator. */
  lemma {:induction false} CostWithout(pieces: seq<string>, i: nat, sep: nat)
    requires i < |pieces|
    ensures Cost(pieces, sep) == Cost(pieces[..i] + pieces[i+1..], sep) + |pieces[i]| + sep
  {
    assert pieces == pieces[..i+1] + pieces[i+1..] && pieces[..i+1][..i] == pieces[..i];
    CostSplit(pieces[..i+1], pieces[i+1..], sep);
    CostSplit(pieces[..i], pieces[i+1..], sep);
  }

  lemma {:induction false} WithoutCounts<T>(s: seq<T>, i: nat)
    requires i < |s|
    ensures multiset(s) == multiset(s[..i] + s[i+1..]) + multiset{s[i]}
  {
    assert s == s[..i] + [s[i]] + s[i+1..];
  }

  lemma {:induction false} SameCountsWithout<T>(a: seq<T>, b: seq<T>, i: nat)
    requires a != [] && i < |b| && multiset(a) == multiset(b) && a[0] == b[i]
    ensures multiset(a[..0] + a[1..]) == multiset(b[..i] + b[i+1..])
  {
    WithoutCounts(a, 0);
    WithoutCounts(b, i);
    assert multiset(a[..0] + a[1..]) == multiset(a) - multiset{a[0]};
    assert multiset(b[..i] + b[i+1..]) == multiset(b) - multiset{a[0]};
  }

  lemma {:induction false} CostIgnoresOrder(a: seq<string>, b: seq<string>, sep: nat)
    requires multiset(a) == multiset(b)
    ensures Cost(a, sep) == Cost(b, sep)
    decreases |a|
  {
    if a == [] {
      assert |multiset(b)| == 0;
    } else {
      assert a[0] in multiset(b);
      var i :| 0 <= i < |b| && b[i] == a[0];
      SameCountsWithout(a, b, i);
      CostWithout(a, 0, sep);
      CostWithout(b, i, sep);
      CostIgnoresOrder(a[..0] + a[1..], b[..i] + b[i+1..], sep);
    }
  }

  /** Reordering the attachments keeps the verdict. */
  lemma {:induction false} OrderKeepsVerdict(r: Request, reordered: seq<Attachment>)
    requires multiset(Blocks(reordered)) == multiset(Blocks(r.attachments))
    ensures Accepts(r) <==> Accepts(r.(attachments := reordered))
  {
    CostIgnoresOrder(Blocks(r.attachments), Blocks(reordered), 2);
    assert |multiset(Blocks(reordered))| == |reordered| && |multiset(Blocks(r.attachments))| == |r.attachments|;
  }

  /** Taking an attachment away never turns an accepted plan into a rejected one. */
  lemma {:induction false} RemovalKeepsOk(r: Request, i: nat)
    requires Accepts(r) && i < |r.attachments|
    ensures Accepts(r.(attachments := r.attachments[..i] + r.attachments[i+1..]))
  {
    WithoutBlock(r.attachments, i);
    CostWithout(Blocks(r.attachments), i, 2);
    var fewer := r.(attachments := r.attachments[..i] + r.attachments[i+1..]);
    if fewer.attachments != [] {
      assert PriorBudget(fewer) == PriorBudget(r);
    }
  }

  lemma {:induction false} WithoutBlock(attachments: seq<Attachment>, i: nat)
    requires i < |attachments|
    ensures Blocks(attachments[..i] + attachments[i+1..]) == Blocks(attachments)[..i] + Blocks(attachments)[i+1..]
  {}

  /** What the newest `k` prior turns are charged: their lines in one envelope, and a separator. */
  function TurnsCharge(r: Request, k: nat): nat
    requires k <= |r.prior|
  {
    if k == 0 then 0 else r.marks.turns.Overhead() + Cost(r.prior[|r.prior|-k..], 1) + 1
  }

  function TurnsKept(r: Request): nat { LinesKept(r.marks.turns, r.prior, PriorBudget(r)) }

  lemma {:induction false} PriorTextCharge(r: Request)
    ensures Charge(PriorText(r)) == TurnsCharge(r, TurnsKept(r))
  {
    var k := TurnsKept(r);
    if k > 0 { JoinCosts(r.prior[|r.prior|-k..], "\n"); }
  }

  /** A larger budget never drops a turn. */
  lemma {:induction false} MoreBudgetKeepsTurns(r: Request, m: int)
    requires m >= r.maxChars
    ensures TurnsKept(r.(maxChars := m)) >= TurnsKept(r)
  {
    var s := r.(maxChars := m);
    var k := TurnsKept(r);
    assert PriorBudget(s) >= PriorBudget(r);
    MostLinesFit(r.marks.turns, r.prior, |r.prior|, PriorBudget(r));
    MostLinesFit(r.marks.turns, r.prior, |r.prior|, PriorBudget(s));
    if k > TurnsKept(s) { assert LinesFit(r.marks.turns, r.prior, k, PriorBudget(s)); }
  }

  /** What an accepted plan leaves unused of the room for its attachments. */
  function Slack(r: Request): int { Room(r) - r.marks.files.Overhead() - Cost(Blocks(r.attachments), 2) }

  /**
    Does a larger budget keep an accepted plan? Without attachments always. With attachments
    exactly when the further prior turns it lets in cost no more than the budget has grown and the
    accepted plan had left.
  */
  lemma {:induction false} MoreBudgetKeepsOkIff(r: Request, m: int)
    requires Accepts(r) && m >= r.maxChars
    ensures var s := r.(maxChars := m);
      TurnsKept(s) >= TurnsKept(r)
      && (Accepts(s) <==>
          r.attachments == []
          || TurnsCharge(r, TurnsKept(s)) - TurnsCharge(r, TurnsKept(r)) <= (m - r.maxChars) + Slack(r))
  {
    var s := r.(maxChars := m);
    MoreBudgetKeepsTurns(r, m);
    PriorTextCharge(r);
    PriorTextCharge(s);
    assert Remaining(s) == Remaining(r) + (m - r.maxChars);
  }

  /** In particular as long as it lets no further prior turn in. */
  lemma {:induction false} MoreBudgetKeepsOk(r: Request, maxChars: int)
    requires Accepts(r) && maxChars >= r.maxChars
    requires TurnsKept(r.(maxChars := maxChars)) == TurnsKept(r)
    ensures Accepts(r.(maxChars := maxChars))
  {
    MoreBudgetKeepsOkIff(r, maxChars);
    assert r.attachments != [] ==> Slack(r) >= 0;
  }

  /** A budget that leaves room for one turn less one character, and for the attachment if there is no turn. */
  function TightRemaining(marks: Envelopes): nat { 200 + 2 * marks.turns.Overhead() + marks.files.Overhead() }

  function TightLine(marks: Envelopes): nat { TightRemaining(marks) * 55 / 100 - marks.turns.Overhead() }

  function TightBlock(marks: Envelopes): nat { TightRemaining(marks) - marks.files.Overhead() - 2 }

  /** `base` with one prior turn, one attachment and a budget that just fits. */
  function Tight(base: Request, line: string, a: Attachment): Request {
    base.(prior := [line], attachments := [a], maxChars := Fixed(base) + 4 + TightRemaining(base.marks))
  }

  lemma {:induction false} OneLineKept(marks: Marks, line: string, maxChars: int)
    ensures LinesKept(marks, [line], maxChars) == (if marks.Overhead() + |line| + 1 <= maxChars then 1 else 0)
  {
    assert [line][|[line]|-1..] == [line];
    CostOfOne(line, 1);
  }

  lemma {:induction false} TightVerdict(base: Request, line: string, a: Attachment, more: nat)
    requires |line| == TightLine(base.marks) && |a.block| == TightBlock(base.marks) && more <= 2
    ensures var s := Tight(base, line, a).(maxChars := Fixed(base) + 4 + TightRemaining(base.marks) + more);
      PriorBudget(s) == (TightRemaining(base.marks) + more) * 55 / 100
      && TurnsKept(s) == (if PriorBudget(s) > TightRemaining(base.marks) * 55 / 100 then 1 else 0)
      && Cost(Blocks(s.attachments), 2) == TightBlock(base.marks) + 2
  {
    var s := Tight(base, line, a).(maxChars := Fixed(base) + 4 + TightRemaining(base.marks) + more);
    assert Fixed(s) == Fixed(base);
    OneLineKept(base.marks.turns, line, PriorBudget(s));
    assert Blocks(s.attachments) == [a.block];
    CostOfOne(a.block, 2);
  }

  /** Accepted, but not with two characters more. */
  predicate MoreIsTooMuch(r: Request) { Accepts(r) && !Accepts(r.(maxChars := r.maxChars + 2)) }

  /**
    The condition can fail, whatever the prompts and envelopes are: two characters more turn an
    accepted plan into a rejected one, because the share of the prior turns grows first and a turn
    that now fits leaves the attachment too little.
  */
  lemma {:induction false} MoreBudgetCanReject(base: Request, line: string, a: Attachment)
    requires |line| == TightLine(base.marks) && |a.block| == TightBlock(base.marks)
    ensures MoreIsTooMuch(Tight(base, line, a))
  {
    var r := Tight(base, line, a);
    TightVerdict(base, line, a, 0);
    assert r.(maxChars := r.maxChars + 0) == r;
    TightVerdict(base, line, a, 2);
    PriorTextCharge(r);
    assert Accepts(r);
    MoreBudgetKeepsOkIff(r, r.maxChars + 2);
    CostOfOne(line, 1);
    assert r.prior[|r.prior|-1..] == [line];
  }

  function Letters(n: nat): (s: string)
    ensures |s| == n
  {
    seq(n, _ => 'x')
  }

  lemma {:induction false} AnyEnvelopesCanReject(system: string, user: string, marks: Envelopes) returns (r: Request)
    ensures r.marks == marks && r.system == system && r.user == user
    ensures MoreIsTooMuch(r)
  {
    var base := Request(system, "", "", "", user, [], [], 0, marks);
    var line, a := Letters(TightLine(marks)), Attachment("a", "a", Letters(TightBlock(marks)));
    MoreBudgetCanReject(base, line, a);
    r := Tight(base, line, a);
  }

  /** In particular with the source's own envelopes, any system prompt and any request. */
  lemma {:induction false} MoreBudgetCanRejectForReal(system: string, user: string) returns (r: Request)
    ensures r.marks == ENVELOPES && r.system == system && r.user == user
    ensures MoreIsTooMuch(r)
  {
    r := AnyEnvelopesCanReject(system, user, ENVELOPES);
  }

  lemma {:induction false} PathOf(attachments: seq<Attachment>, n: nat, i: nat)
    requires n <= i < |attachments|
    ensures attachments[i].path in Paths(attachments[n..])
  {
    assert attachments[n..][i-n] == attachments[i];
  }

  predicate DistinctPaths(attachments: seq<Attachment>) {
    forall i, j | 0 <= i < j < |attachments| :: attachments[i].path != attachments[j].path
  }

  /**
    On a packing failure the entries marked included are exactly the longest prefix that fits,
    provided the paths are distinct.
  */
  lemma {:induction false} IncludedIsLongestPrefix(r: Request, i: nat)
    requires Packed(r) < |r.attachments| && i < |r.attachments| && DistinctPaths(r.attachments)
    ensures PackingReport(r)[i].status == Included
            <==> BlocksFit(r.marks.files, Blocks(r.attachments), i + 1, Room(r))
  {
    var n := Packed(r);
    PackedIsLongestPrefix(r.marks.files, Blocks(r.attachments), i + 1, Room(r));
    var rest := r.attachments[n..];
    if r.attachments[i].path in Paths(rest) {
      var a :| a in rest && a.path == r.attachments[i].path;
      var k :| 0 <= k < |rest| && rest[k] == a;
      assert r.attachments[n+k].path == r.attachments[i].path;
    }
    if i >= n { PathOf(r.attachments, n, i); }
  }

  /** Without distinct paths an entry that was packed can be reported as omitted: when a later one shares its path. */
  lemma {:induction false} PackedButOmittedIff(r: Request, i: nat)
    requires Packed(r) < |r.attachments| && i < Packed(r)
    ensures PackingReport(r)[i].status == OmittedByBudget
            <==> exists j | Packed(r) <= j < |r.attachments| :: r.attachments[j].path == r.attachments[i].path
  {
    var n := Packed(r);
    var rest := r.attachments[n..];
    if r.attachments[i].path in Paths(rest) {
      var a :| a in rest && a.path == r.attachments[i].path;
      var k :| 0 <= k < |rest| && rest[k] == a;
      assert r.attachments[n+k] == a;
    }
    forall j | n <= j < |r.attachments| ensures r.attachments[j].path in Paths(rest) {
      PathOf(r.attachments, n, j);
    }
  }
}
