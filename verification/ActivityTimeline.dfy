/**
  The activity timeline: EV events folded into rows. A tool call has one row, which its later
  events rewrite in place through an index; every other event that is shown adds a row.
*/
module ActivityTimeline {
  import opened Options
  import opened EvEvents

  datatype VisualStatus = Waiting | Running | Success | Denied | Cancelled | Failed

  datatype RowKind =
    | PlanRow(titles: seq<string>)
    | StepRow(stepId: string)
    | ToolRow(callId: string, toolName: string, target: Option<string>, isRead: bool)
    | FileRow(path: string, op: FileOp)
    | ProgressRow
    | ErrorRow(message: string)
    | TerminalRow(detail: Option<string>)

  datatype Row = Row(no: int, at: string, status: VisualStatus, kind: RowKind)
  datatype FileChange = FileChange(no: int, at: string, op: FileOp, path: string)

  datatype Snapshot = Snapshot(
    items: seq<Row>, fileChanges: seq<FileChange>, readPaths: seq<string>, terminal: Option<TerminalState>)

  // --- rows --------------------------------------------------------------------------------

  function StatusOf(s: StepStatus): VisualStatus {
    match s
    case Pending => Waiting
    case Running => VisualStatus.Running
    case Completed => Success
    case Errored => Failed
    case Cancelled => VisualStatus.Cancelled
  }

  function TerminalStatus(t: TerminalState): VisualStatus {
    match t
    case RunCompleted => Success
    case RunErrored => Failed
    case RunCancelled => VisualStatus.Cancelled
    case RunDenied => Denied
  }

  predicate IsReadTool(name: string) { name == "read" || name == "list" || name == "glob" || name == "grep" }

  /** `toRelativePath` of a non-empty summary; `rel` stands for the path formatting. */
  function ToolPath(e: Event, rel: string -> string): Option<string>
    requires e.ToolCall?
  {
    if Truthy(e.summary).Some? then Some(rel(e.summary.value)) else None
  }

  function Titles(todos: seq<Todo>): seq<string> {
    if todos == [] then [] else [todos[0].title] + Titles(todos[1..])
  }

  /** Does the event show at all? */
  predicate Shown(e: Event) {
    !e.Token? && !e.Metrics? && !(e.Step? && e.caption == "Step finished")
  }

  function RowOf(e: Event, rel: string -> string): Row
    requires Shown(e)
  {
    match e
    case Plan(no, at, todos) => Row(no, at, VisualStatus.Running, PlanRow(Titles(todos)))
    case Step(no, at, id, _, status) => Row(no, at, StatusOf(status), StepRow(id))
    case ToolCall(no, at, id, name, status, _) =>
      Row(no, at, StatusOf(status), ToolRow(id, name, ToolPath(e, rel), IsReadTool(name) && status == Completed))
    case FileMutation(no, at, op, path, _) => Row(no, at, Success, FileRow(rel(path), op))
    case Progress(no, at, _, _) => Row(no, at, VisualStatus.Running, ProgressRow)
    case Error(no, at, message, _) => Row(no, at, Failed, ErrorRow(message))
    case Terminal(no, at, state, note) => Row(no, at, TerminalStatus(state), TerminalRow(note))
  }

  // --- what the timeline should be ---------------------------------------------------------

  predicate IsCall(e: Event, id: string) { e.ToolCall? && e.callId == id }

  /** The first event of a tool call; |es| if there is none. */
  function FirstCall(es: seq<Event>, id: string): (i: nat)
    ensures i <= |es| && (i < |es| ==> IsCall(es[i], id)) && forall j | 0 <= j < i :: !IsCall(es[j], id)
  {
    if es == [] then 0
    else
      var i := FirstCall(es[..|es|-1], id);
      if i < |es| - 1 then i else if IsCall(es[|es|-1], id) then |es| - 1 else |es|
  }

  /** The last event of a tool call. */
  function LastCall(es: seq<Event>, id: string): (i: nat)
    requires exists e <- es :: IsCall(e, id)
    ensures i < |es| && IsCall(es[i], id) && forall j | i < j < |es| :: !IsCall(es[j], id)
  {
    assert es == es[..|es|-1] + [es[|es|-1]];
    if IsCall(es[|es|-1], id) then |es| - 1 else LastCall(es[..|es|-1], id)
  }

  /** Event `i` adds a row: it shows, and it is not a later event of a known tool call. */
  predicate Opens(es: seq<Event>, i: nat)
    requires i < |es|
  {
    Shown(es[i]) && (es[i].ToolCall? ==> FirstCall(es, es[i].callId) == i)
  }

  /** The event whose content the row opened by event `i` shows. */
  function Content(es: seq<Event>, i: nat): Event
    requires i < |es| && Opens(es, i)
  {
    if es[i].ToolCall? then
      assert es[i] in es && IsCall(es[i], es[i].callId);
      es[LastCall(es, es[i].callId)]
    else es[i]
  }

  /** The rows opened by the first `n` events. */
  function Rows(es: seq<Event>, n: nat, rel: string -> string): seq<Row>
    requires n <= |es|
  {
    if n == 0 then []
    else
      var before := Rows(es, n - 1, rel);
      if Opens(es, n - 1) then before + [RowOf(Content(es, n - 1), rel)] else before
  }

  function FileChanges(es: seq<Event>, rel: string -> string): seq<FileChange> {
    if es == [] then []
    else
      var e := es[|es|-1];
      FileChanges(es[..|es|-1], rel)
      + if e.FileMutation? then [FileChange(e.no, e.at, e.op, rel(e.path))] else []
  }

  /** The path a completed read tool call read, if it named one. */
  function ReadPath(e: Event, rel: string -> string): Option<string> {
    if e.ToolCall? && IsReadTool(e.toolName) && e.status == Completed then ToolPath(e, rel) else None
  }

  /** The paths read, each once, in the order in which they were first read. */
  function ReadPaths(es: seq<Event>, rel: string -> string): seq<string> {
    if es == [] then []
    else
      var before := ReadPaths(es[..|es|-1], rel);
      var p := ReadPath(es[|es|-1], rel);
      if p.Some? && p.value !in before then before + [p.value] else before
  }

  function LastTerminal(es: seq<Event>): Option<TerminalState> {
    if es == [] then None
    else if es[|es|-1].Terminal? then Some(es[|es|-1].state) else LastTerminal(es[..|es|-1])
  }

  /** The timeline of `es`. */
  function Timeline(es: seq<Event>, rel: string -> string): Snapshot {
    Snapshot(Rows(es, |es|, rel), FileChanges(es, rel), ReadPaths(es, rel), LastTerminal(es))
  }

  // --- what the panel is promised ----------------------------------------------------------

  /** The panel's word for the status of a step or tool call. */
  predicate Means(v: VisualStatus, s: StepStatus) {
    && (v == Success <==> s == Completed) && (v == Failed <==> s == Errored)
    && (v == VisualStatus.Cancelled <==> s == StepStatus.Cancelled)
    && (v == VisualStatus.Running <==> s == StepStatus.Running) && (v == Waiting <==> s == Pending)
  }

  predicate MeansEnd(v: VisualStatus, t: TerminalState) {
    && (v == Success <==> t == RunCompleted) && (v == Failed <==> t == RunErrored)
    && (v == VisualStatus.Cancelled <==> t == RunCancelled) && (v == Denied <==> t == RunDenied)
  }

  /** A completed call of a tool that only reads. */
  predicate IsRead(e: Event) {
    e.ToolCall? && e.status == Completed && e.toolName in ["read", "list", "glob", "grep"]
  }

  /** Row `r` tells event `e`. */
  predicate Tells(r: Row, e: Event, rel: string -> string) {
    r.no == e.no && r.at == e.at
    && match e
       case ToolCall(_, _, id, name, status, summary) =>
         && r.kind.ToolRow? && r.kind.callId == id && r.kind.toolName == name && Means(r.status, status)
         && r.kind.target == (if summary.None? || summary.value == "" then None else Some(rel(summary.value)))
         && (r.kind.isRead <==> IsRead(e))
       case Step(_, _, id, _, status) => r.kind == StepRow(id) && Means(r.status, status)
       case FileMutation(_, _, op, path, _) => r.kind == FileRow(rel(path), op) && r.status == Success
       case Plan(_, _, todos) =>
         && r.kind.PlanRow? && |r.kind.titles| == |todos| && r.status == VisualStatus.Running
         && forall k | 0 <= k < |todos| :: r.kind.titles[k] == todos[k].title
       case Progress(_, _, _, _) => r.kind == ProgressRow && r.status == VisualStatus.Running
       case Error(_, _, message, _) => r.kind == ErrorRow(message) && r.status == Failed
       case Terminal(_, _, state, note) => r.kind == TerminalRow(note) && MeansEnd(r.status, state)
       case _ => false
  }

  /** Event `i` gets a row of its own: it is no token, no metrics, no finished step and no later event of a tool call. */
  predicate GetsRow(es: seq<Event>, i: nat)
    requires i < |es|
  {
    match es[i]
    case Token(_, _, _) => false
    case Metrics(_, _, _) => false
    case Step(_, _, _, caption, _) => caption != "Step finished"
    case ToolCall(_, _, id, _, _, _) => forall j | 0 <= j < i :: !IsCall(es[j], id)
    case _ => true
  }

  /** How many of the first `n` events get a row. */
  function RowsUpTo(es: seq<Event>, n: nat): nat
    requires n <= |es|
  {
    if n == 0 then 0 else RowsUpTo(es, n - 1) + if GetsRow(es, n - 1) then 1 else 0
  }

  /** The row of event `i` tells event `l`: itself, or the last event of its tool call. */
  predicate ToldBy(es: seq<Event>, i: nat, l: nat)
    requires i < |es| && l < |es|
  {
    if es[i].ToolCall? then IsCall(es[l], es[i].callId) && forall j | l < j < |es| :: !IsCall(es[j], es[i].callId)
    else l == i
  }

  /** The rows in the order of the events that get one, each telling its event. */
  ghost predicate TellsAll(items: seq<Row>, es: seq<Event>, rel: string -> string) {
    && |items| == RowsUpTo(es, |es|)
    && forall i, l | 0 <= i < |es| && 0 <= l < |es| && GetsRow(es, i) && ToldBy(es, i, l) ::
         RowsUpTo(es, i) < |items| && Tells(items[RowsUpTo(es, i)], es[l], rel)
  }

  lemma {:induction false} TitleOf(todos: seq<Todo>, k: nat)
    requires k < |todos|
    ensures |Titles(todos)| == |todos| && Titles(todos)[k] == todos[k].title
  {
    if |todos| > 1 { TitleOf(todos[1..], if k == 0 then 0 else k - 1); }
  }

  lemma {:induction false} RowTells(e: Event, rel: string -> string)
    requires Shown(e)
    ensures Tells(RowOf(e, rel), e, rel)
  {
    if e.Plan? {
      if e.todos == [] { assert Titles(e.todos) == []; }
      forall k | 0 <= k < |e.todos| ensures |Titles(e.todos)| == |e.todos| && Titles(e.todos)[k] == e.todos[k].title {
        TitleOf(e.todos, k);
      }
    }
  }

  lemma {:induction false} GetsRowIff(es: seq<Event>, i: nat)
    requires i < |es|
    ensures GetsRow(es, i) <==> Opens(es, i)
  {
    if es[i].ToolCall? {
      var f := FirstCall(es, es[i].callId);
      assert IsCall(es[i], es[i].callId);
    }
  }

  lemma {:induction false} RowsAreCounted(es: seq<Event>, n: nat, rel: string -> string)
    requires n <= |es|
    ensures |Rows(es, n, rel)| == RowsUpTo(es, n)
  {
    if n > 0 {
      RowsAreCounted(es, n - 1, rel);
      GetsRowIff(es, n - 1);
    }
  }

  lemma {:induction false} ToldIsContent(es: seq<Event>, i: nat, l: nat)
    requires i < |es| && l < |es| && GetsRow(es, i) && ToldBy(es, i, l)
    ensures Opens(es, i) && Content(es, i) == es[l] && Shown(es[l])
  {
    GetsRowIff(es, i);
    if es[i].ToolCall? {
      assert es[i] in es && IsCall(es[i], es[i].callId);
      var k := LastCall(es, es[i].callId);
      assert k == l;
    }
  }

  lemma {:induction false} TimelineTellsAll(es: seq<Event>, rel: string -> string)
    ensures TellsAll(Timeline(es, rel).items, es, rel)
  {
    RowsAreCounted(es, |es|, rel);
    forall i, l | 0 <= i < |es| && 0 <= l < |es| && GetsRow(es, i) && ToldBy(es, i, l)
      ensures RowsUpTo(es, i) < |Rows(es, |es|, rel)| && Tells(Rows(es, |es|, rel)[RowsUpTo(es, i)], es[l], rel)
    {
      ToldIsContent(es, i, l);
      RowAt(es, i, |es|, rel);
      RowsAreCounted(es, i, rel);
      RowTells(es[l], rel);
    }
  }

  /** The state of the last terminal event, if there is one. */
  ghost predicate EndsWith(terminal: Option<TerminalState>, es: seq<Event>) {
    && (terminal.None? <==> forall e <- es :: !e.Terminal?)
    && forall i | 0 <= i < |es| && es[i].Terminal? && (forall j | i < j < |es| :: !es[j].Terminal?) ::
         terminal == Some(es[i].state)
  }

  lemma {:induction false} LastTerminalEnds(es: seq<Event>)
    ensures EndsWith(LastTerminal(es), es)
  {
    if es != [] {
      var init, e := es[..|es|-1], es[|es|-1];
      LastTerminalEnds(init);
      assert es == init + [e];
      forall i | 0 <= i < |es| && es[i].Terminal? && (forall j | i < j < |es| :: !es[j].Terminal?)
        ensures LastTerminal(es) == Some(es[i].state)
      {
        if i < |init| {
          assert init[i] == es[i];
          assert forall j | i < j < |init| :: init[j] == es[j];
        }
      }
    }
  }

  /** Some completed read named this path. */
  predicate Reads(e: Event, p: string, rel: string -> string) {
    IsRead(e) && e.summary.Some? && e.summary.value != "" && rel(e.summary.value) == p
  }

  // --- one more event ----------------------------------------------------------------------

  lemma {:induction false} FirstCallStays(es: seq<Event>, e: Event, id: string)
    ensures FirstCall(es + [e], id) == (if FirstCall(es, id) < |es| then FirstCall(es, id)
                                        else if IsCall(e, id) then |es| else |es| + 1)
  {
    assert (es + [e])[..|es|] == es;
  }

  lemma {:induction false} LastCallStays(es: seq<Event>, e: Event, id: string)
    requires exists x <- es :: IsCall(x, id)
    ensures exists x <- es + [e] :: IsCall(x, id)
    ensures LastCall(es + [e], id) == (if IsCall(e, id) then |es| else LastCall(es, id))
  {
    assert (es + [e])[..|es|] == es;
    var x :| x in es && IsCall(x, id);
    assert x in es + [e];
  }

  lemma {:induction false} OpensStays(es: seq<Event>, e: Event, i: nat)
    requires i < |es|
    ensures Opens(es + [e], i) <==> Opens(es, i)
    ensures Opens(es, i) ==> Content(es + [e], i) == (if e.ToolCall? && IsCall(es[i], e.callId) then e else Content(es, i))
  {
    if es[i].ToolCall? {
      FirstCallStays(es, e, es[i].callId);
      assert es[i] in es && IsCall(es[i], es[i].callId);
      LastCallStays(es, e, es[i].callId);
    }
  }

  /** The rows already there keep their places; a later tool event rewrites the row of its call. */
  lemma {:induction false} RowsStay(es: seq<Event>, e: Event, n: nat, rel: string -> string)
    requires n <= |es|
    ensures var f := if e.ToolCall? then FirstCall(es, e.callId) else |es|;
      var had := Rows(es, n, rel);
      var now := Rows(es + [e], n, rel);
      |now| == |had|
      && (n <= f ==> now == had)
      && (f < n ==> |Rows(es, f, rel)| < |had| && now == had[|Rows(es, f, rel)| := RowOf(e, rel)])
  {
    if n > 0 {
      RowsStay(es, e, n - 1, rel);
      OpensStays(es, e, n - 1);
      var f := if e.ToolCall? then FirstCall(es, e.callId) else |es|;
      if e.ToolCall? && n - 1 == f { assert IsCall(es[f], e.callId); }
      if e.ToolCall? && f < n - 1 && Opens(es, n - 1) && IsCall(es[n-1], e.callId) { assert false; }
    }
  }

  lemma {:induction false} RowsGrow(es: seq<Event>, m: nat, n: nat, rel: string -> string)
    requires m <= n <= |es|
    ensures |Rows(es, m, rel)| <= |Rows(es, n, rel)|
  {
    if m < n { RowsGrow(es, m, n - 1, rel); }
  }

  // --- the algorithm -----------------------------------------------------------------------

  /** The index points at the row of every tool call seen so far, and at nothing else. */
  ghost predicate IndexOk(es: seq<Event>, toolIndex: map<string, nat>, rel: string -> string) {
    forall id :: (id in toolIndex <==> FirstCall(es, id) < |es|)
                 && (id in toolIndex ==> toolIndex[id] == |Rows(es, FirstCall(es, id), rel)| < |Rows(es, |es|, rel)|)
  }

  /** What one more event does to the rows: nothing, a rewrite in place, or a new row at the end. */
  lemma {:induction false} OneMoreRow(es: seq<Event>, e: Event, rel: string -> string)
    ensures var f := if e.ToolCall? then FirstCall(es, e.callId) else |es|;
      var had, now := Rows(es, |es|, rel), Rows(es + [e], |es| + 1, rel);
      && (f < |es| ==> |Rows(es, f, rel)| < |had| && now == had[|Rows(es, f, rel)| := RowOf(e, rel)])
      && (f == |es| ==> now == if Shown(e) then had + [RowOf(e, rel)] else had)
  {
    RowsStay(es, e, |es|, rel);
    assert (es + [e])[|es|] == e;
    if e.ToolCall? {
      FirstCallStays(es, e, e.callId);
      assert e in es + [e] && IsCall(e, e.callId);
      assert (es + [e])[..|es|] == es;
    }
  }

  lemma {:induction false} RowsBefore(es: seq<Event>, e: Event, id: string, rel: string -> string)
    requires FirstCall(es, id) < |es|
    ensures |Rows(es + [e], FirstCall(es, id), rel)| == |Rows(es, FirstCall(es, id), rel)|
  {
    RowsStay(es, e, FirstCall(es, id), rel);
  }

  /** The number of rows never goes down, and goes up when the call is new. */
  lemma {:induction false} RowCount(es: seq<Event>, e: Event, rel: string -> string)
    ensures |Rows(es + [e], |es| + 1, rel)| >= |Rows(es, |es|, rel)|
    ensures e.ToolCall? && FirstCall(es, e.callId) == |es| ==>
              |Rows(es + [e], |es|, rel)| == |Rows(es, |es|, rel)| < |Rows(es + [e], |es| + 1, rel)|
  {
    OneMoreRow(es, e, rel);
    RowsStay(es, e, |es|, rel);
  }

  /** Where the index has to point for `id` after one more event. */
  lemma {:induction false} CallPlace(es: seq<Event>, e: Event, id: string, rel: string -> string)
    ensures var f, g := FirstCall(es, id), FirstCall(es + [e], id);
      && (f < |es| ==> g == f && |Rows(es + [e], g, rel)| == |Rows(es, f, rel)|)
      && (f == |es| && IsCall(e, id) ==> g == |es| && |Rows(es + [e], g, rel)| == |Rows(es, |es|, rel)|)
      && (f == |es| && !IsCall(e, id) ==> g == |es| + 1)
  {
    FirstCallStays(es, e, id);
    if FirstCall(es, id) < |es| {
      RowsBefore(es, e, id, rel);
    } else {
      RowsStay(es, e, |es|, rel);
    }
  }

  lemma {:induction false} IndexStays(es: seq<Event>, e: Event, before: map<string, nat>, after: map<string, nat>, rel: string -> string)
    requires IndexOk(es, before, rel)
    requires after == if e.ToolCall? && e.callId !in before then before[e.callId := |Rows(es, |es|, rel)|] else before
    ensures IndexOk(es + [e], after, rel)
  {
    RowCount(es, e, rel);
    forall id
      ensures id in after <==> FirstCall(es + [e], id) < |es| + 1
      ensures id in after ==>
        after[id] == |Rows(es + [e], FirstCall(es + [e], id), rel)| < |Rows(es + [e], |es| + 1, rel)|
    {
      CallPlace(es, e, id, rel);
    }
  }

  lemma {:induction false} OneMoreEvent(es: seq<Event>, e: Event, rel: string -> string)
    ensures FileChanges(es + [e], rel)
            == FileChanges(es, rel) + if e.FileMutation? then [FileChange(e.no, e.at, e.op, rel(e.path))] else []
    ensures ReadPaths(es + [e], rel)
            == (var p := ReadPath(e, rel);
                if p.Some? && p.value !in ReadPaths(es, rel) then ReadPaths(es, rel) + [p.value] else ReadPaths(es, rel))
    ensures LastTerminal(es + [e]) == if e.Terminal? then Some(e.state) else LastTerminal(es)
  {
    assert (es + [e])[..|es|] == es;
  }

  lemma {:induction false} ShownAppends(es: seq<Event>, e: Event, rel: string -> string)
    ensures !e.ToolCall? ==> Rows(es + [e], |es| + 1, rel)
                             == if Shown(e) then Rows(es, |es|, rel) + [RowOf(e, rel)] else Rows(es, |es|, rel)
  {
    OneMoreRow(es, e, rel);
  }

  /** The rows and the index built from the events so far. */
  ghost predicate Built(es: seq<Event>, items: seq<Row>, toolIndex: map<string, nat>, rel: string -> string) {
    items == Rows(es, |es|, rel) && IndexOk(es, toolIndex, rel)
  }

  /** Rewrite the row of a known call in place, or append a row and remember where it is. */
  method PlaceToolRow(ghost es: seq<Event>, e: Event, items: seq<Row>, toolIndex: map<string, nat>, rel: string -> string)
    returns (items': seq<Row>, toolIndex': map<string, nat>)
    requires e.ToolCall? && Built(es, items, toolIndex, rel)
    ensures Built(es + [e], items', toolIndex', rel)
  {
    OneMoreRow(es, e, rel);
    items', toolIndex' := items, toolIndex;
    if e.callId in toolIndex {
      items' := items[toolIndex[e.callId] := RowOf(e, rel)];
    } else {
      toolIndex' := toolIndex[e.callId := |items|];
      items' := items + [RowOf(e, rel)];
    }
    IndexStays(es, e, toolIndex, toolIndex', rel);
  }

  /** The body of the loop over the events. */
  method ShowEvent(ghost es: seq<Event>, event: Event, s: Snapshot, toolIndex: map<string, nat>, rel: string -> string)
    returns (s': Snapshot, toolIndex': map<string, nat>)
    requires s == Timeline(es, rel) && IndexOk(es, toolIndex, rel)
    ensures s' == Timeline(es + [event], rel) && IndexOk(es + [event], toolIndex', rel)
  {
    ShownAppends(es, event, rel);
    OneMoreEvent(es, event, rel);
    s', toolIndex' := s, toolIndex;
    if event.ToolCall? {
      var items;
      items, toolIndex' := PlaceToolRow(es, event, s.items, toolIndex, rel);
      var path := ToolPath(event, rel);
      var readPaths := s.readPaths;
      if IsReadTool(event.toolName) && path.Some? && event.status == Completed && path.value !in readPaths {
        readPaths := readPaths + [path.value];
      }
      s' := s.(items := items, readPaths := readPaths);
    } else if event.FileMutation? {
      s' := s.(items := s.items + [RowOf(event, rel)],
               fileChanges := s.fileChanges + [FileChange(event.no, event.at, event.op, rel(event.path))]);
    } else if event.Terminal? {
      s' := s.(items := s.items + [RowOf(event, rel)], terminal := Some(event.state));
    } else if Shown(event) {
      s' := s.(items := s.items + [RowOf(event, rel)]);
    }
    if !event.ToolCall? { IndexStays(es, event, toolIndex, toolIndex', rel); }
  }

  method BuildActivitySnapshot(events: seq<Event>, rel: string -> string) returns (s: Snapshot)
    ensures s == Timeline(events, rel)
    ensures TellsAll(s.items, events, rel) && EndsWith(s.terminal, events)
    ensures forall p :: p in s.readPaths <==> exists e <- events :: Reads(e, p, rel)
    ensures FilesOf(s.items) == s.fileChanges
  {
    s := Snapshot([], [], [], None);
    var toolIndex: map<string, nat> := map[];
    for k := 0 to |events|
      invariant s == Timeline(events[..k], rel) && IndexOk(events[..k], toolIndex, rel)
    {
      s, toolIndex := ShowEvent(events[..k], events[k], s, toolIndex, rel);
      assert events[..k+1] == events[..k] + [events[k]];
    }
    assert events[..|events|] == events;
    TimelineTellsAll(events, rel);
    LastTerminalEnds(events);
    FileChangesAreTheFileRows(events, rel);
    forall p ensures p in s.readPaths <==> exists e <- events :: Reads(e, p, rel) { ReadPathsAreExact(events, p, rel); }
  }

  // --- what a reader of the panel relies on ------------------------------------------------

  /** What identifies a row: the tool call it stands for, or the number of its event. */
  datatype Key = ByCall(callId: string) | ByNumber(no: int)

  function KeyOf(r: Row): Key {
    if r.kind.ToolRow? then ByCall(r.kind.callId) else ByNumber(r.no)
  }

  /** Where the row of event `i` stands. */
  function Place(es: seq<Event>, i: nat, rel: string -> string): nat
    requires i < |es|
  {
    |Rows(es, i, rel)|
  }

  lemma {:induction false} RowAt(es: seq<Event>, i: nat, n: nat, rel: string -> string)
    requires i < n <= |es| && Opens(es, i)
    ensures Place(es, i, rel) < |Rows(es, n, rel)| && Rows(es, n, rel)[Place(es, i, rel)] == RowOf(Content(es, i), rel)
  {
    if i < n - 1 { RowAt(es, i, n - 1, rel); }
  }

  lemma {:induction false} RowComesFrom(es: seq<Event>, n: nat, p: nat, rel: string -> string) returns (i: nat)
    requires n <= |es| && p < |Rows(es, n, rel)|
    ensures i < n && Opens(es, i) && Place(es, i, rel) == p
  {
    if p < |Rows(es, n - 1, rel)| { i := RowComesFrom(es, n - 1, p, rel); } else { i := n - 1; }
  }

  lemma {:induction false} KeyOfContent(es: seq<Event>, i: nat, rel: string -> string)
    requires i < |es| && Opens(es, i)
    ensures KeyOf(RowOf(Content(es, i), rel)) == (if es[i].ToolCall? then ByCall(es[i].callId) else ByNumber(es[i].no))
  {}

  /** No two rows share a key when the events were merged by number: the panel can tell them apart. */
  lemma {:induction false} KeysAreDistinct(es: seq<Event>, p: nat, q: nat, rel: string -> string)
    requires Ascending(es) && p < q < |Timeline(es, rel).items|
    ensures KeyOf(Timeline(es, rel).items[p]) != KeyOf(Timeline(es, rel).items[q])
  {
    var i := RowComesFrom(es, |es|, p, rel);
    var j := RowComesFrom(es, |es|, q, rel);
    RowAt(es, i, |es|, rel);
    RowAt(es, j, |es|, rel);
    KeyOfContent(es, i, rel);
    KeyOfContent(es, j, rel);
    assert i != j;
    if i < j { assert es[i].no < es[j].no; } else { assert es[j].no < es[i].no; }
  }

  /**
    Every tool call has exactly one row: it stands where the call's first event put it and shows
    the call's last event.
  */
  lemma {:induction false} OneRowPerCall(es: seq<Event>, id: string, rel: string -> string)
    requires exists e <- es :: IsCall(e, id)
    ensures var f := FirstCall(es, id);
      f < |es| && Opens(es, f)
      && var items := Timeline(es, rel).items;
         Place(es, f, rel) < |items| && items[Place(es, f, rel)] == RowOf(es[LastCall(es, id)], rel)
         && forall p | 0 <= p < |items| && KeyOf(items[p]) == ByCall(id) :: p == Place(es, f, rel)
  {
    var e :| e in es && IsCall(e, id);
    var k :| 0 <= k < |es| && es[k] == e;
    var f := FirstCall(es, id);
    RowAt(es, f, |es|, rel);
    var items := Timeline(es, rel).items;
    forall p | 0 <= p < |items| && KeyOf(items[p]) == ByCall(id) ensures p == Place(es, f, rel) {
      var i := RowComesFrom(es, |es|, p, rel);
      RowAt(es, i, |es|, rel);
      KeyOfContent(es, i, rel);
    }
  }

  /** Rows never move: as events arrive in order, every row keeps its place and its key. */
  lemma {:induction false} RowsNeverMove(es: seq<Event>, more: seq<Event>, p: nat, rel: string -> string)
    requires p < |Timeline(es, rel).items|
    ensures p < |Timeline(es + more, rel).items|
    ensures KeyOf(Timeline(es + more, rel).items[p]) == KeyOf(Timeline(es, rel).items[p])
    decreases |more|
  {
    if more == [] {
      assert es + more == es;
    } else {
      var init, e := more[..|more|-1], more[|more|-1];
      RowsNeverMove(es, init, p, rel);
      KeyStays(es + init, e, p, rel);
      assert (es + init) + [e] == es + more;
    }
  }

  /** One more event keeps a row's place and key. */
  lemma {:induction false} KeyStays(es: seq<Event>, e: Event, p: nat, rel: string -> string)
    requires p < |Timeline(es, rel).items|
    ensures p < |Timeline(es + [e], rel).items|
    ensures KeyOf(Timeline(es + [e], rel).items[p]) == KeyOf(Timeline(es, rel).items[p])
  {
    OneMoreRow(es, e, rel);
    if e.ToolCall? && FirstCall(es, e.callId) < |es| {
      RewriteKeepsKey(es, e, rel);
    }
  }

  lemma {:induction false} RewriteKeepsKey(es: seq<Event>, e: Event, rel: string -> string)
    requires e.ToolCall? && FirstCall(es, e.callId) < |es|
    ensures var f := FirstCall(es, e.callId);
      Place(es, f, rel) < |Rows(es, |es|, rel)| && KeyOf(Rows(es, |es|, rel)[Place(es, f, rel)]) == ByCall(e.callId)
  {
    var f := FirstCall(es, e.callId);
    assert es[f].callId == e.callId;
    RowAt(es, f, |es|, rel);
    KeyOfContent(es, f, rel);
  }

  /** The file rows among `rows`, as file changes. */
  function FilesOf(rows: seq<Row>): seq<FileChange> {
    if rows == [] then []
    else
      FilesOf(rows[..|rows|-1]) + FileOf(rows[|rows|-1])
  }

  /** The file change that a row stands for, if it does. */
  function FileOf(r: Row): seq<FileChange> {
    if r.kind.FileRow? then [FileChange(r.no, r.at, r.kind.op, r.kind.path)] else []
  }

  lemma {:induction false} FilesOfOneMore(rows: seq<Row>, r: Row)
    ensures FilesOf(rows + [r]) == FilesOf(rows) + FileOf(r)
  {
    assert (rows + [r])[..|rows|] == rows;
  }

  /** The row an event opens is a file row exactly for a file mutation, and tells the same change. */
  lemma {:induction false} FileOfOpened(es: seq<Event>, i: nat, rel: string -> string)
    requires i < |es|
    ensures var e := es[i];
      var change := if e.FileMutation? then [FileChange(e.no, e.at, e.op, rel(e.path))] else [];
      if Opens(es, i) then FileOf(RowOf(Content(es, i), rel)) == change else change == []
  {}

  lemma {:induction false} FileRowsNext(es: seq<Event>, i: nat, had: seq<Event>, rows: seq<Row>, rel: string -> string)
    requires i < |es| && rows == Rows(es, i, rel) && FilesOf(rows) == FileChanges(had, rel)
    ensures FilesOf(Rows(es, i + 1, rel)) == FileChanges(had + [es[i]], rel)
  {
    FileOfOpened(es, i, rel);
    OneMoreEvent(had, es[i], rel);
    if Opens(es, i) { FilesOfOneMore(rows, RowOf(Content(es, i), rel)); }
  }

  lemma {:induction false} FileRowsSoFar(es: seq<Event>, n: nat, rel: string -> string)
    requires n <= |es|
    ensures FilesOf(Rows(es, n, rel)) == FileChanges(es[..n], rel)
  {
    if n > 0 {
      FileRowsSoFar(es, n - 1, rel);
      PrefixNext(es, n);
      FileRowsNext(es, n - 1, es[..n-1], Rows(es, n - 1, rel), rel);
    }
  }

  lemma {:induction false} PrefixNext(es: seq<Event>, n: nat)
    requires 0 < n <= |es|
    ensures es[..n] == es[..n-1] + [es[n-1]]
  {}

  /** The file changes listed and the file rows shown are the same, in the same order. */
  lemma {:induction false} FileChangesAreTheFileRows(es: seq<Event>, rel: string -> string)
    ensures FilesOf(Timeline(es, rel).items) == Timeline(es, rel).fileChanges
  {
    FileRowsSoFar(es, |es|, rel);
    assert es[..|es|] == es;
  }

  /** A path is listed as read exactly when a completed read call named it, and only once. */
  lemma {:induction false} ReadPathsAreExact(es: seq<Event>, p: string, rel: string -> string)
    ensures p in ReadPaths(es, rel) <==> exists e <- es :: Reads(e, p, rel)
    ensures forall i, j | 0 <= i < j < |ReadPaths(es, rel)| :: ReadPaths(es, rel)[i] != ReadPaths(es, rel)[j]
  {
    if es != [] {
      var init, e := es[..|es|-1], es[|es|-1];
      ReadPathsAreExact(init, p, rel);
      assert es == init + [e];
      assert ReadPath(e, rel) == Some(p) <==> Reads(e, p, rel);
    }
  }
}
