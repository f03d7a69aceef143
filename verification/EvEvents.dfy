/**
  EV events and the reducer that folds them into the authoritative session view: a stale event
  (`seq` not above the cursor) is ignored, the first terminal wins, and after it only a token may
  still add text, and only while the text is blank.
*/
module EvEvents {
  import opened Options
  import opened Text

  datatype StepStatus = Pending | Running | Completed | Errored | Cancelled
  datatype FileOp = Create | Edit | Delete | Move
  datatype TerminalState = RunCompleted | RunErrored | RunCancelled | RunDenied
  datatype SessionStatus = Idle | Live | Over(terminal: TerminalState)

  datatype Todo = Todo(id: string, title: string, status: StepStatus)

  datatype Event =
    | Plan(no: int, at: string, todos: seq<Todo>)
    | Step(no: int, at: string, stepId: string, caption: string, status: StepStatus)
    | ToolCall(no: int, at: string, callId: string, toolName: string, status: StepStatus, summary: Option<string>)
    | FileMutation(no: int, at: string, op: FileOp, path: string, previousPath: Option<string>)
    | Token(no: int, at: string, delta: string)
    | Progress(no: int, at: string, caption: string, ratio: Option<real>)
    | Metrics(no: int, at: string, usage: seq<Option<int>>)
    | Error(no: int, at: string, message: string, recovery: Option<string>)
    | Terminal(no: int, at: string, state: TerminalState, note: Option<string>)

  datatype StepView = StepView(stepId: string, caption: string, status: StepStatus)
  datatype ToolView = ToolView(callId: string, toolName: string, status: StepStatus, summary: Option<string>)
  datatype FileView = FileView(op: FileOp, path: string, previousPath: Option<string>)
  datatype ErrorView = ErrorView(message: string, recovery: Option<string>)

  /** What the activity columns show, apart from text, cursor and terminal. */
  datatype Board = Board(
    todos: seq<Todo>, steps: seq<StepView>, tools: seq<ToolView>, files: seq<FileView>,
    error: Option<ErrorView>, progress: Option<(string, Option<real>)>, usage: Option<seq<Option<int>>>)

  datatype View = View(status: SessionStatus, terminal: Option<TerminalState>, lastSeq: int, text: string, board: Board)

  function InitialView(): View {
    View(Idle, None, 0, "", Board([], [], [], [], None, None, None))
  }

  /** A present, non-empty string; the source's truthiness test. */
  function Truthy(s: Option<string>): Option<string> { if s == Some("") then None else s }

  /** Replace the first element with the same key, or append. */
  function Upsert<T>(list: seq<T>, item: T, key: T -> string): seq<T> {
    if list == [] then [item]
    else if key(list[0]) == key(item) then [item] + list[1..]
    else [list[0]] + Upsert(list[1..], item, key)
  }

  function StepKey(v: StepView): string { v.stepId }

  function ToolKey(v: ToolView): string { v.callId }

  /** The board after a live, non-terminal event. */
  function Show(b: Board, e: Event): Board
    requires !e.Terminal?
  {
    match e
    case Plan(_, _, todos) => b.(todos := todos)
    case Step(_, _, id, caption, status) =>
      b.(steps := Upsert(b.steps, StepView(id, caption, status), StepKey))
    case ToolCall(_, _, id, name, status, summary) =>
      b.(tools := Upsert(b.tools, ToolView(id, name, status, Truthy(summary)), ToolKey))
    case FileMutation(_, _, op, path, previous) => b.(files := b.files + [FileView(op, path, Truthy(previous))])
    case Token(_, _, _) => b
    case Progress(_, _, caption, ratio) => b.(progress := Some((caption, ratio)))
    case Metrics(_, _, usage) => b.(usage := Some(usage))
    case Error(_, _, message, recovery) => b.(error := Some(ErrorView(message, recovery)))
  }

  function FoldOne(v: View, e: Event): View {
    if v.terminal.Some? && !e.Terminal? then
      if e.Token? && Trim(v.text) == "" then v.(text := v.text + e.delta) else v
    else if e.Terminal? then
      if v.terminal.Some? then v
      else v.(terminal := Some(e.state), status := Over(e.state), board := v.board.(progress := None))
    else
      v.(status := Live, text := if e.Token? then v.text + e.delta else v.text, board := Show(v.board, e))
  }

  function Reduce(v: View, e: Event): View {
    if e.no <= v.lastSeq then v else FoldOne(v, e).(lastSeq := e.no)
  }

  function Fold(v: View, es: seq<Event>): View {
    if es == [] then v else Reduce(Fold(v, es[..|es|-1]), es[|es|-1])
  }

  lemma {:induction false} FoldSplit(v: View, a: seq<Event>, b: seq<Event>)
    ensures Fold(v, a + b) == Fold(Fold(v, a), b)
    decreases |b|
  {
    if b == [] {
      assert a + b == a;
    } else {
      FoldSplit(v, a, b[..|b|-1]);
      assert (a + b)[..|a + b|-1] == a + b[..|b|-1];
    }
  }

  lemma {:induction false} FoldNext(v: View, es: seq<Event>, e: Event)
    ensures Fold(v, es + [e]) == Reduce(Fold(v, es), e)
  {
    assert (es + [e])[..|es|] == es;
  }

  lemma {:induction false} FoldSingle(v: View, e: Event)
    ensures Fold(v, [e]) == Reduce(v, e)
  {
    assert [e][..0] == [];
    assert Fold(v, []) == v;
  }

  /** Strictly ascending sequence numbers. */
  predicate Ascending(es: seq<Event>) { forall i, j | 0 <= i < j < |es| :: es[i].no < es[j].no }

  /** Every event is newer than the cursor `n`. */
  predicate Above(es: seq<Event>, n: int) { forall e <- es :: e.no > n }

  lemma {:induction false} FoldCursor(v: View, es: seq<Event>)
    requires Ascending(es)
    ensures Fold(v, es).lastSeq >= v.lastSeq
    ensures Fold(v, es).lastSeq == (if es == [] || es[|es|-1].no <= v.lastSeq then v.lastSeq else es[|es|-1].no)
  {
    if es != [] {
      FoldCursor(v, es[..|es|-1]);
    }
  }

  /** Replaying what a view has already seen changes nothing. */
  lemma {:induction false} StaleIsNoOp(v: View, es: seq<Event>)
    requires forall e <- es :: e.no <= v.lastSeq
    ensures Fold(v, es) == v
  {
    if es != [] {
      StaleIsNoOp(v, es[..|es|-1]);
      assert es[|es|-1] in es;
    }
  }

  /**
    Resuming is exact: a view that has folded the log up to `p` and then receives any stretch of
    the log that starts at or before `p` is the fold of the log up to where the stretch ends.
  */
  lemma {:induction false} ResumeIsExact(v: View, log: seq<Event>, p: nat, q: nat, r: nat)
    requires Ascending(log) && Above(log, v.lastSeq) && q <= p <= |log| && q <= r <= |log|
    ensures Fold(Fold(v, log[..p]), log[q..r]) == Fold(v, log[..if r > p then r else p])
  {
    if r <= p {
      SeenIsNoOp(v, log, p, q, r);
    } else {
      SeenIsNoOp(v, log, p, q, p);
      FoldSplit(Fold(v, log[..p]), log[q..p], log[p..r]);
      FoldSplit(v, log[..p], log[p..r]);
      SplitAt(log, q, p, r);
      SplitAt(log, 0, p, r);
    }
  }

  lemma {:induction false} SplitAt<T>(s: seq<T>, i: nat, j: nat, k: nat)
    requires i <= j <= k <= |s|
    ensures s[i..j] + s[j..k] == s[i..k]
  {}

  lemma {:induction false} SeenIsNoOp(v: View, log: seq<Event>, p: nat, q: nat, r: nat)
    requires Ascending(log) && Above(log, v.lastSeq) && q <= r <= p <= |log|
    ensures Fold(Fold(v, log[..p]), log[q..r]) == Fold(v, log[..p])
  {
    if p > 0 {
      assert Ascending(log[..p]) && log[..p][p-1] == log[p-1] && log[p-1] in log;
      FoldCursor(v, log[..p]);
      forall i | q <= i < r ensures log[i].no <= log[p-1].no {}
      forall e | e in log[q..r] ensures e.no <= log[p-1].no {
        var i :| 0 <= i < r - q && e == log[q..r][i];
        assert e == log[q+i];
      }
      StaleIsNoOp(Fold(v, log[..p]), log[q..r]);
    } else {
      assert log[q..r] == [];
    }
  }

  /** Once over, a run stays over in the same way, whatever still arrives. */
  lemma {:induction false} TerminalSticks(v: View, es: seq<Event>)
    requires v.terminal.Some?
    ensures Fold(v, es).terminal == v.terminal && Fold(v, es).status == v.status && Fold(v, es).board == v.board
  {
    if es != [] {
      TerminalSticks(v, es[..|es|-1]);
    }
  }

  /** Only a terminal event ends a run. */
  lemma {:induction false} NoTerminalNoEnd(v: View, es: seq<Event>)
    requires v.terminal.None? && forall e <- es :: !e.Terminal?
    ensures Fold(v, es).terminal.None?
  {
    if es != [] {
      NoTerminalNoEnd(v, es[..|es|-1]);
      assert es[|es|-1] in es;
    }
  }
}
