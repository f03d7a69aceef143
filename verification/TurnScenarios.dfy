/**
  Runs that show where the guarantees of turn finalization end, and the exact condition under which
  a resolved text is blank, so that a finished turn leaves no message at all.
*/
module TurnScenarios {
  import opened Options
  import opened Text
  import opened TurnMachine
  import opened TurnProperties
  import opened TurnLimits

  // --- blank answers -----------------------------------------------------------------------

  lemma {:induction false} FixedTextsAreNotBlank()
    ensures !Blank(MISSING_FINAL) && !Blank(DENIED_TEXT) && !Blank(CANCELLED_TEXT)
  {
    assert MISSING_FINAL[0] == 'T' && DENIED_TEXT[0] == 'Y' && CANCELLED_TEXT[0] == 'P';
    assert !IsSpace('T') && !IsSpace('Y') && !IsSpace('P');
    StartsSolid(MISSING_FINAL);
    StartsSolid(DENIED_TEXT);
    StartsSolid(CANCELLED_TEXT);
  }

  /**
    A resolved text is blank only for an errored turn: when its error message is blank, or there is
    none and the streamed text is blank. The source's last resort is never reached.
  */
  lemma {:induction false} ResolvedIsBlankIff(v: TurnView, terminal: Ev.TerminalState, fetched: Option<string>)
    ensures Blank(Resolve(v, terminal, fetched).text)
            <==> terminal == Ev.RunErrored && Blank(if v.error.Some? then v.error.value else v.text)
  {
    FixedTextsAreNotBlank();
    TrimTwice(v.text);
    if v.error.Some? { TrimTwice(v.error.value); }
    if fetched.Some? { TrimTwice(fetched.value); }
  }

  /** Except for errors, text that was streamed is what the turn ends with. */
  lemma {:induction false} StreamedTextWins(v: TurnView, terminal: Ev.TerminalState, fetched: Option<string>)
    requires !Blank(v.text) && terminal != Ev.RunErrored
    ensures Resolve(v, terminal, fetched) == Settling(Trim(v.text), terminal, true)
  {}

  /** A completed turn without streamed text ends with the fetched one, or says that none came. */
  lemma {:induction false} FetchedTextIsUsed(v: TurnView, got: Option<string>)
    requires Blank(v.text)
    ensures var answered := got.Some? && !Blank(got.value);
      ResolveFetched(v, Ev.RunCompleted, got)
      == Settling(if answered then Trim(got.value) else MISSING_FINAL, Ev.RunCompleted, answered)
  {
    if got.Some? && Blank(got.value) { assert |Trim(got.value)| == |Trim(v.text)|; }
  }

  predicate Unwritten(st: Stage) { st.SavingPhase? || st.Refreshing? }

  /** What a turn that did not complete ends with: its text, or why there is none; for an error its message. */
  lemma {:induction false} EndedTextIs(v: TurnView, fetched: Option<string>)
    ensures Resolve(v, Ev.RunDenied, fetched).text == if Blank(v.text) then "Yêu cầu đã bị từ chối." else Trim(v.text)
    ensures Resolve(v, Ev.RunCancelled, fetched).text == if Blank(v.text) then "Phiên đã bị hủy." else Trim(v.text)
    ensures Resolve(v, Ev.RunErrored, fetched).text == Trim(if v.error.Some? then v.error.value else v.text)
    ensures Resolve(v, Ev.RunCompleted, fetched).text
            == if !Blank(v.text) then Trim(v.text)
               else if fetched.Some? && !Blank(fetched.value) then Trim(fetched.value)
               else "Tác vụ đã hoàn tất " + "nhưng runtime không trả về phản hồi cuối."
  {}

  /** How the conversation is marked when such a turn has settled its files. */
  lemma {:induction false} EndedPhaseIs(s: State, t: nat, unverified: bool, w: Wording)
    requires InFinal(s, t) && s.tasks.live[t].stage.Settling?
    ensures var phase := Step(s, FilesSettled(t, unverified), w).chat.phase;
      match s.tasks.live[t].stage.terminal
      case RunCompleted => phase == if s.tasks.live[t].stage.answered then Ended(Ev.RunCompleted) else EndedWithoutAnswer
      case RunErrored => phase == Ended(Ev.RunErrored)
      case RunCancelled => phase == Ended(Ev.RunCancelled)
      case RunDenied => phase == Ended(Ev.RunDenied)
  {}

  // --- what a message says -----------------------------------------------------------------

  /** The wordings of a settled text: as it is, or marked if a completed turn left file actions unverified. */
  predicate Words(text: string, terminal: Ev.TerminalState, said: string, w: Wording) {
    said == text || (terminal == Ev.RunCompleted && said == w.unverified(text))
  }

  /** Task `t`, which settled with `text`, has said and will say nothing else, from log position `from` on. */
  ghost predicate Says(s: State, t: nat, text: string, terminal: Ev.TerminalState, from: nat, w: Wording) {
    && t < s.tasks.next && from <= |s.log|
    && (t in s.tasks.live ==>
          && s.tasks.live[t].Final? && !s.tasks.live[t].stage.Fetching?
          && (s.tasks.live[t].stage.Settling? ==> s.tasks.live[t].stage.text == text && s.tasks.live[t].stage.terminal == terminal)
          && (Unwritten(s.tasks.live[t].stage) ==> Words(text, terminal, s.tasks.live[t].stage.text, w)))
    && forall i | from <= i < |s.log| && s.log[i].Posted? && s.log[i].ticket == t :: SaysOnly(s.log[i], text, terminal, w)
  }

  ghost predicate SaysOnly(e: Effect, text: string, terminal: Ev.TerminalState, w: Wording)
    requires e.Posted?
  {
    !e.late && exists said :: Words(text, terminal, said, w) && e.text == w.display(said)
  }

  lemma {:induction false} SayingTaskMoves(s: State, e: Event, t: nat, text: string, terminal: Ev.TerminalState, from: nat, w: Wording)
    requires Says(s, t, text, terminal, from, w) && t in s.tasks.live
    ensures var n := Step(s, e, w);
      t in n.tasks.live ==>
        && n.tasks.live[t].Final? && !n.tasks.live[t].stage.Fetching?
        && (n.tasks.live[t].stage.Settling? ==> n.tasks.live[t] == s.tasks.live[t])
        && (Unwritten(n.tasks.live[t].stage) ==>
              if Unwritten(s.tasks.live[t].stage) then n.tasks.live[t].stage.text == s.tasks.live[t].stage.text
              else s.tasks.live[t].stage.Settling? && Words(text, terminal, n.tasks.live[t].stage.text, w))
  {}

  /** A message carries the text of the finalization that writes it. */
  lemma {:induction false} PostCarriesText(s: State, e: Event, t: nat, w: Wording)
    ensures var n := Step(s, e, w);
      n.log != s.log && n.log[|s.log|].Posted? && n.log[|s.log|].ticket == t && InFinal(s, t) ==>
        Unwritten(s.tasks.live[t].stage) && !n.log[|s.log|].late
        && n.log[|s.log|].text == w.display(s.tasks.live[t].stage.text)
  {}

  lemma {:induction false} StepKeepsSaying(s: State, e: Event, t: nat, text: string, terminal: Ev.TerminalState, from: nat, w: Wording)
    requires Says(s, t, text, terminal, from, w)
    ensures Says(Step(s, e, w), t, text, terminal, from, w)
  {
    var n := Step(s, e, w);
    LogGrows(s, e, w);
    StepLogsOwnTicket(s, e, w);
    TicketsAreNotReused(s, e, t, w);
    PostCarriesText(s, e, t, w);
    if t in s.tasks.live { SayingTaskMoves(s, e, t, text, terminal, from, w); }
    forall i | from <= i < |n.log| && n.log[i].Posted? && n.log[i].ticket == t ensures SaysOnly(n.log[i], text, terminal, w) {
      if i < |s.log| { assert n.log[i] == n.log[..|s.log|][i] == s.log[i]; }
    }
  }

  lemma {:induction false} RunKeepsSaying(s: State, es: seq<Event>, t: nat, text: string, terminal: Ev.TerminalState, from: nat, w: Wording)
    requires Says(s, t, text, terminal, from, w)
    ensures Says(Run(s, es, w), t, text, terminal, from, w)
  {
    if es != [] {
      RunKeepsSaying(s, es[..|es|-1], t, text, terminal, from, w);
      StepKeepsSaying(Run(s, es[..|es|-1], w), es[|es|-1], t, text, terminal, from, w);
    }
  }

  /**
    In every continuation, a finalization that has resolved its text writes nothing but that text as
    it is displayed, or its mark for unverified file actions if the turn completed.
  */
  lemma {:induction false} MessageSaysText(s: State, t: nat, es: seq<Event>, w: Wording, i: nat)
    requires InFinal(s, t) && t < s.tasks.next && s.tasks.live[t].stage.Settling?
    requires var log := Run(s, es, w).log; |s.log| <= i < |log| && log[i].Posted? && log[i].ticket == t
    ensures var m, st := Run(s, es, w).log[i], s.tasks.live[t].stage;
      !m.late && (m.text == w.display(st.text) || (st.terminal == Ev.RunCompleted && m.text == w.display(w.unverified(st.text))))
  {
    var st := s.tasks.live[t].stage;
    RunKeepsSaying(s, es, t, st.text, st.terminal, |s.log|, w);
    assert SaysOnly(Run(s, es, w).log[i], st.text, st.terminal, w);
  }

  /** A finalization whose text is shown as blank, and that has written nothing. */
  ghost predicate Mute(s: State, t: nat, w: Wording) {
    && t !in PostedTickets(s.log) && t < s.tasks.next
    && (t in s.tasks.live ==>
          && s.tasks.live[t].Final? && !s.tasks.live[t].stage.Fetching?
          && (s.tasks.live[t].stage.Settling? ==>
                s.tasks.live[t].stage.terminal != Ev.RunCompleted && Blank(w.display(s.tasks.live[t].stage.text)))
          && (Unwritten(s.tasks.live[t].stage) ==> Blank(w.display(s.tasks.live[t].stage.text))))
  }

  lemma {:induction false} StepKeepsMute(s: State, e: Event, t: nat, w: Wording)
    requires Mute(s, t, w)
    ensures Mute(Step(s, e, w), t, w)
  {
    StepPostsNothing(s, e, t, w);
    TicketsAreNotReused(s, e, t, w);
    if t in s.tasks.live { MuteTaskMoves(s, e, t, w); }
  }

  lemma {:induction false} StepPostsNothing(s: State, e: Event, t: nat, w: Wording)
    requires Mute(s, t, w)
    ensures t !in PostedTickets(Step(s, e, w).log)
  {
    var n := Step(s, e, w);
    LogGrows(s, e, w);
    if n.log != s.log {
      assert n.log == s.log + [n.log[|s.log|]];
      Append(s.log, n.log[|s.log|]);
      StepLogsOwnTicket(s, e, w);
    }
  }

  lemma {:induction false} TicketsAreNotReused(s: State, e: Event, t: nat, w: Wording)
    requires t < s.tasks.next
    ensures t < Step(s, e, w).tasks.next && (t in Step(s, e, w).tasks.live ==> t in s.tasks.live)
  {}

  /** A message is written only for the activity that moves, and only when it is due. */
  lemma {:induction false} StepLogsOwnTicket(s: State, e: Event, w: Wording)
    ensures var n := Step(s, e, w);
      n.log != s.log && n.log[|s.log|].Posted? ==>
        (e.PhaseSaved? || e.ListRefreshed?) && n.log[|s.log|].ticket == e.ticket && InStage(s, e.ticket)
        && Unwritten(s.tasks.live[e.ticket].stage)
        && (s.tasks.live[e.ticket].Final? ==> !Blank(w.display(s.tasks.live[e.ticket].stage.text)))
  {}

  lemma {:induction false} MuteTaskMoves(s: State, e: Event, t: nat, w: Wording)
    requires Mute(s, t, w) && t in s.tasks.live
    ensures var n := Step(s, e, w);
      t in n.tasks.live ==>
        && n.tasks.live[t].Final? && !n.tasks.live[t].stage.Fetching?
        && (n.tasks.live[t].stage.Settling? ==> n.tasks.live[t] == s.tasks.live[t])
        && (Unwritten(n.tasks.live[t].stage) ==>
              (s.tasks.live[t].stage.Settling? || Unwritten(s.tasks.live[t].stage))
              && n.tasks.live[t].stage.text == s.tasks.live[t].stage.text)
  {}

  lemma {:induction false} RunKeepsMute(s: State, es: seq<Event>, t: nat, w: Wording)
    requires Mute(s, t, w)
    ensures Mute(Run(s, es, w), t, w)
  {
    if es != [] {
      RunKeepsMute(s, es[..|es|-1], t, w);
      StepKeepsMute(Run(s, es[..|es|-1], w), es[|es|-1], t, w);
    }
  }

  /** An errored turn with nothing to say takes the guard but never writes a message. */
  lemma {:induction false} SilentTurn(before: seq<Event>, x: SessionId, v: TurnView, client: bool, es: seq<Event>, w: Wording)
    requires v.terminal == Some(Ev.RunErrored) && Blank(if v.error.Some? then v.error.value else v.text)
    requires Blank(w.display(""))
    requires var s := Run(Init(), before, w); MayFinalize(s.guard, x) && s.chat.session == Some(x)
    ensures var s := Run(Init(), before, w);
            var claimed := Step(s, OnView(x, v, client), w);
      && Claimed(s.tasks.next, x) in claimed.log
      && s.tasks.next !in PostedTickets(Run(claimed, es, w).log)
  {
    var s := Run(Init(), before, w);
    var claimed := Step(s, OnView(x, v, client), w);
    RunKeepsPosts(before, w);
    Append(s.log, Claimed(s.tasks.next, x));
    assert claimed.log[|s.log|] == Claimed(s.tasks.next, x);
    RunKeepsMute(claimed, es, s.tasks.next, w);
  }

  // --- every claim can finish --------------------------------------------------------------

  /** What is left to do. */
  function Rest(st: Stage): nat {
    match st
    case Fetching(_) => 6
    case Settling(_, _, _) => 5
    case SavingPhase(_, _) => 4
    case Refreshing(_, _) => 3
    case Recording(_) => 2
    case SavingTurn(_) => 1
    case SavingActivity => 0
  }

  /** The completion a finalization waits for, in its good case. */
  function Completion(t: nat, st: Stage): Event {
    match st
    case Fetching(_) => Fetched(t, None)
    case Settling(_, _, _) => FilesSettled(t, false)
    case SavingPhase(_, _) => PhaseSaved(t, Saved(None))
    case Refreshing(_, _) => ListRefreshed(t)
    case Recording(_) => Recorded(t, Saved(None))
    case SavingTurn(_) => TurnSaved(t, Saved(None))
    case SavingActivity => ActivitySaved(t)
  }

  lemma {:induction false} RunFirst(s: State, e: Event, es: seq<Event>, w: Wording)
    ensures Run(s, [e] + es, w) == Run(Step(s, e, w), es, w)
    decreases |es|
  {
    if es == [] {
      assert [e] + es == [e] && [e][..0] == [];
      assert Run(s, [], w) == s;
    } else {
      RunFirst(s, e, es[..|es|-1], w);
      assert ([e] + es)[..|es|] == [e] + es[..|es|-1];
    }
  }

  /** In any state, seven completions at most let a running finalization end and free the guard. */
  lemma {:induction false} EveryClaimCanFinish(s: State, t: nat, w: Wording) returns (es: seq<Event>)
    requires InFinal(s, t)
    ensures |es| <= Rest(s.tasks.live[t].stage) + 1
    ensures var n := Run(s, es, w);
      t !in n.tasks.live && !n.guard.finalizing && n.tasks.live - {t} == s.tasks.live - {t}
    decreases Rest(s.tasks.live[t].stage)
  {
    var e := Completion(t, s.tasks.live[t].stage);
    var n := Step(s, e, w);
    if e.ActivitySaved? {
      es := [e];
      RunFirst(s, e, [], w);
      assert [e] + [] == [e];
    } else {
      assert n.tasks.live - {t} == s.tasks.live - {t};
      var rest := EveryClaimCanFinish(n, t, w);
      es := [e] + rest;
      RunFirst(s, e, rest, w);
    }
  }

  // --- where the guarantees end ------------------------------------------------------------

  lemma {:induction false} RunTwo(s: State, e: Event, f: Event, w: Wording)
    ensures Run(s, [e, f], w) == Step(Step(s, e, w), f, w)
  {
    RunFirst(s, e, [f], w);
    RunFirst(Step(s, e, w), f, [], w);
    assert [e, f] == [e] + [f] && [f] == [f] + [];
    assert Run(Step(Step(s, e, w), f, w), [], w) == Step(Step(s, e, w), f, w);
  }

  lemma {:induction false} RunThree(s: State, e: Event, f: Event, g: Event, w: Wording)
    ensures Run(s, [e, f, g], w) == Step(Step(Step(s, e, w), f, w), g, w)
  {
    RunFirst(s, e, [f, g], w);
    RunTwo(Step(s, e, w), f, g, w);
    assert [e, f, g] == [e] + [f, g];
  }

  function Done(text: string): TurnView { TurnView(Some(Ev.RunCompleted), text, None) }

  function In(conv: ConvId, x: SessionId): Chat { Chat(Some(conv), Some(x), Running) }

  /** What `x` leaves behind once its terminal view was seen and its files settled. */
  function AfterClaim(s: State, x: SessionId, text: string): State {
    State(Guard(s.guard.finalized + {x}, true), None, s.chat.(phase := Ended(Ev.RunCompleted)),
          Begin(s.tasks, Final(x, SavingPhase(Trim(text), s.chat.active))),
          s.log + [Claimed(s.tasks.next, x)])
  }

  lemma {:induction false} ClaimTurn(s: State, x: SessionId, text: string, w: Wording)
    requires MayFinalize(s.guard, x) && s.chat.session == Some(x) && !Blank(text)
    ensures Step(Step(s, OnView(x, Done(text), true), w), FilesSettled(s.tasks.next, false), w) == AfterClaim(s, x, text)
  {
    var s1 := Step(s, OnView(x, Done(text), true), w);
    assert s1.tasks.live[s.tasks.next] == Final(x, Settling(Trim(text), Ev.RunCompleted, true));
    var s2 := Step(s1, FilesSettled(s.tasks.next, false), w);
    assert s2.tasks.live == AfterClaim(s, x, text).tasks.live;
  }

  function AfterPost(s: State, t: nat, conv: ConvId, x: SessionId, text: string): State {
    s.(tasks := Move(s.tasks, t, Final(x, Recording(Some(conv)))), log := s.log + [Posted(t, x, conv, text, false)])
  }

  lemma {:induction false} PostTurn(s: State, t: nat, conv: ConvId, x: SessionId, text: string, w: Wording)
    requires t in s.tasks.live && s.tasks.live[t].Final? && s.tasks.live[t].session == x
    requires s.tasks.live[t].stage.SavingPhase? && s.tasks.live[t].stage.text == text
    requires s.chat.active == Some(conv) && !Blank(w.display(text))
    ensures Step(s, PhaseSaved(t, Lost), w) == AfterPost(s, t, conv, x, w.display(text))
  {}

  lemma {:induction false} PostAfterRecord(s: State, t: nat, conv: ConvId, x: SessionId, text: string, w: Wording)
    requires t in s.tasks.live && s.tasks.live[t] == Final(x, SavingPhase(text, Some(conv)))
    requires s.chat.active == Some(conv) && s.chat.session == Some(x) && !Blank(w.display(text))
    ensures Run(s, [PhaseSaved(t, Saved(Some(x))), ListRefreshed(t)], w) == AfterPost(s, t, conv, x, w.display(text))
  {
    RunTwo(s, PhaseSaved(t, Saved(Some(x))), ListRefreshed(t), w);
    var s1 := Step(s, PhaseSaved(t, Saved(Some(x))), w);
    assert s1.chat == s.chat && s1.tasks.live[t] == Final(x, Refreshing(text, conv));
    assert Step(s1, ListRefreshed(t), w).tasks.live == AfterPost(s, t, conv, x, w.display(text)).tasks.live;
  }

  lemma {:induction false} OpeningMeanwhile(s: State, t: nat, home: ConvId, x: SessionId, text: string, chat: Chat, w: Wording)
    requires t in s.tasks.live && s.tasks.live[t] == Final(x, SavingPhase(text, Some(home)))
    requires chat.active.Some? && !Blank(w.display(text))
    ensures var s1 := Step(Step(Step(s, PhaseSaved(t, Saved(Some(x))), w), StopStream, w), Elsewhere(chat), w);
      Step(s1, ListRefreshed(t), w)
      == AfterPost(s.(chat := chat, watchdog := None), t, chat.active.value, x, w.display(text))
  {
    var saved := Final(x, Refreshing(text, home));
    var s1 := s.(chat := chat, watchdog := None, tasks := Move(s.tasks, t, saved));
    assert s1 == Step(Step(Step(s, PhaseSaved(t, Saved(Some(x))), w), StopStream, w), Elsewhere(chat), w);
    assert Move(s1.tasks, t, saved.(stage := Recording(chat.active))) == Move(s.tasks, t, Final(x, Recording(chat.active)));
  }

  /** The record came back, and then `chat` was opened before the list did. */
  lemma {:induction false} PostAfterOpening(s: State, t: nat, home: ConvId, x: SessionId, text: string, chat: Chat, w: Wording)
    requires t in s.tasks.live && s.tasks.live[t] == Final(x, SavingPhase(text, Some(home)))
    requires chat.active.Some? && !Blank(w.display(text))
    ensures Run(s, [PhaseSaved(t, Saved(Some(x))), StopStream, Elsewhere(chat), ListRefreshed(t)], w)
            == AfterPost(s.(chat := chat, watchdog := None), t, chat.active.value, x, w.display(text))
  {
    var saved, rest := PhaseSaved(t, Saved(Some(x))), [StopStream, Elsewhere(chat), ListRefreshed(t)];
    assert [saved] + rest == [saved, StopStream, Elsewhere(chat), ListRefreshed(t)];
    RunFirst(s, saved, rest, w);
    RunThree(Step(s, saved, w), StopStream, Elsewhere(chat), ListRefreshed(t), w);
    OpeningMeanwhile(s, t, home, x, text, chat, w);
  }

  /** The first three events of every scenario: `x` is the session of `a` and has completed. */
  lemma {:induction false} Opening(a: ConvId, x: SessionId, text: string, w: Wording) returns (es: seq<Event>, s: State)
    requires !Blank(text)
    ensures es == [Elsewhere(In(a, x)), OnView(x, Done(text), true), FilesSettled(0, false)]
    ensures s == Run(Init(), es, w) == AfterClaim(Init().(chat := In(a, x)), x, text)
  {
    es := [Elsewhere(In(a, x)), OnView(x, Done(text), true), FilesSettled(0, false)];
    RunThree(Init(), Elsewhere(In(a, x)), OnView(x, Done(text), true), FilesSettled(0, false), w);
    s := AfterClaim(Init().(chat := In(a, x)), x, text);
    ClaimTurn(Init().(chat := In(a, x)), x, text, w);
  }

  /** The request that saves the phase is lost after a switch to `chat`. */
  lemma {:induction false} PostAfterSwitch(s: State, t: nat, x: SessionId, text: string, chat: Chat, w: Wording)
    requires t in s.tasks.live && s.tasks.live[t].Final? && s.tasks.live[t].session == x
    requires s.tasks.live[t].stage.SavingPhase? && s.tasks.live[t].stage.text == text
    requires chat.active.Some? && !Blank(w.display(text))
    ensures Run(s, [StopStream, Switched(Some(chat)), PhaseSaved(t, Lost)], w).log
            == s.log + [Cleared, Posted(t, x, chat.active.value, w.display(text), false)]
  {
    RunThree(s, StopStream, Switched(Some(chat)), PhaseSaved(t, Lost), w);
    assert s.log + [Cleared] + [Posted(t, x, chat.active.value, w.display(text), false)]
           == s.log + [Cleared, Posted(t, x, chat.active.value, w.display(text), false)];
  }

  /** A message is written into the conversation switched to, not the one whose turn it ends. */
  lemma {:induction false} MessageLandsElsewhere(a: ConvId, b: ConvId, x: SessionId, text: string, w: Wording) returns (es: seq<Event>)
    requires a != b && !Blank(text) && !Blank(w.display(Trim(text)))
    ensures es == [Elsewhere(In(a, x)), OnView(x, Done(text), true), FilesSettled(0, false),
                   StopStream, Switched(Some(Chat(Some(b), None, Resting))), PhaseSaved(0, Lost)]
    ensures Run(Init(), es, w).log == [Claimed(0, x), Cleared, Posted(0, x, b, w.display(Trim(text)), false)]
  {
    var head, s := Opening(a, x, text, w);
    var tail := [StopStream, Switched(Some(Chat(Some(b), None, Resting))), PhaseSaved(0, Lost)];
    RunSplit(Init(), head, tail, w);
    PostAfterSwitch(s, 0, x, Trim(text), Chat(Some(b), None, Resting), w);
    es := head + tail;
  }

  /** Even after the record of `a` has come back: `b` was opened while the list was being loaded. */
  lemma {:induction false} SavedMessageLandsElsewhere(a: ConvId, b: ConvId, x: SessionId, text: string, w: Wording) returns (es: seq<Event>)
    requires a != b && !Blank(text) && !Blank(w.display(Trim(text)))
    ensures es == [Elsewhere(In(a, x)), OnView(x, Done(text), true), FilesSettled(0, false),
                   PhaseSaved(0, Saved(Some(x))), StopStream, Elsewhere(Chat(Some(b), None, Resting)), ListRefreshed(0)]
    ensures Run(Init(), es, w).log == [Claimed(0, x), Posted(0, x, b, w.display(Trim(text)), false)]
  {
    var head, s := Opening(a, x, text, w);
    var opens := Chat(Some(b), None, Resting);
    var tail := [PhaseSaved(0, Saved(Some(x))), StopStream, Elsewhere(opens), ListRefreshed(0)];
    RunSplit(Init(), head, tail, w);
    PostAfterOpening(s, 0, a, x, Trim(text), opens, w);
    es := head + tail;
  }

  /** The watchdog has asked for the session of `a` when the stream brings its terminal view. */
  lemma {:induction false} PollInFlight(a: ConvId, x: SessionId, text: string, w: Wording) returns (es: seq<Event>, s: State)
    requires !Blank(text)
    ensures es == [Elsewhere(In(a, x)), Bind(x), Tick(STALL_AFTER_MS, false, true)]
                  + [OnView(x, Done(text), true), FilesSettled(1, false)]
    ensures s == Run(Init(), es, w)
    ensures s == AfterClaim(State(Guard({}, false), Some(x), In(a, x), Tasks(map[0 := Poll(x)], 1), []), x, text)
  {
    var first := [Elsewhere(In(a, x)), Bind(x), Tick(STALL_AFTER_MS, false, true)];
    var next := [OnView(x, Done(text), true), FilesSettled(1, false)];
    var asked := State(Guard({}, false), Some(x), In(a, x), Tasks(map[0 := Poll(x)], 1), []);
    RunThree(Init(), first[0], first[1], first[2], w);
    assert Step(Step(Init(), first[0], w), first[1], w).chat.phase == Running;
    assert Run(Init(), first, w) == asked;
    RunSplit(Init(), first, next, w);
    RunTwo(asked, next[0], next[1], w);
    ClaimTurn(asked, x, text, w);
    es := first + next;
    s := AfterClaim(asked, x, text);
  }

  /** A switch to another conversation and back, each of which stops the stream first. */
  function AwayAndBack(a: ConvId, b: ConvId, x: SessionId): seq<Event> {
    [StopStream, Switched(Some(Chat(Some(b), None, Resting)))] + [StopStream, Switched(Some(Chat(Some(a), Some(x), Resting)))]
  }

  lemma {:induction false} AwayAndBackRun(s: State, a: ConvId, b: ConvId, x: SessionId, w: Wording)
    ensures Run(s, AwayAndBack(a, b, x), w)
            == State(Guard({}, false), None, Chat(Some(a), Some(x), Resting), s.tasks, s.log + [Cleared] + [Cleared])
  {
    var away := [StopStream, Switched(Some(Chat(Some(b), None, Resting)))];
    var back := [StopStream, Switched(Some(Chat(Some(a), Some(x), Resting)))];
    RunSplit(s, away, back, w);
    RunTwo(s, away[0], away[1], w);
    RunTwo(Run(s, away, w), back[0], back[1], w);
  }

  /** The late answer of the poll claims the session a second time. */
  lemma {:induction false} PollClaims(s: State, x: SessionId, text: string, w: Wording)
    requires 0 in s.tasks.live && s.tasks.live[0] == Poll(x) && MayFinalize(s.guard, x) && !Blank(text) && s.tasks.next > 0
    ensures Run(s, [PollDone(0, Some(Done(text)), true), FilesSettled(s.tasks.next, false)], w)
            == AfterClaim(s.(tasks := Drop(s.tasks, 0)), x, text)
  {
    var t := s.tasks.next;
    RunTwo(s, PollDone(0, Some(Done(text)), true), FilesSettled(t, false), w);
    var s1 := Step(s, PollDone(0, Some(Done(text)), true), w);
    assert s1.tasks.live[t] == Final(x, Settling(Trim(text), Ev.RunCompleted, true));
    var s2 := Step(s1, FilesSettled(t, false), w);
    assert s2.tasks.live == AfterClaim(s.(tasks := Drop(s.tasks, 0)), x, text).tasks.live;
  }

  /**
    Two finalizations of one session at once: while the watchdog's request was in flight the stream
    ended the turn, and the conversation was left and opened again before the request was answered.
  */
  lemma {:induction false} TwiceAtOnce(a: ConvId, b: ConvId, x: SessionId, text: string, w: Wording) returns (es: seq<Event>, s: State)
    requires a != b && !Blank(text)
    ensures s == Run(Init(), es, w) && s.chat == Chat(Some(a), Some(x), Ended(Ev.RunCompleted)) && s.tasks.next == 3
    ensures s.log == [Claimed(1, x), Cleared, Cleared, Claimed(2, x)]
    ensures s.tasks.live == map[1 := Final(x, SavingPhase(Trim(text), Some(a))), 2 := Final(x, SavingPhase(Trim(text), Some(a)))]
  {
    var head, claimed := PollInFlight(a, x, text, w);
    var switches := AwayAndBack(a, b, x);
    var late := [PollDone(0, Some(Done(text)), true), FilesSettled(2, false)];
    AwayAndBackRun(claimed, a, b, x, w);
    var back := Run(claimed, switches, w);
    RunSplit(Init(), head, switches, w);
    RunSplit(Init(), head + switches, late, w);
    PollClaims(back, x, text, w);
    es := head + switches + late;
    s := AfterClaim(back.(tasks := Drop(back.tasks, 0)), x, text);
  }

  /** A switch away and back lets one session write its answer twice. */
  lemma {:induction false} TwoMessagesAcrossSwitch(a: ConvId, b: ConvId, x: SessionId, text: string, w: Wording) returns (es: seq<Event>)
    requires a != b && !Blank(text) && !Blank(w.display(Trim(text)))
    ensures var shown := w.display(Trim(text));
      Run(Init(), es, w).log
      == [Claimed(1, x), Cleared, Cleared, Claimed(2, x), Posted(1, x, a, shown, false), Posted(2, x, a, shown, false)]
  {
    var head, s := TwiceAtOnce(a, b, x, text, w);
    var first, second := [PhaseSaved(1, Saved(Some(x))), ListRefreshed(1)], [PhaseSaved(2, Saved(Some(x))), ListRefreshed(2)];
    RunSplit(Init(), head, first, w);
    RunSplit(Init(), head + first, second, w);
    PostAfterRecord(s, 1, a, x, Trim(text), w);
    PostAfterRecord(AfterPost(s, 1, a, x, w.display(Trim(text))), 2, a, x, Trim(text), w);
    es := head + first + second;
  }

  /**
    The finish of a finalization begun before a switch opens the guard while a newer one still runs;
    so the condition of NeverTwoSinceSwitch cannot be dropped.
  */
  lemma {:induction false} StaleFinishOpensGuard(a: ConvId, b: ConvId, x: SessionId, text: string, w: Wording) returns (es: seq<Event>)
    requires a != b && !Blank(text)
    ensures var s := Run(Init(), es, w); InFinal(s, 2) && !s.guard.finalizing
  {
    var head, s := TwiceAtOnce(a, b, x, text, w);
    var tail := EveryClaimCanFinish(s, 1, w);
    RunSplit(Init(), head, tail, w);
    es := head + tail;
    assert 2 in s.tasks.live - {1};
  }

  /** Without any switch, a session whose timeout was reported can still write its answer after it. */
  lemma {:induction false} AnswerAfterTimeout(a: ConvId, x: SessionId, text: string, w: Wording) returns (es: seq<Event>)
    requires !Blank(text) && !Blank(w.display(Trim(text))) && !Blank(w.timeout)
    ensures NoSwitch(es)
    ensures Run(Init(), es, w).log
            == [Posted(0, x, a, w.timeout, true), Claimed(1, x), Posted(1, x, a, w.display(Trim(text)), false)]
  {
    var head, s3 := TimeoutOpening(a, x, w);
    var mid := [PhaseSaved(0, Lost), OnView(x, Done(text), true), FilesSettled(1, false)];
    RunSplit(Init(), head, mid, w);
    RunThree(s3, mid[0], mid[1], mid[2], w);
    var s4 := AfterTimeout(s3, 0, a, x, w.timeout);
    TimeoutPosts(s3, 0, a, x, w);
    ClaimTurn(s4, x, text, w);
    var s6 := AfterClaim(s4, x, text);
    RunNext(Init(), head + mid, PhaseSaved(1, Lost), w);
    PostTurn(s6, 1, a, x, Trim(text), w);
    es := head + mid + [PhaseSaved(1, Lost)];
  }

  function AfterTimeout(s: State, t: nat, conv: ConvId, x: SessionId, text: string): State {
    s.(tasks := Move(s.tasks, t, Late(x, Recording(Some(conv)))), log := s.log + [Posted(t, x, conv, text, true)])
  }

  lemma {:induction false} TimeoutPosts(s: State, t: nat, conv: ConvId, x: SessionId, w: Wording)
    requires t in s.tasks.live && s.tasks.live[t] == Late(x, SavingPhase(w.timeout, Some(conv)))
    requires s.chat.active == Some(conv) && !Blank(w.timeout)
    ensures Step(s, PhaseSaved(t, Lost), w) == AfterTimeout(s, t, conv, x, w.timeout)
  {}

  lemma {:induction false} TimeoutOpening(a: ConvId, x: SessionId, w: Wording) returns (es: seq<Event>, s: State)
    ensures es == [Elsewhere(In(a, x)), Bind(x), Tick(TIMEOUT_MS + 1, false, true)]
    ensures s == Run(Init(), es, w)
    ensures s == State(Guard({}, false), None, In(a, x).(phase := Ended(Ev.RunErrored)),
                       Tasks(map[0 := Late(x, SavingPhase(w.timeout, Some(a)))], 1), [])
  {
    es := [Elsewhere(In(a, x)), Bind(x), Tick(TIMEOUT_MS + 1, false, true)];
    RunThree(Init(), es[0], es[1], es[2], w);
    s := Run(Init(), es, w);
  }

  /** A message that cannot be saved leaves the guard shut with nothing running. */
  lemma {:induction false} LostWriteIsReachable(a: ConvId, x: SessionId, text: string, w: Wording) returns (es: seq<Event>)
    requires !Blank(text) && !Blank(w.display(Trim(text)))
    ensures NoSwitch(es) && var s := Run(Init(), es, w); Wedged(s) && HasDied(s.log)
  {
    var head, s := Opening(a, x, text, w);
    RunSplit(Init(), head, [PhaseSaved(0, Lost), Recorded(0, Lost)], w);
    RunTwo(s, PhaseSaved(0, Lost), Recorded(0, Lost), w);
    PostTurn(s, 0, a, x, Trim(text), w);
    es := head + [PhaseSaved(0, Lost), Recorded(0, Lost)];
    var n := Run(Init(), es, w);
    assert n.log[2] == Died(0);
  }
}
