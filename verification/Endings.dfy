/** Whether the terminal event of a run tells its logged outcome: in every life, and after a recovery. */
module Endings {
  import opened Wrappers
  import opened Transcript
  import opened Durable
  import opened CrashSafety
  import opened CrashTheorems
  import opened Recovery

  /** The run has a terminal event, and it tells the logged outcome. */
  predicate Agree(d: Disk, run: RunId) {
    Told(d.events, run).Some? && Told(d.events, run) == Verdict(d.records, run)
  }

  /** A terminal event tells the logged outcome, or that the run was found interrupted. */
  ghost predicate EndsTold(d: Disk) {
    forall run: RunId :: Told(d.events, run).Some? ==> Agree(d, run) || Told(d.events, run) == Some(INTERRUPTED_EVENT)
  }

  lemma {:induction false} ToldIsTerminal(events: seq<Event>, run: RunId)
    ensures Told(events, run).Some? <==> Terminals(events, run) > 0
  {
    if events != [] { ToldIsTerminal(events[..|events| - 1], run); }
  }

  lemma {:induction false} VerdictIsOutcome(log: seq<Record>, run: RunId)
    ensures Verdict(log, run).Some? <==> Outcomes(log, run) > 0
  {
    if log != [] { VerdictIsOutcome(log[..|log| - 1], run); }
  }

  lemma LogKeepsEnds(w: World, w': World)
    requires WorldInv(w) && LogStep(w, w') && EndsTold(w.disk)
    ensures EndsTold(w'.disk)
  {
    var d, r := w.disk, w'.disk.records[|w.disk.records|];
    assert !r.payload.SessionClosed? ==> Terminals(d.events, r.run) == 0;
    hide WorldInv, MayLog, Told, Verdict, Terminals;
    forall run: RunId | Told(w'.disk.events, run).Some?
      ensures Agree(w'.disk, run) || Told(w'.disk.events, run) == Some(INTERRUPTED_EVENT)
    {
      VerdictAppend(d.records, r, run);
      ToldIsTerminal(d.events, run);
    }
  }

  lemma EmitKeepsEnds(w: World, w': World)
    requires EventStep(w, w') && EndsTold(w.disk)
    ensures EndsTold(w'.disk)
  {
    hide Told, Verdict;
    var d, e := w.disk, w'.disk.events[|w.disk.events|];
    forall run: RunId | Told(w'.disk.events, run).Some?
      ensures Agree(w'.disk, run) || Told(w'.disk.events, run) == Some(INTERRUPTED_EVENT)
    {
      ToldAppend(d.events, e, run);
    }
  }

  /** In every moment of every life, over any crashes and recoveries, the terminal event of a run
      tells its logged outcome or that the run was found interrupted; nothing else is ever told. */
  lemma {:induction false} EndsAlwaysTold(trail: seq<World>)
    requires Path(trail)
    ensures EndsTold(Now(trail).disk)
  {
    if |trail| > 1 {
      var init := trail[..|trail| - 1];
      EndsAlwaysTold(init);
      PathInv(init);
      hide WorldInv, MayLog, MayEmit, MayReplace, EndsTold;
      var w, w' := Now(init), Now(trail);
      if LogStep(w, w') {
        LogKeepsEnds(w, w');
      } else if EventStep(w, w') {
        EmitKeepsEnds(w, w');
      } else {
        assert w'.disk.records == w.disk.records && w'.disk.events == w.disk.events;
        SameLogsSameEnds(w.disk, w'.disk);
      }
    } else {
      assert Told([], 0).None?;
    }
  }

  // ---- What each terminal event presupposes -------------------------------------------------

  /** The run has a logged outcome of the given kind. */
  ghost predicate LoggedAs(log: seq<Record>, run: RunId, result: RunResult, cause: Cause) {
    exists i :: 0 <= i < |log| && log[i].run == run && log[i].payload == RunOutcome(result, cause)
  }

  /** A completed run was logged as completed, a cancelled one as cancelled, and a failed one with the
      cause that was told, unless it was found interrupted. */
  ghost predicate EndsLogged(d: Disk) {
    forall e <- d.events ::
      match e.kind
      case RunCompletedEvent => exists cause :: LoggedAs(d.records, e.run, RunCompleted, cause)
      case RunCancelledEvent => exists cause :: LoggedAs(d.records, e.run, RunCancelled, cause)
      case RunFailedEvent(cause) =>
        || cause == CauseInterrupted
        || LoggedAs(d.records, e.run, RunFailed, cause) || LoggedAs(d.records, e.run, RunInterrupted, cause)
      case _ => true
  }

  lemma {:induction false} VerdictIsLogged(log: seq<Record>, run: RunId)
    requires Verdict(log, run).Some?
    ensures match Verdict(log, run).value
            case RunCompletedEvent => exists cause :: LoggedAs(log, run, RunCompleted, cause)
            case RunCancelledEvent => exists cause :: LoggedAs(log, run, RunCancelled, cause)
            case RunFailedEvent(cause) =>
              LoggedAs(log, run, RunFailed, cause) || LoggedAs(log, run, RunInterrupted, cause)
            case _ => false
  {
    var init, r := log[..|log| - 1], log[|log| - 1];
    if r.payload.RunOutcome? && r.run == run {
      assert LoggedAs(log, run, r.payload.result, r.payload.cause);
    } else {
      VerdictIsLogged(init, run);
      LoggedStays(init, r);
      assert init + [r] == log;
    }
  }

  lemma LoggedStays(log: seq<Record>, r: Record)
    ensures forall run, result, cause :: LoggedAs(log, run, result, cause) ==> LoggedAs(log + [r], run, result, cause)
  {
    forall run, result, cause | LoggedAs(log, run, result, cause) ensures LoggedAs(log + [r], run, result, cause) {
      var i :| 0 <= i < |log| && log[i].run == run && log[i].payload == RunOutcome(result, cause);
      assert (log + [r])[i] == log[i];
    }
  }

  lemma StepKeepsLogged(w: World, w': World)
    requires Step(w, w') && EndsLogged(w.disk)
    ensures EndsLogged(w'.disk)
  {
    hide MayLog, MayReplace, Verdict, LoggedAs, Outcomes, Terminals, ValidKind;
    if LogStep(w, w') {
      LoggedStays(w.disk.records, w'.disk.records[|w.disk.records|]);
    } else if EventStep(w, w') {
      var e := w'.disk.events[|w.disk.events|];
      if Terminal(e.kind) && e.kind != INTERRUPTED_EVENT { VerdictIsLogged(w.disk.records, e.run); }
    }
  }

  /** In every life, whatever terminal event observers were given had its outcome in the log. */
  lemma {:induction false} EndsAlwaysLogged(trail: seq<World>)
    requires Path(trail)
    ensures EndsLogged(Now(trail).disk)
  {
    hide Step, EndsLogged;
    if |trail| > 1 {
      EndsAlwaysLogged(trail[..|trail| - 1]);
      StepKeepsLogged(trail[|trail| - 2], trail[|trail| - 1]);
    } else {
      NothingTold();
    }
  }

  lemma NothingTold()
    ensures EndsLogged(NEW_WORLD.disk)
  {
  }

  lemma SameLogsSameEnds(d: Disk, d': Disk)
    requires d'.records == d.records && d'.events == d.events && EndsTold(d)
    ensures EndsTold(d')
  {
    hide Told, Verdict;
    forall run: RunId | Told(d'.events, run).Some?
      ensures Agree(d', run) || Told(d'.events, run) == Some(INTERRUPTED_EVENT)
    {
      assert Told(d.events, run).Some?;
    }
  }

  // ---- Recovery ---------------------------------------------------------------------------

  /** The interrupted answers are no outcome. */
  lemma {:induction false} AnswersKeepVerdict(log: seq<Record>, run: RunId, open: seq<Call>, other: RunId)
    ensures Verdict(Answered(log, run, open), other) == Verdict(log, other)
    decreases |open|
  {
    if open != [] {
      VerdictAppend(log, Answer(log, run, open[0]), other);
      AnswersKeepVerdict(log + [Answer(log, run, open[0])], run, open[1..], other);
    }
  }

  lemma FinalVerdict(log: seq<Record>, run: RunId, other: RunId)
    ensures Verdict(FinalRecords(log, run), other) ==
              if other == run && Outcomes(log, run) == 0 then Some(INTERRUPTED_EVENT) else Verdict(log, other)
  {
    hide OpenCalls, Answered, Verdict;
    if Outcomes(log, run) == 0 {
      var open := OpenCalls(log, log);
      AnswersKeepVerdict(log, run, open, other);
      VerdictAppend(Answered(log, run, open), InterruptedOutcome(Answered(log, run, open), run), other);
    }
  }

  lemma FinalTold(events: seq<Event>, run: RunId, other: RunId)
    ensures Told(FinalEvents(events, run), other) ==
              if other == run && Told(events, run).None? then Some(INTERRUPTED_EVENT) else Told(events, other)
  {
    hide Told;
    ToldIsTerminal(events, run);
    if Terminals(events, run) == 0 { ToldAppend(events, InterruptedEvent(events, run), other); }
  }

  /** What recovery writes behind the log of an interrupted run: an answer to each open call that says
      it was interrupted, in the order of the calls, and the outcome of an interrupted run; nothing when
      the outcome has been logged. */
  ghost predicate Completes(all: seq<Record>, log: seq<Record>, run: RunId) {
    if Outcomes(log, run) > 0 then all == log
    else
      var open := OpenCalls(log, log);
      && log <= all && |all| == |log| + |open| + 1
      && (forall i :: 0 <= i < |open| ==>
            all[|log| + i] == Record(|log| + i + 1, run, ToolResult(open[i].id, Interrupted, INTERRUPTED_TEXT)))
      && all[|all| - 1] == Record(|all|, run, RunOutcome(RunInterrupted, CauseInterrupted))
  }

  lemma FinalCompletes(log: seq<Record>, run: RunId)
    ensures Completes(FinalRecords(log, run), log, run)
  {
    hide Outcomes, OpenCalls, Answered;
    var open := OpenCalls(log, log);
    AnswersInOrder(log, run, open);
    var a := Answered(log, run, open);
    assert (a + [InterruptedOutcome(a, run)])[..|log|] == a[..|log|];
  }

  /** Record by record and event by event: what recovery adds to the logs of an interrupted run. */
  lemma RecoveredLogs(w: World, run: RunId)
    requires Repairable(w) && w.disk.manifest.active == Some(run)
    ensures Completes(Recovered(w).disk.records, w.disk.records, run)
    ensures Recovered(w).disk.events ==
              w.disk.events
                + if Terminals(w.disk.events, run) > 0 then []
                  else [Event(|w.disk.events| + 1, run, RunFailedEvent(CauseInterrupted))]
  {
    GoalReached(w);
    hide Repairable, Recovered, Terminals, Unmarked, FinalRecords, Completes;
    FinalCompletes(w.disk.records, run);
  }

  /** What recovery leaves of the interrupted run's end. */
  lemma EndAfterRecovery(w: World, run: RunId)
    requires Repairable(w) && w.disk.manifest.active == Some(run)
    ensures Verdict(Recovered(w).disk.records, run) ==
              if Outcomes(w.disk.records, run) == 0 then Some(INTERRUPTED_EVENT) else Verdict(w.disk.records, run)
    ensures Told(Recovered(w).disk.events, run) ==
              if Told(w.disk.events, run).None? then Some(INTERRUPTED_EVENT) else Told(w.disk.events, run)
  {
    GoalReached(w);
    hide Repairable, Recovered, FinalRecords, FinalEvents, Told, Verdict, Unmarked;
    FinalVerdict(w.disk.records, run, run);
    FinalTold(w.disk.events, run, run);
  }

  /** When recovery leaves a run's terminal event in agreement with its outcome: for the interrupted
      run without a terminal event, if and only if no outcome had been logged, or the logged one was
      itself that of an interruption; for every other run recovery changes nothing. */
  lemma AgreementAfterRecovery(w: World, run: RunId)
    requires Repairable(w)
    ensures Agree(Recovered(w).disk, run) <==>
              if w.disk.manifest.active == Some(run) && Told(w.disk.events, run).None?
              then Outcomes(w.disk.records, run) == 0 || Verdict(w.disk.records, run) == Some(INTERRUPTED_EVENT)
              else Agree(w.disk, run)
  {
    GoalReached(w);
    InterruptedHasNoEnd(w, run);
    var d := w.disk;
    hide Repairable, Recovered, FinalRecords, FinalEvents, Told, Verdict, Unmarked;
    ToldAppend(d.events, CloseEvent(d.events), run);
    if d.manifest.active.Some? {
      FinalVerdict(d.records, d.manifest.active.value, run);
      FinalTold(d.events, d.manifest.active.value, run);
    }
  }

  /** A run without an outcome has no terminal event. */
  lemma InterruptedHasNoEnd(w: World, run: RunId)
    requires Repairable(w)
    ensures w.disk.manifest.active == Some(run) && Outcomes(w.disk.records, run) == 0 ==> Told(w.disk.events, run).None?
  {
    ToldIsTerminal(w.disk.events, run);
  }
}
