/** A life that ends unopenable, with every durable step the engine takes on the way. */
module Witnesses {
  import opened Wrappers
  import opened Transcript
  import opened Shape
  import opened Durable
  import opened CrashSafety
  import opened CrashTheorems
  import opened Recovery
  import opened Store
  import opened Lives
  import opened Protocol
  import opened Endings

  /** A life in which a run is active that has not recorded its outcome, with exact marks. */
  ghost predicate RunOpen(trail: seq<World>, run: RunId) {
    && Path(trail)
    && trail != []
    && var d := Now(trail).disk;
       && d.manifest.active == Some(run)
       && MarksExact(d, d.manifest)
       && Outcomes(d.records, run) == 0
  }

  /** The manifest is replaced by one that only catches up. */
  lemma CatchUp(trail: seq<World>, m: Manifest) returns (after: seq<World>)
    requires Path(trail) && InStep(Now(trail).disk.manifest, m) && MarksExact(Now(trail).disk, m)
    ensures Path(after) && Now(after) == WithManifest(Now(trail), m)
  {
    after := trail + [WithManifest(Now(trail), m)];
    CatchUpLife(trail, after, m, true);
  }

  lemma InStepWithMarks(trail: seq<World>, m: Manifest)
    requires Path(trail)
    requires m == Now(trail).disk.manifest.(transcriptSeq := m.transcriptSeq, eventCursor := m.eventCursor)
    ensures InStep(Now(trail).disk.manifest, m)
  {
    PathInv(trail);
  }

  /** appendPayloadLocked: the record, then the manifest. */
  lemma LogAndMark(trail: seq<World>, run: RunId, payload: Payload) returns (after: seq<World>)
    requires RunOpen(trail, run) && ValidPayload(run, payload) && !payload.RunOutcome?
    requires MayLog(Now(trail).disk, NextRecord(Now(trail).disk, run, payload))
    ensures RunOpen(after, run)
    ensures Now(after).disk.records == Now(trail).disk.records + [NextRecord(Now(trail).disk, run, payload)]
    ensures Now(after).disk.events == Now(trail).disk.events && Now(after).spent == Now(trail).spent
    ensures Now(after).disk.manifest.budgets == Now(trail).disk.manifest.budgets
  {
    var w := Now(trail);
    var r := NextRecord(w.disk, run, payload);
    var w' := WithRecords(w, [r]);
    assert LogStep(w, w');
    PathAppend(trail, w');
    CountsAppend(w.disk.records, r, w.disk.events, Event(0, 0, SessionResumed), run);
    var m := w.disk.manifest.(transcriptSeq := |w'.disk.records|);
    InStepWithMarks(trail + [w'], m);
    after := CatchUp(trail + [w'], m);
  }

  /** emitLocked: the event, then the manifest. */
  lemma EmitAndMark(trail: seq<World>, run: RunId, kind: EventKind) returns (after: seq<World>)
    requires RunOpen(trail, run) && ValidKind(run, kind) && !Terminal(kind) && !SessionFact(kind)
    ensures RunOpen(after, run)
    ensures Now(after).disk.records == Now(trail).disk.records && Now(after).spent == Now(trail).spent
    ensures Now(after).disk.events == Now(trail).disk.events + [NextEvent(Now(trail).disk, run, kind)]
    ensures Now(after).disk.manifest.budgets == Now(trail).disk.manifest.budgets
  {
    var w := Now(trail);
    var w' := WithEvent(w, NextEvent(w.disk, run, kind));
    assert EventStep(w, w');
    PathAppend(trail, w');
    var m := w.disk.manifest.(eventCursor := |w'.disk.events|);
    InStepWithMarks(trail + [w'], m);
    after := CatchUp(trail + [w'], m);
  }

  /** reserve, and the reserved work starts. */
  lemma ReserveAndStart(trail: seq<World>, run: RunId, counter: Counter) returns (after: seq<World>)
    requires RunOpen(trail, run) && run in Now(trail).disk.manifest.budgets
    requires Reserved(Now(trail).disk.manifest.budgets[run], counter, 0).Some?
    ensures RunOpen(after, run)
    ensures Now(after).disk.records == Now(trail).disk.records && Now(after).disk.events == Now(trail).disk.events
    ensures Now(after).disk.manifest.budgets ==
              Now(trail).disk.manifest.budgets[run := Reserved(Now(trail).disk.manifest.budgets[run], counter, 0).value]
  {
    PathInv(trail);
    var w := Now(trail);
    var b := Reserved(w.disk.manifest.budgets[run], counter, 0).value;
    var m := w.disk.manifest.(budgets := w.disk.manifest.budgets[run := b]);
    var reserved := CatchUp(trail, m);
    var started := WithStart(Now(reserved), run, counter, 0);
    assert StartStep(Now(reserved), started);
    PathAppend(reserved, started);
    after := reserved + [started];
  }

  /** A logical call is made, and its answer is a batch of one call. */
  lemma CallAsked(trail: seq<World>, run: RunId, call: Call) returns (after: seq<World>)
    requires RunOpen(trail, run) && ShapeOf(Now(trail).disk.records).Settled? && ValidPayload(run, ToolCall(call))
    requires run in Now(trail).disk.manifest.budgets
    requires Now(trail).disk.manifest.budgets[run].calls < MAX_CALLS
    requires Now(trail).disk.manifest.budgets[run].attempts < MAX_ATTEMPTS
    ensures RunOpen(after, run)
    ensures ShapeOf(Now(after).disk.records) == Batch(run, true, [call]) && !LastFailed(Now(after).disk.records)
    ensures Now(after).disk.records == Now(trail).disk.records + [NextRecord(Now(trail).disk, run, ToolCall(call))]
    ensures Now(after).disk.events == Now(trail).disk.events
    ensures var b := Now(trail).disk.manifest.budgets[run];
            && run in Now(after).disk.manifest.budgets
            && Now(after).disk.manifest.budgets[run] == Budget(b.calls + 1, b.attempts + 1, b.delay)
  {
    hide MayLog, ShapeOf, Outcomes, Path, LastFailed;
    var asked := ReserveAndStart(trail, run, LogicalCall);
    asked := ReserveAndStart(asked, run, TransportAttempt);
    InStepWithMarks(asked, Now(asked).disk.manifest);
    BatchMayFollow(asked, Now(asked).disk.manifest, run, [call]);
    LoggableInRun(asked, Now(asked).disk.manifest, run, ToolCall(call));
    after := LogAndMark(asked, run, ToolCall(call));
    assert CallRecords(|Now(trail).disk.records|, run, [call]) == [NextRecord(Now(trail).disk, run, ToolCall(call))];
  }

  /** The call is executed and succeeds. */
  lemma CallAnswered(trail: seq<World>, run: RunId, call: Call) returns (after: seq<World>)
    requires RunOpen(trail, run) && ShapeOf(Now(trail).disk.records) == Batch(run, true, [call])
    requires !LastFailed(Now(trail).disk.records) && ValidPayload(run, ToolCall(call))
    ensures RunOpen(after, run) && ShapeOf(Now(after).disk.records).Settled?
    ensures Now(after).disk.records ==
              Now(trail).disk.records + [NextRecord(Now(trail).disk, run, ToolResult(call.id, Succeeded, ""))]
    ensures Now(after).disk.manifest.budgets == Now(trail).disk.manifest.budgets
  {
    hide MayLog, ShapeOf, Outcomes, Path, LastFailed;
    after := EmitAndMark(trail, run, ToolStarted(call.id, call.name));
    InStepWithMarks(after, Now(after).disk.manifest);
    AnswerMayFollow(after, Now(after).disk.manifest, run, ToolResult(call.id, Succeeded, ""));
    after := LogAndMark(after, run, ToolResult(call.id, Succeeded, ""));
    after := EmitAndMark(after, run, ToolFinished(call.id, Succeeded));
  }

  /** beginRunLocked: the command, the run and its budget in one manifest. */
  lemma RunBegun(id: CommandId) returns (trail: seq<World>)
    ensures RunOpen(trail, 1) && Now(trail).disk.records == [] && Now(trail).disk.events == []
    ensures 1 in Now(trail).disk.manifest.budgets && Now(trail).disk.manifest.budgets[1] == ZERO_BUDGET
  {
    var m := NEW_MANIFEST.(seen := {id}, nextRun := 1, budgets := map[1 := ZERO_BUDGET], active := Some(1));
    var w := WithManifest(NEW_WORLD, m);
    assert ManifestStep(NEW_WORLD, w);
    trail := [NEW_WORLD];
    PathAppend(trail, w);
    trail := trail + [w];
  }

  /** submit: behind the begun run the prompt and the start event. */
  lemma RunSubmitted(id: CommandId, prompt: string) returns (trail: seq<World>)
    requires prompt != ""
    ensures RunOpen(trail, 1) && ShapeOf(Now(trail).disk.records).Settled?
    ensures Now(trail).disk.records == [Record(1, 1, UserMessage(prompt))]
    ensures 1 in Now(trail).disk.manifest.budgets && Now(trail).disk.manifest.budgets[1] == ZERO_BUDGET
  {
    hide MayLog, Path, Outcomes;
    trail := RunBegun(id);
    InStepWithMarks(trail, Now(trail).disk.manifest);
    LoggableInRun(trail, Now(trail).disk.manifest, 1, UserMessage(prompt));
    trail := LogAndMark(trail, 1, UserMessage(prompt));
    trail := EmitAndMark(trail, 1, RunStarted(prompt));
  }

  /** A provider asks for a call, gets its answer, and uses the ID again: the session can never be
      opened any more. */
  lemma ReusedIdBreaksTheSession(id: CommandId, prompt: string, call: Call) returns (trail: seq<World>)
    requires prompt != "" && ValidPayload(1, ToolCall(call))
    ensures Path(trail) && !OpenAccepts(Now(trail).disk)
    ensures Now(trail).disk.records ==
              [Record(1, 1, UserMessage(prompt)), Record(2, 1, ToolCall(call)),
               Record(3, 1, ToolResult(call.id, Succeeded, "")), Record(4, 1, ToolCall(call))]
  {
    hide ShapeOf, Outcomes, Path, LastFailed, OpenAccepts, MarksExact;
    trail := RunSubmitted(id, prompt);
    trail := CallAsked(trail, 1, call);
    trail := CallAnswered(trail, 1, call);
    trail := CallAsked(trail, 1, call);
    var log := Now(trail).disk.records;
    assert log[1].payload.call.id == log[3].payload.call.id;
    OpenExactlyUnique(trail);
  }

  /** A run completes, and the process dies behind its logged outcome: recovery tells everyone that
      the run failed, interrupted, and the log still says that it completed. */
  lemma CompletedRunIsToldInterrupted(id: CommandId, prompt: string, text: string) returns (trail: seq<World>)
    requires prompt != "" && text != ""
    ensures Path(trail) && OpenAccepts(Now(trail).disk)
    ensures Now(trail).disk.records ==
              [Record(1, 1, UserMessage(prompt)), Record(2, 1, AssistantBlock(text)),
               Record(3, 1, RunOutcome(RunCompleted, NoCause))]
    ensures var d := Recovered(Now(trail)).disk;
            && Verdict(d.records, 1) == Some(RunCompletedEvent)
            && Told(d.events, 1) == Some(RunFailedEvent(CauseInterrupted))
            && !Agree(d, 1)
  {
    hide MayLog, ShapeOf, Outcomes, Path, LastFailed, Verdict, Told, Repairable, OpenAccepts, Recovered, UniqueCalls;
    trail := RunSubmitted(id, prompt);
    trail := TextAnswered(trail, text);
    trail := OutcomeLogged(trail, 1, RunCompleted, NoCause);
    NoCallsAreUnique(Now(trail).disk.records);
    OpenExactlyUnique(trail);
    OpenedIsRepairable(trail);
    EndAfterRecovery(Now(trail), 1);
  }

  /** A logical call whose answer is text alone. */
  lemma TextAnswered(trail: seq<World>, text: string) returns (after: seq<World>)
    requires RunOpen(trail, 1) && ShapeOf(Now(trail).disk.records).Settled? && text != ""
    requires 1 in Now(trail).disk.manifest.budgets && Now(trail).disk.manifest.budgets[1] == ZERO_BUDGET
    ensures RunOpen(after, 1) && ShapeOf(Now(after).disk.records).Settled?
    ensures Now(after).disk.records == Now(trail).disk.records + [NextRecord(Now(trail).disk, 1, AssistantBlock(text))]
  {
    hide MayLog, ShapeOf, Outcomes, Path;
    var asked := ReserveAndStart(trail, 1, LogicalCall);
    asked := ReserveAndStart(asked, 1, TransportAttempt);
    InStepWithMarks(asked, Now(asked).disk.manifest);
    LoggableInRun(asked, Now(asked).disk.manifest, 1, AssistantBlock(text));
    after := LogAndMark(asked, 1, AssistantBlock(text));
    after := EmitAndMark(after, 1, AssistantText(text));
  }

  /** The outcome reaches the log, and the process dies. */
  lemma OutcomeLogged(trail: seq<World>, run: RunId, result: RunResult, cause: Cause) returns (after: seq<World>)
    requires RunOpen(trail, run) && ShapeOf(Now(trail).disk.records).Settled?
    requires ValidPayload(run, RunOutcome(result, cause))
    ensures Path(after) && after != []
    ensures Now(after).disk.records ==
              Now(trail).disk.records + [NextRecord(Now(trail).disk, run, RunOutcome(result, cause))]
    ensures Now(after).disk.manifest.active == Some(run) && Outcomes(Now(after).disk.records, run) == 1
    ensures Verdict(Now(after).disk.records, run) == Some(TerminalKind(result, cause))
    ensures Told(Now(after).disk.events, run).None?
  {
    hide MayLog, ShapeOf, Outcomes, Path, Verdict, Told, WorldInv;
    var w := Now(trail);
    InStepWithMarks(trail, w.disk.manifest);
    LoggableInRun(trail, w.disk.manifest, run, RunOutcome(result, cause));
    var w' := WithRecords(w, [NextRecord(w.disk, run, RunOutcome(result, cause))]);
    assert LogStep(w, w');
    PathAppend(trail, w');
    after := trail + [w'];
    ToldIsTerminal(w.disk.events, run);
  }

  lemma NoCallsAreUnique(log: seq<Record>)
    requires forall r <- log :: !r.payload.ToolCall?
    ensures UniqueCalls(log)
  {
    assert forall i :: 0 <= i < |log| ==> log[i] in log;
  }

  /** An assistant block whose log write succeeds while the process dies, or goes on, without its
      manifest: the life goes on, and the log in memory is the durable one without its last record. */
  lemma SwallowedBlock(trail: seq<World>, run: RunId, text: string) returns (after: seq<World>)
    requires RunOpen(trail, run) && ShapeOf(Now(trail).disk.records).Settled? && text != ""
    ensures Path(after) && after == trail + [Now(after)] && Now(after).disk.manifest == Now(trail).disk.manifest
    ensures var mem, log := Now(trail).disk.records, Now(after).disk.records;
            Lags(mem, log) && mem != log && log == mem + [NextRecord(Now(trail).disk, run, AssistantBlock(text))]
  {
    hide MayLog, ShapeOf, Outcomes, Path, Lags;
    var w := Now(trail);
    InStepWithMarks(trail, w.disk.manifest);
    LoggableInRun(trail, w.disk.manifest, run, AssistantBlock(text));
    var r := NextRecord(w.disk, run, AssistantBlock(text));
    RunIsPositive(trail, run);
    var w' := WithRecords(w, [r]);
    assert LogStep(w, w');
    PathAppend(trail, w');
    after := trail + [w'];
    SameLags(w.disk.records);
    LagsAppend(w.disk.records, w.disk.records, r);
    assert |w.disk.records + [r]| == |w.disk.records| + 1;
  }

  lemma SameLags(log: seq<Record>)
    ensures Lags(log, log)
  {
  }

  lemma RunIsPositive(trail: seq<World>, run: RunId)
    requires RunOpen(trail, run)
    ensures run > 0
  {
    PathInv(trail);
  }
}
