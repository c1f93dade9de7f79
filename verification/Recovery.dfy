/** Reopening a session after a crash: the repair of an interrupted run and of a half-done close,
    as the sequence of disk states it passes through. */
module Recovery {
  import opened Wrappers
  import opened Transcript
  import opened Validate
  import opened Shape
  import opened Durable
  import opened Chains
  import opened CrashSafety

  const INTERRUPTED_TEXT := "read-only tool call interrupted by process exit; not repeated automatically"

  /** store.Open: the logs are authoritative, the manifest may only lag behind them. */
  predicate OpenAccepts(d: Disk) {
    && (d.manifest.active.Some? ==> d.manifest.active.value != 0 && d.manifest.active.value in d.manifest.budgets)
    && AcceptedLog(d.records)
    && WellFormedEvents(d.events)
    && d.manifest.transcriptSeq <= |d.records|
    && d.manifest.eventCursor <= |d.events|
  }

  // ---- Micro-steps of recovery ---------------------------------------------------

  function Logged(d: Disk, r: Record): Disk {
    d.(records := d.records + [r])
  }

  function Emitted(d: Disk, e: Event): Disk {
    d.(events := d.events + [e])
  }

  /** A manifest replacement that only brings the high-water marks up to the logs. */
  function Marked(d: Disk): Disk {
    d.(manifest := d.manifest.(transcriptSeq := |d.records|, eventCursor := |d.events|))
  }

  function Answer(log: seq<Record>, run: RunId, c: Call): Record {
    Record(|log| + 1, run, ToolResult(c.id, Interrupted, INTERRUPTED_TEXT))
  }

  function InterruptedOutcome(log: seq<Record>, run: RunId): Record {
    Record(|log| + 1, run, RunOutcome(RunInterrupted, CauseInterrupted))
  }

  function InterruptedEvent(events: seq<Event>, run: RunId): Event {
    Event(|events| + 1, run, RunFailedEvent(CauseInterrupted))
  }

  function CloseEvent(events: seq<Event>): Event {
    Event(|events| + 1, 0, SessionClosedEvent)
  }

  function Finished(d: Disk): Disk {
    var m := Marked(d);
    m.(manifest := m.manifest.(active := None))
  }

  function Closed(d: Disk): Disk {
    var m := Marked(d);
    m.(manifest := m.manifest.(closed := true))
  }

  // ---- The durable states of one uninterrupted recovery ----------------------------

  function LogTrail(w: World, r: Record): seq<World> {
    var d := Logged(w.disk, r);
    [w.(disk := d), w.(disk := Marked(d))]
  }

  function EmitTrail(w: World, e: Event): seq<World> {
    var d := Emitted(w.disk, e);
    [w.(disk := d), w.(disk := Marked(d))]
  }

  function AnswerTrail(w: World, run: RunId, open: seq<Call>): seq<World>
    decreases |open|
  {
    if open == [] then []
    else
      var t := LogTrail(w, Answer(w.disk.records, run, open[0]));
      t + AnswerTrail(After(w, t), run, open[1..])
  }

  lemma AnswerTrailFirst(trail: seq<World>, run: RunId, open: seq<Call>)
    requires trail != [] && open != []
    ensures var t := trail + LogTrail(Now(trail), Answer(Now(trail).disk.records, run, open[0]));
            trail + AnswerTrail(Now(trail), run, open) == t + AnswerTrail(Now(t), run, open[1..])
  {
  }

  function OutcomeTrail(w: World, run: RunId): seq<World> {
    if Outcomes(w.disk.records, run) > 0 then []
    else
      var t := AnswerTrail(w, run, OpenCalls(w.disk.records, w.disk.records));
      var w' := After(w, t);
      t + LogTrail(w', InterruptedOutcome(w'.disk.records, run))
  }

  function TerminalTrail(w: World, run: RunId): seq<World> {
    if Terminals(w.disk.events, run) > 0 then [] else EmitTrail(w, InterruptedEvent(w.disk.events, run))
  }

  function FinishTrail(w: World): seq<World> {
    [w.(disk := Finished(w.disk))]
  }

  function ReconcileTrail(w: World, run: RunId): seq<World> {
    var t1 := OutcomeTrail(w, run);
    var t2 := t1 + TerminalTrail(After(w, t1), run);
    t2 + FinishTrail(After(w, t2))
  }

  function MarkClosedTrail(w: World): seq<World> {
    if w.disk.manifest.closed then [] else [w.(disk := Closed(w.disk))]
  }

  function CloseTrail(w: World): seq<World> {
    if !HasClose(w.disk.records) then []
    else
      var t := MarkClosedTrail(w);
      var w' := After(w, t);
      if CloseEvents(w.disk.events) > 0 then t else t + EmitTrail(w', CloseEvent(w'.disk.events))
  }

  function RecoveryTrail(w: World): seq<World> {
    var t := if w.disk.manifest.active.Some? then ReconcileTrail(w, w.disk.manifest.active.value) else [];
    t + CloseTrail(After(w, t))
  }

  function Recovered(w: World): World {
    After(w, RecoveryTrail(w))
  }

  // ---- Where recovery is heading ----------------------------------------------------

  function Answered(log: seq<Record>, run: RunId, open: seq<Call>): seq<Record>
    decreases |open|
  {
    if open == [] then log else Answered(log + [Answer(log, run, open[0])], run, open[1..])
  }

  function FinalRecords(log: seq<Record>, run: RunId): seq<Record> {
    if Outcomes(log, run) > 0 then log
    else
      var a := Answered(log, run, OpenCalls(log, log));
      a + [InterruptedOutcome(a, run)]
  }

  function FinalEvents(events: seq<Event>, run: RunId): seq<Event> {
    if Terminals(events, run) > 0 then events else events + [InterruptedEvent(events, run)]
  }

  function Unmarked(m: Manifest): Manifest {
    m.(transcriptSeq := 0, eventCursor := 0)
  }

  /** The repaired session, with the high-water marks left out. */
  function Goal(d: Disk): Disk {
    if d.manifest.active.Some? then
      Disk(FinalRecords(d.records, d.manifest.active.value), FinalEvents(d.events, d.manifest.active.value),
           Unmarked(d.manifest.(active := None)))
    else if HasClose(d.records) then
      Disk(d.records, if CloseEvents(d.events) > 0 then d.events else d.events + [CloseEvent(d.events)],
           Unmarked(d.manifest.(closed := true)))
    else
      Disk(d.records, d.events, Unmarked(d.manifest))
  }

  ghost predicate Repairable(w: World) {
    WorldInv(w) && UniqueCalls(w.disk.records)
  }

  /** A step of the protocol that does not change the goal. */
  ghost predicate Approaches(w: World, w': World) {
    Step(w, w') && UniqueCalls(w'.disk.records) && Goal(w'.disk) == Goal(w.disk)
  }

  ghost predicate Leads(w: World, t: seq<World>) {
    Chain(Approaches, w, t)
  }

  lemma {:induction false} LeadsInv(w: World, t: seq<World>)
    requires Repairable(w) && Leads(w, t)
    ensures Repairable(After(w, t))
    ensures Goal(After(w, t).disk) == Goal(w.disk)
  {
    if t != [] {
      LeadsInv(w, t[..|t| - 1]);
      StepKeepsInv(After(w, t[..|t| - 1]), t[|t| - 1]);
    }
  }

  /** One appended repair record, followed by the manifest write that covers it. */
  lemma LogLeads(w: World, r: Record)
    requires Repairable(w) && MayLog(w.disk, r) && !r.payload.ToolCall?
    requires Goal(Logged(w.disk, r)) == Goal(w.disk)
    ensures Leads(w, LogTrail(w, r))
  {
    var d' := Logged(w.disk, r);
    var w' := w.(disk := d');
    assert LogStep(w, w');
    StepKeepsInv(w, w');
    UniqueCallsAppend(w.disk.records, r);
    var w'' := w'.(disk := Marked(d'));
    assert ManifestStep(w', w'');
    ChainTwo(Approaches, w, w', w'');
  }

  lemma EmitLeads(w: World, e: Event)
    requires Repairable(w) && MayEmit(w.disk, e)
    requires Goal(Emitted(w.disk, e)) == Goal(w.disk)
    ensures Leads(w, EmitTrail(w, e))
  {
    var d' := Emitted(w.disk, e);
    var w' := w.(disk := d');
    assert EventStep(w, w');
    StepKeepsInv(w, w');
    var w'' := w'.(disk := Marked(d'));
    assert ManifestStep(w', w'');
    ChainTwo(Approaches, w, w', w'');
  }

  lemma ReplaceLeads(w: World, w': World)
    requires Repairable(w) && ManifestStep(w, w') && Goal(w'.disk) == Goal(w.disk)
    ensures Leads(w, [w'])
  {
    ChainOne(Approaches, w, w');
  }

  /** The next answer is one the protocol allows, and takes the first call off the open ones. */
  lemma AnswerFits(w: World, run: RunId)
    requires Repairable(w) && w.disk.manifest.active == Some(run) && Outcomes(w.disk.records, run) == 0
    requires OpenCalls(w.disk.records, w.disk.records) != []
    ensures var open := OpenCalls(w.disk.records, w.disk.records);
            var r := Answer(w.disk.records, run, open[0]);
            && MayLog(w.disk, r)
            && Outcomes(w.disk.records + [r], run) == 0
            && OpenCalls(w.disk.records + [r], w.disk.records + [r]) == open[1..]
            && Goal(Logged(w.disk, r)) == Goal(w.disk)
  {
    hide Repairable, Goal, OpenCalls;
    var log := w.disk.records;
    var open := OpenCalls(log, log);
    var r := Answer(log, run, open[0]);
    CountsAppend(log, r, w.disk.events, Event(0, 0, SessionResumed), run);
    AnswerAllowed(w, run);
    AnswerTakesFirst(w, run);
    AnswerKeepsGoal(w.disk, run);
  }

  lemma AnswerAllowed(w: World, run: RunId)
    requires Repairable(w) && w.disk.manifest.active == Some(run) && Outcomes(w.disk.records, run) == 0
    requires OpenCalls(w.disk.records, w.disk.records) != []
    ensures MayLog(w.disk, Answer(w.disk.records, run, OpenCalls(w.disk.records, w.disk.records)[0]))
  {
    hide OpenCalls, ShapeOf, Next, UniqueCalls, StopsAfterFailure, OutcomeIsLast, RunsFinished, BudgetsConsistent,
         WellFormedEvents;
    RecordsValid(w.disk.records);
    FirstAnswerFits(w.disk.records, run);
  }

  lemma FirstAnswerFits(log: seq<Record>, run: RunId)
    requires ShapeOf(log) != Broken && UniqueCalls(log) && OpenCalls(log, log) != []
    requires ShapeOf(log).Batch? ==> ShapeOf(log).run == run
    requires forall x <- log :: ValidRecord(x)
    ensures OpenCalls(log, log)[0].id != ""
    ensures Next(ShapeOf(log), Answer(log, run, OpenCalls(log, log)[0])) != Broken
  {
    hide UniqueCalls, PairingRule, OpenBelongsTo, AllPaired, OpenCalls, ShapeOf, HasResult;
    var open := OpenCalls(log, log);
    ShapePairs(log);
    OpenCallsAreCalls(log, log);
    assert open[0] in open;
    var i :| 0 <= i < |log| && IsCall(log[i], open[0].id);
    assert ValidRecord(log[i]);
  }

  lemma AnswerTakesFirst(w: World, run: RunId)
    requires Repairable(w) && OpenCalls(w.disk.records, w.disk.records) != []
    ensures var log := w.disk.records;
            var r := Answer(log, run, OpenCalls(log, log)[0]);
            OpenCalls(log + [r], log + [r]) == OpenCalls(log, log)[1..]
  {
    hide OpenCalls, ShapeOf;
    var log := w.disk.records;
    var r := Answer(log, run, OpenCalls(log, log)[0]);
    ShapePairs(log);
    UniqueCallsAppend(log, r);
    OpenCallsStep(log, r);
  }

  lemma AnswerKeepsGoal(d: Disk, run: RunId)
    requires d.manifest.active == Some(run) && Outcomes(d.records, run) == 0 && OpenCalls(d.records, d.records) != []
    requires var r := Answer(d.records, run, OpenCalls(d.records, d.records)[0]);
             Outcomes(d.records + [r], run) == 0
               && OpenCalls(d.records + [r], d.records + [r]) == OpenCalls(d.records, d.records)[1..]
    ensures Goal(Logged(d, Answer(d.records, run, OpenCalls(d.records, d.records)[0]))) == Goal(d)
  {
    hide OpenCalls, Outcomes;
  }

  /** Answering the open calls one by one. */
  lemma {:induction false} AnswerLeads(w: World, run: RunId, open: seq<Call>)
    requires Repairable(w) && w.disk.manifest.active == Some(run) && Outcomes(w.disk.records, run) == 0
    requires open == OpenCalls(w.disk.records, w.disk.records)
    ensures var t := AnswerTrail(w, run, open);
            var d' := After(w, t).disk;
            && Leads(w, t)
            && Outcomes(d'.records, run) == 0
            && d'.events == w.disk.events
            && d'.manifest.active == Some(run)
            && OpenCalls(d'.records, d'.records) == []
    decreases |open|
  {
    if open != [] {
      var r := Answer(w.disk.records, run, open[0]);
      AnswerFits(w, run);
      LogLeads(w, r);
      var t := LogTrail(w, r);
      LeadsInv(w, t);
      AnswerLeads(After(w, t), run, open[1..]);
      ChainThen(Approaches, w, t, AnswerTrail(After(w, t), run, open[1..]));
    }
  }

  lemma LastRecordLeads(w: World, run: RunId)
    requires Repairable(w) && w.disk.manifest.active == Some(run) && Outcomes(w.disk.records, run) == 0
    requires OpenCalls(w.disk.records, w.disk.records) == []
    ensures var t := LogTrail(w, InterruptedOutcome(w.disk.records, run));
            Leads(w, t) && Outcomes(After(w, t).disk.records, run) == 1
  {
    var log := w.disk.records;
    var r := InterruptedOutcome(log, run);
    ShapePairs(log);
    CountsAppend(log, r, w.disk.events, Event(0, 0, SessionResumed), run);
    LogLeads(w, r);
  }

  lemma OutcomeLeads(w: World, run: RunId)
    requires Repairable(w) && w.disk.manifest.active == Some(run)
    ensures var t := OutcomeTrail(w, run);
            var d' := After(w, t).disk;
            && Leads(w, t)
            && Outcomes(d'.records, run) == 1
            && d'.manifest.active == Some(run)
  {
    if Outcomes(w.disk.records, run) == 0 {
      var open := OpenCalls(w.disk.records, w.disk.records);
      AnswerLeads(w, run, open);
      var t := AnswerTrail(w, run, open);
      LeadsInv(w, t);
      var w' := After(w, t);
      LastRecordLeads(w', run);
      ChainThen(Approaches, w, t, LogTrail(w', InterruptedOutcome(w'.disk.records, run)));
    }
  }

  lemma TerminalLeads(w: World, run: RunId)
    requires Repairable(w) && w.disk.manifest.active == Some(run) && Outcomes(w.disk.records, run) == 1
    ensures var t := TerminalTrail(w, run);
            var d' := After(w, t).disk;
            && Leads(w, t)
            && Outcomes(d'.records, run) == 1 && Terminals(d'.events, run) == 1
            && d'.manifest.active == Some(run)
  {
    if Terminals(w.disk.events, run) == 0 {
      var e := InterruptedEvent(w.disk.events, run);
      CountsAppend(w.disk.records, Record(0, 0, SessionClosed), w.disk.events, e, run);
      EmitLeads(w, e);
    }
  }

  lemma FinishLeads(w: World, run: RunId)
    requires Repairable(w) && w.disk.manifest.active == Some(run)
    requires Outcomes(w.disk.records, run) == 1 && Terminals(w.disk.events, run) == 1
    ensures Leads(w, FinishTrail(w))
  {
    ReplaceLeads(w, w.(disk := Finished(w.disk)));
  }

  lemma ReconcileLeads(w: World, run: RunId)
    requires Repairable(w) && w.disk.manifest.active == Some(run)
    ensures Leads(w, ReconcileTrail(w, run))
    ensures After(w, ReconcileTrail(w, run)).disk.manifest.active.None?
  {
    var t1 := OutcomeTrail(w, run);
    OutcomeLeads(w, run);
    LeadsInv(w, t1);
    var w1 := After(w, t1);
    var u := TerminalTrail(w1, run);
    TerminalLeads(w1, run);
    LeadsInv(w1, u);
    ChainThen(Approaches, w, t1, u);
    var w2 := After(w, t1 + u);
    FinishLeads(w2, run);
    ChainThen(Approaches, w, t1 + u, FinishTrail(w2));
  }

  lemma MarkClosedLeads(w: World)
    requires Repairable(w) && w.disk.manifest.active.None? && HasClose(w.disk.records)
    ensures Leads(w, MarkClosedTrail(w))
    ensures var w' := After(w, MarkClosedTrail(w));
            && Repairable(w') && w'.disk.manifest.active.None? && w'.disk.manifest.closed
            && w'.disk.records == w.disk.records && w'.disk.events == w.disk.events
  {
    if !w.disk.manifest.closed { ReplaceLeads(w, w.(disk := Closed(w.disk))); }
    LeadsInv(w, MarkClosedTrail(w));
  }

  lemma CloseEventLeads(w: World)
    requires Repairable(w) && w.disk.manifest.active.None? && w.disk.manifest.closed && CloseEvents(w.disk.events) == 0
    ensures Leads(w, EmitTrail(w, CloseEvent(w.disk.events)))
    ensures CloseEvents(w.disk.events + [CloseEvent(w.disk.events)]) == 1
  {
    var e := CloseEvent(w.disk.events);
    CountsAppend(w.disk.records, Record(0, 0, SessionClosed), w.disk.events, e, 0);
    EmitLeads(w, e);
  }

  lemma CloseEventsAtMostOne(w: World)
    requires Repairable(w)
    ensures CloseEvents(w.disk.events) <= 1
  {
  }

  lemma CloseLeads(w: World)
    requires Repairable(w) && w.disk.manifest.active.None?
    ensures Leads(w, CloseTrail(w))
    ensures var d' := After(w, CloseTrail(w)).disk;
            && d'.manifest.active.None?
            && (HasClose(d'.records) ==> d'.manifest.closed && CloseEvents(d'.events) == 1)
  {
    hide Chain, Repairable, CloseEvents, HasClose;
    CloseEventsAtMostOne(w);
    if HasClose(w.disk.records) {
      var t := MarkClosedTrail(w);
      MarkClosedLeads(w);
      var w' := After(w, t);
      if CloseEvents(w.disk.events) == 0 {
        CloseEventLeads(w');
        ChainThen(Approaches, w, t, EmitTrail(w', CloseEvent(w.disk.events)));
      }
    } else {
      NothingLeads(w);
    }
  }

  lemma NothingLeads(w: World)
    ensures Leads(w, [])
  {
  }

  /** Recovery of any repairable moment is a sequence of protocol steps towards one goal. */
  lemma RecoveryLeads(w: World)
    requires Repairable(w)
    ensures Leads(w, RecoveryTrail(w))
    ensures var d' := Recovered(w).disk;
            && d'.manifest.active.None?
            && (HasClose(d'.records) ==> d'.manifest.closed && CloseEvents(d'.events) == 1)
  {
    var t := if w.disk.manifest.active.Some? then ReconcileTrail(w, w.disk.manifest.active.value) else [];
    if w.disk.manifest.active.Some? { ReconcileLeads(w, w.disk.manifest.active.value); }
    LeadsInv(w, t);
    var w' := After(w, t);
    CloseLeads(w');
    ChainThen(Approaches, w, t, CloseTrail(w'));
  }
}
