/** What a session keeps on disk, and the discipline of its durable micro-steps. */
module Durable {
  import opened Wrappers
  import opened Transcript
  import opened Shape
  import opened Chains

  // ---- Events ---------------------------------------------------------------

  datatype EventKind =
    | RunStarted(prompt: string)
    | RunCompletedEvent
    | RunFailedEvent(cause: Cause)
    | RunCancelledEvent
    | AssistantText(text: string)
    | AssistantDelta(text: string)
    | ToolStarted(callId: CallId, name: string)
    | ToolFinished(callId: CallId, outcome: ToolOutcome)
    | Warning(code: string)
    | RetryScheduled(attempt: nat, delay: nat)
    | SessionResumed
    | SessionClosedEvent

  datatype Event = Event(cursor: nat, run: RunId, kind: EventKind)

  predicate SessionFact(k: EventKind) {
    k.Warning? || k.SessionResumed? || k.SessionClosedEvent?
  }

  predicate Terminal(k: EventKind) {
    k.RunCompletedEvent? || k.RunFailedEvent? || k.RunCancelledEvent?
  }

  /** Event.Validate: session facts have no run, all others have one. */
  predicate ValidKind(run: RunId, k: EventKind) {
    && (SessionFact(k) <==> run == 0)
    && match k
       case RunStarted(prompt) => prompt != ""
       case RunFailedEvent(cause) => !cause.NoCause?
       case AssistantText(text) => text != ""
       case AssistantDelta(text) => text != ""
       case ToolStarted(id, name) => id != "" && name != ""
       case ToolFinished(id, outcome) => id != "" && !outcome.Unrecognised?
       case Warning(code) => code != ""
       case RetryScheduled(attempt, _) => attempt > 0
       case _ => true
  }

  predicate WellFormedEvents(events: seq<Event>) {
    forall i :: 0 <= i < |events| ==> events[i].cursor == i + 1 && ValidKind(events[i].run, events[i].kind)
  }

  // ---- Budgets --------------------------------------------------------------

  /** The durable counters of a run; delays are in nanoseconds. */
  datatype Budget = Budget(calls: nat, attempts: nat, delay: nat)

  const ZERO_BUDGET := Budget(0, 0, 0)
  const MAX_CALLS: nat := 64
  const MAX_ATTEMPTS: nat := 96
  const MAX_DELAY: nat := 600_000_000_000

  predicate WithinLimits(b: Budget) {
    b.calls <= MAX_CALLS && b.attempts <= MAX_ATTEMPTS && b.delay <= MAX_DELAY
  }

  predicate BudgetLe(a: Budget, b: Budget) {
    a.calls <= b.calls && a.attempts <= b.attempts && a.delay <= b.delay
  }

  // ---- The disk -------------------------------------------------------------

  type CommandId = string

  datatype Manifest = Manifest(
    closed: bool,
    transcriptSeq: nat,
    eventCursor: nat,
    nextRun: nat,
    seen: set<CommandId>,
    budgets: map<RunId, Budget>,
    active: Option<RunId>)

  datatype Disk = Disk(records: seq<Record>, events: seq<Event>, manifest: Manifest)

  /** A moment of a session's life: what is on disk, and the work actually started so far. */
  datatype World = World(disk: Disk, spent: map<RunId, Budget>)

  const NEW_MANIFEST := Manifest(false, 0, 0, 0, {}, map[], None)
  const NEW_WORLD := World(Disk([], [], NEW_MANIFEST), map[])

  function Spent(w: World, run: RunId): Budget {
    if run in w.spent then w.spent[run] else ZERO_BUDGET
  }

  function Outcomes(log: seq<Record>, run: RunId): nat {
    if log == [] then 0
    else
      var r := log[|log| - 1];
      Outcomes(log[..|log| - 1], run) + if r.payload.RunOutcome? && r.run == run then 1 else 0
  }

  function Terminals(events: seq<Event>, run: RunId): nat {
    if events == [] then 0
    else
      var e := events[|events| - 1];
      Terminals(events[..|events| - 1], run) + if Terminal(e.kind) && e.run == run then 1 else 0
  }

  /** The event that tells how a run ended. */
  function TerminalKind(result: RunResult, cause: Cause): EventKind {
    match result
    case RunCancelled => RunCancelledEvent
    case RunFailed => RunFailedEvent(cause)
    case RunInterrupted => RunFailedEvent(cause)
    case RunCompleted => RunCompletedEvent
  }

  const INTERRUPTED_EVENT := RunFailedEvent(CauseInterrupted)

  /** What the logged outcome of the run calls for as its terminal event. */
  function Verdict(log: seq<Record>, run: RunId): Option<EventKind> {
    if log == [] then None
    else
      var r := log[|log| - 1];
      if r.payload.RunOutcome? && r.run == run then Some(TerminalKind(r.payload.result, r.payload.cause))
      else Verdict(log[..|log| - 1], run)
  }

  /** The run's terminal event. */
  function Told(events: seq<Event>, run: RunId): Option<EventKind> {
    if events == [] then None
    else
      var e := events[|events| - 1];
      if Terminal(e.kind) && e.run == run then Some(e.kind) else Told(events[..|events| - 1], run)
  }

  function CloseEvents(events: seq<Event>): nat {
    if events == [] then 0
    else CloseEvents(events[..|events| - 1]) + if events[|events| - 1].kind.SessionClosedEvent? then 1 else 0
  }

  // ---- Micro-steps ------------------------------------------------------------

  /** The last record is the result of a call that did not succeed. */
  predicate LastFailed(log: seq<Record>) {
    log != [] && log[|log| - 1].payload.ToolResult? && log[|log| - 1].payload.outcome != Succeeded
  }

  /** Behind a non-success the calls of a batch are skipped, or interrupted by a crash. */
  predicate FollowsFailure(r: Record) {
    r.payload.ToolResult? ==> r.payload.outcome.Skipped? || r.payload.outcome.Interrupted?
  }

  /** When the protocol lets a record reach the log. */
  predicate MayLog(d: Disk, r: Record) {
    && r.seqNo == |d.records| + 1
    && ValidRecord(r)
    && !HasClose(d.records)
    && if r.payload.SessionClosed? then d.manifest.active.None?
       else
         && d.manifest.active == Some(r.run)
         && Outcomes(d.records, r.run) == 0
         && Next(ShapeOf(d.records), r) != Broken
         && (LastFailed(d.records) ==> FollowsFailure(r))
  }

  /** When the protocol lets an event reach the event log.  A terminal event tells the logged outcome,
      or that a later process found the run interrupted. */
  predicate MayEmit(d: Disk, e: Event) {
    && e.cursor == |d.events| + 1
    && ValidKind(e.run, e.kind)
    && if Terminal(e.kind) then
         && d.manifest.active == Some(e.run) && Outcomes(d.records, e.run) == 1 && Terminals(d.events, e.run) == 0
         && (Verdict(d.records, e.run) == Some(e.kind) || e.kind == INTERRUPTED_EVENT)
       else if e.kind.SessionClosedEvent? then
         d.manifest.closed && CloseEvents(d.events) == 0
       else if SessionFact(e.kind) then
         d.manifest.active.None? && !HasClose(d.records)
       else
         d.manifest.active == Some(e.run) && Outcomes(d.records, e.run) == 0
  }

  /** Reservations only grow and stay inside the limits. */
  predicate BudgetsAdvance(a: map<RunId, Budget>, b: map<RunId, Budget>) {
    && a.Keys <= b.Keys
    && (forall run <- a :: BudgetLe(a[run], b[run]))
    && (forall run <- b :: WithinLimits(b[run]))
  }

  /** How one manifest may replace another.  A run starts together with its fresh budget and a
      new run number; it ends only once its outcome and its terminal event are on disk. */
  predicate MayReplace(d: Disk, m: Manifest) {
    && m.transcriptSeq == |d.records|
    && m.eventCursor == |d.events|
    && d.manifest.seen <= m.seen
    && BudgetsAdvance(d.manifest.budgets, m.budgets)
    && (m.closed == d.manifest.closed || (m.closed && HasClose(d.records)))
    && if m.active == d.manifest.active then
         m.nextRun == d.manifest.nextRun && m.budgets.Keys == d.manifest.budgets.Keys
       else if d.manifest.active.None? then
         && !HasClose(d.records)
         && m.nextRun == d.manifest.nextRun + 1
         && m.active == Some(m.nextRun)
         && m.budgets.Keys == d.manifest.budgets.Keys + {m.nextRun}
         && m.budgets[m.nextRun] == ZERO_BUDGET
       else
         && m.active.None?
         && m.nextRun == d.manifest.nextRun
         && m.budgets.Keys == d.manifest.budgets.Keys
         && Outcomes(d.records, d.manifest.active.value) == 1
         && Terminals(d.events, d.manifest.active.value) == 1
  }

  predicate LogStep(w: World, w': World) {
    && |w'.disk.records| == |w.disk.records| + 1
    && var r := w'.disk.records[|w.disk.records|];
       w' == w.(disk := w.disk.(records := w.disk.records + [r])) && MayLog(w.disk, r)
  }

  predicate EventStep(w: World, w': World) {
    && |w'.disk.events| == |w.disk.events| + 1
    && var e := w'.disk.events[|w.disk.events|];
       w' == w.(disk := w.disk.(events := w.disk.events + [e])) && MayEmit(w.disk, e)
  }

  predicate ManifestStep(w: World, w': World) {
    w' == w.(disk := w.disk.(manifest := w'.disk.manifest)) && MayReplace(w.disk, w'.disk.manifest)
  }

  /** Work of the active run begins: only what a durable reservation already covers. */
  predicate StartStep(w: World, w': World) {
    && w'.disk == w.disk
    && w.disk.manifest.active.Some?
    && var run := w.disk.manifest.active.value;
       && run in w.disk.manifest.budgets
       && run in w'.spent
       && w' == w.(spent := w.spent[run := w'.spent[run]])
       && BudgetLe(Spent(w, run), w'.spent[run])
       && BudgetLe(w'.spent[run], w.disk.manifest.budgets[run])
  }

  predicate Step(w: World, w': World) {
    LogStep(w, w') || EventStep(w, w') || ManifestStep(w, w') || StartStep(w, w')
  }

  /** A life: every moment from the creation of the session, across any number of processes.
      A crash loses only volatile state, so it is not a step of the disk. */
  ghost predicate Path(trail: seq<World>) {
    History(Step, NEW_WORLD, trail)
  }

  function Now(trail: seq<World>): World
    requires trail != []
  {
    trail[|trail| - 1]
  }

  lemma PathAppend(trail: seq<World>, w: World)
    requires Path(trail) && Step(Now(trail), w)
    ensures Path(trail + [w]) && Now(trail + [w]) == w
  {
    HistoryAppend(Step, NEW_WORLD, trail, w);
  }

  // ---- The invariant of every life ---------------------------------------------

  predicate RunsFinished(d: Disk) {
    forall run :: 1 <= run <= d.manifest.nextRun && d.manifest.active != Some(run) ==>
      Outcomes(d.records, run) == 1 && Terminals(d.events, run) == 1
  }

  ghost predicate NoFutureRuns(d: Disk) {
    forall run: RunId :: run > d.manifest.nextRun ==> Outcomes(d.records, run) == 0 && Terminals(d.events, run) == 0
  }

  predicate ActiveConsistent(d: Disk) {
    d.manifest.active.Some? ==>
      var run := d.manifest.active.value;
      && 1 <= run == d.manifest.nextRun
      && !HasClose(d.records)
      && Terminals(d.events, run) <= Outcomes(d.records, run) <= 1
      && (Outcomes(d.records, run) == 1 ==> ShapeOf(d.records).Settled?)
  }

  /** Nothing of a run is recorded after its outcome. */
  predicate OutcomeIsLast(log: seq<Record>) {
    forall i, j :: 0 <= i < j < |log| && log[i].payload.RunOutcome? ==> log[j].run != log[i].run
  }

  /** Live batches: successes, at most one non-success, and then nothing is executed any more. */
  predicate StopsAfterFailure(log: seq<Record>) {
    forall i :: 0 < i < |log| && LastFailed(log[..i]) ==> FollowsFailure(log[i])
  }

  predicate CloseConsistent(d: Disk) {
    && (d.manifest.closed ==> HasClose(d.records))
    && CloseEvents(d.events) <= (if d.manifest.closed then 1 else 0)
  }

  ghost predicate BudgetsConsistent(w: World) {
    && (forall run :: run in w.disk.manifest.budgets <==> 1 <= run <= w.disk.manifest.nextRun)
    && (forall run <- w.disk.manifest.budgets :: WithinLimits(w.disk.manifest.budgets[run]))
    && (forall run <- w.spent :: run in w.disk.manifest.budgets && BudgetLe(w.spent[run], w.disk.manifest.budgets[run]))
  }

  ghost predicate WorldInv(w: World) {
    && var d := w.disk;
    && WellFormedLog(d.records)
    && WellFormedEvents(d.events)
    && d.manifest.transcriptSeq <= |d.records|
    && d.manifest.eventCursor <= |d.events|
    && ShapeOf(d.records) != Broken
    && (ShapeOf(d.records).Batch? ==> d.manifest.active == Some(ShapeOf(d.records).run))
    && RunsFinished(d)
    && NoFutureRuns(d)
    && ActiveConsistent(d)
    && OutcomeIsLast(d.records)
    && StopsAfterFailure(d.records)
    && CloseConsistent(d)
    && BudgetsConsistent(w)
  }

  lemma CountsAppend(log: seq<Record>, r: Record, events: seq<Event>, e: Event, run: RunId)
    ensures Outcomes(log + [r], run) == Outcomes(log, run) + if r.payload.RunOutcome? && r.run == run then 1 else 0
    ensures Terminals(events + [e], run) == Terminals(events, run) + if Terminal(e.kind) && e.run == run then 1 else 0
    ensures CloseEvents(events + [e]) == CloseEvents(events) + if e.kind.SessionClosedEvent? then 1 else 0
  {
    assert (log + [r])[..|log|] == log;
    assert (events + [e])[..|events|] == events;
  }

  lemma VerdictAppend(log: seq<Record>, r: Record, run: RunId)
    ensures Verdict(log + [r], run) ==
              if r.payload.RunOutcome? && r.run == run then Some(TerminalKind(r.payload.result, r.payload.cause))
              else Verdict(log, run)
  {
    assert (log + [r])[..|log|] == log;
  }

  lemma ToldAppend(events: seq<Event>, e: Event, run: RunId)
    ensures Told(events + [e], run) == if Terminal(e.kind) && e.run == run then Some(e.kind) else Told(events, run)
  {
    assert (events + [e])[..|events|] == events;
  }
}
