/** The volatile half of a session against the disk: what a process in step with its disk keeps,
    and how each operation of the engine continues the life of the session. */
module Protocol {
  import opened Wrappers
  import opened Transcript
  import opened Shape
  import opened Durable
  import opened CrashSafety
  import opened CrashTheorems
  import opened Recovery
  import opened Store
  import opened Lives

  /** The log in memory is the durable one, except that an answer whose log write succeeded while
      the manifest write failed is missing from it. */
  predicate Lags(mem: seq<Record>, log: seq<Record>) {
    mem == log ||
    (log != [] && (
       (mem != [] && mem[|mem| - 1] == log[|log| - 1] && Lags(mem[..|mem| - 1], log[..|log| - 1])) ||
       (log[|log| - 1].payload.AssistantBlock? && Lags(mem, log[..|log| - 1]))))
  }

  function Blocks(log: seq<Record>): nat {
    if log == [] then 0
    else Blocks(log[..|log| - 1]) + if log[|log| - 1].payload.AssistantBlock? then 1 else 0
  }

  /** Memory and disk differ exactly when an assistant block is missing from memory: the two logs have
      the same number of other records. */
  lemma {:induction false} LagsExactly(mem: seq<Record>, log: seq<Record>)
    requires Lags(mem, log)
    ensures |log| - |mem| == Blocks(log) - Blocks(mem) >= 0
    ensures mem == log <==> Blocks(mem) == Blocks(log)
    ensures mem == log <==> |mem| == |log|
    decreases |log|
  {
    if mem != log {
      var init, r := log[..|log| - 1], log[|log| - 1];
      if mem != [] && mem[|mem| - 1] == r && Lags(mem[..|mem| - 1], init) {
        LagsExactly(mem[..|mem| - 1], init);
        assert mem == mem[..|mem| - 1] + [r] && log == init + [r];
      } else {
        LagsExactly(mem, init);
      }
    }
  }

  lemma LagsAppend(mem: seq<Record>, log: seq<Record>, r: Record)
    requires Lags(mem, log)
    ensures Lags(mem + [r], log + [r])
    ensures r.payload.AssistantBlock? ==> Lags(mem, log + [r])
  {
    assert (mem + [r])[..|mem|] == mem && (log + [r])[..|log|] == log;
  }

  lemma {:induction false} LagsAppendAll(mem: seq<Record>, log: seq<Record>, batch: seq<Record>)
    requires Lags(mem, log)
    ensures Lags(mem + batch, log + batch)
  {
    if batch == [] {
      assert mem + [] == mem && log + [] == log;
    } else {
      var n := |batch| - 1;
      LagsAppendAll(mem, log, batch[..n]);
      LagsAppend(mem + batch[..n], log + batch[..n], batch[n]);
      assert mem + batch == (mem + batch[..n]) + [batch[n]] && log + batch == (log + batch[..n]) + [batch[n]];
    }
  }

  lemma {:induction false} LagsShape(mem: seq<Record>, log: seq<Record>)
    requires Lags(mem, log) && ShapeOf(log) != Broken
    ensures ShapeOf(mem) == ShapeOf(log)
    decreases |log|
  {
    if mem != log {
      var init, r := log[..|log| - 1], log[|log| - 1];
      if mem != [] && mem[|mem| - 1] == r && Lags(mem[..|mem| - 1], init) {
        LagsShape(mem[..|mem| - 1], init);
      } else {
        LagsShape(mem, init);
      }
    }
  }

  // ---- Published events ------------------------------------------------------------------

  /** No terminal event of the active run has been shown to anyone. */
  predicate TerminalsHeld(published: seq<Event>, active: Option<RunId>) {
    forall e <- published :: Terminal(e.kind) ==> active != Some(e.run)
  }

  /** What holds of every process, even after a durability fault: the disk is a moment of a life,
      only durable events have been shown, and a terminal one only after its run was cleared. */
  ghost predicate Consistent(trail: seq<World>, published: seq<Event>) {
    && Path(trail)
    && published <= Now(trail).disk.events
    && TerminalsHeld(published, Now(trail).disk.manifest.active)
  }

  /** A process in step with its disk. */
  ghost predicate Linked(trail: seq<World>, m: Manifest, published: seq<Event>, cursor: nat, seen: set<CommandId>) {
    && Path(trail)
    && InStep(Now(trail).disk.manifest, m)
    && MarksExact(Now(trail).disk, m)
    && cursor <= |Now(trail).disk.events|
    && published == Now(trail).disk.events[..cursor]
    && TerminalsHeld(published, m.active)
    && seen <= m.seen
  }

  lemma LinkedIsConsistent(trail: seq<World>, m: Manifest, published: seq<Event>, cursor: nat, seen: set<CommandId>)
    requires Linked(trail, m, published, cursor, seen)
    ensures Consistent(trail, published)
  {
  }

  function NextRecord(d: Disk, run: RunId, payload: Payload): Record {
    Record(|d.records| + 1, run, payload)
  }

  function NextEvent(d: Disk, run: RunId, kind: EventKind): Event {
    Event(|d.events| + 1, run, kind)
  }

  /** A batch was logged and the manifest brought up to it, successfully or not. */
  ghost predicate LoggedAll(before: seq<World>, after: seq<World>, batch: seq<Record>, m: Manifest, ok: bool)
    requires before != []
  {
    Replaced(before + BatchStates(Now(before), batch), after, m, ok)
  }

  lemma LogLinked(before: seq<World>, after: seq<World>, batch: seq<Record>, m: Manifest, m': Manifest, ok: bool,
                  published: seq<Event>, cursor: nat, seen: set<CommandId>)
    requires Linked(before, m, published, cursor, seen)
    requires MayLogAll(Now(before).disk, batch)
    requires m' == m.(transcriptSeq := |Now(before).disk.records| + |batch|)
    requires LoggedAll(before, after, batch, m', ok)
    ensures Linked(after, m', published, cursor, seen)
    ensures before <= after && Now(after).spent == Now(before).spent
  {
    AppendLife(before, batch, after, m', ok);
  }

  lemma MayLogOne(d: Disk, r: Record)
    requires MayLog(d, r)
    ensures MayLogAll(d, [r])
  {
    assert [r][1..] == [];
  }

  lemma EmitLinked(before: seq<World>, after: seq<World>, e: Event, m: Manifest, m': Manifest, ok: bool,
                   published: seq<Event>, cursor: nat, seen: set<CommandId>)
    requires Linked(before, m, published, cursor, seen)
    requires MayEmit(Now(before).disk, e)
    requires m' == m.(eventCursor := e.cursor)
    requires Replaced(before + [WithEvent(Now(before), e)], after, m', ok)
    ensures Linked(after, m', published, cursor, seen)
    ensures before <= after && Now(after).spent == Now(before).spent
    ensures cursor == |Now(before).disk.events| && !Terminal(e.kind) ==>
              Linked(after, m', published + [e], cursor + 1, seen)
  {
    EmitLife(before, e, after, m', ok);
    assert Now(after).disk.events[..cursor] == published;
    if cursor == |Now(before).disk.events| {
      assert Now(after).disk.events[..cursor + 1] == published + [e];
    }
  }

  lemma CatchUpLinked(before: seq<World>, after: seq<World>, m: Manifest, m': Manifest, ok: bool,
                      published: seq<Event>, cursor: nat, seen: set<CommandId>)
    requires Linked(before, m, published, cursor, seen)
    requires Replaced(before, after, m', ok)
    requires m' == m.(seen := m'.seen, budgets := m'.budgets)
    requires m.seen <= m'.seen
             && (m'.budgets == m.budgets
                  || (m.budgets.Keys == m'.budgets.Keys && BudgetsAdvance(m.budgets, m'.budgets)))
    ensures Linked(after, m', published, cursor, seen)
    ensures before <= after && Now(after).spent == Now(before).spent
    ensures Now(after).disk.records == Now(before).disk.records && Now(after).disk.events == Now(before).disk.events
  {
    CatchUpLife(before, after, m', ok);
  }

  /** A durable reservation that the named piece of work still fits into. */
  ghost predicate Covered(w: World, run: RunId, counter: Counter, amount: nat) {
    && run in w.disk.manifest.budgets
    && BudgetLe(Counted(Spent(w, run), counter, amount), w.disk.manifest.budgets[run])
  }

  lemma ReserveLinked(before: seq<World>, after: seq<World>, run: RunId, counter: Counter, amount: nat, m: Manifest,
                      m': Manifest, ok: bool, published: seq<Event>, cursor: nat, seen: set<CommandId>)
    requires Linked(before, m, published, cursor, seen) && m.active == Some(run) && run in m.budgets
    requires Reserved(m.budgets[run], counter, amount).Some?
    requires m' == m.(budgets := m.budgets[run := Reserved(m.budgets[run], counter, amount).value])
    requires Replaced(before, after, m', ok)
    ensures Linked(after, m', published, cursor, seen)
    ensures before <= after && Now(after).spent == Now(before).spent
    ensures ok ==> Covered(Now(after), run, counter, amount)
  {
    InStepFacts(before, m);
    CatchUpLinked(before, after, m, m', ok, published, cursor, seen);
  }

  /** Nothing that happens before the work starts takes the reservation away. */
  lemma CoveredStays(before: seq<World>, after: seq<World>, run: RunId, counter: Counter, amount: nat)
    requires before != [] && before <= after && Path(after) && Now(after).spent == Now(before).spent
    requires Covered(Now(before), run, counter, amount)
    ensures Covered(Now(after), run, counter, amount)
  {
    LifeGrows(after, |before| - 1);
  }

  lemma BudgetKnown(trail: seq<World>, m: Manifest, run: RunId)
    requires Path(trail) && InStep(Now(trail).disk.manifest, m) && m.active == Some(run)
    ensures run in m.budgets && WithinLimits(m.budgets[run])
  {
    InStepFacts(trail, m);
  }

  lemma StartLinked(before: seq<World>, m: Manifest, run: RunId, counter: Counter, amount: nat,
                    published: seq<Event>, cursor: nat, seen: set<CommandId>)
    requires Linked(before, m, published, cursor, seen) && m.active == Some(run)
    requires Covered(Now(before), run, counter, amount)
    ensures Linked(before + [WithStart(Now(before), run, counter, amount)], m, published, cursor, seen)
  {
    var w := WithStart(Now(before), run, counter, amount);
    assert StartStep(Now(before), w);
    PathAppend(before, w);
  }

  lemma BeginLinked(before: seq<World>, after: seq<World>, m: Manifest, m': Manifest, ok: bool,
                    published: seq<Event>, cursor: nat, seen: set<CommandId>, id: CommandId)
    requires Linked(before, m, published, cursor, seen)
    requires m.active.None? && !HasClose(Now(before).disk.records)
    requires var run := m.nextRun + 1;
             m' == m.(seen := m.seen + {id}, nextRun := run, budgets := m.budgets[run := ZERO_BUDGET],
               active := Some(run))
    requires Replaced(before, after, m', ok)
    ensures Consistent(after, published) && before <= after
    ensures ok ==> Linked(after, m', published, cursor, seen + {id})
    ensures ok ==> Outcomes(Now(after).disk.records, m'.nextRun) == 0 && ShapeOf(Now(after).disk.records).Settled?
    ensures Now(after).disk.records == Now(before).disk.records && Now(after).disk.events == Now(before).disk.events
  {
    InStepFacts(before, m);
    ReplaceLife(before, after, m', ok);
    NoTerminal(Now(before).disk.events, m'.nextRun);
  }

  lemma FinishLinked(before: seq<World>, after: seq<World>, run: RunId, m: Manifest, m': Manifest, ok: bool,
                     published: seq<Event>, cursor: nat, seen: set<CommandId>)
    requires Linked(before, m, published, cursor, seen)
    requires m.active == Some(run) && m' == m.(active := None)
    requires Outcomes(Now(before).disk.records, run) == 1 && Terminals(Now(before).disk.events, run) == 1
    requires Replaced(before, after, m', ok)
    ensures Consistent(after, published) && before <= after
    ensures ok ==> Linked(after, m', Now(before).disk.events, |Now(before).disk.events|, seen)
    ensures !HasClose(Now(after).disk.records) && !m'.closed
    ensures Now(after).disk.records == Now(before).disk.records && Now(after).disk.events == Now(before).disk.events
    ensures Now(after).spent == Now(before).spent
  {
    InStepFacts(before, m);
    ReplaceLife(before, after, m', ok);
  }

  lemma CloseLinked(before: seq<World>, after: seq<World>, m: Manifest, m': Manifest, ok: bool,
                    published: seq<Event>, cursor: nat, seen: set<CommandId>)
    requires Linked(before, m, published, cursor, seen)
    requires m.active.None? && m' == m.(closed := true) && HasClose(Now(before).disk.records)
    requires Replaced(before, after, m', ok)
    ensures Consistent(after, published) && before <= after
    ensures ok ==> Linked(after, m', published, cursor, seen)
    ensures Now(after).disk.records == Now(before).disk.records && Now(after).disk.events == Now(before).disk.events
  {
    ReplaceLife(before, after, m', ok);
  }

  /** Outside a batch a running run may log anything but a tool result. */
  lemma LoggableInRun(trail: seq<World>, m: Manifest, run: RunId, payload: Payload)
    requires Path(trail) && InStep(Now(trail).disk.manifest, m)
    requires !payload.ToolResult? && !payload.SessionClosed?
    requires m.active == Some(run) && Outcomes(Now(trail).disk.records, run) == 0
    requires ShapeOf(Now(trail).disk.records).Settled?
    ensures ValidPayload(run, payload) ==> MayLog(Now(trail).disk, NextRecord(Now(trail).disk, run, payload))
    ensures var log := Now(trail).disk.records + [NextRecord(Now(trail).disk, run, payload)];
            && Outcomes(log, run) == (if payload.RunOutcome? then 1 else 0)
            && (!payload.ToolCall? ==> ShapeOf(log).Settled?)
            && (payload.RunOutcome? ==> Verdict(log, run) == Some(TerminalKind(payload.result, payload.cause)))
    ensures Terminals(Now(trail).disk.events, run) == 0
  {
    var d := Now(trail).disk;
    var r := NextRecord(d, run, payload);
    VerdictAppend(d.records, r, run);
    InStepFacts(trail, m);
    ShapeAppend(d.records, r);
    CountsAppend(d.records, r, d.events, Event(0, 0, SessionResumed), run);
  }

  /** A running run may emit its own, non-terminal events. */
  lemma EmittableInRun(trail: seq<World>, m: Manifest, run: RunId, kind: EventKind)
    requires Path(trail) && InStep(Now(trail).disk.manifest, m)
    requires !Terminal(kind) && !SessionFact(kind)
    requires m.active == Some(run) && Outcomes(Now(trail).disk.records, run) == 0
    ensures ValidKind(run, kind) ==> MayEmit(Now(trail).disk, NextEvent(Now(trail).disk, run, kind))
  {
  }

  /** A session fact may be emitted while no run is active and the session is open. */
  lemma FactEmittable(trail: seq<World>, m: Manifest, kind: EventKind)
    requires Path(trail) && InStep(Now(trail).disk.manifest, m)
    requires (kind.Warning? || kind.SessionResumed?) && m.active.None? && !HasClose(Now(trail).disk.records)
    ensures ValidKind(0, kind) ==> MayEmit(Now(trail).disk, NextEvent(Now(trail).disk, 0, kind))
  {
  }

  lemma CloseMayFollow(trail: seq<World>, m: Manifest)
    requires Path(trail) && InStep(Now(trail).disk.manifest, m)
    requires m.active.None? && !m.closed && !HasClose(Now(trail).disk.records)
    ensures MayLog(Now(trail).disk, NextRecord(Now(trail).disk, 0, SessionClosed))
    ensures HasClose(Now(trail).disk.records + [NextRecord(Now(trail).disk, 0, SessionClosed)])
    ensures CloseEvents(Now(trail).disk.events) == 0
  {
    var d := Now(trail).disk;
    InStepFacts(trail, m);
    HasCloseAppend(d.records, NextRecord(d, 0, SessionClosed));
  }

  lemma CloseEventMayFollow(trail: seq<World>, m: Manifest)
    requires Path(trail) && InStep(Now(trail).disk.manifest, m)
    requires m.closed && CloseEvents(Now(trail).disk.events) == 0
    ensures MayEmit(Now(trail).disk, NextEvent(Now(trail).disk, 0, SessionClosedEvent))
    ensures CloseEvents(Now(trail).disk.events + [NextEvent(Now(trail).disk, 0, SessionClosedEvent)]) == 1
  {
    CountsAppend([], Record(0, 0, SessionClosed), Now(trail).disk.events,
      NextEvent(Now(trail).disk, 0, SessionClosedEvent), 0);
  }

  lemma SeenIsConsumed(trail: seq<World>, m: Manifest, published: seq<Event>, cursor: nat, seen: set<CommandId>)
    requires Linked(trail, m, published, cursor, seen)
    ensures seen <= m.seen
  {
  }

  /** The first thing a command makes durable is its own ID. */
  ghost predicate OwnIdFirst(before: seq<World>, after: seq<World>, id: CommandId) {
    before <= after && (|before| < |after| ==> id in after[|before|].disk.manifest.seen)
  }

  /** Whatever follows it, a consumed command stays consumed. */
  lemma OwnIdStays(before: seq<World>, mid: seq<World>, after: seq<World>, id: CommandId)
    requires OwnIdFirst(before, mid, id) && |before| < |mid| && mid <= after && Path(after)
    ensures OwnIdFirst(before, after, id) && id in Now(after).disk.manifest.seen
  {
    LifeGrows(after, |before|);
  }

  lemma OwnIdUnused(trail: seq<World>, id: CommandId)
    ensures OwnIdFirst(trail, trail, id)
  {
  }

  lemma OwnIdGrows(before: seq<World>, after: seq<World>, id: CommandId)
    requires OwnIdFirst(before, after, id)
    ensures before <= after
  {
  }

  lemma OwnIdNow(before: seq<World>, after: seq<World>, id: CommandId, m: Manifest, ok: bool)
    requires before != [] && Replaced(before, after, m, ok) && id in m.seen
    ensures OwnIdFirst(before, after, id)
    ensures ok ==> |before| < |after| && id in Now(after).disk.manifest.seen
  {
  }

  /** The terminal event that tells the outcome may follow it, once. */
  lemma TerminalMayFollow(trail: seq<World>, m: Manifest, run: RunId, kind: EventKind)
    requires Path(trail) && InStep(Now(trail).disk.manifest, m)
    requires Terminal(kind) && m.active == Some(run)
    requires Outcomes(Now(trail).disk.records, run) == 1 && Terminals(Now(trail).disk.events, run) == 0
    requires Verdict(Now(trail).disk.records, run) == Some(kind)
    ensures ValidKind(run, kind) ==> MayEmit(Now(trail).disk, NextEvent(Now(trail).disk, run, kind))
    ensures Terminals(Now(trail).disk.events + [NextEvent(Now(trail).disk, run, kind)], run) == 1
  {
    CountsAppend([], Record(0, 0, SessionClosed), Now(trail).disk.events, NextEvent(Now(trail).disk, run, kind), run);
  }

  // ---- Batches of tool calls --------------------------------------------------------------

  function CallRecords(from: nat, run: RunId, calls: seq<Call>): seq<Record> {
    seq(|calls|, i requires 0 <= i < |calls| => Record(from + i + 1, run, ToolCall(calls[i])))
  }

  /** A running run whose log is between batches, or still receiving the calls of one. */
  ghost predicate TakesCalls(d: Disk, run: RunId) {
    && d.manifest.active == Some(run) && Outcomes(d.records, run) == 0 && !HasClose(d.records)
    && var s := ShapeOf(d.records);
       s.Settled? || (s.Batch? && s.run == run && s.calling && s.pending != [])
  }

  lemma OneCallMayLog(d: Disk, run: RunId, call: Call)
    requires TakesCalls(d, run)
    ensures var r := NextRecord(d, run, ToolCall(call));
            && (ValidRecord(r) ==> MayLog(d, r))
            && TakesCalls(Logged(d, r), run)
            && ShapeOf(Logged(d, r).records) == Batch(run, true, Pending(ShapeOf(d.records)) + [call])
  {
    var r := NextRecord(d, run, ToolCall(call));
    ShapeAppend(d.records, r);
    HasCloseAppend(d.records, r);
    CountsAppend(d.records, r, d.events, Event(0, 0, SessionResumed), run);
  }

  /** A batch may be logged behind a settled log of a running run. */
  lemma {:induction false} CallsMayLog(d: Disk, run: RunId, calls: seq<Call>)
    requires TakesCalls(d, run)
    requires forall rec <- CallRecords(|d.records|, run, calls) :: ValidRecord(rec)
    ensures var batch := CallRecords(|d.records|, run, calls);
            var d' := d.(records := d.records + batch);
            && MayLogAll(d, batch)
            && TakesCalls(d', run)
            && (calls != [] ==> ShapeOf(d'.records) == Batch(run, true, Pending(ShapeOf(d.records)) + calls))
    decreases |calls|
  {
    hide MayLog, TakesCalls, ShapeOf, ValidRecord, Pending;
    var batch := CallRecords(|d.records|, run, calls);
    if calls == [] {
      assert d.records + batch == d.records;
    } else {
      var r := batch[0];
      var d' := Logged(d, r);
      assert ValidRecord(r);
      OneCallMayLog(d, run, calls[0]);
      assert batch[1..] == CallRecords(|d'.records|, run, calls[1..]);
      assert forall rec <- batch[1..] :: rec in batch;
      CallsMayLog(d', run, calls[1..]);
      PendingOfBatch(d'.records);
      if |calls| == 1 { assert calls == [calls[0]] && batch == [r]; }
      assert d'.records + batch[1..] == d.records + batch;
      assert (Pending(ShapeOf(d.records)) + [calls[0]]) + calls[1..] == Pending(ShapeOf(d.records)) + calls;
    }
  }

  lemma BatchMayFollow(trail: seq<World>, m: Manifest, run: RunId, calls: seq<Call>)
    requires Path(trail) && InStep(Now(trail).disk.manifest, m)
    requires m.active == Some(run) && Outcomes(Now(trail).disk.records, run) == 0
    requires ShapeOf(Now(trail).disk.records).Settled? && calls != []
    requires forall c <- calls :: ValidPayload(run, ToolCall(c))
    ensures var batch := CallRecords(|Now(trail).disk.records|, run, calls);
            var log := Now(trail).disk.records + batch;
            && MayLogAll(Now(trail).disk, batch)
            && Outcomes(log, run) == 0
            && ShapeOf(log) == Batch(run, true, calls)
            && !LastFailed(log)
  {
    hide MayLog, ShapeOf, HasClose, Outcomes, WorldInv, ValidPayload;
    InStepFacts(trail, m);
    var d := Now(trail).disk;
    var batch := CallRecords(|d.records|, run, calls);
    forall rec | rec in batch ensures ValidRecord(rec) {
      var i :| 0 <= i < |batch| && batch[i] == rec;
      assert calls[i] in calls;
    }
    CallsMayLog(d, run, calls);
    assert [] + calls == calls;
    assert (d.records + batch)[|d.records + batch| - 1] == batch[|calls| - 1];
  }

  lemma PendingOfBatch(log: seq<Record>)
    ensures ShapeOf(log).Batch? ==> Pending(ShapeOf(log)) == ShapeOf(log).pending
  {
  }

  /** The next call of a batch may be answered; behind a failure only by a skip. */
  lemma AnswerMayFollow(trail: seq<World>, m: Manifest, run: RunId, payload: Payload)
    requires Path(trail) && InStep(Now(trail).disk.manifest, m)
    requires m.active == Some(run) && Outcomes(Now(trail).disk.records, run) == 0
    requires payload.ToolResult?
    requires var s := ShapeOf(Now(trail).disk.records);
             s.Batch? && s.run == run && s.pending != [] && s.pending[0].id == payload.callId
    requires LastFailed(Now(trail).disk.records) ==> payload.outcome.Skipped?
    ensures ValidPayload(run, payload) ==> MayLog(Now(trail).disk, NextRecord(Now(trail).disk, run, payload))
    ensures var s := ShapeOf(Now(trail).disk.records);
            var log := Now(trail).disk.records + [NextRecord(Now(trail).disk, run, payload)];
            && Outcomes(log, run) == 0
            && (LastFailed(log) <==> !payload.outcome.Succeeded?)
            && ShapeOf(log) == if |s.pending| == 1 then Settled else Batch(run, false, s.pending[1..])
  {
    var d := Now(trail).disk;
    var r := NextRecord(d, run, payload);
    InStepFacts(trail, m);
    ShapeAppend(d.records, r);
    CountsAppend(d.records, r, d.events, Event(0, 0, SessionResumed), run);
  }
}
