/** How each store operation continues a life, given what the protocol asks of its caller. */
module Lives {
  import opened Transcript
  import opened Shape
  import opened Durable
  import opened CrashSafety
  import opened Recovery
  import opened Store

  /** The process's manifest against the one on disk: the same run state, and at least as much
      consumed and reserved. */
  ghost predicate InStep(onDisk: Manifest, m: Manifest) {
    && m.active == onDisk.active
    && m.nextRun == onDisk.nextRun
    && m.closed == onDisk.closed
    && onDisk.seen <= m.seen
    && BudgetsAdvance(onDisk.budgets, m.budgets)
    && onDisk.budgets.Keys == m.budgets.Keys
  }

  predicate MarksExact(d: Disk, m: Manifest) {
    m.transcriptSeq == |d.records| && m.eventCursor == |d.events|
  }

  /** A manifest replacement, whatever became of it. */
  lemma ReplaceLife(before: seq<World>, after: seq<World>, m: Manifest, ok: bool)
    requires Path(before) && Replaced(before, after, m, ok)
    requires MayReplace(Now(before).disk, m)
    ensures Path(after) && before <= after
    ensures Now(after).disk.records == Now(before).disk.records && Now(after).disk.events == Now(before).disk.events
    ensures Now(after).spent == Now(before).spent
    ensures Now(after).disk.manifest == m || (!ok && after == before)
    ensures |after| <= |before| + 1
  {
    if after != before {
      var w := WithManifest(Now(before), m);
      assert ManifestStep(Now(before), w);
      PathAppend(before, w);
    }
  }

  /** A replacement that only catches up. */
  lemma CatchUpLife(before: seq<World>, after: seq<World>, m: Manifest, ok: bool)
    requires Path(before) && Replaced(before, after, m, ok)
    requires InStep(Now(before).disk.manifest, m) && MarksExact(Now(before).disk, m)
    ensures Path(after) && before <= after
    ensures Now(after).disk.records == Now(before).disk.records && Now(after).disk.events == Now(before).disk.events
    ensures Now(after).spent == Now(before).spent
    ensures InStep(Now(after).disk.manifest, m)
  {
    ReplaceLife(before, after, m, ok);
  }

  /** Whether a batch may be logged record by record. */
  ghost predicate MayLogAll(d: Disk, batch: seq<Record>)
    decreases |batch|
  {
    batch == [] || (MayLog(d, batch[0]) && MayLogAll(Logged(d, batch[0]), batch[1..]))
  }

  lemma {:induction false} BatchLife(trail: seq<World>, batch: seq<Record>)
    requires Path(trail) && MayLogAll(Now(trail).disk, batch)
    ensures Path(trail + BatchStates(Now(trail), batch))
    ensures Now(trail + BatchStates(Now(trail), batch)) == WithRecords(Now(trail), batch)
    decreases |batch|
  {
    hide MayLog, BatchStates;
    var w := Now(trail);
    BatchStatesEnds(w, batch);
    if batch == [] {
      assert trail + BatchStates(w, batch) == trail;
    } else {
      var w' := WithRecords(w, [batch[0]]);
      FirstRecordStep(w, batch[0]);
      PathAppend(trail, w');
      BatchLife(trail + [w'], batch[1..]);
      BatchStatesCons(w, batch);
      assert trail + BatchStates(w, batch) == (trail + [w']) + BatchStates(w', batch[1..]);
    }
  }

  lemma FirstRecordStep(w: World, r: Record)
    requires MayLog(w.disk, r)
    ensures Step(w, WithRecords(w, [r])) && WithRecords(w, [r]).disk == Logged(w.disk, r)
  {
    assert LogStep(w, WithRecords(w, [r]));
  }

  lemma BatchStatesEnds(w: World, batch: seq<Record>)
    ensures batch == [] ==> BatchStates(w, batch) == [] && WithRecords(w, batch) == w
    ensures batch != [] ==> WithRecords(WithRecords(w, [batch[0]]), batch[1..]) == WithRecords(w, batch)
  {
    assert w.disk.records + [] == w.disk.records;
    if batch != [] {
      assert [batch[0]] + batch[1..] == batch;
      assert (w.disk.records + [batch[0]]) + batch[1..] == w.disk.records + batch;
    }
  }

  lemma BatchStatesCons(w: World, batch: seq<Record>)
    requires batch != []
    ensures var w' := WithRecords(w, [batch[0]]);
            BatchStates(w, batch) == [w'] + BatchStates(w', batch[1..])
  {
    var w' := WithRecords(w, [batch[0]]);
    forall i | 0 <= i < |batch|
      ensures BatchStates(w, batch)[i] == ([w'] + BatchStates(w', batch[1..]))[i]
    {
      if i == 0 {
        assert batch[..1] == [batch[0]];
      } else {
        assert batch[..i + 1] == [batch[0]] + batch[1..][..i];
        assert w.disk.records + batch[..i + 1] == (w.disk.records + [batch[0]]) + batch[1..][..i];
      }
    }
  }

  /** Appending a batch and then the manifest. */
  lemma AppendLife(before: seq<World>, batch: seq<Record>, after: seq<World>, m: Manifest, ok: bool)
    requires Path(before) && MayLogAll(Now(before).disk, batch)
    requires Replaced(before + BatchStates(Now(before), batch), after, m, ok)
    requires InStep(Now(before).disk.manifest, m)
    requires MarksExact(Now(before).disk.(records := Now(before).disk.records + batch), m)
    ensures Path(after) && before <= after
    ensures Now(after).disk.records == Now(before).disk.records + batch
            && Now(after).disk.events == Now(before).disk.events
    ensures Now(after).spent == Now(before).spent
    ensures InStep(Now(after).disk.manifest, m)
  {
    BatchLife(before, batch);
    CatchUpLife(before + BatchStates(Now(before), batch), after, m, ok);
  }

  lemma EmitLife(before: seq<World>, e: Event, after: seq<World>, m: Manifest, ok: bool)
    requires Path(before) && MayEmit(Now(before).disk, e)
    requires Replaced(before + [WithEvent(Now(before), e)], after, m, ok)
    requires InStep(Now(before).disk.manifest, m)
    requires MarksExact(Now(before).disk.(events := Now(before).disk.events + [e]), m)
    ensures Path(after) && before <= after
    ensures Now(after).disk.records == Now(before).disk.records
            && Now(after).disk.events == Now(before).disk.events + [e]
    ensures Now(after).spent == Now(before).spent
    ensures InStep(Now(after).disk.manifest, m)
  {
    var w := WithEvent(Now(before), e);
    assert EventStep(Now(before), w);
    PathAppend(before, w);
    CatchUpLife(before + [w], after, m, ok);
  }

  /** What a life's invariant says to a process that is in step with its disk. */
  lemma InStepFacts(trail: seq<World>, m: Manifest)
    requires Path(trail) && InStep(Now(trail).disk.manifest, m)
    ensures WorldInv(Now(trail))
    ensures m.active.Some? ==>
              var run := m.active.value;
              && 1 <= run == m.nextRun && run in m.budgets && WithinLimits(m.budgets[run])
              && !HasClose(Now(trail).disk.records)
              && Terminals(Now(trail).disk.events, run) <= Outcomes(Now(trail).disk.records, run) <= 1
              && BudgetLe(Spent(Now(trail), run), Now(trail).disk.manifest.budgets[run])
    ensures m.active.None? ==> ShapeOf(Now(trail).disk.records).Settled?
  {
    PathInv(trail);
  }

  lemma {:induction false} NoTerminal(events: seq<Event>, run: RunId)
    requires Terminals(events, run) == 0
    ensures forall e <- events :: Terminal(e.kind) ==> e.run != run
  {
    if events != [] { NoTerminal(events[..|events| - 1], run); }
  }
}
