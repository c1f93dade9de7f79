/** What holds at every crash point of every life of a session, and after every recovery. */
module CrashTheorems {
  import opened Wrappers
  import opened Transcript
  import opened Validate
  import opened Shape
  import opened Durable
  import opened Chains
  import opened CrashSafety
  import opened Recovery

  /** A session that has been cut at any moment can be opened again exactly when no two of its
      tool calls share a logged ID.  The engine compares the IDs of one batch only, and before it
      projects them, so neither reuse nor a collision of projected IDs is refused. */
  lemma OpenExactlyUnique(trail: seq<World>)
    requires Path(trail)
    ensures OpenAccepts(Now(trail).disk) <==> UniqueCalls(Now(trail).disk.records)
  {
    PathInv(trail);
    if UniqueCalls(Now(trail).disk.records) { ShapePairs(Now(trail).disk.records); }
  }

  /** The same condition for one more logged call. */
  lemma CallKeepsSessionOpenable(trail: seq<World>, w: World)
    requires Path(trail + [w]) && Path(trail) && LogStep(Now(trail), w)
    requires w.disk.records[|w.disk.records| - 1].payload.ToolCall?
    requires OpenAccepts(Now(trail).disk)
    ensures OpenAccepts(w.disk) <==>
              !HasCall(Now(trail).disk.records, w.disk.records[|w.disk.records| - 1].payload.call.id)
  {
    OpenExactlyUnique(trail);
    OpenExactlyUnique(trail + [w]);
    UniqueCallsAppend(Now(trail).disk.records, w.disk.records[|w.disk.records| - 1]);
  }

  // ---- Growth ------------------------------------------------------------------

  /** Nothing durable is ever taken back. */
  ghost predicate Extends(a: World, b: World) {
    && a.disk.records <= b.disk.records
    && a.disk.events <= b.disk.events
    && a.disk.manifest.transcriptSeq <= b.disk.manifest.transcriptSeq
    && a.disk.manifest.eventCursor <= b.disk.manifest.eventCursor
    && a.disk.manifest.seen <= b.disk.manifest.seen
    && a.disk.manifest.nextRun <= b.disk.manifest.nextRun
    && a.disk.manifest.budgets.Keys <= b.disk.manifest.budgets.Keys
    && (forall run <- a.disk.manifest.budgets :: BudgetLe(a.disk.manifest.budgets[run], b.disk.manifest.budgets[run]))
    && (a.disk.manifest.closed ==> b.disk.manifest.closed)
    && (HasClose(a.disk.records) ==> b.disk.records == a.disk.records)
  }

  lemma StepExtends(w: World, w': World)
    requires WorldInv(w) && Step(w, w')
    ensures Extends(w, w')
  {
    if LogStep(w, w') {
      assert w.disk.records <= w'.disk.records;
    }
  }

  /** Between any two moments of a life, with any number of crashes in between, logs, marks,
      consumed commands, run numbers and reservations only grow, and a closed log never grows. */
  lemma {:induction false} LifeGrows(trail: seq<World>, i: nat)
    requires Path(trail) && i < |trail|
    ensures Extends(trail[i], Now(trail))
  {
    hide Step, WorldInv, HasClose;
    if i < |trail| - 1 {
      var init := trail[..|trail| - 1];
      LifeGrows(init, i);
      PathInv(init);
      StepExtends(Now(init), Now(trail));
    }
  }

  /** Once a call ID has been used twice, no later moment of the session can be opened. */
  lemma StaleCallIsFatal(trail: seq<World>, i: nat)
    requires Path(trail) && i < |trail|
    requires !UniqueCalls(trail[i].disk.records)
    ensures !OpenAccepts(Now(trail).disk)
  {
    LifeGrows(trail, i);
    var a, b := trail[i].disk.records, Now(trail).disk.records;
    var p, q :| 0 <= p < q < |a| && a[p].payload.ToolCall? && a[q].payload.ToolCall?
      && a[p].payload.call.id == a[q].payload.call.id;
    assert b[p] == a[p] && b[q] == a[q];
    OpenExactlyUnique(trail);
  }

  /** A run that has ended is never active again, so run IDs never repeat. */
  lemma {:induction false} RunNeverReturns(trail: seq<World>, i: nat, run: RunId)
    requires Path(trail) && i < |trail|
    requires 1 <= run <= trail[i].disk.manifest.nextRun && trail[i].disk.manifest.active != Some(run)
    ensures Now(trail).disk.manifest.active != Some(run)
  {
    if i < |trail| - 1 {
      var init := trail[..|trail| - 1];
      RunNeverReturns(init, i, run);
      LifeGrows(init, i);
    }
  }

  // ---- After recovery -------------------------------------------------------------

  /** The state every completed recovery leaves behind. */
  ghost predicate Clean(d: Disk) {
    && d.manifest.active.None?
    && AcceptedTranscript(d.records)
    && WellFormedEvents(d.events)
    && (forall run :: 1 <= run <= d.manifest.nextRun ==> Outcomes(d.records, run) == 1 && Terminals(d.events, run) == 1)
    && (if HasClose(d.records) then d.manifest.closed && CloseEvents(d.events) == 1
        else !d.manifest.closed && CloseEvents(d.events) == 0)
  }

  lemma LifeContinues(trail: seq<World>, t: seq<World>)
    requires Path(trail) && Leads(Now(trail), t)
    ensures Path(trail + t)
    ensures Now(trail + t) == After(Now(trail), t)
  {
    ChainWeaken(Approaches, Step, Now(trail), t);
    HistoryThen(Step, NEW_WORLD, trail, t);
  }

  /** Crash safety.  Cut any life anywhere: if the call IDs were distinct, the session opens, its
      recovery is itself a life (so it may be cut again), and it ends with no active run, a
      transcript fit for a provider request, and for every run ever begun exactly one outcome and
      exactly one terminal event.  What had been logged is only added to. */
  lemma CrashSafe(trail: seq<World>)
    requires Path(trail) && UniqueCalls(Now(trail).disk.records)
    ensures OpenAccepts(Now(trail).disk)
    ensures Path(trail + RecoveryTrail(Now(trail)))
    ensures Clean(Recovered(Now(trail)).disk)
    ensures Recovered(Now(trail)).disk.manifest.nextRun == Now(trail).disk.manifest.nextRun
    ensures Now(trail).disk.records <= Recovered(Now(trail)).disk.records
    ensures Now(trail).disk.events <= Recovered(Now(trail)).disk.events
  {
    assert trail != [];
    hide Path, RecoveryTrail, Recovered, Clean, Goal, UniqueCalls, OpenAccepts, WorldInv, HasClose, Leads,
         Approaches, Step;
    var w := Now(trail);
    var t := RecoveryTrail(w);
    PathInv(trail);
    OpenExactlyUnique(trail);
    RecoveryLeads(w);
    LifeContinues(trail, t);
    CleanAfterRecovery(w);
    RecoveredIsAfter(w);
    LifeGrows(trail + t, |trail| - 1);
    assert (trail + t)[|trail| - 1] == w;
  }

  lemma RecoveredIsAfter(w: World)
    ensures Recovered(w) == After(w, RecoveryTrail(w))
  {
  }

  lemma CleanAfterRecovery(w: World)
    requires Repairable(w)
    ensures Clean(Recovered(w).disk)
    ensures Recovered(w).disk.manifest.nextRun == w.disk.manifest.nextRun
  {
    hide RecoveryTrail;
    RecoveryLeads(w);
    LeadsInv(w, RecoveryTrail(w));
    RecoveredIsRepairable(Recovered(w).disk, Recovered(w));
    GoalReached(w);
  }

  lemma RecoveredIsRepairable(d: Disk, w: World)
    requires Repairable(w) && d == w.disk && d.manifest.active.None?
    requires HasClose(d.records) ==> d.manifest.closed && CloseEvents(d.events) == 1
    ensures Clean(d)
  {
    ShapePairs(d.records);
  }

  /** A recovered disk is, but for its high-water marks, the goal. */
  lemma GoalReached(w: World)
    requires Repairable(w)
    ensures Recovered(w).disk.(manifest := Unmarked(Recovered(w).disk.manifest)) == Goal(w.disk)
  {
    RecoveryLeads(w);
    LeadsInv(w, RecoveryTrail(w));
  }

  /** Recovery adds one interrupted result per open call, in provider order, and one outcome. */
  lemma {:induction false} AnswersInOrder(log: seq<Record>, run: RunId, open: seq<Call>)
    ensures |Answered(log, run, open)| == |log| + |open|
    ensures Answered(log, run, open)[..|log|] == log
    ensures forall i :: 0 <= i < |open| ==>
              Answered(log, run, open)[|log| + i] ==
                Record(|log| + i + 1, run, ToolResult(open[i].id, Interrupted, INTERRUPTED_TEXT))
    decreases |open|
  {
    if open != [] {
      var log' := log + [Answer(log, run, open[0])];
      AnswersInOrder(log', run, open[1..]);
      var a := Answered(log, run, open);
      assert a[..|log|] == a[..|log'|][..|log|];
      assert a[|log|] == a[..|log'|][|log|];
      forall i | 1 <= i < |open|
        ensures a[|log| + i] == Record(|log| + i + 1, run, ToolResult(open[i].id, Interrupted, INTERRUPTED_TEXT))
      {
        assert open[1..][i - 1] == open[i];
        assert a[|log'| + (i - 1)].seqNo == |log| + i + 1;
      }
    }
  }

  /** Recovering twice is recovering once. */
  lemma RecoveryIdempotent(w: World)
    requires Repairable(w)
    ensures Recovered(Recovered(w)) == Recovered(w)
  {
    RecoveryLeads(w);
    LeadsInv(w, RecoveryTrail(w));
    assert CloseTrail(Recovered(w)) == [];
  }

  /** Recovery attempts that are themselves cut after any of their durable steps, the last one complete. */
  function Retried(w: World, cuts: seq<nat>): World
    decreases |cuts|
  {
    if cuts == [] then Recovered(w)
    else
      var t := RecoveryTrail(w);
      Retried(After(w, if cuts[0] < |t| then t[..cuts[0]] else t), cuts[1..])
  }

  /** However often recovery is interrupted, it reaches the same logs and the same manifest as
      an uninterrupted one; only the high-water marks may lag. */
  lemma {:induction false} RecoveryRestartable(w: World, cuts: seq<nat>)
    requires Repairable(w)
    ensures var a, b := Retried(w, cuts).disk, Recovered(w).disk;
            a.records == b.records && a.events == b.events && Unmarked(a.manifest) == Unmarked(b.manifest)
    decreases |cuts|
  {
    GoalReached(w);
    if cuts != [] {
      var t := RecoveryTrail(w);
      var u := if cuts[0] < |t| then t[..cuts[0]] else t;
      RecoveryLeads(w);
      if cuts[0] < |t| { ChainCut(Approaches, w, t, cuts[0]); }
      LeadsInv(w, u);
      RecoveryRestartable(After(w, u), cuts[1..]);
      GoalReached(After(w, u));
    }
  }

  // ---- Batches ------------------------------------------------------------------------

  /** Among neighbouring results, nothing was executed behind a non-success. */
  lemma {:induction false} NothingAfterFailure(log: seq<Record>, i: nat, j: nat)
    requires StopsAfterFailure(log) && i < j < |log|
    requires forall k :: i <= k <= j ==> log[k].payload.ToolResult?
    requires log[i].payload.outcome != Succeeded
    ensures log[j].payload.outcome.Skipped? || log[j].payload.outcome.Interrupted?
    decreases j
  {
    if i < j - 1 { NothingAfterFailure(log, i, j - 1); }
    assert LastFailed(log[..j]);
  }

  /** In every moment of every life, also after recoveries, the results of a batch are successes, at
      most one other outcome, and then only calls skipped or interrupted by a crash. */
  lemma BatchesAreLive(trail: seq<World>, i: nat, j: nat)
    requires Path(trail) && i < j < |Now(trail).disk.records|
    requires forall k :: i <= k <= j ==> Now(trail).disk.records[k].payload.ToolResult?
    requires Now(trail).disk.records[i].payload.outcome != Succeeded
    ensures var o := Now(trail).disk.records[j].payload.outcome; o.Skipped? || o.Interrupted?
  {
    PathInv(trail);
    NothingAfterFailure(Now(trail).disk.records, i, j);
  }

  // ---- What the recovering process relies on ---------------------------------------------

  lemma NowAfter(trail: seq<World>, t: seq<World>)
    requires trail != []
    ensures Now(trail + t) == After(Now(trail), t)
  {
    if t == [] { assert trail + t == trail; }
  }

  /** The open calls of an interrupted run can be computed, and all belong to it. */
  lemma OpenCallsKnown(w: World, run: RunId)
    requires Repairable(w) && w.disk.manifest.active == Some(run)
    ensures run != 0 && AcceptedLog(w.disk.records) && OpenBelongsTo(w.disk.records, run)
  {
    ShapePairs(w.disk.records);
  }

  lemma ActiveThroughTerminal(w: World, run: RunId)
    ensures After(w, TerminalTrail(w, run)).disk.manifest.active == w.disk.manifest.active
  {
  }

  /** Once its run is cleared the repaired log passes the final check. */
  lemma RepairedLogIsPaired(w: World, run: RunId)
    requires Repairable(w) && w.disk.manifest.active == Some(run)
    ensures AcceptedTranscript(After(w, ReconcileTrail(w, run)).disk.records)
  {
    ReconcileLeads(w, run);
    LeadsInv(w, ReconcileTrail(w, run));
    ShapePairs(After(w, ReconcileTrail(w, run)).disk.records);
  }

  lemma OpenedIsRepairable(trail: seq<World>)
    requires Path(trail) && OpenAccepts(Now(trail).disk)
    ensures Repairable(Now(trail)) && WorldInv(Now(trail)) && UniqueCalls(Now(trail).disk.records)
  {
    PathInv(trail);
    OpenExactlyUnique(trail);
  }

  /** Recovery repairs either a run or a close, never both. */
  lemma RecoverySplits(w: World)
    requires Repairable(w)
    ensures w.disk.manifest.active.Some? ==> RecoveryTrail(w) == ReconcileTrail(w, w.disk.manifest.active.value)
    ensures w.disk.manifest.active.None? && HasClose(w.disk.records) ==> RecoveryTrail(w) == CloseTrail(w)
    ensures w.disk.manifest.active.None? && !HasClose(w.disk.records) ==> RecoveryTrail(w) == []
  {
    hide ReconcileTrail, MarkClosedTrail, EmitTrail, Repairable, HasClose;
    if w.disk.manifest.active.Some? {
      var t := ReconcileTrail(w, w.disk.manifest.active.value);
      RepairedStaysOpen(w);
      assert t + [] == t;
    } else {
      assert [] + CloseTrail(w) == CloseTrail(w);
    }
  }

  lemma RepairedStaysOpen(w: World)
    requires Repairable(w) && w.disk.manifest.active.Some?
    ensures !HasClose(After(w, ReconcileTrail(w, w.disk.manifest.active.value)).disk.records)
  {
    var run := w.disk.manifest.active.value;
    ReconcileLeads(w, run);
    LeadsInv(w, ReconcileTrail(w, run));
    GoalStaysOpen(w.disk.records, run);
  }

  lemma GoalStaysOpen(log: seq<Record>, run: RunId)
    requires !HasClose(log)
    ensures !HasClose(FinalRecords(log, run))
  {
    if Outcomes(log, run) == 0 {
      AnswersStayOpen(log, run, OpenCalls(log, log));
      var a := Answered(log, run, OpenCalls(log, log));
      HasCloseAppend(a, InterruptedOutcome(a, run));
    }
  }

  lemma {:induction false} AnswersStayOpen(log: seq<Record>, run: RunId, open: seq<Call>)
    requires !HasClose(log)
    ensures !HasClose(Answered(log, run, open))
    decreases |open|
  {
    if open != [] {
      HasCloseAppend(log, Answer(log, run, open[0]));
      AnswersStayOpen(log + [Answer(log, run, open[0])], run, open[1..]);
    }
  }

  /** Recovery neither opens nor closes a session. */
  lemma RecoveryKeepsClose(w: World)
    requires Repairable(w)
    ensures HasClose(Recovered(w).disk.records) <==> HasClose(w.disk.records)
  {
    RecoverySplits(w);
    if w.disk.manifest.active.Some? { RepairedStaysOpen(w); }
  }

  lemma OpenedEventsNumbered(d: Disk)
    requires OpenAccepts(d)
    ensures forall i :: 0 <= i < |d.events| ==> d.events[i].cursor == i + 1
  {
  }

  /** Every first part of a recovery continues the life. */
  lemma RecoveryPrefix(before: seq<World>, after: seq<World>)
    requires Path(before) && UniqueCalls(Now(before).disk.records)
    requires before <= after <= before + RecoveryTrail(Now(before))
    ensures Path(after)
  {
    hide RecoveryTrail, Clean, OpenAccepts, Recovered, UniqueCalls;
    CrashSafe(before);
    assert (before + RecoveryTrail(Now(before)))[..|after|] == after;
    HistoryCut(Step, NEW_WORLD, before + RecoveryTrail(Now(before)), |after|);
  }

  // ---- Lives and crashes --------------------------------------------------------------

  /** Reservations are written ahead: at every crash point they cover the work started. */
  lemma WriteAhead(trail: seq<World>, run: RunId)
    requires Path(trail)
    ensures var w := Now(trail);
            run in w.disk.manifest.budgets ==>
              BudgetLe(Spent(w, run), w.disk.manifest.budgets[run]) && WithinLimits(w.disk.manifest.budgets[run])
    ensures var spent := Spent(Now(trail), run);
            spent.calls <= 64 && spent.attempts <= 96 && spent.delay <= 600_000_000_000
    ensures run !in Now(trail).disk.manifest.budgets ==> Spent(Now(trail), run) == ZERO_BUDGET
  {
    PathInv(trail);
  }

  /** Only facts with all their parts are ever recorded: texts and names that are not empty, well-formed
      arguments, a known outcome, and a cause exactly for a run that failed or was interrupted; and only
      the close of the session belongs to no run. */
  lemma RecordsComplete(trail: seq<World>, i: nat)
    requires Path(trail) && i < |Now(trail).disk.records|
    ensures var r := Now(trail).disk.records[i];
            && r.seqNo == i + 1
            && (r.run == 0 <==> r.payload == SessionClosed)
            && match r.payload
               case UserMessage(text) => text != ""
               case AssistantBlock(text) => text != ""
               case ToolCall(call) => call.id != "" && call.name != "" && call.arguments.wellFormed
               case ToolResult(id, outcome, _) => id != "" && outcome != Unrecognised
               case RunOutcome(result, cause) => (result == RunFailed || result == RunInterrupted) <==> cause != NoCause
               case InstructionsLoaded(docs) =>
                 docs != [] && forall d <- docs :: d.sources != [] && d.scope != "" && d.digest != ""
               case _ => true
  {
    PathInv(trail);
    RecordsValid(Now(trail).disk.records);
    assert Now(trail).disk.records[i] in Now(trail).disk.records;
  }

  /** And so are the events: session facts belong to no run, all others to one. */
  lemma EventsComplete(trail: seq<World>, i: nat)
    requires Path(trail) && i < |Now(trail).disk.events|
    ensures var e := Now(trail).disk.events[i];
            && e.cursor == i + 1
            && (e.run == 0 <==> e.kind.Warning? || e.kind == SessionResumed || e.kind == SessionClosedEvent)
            && match e.kind
               case RunStarted(prompt) => prompt != ""
               case RunFailedEvent(cause) => cause != NoCause
               case AssistantText(text) => text != ""
               case AssistantDelta(text) => text != ""
               case ToolStarted(id, name) => id != "" && name != ""
               case ToolFinished(id, outcome) => id != "" && outcome != Unrecognised
               case Warning(code) => code != ""
               case RetryScheduled(attempt, _) => attempt > 0
               case _ => true
  {
    PathInv(trail);
  }
}
