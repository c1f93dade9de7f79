/** What a run leaves in the log: one round after the other, and its end. */
module Conversations {
  import opened Wrappers
  import opened Transcript
  import opened Durable
  import opened Broker

  /** A round: the text of an answer, and its calls with the outcomes of their results. */
  datatype Round = Round(block: Option<string>, calls: seq<Call>, outcomes: seq<ToolOutcome>)

  datatype Ending = Ending(result: RunResult, cause: Cause)

  function EndOfRun(from: nat, run: RunId, end: Ending): seq<Record> {
    if end.result == RunCancelled then
      [Record(from + 1, run, CancellationBoundary), Record(from + 2, run, RunOutcome(end.result, end.cause))]
    else [Record(from + 1, run, RunOutcome(end.result, end.cause))]
  }

  /** The last event tells how the last record ended the run. */
  ghost predicate Matched(log: seq<Record>, events: seq<Event>, run: RunId) {
    && log != [] && events != []
    && var r, e := log[|log| - 1], events[|events| - 1];
       r.run == e.run == run && r.payload.RunOutcome? && Tells(e.kind, r.payload.result, r.payload.cause)
  }

  /** One event for each way a run can end. */
  predicate Tells(kind: EventKind, result: RunResult, cause: Cause) {
    && (kind == RunCompletedEvent <==> result == RunCompleted)
    && (kind == RunCancelledEvent <==> result == RunCancelled)
    && (kind == RunFailedEvent(cause) <==> result == RunFailed || result == RunInterrupted)
  }

  function BlockRecords(from: nat, run: RunId, block: Option<string>): seq<Record> {
    if block.None? then [] else [Record(from + 1, run, AssistantBlock(block.value))]
  }

  /** From a position of the log on: the calls, and behind them the results of the first ones in the
      order of the calls. */
  ghost predicate PairedIn(log: seq<Record>, base: nat, run: RunId, calls: seq<Call>, outcomes: seq<ToolOutcome>) {
    && |outcomes| <= |calls| && |log| == base + |calls| + |outcomes|
    && (forall i :: 0 <= i < |calls| ==> log[base + i].payload == ToolCall(calls[i]) && log[base + i].run == run)
    && (forall i :: 0 <= i < |outcomes| ==> ResultAt(log, base + |calls| + i, run, calls[i].id, outcomes[i]))
  }

  predicate ResultAt(log: seq<Record>, k: nat, run: RunId, id: CallId, outcome: ToolOutcome)
    requires k < |log|
  {
    log[k].run == run && log[k].payload.ToolResult? && log[k].payload.callId == id && log[k].payload.outcome == outcome
  }

  lemma PairedOneMore(log: seq<Record>, base: nat, run: RunId, calls: seq<Call>, outcomes: seq<ToolOutcome>, r: Record)
    requires PairedIn(log, base, run, calls, outcomes) && |outcomes| < |calls|
    requires r.run == run && r.payload.ToolResult? && r.payload.callId == calls[|outcomes|].id
    ensures PairedIn(log + [r], base, run, calls, outcomes + [r.payload.outcome])
  {
    var all := log + [r];
    forall i | 0 <= i <= |outcomes|
      ensures ResultAt(all, base + |calls| + i, run, calls[i].id, (outcomes + [r.payload.outcome])[i])
    {
      if i < |outcomes| { assert ResultAt(log, base + |calls| + i, run, calls[i].id, outcomes[i]); }
    }
  }

  predicate DistinctIds(calls: seq<Call>) {
    forall i, j :: 0 <= i < j < |calls| ==> calls[i].id != calls[j].id
  }

  /** The IDs of a batch are distinct, and no call of the log has one of them. */
  predicate NewIds(log: seq<Record>, calls: seq<Call>) {
    DistinctIds(calls) && forall c <- calls :: !HasCall(log, c.id)
  }

  /** Behind a batch, with any of its results, the calls of a log are distinct exactly when they were
      before and the IDs of the batch are new. */
  lemma BatchIdsDecide(log: seq<Record>, base: nat, run: RunId, calls: seq<Call>, outcomes: seq<ToolOutcome>)
    requires PairedIn(log, base, run, calls, outcomes)
    ensures UniqueCalls(log) <==> UniqueCalls(log[..base]) && NewIds(log[..base], calls)
  {
    var front := log[..base];
    assert forall i :: 0 <= i < |outcomes| ==> ResultAt(log, base + |calls| + i, run, calls[i].id, outcomes[i]);
    forall k | base + |calls| <= k < |log| ensures !log[k].payload.ToolCall? {
      assert ResultAt(log, base + |calls| + (k - base - |calls|), run, calls[k - base - |calls|].id,
             outcomes[k - base - |calls|]);
    }
    assert forall i :: 0 <= i < |calls| ==> IsCall(log[base + i], calls[i].id);
    if UniqueCalls(log) {
      forall i, j | 0 <= i < j < |calls| ensures calls[i].id != calls[j].id {
        assert IsCall(log[base + i], calls[i].id) && IsCall(log[base + j], calls[j].id);
        assert log[base + i].payload.call.id != log[base + j].payload.call.id;
      }
      forall c | c in calls ensures !HasCall(front, c.id) {
        var k :| 0 <= k < |calls| && calls[k] == c;
        assert IsCall(log[base + k], c.id);
      }
    }
    if UniqueCalls(front) && NewIds(front, calls) {
      forall i, j | 0 <= i < j < |log| && log[i].payload.ToolCall? && log[j].payload.ToolCall?
        ensures log[i].payload.call.id != log[j].payload.call.id
      {
        if base <= j {
          assert calls[j - base] in calls && IsCall(log[base + (j - base)], calls[j - base].id);
          if i < base {
            assert front[i] == log[i];
          } else {
            assert IsCall(log[base + (i - base)], calls[i - base].id);
          }
        } else {
          assert front[i] == log[i] && front[j] == log[j];
        }
      }
    }
  }

  predicate AllSucceeded(outcomes: seq<ToolOutcome>) {
    forall i :: 0 <= i < |outcomes| ==> outcomes[i] == Succeeded
  }

  lemma LiveOneMore(outcomes: seq<ToolOutcome>, o: ToolOutcome)
    requires LiveOutcomes(outcomes) && (!AllSucceeded(outcomes) ==> o == Skipped)
    ensures LiveOutcomes(outcomes + [o])
    ensures AllSucceeded(outcomes + [o]) <==> AllSucceeded(outcomes) && o == Succeeded
  {
    var all := outcomes + [o];
    assert forall i :: 0 <= i < |outcomes| ==> all[i] == outcomes[i];
    assert all[|outcomes|] == o;
  }

  /** The stretch of the log behind a position is the given round. */
  ghost predicate RoundIn(log: seq<Record>, base: nat, run: RunId, r: Round) {
    var block := BlockRecords(base, run, r.block);
    && |r.outcomes| == |r.calls| && LiveOutcomes(r.outcomes)
    && base + |block| <= |log| && log[base..base + |block|] == block
    && PairedIn(log, base + |block|, run, r.calls, r.outcomes)
  }

  ghost predicate Converses(log: seq<Record>, base: nat, run: RunId, rounds: seq<Round>)
    decreases |rounds|
  {
    if rounds == [] then |log| == base
    else exists k: nat ::
        base <= k <= |log| && Converses(log[..k], base, run, rounds[..|rounds| - 1])
          && RoundIn(log, k, run, rounds[|rounds| - 1])
  }

  /** Every answer so far asked for tools. */
  predicate GoesOn(rounds: seq<Round>) {
    forall i :: 0 <= i < |rounds| ==> rounds[i].calls != []
  }

  lemma OneMoreRound(log: seq<Record>, all: seq<Record>, base: nat, run: RunId, rounds: seq<Round>, r: Round)
    requires base <= |log| && Converses(log, base, run, rounds)
    requires log <= all && RoundIn(all, |log|, run, r)
    ensures Converses(all, base, run, rounds + [r])
  {
    assert all[..|log|] == log;
    assert (rounds + [r])[..|rounds|] == rounds;
  }

  /** An answer's text alone is a round. */
  lemma BlockRound(log: seq<Record>, run: RunId, block: Option<string>)
    ensures RoundIn(log + BlockRecords(|log|, run, block), |log|, run, Round(block, [], []))
  {
  }

  lemma ToolRound(log: seq<Record>, all: seq<Record>, run: RunId, block: Option<string>, calls: seq<Call>,
                  outcomes: seq<ToolOutcome>)
    requires log + BlockRecords(|log|, run, block) <= all
    requires PairedIn(all, |log + BlockRecords(|log|, run, block)|, run, calls, outcomes)
    requires |outcomes| == |calls| && LiveOutcomes(outcomes)
    ensures RoundIn(all, |log|, run, Round(block, calls, outcomes))
  {
    var b := BlockRecords(|log|, run, block);
    assert all[|log|..|log| + |b|] == (log + b)[|log|..|log| + |b|] == b;
  }

  lemma NoCalls(log: seq<Record>, run: RunId)
    ensures PairedIn(log, |log|, run, [], []) && LiveOutcomes([])
  {
  }

  lemma NoRounds(log: seq<Record>, run: RunId)
    ensures Converses(log, |log|, run, []) && GoesOn([])
  {
  }

  lemma EndMatches(log: seq<Record>, events: seq<Event>, run: RunId, end: Ending)
    ensures Matched(log + EndOfRun(|log|, run, end),
            events + [Event(|events| + 1, run, TerminalKind(end.result, end.cause))], run)
  {
  }
}
