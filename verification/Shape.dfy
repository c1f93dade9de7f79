/** The batch structure of a log: a batch of tool calls is written contiguously and answered
    in provider order before anything else of the session is recorded. */
module Shape {
  import opened Transcript
  import opened Validate

  /** Where a log stands: between batches, inside one, or out of the discipline. */
  datatype Shape = Broken | Settled | Batch(run: RunId, calling: bool, pending: seq<Call>)

  function Next(s: Shape, r: Record): Shape {
    match s
    case Broken => Broken
    case Settled =>
      if r.payload.ToolCall? then Batch(r.run, true, [r.payload.call])
      else if r.payload.ToolResult? then Broken
      else Settled
    case Batch(run, calling, pending) =>
      if r.run != run || pending == [] then Broken
      else if r.payload.ToolCall? then
        if calling then Batch(run, true, pending + [r.payload.call]) else Broken
      else if r.payload.ToolResult? && r.payload.callId == pending[0].id then
        if |pending| == 1 then Settled else Batch(run, false, pending[1..])
      else Broken
  }

  function ShapeOf(log: seq<Record>): Shape {
    if log == [] then Settled else Next(ShapeOf(log[..|log| - 1]), log[|log| - 1])
  }

  /** The calls still waiting for a result. */
  function Pending(s: Shape): seq<Call> {
    if s.Batch? then s.pending else []
  }

  lemma ShapeAppend(log: seq<Record>, r: Record)
    ensures ShapeOf(log + [r]) == Next(ShapeOf(log), r)
  {
    assert (log + [r])[..|log|] == log;
  }

  lemma UniqueCallsAppend(log: seq<Record>, r: Record)
    ensures UniqueCalls(log + [r]) <==> UniqueCalls(log) && (r.payload.ToolCall? ==> !HasCall(log, r.payload.call.id))
  {
    var all := log + [r];
    assert forall i :: 0 <= i < |log| ==> all[i] == log[i];
    assert all[|log|] == r;
  }

  /** A call is open in an extended log exactly when it was open before, or is the new record,
      and the new record does not answer it. */
  lemma {:induction false} OpenCallsExtend(part: seq<Record>, log: seq<Record>, r: Record)
    requires !r.payload.ToolResult?
    ensures OpenCalls(part, log + [r]) == OpenCalls(part, log)
  {
    if part != [] {
      OpenCallsExtend(part[..|part| - 1], log, r);
      var last := part[|part| - 1];
      if last.payload.ToolCall? { HasAppend(log, r, last.payload.call.id); }
    }
  }

  lemma {:induction false} OpenCallsAnswer(part: seq<Record>, log: seq<Record>, r: Record, pending: seq<Call>)
    requires r.payload.ToolResult?
    requires UniqueCalls(part)
    requires OpenCalls(part, log) == pending
    ensures pending != [] && pending[0].id == r.payload.callId ==> OpenCalls(part, log + [r]) == pending[1..]
    ensures (forall c <- pending :: c.id != r.payload.callId) ==> OpenCalls(part, log + [r]) == pending
  {
    if part != [] {
      var init, last := part[..|part| - 1], part[|part| - 1];
      assert part == init + [last];
      OpenCallsAnswer(init, log, r, OpenCalls(init, log));
      if last.payload.ToolCall? {
        var c := last.payload.call;
        HasAppend(log, r, c.id);
        UniqueCallsAppend(init, last);
        OpenCallsAreCalls(init, log);
        if !HasResult(log, c.id) {
          if pending[0].id == r.payload.callId && OpenCalls(init, log) != [] {
            assert OpenCalls(init, log)[0] == pending[0];
            assert HasCall(init, pending[0].id);
            assert (OpenCalls(init, log) + [c])[1..] == OpenCalls(init, log)[1..] + [c];
          }
        }
      }
    }
  }

  lemma {:induction false} OpenCallsAreCalls(part: seq<Record>, log: seq<Record>)
    ensures forall c <- OpenCalls(part, log) :: HasCall(part, c.id) && !HasResult(log, c.id)
  {
    if part != [] {
      var init, last := part[..|part| - 1], part[|part| - 1];
      assert part == init + [last];
      OpenCallsAreCalls(init, log);
      forall c <- OpenCalls(part, log) ensures HasCall(part, c.id) && !HasResult(log, c.id) {
        HasAppend(init, last, c.id);
      }
    }
  }

  lemma {:induction false} OpenCallsComplete(part: seq<Record>, log: seq<Record>, i: nat)
    requires i < |part| && part[i].payload.ToolCall? && !HasResult(log, part[i].payload.call.id)
    ensures part[i].payload.call in OpenCalls(part, log)
  {
    if i < |part| - 1 {
      OpenCallsComplete(part[..|part| - 1], log, i);
    }
  }

  /** Each open call belongs to the given run. */
  ghost predicate OpenBelongsTo(log: seq<Record>, run: RunId) {
    forall i :: 0 <= i < |log| && log[i].payload.ToolCall? && !HasResult(log, log[i].payload.call.id) ==>
        log[i].run == run
  }

  lemma OpenBelongsAppend(log: seq<Record>, r: Record, run: RunId)
    requires OpenBelongsTo(log, run)
    requires r.payload.ToolCall? ==> r.run == run
    ensures OpenBelongsTo(log + [r], run)
  {
    var all := log + [r];
    forall i | 0 <= i < |all| && all[i].payload.ToolCall? && !HasResult(all, all[i].payload.call.id)
      ensures all[i].run == run
    {
      HasAppend(log, r, all[i].payload.call.id);
    }
  }

  lemma NoOpenCalls(log: seq<Record>, run: RunId)
    requires OpenCalls(log, log) == []
    ensures AllPaired(log) && OpenBelongsTo(log, run)
  {
    forall i | 0 <= i < |log| && log[i].payload.ToolCall?
      ensures HasResult(log, log[i].payload.call.id)
    {
      if !HasResult(log, log[i].payload.call.id) { OpenCallsComplete(log, log, i); }
    }
  }

  /** The open calls of a log after one more record. */
  lemma OpenCallsStep(log: seq<Record>, r: Record)
    requires PairingRule(log) && UniqueCalls(log + [r])
    ensures r.payload.ToolCall? ==> OpenCalls(log + [r], log + [r]) == OpenCalls(log, log) + [r.payload.call]
    ensures !r.payload.ToolCall? && !r.payload.ToolResult? ==> OpenCalls(log + [r], log + [r]) == OpenCalls(log, log)
    ensures r.payload.ToolResult? && OpenCalls(log, log) != [] && OpenCalls(log, log)[0].id == r.payload.callId ==>
              OpenCalls(log + [r], log + [r]) == OpenCalls(log, log)[1..]
  {
    var all := log + [r];
    assert all[..|log|] == log;
    UniqueCallsAppend(log, r);
    if r.payload.ToolResult? {
      OpenCallsAnswer(log, log, r, OpenCalls(log, log));
    } else {
      OpenCallsExtend(log, log, r);
    }
    if r.payload.ToolCall? {
      HasAppend(log, r, r.payload.call.id);
    }
  }

  /** In a disciplined log with distinct call IDs the pairing rule holds, the open calls are
      exactly the pending ones in order, and all of them belong to the batch's run. */
  lemma {:induction false} ShapePairs(log: seq<Record>)
    requires ShapeOf(log) != Broken
    requires UniqueCalls(log)
    ensures PairingRule(log)
    ensures OpenCalls(log, log) == Pending(ShapeOf(log))
    ensures ShapeOf(log).Settled? ==> AllPaired(log)
    ensures ShapeOf(log).Batch? ==> ShapeOf(log).pending != [] && OpenBelongsTo(log, ShapeOf(log).run)
  {
    if log != [] {
      var init, r := log[..|log| - 1], log[|log| - 1];
      assert log == init + [r];
      UniqueCallsAppend(init, r);
      ShapePairs(init);
      OpenCallsStep(init, r);
      ShapeMayFollow(init, r);
      RuleAppend(init, r);
      match ShapeOf(log)
      case Broken =>
      case Settled => NoOpenCalls(log, r.run);
      case Batch(run, _, _) =>
        if ShapeOf(init).Settled? { NoOpenCalls(init, run); }
        OpenBelongsAppend(init, r, run);
    }
  }

  lemma ShapeMayFollow(log: seq<Record>, r: Record)
    requires PairingRule(log) && UniqueCalls(log + [r])
    requires Next(ShapeOf(log), r) != Broken
    requires OpenCalls(log, log) == Pending(ShapeOf(log))
    requires ShapeOf(log).Settled? ==> AllPaired(log)
    requires ShapeOf(log).Batch? ==> OpenBelongsTo(log, ShapeOf(log).run)
    ensures MayFollow(log, r)
  {
    UniqueCallsAppend(log, r);
    if r.payload.ToolResult? {
      OpenCallsAreCalls(log, log);
      assert OpenCalls(log, log)[0] in OpenCalls(log, log);
      var i :| 0 <= i < |log| && IsCall(log[i], r.payload.callId);
    }
  }
}
