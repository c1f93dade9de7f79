/** The log checker: one pass over the log with three maps. */
module Validate {
  import opened Wrappers
  import opened Transcript

  datatype LogError =
    | RecordSequence
    | InvalidRecord
    | DuplicateSessionClose
    | RecordsAfterClose
    | DuplicateToolCall
    | OrphanToolResult
    | DuplicateToolResult
    | ToolRunMismatch
    | TerminalWithOpenCall
    | UnpairedToolCall

  /** The checker's maps: call ID to the seq of its call, of its result, and to the call's run. */
  datatype Pairs = Pairs(calls: map<CallId, nat>, results: map<CallId, nat>, runs: map<CallId, RunId>)

  const NoPairs := Pairs(map[], map[], map[])

  /** One record of toolPairs. */
  function PairStep(p: Pairs, r: Record): Result<Pairs, LogError> {
    match r.payload
    case ToolCall(call) =>
      if call.id in p.calls then Failure(DuplicateToolCall)
      else Success(Pairs(p.calls[call.id := r.seqNo], p.results, p.runs[call.id := r.run]))
    case ToolResult(id, _, _) =>
      if id !in p.calls then Failure(OrphanToolResult)
      else if id in p.results then Failure(DuplicateToolResult)
      else if id !in p.runs || p.runs[id] != r.run then Failure(ToolRunMismatch)
      else Success(p.(results := p.results[id := r.seqNo]))
    case RunOutcome(_, _) =>
      if exists id <- p.runs :: p.runs[id] == r.run && id !in p.results then Failure(TerminalWithOpenCall)
      else Success(p)
    case _ => Success(p)
  }

  function PairScan(log: seq<Record>): Result<Pairs, LogError> {
    if log == [] then Success(NoPairs)
    else
      var p :- PairScan(log[..|log| - 1]);
      PairStep(p, log[|log| - 1])
  }

  lemma PairScanAppend(log: seq<Record>, r: Record)
    ensures PairScan(log + [r]) ==
            (match PairScan(log) case Success(p) => PairStep(p, r) case Failure(e) => Failure(e))
  {
    assert (log + [r])[..|log|] == log;
  }

  /** The fold's failure at a prefix is its failure at the whole log. */
  lemma {:induction false} PairScanPrefix(log: seq<Record>, n: nat)
    requires n <= |log|
    requires PairScan(log[..n]).Failure?
    ensures PairScan(log) == PairScan(log[..n])
  {
    if n == |log| {
      assert log[..n] == log;
    } else {
      assert log[..|log| - 1][..n] == log[..n];
      PairScanPrefix(log[..|log| - 1], n);
    }
  }

  method ToolPairs(log: seq<Record>) returns (r: Result<Pairs, LogError>)
    ensures r == PairScan(log)
  {
    var calls: map<CallId, nat>, results: map<CallId, nat>, runs: map<CallId, RunId> := map[], map[], map[];
    for i := 0 to |log|
      invariant PairScan(log[..i]) == Success(Pairs(calls, results, runs))
    {
      var rec := log[i];
      assert log[..i + 1] == log[..i] + [rec];
      PairScanAppend(log[..i], rec);
      if PairScan(log[..i + 1]).Failure? {
        PairScanPrefix(log, i + 1);
      }
      match rec.payload
      case ToolCall(call) =>
        if call.id in calls { return Failure(DuplicateToolCall); }
        calls := calls[call.id := rec.seqNo];
        runs := runs[call.id := rec.run];
      case ToolResult(id, _, _) =>
        if id !in calls { return Failure(OrphanToolResult); }
        if id in results { return Failure(DuplicateToolResult); }
        if id !in runs || runs[id] != rec.run { return Failure(ToolRunMismatch); }
        results := results[id := rec.seqNo];
      case RunOutcome(_, _) =>
        var rest := runs.Keys;
        while rest != {}
          invariant rest <= runs.Keys
          invariant forall id <- runs.Keys - rest :: runs[id] != rec.run || id in results
        {
          var id :| id in rest;
          if runs[id] == rec.run && id !in results { return Failure(TerminalWithOpenCall); }
          rest := rest - {id};
        }
      case _ =>
    }
    assert log[..|log|] == log;
    return Success(Pairs(calls, results, runs));
  }

  // ---- What the maps mean ------------------------------------------------

  /** The maps hold exactly the calls and results of the log. */
  ghost predicate Describes(p: Pairs, log: seq<Record>) {
    && p.calls.Keys == p.runs.Keys
    && (forall id :: id in p.calls <==> HasCall(log, id))
    && (forall id :: id in p.results <==> HasResult(log, id))
    && (forall i :: 0 <= i < |log| && log[i].payload.ToolCall? ==>
          log[i].payload.call.id in p.runs && p.runs[log[i].payload.call.id] == log[i].run)
  }

  lemma HasAppend(log: seq<Record>, r: Record, id: CallId)
    ensures HasCall(log + [r], id) <==> HasCall(log, id) || IsCall(r, id)
    ensures HasResult(log + [r], id) <==> HasResult(log, id) || IsResult(r, id)
  {
    var all := log + [r];
    if i :| 0 <= i < |log| && IsCall(log[i], id) { assert IsCall(all[i], id); }
    if i :| 0 <= i < |log| && IsResult(log[i], id) { assert IsResult(all[i], id); }
    assert all[|log|] == r;
  }

  /** The pairing rule, one record at a time. */
  ghost predicate MayFollow(log: seq<Record>, r: Record) {
    match r.payload
    case ToolCall(call) => !HasCall(log, call.id)
    case ToolResult(id, _, _) =>
      && (exists i :: 0 <= i < |log| && IsCall(log[i], id) && log[i].run == r.run)
      && !HasResult(log, id)
    case RunOutcome(_, _) =>
      forall i :: 0 <= i < |log| && log[i].payload.ToolCall? && log[i].run == r.run ==>
        HasResult(log, log[i].payload.call.id)
    case _ => true
  }

  /** One step of the checker succeeds exactly when the record may follow ... */
  lemma PairStepFollows(p: Pairs, log: seq<Record>, r: Record)
    requires UniqueCalls(log)
    requires Describes(p, log)
    ensures PairStep(p, r).Success? <==> MayFollow(log, r)
  {
    if r.payload.RunOutcome? {
      forall id | id in p.runs && p.runs[id] == r.run
        ensures exists i :: 0 <= i < |log| && IsCall(log[i], id) && log[i].run == r.run
      {
        assert HasCall(log, id);
      }
    }
    if r.payload.ToolResult? && r.payload.callId in p.calls {
      var i :| 0 <= i < |log| && IsCall(log[i], r.payload.callId);
    }
  }

  /** ... and keeps the maps right. */
  lemma PairStepDescribes(p: Pairs, log: seq<Record>, r: Record)
    requires Describes(p, log) && PairStep(p, r).Success? && (r.payload.ToolCall? ==> !HasCall(log, r.payload.call.id))
    ensures Describes(PairStep(p, r).value, log + [r])
  {
    hide HasCall, HasResult;
    forall id ensures HasCall(log + [r], id) <==> HasCall(log, id) || IsCall(r, id)
      ensures HasResult(log + [r], id) <==> HasResult(log, id) || IsResult(r, id)
    {
      HasAppend(log, r, id);
    }
    var all := log + [r];
    forall i | 0 <= i < |log| && log[i].payload.ToolCall? ensures HasCall(log, log[i].payload.call.id) {
      CallIsThere(log, i);
    }
    assert forall i :: 0 <= i < |log| ==> all[i] == log[i];
  }

  lemma CallIsThere(log: seq<Record>, i: nat)
    requires i < |log| && log[i].payload.ToolCall?
    ensures HasCall(log, log[i].payload.call.id)
  {
    assert IsCall(log[i], log[i].payload.call.id);
  }

  lemma PairStepExact(p: Pairs, log: seq<Record>, r: Record)
    requires UniqueCalls(log)
    requires Describes(p, log)
    ensures PairStep(p, r).Success? <==> MayFollow(log, r)
    ensures PairStep(p, r).Success? ==> Describes(PairStep(p, r).value, log + [r])
  {
    hide Describes, UniqueCalls;
    PairStepFollows(p, log, r);
    if PairStep(p, r).Success? { PairStepDescribes(p, log, r); }
  }

  lemma RuleAppend(log: seq<Record>, r: Record)
    ensures PairingRule(log + [r]) <==> PairingRule(log) && MayFollow(log, r)
  {
    var all := log + [r];
    assert all[..|log|] == log;
    assert forall i :: 0 <= i < |log| ==> all[i] == log[i] && all[..i] == log[..i];
    if PairingRule(all) {
      RulePrefix(log, r);
    }
    if PairingRule(log) && MayFollow(log, r) {
      RuleExtends(log, r);
    }
  }

  lemma RulePrefix(log: seq<Record>, r: Record)
    requires PairingRule(log + [r])
    ensures PairingRule(log) && MayFollow(log, r)
  {
    var all := log + [r];
    assert forall i :: 0 <= i < |log| ==> all[i] == log[i];
    assert forall i :: 0 <= i <= |log| ==> all[..i] == log[..i];
    assert all[|log|] == r;
  }

  lemma RuleExtends(log: seq<Record>, r: Record)
    requires PairingRule(log) && MayFollow(log, r)
    ensures PairingRule(log + [r])
  {
    var all := log + [r];
    assert forall i :: 0 <= i <= |log| ==> all[..i] == log[..i];
    forall j | 0 <= j < |all| && all[j].payload.ToolResult?
      ensures exists i :: 0 <= i < j && IsCall(all[i], all[j].payload.callId) && all[i].run == all[j].run
    {
      if j < |log| {
        var i :| 0 <= i < j && IsCall(log[i], log[j].payload.callId) && log[i].run == log[j].run;
        assert all[i] == log[i];
      } else {
        var i :| 0 <= i < |log| && IsCall(log[i], r.payload.callId) && log[i].run == r.run;
        assert all[i] == log[i];
      }
    }
  }

  /** Soundness and completeness: the one-pass checker accepts exactly the logs that keep the
      pairing rule, and then its maps are the log's calls and results. */
  lemma {:induction false} PairingExact(log: seq<Record>)
    ensures PairScan(log).Success? <==> PairingRule(log)
    ensures PairScan(log).Success? ==> Describes(PairScan(log).value, log)
  {
    if log != [] {
      var init, r := log[..|log| - 1], log[|log| - 1];
      assert log == init + [r];
      PairingExact(init);
      RuleAppend(init, r);
      if PairScan(init).Success? {
        PairStepExact(PairScan(init).value, init, r);
      }
    }
  }

  lemma RulePrefixClosed(log: seq<Record>, n: nat)
    requires n <= |log|
    requires PairingRule(log)
    ensures PairingRule(log[..n])
  {
    PairingExact(log);
    PairingExact(log[..n]);
    if PairScan(log[..n]).Failure? {
      PairScanPrefix(log, n);
    }
  }

  // ---- The exported checks -------------------------------------------------

  /** What ValidateRecords accepts. */
  predicate AcceptedLog(log: seq<Record>) {
    WellFormedLog(log) && PairingRule(log)
  }

  /** What ValidateTranscript accepts. */
  predicate AcceptedTranscript(log: seq<Record>) {
    AcceptedLog(log) && AllPaired(log)
  }

  /** Acceptance is prefix-closed, so a log cut at any record boundary still loads. */
  lemma AcceptancePrefixClosed(log: seq<Record>, n: nat)
    requires n <= |log|
    requires AcceptedLog(log)
    ensures AcceptedLog(log[..n])
  {
    RulePrefixClosed(log, n);
  }

  /** The fault a load error reports about the records themselves. */
  ghost predicate Explains(e: LogError, log: seq<Record>) {
    match e
    case RecordSequence => !Contiguous(log)
    case InvalidRecord => exists rec <- log :: !ValidRecord(rec)
    case DuplicateSessionClose =>
      exists i :: 0 < i < |log| && log[i - 1].payload.SessionClosed? && log[i].payload.SessionClosed?
    case RecordsAfterClose =>
      exists i :: 0 < i < |log| && log[i - 1].payload.SessionClosed? && !log[i].payload.SessionClosed?
    case _ => false
  }

  method ValidateRecords(log: seq<Record>) returns (r: Option<LogError>)
    ensures r.None? <==> AcceptedLog(log)
    ensures WellFormedLog(log) ==> r == (match PairScan(log) case Success(_) => None case Failure(e) => Some(e))
    ensures !WellFormedLog(log) ==> r.Some? && Explains(r.value, log)
    ensures r.None? ==>
              forall i :: 0 <= i < |log| ==>
                log[i].seqNo == i + 1 && (log[i].payload == SessionClosed ==> i == |log| - 1)
  {
    var closed := false;
    for i := 0 to |log|
      invariant Contiguous(log[..i])
      invariant forall rec <- log[..i] :: ValidRecord(rec)
      invariant closed <==> i > 0 && log[i - 1].payload.SessionClosed?
      invariant forall k :: 0 <= k < i && log[k].payload.SessionClosed? ==> k == i - 1
    {
      var rec := log[i];
      if rec.seqNo != i + 1 { return Some(RecordSequence); }
      if !ValidRecord(rec) { return Some(InvalidRecord); }
      if closed {
        assert log[i - 1].payload.SessionClosed?;
        return Some(if rec.payload.SessionClosed? then DuplicateSessionClose else RecordsAfterClose);
      }
      if rec.payload.SessionClosed? { closed := true; }
      assert log[..i + 1] == log[..i] + [rec];
    }
    assert log[..|log|] == log;
    assert WellFormedLog(log);
    var pairs := ToolPairs(log);
    PairingExact(log);
    return if pairs.Failure? then Some(pairs.error) else None;
  }

  method ValidateTranscript(log: seq<Record>) returns (r: Option<LogError>)
    ensures r.None? <==> AcceptedTranscript(log)
    ensures r == Some(UnpairedToolCall) ==> AcceptedLog(log)
  {
    r := ValidateRecords(log);
    if r.Some? {
      ScanNeverUnpaired(log);
      return;
    }
    var pairs := ToolPairs(log);
    PairingExact(log);
    var p := pairs.value;
    var rest := p.calls.Keys;
    while rest != {}
      invariant rest <= p.calls.Keys
      invariant forall id <- p.calls.Keys - rest :: id in p.results
    {
      var id :| id in rest;
      if id !in p.results {
        var i :| 0 <= i < |log| && IsCall(log[i], id);
        return Some(UnpairedToolCall);
      }
      rest := rest - {id};
    }
    forall i | 0 <= i < |log| && log[i].payload.ToolCall?
      ensures HasResult(log, log[i].payload.call.id)
    {
      assert log[i].payload.call.id in p.calls;
    }
    return None;
  }

  lemma ScanNeverUnpaired(log: seq<Record>)
    ensures PairScan(log) != Failure(UnpairedToolCall)
  {
  }

  /** The unpaired calls, in the order the provider proposed them. */
  method OpenToolCalls(log: seq<Record>) returns (r: Result<seq<Call>, LogError>)
    ensures r.Success? <==> AcceptedLog(log)
    ensures r.Success? ==> r.value == OpenCalls(log, log)
  {
    var bad := ValidateRecords(log);
    if bad.Some? { return Failure(bad.value); }
    var pairs := ToolPairs(log);
    PairingExact(log);
    var open: seq<Call> := [];
    for i := 0 to |log|
      invariant open == OpenCalls(log[..i], log)
    {
      assert log[..i + 1][..i] == log[..i];
      if log[i].payload.ToolCall? && log[i].payload.call.id !in pairs.value.results {
        open := open + [log[i].payload.call];
      }
    }
    assert log[..|log|] == log;
    return Success(open);
  }

  /** As OpenToolCalls, but an open call of any other run is refused. */
  method OpenToolCallsForRun(log: seq<Record>, run: RunId) returns (r: Result<seq<Call>, LogError>)
    ensures r.Success? <==>
            && run != 0
            && AcceptedLog(log)
            && forall i :: 0 <= i < |log| && log[i].payload.ToolCall? && !HasResult(log, log[i].payload.call.id) ==>
                 log[i].run == run
    ensures r.Success? ==> r.value == OpenCalls(log, log)
  {
    if run == 0 { return Failure(UnpairedToolCall); }
    var bad := ValidateRecords(log);
    if bad.Some? { return Failure(bad.value); }
    var pairs := ToolPairs(log);
    PairingExact(log);
    var open: seq<Call> := [];
    for i := 0 to |log|
      invariant open == OpenCalls(log[..i], log)
      invariant forall k :: 0 <= k < i && log[k].payload.ToolCall? && !HasResult(log, log[k].payload.call.id) ==>
                  log[k].run == run
    {
      assert log[..i + 1][..i] == log[..i];
      var rec := log[i];
      if rec.payload.ToolCall? && rec.payload.call.id !in pairs.value.results {
        if rec.run != run { return Failure(UnpairedToolCall); }
        open := open + [rec.payload.call];
      }
    }
    assert log[..|log|] == log;
    return Success(open);
  }
}
