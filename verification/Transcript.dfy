/** The durable record log of a session: record kinds, per-record validity, and
    the declarative rules a log has to satisfy.  A run ID "run-k" is the number k;
    0 is the empty run ID.  Timestamps are not modelled. */
module Transcript {
  type RunId = nat
  type CallId = string

  /** Raw JSON text together with the answer of the JSON validity test. */
  datatype RawJson = RawJson(text: string, wellFormed: bool)

  datatype Call = Call(id: CallId, name: string, arguments: RawJson)

  /** Unrecognised stands for any outcome string outside the registered six. */
  datatype ToolOutcome = Succeeded | Errored | Cancelled | Skipped | Interrupted | Blocked | Unrecognised

  datatype RunResult = RunCompleted | RunFailed | RunCancelled | RunInterrupted

  datatype Cause =
    | NoCause
    | ProviderPermanent
    | ProviderProtocol
    | ProviderTransient
    | EngineInvariant
    | BudgetExhausted
    | ContextLimit
    | ProviderOutput
    | CauseInterrupted
    | SensitiveContent

  datatype InstructionSource = InstructionSource(sources: seq<string>, scope: string, digest: string, precedence: nat)

  datatype Payload =
    | UserMessage(text: string)
    | AssistantBlock(text: string)
    | ToolCall(call: Call)
    | ToolResult(callId: CallId, outcome: ToolOutcome, content: string)
    | CancellationBoundary
    | RunOutcome(result: RunResult, cause: Cause)
    | InstructionsLoaded(sources: seq<InstructionSource>)
    | SessionClosed

  datatype Record = Record(seqNo: nat, run: RunId, payload: Payload)

  /** Record.Validate: only the close fact lives outside a run. */
  predicate ValidPayload(run: RunId, payload: Payload) {
    && (payload.SessionClosed? <==> run == 0)
    && match payload
       case UserMessage(text) => text != ""
       case AssistantBlock(text) => text != ""
       case ToolCall(call) => call.id != "" && call.name != "" && call.arguments.wellFormed
       case ToolResult(callId, outcome, _) => callId != "" && !outcome.Unrecognised?
       case RunOutcome(result, cause) => (result.RunFailed? || result.RunInterrupted?) <==> !cause.NoCause?
       case InstructionsLoaded(sources) =>
         && sources != []
         && forall s <- sources :: s.sources != [] && s.scope != "" && s.digest != ""
       case _ => true
  }

  predicate ValidRecord(r: Record) {
    ValidPayload(r.run, r.payload)
  }

  predicate Contiguous(log: seq<Record>) {
    forall i :: 0 <= i < |log| ==> log[i].seqNo == i + 1
  }

  predicate CloseIsLast(log: seq<Record>) {
    forall i :: 0 <= i < |log| && log[i].payload.SessionClosed? ==> i == |log| - 1
  }

  predicate HasClose(log: seq<Record>) {
    exists i :: 0 <= i < |log| && log[i].payload.SessionClosed?
  }

  predicate IsCall(r: Record, id: CallId) {
    r.payload.ToolCall? && r.payload.call.id == id
  }

  predicate IsResult(r: Record, id: CallId) {
    r.payload.ToolResult? && r.payload.callId == id
  }

  predicate HasCall(log: seq<Record>, id: CallId) {
    exists i :: 0 <= i < |log| && IsCall(log[i], id)
  }

  predicate HasResult(log: seq<Record>, id: CallId) {
    exists i :: 0 <= i < |log| && IsResult(log[i], id)
  }

  /** No two tool calls of the session share an ID. */
  predicate UniqueCalls(log: seq<Record>) {
    forall i, j :: 0 <= i < j < |log| && log[i].payload.ToolCall? && log[j].payload.ToolCall? ==>
      log[i].payload.call.id != log[j].payload.call.id
  }

  /** A result answers the call that precedes it, inside the call's own run. */
  predicate ResultsFollowCalls(log: seq<Record>) {
    forall j :: 0 <= j < |log| && log[j].payload.ToolResult? ==>
      exists i :: 0 <= i < j && IsCall(log[i], log[j].payload.callId) && log[i].run == log[j].run
  }

  predicate UniqueResults(log: seq<Record>) {
    forall i, j :: 0 <= i < j < |log| && log[i].payload.ToolResult? && log[j].payload.ToolResult? ==>
      log[i].payload.callId != log[j].payload.callId
  }

  /** When a run ends, every call it made so far has its result. */
  predicate NoOpenCallAtOutcome(log: seq<Record>) {
    forall o, i :: 0 <= i < o < |log| && log[o].payload.RunOutcome? && log[i].payload.ToolCall? &&
                   log[i].run == log[o].run ==>
      HasResult(log[..o], log[i].payload.call.id)
  }

  /** The pairing rule, stated over positions of the log alone. */
  predicate PairingRule(log: seq<Record>) {
    && UniqueCalls(log)
    && ResultsFollowCalls(log)
    && UniqueResults(log)
    && NoOpenCallAtOutcome(log)
  }

  /** The per-record and ordering half of ValidateRecords. */
  predicate WellFormedLog(log: seq<Record>) {
    && Contiguous(log)
    && (forall r <- log :: ValidRecord(r))
    && CloseIsLast(log)
  }

  /** Every call has its result. */
  predicate AllPaired(log: seq<Record>) {
    forall i :: 0 <= i < |log| && log[i].payload.ToolCall? ==> HasResult(log, log[i].payload.call.id)
  }

  /** The calls of `part` that have no result in `log`, in log order. */
  function OpenCalls(part: seq<Record>, log: seq<Record>): seq<Call> {
    if part == [] then []
    else
      var r := part[|part| - 1];
      var before := OpenCalls(part[..|part| - 1], log);
      if r.payload.ToolCall? && !HasResult(log, r.payload.call.id) then before + [r.payload.call] else before
  }
}
