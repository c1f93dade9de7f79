/** From the record log to the messages of a provider request. */
module Messages {
  import opened Wrappers
  import opened Transcript
  import opened Shape

  datatype Role = User | Assistant | Tool

  datatype Message = Message(role: Role, content: string, toolCallId: CallId, calls: seq<Call>)

  /** One more record: a call joins the message of the call right before it. */
  function AddRecord(out: seq<Message>, afterCall: bool, r: Record): seq<Message> {
    match r.payload
    case UserMessage(text) => out + [Message(User, text, "", [])]
    case AssistantBlock(text) => out + [Message(Assistant, text, "", [])]
    case ToolCall(call) =>
      if afterCall && out != [] then
        out[|out| - 1 := out[|out| - 1].(calls := out[|out| - 1].calls + [call])]
      else out + [Message(Assistant, "", "", [call])]
    case ToolResult(id, _, content) => out + [Message(Tool, content, id, [])]
    case _ => out
  }

  function ToMessages(log: seq<Record>): seq<Message> {
    if log == [] then []
    else
      var n := |log| - 1;
      AddRecord(ToMessages(log[..n]), n > 0 && log[n - 1].payload.ToolCall?, log[n])
  }

  // ---- What a reader of the messages gets --------------------------------------------------

  /** What somebody has contributed to the conversation. */
  datatype Utterance =
    | Asked(text: string)
    | Said(text: string)
    | Called(call: Call)
    | Returned(id: CallId, content: string)

  /** The conversation a log records; all other records are no part of it. */
  function Conversation(log: seq<Record>): seq<Utterance> {
    if log == [] then [] else Conversation(log[..|log| - 1]) + Uttered(log[|log| - 1])
  }

  function Uttered(r: Record): seq<Utterance> {
    match r.payload
    case UserMessage(text) => [Asked(text)]
    case AssistantBlock(text) => [Said(text)]
    case ToolCall(call) => [Called(call)]
    case ToolResult(id, _, content) => [Returned(id, content)]
    case _ => []
  }

  function CalledAll(calls: seq<Call>): seq<Utterance> {
    seq(|calls|, i requires 0 <= i < |calls| => Called(calls[i]))
  }

  /** What a message says: the user asks, a tool answers, and the assistant says a text or calls tools. */
  function Says(m: Message): seq<Utterance> {
    match m.role
    case User => [Asked(m.content)]
    case Tool => [Returned(m.toolCallId, m.content)]
    case Assistant => if m.calls == [] then [Said(m.content)] else CalledAll(m.calls)
  }

  function SaysAll(out: seq<Message>): seq<Utterance> {
    if out == [] then [] else SaysAll(out[..|out| - 1]) + Says(out[|out| - 1])
  }

  /** A message has the parts of its role and no others. */
  predicate WellMade(m: Message) {
    && (m.role != Tool ==> m.toolCallId == "")
    && (m.calls != [] ==> m.role == Assistant && m.content == "")
  }

  /** The messages say exactly the conversation, word for word and in order: nothing is left out, nothing
      is added, and everybody is given what was theirs. */
  lemma {:induction false} MessagesSayConversation(log: seq<Record>)
    ensures SaysAll(ToMessages(log)) == Conversation(log)
    ensures forall m <- ToMessages(log) :: WellMade(m)
    ensures log != [] && log[|log| - 1].payload.ToolCall? ==>
              ToMessages(log) != [] && ToMessages(log)[|ToMessages(log)| - 1].calls != []
  {
    hide SaysAll, Uttered, WellMade, AddRecord;
    if log == [] {
      NothingSaid();
    } else {
      var n := |log| - 1;
      MessagesSayConversation(log[..n]);
      RecordSays(ToMessages(log[..n]), n > 0 && log[n - 1].payload.ToolCall?, log[n]);
    }
  }

  lemma NothingSaid()
    ensures SaysAll([]) == []
  {
  }

  /** One more record adds what it says. */
  lemma RecordSays(out: seq<Message>, afterCall: bool, r: Record)
    requires forall m <- out :: WellMade(m)
    requires afterCall ==> out != [] && out[|out| - 1].calls != []
    ensures var all := AddRecord(out, afterCall, r);
            && SaysAll(all) == SaysAll(out) + Uttered(r)
            && (forall m <- all :: WellMade(m))
            && (r.payload.ToolCall? ==> all != [] && all[|all| - 1].calls != [])
  {
    hide SaysAll, Says, CalledAll;
    match r.payload
    case UserMessage(text) => OneMoreMessage(out, Message(User, text, "", []));
    case AssistantBlock(text) => OneMoreMessage(out, Message(Assistant, text, "", []));
    case ToolCall(call) =>
      if afterCall {
        assert WellMade(out[|out| - 1]) by { assert out[|out| - 1] in out; }
        OneMoreCall(out, call);
      } else {
        OneMoreMessage(out, Message(Assistant, "", "", [call]));
      }
    case ToolResult(id, _, content) => OneMoreMessage(out, Message(Tool, content, id, []));
    case _ => assert SaysAll(out) + [] == SaysAll(out);
  }

  lemma OneMoreMessage(out: seq<Message>, m: Message)
    ensures SaysAll(out + [m]) == SaysAll(out) + Says(m)
    ensures m.role == User ==> Says(m) == [Asked(m.content)]
    ensures m.role == Tool ==> Says(m) == [Returned(m.toolCallId, m.content)]
    ensures m.role == Assistant && m.calls == [] ==> Says(m) == [Said(m.content)]
    ensures m.role == Assistant && |m.calls| == 1 ==> Says(m) == [Called(m.calls[0])]
  {
    assert (out + [m])[..|out|] == out;
    if |m.calls| == 1 { assert CalledAll(m.calls) == [Called(m.calls[0])]; }
  }

  lemma OneMoreCall(out: seq<Message>, call: Call)
    requires out != [] && out[|out| - 1].role == Assistant && out[|out| - 1].calls != []
    ensures var n := |out| - 1;
            SaysAll(out[n := out[n].(calls := out[n].calls + [call])]) == SaysAll(out) + [Called(call)]
  {
    var n := |out| - 1;
    var all := out[n := out[n].(calls := out[n].calls + [call])];
    assert all[..n] == out[..n];
    assert CalledAll(all[n].calls) == CalledAll(out[n].calls) + [Called(call)];
  }

  /** Contiguous calls are gathered by an inner loop into one assistant message. */
  method RecordsToMessages(log: seq<Record>) returns (out: seq<Message>)
    ensures out == ToMessages(log)
    ensures SaysAll(out) == Conversation(log) && forall m <- out :: WellMade(m)
  {
    hide Says, SaysAll, Conversation, WellMade;
    out := [];
    var i := 0;
    while i < |log|
      invariant i <= |log|
      invariant out == ToMessages(log[..i])
      invariant 0 < i < |log| && log[i - 1].payload.ToolCall? ==> !log[i].payload.ToolCall?
    {
      var r := log[i];
      assert log[..i + 1][..i] == log[..i];
      match r.payload {
        case UserMessage(text) =>
          out := out + [Message(User, text, "", [])];
        case AssistantBlock(text) =>
          out := out + [Message(Assistant, text, "", [])];
        case ToolCall(_) =>
          var message := Message(Assistant, "", "", []);
          ghost var start := i;
          while i < |log| && log[i].payload.ToolCall?
            invariant start <= i <= |log|
            invariant i == start ==> message == Message(Assistant, "", "", []) && out == ToMessages(log[..start])
            invariant start < i ==> log[i - 1].payload.ToolCall? && out + [message] == ToMessages(log[..i])
          {
            assert log[..i + 1][..i] == log[..i];
            ghost var before := message;
            message := message.(calls := message.calls + [log[i].payload.call]);
            assert i > start ==> (out + [before])[|out| := message] == out + [message];
            assert i == start ==> message.calls == [log[i].payload.call];
            i := i + 1;
          }
          i := i - 1;
          out := out + [message];
        case ToolResult(id, _, content) =>
          out := out + [Message(Tool, content, id, [])];
        case _ =>
      }
      i := i + 1;
    }
    assert log[..|log|] == log;
    MessagesSayConversation(log);
  }

  // ---- Ready for a provider ------------------------------------------------------------

  /** The j-th message after i is the result of the j-th call of message i. */
  predicate IsAnswer(out: seq<Message>, i: nat, j: nat)
    requires i + 1 + j < |out| && j < |out[i].calls|
  {
    out[i + 1 + j].role == Tool && out[i + 1 + j].toolCallId == out[i].calls[j].id
  }

  /** The message at i is immediately followed by the results of its first k calls, in order. */
  predicate Answered(out: seq<Message>, i: nat, k: nat)
    requires i < |out| && k <= |out[i].calls|
  {
    i + k < |out| && forall j :: 0 <= j < k ==> IsAnswer(out, i, j)
  }

  /** Every message with calls is followed by exactly its results, and there are no other results. */
  predicate Ready(out: seq<Message>) {
    && (forall i :: 0 <= i < |out| ==>
          && Answered(out, i, |out[i].calls|)
          && (out[i].calls != [] ==> out[i].role == Assistant)
          && (out[i].calls != [] && i + |out[i].calls| + 1 < |out| ==> out[i + |out[i].calls| + 1].role != Tool))
    && (forall i :: 0 <= i < |out| && out[i].role == Tool ==>
          exists g :: 0 <= g < i && i <= g + |out[g].calls|)
  }

  /** What the messages still owe: the calls of the last group not answered yet. */
  ghost predicate Owes(out: seq<Message>, pending: seq<Call>) {
    && (forall i :: 0 <= i < |out| ==> out[i].calls != [] ==> out[i].role == Assistant)
    && (forall i :: 0 <= i < |out| && out[i].calls != [] ==>
          Closed(out, i) || (pending != [] && Last(out, i, pending)))
    && (forall i :: 0 <= i < |out| && out[i].role == Tool ==> exists g :: 0 <= g < i && i <= g + |out[g].calls|)
    && (pending != [] ==> exists i :: 0 <= i < |out| && Last(out, i, pending))
  }

  /** The group at i has all its results, and what follows them is no result. */
  predicate Closed(out: seq<Message>, i: nat)
    requires i < |out|
  {
    && Answered(out, i, |out[i].calls|)
    && (i + |out[i].calls| + 1 < |out| ==> out[i + |out[i].calls| + 1].role != Tool)
  }

  /** The group at i is the one in progress: what follows it so far answers all but the pending calls. */
  predicate Last(out: seq<Message>, i: nat, pending: seq<Call>)
    requires i < |out|
  {
    && |pending| <= |out[i].calls|
    && out[i].calls[|out[i].calls| - |pending|..] == pending
    && i + |out[i].calls| - |pending| + 1 == |out|
    && Answered(out, i, |out[i].calls| - |pending|)
  }

  lemma AnsweredKept(out: seq<Message>, i: nat, k: nat, m: Message)
    requires i < |out| && k <= |out[i].calls| && Answered(out, i, k)
    ensures Answered(out + [m], i, k)
    ensures k < |out[i].calls| && i + k + 1 == |out| && m.role == Tool && m.toolCallId == out[i].calls[k].id ==>
              Answered(out + [m], i, k + 1)
  {
    forall j | 0 <= j < k ensures IsAnswer(out + [m], i, j) {
      assert IsAnswer(out, i, j);
    }
  }

  lemma AnswersAreResults(out: seq<Message>, i: nat, k: nat, m: nat)
    requires i < |out| && k <= |out[i].calls| && Answered(out, i, k) && i < m <= i + k
    ensures out[m].role == Tool
  {
    assert IsAnswer(out, i, m - i - 1);
  }

  lemma ResultsKept(out: seq<Message>, all: seq<Message>)
    requires |out| <= |all|
    requires forall i :: 0 <= i < |out| ==> all[i].role == out[i].role && |out[i].calls| <= |all[i].calls|
    requires forall i :: 0 <= i < |out| && out[i].role == Tool ==> exists g :: 0 <= g < i && i <= g + |out[g].calls|
    ensures forall i :: 0 <= i < |out| && all[i].role == Tool ==> exists g :: 0 <= g < i && i <= g + |all[g].calls|
  {
    forall i | 0 <= i < |out| && all[i].role == Tool ensures exists g :: 0 <= g < i && i <= g + |all[g].calls| {
      var g :| 0 <= g < i && i <= g + |out[g].calls|;
      assert i <= g + |all[g].calls|;
    }
  }

  lemma ClosedKept(out: seq<Message>, i: nat, m: Message)
    requires i < |out| && Closed(out, i)
    requires m.role == Tool ==> i + |out[i].calls| + 1 < |out|
    ensures Closed(out + [m], i)
  {
    AnsweredKept(out, i, |out[i].calls|, m);
  }

  lemma OwesPlain(out: seq<Message>, m: Message)
    requires Owes(out, []) && m.role != Tool && m.calls == []
    ensures Owes(out + [m], [])
  {
    var all := out + [m];
    forall i | 0 <= i < |all| && all[i].calls != [] ensures Closed(all, i) {
      ClosedKept(out, i, m);
    }
    ResultsKept(out, all);
  }

  lemma OwesGroup(out: seq<Message>, call: Call)
    requires Owes(out, [])
    ensures Owes(out + [Message(Assistant, "", "", [call])], [call])
  {
    var m := Message(Assistant, "", "", [call]);
    var all := out + [m];
    assert Last(all, |out|, [call]);
    forall i | 0 <= i < |out| && all[i].calls != [] ensures Closed(all, i) {
      ClosedKept(out, i, m);
    }
    ResultsKept(out, all);
  }

  lemma OwesCall(out: seq<Message>, pending: seq<Call>, call: Call)
    requires Owes(out, pending) && pending != []
    requires out != [] && out[|out| - 1].calls == pending
    ensures Owes(out[|out| - 1 := out[|out| - 1].(calls := pending + [call])], pending + [call])
  {
    var n := |out| - 1;
    var owed := pending + [call];
    var all := out[n := out[n].(calls := owed)];
    assert Last(all, n, owed);
    hide Closed, Last, Answered;
    forall i | 0 <= i < |all| && all[i].calls != [] ensures all[i].role == Assistant {
      assert out[i].calls != [];
    }
    forall i | 0 <= i < |all| && all[i].calls != [] ensures Closed(all, i) || Last(all, i, owed) {
      if i < n { EarlierStaysClosed(out, pending, owed, i); }
    }
    ResultsKept(out, all);
  }

  /** A group in front of the one that is still growing. */
  lemma EarlierStaysClosed(out: seq<Message>, pending: seq<Call>, owed: seq<Call>, i: nat)
    requires out != [] && out[|out| - 1].calls == pending && pending != [] && out[|out| - 1].role == Assistant
    requires i < |out| - 1 && (Closed(out, i) || Last(out, i, pending))
    ensures Closed(out[|out| - 1 := out[|out| - 1].(calls := owed)], i)
  {
    var n := |out| - 1;
    var all := out[n := out[n].(calls := owed)];
    if Last(out, i, pending) {
      AnswersAreResults(out, i, |out[i].calls| - |pending|, n);
    } else {
      forall j | 0 <= j < |all[i].calls| ensures IsAnswer(all, i, j) {
        assert IsAnswer(out, i, j);
      }
    }
  }

  lemma OneMoreAnswered(out: seq<Message>, i: nat, pending: seq<Call>, m: Message)
    requires pending != [] && i < |out| && Last(out, i, pending)
    requires m.role == Tool && m.toolCallId == pending[0].id
    ensures Last(out + [m], i, pending[1..])
    ensures i < |out| <= i + |out[i].calls|
  {
    var k := |out[i].calls| - |pending|;
    assert out[i].calls[k] == out[i].calls[k..][0] == pending[0];
    assert out[i].calls[k + 1..] == out[i].calls[k..][1..] == pending[1..];
    AnsweredKept(out, i, k, m);
  }

  /** A closed group ends before the point the open one has got to. */
  lemma ClosedEndsBefore(out: seq<Message>, pending: seq<Call>, i: nat, g: nat)
    requires i < |out| && g < |out| && out[i].role == out[g].role == Assistant
    requires out[i].calls != [] && Closed(out, i)
    requires pending != [] && Last(out, g, pending)
    ensures i + |out[i].calls| + 1 < |out|
  {
    if i + |out[i].calls| + 1 == |out| {
      if i < g { AnswersAreResults(out, i, |out[i].calls|, g); }
      if g < i { AnswersAreResults(out, g, |out[g].calls| - |pending|, i); }
    }
  }

  lemma OwesAnswer(out: seq<Message>, pending: seq<Call>, content: string)
    requires Owes(out, pending) && pending != []
    ensures Owes(out + [Message(Tool, content, pending[0].id, [])], pending[1..])
  {
    var m := Message(Tool, content, pending[0].id, []);
    var all := out + [m];
    var g :| 0 <= g < |out| && Last(out, g, pending);
    OneMoreAnswered(out, g, pending, m);
    forall i | 0 <= i < |out| && all[i].calls != []
      ensures Closed(all, i) || (pending[1..] != [] && Last(all, i, pending[1..]))
    {
      if Last(out, i, pending) {
        OneMoreAnswered(out, i, pending, m);
        if |pending| == 1 { assert Closed(all, i); }
      } else {
        ClosedEndsBefore(out, pending, i, g);
        ClosedKept(out, i, m);
      }
    }
    ResultsKept(out, all);
    assert |out| <= g + |all[g].calls|;
  }

  /** The messages of a disciplined log owe exactly its pending calls. */
  lemma {:induction false} MessagesOwePending(log: seq<Record>)
    requires ShapeOf(log) != Broken
    ensures Owes(ToMessages(log), Pending(ShapeOf(log)))
    ensures ShapeOf(log).Batch? ==> ShapeOf(log).pending != []
    ensures ShapeOf(log).Batch? && ShapeOf(log).calling <==> log != [] && log[|log| - 1].payload.ToolCall?
    ensures ShapeOf(log).Batch? && ShapeOf(log).calling ==>
              ToMessages(log) != [] && ToMessages(log)[|ToMessages(log)| - 1].calls == ShapeOf(log).pending
  {
    hide Owes;
    if log == [] {
      NothingOwed();
    } else {
      var init, r := log[..|log| - 1], log[|log| - 1];
      MessagesOwePending(init);
      var out := ToMessages(init);
      match r.payload
      case UserMessage(text) => OwesPlain(out, Message(User, text, "", []));
      case AssistantBlock(text) => OwesPlain(out, Message(Assistant, text, "", []));
      case ToolCall(call) =>
        if ShapeOf(init).Settled? { OwesGroup(out, call); } else { OwesCall(out, ShapeOf(init).pending, call); }
      case ToolResult(id, _, content) => OwesAnswer(out, ShapeOf(init).pending, content);
      case _ =>
    }
  }

  lemma NothingOwed()
    ensures Owes([], [])
  {
  }

  /** Provider-ready context: whenever no batch is in progress, every assistant message with calls
      is immediately followed by exactly its results, in the order of the calls. */
  lemma SettledIsReady(log: seq<Record>)
    requires ShapeOf(log).Settled?
    ensures Ready(ToMessages(log))
  {
    MessagesOwePending(log);
    OwesNothing(ToMessages(log));
  }

  lemma OwesNothing(out: seq<Message>)
    requires Owes(out, [])
    ensures Ready(out)
  {
    forall i | 0 <= i < |out| ensures Answered(out, i, |out[i].calls|) {
      if out[i].calls != [] { assert Closed(out, i); }
    }
  }

  // ---- Admission ------------------------------------------------------------------------

  datatype ToolDefinition = ToolDefinition(name: string, description: string, schema: string)

  datatype Request = Request(stable: string, dynamic: string, messages: seq<Message>, tools: seq<ToolDefinition>,
                             maxOutput: nat)

  function EstimateTokens(text: string): nat {
    if text == "" then 0 else (|text| + 2) / 3
  }

  function CallsCost(calls: seq<Call>): nat {
    if calls == [] then 0
    else
      var c := calls[|calls| - 1];
      CallsCost(calls[..|calls| - 1]) + EstimateTokens(c.name) + EstimateTokens(c.arguments.text) + 16
  }

  function MessagesCost(out: seq<Message>): nat {
    if out == [] then 0
    else
      var m := out[|out| - 1];
      MessagesCost(out[..|out| - 1]) + EstimateTokens(m.content) + 16 + CallsCost(m.calls)
  }

  function ToolsCost(tools: seq<ToolDefinition>): nat {
    if tools == [] then 0
    else
      var t := tools[|tools| - 1];
      ToolsCost(tools[..|tools| - 1]) + EstimateTokens(t.name) + EstimateTokens(t.description)
        + EstimateTokens(t.schema)
  }

  /** The characters of the calls, of the messages with their calls, and of the tools. */
  function CallsVolume(calls: seq<Call>): nat {
    if calls == [] then 0
    else
      var c := calls[|calls| - 1];
      CallsVolume(calls[..|calls| - 1]) + |c.name| + |c.arguments.text|
  }

  function Volume(out: seq<Message>): nat {
    if out == [] then 0
    else Volume(out[..|out| - 1]) + |out[|out| - 1].content| + CallsVolume(out[|out| - 1].calls)
  }

  function CallCount(out: seq<Message>): nat {
    if out == [] then 0 else CallCount(out[..|out| - 1]) + |out[|out| - 1].calls|
  }

  function ToolsVolume(tools: seq<ToolDefinition>): nat {
    if tools == [] then 0
    else
      var t := tools[|tools| - 1];
      ToolsVolume(tools[..|tools| - 1]) + |t.name| + |t.description| + |t.schema|
  }

  /** One token for every three characters, rounded up. */
  lemma TokensExact(text: string)
    ensures |text| <= 3 * EstimateTokens(text) <= |text| + 2
  {
  }

  lemma {:induction false} CallsCostBounds(calls: seq<Call>)
    ensures CallsVolume(calls) + 48 * |calls| <= 3 * CallsCost(calls) <= CallsVolume(calls) + 52 * |calls|
  {
    if calls != [] {
      var c := calls[|calls| - 1];
      CallsCostBounds(calls[..|calls| - 1]);
      TokensExact(c.name);
      TokensExact(c.arguments.text);
    }
  }

  /** The estimate of the messages is a third of their characters, each text rounded up, and sixteen for
      each message and each call. */
  lemma {:induction false} MessagesCostBounds(out: seq<Message>)
    ensures Volume(out) + 48 * (|out| + CallCount(out)) <= 3 * MessagesCost(out)
    ensures 3 * MessagesCost(out) <= Volume(out) + 50 * |out| + 52 * CallCount(out)
  {
    if out != [] {
      MessagesCostBounds(out[..|out| - 1]);
      TokensExact(out[|out| - 1].content);
      CallsCostBounds(out[|out| - 1].calls);
    }
  }

  lemma {:induction false} ToolsCostBounds(tools: seq<ToolDefinition>)
    ensures ToolsVolume(tools) <= 3 * ToolsCost(tools) <= ToolsVolume(tools) + 6 * |tools|
  {
    if tools != [] {
      var t := tools[|tools| - 1];
      ToolsCostBounds(tools[..|tools| - 1]);
      TokensExact(t.name);
      TokensExact(t.description);
      TokensExact(t.schema);
    }
  }

  /** What is admitted fits the window at three characters to a token, the output included; and what is
      refused would not fit even if every text were rounded up. */
  lemma AdmissionBounds(stable: string, dynamic: string, out: seq<Message>, tools: seq<ToolDefinition>, window: nat,
                        maxOutput: nat)
    ensures var estimated := EstimateTokens(stable) + EstimateTokens(dynamic) + MessagesCost(out) + ToolsCost(tools);
            var volume := |stable| + |dynamic| + Volume(out) + ToolsVolume(tools) + 48 * (|out| + CallCount(out));
            && (estimated + maxOutput <= window ==> volume + 3 * maxOutput <= 3 * window)
            && (estimated + maxOutput > window ==>
                  3 * window < volume + 3 * maxOutput + 4 + 2 * |out| + 4 * CallCount(out) + 6 * |tools|)
  {
    hide EstimateTokens, MessagesCost, ToolsCost;
    TokensExact(stable);
    TokensExact(dynamic);
    MessagesCostBounds(out);
    ToolsCostBounds(tools);
  }

  /** The whole history or an explicit refusal: nothing is ever left out to make it fit. */
  method Build(stable: string, dynamic: string, log: seq<Record>, tools: seq<ToolDefinition>, window: nat,
               maxOutput: nat)
    returns (r: Option<Request>)
    ensures r.Some? <==>
              EstimateTokens(stable) + EstimateTokens(dynamic) + MessagesCost(ToMessages(log)) + ToolsCost(tools)
                + maxOutput <= window
    ensures r.Some? ==> r.value == Request(stable, dynamic, ToMessages(log), tools, maxOutput)
    ensures r.Some? ==> SaysAll(r.value.messages) == Conversation(log)
  {
    hide ToMessages, EstimateTokens, SaysAll, Conversation;
    var messages := RecordsToMessages(log);
    var estimated := EstimateTokens(stable) + EstimateTokens(dynamic);
    ghost var fixed := estimated;
    for i := 0 to |messages|
      invariant estimated == fixed + MessagesCost(messages[..i])
    {
      assert messages[..i + 1][..i] == messages[..i];
      estimated := estimated + EstimateTokens(messages[i].content) + 16;
      ghost var sofar := estimated;
      for j := 0 to |messages[i].calls|
        invariant estimated == sofar + CallsCost(messages[i].calls[..j])
      {
        assert messages[i].calls[..j + 1][..j] == messages[i].calls[..j];
        estimated := estimated + EstimateTokens(messages[i].calls[j].name)
          + EstimateTokens(messages[i].calls[j].arguments.text) + 16;
      }
      assert messages[i].calls[..|messages[i].calls|] == messages[i].calls;
    }
    assert messages[..|messages|] == messages;
    fixed := estimated;
    for i := 0 to |tools|
      invariant estimated == fixed + ToolsCost(tools[..i])
    {
      assert tools[..i + 1][..i] == tools[..i];
      estimated := estimated + EstimateTokens(tools[i].name) + EstimateTokens(tools[i].description)
        + EstimateTokens(tools[i].schema);
    }
    assert tools[..|tools|] == tools;
    if estimated + maxOutput > window { return None; }
    return Some(Request(stable, dynamic, messages, tools, maxOutput));
  }

  /** The log only grows, so its cost does: a session that has outgrown the window stays refused. */
  lemma {:induction false} CostGrows(log: seq<Record>, n: nat)
    requires n <= |log|
    ensures MessagesCost(ToMessages(log[..n])) <= MessagesCost(ToMessages(log))
    decreases |log|
  {
    if n < |log| {
      var init, r := log[..|log| - 1], log[|log| - 1];
      assert init[..n] == log[..n];
      CostGrows(init, n);
      var out := ToMessages(init);
      AddCosts(out, |init| > 0 && init[|init| - 1].payload.ToolCall?, r);
    } else {
      assert log[..n] == log;
    }
  }

  lemma AddCosts(out: seq<Message>, afterCall: bool, r: Record)
    ensures MessagesCost(out) <= MessagesCost(AddRecord(out, afterCall, r))
  {
    var all := AddRecord(out, afterCall, r);
    if |all| == |out| + 1 {
      assert all[..|out|] == out;
    } else if all != out {
      var n := |out| - 1;
      assert all[..n] == out[..n];
      assert all[n].calls[..|out[n].calls|] == out[n].calls;
    }
  }
}
