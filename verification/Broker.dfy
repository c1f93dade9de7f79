/** The single route of every tool call: projection of its identity and arguments, policy,
    execution, and a bounded projected result. */
module Broker {
  import opened Transcript
  import opened Projection

  datatype Answer = Answer(callId: CallId, outcome: ToolOutcome, content: string)

  const MAX_BYTES: nat := 65536
  const TRUNCATED := "\n[truncated=true;" + " narrow or continue" + " the read-only request]"
  const BLOCKED_TEXT := "tool call blocked because detected credential material appeared in its identity or arguments"
  const CANCELLED_TEXT := "tool call cancelled before preparation"
  const REDACTED_ID := "redacted-call-"
  const SKIPPED_TEXT := "skipped because an earlier tool call did not succeed"

  // ---- Character boundaries (section 3 of RFC 3629; a char stands for one byte) -----------

  /** Not a continuation byte 10xxxxxx. */
  predicate RuneStart(c: char) {
    !(0x80 <= c as int <= 0xBF)
  }

  /** The length of the sequence a lead byte announces; 0 for a byte that cannot lead. */
  function SequenceLength(c: char): nat {
    var b := c as int;
    if b <= 0x7F then 1
    else if 0xC2 <= b <= 0xDF then 2
    else if 0xE0 <= b <= 0xEF then 3
    else if 0xF0 <= b <= 0xF4 then 4
    else 0
  }

  /** The range of the second byte, narrowed after E0, ED, F0 and F4. */
  predicate SecondByte(lead: char, c: char) {
    var b := c as int;
    match lead as int
    case 0xE0 => 0xA0 <= b <= 0xBF
    case 0xED => 0x80 <= b <= 0x9F
    case 0xF0 => 0x90 <= b <= 0xBF
    case 0xF4 => 0x80 <= b <= 0x8F
    case _ => 0x80 <= b <= 0xBF
  }

  predicate WholeCharacter(s: string) {
    && s != ""
    && SequenceLength(s[0]) == |s|
    && (|s| > 1 ==> SecondByte(s[0], s[1]))
    && forall i :: 2 <= i < |s| ==> !RuneStart(s[i])
  }

  /** A sequence of whole characters. */
  predicate Utf8(s: string)
    decreases |s|
  {
    s == "" ||
    (var n := SequenceLength(s[0]);
     0 < n <= |s| && WholeCharacter(s[..n]) && Utf8(s[n..]))
  }

  /** The bytes behind the first one of a character are continuation bytes. */
  lemma InsideCharacter(s: string, i: nat)
    requires Utf8(s) && 0 < i < |s|
    ensures i < SequenceLength(s[0]) ==> !RuneStart(s[i])
  {
    var n := SequenceLength(s[0]);
    if i < n {
      assert s[..n][i] == s[i];
      if i == 1 { assert SecondByte(s[..n][0], s[..n][1]); }
    }
  }

  /** A cut in front of a lead byte, or at the end, keeps whole characters. */
  lemma {:induction false} Utf8Cut(s: string, cut: nat)
    requires Utf8(s) && cut <= |s| && (cut < |s| ==> RuneStart(s[cut]))
    ensures Utf8(s[..cut])
    decreases |s|
  {
    if 0 < cut < |s| {
      var n := SequenceLength(s[0]);
      InsideCharacter(s, cut);
      assert s[n..][cut - n] == s[cut];
      Utf8Cut(s[n..], cut - n);
      assert s[..cut][..n] == s[..n];
      assert s[..cut][n..] == s[n..][..cut - n];
    } else if cut == |s| {
      assert s[..cut] == s;
    }
  }

  /** Among any four neighbouring bytes of whole characters one starts a character. */
  lemma {:induction false} LeadByteNearby(s: string, cut: nat) returns (k: nat)
    requires Utf8(s) && cut < |s|
    ensures cut - 3 <= k <= cut && RuneStart(s[k])
    decreases |s|
  {
    var n := SequenceLength(s[0]);
    if cut < n {
      k := 0;
    } else {
      k := LeadByteNearby(s[n..], cut - n);
      k := n + k;
    }
  }

  /** What project leaves of a content: everything when it fits, otherwise the longest prefix on a
      character boundary that leaves room for the notice. */
  ghost predicate Bounded(content: string, kept: string) {
    if |content| <= MAX_BYTES then kept == content
    else
      var room := MAX_BYTES - |TRUNCATED|;
      exists cut :: 0 <= cut <= room && kept == content[..cut] + TRUNCATED
        && (cut == 0 || RuneStart(content[cut]))
        && forall k :: cut < k <= room ==> !RuneStart(content[k])
  }

  method Bound(content: string) returns (kept: string)
    ensures Bounded(content, kept)
  {
    if |content| <= MAX_BYTES { return content; }
    var cut := MAX_BYTES - |TRUNCATED|;
    while cut > 0 && !RuneStart(content[cut])
      invariant 0 <= cut <= MAX_BYTES - |TRUNCATED|
      invariant forall k :: cut < k <= MAX_BYTES - |TRUNCATED| ==> !RuneStart(content[k])
    {
      cut := cut - 1;
    }
    return content[..cut] + TRUNCATED;
  }

  lemma {:induction false} Utf8Concat(a: string, b: string)
    requires Utf8(a) && Utf8(b)
    ensures Utf8(a + b)
    decreases |a|
  {
    if a == "" {
      assert a + b == b;
    } else {
      var n := SequenceLength(a[0]);
      assert (a + b)[..n] == a[..n] && (a + b)[n..] == a[n..] + b;
      Utf8Concat(a[n..], b);
    }
  }

  lemma {:induction false} AsciiIsUtf8(s: string)
    requires forall i :: 0 <= i < |s| ==> s[i] as int <= 0x7F
    ensures Utf8(s)
    decreases |s|
  {
    if s != "" { AsciiIsUtf8(s[1..]); }
  }

  lemma NoticeIsUtf8()
    ensures Utf8(TRUNCATED) && |TRUNCATED| < 100
  {
    hide Utf8;
    AsciiIsUtf8("\n[truncated=true;");
    AsciiIsUtf8(" narrow or continue");
    AsciiIsUtf8(" the read-only request]");
    Utf8Concat("\n[truncated=true;", " narrow or continue");
    Utf8Concat("\n[truncated=true;" + " narrow or continue", " the read-only request]");
  }

  lemma NoticeIsShort()
    ensures |TRUNCATED| < 100
  {
  }

  /** The bound is kept, whole characters stay whole, and at most three bytes of room are lost. */
  lemma BoundKeepsCharacters(content: string, kept: string)
    requires Bounded(content, kept) && Utf8(content)
    ensures |kept| <= MAX_BYTES && Utf8(kept)
    ensures |content| > MAX_BYTES ==> |kept| >= MAX_BYTES - 3 && kept[..|kept| - |TRUNCATED|] <= content
  {
    hide Utf8, TRUNCATED;
    NoticeIsUtf8();
    if |content| > MAX_BYTES {
      var room := MAX_BYTES - |TRUNCATED|;
      var cut :| 0 <= cut <= room && kept == content[..cut] + TRUNCATED
        && (cut == 0 || RuneStart(content[cut]))
        && forall k :: cut < k <= room ==> !RuneStart(content[k]);
      var k := LeadByteNearby(content, room);
      assert cut >= k;
      Utf8Cut(content, cut);
      Utf8Concat(content[..cut], TRUNCATED);
    }
  }

  // ---- Batches -------------------------------------------------------------------------

  /** Successes, at most one non-success, then only skips. */
  ghost predicate LiveOutcomes(outcomes: seq<ToolOutcome>) {
    forall i, j :: 0 <= i < j < |outcomes| && outcomes[i] != Succeeded ==> outcomes[j] == Skipped
  }

  class ActionBroker {
    const detector: Detector
    /** The registered tool names. */
    const tools: set<string>
    /** A digest (nothing is assumed of it), the JSON validity test and the quoting of a name, all left
        abstract. */
    const digest: string -> string
    const jsonValid: string -> bool
    const quote: string -> string

    constructor (detector: Detector, tools: set<string>, digest: string -> string, jsonValid: string -> bool,
                 quote: string -> string)
    {
      this.detector, this.tools, this.digest := detector, tools, digest;
      this.jsonValid, this.quote := jsonValid, quote;
    }

    function UnknownText(name: string): string {
      "unknown tool " + quote(name) + "; available tools are read-only"
    }

    predicate Sensitive(text: string) {
      Redact(detector.rules, text).1 > 0
    }

    /** The identity under which a call is recorded and answered. */
    function SafeId(id: CallId): CallId {
      if Sensitive(id) then REDACTED_ID + digest(id) else id
    }

    predicate BlockedCall(c: Call) {
      Sensitive(c.id) || Sensitive(c.name) || Sensitive(c.arguments.text)
    }

    function SafeCall(c: Call): Call {
      Call(SafeId(c.id),
           if Sensitive(c.name) then Redact(detector.rules, c.name).0 else c.name,
           if Sensitive(c.arguments.text) then
             RawJson(Redact(detector.rules, c.arguments.text).0, jsonValid(Redact(detector.rules, c.arguments.text).0))
           else c.arguments)
    }

    /** What may be logged of a call: of its name and its arguments exactly the text no rule matched, with one
        marker for each matched stretch between; of an ID some rule matches only its digest; and a call is
        blocked exactly when some rule finds something in one of the three. */
    lemma SafeCallExact(c: Call)
      ensures BlockedCall(c) <==>
                Detects(detector.rules, c.id) || Detects(detector.rules, c.name)
                  || Detects(detector.rules, c.arguments.text)
      ensures SafeCall(c).id == if Detects(detector.rules, c.id) then "redacted-call-" + digest(c.id) else c.id
      ensures SafeCall(c).name == Splice(c.name, Mask(detector.rules, c.name))
      ensures SafeCall(c).arguments.text == Splice(c.arguments.text, Mask(detector.rules, c.arguments.text))
      ensures SafeCall(c).arguments.wellFormed ==
                if Detects(detector.rules, c.arguments.text) then jsonValid(SafeCall(c).arguments.text)
                else c.arguments.wellFormed
      ensures !Detects(detector.rules, c.name) ==> SafeCall(c).name == c.name
      ensures !Detects(detector.rules, c.arguments.text) ==> SafeCall(c).arguments == c.arguments
    {
      hide Redact, Splice, Mask, Detects;
      var d := detector.rules;
      UntouchedText(d, c.id);
      UntouchedText(d, c.name);
      UntouchedText(d, c.arguments.text);
      RedactExact(d, c.name);
      RedactExact(d, c.arguments.text);
    }

    method ProjectCalls(calls: seq<Call>) returns (safe: seq<Call>, blocked: seq<bool>)
      ensures |safe| == |blocked| == |calls|
      ensures forall i :: 0 <= i < |calls| ==> safe[i] == SafeCall(calls[i]) && blocked[i] == BlockedCall(calls[i])
    {
      hide Redact;
      safe, blocked := [], [];
      for i := 0 to |calls|
        invariant |safe| == |blocked| == i
        invariant forall k :: 0 <= k < i ==> safe[k] == SafeCall(calls[k]) && blocked[k] == BlockedCall(calls[k])
      {
        var call := calls[i];
        var s, b := call, false;
        var _, idCount := RedactText(detector.rules, call.id);
        var name, nameCount := RedactText(detector.rules, call.name);
        var arguments, argumentCount := RedactText(detector.rules, call.arguments.text);
        if idCount > 0 {
          s, b := s.(id := REDACTED_ID + digest(call.id)), true;
        }
        if nameCount > 0 {
          s, b := s.(name := name), true;
        }
        if argumentCount > 0 {
          s, b := s.(arguments := RawJson(arguments, jsonValid(arguments))), true;
        }
        safe, blocked := safe + [s], blocked + [b];
      }
    }

    method Project(a: Answer) returns (r: Answer)
      ensures r.callId == a.callId && r.outcome == a.outcome && Projects(a.content, r.content)
    {
      hide Redact;
      var content, _ := RedactText(detector.rules, a.content);
      content := Bound(content);
      return a.(content := content);
    }

    /** The content is what projection and the bound leave of the given text. */
    ghost predicate Projects(raw: string, content: string) {
      Bounded(Redact(detector.rules, raw).0, content)
    }

    /** A projected content is at most 64 KiB long. */
    lemma ProjectionFits(raw: string, content: string)
      requires Projects(raw, content)
      ensures |content| <= 65536
    {
      hide Redact, TRUNCATED;
      NoticeIsShort();
    }

    method BlockedResult(id: CallId) returns (r: Answer)
      ensures r.callId == id && r.outcome == Blocked && Projects(BLOCKED_TEXT, r.content)
    {
      hide Redact, BLOCKED_TEXT;
      r := Project(Answer(id, Blocked, BLOCKED_TEXT));
    }

    method SkippedResult(id: CallId) returns (r: Answer)
      ensures r.callId == id && r.outcome == Skipped && Projects(SKIPPED_TEXT, r.content)
    {
      hide Redact, SKIPPED_TEXT;
      r := Project(Answer(id, Skipped, SKIPPED_TEXT));
    }

    /** What may answer a call: under its safe ID, with a projected and bounded content, blocked for
        credential material, an error for an unknown tool, cancelled before preparation, or else
        whatever the tool says. */
    ghost predicate Answers(cancelled: bool, call: Call, r: Answer) {
      && r.callId == SafeId(call.id)
      && (exists raw :: Projects(raw, r.content))
      && if BlockedCall(call) then r.outcome == Blocked && Projects(BLOCKED_TEXT, r.content)
         else if call.name !in tools then r.outcome == Errored && Projects(UnknownText(call.name), r.content)
         else cancelled ==> r.outcome == ToolOutcome.Cancelled && Projects(CANCELLED_TEXT, r.content)
    }

    /** One terminal answer for the call, whatever the tool does. */
    method Execute(cancelled: bool, call: Call) returns (r: Answer)
      ensures Answers(cancelled, call, r)
    {
      hide Redact, Bounded, BLOCKED_TEXT, ActionBroker.UnknownText, CANCELLED_TEXT, ActionBroker.Projects;
      var projected, blocked := ProjectCalls([call]);
      var safe := projected[0];
      if blocked[0] {
        r := BlockedResult(safe.id);
        return;
      }
      var result := Answer(safe.id, Errored, "");
      if safe.name !in tools {
        r := Project(result.(content := UnknownText(safe.name)));
        return;
      }
      if cancelled {
        r := Project(result.(outcome := ToolOutcome.Cancelled, content := CANCELLED_TEXT));
        return;
      }
      // Preparation and execution belong to the tool: any refusal, outcome and content.
      var refused: bool := *;
      var outcome: ToolOutcome := *;
      var content: string := *;
      if refused {
        r := Project(result.(content := content));
        return;
      }
      r := Project(result.(outcome := outcome, content := content));
    }

    ghost predicate Skips(call: Call, r: Answer) {
      r.callId == call.id && r.outcome == Skipped && Projects(SKIPPED_TEXT, r.content)
    }

    /** Provider order is kept; the first n calls succeed, the next one does not, and every later
        call is skipped without being executed.  The context may be cancelled between any two
        calls: cancelled says whether it is when a call is reached. */
    method ExecuteBatch(cancelled: nat -> bool, calls: seq<Call>) returns (results: seq<Answer>, ghost n: nat)
      ensures |results| == |calls| && n <= |calls|
      ensures forall k :: 0 <= k < |calls| && k <= n ==> Answers(cancelled(k), calls[k], results[k])
      ensures forall k :: 0 <= k < n ==> results[k].outcome == Succeeded
      ensures n < |calls| ==> results[n].outcome != Succeeded
      ensures forall k :: n < k < |calls| ==> Skips(calls[k], results[k])
      ensures LiveOutcomes(OutcomesOf(results))
    {
      hide ActionBroker.Answers, ActionBroker.Projects;
      results, n := [], 0;
      var stopped := false;
      for i := 0 to |calls|
        invariant |results| == i && n <= i
        invariant stopped <==> n < i
        invariant forall k :: 0 <= k < i && k <= n ==> Answers(cancelled(k), calls[k], results[k])
        invariant forall k :: 0 <= k < n ==> results[k].outcome == Succeeded
        invariant n < i ==> results[n].outcome != Succeeded
        invariant forall k :: n < k < i ==> Skips(calls[k], results[k])
      {
        if stopped {
          var r := SkippedResult(calls[i].id);
          results := results + [r];
        } else {
          var r := Execute(cancelled(i), calls[i]);
          results := results + [r];
          if r.outcome != Succeeded { stopped := true; } else { n := n + 1; }
        }
      }
    }
  }

  function OutcomesOf(results: seq<Answer>): seq<ToolOutcome> {
    seq(|results|, i requires 0 <= i < |results| => results[i].outcome)
  }
}
