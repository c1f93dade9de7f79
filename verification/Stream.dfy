/** Line-by-line redaction with private-key block state, and its chunked streaming form. */
module Stream {
  import opened Wrappers
  import opened Projection
  import opened LinePass

  // ---- One line -----------------------------------------------------------------------

  /** What one line needs from the detector: its projection of a piece of text, and the leftmost
      private-key markers. */
  datatype Scanner = Scanner(
    redact: string -> string,
    begin: string -> Option<Interval>,
    end: string -> Option<Interval>)

  type LineScanner = s: Scanner | MarkersInText(s) ghost witness Scanner(t => t, _ => None, _ => None)

  ghost predicate MarkersInText(s: Scanner) {
    && (forall text :: s.begin(text).Some? ==> InText(s.begin(text).value, text))
    && (forall text :: s.end(text).Some? ==> InText(s.end(text).value, text))
  }

  function ScannerOf(d: RuleSet): LineScanner {
    hide Redact;
    Scanner(text => Redact(d, text).0, d.begin, d.end)
  }

  /** LineRedactor.Redact: the projected line and whether a private-key block stays open. */
  function RedactLine(s: LineScanner, inKey: bool, line: string): (string, bool) {
    if inKey then
      match s.end(line)
      case None => (MARKER, true)
      case Some(e) => (MARKER + s.redact(line[e.end..]), false)
    else
      match s.begin(line)
      case None => (s.redact(line), false)
      case Some(b) =>
        var prefix := s.redact(line[..b.start]);
        var rest := line[b.end..];
        match s.end(rest)
        case None => (prefix + MARKER, true)
        case Some(e) => (prefix + MARKER + s.redact(rest[e.end..]), false)
  }

  function LinesOf(s: LineScanner): LineFn {
    (inKey, line) => RedactLine(s, inKey, line)
  }

  /** The line function of a detector. */
  function LinesFor(d: RuleSet): LineFn {
    LinesOf(ScannerOf(d))
  }

  /** What no rule matched of a text, with one marker for each matched stretch. */
  function Unmatched(d: RuleSet, text: string): string {
    Splice(text, Mask(d, text))
  }

  /** A line shows what lies in front of its first block and what lies behind that block's END, and one
      marker for the part of the block on this line; in an open block the first block begins with the line,
      and without an END on the line it goes on behind it. */
  ghost predicate Shows(d: RuleSet, inKey: bool, line: string, out: string, open: bool) {
    var begin := if inKey then Some(Interval(0, 0)) else d.begin(line);
    if begin.None? then out == Unmatched(d, line) && !open
    else
      var front, rest := Unmatched(d, line[..begin.value.start]), line[begin.value.end..];
      if d.end(rest).None? then out == front + "[REDACTED:CREDENTIAL]" && open
      else out == front + "[REDACTED:CREDENTIAL]" + Unmatched(d, rest[d.end(rest).value.end..]) && !open
  }

  lemma LineShown(d: RuleSet, inKey: bool, line: string)
    ensures Shows(d, inKey, line, LinesFor(d)(inKey, line).0, LinesFor(d)(inKey, line).1)
  {
    hide Redact, Unmatched;
    RedactLeavesUnmatched(d, line);
    if inKey {
      assert line[..0] == "" && line[0..] == line;
      EmptyTextUnmatched(d);
      if d.end(line).Some? { RedactLeavesUnmatched(d, line[d.end(line).value.end..]); }
    } else if d.begin(line).Some? {
      var b := d.begin(line).value;
      var rest := line[b.end..];
      RedactLeavesUnmatched(d, line[..b.start]);
      if d.end(rest).Some? { RedactLeavesUnmatched(d, rest[d.end(rest).value.end..]); }
    }
  }

  lemma RedactLeavesUnmatched(d: RuleSet, text: string)
    ensures Redact(d, text).0 == Unmatched(d, text)
  {
    hide Redact, Splice, Mask;
    RedactExact(d, text);
  }

  lemma EmptyTextUnmatched(d: RuleSet)
    ensures Unmatched(d, "") == ""
  {
  }

  class LineRedactor {
    const detector: Detector
    var inPrivateKey: bool

    constructor (detector: Detector)
      ensures !inPrivateKey && this.detector == detector
    {
      this.detector := detector;
      inPrivateKey := false;
    }

    method RedactNext(line: string) returns (safe: string)
      modifies this
      ensures (safe, inPrivateKey) == LinesFor(detector.rules)(old(inPrivateKey), line)
      ensures Shows(detector.rules, old(inPrivateKey), line, safe, inPrivateKey)
    {
      hide Redact, Shows;
      LineShown(detector.rules, inPrivateKey, line);
      if inPrivateKey {
        var end := detector.rules.end(line);
        if end.None? { return MARKER; }
        inPrivateKey := false;
        var suffix, _ := RedactText(detector.rules, line[end.value.end..]);
        return MARKER + suffix;
      }
      var begin := detector.rules.begin(line);
      if begin.None? {
        var whole, _ := RedactText(detector.rules, line);
        return whole;
      }
      var prefix, _ := RedactText(detector.rules, line[..begin.value.start]);
      var remainder := line[begin.value.end..];
      var end := detector.rules.end(remainder);
      if end.None? {
        inPrivateKey := true;
        return prefix + MARKER;
      }
      var suffix, _ := RedactText(detector.rules, remainder[end.value.end..]);
      return prefix + MARKER + suffix;
    }
  }

  // ---- The streaming form ---------------------------------------------------------------------

  /** What the stream has let through is the left-to-right pass over everything written to it. */
  ghost predicate PassedWhole(d: RuleSet, fed: string, out: string) {
    out == Pass(LinesFor(d), false, fed)
  }

  /** Holds an unfinished line back until a newline or the end of the stream. */
  class StreamRedactor {
    const detector: Detector
    const lines: LineRedactor
    var pending: string
    /** Everything written to the stream, and everything it has let through. */
    ghost var fed: string
    ghost var emitted: string

    ghost predicate Valid()
      reads this, lines
    {
      hide LinesFor;
      && lines.detector == detector
      && emitted == PassLines(LinesFor(detector.rules), false, fed)
      && lines.inPrivateKey == KeyAfter(LinesFor(detector.rules), false, fed)
      && pending == Tail(fed)
    }

    constructor (detector: Detector)
      ensures fresh(lines) && this.detector == detector && fed == "" && emitted == ""
      ensures Valid()
    {
      hide LinesFor;
      this.detector := detector;
      lines := new LineRedactor(detector);
      pending := "";
      fed, emitted := "", "";
      TailUnfinished(LinesFor(detector.rules), false, "");
    }

    /** Emits the complete lines and holds back the rest: what has been let through is always the
        left-to-right pass over the complete lines of what was written. */
    method Write(chunk: string) returns (out: string)
      requires Valid()
      modifies this, lines
      ensures fed == old(fed) + chunk && emitted == old(emitted) + out
      ensures Valid()
    {
      hide LinesFor;
      ghost var f, key := LinesFor(detector.rules), lines.inPrivateKey;
      PassResumes(f, fed, chunk);
      fed := fed + chunk;
      pending := pending + chunk;
      var cut := LastNewline(pending);
      if cut < 0 {
        TailUnfinished(f, key, pending);
        return "";
      }
      ghost var text := pending;
      var prefix := pending[..cut + 1];
      pending := pending[cut + 1..];
      assert text == prefix + pending;
      PassSplits(f, key, prefix, pending);
      TailUnfinished(f, KeyAfter(f, key, prefix), pending);
      out := WriteLines(prefix);
      emitted := emitted + out;
    }

    /** The lines of a text that ends with a newline. */
    method WriteLines(text: string) returns (out: string)
      requires lines.detector == detector
      requires text != "" && text[|text| - 1] == '\n'
      modifies lines
      ensures out == PassLines(LinesFor(detector.rules), old(lines.inPrivateKey), text)
      ensures lines.inPrivateKey == KeyAfter(LinesFor(detector.rules), old(lines.inPrivateKey), text)
    {
      hide LinesFor;
      out := "";
      var rest := text;
      ghost var f, key := LinesFor(detector.rules), lines.inPrivateKey;
      while rest != ""
        invariant rest == "" || rest[|rest| - 1] == '\n'
        invariant out + PassLines(f, lines.inPrivateKey, rest) == PassLines(f, key, text)
        invariant KeyAfter(f, lines.inPrivateKey, rest) == KeyAfter(f, key, text)
        decreases |rest|
      {
        LineEndExact(rest);
        var n := LineEnd(rest);
        EndsWithin(rest);
        ghost var more := PassLines(f, f(lines.inPrivateKey, rest[..n]).1, rest[n + 1..]);
        ghost var was := lines.inPrivateKey;
        var safe := lines.RedactNext(rest[..n]);
        assert (safe, lines.inPrivateKey) == f(was, rest[..n]);
        ConcatAssoc(out, safe + "\n", more);
        ConcatAssoc(out, safe, "\n");
        out := out + safe + "\n";
        rest := rest[n + 1..];
      }
    }

    /** Lets the held-back line through: the stream has now emitted the whole pass. */
    method Close() returns (out: string)
      requires Valid()
      modifies this, lines
      ensures fed == old(fed) && emitted == old(emitted) + out
      ensures PassedWhole(detector.rules, fed, emitted)
    {
      hide LinesFor;
      out := lines.RedactNext(pending);
      pending := "";
      emitted := emitted + out;
    }
  }

  method LastNewline(text: string) returns (cut: int)
    ensures -1 <= cut < |text|
    ensures cut >= 0 ==> text[cut] == '\n'
    ensures OneLine(text[cut + 1..])
  {
    cut := |text| - 1;
    while cut >= 0 && text[cut] != '\n'
      invariant -1 <= cut < |text|
      invariant OneLine(text[cut + 1..])
    {
      cut := cut - 1;
    }
  }

  lemma {:induction false} SpliceOneLine(text: string, mask: seq<bool>)
    requires |mask| == |text| && OneLine(text)
    ensures OneLine(Splice(text, mask))
  {
    if text != "" { SpliceOneLine(text[..|text| - 1], mask[..|text| - 1]); }
  }

  lemma RedactOneLine(d: RuleSet, text: string)
    requires OneLine(text)
    ensures OneLine(Redact(d, text).0)
  {
    RedactExact(d, text);
    SpliceOneLine(text, Mask(d, text));
  }

  ghost predicate StaysOnLine(s: LineScanner) {
    forall text :: OneLine(text) ==> OneLine(s.redact(text))
  }

  lemma RedactLineOneLine(s: LineScanner, inKey: bool, line: string)
    requires StaysOnLine(s) && OneLine(line)
    ensures OneLine(RedactLine(s, inKey, line).0)
  {
    if !inKey && s.begin(line).Some? {
      var b := s.begin(line).value;
      assert OneLine(line[..b.start]) && OneLine(line[b.end..]);
    }
  }

  /** The projected stream has as many newlines as the raw one. */
  lemma ProjectionKeepsNewlines(d: RuleSet, inKey: bool, text: string)
    ensures Newlines(Pass(LinesFor(d), inKey, text)) == Newlines(text)
  {
    hide Redact;
    var s := ScannerOf(d);
    forall t | OneLine(t) ensures OneLine(s.redact(t)) { RedactOneLine(d, t); }
    forall key, line | OneLine(line) ensures OneLine(LinesOf(s)(key, line).0) {
      RedactLineOneLine(s, key, line);
    }
    PassKeepsNewlines(LinesOf(s), inKey, text);
  }

  // ---- Private-key blocks ------------------------------------------------------------------

  /** Whether a block is open after a line when its markers are read one by one, alternating. */
  function BlockAfter(s: LineScanner, inKey: bool, line: string): bool
    decreases |line|
  {
    var m := if inKey then s.end(line) else s.begin(line);
    if m.None? then inKey else BlockAfter(s, !inKey, line[m.value.end..])
  }

  /** What follows the first END that closes a block on the line. */
  function AfterClose(s: LineScanner, inKey: bool, line: string): Option<string> {
    if inKey then
      match s.end(line)
      case None => None
      case Some(e) => Some(line[e.end..])
    else
      match s.begin(line)
      case None => None
      case Some(b) =>
        match s.end(line[b.end..])
        case None => None
        case Some(e) => Some(line[b.end..][e.end..])
  }

  predicate NoBeginAfterClose(s: LineScanner, inKey: bool, line: string) {
    var rest := AfterClose(s, inKey, line);
    rest.Some? ==> s.begin(rest.value).None?
  }

  /** The state after each line, of the redactor and of the marker-by-marker reading. */
  function RedactorState(s: LineScanner, lines: seq<string>): bool {
    StateAfter(LinesOf(s), false, lines)
  }

  function BlockState(s: LineScanner, lines: seq<string>): bool {
    if lines == [] then false else BlockAfter(s, BlockState(s, lines[..|lines| - 1]), lines[|lines| - 1])
  }

  /** After every line the redactor knows whether a block is open. */
  ghost predicate Tracked(s: LineScanner, lines: seq<string>) {
    forall n :: 0 <= n <= |lines| ==> RedactorState(s, lines[..n]) == BlockState(s, lines[..n])
  }

  /** The line leaves a block open that began after an END closed one on the same line. */
  predicate Reopens(s: LineScanner, inKey: bool, line: string) {
    var rest := AfterClose(s, inKey, line);
    rest.Some? && BlockAfter(s, false, rest.value)
  }

  ghost predicate NeverReopens(s: LineScanner, lines: seq<string>) {
    forall n :: 0 <= n < |lines| ==> !Reopens(s, BlockState(s, lines[..n]), lines[n])
  }

  lemma TrackedLast(s: LineScanner, lines: seq<string>)
    requires lines != []
    ensures Tracked(s, lines) <==> Tracked(s, lines[..|lines| - 1]) && RedactorState(s, lines) == BlockState(s, lines)
  {
    hide RedactorState, BlockState;
    var k := |lines| - 1;
    assert lines[..|lines|] == lines;
    assert forall n :: 0 <= n <= k ==> lines[..k][..n] == lines[..n];
  }

  lemma NeverReopensLast(s: LineScanner, lines: seq<string>)
    requires lines != []
    ensures var k := |lines| - 1;
            NeverReopens(s, lines) <==> NeverReopens(s, lines[..k]) && !Reopens(s, BlockState(s, lines[..k]), lines[k])
  {
    hide BlockState, Reopens;
    var k := |lines| - 1;
    assert forall n :: 0 <= n <= k ==> lines[..k][..n] == lines[..n];
  }

  /** The redactor tracks private-key blocks correctly over a text exactly when no line reopens one. */
  lemma {:induction false} BlocksTrackedExactly(s: LineScanner, lines: seq<string>)
    ensures Tracked(s, lines) <==> NeverReopens(s, lines)
  {
    if lines != [] {
      var k := |lines| - 1;
      TrackedLast(s, lines);
      NeverReopensLast(s, lines);
      UnfoldLast(s, lines);
      if Tracked(s, lines[..k]) { TrackedAtEnd(s, lines[..k]); }
      LineStateExact(s, BlockState(s, lines[..k]), lines[k]);
      hide RedactLine, BlockAfter, RedactorState, BlockState, Outputs, Tracked, NeverReopens, Reopens;
      BlocksTrackedExactly(s, lines[..k]);
    }
  }

  lemma TrackedAtEnd(s: LineScanner, lines: seq<string>)
    requires Tracked(s, lines)
    ensures RedactorState(s, lines) == BlockState(s, lines)
  {
    assert lines[..|lines|] == lines;
  }

  lemma LineStateExact(s: LineScanner, inKey: bool, line: string)
    ensures RedactLine(s, inKey, line).1 == BlockAfter(s, inKey, line) <==> !Reopens(s, inKey, line)
  {
    if !inKey && s.begin(line).Some? {
      var rest := line[s.begin(line).value.end..];
      assert BlockAfter(s, inKey, line) == BlockAfter(s, true, rest);
    }
  }

  /** The failing family: a block reopened behind a closing END is not tracked, and its next line
      goes out as ordinary text. */
  lemma ReopenedBodyIsEmitted(s: LineScanner, inKey: bool, line: string, body: string)
    requires Reopens(s, inKey, line)
    requires s.begin(body).None? && s.end(body).None?
    ensures BlockAfter(s, inKey, line) && BlockAfter(s, BlockAfter(s, inKey, line), body)
    ensures RedactLine(s, RedactLine(s, inKey, line).1, body) == (s.redact(body), false)
  {
    LineStateExact(s, inKey, line);
    if !inKey && s.begin(line).Some? {
      var rest := line[s.begin(line).value.end..];
      assert BlockAfter(s, false, line) == BlockAfter(s, true, rest);
    }
  }

  /** The parts of a line outside every block. */
  datatype View =
    | Hidden
    | Plain(line: string)
    | Before(prefix: string)
    | After(suffix: string)
    | Around(prefix: string, suffix: string)

  function Outside(s: LineScanner, inKey: bool, line: string): View {
    var rest := AfterClose(s, inKey, line);
    if inKey then
      if rest.None? then Hidden else After(rest.value)
    else
      match s.begin(line)
      case None => Plain(line)
      case Some(b) => if rest.None? then Before(line[..b.start]) else Around(line[..b.start], rest.value)
  }

  /** What the redactor lets through of each line. */
  function Outputs(s: LineScanner, lines: seq<string>): seq<string> {
    OutputsOf(LinesOf(s), false, lines)
  }

  ghost predicate Trackable(s: LineScanner, lines: seq<string>) {
    forall n :: 0 <= n < |lines| ==> NoBeginAfterClose(s, BlockState(s, lines[..n]), lines[n])
  }

  /** Inside a line the output depends on what lies outside every block only. */
  lemma LineOutputOutside(s: LineScanner, inKey: bool, a: string, b: string)
    requires NoBeginAfterClose(s, inKey, a) && NoBeginAfterClose(s, inKey, b)
    requires Outside(s, inKey, a) == Outside(s, inKey, b)
    ensures RedactLine(s, inKey, a) == RedactLine(s, inKey, b)
    ensures RedactLine(s, inKey, a).1 == BlockAfter(s, inKey, a)
    ensures RedactLine(s, inKey, b).1 == BlockAfter(s, inKey, b)
  {
    LineStateExact(s, inKey, a);
    LineStateExact(s, inKey, b);
  }

  lemma UnfoldLast(s: LineScanner, lines: seq<string>)
    requires lines != []
    ensures var k := |lines| - 1;
            && Outputs(s, lines) == Outputs(s, lines[..k]) + [RedactLine(s, RedactorState(s, lines[..k]), lines[k]).0]
            && RedactorState(s, lines) == RedactLine(s, RedactorState(s, lines[..k]), lines[k]).1
            && BlockState(s, lines) == BlockAfter(s, BlockState(s, lines[..k]), lines[k])
  {
    hide RedactLine, BlockAfter;
  }

  /** Two texts with the same lines outside private-key blocks. */
  ghost predicate SameOutside(s: LineScanner, a: seq<string>, b: seq<string>) {
    && |a| == |b|
    && forall n :: 0 <= n < |a| ==> Outside(s, BlockState(s, a[..n]), a[n]) == Outside(s, BlockState(s, b[..n]), b[n])
  }

  lemma TrackableLast(s: LineScanner, lines: seq<string>)
    requires lines != [] && Trackable(s, lines)
    ensures var k := |lines| - 1;
            Trackable(s, lines[..k]) && NoBeginAfterClose(s, BlockState(s, lines[..k]), lines[k])
  {
    hide BlockState, NoBeginAfterClose;
    assert forall n :: 0 <= n < |lines| - 1 ==> lines[..|lines| - 1][..n] == lines[..n];
  }

  lemma SameOutsideLast(s: LineScanner, a: seq<string>, b: seq<string>)
    requires a != [] && SameOutside(s, a, b)
    ensures var k := |a| - 1;
            && SameOutside(s, a[..k], b[..k])
            && Outside(s, BlockState(s, a[..k]), a[k]) == Outside(s, BlockState(s, b[..k]), b[k])
  {
    hide BlockState, Outside;
    assert forall n :: 0 <= n < |a| - 1 ==> a[..|a| - 1][..n] == a[..n] && b[..|a| - 1][..n] == b[..n];
  }

  /** Block bodies are never emitted: two texts that differ only inside private-key blocks come out
      the same, line by line, provided no line holds a BEGIN after an END that closes a block. */
  lemma {:induction false} BodiesNeverEmitted(s: LineScanner, a: seq<string>, b: seq<string>)
    requires Trackable(s, a) && Trackable(s, b) && SameOutside(s, a, b)
    ensures Outputs(s, a) == Outputs(s, b)
    ensures RedactorState(s, a) == BlockState(s, a) == BlockState(s, b) == RedactorState(s, b)
  {
    hide RedactLine, BlockAfter, Outside, NoBeginAfterClose, Trackable;
    if a != [] {
      var k := |a| - 1;
      TrackableLast(s, a);
      TrackableLast(s, b);
      SameOutsideLast(s, a, b);
      UnfoldLast(s, a);
      UnfoldLast(s, b);
      hide RedactorState, BlockState, Outputs, SameOutside;
      BodiesNeverEmitted(s, a[..k], b[..k]);
      LineOutputOutside(s, BlockState(s, a[..k]), a[k], b[k]);
    }
  }

  /** Two texts, as lines, that differ only inside private-key blocks. */
  ghost predicate DifferInBlocks(s: LineScanner, a: seq<string>, b: seq<string>) {
    Trackable(s, a) && Trackable(s, b) && SameOutside(s, a, b)
  }

  /** So the stream shows nothing of a block's body: texts that differ only inside private-key blocks
      leave the closed redactor the same, ... */
  lemma PassHidesBodies(d: RuleSet, a: string, b: string)
    requires DifferInBlocks(ScannerOf(d), SplitLines(a), SplitLines(b))
    ensures Pass(LinesFor(d), false, a) == Pass(LinesFor(d), false, b)
    ensures forall out :: PassedWhole(d, a, out) <==> PassedWhole(d, b, out)
  {
    hide ScannerOf, Trackable, SameOutside, LinesOf, Pass, JoinLines, SplitLines, OutputsOf, StateAfter;
    PassIsFold(LinesFor(d), false, a);
    PassIsFold(LinesFor(d), false, b);
    BodiesNeverEmitted(ScannerOf(d), SplitLines(a), SplitLines(b));
  }

  /** ... in whatever chunks they arrive. */
  lemma StreamHidesBodies(d: RuleSet, a: seq<string>, b: seq<string>)
    requires DifferInBlocks(ScannerOf(d), SplitLines(Concat(a)), SplitLines(Concat(b)))
    ensures Streamed(LinesFor(d), false, "", a) == Streamed(LinesFor(d), false, "", b)
  {
    hide LinesFor, ScannerOf, DifferInBlocks, Pass, Streamed, SplitLines, PassedWhole;
    StreamedIsPass(LinesFor(d), a);
    StreamedIsPass(LinesFor(d), b);
    PassHidesBodies(d, Concat(a), Concat(b));
  }

  lemma StreamedIsPass(f: LineFn, chunks: seq<string>)
    ensures Streamed(f, false, "", chunks) == Pass(f, false, Concat(chunks))
  {
    ChunkingIrrelevant(f, false, "", chunks);
    assert "" + Concat(chunks) == Concat(chunks);
  }

  // ---- Agreement with the whole-text projection ---------------------------------------------

  /** Rules that never look across a newline, on texts without a private-key BEGIN marker; and a
      marker that itself never spans lines. */
  ghost predicate LineLocal(d: RuleSet) {
    && (forall a, b :: d.begin(a + "\n" + b).None? ==>
          d.begin(a).None? && d.begin(b).None? && Mask(d, a + "\n" + b) == Mask(d, a) + [false] + Mask(d, b))
  }

  lemma SpliceConcat(a: string, ma: seq<bool>, b: string, mb: seq<bool>)
    requires |a| == |ma| && |b| == |mb|
    ensures Splice(a + "\n" + b, ma + [false] + mb) == Splice(a, ma) + "\n" + Splice(b, mb)
  {
    hide Splice, Stretches;
    SpliceCut(a, ma, "\n", [false]);
    SpliceCut(a + "\n", ma + [false], b, mb);
    UnmatchedKept("\n", [false]);
  }

  lemma RedactLines(d: RuleSet, a: string, b: string)
    requires LineLocal(d) && d.begin(a + "\n" + b).None?
    ensures Redact(d, a + "\n" + b).0 == Redact(d, a).0 + "\n" + Redact(d, b).0
  {
    RedactExact(d, a + "\n" + b);
    RedactExact(d, a);
    RedactExact(d, b);
    SpliceConcat(a, Mask(d, a), b, Mask(d, b));
  }

  /** A line function that, on the lines of certain texts, keeps no state and agrees with a
      whole-text function which distributes over newlines. */
  lemma {:induction false} PassDistributes(f: LineFn, ok: string -> bool, whole: string -> string, text: string)
    requires ok(text)
    requires forall t :: ok(t) ==> f(false, t) == (whole(t), false)
    requires forall a, b :: ok(a + "\n" + b) ==> ok(a) && ok(b) && whole(a + "\n" + b) == whole(a) + "\n" + whole(b)
    ensures Pass(f, false, text) == whole(text)
    decreases |text|
  {
    LineEndExact(text);
    var n := LineEnd(text);
    if n < |text| {
      var a, b := text[..n], text[n + 1..];
      assert text == a + "\n" + b;
      PassDistributes(f, ok, whole, b);
      FirstLine(f, false, a, b);
      ConcatAssoc(whole(a) + "\n", PassLines(f, false, b), f(KeyAfter(f, false, b), Tail(b)).0);
    } else {
      assert text[..n] == text;
      TailUnfinished(f, false, text);
    }
  }

  /** The fast streaming form refines the simple one: with line-local rules and no private-key
      marker in sight, the pass over the lines is the projection of the whole text. */
  lemma PassIsWholeText(d: RuleSet, text: string)
    requires LineLocal(d) && d.begin(text).None?
    ensures Pass(LinesFor(d), false, text) == Redact(d, text).0
  {
    hide Redact;
    var s := ScannerOf(d);
    forall a, b | d.begin(a + "\n" + b).None?
      ensures d.begin(a).None? && d.begin(b).None?
      ensures s.redact(a + "\n" + b) == s.redact(a) + "\n" + s.redact(b)
    {
      RedactLines(d, a, b);
    }
    PassDistributes(LinesOf(s), t => s.begin(t).None?, s.redact, text);
  }

  /** The engine's invariant check: whatever chunks the accepted attempt arrived in, the streamed
      text is the projected response. */
  lemma StreamAgreesWithProjection(d: RuleSet, chunks: seq<string>)
    requires LineLocal(d) && d.begin(Concat(chunks)).None?
    ensures Streamed(LinesFor(d), false, "", chunks) == Redact(d, Concat(chunks)).0
  {
    hide Redact;
    StreamedIsPass(LinesFor(d), chunks);
    PassIsWholeText(d, Concat(chunks));
  }

  // ---- Disagreement with it -------------------------------------------------------------------

  /** A match reaches over the end of a line. */
  ghost predicate CoversNewline(d: RuleSet, text: string) {
    exists p :: 0 <= p < |text| && text[p] == '\n' && Mask(d, text)[p]
  }

  /** Redaction keeps the number of newlines exactly when no match covers one. */
  lemma {:induction false} SpliceNewlines(text: string, mask: seq<bool>)
    requires |mask| == |text|
    ensures Newlines(Splice(text, mask)) <= Newlines(text)
    ensures Newlines(Splice(text, mask)) == Newlines(text) <==>
              forall p :: 0 <= p < |text| && text[p] == '\n' ==> !mask[p]
  {
    hide Splice;
    if text == "" {
      NothingSplicedAway(mask);
    } else {
      var n := |text| - 1;
      SpliceNewlines(text[..n], mask[..n]);
      LastNewlineKept(text, mask);
      assert forall p :: 0 <= p < n ==> text[..n][p] == text[p] && mask[..n][p] == mask[p];
    }
  }

  lemma NothingSplicedAway(mask: seq<bool>)
    requires mask == []
    ensures Splice("", mask) == ""
  {
  }

  lemma LastNewlineKept(text: string, mask: seq<bool>)
    requires |mask| == |text| && text != ""
    ensures var n := |text| - 1;
            Newlines(Splice(text, mask)) ==
              Newlines(Splice(text[..n], mask[..n])) + if text[n] == '\n' && !mask[n] then 1 else 0
  {
    hide Splice, LastPiece, Newlines;
    SpliceLast(text, mask);
    NewlinesConcat(Splice(text[..|text| - 1], mask[..|text| - 1]), LastPiece(text, mask));
    LastPieceNewlines(text, mask);
  }

  lemma LastPieceNewlines(text: string, mask: seq<bool>)
    requires |mask| == |text| && text != ""
    ensures Newlines(LastPiece(text, mask)) == if text[|text| - 1] == '\n' && !mask[|text| - 1] then 1 else 0
  {
    hide Newlines, MARKER;
    ShortNewlines(text[|text| - 1]);
    MarkerNewlines();
  }

  lemma ShortNewlines(c: char)
    ensures Newlines([c]) == (if c == '\n' then 1 else 0) && Newlines("") == 0
  {
    assert [c][..0] == "";
  }

  lemma MarkerNewlines()
    ensures Newlines(MARKER) == 0
  {
    hide Newlines;
    OneLineNoNewlines(MARKER);
  }

  /** So the engine's invariant check fails every response in which a match reaches over a line's
      end: its stream has all the newlines, its projection has not. */
  lemma CoveredNewlineDisagrees(d: RuleSet, text: string)
    requires CoversNewline(d, text)
    ensures Pass(LinesFor(d), false, text) != Redact(d, text).0
    ensures Pass(LinesFor(d), false, text) != ""
  {
    hide Redact, CoversNewline, LinesFor, Pass, Newlines;
    LosesNewlines(d, text);
    ProjectionKeepsNewlines(d, false, text);
    MoreNewlines(Pass(LinesFor(d), false, text), Redact(d, text).0);
  }

  lemma MoreNewlines(a: string, b: string)
    requires Newlines(a) > Newlines(b)
    ensures a != b && a != ""
  {
  }

  lemma LosesNewlines(d: RuleSet, text: string)
    requires CoversNewline(d, text)
    ensures Newlines(Redact(d, text).0) < Newlines(text)
  {
    RedactExact(d, text);
    hide Redact, Splice, Newlines;
    SpliceNewlines(text, Mask(d, text));
  }
}
