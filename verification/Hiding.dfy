/** With the key rule in the detector, block bodies stay hidden also on lines with several blocks. */
module Hiding {
  import opened Wrappers
  import opened Projection
  import opened LinePass
  import opened Stream
  import opened KeyBlocks
  import opened Agreement

  /** What of a text lies outside its key blocks. */
  function Pieces(line: string): seq<string>
    decreases |line|
  {
    if Leftmost(BEGIN_KEY, line).None? then [line]
    else [line[..BlockOf(line).start]] + Pieces(line[BlockOf(line).end..])
  }

  /** No match reaches up to a key block of the text from outside. */
  ghost predicate Clear(d: RuleSet, line: string)
    decreases |line|
  {
    Leftmost(BEGIN_KEY, line).None? || (!TouchedLine(d, line) && Clear(d, line[BlockOf(line).end..]))
  }

  /** The pieces by themselves, with a marker for each block between them. */
  function Marked(redact: string -> string, pieces: seq<string>): string {
    if pieces == [] then ""
    else if |pieces| == 1 then redact(pieces[0])
    else redact(pieces[0]) + MARKER + Marked(redact, pieces[1..])
  }

  /** A text may be redacted in front of its first block and behind it. */
  predicate SplitsAtBlock(redact: string -> string, line: string)
    requires Leftmost(BEGIN_KEY, line).Some?
  {
    redact(line) == redact(line[..BlockOf(line).start]) + MARKER + redact(line[BlockOf(line).end..])
  }

  lemma UntouchedSplits(d: RuleSet, line: string)
    requires KeyDetector(d) && OneLine(line) && Leftmost(BEGIN_KEY, line).Some? && !TouchedLine(d, line)
    ensures SplitsAtBlock(ScannerOf(d).redact, line)
  {
    hide Redact, FindsKeys, LocalToLines, LocalToParts, TouchedLine, Leftmost, BlockOf, ScansKeys, ScannerOf,
         RedactLine;
    ScannerScans(d);
    LineIsParts(ScannerOf(d), line);
    ScannerRedacts(d, line);
    LineExactly(d, line);
  }

  /** What redaction leaves of a text without touched blocks depends on its pieces only. */
  lemma {:induction false} RedactIsMarked(d: RuleSet, line: string)
    requires KeyDetector(d) && OneLine(line) && Clear(d, line)
    ensures ScannerOf(d).redact(line) == Marked(ScannerOf(d).redact, Pieces(line)) && Pieces(line) != []
    decreases |line|
  {
    hide Redact, KeyDetector, TouchedLine, Leftmost, BlockOf, ScannerOf, MARKER;
    if Leftmost(BEGIN_KEY, line).Some? {
      var m := BlockOf(line);
      UntouchedSplits(d, line);
      RedactIsMarked(d, line[m.end..]);
      assert Pieces(line)[1..] == Pieces(line[m.end..]);
    }
  }

  // ---- One line ------------------------------------------------------------------------

  /** What lies outside the blocks of a line: in front of the first one, behind its end, and whether a
      block is left open. */
  datatype Shown = Shown(front: Option<string>, back: Option<seq<string>>, open: bool)

  function FrontOf(s: LineScanner, inKey: bool, line: string): Option<string> {
    if inKey then None
    else
      match s.begin(line)
      case None => Some(line)
      case Some(b) => Some(line[..b.start])
  }

  function ShownOf(s: LineScanner, inKey: bool, line: string): Shown {
    var rest := AfterClose(s, inKey, line);
    Shown(FrontOf(s, inKey, line), if rest.Some? then Some(Pieces(rest.value)) else None, BlockAfter(s, inKey, line))
  }

  function Front(redact: string -> string, front: Option<string>): string {
    if front.Some? then redact(front.value) else ""
  }

  /** What the redactor makes of it. */
  function Output(redact: string -> string, shown: Shown): string {
    var front := Front(redact, shown.front);
    if shown.back.Some? then front + MARKER + Marked(redact, shown.back.value)
    else if shown.open then front + MARKER
    else front
  }

  /** Behind the first end of a block, redaction leaves the pieces and a marker for each block. */
  ghost predicate MarkedBehind(s: LineScanner, inKey: bool, line: string) {
    var rest := AfterClose(s, inKey, line);
    rest.Some? ==> s.redact(rest.value) == Marked(s.redact, Pieces(rest.value))
  }

  lemma LineShows(s: LineScanner, inKey: bool, line: string)
    requires MarkedBehind(s, inKey, line) && !Reopens(s, inKey, line)
    ensures RedactLine(s, inKey, line).0 == Output(s.redact, ShownOf(s, inKey, line))
    ensures RedactLine(s, inKey, line).1 == BlockAfter(s, inKey, line)
  {
    hide Marked, Pieces, Reopens, BlockAfter, MARKER;
    LineStateExact(s, inKey, line);
    LineOutput(s, inKey, line);
  }

  /** The redactor's output in terms of what lies in front of the first block and behind its end. */
  lemma LineOutput(s: LineScanner, inKey: bool, line: string)
    ensures var front, rest := Front(s.redact, FrontOf(s, inKey, line)), AfterClose(s, inKey, line);
            RedactLine(s, inKey, line).0 ==
              if rest.Some? then front + MARKER + s.redact(rest.value)
              else if RedactLine(s, inKey, line).1 then front + MARKER
              else front
  {
    hide MARKER;
    assert "" + MARKER == MARKER;
  }

  // ---- Texts ---------------------------------------------------------------------------

  /** Two texts, as lines, with the same pieces outside private-key blocks. */
  ghost predicate SameShown(s: LineScanner, a: seq<string>, b: seq<string>) {
    && |a| == |b|
    && forall n :: 0 <= n < |a| ==> ShownOf(s, BlockState(s, a[..n]), a[n]) == ShownOf(s, BlockState(s, b[..n]), b[n])
  }

  ghost predicate AllMarked(s: LineScanner, lines: seq<string>) {
    forall n :: 0 <= n < |lines| ==> MarkedBehind(s, BlockState(s, lines[..n]), lines[n])
  }

  lemma BlockStateStep(s: LineScanner, lines: seq<string>, n: nat)
    requires n < |lines|
    ensures BlockState(s, lines[..n + 1]) == BlockAfter(s, BlockState(s, lines[..n]), lines[n])
  {
    hide BlockAfter;
    assert lines[..n + 1][..n] == lines[..n];
  }

  lemma {:induction false} SameBlocks(s: LineScanner, a: seq<string>, b: seq<string>, n: nat)
    requires SameShown(s, a, b) && n <= |a|
    ensures BlockState(s, a[..n]) == BlockState(s, b[..n])
  {
    hide BlockAfter, BlockState, Pieces;
    if n > 0 {
      BlockStateStep(s, a, n - 1);
      BlockStateStep(s, b, n - 1);
      assert ShownOf(s, BlockState(s, a[..n - 1]), a[n - 1]).open
          == ShownOf(s, BlockState(s, b[..n - 1]), b[n - 1]).open;
    } else {
      assert a[..0] == b[..0];
    }
  }

  lemma OutputShows(s: LineScanner, lines: seq<string>, n: nat)
    requires NeverReopens(s, lines) && AllMarked(s, lines) && n < |lines|
    ensures |Outputs(s, lines)| == |lines|
    ensures Outputs(s, lines)[n] == Output(s.redact, ShownOf(s, BlockState(s, lines[..n]), lines[n]))
  {
    BlocksTrackedExactly(s, lines);
    assert RedactorState(s, lines[..n]) == BlockState(s, lines[..n]);
    assert MarkedBehind(s, BlockState(s, lines[..n]), lines[n]) && !Reopens(s, BlockState(s, lines[..n]), lines[n]);
    hide RedactLine, BlockState, Output, ShownOf, Tracked, NeverReopens, AllMarked, MarkedBehind, Reopens;
    OutputAt(LinesOf(s), false, lines, n);
    assert Outputs(s, lines)[n] == RedactLine(s, RedactorState(s, lines[..n]), lines[n]).0;
    LineShows(s, BlockState(s, lines[..n]), lines[n]);
  }

  /** Bodies stay hidden on every text the redactor tracks: texts with the same pieces outside their
      blocks come out the same, line by line, also when lines hold several blocks. */
  lemma BodiesStayHidden(s: LineScanner, a: seq<string>, b: seq<string>)
    requires NeverReopens(s, a) && NeverReopens(s, b) && AllMarked(s, a) && AllMarked(s, b) && SameShown(s, a, b)
    ensures Outputs(s, a) == Outputs(s, b)
  {
    hide NeverReopens, AllMarked, Outputs, BlockState, ShownOf, Output;
    forall n | 0 <= n < |a|
      ensures |Outputs(s, a)| == |a| && |Outputs(s, b)| == |b| && Outputs(s, a)[n] == Outputs(s, b)[n]
    {
      OutputShows(s, a, n);
      OutputShows(s, b, n);
    }
    if a == [] {
      NothingOut(s, a);
      NothingOut(s, b);
    } else {
      OutputShows(s, a, 0);
      OutputShows(s, b, 0);
    }
  }

  lemma NothingOut(s: LineScanner, lines: seq<string>)
    requires lines == []
    ensures Outputs(s, lines) == []
  {
  }

  /** The program's detector: what stands behind a closed block is marked so, unless a match touches
      one of the blocks there. */
  lemma ClearIsMarked(d: RuleSet, inKey: bool, line: string)
    requires KeyDetector(d) && OneLine(line)
    requires AfterClose(ScannerOf(d), inKey, line).Some? ==> Clear(d, AfterClose(ScannerOf(d), inKey, line).value)
    ensures MarkedBehind(ScannerOf(d), inKey, line)
  {
    hide Redact, KeyDetector, Clear, Marked, Pieces, ScannerOf;
    var rest := AfterClose(ScannerOf(d), inKey, line);
    if rest.Some? {
      RestIsOneLine(ScannerOf(d), inKey, line);
      RedactIsMarked(d, rest.value);
    }
  }

  lemma RestIsOneLine(s: LineScanner, inKey: bool, line: string)
    requires OneLine(line)
    ensures AfterClose(s, inKey, line).Some? ==> OneLine(AfterClose(s, inKey, line).value)
  {
  }
}
