/** A left-to-right pass over the lines of a text by a line function that carries one bit of
    state, and its chunked form. */
module LinePass {
  /** From the state and a line to the projected line and the next state. */
  type LineFn = (bool, string) -> (string, bool)

  // ---- A whole text, left to right ---------------------------------------------------------

  /** Position of the first newline, or the length of the text. */
  function LineEnd(text: string): (n: nat)
    ensures n <= |text|
  {
    if text == "" || text[0] == '\n' then 0 else 1 + LineEnd(text[1..])
  }

  lemma {:induction false} LineEndExact(text: string)
    ensures OneLine(text[..LineEnd(text)])
    ensures LineEnd(text) < |text| ==> text[LineEnd(text)] == '\n'
  {
    if text != "" && text[0] != '\n' {
      LineEndExact(text[1..]);
      assert text[..LineEnd(text)] == [text[0]] + text[1..][..LineEnd(text[1..])];
    }
  }

  lemma {:induction false} EndsWithin(text: string)
    requires text != "" && text[|text| - 1] == '\n'
    ensures LineEnd(text) < |text|
  {
    if text[0] != '\n' { EndsWithin(text[1..]); }
  }

  predicate OneLine(text: string) {
    forall i :: 0 <= i < |text| ==> text[i] != '\n'
  }

  /** One pass over the complete lines of a text: the output. */
  function PassLines(f: LineFn, inKey: bool, text: string): string
    decreases |text|
  {
    var n := LineEnd(text);
    if n == |text| then ""
    else f(inKey, text[..n]).0 + "\n" + PassLines(f, f(inKey, text[..n]).1, text[n + 1..])
  }

  /** ... and the state after it. */
  function KeyAfter(f: LineFn, inKey: bool, text: string): bool
    decreases |text|
  {
    var n := LineEnd(text);
    if n == |text| then inKey else KeyAfter(f, f(inKey, text[..n]).1, text[n + 1..])
  }

  /** What follows the last newline. */
  function Tail(text: string): string
    decreases |text|
  {
    var n := LineEnd(text);
    if n == |text| then text else Tail(text[n + 1..])
  }

  lemma {:induction false} TailExact(text: string) returns (done: string)
    ensures text == done + Tail(text) && OneLine(Tail(text))
    ensures done == "" || done[|done| - 1] == '\n'
    decreases |text|
  {
    LineEndExact(text);
    var n := LineEnd(text);
    if n == |text| {
      done := "";
      assert text[..n] == text;
    } else {
      var rest := text[n + 1..];
      assert Tail(text) == Tail(rest);
      hide Tail, OneLine, LineEnd;
      var more := TailExact(rest);
      done := text[..n + 1] + more;
      FirstLineThen(text, n, more, Tail(rest));
    }
  }

  lemma FirstLineThen(text: string, n: nat, more: string, tail: string)
    requires n < |text| && text[n] == '\n' && text[n + 1..] == more + tail
    requires more == "" || more[|more| - 1] == '\n'
    ensures var done := text[..n + 1] + more;
            text == done + tail && done != "" && done[|done| - 1] == '\n'
  {
    assert text == text[..n + 1] + text[n + 1..];
  }

  /** The whole pass: every complete line, then the unfinished one. */
  function Pass(f: LineFn, inKey: bool, text: string): string {
    PassLines(f, inKey, text) + f(KeyAfter(f, inKey, text), Tail(text)).0
  }

  lemma ConcatAssoc(a: string, b: string, c: string)
    ensures a + (b + c) == (a + b) + c
  {
  }

  lemma {:induction false} LineEndIs(text: string, n: nat)
    requires n <= |text| && OneLine(text[..n])
    requires n < |text| ==> text[n] == '\n'
    ensures LineEnd(text) == n
  {
    if n > 0 {
      assert text[..n][0] == text[0];
      assert text[1..][..n - 1] == text[..n][1..];
      LineEndIs(text[1..], n - 1);
    }
  }

  /** The first line of a text that has a complete one. */
  lemma FirstLine(f: LineFn, inKey: bool, line: string, rest: string)
    requires OneLine(line)
    ensures var text := line + "\n" + rest;
            && PassLines(f, inKey, text) == f(inKey, line).0 + "\n" + PassLines(f, f(inKey, line).1, rest)
            && KeyAfter(f, inKey, text) == KeyAfter(f, f(inKey, line).1, rest)
            && Tail(text) == Tail(rest)
  {
    var text := line + "\n" + rest;
    assert text[..|line|] == line;
    LineEndIs(text, |line|);
    assert text[|line| + 1..] == rest;
  }

  /** Complete lines can be processed ahead of what follows them. */
  lemma {:induction false} PassSplits(f: LineFn, inKey: bool, a: string, b: string)
    requires a == "" || a[|a| - 1] == '\n'
    ensures PassLines(f, inKey, a + b) == PassLines(f, inKey, a) + PassLines(f, KeyAfter(f, inKey, a), b)
    ensures KeyAfter(f, inKey, a + b) == KeyAfter(f, KeyAfter(f, inKey, a), b)
    ensures Tail(a + b) == Tail(b)
    decreases |a|
  {
    if a == "" {
      assert a + b == b;
    } else {
      LineEndExact(a);
      EndsWithin(a);
      var n := LineEnd(a);
      var line, more := a[..n], a[n + 1..];
      assert a == line + "\n" + more;
      assert a + b == line + "\n" + (more + b);
      assert more != "" ==> more[|more| - 1] == a[|a| - 1];
      FirstLine(f, inKey, line, more);
      FirstLine(f, inKey, line, more + b);
      PassSplits(f, f(inKey, line).1, more, b);
      var p, q := PassLines(f, f(inKey, line).1, more), PassLines(f, KeyAfter(f, inKey, a), b);
      ConcatAssoc(f(inKey, line).0 + "\n", p, q);
    }
  }

  lemma TailUnfinished(f: LineFn, inKey: bool, text: string)
    requires OneLine(text)
    ensures PassLines(f, inKey, text) == "" && KeyAfter(f, inKey, text) == inKey && Tail(text) == text
  {
    assert text[..|text|] == text;
    LineEndIs(text, |text|);
  }

  /** A text cut before its unfinished line. */
  lemma CutAtTail(f: LineFn, inKey: bool, text: string) returns (done: string)
    ensures text == done + Tail(text)
    ensures done == "" || done[|done| - 1] == '\n'
    ensures PassLines(f, inKey, text) == PassLines(f, inKey, done)
    ensures KeyAfter(f, inKey, text) == KeyAfter(f, inKey, done)
  {
    done := TailExact(text);
    PassSplits(f, inKey, done, Tail(text));
    TailUnfinished(f, KeyAfter(f, inKey, done), Tail(text));
  }

  /** Where a pass left off, it resumes. */
  lemma PassResumes(f: LineFn, text: string, chunk: string)
    ensures var key, t := KeyAfter(f, false, text), Tail(text);
            && PassLines(f, false, text + chunk) == PassLines(f, false, text) + PassLines(f, key, t + chunk)
            && KeyAfter(f, false, text + chunk) == KeyAfter(f, key, t + chunk)
            && Tail(text + chunk) == Tail(t + chunk)
  {
    var done := CutAtTail(f, false, text);
    ConcatAssoc(done, Tail(text), chunk);
    PassSplits(f, false, done, Tail(text) + chunk);
  }

  // ---- The pass, line by line ----------------------------------------------------------------

  /** The lines of a text: one more than it has newlines. */
  function SplitLines(text: string): seq<string>
    decreases |text|
  {
    var n := LineEnd(text);
    if n == |text| then [text] else [text[..n]] + SplitLines(text[n + 1..])
  }

  function JoinLines(lines: seq<string>): string {
    if lines == [] then ""
    else if |lines| == 1 then lines[0]
    else lines[0] + "\n" + JoinLines(lines[1..])
  }

  /** The state after the lines ... */
  function StateAfter(f: LineFn, inKey: bool, lines: seq<string>): bool {
    if lines == [] then inKey
    else f(StateAfter(f, inKey, lines[..|lines| - 1]), lines[|lines| - 1]).1
  }

  /** ... and what becomes of each of them. */
  function OutputsOf(f: LineFn, inKey: bool, lines: seq<string>): seq<string> {
    if lines == [] then []
    else
      var k := |lines| - 1;
      OutputsOf(f, inKey, lines[..k]) + [f(StateAfter(f, inKey, lines[..k]), lines[k]).0]
  }

  lemma {:induction false} OutputAt(f: LineFn, inKey: bool, lines: seq<string>, k: nat)
    requires k < |lines|
    ensures |OutputsOf(f, inKey, lines)| == |lines|
    ensures OutputsOf(f, inKey, lines)[k] == f(StateAfter(f, inKey, lines[..k]), lines[k]).0
  {
    var init := lines[..|lines| - 1];
    if init != [] { OutputAt(f, inKey, init, if k < |init| then k else 0); }
    if k < |init| { assert init[..k] == lines[..k]; }
  }

  /** The folds, taken from the front. */
  lemma {:induction false} FirstOfFold(f: LineFn, inKey: bool, line: string, rest: seq<string>)
    ensures StateAfter(f, inKey, [line] + rest) == StateAfter(f, f(inKey, line).1, rest)
    ensures OutputsOf(f, inKey, [line] + rest) == [f(inKey, line).0] + OutputsOf(f, f(inKey, line).1, rest)
    decreases |rest|
  {
    var all := [line] + rest;
    if rest == [] {
      assert all == [line] && all[..0] == [];
      assert StateAfter(f, inKey, all[..0]) == inKey && OutputsOf(f, inKey, all[..0]) == [];
    } else {
      var k := |rest| - 1;
      FirstOfFold(f, inKey, line, rest[..k]);
      assert all[..k + 1] == [line] + rest[..k] && all[k + 1] == rest[k];
    }
  }

  lemma JoinFirst(line: string, rest: seq<string>)
    requires rest != []
    ensures JoinLines([line] + rest) == line + "\n" + JoinLines(rest)
  {
    assert ([line] + rest)[1..] == rest;
  }

  /** The pass over a text is the line function folded over its lines. */
  lemma {:induction false} PassIsFold(f: LineFn, inKey: bool, text: string)
    ensures Pass(f, inKey, text) == JoinLines(OutputsOf(f, inKey, SplitLines(text)))
    decreases |text|
  {
    LineEndExact(text);
    var n := LineEnd(text);
    if n == |text| {
      assert text[..n] == text;
      TailUnfinished(f, inKey, text);
      FirstOfFold(f, inKey, text, []);
      assert [text] + [] == [text];
    } else {
      var line, rest := text[..n], text[n + 1..];
      assert text == line + "\n" + rest;
      FirstLine(f, inKey, line, rest);
      var key := f(inKey, line).1;
      PassIsFold(f, key, rest);
      FirstOfFold(f, inKey, line, SplitLines(rest));
      var out := OutputsOf(f, key, SplitLines(rest));
      OutputAt(f, key, SplitLines(rest), 0);
      JoinFirst(f(inKey, line).0, out);
      ConcatAssoc(f(inKey, line).0 + "\n", PassLines(f, key, rest), f(KeyAfter(f, key, rest), Tail(rest)).0);
    }
  }

  // ---- Chunking does not matter -------------------------------------------------------------

  /** All outputs of writing the chunks one after another and then closing. */
  function Streamed(f: LineFn, inKey: bool, pending: string, chunks: seq<string>): string
    decreases |chunks|
  {
    if chunks == [] then f(inKey, pending).0
    else
      var text := pending + chunks[0];
      PassLines(f, inKey, text) + Streamed(f, KeyAfter(f, inKey, text), Tail(text), chunks[1..])
  }

  function Concat(chunks: seq<string>): string {
    if chunks == [] then "" else chunks[0] + Concat(chunks[1..])
  }

  lemma {:induction false} ConcatAppend(chunks: seq<string>, last: string)
    ensures Concat(chunks + [last]) == Concat(chunks) + last
    decreases |chunks|
  {
    if chunks == [] {
      assert [last][1..] == [];
    } else {
      ConcatAppend(chunks[1..], last);
      assert (chunks + [last])[1..] == chunks[1..] + [last];
      ConcatAssoc(chunks[0], Concat(chunks[1..]), last);
    }
  }

  /** However a text is cut into chunks, the stream emits the one left-to-right pass over it. */
  lemma {:induction false} ChunkingIrrelevant(f: LineFn, inKey: bool, pending: string, chunks: seq<string>)
    requires OneLine(pending)
    ensures Streamed(f, inKey, pending, chunks) == Pass(f, inKey, pending + Concat(chunks))
    decreases |chunks|
  {
    if chunks == [] {
      assert pending + "" == pending;
      TailUnfinished(f, inKey, pending);
    } else {
      var text, more := pending + chunks[0], Concat(chunks[1..]);
      var done := CutAtTail(f, inKey, text);
      assert Concat(chunks) == chunks[0] + more;
      ConcatAssoc(pending, chunks[0], more);
      ConcatAssoc(done, Tail(text), more);
      PassSplits(f, inKey, done, Tail(text) + more);
      var key := KeyAfter(f, inKey, text);
      var _ := TailExact(text);
      ChunkingIrrelevant(f, key, Tail(text), chunks[1..]);
      var rest := Tail(text) + more;
      var p, q, r := PassLines(f, inKey, done), PassLines(f, key, rest), f(KeyAfter(f, key, rest), Tail(rest)).0;
      ConcatAssoc(p, q, r);
    }
  }

  function Newlines(text: string): nat {
    if text == "" then 0 else Newlines(text[..|text| - 1]) + if text[|text| - 1] == '\n' then 1 else 0
  }

  lemma {:induction false} NewlinesConcat(a: string, b: string)
    ensures Newlines(a + b) == Newlines(a) + Newlines(b)
    decreases |b|
  {
    if b == "" {
      assert a + b == a;
    } else {
      NewlinesConcat(a, b[..|b| - 1]);
      assert (a + b)[..|a + b| - 1] == a + b[..|b| - 1];
    }
  }

  lemma {:induction false} OneLineNoNewlines(text: string)
    ensures OneLine(text) <==> Newlines(text) == 0
  {
    if text != "" {
      OneLineNoNewlines(text[..|text| - 1]);
      assert text == text[..|text| - 1] + [text[|text| - 1]];
    }
  }

  /** A line function that never puts a newline into its output. */
  ghost predicate KeepsLines(f: LineFn) {
    forall key, line :: OneLine(line) ==> OneLine(f(key, line).0)
  }

  lemma {:induction false} PassLinesNewlines(f: LineFn, inKey: bool, text: string)
    requires KeepsLines(f)
    ensures Newlines(PassLines(f, inKey, text)) == Newlines(text)
    decreases |text|
  {
    LineEndExact(text);
    var n := LineEnd(text);
    if n == |text| {
      assert text[..n] == text;
      OneLineNoNewlines(text);
    } else {
      var line, rest := text[..n], text[n + 1..];
      assert text == line + "\n" + rest;
      PassLinesNewlines(f, f(inKey, line).1, rest);
      NewlinesAcross(f(inKey, line).0, PassLines(f, f(inKey, line).1, rest));
      NewlinesAcross(line, rest);
    }
  }

  /** One line in front of a text. */
  lemma NewlinesAcross(line: string, rest: string)
    requires OneLine(line)
    ensures Newlines(line + "\n" + rest) == 1 + Newlines(rest)
  {
    OneLineNoNewlines(line);
    NewlinesConcat(line + "\n", rest);
    NewlinesConcat(line, "\n");
  }

  /** The projection keeps line numbers: as many newlines come out as went in. */
  lemma PassKeepsNewlines(f: LineFn, inKey: bool, text: string)
    requires KeepsLines(f)
    ensures Newlines(Pass(f, inKey, text)) == Newlines(text)
  {
    var safe, last := PassLines(f, inKey, text), f(KeyAfter(f, inKey, text), Tail(text)).0;
    PassLinesNewlines(f, inKey, text);
    var _ := TailExact(text);
    OneLineNoNewlines(last);
    NewlinesConcat(safe, last);
  }
}
