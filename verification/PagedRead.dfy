/** The read tool: a window of projected, numbered lines, cut at a page limit, with a hint where to
    go on. */
module PagedRead {
  import opened Projection
  import opened LinePass
  import opened Stream

  const MAX_PAGE: nat := 65536
  const MAX_LINES: nat := 1000

  datatype ReadResult = Cancelled | Binary | Unreadable | Page(content: string)

  function Decimal(n: nat): string {
    var digit := ['0' + (n % 10) as char];
    if n < 10 then digit else Decimal(n / 10) + digit
  }

  function Numbered(k: nat, line: string): string {
    Decimal(k + 1) + ": " + line + "\n"
  }

  /** What a line contributes: its number and its projection, in the state the lines before it leave. */
  function Entry(f: LineFn, lines: seq<string>, k: nat): string
    requires k < |lines|
  {
    Numbered(k, f(StateAfter(f, false, lines[..k]), lines[k]).0)
  }

  function Entries(f: LineFn, lines: seq<string>): seq<string> {
    seq(|lines|, k requires 0 <= k < |lines| => Entry(f, lines, k))
  }

  function Join(entries: seq<string>): string {
    if entries == [] then "" else Join(entries[..|entries| - 1]) + entries[|entries| - 1]
  }

  /** Where a page ends that has taken the given lines and bytes already. */
  function Fill(entries: seq<string>, from: nat, written: nat, bytes: nat): nat
    requires from <= |entries|
    decreases |entries| - from
  {
    if from == |entries| || written >= MAX_LINES || bytes + |entries[from]| > MAX_PAGE then from
    else Fill(entries, from + 1, written + 1, bytes + |entries[from]|)
  }

  function Hint(line: nat): string {
    "[truncated=true;" + " continue with " + "start_line=" + Decimal(line) + "]"
  }

  function TrimNewline(text: string): string {
    if text != "" && text[|text| - 1] == '\n' then text[..|text| - 1] else text
  }

  /** The window of a request, as positions; an end of 0 means the end of the file. */
  function First(start: int, n: nat): nat {
    if start <= 1 then 0 else if start - 1 < n then start - 1 else n
  }

  function Last(end: int, n: nat): nat {
    if end == 0 || end > n then n else if end < 0 then 0 else end
  }

  /** One page: the longest stretch of the window that fits, and a hint when something is left. */
  function PageOf(entries: seq<string>, start: int, end: int): string
    requires end == 0 || start <= end
  {
    var window := entries[..Last(end, |entries|)];
    var from := First(start, |entries|);
    var stop := Fill(window, from, 0, 0);
    FillBounds(window, from, 0, 0);
    TrimNewline(Join(window[from..stop]) + if stop < |window| then Hint(stop + 1) else "")
  }

  lemma {:induction false} FillBounds(entries: seq<string>, from: nat, written: nat, bytes: nat)
    requires from <= |entries|
    ensures from <= Fill(entries, from, written, bytes) <= |entries|
    decreases |entries| - from
  {
    if !(from == |entries| || written >= MAX_LINES || bytes + |entries[from]| > MAX_PAGE) {
      FillBounds(entries, from + 1, written + 1, bytes + |entries[from]|);
    }
  }

  ghost predicate IsPage(f: LineFn, lines: seq<string>, start: int, end: int, content: string)
    requires end == 0 || start <= end
  {
    content == PageOf(Entries(f, lines), start, end)
  }

  /** How many lines the page ends behind. */
  function Stop(f: LineFn, lines: seq<string>, start: int, end: int): (n: nat)
    requires end == 0 || start <= end
    ensures n <= |lines|
  {
    FillBounds(Entries(f, lines)[..Last(end, |lines|)], First(start, |lines|), 0, 0);
    Fill(Entries(f, lines)[..Last(end, |lines|)], First(start, |lines|), 0, 0)
  }

  /** Every line up to the end of the page is text, and a page that ends with the file has not run into
      a failed read. */
  ghost predicate ReadWell(f: LineFn, lines: seq<string>, start: int, end: int, isText: string -> bool,
                           readFailed: bool)
    requires end == 0 || start <= end
  {
    && (forall k :: 0 <= k < Stop(f, lines, start, end) ==> isText(lines[k]))
    && (Stop(f, lines, start, end) == |lines| ==> !readFailed)
  }

  /** readTool.Execute: skipped lines pass through the redactor too, so the window is a cut of the
      one unlimited pass. */
  method Execute(detector: Detector, lines: seq<string>, readFailed: bool, isText: string -> bool, start: int, end: int)
    returns (r: ReadResult)
    requires end == 0 || start <= end
    ensures r.Page? ==> IsPage(LinesFor(detector.rules), lines, start, end, r.content)
    ensures r.Binary? ==> exists k :: 0 <= k < |lines| && !isText(lines[k])
    ensures r.Unreadable? ==> readFailed
    ensures r.Page? ==> ReadWell(LinesFor(detector.rules), lines, start, end, isText, readFailed)
  {
    hide LinesFor, StateAfter, Numbered, Decimal, Fill, Filling, IsPage, Entry, Entries, Join, Hint, Stop;
    ghost var f := LinesFor(detector.rules);
    NothingBefore(f, lines, start, end);
    ghost var window := Entries(f, lines)[..Last(end, |lines|)];
    ghost var from := First(start, |lines|);
    var redactor := new LineRedactor(detector);
    var out := "";
    var lineNo, written, truncated, exhausted := 0, 0, false, true;
    while lineNo < |lines|
      invariant 0 <= lineNo <= |window|
      invariant forall k :: 0 <= k < lineNo ==> isText(lines[k])
      invariant redactor.detector == detector && redactor.inPrivateKey == StateAfter(f, false, lines[..lineNo])
      invariant Filling(window, from, lineNo, written, out)
    {
      var gone: bool := *;
      if gone { return Cancelled; }
      var line := lines[lineNo];
      lineNo := lineNo + 1;
      if !isText(line) { return Binary; }
      var projected := ProjectLine(redactor, lines, lineNo - 1);
      if lineNo < start {
        FillSkip(window, from, lineNo - 1, written, out);
        continue;
      }
      if end != 0 && lineNo > end {
        exhausted := false;
        break;
      }
      var entry := Numbered(lineNo - 1, projected);
      assert entry == window[lineNo - 1];
      if written >= MAX_LINES || |out| + |entry| > MAX_PAGE {
        truncated, exhausted := true, false;
        break;
      }
      FillStep(window, from, lineNo - 1, written, out);
      out := out + entry;
      written := written + 1;
    }
    if exhausted && readFailed { return Unreadable; }
    PageEnds(f, lines, start, end, if truncated then lineNo - 1 else |window|, written, out);
    if truncated { out := out + Hint(lineNo); }
    return Page(TrimNewline(out));
  }

  /** The next line passes through the redactor, whether it is shown or not. */
  method ProjectLine(redactor: LineRedactor, lines: seq<string>, k: nat) returns (projected: string)
    requires k < |lines|
    requires redactor.inPrivateKey == StateAfter(LinesFor(redactor.detector.rules), false, lines[..k])
    modifies redactor
    ensures redactor.inPrivateKey == StateAfter(LinesFor(redactor.detector.rules), false, lines[..k + 1])
    ensures |Entries(LinesFor(redactor.detector.rules), lines)| == |lines|
    ensures Numbered(k, projected) == Entries(LinesFor(redactor.detector.rules), lines)[k]
  {
    hide LinesFor, StateAfter, Numbered, Entry, Entries;
    ghost var f, was := LinesFor(redactor.detector.rules), redactor.inPrivateKey;
    StateStep(f, lines, k);
    EntryAt(f, lines, k);
    projected := redactor.RedactNext(lines[k]);
    assert (projected, redactor.inPrivateKey) == f(was, lines[k]);
  }

  /** The page so far. */
  ghost predicate Filling(window: seq<string>, from: nat, k: int, written: int, out: string)
    requires from <= |window|
  {
    && 0 <= k <= |window| && 0 <= written
    && (k <= from ==> out == "" && written == 0)
    && (from <= k ==> out == Join(window[from..k]) && Fill(window, from, 0, 0) == Fill(window, k, written, |out|))
  }

  lemma FillStep(window: seq<string>, from: nat, k: nat, written: nat, out: string)
    requires from <= k < |window| && Filling(window, from, k, written, out)
    requires written < MAX_LINES && |out| + |window[k]| <= MAX_PAGE
    ensures Filling(window, from, k + 1, written + 1, out + window[k])
  {
    assert window[from..k + 1][..k - from] == window[from..k];
  }

  lemma FillEnds(window: seq<string>, from: nat, k: nat, written: nat, out: string)
    requires from <= k <= |window| && Filling(window, from, k, written, out)
    requires k == |window| || written >= MAX_LINES || |out| + |window[k]| > MAX_PAGE
    ensures Fill(window, from, 0, 0) == k && out == Join(window[from..k])
  {
  }

  lemma FillSkip(window: seq<string>, from: nat, k: nat, written: nat, out: string)
    requires k < from <= |window| && Filling(window, from, k, written, out)
    ensures Filling(window, from, k + 1, written, out)
  {
  }

  lemma EntryAt(f: LineFn, lines: seq<string>, k: nat)
    requires k < |lines|
    ensures |Entries(f, lines)| == |lines|
    ensures Entries(f, lines)[k] == Numbered(k, f(StateAfter(f, false, lines[..k]), lines[k]).0)
  {
  }

  lemma PageEnds(f: LineFn, lines: seq<string>, start: int, end: int, k: nat, written: nat, out: string)
    requires end == 0 || start <= end
    requires |Entries(f, lines)| == |lines|
    requires var window := Entries(f, lines)[..Last(end, |lines|)];
             && First(start, |lines|) <= k <= |window| && Filling(window, First(start, |lines|), k, written, out)
             && (k == |window| || written >= MAX_LINES || |out| + |window[k]| > MAX_PAGE)
    ensures IsPage(f, lines, start, end, TrimNewline(if k < Last(end, |lines|) then out + Hint(k + 1) else out))
    ensures Stop(f, lines, start, end) == k
  {
    var window := Entries(f, lines)[..Last(end, |lines|)];
    FillEnds(window, First(start, |lines|), k, written, out);
    assert out + "" == out;
  }

  lemma NothingBefore(f: LineFn, lines: seq<string>, start: int, end: int)
    requires end == 0 || start <= end
    ensures StateAfter(f, false, lines[..0]) == false
    ensures |Entries(f, lines)| == |lines| && First(start, |lines|) <= Last(end, |lines|)
    ensures Filling(Entries(f, lines)[..Last(end, |lines|)], First(start, |lines|), 0, 0, "")
  {
  }

  lemma StateStep(f: LineFn, lines: seq<string>, k: nat)
    requires k < |lines|
    ensures StateAfter(f, false, lines[..k + 1]) == f(StateAfter(f, false, lines[..k]), lines[k]).1
  {
    assert lines[..k + 1][..k] == lines[..k];
  }

  /** No page shows anything of a private-key block's body: such files have the same pages. */
  lemma PagesHideBodies(s: LineScanner, a: seq<string>, b: seq<string>, start: int, end: int, content: string)
    requires end == 0 || start <= end
    requires DifferInBlocks(s, a, b)
    ensures IsPage(LinesOf(s), a, start, end, content) <==> IsPage(LinesOf(s), b, start, end, content)
  {
    SameOutputs(s, a, b);
    SameOutputsSameEntries(LinesOf(s), a, b);
    SameEntriesSamePages(LinesOf(s), a, b, start, end, content);
  }

  lemma SameOutputs(s: LineScanner, a: seq<string>, b: seq<string>)
    requires DifferInBlocks(s, a, b)
    ensures |a| == |b| && OutputsOf(LinesOf(s), false, a) == OutputsOf(LinesOf(s), false, b)
  {
    BodiesNeverEmitted(s, a, b);
  }

  lemma SameOutputsSameEntries(f: LineFn, a: seq<string>, b: seq<string>)
    requires |a| == |b| && OutputsOf(f, false, a) == OutputsOf(f, false, b)
    ensures Entries(f, a) == Entries(f, b)
  {
    hide Numbered, StateAfter, OutputsOf, Entry;
    forall k | 0 <= k < |a| ensures Entry(f, a, k) == Entry(f, b, k) {
      EntryIsOutput(f, a, k);
      EntryIsOutput(f, b, k);
    }
  }

  lemma SameEntriesSamePages(f: LineFn, a: seq<string>, b: seq<string>, start: int, end: int, content: string)
    requires Entries(f, a) == Entries(f, b) && (end == 0 || start <= end)
    ensures IsPage(f, a, start, end, content) <==> IsPage(f, b, start, end, content)
  {
    hide PageOf, Entries;
  }

  lemma EntryIsOutput(f: LineFn, lines: seq<string>, k: nat)
    requires k < |lines|
    ensures |OutputsOf(f, false, lines)| == |lines|
    ensures Entry(f, lines, k) == Numbered(k, OutputsOf(f, false, lines)[k])
  {
    OutputAt(f, false, lines, k);
  }

  // ---- Following the hints ------------------------------------------------------------------

  /** Where the page that starts at a position ends when no end line is given: the hint. */
  function Next(entries: seq<string>, from: nat): nat
    requires from <= |entries|
  {
    Fill(entries, from, 0, 0)
  }

  predicate AllFit(entries: seq<string>) {
    forall k :: 0 <= k < |entries| ==> |entries[k]| <= MAX_PAGE
  }

  /** The starts of the pages a reader sees who follows the hints from the first line to the end. */
  ghost predicate ReadsThrough(entries: seq<string>, starts: seq<nat>) {
    && starts != [] && starts[0] == 0 && starts[|starts| - 1] == |entries|
    && forall i :: 0 <= i < |starts| - 1 ==> starts[i] < |entries| && starts[i + 1] == Next(entries, starts[i])
  }

  /** A page never gets past an entry that does not fit ... */
  lemma {:induction false} NeverPasses(entries: seq<string>, from: nat, written: nat, bytes: nat, k: nat)
    requires from <= k < |entries| && |entries[k]| > MAX_PAGE
    ensures Fill(entries, from, written, bytes) <= k
    decreases k - from
  {
    if from < k && !(written >= MAX_LINES || bytes + |entries[from]| > MAX_PAGE) {
      NeverPasses(entries, from + 1, written + 1, bytes + |entries[from]|, k);
    }
  }

  /** ... and always gets past one that does. */
  lemma AlwaysAdvances(entries: seq<string>, from: nat)
    requires from < |entries| && |entries[from]| <= MAX_PAGE
    ensures from < Next(entries, from) <= |entries|
  {
    FillBounds(entries, from + 1, 1, |entries[from]|);
  }

  lemma {:induction false} StartsStayBelow(entries: seq<string>, starts: seq<nat>, i: nat, k: nat)
    requires ReadsThrough(entries, starts) && i < |starts| && k < |entries| && |entries[k]| > MAX_PAGE
    ensures starts[i] <= k
  {
    if i > 0 {
      StartsStayBelow(entries, starts, i - 1, k);
      NeverPasses(entries, starts[i - 1], 0, 0, k);
    }
  }

  lemma {:induction false} StartsFrom(entries: seq<string>, from: nat) returns (starts: seq<nat>)
    requires AllFit(entries) && from <= |entries|
    ensures starts != [] && starts[0] == from && starts[|starts| - 1] == |entries|
    ensures forall i :: 0 <= i < |starts| - 1 ==> starts[i] < |entries| && starts[i + 1] == Next(entries, starts[i])
    decreases |entries| - from
  {
    if from == |entries| {
      starts := [from];
    } else {
      AlwaysAdvances(entries, from);
      var rest := StartsFrom(entries, Next(entries, from));
      starts := [from] + rest;
      forall i | 0 <= i < |starts| - 1 ensures starts[i] < |entries| && starts[i + 1] == Next(entries, starts[i]) {
        if i > 0 { assert rest[i - 1] < |entries| && rest[i] == Next(entries, rest[i - 1]); }
      }
    }
  }

  /** Following the hints reaches the end of the file if and only if every entry fits a page. */
  lemma PagingTerminatesExactly(entries: seq<string>)
    ensures (exists starts :: ReadsThrough(entries, starts)) <==> AllFit(entries)
  {
    if AllFit(entries) {
      var starts := StartsFrom(entries, 0);
      assert ReadsThrough(entries, starts);
    } else {
      var k :| 0 <= k < |entries| && |entries[k]| > MAX_PAGE;
      forall starts | ReadsThrough(entries, starts) ensures false {
        StartsStayBelow(entries, starts, |starts| - 1, k);
      }
    }
  }

  predicate Ascending(entries: seq<string>, starts: seq<nat>) {
    forall i, j :: 0 <= i <= j < |starts| ==> starts[i] <= starts[j] <= |entries|
  }

  /** A file whose only line is too long: its first page shows nothing and points at itself. */
  lemma LongLineIsNeverShown(f: LineFn, line: string, content: string)
    requires |f(false, line).0| >= MAX_PAGE
    ensures IsPage(f, [line], 1, 0, content) <==> content == Hint(1)
  {
    hide Hint, Decimal;
    var entries := Entries(f, [line]);
    assert [line][..0] == [];
    assert entries == [Numbered(0, f(false, line).0)];
    assert |entries[0]| > MAX_PAGE;
    assert entries[..1] == entries && entries[0..0] == [];
    HintEnds(1);
    assert "" + Hint(1) == Hint(1);
  }

  /** There are such files, for every detector: 64 KiB of a text it does not match. */
  lemma PlainLineIsKept(d: RuleSet, line: string)
    requires d.begin(line).None? && Redact(d, line).1 == 0
    ensures LinesFor(d)(false, line).0 == line
  {
    UntouchedText(d, line);
    hide Redact;
  }

  lemma HintEnds(line: nat)
    ensures TrimNewline(Hint(line)) == Hint(line)
  {
    assert Hint(line)[|Hint(line)| - 1] == ']';
  }

  /** The lines of the first pages, page after page. */
  function Shown(entries: seq<string>, starts: seq<nat>): seq<string>
    requires Ascending(entries, starts)
  {
    if |starts| <= 1 then []
    else
      var n := |starts| - 1;
      var from, to := starts[n - 1], starts[n];
      Shown(entries, starts[..n]) + entries[from..to]
  }

  /** Whoever reads through sees every projected line exactly once and in order: the pages together
      are the one unlimited pass. */
  lemma PagesAreTheWholePass(entries: seq<string>, starts: seq<nat>)
    requires ReadsThrough(entries, starts)
    ensures Ascending(entries, starts) && Shown(entries, starts) == entries
  {
    forall i, j | 0 <= i <= j < |starts| ensures starts[i] <= starts[j] <= |entries| {
      StartsAscend(entries, starts, i, j);
    }
    ShownPrefix(entries, starts);
    assert entries[..|entries|] == entries;
  }

  lemma {:induction false} StartsAscend(entries: seq<string>, starts: seq<nat>, i: nat, j: nat)
    requires ReadsThrough(entries, starts) && i <= j < |starts|
    ensures starts[i] <= starts[j] <= |entries|
  {
    if i < j {
      StartsAscend(entries, starts, i, j - 1);
      FillBounds(entries, starts[j - 1], 0, 0);
    }
  }

  lemma {:induction false} ShownPrefix(entries: seq<string>, starts: seq<nat>)
    requires starts != [] && starts[0] == 0 && starts[|starts| - 1] <= |entries|
    requires Ascending(entries, starts)
    ensures Shown(entries, starts) == entries[..starts[|starts| - 1]]
  {
    if |starts| > 1 {
      var n := |starts| - 1;
      ShownPrefix(entries, starts[..n]);
      assert entries[..starts[n]] == entries[..starts[n - 1]] + entries[starts[n - 1]..starts[n]];
    }
  }

  /** The hint on a page is where the next page starts. */
  lemma HintIsNext(entries: seq<string>, from: nat)
    requires from <= |entries|
    ensures from <= Next(entries, from) <= |entries|
    ensures PageOf(entries, from + 1, 0) ==
              TrimNewline(Join(entries[from..Next(entries, from)]) +
                            if Next(entries, from) < |entries| then Hint(Next(entries, from) + 1) else "")
  {
    hide Hint, Fill, Join;
    assert entries[..|entries|] == entries;
    FillBounds(entries, from, 0, 0);
  }
}
