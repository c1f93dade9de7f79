/** What a reader makes of a page: the numbers of its lines, and the hint where to go on. */
module PageFormat {
  import opened Wrappers
  import opened Projection
  import opened LinePass
  import opened Stream
  import opened PagedRead

  // ---- Numbers --------------------------------------------------------------------------

  predicate IsDigit(c: char) {
    '0' <= c <= '9'
  }

  predicate AllDigits(s: string) {
    forall i :: 0 <= i < |s| ==> IsDigit(s[i])
  }

  /** The value of a row of decimal digits. */
  function Value(s: string): nat
    requires AllDigits(s)
  {
    if s == "" then 0 else 10 * Value(s[..|s| - 1]) + (s[|s| - 1] as nat - '0' as nat)
  }

  /** The digits written for a number denote it, and there is no needless zero in front. */
  lemma {:induction false} DecimalDenotes(n: nat)
    ensures Decimal(n) != "" && AllDigits(Decimal(n)) && Value(Decimal(n)) == n
    ensures n > 0 ==> Decimal(n)[0] != '0'
  {
    var digit := ['0' + (n % 10) as char];
    assert digit[..0] == "";
    if n >= 10 {
      DecimalDenotes(n / 10);
      var s := Decimal(n);
      assert s == Decimal(n / 10) + digit;
      assert s[..|s| - 1] == Decimal(n / 10);
    }
  }

  /** How many digits a text begins with. */
  function Leading(s: string): (n: nat)
    ensures n <= |s| && AllDigits(s[..n]) && (n < |s| ==> !IsDigit(s[n]))
  {
    if s == "" || !IsDigit(s[0]) then 0
    else
      var n := Leading(s[1..]);
      assert s[..n + 1] == [s[0]] + s[1..][..n];
      n + 1
  }

  lemma {:induction false} LeadingOf(digits: string, rest: string)
    requires AllDigits(digits) && (rest == "" || !IsDigit(rest[0]))
    ensures Leading(digits + rest) == |digits|
    decreases |digits|
  {
    if digits == "" {
      assert digits + rest == rest;
    } else {
      LeadingOf(digits[1..], rest);
      assert (digits + rest)[1..] == digits[1..] + rest;
    }
  }

  /** A numbered line read back: its number and its text. */
  function ReadEntry(entry: string): Option<(nat, string)> {
    var n := Leading(entry);
    if n > 0 && n + 3 <= |entry| && entry[n..n + 2] == ": " && entry[|entry| - 1] == '\n' then
      Some((Value(entry[..n]), entry[n + 2..|entry| - 1]))
    else None
  }

  /** Whoever reads an entry gets the number of its line, counted from one, and its whole text. */
  lemma EntryReadsBack(k: nat, line: string)
    ensures ReadEntry(Numbered(k, line)) == Some((k + 1, line))
  {
    hide Decimal, Value;
    DecimalDenotes(k + 1);
    var digits := Decimal(k + 1);
    var rest := ": " + line + "\n";
    assert Numbered(k, line) == digits + rest;
    LeadingOf(digits, rest);
    assert (digits + rest)[..|digits|] == digits;
    assert (digits + rest)[|digits|..] == rest;
  }

  // ---- Hints ------------------------------------------------------------------------------

  const HINT_FRONT := "[truncated=true;" + " continue with " + "start_line="

  /** What follows the last newline of complete lines is what was put there. */
  lemma TailOf(body: string, line: string)
    requires body == "" || body[|body| - 1] == '\n'
    requires OneLine(line)
    ensures Tail(body + line) == line
  {
    PassSplits((_, _) => ("", false), false, body, line);
    TailUnfinished((_, _) => ("", false), false, line);
  }

  /** The line a page's last line points at, if that is a hint. */
  function ReadHint(page: string): Option<nat> {
    var s := Tail(page);
    if |s| > |HINT_FRONT| + 1 && s[..|HINT_FRONT|] == HINT_FRONT && s[|s| - 1] == ']'
       && AllDigits(s[|HINT_FRONT|..|s| - 1])
    then Some(Value(s[|HINT_FRONT|..|s| - 1]))
    else None
  }

  lemma HintIsOneLine(n: nat)
    ensures Hint(n) == HINT_FRONT + Decimal(n) + "]" && OneLine(Hint(n)) && OneLine(HINT_FRONT)
  {
    hide Value;
    DecimalDenotes(n);
    assert OneLine("[truncated=true;") && OneLine(" continue with ") && OneLine("start_line=");
  }

  lemma HintReadsBack(body: string, n: nat)
    requires body == "" || body[|body| - 1] == '\n'
    ensures ReadHint(TrimNewline(body + Hint(n))) == Some(n)
  {
    hide Decimal, Value, HINT_FRONT, Hint, Tail;
    HintIsOneLine(n);
    DecimalDenotes(n);
    TailOf(body, Hint(n));
    var hint := Hint(n);
    assert hint[|hint| - 1] == ']';
    assert (body + hint)[|body + hint| - 1] == ']';
    assert hint[..|HINT_FRONT|] == HINT_FRONT;
    assert hint[|HINT_FRONT|..|hint| - 1] == Decimal(n);
  }

  /** The entries of a file, each one line with its number. */
  predicate NumberedLines(entries: seq<string>) {
    forall e <- entries :: BeginsWithDigit(e)
  }

  predicate BeginsWithDigit(e: string) {
    |e| > 1 && IsDigit(e[0]) && e[|e| - 1] == '\n' && OneLine(e[..|e| - 1])
  }

  /** So are the entries of every file, whatever the rules find in its lines. */
  lemma EntriesAreNumbered(d: RuleSet, lines: seq<string>)
    requires forall k :: 0 <= k < |lines| ==> OneLine(lines[k])
    ensures NumberedLines(Entries(LinesFor(d), lines))
  {
    hide StateAfter, Decimal, Value, LinesFor, OneLine, Numbered;
    var f := LinesFor(d);
    forall e | e in Entries(f, lines) ensures BeginsWithDigit(e) {
      var k :| 0 <= k < |lines| && Entries(f, lines)[k] == e;
      LineStaysOneLine(d, StateAfter(f, false, lines[..k]), lines[k]);
      EntryIsLine(k, f(StateAfter(f, false, lines[..k]), lines[k]).0);
    }
  }

  lemma LineStaysOneLine(d: RuleSet, inKey: bool, line: string)
    requires OneLine(line)
    ensures OneLine(LinesFor(d)(inKey, line).0)
  {
    hide Redact, OneLine;
    var s := ScannerOf(d);
    forall t | OneLine(t) ensures OneLine(s.redact(t)) { RedactOneLine(d, t); }
    RedactLineOneLine(s, inKey, line);
  }

  lemma EntryIsLine(k: nat, line: string)
    requires OneLine(line)
    ensures BeginsWithDigit(Numbered(k, line))
  {
    hide Decimal, Value;
    DecimalDenotes(k + 1);
    var e := Numbered(k, line);
    assert e[..|e| - 1] == Decimal(k + 1) + ": " + line;
  }

  lemma {:induction false} JoinEndsLine(entries: seq<string>)
    requires NumberedLines(entries)
    ensures Join(entries) == "" <==> entries == []
    ensures entries != [] ==> Join(entries)[|Join(entries)| - 1] == '\n'
  {
    if entries != [] {
      var last := entries[|entries| - 1];
      JoinEndsLine(entries[..|entries| - 1]);
      assert last in entries;
      assert Join(entries)[|Join(entries)| - 1] == last[|last| - 1];
    }
  }

  lemma PlainPageHasNoHint(entries: seq<string>)
    requires NumberedLines(entries)
    ensures ReadHint(TrimNewline(Join(entries))) == None
  {
    hide Tail, HINT_FRONT, Value, ReadHint, AllDigits;
    if entries == [] {
      TailOf("", "");
      assert "" + "" == "";
      NumberIsNoHint("");
    } else {
      var n := |entries| - 1;
      var body, e := Join(entries[..n]), entries[n];
      assert e in entries;
      SliceNumbered(entries, 0, n);
      assert entries[0..n] == entries[..n];
      JoinEndsLine(entries[..n]);
      var text := e[..|e| - 1];
      TailOf(body, text);
      assert TrimNewline(body + e) == body + text;
      NumberIsNoHint(body + text);
    }
  }

  /** A line that is empty or begins with a number is no hint. */
  lemma NumberIsNoHint(page: string)
    requires Tail(page) == "" || IsDigit(Tail(page)[0])
    ensures ReadHint(page) == None
  {
    hide HINT_FRONT, Value, AllDigits, Tail;
    FrontIsNoDigit();
    var s := Tail(page);
    if |s| > |HINT_FRONT| { assert s[..|HINT_FRONT|][0] == s[0]; }
  }

  lemma FrontIsNoDigit()
    ensures |HINT_FRONT| > 0 && !IsDigit(HINT_FRONT[0])
  {
  }

  // ---- A page ---------------------------------------------------------------------------------

  /** A page takes at most 1000 lines and 64 KiB, and stops only when the next line would be too many. */
  lemma {:induction false} FillExactly(entries: seq<string>, from: nat, k: nat, written: nat)
    requires from <= k <= |entries| && written == k - from <= 1000 && |Join(entries[from..k])| <= 65536
    ensures var stop := Fill(entries, k, written, |Join(entries[from..k])|);
            && k <= stop <= |entries| && stop - from <= 1000 && |Join(entries[from..stop])| <= 65536
            && (stop == |entries| || stop - from == 1000 || |Join(entries[from..stop + 1])| > 65536)
    decreases |entries| - k
  {
    if k < |entries| {
      assert entries[from..k + 1][..k - from] == entries[from..k];
      if written < 1000 && |Join(entries[from..k])| + |entries[k]| <= 65536 {
        FillExactly(entries, from, k + 1, written + 1);
      }
    }
  }

  /** The window holds exactly the requested lines, counted from one. */
  lemma WindowExactly(start: int, end: int, n: nat, line: nat)
    requires (end == 0 || start <= end) && 1 <= line <= n
    ensures First(start, n) <= line - 1 < Last(end, n) <==> start <= line && (end == 0 || line <= end)
  {
  }

  /** What a page of a file is, for a reader who knows nothing of how it was filled: a stretch of the
      requested window from its beginning, the longest that fits; and behind it a hint at the first line
      left, which can be read back, if and only if some are left. */
  lemma PageExactly(entries: seq<string>, start: int, end: int) returns (stop: nat)
    requires (end == 0 || start <= end) && NumberedLines(entries)
    ensures var from, to := First(start, |entries|), Last(end, |entries|);
            && from <= stop <= to <= |entries| && stop - from <= 1000 && |Join(entries[from..stop])| <= 65536
            && (stop == to || stop - from == 1000 || |Join(entries[from..stop + 1])| > 65536)
            && ReadHint(PageOf(entries, start, end)) == (if stop < to then Some(stop + 1) else None)
            && if stop < to then PageOf(entries, start, end) == Join(entries[from..stop]) + Hint(stop + 1)
               else PageOf(entries, start, end) + (if from < stop then "\n" else "") == Join(entries[from..stop])
  {
    hide Fill, Join, ReadHint, Hint, NumberedLines, HINT_FRONT, Decimal;
    var from, to := First(start, |entries|), Last(end, |entries|);
    var window := entries[..to];
    assert from <= to;
    assert window[from..from] == [];
    NothingJoined();
    FillExactly(window, from, from, 0);
    stop := Fill(window, from, 0, 0);
    assert window[from..stop] == entries[from..stop];
    if stop < to { assert window[from..stop + 1] == entries[from..stop + 1]; }
    SliceNumbered(entries, from, stop);
    JoinEndsLine(entries[from..stop]);
    if stop < to {
      HintReadsBack(Join(entries[from..stop]), stop + 1);
      HintIsLast(Join(entries[from..stop]), stop + 1);
    } else {
      PlainPageHasNoHint(entries[from..stop]);
      assert Join(entries[from..stop]) + "" == Join(entries[from..stop]);
    }
  }

  lemma HintIsLast(body: string, n: nat)
    ensures TrimNewline(body + Hint(n)) == body + Hint(n)
  {
    hide Decimal;
    assert Hint(n)[|Hint(n)| - 1] == ']';
  }

  lemma NothingJoined()
    ensures Join([]) == ""
  {
  }

  lemma SliceNumbered(entries: seq<string>, from: nat, to: nat)
    requires from <= to <= |entries| && NumberedLines(entries)
    ensures NumberedLines(entries[from..to])
  {
  }
}
