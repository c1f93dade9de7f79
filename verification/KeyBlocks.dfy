/** Private-key blocks with the program's own markers: where the line redactor loses track of one,
    and when the streamed text of a response cannot agree with its projection. */
module KeyBlocks {
  import opened Wrappers
  import opened Projection
  import opened LinePass
  import opened Stream

  // ---- The markers ---------------------------------------------------------------------

  const DASHES := "-----"
  const KINDS := ["", "RSA ", "EC ", "OPENSSH ", "DSA "]

  function Marker(word: string, kind: string): string {
    DASHES + word + kind + "PRIVATE KEY" + DASHES
  }

  const BEGIN_KEY := "BEGIN "
  const END_KEY := "END "

  /** The length of the marker at the start of the text. */
  function MarkerLength(word: string, kinds: seq<string>, text: string): Option<nat> {
    if kinds == [] then None
    else if Marker(word, kinds[0]) <= text then Some(|Marker(word, kinds[0])|)
    else MarkerLength(word, kinds[1..], text)
  }

  /** The leftmost marker. */
  function Leftmost(word: string, text: string): Option<Interval> {
    match MarkerLength(word, KINDS, text)
    case Some(n) => Some(Interval(0, n))
    case None =>
      if text == "" then None
      else
        match Leftmost(word, text[1..])
        case None => None
        case Some(m) => Some(Interval(m.start + 1, m.end + 1))
  }

  lemma {:induction false} MarkerLengthBounds(word: string, kinds: seq<string>, text: string)
    ensures var n := MarkerLength(word, kinds, text); n.Some? ==> 0 < n.value <= |text|
  {
    if kinds != [] { MarkerLengthBounds(word, kinds[1..], text); }
  }

  lemma {:induction false} LeftmostInText(word: string, text: string)
    ensures Leftmost(word, text).Some? ==> InText(Leftmost(word, text).value, text)
  {
    hide MarkerLength;
    MarkerLengthBounds(word, KINDS, text);
    if text != "" { LeftmostInText(word, text[1..]); }
  }

  /** The scanner finds the program's markers; what it redacts is arbitrary. */
  ghost predicate FindsMarkers(s: LineScanner) {
    forall text :: s.begin(text) == Leftmost(BEGIN_KEY, text) && s.end(text) == Leftmost(END_KEY, text)
  }

  /** There are such scanners. */
  lemma MarkersAreFound(redact: string -> string)
    ensures var s := Scanner(redact, text => Leftmost(BEGIN_KEY, text), text => Leftmost(END_KEY, text));
            MarkersInText(s) && FindsMarkers(s)
  {
    hide Leftmost;
    forall text ensures Leftmost(BEGIN_KEY, text).Some? ==> InText(Leftmost(BEGIN_KEY, text).value, text) {
      LeftmostInText(BEGIN_KEY, text);
    }
    forall text ensures Leftmost(END_KEY, text).Some? ==> InText(Leftmost(END_KEY, text).value, text) {
      LeftmostInText(END_KEY, text);
    }
  }

  lemma {:induction false} MarkerDashes(word: string, kinds: seq<string>, text: string)
    ensures var n := MarkerLength(word, kinds, text);
            n.Some? ==> 0 < n.value <= |text| && text[0] == '-' && text[n.value - 1] == '-'
  {
    if kinds != [] {
      if Marker(word, kinds[0]) <= text { MarkerEnds(word, kinds[0]); } else { MarkerDashes(word, kinds[1..], text); }
    }
  }

  lemma MarkerEnds(word: string, kind: string)
    ensures var m := Marker(word, kind);
            |m| > 0 && m[0] == '-' && m[|m| - 1] == '-'
  {
    assert DASHES[0] == '-' && DASHES[|DASHES| - 1] == '-';
  }

  /** Every marker begins and ends with a dash. */
  lemma {:induction false} LeftmostDashes(word: string, text: string)
    ensures var m := Leftmost(word, text);
            m.Some? ==> InText(m.value, text) && text[m.value.start] == '-' && text[m.value.end - 1] == '-'
  {
    hide MarkerLength;
    MarkerDashes(word, KINDS, text);
    LeftmostInText(word, text);
    if text != "" { LeftmostDashes(word, text[1..]); }
  }

  lemma MarkerFirst(word: string, rest: string)
    ensures Leftmost(word, Marker(word, "") + rest) == Some(Interval(0, |Marker(word, "")|))
  {
    assert KINDS[0] == "";
    assert Marker(word, "") <= Marker(word, "") + rest;
  }

  lemma NoMarkerInNothing(word: string)
    ensures Leftmost(word, "") == None
  {
    MarkerLengthBounds(word, KINDS, "");
  }

  lemma MarkerIsOneLine(word: string)
    requires OneLine(word)
    ensures OneLine(Marker(word, ""))
  {
    assert OneLine(DASHES) && OneLine("PRIVATE KEY");
  }

  // ---- A block that begins behind the END of another -----------------------------------------

  /** A first block ends, and a second one begins, on the same line. */
  function Reopening(body: string): string {
    Marker(BEGIN_KEY, "") + "\n" + (Marker(END_KEY, "") + Marker(BEGIN_KEY, "") + "\n" + body)
  }

  lemma ReopeningLines(body: string)
    requires OneLine(body)
    ensures SplitLines(Reopening(body)) == [Marker(BEGIN_KEY, ""), Marker(END_KEY, "") + Marker(BEGIN_KEY, ""), body]
  {
    hide Marker;
    MarkerIsOneLine(BEGIN_KEY);
    MarkerIsOneLine(END_KEY);
    SplitFirst(Marker(END_KEY, "") + Marker(BEGIN_KEY, ""), body);
    SplitFirst(Marker(BEGIN_KEY, ""), Marker(END_KEY, "") + Marker(BEGIN_KEY, "") + "\n" + body);
    SplitOne(body);
  }

  lemma SplitFirst(line: string, rest: string)
    requires OneLine(line)
    ensures SplitLines(line + "\n" + rest) == [line] + SplitLines(rest)
  {
    var text := line + "\n" + rest;
    assert text[..|line|] == line;
    LineEndIs(text, |line|);
    assert text[|line| + 1..] == rest;
  }

  lemma SplitOne(line: string)
    requires OneLine(line)
    ensures SplitLines(line) == [line]
  {
    assert line[..|line|] == line;
    LineEndIs(line, |line|);
  }

  /** The three lines, for any scanner that finds its markers there. */
  lemma ReopeningLineByLine(s: LineScanner, b: string, e: string, body: string)
    requires s.begin(b) == Some(Interval(0, |b|)) && s.end("") == None
    requires s.end(e + b) == Some(Interval(0, |e|)) && s.begin(body) == None
    ensures RedactLine(s, false, b) == (s.redact("") + MARKER, true)
    ensures RedactLine(s, true, e + b) == (MARKER + s.redact(b), false)
    ensures RedactLine(s, false, body) == (s.redact(body), false)
    ensures BlockAfter(s, false, b) && BlockAfter(s, true, e + b)
  {
    assert b[..0] == "" && b[|b|..] == "";
    assert (e + b)[|e|..] == b;
    assert BlockAfter(s, true, "");
    assert BlockAfter(s, false, b);
  }

  lemma ThreeLines(f: LineFn, x: string, y: string, z: string)
    requires f(false, x).1 && !f(true, y).1
    ensures JoinLines(OutputsOf(f, false, [x, y, z])) == f(false, x).0 + "\n" + (f(true, y).0 + "\n" + f(false, z).0)
  {
    assert [x, y, z] == [x] + ([y] + ([z] + []));
    FirstOfFold(f, false, x, [y] + ([z] + []));
    FirstOfFold(f, true, y, [z] + []);
    FirstOfFold(f, false, z, []);
    assert OutputsOf(f, f(false, z).1, []) == [];
    var out := [f(false, x).0] + ([f(true, y).0] + [f(false, z).0]);
    assert out[1..] == [f(true, y).0] + [f(false, z).0];
    assert out[1..][1..] == [f(false, z).0];
    assert JoinLines(out[1..]) == f(true, y).0 + "\n" + JoinLines(out[1..][1..]);
  }

  lemma OpenAfterTwo(s: LineScanner, x: string, y: string)
    requires BlockAfter(s, false, x) && BlockAfter(s, true, y)
    ensures BlockState(s, [x, y])
  {
    hide BlockAfter;
    assert [x, y][..1] == [x] && [x][..0] == [];
    assert BlockState(s, [x]) == BlockAfter(s, BlockState(s, []), x);
    assert BlockState(s, [x, y]) == BlockAfter(s, BlockState(s, [x]), y);
  }

  /** The second block's body goes out as it came in: whatever is redacted elsewhere, a line of it
      without a BEGIN marker and without a match is the last line of what the stream lets through,
      although the block it stands in is open. */
  lemma ReopenedBlockLeaks(s: LineScanner, body: string)
    requires FindsMarkers(s) && OneLine(body) && s.begin(body).None? && s.redact(body) == body
    ensures |SplitLines(Reopening(body))| == 3 && BlockState(s, SplitLines(Reopening(body))[..2])
    ensures exists front :: Pass(LinesOf(s), false, Reopening(body)) == front + ("\n" + body)
  {
    var b, e := Marker(BEGIN_KEY, ""), Marker(END_KEY, "");
    hide Marker, Leftmost;
    ReopeningLines(body);
    MarkerFirst(BEGIN_KEY, "");
    MarkerFirst(END_KEY, b);
    NoMarkerInNothing(END_KEY);
    assert b + "" == b;
    ReopeningLineByLine(s, b, e, body);
    hide RedactLine, BlockAfter;
    PassIsFold(LinesOf(s), false, Reopening(body));
    ThreeLines(LinesOf(s), b, e + b, body);
    assert [b, e + b, body][..2] == [b, e + b];
    OpenAfterTwo(s, b, e + b);
    LastLine(s.redact("") + MARKER, MARKER + s.redact(b), body);
  }

  lemma LastLine(x: string, y: string, z: string)
    ensures x + "\n" + (y + "\n" + z) == (x + "\n" + y) + ("\n" + z)
  {
  }

  // ---- A key block that is quoted whole --------------------------------------------------------

  /** Where the block that begins with the given marker ends: with the next END, or with the text. */
  function BlockEnd(text: string, begin: Interval): nat
    requires InText(begin, text)
  {
    match Leftmost(END_KEY, text[begin.end..])
    case None => |text|
    case Some(e) => begin.end + e.end
  }

  lemma BlockEndInText(text: string, begin: Interval)
    requires InText(begin, text)
    ensures begin.end <= BlockEnd(text, begin) <= |text|
    ensures begin.end < |text| ==> begin.end < BlockEnd(text, begin)
  {
    LeftmostInText(END_KEY, text[begin.end..]);
  }

  function Shifted(ms: seq<Interval>, offset: nat): seq<Interval> {
    seq(|ms|, i requires 0 <= i < |ms| => Interval(offset + ms[i].start, offset + ms[i].end))
  }

  /** The detector's rule for private keys: every block, from its BEGIN on. */
  function KeyMatches(text: string): seq<Interval>
    decreases |text|
  {
    LeftmostInText(BEGIN_KEY, text);
    match Leftmost(BEGIN_KEY, text)
    case None => []
    case Some(b) =>
      BlockEndInText(text, b);
      var end := BlockEnd(text, b);
      var more := KeyMatches(text[end..]);
      [Interval(b.start, end)] + Shifted(more, end)
  }

  ghost predicate HasKeyRule(d: RuleSet) {
    exists i :: 0 <= i < |d.rules| && forall text :: d.rules[i](text) == KeyMatches(text)
  }

  lemma {:induction false} RuleInRaw(rules: seq<Rule>, i: nat, text: string, m: Interval)
    requires i < |rules| && m in rules[i](text)
    ensures m in RawMatches(rules, text)
  {
    if i < |rules| - 1 { RuleInRaw(rules[..|rules| - 1], i, text, m); }
  }

  /** A block over several lines is a match that covers a newline. */
  lemma BlockCoversNewline(d: RuleSet, text: string, m: Interval, p: nat)
    requires HasKeyRule(d) && m in KeyMatches(text) && m.start <= p < m.end && p < |text| && text[p] == '\n'
    ensures CoversNewline(d, text)
  {
    var i :| 0 <= i < |d.rules| && forall t :: d.rules[i](t) == KeyMatches(t);
    RuleInRaw(d.rules, i, text, m);
    var raw := RawMatches(d.rules, text);
    var k :| 0 <= k < |raw| && raw[k] == m;
    assert Covers(raw, p);
    assert Mask(d, text)[p];
  }

  /** A response that quotes a key, complete or not, from the BEGIN line on. */
  lemma QuotedKeyDisagrees(d: RuleSet, rest: string)
    requires HasKeyRule(d)
    ensures CoversNewline(d, Marker(BEGIN_KEY, "") + ("\n" + rest))
  {
    var b := Marker(BEGIN_KEY, "");
    var text := b + ("\n" + rest);
    MarkerFirst(BEGIN_KEY, "\n" + rest);
    LeftmostInText(BEGIN_KEY, text);
    hide Leftmost, Marker;
    BlockEndInText(text, Interval(0, |b|));
    var m := KeyMatches(text)[0];
    BlockCoversNewline(d, text, m, |b|);
  }
}
