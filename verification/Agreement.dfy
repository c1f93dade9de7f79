/** When the streamed text of a response is its projection: exactly, for a detector with the program's
    private-key rule beside rules that look neither across a newline nor across a key block. */
module Agreement {
  import opened Wrappers
  import opened Projection
  import opened LinePass
  import opened Stream
  import opened KeyBlocks

  // ---- The detector ---------------------------------------------------------------------

  /** What the rules before the last one match. */
  function OtherMask(d: RuleSet, text: string): (mask: seq<bool>)
    requires d.rules != []
    ensures |mask| == |text|
  {
    seq(|text|, p requires 0 <= p < |text| => Covers(RawMatches(d.rules[..|d.rules| - 1], text), p))
  }

  function KeyMask(text: string): (mask: seq<bool>)
    ensures |mask| == |text|
  {
    seq(|text|, p requires 0 <= p < |text| => Covers(KeyMatches(text), p))
  }

  /** The last rule is the one for private keys, and the markers are the program's. */
  ghost predicate FindsKeys(d: RuleSet) {
    && d.rules != []
    && (forall text :: d.rules[|d.rules| - 1](text) == KeyMatches(text))
    && (forall text :: d.begin(text) == Leftmost(BEGIN_KEY, text))
    && (forall text :: d.end(text) == Leftmost(END_KEY, text))
  }

  /** The other rules never look across a newline. */
  ghost predicate LocalToLines(d: RuleSet)
    requires d.rules != []
  {
    forall a, b :: OtherMask(d, a + "\n" + b) == OtherMask(d, a) + [false] + OtherMask(d, b)
  }

  /** On a piece of a line in front of a cut the same is masked as on the whole line, up to the last
      position that is not masked there; and on a piece behind a cut, from the first such one on. */
  ghost predicate SameBefore(piece: seq<bool>, whole: seq<bool>) {
    |piece| <= |whole| && forall i, j :: 0 <= i <= j < |piece| && !whole[j] ==> piece[i] == whole[i]
  }

  ghost predicate SameBehind(piece: seq<bool>, whole: seq<bool>) {
    && |piece| <= |whole|
    && var cut := |whole| - |piece|;
       forall i, j :: cut <= j <= i < |whole| && !whole[j] ==> piece[i - cut] == whole[i]
  }

  /** The first block of a line, and where it ends. */
  function BlockOf(line: string): (m: Interval)
    requires Leftmost(BEGIN_KEY, line).Some?
    ensures m.start < m.end <= |line|
  {
    LeftmostInText(BEGIN_KEY, line);
    var b := Leftmost(BEGIN_KEY, line).value;
    BlockEndInText(line, b);
    Interval(b.start, BlockEnd(line, b))
  }

  /** The first block of a line ends on it. */
  predicate BlockCloses(line: string)
    requires Leftmost(BEGIN_KEY, line).Some?
  {
    LeftmostInText(BEGIN_KEY, line);
    Leftmost(END_KEY, line[Leftmost(BEGIN_KEY, line).value.end..]).Some?
  }

  /** Nor do they look across the first key block of a line, but for a match that reaches it. */
  ghost predicate LocalToParts(d: RuleSet)
    requires d.rules != []
  {
    forall line :: OneLine(line) && Leftmost(BEGIN_KEY, line).Some? ==>
      var m := BlockOf(line);
      && SameBefore(OtherMask(d, line[..m.start]), OtherMask(d, line))
      && SameBehind(OtherMask(d, line[m.end..]), OtherMask(d, line))
  }

  ghost predicate KeyDetector(d: RuleSet) {
    FindsKeys(d) && LocalToLines(d) && LocalToParts(d)
  }

  /** A match of any rule, or the next block, reaches up to the line's first block from outside. */
  predicate TouchedLine(d: RuleSet, line: string) {
    Leftmost(BEGIN_KEY, line).Some? &&
    var m := BlockOf(line);
    (m.start > 0 && Mask(d, line)[m.start - 1]) || (m.end < |line| && Mask(d, line)[m.end])
  }

  predicate Touched(d: RuleSet, text: string) {
    exists line <- SplitLines(text) :: TouchedLine(d, line)
  }

  // ---- Masks ---------------------------------------------------------------------------

  lemma CoversConcat(a: seq<Interval>, b: seq<Interval>, p: nat)
    ensures Covers(a + b, p) <==> Covers(a, p) || Covers(b, p)
  {
    var all := a + b;
    if i :| 0 <= i < |a| && a[i].start <= p < a[i].end { assert all[i] == a[i]; }
    if i :| 0 <= i < |b| && b[i].start <= p < b[i].end { assert all[|a| + i] == b[i]; }
  }

  lemma CoversShifted(ms: seq<Interval>, offset: nat, p: nat)
    ensures Covers(Shifted(ms, offset), p) <==> offset <= p && Covers(ms, p - offset)
  {
    var all := Shifted(ms, offset);
    if offset <= p {
      if i :| 0 <= i < |ms| && ms[i].start <= p - offset < ms[i].end { assert all[i].start <= p < all[i].end; }
    }
  }

  lemma MaskIsBoth(d: RuleSet, text: string)
    requires FindsKeys(d)
    ensures forall p :: 0 <= p < |text| ==> (Mask(d, text)[p] <==> OtherMask(d, text)[p] || KeyMask(text)[p])
  {
    hide KeyMatches;
    forall p | 0 <= p < |text| ensures Mask(d, text)[p] <==> OtherMask(d, text)[p] || KeyMask(text)[p] {
      CoversConcat(RawMatches(d.rules[..|d.rules| - 1], text), KeyMatches(text), p);
    }
  }

  // ---- The key rule on a line cut at its first block ---------------------------------------------

  lemma {:induction false} MarkerLengthGrows(word: string, kinds: seq<string>, x: string, y: string)
    requires x <= y && MarkerLength(word, kinds, x).Some?
    ensures MarkerLength(word, kinds, y).Some?
  {
    if kinds != [] && !(Marker(word, kinds[0]) <= x) {
      MarkerLengthGrows(word, kinds[1..], x, y);
    } else if kinds != [] {
      assert Marker(word, kinds[0]) <= y;
    }
  }

  /** In front of the leftmost marker there is none. */
  lemma {:induction false} NoneBefore(word: string, text: string)
    requires Leftmost(word, text).Some?
    ensures Leftmost(word, text).value.start <= |text|
    ensures Leftmost(word, text[..Leftmost(word, text).value.start]).None?
    decreases |text|
  {
    hide MarkerLength;
    LeftmostInText(word, text);
    var k := Leftmost(word, text).value.start;
    if MarkerLength(word, KINDS, text).Some? {
      assert text[..k] == "";
      NoMarkerInNothing(word);
    } else {
      NoneBefore(word, text[1..]);
      assert text[..k][1..] == text[1..][..k - 1];
      if MarkerLength(word, KINDS, text[..k]).Some? { MarkerLengthGrows(word, KINDS, text[..k], text); }
    }
  }

  /** The key rule matches nothing in front of the first block, all of it, and behind it what it
      matches there by itself. */
  lemma KeyMaskParts(line: string)
    requires Leftmost(BEGIN_KEY, line).Some?
    ensures var m := BlockOf(line);
            && (forall p :: 0 <= p < m.start ==> !KeyMask(line)[p] && !KeyMask(line[..m.start])[p])
            && (forall p :: m.start <= p < m.end ==> KeyMask(line)[p])
            && (forall p :: m.end <= p < |line| ==> KeyMask(line[m.end..])[p - m.end] == KeyMask(line)[p])
  {
    hide KeyMatches, Leftmost, BlockOf, KeyMask, Covers;
    var m := BlockOf(line);
    forall p | 0 <= p < |line|
      ensures KeyMask(line)[p] <==> m.start <= p < m.end || (m.end <= p && KeyMask(line[m.end..])[p - m.end])
    {
      KeyMaskAt(line, p);
    }
    forall p | 0 <= p < m.start ensures !KeyMask(line[..m.start])[p] {
      KeyMaskFront(line, p);
    }
  }

  lemma KeyMaskFront(line: string, p: nat)
    requires Leftmost(BEGIN_KEY, line).Some? && p < BlockOf(line).start
    ensures !KeyMask(line[..BlockOf(line).start])[p]
  {
    KeyMatchesParts(line);
  }

  lemma KeyMaskAt(line: string, p: nat)
    requires Leftmost(BEGIN_KEY, line).Some? && p < |line|
    ensures var m := BlockOf(line);
            KeyMask(line)[p] <==> m.start <= p < m.end || (m.end <= p && KeyMask(line[m.end..])[p - m.end])
  {
    KeyMatchesParts(line);
    hide KeyMatches, Leftmost, BlockOf;
    var m := BlockOf(line);
    CoversConcat([m], Shifted(KeyMatches(line[m.end..]), m.end), p);
    CoversShifted(KeyMatches(line[m.end..]), m.end, p);
    assert [m][0] == m;
  }

  lemma KeyMatchesParts(line: string)
    requires Leftmost(BEGIN_KEY, line).Some?
    ensures var m := BlockOf(line);
            && KeyMatches(line[..m.start]) == []
            && KeyMatches(line) == [m] + Shifted(KeyMatches(line[m.end..]), m.end)
  {
    NoneBefore(BEGIN_KEY, line);
    hide Leftmost;
  }

  // ---- One line ------------------------------------------------------------------------

  /** Where the masked run that ends at a position begins, and where the one that begins there ends. */
  function RunStart(mask: seq<bool>, k: nat): (t: nat)
    requires k <= |mask|
    ensures t <= k && (t > 0 ==> !mask[t - 1]) && forall p :: t <= p < k ==> mask[p]
  {
    if k == 0 || !mask[k - 1] then k else RunStart(mask, k - 1)
  }

  function RunEnd(mask: seq<bool>, k: nat): (u: nat)
    requires k <= |mask|
    ensures k <= u <= |mask| && (u < |mask| ==> !mask[u]) && forall p :: k <= p < u ==> mask[p]
    decreases |mask| - k
  {
    if k == |mask| || !mask[k] then k else RunEnd(mask, k + 1)
  }

  lemma WholeAroundRun(line: string, mask: seq<bool>, t: nat, u: nat)
    requires |mask| == |line| && t < u <= |line| && forall p :: t <= p < u ==> mask[p]
    requires (t > 0 ==> !mask[t - 1]) && (u < |line| ==> !mask[u])
    ensures Splice(line, mask) == Splice(line[..t], mask[..t]) + MARKER + Splice(line[u..], mask[u..])
  {
    hide Splice, Stretches, MARKER;
    assert line == line[..u] + line[u..] && mask == mask[..u] + mask[u..];
    SpliceCut(line[..u], mask[..u], line[u..], mask[u..]);
    assert line[..u] == line[..t] + line[t..u] && mask[..u] == mask[..t] + mask[t..u];
    SpliceCut(line[..t], mask[..t], line[t..u], mask[t..u]);
    SpliceWhole(line[t..u], mask[t..u]);
  }

  /** The piece in front: what the whole line leaves of it, and something more exactly if the run
      reaches into it. */
  lemma FrontPiece(text: string, piece: seq<bool>, whole: seq<bool>) returns (more: string)
    requires |piece| == |text| && |text| <= |whole| && SameBefore(piece, whole)
    ensures var t := RunStart(whole, |text|);
            && Splice(text, piece) == Splice(text[..t], whole[..t]) + more
            && (more == "" <==> t == |text|)
  {
    hide Splice, Stretches, MARKER;
    var t := RunStart(whole, |text|);
    more := Splice(text[t..], piece[t..]);
    assert piece[..t] == whole[..t];
    assert text == text[..t] + text[t..] && piece == piece[..t] + piece[t..];
    SpliceCut(text[..t], piece[..t], text[t..], piece[t..]);
    if t < |text| { SpliceWhole(text[t..], piece[t..]); } else { NothingLeft(text[t..], piece[t..]); }
  }

  lemma BackPiece(text: string, piece: seq<bool>, whole: seq<bool>) returns (more: string)
    requires |piece| == |text| && |text| <= |whole| && SameBehind(piece, whole)
    ensures var cut := |whole| - |text|;
            var u := RunEnd(whole, cut);
            && Splice(text, piece) == more + Splice(text[u - cut..], whole[u..])
            && (more == "" <==> u == cut)
  {
    hide Splice, Stretches, MARKER;
    var cut := |whole| - |text|;
    var u := RunEnd(whole, cut);
    more := Splice(text[..u - cut], piece[..u - cut]);
    forall i | 0 <= i < |whole| - u ensures piece[u - cut..][i] == whole[u..][i] {
      assert !whole[u] && whole[u..][i] == whole[u + i];
    }
    assert piece[u - cut..] == whole[u..];
    assert text == text[..u - cut] + text[u - cut..] && piece == piece[..u - cut] + piece[u - cut..];
    SpliceCut(text[..u - cut], piece[..u - cut], text[u - cut..], piece[u - cut..]);
    if u > cut { SpliceWhole(text[..u - cut], piece[..u - cut]); } else { NothingLeft(text[..0], piece[..0]); }
  }

  lemma NothingLeft(text: string, mask: seq<bool>)
    requires text == "" && mask == []
    ensures Splice(text, mask) == ""
  {
  }

  /** The two sides of a block redacted by themselves, and the line redacted whole. */
  lemma PartsAgainstWhole(line: string, whole: seq<bool>, start: nat, end: nat, front: seq<bool>, back: seq<bool>)
    requires |whole| == |line| && start < end <= |line| && |front| == start && |back| == |line| - end
    requires forall p :: start <= p < end ==> whole[p]
    requires SameBefore(front, whole) && SameBehind(back, whole)
    ensures var parts := Splice(line[..start], front) + MARKER + Splice(line[end..], back);
            var touched := (start > 0 && whole[start - 1]) || (end < |line| && whole[end]);
            && (!touched ==> parts == Splice(line, whole))
            && (touched ==> |parts| > |Splice(line, whole)|)
  {
    hide Splice, Stretches, MARKER, SameBefore, SameBehind;
    var t, u := RunStart(whole, start), RunEnd(whole, end);
    WholeAroundRun(line, whole, t, u);
    var x := FrontPiece(line[..start], front, whole);
    var y := BackPiece(line[end..], back, whole);
    assert line[..start][..t] == line[..t] && line[end..][u - end..] == line[u..];
    Around(Splice(line[..t], whole[..t]), x, MARKER, y, Splice(line[u..], whole[u..]));
  }

  lemma Around(a: string, x: string, m: string, y: string, b: string)
    ensures x == "" && y == "" ==> (a + x) + m + (y + b) == a + m + b
    ensures |(a + x) + m + (y + b)| == |a + m + b| + |x| + |y|
  {
  }

  /** Line by line the redactor and the whole-text projection agree exactly on untouched lines; on
      the others the redactor leaves more. */
  lemma LineExactly(d: RuleSet, line: string)
    requires KeyDetector(d) && OneLine(line)
    ensures var out := RedactLine(ScannerOf(d), false, line).0;
            && (!TouchedLine(d, line) ==> out == Redact(d, line).0)
            && (TouchedLine(d, line) ==> |out| > |Redact(d, line).0|)
  {
    hide Redact, FindsKeys, LocalToLines, LocalToParts, TouchedLine, Leftmost, BlockOf, ScansKeys, ScannerOf,
         RedactLine;
    ScannerScans(d);
    LineIsParts(ScannerOf(d), line);
    ScannerRedacts(d, line);
    TouchedMeans(d, line);
    if Leftmost(BEGIN_KEY, line).Some? {
      var m := BlockOf(line);
      ScannerRedacts(d, line[..m.start]);
      ScannerRedacts(d, line[m.end..]);
      BlockParts(d, line);
      RedactExact(d, line);
      RedactExact(d, line[..m.start]);
      RedactExact(d, line[m.end..]);
      hide Splice, Mask, MARKER;
      PartsAgainstWhole(line, Mask(d, line), m.start, m.end, Mask(d, line[..m.start]), Mask(d, line[m.end..]));
    }
  }

  lemma ScannerScans(d: RuleSet)
    requires FindsKeys(d)
    ensures ScansKeys(ScannerOf(d))
  {
    hide Redact, Leftmost;
    NothingInEmptyText(d);
    UntouchedText(d, "");
  }

  lemma ScannerRedacts(d: RuleSet, text: string)
    ensures ScannerOf(d).redact(text) == Redact(d, text).0
  {
    hide Redact;
  }

  lemma TouchedMeans(d: RuleSet, line: string)
    ensures Leftmost(BEGIN_KEY, line).None? ==> !TouchedLine(d, line)
    ensures Leftmost(BEGIN_KEY, line).Some? ==>
              var m := BlockOf(line);
              TouchedLine(d, line) <==>
                (m.start > 0 && Mask(d, line)[m.start - 1]) || (m.end < |line| && Mask(d, line)[m.end])
  {
  }

  /** A scanner that finds the program's markers. */
  ghost predicate ScansKeys(s: LineScanner) {
    FindsMarkers(s) && s.redact("") == ""
  }

  /** What the redactor does to a line outside every block. */
  lemma LineIsParts(s: LineScanner, line: string)
    requires ScansKeys(s)
    ensures Leftmost(BEGIN_KEY, line).None? ==> RedactLine(s, false, line) == (s.redact(line), false)
    ensures Leftmost(BEGIN_KEY, line).Some? ==>
              var m := BlockOf(line);
              && RedactLine(s, false, line).0 == s.redact(line[..m.start]) + MARKER + s.redact(line[m.end..])
              && RedactLine(s, false, line).1 == !BlockCloses(line)
  {
    hide Leftmost, MARKER;
    LeftmostInText(BEGIN_KEY, line);
    if Leftmost(BEGIN_KEY, line).Some? {
      if BlockCloses(line) { ClosedIsParts(s, line); } else { OpenIsParts(s, line); }
    }
  }

  lemma ClosedIsParts(s: LineScanner, line: string)
    requires ScansKeys(s) && Leftmost(BEGIN_KEY, line).Some? && BlockCloses(line)
    ensures var m := BlockOf(line);
            RedactLine(s, false, line) == (s.redact(line[..m.start]) + MARKER + s.redact(line[m.end..]), false)
  {
    hide Leftmost, MARKER;
    LeftmostInText(BEGIN_KEY, line);
    var b := Leftmost(BEGIN_KEY, line).value;
    var rest := line[b.end..];
    LeftmostInText(END_KEY, rest);
    assert rest[Leftmost(END_KEY, rest).value.end..] == line[BlockOf(line).end..];
  }

  lemma OpenIsParts(s: LineScanner, line: string)
    requires ScansKeys(s) && Leftmost(BEGIN_KEY, line).Some? && !BlockCloses(line)
    ensures var m := BlockOf(line);
            RedactLine(s, false, line) == (s.redact(line[..m.start]) + MARKER + s.redact(line[m.end..]), true)
  {
    hide Leftmost, MARKER;
    LeftmostInText(BEGIN_KEY, line);
    assert line[|line|..] == "";
    Trailing(s.redact(line[..BlockOf(line).start]) + MARKER);
  }

  lemma Trailing(x: string)
    ensures x + "" == x
  {
  }

  lemma BlockParts(d: RuleSet, line: string)
    requires KeyDetector(d) && OneLine(line) && Leftmost(BEGIN_KEY, line).Some?
    ensures var m := BlockOf(line);
            && (forall p :: m.start <= p < m.end ==> Mask(d, line)[p])
            && SameBefore(Mask(d, line[..m.start]), Mask(d, line))
            && SameBehind(Mask(d, line[m.end..]), Mask(d, line))
  {
    hide Mask, OtherMask, KeyMask, Leftmost, BlockOf, LocalToLines;
    var m := BlockOf(line);
    MaskIsBoth(d, line);
    MaskIsBoth(d, line[..m.start]);
    MaskIsBoth(d, line[m.end..]);
    KeyMaskParts(line);
    BothBefore(OtherMask(d, line[..m.start]), OtherMask(d, line), KeyMask(line[..m.start]), KeyMask(line),
               Mask(d, line[..m.start]), Mask(d, line));
    BothBehind(OtherMask(d, line[m.end..]), OtherMask(d, line), KeyMask(line[m.end..]), KeyMask(line),
               Mask(d, line[m.end..]), Mask(d, line));
  }

  ghost predicate Both(mask: seq<bool>, a: seq<bool>, b: seq<bool>) {
    |mask| == |a| == |b| && forall p :: 0 <= p < |mask| ==> (mask[p] <==> a[p] || b[p])
  }

  lemma BothBefore(piece: seq<bool>, whole: seq<bool>, key: seq<bool>, keys: seq<bool>, mask: seq<bool>,
                   masks: seq<bool>)
    requires SameBefore(piece, whole) && Both(mask, piece, key) && Both(masks, whole, keys)
    requires forall p :: 0 <= p < |key| ==> key[p] == keys[p]
    ensures SameBefore(mask, masks)
  {
  }

  lemma BothBehind(piece: seq<bool>, whole: seq<bool>, key: seq<bool>, keys: seq<bool>, mask: seq<bool>,
                   masks: seq<bool>)
    requires SameBehind(piece, whole) && Both(mask, piece, key) && Both(masks, whole, keys)
    requires forall p :: |keys| - |key| <= p < |keys| ==> key[p - (|keys| - |key|)] == keys[p]
    ensures SameBehind(mask, masks)
  {
    var cut := |masks| - |mask|;
    forall i, j | cut <= j <= i < |masks| && !masks[j] ensures mask[i - cut] == masks[i] {
      assert !whole[j];
      assert key[i - cut] == keys[i];
    }
  }

  // ---- Key blocks and the end of a line ------------------------------------------------------------

  function Across(a: string, b: string): string {
    a + "\n" + b
  }

  lemma MarkerKindOneLine(word: string, kind: string)
    requires OneLine(word) && OneLine(kind)
    ensures OneLine(Marker(word, kind))
  {
    assert OneLine(DASHES) && OneLine("PRIVATE KEY");
  }

  lemma PrefixAcross(marker: string, a: string, b: string)
    requires OneLine(marker)
    ensures marker <= Across(a, b) <==> marker <= a
  {
    if |marker| > |a| { assert marker[|a|] != '\n' == Across(a, b)[|a|]; }
  }

  /** No marker reaches over the end of a line. */
  lemma {:induction false} MarkerAcross(word: string, kinds: seq<string>, a: string, b: string)
    requires OneLine(word) && forall kind <- kinds :: OneLine(kind)
    ensures MarkerLength(word, kinds, Across(a, b)) == MarkerLength(word, kinds, a)
  {
    hide Across, Marker;
    if kinds != [] {
      assert kinds[0] in kinds;
      MarkerKindOneLine(word, kinds[0]);
      PrefixAcross(Marker(word, kinds[0]), a, b);
      MarkerAcross(word, kinds[1..], a, b);
    }
  }

  lemma KindsOneLine()
    ensures (forall kind <- KINDS :: OneLine(kind)) && OneLine(BEGIN_KEY) && OneLine(END_KEY)
  {
    assert OneLine("") && OneLine("RSA ") && OneLine("EC ") && OneLine("OPENSSH ") && OneLine("DSA ");
  }

  function Later(m: Option<Interval>, offset: nat): Option<Interval> {
    match m
    case None => None
    case Some(i) => Some(Interval(offset + i.start, offset + i.end))
  }

  lemma LeftmostStep(word: string, text: string)
    requires text != "" && MarkerLength(word, KINDS, text).None?
    ensures Leftmost(word, text) == Later(Leftmost(word, text[1..]), 1)
  {
    hide MarkerLength;
  }

  /** The leftmost marker of two lines is that of the first, or else that of the second. */
  lemma {:induction false} LeftmostAcross(word: string, a: string, b: string)
    requires OneLine(word)
    ensures Leftmost(word, Across(a, b)) ==
              if Leftmost(word, a).Some? then Leftmost(word, a) else Later(Leftmost(word, b), |a| + 1)
    decreases |a|
  {
    hide MarkerLength;
    KindsOneLine();
    MarkerAcross(word, KINDS, a, b);
    if MarkerLength(word, KINDS, a).None? {
      LeftmostStep(word, Across(a, b));
      if a == "" {
        NoMarkerInNothing(word);
        assert Across(a, b)[1..] == b;
      } else {
        LeftmostStep(word, a);
        assert Across(a, b)[1..] == Across(a[1..], b);
        LeftmostAcross(word, a[1..], b);
      }
    }
  }

  /** The key rule on two lines, unless a block reaches over the end of the first. */
  ghost predicate KeysSplit(a: string, b: string) {
    && (forall p :: 0 <= p < |a| ==> KeyMask(Across(a, b))[p] == KeyMask(a)[p])
    && (forall p :: |a| < p <= |a| + |b| ==> KeyMask(Across(a, b))[p] == KeyMask(b)[p - |a| - 1])
  }

  /** The first block of two lines, when it does not reach over the end of the first one. */
  lemma BlockAcross(a: string, b: string)
    requires |Across(a, b)| == |a| + 1 + |b| && !KeyMask(Across(a, b))[|a|] && Leftmost(BEGIN_KEY, a).Some?
    ensures Leftmost(BEGIN_KEY, Across(a, b)).Some? && BlockOf(Across(a, b)) == BlockOf(a)
    ensures BlockCloses(a)
  {
    KindsOneLine();
    LeftmostAcross(BEGIN_KEY, a, b);
    LeftmostInText(BEGIN_KEY, a);
    BlockEndAcross(a, b, Leftmost(BEGIN_KEY, a).value);
    hide Across, KeyMask, KeyMatches, Leftmost, BlockEnd;
    KeyMaskAt(Across(a, b), |a|);
  }

  lemma BlockEndAcross(a: string, b: string, m: Interval)
    requires InText(m, a)
    ensures InText(m, Across(a, b)) && |Across(a, b)| == |a| + 1 + |b|
    ensures if Leftmost(END_KEY, a[m.end..]).Some? then BlockEnd(Across(a, b), m) == BlockEnd(a, m)
            else BlockEnd(Across(a, b), m) > |a|
  {
    KindsOneLine();
    AcrossTail(a, b, m.end);
    hide Across, Leftmost;
    LeftmostAcross(END_KEY, a[m.end..], b);
  }

  lemma AcrossTail(a: string, b: string, k: nat)
    requires k <= |a|
    ensures Across(a, b)[k..] == Across(a[k..], b) && |Across(a, b)| == |a| + 1 + |b|
  {
  }

  lemma {:induction false} KeysSplitAcross(a: string, b: string)
    requires |Across(a, b)| == |a| + 1 + |b| && !KeyMask(Across(a, b))[|a|]
    ensures KeysSplit(a, b)
    decreases |a|
  {
    hide Across, KeyMask, KeyMatches, Leftmost, BlockOf;
    var text := Across(a, b);
    AcrossTail(a, b, 0);
    if Leftmost(BEGIN_KEY, a).Some? {
      BlockAcross(a, b);
      var m := BlockOf(a);
      AcrossTail(a, b, m.end);
      KeyMaskAt(text, |a|);
      KeysSplitAcross(a[m.end..], b);
      forall p | 0 <= p < |a| ensures KeyMask(text)[p] == KeyMask(a)[p] {
        KeyMaskAt(text, p);
        KeyMaskAt(a, p);
      }
      forall p | |a| < p <= |a| + |b| ensures KeyMask(text)[p] == KeyMask(b)[p - |a| - 1] {
        KeyMaskAt(text, p);
      }
    } else {
      NoBlockAcross(a, b);
    }
  }

  lemma NoBlockAcross(a: string, b: string)
    requires Leftmost(BEGIN_KEY, a).None?
    ensures |Across(a, b)| == |a| + 1 + |b| && !KeyMask(Across(a, b))[|a|]
    ensures KeysSplit(a, b)
  {
    var text := Across(a, b);
    KindsOneLine();
    LeftmostAcross(BEGIN_KEY, a, b);
    AcrossTail(a, b, 0);
    NoBlockNoMask(a);
    if Leftmost(BEGIN_KEY, b).Some? {
      LaterBlock(a, b);
    } else {
      NoBlockNoMask(text);
      NoBlockNoMask(b);
    }
  }

  lemma NoBlockNoMask(text: string)
    requires Leftmost(BEGIN_KEY, text).None?
    ensures KeyMatches(text) == [] && forall p :: 0 <= p < |text| ==> !KeyMask(text)[p]
  {
    hide Leftmost;
  }

  lemma LaterBlock(a: string, b: string)
    requires Leftmost(BEGIN_KEY, a).None? && Leftmost(BEGIN_KEY, b).Some?
    ensures |Across(a, b)| == |a| + 1 + |b| && !KeyMask(Across(a, b))[|a|]
    ensures KeysSplit(a, b)
  {
    hide KeyMask, KeyMatches, Leftmost;
    var text, k := Across(a, b), |a| + 1;
    KindsOneLine();
    LeftmostAcross(BEGIN_KEY, a, b);
    LeftmostInText(BEGIN_KEY, b);
    var m := Leftmost(BEGIN_KEY, b).value;
    assert text[k + m.end..] == b[m.end..];
    var n := BlockOf(b);
    assert BlockOf(text) == Interval(k + n.start, k + n.end);
    assert text[k + n.end..] == b[n.end..];
    hide Across, BlockOf;
    NoBlockNoMask(a);
    forall p | 0 <= p < |text|
      ensures KeyMask(text)[p] <==> k <= p && KeyMask(b)[p - k]
    {
      KeyMaskAt(text, p);
      if k <= p { KeyMaskAt(b, p - k); }
    }
  }

  lemma {:induction false} NoMarkerThere(word: string, kinds: seq<string>, text: string)
    requires text != "" && text[0] != '-'
    ensures MarkerLength(word, kinds, text).None?
  {
    MarkerDashes(word, kinds, text);
  }

  /** The leftmost marker lies behind text without dashes. */
  lemma {:induction false} LeftmostSkips(word: string, front: string, text: string)
    requires forall i :: 0 <= i < |front| ==> front[i] != '-'
    ensures Leftmost(word, front + text) == Later(Leftmost(word, text), |front|)
    decreases |front|
  {
    hide MarkerLength, Leftmost;
    if front == "" {
      assert front + text == text;
    } else {
      NoMarkerThere(word, KINDS, front + text);
      LeftmostStep(word, front + text);
      assert (front + text)[1..] == front[1..] + text;
      LeftmostSkips(word, front[1..], text);
    }
  }

  // ---- The whole text ---------------------------------------------------------------------

  /** When no match covers the end of a line, the masks of the lines make up that of the text. */
  lemma MaskAcross(d: RuleSet, a: string, b: string)
    requires KeyDetector(d) && !CoversNewline(d, Across(a, b))
    ensures |Across(a, b)| == |a| + 1 + |b| && !KeyMask(Across(a, b))[|a|]
    ensures Mask(d, Across(a, b)) == Mask(d, a) + [false] + Mask(d, b)
  {
    hide Mask, OtherMask, KeyMask, LocalToParts, KeyMatches, Leftmost;
    var text := Across(a, b);
    MaskIsBoth(d, text);
    MaskIsBoth(d, a);
    MaskIsBoth(d, b);
    assert text[|a|] == '\n' && !Mask(d, text)[|a|];
    assert OtherMask(d, text) == OtherMask(d, a) + [false] + OtherMask(d, b);
    KeysSplitAcross(a, b);
    hide Across, KeyDetector;
    forall p | 0 <= p < |text| ensures Mask(d, text)[p] == (Mask(d, a) + [false] + Mask(d, b))[p] {
      if p > |a| { assert KeyMask(text)[p] == KeyMask(b)[p - |a| - 1]; }
    }
  }

  lemma LinesUncovered(d: RuleSet, a: string, b: string)
    requires !CoversNewline(d, Across(a, b)) && Mask(d, Across(a, b)) == Mask(d, a) + [false] + Mask(d, b)
    ensures !CoversNewline(d, b)
  {
    hide Mask;
    forall p | 0 <= p < |b| && b[p] == '\n' ensures !Mask(d, b)[p] {
      assert Across(a, b)[|a| + 1 + p] == b[p];
      assert Mask(d, Across(a, b))[|a| + 1 + p] == Mask(d, b)[p];
    }
  }

  lemma RedactAcross(d: RuleSet, a: string, b: string)
    requires Mask(d, Across(a, b)) == Mask(d, a) + [false] + Mask(d, b)
    ensures Redact(d, Across(a, b)).0 == Across(Redact(d, a).0, Redact(d, b).0)
  {
    hide Redact, Mask, Splice, Stretches;
    RedactExact(d, Across(a, b));
    RedactExact(d, a);
    RedactExact(d, b);
    SpliceConcat(a, Mask(d, a), b, Mask(d, b));
  }

  lemma PassAcross(f: LineFn, a: string, b: string)
    requires OneLine(a) && !f(false, a).1
    ensures Pass(f, false, Across(a, b)) == Across(f(false, a).0, Pass(f, false, b))
    ensures SplitLines(Across(a, b)) == [a] + SplitLines(b)
  {
    FirstLine(f, false, a, b);
    SplitFirst(a, b);
    ConcatAssoc(f(false, a).0 + "\n", PassLines(f, false, b), f(KeyAfter(f, false, b), Tail(b)).0);
  }

  lemma PassOneLine(f: LineFn, text: string)
    requires OneLine(text)
    ensures Pass(f, false, text) == f(false, text).0 && SplitLines(text) == [text]
  {
    TailUnfinished(f, false, text);
    SplitOne(text);
    assert "" + f(false, text).0 == f(false, text).0;
  }

  lemma TouchedAcross(d: RuleSet, a: string, b: string)
    requires SplitLines(Across(a, b)) == [a] + SplitLines(b)
    ensures Touched(d, Across(a, b)) <==> TouchedLine(d, a) || Touched(d, b)
  {
    hide TouchedLine, Across, SplitLines;
    assert a in [a] + SplitLines(b);
    assert forall line <- SplitLines(b) :: line in [a] + SplitLines(b);
  }

  /** The first of several lines leaves no block open when no match covers its end. */
  lemma LineEndsOutside(d: RuleSet, a: string, b: string)
    requires KeyDetector(d) && |Across(a, b)| == |a| + 1 + |b| && !KeyMask(Across(a, b))[|a|]
    ensures !RedactLine(ScannerOf(d), false, a).1
  {
    hide Redact, LocalToLines, LocalToParts, Leftmost, BlockOf, ScansKeys, RedactLine, Across, KeyMask, BlockCloses;
    ScannerScans(d);
    LineIsParts(ScannerOf(d), a);
    if Leftmost(BEGIN_KEY, a).Some? { BlockAcross(a, b); }
  }

  lemma Lengths(x: string, y: string, z: string, w: string)
    ensures x == z && y == w ==> Across(x, y) == Across(z, w)
    ensures |Across(x, y)| - |Across(z, w)| == (|x| - |z|) + (|y| - |w|)
  {
  }

  /** Without a covered newline the pass is the projection exactly on untouched texts; otherwise it
      is longer. */
  lemma {:induction false} TextExactly(d: RuleSet, text: string)
    requires KeyDetector(d) && !CoversNewline(d, text)
    ensures !Touched(d, text) ==> Pass(LinesFor(d), false, text) == Redact(d, text).0
    ensures Touched(d, text) ==> |Pass(LinesFor(d), false, text)| > |Redact(d, text).0|
    decreases |text|
  {
    hide Redact, KeyDetector, FindsKeys, LocalToLines, LocalToParts, CoversNewline, TouchedLine, Mask, KeyMask,
         RedactLine, Pass, SplitLines, ScannerOf;
    var f := LinesFor(d);
    LineEndExact(text);
    var n := LineEnd(text);
    if n == |text| {
      assert text[..n] == text;
      PassOneLine(f, text);
      LineExactly(d, text);
      assert f(false, text) == RedactLine(ScannerOf(d), false, text);
    } else {
      var a, b := text[..n], text[n + 1..];
      assert text == Across(a, b);
      MaskAcross(d, a, b);
      LinesUncovered(d, a, b);
      LineEndsOutside(d, a, b);
      assert f(false, a) == RedactLine(ScannerOf(d), false, a);
      PassAcross(f, a, b);
      RedactAcross(d, a, b);
      TouchedAcross(d, a, b);
      LineExactly(d, a);
      hide LinesFor, Across, Touched;
      TextExactly(d, b);
      Lengths(f(false, a).0, Pass(f, false, b), Redact(d, a).0, Redact(d, b).0);
    }
  }

  /** What fails the engine's check of the stream. */
  ghost predicate Fails(d: RuleSet, text: string) {
    CoversNewline(d, text) || Touched(d, text)
  }

  /** The streamed text of a response is its projection if and only if no match covers the end of a
      line and the first key block of every line stands clear of every other match. */
  lemma AgreesExactly(d: RuleSet, text: string)
    requires KeyDetector(d)
    ensures Pass(LinesFor(d), false, text) == Redact(d, text).0 <==> !Fails(d, text)
    ensures Fails(d, text) ==> Pass(LinesFor(d), false, text) != ""
  {
    hide Redact, KeyDetector, CoversNewline, Touched, LinesFor, Pass;
    if CoversNewline(d, text) {
      CoveredNewlineDisagrees(d, text);
    } else {
      TextExactly(d, text);
    }
  }

  /** No match covers the end of a line, and still the stream is not the projection. */
  ghost predicate DisagreesOnLine(d: RuleSet, line: string) {
    OneLine(line) && !CoversNewline(d, line) && Pass(LinesFor(d), false, line) != Redact(d, line).0
  }

  lemma TouchedLineDisagrees(d: RuleSet, line: string)
    requires KeyDetector(d) && OneLine(line) && TouchedLine(d, line)
    ensures DisagreesOnLine(d, line)
  {
    hide KeyDetector, Leftmost, BlockOf, Redact, LinesFor, Pass, Mask, TouchedLine;
    SplitOne(line);
    assert line in SplitLines(line);
    AgreesExactly(d, line);
  }

  /** A key that is all of a line, complete or not, fails no check, whatever matches inside it. */
  lemma KeyAloneAgrees(d: RuleSet, line: string)
    requires KeyDetector(d) && OneLine(line) && Leftmost(BEGIN_KEY, line).Some? && BlockOf(line) == Interval(0, |line|)
    ensures Pass(LinesFor(d), false, line) == Redact(d, line).0
  {
    hide KeyDetector, Leftmost, BlockOf, Redact, LinesFor, Pass, Mask;
    SplitOne(line);
    AgreesExactly(d, line);
  }

  /** With such a detector the rules are line-local. */
  lemma KeyDetectorIsLineLocal(d: RuleSet)
    requires KeyDetector(d)
    ensures LineLocal(d)
  {
    hide Leftmost, Mask, OtherMask, KeyMask, KeyMatches, LocalToParts;
    forall a, b | d.begin(a + "\n" + b).None?
      ensures d.begin(a).None? && d.begin(b).None?
      ensures Mask(d, a + "\n" + b) == Mask(d, a) + [false] + Mask(d, b)
    {
      NoKeysAcross(d, a, b);
    }
  }

  lemma NoKeysAcross(d: RuleSet, a: string, b: string)
    requires KeyDetector(d) && Leftmost(BEGIN_KEY, a + "\n" + b).None?
    ensures Leftmost(BEGIN_KEY, a).None? && Leftmost(BEGIN_KEY, b).None?
    ensures Mask(d, a + "\n" + b) == Mask(d, a) + [false] + Mask(d, b)
  {
    hide Leftmost, Mask, OtherMask, KeyMask, KeyMatches, LocalToParts;
    KindsOneLine();
    LeftmostAcross(BEGIN_KEY, a, b);
    var text := a + "\n" + b;
    assert text == Across(a, b);
    MaskIsBoth(d, text);
    MaskIsBoth(d, a);
    MaskIsBoth(d, b);
    NoBlockNoMask(text);
    NoBlockNoMask(a);
    NoBlockNoMask(b);
    assert OtherMask(d, text) == OtherMask(d, a) + [false] + OtherMask(d, b);
  }

  // ---- Redacted JSON -----------------------------------------------------------------------

  /** What any test of JSON validity does: an object does not end like an array, and no valid text
      begins with the marker. */
  ghost predicate ReadsJson(jsonValid: string -> bool) {
    forall text :: jsonValid(text) && text != "" ==>
      !(MARKER <= text) && (text[0] == '{' ==> text[|text| - 1] != ']')
  }

  lemma {:induction false} SpliceFirst(text: string, mask: seq<bool>)
    requires |mask| == |text| && text != ""
    ensures Splice(text, mask) != ""
    ensures if mask[0] then MARKER <= Splice(text, mask) else Splice(text, mask)[0] == text[0]
  {
    SpliceLast(text, mask);
    if |text| > 1 {
      SpliceFirst(text[..|text| - 1], mask[..|text| - 1]);
    } else {
      NothingLeft(text[..|text| - 1], mask[..|text| - 1]);
    }
  }

  /** A text that is matched from some position to its end ends with the marker. */
  lemma MaskedToTheEnd(text: string, mask: seq<bool>, k: nat)
    requires |mask| == |text| && k < |text| && forall p :: k <= p < |text| ==> mask[p]
    ensures var out := Splice(text, mask); out != "" && out[|out| - 1] == ']'
  {
    hide Splice, Stretches;
    var t := RunStart(mask, |text|);
    WholeAroundRun(text, mask, t, |text|);
    NothingLeft(text[|text|..], mask[|text|..]);
    MarkerCloses(Splice(text[..t], mask[..t]));
  }

  lemma MarkerCloses(a: string)
    ensures var out := a + MARKER + ""; out != "" && out[|out| - 1] == ']'
  {
    assert MARKER[|MARKER| - 1] == ']';
  }

  /** JSON that quotes the beginning of a key is no JSON any more when it has been redacted. */
  lemma RedactedJsonBreaks(d: RuleSet, jsonValid: string -> bool, front: string, rest: string)
    requires FindsKeys(d) && ReadsJson(jsonValid)
    requires front != "" && front[0] == '{' && forall i :: 0 <= i < |front| ==> front[i] != '-'
    requires Leftmost(END_KEY, rest).None?
    ensures var text := front + (Marker(BEGIN_KEY, "") + rest);
            Redact(d, text).1 > 0 && !jsonValid(Redact(d, text).0)
  {
    hide Redact, Marker, Leftmost, KeyMatches, Mask, ReadsJson, Splice, Stretches, FindsKeys;
    var b := Marker(BEGIN_KEY, "");
    var text := front + (b + rest);
    UnterminatedBlock(front, rest);
    BlockIsMasked(d, text);
    RedactExact(d, text);
    SpliceFirst(text, Mask(d, text));
    MaskedToTheEnd(text, Mask(d, text), |front|);
    NotJson(jsonValid, Redact(d, text).0);
    if Redact(d, text).1 == 0 { UntouchedHasNoMask(d, text, |front|); }
  }

  lemma NotJson(jsonValid: string -> bool, text: string)
    requires ReadsJson(jsonValid) && text != "" && text[|text| - 1] == ']' && (MARKER <= text || text[0] == '{')
    ensures !jsonValid(text)
  {
  }

  /** A block that begins behind text without dashes and does not end. */
  lemma UnterminatedBlock(front: string, rest: string)
    requires (forall i :: 0 <= i < |front| ==> front[i] != '-') && Leftmost(END_KEY, rest).None?
    ensures var text := front + (Marker(BEGIN_KEY, "") + rest);
            Leftmost(BEGIN_KEY, text).Some? && BlockOf(text) == Interval(|front|, |text|)
  {
    var b := Marker(BEGIN_KEY, "");
    var text := front + (b + rest);
    MarkerFirst(BEGIN_KEY, rest);
    hide Marker, Leftmost;
    LeftmostSkips(BEGIN_KEY, front, b + rest);
    assert text[|front| + |b|..] == rest;
  }

  lemma BlockIsMasked(d: RuleSet, text: string)
    requires FindsKeys(d) && Leftmost(BEGIN_KEY, text).Some?
    ensures var m := BlockOf(text); forall p :: m.start <= p < m.end ==> Mask(d, text)[p]
  {
    hide Mask, OtherMask, KeyMask, Leftmost, BlockOf;
    MaskIsBoth(d, text);
    KeyMaskParts(text);
  }

  lemma UntouchedHasNoMask(d: RuleSet, text: string, p: nat)
    requires Redact(d, text).1 == 0 && p < |text|
    ensures !Mask(d, text)[p]
  {
    MatchesExact(d, text);
    assert !Covers([], p);
  }
}
