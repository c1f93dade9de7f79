/** The program's rule for AWS access keys beside the one for private keys: a detector to which the
    exact condition of the stream check applies, and a line on which the check fails. */
module AccessKeys {
  import opened Wrappers
  import opened Projection
  import opened LinePass
  import opened Stream
  import opened KeyBlocks
  import opened Agreement

  const KEY_LENGTH: nat := 20

  predicate UpperOrDigit(c: char) {
    'A' <= c <= 'Z' || '0' <= c <= '9'
  }

  predicate WordChar(c: char) {
    UpperOrDigit(c) || 'a' <= c <= 'z' || c == '_'
  }

  /** An access key starts here: AKIA or ASIA, 16 capitals or digits, and word boundaries around it. */
  predicate KeyAt(text: string, k: nat) {
    && k + KEY_LENGTH <= |text|
    && ("AKIA" <= text[k..] || "ASIA" <= text[k..])
    && (forall i :: k <= i < k + KEY_LENGTH ==> UpperOrDigit(text[i]))
    && (k > 0 ==> !WordChar(text[k - 1]))
    && (k + KEY_LENGTH < |text| ==> !WordChar(text[k + KEY_LENGTH]))
  }

  function KeysFrom(text: string, k: nat): seq<Interval>
    requires k <= |text|
    decreases |text| - k
  {
    if k == |text| then []
    else (if KeyAt(text, k) then [Interval(k, k + KEY_LENGTH)] else []) + KeysFrom(text, k + 1)
  }

  function AccessKeyMatches(text: string): seq<Interval> {
    KeysFrom(text, 0)
  }

  lemma {:induction false} KeysFromCover(text: string, k: nat, p: nat)
    requires k <= |text|
    ensures Covers(KeysFrom(text, k), p) <==> exists i :: k <= i <= p < i + KEY_LENGTH && KeyAt(text, i)
    decreases |text| - k
  {
    hide KeyAt;
    if k < |text| {
      KeysFromCover(text, k + 1, p);
      CoversConcat(if KeyAt(text, k) then [Interval(k, k + KEY_LENGTH)] else [], KeysFrom(text, k + 1), p);
      assert KeyAt(text, k) ==> [Interval(k, k + KEY_LENGTH)][0] == Interval(k, k + KEY_LENGTH);
    } else {
      NoKeyAtEnd(text);
    }
  }

  lemma NoKeyAtEnd(text: string)
    ensures forall i :: |text| <= i ==> !KeyAt(text, i)
  {
  }

  /** A piece of a text between characters that are no word characters. */
  ghost predicate CutOut(text: string, lo: nat, hi: nat) {
    && lo <= hi <= |text|
    && (lo > 0 ==> !WordChar(text[lo - 1]))
    && (hi < |text| ==> !WordChar(text[hi]))
  }

  lemma KeyInPiece(text: string, lo: nat, hi: nat, k: nat)
    requires CutOut(text, lo, hi)
    ensures KeyAt(text[lo..hi], k) <==> lo + k + KEY_LENGTH <= hi && KeyAt(text, lo + k)
  {
    var piece := text[lo..hi];
    if k + KEY_LENGTH <= |piece| {
      assert forall i :: k <= i < k + KEY_LENGTH ==> piece[i] == text[lo + i];
      assert forall i :: lo + k <= i < lo + k + KEY_LENGTH ==> text[i] == piece[i - lo];
      FourChars(piece[k..], text[lo + k..]);
    }
  }

  lemma FourChars(a: string, b: string)
    requires |a| >= 4 && |b| >= 4 && a[..4] == b[..4]
    ensures ("AKIA" <= a <==> "AKIA" <= b) && ("ASIA" <= a <==> "ASIA" <= b)
  {
    assert forall i :: 0 <= i < 4 ==> a[i] == a[..4][i] == b[..4][i] == b[i];
  }

  lemma KeyStaysIn(text: string, lo: nat, hi: nat, p: nat, i: nat)
    requires CutOut(text, lo, hi) && lo <= p < hi && i <= p < i + KEY_LENGTH && KeyAt(text, i)
    ensures lo <= i && i + KEY_LENGTH <= hi
  {
  }

  /** On such a piece the rule matches what it matches there in the whole text. */
  lemma PieceCover(text: string, lo: nat, hi: nat, p: nat)
    requires CutOut(text, lo, hi) && lo <= p < hi
    ensures Covers(AccessKeyMatches(text[lo..hi]), p - lo) <==> Covers(AccessKeyMatches(text), p)
  {
    assert hi <= |text|;
    hide AccessKeyMatches, Covers, CutOut;
    if Covers(AccessKeyMatches(text[lo..hi]), p - lo) { PieceCoverIn(text, lo, hi, p); }
    if Covers(AccessKeyMatches(text), p) { PieceCoverOut(text, lo, hi, p); }
  }

  lemma KeyCovering(text: string, p: nat) returns (i: nat)
    requires Covers(AccessKeyMatches(text), p)
    ensures i <= p < i + KEY_LENGTH && KeyAt(text, i)
  {
    hide KeyAt, KeysFrom, Covers;
    KeysFromCover(text, 0, p);
    i :| 0 <= i <= p < i + KEY_LENGTH && KeyAt(text, i);
  }

  lemma KeyCovers(text: string, p: nat, i: nat)
    requires i <= p < i + KEY_LENGTH && KeyAt(text, i)
    ensures Covers(AccessKeyMatches(text), p)
  {
    hide KeyAt, KeysFrom, Covers;
    KeysFromCover(text, 0, p);
  }

  lemma PieceCoverIn(text: string, lo: nat, hi: nat, p: nat)
    requires CutOut(text, lo, hi) && lo <= p < hi && Covers(AccessKeyMatches(text[lo..hi]), p - lo)
    ensures Covers(AccessKeyMatches(text), p)
  {
    assert hi <= |text|;
    hide AccessKeyMatches, KeyAt, CutOut, Covers;
    var i := KeyCovering(text[lo..hi], p - lo);
    KeyInPiece(text, lo, hi, i);
    KeyCovers(text, p, lo + i);
  }

  lemma PieceCoverOut(text: string, lo: nat, hi: nat, p: nat)
    requires CutOut(text, lo, hi) && lo <= p < hi && Covers(AccessKeyMatches(text), p)
    ensures Covers(AccessKeyMatches(text[lo..hi]), p - lo)
  {
    assert hi <= |text|;
    hide AccessKeyMatches, KeyAt, CutOut, Covers;
    var i := KeyCovering(text, p);
    KeyStaysIn(text, lo, hi, p, i);
    KeyInPiece(text, lo, hi, i - lo);
    KeyCovers(text[lo..hi], p - lo, i - lo);
  }

  // ---- A detector of both rules ----------------------------------------------------------------

  lemma {:induction false} KeysInText(text: string, k: nat)
    requires k <= |text|
    ensures forall m <- KeysFrom(text, k) :: InText(m, text)
    decreases |text| - k
  {
    hide KeyAt;
    if k < |text| {
      KeysInText(text, k + 1);
      KeyFits(text, k);
    }
  }

  lemma KeyFits(text: string, k: nat)
    ensures KeyAt(text, k) ==> k + KEY_LENGTH <= |text|
  {
  }

  lemma {:induction false} BlocksInText(text: string)
    ensures forall m <- KeyMatches(text) :: InText(m, text)
    decreases |text|
  {
    if Leftmost(BEGIN_KEY, text).Some? {
      KeyMatchesParts(text);
      hide Leftmost, KeyMatches, BlockOf;
      var b := BlockOf(text);
      BlocksInText(text[b.end..]);
      forall m | m in KeyMatches(text) ensures InText(m, text) {
        if m != b {
          var more := KeyMatches(text[b.end..]);
          var i :| 0 <= i < |more| && m == Shifted(more, b.end)[i];
          assert more[i] in more;
        }
      }
    }
  }

  function BothRules(): RawRuleSet {
    RawRuleSet([AccessKeyMatches, KeyMatches], text => Leftmost(BEGIN_KEY, text), text => Leftmost(END_KEY, text))
  }

  lemma BothRulesSound()
    ensures Sound(BothRules())
  {
    hide Leftmost, KeyMatches, AccessKeyMatches;
    var d := BothRules();
    forall rule, text, m | rule in d.rules && m in rule(text) ensures InText(m, text) {
      KeysInText(text, 0);
      BlocksInText(text);
      AreKeys(text);
    }
    forall text ensures d.begin(text).Some? ==> InText(d.begin(text).value, text) { LeftmostInText(BEGIN_KEY, text); }
    forall text ensures d.end(text).Some? ==> InText(d.end(text).value, text) { LeftmostInText(END_KEY, text); }
  }

  lemma AreKeys(text: string)
    ensures AccessKeyMatches(text) == KeysFrom(text, 0)
  {
  }

  lemma AccessMask(d: RuleSet, text: string, p: nat)
    requires d == BothRules() && p < |text|
    ensures OtherMask(d, text)[p] <==> Covers(AccessKeyMatches(text), p)
  {
    hide AccessKeyMatches, KeyMatches, Leftmost;
    var others := d.rules[..|d.rules| - 1];
    assert others == [AccessKeyMatches];
    assert RawMatches(others[..0], text) == [];
    assert RawMatches(others, text) == AccessKeyMatches(text);
  }

  // ---- Both rules are local -----------------------------------------------------------------------

  lemma LinesAreCutOut(a: string, b: string)
    ensures var text := a + "\n" + b;
            && CutOut(text, 0, |a|) && text[0..|a|] == a
            && CutOut(text, |a| + 1, |text|) && text[|a| + 1..|text|] == b
  {
  }

  lemma AccessLocalToLines(d: RuleSet, a: string, b: string)
    requires d == BothRules()
    ensures OtherMask(d, a + "\n" + b) == OtherMask(d, a) + [false] + OtherMask(d, b)
  {
    var text := a + "\n" + b;
    LinesAreCutOut(a, b);
    assert d.rules != [];
    hide CutOut, OtherMask, AccessKeyMatches, BothRules;
    forall p | 0 <= p < |text| ensures OtherMask(d, text)[p] == (OtherMask(d, a) + [false] + OtherMask(d, b))[p] {
      AccessMask(d, text, p);
      if p < |a| {
        PieceCover(text, 0, |a|, p);
        AccessMask(d, a, p);
      } else if p > |a| {
        PieceCover(text, |a| + 1, |text|, p);
        AccessMask(d, b, p - |a| - 1);
      } else {
        OnlyWordsCovered(text, p);
      }
    }
  }

  lemma OnlyWordsCovered(text: string, p: nat)
    requires p < |text| && !WordChar(text[p])
    ensures !Covers(AccessKeyMatches(text), p)
  {
    KeysFromCover(text, 0, p);
    hide KeysFrom;
  }

  lemma BlockIsCutOut(line: string)
    requires Leftmost(BEGIN_KEY, line).Some?
    ensures var m := BlockOf(line);
            CutOut(line, 0, m.start) && (m.end < |line| ==> CutOut(line, m.end, |line|))
  {
    hide Leftmost;
    LeftmostDashes(BEGIN_KEY, line);
    var b := Leftmost(BEGIN_KEY, line).value;
    var rest := line[b.end..];
    LeftmostDashes(END_KEY, rest);
    if Leftmost(END_KEY, rest).Some? {
      var e := Leftmost(END_KEY, rest).value;
      assert line[b.end + e.end - 1] == rest[e.end - 1];
    }
  }

  lemma AccessLocalToParts(d: RuleSet, line: string)
    requires d == BothRules() && Leftmost(BEGIN_KEY, line).Some?
    ensures var m := BlockOf(line);
            && SameBefore(OtherMask(d, line[..m.start]), OtherMask(d, line))
            && SameBehind(OtherMask(d, line[m.end..]), OtherMask(d, line))
  {
    BlockIsCutOut(line);
    hide CutOut, OtherMask, AccessKeyMatches, BothRules, Leftmost, BlockOf;
    var m := BlockOf(line);
    assert line[0..m.start] == line[..m.start] && line[m.end..|line|] == line[m.end..];
    forall p | 0 <= p < m.start ensures OtherMask(d, line[..m.start])[p] == OtherMask(d, line)[p] {
      AccessMask(d, line, p);
      AccessMask(d, line[..m.start], p);
      PieceCover(line, 0, m.start, p);
    }
    forall p | m.end <= p < |line| ensures OtherMask(d, line[m.end..])[p - m.end] == OtherMask(d, line)[p] {
      AccessMask(d, line, p);
      AccessMask(d, line[m.end..], p - m.end);
      PieceCover(line, m.end, |line|, p);
    }
  }

  /** The exact condition applies to the detector with these two rules of the program. */
  lemma BothRulesLocal() returns (d: RuleSet)
    ensures d == BothRules() && KeyDetector(d)
  {
    BothRulesSound();
    d := BothRules();
    forall a, b ensures OtherMask(d, a + "\n" + b) == OtherMask(d, a) + [false] + OtherMask(d, b) {
      AccessLocalToLines(d, a, b);
    }
    forall line | OneLine(line) && Leftmost(BEGIN_KEY, line).Some?
      ensures SameBefore(OtherMask(d, line[..BlockOf(line).start]), OtherMask(d, line))
      ensures SameBehind(OtherMask(d, line[BlockOf(line).end..]), OtherMask(d, line))
    {
      AccessLocalToParts(d, line);
    }
    hide Leftmost, KeyMatches, AccessKeyMatches, OtherMask, BlockOf, SameBefore, SameBehind;
    assert FindsKeys(d);
  }

  // ---- A line on which the check fails -------------------------------------------------------------

  /** An access key directly in front of a complete private key, all on one line: no match covers the
      end of a line, and still the stream is not the projection.  The two matches touch, so the
      projection has one marker for both; the redactor cuts the line between them and leaves two. */
  lemma KeysSideBySideDisagree(key: string) returns (d: RuleSet)
    requires KeyAt(key, 0) && |key| == KEY_LENGTH
    ensures d == BothRules() && KeyDetector(d)
    ensures DisagreesOnLine(d, key + Marker(BEGIN_KEY, "") + Marker(END_KEY, ""))
  {
    hide KeyDetector, DisagreesOnLine, BothRules, Marker, KeyAt, TouchedLine;
    d := BothRulesLocal();
    SideBySideOneLine(key);
    SideBySideTouches(d, key);
    TouchedLineDisagrees(d, key + Marker(BEGIN_KEY, "") + Marker(END_KEY, ""));
  }

  lemma SideBySideOneLine(key: string)
    requires KeyAt(key, 0) && |key| == KEY_LENGTH
    ensures OneLine(key + Marker(BEGIN_KEY, "") + Marker(END_KEY, ""))
  {
    MarkerIsOneLine(BEGIN_KEY);
    MarkerIsOneLine(END_KEY);
    hide Marker;
  }

  lemma SideBySideTouches(d: RuleSet, key: string)
    requires d == BothRules() && KeyDetector(d) && KeyAt(key, 0) && |key| == KEY_LENGTH
    ensures TouchedLine(d, key + Marker(BEGIN_KEY, "") + Marker(END_KEY, ""))
  {
    var b, e := Marker(BEGIN_KEY, ""), Marker(END_KEY, "");
    var text := key + b + e;
    MarkerEnds(BEGIN_KEY, "");
    MarkerFirst(BEGIN_KEY, e);
    hide Marker, Leftmost, KeyMatches, BothRules, AccessKeyMatches;
    LeftmostSkips(BEGIN_KEY, key, b + e);
    assert text == key + (b + e);
    assert BlockOf(text).start == KEY_LENGTH;
    assert text[0..KEY_LENGTH] == key && CutOut(text, 0, KEY_LENGTH);
    KeysFromCover(key, 0, KEY_LENGTH - 1);
    AreKeys(key);
    PieceCover(text, 0, KEY_LENGTH, KEY_LENGTH - 1);
    AccessMask(d, text, KEY_LENGTH - 1);
    MaskIsBoth(d, text);
  }

  /** A match inside a key block does no harm: an access key between the two markers. */
  lemma KeyInsideBlockAgrees(key: string) returns (d: RuleSet)
    requires KeyAt(key, 0) && |key| == KEY_LENGTH
    ensures d == BothRules() && KeyDetector(d)
    ensures var b := Marker(BEGIN_KEY, "");
            var line := b + (key + Marker(END_KEY, ""));
            Covers(AccessKeyMatches(line), |b|) && Pass(LinesFor(d), false, line) == Redact(d, line).0
  {
    hide KeyDetector, BothRules, Redact, LinesFor, Pass;
    d := BothRulesLocal();
    var b, e := Marker(BEGIN_KEY, ""), Marker(END_KEY, "");
    var line := b + (key + e);
    KeyBetweenMarkers(key);
    KeyAloneAgrees(d, line);
  }

  lemma KeyBetweenMarkers(key: string)
    requires KeyAt(key, 0) && |key| == KEY_LENGTH
    ensures var b := Marker(BEGIN_KEY, "");
            var line := b + (key + Marker(END_KEY, ""));
            && OneLine(line) && Leftmost(BEGIN_KEY, line).Some? && BlockOf(line) == Interval(0, |line|)
            && Covers(AccessKeyMatches(line), |b|)
  {
    var b, e := Marker(BEGIN_KEY, ""), Marker(END_KEY, "");
    var line := b + (key + e);
    MarkerIsOneLine(BEGIN_KEY);
    MarkerIsOneLine(END_KEY);
    MarkerEnds(BEGIN_KEY, "");
    MarkerEnds(END_KEY, "");
    MarkerFirst(BEGIN_KEY, key + e);
    MarkerFirst(END_KEY, "");
    hide Marker, Leftmost, AccessKeyMatches, Covers;
    assert e + "" == e && line[|b|..] == key + e;
    LeftmostSkips(END_KEY, key, e);
    assert line[|b|..|b| + KEY_LENGTH] == key && CutOut(line, |b|, |b| + KEY_LENGTH);
    KeyCovers(key, 0, 0);
    PieceCover(line, |b|, |b| + KEY_LENGTH, |b|);
  }
}
