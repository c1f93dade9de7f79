/** Redaction of detected credentials: interval merging, and what is left of a text. */
module Projection {
  import opened Wrappers

  /** A half-open range of byte positions. */
  datatype Interval = Interval(start: nat, end: nat)

  /** A rule finds its matches in a text; the regular expressions themselves are not modelled. */
  type Rule = string -> seq<Interval>

  /** The rules, and the leftmost match of the private-key BEGIN and END markers. */
  datatype RawRuleSet = RawRuleSet(rules: seq<Rule>, begin: string -> Option<Interval>, end: string -> Option<Interval>)

  const MARKER := "[REDACTED:CREDENTIAL]"

  ghost predicate InText(m: Interval, text: string) {
    m.start < m.end <= |text|
  }

  /** Matches are nonempty ranges of the text. */
  ghost predicate Sound(d: RawRuleSet) {
    && (forall rule, text, m :: rule in d.rules && m in rule(text) ==> InText(m, text))
    && (forall text :: d.begin(text).Some? ==> InText(d.begin(text).value, text))
    && (forall text :: d.end(text).Some? ==> InText(d.end(text).value, text))
  }

  type RuleSet = d: RawRuleSet | Sound(d) ghost witness RawRuleSet([], _ => None, _ => None)

  /** The detector object the engine hands around. */
  class Detector {
    const rules: RuleSet

    constructor (rules: RuleSet)
      ensures this.rules == rules
    {
      this.rules := rules;
    }
  }

  function RawMatches(rules: seq<Rule>, text: string): seq<Interval> {
    if rules == [] then [] else RawMatches(rules[..|rules| - 1], text) + rules[|rules| - 1](text)
  }

  /** Some rule matches the position. */
  ghost predicate Hit(d: RuleSet, text: string, p: nat) {
    exists i :: 0 <= i < |d.rules| && Covers(d.rules[i](text), p)
  }

  /** Some rule finds something in the text. */
  ghost predicate Detects(d: RuleSet, text: string) {
    exists i :: 0 <= i < |d.rules| && d.rules[i](text) != []
  }

  /** Every rule is asked, and nothing else is found. */
  lemma {:induction false} RawExact(rules: seq<Rule>, text: string)
    ensures forall m :: m in RawMatches(rules, text) <==> exists i :: 0 <= i < |rules| && m in rules[i](text)
  {
    if rules != [] {
      var n := |rules| - 1;
      RawExact(rules[..n], text);
      forall m ensures m in RawMatches(rules, text) <==> exists i :: 0 <= i < |rules| && m in rules[i](text) {
        if i :| 0 <= i < |rules| && m in rules[i](text) {
          if i < n { assert m in rules[..n][i](text); }
        }
      }
    }
  }

  lemma RawDetects(d: RuleSet, text: string)
    ensures RawMatches(d.rules, text) == [] <==> !Detects(d, text)
  {
    var raw := RawMatches(d.rules, text);
    RawExact(d.rules, text);
    if raw != [] { assert raw[0] in raw; }
    if i :| 0 <= i < |d.rules| && d.rules[i](text) != [] {
      assert d.rules[i](text)[0] in raw;
    }
  }

  lemma RawHits(d: RuleSet, text: string, p: nat)
    ensures Covers(RawMatches(d.rules, text), p) <==> Hit(d, text, p)
  {
    var raw := RawMatches(d.rules, text);
    RawExact(d.rules, text);
    if Covers(raw, p) {
      var j :| 0 <= j < |raw| && raw[j].start <= p < raw[j].end;
      assert raw[j] in raw;
      var i :| 0 <= i < |d.rules| && raw[j] in d.rules[i](text);
    }
    if Hit(d, text, p) {
      var i :| 0 <= i < |d.rules| && Covers(d.rules[i](text), p);
      var j :| 0 <= j < |d.rules[i](text)| && d.rules[i](text)[j].start <= p < d.rules[i](text)[j].end;
      assert d.rules[i](text)[j] in raw;
    }
  }

  lemma {:induction false} RawInText(d: RuleSet, k: nat, text: string)
    requires k <= |d.rules|
    ensures forall m <- RawMatches(d.rules[..k], text) :: InText(m, text)
  {
    if k > 0 {
      RawInText(d, k - 1, text);
      assert d.rules[..k][..k - 1] == d.rules[..k - 1];
      assert d.rules[k - 1] in d.rules;
    }
  }

  // ---- Sorting and merging ---------------------------------------------------------

  /** By start; among equal starts the longest first. */
  predicate Before(a: Interval, b: Interval) {
    a.start < b.start || (a.start == b.start && a.end >= b.end)
  }

  predicate Ordered(s: seq<Interval>) {
    forall i, j :: 0 <= i < j < |s| ==> Before(s[i], s[j])
  }

  function Insert(s: seq<Interval>, m: Interval): seq<Interval> {
    if s == [] || Before(s[|s| - 1], m) then s + [m] else Insert(s[..|s| - 1], m) + [s[|s| - 1]]
  }

  /** The library sort with the source's comparison. */
  function Sort(s: seq<Interval>): seq<Interval> {
    if s == [] then [] else Insert(Sort(s[..|s| - 1]), s[|s| - 1])
  }

  lemma {:induction false} InsertKeeps(s: seq<Interval>, m: Interval)
    ensures multiset(Insert(s, m)) == multiset(s) + multiset{m}
  {
    if !(s == [] || Before(s[|s| - 1], m)) {
      assert s == s[..|s| - 1] + [s[|s| - 1]];
      InsertKeeps(s[..|s| - 1], m);
    }
  }

  lemma OrderedAppend(s: seq<Interval>, m: Interval)
    requires Ordered(s) && forall x <- s :: Before(x, m)
    ensures Ordered(s + [m])
  {
  }

  lemma {:induction false} InsertOrdered(s: seq<Interval>, m: Interval)
    requires Ordered(s)
    ensures Ordered(Insert(s, m))
  {
    if s == [] || Before(s[|s| - 1], m) {
      forall x <- s ensures Before(x, m) {
        var i :| 0 <= i < |s| && s[i] == x;
        assert i < |s| - 1 ==> Before(s[i], s[|s| - 1]);
      }
      OrderedAppend(s, m);
    } else {
      var init, last := s[..|s| - 1], s[|s| - 1];
      InsertOrdered(init, m);
      InsertKeeps(init, m);
      forall x <- Insert(init, m) ensures Before(x, last) {
        assert x in multiset(Insert(init, m));
        if x in init {
          var i :| 0 <= i < |init| && init[i] == x;
          assert Before(s[i], s[|s| - 1]);
        }
      }
      OrderedAppend(Insert(init, m), last);
    }
  }

  /** The sort returns the same matches in order. */
  lemma {:induction false} SortExact(s: seq<Interval>)
    ensures multiset(Sort(s)) == multiset(s) && Ordered(Sort(s))
  {
    if s != [] {
      assert s == s[..|s| - 1] + [s[|s| - 1]];
      SortExact(s[..|s| - 1]);
      InsertOrdered(Sort(s[..|s| - 1]), s[|s| - 1]);
      InsertKeeps(Sort(s[..|s| - 1]), s[|s| - 1]);
    }
  }

  function Absorb(merged: seq<Interval>, m: Interval): seq<Interval> {
    if merged != [] && m.start <= merged[|merged| - 1].end then
      var last := merged[|merged| - 1];
      merged[|merged| - 1 := if m.end > last.end then Interval(last.start, m.end) else last]
    else
      merged + [m]
  }

  function Merge(s: seq<Interval>): seq<Interval> {
    if s == [] then [] else Absorb(Merge(s[..|s| - 1]), s[|s| - 1])
  }

  /** Detector.Matches. */
  function Matches(d: RuleSet, text: string): seq<Interval> {
    Merge(Sort(RawMatches(d.rules, text)))
  }

  /** The merge compacts the sorted matches inside their own array. */
  method MergeInPlace(a: array<Interval>) returns (n: nat)
    modifies a
    ensures n <= a.Length
    ensures a[..n] == Merge(old(a[..]))
  {
    ghost var s := a[..];
    n := 0;
    for i := 0 to a.Length
      invariant n <= i
      invariant a[i..] == s[i..]
      invariant a[..n] == Merge(s[..i])
    {
      var m := a[i];
      assert m == a[i..][0] == s[i];
      assert s[..i + 1][..i] == s[..i];
      assert a[i + 1..] == a[i..][1..] == s[i..][1..] == s[i + 1..];
      ghost var before := a[..n];
      if n > 0 && m.start <= a[n - 1].end {
        assert before[n - 1] == a[n - 1];
        if m.end > a[n - 1].end {
          a[n - 1] := Interval(a[n - 1].start, m.end);
        }
        assert a[..n] == Absorb(before, m);
      } else {
        assert n > 0 ==> before[n - 1] == a[n - 1];
        a[n] := m;
        n := n + 1;
        assert a[..n] == before + [m];
      }
    }
    assert s[..a.Length] == s;
  }

  method FindMatches(d: RuleSet, text: string) returns (r: seq<Interval>)
    ensures r == Matches(d, text)
  {
    var raw: seq<Interval> := [];
    for i := 0 to |d.rules|
      invariant raw == RawMatches(d.rules[..i], text)
    {
      assert d.rules[..i + 1][..i] == d.rules[..i];
      raw := raw + d.rules[i](text);
    }
    assert d.rules[..|d.rules|] == d.rules;
    var sorted := Sort(raw);
    var a := new Interval[|sorted|](i requires 0 <= i < |sorted| => sorted[i]);
    assert a[..] == sorted;
    var n := MergeInPlace(a);
    r := a[..n];
  }

  // ---- What merging means ---------------------------------------------------------

  predicate Covers(s: seq<Interval>, p: nat) {
    exists i :: 0 <= i < |s| && s[i].start <= p < s[i].end
  }

  /** Ascending, nonempty, and with at least one uncovered position between neighbours. */
  ghost predicate StrictlySeparated(s: seq<Interval>) {
    && (forall i :: 0 <= i < |s| ==> s[i].start < s[i].end)
    && (forall i, j :: 0 <= i < j < |s| ==> s[i].end < s[j].start)
  }

  lemma CoversAppend(s: seq<Interval>, m: Interval, p: nat)
    ensures Covers(s + [m], p) <==> Covers(s, p) || m.start <= p < m.end
  {
    var all := s + [m];
    if i :| 0 <= i < |s| && s[i].start <= p < s[i].end { assert all[i] == s[i]; }
    assert all[|s|] == m;
  }

  lemma AbsorbCovers(merged: seq<Interval>, m: Interval, p: nat)
    requires merged != [] ==> merged[|merged| - 1].start <= m.start
    ensures Covers(Absorb(merged, m), p) <==> Covers(merged, p) || m.start <= p < m.end
  {
    if merged != [] && m.start <= merged[|merged| - 1].end {
      var init, last := merged[..|merged| - 1], merged[|merged| - 1];
      var r := Absorb(merged, m);
      assert merged == init + [last];
      assert r == init + [r[|r| - 1]];
      CoversAppend(init, last, p);
      CoversAppend(init, r[|r| - 1], p);
    } else {
      CoversAppend(merged, m, p);
    }
  }

  lemma AbsorbSeparated(merged: seq<Interval>, m: Interval)
    requires StrictlySeparated(merged) && m.start < m.end
    requires merged != [] ==> merged[|merged| - 1].start <= m.start
    ensures StrictlySeparated(Absorb(merged, m))
  {
    var r := Absorb(merged, m);
    if merged != [] && m.start > merged[|merged| - 1].end {
      forall i | 0 <= i < |merged| ensures merged[i].end < m.start {
        assert i < |merged| - 1 ==> merged[i].end < merged[|merged| - 1].start;
      }
    }
  }

  /** The merge of sorted matches is strictly separated. */
  lemma {:induction false} MergeSeparated(s: seq<Interval>)
    requires Ordered(s) && forall m <- s :: m.start < m.end
    ensures StrictlySeparated(Merge(s))
    ensures s == [] <==> Merge(s) == []
    ensures s != [] ==> Merge(s)[|Merge(s)| - 1].start <= s[|s| - 1].start
  {
    if s != [] {
      var init, m := s[..|s| - 1], s[|s| - 1];
      MergeSeparated(init);
      if init != [] { assert Before(s[|s| - 2], m); }
      AbsorbSeparated(Merge(init), m);
    }
  }

  /** It covers exactly the same positions. */
  lemma {:induction false} MergeCovers(s: seq<Interval>, p: nat)
    requires Ordered(s) && forall m <- s :: m.start < m.end
    ensures Covers(Merge(s), p) <==> Covers(s, p)
  {
    if s != [] {
      var init, m := s[..|s| - 1], s[|s| - 1];
      assert s == init + [m];
      MergeCovers(init, p);
      MergeSeparated(init);
      CoversAppend(init, m, p);
      if init != [] { assert Before(s[|s| - 2], m); }
      AbsorbCovers(Merge(init), m, p);
    }
  }

  lemma CoversPermuted(s: seq<Interval>, t: seq<Interval>, p: nat)
    requires multiset(s) == multiset(t)
    ensures Covers(s, p) <==> Covers(t, p)
  {
    if i :| 0 <= i < |s| && s[i].start <= p < s[i].end {
      assert s[i] in multiset(t);
    }
    if i :| 0 <= i < |t| && t[i].start <= p < t[i].end {
      assert t[i] in multiset(s);
    }
  }

  /** Detector.Matches returns sorted, strictly separated ranges of the text that cover exactly
      the positions some rule matched. */
  lemma MatchesExact(d: RuleSet, text: string)
    ensures StrictlySeparated(Matches(d, text))
    ensures forall p: nat :: Covers(Matches(d, text), p) <==> Covers(RawMatches(d.rules, text), p)
    ensures forall m <- Matches(d, text) :: InText(m, text)
    ensures Matches(d, text) == [] <==> RawMatches(d.rules, text) == []
  {
    var raw := RawMatches(d.rules, text);
    var sorted := Sort(raw);
    assert d.rules[..|d.rules|] == d.rules;
    RawInText(d, |d.rules|, text);
    SortExact(raw);
    forall m <- sorted ensures m in raw { assert m in multiset(sorted); }
    MergeSeparated(sorted);
    assert |sorted| == |multiset(sorted)| == |raw|;
    forall p: nat ensures Covers(Matches(d, text), p) <==> Covers(raw, p) {
      CoversPermuted(sorted, raw, p);
      MergeCovers(sorted, p);
    }
    forall m <- Matches(d, text) ensures InText(m, text) {
      assert Covers(Matches(d, text), m.end - 1) by {
        var i :| 0 <= i < |Matches(d, text)| && Matches(d, text)[i] == m;
      }
      var i :| 0 <= i < |raw| && raw[i].start <= m.end - 1 < raw[i].end;
      assert raw[i] in raw;
    }
  }

  /** There is nothing to redact exactly when no rule finds anything. */
  lemma MatchesDetect(d: RuleSet, text: string)
    ensures Matches(d, text) == [] <==> !Detects(d, text)
  {
    hide Matches, RawMatches, Detects, Covers, StrictlySeparated;
    MatchesExact(d, text);
    RawDetects(d, text);
  }

  // ---- Redaction ----------------------------------------------------------------------

  ghost predicate Fits(ms: seq<Interval>, text: string) {
    StrictlySeparated(ms) && forall m <- ms :: InText(m, text)
  }

  function EndOf(ms: seq<Interval>): nat {
    if ms == [] then 0 else ms[|ms| - 1].end
  }

  lemma FitsPrefix(ms: seq<Interval>, text: string, k: nat)
    requires Fits(ms, text) && k <= |ms|
    ensures Fits(ms[..k], text) && EndOf(ms[..k]) <= |text|
    ensures k < |ms| ==> EndOf(ms[..k]) <= ms[k].start < |text|
  {
    if k > 0 { assert ms[k - 1] in ms; }
    if k < |ms| { assert ms[k] in ms; }
  }

  lemma MatchesFit(d: RuleSet, text: string)
    ensures Fits(Matches(d, text), text)
  {
    MatchesExact(d, text);
  }

  function RedactedPrefix(text: string, ms: seq<Interval>): string
    requires Fits(ms, text)
  {
    if ms == [] then ""
    else
      var k := |ms| - 1;
      FitsPrefix(ms, text, k);
      RedactedPrefix(text, ms[..k]) + text[EndOf(ms[..k])..ms[k].start] + MARKER
  }

  function RedactWith(text: string, ms: seq<Interval>): string
    requires Fits(ms, text)
  {
    FitsPrefix(ms, text, |ms|);
    assert ms[..|ms|] == ms;
    RedactedPrefix(text, ms) + text[EndOf(ms)..]
  }

  /** Detector.Redact: the text with one marker per match, and the number of matches. */
  function Redact(d: RuleSet, text: string): (string, nat) {
    MatchesFit(d, text);
    (RedactWith(text, Matches(d, text)), |Matches(d, text)|)
  }

  method RedactText(d: RuleSet, text: string) returns (out: string, count: nat)
    ensures (out, count) == Redact(d, text)
  {
    var ms := FindMatches(d, text);
    MatchesFit(d, text);
    if |ms| == 0 {
      assert ms == [] && EndOf(ms) == 0;
      assert RedactedPrefix(text, ms) == "" && text[0..] == text;
      assert RedactWith(text, ms) == "" + text[0..] == text;
      return text, 0;
    }
    out := RedactMatches(text, ms);
    count := |ms|;
  }

  method RedactMatches(text: string, ms: seq<Interval>) returns (out: string)
    requires Fits(ms, text)
    ensures out == RedactWith(text, ms)
  {
    out := "";
    var last := 0;
    for i := 0 to |ms|
      invariant Fits(ms[..i], text)
      invariant last == EndOf(ms[..i])
      invariant out == RedactedPrefix(text, ms[..i])
    {
      FitsPrefix(ms, text, i);
      FitsPrefix(ms, text, i + 1);
      assert ms[..i + 1][..i] == ms[..i];
      out := out + text[last..ms[i].start] + MARKER;
      last := ms[i].end;
    }
    assert ms[..|ms|] == ms;
    FitsPrefix(ms, text, |ms|);
    out := out + text[last..];
  }

  // ---- What redaction keeps -------------------------------------------------------------

  /** Which positions of the text some rule matched. */
  function Mask(d: RuleSet, text: string): (mask: seq<bool>)
    ensures |mask| == |text|
  {
    seq(|text|, p requires 0 <= p < |text| => Covers(RawMatches(d.rules, text), p))
  }

  /** The unmatched characters in order, each matched stretch replaced by one marker. */
  function Splice(text: string, mask: seq<bool>): string
    requires |mask| == |text|
  {
    if text == "" then ""
    else
      var n := |text| - 1;
      Splice(text[..n], mask[..n]) + if !mask[n] then [text[n]] else if n > 0 && mask[n - 1] then "" else MARKER
  }

  /** The number of maximal matched stretches. */
  function Stretches(mask: seq<bool>): nat {
    if mask == [] then 0
    else
      var n := |mask| - 1;
      Stretches(mask[..n]) + if mask[n] && !(n > 0 && mask[n - 1]) then 1 else 0
  }

  lemma {:induction false} SpliceGap(text: string, mask: seq<bool>, a: nat, b: nat)
    requires |mask| == |text| && a <= b <= |text|
    requires forall p :: a <= p < b ==> !mask[p]
    ensures Splice(text[..b], mask[..b]) == Splice(text[..a], mask[..a]) + text[a..b]
    ensures Stretches(mask[..b]) == Stretches(mask[..a])
  {
    if a < b {
      SpliceGap(text, mask, a, b - 1);
      assert text[..b][..b - 1] == text[..b - 1] && mask[..b][..b - 1] == mask[..b - 1];
      assert text[a..b] == text[a..b - 1] + [text[b - 1]];
    }
  }

  lemma {:induction false} SpliceStretch(text: string, mask: seq<bool>, a: nat, b: nat)
    requires |mask| == |text| && a < b <= |text|
    requires forall p :: a <= p < b ==> mask[p]
    requires a > 0 ==> !mask[a - 1]
    ensures Splice(text[..b], mask[..b]) == Splice(text[..a], mask[..a]) + MARKER
    ensures Stretches(mask[..b]) == Stretches(mask[..a]) + 1
  {
    assert text[..b][..b - 1] == text[..b - 1] && mask[..b][..b - 1] == mask[..b - 1];
    if a + 1 < b { SpliceStretch(text, mask, a, b - 1); }
  }

  /** What the last position adds to the text before it. */
  function LastPiece(text: string, mask: seq<bool>): string
    requires |mask| == |text| && text != ""
  {
    var n := |text| - 1;
    if !mask[n] then [text[n]] else if n > 0 && mask[n - 1] then "" else MARKER
  }

  lemma SpliceLast(text: string, mask: seq<bool>)
    requires |mask| == |text| && text != ""
    ensures Splice(text, mask) == Splice(text[..|text| - 1], mask[..|text| - 1]) + LastPiece(text, mask)
  {
  }

  /** A text may be cut anywhere but inside a matched stretch. */
  lemma {:induction false} SpliceCut(a: string, ma: seq<bool>, b: string, mb: seq<bool>)
    requires |a| == |ma| && |b| == |mb|
    requires a == "" || b == "" || !ma[|a| - 1] || !mb[0]
    ensures Splice(a + b, ma + mb) == Splice(a, ma) + Splice(b, mb)
    decreases |b|
  {
    if b == "" {
      assert a + b == a && ma + mb == ma;
      NothingSpliced(b, mb);
      assert b == b[..0] && mb == mb[..0];
      hide Splice;
      assert Splice(a, ma) + "" == Splice(a, ma);
    } else {
      hide Splice, LastPiece;
      var n := |b| - 1;
      LastPieceCut(a, ma, b, mb);
      SpliceLast(b, mb);
      SpliceLast(a + b, ma + mb);
      SpliceCut(a, ma, b[..n], mb[..n]);
      Associative(Splice(a, ma), Splice(b[..n], mb[..n]), LastPiece(b, mb));
    }
  }

  lemma LastPieceCut(a: string, ma: seq<bool>, b: string, mb: seq<bool>)
    requires |a| == |ma| && |b| == |mb| && b != "" && (a == "" || !ma[|a| - 1] || !mb[0])
    ensures var n := |a + b| - 1;
            (a + b)[..n] == a + b[..|b| - 1] && (ma + mb)[..n] == ma + mb[..|b| - 1]
    ensures LastPiece(a + b, ma + mb) == LastPiece(b, mb)
  {
    hide MARKER;
  }

  lemma Associative(a: string, b: string, c: string)
    ensures a + (b + c) == (a + b) + c
  {
  }

  /** A text that is matched throughout leaves one marker, and no text vanishes. */
  lemma {:induction false} SpliceWhole(text: string, mask: seq<bool>)
    requires |mask| == |text| && text != ""
    ensures Splice(text, mask) != ""
    ensures (forall p :: 0 <= p < |text| ==> mask[p]) ==> Splice(text, mask) == MARKER
  {
    SpliceLast(text, mask);
    if |text| > 1 {
      SpliceWhole(text[..|text| - 1], mask[..|text| - 1]);
    } else {
      NothingSpliced(text, mask);
      assert text[..|text| - 1] == text[..0] && mask[..|text| - 1] == mask[..0];
    }
  }

  /** The mask marks the covered positions. */
  ghost predicate MaskOf(text: string, mask: seq<bool>, ms: seq<Interval>) {
    |mask| == |text| && forall p: nat :: p < |text| ==> (mask[p] <==> Covers(ms, p))
  }

  /** Up to the end of its k-th interval, the redacted text is the spliced one. */
  lemma {:induction false} PrefixIsSplice(text: string, mask: seq<bool>, ms: seq<Interval>, k: nat)
    requires Fits(ms, text) && MaskOf(text, mask, ms) && k <= |ms|
    ensures EndOf(ms[..k]) <= |text| && Fits(ms[..k], text)
    ensures RedactedPrefix(text, ms[..k]) == Splice(text[..EndOf(ms[..k])], mask[..EndOf(ms[..k])])
    ensures k == Stretches(mask[..EndOf(ms[..k])])
  {
    hide Splice, Stretches;
    FitsPrefix(ms, text, k);
    if k > 0 {
      FitsPrefix(ms, text, k - 1);
      PrefixIsSplice(text, mask, ms, k - 1);
      IntervalIsStretch(text, mask, ms, k - 1);
      assert ms[..k][..k - 1] == ms[..k - 1];
    } else {
      NothingSpliced(text, mask);
    }
  }

  lemma NothingSpliced(text: string, mask: seq<bool>)
    requires |mask| == |text|
    ensures Splice(text[..0], mask[..0]) == "" && Stretches(mask[..0]) == 0
  {
  }

  /** From one interval's end to the next one's: a gap and a stretch. */
  lemma IntervalIsStretch(text: string, mask: seq<bool>, ms: seq<Interval>, k: nat)
    requires Fits(ms, text) && MaskOf(text, mask, ms) && k < |ms|
    requires EndOf(ms[..k]) <= ms[k].start
    ensures ms[k].end <= |text|
    ensures Splice(text[..ms[k].end], mask[..ms[k].end]) ==
            Splice(text[..EndOf(ms[..k])], mask[..EndOf(ms[..k])]) + text[EndOf(ms[..k])..ms[k].start] + MARKER
    ensures Stretches(mask[..ms[k].end]) == Stretches(mask[..EndOf(ms[..k])]) + 1
  {
    hide Splice, Stretches;
    var m, from := ms[k], EndOf(ms[..k]);
    assert m in ms;
    GapUncovered(ms, k);
    SpliceGap(text, mask, from, m.start);
    assert forall p: nat :: m.start <= p < m.end ==> Covers(ms, p);
    assert m.start > 0 ==> !mask[m.start - 1];
    SpliceStretch(text, mask, m.start, m.end);
  }

  /** Between one interval's end and the next one's start nothing is covered. */
  lemma GapUncovered(ms: seq<Interval>, k: nat)
    requires StrictlySeparated(ms) && k <= |ms|
    ensures forall p: nat :: EndOf(ms[..k]) <= p && (k < |ms| ==> p < ms[k].start) ==> !Covers(ms, p)
    ensures k < |ms| ==> (EndOf(ms[..k]) < ms[k].start || k == 0)
  {
    forall p: nat | EndOf(ms[..k]) <= p && (k < |ms| ==> p < ms[k].start) ensures !Covers(ms, p) {
      forall i | 0 <= i < |ms| ensures !(ms[i].start <= p < ms[i].end) {
        if i < k { assert i < k - 1 ==> ms[i].end < ms[k - 1].start; }
        if i > k { assert ms[k].end < ms[i].start; }
      }
    }
  }

  lemma SpliceOfMatches(text: string, mask: seq<bool>, ms: seq<Interval>)
    requires Fits(ms, text) && MaskOf(text, mask, ms)
    ensures RedactWith(text, ms) == Splice(text, mask) && |ms| == Stretches(mask)
  {
    hide Splice, Stretches;
    var e := EndOf(ms);
    FitsPrefix(ms, text, |ms|);
    assert ms[..|ms|] == ms && text[..|text|] == text && mask[..|text|] == mask;
    PrefixIsSplice(text, mask, ms, |ms|);
    GapUncovered(ms, |ms|);
    SpliceGap(text, mask, e, |text|);
    assert text[e..] == text[e..|text|];
  }

  /** Redaction keeps exactly the text no rule matched, in order, and puts one marker for each
      maximal stretch the rules matched between them. */
  lemma RedactExact(d: RuleSet, text: string)
    ensures Redact(d, text) == (Splice(text, Mask(d, text)), Stretches(Mask(d, text)))
    ensures forall p :: 0 <= p < |text| ==> (Mask(d, text)[p] <==> Hit(d, text, p))
  {
    hide Splice, Stretches, RedactWith, Matches, Covers, Hit;
    forall p | 0 <= p < |text| ensures Mask(d, text)[p] <==> Hit(d, text, p) { RawHits(d, text, p); }
    MatchesExact(d, text);
    MatchesFit(d, text);
    SpliceOfMatches(text, Mask(d, text), Matches(d, text));
  }

  /** A text without a match is returned as it is, and only such a text counts no match. */
  lemma UntouchedText(d: RuleSet, text: string)
    ensures Redact(d, text).1 == 0 <==> RawMatches(d.rules, text) == []
    ensures Redact(d, text).1 == 0 ==> Redact(d, text).0 == text
    ensures Redact(d, text).1 == 0 <==> !Detects(d, text)
  {
    MatchesFit(d, text);
    MatchesExact(d, text);
    MatchesDetect(d, text);
    assert RedactedPrefix(text, []) == "" && text[0..] == text;
  }

  lemma NothingInEmptyText(d: RuleSet)
    ensures Redact(d, "").1 == 0
  {
    var ms := Matches(d, "");
    MatchesExact(d, "");
    FirstIsIn(ms);
  }

  lemma FirstIsIn(ms: seq<Interval>)
    ensures ms != [] ==> ms[0] in ms
  {
  }

  lemma {:induction false} UnmatchedKept(text: string, mask: seq<bool>)
    requires |mask| == |text| && forall p :: 0 <= p < |text| ==> !mask[p]
    ensures Splice(text, mask) == text && Stretches(mask) == 0
  {
    assert text[..|text|] == text && mask[..|text|] == mask;
    SpliceGap(text, mask, 0, |text|);
    assert text[..0] == "" && mask[..0] == [];
  }
}
