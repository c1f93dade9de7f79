/** Decoding a streamed provider response: bounds, reassembly of tool calls from fragments, and the
    text deltas handed on.  A char stands for one byte. */
module Reassembly {
  import opened Wrappers
  import opened Transcript
  import opened LinePass

  const MAX_STREAM: nat := 33_554_432
  const MAX_TOOL_CALLS: nat := 128
  const MAX_ID: nat := 1024
  const MAX_NAME: nat := 256

  datatype Reason = Unset | Stop | ToolCalls | Length | Other

  datatype Response = Response(text: string, calls: seq<Call>, reason: Reason)

  /** One fragment of the tool call at an index; the ID may be left out. */
  datatype Part = Part(index: int, id: string, name: string, arguments: string)

  datatype Choice = Choice(content: string, parts: seq<Part>, finish: Option<Reason>)

  /** A line of the event stream after its JSON has been decoded, with its size in bytes. */
  datatype LineContent = Comment | NotData | Done | BadJson | Chunk(choices: seq<Choice>)
  datatype Line = Line(size: nat, content: LineContent)

  datatype DecodeError = BadLimit | Stopped | TooLong | Malformed | BadIndex | IdChanged | Empty | Incomplete

  // ---- Limits ---------------------------------------------------------------------------

  const TWO_63: int := 0x8000_0000_0000_0000

  /** Two's complement wrap-around of a 64-bit int. */
  function Wrap(n: int): int {
    (n + TWO_63) % (2 * TWO_63) - TWO_63
  }

  function StreamLimit(outputLimit: int): int {
    var limit := Wrap(Wrap(outputLimit * 4) + 1_048_576);
    if limit > MAX_STREAM || limit < outputLimit then MAX_STREAM else limit
  }

  /** The overflow test is enough: the limit is the capped mathematical value for every output limit. */
  lemma StreamLimitExact(outputLimit: int)
    requires 0 < outputLimit < TWO_63
    ensures StreamLimit(outputLimit) ==
              if outputLimit * 4 + 1_048_576 < MAX_STREAM then outputLimit * 4 + 1_048_576 else MAX_STREAM
  {
  }

  // ---- What a stream says ---------------------------------------------------------------------

  datatype Piece = Text(content: string) | Fragment(part: Part) | Finish(reason: Reason)

  function PartPieces(parts: seq<Part>): seq<Piece> {
    if parts == [] then [] else PartPieces(parts[..|parts| - 1]) + [Fragment(parts[|parts| - 1])]
  }

  function ChoicePieces(c: Choice): seq<Piece> {
    (if c.content != "" then [Text(c.content)] else []) + PartPieces(c.parts)
      + (if c.finish.Some? then [Finish(c.finish.value)] else [])
  }

  function ChunkPieces(choices: seq<Choice>): seq<Piece> {
    if choices == [] then [] else ChunkPieces(choices[..|choices| - 1]) + ChoicePieces(choices[|choices| - 1])
  }

  function Pieces(lines: seq<Line>): seq<Piece> {
    if lines == [] then []
    else
      var last := lines[|lines| - 1].content;
      if last.Chunk? then Pieces(lines[..|lines| - 1]) + ChunkPieces(last.choices) else Pieces(lines[..|lines| - 1])
  }

  /** The text of a stream, and the fragments of one call in the order they came. */
  function TextOf(p: seq<Piece>): string {
    if p == [] then "" else if p[|p| - 1].Text? then TextOf(p[..|p| - 1]) + p[|p| - 1].content else TextOf(p[..|p| - 1])
  }

  function Deltas(p: seq<Piece>): seq<string> {
    if p == [] then []
    else if p[|p| - 1].Text? then Deltas(p[..|p| - 1]) + [p[|p| - 1].content]
    else Deltas(p[..|p| - 1])
  }

  function ReasonOf(p: seq<Piece>): Reason {
    if p == [] then Unset else if p[|p| - 1].Finish? then p[|p| - 1].reason else ReasonOf(p[..|p| - 1])
  }

  function Fragments(p: seq<Piece>, i: int): seq<Part> {
    if p == [] then []
    else if p[|p| - 1].Fragment? && p[|p| - 1].part.index == i then Fragments(p[..|p| - 1], i) + [p[|p| - 1].part]
    else Fragments(p[..|p| - 1], i)
  }

  function IdOf(fs: seq<Part>): string {
    if fs == [] then "" else if fs[|fs| - 1].id != "" then fs[|fs| - 1].id else IdOf(fs[..|fs| - 1])
  }

  function NameOf(fs: seq<Part>): string {
    if fs == [] then "" else NameOf(fs[..|fs| - 1]) + fs[|fs| - 1].name
  }

  function ArgumentsOf(fs: seq<Part>): string {
    if fs == [] then "" else ArgumentsOf(fs[..|fs| - 1]) + fs[|fs| - 1].arguments
  }

  predicate IdsAgree(fs: seq<Part>) {
    forall j, k :: 0 <= j < |fs| && 0 <= k < |fs| && fs[j].id != "" && fs[k].id != "" ==> fs[j].id == fs[k].id
  }

  /** What the limits ask of the fragments of one call. */
  predicate WithinBounds(fs: seq<Part>, limit: nat) {
    IdsAgree(fs) && |IdOf(fs)| <= MAX_ID && |NameOf(fs)| <= MAX_NAME && |ArgumentsOf(fs)| <= limit
  }

  ghost predicate InRange(p: seq<Piece>) {
    forall k :: 0 <= k < |p| && p[k].Fragment? ==> 0 <= p[k].part.index < MAX_TOOL_CALLS
  }

  /** No limit is passed anywhere in the stream. */
  ghost predicate Sound(p: seq<Piece>, limit: nat) {
    && |TextOf(p)| <= limit
    && InRange(p)
    && forall i :: 0 <= i < MAX_TOOL_CALLS ==> WithinBounds(Fragments(p, i), limit)
  }

  /** The calls of the stream are exactly those at 0..n-1, and each of them is complete. */
  ghost predicate Complete(p: seq<Piece>, n: nat, jsonValid: string -> bool) {
    && (forall i :: Fragments(p, i) != [] <==> 0 <= i < n)
    && forall i :: 0 <= i < n ==> CallComplete(Fragments(p, i), jsonValid)
  }

  predicate CallComplete(fs: seq<Part>, jsonValid: string -> bool) {
    IdOf(fs) != "" && NameOf(fs) != "" && jsonValid(ArgumentsOf(fs))
  }

  function CallOf(fs: seq<Part>): Call {
    Call(IdOf(fs), NameOf(fs), RawJson(ArgumentsOf(fs), true))
  }

  function Reassembled(p: seq<Piece>, n: nat): seq<Call> {
    seq(n, i requires 0 <= i < n => CallOf(Fragments(p, i)))
  }

  // ---- What the raw lines say --------------------------------------------------------------------

  /** The choices of all chunks, in the order of the lines. */
  function Choices(lines: seq<Line>): seq<Choice> {
    if lines == [] then []
    else
      Choices(lines[..|lines| - 1]) +
      if lines[|lines| - 1].content.Chunk? then lines[|lines| - 1].content.choices else []
  }

  function Contents(cs: seq<Choice>): seq<string> {
    seq(|cs|, i requires 0 <= i < |cs| => cs[i].content)
  }

  /** The finish reason of the last choice that gives one. */
  ghost predicate LastReason(cs: seq<Choice>, reason: Reason) {
    if exists k :: 0 <= k < |cs| && cs[k].finish.Some? then
      exists k :: 0 <= k < |cs| && cs[k].finish == Some(reason) && forall j :: k < j < |cs| ==> cs[j].finish.None?
    else reason == Unset
  }

  function PartsWith(parts: seq<Part>, i: int): seq<Part> {
    if parts == [] then []
    else PartsWith(parts[..|parts| - 1], i) + if parts[|parts| - 1].index == i then [parts[|parts| - 1]] else []
  }

  /** The fragments at one index, in the order they came. */
  function PartsAt(cs: seq<Choice>, i: int): seq<Part> {
    if cs == [] then [] else PartsAt(cs[..|cs| - 1], i) + PartsWith(cs[|cs| - 1].parts, i)
  }

  function Names(fs: seq<Part>): seq<string> {
    seq(|fs|, k requires 0 <= k < |fs| => fs[k].name)
  }

  function Arguments(fs: seq<Part>): seq<string> {
    seq(|fs|, k requires 0 <= k < |fs| => fs[k].arguments)
  }

  /** What the pieces of a stream give is what its lines say: the contents one behind the other, the last
      finish reason given, and for each index the fragments that name it, in order. */
  ghost predicate SaidBy(p: seq<Piece>, cs: seq<Choice>) {
    && TextOf(p) == Concat(Contents(cs))
    && LastReason(cs, ReasonOf(p))
    && forall i :: Fragments(p, i) == PartsAt(cs, i)
  }

  lemma {:induction false} PartsOfPieces(p: seq<Piece>, parts: seq<Part>, i: int)
    ensures TextOf(p + PartPieces(parts)) == TextOf(p) && ReasonOf(p + PartPieces(parts)) == ReasonOf(p)
    ensures Fragments(p + PartPieces(parts), i) == Fragments(p, i) + PartsWith(parts, i)
    decreases |parts|
  {
    if parts == [] {
      assert p + PartPieces(parts) == p;
    } else {
      var init, last := parts[..|parts| - 1], parts[|parts| - 1];
      PartsOfPieces(p, init, i);
      PieceAppend(p + PartPieces(init), Fragment(last), i);
      assert p + PartPieces(parts) == (p + PartPieces(init)) + [Fragment(last)];
    }
  }

  /** One choice gives its content, its fragments and its finish reason. */
  lemma ChoiceGives(p: seq<Piece>, c: Choice, i: int)
    ensures TextOf(p + ChoicePieces(c)) == TextOf(p) + c.content
    ensures ReasonOf(p + ChoicePieces(c)) == if c.finish.Some? then c.finish.value else ReasonOf(p)
    ensures Fragments(p + ChoicePieces(c), i) == Fragments(p, i) + PartsWith(c.parts, i)
  {
    hide Fragments, TextOf, ReasonOf, PartPieces, PartsWith;
    var q := p + if c.content != "" then [Text(c.content)] else [];
    var r := q + PartPieces(c.parts);
    PieceAppend(p, Text(c.content), i);
    assert c.content == "" ==> q == p;
    PartsOfPieces(q, c.parts, i);
    if c.finish.Some? {
      PieceAppend(r, Finish(c.finish.value), i);
      assert p + ChoicePieces(c) == r + [Finish(c.finish.value)];
    } else {
      assert p + ChoicePieces(c) == r;
    }
  }

  lemma ChoiceSaid(p: seq<Piece>, cs: seq<Choice>, c: Choice)
    requires SaidBy(p, cs)
    ensures SaidBy(p + ChoicePieces(c), cs + [c])
  {
    hide Fragments, TextOf, ReasonOf, PartsWith, LastReason, ChoicePieces, Concat;
    assert (cs + [c])[..|cs|] == cs;
    forall i ensures Fragments(p + ChoicePieces(c), i) == PartsAt(cs + [c], i) { ChoiceGives(p, c, i); }
    ChoiceGives(p, c, 0);
    assert Contents(cs + [c]) == Contents(cs) + [c.content];
    ConcatAppend(Contents(cs), c.content);
    ReasonAppend(cs, c, ReasonOf(p));
  }

  lemma ReasonAppend(cs: seq<Choice>, c: Choice, reason: Reason)
    requires LastReason(cs, reason)
    ensures LastReason(cs + [c], if c.finish.Some? then c.finish.value else reason)
  {
    var all := cs + [c];
    assert forall k :: 0 <= k < |cs| ==> all[k] == cs[k];
    assert all[|cs|] == c;
    if c.finish.None? && exists k :: 0 <= k < |cs| && cs[k].finish.Some? {
      var k :| 0 <= k < |cs| && cs[k].finish == Some(reason) && forall j :: k < j < |cs| ==> cs[j].finish.None?;
      assert all[k].finish == Some(reason);
    }
  }

  lemma {:induction false} ChunkSaid(p: seq<Piece>, cs: seq<Choice>, more: seq<Choice>)
    requires SaidBy(p, cs)
    ensures SaidBy(p + ChunkPieces(more), cs + more)
    decreases |more|
  {
    hide SaidBy, ChoicePieces;
    if more == [] {
      assert p + ChunkPieces(more) == p && cs + more == cs;
    } else {
      var init, last := more[..|more| - 1], more[|more| - 1];
      ChunkSaid(p, cs, init);
      ChoiceSaid(p + ChunkPieces(init), cs + init, last);
      assert p + ChunkPieces(more) == (p + ChunkPieces(init)) + ChoicePieces(last);
      assert cs + more == (cs + init) + [last];
    }
  }

  /** Nothing a line says is lost or changed on its way into the pieces. */
  lemma {:induction false} LinesSayPieces(lines: seq<Line>)
    ensures SaidBy(Pieces(lines), Choices(lines))
  {
    hide SaidBy, ChunkPieces;
    if lines == [] {
      NothingSaid();
    } else {
      var init, last := lines[..|lines| - 1], lines[|lines| - 1];
      LinesSayPieces(init);
      if last.content.Chunk? {
        ChunkSaid(Pieces(init), Choices(init), last.content.choices);
      } else {
        assert Choices(init) + [] == Choices(init);
      }
    }
  }

  lemma NothingSaid()
    ensures SaidBy([], [])
  {
  }

  /** The name and the arguments of a call are those of its fragments, one behind the other. */
  lemma {:induction false} CallIsConcat(fs: seq<Part>)
    ensures NameOf(fs) == Concat(Names(fs)) && ArgumentsOf(fs) == Concat(Arguments(fs))
  {
    if fs != [] {
      var init, last := fs[..|fs| - 1], fs[|fs| - 1];
      CallIsConcat(init);
      assert Names(fs) == Names(init) + [last.name] && Arguments(fs) == Arguments(init) + [last.arguments];
      ConcatAppend(Names(init), last.name);
      ConcatAppend(Arguments(init), last.arguments);
    }
  }

  // ---- One more piece -------------------------------------------------------------------------

  lemma {:induction false} IdOfExact(fs: seq<Part>)
    ensures IdOf(fs) == "" ==> forall k :: 0 <= k < |fs| ==> fs[k].id == ""
    ensures IdOf(fs) != "" ==> exists k :: 0 <= k < |fs| && fs[k].id == IdOf(fs)
  {
    if fs != [] && fs[|fs| - 1].id == "" { IdOfExact(fs[..|fs| - 1]); }
  }

  /** A call stays within its bounds exactly when each fragment passes the decoder's tests. */
  lemma BoundsStep(fs: seq<Part>, part: Part, limit: nat)
    ensures var all := fs + [part];
            && IdOf(all) == (if part.id != "" then part.id else IdOf(fs))
            && NameOf(all) == NameOf(fs) + part.name
            && ArgumentsOf(all) == ArgumentsOf(fs) + part.arguments
            && (WithinBounds(fs, limit) ==>
                  (WithinBounds(all, limit) <==>
                     && (part.id == "" || IdOf(fs) == "" || IdOf(fs) == part.id)
                     && |IdOf(all)| <= MAX_ID && |NameOf(all)| <= MAX_NAME && |ArgumentsOf(all)| <= limit))
            && (!IdsAgree(fs) ==> !IdsAgree(all))
  {
    var all := fs + [part];
    assert all[..|fs|] == fs;
    IdOfExact(fs);
    assert forall k :: 0 <= k < |fs| ==> all[k] == fs[k];
    if IdsAgree(fs) && part.id != "" && IdOf(fs) != "" && IdOf(fs) != part.id {
      var k :| 0 <= k < |fs| && fs[k].id == IdOf(fs);
      assert all[k].id != all[|fs|].id;
    }
  }

  lemma PieceAppend(p: seq<Piece>, x: Piece, i: int)
    ensures TextOf(p + [x]) == if x.Text? then TextOf(p) + x.content else TextOf(p)
    ensures Deltas(p + [x]) == if x.Text? then Deltas(p) + [x.content] else Deltas(p)
    ensures ReasonOf(p + [x]) == if x.Finish? then x.reason else ReasonOf(p)
    ensures Fragments(p + [x], i) ==
              if x.Fragment? && x.part.index == i then Fragments(p, i) + [x.part] else Fragments(p, i)
  {
    assert (p + [x])[..|p|] == p;
  }

  /** What has once passed a limit stays refused. */
  lemma {:induction false} SoundPrefix(p: seq<Piece>, q: seq<Piece>, limit: nat)
    requires !Sound(p, limit)
    ensures !Sound(p + q, limit)
    decreases |q|
  {
    if q == [] {
      assert p + q == p;
    } else {
      SoundAppend(p, q[0], limit);
      SoundPrefix(p + [q[0]], q[1..], limit);
      assert p + q == (p + [q[0]]) + q[1..];
    }
  }

  lemma SoundAppend(p: seq<Piece>, x: Piece, limit: nat)
    ensures Sound(p + [x], limit) ==> Sound(p, limit)
  {
    var all := p + [x];
    if Sound(all, limit) {
      PieceAppend(p, x, 0);
      forall k | 0 <= k < |p| && p[k].Fragment? ensures 0 <= p[k].part.index < MAX_TOOL_CALLS {
        assert all[k] == p[k];
      }
      forall i | 0 <= i < MAX_TOOL_CALLS ensures WithinBounds(Fragments(p, i), limit) {
        PieceAppend(p, x, i);
        assert WithinBounds(Fragments(all, i), limit);
        if Fragments(all, i) != Fragments(p, i) { BoundsShrink(Fragments(p, i), x.part, limit); }
      }
    }
  }

  lemma BoundsShrink(fs: seq<Part>, part: Part, limit: nat)
    requires WithinBounds(fs + [part], limit)
    ensures WithinBounds(fs, limit)
  {
    BoundsStep(fs, part, limit);
    IdOfExact(fs);
    if part.id != "" && IdOf(fs) != "" {
      var k :| 0 <= k < |fs| && fs[k].id == IdOf(fs);
      assert (fs + [part])[k].id == (fs + [part])[|fs|].id;
    }
  }

  // ---- The decoder ------------------------------------------------------------------------------

  datatype Builder = Builder(id: string, name: string, arguments: string)

  function BuilderOf(fs: seq<Part>): Builder {
    Builder(IdOf(fs), NameOf(fs), ArgumentsOf(fs))
  }

  /** What the decoder holds, and the deltas it has handed on. */
  datatype Decoded = Decoded(text: string, builders: map<int, Builder>, reason: Reason, passed: seq<string>)

  ghost predicate Follows(s: Decoded, p: seq<Piece>, limit: nat) {
    && Sound(p, limit)
    && s.text == TextOf(p) && s.reason == ReasonOf(p) && s.passed == Deltas(p)
    && BuildersFollow(s.builders, p)
  }

  ghost predicate BuildersFollow(builders: map<int, Builder>, p: seq<Piece>) {
    && (forall i :: i in builders <==> Fragments(p, i) != [])
    && forall i <- builders :: builders[i] == BuilderOf(Fragments(p, i))
  }

  function Below(n: nat): set<int> {
    if n == 0 then {} else Below(n - 1) + {n - 1}
  }

  lemma {:induction false} BelowSize(n: nat)
    ensures |Below(n)| == n && forall i :: i in Below(n) <==> 0 <= i < n
  {
    if n > 0 { BelowSize(n - 1); }
  }

  lemma SubsetSize<T>(a: set<T>, b: set<T>)
    requires a <= b
    ensures |a| <= |b| && (|a| == |b| ==> a == b)
  {
    assert b == a + (b - a);
  }

  lemma {:induction false} FragmentsInRange(p: seq<Piece>, i: int)
    requires InRange(p) && Fragments(p, i) != []
    ensures 0 <= i < MAX_TOOL_CALLS
  {
    var last := |p| - 1;
    if !(p[last].Fragment? && p[last].part.index == i) {
      assert forall k :: 0 <= k < last ==> p[..last][k] == p[k];
      FragmentsInRange(p[..last], i);
    }
  }

  /** The test on the number of calls never fires: the indices themselves are below the bound. */
  lemma RoomForOneMore(s: Decoded, p: seq<Piece>, limit: nat, index: int)
    requires Follows(s, p, limit) && 0 <= index < MAX_TOOL_CALLS && index !in s.builders
    ensures |s.builders| < MAX_TOOL_CALLS
  {
    hide Below, WithinBounds, Fragments;
    BelowSize(MAX_TOOL_CALLS);
    forall i | i in s.builders.Keys ensures i in Below(MAX_TOOL_CALLS) - {index} {
      FragmentsInRange(p, i);
    }
    SubsetSize(s.builders.Keys, Below(MAX_TOOL_CALLS) - {index});
  }

  lemma SoundText(p: seq<Piece>, content: string, limit: nat)
    requires Sound(p, limit)
    ensures Sound(p + [Text(content)], limit) <==> |TextOf(p)| + |content| <= limit
  {
    hide WithinBounds, Fragments, TextOf;
    var all := p + [Text(content)];
    PieceAppend(p, Text(content), 0);
    forall i ensures Fragments(all, i) == Fragments(p, i) { PieceAppend(p, Text(content), i); }
    assert forall k :: 0 <= k < |p| ==> all[k] == p[k];
  }

  lemma SoundFragment(p: seq<Piece>, part: Part, limit: nat)
    requires Sound(p, limit)
    ensures Sound(p + [Fragment(part)], limit) <==>
              0 <= part.index < MAX_TOOL_CALLS && WithinBounds(Fragments(p, part.index) + [part], limit)
  {
    hide WithinBounds, Fragments, TextOf, Sound;
    var all := p + [Fragment(part)];
    PieceAppend(p, Fragment(part), part.index);
    if Sound(all, limit) {
      FragmentInBounds(all, |p|, limit);
    }
    if 0 <= part.index < MAX_TOOL_CALLS && WithinBounds(Fragments(p, part.index) + [part], limit) {
      SoundExtends(p, part, limit);
    }
  }

  lemma FragmentInBounds(p: seq<Piece>, k: nat, limit: nat)
    requires Sound(p, limit) && k < |p| && p[k].Fragment?
    ensures 0 <= p[k].part.index < MAX_TOOL_CALLS && WithinBounds(Fragments(p, p[k].part.index), limit)
  {
    hide WithinBounds, Fragments, TextOf;
  }

  lemma SoundExtends(p: seq<Piece>, part: Part, limit: nat)
    requires Sound(p, limit) && 0 <= part.index < MAX_TOOL_CALLS
             && WithinBounds(Fragments(p, part.index) + [part], limit)
    ensures Sound(p + [Fragment(part)], limit)
  {
    hide WithinBounds, Fragments, TextOf;
    var all := p + [Fragment(part)];
    forall i | 0 <= i < MAX_TOOL_CALLS ensures WithinBounds(Fragments(all, i), limit) {
      PieceAppend(p, Fragment(part), i);
    }
    PieceAppend(p, Fragment(part), 0);
    forall k | 0 <= k < |all| && all[k].Fragment? ensures 0 <= all[k].part.index < MAX_TOOL_CALLS {
      if k < |p| { assert all[k] == p[k]; }
    }
  }

  lemma SoundFinish(p: seq<Piece>, reason: Reason, limit: nat)
    requires Sound(p, limit)
    ensures Sound(p + [Finish(reason)], limit)
    ensures forall i :: Fragments(p + [Finish(reason)], i) == Fragments(p, i)
  {
    hide WithinBounds, Fragments, TextOf;
    var all := p + [Finish(reason)];
    forall i ensures Fragments(all, i) == Fragments(p, i) { PieceAppend(p, Finish(reason), i); }
    PieceAppend(p, Finish(reason), 0);
    assert forall k :: 0 <= k < |p| ==> all[k] == p[k];
  }

  method AddPart(s: Decoded, ghost p: seq<Piece>, part: Part, limit: nat) returns (r: Result<Decoded, DecodeError>)
    requires Follows(s, p, limit)
    ensures r.Success? <==> Sound(p + [Fragment(part)], limit)
    ensures r.Success? ==> Follows(r.value, p + [Fragment(part)], limit)
    ensures r.Failure? ==> !r.error.Stopped?
  {
    hide WithinBounds, Fragments, TextOf, Deltas, ReasonOf;
    ghost var fs := Fragments(p, part.index);
    SoundFragment(p, part, limit);
    BoundsStep(fs, part, limit);
    if part.index < 0 || part.index >= MAX_TOOL_CALLS { return Failure(BadIndex); }
    if part.index !in s.builders {
      RoomForOneMore(s, p, limit, part.index);
      if |s.builders| >= MAX_TOOL_CALLS { return Failure(TooLong); }
    }
    var b := if part.index in s.builders then s.builders[part.index] else Builder("", "", "");
    assert b == BuilderOf(fs) && WithinBounds(fs, limit);
    if part.id != "" {
      if b.id != "" && b.id != part.id { return Failure(IdChanged); }
      b := b.(id := part.id);
    }
    if |b.id| > MAX_ID || |b.name| + |part.name| > MAX_NAME || |b.arguments| + |part.arguments| > limit {
      return Failure(TooLong);
    }
    b := b.(name := b.name + part.name, arguments := b.arguments + part.arguments);
    var builders := s.builders[part.index := b];
    PieceAppend(p, Fragment(part), 0);
    ghost var all := p + [Fragment(part)];
    forall i
      ensures i in builders <==> Fragments(all, i) != []
      ensures i in builders ==> builders[i] == BuilderOf(Fragments(all, i))
    {
      PieceAppend(p, Fragment(part), i);
    }
    return Success(s.(builders := builders));
  }

  /** Text first, then the fragments, then the finish reason; the callback may refuse a delta. */
  method AddChoice(s: Decoded, ghost p: seq<Piece>, c: Choice, limit: nat) returns (r: Result<Decoded, DecodeError>)
    requires Follows(s, p, limit)
    ensures r.Success? ==> Follows(r.value, p + ChoicePieces(c), limit)
    ensures r.Failure? && !r.error.Stopped? ==> !Sound(p + ChoicePieces(c), limit)
  {
    hide Sound, BuildersFollow, TextOf, Deltas, ReasonOf, PartPieces;
    var d := s;
    ghost var q := p;
    ghost var text := if c.content != "" then [Text(c.content)] else [];
    ghost var finish := if c.finish.Some? then [Finish(c.finish.value)] else [];
    ghost var rest := PartPieces(c.parts) + finish;
    assert p + ChoicePieces(c) == p + text + rest;
    if c.content != "" {
      SoundText(p, c.content, limit);
      if |s.text| + |c.content| > limit {
        SoundPrefix(p + text, rest, limit);
        return Failure(TooLong);
      }
      TextFollows(s, p, c.content, limit);
      d := d.(text := d.text + c.content, passed := d.passed + [c.content]);
      var refused: bool := *;
      if refused { return Failure(Stopped); }
    } else {
      assert p + text == p;
    }
    q := p + text;
    r := AddParts(d, q, c.parts, limit);
    if r.Failure? {
      SoundPrefix(q + PartPieces(c.parts), finish, limit);
      assert q + PartPieces(c.parts) + finish == q + rest;
      return;
    }
    q := q + PartPieces(c.parts);
    if c.finish.Some? {
      FinishFollows(r.value, q, c.finish.value, limit);
      r := Success(r.value.(reason := c.finish.value));
    }
    assert p + ChoicePieces(c) == q + finish;
    assert finish == [] ==> q + finish == q;
  }

  lemma TextFollows(s: Decoded, p: seq<Piece>, content: string, limit: nat)
    requires Follows(s, p, limit) && |s.text| + |content| <= limit
    ensures Follows(s.(text := s.text + content, passed := s.passed + [content]), p + [Text(content)], limit)
  {
    hide WithinBounds, Fragments, Sound;
    SoundText(p, content, limit);
    forall i ensures Fragments(p + [Text(content)], i) == Fragments(p, i) { PieceAppend(p, Text(content), i); }
    PieceAppend(p, Text(content), 0);
  }

  lemma FinishFollows(s: Decoded, p: seq<Piece>, reason: Reason, limit: nat)
    requires Follows(s, p, limit)
    ensures Follows(s.(reason := reason), p + [Finish(reason)], limit)
  {
    hide WithinBounds, Fragments, Sound;
    SoundFinish(p, reason, limit);
    PieceAppend(p, Finish(reason), 0);
  }

  method AddParts(s: Decoded, ghost p: seq<Piece>, parts: seq<Part>, limit: nat)
    returns (r: Result<Decoded, DecodeError>)
    requires Follows(s, p, limit)
    ensures r.Success? ==> Follows(r.value, p + PartPieces(parts), limit)
    ensures r.Failure? ==> !r.error.Stopped? && !Sound(p + PartPieces(parts), limit)
  {
    hide Follows, Sound;
    assert p + [] == p;
    var d := s;
    for k := 0 to |parts|
      invariant Follows(d, p + PartPieces(parts[..k]), limit)
    {
      assert parts[..k + 1][..k] == parts[..k];
      ghost var before := p + PartPieces(parts[..k]);
      assert p + PartPieces(parts[..k + 1]) == before + [Fragment(parts[k])];
      r := AddPart(d, before, parts[k], limit);
      if r.Failure? {
        PartsSplit(p, parts, k, limit);
        return;
      }
      d := r.value;
    }
    assert parts[..|parts|] == parts;
    return Success(d);
  }

  lemma {:induction false} PartsSplit(p: seq<Piece>, parts: seq<Part>, k: nat, limit: nat)
    requires k < |parts| && !Sound(p + PartPieces(parts[..k]) + [Fragment(parts[k])], limit)
    ensures !Sound(p + PartPieces(parts), limit)
  {
    hide Sound;
    var n := |parts| - 1;
    if k < n {
      assert parts[..n][..k] == parts[..k];
      PartsSplit(p, parts[..n], k, limit);
      SoundPrefix(p + PartPieces(parts[..n]), [Fragment(parts[n])], limit);
    }
    assert p + PartPieces(parts) == p + PartPieces(parts[..n]) + [Fragment(parts[n])];
  }

  method AddChunk(s: Decoded, ghost p: seq<Piece>, choices: seq<Choice>, limit: nat)
    returns (r: Result<Decoded, DecodeError>)
    requires Follows(s, p, limit)
    ensures r.Success? ==> Follows(r.value, p + ChunkPieces(choices), limit)
    ensures r.Failure? && !r.error.Stopped? ==> !Sound(p + ChunkPieces(choices), limit)
  {
    hide Follows, Sound, ChoicePieces;
    assert p + [] == p;
    var d := s;
    for k := 0 to |choices|
      invariant Follows(d, p + ChunkPieces(choices[..k]), limit)
    {
      assert choices[..k + 1][..k] == choices[..k];
      ghost var before := p + ChunkPieces(choices[..k]);
      assert p + ChunkPieces(choices[..k + 1]) == before + ChoicePieces(choices[k]);
      r := AddChoice(d, before, choices[k], limit);
      if r.Failure? {
        if !r.error.Stopped? { ChoicesSplit(p, choices, k, limit); }
        return;
      }
      d := r.value;
    }
    assert choices[..|choices|] == choices;
    return Success(d);
  }

  lemma {:induction false} ChoicesSplit(p: seq<Piece>, choices: seq<Choice>, k: nat, limit: nat)
    requires k < |choices| && !Sound(p + ChunkPieces(choices[..k]) + ChoicePieces(choices[k]), limit)
    ensures !Sound(p + ChunkPieces(choices), limit)
  {
    hide Sound, ChoicePieces;
    var n := |choices| - 1;
    if k < n {
      assert choices[..n][..k] == choices[..k];
      ChoicesSplit(p, choices[..n], k, limit);
      SoundPrefix(p + ChunkPieces(choices[..n]), ChoicePieces(choices[n]), limit);
    }
    assert p + ChunkPieces(choices) == p + ChunkPieces(choices[..n]) + ChoicePieces(choices[n]);
  }

  // ---- Whole streams -----------------------------------------------------------------------------

  function Size(lines: seq<Line>): nat {
    if lines == [] then 0 else Size(lines[..|lines| - 1]) + lines[|lines| - 1].size
  }

  /** Reading stops at the first [DONE], or at the end of the body. */
  function StopOf(lines: seq<Line>): nat {
    if lines == [] then 0
    else
      var n := |lines| - 1;
      var e := StopOf(lines[..n]);
      if e < n || lines[n].content.Done? then e else n + 1
  }

  ghost predicate StopsAt(lines: seq<Line>, e: nat) {
    && e <= |lines|
    && (forall k :: 0 <= k < e ==> !lines[k].content.Done?)
    && (e < |lines| ==> lines[e].content.Done?)
  }

  /** The stream can be read to its stop.  A read error counts when the scanner has met it by then, even
      one that came with the bytes of the [DONE] line. */
  ghost predicate Readable(lines: seq<Line>, readFailed: bool, outputLimit: nat) {
    StopExact(lines);
    var e := StopOf(lines);
    && (forall k :: 0 <= k < e ==> lines[k].content.Comment? || lines[k].content.Chunk?)
    && Size(lines[..if e < |lines| then e + 1 else e]) <= StreamLimit(outputLimit)
    && (e < |lines| || exists k :: 0 <= k < e && lines[k].content.Chunk?)
    && !readFailed
  }

  /** What the stream says up to where reading stops. */
  ghost function PiecesRead(lines: seq<Line>): seq<Piece> {
    StopExact(lines);
    Pieces(lines[..StopOf(lines)])
  }

  /** What the decoder accepts. */
  ghost predicate Acceptable(lines: seq<Line>, readFailed: bool, outputLimit: int, jsonValid: string -> bool) {
    && outputLimit > 0
    && Readable(lines, readFailed, outputLimit)
    && Sound(PiecesRead(lines), outputLimit)
    && exists n: nat :: Complete(PiecesRead(lines), n, jsonValid)
  }

  lemma {:induction false} SizeGrows(lines: seq<Line>, i: nat, m: nat)
    requires i < m <= |lines|
    ensures Size(lines[..i]) + lines[i].size <= Size(lines[..m])
  {
    assert lines[..m][..m - 1] == lines[..m - 1];
    if i < m - 1 { SizeGrows(lines, i, m - 1); }
  }

  lemma {:induction false} PiecesGrow(lines: seq<Line>, k: nat, limit: nat)
    requires k <= |lines| && !Sound(Pieces(lines[..k]), limit)
    ensures !Sound(Pieces(lines), limit)
  {
    hide Sound;
    if k < |lines| {
      var n := |lines| - 1;
      assert lines[..n][..k] == lines[..k];
      PiecesGrow(lines[..n], k, limit);
      if lines[n].content.Chunk? { SoundPrefix(Pieces(lines[..n]), ChunkPieces(lines[n].content.choices), limit); }
    } else {
      assert lines[..k] == lines;
    }
  }

  lemma {:induction false} StopExact(lines: seq<Line>)
    ensures StopsAt(lines, StopOf(lines))
  {
    if lines != [] { StopExact(lines[..|lines| - 1]); }
  }

  /** The final check: the indices seen are exactly 0..n-1, and every call is complete. */
  method FinishCalls(s: Decoded, ghost p: seq<Piece>, limit: nat, jsonValid: string -> bool)
    returns (r: Option<seq<Call>>)
    requires Follows(s, p, limit)
    ensures r.Some? ==> Complete(p, |r.value|, jsonValid) && r.value == Reassembled(p, |r.value|)
    ensures r.None? ==> forall n: nat :: !Complete(p, n, jsonValid)
  {
    hide Sound, Fragments, CallComplete, TextOf, Deltas, ReasonOf;
    var calls: seq<Call> := [];
    for i := 0 to |s.builders|
      invariant |calls| == i
      invariant forall k :: 0 <= k < i ==>
                  k in s.builders && CallComplete(Fragments(p, k), jsonValid) && calls[k] == CallOf(Fragments(p, k))
    {
      if i !in s.builders {
        forall n: nat ensures !Complete(p, n, jsonValid) { MissingIsIncomplete(s.builders, p, i, n, jsonValid); }
        return None;
      }
      var b := s.builders[i];
      if b.id == "" || b.name == "" || !jsonValid(b.arguments) {
        forall n: nat ensures !Complete(p, n, jsonValid) { OpenCallIsIncomplete(p, i, n, jsonValid); }
        return None;
      }
      ThisCallComplete(p, i, jsonValid);
      calls := calls + [Call(b.id, b.name, RawJson(b.arguments, true))];
    }
    AllSeen(s.builders, p);
    return Some(calls);
  }

  lemma ThisCallComplete(p: seq<Piece>, i: int, jsonValid: string -> bool)
    ensures var fs := Fragments(p, i);
            IdOf(fs) != "" && NameOf(fs) != "" && jsonValid(ArgumentsOf(fs)) ==> CallComplete(fs, jsonValid)
  {
  }

  lemma OpenCallIsIncomplete(p: seq<Piece>, i: nat, n: nat, jsonValid: string -> bool)
    requires Fragments(p, i) != []
    requires IdOf(Fragments(p, i)) == "" || NameOf(Fragments(p, i)) == "" || !jsonValid(ArgumentsOf(Fragments(p, i)))
    ensures !Complete(p, n, jsonValid)
  {
    hide Fragments, IdOf, NameOf, ArgumentsOf;
  }

  lemma KeysOfComplete(builders: map<int, Builder>, p: seq<Piece>, n: nat, jsonValid: string -> bool)
    requires BuildersFollow(builders, p) && Complete(p, n, jsonValid)
    ensures |builders| == n && forall i :: 0 <= i < n ==> i in builders
  {
    hide Fragments, CallComplete, Below;
    BelowSize(n);
    forall k ensures k in builders.Keys <==> k in Below(n) {
      assert k in builders <==> Fragments(p, k) != [];
    }
    assert builders.Keys == Below(n);
  }

  /** As many builders as indices, and one index without a builder: the indices are not 0..n-1. */
  lemma MissingIsIncomplete(builders: map<int, Builder>, p: seq<Piece>, i: nat, n: nat, jsonValid: string -> bool)
    requires BuildersFollow(builders, p) && i < |builders| && i !in builders
    ensures !Complete(p, n, jsonValid)
  {
    hide Complete, BuildersFollow;
    if Complete(p, n, jsonValid) { KeysOfComplete(builders, p, n, jsonValid); }
  }

  /** As many builders as indices, and every index below that number seen: no other index was. */
  lemma AllSeen(builders: map<int, Builder>, p: seq<Piece>)
    requires BuildersFollow(builders, p) && forall k :: 0 <= k < |builders| ==> k in builders
    ensures forall i :: Fragments(p, i) != [] <==> 0 <= i < |builders|
  {
    hide Fragments, Below;
    BelowSize(|builders|);
    forall k | k in Below(|builders|) ensures k in builders.Keys {}
    SubsetSize(Below(|builders|), builders.Keys);
  }

  lemma TooLongIsUnreadable(lines: seq<Line>, readFailed: bool, i: nat, outputLimit: nat)
    requires i <= StopOf(lines) && i < |lines| && Size(lines[..i]) + lines[i].size > StreamLimit(outputLimit)
    ensures !Readable(lines, readFailed, outputLimit)
  {
    hide StreamLimit, Size;
    StopExact(lines);
    var e := StopOf(lines);
    SizeGrows(lines, i, if e < |lines| then e + 1 else e);
  }

  lemma MalformedIsUnreadable(lines: seq<Line>, readFailed: bool, i: nat, outputLimit: nat)
    requires i <= StopOf(lines) && i < |lines| && (lines[i].content.NotData? || lines[i].content.BadJson?)
    ensures !Readable(lines, readFailed, outputLimit)
  {
    hide StreamLimit, Size;
    StopExact(lines);
  }

  lemma UnsoundIsRefused(lines: seq<Line>, i: nat, outputLimit: nat)
    requires i < StopOf(lines) && i < |lines| && lines[i].content.Chunk?
    requires !Sound(Pieces(lines[..i]) + ChunkPieces(lines[i].content.choices), outputLimit)
    ensures !Sound(PiecesRead(lines), outputLimit)
  {
    hide Sound;
    StopExact(lines);
    var e := StopOf(lines);
    assert lines[..i + 1][..i] == lines[..i];
    assert lines[..e][..i + 1] == lines[..i + 1];
    PiecesGrow(lines[..e], i + 1, outputLimit);
  }

  /** Where the reading of a stream stands before line i, or at its [DONE]. */
  ghost predicate Reading(lines: seq<Line>, i: nat, e: nat, total: nat, sawData: bool, done: bool, outputLimit: nat) {
    && StopsAt(lines, e) && i <= e
    && (!done ==> total == Size(lines[..i])) && total <= StreamLimit(outputLimit)
    && (done ==> i == e < |lines| && Size(lines[..e + 1]) <= StreamLimit(outputLimit))
    && (forall k :: 0 <= k < i ==> lines[k].content.Comment? || lines[k].content.Chunk?)
    && (sawData <==> done || exists k :: 0 <= k < i && lines[k].content.Chunk?)
  }

  lemma ReadingStep(lines: seq<Line>, i: nat, e: nat, total: nat, sawData: bool, outputLimit: nat)
    requires Reading(lines, i, e, total, sawData, false, outputLimit) && i < |lines|
    requires total + lines[i].size <= StreamLimit(outputLimit)
    ensures lines[i].content.Done? ==> Reading(lines, i, e, total + lines[i].size, true, true, outputLimit)
    ensures lines[i].content.Chunk? ==> Reading(lines, i + 1, e, total + lines[i].size, true, false, outputLimit)
    ensures lines[i].content.Comment? ==> Reading(lines, i + 1, e, total + lines[i].size, sawData, false, outputLimit)
    ensures lines[i].content.Chunk? ==>
              Pieces(lines[..i + 1]) == Pieces(lines[..i]) + ChunkPieces(lines[i].content.choices)
    ensures !lines[i].content.Chunk? ==> Pieces(lines[..i + 1]) == Pieces(lines[..i])
    ensures !lines[i].content.Done? ==> i < e
  {
    hide StreamLimit;
    assert lines[..i + 1][..i] == lines[..i];
  }

  lemma ReadToTheEnd(lines: seq<Line>, readFailed: bool, i: nat, e: nat, total: nat, sawData: bool, done: bool,
                     outputLimit: nat)
    requires Reading(lines, i, e, total, sawData, done, outputLimit) && (done || i == |lines|)
    requires e == StopOf(lines)
    ensures i == e
    ensures !readFailed && sawData <==> Readable(lines, readFailed, outputLimit)
  {
    hide StreamLimit, Size, StopOf;
    StopExact(lines);
    assert lines[..|lines|] == lines;
  }

  /** decodeStream: accepts exactly the acceptable streams, unless the caller stops it, and returns
      the concatenated text, the reassembled calls in index order, and the last finish reason. */
  method DecodeStream(lines: seq<Line>, readFailed: bool, outputLimit: int, jsonValid: string -> bool)
    returns (r: Result<Response, DecodeError>, passed: seq<string>)
    ensures r.Success? ==> Acceptable(lines, readFailed, outputLimit, jsonValid)
    ensures r.Success? ==>
              var p := PiecesRead(lines);
              && Complete(p, |r.value.calls|, jsonValid)
              && r.value == Response(TextOf(p), Reassembled(p, |r.value.calls|), ReasonOf(p))
              && passed == Deltas(p)
    ensures r.Failure? && !r.error.Stopped? ==> !Acceptable(lines, readFailed, outputLimit, jsonValid)
    ensures r.Success? ==> outputLimit > 0 && Said(r.value, ChoicesRead(lines), outputLimit, jsonValid)
  {
    hide Said, ChoicesRead;
    hide Sound, Follows, ChunkPieces, StreamLimit, Complete, Readable, Pieces, Size, StopOf;
    StopExact(lines);
    ghost var e := StopOf(lines);
    passed := [];
    if outputLimit <= 0 { return Failure(BadLimit), passed; }
    var s := Decoded("", map[], Unset, []);
    var i: nat, total: nat, sawData, done := 0, 0, false, false;
    NothingFollows(lines, e, outputLimit);
    while i < |lines| && !done
      invariant Reading(lines, i, e, total, sawData, done, outputLimit)
      invariant Follows(s, Pieces(lines[..i]), outputLimit)
      decreases |lines| - i, !done
    {
      var gone: bool := *;
      if gone { return Failure(Stopped), passed; }
      var line := lines[i];
      if total + line.size > StreamLimit(outputLimit) {
        TooLongIsUnreadable(lines, readFailed, i, outputLimit);
        return Failure(TooLong), passed;
      }
      ReadingStep(lines, i, e, total, sawData, outputLimit);
      total := total + line.size;
      match line.content {
        case Comment => i := i + 1;
        case NotData =>
          MalformedIsUnreadable(lines, readFailed, i, outputLimit);
          return Failure(Malformed), passed;
        case BadJson =>
          MalformedIsUnreadable(lines, readFailed, i, outputLimit);
          return Failure(Malformed), passed;
        case Done => sawData, done := true, true;
        case Chunk(choices) =>
          var next := AddChunk(s, Pieces(lines[..i]), choices, outputLimit);
          if next.Failure? {
            if !next.error.Stopped? { UnsoundIsRefused(lines, i, outputLimit); }
            return Failure(next.error), passed;
          }
          s, sawData, i := next.value, true, i + 1;
      }
    }
    ReadToTheEnd(lines, readFailed, i, e, total, sawData, done, outputLimit);
    var late: bool := *;
    if readFailed && late { return Failure(Stopped), passed; }
    if readFailed { return Failure(Malformed), passed; }
    if !sawData { return Failure(Empty), passed; }
    FollowsFacts(s, Pieces(lines[..e]), outputLimit);
    var calls := FinishCalls(s, Pieces(lines[..e]), outputLimit, jsonValid);
    if calls.None? { return Failure(Incomplete), passed; }
    passed := s.passed;
    ResponseSaid(lines, |calls.value|, outputLimit, jsonValid);
    return Success(Response(s.text, calls.value, s.reason)), passed;
  }

  /** The choices up to where reading stops. */
  ghost function ChoicesRead(lines: seq<Line>): seq<Choice> {
    StopExact(lines);
    Choices(lines[..StopOf(lines)])
  }

  /** The response the choices give, with the limits it keeps: the contents are its text, the last finish
      given is its reason, and each call is put together from the fragments at its index, its ID being the
      one all of them that have an ID agree on. */
  ghost predicate Said(r: Response, cs: seq<Choice>, limit: nat, jsonValid: string -> bool) {
    && r.text == Concat(Contents(cs)) && |r.text| <= limit
    && LastReason(cs, r.reason)
    && |r.calls| <= 128
    && (forall i :: PartsAt(cs, i) != [] <==> 0 <= i < |r.calls|)
    && forall i :: 0 <= i < |r.calls| ==> CallSaid(r.calls[i], PartsAt(cs, i), limit, jsonValid)
  }

  ghost predicate CallSaid(c: Call, fs: seq<Part>, limit: nat, jsonValid: string -> bool) {
    && 0 < |c.id| <= 1024
    && (exists k :: 0 <= k < |fs| && fs[k].id == c.id)
    && (forall k :: 0 <= k < |fs| ==> fs[k].id == "" || fs[k].id == c.id)
    && c.name == Concat(Names(fs)) && 0 < |c.name| <= 256
    && c.arguments == RawJson(Concat(Arguments(fs)), true)
    && jsonValid(c.arguments.text) && |c.arguments.text| <= limit
  }

  lemma ResponseSaid(lines: seq<Line>, n: nat, limit: nat, jsonValid: string -> bool)
    requires Sound(PiecesRead(lines), limit) && Complete(PiecesRead(lines), n, jsonValid)
    ensures var p := PiecesRead(lines);
            Said(Response(TextOf(p), Reassembled(p, n), ReasonOf(p)), ChoicesRead(lines), limit, jsonValid)
  {
    hide Fragments, TextOf, ReasonOf, LastReason, CallSaid, WithinBounds, CallComplete, CallOf, StopOf, Choices, Pieces;
    var p, cs := PiecesRead(lines), ChoicesRead(lines);
    StopExact(lines);
    LinesSayPieces(lines[..StopOf(lines)]);
    if n > 0 { FragmentsInRange(p, n - 1); }
    forall i | 0 <= i < n ensures CallSaid(CallOf(Fragments(p, i)), PartsAt(cs, i), limit, jsonValid) {
      FragmentsInRange(p, i);
      CompleteCallSaid(Fragments(p, i), limit, jsonValid);
    }
  }

  lemma CompleteCallSaid(fs: seq<Part>, limit: nat, jsonValid: string -> bool)
    requires WithinBounds(fs, limit) && CallComplete(fs, jsonValid)
    ensures CallSaid(CallOf(fs), fs, limit, jsonValid)
  {
    hide NameOf, ArgumentsOf;
    IdOfExact(fs);
    CallIsConcat(fs);
  }

  lemma StreamLimitPositive(outputLimit: nat)
    ensures StreamLimit(outputLimit) >= 0
  {
  }

  lemma FollowsFacts(s: Decoded, p: seq<Piece>, limit: nat)
    requires Follows(s, p, limit)
    ensures Sound(p, limit) && s.text == TextOf(p) && s.reason == ReasonOf(p) && s.passed == Deltas(p)
  {
  }

  lemma NothingFollows(lines: seq<Line>, e: nat, limit: nat)
    requires StopsAt(lines, e)
    ensures Follows(Decoded("", map[], Unset, []), Pieces(lines[..0]), limit)
    ensures Reading(lines, 0, e, 0, false, false, limit)
  {
    StreamLimitPositive(limit);
  }

  // ---- Round trip ------------------------------------------------------------------------------------

  /** The stream carries the given calls: cut into any fragments and interleaved in any way, with the
      ID repeated or left out after it has been given. */
  ghost predicate Carries(p: seq<Piece>, calls: seq<Call>) {
    && (forall i :: Fragments(p, i) != [] <==> 0 <= i < |calls|)
    && forall i :: 0 <= i < |calls| ==>
         && NameOf(Fragments(p, i)) == calls[i].name
         && ArgumentsOf(Fragments(p, i)) == calls[i].arguments.text
         && (exists k :: 0 <= k < |Fragments(p, i)| && Fragments(p, i)[k].id == calls[i].id)
         && (forall k :: 0 <= k < |Fragments(p, i)| ==>
                Fragments(p, i)[k].id == "" || Fragments(p, i)[k].id == calls[i].id)
  }

  /** However the calls were cut and interleaved, exactly they come out, in order. */
  lemma ReassembledExactly(p: seq<Piece>, calls: seq<Call>, jsonValid: string -> bool)
    requires Carries(p, calls)
    requires forall c <- calls :: c.id != "" && c.name != "" && c.arguments.wellFormed && jsonValid(c.arguments.text)
    ensures Complete(p, |calls|, jsonValid) && Reassembled(p, |calls|) == calls
    ensures forall n: nat :: Complete(p, n, jsonValid) ==> n == |calls|
  {
    hide Fragments, NameOf, ArgumentsOf;
    forall n: nat | Complete(p, n, jsonValid) ensures n == |calls| {
      assert n < |calls| ==> Fragments(p, n) != [];
      assert |calls| < n ==> Fragments(p, |calls|) != [];
    }
    forall i | 0 <= i < |calls|
      ensures CallComplete(Fragments(p, i), jsonValid) && CallOf(Fragments(p, i)) == calls[i]
    {
      assert calls[i] in calls;
      IdOfExact(Fragments(p, i));
    }
  }

  /** The text is the concatenation of the deltas handed on. */
  lemma {:induction false} TextIsDeltas(p: seq<Piece>)
    ensures Concat(Deltas(p)) == TextOf(p)
  {
    if p != [] {
      TextIsDeltas(p[..|p| - 1]);
      if p[|p| - 1].Text? { ConcatAppend(Deltas(p[..|p| - 1]), p[|p| - 1].content); }
    }
  }
}
