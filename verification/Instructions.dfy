/** Discovery of scoped project instructions along the directory chain, with one document per
    distinct content. */
module Instructions {
  import opened Wrappers
  import opened Projection

  /** A directory as its path components from the root; the file is CLAUDE.md (0) or AGENTS.md (1). */
  type Dir = seq<string>
  datatype Source = Source(dir: Dir, order: nat)

  datatype FileState = Missing | Unreadable | File(raw: string)

  datatype Instruction = Instruction(sources: seq<Source>, scope: Dir, digest: string, precedence: nat, content: string)

  const MAX_INSTRUCTION: nat := 262_144

  /** A file that was found: where, with what precedence, and its content. */
  datatype Found = Found(source: Source, precedence: nat, raw: string, digest: string)

  // ---- The directory chain ------------------------------------------------------------------

  function Named(parts: seq<string>): Dir {
    if parts == [] then []
    else
      var last := parts[|parts| - 1];
      if last == "" || last == "." then Named(parts[..|parts| - 1]) else Named(parts[..|parts| - 1]) + [last]
  }

  /** The positions of the given components among the parts, in order: exactly those that are neither
      empty nor ".". */
  ghost predicate KeptAt(parts: seq<string>, dir: Dir, at: seq<nat>) {
    && |at| == |dir|
    && (forall k :: 0 <= k < |at| ==> at[k] < |parts| && parts[at[k]] == dir[k])
    && (forall j, k :: 0 <= j < k < |at| ==> at[j] < at[k])
    && (forall i :: 0 <= i < |parts| ==> (i in at <==> parts[i] != "" && parts[i] != "."))
  }

  lemma KeptAppend(parts: seq<string>, dir: Dir, at: seq<nat>, last: string)
    requires KeptAt(parts, dir, at)
    ensures last != "" && last != "." ==> KeptAt(parts + [last], dir + [last], at + [|parts|])
    ensures last == "" || last == "." ==> KeptAt(parts + [last], dir, at)
  {
    var all, more := parts + [last], at + [|parts|];
    forall i | 0 <= i < |parts| ensures all[i] == parts[i] && (i in more <==> i in at) {}
    assert all[|parts|] == last && |parts| in more && |parts| !in at;
  }

  /** The active directory is made of exactly the named components, in order. */
  lemma {:induction false} NamedExactly(parts: seq<string>) returns (at: seq<nat>)
    ensures KeptAt(parts, Named(parts), at)
  {
    hide KeptAt;
    if parts == [] {
      at := [];
      NothingKept();
    } else {
      var n := |parts| - 1;
      at := NamedExactly(parts[..n]);
      KeptAppend(parts[..n], Named(parts[..n]), at, parts[n]);
      assert parts == parts[..n] + [parts[n]];
      if parts[n] != "" && parts[n] != "." { at := at + [n]; }
    }
  }

  lemma NothingKept()
    ensures KeptAt([], [], [])
  {
  }

  /** Every prefix of the active directory, from the root down. */
  function Chain(active: Dir): seq<Dir> {
    seq(|active| + 1, i requires 0 <= i <= |active| => active[..i])
  }

  /** The root and every directory on the way to the active one. */
  method ScopeDirs(parts: seq<string>) returns (dirs: seq<Dir>)
    ensures dirs == Chain(Named(parts))
  {
    dirs := [[]];
    var current: Dir := [];
    for k := 0 to |parts|
      invariant current == Named(parts[..k])
      invariant |dirs| == |current| + 1
      invariant forall i :: 0 <= i < |dirs| ==> dirs[i] == current[..i]
    {
      assert parts[..k + 1][..k] == parts[..k];
      if parts[k] == "" || parts[k] == "." { continue; }
      ghost var before := current;
      current := current + [parts[k]];
      assert forall i :: 0 <= i <= |before| ==> current[..i] == before[..i];
      dirs := dirs + [current];
    }
    assert parts[..|parts|] == parts;
  }

  // ---- What there is to find ------------------------------------------------------------------

  function Precedence(depth: nat, order: nat): nat {
    10 + depth * 2 + order
  }

  function FoundAt(files: Source -> FileState, hash: string -> string, dir: Dir, depth: nat, order: nat): seq<Found> {
    match files(Source(dir, order))
    case File(raw) => [Found(Source(dir, order), Precedence(depth, order), raw, hash(raw))]
    case _ => []
  }

  /** All files along the chain, in the order they are looked up. */
  function FoundIn(files: Source -> FileState, hash: string -> string, dirs: seq<Dir>): seq<Found> {
    if dirs == [] then []
    else
      var n := |dirs| - 1;
      FoundIn(files, hash, dirs[..n]) + FoundAt(files, hash, dirs[n], n, 0) + FoundAt(files, hash, dirs[n], n, 1)
  }

  predicate Broken(f: FileState) {
    f.Unreadable? || (f.File? && |f.raw| > MAX_INSTRUCTION)
  }

  /** The files with one content, in the order they were found. */
  function WithDigest(found: seq<Found>, digest: string): seq<Found> {
    if found == [] then []
    else if found[|found| - 1].digest == digest then WithDigest(found[..|found| - 1], digest) + [found[|found| - 1]]
    else WithDigest(found[..|found| - 1], digest)
  }

  function SourcesOf(found: seq<Found>): seq<Source> {
    seq(|found|, i requires 0 <= i < |found| => found[i].source)
  }

  /** The document of one content: all its sources, under the scope and the precedence of the last. */
  ghost predicate Describes(doc: Instruction, found: seq<Found>, rules: RuleSet) {
    var same := WithDigest(found, doc.digest);
    && same != []
    && doc.sources == SourcesOf(same)
    && doc.precedence == same[|same| - 1].precedence
    && doc.scope == same[|same| - 1].source.dir
    && doc.content == Redact(rules, same[0].raw).0
  }

  predicate DistinctDigests(docs: seq<Instruction>) {
    forall i, j :: 0 <= i < j < |docs| ==> docs[i].digest != docs[j].digest
  }

  predicate HasDigest(docs: seq<Instruction>, digest: string) {
    exists i :: 0 <= i < |docs| && docs[i].digest == digest
  }

  /** Exactly one document for every content found. */
  ghost predicate Catalogues(docs: seq<Instruction>, found: seq<Found>, rules: RuleSet) {
    && (forall i :: 0 <= i < |docs| ==> Describes(docs[i], found, rules))
    && DistinctDigests(docs)
    && (forall k :: 0 <= k < |found| ==> HasDigest(docs, found[k].digest))
  }

  predicate Rising(found: seq<Found>) {
    forall i, j :: 0 <= i < j < |found| ==> found[i].precedence < found[j].precedence
  }

  lemma {:induction false} FoundRising(files: Source -> FileState, hash: string -> string, dirs: seq<Dir>)
    ensures Rising(FoundIn(files, hash, dirs))
    ensures forall k :: 0 <= k < |FoundIn(files, hash, dirs)| ==>
              FoundIn(files, hash, dirs)[k].precedence < Precedence(|dirs|, 0)
  {
    if dirs != [] { FoundRising(files, hash, dirs[..|dirs| - 1]); }
  }

  /** What is found is every file of every directory, under its depth's precedence, and nothing else. */
  lemma {:induction false} FoundExactly(files: Source -> FileState, hash: string -> string, dirs: seq<Dir>, f: Found)
    ensures f in FoundIn(files, hash, dirs) <==>
              exists k: nat :: k < |dirs| && FileAt(files, hash, dirs, k, f)
  {
    hide FoundAt;
    if dirs != [] {
      var n := |dirs| - 1;
      FoundExactly(files, hash, dirs[..n], f);
      FoundAtExactly(files, hash, dirs, n, f);
      var found := FoundIn(files, hash, dirs);
      if f in FoundIn(files, hash, dirs[..n]) {
        var k: nat :| k < n && FileAt(files, hash, dirs[..n], k, f);
        assert FileAt(files, hash, dirs, k, f);
      }
      if k: nat :| k < |dirs| && FileAt(files, hash, dirs, k, f) {
        if k < n { assert FileAt(files, hash, dirs[..n], k, f); }
      }
    }
  }

  /** The found file is the CLAUDE.md or the AGENTS.md of the directory at that depth. */
  ghost predicate FileAt(files: Source -> FileState, hash: string -> string, dirs: seq<Dir>, k: nat, f: Found)
    requires k < |dirs|
  {
    && f.source.dir == dirs[k] && f.source.order < 2
    && files(f.source) == File(f.raw) && f.digest == hash(f.raw)
    && f.precedence == 10 + 2 * k + f.source.order
  }

  lemma FoundAtExactly(files: Source -> FileState, hash: string -> string, dirs: seq<Dir>, k: nat, f: Found)
    requires k < |dirs|
    ensures f in FoundAt(files, hash, dirs[k], k, 0) + FoundAt(files, hash, dirs[k], k, 1) <==>
              FileAt(files, hash, dirs, k, f)
  {
    assert f.source == Source(f.source.dir, f.source.order);
  }

  // ---- One more file ----------------------------------------------------------------------------

  lemma WithDigestAppend(found: seq<Found>, f: Found, digest: string)
    ensures WithDigest(found + [f], digest) ==
              if f.digest == digest then WithDigest(found, digest) + [f] else WithDigest(found, digest)
  {
    assert (found + [f])[..|found|] == found;
  }

  lemma {:induction false} DigestIsFound(found: seq<Found>, digest: string)
    ensures WithDigest(found, digest) != [] <==> exists k :: 0 <= k < |found| && found[k].digest == digest
  {
    if found != [] {
      var n := |found| - 1;
      DigestIsFound(found[..n], digest);
      if found[n].digest == digest {
        assert found[n].digest == digest;
      } else if k :| 0 <= k < |found| && found[k].digest == digest {
        assert found[..n][k].digest == digest;
      }
    }
  }

  ghost predicate Indexed(docs: seq<Instruction>, byHash: map<string, nat>) {
    && (forall h <- byHash :: byHash[h] < |docs| && docs[byHash[h]].digest == h)
    && (forall i :: 0 <= i < |docs| ==> docs[i].digest in byHash)
  }

  lemma LastIsFound(found: seq<Found>, digest: string)
    requires WithDigest(found, digest) != []
    ensures exists k ::
              0 <= k < |found| && found[k].digest == digest
                && found[k] == WithDigest(found, digest)[|WithDigest(found, digest)| - 1]
  {
    var n := |found| - 1;
    if found[n].digest == digest {
      assert found[n] == WithDigest(found, digest)[|WithDigest(found, digest)| - 1];
    } else {
      LastIsFound(found[..n], digest);
      var k :| 0 <= k < n && found[..n][k].digest == digest
        && found[..n][k] == WithDigest(found[..n], digest)[|WithDigest(found[..n], digest)| - 1];
      assert found[k].digest == digest;
    }
  }

  /** A document whose content has not been found again stays as it is. */
  lemma OthersKept(doc: Instruction, found: seq<Found>, f: Found, detector: Detector)
    requires Describes(doc, found, detector.rules) && doc.digest != f.digest
    ensures Describes(doc, found + [f], detector.rules)
  {
    hide Redact, WithDigest;
    WithDigestAppend(found, f, doc.digest);
  }

  lemma NewDoc(found: seq<Found>, f: Found, detector: Detector, content: string)
    requires WithDigest(found, f.digest) == [] && content == Redact(detector.rules, f.raw).0
    ensures Describes(Instruction([f.source], f.source.dir, f.digest, f.precedence, content), found + [f],
            detector.rules)
  {
    hide Redact, WithDigest;
    WithDigestAppend(found, f, f.digest);
    assert [] + [f] == [f];
  }

  lemma DocGrows(doc: Instruction, found: seq<Found>, f: Found, detector: Detector)
    requires Describes(doc, found, detector.rules) && doc.digest == f.digest && Rising(found + [f])
    ensures doc.precedence < f.precedence
    ensures Describes(doc.(sources := doc.sources + [f.source], precedence := f.precedence, scope := f.source.dir),
            found + [f], detector.rules)
  {
    hide Redact, WithDigest;
    WithDigestAppend(found, f, f.digest);
    LastIsFound(found, doc.digest);
    var k :| 0 <= k < |found| && found[k].digest == doc.digest
      && found[k] == WithDigest(found, doc.digest)[|WithDigest(found, doc.digest)| - 1];
    assert (found + [f])[k].precedence < (found + [f])[|found|].precedence;
  }

  /** Every file found later has the higher precedence, so the document moves to its scope. */
  method AddFile(docs: seq<Instruction>, byHash: map<string, nat>, ghost found: seq<Found>, f: Found,
                 detector: Detector)
    returns (docs': seq<Instruction>, byHash': map<string, nat>)
    requires Catalogues(docs, found, detector.rules) && Indexed(docs, byHash) && Rising(found + [f])
    ensures Catalogues(docs', found + [f], detector.rules) && Indexed(docs', byHash')
  {
    hide Redact, Describes, WithDigest, Rising;
    if f.digest in byHash {
      var index := byHash[f.digest];
      var doc := docs[index].(sources := docs[index].sources + [f.source]);
      DocGrows(docs[index], found, f, detector);
      if f.precedence > doc.precedence {
        doc := doc.(precedence := f.precedence, scope := f.source.dir);
      }
      docs', byHash' := docs[index := doc], byHash;
    } else {
      UnseenDigest(docs, byHash, found, f, detector);
      var content, _ := RedactText(detector.rules, f.raw);
      NewDoc(found, f, detector, content);
      byHash' := byHash[f.digest := |docs|];
      docs' := docs + [Instruction([f.source], f.source.dir, f.digest, f.precedence, content)];
    }
    CatalogueGrows(docs, docs', found, f, detector);
  }

  lemma UnseenDigest(docs: seq<Instruction>, byHash: map<string, nat>, found: seq<Found>, f: Found, detector: Detector)
    requires Catalogues(docs, found, detector.rules) && Indexed(docs, byHash) && f.digest !in byHash
    ensures WithDigest(found, f.digest) == [] && forall i :: 0 <= i < |docs| ==> docs[i].digest != f.digest
  {
    hide Redact, Describes;
    forall k | 0 <= k < |found| ensures found[k].digest != f.digest {
      assert HasDigest(docs, found[k].digest);
      var i :| 0 <= i < |docs| && docs[i].digest == found[k].digest;
    }
    DigestIsFound(found, f.digest);
  }

  lemma CatalogueGrows(docs: seq<Instruction>, docs': seq<Instruction>, found: seq<Found>, f: Found, detector: Detector)
    requires Catalogues(docs, found, detector.rules) && |docs| <= |docs'| <= |docs| + 1
    requires forall i :: 0 <= i < |docs| ==>
               docs'[i].digest == docs[i].digest && (docs[i].digest != f.digest ==> docs'[i] == docs[i])
    requires forall i :: 0 <= i < |docs'| && docs'[i].digest == f.digest ==>
               Describes(docs'[i], found + [f], detector.rules)
    requires |docs'| == |docs| ==> HasDigest(docs, f.digest)
    requires |docs'| > |docs| ==> docs'[|docs|].digest == f.digest && forall i :: 0 <= i < |docs| ==>
               docs[i].digest != f.digest
    ensures Catalogues(docs', found + [f], detector.rules)
  {
    hide Redact, Describes;
    forall i | 0 <= i < |docs'| ensures Describes(docs'[i], found + [f], detector.rules) {
      if docs'[i].digest != f.digest { OthersKept(docs[i], found, f, detector); }
    }
    forall k | 0 <= k < |found + [f]| ensures HasDigest(docs', (found + [f])[k].digest) {
      if k < |found| {
        assert HasDigest(docs, found[k].digest);
        var i :| 0 <= i < |docs| && docs[i].digest == found[k].digest;
        assert docs'[i].digest == found[k].digest;
      } else if |docs'| == |docs| {
        var i :| 0 <= i < |docs| && docs[i].digest == f.digest;
        assert docs'[i].digest == f.digest;
      }
    }
  }

  // ---- Low to high priority -------------------------------------------------------------------------

  /** A stable sort by precedence. */
  function Insert(docs: seq<Instruction>, d: Instruction): seq<Instruction> {
    if docs != [] && d.precedence < docs[|docs| - 1].precedence then
      Insert(docs[..|docs| - 1], d) + [docs[|docs| - 1]]
    else docs + [d]
  }

  function SortStable(docs: seq<Instruction>): seq<Instruction> {
    if docs == [] then [] else Insert(SortStable(docs[..|docs| - 1]), docs[|docs| - 1])
  }

  predicate StrictlyRising(docs: seq<Instruction>) {
    forall i, j :: 0 <= i < j < |docs| ==> docs[i].precedence < docs[j].precedence
  }

  lemma {:induction false} InsertRising(docs: seq<Instruction>, d: Instruction)
    requires StrictlyRising(docs) && forall x <- docs :: x.precedence != d.precedence
    ensures StrictlyRising(Insert(docs, d))
    ensures forall x :: x in Insert(docs, d) <==> x in docs || x == d
  {
    if docs != [] && d.precedence < docs[|docs| - 1].precedence {
      var init, last := docs[..|docs| - 1], docs[|docs| - 1];
      assert docs == init + [last];
      InsertRising(init, d);
      var all := Insert(docs, d);
      forall i, j | 0 <= i < j < |all| ensures all[i].precedence < all[j].precedence {
        if j == |all| - 1 {
          assert all[i] in Insert(init, d);
          if all[i] != d {
            var k :| 0 <= k < |init| && init[k] == all[i];
            assert docs[k] == all[i];
          }
        }
      }
    } else {
      assert forall i :: 0 <= i < |docs| ==> docs[i] in docs && docs[i].precedence <= docs[|docs| - 1].precedence;
    }
  }

  lemma {:induction false} SortRising(docs: seq<Instruction>)
    requires forall i, j :: 0 <= i < j < |docs| ==> docs[i].precedence != docs[j].precedence
    ensures StrictlyRising(SortStable(docs))
    ensures forall x :: x in SortStable(docs) <==> x in docs
  {
    if docs != [] {
      var init, last := docs[..|docs| - 1], docs[|docs| - 1];
      SortRising(init);
      forall x | x in SortStable(init) ensures x.precedence != last.precedence {
        var k :| 0 <= k < |init| && init[k] == x;
        assert docs[k] == x;
      }
      InsertRising(SortStable(init), last);
      assert docs == init + [last];
    }
  }

  lemma PrecedencesDiffer(docs: seq<Instruction>, found: seq<Found>, detector: Detector)
    requires Catalogues(docs, found, detector.rules) && Rising(found)
    ensures forall i, j :: 0 <= i < j < |docs| ==> docs[i].precedence != docs[j].precedence
  {
    hide Redact, WithDigest;
    forall i, j | 0 <= i < j < |docs| ensures docs[i].precedence != docs[j].precedence {
      LastIsFound(found, docs[i].digest);
      LastIsFound(found, docs[j].digest);
      var a :| 0 <= a < |found| && found[a].digest == docs[i].digest && found[a].precedence == docs[i].precedence;
      var b :| 0 <= b < |found| && found[b].digest == docs[j].digest && found[b].precedence == docs[j].precedence;
      if a < b { assert found[a].precedence < found[b].precedence; }
      if b < a { assert found[b].precedence < found[a].precedence; }
    }
  }

  lemma SortedCatalogue(docs: seq<Instruction>, found: seq<Found>, detector: Detector)
    requires Catalogues(docs, found, detector.rules) && Rising(found)
    ensures Catalogues(SortStable(docs), found, detector.rules) && StrictlyRising(SortStable(docs))
  {
    hide Redact, WithDigest, Describes;
    PrecedencesDiffer(docs, found, detector);
    SortRising(docs);
    var sorted := SortStable(docs);
    forall i | 0 <= i < |sorted| ensures Describes(sorted[i], found, detector.rules) {
      assert sorted[i] in docs;
    }
    forall i, j | 0 <= i < j < |sorted| ensures sorted[i].digest != sorted[j].digest {
      SameDigestSamePrecedence(sorted[i], sorted[j], found, detector);
    }
    forall k | 0 <= k < |found| ensures HasDigest(sorted, found[k].digest) {
      assert HasDigest(docs, found[k].digest);
      var i :| 0 <= i < |docs| && docs[i].digest == found[k].digest;
      assert docs[i] in sorted;
    }
  }

  lemma SameDigestSamePrecedence(a: Instruction, b: Instruction, found: seq<Found>, detector: Detector)
    requires Describes(a, found, detector.rules) && Describes(b, found, detector.rules)
    ensures a.digest == b.digest ==> a.precedence == b.precedence
  {
    hide Redact, WithDigest;
  }

  /** DiscoverInstructions for any depth of the directory chain: one document per distinct content,
      in strictly increasing precedence; an unreadable or oversized file is an error. */
  method Discover(files: Source -> FileState, hash: string -> string, parts: seq<string>, detector: Detector)
    returns (r: Result<seq<Instruction>, ()>)
    ensures r.Success? ==> StrictlyRising(r.value)
    ensures r.Success? ==> Catalogues(r.value, FoundIn(files, hash, Chain(Named(parts))), detector.rules)
    ensures r.Failure? <==>
              exists i, order: nat ::
                  0 <= i <= |Named(parts)| && order < 2 && Broken(files(Source(Chain(Named(parts))[i], order)))
  {
    hide Redact, Describes, WithDigest, Rising, Catalogues, FoundAt;
    var chain := ScopeDirs(parts);
    var docs: seq<Instruction>, byHash: map<string, nat> := [], map[];
    NothingFound(detector);
    for depth := 0 to |chain|
      invariant Catalogues(docs, FoundIn(files, hash, chain[..depth]), detector.rules) && Indexed(docs, byHash)
      invariant forall i, order: nat :: 0 <= i < depth && order < 2 ==> !Broken(files(Source(chain[i], order)))
    {
      ghost var found := FoundIn(files, hash, chain[..depth]);
      ChainStep(files, hash, chain, depth);
      var claude, agents := files(Source(chain[depth], 0)), files(Source(chain[depth], 1));
      if Broken(claude) { return Failure(()); }
      ghost var more := FoundAt(files, hash, chain[depth], depth, 0);
      docs, byHash := LookUp(docs, byHash, found, claude, Source(chain[depth], 0), depth, hash, detector, files);
      if Broken(agents) { return Failure(()); }
      docs, byHash := LookUp(docs, byHash, found + more, agents, Source(chain[depth], 1), depth, hash, detector, files);
    }
    assert chain[..|chain|] == chain;
    FoundRising(files, hash, chain);
    SortedCatalogue(docs, FoundIn(files, hash, chain), detector);
    return Success(SortStable(docs));
  }

  lemma NothingFound(detector: Detector)
    ensures Catalogues([], [], detector.rules) && Indexed([], map[])
  {
  }

  lemma ChainStep(files: Source -> FileState, hash: string -> string, chain: seq<Dir>, depth: nat)
    requires depth < |chain|
    ensures var found := FoundIn(files, hash, chain[..depth]);
            var claude := found + FoundAt(files, hash, chain[depth], depth, 0);
            && FoundIn(files, hash, chain[..depth + 1]) == claude + FoundAt(files, hash, chain[depth], depth, 1)
            && Rising(claude) && Rising(claude + FoundAt(files, hash, chain[depth], depth, 1))
  {
    assert chain[..depth + 1][..depth] == chain[..depth];
    FoundRising(files, hash, chain[..depth + 1]);
    var found := FoundIn(files, hash, chain[..depth]);
    var claude := found + FoundAt(files, hash, chain[depth], depth, 0);
    var all := claude + FoundAt(files, hash, chain[depth], depth, 1);
    assert forall k :: 0 <= k < |claude| ==> all[k] == claude[k];
  }

  method LookUp(docs: seq<Instruction>, byHash: map<string, nat>, ghost found: seq<Found>, file: FileState,
                source: Source, depth: nat, hash: string -> string, detector: Detector,
                ghost files: Source -> FileState)
    returns (docs': seq<Instruction>, byHash': map<string, nat>)
    requires Catalogues(docs, found, detector.rules) && Indexed(docs, byHash)
    requires file == files(source) && !Broken(file)
    requires Rising(found + FoundAt(files, hash, source.dir, depth, source.order))
    ensures Catalogues(docs', found + FoundAt(files, hash, source.dir, depth, source.order), detector.rules)
            && Indexed(docs', byHash')
  {
    hide Redact, Describes, WithDigest, Rising, Catalogues;
    assert source == Source(source.dir, source.order);
    match file {
      case Missing =>
        assert found + [] == found;
        docs', byHash' := docs, byHash;
      case Unreadable => assert false;
      case File(raw) =>
        var f := Found(source, Precedence(depth, source.order), raw, hash(raw));
        docs', byHash' := AddFile(docs, byHash, found, f, detector);
    }
  }

  // ---- What a reader of the documents can rely on ------------------------------------------------------

  /** No file with the same content has a higher precedence than the document. */
  lemma HighestSourceWins(docs: seq<Instruction>, found: seq<Found>, detector: Detector, i: nat, k: nat)
    requires Catalogues(docs, found, detector.rules) && Rising(found)
    requires i < |docs| && k < |found| && found[k].digest == docs[i].digest
    ensures found[k].precedence <= docs[i].precedence
    ensures found[k].precedence == docs[i].precedence ==> docs[i].scope == found[k].source.dir
  {
    hide Redact, WithDigest;
    LastIsFound(found, docs[i].digest);
    var last :| 0 <= last < |found|
      && found[last] == WithDigest(found, docs[i].digest)[|WithDigest(found, docs[i].digest)| - 1];
    NoneBehindTheLast(found, docs[i].digest, k, last);
    if k < last { assert found[k].precedence < found[last].precedence; }
  }

  lemma RisingIsInjective(found: seq<Found>, a: nat, b: nat)
    requires Rising(found) && a < |found| && b < |found| && found[a].precedence == found[b].precedence
    ensures a == b
  {
  }

  lemma {:induction false} NoneBehindTheLast(found: seq<Found>, digest: string, k: nat, last: nat)
    requires Rising(found) && k < |found| && last < |found| && found[k].digest == digest
    requires WithDigest(found, digest) != []
             && found[last] == WithDigest(found, digest)[|WithDigest(found, digest)| - 1]
    ensures k <= last
  {
    var n := |found| - 1;
    if found[n].digest == digest {
      RisingIsInjective(found, last, n);
    } else {
      DigestIsFound(found[..n], digest);
      assert found[..n][k] == found[k];
      LastIsFound(found[..n], digest);
      var m :| 0 <= m < n && found[..n][m] == WithDigest(found[..n], digest)[|WithDigest(found[..n], digest)| - 1];
      RisingIsInjective(found, last, m);
      NoneBehindTheLast(found[..n], digest, k, m);
    }
  }

  /** Every file found is a source of exactly one document. */
  lemma SourcesPartition(files: Source -> FileState, hash: string -> string, dirs: seq<Dir>, docs: seq<Instruction>,
                         detector: Detector, k: nat)
    requires Catalogues(docs, FoundIn(files, hash, dirs), detector.rules) && k < |FoundIn(files, hash, dirs)|
    ensures exists i :: 0 <= i < |docs| && FoundIn(files, hash, dirs)[k].source in docs[i].sources &&
              forall j :: 0 <= j < |docs| && FoundIn(files, hash, dirs)[k].source in docs[j].sources ==> j == i
  {
    hide Redact, WithDigest;
    var found := FoundIn(files, hash, dirs);
    assert HasDigest(docs, found[k].digest);
    var i :| 0 <= i < |docs| && docs[i].digest == found[k].digest;
    SourceListed(found, k);
    FilesDecide(files, hash, dirs);
    forall j | 0 <= j < |docs| && found[k].source in docs[j].sources ensures j == i {
      var m :| 0 <= m < |docs[j].sources| && docs[j].sources[m] == found[k].source;
      ListedIsFound(found, docs[j].digest, m);
    }
  }

  lemma {:induction false} SourceListed(found: seq<Found>, k: nat)
    requires k < |found|
    ensures found[k].source in SourcesOf(WithDigest(found, found[k].digest))
  {
    var n := |found| - 1;
    var same := WithDigest(found, found[k].digest);
    if k == n {
      assert SourcesOf(same)[|same| - 1] == found[k].source;
    } else {
      SourceListed(found[..n], k);
      var before := WithDigest(found[..n], found[k].digest);
      var m :| 0 <= m < |before| && SourcesOf(before)[m] == found[k].source;
      assert SourcesOf(same)[m] == found[k].source;
    }
  }

  lemma {:induction false} ListedIsFound(found: seq<Found>, digest: string, m: nat)
    requires m < |WithDigest(found, digest)|
    ensures exists k :: 0 <= k < |found| && found[k] == WithDigest(found, digest)[m] && found[k].digest == digest
  {
    var n := |found| - 1;
    var same := WithDigest(found, digest);
    if found[n].digest == digest && m == |same| - 1 {
      assert found[n] == same[m];
    } else {
      ListedIsFound(found[..n], digest, m);
      var k :| 0 <= k < n && found[..n][k] == WithDigest(found[..n], digest)[m] && found[..n][k].digest == digest;
      assert found[k] == same[m];
    }
  }

  /** The content of a file, and so its digest, depends on where it is. */
  lemma {:induction false} FilesDecide(files: Source -> FileState, hash: string -> string, dirs: seq<Dir>)
    ensures forall k :: 0 <= k < |FoundIn(files, hash, dirs)| ==>
              var f := FoundIn(files, hash, dirs)[k]; files(f.source) == File(f.raw) && f.digest == hash(f.raw)
  {
    if dirs != [] { FilesDecide(files, hash, dirs[..|dirs| - 1]); }
  }
}
