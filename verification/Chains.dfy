/** Sequences of states in which each is related to the one before. */
module Chains {
  /** The last state of a chain that starts at s. */
  function After<T>(s: T, t: seq<T>): T {
    if t == [] then s else t[|t| - 1]
  }

  ghost predicate Chain<T(!new)>(rel: (T, T) -> bool, s: T, t: seq<T>) {
    t == [] || (Chain(rel, s, t[..|t| - 1]) && rel(After(s, t[..|t| - 1]), t[|t| - 1]))
  }

  lemma {:induction false} ChainThen<T(!new)>(rel: (T, T) -> bool, s: T, t: seq<T>, u: seq<T>)
    requires Chain(rel, s, t) && Chain(rel, After(s, t), u)
    ensures Chain(rel, s, t + u) && After(s, t + u) == After(After(s, t), u)
    decreases |u|
  {
    if u == [] {
      assert t + u == t;
    } else {
      ChainThen(rel, s, t, u[..|u| - 1]);
      assert (t + u)[..|t + u| - 1] == t + u[..|u| - 1];
    }
  }

  lemma ChainOne<T(!new)>(rel: (T, T) -> bool, s: T, a: T)
    requires rel(s, a)
    ensures Chain(rel, s, [a])
  {
    assert [a][..0] == [];
  }

  lemma ChainTwo<T(!new)>(rel: (T, T) -> bool, s: T, a: T, b: T)
    requires rel(s, a) && rel(a, b)
    ensures Chain(rel, s, [a, b])
  {
    ChainOne(rel, s, a);
    assert [a, b][..1] == [a];
  }

  lemma {:induction false} ChainCut<T(!new)>(rel: (T, T) -> bool, s: T, t: seq<T>, n: nat)
    requires Chain(rel, s, t) && n <= |t|
    ensures Chain(rel, s, t[..n]) && Chain(rel, After(s, t[..n]), t[n..])
  {
    if n == |t| {
      assert t[..n] == t && t[n..] == [];
    } else {
      ChainCut(rel, s, t[..|t| - 1], n);
      assert t[..|t| - 1][..n] == t[..n];
      assert t[n..][..|t[n..]| - 1] == t[..|t| - 1][n..];
    }
  }

  lemma {:induction false} ChainWeaken<T(!new)>(strong: (T, T) -> bool, weak: (T, T) -> bool, s: T, t: seq<T>)
    requires Chain(strong, s, t)
    requires forall a, b :: strong(a, b) ==> weak(a, b)
    ensures Chain(weak, s, t)
  {
    if t != [] { ChainWeaken(strong, weak, s, t[..|t| - 1]); }
  }

  /** A nonempty history that begins at a given state. */
  ghost predicate History<T(!new)>(rel: (T, T) -> bool, start: T, h: seq<T>) {
    && h != []
    && if |h| == 1 then h[0] == start
       else History(rel, start, h[..|h| - 1]) && rel(h[|h| - 2], h[|h| - 1])
  }

  lemma HistoryAppend<T(!new)>(rel: (T, T) -> bool, start: T, h: seq<T>, a: T)
    requires History(rel, start, h) && rel(h[|h| - 1], a)
    ensures History(rel, start, h + [a])
  {
    assert (h + [a])[..|h|] == h;
  }

  /** A history can be cut at any moment, and what came before is a history. */
  lemma {:induction false} HistoryCut<T(!new)>(rel: (T, T) -> bool, start: T, h: seq<T>, n: nat)
    requires History(rel, start, h) && 0 < n <= |h|
    ensures History(rel, start, h[..n])
  {
    if n == |h| {
      assert h[..n] == h;
    } else {
      assert h[..|h| - 1][..n] == h[..n];
      HistoryCut(rel, start, h[..|h| - 1], n);
    }
  }

  lemma {:induction false} HistoryThen<T(!new)>(rel: (T, T) -> bool, start: T, h: seq<T>, t: seq<T>)
    requires History(rel, start, h) && Chain(rel, h[|h| - 1], t)
    ensures History(rel, start, h + t)
    ensures (h + t)[|h + t| - 1] == After(h[|h| - 1], t)
    decreases |t|
  {
    if t == [] {
      assert h + t == h;
    } else {
      HistoryThen(rel, start, h, t[..|t| - 1]);
      HistoryAppend(rel, start, h + t[..|t| - 1], t[|t| - 1]);
      assert h + t == (h + t[..|t| - 1]) + [t[|t| - 1]];
    }
  }
}
