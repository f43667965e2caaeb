/** Which types are move-only: a memoised search of the type graph for a type that
    implements Drop, with a cached `false` as its guard against recursive types. */
module MoveTypes {
  import opened Basics

  /** A type's key, as the memo names it. */
  type Key = string

  /** The types held by value in each known type (its arguments, an alias's target, a struct's
      fields, a variant's payloads, ...) in the order they are looked at, and the types with their own Drop. */
  datatype Graph = Graph(parts: map<Key, seq<Key>>, drops: set<Key>)

  type Cache = map<Key, bool>

  function PartsOf(g: Graph, k: Key): seq<Key> {
    if k in g.parts then g.parts[k] else []
  }

  // ---- the search, as a function of the cache -----------------------------

  datatype Answer = Answer(cache: Cache, yes: bool)

  /** No entry goes or changes. */
  predicate Keeps(c: Cache, c': Cache) {
    c.Keys <= c'.Keys && forall k :: k in c ==> c'[k] == c[k]
  }

  function Query(g: Graph, c: Cache, k: Key): (r: Answer)
    ensures Keeps(c, r.cache) && k in r.cache && r.cache[k] == r.yes
    decreases Unseen(g, c), 0
  {
    if k in c then Answer(c, c[k])
    else
      // The guard: while its parts are looked at, the type counts as a copy.
      var r := Search(g, c, k);
      Answer(r.cache[k := r.yes], r.yes)
  }

  function Search(g: Graph, c: Cache, k: Key): (r: Answer)
    requires k !in c
    ensures Keeps(c, r.cache)
    decreases Unseen(g, c), 0, 0
  {
    var c' := c[k := false];
    if k in g.drops || k !in g.parts then Answer(c', k in g.drops)
    else
      FewerUnseen(g, c, k);
      QueryAny(g, c', g.parts[k])
  }

  function QueryAny(g: Graph, c: Cache, ks: seq<Key>): (r: Answer)
    ensures Keeps(c, r.cache)
    decreases Unseen(g, c), 1 + |ks|
  {
    if ks == [] then Answer(c, false)
    else
      var r := Query(g, c, ks[0]);
      NoMoreUnseen(g, c, r.cache);
      if r.yes then r else QueryAny(g, r.cache, ks[1..])
  }

  /** How many known types have no entry yet. */
  function Unseen(g: Graph, c: Cache): nat {
    |g.parts.Keys - c.Keys|
  }

  lemma FewerUnseen(g: Graph, c: Cache, k: Key)
    requires k in g.parts && k !in c
    ensures Unseen(g, c[k := false]) < Unseen(g, c)
  {
    assert g.parts.Keys - c[k := false].Keys == (g.parts.Keys - c.Keys) - {k};
  }

  lemma NoMoreUnseen(g: Graph, c: Cache, c': Cache)
    requires c.Keys <= c'.Keys
    ensures Unseen(g, c') <= Unseen(g, c)
  {
    SubsetSize(g.parts.Keys - c'.Keys, g.parts.Keys - c.Keys);
  }

  /** The checker's type table: the search as it runs, updating its cache. */
  class TypeTable {
    const graph: Graph
    var cache: Cache

    constructor (g: Graph)
      ensures graph == g && cache == map[]
    {
      graph := g;
      cache := map[];
    }

    method IsMoveOnly(k: Key) returns (yes: bool)
      modifies this
      ensures Answer(cache, yes) == Query(graph, old(cache), k)
      decreases Unseen(graph, cache), 0
    {
      if k !in cache {
        yes := Compute(k);
        cache := cache[k := yes];
      }
      yes := cache[k];
    }

    /** Looks at the parts with the guard set. */
    method Compute(k: Key) returns (found: bool)
      requires k !in cache
      modifies this
      ensures Answer(cache, found) == Search(graph, old(cache), k)
      decreases Unseen(graph, cache), 0, 0
    {
      cache := cache[k := false];
      if k in graph.drops || k !in graph.parts {
        return k in graph.drops;
      }
      FewerUnseen(graph, old(cache), k);
      found := AnyMoveOnly(graph.parts[k]);
    }

    method AnyMoveOnly(parts: seq<Key>) returns (found: bool)
      modifies this
      ensures Answer(cache, found) == QueryAny(graph, old(cache), parts)
      decreases Unseen(graph, cache), 1
    {
      ghost var all := QueryAny(graph, cache, parts);
      for i := 0 to |parts|
        invariant old(cache).Keys <= cache.Keys
        invariant QueryAny(graph, cache, parts[i..]) == all
      {
        NoMoreUnseen(graph, old(cache), cache);
        var rest := parts[i..];
        assert rest[0] == parts[i] && rest[1..] == parts[i + 1..];
        var part := IsMoveOnly(parts[i]);
        if part {
          return true;
        }
      }
      return false;
    }
  }

  // ---- what it decides ----------------------------------------------------

  /** `path` goes from type to part, one step at a time. */
  predicate IsPath(g: Graph, path: seq<Key>) {
    path != [] && forall i :: 0 <= i < |path| - 1 ==> path[i + 1] in PartsOf(g, path[i])
  }

  /** Some path from the type leads to one with a Drop and meets none of `closed`. */
  ghost predicate DropAround(g: Graph, closed: seq<Key>, k: Key) {
    exists path :: IsDropPath(g, closed, k, path)
  }

  predicate IsDropPath(g: Graph, closed: seq<Key>, k: Key, path: seq<Key>) {
    IsPath(g, path) && path[0] == k && path[|path| - 1] in g.drops && forall t :: t in path ==> t !in closed
  }

  ghost predicate HoldsDrop(g: Graph, k: Key) {
    DropAround(g, [], k)
  }

  lemma DropAroundPart(g: Graph, closed: seq<Key>, k: Key, part: Key)
    requires part in PartsOf(g, k) && k !in closed && DropAround(g, closed, part)
    ensures DropAround(g, closed, k)
  {
    var path :| IsDropPath(g, closed, part, path);
    var longer := [k] + path;
    assert forall i :: 0 < i < |longer| ==> longer[i] == path[i - 1];
    assert IsDropPath(g, closed, k, longer);
  }

  /** Every cached `true` is justified by a path around the types closed. */
  ghost predicate Justified(g: Graph, c: Cache, closed: seq<Key>) {
    (forall k :: k in c && c[k] ==> DropAround(g, closed, k)) && forall k :: k in closed ==> k in c
  }

  lemma {:induction false} TrueIsJustifiedAround(g: Graph, c: Cache, closed: seq<Key>, k: Key)
    requires Justified(g, c, closed)
    ensures Justified(g, Query(g, c, k).cache, closed)
    ensures Query(g, c, k).yes ==> DropAround(g, closed, k)
    decreases Unseen(g, c), 0
  {
    if k !in c {
      SearchIsJustified(g, c, closed, k);
    }
  }

  lemma SearchOfParts(g: Graph, c: Cache, k: Key)
    requires k !in c && k !in g.drops && k in g.parts
    ensures Search(g, c, k) == QueryAny(g, c[k := false], g.parts[k])
  {
  }

  lemma {:induction false} SearchIsJustified(g: Graph, c: Cache, closed: seq<Key>, k: Key)
    requires k !in c && Justified(g, c, closed)
    ensures Justified(g, Search(g, c, k).cache, closed)
    ensures Search(g, c, k).yes ==> DropAround(g, closed, k)
    decreases Unseen(g, c), 0, 0
  {
    if k in g.drops {
      DropHoldsItself(g, closed, k);
    } else if k in g.parts {
      FewerUnseen(g, c, k);
      SearchOfParts(g, c, k);
      GuardIsJustified(g, c, closed, k);
      AnyTrueIsJustified(g, c[k := false], closed, g.parts[k]);
      if Search(g, c, k).yes {
        DropAroundSomePart(g, closed, k);
      }
    }
  }

  lemma GuardIsJustified(g: Graph, c: Cache, closed: seq<Key>, k: Key)
    requires k !in c && Justified(g, c, closed)
    ensures Justified(g, c[k := false], closed) && k !in closed
  {
  }

  lemma DropHoldsItself(g: Graph, closed: seq<Key>, k: Key)
    requires k in g.drops && k !in closed
    ensures DropAround(g, closed, k)
  {
    assert IsDropPath(g, closed, k, [k]);
  }

  lemma DropAroundSomePart(g: Graph, closed: seq<Key>, k: Key)
    requires k !in closed && exists part :: part in PartsOf(g, k) && DropAround(g, closed, part)
    ensures DropAround(g, closed, k)
  {
    var part :| part in PartsOf(g, k) && DropAround(g, closed, part);
    DropAroundPart(g, closed, k, part);
  }

  lemma {:induction false} AnyTrueIsJustified(g: Graph, c: Cache, closed: seq<Key>, ks: seq<Key>)
    requires Justified(g, c, closed)
    ensures Justified(g, QueryAny(g, c, ks).cache, closed)
    ensures QueryAny(g, c, ks).yes ==> exists k :: k in ks && DropAround(g, closed, k)
    decreases Unseen(g, c), 1 + |ks|
  {
    if ks != [] {
      TrueIsJustifiedAround(g, c, closed, ks[0]);
      var r := Query(g, c, ks[0]);
      NoMoreUnseen(g, c, r.cache);
      if r.yes {
        assert ks[0] in ks;
      } else {
        AnyTrueIsJustified(g, r.cache, closed, ks[1..]);
        if QueryAny(g, r.cache, ks[1..]).yes {
          var k :| k in ks[1..] && DropAround(g, closed, k);
          assert k in ks;
        }
      }
    }
  }

  /** A `true` answer is always justified, whatever was asked before and however the types recur. */
  lemma TrueIsJustified(g: Graph, asked: seq<Key>, k: Key)
    ensures Query(g, Asked(g, asked), k).yes ==> HoldsDrop(g, k)
  {
    AskedIsJustified(g, asked);
    TrueIsJustifiedAround(g, Asked(g, asked), [], k);
  }

  lemma {:induction false} AskedIsJustified(g: Graph, asked: seq<Key>)
    ensures Justified(g, Asked(g, asked), [])
    decreases |asked|
  {
    if asked != [] {
      AskedIsJustified(g, asked[..|asked| - 1]);
      TrueIsJustifiedAround(g, Asked(g, asked[..|asked| - 1]), [], asked[|asked| - 1]);
    }
  }

  /** The cache after a series of questions. */
  function Asked(g: Graph, ks: seq<Key>): Cache {
    if ks == [] then map[] else Query(g, Asked(g, ks[..|ks| - 1]), ks[|ks| - 1]).cache
  }

  /** Nothing true yet, and every type looked at, but for those still open, has no Drop and only looked-at parts. */
  predicate Explored(g: Graph, c: Cache, open: set<Key>) {
    forall k :: k in c ==>
      && !c[k] && (k !in open ==> k !in g.drops && forall part :: part in PartsOf(g, k) ==> part in c)
  }

  lemma {:induction false} FalseExplores(g: Graph, c: Cache, k: Key, open: set<Key>)
    requires Explored(g, c, open) && open <= c.Keys
    ensures !Query(g, c, k).yes ==> Explored(g, Query(g, c, k).cache, open)
    decreases Unseen(g, c), 0
  {
    if k in c || k in g.drops {
    } else if k !in g.parts {
      OpenExplored(g, c, open, k);
      CloseExplored(g, c[k := false], open, k);
      assert Query(g, c, k).cache == c[k := false][k := false];
    } else {
      FewerUnseen(g, c, k);
      SearchOfParts(g, c, k);
      OpenExplored(g, c, open, k);
      AnyFalseExplores(g, c[k := false], g.parts[k], open + {k});
      var r := QueryAny(g, c[k := false], g.parts[k]);
      if !r.yes {
        CloseExplored(g, r.cache, open, k);
      }
    }
  }

  lemma OpenExplored(g: Graph, c: Cache, open: set<Key>, k: Key)
    requires Explored(g, c, open)
    ensures Explored(g, c[k := false], open + {k})
  {
  }

  lemma CloseExplored(g: Graph, c: Cache, open: set<Key>, k: Key)
    requires Explored(g, c, open + {k}) && k in c && k !in g.drops && forall part :: part in PartsOf(g, k) ==> part in c
    ensures Explored(g, c[k := false], open)
  {
  }

  lemma {:induction false} AnyFalseExplores(g: Graph, c: Cache, ks: seq<Key>, open: set<Key>)
    requires Explored(g, c, open) && open <= c.Keys
    ensures
      var r := QueryAny(g, c, ks);
      !r.yes ==> Explored(g, r.cache, open) && forall k :: k in ks ==> k in r.cache
    decreases Unseen(g, c), 1 + |ks|
  {
    if ks != [] {
      FalseExplores(g, c, ks[0], open);
      var r := Query(g, c, ks[0]);
      NoMoreUnseen(g, c, r.cache);
      if !r.yes {
        AnyFalseExplores(g, r.cache, ks[1..], open);
      }
    }
  }

  lemma {:induction false} ExploredHoldsNoDrop(g: Graph, c: Cache, path: seq<Key>)
    requires Explored(g, c, {}) && IsPath(g, path) && path[0] in c
    ensures path[|path| - 1] !in g.drops
    decreases |path|
  {
    if |path| > 1 {
      assert path[1] in PartsOf(g, path[0]);
      assert forall i :: 0 <= i < |path[1..]| ==> path[1..][i] == path[i + 1];
      ExploredHoldsNoDrop(g, c, path[1..]);
    }
  }

  /** The first question put to a fresh table is answered exactly, recursive types included. */
  lemma FirstQueryIsExact(g: Graph, k: Key)
    ensures Query(g, map[], k).yes <==> HoldsDrop(g, k)
  {
    TrueIsJustifiedAround(g, map[], [], k);
    FalseExplores(g, map[], k, {});
    if !Query(g, map[], k).yes && HoldsDrop(g, k) {
      var path :| IsDropPath(g, [], k, path);
      ExploredHoldsNoDrop(g, Query(g, map[], k).cache, path);
    }
  }

  // ---- when every answer is exact -----------------------------------------

  /** Types without Drop, no two the same, each part of the one before: what can be open at a time. */
  predicate IsStack(g: Graph, stack: seq<Key>) {
    && (forall t :: t in stack ==> t !in g.drops && t in g.parts)
    && (forall i, j :: 0 <= i < j < |stack| ==> stack[i] != stack[j])
    && (forall i :: 0 <= i < |stack| - 1 ==> stack[i + 1] in PartsOf(g, stack[i]))
  }

  predicate IsOn(g: Graph, stack: seq<Key>, k: Key) {
    stack == [] || k in PartsOf(g, stack[|stack| - 1])
  }

  /** The type holds a Drop, but only through the open types above it. */
  ghost predicate Trapped(g: Graph, stack: seq<Key>, k: Key) {
    IsStack(g, stack) && IsOn(g, stack, k) && k !in stack && HoldsDrop(g, k) && !DropAround(g, stack, k)
  }

  ghost predicate NoneTrapped(g: Graph) {
    forall stack, k :: !Trapped(g, stack, k)
  }

  ghost predicate NoneAround(g: Graph, stack: seq<Key>, ks: seq<Key>) {
    forall k :: k in ks ==> !DropAround(g, stack, k)
  }

  ghost predicate ComesAt(g: Graph, stack: seq<Key>, k: Key, n: nat)
    requires stack != []
  {
    var parts := PartsOf(g, stack[|stack| - 1]);
    n < |parts| && parts[n] == k && NoneAround(g, stack, parts[..n])
  }

  /** The search gets to the type from the last one open: no part declared before it has a Drop around those open. */
  ghost predicate Comes(g: Graph, stack: seq<Key>, k: Key) {
    stack == [] || exists n: nat :: ComesAt(g, stack, k, n)
  }

  /** Types that are open at a time in some first question. */
  ghost predicate IsReached(g: Graph, stack: seq<Key>) {
    IsStack(g, stack) && forall i :: 0 < i < |stack| ==> ReachedAt(g, stack, i)
  }

  ghost predicate ReachedAt(g: Graph, stack: seq<Key>, i: nat)
    requires i < |stack|
  {
    Comes(g, stack[..i], stack[i])
  }

  /** And that in the order in which the parts are declared. */
  ghost predicate TrappedInOrder(g: Graph, stack: seq<Key>, k: Key) {
    Trapped(g, stack, k) && IsReached(g, stack) && Comes(g, stack, k)
  }

  ghost predicate NoneTrappedInOrder(g: Graph) {
    forall stack, k :: !TrappedInOrder(g, stack, k)
  }

  lemma ComesIsOn(g: Graph, stack: seq<Key>, k: Key)
    requires Comes(g, stack, k)
    ensures IsOn(g, stack, k)
  {
    if stack != [] {
      var n: nat :| ComesAt(g, stack, k, n);
    }
  }

  /** Every answer in the cache is exact, but for the types open, which have the guard. */
  ghost predicate ExactBut(g: Graph, c: Cache, stack: seq<Key>) {
    && (forall k :: k in stack ==> k in c)
    && (forall k :: k in c ==> if k in stack then !c[k] else c[k] <==> HoldsDrop(g, k))
  }

  lemma {:induction false} UntrappedIsExact(g: Graph, c: Cache, k: Key, stack: seq<Key>)
    requires NoneTrappedInOrder(g) && IsReached(g, stack) && Comes(g, stack, k) && ExactBut(g, c, stack)
    ensures ExactBut(g, Query(g, c, k).cache, stack)
    ensures Query(g, c, k).yes <==> k !in stack && HoldsDrop(g, k)
    decreases Unseen(g, c), 0
  {
    if k !in c {
      UntrappedSearchIsExact(g, c, k, stack);
    }
  }

  lemma {:induction false} UntrappedSearchIsExact(g: Graph, c: Cache, k: Key, stack: seq<Key>)
    requires NoneTrappedInOrder(g) && IsReached(g, stack) && Comes(g, stack, k) && ExactBut(g, c, stack) && k !in c
    ensures ExactBut(g, Search(g, c, k).cache, stack + [k])
    ensures Search(g, c, k).yes <==> HoldsDrop(g, k)
    decreases Unseen(g, c), 0, 0
  {
    if k in g.drops {
      DropHoldsItself(g, [], k);
    } else if k !in g.parts {
      UnknownHoldsNone(g, k);
    } else {
      FewerUnseen(g, c, k);
      SearchOfParts(g, c, k);
      PartsOfUntrappedAreExact(g, c, k, stack);
    }
  }

  lemma {:induction false} PartsOfUntrappedAreExact(g: Graph, c: Cache, k: Key, stack: seq<Key>)
    requires NoneTrappedInOrder(g) && IsReached(g, stack) && Comes(g, stack, k) && ExactBut(g, c, stack)
    requires k !in c && k !in g.drops && k in g.parts
    ensures
      var r := QueryAny(g, c[k := false], g.parts[k]);
      ExactBut(g, r.cache, stack + [k]) && (r.yes <==> HoldsDrop(g, k))
    decreases Unseen(g, c[k := false]), 2 + |g.parts[k]|
  {
    GuardIsExact(g, c, k, stack);
    assert (stack + [k])[|stack + [k]| - 1] == k;
    AnyUntrappedIsExact(g, c[k := false], 0, stack + [k]);
    assert g.parts[k][0..] == g.parts[k];
    HoldsDropThroughPart(g, stack, k);
  }

  lemma UnknownHoldsNone(g: Graph, k: Key)
    requires k !in g.drops && k !in g.parts
    ensures !HoldsDrop(g, k)
  {
    forall path ensures !IsDropPath(g, [], k, path) {
      assert IsPath(g, path) && path[0] == k && |path| > 1 ==> path[1] in PartsOf(g, k);
    }
  }

  lemma GuardIsExact(g: Graph, c: Cache, k: Key, stack: seq<Key>)
    requires IsReached(g, stack) && Comes(g, stack, k) && ExactBut(g, c, stack)
    requires k !in c && k !in g.drops && k in g.parts
    ensures IsReached(g, stack + [k]) && ExactBut(g, c[k := false], stack + [k])
  {
    ComesIsOn(g, stack, k);
    var longer := stack + [k];
    forall i | 0 < i < |longer| ensures ReachedAt(g, longer, i) {
      assert longer[..i] == stack[..i];
      assert i == |stack| ==> stack[..i] == stack;
      assert i < |stack| ==> ReachedAt(g, stack, i);
    }
  }

  lemma HoldsDropThroughPart(g: Graph, stack: seq<Key>, k: Key)
    requires NoneTrappedInOrder(g) && IsReached(g, stack) && Comes(g, stack, k) && k !in stack && k !in g.drops
    ensures HoldsDrop(g, k) <==> exists part :: part in PartsOf(g, k) && part !in stack + [k] && HoldsDrop(g, part)
  {
    if HoldsDrop(g, k) {
      ComesIsOn(g, stack, k);
      assert !TrappedInOrder(g, stack, k);
      var path :| IsDropPath(g, stack, k, path);
      var part := NextAround(g, stack, k, path);
    } else if part :| part in PartsOf(g, k) && part !in stack + [k] && HoldsDrop(g, part) {
      DropAroundPart(g, [], k, part);
    }
  }

  /** A path around the stack goes on through a part that is not open either. */
  lemma {:induction false} NextAround(g: Graph, stack: seq<Key>, k: Key, path: seq<Key>) returns (part: Key)
    requires k !in g.drops && IsDropPath(g, stack, k, path)
    ensures part in PartsOf(g, k) && part !in stack + [k] && HoldsDrop(g, part)
    decreases |path|
  {
    TailOfDropPath(g, stack, k, path, 1);
    if k in path[1..] {
      var j :| 1 <= j < |path| && path[j] == k;
      TailOfDropPath(g, stack, k, path, j);
      part := NextAround(g, stack, k, path[j..]);
    } else {
      part := path[1];
      assert path[1] in PartsOf(g, path[0]);
      assert part in path[1..];
    }
  }

  lemma TailOfDropPath(g: Graph, closed: seq<Key>, k: Key, path: seq<Key>, j: nat)
    requires IsDropPath(g, closed, k, path) && (j < |path| || (j == 1 && k !in g.drops))
    ensures j < |path| && IsDropPath(g, closed, path[j], path[j..]) && HoldsDrop(g, path[j]) && path[j] !in closed
  {
    var rest := path[j..];
    assert forall i :: 0 <= i < |rest| ==> rest[i] == path[j + i];
    assert IsPath(g, rest);
    assert IsDropPath(g, [], path[j], rest);
  }

  /** The parts of the last type open from the n-th on, none before having a Drop around. */
  lemma {:induction false} AnyUntrappedIsExact(g: Graph, c: Cache, n: nat, stack: seq<Key>)
    requires NoneTrappedInOrder(g) && IsReached(g, stack) && ExactBut(g, c, stack) && stack != []
    requires n <= |PartsOf(g, stack[|stack| - 1])| && NoneAround(g, stack, PartsOf(g, stack[|stack| - 1])[..n])
    ensures
      var ks := PartsOf(g, stack[|stack| - 1])[n..];
      && ExactBut(g, QueryAny(g, c, ks).cache, stack)
      && (QueryAny(g, c, ks).yes <==> exists k :: k in ks && k !in stack && HoldsDrop(g, k))
    decreases Unseen(g, c), 1 + |PartsOf(g, stack[|stack| - 1])| - n
  {
    var parts := PartsOf(g, stack[|stack| - 1]);
    var ks := parts[n..];
    if ks != [] {
      assert ComesAt(g, stack, parts[n], n);
      UntrappedIsExact(g, c, parts[n], stack);
      var r := Query(g, c, parts[n]);
      NoMoreUnseen(g, c, r.cache);
      if r.yes {
        assert ks[0] in ks;
      } else {
        OneMoreWithout(g, stack, parts, n);
        AnyUntrappedIsExact(g, r.cache, n + 1, stack);
        assert ks[1..] == parts[n + 1..];
        assert forall k :: k in ks <==> k == ks[0] || k in ks[1..];
      }
    }
  }

  lemma OneMoreWithout(g: Graph, stack: seq<Key>, parts: seq<Key>, n: nat)
    requires n < |parts| && NoneAround(g, stack, parts[..n]) && (parts[n] in stack || !HoldsDrop(g, parts[n]))
    ensures NoneAround(g, stack, parts[..n + 1])
  {
    if DropAround(g, stack, parts[n]) {
      var path :| IsDropPath(g, stack, parts[n], path);
      assert parts[n] in path;
      assert IsDropPath(g, [], parts[n], path);
    }
    assert parts[..n + 1] == parts[..n] + [parts[n]];
  }

  lemma {:induction false} UntrappedCacheIsExact(g: Graph, asked: seq<Key>)
    requires NoneTrappedInOrder(g)
    ensures ExactBut(g, Asked(g, asked), [])
    decreases |asked|
  {
    if asked != [] {
      UntrappedCacheIsExact(g, asked[..|asked| - 1]);
      UntrappedIsExact(g, Asked(g, asked[..|asked| - 1]), asked[|asked| - 1], []);
    }
  }

  // ---- and when one is not ------------------------------------------------

  function Open(stack: seq<Key>): set<Key> {
    set k | k in stack
  }

  /** Nothing has been found, and nothing is open but the stack. */
  predicate FoundNothing(g: Graph, c: Cache, stack: seq<Key>) {
    Explored(g, c, Open(stack)) && forall k :: k in stack ==> k in c
  }

  /** Parts without a Drop around the stack leave the search to the others. */
  lemma {:induction false} SkipsParts(g: Graph, c: Cache, stack: seq<Key>, ks: seq<Key>, n: nat) returns (c': Cache)
    requires FoundNothing(g, c, stack) && n <= |ks| && NoneAround(g, stack, ks[..n])
    ensures FoundNothing(g, c', stack) && QueryAny(g, c, ks) == QueryAny(g, c', ks[n..])
    decreases n
  {
    c' := c;
    if n > 0 {
      assert ks[0] in ks[..n];
      var r := Query(g, c, ks[0]);
      TrueIsJustifiedAround(g, c, stack, ks[0]);
      FalseExplores(g, c, ks[0], Open(stack));
      assert forall k :: k in ks[1..][..n - 1] ==> k in ks[..n];
      c' := SkipsParts(g, r.cache, stack, ks[1..], n - 1);
      assert ks[1..][n - 1..] == ks[n..];
    } else {
      assert ks[0..] == ks;
    }
  }

  /** What has been looked at is so with all that can be reached from it past the stack. */
  lemma {:induction false} ExploredDown(g: Graph, c: Cache, stack: seq<Key>, chain: seq<Key>, i: nat, j: nat)
    requires FoundNothing(g, c, stack) && i <= j < |chain| && chain[i] in c
    requires forall t :: t in chain[i..] ==> t !in stack
    requires forall l :: 0 <= l < |chain| - 1 ==> chain[l + 1] in PartsOf(g, chain[l])
    ensures chain[j] in c && !c[chain[j]]
    decreases j
  {
    if j > i {
      ExploredDown(g, c, stack, chain, i, j - 1);
      assert chain[j - 1] in chain[i..];
      assert chain[j - 1 + 1] in PartsOf(g, chain[j - 1]);
    }
  }

  /** The first question, put to the lowest type of the stack, leaves a wrong answer for the trapped one. */
  lemma {:induction false} TrappedIsMissed(g: Graph, c: Cache, stack: seq<Key>, k: Key, i: nat)
    requires TrappedInOrder(g, stack, k) && i <= |stack| && FoundNothing(g, c, stack[..i])
    ensures
      var r := Query(g, c, (stack + [k])[i]);
      k in r.cache && !r.cache[k]
    decreases |stack| - i
  {
    var chain := stack + [k];
    ChainOfTrap(g, stack, k);
    if chain[i] in c {
      forall t | t in chain[i..] ensures t !in stack[..i] {
        var l :| i <= l < |chain| && chain[l] == t;
      }
      ExploredDown(g, c, stack[..i], chain, i, |stack|);
    } else if i == |stack| {
      assert stack[..i] == stack;
      TrueIsJustifiedAround(g, c, stack, k);
    } else {
      StepDown(g, c, stack, k, i);
    }
  }

  lemma {:induction false} StepDown(g: Graph, c: Cache, stack: seq<Key>, k: Key, i: nat)
    requires TrappedInOrder(g, stack, k) && i < |stack| && FoundNothing(g, c, stack[..i]) && stack[i] !in c
    ensures
      var r := Query(g, c, stack[i]);
      k in r.cache && !r.cache[k]
    decreases |stack| - i, 0
  {
    var t, chain := stack[i], stack + [k];
    ChainOfTrap(g, stack, k);
    var parts := g.parts[t];
    assert ReachedAt(g, chain, i + 1) && chain[..i + 1] == stack[..i + 1];
    var n: nat :| ComesAt(g, stack[..i + 1], chain[i + 1], n);
    SearchOfParts(g, c, t);
    OpenOne(g, c, stack, i);
    var c' := SkipsParts(g, c[t := false], stack[..i + 1], parts, n);
    TrappedIsMissed(g, c', stack, k, i + 1);
    var r := Query(g, c', chain[i + 1]);
    assert parts[n..][0] == chain[i + 1];
    assert Keeps(r.cache, Search(g, c, t).cache);
  }

  lemma OpenOne(g: Graph, c: Cache, stack: seq<Key>, i: nat)
    requires i < |stack| && FoundNothing(g, c, stack[..i]) && stack[i] !in c
    ensures FoundNothing(g, c[stack[i] := false], stack[..i + 1])
  {
    OpenExplored(g, c, Open(stack[..i]), stack[i]);
    assert stack[..i + 1] == stack[..i] + [stack[i]];
    assert Open(stack[..i + 1]) == Open(stack[..i]) + {stack[i]};
  }

  /** Each type of the stack, and last the trapped one, is a part of the one before, which the search gets to. */
  lemma ChainOfTrap(g: Graph, stack: seq<Key>, k: Key)
    requires TrappedInOrder(g, stack, k)
    ensures
      var chain := stack + [k];
      && (forall i, j :: 0 <= i < j < |chain| ==> chain[i] != chain[j])
      && (forall l :: 0 <= l < |chain| - 1 ==> chain[l + 1] in PartsOf(g, chain[l]))
      && (forall l :: 0 <= l < |stack| ==> stack[l] in g.parts && stack[l] !in g.drops)
      && (forall l :: 0 < l < |chain| ==> ReachedAt(g, chain, l))
  {
    forall l | 0 < l < |stack + [k]| ensures ReachedAt(g, stack + [k], l) {
      assert (stack + [k])[..l] == stack[..l];
      assert l == |stack| ==> stack[..l] == stack;
      assert l < |stack| ==> ReachedAt(g, stack, l);
    }
    forall l | 0 <= l < |stack| ensures stack[l] in g.parts && stack[l] !in g.drops {
      assert stack[l] in stack;
    }
  }

  ghost predicate AlwaysExact(g: Graph) {
    forall asked, k :: Query(g, Asked(g, asked), k).yes <==> HoldsDrop(g, k)
  }

  /** Every question is answered exactly, whatever was asked before, if and only if no type is trapped in the order in
      which parts are declared. */
  lemma AlwaysExactExactly(g: Graph)
    ensures AlwaysExact(g) <==> NoneTrappedInOrder(g)
  {
    if NoneTrappedInOrder(g) {
      forall asked, k ensures Query(g, Asked(g, asked), k).yes <==> HoldsDrop(g, k) {
        UntrappedCacheIsExact(g, asked);
        UntrappedIsExact(g, Asked(g, asked), k, []);
      }
    } else {
      var stack, k :| TrappedInOrder(g, stack, k);
      FirstAskedIsMissed(g, stack, k);
    }
  }

  lemma FirstAskedIsMissed(g: Graph, stack: seq<Key>, k: Key)
    requires TrappedInOrder(g, stack, k)
    ensures stack != [] && !Query(g, Asked(g, [stack[0]]), k).yes && HoldsDrop(g, k)
  {
    assert stack[..0] == [];
    TrappedIsMissed(g, map[], stack, k, 0);
    assert [stack[0]][..0] == [];
    assert Asked(g, [stack[0]]) == Query(g, map[], stack[0]).cache;
  }

  // ---- in any order -------------------------------------------------------

  /** The same types, their parts looked at in another order. */
  predicate Reordered(g: Graph, g': Graph) {
    && g'.drops == g.drops && g'.parts.Keys == g.parts.Keys
    && forall k :: k in g.parts ==> multiset(g'.parts[k]) == multiset(g.parts[k])
  }

  lemma SameParts(g: Graph, g': Graph, k: Key)
    requires Reordered(g, g')
    ensures forall part :: part in PartsOf(g', k) <==> part in PartsOf(g, k)
  {
    if k in g.parts {
      assert forall part :: part in g'.parts[k] <==> part in multiset(g'.parts[k]);
      assert forall part :: part in g.parts[k] <==> part in multiset(g.parts[k]);
    }
  }

  lemma SameTraps(g: Graph, g': Graph, stack: seq<Key>, k: Key)
    requires Reordered(g, g')
    ensures DropAround(g', stack, k) <==> DropAround(g, stack, k)
    ensures Trapped(g', stack, k) <==> Trapped(g, stack, k)
  {
    forall t ensures forall part :: part in PartsOf(g', t) <==> part in PartsOf(g, t) {
      SameParts(g, g', t);
    }
    assert forall path :: IsPath(g', path) <==> IsPath(g, path);
    forall closed ensures DropAround(g', closed, k) <==> DropAround(g, closed, k) {
      assert forall path :: IsDropPath(g', closed, k, path) <==> IsDropPath(g, closed, k, path);
    }
  }

  function ToFront(ks: seq<Key>, k: Key): (r: seq<Key>)
    requires k in ks
    ensures r != [] && r[0] == k && multiset(r) == multiset(ks)
  {
    if ks[0] == k then ks
    else
      var rest := ToFront(ks[1..], k);
      assert ks == [ks[0]] + ks[1..] && rest == [k] + rest[1..];
      [k] + [ks[0]] + rest[1..]
  }

  /** The parts in such an order that the search goes down the chain. */
  lemma {:induction false} DownTheChain(g: Graph, chain: seq<Key>) returns (g': Graph)
    requires forall i :: 0 <= i < |chain| - 1 ==> chain[i + 1] in PartsOf(g, chain[i])
    requires forall i, j :: 0 <= i < j < |chain| ==> chain[i] != chain[j]
    ensures Reordered(g, g') && GoesDown(g', chain)
    decreases |chain|
  {
    g' := g;
    if |chain| > 1 {
      var rest := chain[1..];
      assert forall i :: 0 <= i < |rest| ==> rest[i] == chain[i + 1];
      g' := DownTheChain(g, rest);
      assert chain[1] in PartsOf(g, chain[0]);
      SameParts(g, g', chain[0]);
      var parts := ToFront(g'.parts[chain[0]], chain[1]);
      ghost var below := g';
      g' := g'.(parts := g'.parts[chain[0] := parts]);
      forall i | 0 <= i < |chain| - 1 ensures FirstIs(g', chain[i], chain[i + 1]) {
        assert i > 0 ==> FirstIs(below, rest[i - 1], rest[i]);
      }
    }
  }

  predicate FirstIs(g: Graph, k: Key, part: Key) {
    PartsOf(g, k) != [] && PartsOf(g, k)[0] == part
  }

  predicate GoesDown(g: Graph, chain: seq<Key>) {
    forall i :: 0 <= i < |chain| - 1 ==> FirstIs(g, chain[i], chain[i + 1])
  }

  /** In whatever order parts are declared, every question is answered exactly if and only if no type is trapped. */
  lemma AlwaysExactInAnyOrder(g: Graph)
    ensures (forall g' :: Reordered(g, g') ==> AlwaysExact(g')) <==> NoneTrapped(g)
  {
    if NoneTrapped(g) {
      forall g' | Reordered(g, g') ensures AlwaysExact(g') {
        forall stack, k ensures !TrappedInOrder(g', stack, k) {
          SameTraps(g, g', stack, k);
        }
        AlwaysExactExactly(g');
      }
    } else {
      var stack, k :| Trapped(g, stack, k);
      var g' := DownTheChain(g, stack + [k]);
      SameTraps(g, g', stack, k);
      FirstPartsCome(g', stack, k);
      AlwaysExactExactly(g');
    }
  }

  lemma FirstPartsCome(g: Graph, stack: seq<Key>, k: Key)
    requires Trapped(g, stack, k) && GoesDown(g, stack + [k])
    ensures TrappedInOrder(g, stack, k)
  {
    forall i | 0 < i < |stack| ensures ReachedAt(g, stack, i) {
      FirstPartComes(g, stack, k, i);
    }
    if stack != [] {
      FirstPartComes(g, stack, k, |stack|);
      assert stack[..|stack|] == stack;
    }
  }

  lemma FirstPartComes(g: Graph, stack: seq<Key>, k: Key, i: nat)
    requires 0 < i <= |stack| && GoesDown(g, stack + [k])
    ensures Comes(g, stack[..i], (stack + [k])[i])
  {
    assert FirstIs(g, (stack + [k])[i - 1], (stack + [k])[i - 1 + 1]);
    assert ComesAt(g, stack[..i], (stack + [k])[i], 0);
  }

  ghost predicate Leads(g: Graph, from: Key, to: Key) {
    exists path :: IsPath(g, path) && path[0] == from && path[|path| - 1] == to
  }

  /** In particular when no type that holds a Drop is on a cycle with another: recursive copies do no harm. */
  lemma NoneTrappedWithoutDropCycles(g: Graph)
    requires forall k, t :: HoldsDrop(g, k) && k != t && Leads(g, k, t) ==> !Leads(g, t, k)
    ensures NoneTrapped(g) && AlwaysExact(g)
  {
    forall stack, k ensures !Trapped(g, stack, k) {
      if Trapped(g, stack, k) {
        var t := TrappedIsOnCycle(g, stack, k);
      }
    }
    AlwaysExactExactly(g);
  }

  lemma TrappedIsOnCycle(g: Graph, stack: seq<Key>, k: Key) returns (t: Key)
    requires Trapped(g, stack, k)
    ensures t != k && Leads(g, k, t) && Leads(g, t, k)
  {
    var path :| IsDropPath(g, [], k, path);
    assert !IsDropPath(g, stack, k, path);
    t :| t in path && t in stack;
    PathLeadsTo(g, path, t);
    var j :| 0 <= j < |stack| && stack[j] == t;
    RestLeads(g, stack, k, j);
  }

  lemma PathLeadsTo(g: Graph, path: seq<Key>, t: Key)
    requires IsPath(g, path) && t in path
    ensures Leads(g, path[0], t)
  {
    var i :| 0 <= i < |path| && path[i] == t;
    assert IsPath(g, path[..i + 1]);
  }

  lemma RestLeads(g: Graph, stack: seq<Key>, k: Key, j: nat)
    requires IsStack(g, stack) && IsOn(g, stack, k) && j < |stack|
    ensures Leads(g, stack[j], k)
  {
    var path := stack[j..] + [k];
    forall i | 0 <= i < |path| - 1 ensures path[i + 1] in PartsOf(g, path[i]) {
      assert path[i] == stack[j + i];
    }
    assert IsPath(g, path);
  }

  /** With recursive types a later question can be answered wrongly: `a` holds `b` and a Drop
      type `d`, and `b` holds `a`. Once `a` is asked, the guard's `false` for `b` stays. */
  lemma LaterQueryCanBeWrong(a: Key, b: Key, d: Key)
    requires a != b && b != d && a != d
    ensures
      var g := Graph(map[a := [b, d], b := [a]], {d});
      HoldsDrop(g, b) && !Query(g, Asked(g, [a]), b).yes
  {
    var g := Graph(map[a := [b, d], b := [a]], {d});
    assert IsDropPath(g, [], b, [b, a, d]);
    forall path ensures !IsDropPath(g, [a], b, path) {
      assert IsPath(g, path) && path[0] == b && |path| > 1 ==> path[1] == a;
    }
    assert Trapped(g, [a], b);
    assert FirstIs(g, a, b) && GoesDown(g, [a] + [b]);
    FirstPartsCome(g, [a], b);
    FirstAskedIsMissed(g, [a], b);
  }
}
