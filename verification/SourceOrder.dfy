/** The compile order of a set of source files, however the set is enumerated. */
module SourceOrder {

  /** Strings in dictionary order. */
  predicate Le(a: string, b: string) {
    a == "" || (b != "" && (a[0] < b[0] || (a[0] == b[0] && Le(a[1..], b[1..]))))
  }

  lemma {:induction false} LeIsOrder(a: string, b: string, c: string)
    ensures Le(a, b) || Le(b, a)
    ensures Le(a, b) && Le(b, a) ==> a == b
    ensures Le(a, b) && Le(b, c) ==> Le(a, c)
    decreases |a|
  {
    if a != "" && b != "" {
      LeIsOrder(a[1..], b[1..], if c == "" then "" else c[1..]);
      assert a == [a[0]] + a[1..] && b == [b[0]] + b[1..];
    }
  }

  /** Smaller at the first place where they differ. */
  predicate SmallerAt(a: string, b: string, k: nat) {
    k < |a| && k < |b| && a[..k] == b[..k] && a[k] < b[k]
  }

  predicate IsPrefix(a: string, b: string) {
    |a| <= |b| && b[..|a|] == a
  }

  /** The order is by the first place where two strings differ, and a beginning comes before the whole. */
  lemma {:induction false} LeIsByFirstDifference(a: string, b: string)
    ensures Le(a, b) <==> IsPrefix(a, b) || exists k: nat :: SmallerAt(a, b, k)
    decreases |a|
  {
    if a != "" && b != "" {
      var a', b' := a[1..], b[1..];
      LeIsByFirstDifference(a', b');
      assert a == [a[0]] + a' && b == [b[0]] + b';
      if Le(a, b) {
        if a[0] < b[0] {
          assert SmallerAt(a, b, 0);
        } else if !IsPrefix(a', b') {
          var k: nat :| SmallerAt(a', b', k);
          assert a[..k + 1] == [a[0]] + a'[..k] && b[..k + 1] == [b[0]] + b'[..k];
          assert SmallerAt(a, b, k + 1);
        }
      }
      if |a| <= |b| {
        assert b[..|a|] == [b[0]] + b'[..|a'|];
      }
      forall k: nat | SmallerAt(a, b, k) ensures Le(a, b) {
        if k > 0 {
          assert a[..k][0] == a[0] && b[..k][0] == b[0];
          assert a[..k][1..] == a'[..k - 1] && b[..k][1..] == b'[..k - 1];
          assert SmallerAt(a', b', k - 1);
        }
      }
    }
  }

  predicate Sorted(s: seq<string>) {
    forall i, j :: 0 <= i < j < |s| ==> Le(s[i], s[j])
  }

  /** Only one sorted sequence holds given strings. */
  lemma {:induction false} SortedIsUnique(a: seq<string>, b: seq<string>)
    requires Sorted(a) && Sorted(b) && multiset(a) == multiset(b)
    ensures a == b
    decreases |a|
  {
    assert |a| == |multiset(a)| && |b| == |multiset(b)|;
    if a != [] {
      FirstsAgree(a, b);
      WithoutFirst(a);
      WithoutFirst(b);
      SortedIsUnique(a[1..], b[1..]);
    }
  }

  lemma FirstsAgree(a: seq<string>, b: seq<string>)
    requires Sorted(a) && Sorted(b) && multiset(a) == multiset(b) && a != [] && b != []
    ensures a[0] == b[0]
  {
    assert a[0] in multiset(a) && b[0] in multiset(b);
    FirstIsLeast(a, b[0]);
    FirstIsLeast(b, a[0]);
    LeIsOrder(a[0], b[0], "");
  }

  lemma WithoutFirst(s: seq<string>)
    requires s != []
    ensures s == [s[0]] + s[1..] && multiset(s[1..]) == multiset(s) - multiset{s[0]}
  {
    assert s == [s[0]] + s[1..];
  }

  lemma FirstIsLeast(s: seq<string>, x: string)
    requires Sorted(s) && s != [] && x in multiset(s)
    ensures Le(s[0], x)
  {
    LeIsOrder(x, x, x);
  }

  /** What the order is: every file but the main one sorted, the main one last. */
  predicate IsOrder(files: seq<string>, main: string, ordered: seq<string>) {
    && ordered != [] && ordered[|ordered| - 1] == main
    && Sorted(ordered[..|ordered| - 1])
    && multiset(ordered[..|ordered| - 1]) == multiset(files)[main := 0]
  }

  function Insert(x: string, s: seq<string>): seq<string> {
    if s == [] || Le(x, s[0]) then [x] + s else [s[0]] + Insert(x, s[1..])
  }

  lemma {:induction false} InsertAdds(x: string, s: seq<string>)
    ensures multiset(Insert(x, s)) == multiset(s) + multiset{x}
    decreases |s|
  {
    if s != [] {
      assert s == [s[0]] + s[1..];
      if !Le(x, s[0]) {
        InsertAdds(x, s[1..]);
      }
    }
  }

  lemma {:induction false} InsertSorts(x: string, s: seq<string>)
    requires Sorted(s)
    ensures Sorted(Insert(x, s))
    decreases |s|
  {
    if s != [] {
      LeIsOrder(x, s[0], "");
      if Le(x, s[0]) {
        forall j | 0 <= j < |s| ensures Le(x, s[j]) {
          LeIsOrder(x, s[0], s[j]);
          LeIsOrder(s[0], s[0], s[0]);
        }
      } else {
        InsertSorts(x, s[1..]);
        InsertAdds(x, s[1..]);
        var r := Insert(x, s[1..]);
        forall j | 0 <= j < |r| ensures Le(s[0], r[j]) {
          assert r[j] in multiset(r);
          assert r[j] == x || r[j] in s[1..];
        }
      }
    }
  }

  method OrderSourceFiles(files: seq<string>, main: string) returns (ordered: seq<string>)
    ensures IsOrder(files, main, ordered)
  {
    var rest: seq<string> := [];
    for k := 0 to |files|
      invariant Sorted(rest) && multiset(rest) == multiset(files[..k])[main := 0]
    {
      assert files[..k + 1] == files[..k] + [files[k]];
      if files[k] != main {
        InsertSorts(files[k], rest);
        InsertAdds(files[k], rest);
        rest := Insert(files[k], rest);
      }
    }
    assert files[..|files|] == files;
    ordered := rest + [main];
    assert ordered[..|ordered| - 1] == rest;
  }

  lemma {:induction false} CountOfDistinct(s: seq<string>, x: string)
    requires forall i, j :: 0 <= i < j < |s| ==> s[i] != s[j]
    ensures multiset(s)[x] == if x in s then 1 else 0
    decreases |s|
  {
    if s != [] {
      assert s == [s[0]] + s[1..];
      CountOfDistinct(s[1..], x);
    }
  }

  /** The order depends on the set alone: however its files are enumerated, each once, it is the same. */
  lemma OrderDependsOnTheSet(files: seq<string>, files': seq<string>, main: string, ordered: seq<string>,
      ordered': seq<string>)
    requires forall x :: x in files <==> x in files'
    requires forall i, j :: 0 <= i < j < |files| ==> files[i] != files[j]
    requires forall i, j :: 0 <= i < j < |files'| ==> files'[i] != files'[j]
    requires IsOrder(files, main, ordered) && IsOrder(files', main, ordered')
    ensures ordered == ordered'
  {
    forall x ensures multiset(files)[x] == multiset(files')[x] {
      CountOfDistinct(files, x);
      CountOfDistinct(files', x);
    }
    assert multiset(files) == multiset(files');
    SortedIsUnique(ordered[..|ordered| - 1], ordered'[..|ordered'| - 1]);
    assert ordered == ordered[..|ordered| - 1] + [main] && ordered' == ordered'[..|ordered'| - 1] + [main];
  }
}
