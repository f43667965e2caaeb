/** Field paths as the dotted strings the checker keys its entries by. */
module FieldPaths {
  import opened OwnershipSyntax

  function Dotted(path: Path): string {
    if path == [] then "" else if |path| == 1 then path[0] else path[0] + "." + Dotted(path[1..])
  }

  /** Is the dotted path `path` the field `parent` or a part of it? */
  predicate PathWithin(path: string, parent: string) {
    path == parent || parent + "." <= path
  }

  /** A path of field names: not empty, and no name holds a dot. */
  predicate FieldNames(path: Path) {
    path != [] && forall k :: 0 <= k < |path| ==> '.' !in path[k]
  }

  lemma {:induction false} SameUpToADot(a: string, b: string, x: string, y: string)
    requires '.' !in a && '.' !in b && a + "." + x <= b + "." + y
    ensures a == b && x <= y
  {
    var l, r := a + "." + x, b + "." + y;
    assert l[|a|] == '.' && r[|b|] == '.';
    assert forall i :: 0 <= i < |a| ==> r[i] == l[i] == a[i];
    assert forall i :: 0 <= i < |b| ==> r[i] == b[i];
    assert a == l[..|a|] == r[..|a|] == b;
    assert x == l[|a| + 1..] && y == r[|a| + 1..];
  }

  /** The string test is the prefix test on the paths' field names. */
  lemma {:induction false} PathWithinIsPrefix(path: Path, parent: Path)
    requires FieldNames(path) && FieldNames(parent)
    ensures PathWithin(Dotted(path), Dotted(parent)) <==> parent <= path
  {
    // With a dot after each, the test is one string being a prefix of the other.
    Closed(path, parent);
    ClosedIsPrefix(path, parent);
  }

  lemma Closed(path: Path, parent: Path)
    ensures PathWithin(Dotted(path), Dotted(parent)) <==> Dotted(parent) + "." <= Dotted(path) + "."
  {
    var p, q := Dotted(path), Dotted(parent);
    if q + "." <= p + "." && p != q {
      assert q == (q + ".")[..|q|] == (p + ".")[..|q|] == p[..|q|] && p[..|p|] == p;
      assert q + "." == (p + ".")[..|q| + 1] == p[..|q| + 1];
    }
  }

  lemma {:induction false} ClosedIsPrefix(path: Path, parent: Path)
    requires FieldNames(path) && FieldNames(parent)
    ensures Dotted(parent) + "." <= Dotted(path) + "." <==> parent <= path
    decreases |path|
  {
    var a, b := parent[0], path[0];
    var x := if |parent| == 1 then "" else Dotted(parent[1..]) + ".";
    var y := if |path| == 1 then "" else Dotted(path[1..]) + ".";
    assert Dotted(parent) + "." == a + "." + x;
    assert Dotted(path) + "." == b + "." + y;
    assert parent == [a] + parent[1..] && path == [b] + path[1..];
    assert parent <= path <==> a == b && parent[1..] <= path[1..];
    if a + "." + x <= b + "." + y {
      SameUpToADot(a, b, x, y);
    }
    if |parent| > 1 && |path| > 1 {
      ClosedIsPrefix(path[1..], parent[1..]);
    }
    assert a == b && x <= y ==> a + "." + x <= b + "." + y;
  }
}
