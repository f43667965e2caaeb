/** Names of generic instances: types spelled as words joined with '_', in Polish notation. */
module Mangling {

  import opened Basics

  datatype Type =
    | Named(name: string, args: seq<Type>)
    | Ptr(mutable: bool, inner: Type)
    | Ref(mutable: bool, inner: Type)
    | Arr(size: nat, inner: Type)
    | Slice(inner: Type)

  function Decimal(n: nat): string {
    if n < 10 then [DIGITS[n]] else Decimal(n / 10) + [DIGITS[n % 10]]
  }

  const DIGITS := "0123456789"

  /** The mangled name of a type with its aliases resolved. */
  function MangleType(t: Type): string
    decreases t, 1
  {
    match t
    case Named(name, args) => if args == [] then name else name + "_" + MangleTypes(args)
    case Ptr(mutable, inner) => (if mutable then "ptrmut_" else "ptr_") + MangleType(inner)
    case Ref(mutable, inner) => (if mutable then "refmut_" else "ref_") + MangleType(inner)
    case Arr(size, inner) => "arr" + Decimal(size) + "_" + MangleType(inner)
    case Slice(inner) => "slice_" + MangleType(inner)
  }

  function MangleTypes(ts: seq<Type>): string
    requires ts != []
    decreases ts, 0
  {
    if |ts| == 1 then MangleType(ts[0]) else MangleType(ts[0]) + "_" + MangleTypes(ts[1..])
  }

  /** The name of a generic's instance. */
  function MangleInstance(base: string, args: seq<Type>): string {
    if args == [] then base else base + "$" + MangleTypes(args)
  }

  // ---- words --------------------------------------------------------------

  function Words(t: Type): (ws: seq<string>)
    ensures ws != []
    decreases t, 1
  {
    match t
    case Named(name, args) => [name] + WordsOf(args)
    case Ptr(mutable, inner) => [if mutable then "ptrmut" else "ptr"] + Words(inner)
    case Ref(mutable, inner) => [if mutable then "refmut" else "ref"] + Words(inner)
    case Arr(size, inner) => ["arr" + Decimal(size)] + Words(inner)
    case Slice(inner) => ["slice"] + Words(inner)
  }

  function WordsOf(ts: seq<Type>): (ws: seq<string>)
    ensures ts != [] ==> ws != []
    decreases ts, 0
  {
    if ts == [] then [] else Words(ts[0]) + WordsOf(ts[1..])
  }

  function Join(ws: seq<string>): string
    requires ws != []
  {
    if |ws| == 1 then ws[0] else ws[0] + "_" + Join(ws[1..])
  }

  lemma {:induction false} JoinAppend(a: seq<string>, b: seq<string>)
    requires a != [] && b != []
    ensures Join(a + b) == Join(a) + "_" + Join(b)
  {
    if |a| == 1 {
      assert (a + b)[1..] == b;
    } else {
      JoinAppend(a[1..], b);
      assert (a + b)[1..] == a[1..] + b;
    }
  }

  lemma {:induction false} MangleIsJoin(t: Type)
    ensures MangleType(t) == Join(Words(t))
    decreases t, 1
  {
    match t
    case Named(name, args) =>
      if args != [] {
        ManglesAreJoin(args);
        JoinAppend([name], WordsOf(args));
      }
    case Ptr(mutable, inner) =>
      MangleIsJoin(inner);
      JoinAppend([if mutable then "ptrmut" else "ptr"], Words(inner));
    case Ref(mutable, inner) =>
      MangleIsJoin(inner);
      JoinAppend([if mutable then "refmut" else "ref"], Words(inner));
    case Arr(size, inner) =>
      MangleIsJoin(inner);
      JoinAppend(["arr" + Decimal(size)], Words(inner));
    case Slice(inner) =>
      MangleIsJoin(inner);
      JoinAppend(["slice"], Words(inner));
  }

  lemma {:induction false} ManglesAreJoin(ts: seq<Type>)
    requires ts != []
    ensures MangleTypes(ts) == Join(WordsOf(ts))
    decreases ts, 0
  {
    MangleIsJoin(ts[0]);
    if |ts| == 1 {
      assert WordsOf(ts[1..]) == [];
      assert WordsOf(ts) == Words(ts[0]);
    } else {
      ManglesAreJoin(ts[1..]);
      JoinAppend(Words(ts[0]), WordsOf(ts[1..]));
    }
  }

  // ---- reading the words back ---------------------------------------------

  function Split(s: string): (ws: seq<string>)
    ensures ws != []
  {
    if s == "" then [""]
    else
      var ws := Split(s[1..]);
      if s[0] == '_' then [""] + ws else [[s[0]] + ws[0]] + ws[1..]
  }

  lemma {:induction false} SplitWord(w: string, rest: string)
    requires '_' !in w
    ensures Split(w) == [w]
    ensures Split(w + "_" + rest) == [w] + Split(rest)
  {
    if w == "" {
      assert ("_" + rest)[1..] == rest;
      assert w + "_" + rest == "_" + rest;
    } else {
      SplitWord(w[1..], rest);
      assert [w[0]] + w[1..] == w && [w][1..] == [];
      assert (w + "_" + rest)[1..] == w[1..] + "_" + rest;
    }
  }

  lemma {:induction false} SplitUndoesJoin(ws: seq<string>)
    requires ws != [] && forall w :: w in ws ==> '_' !in w
    ensures Split(Join(ws)) == ws
  {
    if |ws| == 1 {
      SplitWord(ws[0], "");
    } else {
      SplitUndoesJoin(ws[1..]);
      SplitWord(ws[0], Join(ws[1..]));
    }
  }

  predicate IsNumber(s: string) {
    s != "" && forall i :: 0 <= i < |s| ==> '0' <= s[i] <= '9'
  }

  function Number(s: string): nat
    requires forall i :: 0 <= i < |s| ==> '0' <= s[i] <= '9'
  {
    if s == "" then 0 else Number(s[..|s| - 1]) * 10 + (s[|s| - 1] - '0') as nat
  }

  lemma {:induction false} NumberUndoesDecimal(n: nat)
    ensures IsNumber(Decimal(n)) && Number(Decimal(n)) == n
  {
    var d := Decimal(n);
    if n >= 10 {
      NumberUndoesDecimal(n / 10);
      assert d[..|d| - 1] == Decimal(n / 10);
    } else {
      assert d[..0] == "";
    }
    assert (DIGITS[n % 10] - '0') as nat == n % 10;
  }

  predicate IsArrayWord(w: string) {
    "arr" <= w && IsNumber(w[3..])
  }

  /** A word that starts a type built from another type. */
  predicate Reserved(w: string) {
    w in {"ptr", "ptrmut", "ref", "refmut", "slice"} || IsArrayWord(w)
  }

  /** How many arguments each type name takes; a name not listed takes none. */
  type Arities = map<string, nat>

  function Arity(arities: Arities, name: string): nat {
    if name in arities then arities[name] else 0
  }

  /** Type names hold no separator, are no reserved word, and always come with as many arguments as they take. */
  predicate Readable(t: Type, arities: Arities)
    decreases t
  {
    match t
    case Named(name, args) =>
      && '_' !in name && !Reserved(name) && |args| == Arity(arities, name)
      && forall a :: a in args ==> Readable(a, arities)
    case Ptr(_, inner) => Readable(inner, arities)
    case Ref(_, inner) => Readable(inner, arities)
    case Arr(_, inner) => Readable(inner, arities)
    case Slice(inner) => Readable(inner, arities)
  }

  /** Reads one type off the front of the words. */
  function Read(ws: seq<string>, arities: Arities): (r: Option<(Type, seq<string>)>)
    ensures r.Some? ==> |r.value.1| < |ws|
    decreases |ws|, 0
  {
    if ws == [] then None
    else
      var w := ws[0];
      if Reserved(w) then
        match Read(ws[1..], arities)
        case None => None
        case Some((t, rest)) =>
          Some((if w == "ptr" then Ptr(false, t) else if w == "ptrmut" then Ptr(true, t)
                else if w == "ref" then Ref(false, t) else if w == "refmut" then Ref(true, t)
                else if w == "slice" then Slice(t) else Arr(Number(w[3..]), t), rest))
      else
        match ReadMany(Arity(arities, w), ws[1..], arities)
        case None => None
        case Some((ts, rest)) => Some((Named(w, ts), rest))
  }

  function ReadMany(n: nat, ws: seq<string>, arities: Arities): (r: Option<(seq<Type>, seq<string>)>)
    ensures r.Some? ==> |r.value.1| <= |ws|
    decreases |ws|, 1, n
  {
    if n == 0 then Some(([], ws))
    else
      match Read(ws, arities)
      case None => None
      case Some((t, rest)) =>
        match ReadMany(n - 1, rest, arities)
        case None => None
        case Some((ts, rest')) => Some(([t] + ts, rest'))
  }

  lemma {:induction false} ReadUndoesWords(t: Type, rest: seq<string>, arities: Arities)
    requires Readable(t, arities)
    ensures Read(Words(t) + rest, arities) == Some((t, rest))
    decreases t, 1
  {
    var ws := Words(t) + rest;
    match t
    case Named(name, args) =>
      assert ws[1..] == WordsOf(args) + rest;
      ReadManyUndoesWords(args, rest, arities);
    case Ptr(mutable, inner) =>
      assert ws[1..] == Words(inner) + rest;
      ReadUndoesWords(inner, rest, arities);
    case Ref(mutable, inner) =>
      assert ws[1..] == Words(inner) + rest;
      ReadUndoesWords(inner, rest, arities);
    case Arr(size, inner) =>
      assert ws[1..] == Words(inner) + rest;
      ReadUndoesWords(inner, rest, arities);
      NumberUndoesDecimal(size);
      assert ws[0][3..] == Decimal(size);
      NotAKeyword(ws[0]);
    case Slice(inner) =>
      assert ws[1..] == Words(inner) + rest;
      ReadUndoesWords(inner, rest, arities);
  }

  lemma NotAKeyword(w: string)
    requires "arr" <= w
    ensures w !in {"ptr", "ptrmut", "ref", "refmut", "slice"}
  {
    assert w[0] == 'a';
  }

  lemma {:induction false} ReadManyUndoesWords(ts: seq<Type>, rest: seq<string>, arities: Arities)
    requires forall t :: t in ts ==> Readable(t, arities)
    ensures ReadMany(|ts|, WordsOf(ts) + rest, arities) == Some((ts, rest))
    decreases ts, 0
  {
    if ts == [] {
      assert WordsOf(ts) + rest == rest;
    } else {
      assert WordsOf(ts) + rest == Words(ts[0]) + (WordsOf(ts[1..]) + rest);
      ReadUndoesWords(ts[0], WordsOf(ts[1..]) + rest, arities);
      ReadManyUndoesWords(ts[1..], rest, arities);
      assert [ts[0]] + ts[1..] == ts;
    }
  }

  lemma {:induction false} WordsHoldNoSeparator(t: Type, arities: Arities)
    requires Readable(t, arities)
    ensures forall w :: w in Words(t) ==> '_' !in w
    decreases t, 1
  {
    match t
    case Named(name, args) => AllWordsHoldNoSeparator(args, arities);
    case Ptr(_, inner) => WordsHoldNoSeparator(inner, arities);
    case Ref(_, inner) => WordsHoldNoSeparator(inner, arities);
    case Arr(size, inner) =>
      WordsHoldNoSeparator(inner, arities);
      NumberUndoesDecimal(size);
    case Slice(inner) => WordsHoldNoSeparator(inner, arities);
  }

  lemma {:induction false} AllWordsHoldNoSeparator(ts: seq<Type>, arities: Arities)
    requires forall t :: t in ts ==> Readable(t, arities)
    ensures forall w :: w in WordsOf(ts) ==> '_' !in w
    decreases ts, 0
  {
    if ts != [] {
      WordsHoldNoSeparator(ts[0], arities);
      AllWordsHoldNoSeparator(ts[1..], arities);
    }
  }

  /** The inverse of mangling. */
  function Demangle(s: string, arities: Arities): Option<Type> {
    match Read(Split(s), arities)
    case None => None
    case Some((t, rest)) => if rest == [] then Some(t) else None
  }

  lemma DemangleUndoesMangle(t: Type, arities: Arities)
    requires Readable(t, arities)
    ensures Demangle(MangleType(t), arities) == Some(t)
  {
    MangleIsJoin(t);
    WordsHoldNoSeparator(t, arities);
    SplitUndoesJoin(Words(t));
    assert Words(t) + [] == Words(t);
    ReadUndoesWords(t, [], arities);
  }

  /** Two lists of types with the same words are the same list. */
  lemma {:induction false} SameWordsSameTypes(a: seq<Type>, b: seq<Type>, arities: Arities)
    requires forall t :: t in a ==> Readable(t, arities)
    requires forall t :: t in b ==> Readable(t, arities)
    requires WordsOf(a) == WordsOf(b)
    ensures a == b
    decreases |a|
  {
    if a != [] && b != [] {
      ReadUndoesWords(a[0], WordsOf(a[1..]), arities);
      ReadUndoesWords(b[0], WordsOf(b[1..]), arities);
      SameWordsSameTypes(a[1..], b[1..], arities);
      assert a == [a[0]] + a[1..] && b == [b[0]] + b[1..];
    }
  }

  /** Two instances with the same name are instances of one generic at the same types. */
  lemma InstanceNamesAreDistinct(f: string, a: seq<Type>, g: string, b: seq<Type>, arities: Arities)
    requires '$' !in f && '$' !in g && a != [] && b != []
    requires forall t :: t in a ==> Readable(t, arities)
    requires forall t :: t in b ==> Readable(t, arities)
    requires MangleInstance(f, a) == MangleInstance(g, b)
    ensures f == g && a == b
  {
    var x, y := MangleTypes(a), MangleTypes(b);
    var s, t := f + "$" + x, g + "$" + y;
    assert forall i :: 0 <= i < |f| ==> s[i] == f[i];
    assert forall i :: 0 <= i < |g| ==> t[i] == g[i];
    assert s[|f|] == '$' && t[|g|] == '$';
    assert f == s[..|f|] && g == t[..|g|];
    assert x == s[|f| + 1..] && y == t[|g| + 1..];
    ManglesAreJoin(a);
    ManglesAreJoin(b);
    AllWordsHoldNoSeparator(a, arities);
    AllWordsHoldNoSeparator(b, arities);
    SplitUndoesJoin(WordsOf(a));
    SplitUndoesJoin(WordsOf(b));
    SameWordsSameTypes(a, b, arities);
  }

  /** Why type names hold no separator, are no reserved word and keep one arity: a type named `ptr_n` has the name of a
      pointer to `n`; so has a type named `ptr` with `n` for its argument, and one named like an array's word that of
      an array; and a type of two arguments has that of one whose argument takes the second. */
  lemma UnreadableTypesClash(f: string, a: string, b: string, n: string, size: nat)
    ensures MangleType(Named("ptr_" + n, [])) == MangleType(Ptr(false, Named(n, [])))
    ensures MangleType(Named("ptr", [Named(n, [])])) == MangleType(Ptr(false, Named(n, [])))
    ensures MangleType(Named("arr" + Decimal(size), [Named(n, [])])) == MangleType(Arr(size, Named(n, [])))
    ensures MangleType(Named(f, [Named(a, []), Named(b, [])])) == MangleType(Named(f, [Named(a, [Named(b, [])])]))
  {
    OneArgument("ptr", n);
    OneArgument("arr" + Decimal(size), n);
    OneArgument(a, b);
    var two := [Named(a, []), Named(b, [])];
    assert two[1..] == [Named(b, [])];
    assert MangleTypes(two) == a + "_" + b;
    assert MangleTypes([Named(a, [Named(b, [])])]) == a + "_" + b;
  }

  lemma OneArgument(f: string, a: string)
    ensures MangleType(Named(f, [Named(a, [])])) == f + "_" + a
    ensures MangleTypes([Named(a, [])]) == a
  {
    assert MangleType(Named(a, [])) == a;
  }

  /** Why generics' names hold no `$`: one named `f$a` has an instance named like one of `f`. */
  lemma DollarNamesClash(f: string, a: string, b: string)
    ensures MangleInstance(f + "$" + a, [Named(b, [])]) == MangleInstance(f, [Named(a + "$" + b, [])])
  {
    assert MangleTypes([Named(b, [])]) == b;
    assert MangleTypes([Named(a + "$" + b, [])]) == a + "$" + b;
    assert (f + "$" + a) + "$" + b == f + "$" + (a + "$" + b);
  }
}
