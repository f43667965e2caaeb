/** Types as text: the printer of module metadata and the parser that reads it back. */
module TypeText {
  import opened Basics
  import opened Mangling

  // ---- strings ------------------------------------------------------------

  function IndexOf(s: string, c: char): (i: nat)
    requires c in s
    ensures i < |s| && s[i] == c && c !in s[..i]
  {
    if s[0] == c then 0 else 1 + IndexOf(s[1..], c)
  }

  lemma {:induction false} IndexIs(p: string, c: char, q: string)
    requires c !in p
    ensures c in p + [c] + q && IndexOf(p + [c] + q, c) == |p|
  {
    var s := p + [c] + q;
    assert s[|p|] == c;
    if p != "" {
      assert s[0] == p[0] && p[0] in p;
      assert s[1..] == p[1..] + [c] + q;
      IndexIs(p[1..], c, q);
    }
  }

  predicate StartsWith(s: string, p: string) {
    |p| <= |s| && s[..|p|] == p
  }

  predicate Contains(s: string, p: string) {
    StartsWith(s, p) || (s != "" && Contains(s[1..], p))
  }

  lemma {:induction false} NotContained(s: string, p: string, c: char)
    requires c in p && c !in s
    ensures !Contains(s, p)
  {
    if |p| <= |s| {
      assert forall d :: d in s[..|p|] ==> d in s;
    }
    if s != "" {
      NotContained(s[1..], p, c);
    }
  }

  /** `s.split(',')`. */
  function Split(s: string): (pieces: seq<string>)
    ensures pieces != [] && forall p :: p in pieces ==> |p| <= |s| && ',' !in p
  {
    if ',' !in s then [s]
    else
      var i := IndexOf(s, ',');
      [s[..i]] + Split(s[i + 1..])
  }

  function Strip(s: string): (r: string)
    ensures |r| <= |s| && forall c :: c in r ==> c in s
  {
    if s == "" then s
    else if s[0] == ' ' then Strip(s[1..])
    else if s[|s| - 1] == ' ' then Strip(s[..|s| - 1])
    else s
  }

  /** `int(s)` on decimal digits; none for any other text. */
  function ParseNat(s: string): Option<nat> {
    if s == "" then None
    else if !('0' <= s[|s| - 1] <= '9') then None
    else
      var digit := s[|s| - 1] as int - '0' as int;
      if |s| == 1 then Some(digit)
      else
        match ParseNat(s[..|s| - 1])
        case None => None
        case Some(n) => Some(10 * n + digit)
  }

  lemma {:induction false} ParseNatUndoesDecimal(n: nat)
    ensures ParseNat(Decimal(n)) == Some(n)
    ensures forall c :: c in Decimal(n) ==> '0' <= c <= '9'
  {
    assert forall k :: 0 <= k < 10 ==> DIGITS[k] as int == '0' as int + k;
    if n >= 10 {
      ParseNatUndoesDecimal(n / 10);
      var s := Decimal(n);
      assert s[..|s| - 1] == Decimal(n / 10);
    }
  }

  // ---- printing and parsing -----------------------------------------------

  /** A type as metadata knows it; no type prints as `void`. */
  datatype MetaType =
    | NoType
    | Name(name: string, args: seq<MetaType>)
    | Pointer(mutable: bool, inner: MetaType)
    | Reference(mutable: bool, inner: MetaType)
    | Array(size: nat, inner: MetaType)

  function Print(t: MetaType): string {
    match t
    case NoType => "void"
    case Name(n, args) => if args == [] then n else n + "<" + PrintAll(args) + ">"
    case Pointer(m, inner) => "*" + (if m then "mut " else "") + Print(inner)
    case Reference(m, inner) => "&" + (if m then "mut " else "") + Print(inner)
    case Array(size, inner) => "[" + Decimal(size) + "]" + Print(inner)
  }

  function PrintAll(ts: seq<MetaType>): string
    requires ts != []
  {
    if |ts| == 1 then Print(ts[0]) else Print(ts[0]) + ", " + PrintAll(ts[1..])
  }

  /** A slice is read as `Span` of its elements. */
  function MakeSlice(t: MetaType): MetaType {
    Name("Span", [t])
  }

  /** Reading a type's text; none for function and union types, and for sizes that are no decimal number. */
  function Parse(s: string): Option<MetaType>
    decreases |s|, 1, 1
  {
    if s == "void" then Some(NoType)
    else if StartsWith(s, "*") then
      (if StartsWith(s[1..], "mut ") then PointerTo(true, Parse(s[5..])) else PointerTo(false, Parse(s[1..])))
    else if StartsWith(s, "&") then
      (if StartsWith(s[1..], "mut ") then ReferenceTo(true, Parse(s[5..])) else ReferenceTo(false, Parse(s[1..])))
    else if StartsWith(s, "[") && ']' in s then
      var end := IndexOf(s, ']');
      var inner := Parse(s[end + 1..]);
      if inner.None? then None
      else if end == 1 then Some(MakeSlice(inner.value))
      else
        (match ParseNat(s[1..end])
         case None => None
         case Some(n) => Some(Array(n, inner.value)))
    else ParseNamed(s)
  }

  function ParseNamed(s: string): Option<MetaType>
    decreases |s|, 1, 0
  {
    if StartsWith(s, "fn(") || Contains(s, " | ") then None
    else if '<' in s && s[|s| - 1] == '>' then
      var open := IndexOf(s, '<');
      var args := ParseAll(Split(s[open + 1..|s| - 1]), |s|);
      if args.None? then None else Some(Name(s[..open], args.value))
    else Some(Name(s, []))
  }

  function PointerTo(m: bool, t: Option<MetaType>): Option<MetaType> {
    if t.None? then None else Some(Pointer(m, t.value))
  }

  function ReferenceTo(m: bool, t: Option<MetaType>): Option<MetaType> {
    if t.None? then None else Some(Reference(m, t.value))
  }

  /** The pieces that are not blank, each read. */
  function ParseAll(pieces: seq<string>, bound: nat): Option<seq<MetaType>>
    requires forall p :: p in pieces ==> |p| < bound
    decreases bound, 0, |pieces|
  {
    if pieces == [] then Some([])
    else
      var piece := Strip(pieces[0]);
      var rest := ParseAll(pieces[1..], bound);
      if piece == "" then rest
      else
        var t := Parse(piece);
        if t.None? || rest.None? then None else Some([t.value] + rest.value)
  }

  /** Empty brackets before a type's text are read as a span of it, at any depth of them. */
  lemma SlicesAreSpans(s: string)
    ensures Parse("[]" + s) == if Parse(s).None? then None else Some(Name("Span", [Parse(s).value]))
  {
    var t := "[]" + s;
    IndexIs("[", ']', s);
    assert "[" + [']'] + s == t && t[2..] == s && t != "void";
    assert StartsWith(t, "[") && !StartsWith(t, "*") && !StartsWith(t, "&") by {
      assert t[..1] == "[" && t[0] == '[';
    }
  }

  /** Pieces between commas that hold nothing but blanks stand for no argument. */
  lemma {:induction false} BlankPiecesAreSkipped(a: seq<string>, blank: string, b: seq<string>, bound: nat)
    requires Strip(blank) == "" && forall p :: p in a + [blank] + b ==> |p| < bound
    ensures forall p :: p in a + b ==> |p| < bound
    ensures ParseAll(a + [blank] + b, bound) == ParseAll(a + b, bound)
    decreases |a|
  {
    var all, kept := a + [blank] + b, a + b;
    assert forall p :: p in kept ==> p in all;
    if a == [] {
      assert all[1..] == b && kept == b;
    } else {
      assert all[1..] == a[1..] + [blank] + b && kept[1..] == a[1..] + b;
      assert forall p :: p in all[1..] ==> p in all;
      BlankPiecesAreSkipped(a[1..], blank, b, bound);
    }
  }

  // ---- the round trip -----------------------------------------------------

  const RESERVED := " ,<>|*&[]("

  predicate NameOk(n: string) {
    n != "" && n != "void" && forall c :: c in n ==> c !in RESERVED
  }

  predicate NamesOk(t: MetaType) {
    match t
    case NoType => true
    case Name(n, args) => NameOk(n) && forall a :: a in args ==> NamesOk(a)
    case Pointer(_, inner) => NamesOk(inner)
    case Reference(_, inner) => NamesOk(inner)
    case Array(_, inner) => NamesOk(inner)
  }

  /** No argument of a generic prints with a comma, at any depth. */
  predicate ArgsHaveNoComma(t: MetaType) {
    match t
    case NoType => true
    case Name(_, args) => forall a :: a in args ==> ',' !in Print(a) && ArgsHaveNoComma(a)
    case Pointer(_, inner) => ArgsHaveNoComma(inner)
    case Reference(_, inner) => ArgsHaveNoComma(inner)
    case Array(_, inner) => ArgsHaveNoComma(inner)
  }

  /** Printed types have no bars, and no parentheses. */
  lemma {:induction false} PrintAvoids(t: MetaType, c: char)
    requires NamesOk(t) && (c == '|' || c == '(')
    ensures c !in Print(t)
    decreases t
  {
    match t
    case NoType =>
    case Name(n, args) =>
      if args != [] {
        PrintAllAvoids(args, c);
      }
    case Pointer(_, inner) => PrintAvoids(inner, c);
    case Reference(_, inner) => PrintAvoids(inner, c);
    case Array(size, inner) => PrintAvoids(inner, c); ParseNatUndoesDecimal(size);
  }

  lemma {:induction false} PrintAllAvoids(ts: seq<MetaType>, c: char)
    requires ts != [] && (forall a :: a in ts ==> NamesOk(a)) && (c == '|' || c == '(')
    ensures c !in PrintAll(ts)
    decreases ts
  {
    PrintAvoids(ts[0], c);
    if |ts| > 1 {
      PrintAllAvoids(ts[1..], c);
    }
  }

  /** Printed types have no blanks at their ends. */
  lemma {:induction false} PrintEnds(t: MetaType)
    requires NamesOk(t)
    ensures var s := Print(t); s != "" && s[0] != ' ' && s[|s| - 1] != ' '
    decreases t
  {
    match t
    case NoType =>
    case Name(n, args) => assert n[0] in n && n[|n| - 1] in n;
    case Pointer(_, inner) => PrintEnds(inner);
    case Reference(_, inner) => PrintEnds(inner);
    case Array(_, inner) => PrintEnds(inner);
  }

  lemma StripLeaves(s: string)
    requires s != "" && s[0] != ' ' && s[|s| - 1] != ' '
    ensures Strip(s) == s && Strip(" " + s) == s
  {
    assert (" " + s)[1..] == s;
  }

  lemma SplitAtComma(p: string, q: string)
    requires ',' !in p
    ensures Split(p) == [p] && Split(p + "," + q) == [p] + Split(q)
  {
    var s := p + "," + q;
    IndexIs(p, ',', q);
    assert s[|p|] == ',' && s[..|p|] == p && s[|p| + 1..] == q;
  }

  // ---- what the parser does with each kind of text --------------------------

  lemma ParsePointer(s: string, rest: string)
    requires s == "*" + rest
    ensures Parse(s) == if StartsWith(rest, "mut ") then PointerTo(true, Parse(rest[4..]))
      else PointerTo(false, Parse(rest))
  {
    assert s[0] == '*' && s[..1] == "*" && s[1..] == rest;
    assert StartsWith(rest, "mut ") ==> s[5..] == rest[4..];
  }

  lemma ParseReference(s: string, rest: string)
    requires s == "&" + rest
    ensures Parse(s) == if StartsWith(rest, "mut ") then ReferenceTo(true, Parse(rest[4..]))
      else ReferenceTo(false, Parse(rest))
  {
    assert s[0] == '&' && s[..1] == "&" && s[1..] == rest;
    assert StartsWith(rest, "mut ") ==> s[5..] == rest[4..];
  }

  lemma Muted(m: bool, s: string)
    ensures m ==> StartsWith("mut " + s, "mut ") && ("mut " + s)[4..] == s
    ensures (if m then "mut " else "") + s == if m then "mut " + s else s
  {
    assert "" + s == s;
  }

  lemma ParseSigils(m: bool, s: string)
    requires !StartsWith(s, "mut ")
    ensures Parse("*" + (if m then "mut " else "") + s) == PointerTo(m, Parse(s))
    ensures Parse("&" + (if m then "mut " else "") + s) == ReferenceTo(m, Parse(s))
  {
    var rest := if m then "mut " + s else s;
    Muted(m, s);
    assert "*" + (if m then "mut " else "") + s == "*" + rest;
    assert "&" + (if m then "mut " else "") + s == "&" + rest;
    ParsePointer("*" + rest, rest);
    ParseReference("&" + rest, rest);
  }

  lemma ParsePrintedSigil(m: bool, t: MetaType)
    requires NamesOk(t)
    ensures Parse(Print(Pointer(m, t))) == PointerTo(m, Parse(Print(t)))
    ensures Parse(Print(Reference(m, t))) == ReferenceTo(m, Parse(Print(t)))
  {
    NotMut(t);
    ParseSigils(m, Print(t));
  }

  /** No printed type starts with `mut ` and a blank. */
  lemma NotMut(t: MetaType)
    requires NamesOk(t)
    ensures !StartsWith(Print(t), "mut ")
  {
    var s, word := Print(t), "mut ";
    match t
    case NoType => assert s[..4][0] == 'v';
    case Name(n, args) =>
      assert |n| >= 4 ==> s[3] == n[3] && n[3] in n;
      assert args != [] ==> s[|n|] == '<';
      assert |s| >= 4 && |n| < 4 ==> s[..4][|n|] == '<' && word[|n|] != '<';
      assert |s| >= 4 ==> s[..4][3] == s[3] && word[3] == ' ';
    case Pointer(_, _) => assert s[0] == '*' && (|s| >= 4 ==> s[..4][0] == s[0]);
    case Reference(_, _) => assert s[0] == '&' && (|s| >= 4 ==> s[..4][0] == s[0]);
    case Array(_, _) => assert s[0] == '[' && (|s| >= 4 ==> s[..4][0] == s[0]);
  }

  lemma ParseArray(size: nat, t: MetaType)
    ensures Parse(Print(Array(size, t))) == if Parse(Print(t)).None? then None
      else Some(Array(size, Parse(Print(t)).value))
  {
    ParseNatUndoesDecimal(size);
    ParseBracket(Decimal(size), Print(t));
  }

  lemma ParseBracket(d: string, rest: string)
    requires ']' !in d && ParseNat(d).Some?
    ensures Parse("[" + d + "]" + rest) == if Parse(rest).None? then None
      else Some(Array(ParseNat(d).value, Parse(rest).value))
  {
    var s := "[" + d + "]" + rest;
    assert d != "" && s[0] == '[' && s[..1] == "[";
    assert s == ("[" + d) + [']'] + rest;
    IndexIs("[" + d, ']', rest);
    assert s[1..|d| + 1] == d && s[|d| + 2..] == rest;
  }

  /** A plain name, and a name before its arguments. */
  lemma ParseName(n: string)
    requires NameOk(n)
    ensures Parse(n) == Some(Name(n, []))
  {
    assert n[0] in n;
    NotContained(n, " | ", '|');
    NoCallStart(n);
  }

  lemma NoCallStart(s: string)
    requires '(' !in s
    ensures !StartsWith(s, "fn(")
  {
    assert |s| >= 3 ==> s[..3][2] == s[2] && s[2] in s;
  }

  /** A text with none of the marks of the other kinds and a `>` at its end. */
  lemma ParseAngled(s: string, open: nat)
    requires s != "void" && '<' in s && open == IndexOf(s, '<') && s[|s| - 1] == '>' && s[0] !in "*&[" && '|' !in s &&
      '(' !in s
    requires open + 1 <= |s| - 1
    ensures
      var args := ParseAll(Split(s[open + 1..|s| - 1]), |s|);
      Parse(s) == if args.None? then None else Some(Name(s[..open], args.value))
  {
    ParseUnmarked(s);
    assert !Contains(s, " | ") && !StartsWith(s, "fn(") by {
      NotContained(s, " | ", '|');
      NoCallStart(s);
    }
    ParseNamedAngled(s, open);
  }

  lemma ParseNamedAngled(s: string, open: nat)
    requires '<' in s && open == IndexOf(s, '<') && s[|s| - 1] == '>' && !Contains(s, " | ") && !StartsWith(s, "fn(")
    requires open + 1 <= |s| - 1
    ensures
      var args := ParseAll(Split(s[open + 1..|s| - 1]), |s|);
      ParseNamed(s) == if args.None? then None else Some(Name(s[..open], args.value))
  {
  }

  lemma ParseUnmarked(s: string)
    requires s != "" && s != "void" && s[0] !in "*&["
    ensures Parse(s) == ParseNamed(s)
  {
    assert s[..1] == [s[0]];
  }

  lemma ParseGeneric(n: string, inside: string)
    requires NameOk(n) && '|' !in inside && '(' !in inside
    ensures
      var s := n + "<" + inside + ">";
      var args := ParseAll(Split(inside), |s|);
      Parse(s) == if args.None? then None else Some(Name(n, args.value))
  {
    var s := n + "<" + inside + ">";
    GenericText(n, inside);
    ParseAngled(s, |n|);
  }

  lemma GenericText(n: string, inside: string)
    requires NameOk(n) && '|' !in inside && '(' !in inside
    ensures
      var s := n + "<" + inside + ">";
      && '<' in s && IndexOf(s, '<') == |n| && s[..|n|] == n && s[|n| + 1..|s| - 1] == inside
      && s != "void" && s[0] !in "*&[" && '|' !in s && '(' !in s
  {
    var s := n + "<" + inside + ">";
    assert n[0] in n && s[0] == n[0];
    assert s == n + ['<'] + (inside + ">");
    IndexIs(n, '<', inside + ">");
    assert '<' !in "void";
  }

  /** A type that prints without a comma and reads back. */
  predicate ReadsBack(t: MetaType) {
    NamesOk(t) && ',' !in Print(t) && Parse(Print(t)) == Some(t)
  }

  predicate IsPieceOf(piece: string, t: MetaType) {
    ',' !in piece && Strip(piece) != "" && Parse(Strip(piece)) == Some(t)
  }

  lemma PrintedPiece(lead: string, t: MetaType)
    requires ReadsBack(t) && (lead == "" || lead == " ")
    ensures IsPieceOf(lead + Print(t), t)
  {
    PrintEnds(t);
    StripLeaves(Print(t));
    assert "" + Print(t) == Print(t);
  }

  lemma PrintAllUnfolds(lead: string, ts: seq<MetaType>)
    requires |ts| > 1
    ensures lead + PrintAll(ts) == (lead + Print(ts[0])) + "," + (" " + PrintAll(ts[1..]))
  {
    assert ", " == "," + " ";
  }

  lemma ParseOneArg(lead: string, t: MetaType, bound: nat)
    requires |lead + Print(t)| < bound && (lead == "" || lead == " ") && ReadsBack(t)
    ensures ParseAll(Split(lead + PrintAll([t])), bound) == Some([t])
  {
    PrintedPiece(lead, t);
    LastPiece(lead + Print(t), bound, t);
  }

  lemma ParseFirstArg(lead: string, ts: seq<MetaType>, bound: nat)
    requires |ts| > 1 && |lead + PrintAll(ts)| < bound && (lead == "" || lead == " ") && ReadsBack(ts[0])
    requires |" " + PrintAll(ts[1..])| < bound && ParseAll(Split(" " + PrintAll(ts[1..])), bound).Some?
    ensures ParseAll(Split(lead + PrintAll(ts)), bound) ==
      Some([ts[0]] + ParseAll(Split(" " + PrintAll(ts[1..])), bound).value)
  {
    PrintedPiece(lead, ts[0]);
    PrintAllUnfolds(lead, ts);
    FirstPiece(lead + Print(ts[0]), " " + PrintAll(ts[1..]), bound, ts[0]);
  }

  lemma FirstAndRest(all: Option<seq<MetaType>>, rest: Option<seq<MetaType>>, ts: seq<MetaType>)
    requires ts != [] && rest == Some(ts[1..]) && all == Some([ts[0]] + rest.value)
    ensures all == Some(ts)
  {
    assert [ts[0]] + ts[1..] == ts;
  }

  predicate AllReadBack(ts: seq<MetaType>) {
    forall k :: 0 <= k < |ts| ==> ReadsBack(ts[k])
  }

  lemma RestReadsBack(ts: seq<MetaType>)
    requires ts != [] && AllReadBack(ts)
    ensures ReadsBack(ts[0]) && AllReadBack(ts[1..])
  {
  }

  /** The arguments' text, split at its commas and stripped, is the arguments' texts. */
  lemma {:induction false} ParsePrintedArgs(lead: string, ts: seq<MetaType>, bound: nat)
    requires ts != [] && |lead + PrintAll(ts)| < bound && (lead == "" || lead == " ")
    requires AllReadBack(ts)
    ensures ParseAll(Split(lead + PrintAll(ts)), bound) == Some(ts)
    decreases |ts|
  {
    RestReadsBack(ts);
    if |ts| == 1 {
      assert ts == [ts[0]];
      ParseOneArg(lead, ts[0], bound);
    } else {
      PrintAllUnfolds(lead, ts);
      ParsePrintedArgs(" ", ts[1..], bound);
      ParseFirstArg(lead, ts, bound);
      FirstAndRest(ParseAll(Split(lead + PrintAll(ts)), bound), ParseAll(Split(" " + PrintAll(ts[1..])), bound), ts);
    }
  }

  lemma LastPiece(piece: string, bound: nat, t: MetaType)
    requires |piece| < bound && IsPieceOf(piece, t)
    ensures ParseAll(Split(piece), bound) == Some([t])
  {
    SplitAtComma(piece, "");
    ParseOnePiece(piece, bound, t, []);
    assert [piece] + [] == [piece] && [t] + [] == [t];
  }

  lemma FirstPiece(piece: string, rest: string, bound: nat, t: MetaType)
    requires |piece + "," + rest| < bound && IsPieceOf(piece, t)
    requires ParseAll(Split(rest), bound).Some?
    ensures ParseAll(Split(piece + "," + rest), bound) == Some([t] + ParseAll(Split(rest), bound).value)
  {
    SplitAtComma(piece, rest);
    ParseOnePiece(piece, bound, t, Split(rest));
  }

  lemma ParseOnePiece(piece: string, bound: nat, t: MetaType, rest: seq<string>)
    requires |piece| < bound && (forall p :: p in rest ==> |p| < bound)
    requires IsPieceOf(piece, t) && ParseAll(rest, bound).Some?
    ensures ParseAll([piece] + rest, bound) == Some([t] + ParseAll(rest, bound).value)
  {
    assert ([piece] + rest)[1..] == rest;
  }

  /** Reading a printed type back gives that type if no argument prints with a comma. */
  lemma {:induction false} ParseUndoesPrint(t: MetaType)
    requires NamesOk(t) && ArgsHaveNoComma(t)
    ensures Parse(Print(t)) == Some(t)
    decreases t
  {
    match t
    case NoType =>
    case Pointer(m, inner) => ParseUndoesPrint(inner); ParsePrintedSigil(m, inner);
    case Reference(m, inner) => ParseUndoesPrint(inner); ParsePrintedSigil(m, inner);
    case Array(size, inner) => ParseUndoesPrint(inner); ParseArray(size, inner);
    case Name(n, args) =>
      if args == [] {
        ParseName(n);
      } else {
        forall k | 0 <= k < |args| ensures ReadsBack(args[k]) {
          ParseUndoesPrint(args[k]);
        }
        GenericReadsBack(n, args);
      }
  }

  lemma GenericReadsBack(n: string, args: seq<MetaType>)
    requires NameOk(n) && args != [] && forall k :: 0 <= k < |args| ==> ReadsBack(args[k])
    ensures Parse(Print(Name(n, args))) == Some(Name(n, args))
  {
    var inside := PrintAll(args);
    PrintAllAvoids(args, '|');
    PrintAllAvoids(args, '(');
    ParseGeneric(n, inside);
    assert "" + inside == inside;
    ParsePrintedArgs("", args, |n + "<" + inside + ">"|);
  }

  // ---- and only then ------------------------------------------------------

  /** A text without a comma reads as a type that prints without one. */
  lemma {:induction false} CommaFreeStaysSo(s: string)
    requires ',' !in s && Parse(s).Some?
    ensures ',' !in Print(Parse(s).value)
    decreases |s|, 1, 1
  {
    if s == "void" {
    } else if StartsWith(s, "*") || StartsWith(s, "&") {
      CommaFreeStaysSo(if StartsWith(s[1..], "mut ") then s[5..] else s[1..]);
    } else if StartsWith(s, "[") && ']' in s {
      var end := IndexOf(s, ']');
      CommaFreeStaysSo(s[end + 1..]);
      if end != 1 {
        ParseNatUndoesDecimal(ParseNat(s[1..end]).value);
      }
    } else {
      NamedStaysCommaFree(s);
    }
  }

  lemma {:induction false} NamedStaysCommaFree(s: string)
    requires ',' !in s && ParseNamed(s).Some?
    ensures ',' !in Print(ParseNamed(s).value)
    decreases |s|, 1, 0
  {
    if '<' in s && s[|s| - 1] == '>' {
      var open := IndexOf(s, '<');
      var inside := s[open + 1..|s| - 1];
      assert ',' !in inside && Split(inside) == [inside];
      assert ParseNamed(s).value == Name(s[..open], ParseAll([inside], |s|).value);
      PiecesStayCommaFree([inside], |s|);
      AtMostOne(inside, |s|);
      FewArgsPrintCommaFree(s[..open], ParseAll([inside], |s|).value);
    }
  }

  lemma AtMostOne(piece: string, bound: nat)
    requires |piece| < bound && ParseAll([piece], bound).Some?
    ensures |ParseAll([piece], bound).value| <= 1
  {
    assert [piece][1..] == [];
  }

  lemma FewArgsPrintCommaFree(n: string, args: seq<MetaType>)
    requires ',' !in n && |args| <= 1 && forall k :: 0 <= k < |args| ==> ',' !in Print(args[k])
    ensures ',' !in Print(Name(n, args))
  {
  }

  lemma {:induction false} PiecesStayCommaFree(pieces: seq<string>, bound: nat)
    requires forall p :: p in pieces ==> |p| < bound && ',' !in p
    requires ParseAll(pieces, bound).Some?
    ensures forall k :: 0 <= k < |ParseAll(pieces, bound).value| ==> ',' !in Print(ParseAll(pieces, bound).value[k])
    decreases bound, 0, |pieces|
  {
    if pieces != [] {
      assert pieces[0] in pieces;
      PiecesStayCommaFree(pieces[1..], bound);
      if Strip(pieces[0]) != "" {
        CommaFreeStaysSo(Strip(pieces[0]));
      }
    }
  }

  lemma {:induction false} ArgTextIsInside(ts: seq<MetaType>, k: nat)
    requires k < |ts| && ',' in Print(ts[k])
    ensures ',' in PrintAll(ts)
    decreases |ts|
  {
    if k > 0 {
      ArgTextIsInside(ts[1..], k - 1);
    }
  }

  lemma {:induction false} BadArgShows(t: MetaType)
    requires !ArgsHaveNoComma(t)
    ensures ',' in Print(t)
    decreases t
  {
    match t
    case Name(n, args) =>
      var k :| 0 <= k < |args| && (',' in Print(args[k]) || !ArgsHaveNoComma(args[k]));
      if ',' !in Print(args[k]) {
        BadArgShows(args[k]);
      }
      ArgTextIsInside(args, k);
    case Pointer(_, inner) => BadArgShows(inner);
    case Reference(_, inner) => BadArgShows(inner);
    case Array(_, inner) => BadArgShows(inner);
  }

  lemma {:induction false} OnlyCommaFreeReadsBack(t: MetaType)
    requires NamesOk(t) && Parse(Print(t)) == Some(t)
    ensures ArgsHaveNoComma(t)
    decreases t
  {
    match t
    case NoType =>
    case Pointer(m, inner) => ParsePrintedSigil(m, inner); OnlyCommaFreeReadsBack(inner);
    case Reference(m, inner) => ParsePrintedSigil(m, inner); OnlyCommaFreeReadsBack(inner);
    case Array(size, inner) => ParseArray(size, inner); OnlyCommaFreeReadsBack(inner);
    case Name(n, args) =>
      if args != [] {
        PrintAllAvoids(args, '|');
        PrintAllAvoids(args, '(');
        ParseGeneric(n, PrintAll(args));
        PiecesStayCommaFree(Split(PrintAll(args)), |Print(t)|);
        forall k | 0 <= k < |args| ensures ',' !in Print(args[k]) && ArgsHaveNoComma(args[k]) {
          if !ArgsHaveNoComma(args[k]) {
            BadArgShows(args[k]);
          }
        }
      }
  }

  /** A type reads back from its text exactly when no argument in it prints with a comma. */
  lemma RoundTripExactly(t: MetaType)
    requires NamesOk(t)
    ensures Parse(Print(t)) == Some(t) <==> ArgsHaveNoComma(t)
  {
    if ArgsHaveNoComma(t) {
      ParseUndoesPrint(t);
    } else if Parse(Print(t)) == Some(t) {
      OnlyCommaFreeReadsBack(t);
    }
  }
}
