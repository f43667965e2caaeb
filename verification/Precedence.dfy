/** Expressions as token lists and as trees: operator precedence, the two precedence climbers, and
    the trees that need no further parentheses. */
module Precedence {

  /** Operator tokens. A keyword alias (`and`, `or`, `not`) is a token of its own. */
  datatype Sym =
    | BarBar | Or | AmpAmp | And | Bar | Caret | Amp | EqEq | Neq | Lt | Gt | Leq | Geq
    | Shl | Shr | Plus | Minus | Star | Slash | Percent | DotDot | DotDotEq | Bang | Not | Tilde

  /** `Punct` is any other token, by its text. An integer may carry a type suffix. */
  datatype Token =
    | Int(value: int, suffix: string)
    | Ident(name: string)
    | Op(sym: Sym)
    | LParen
    | RParen
    | Newline
    | Punct(text: string)

  datatype Tree =
    | Leaf(token: Token)
    | Prefix(op: Sym, operand: Tree)
    | Binary(op: Sym, left: Tree, right: Tree)
    | Group(inner: Tree)

  /** How tightly a binary operator binds; 0 for a token that is none. */
  function Binds(s: Sym): nat {
    match s
    case BarBar => 1 case Or => 1 case DotDot => 1 case DotDotEq => 1
    case AmpAmp => 2 case And => 2
    case Bar => 3
    case Caret => 4
    case Amp => 5
    case EqEq => 6 case Neq => 6
    case Lt => 7 case Gt => 7 case Leq => 7 case Geq => 7
    case Shl => 8 case Shr => 8
    case Plus => 9 case Minus => 9
    case Star => 10 case Slash => 10 case Percent => 10
    case Bang => 0 case Not => 0 case Tilde => 0
  }

  function BindsAt(toks: seq<Token>): nat {
    if toks != [] && toks[0].Op? then Binds(toks[0].sym) else 0
  }

  /** The operators of constant expressions, with the same precedences; -1 for any other token. */
  function ConstBindsAt(toks: seq<Token>): int {
    if toks != [] && toks[0].Op? &&
      toks[0].sym in {BarBar, AmpAmp, Bar, Caret, Amp, Shl, Shr, Plus, Minus, Star, Slash, Percent}
    then Binds(toks[0].sym) else -1
  }

  /** A parse: a tree and the tokens left, a syntax error, or a construct outside this model
      (a call, an index, a field, a type-argument list, a struct literal, a tuple, ...). */
  datatype Parse = Parsed(tree: Tree, rest: seq<Token>) | Error | Outside

  // ---- parse_expr ---------------------------------------------------------

  predicate IsPrefix(s: Sym) {
    s in {Minus, Bang, Not, Star, Tilde}
  }

  predicate AtPunct(toks: seq<Token>, k: nat, texts: set<string>) {
    k < |toks| && toks[k].Punct? && toks[k].text in texts
  }

  /** Does a postfix form follow a complete operand? `**` only dereferences before `.`, `[`, `(` or another `*`. */
  predicate Continues(toks: seq<Token>) {
    || (toks != [] && toks[0].LParen?)
    || AtPunct(toks, 0, {"[", ".", "?"})
    || (|toks| > 2 && toks[0] == Op(Star) && toks[1] == Op(Star)
        && (AtPunct(toks, 2, {".", "["}) || toks[2].LParen? || toks[2] == Op(Star)))
  }

  /** Does something follow a name that makes more of it than a name? */
  predicate ContinuesName(toks: seq<Token>) {
    AtPunct(toks, 0, {"::", "{"}) || (toks != [] && toks[0] == Op(Lt))
  }

  function SkipNewlines(toks: seq<Token>): (r: seq<Token>)
    ensures |r| <= |toks|
    ensures (forall t :: t in toks ==> !t.Newline?) ==> r == toks
  {
    if toks != [] && toks[0].Newline? then SkipNewlines(toks[1..]) else toks
  }

  function ParseExpr(toks: seq<Token>, min: nat): (r: Parse)
    ensures r.Parsed? ==> |r.rest| < |toks|
    decreases |toks|, 2
  {
    var l := ParsePrefix(toks);
    if l.Parsed? then ParseInfix(l.tree, l.rest, min) else l
  }

  /** The loop that extends `left` while the next operator binds tighter than `min`. */
  function ParseInfix(left: Tree, toks: seq<Token>, min: nat): (r: Parse)
    ensures r.Parsed? ==> |r.rest| <= |toks|
    decreases |toks|, 3
  {
    var prec := BindsAt(toks);
    if AtPunct(toks, 0, {"as"}) then Outside
    else if prec <= min then Parsed(left, toks)
    else
      var r := ParseExpr(SkipNewlines(toks[1..]), prec);
      if r.Parsed? then ParseInfix(Binary(toks[0].sym, left, r.tree), r.rest, min) else r
  }

  function ParsePrefix(toks: seq<Token>): (r: Parse)
    ensures r.Parsed? ==> |r.rest| < |toks|
    decreases |toks|, 1
  {
    if toks != [] && toks[0].Op? && IsPrefix(toks[0].sym) then
      var r := ParsePrefix(toks[1..]);
      if r.Parsed? then Parsed(Prefix(toks[0].sym, r.tree), r.rest) else r
    else ParsePostfix(toks)
  }

  function ParsePostfix(toks: seq<Token>): (r: Parse)
    ensures r.Parsed? ==> |r.rest| < |toks|
    decreases |toks|, 0
  {
    if toks == [] then Error
    else
      match toks[0]
      case Int(_, _) => if Continues(toks[1..]) then Outside else Parsed(Leaf(toks[0]), toks[1..])
      case Ident(_) => if Continues(toks[1..]) || ContinuesName(toks[1..]) then Outside
        else Parsed(Leaf(toks[0]), toks[1..])
      case LParen =>
        if |toks| > 1 && toks[1].RParen? then Outside
        else
          var r := ParseExpr(toks[1..], 0);
          if !r.Parsed? then r
          else if r.rest != [] && r.rest[0].RParen? then
            // A parenthesised expression is returned as it is.
            if Continues(r.rest[1..]) then Outside else Parsed(r.tree, r.rest[1..])
          else if AtPunct(r.rest, 0, {","}) then Outside
          else Error
      case Punct(_) => Outside
      case Op(s) => if s.Bar? then Outside else Error
      case RParen => Error
      case Newline => Error
  }

  // ---- _parse_const_expr --------------------------------------------------

  function ParseConst(toks: seq<Token>, min: nat): (r: Parse)
    ensures r.Parsed? ==> |r.rest| < |toks|
    decreases |toks|, 2
  {
    var l := ParseConstPrimary(toks);
    if l.Parsed? then ParseConstInfix(l.tree, l.rest, min) else l
  }

  function ParseConstInfix(left: Tree, toks: seq<Token>, min: nat): (r: Parse)
    ensures r.Parsed? ==> |r.rest| <= |toks|
    decreases |toks|, 3
  {
    var prec := ConstBindsAt(toks);
    if prec < min as int then Parsed(left, toks)
    else
      var r := ParseConst(toks[1..], (prec + 1) as nat);
      if r.Parsed? then ParseConstInfix(Binary(toks[0].sym, left, r.tree), r.rest, min) else r
  }

  function ParseConstPrimary(toks: seq<Token>): (r: Parse)
    ensures r.Parsed? ==> |r.rest| < |toks|
    decreases |toks|, 1
  {
    if toks == [] then Error
    else
      match toks[0]
      // The literal's value; a suffix is not looked at.
      case Int(value, _) => Parsed(Leaf(Int(value, "")), toks[1..])
      case Ident(_) => Parsed(Leaf(toks[0]), toks[1..])
      case LParen =>
        var r := ParseConst(toks[1..], 0);
        if !r.Parsed? then r
        else if r.rest != [] && r.rest[0].RParen? then Parsed(Group(r.tree), r.rest[1..])
        else Error
      case Op(s) =>
        if s.Minus? || s.Tilde? then
          var r := ParseConstPrimary(toks[1..]);
          if r.Parsed? then Parsed(Prefix(s, r.tree), r.rest) else r
        else Error
      case _ => Error
  }

  // ---- trees and their tokens ---------------------------------------------

  function Yield(t: Tree): (toks: seq<Token>)
    ensures toks != []
  {
    match t
    case Leaf(tok) => [tok]
    case Prefix(op, operand) => [Op(op)] + Yield(operand)
    case Binary(op, l, r) => Yield(l) + [Op(op)] + Yield(r)
    case Group(inner) => [LParen] + Yield(inner) + [RParen]
  }

  /** Drops the parentheses. */
  function Erase(t: Tree): Tree {
    match t
    case Leaf(_) => t
    case Prefix(op, operand) => Prefix(op, Erase(operand))
    case Binary(op, l, r) => Binary(op, Erase(l), Erase(r))
    case Group(inner) => Erase(inner)
  }

  const PREFIX_LEVEL: nat := 11

  function Level(t: Tree): nat {
    match t
    case Binary(op, _, _) => Binds(op)
    case Prefix(_, _) => PREFIX_LEVEL
    case _ => PREFIX_LEVEL + 1
  }

  /** Reads back as itself by the precedence rules alone: operators associate to the left, and a
      looser operand is in parentheses. */
  predicate Respects(t: Tree) {
    match t
    case Leaf(tok) => tok.Int? || tok.Ident?
    case Prefix(op, operand) => IsPrefix(op) && Level(operand) >= PREFIX_LEVEL && Respects(operand)
    case Binary(op, l, r) =>
      Binds(op) > 0 && Level(l) >= Binds(op) && Level(r) > Binds(op) && Respects(l) && Respects(r)
    case Group(inner) => Respects(inner)
  }

  predicate EndsInName(t: Tree) {
    match t
    case Leaf(tok) => tok.Ident?
    case Prefix(_, operand) => EndsInName(operand)
    case Binary(_, _, r) => EndsInName(r)
    case Group(_) => false
  }

  /** No `<` after a name (it may open type arguments) and no prefix `*` (`**` may be a postfix form). */
  predicate NoAmbiguity(t: Tree) {
    match t
    case Leaf(_) => true
    case Prefix(op, operand) => !op.Star? && NoAmbiguity(operand)
    case Binary(op, l, r) => (op.Lt? ==> !EndsInName(l)) && NoAmbiguity(l) && NoAmbiguity(r)
    case Group(inner) => NoAmbiguity(inner)
  }

  // ---- parse_expr finds the tree that respects precedence -----------------

  /** What follows does not carry on an operand, nor is it an operator binding tighter than `level`. */
  predicate Stops(rest: seq<Token>, level: nat) {
    !Continues(rest) && !ContinuesName(rest) && !AtPunct(rest, 0, {"as"}) && BindsAt(rest) <= level
  }

  /** The same, as far as it matters after the tree. */
  predicate Follows(t: Tree, rest: seq<Token>, level: nat) {
    && !Continues(rest) && (EndsInName(t) ==> !ContinuesName(rest)) && !AtPunct(rest, 0, {"as"})
    && BindsAt(rest) <= level
  }

  lemma {:induction false} YieldStart(t: Tree)
    requires Respects(t) && NoAmbiguity(t)
    ensures
      var tok := Yield(t)[0];
      && (tok.Int? || tok.Ident? || tok.LParen? || (tok.Op? && IsPrefix(tok.sym)))
      && tok != Op(Star)
  {
    match t
    case Binary(_, l, _) => YieldStart(l);
    case _ =>
  }

  lemma {:induction false} NoNewlines(t: Tree)
    requires Respects(t)
    ensures forall tok :: tok in Yield(t) ==> !tok.Newline?
  {
    match t
    case Leaf(_) =>
    case Prefix(_, operand) => NoNewlines(operand);
    case Binary(_, l, r) =>
      NoNewlines(l);
      NoNewlines(r);
    case Group(inner) => NoNewlines(inner);
  }

  lemma SkipNothing(t: Tree, rest: seq<Token>)
    requires Respects(t)
    ensures SkipNewlines(Yield(t) + rest) == Yield(t) + rest
  {
    NoNewlines(t);
    assert (Yield(t) + rest)[0] == Yield(t)[0];
    assert Yield(t)[0] in Yield(t);
  }

  /** Reading a tree leaves the infix loop with the whole tree at hand. */
  lemma {:induction false} ReadsTree(t: Tree, min: nat, rest: seq<Token>)
    requires Respects(t) && NoAmbiguity(t) && Level(t) > min && Follows(t, rest, Level(t))
    ensures ParseExpr(Yield(t) + rest, min) == ParseInfix(Erase(t), rest, min)
    decreases t, 1
  {
    if t.Binary? {
      var op, l, r := t.op, t.left, t.right;
      var tail := [Op(op)] + Yield(r) + rest;
      assert Yield(t) + rest == Yield(l) + tail;
      YieldStart(r);
      assert tail[1] == Yield(r)[0];
      ReadsTree(l, min, tail);
      assert tail[1..] == Yield(r) + rest;
      SkipNothing(r, rest);
      ReadsTree(r, Binds(op), rest);
    } else {
      ReadsOperand(t, rest);
    }
  }

  lemma {:induction false} ReadsOperand(t: Tree, rest: seq<Token>)
    requires Respects(t) && NoAmbiguity(t) && !t.Binary? && !Continues(rest) && (EndsInName(t) ==> !ContinuesName(rest))
    ensures ParsePrefix(Yield(t) + rest) == Parsed(Erase(t), rest)
    decreases t, 0
  {
    var toks := Yield(t) + rest;
    match t
    case Leaf(_) => assert toks[1..] == rest;
    case Prefix(op, operand) =>
      assert toks[1..] == Yield(operand) + rest;
      ReadsOperand(operand, rest);
    case Group(inner) =>
      var tail := [RParen] + rest;
      assert toks[1..] == Yield(inner) + tail;
      YieldStart(inner);
      assert toks[1] == Yield(inner)[0];
      ReadsTree(inner, 0, tail);
      assert tail[1..] == rest;
  }

  /** parse_expr, on the tokens of a tree that respects precedence, gives that tree without its parentheses. */
  lemma ParseUndoesYield(t: Tree, min: nat, rest: seq<Token>)
    requires Respects(t) && NoAmbiguity(t) && Level(t) > min && Follows(t, rest, min)
    ensures ParseExpr(Yield(t) + rest, min) == Parsed(Erase(t), rest)
  {
    ReadsTree(t, min, rest);
  }

  // ---- what precedence is --------------------------------------------------

  /** The binary operators, loosest first; those in one class bind alike. */
  const CLASSES: seq<set<Sym>> := [
    {BarBar, Or, DotDot, DotDotEq}, {AmpAmp, And}, {Bar}, {Caret}, {Amp}, {EqEq, Neq}, {Lt, Gt, Leq, Geq}, {Shl, Shr},
    {Plus, Minus}, {Star, Slash, Percent}]

  lemma ClassBinds(op: Sym, i: nat)
    requires i < |CLASSES| && op in CLASSES[i]
    ensures Binds(op) == i + 1
  {
  }

  /** An operand that needs no precedence: a number, a name, one with prefixes, or something in parentheses. */
  predicate IsOperand(t: Tree) {
    Respects(t) && NoAmbiguity(t) && !t.Binary?
  }

  /** Two operators in a row, the second grouped first or the first. */
  function TwoGrouped(a: Tree, o1: Sym, b: Tree, o2: Sym, c: Tree, second: bool): Tree {
    if second then Binary(o1, a, Binary(o2, b, c)) else Binary(o2, Binary(o1, a, b), c)
  }

  function TwoTokens(a: Tree, o1: Sym, b: Tree, o2: Sym, c: Tree): seq<Token> {
    Yield(a) + [Op(o1)] + Yield(b) + [Op(o2)] + Yield(c)
  }

  /** parse_expr groups around the operator of the tighter class, and to the left within one class. */
  lemma GroupsByClass(a: Tree, o1: Sym, i: nat, b: Tree, o2: Sym, j: nat, c: Tree, rest: seq<Token>)
    requires IsOperand(a) && IsOperand(b) && IsOperand(c) && i < |CLASSES| && j < |CLASSES|
    requires o1 in CLASSES[i] && o2 in CLASSES[j] && (o1.Lt? ==> !EndsInName(a)) && (o2.Lt? ==> !EndsInName(b))
    requires Stops(rest, 0)
    ensures ParseExpr(TwoTokens(a, o1, b, o2, c) + rest, 0) ==
      Parsed(TwoGrouped(Erase(a), o1, Erase(b), o2, Erase(c), j > i), rest)
  {
    ClassBinds(o1, i);
    ClassBinds(o2, j);
    GroupsByLevel(a, o1, b, o2, c, j > i, rest);
  }

  lemma GroupsByLevel(a: Tree, o1: Sym, b: Tree, o2: Sym, c: Tree, second: bool, rest: seq<Token>)
    requires IsOperand(a) && IsOperand(b) && IsOperand(c)
    requires 0 < Binds(o1) < PREFIX_LEVEL && 0 < Binds(o2) < PREFIX_LEVEL
    requires (o1.Lt? ==> !EndsInName(a)) && (o2.Lt? ==> !EndsInName(b)) && second == (Binds(o2) > Binds(o1))
    requires Stops(rest, 0)
    ensures ParseExpr(TwoTokens(a, o1, b, o2, c) + rest, 0) ==
      Parsed(TwoGrouped(Erase(a), o1, Erase(b), o2, Erase(c), second), rest)
  {
    TwoYield(a, o1, b, o2, c, second);
    ParseUndoesYield(TwoGrouped(a, o1, b, o2, c, second), 0, rest);
  }

  lemma TwoYield(a: Tree, o1: Sym, b: Tree, o2: Sym, c: Tree, second: bool)
    ensures Yield(TwoGrouped(a, o1, b, o2, c, second)) == TwoTokens(a, o1, b, o2, c)
  {
    var x, y, p, q, z := Yield(a), Yield(b), [Op(o1)], [Op(o2)], Yield(c);
    assert x + p + (y + q + z) == x + p + y + q + z;
  }

  /** A prefix binds tighter than any operator. */
  lemma PrefixBindsTightest(op: Sym, a: Tree, o: Sym, i: nat, b: Tree, rest: seq<Token>)
    requires op in {Minus, Bang, Not, Tilde} && i < |CLASSES| && o in CLASSES[i] && (o.Lt? ==> !EndsInName(a))
    requires IsOperand(a) && IsOperand(b) && Stops(rest, 0)
    ensures ParseExpr([Op(op)] + Yield(a) + [Op(o)] + Yield(b) + rest, 0) ==
      Parsed(Binary(o, Prefix(op, Erase(a)), Erase(b)), rest)
  {
    ClassBinds(o, i);
    ParseUndoesYield(Binary(o, Prefix(op, a), b), 0, rest);
  }

  /** An operator may be followed by ends of lines: they do not count. */
  lemma NewlinesAfterAnOperator(left: Tree, op: Sym, newlines: seq<Token>, rest: seq<Token>, min: nat)
    requires Binds(op) > min && forall t :: t in newlines ==> t.Newline?
    ensures ParseInfix(left, [Op(op)] + newlines + rest, min) == ParseInfix(left, [Op(op)] + rest, min)
  {
    NewlinesAreSkipped(newlines, rest);
    assert ([Op(op)] + newlines + rest)[1..] == newlines + rest && ([Op(op)] + rest)[1..] == rest;
  }

  lemma {:induction false} NewlinesAreSkipped(newlines: seq<Token>, rest: seq<Token>)
    requires forall t :: t in newlines ==> t.Newline?
    ensures SkipNewlines(newlines + rest) == SkipNewlines(rest)
  {
    if newlines == [] {
      assert newlines + rest == rest;
    } else {
      assert newlines[0] in newlines && (newlines + rest)[1..] == newlines[1..] + rest;
      NewlinesAreSkipped(newlines[1..], rest);
    }
  }

  /** An expression ends at the end of its line, at a closing parenthesis and at any token that is none of those that
      carry an operand on. */
  lemma WhatStops(rest: seq<Token>, level: nat)
    requires rest == [] || rest[0].Newline? || rest[0].RParen? || rest[0].Int? || rest[0].Ident? ||
      (rest[0].Punct? && rest[0].text !in {"[", ".", "?", "::", "{", "as"})
    ensures Stops(rest, level)
  {
  }

  // ---- printing with only the parentheses needed --------------------------

  function Wrap(t: Tree, level: nat): Tree {
    if Level(t) < level then Group(t) else t
  }

  /** A tree without parentheses, given those its operands need. */
  function Parenthesize(t: Tree): Tree {
    match t
    case Leaf(_) => t
    case Prefix(op, operand) => Prefix(op, Wrap(Parenthesize(operand), PREFIX_LEVEL))
    case Binary(op, l, r) => Binary(op, Wrap(Parenthesize(l), Binds(op)), Wrap(Parenthesize(r), Binds(op) + 1))
    case Group(inner) => Parenthesize(inner)
  }

  function Print(t: Tree): seq<Token> {
    Yield(Parenthesize(t))
  }

  /** Any tree of names, numbers and operators, with no parentheses in it. */
  predicate Plain(t: Tree) {
    match t
    case Leaf(tok) => tok.Int? || tok.Ident?
    case Prefix(op, operand) => IsPrefix(op) && Plain(operand)
    case Binary(op, l, r) => Binds(op) > 0 && Plain(l) && Plain(r)
    case Group(_) => false
  }

  lemma {:induction false} ParenthesizeRespects(t: Tree)
    requires Plain(t)
    ensures Respects(Parenthesize(t)) && Erase(Parenthesize(t)) == t && Level(Parenthesize(t)) == Level(t) > 0
  {
    match t
    case Leaf(_) =>
    case Prefix(_, operand) => ParenthesizeRespects(operand);
    case Binary(_, l, r) =>
      ParenthesizeRespects(l);
      ParenthesizeRespects(r);
  }

  /** Round trip: printing any tree with only the parentheses precedence asks for and parsing it gives the tree back. */
  lemma ParseUndoesPrint(t: Tree, rest: seq<Token>)
    requires Plain(t) && NoAmbiguity(Parenthesize(t)) && Stops(rest, 0)
    ensures ParseExpr(Print(t) + rest, 0) == Parsed(t, rest)
  {
    ParenthesizeRespects(t);
    ParseUndoesYield(Parenthesize(t), 0, rest);
  }

  /** Only one tree respects precedence with given tokens, whatever parentheses it has. */
  lemma OnlyOneTree(t: Tree, u: Tree)
    requires Respects(t) && NoAmbiguity(t) && Respects(u) && NoAmbiguity(u) && Yield(t) == Yield(u)
    ensures Erase(t) == Erase(u)
  {
    LevelIsPositive(t);
    LevelIsPositive(u);
    ParseUndoesYield(t, 0, []);
    ParseUndoesYield(u, 0, []);
  }

  lemma LevelIsPositive(t: Tree)
    requires Respects(t)
    ensures Level(t) > 0
  {
  }

  // ---- whatever parse_expr accepts respects precedence --------------------

  function WithoutNewlines(toks: seq<Token>): (r: seq<Token>)
    ensures |r| <= |toks| && (|r| == |toks| ==> r == toks)
  {
    if toks == [] then []
    else (if toks[0].Newline? then [] else [toks[0]]) + WithoutNewlines(toks[1..])
  }

  lemma {:induction false} WithoutNewlinesAppend(a: seq<Token>, b: seq<Token>)
    ensures WithoutNewlines(a + b) == WithoutNewlines(a) + WithoutNewlines(b)
  {
    if a == [] {
      assert a + b == b;
    } else {
      assert (a + b)[0] == a[0] && (a + b)[1..] == a[1..] + b;
      WithoutNewlinesAppend(a[1..], b);
    }
  }

  lemma {:induction false} SkippedAreNewlines(toks: seq<Token>) returns (skipped: seq<Token>)
    ensures toks == skipped + SkipNewlines(toks) && WithoutNewlines(skipped) == []
  {
    skipped := [];
    if toks != [] && toks[0].Newline? {
      skipped := SkippedAreNewlines(toks[1..]);
      WithoutNewlinesAppend([Newline], skipped);
      skipped := [Newline] + skipped;
    }
  }

  /** What was read, up to `rest`, is the tree `g` but for newlines; it respects precedence, and without
      its parentheses it is the tree the parser gave. */
  predicate Reads(g: Tree, read: seq<Token>, toks: seq<Token>, tree: Tree, rest: seq<Token>) {
    Respects(g) && Erase(g) == tree && toks == read + rest && WithoutNewlines(read) == Yield(g)
  }

  predicate Below(min: nat, t: Tree) {
    min < PREFIX_LEVEL ==> Level(t) > min
  }

  lemma {:induction false} ExprRespects(toks: seq<Token>, min: nat) returns (g: Tree, read: seq<Token>)
    requires ParseExpr(toks, min).Parsed?
    ensures
      var r := ParseExpr(toks, min);
      Reads(g, read, toks, r.tree, r.rest) && BindsAt(r.rest) <= min && Below(min, g)
    decreases |toks|, 2
  {
    var l := ParsePrefix(toks);
    var left, start := PrefixRespects(toks);
    var more;
    g, more := InfixRespects(left, l.rest, min);
    read := start + more;
    WithoutNewlinesAppend(start, more);
  }

  lemma {:induction false} InfixRespects(left: Tree, toks: seq<Token>, min: nat) returns (g: Tree, read: seq<Token>)
    requires Respects(left) && BindsAt(toks) <= Level(left) && Below(min, left)
    requires ParseInfix(Erase(left), toks, min).Parsed?
    ensures Extends(g, read, left, toks, ParseInfix(Erase(left), toks, min))
    ensures BindsAt(ParseInfix(Erase(left), toks, min).rest) <= min && Below(min, g)
    decreases |toks|, 3
  {
    var prec := BindsAt(toks);
    if prec <= min {
      g, read := left, [];
    } else {
      var r := ParseExpr(SkipNewlines(toks[1..]), prec);
      var right, own := OperandRespects(toks, prec);
      var both := Binary(toks[0].sym, left, right);
      InfixGoesOn(left, toks, min, right);
      var more;
      g, more := InfixRespects(both, r.rest, min);
      read := own + more;
      BothExtend(g, more, left, toks, right, own, r.rest, ParseInfix(Erase(both), r.rest, min));
    }
  }

  lemma InfixGoesOn(left: Tree, toks: seq<Token>, min: nat, right: Tree)
    requires BindsAt(toks) > min && ParseInfix(Erase(left), toks, min).Parsed?
    requires ParseExpr(SkipNewlines(toks[1..]), BindsAt(toks)).Parsed?
    requires Erase(right) == ParseExpr(SkipNewlines(toks[1..]), BindsAt(toks)).tree
    ensures ParseInfix(Erase(left), toks, min) ==
      ParseInfix(Erase(Binary(toks[0].sym, left, right)), ParseExpr(SkipNewlines(toks[1..]), BindsAt(toks)).rest, min)
  {
  }

  /** What `left` was extended to on the tokens `read`. */
  predicate Extends(g: Tree, read: seq<Token>, left: Tree, toks: seq<Token>, r: Parse) {
    r.Parsed? && Respects(g) && Erase(g) == r.tree && toks == read + r.rest &&
      Yield(g) == Yield(left) + WithoutNewlines(read)
  }

  lemma BothExtend(g: Tree, more: seq<Token>, left: Tree, toks: seq<Token>, right: Tree, own: seq<Token>,
      rest: seq<Token>, r: Parse)
    requires toks != [] && toks[0].Op? && toks == own + rest && WithoutNewlines(own) == [toks[0]] + Yield(right)
    requires Extends(g, more, Binary(toks[0].sym, left, right), rest, r)
    ensures Extends(g, own + more, left, toks, r)
  {
    WithoutNewlinesAppend(own, more);
    ConcatOnce(own, more, r.rest);
    ConcatOnce(Yield(left), [toks[0]] + Yield(right), WithoutNewlines(more));
    ConcatOnce(Yield(left), [toks[0]], Yield(right));
  }

  lemma ConcatOnce(a: seq<Token>, b: seq<Token>, c: seq<Token>)
    ensures (a + b) + c == a + (b + c)
  {
  }

  /** An operator and what is read as its right operand. */
  lemma {:induction false} OperandRespects(toks: seq<Token>, prec: nat) returns (right: Tree, own: seq<Token>)
    requires toks != [] && toks[0].Op? && ParseExpr(SkipNewlines(toks[1..]), prec).Parsed?
    ensures
      var r := ParseExpr(SkipNewlines(toks[1..]), prec);
      && Respects(right) && Erase(right) == r.tree && toks == own + r.rest &&
        WithoutNewlines(own) == [toks[0]] + Yield(right)
      && BindsAt(r.rest) <= prec && Below(prec, right)
    decreases |toks|, 2
  {
    var skipped := SkippedAreNewlines(toks[1..]);
    var operand;
    right, operand := ExprRespects(SkipNewlines(toks[1..]), prec);
    own := [toks[0]] + skipped + operand;
    OperatorTokens(toks[0], skipped, operand);
    OwnTokens(toks, skipped, operand, ParseExpr(SkipNewlines(toks[1..]), prec).rest);
  }

  lemma OwnTokens(toks: seq<Token>, skipped: seq<Token>, operand: seq<Token>, rest: seq<Token>)
    requires toks != [] && toks[1..] == skipped + (operand + rest)
    ensures toks == ([toks[0]] + skipped + operand) + rest
  {
    ConcatOnce([toks[0]] + skipped, operand, rest);
    ConcatOnce([toks[0]], skipped, operand + rest);
  }

  lemma OperatorTokens(tok: Token, skipped: seq<Token>, operand: seq<Token>)
    requires tok.Op? && WithoutNewlines(skipped) == []
    ensures WithoutNewlines([tok] + skipped + operand) == [tok] + WithoutNewlines(operand)
  {
    WithoutNewlinesAppend([tok] + skipped, operand);
    WithoutNewlinesAppend([tok], skipped);
    assert WithoutNewlines([tok]) == [tok];
  }

  lemma {:induction false} PrefixRespects(toks: seq<Token>) returns (g: Tree, read: seq<Token>)
    requires ParsePrefix(toks).Parsed?
    ensures Reads(g, read, toks, ParsePrefix(toks).tree, ParsePrefix(toks).rest) && Level(g) >= PREFIX_LEVEL
    decreases |toks|, 1
  {
    var first := [toks[0]];
    OneToken(toks[0]);
    if toks[0].Op? && IsPrefix(toks[0].sym) {
      var operand, more := PrefixRespects(toks[1..]);
      g, read := Prefix(toks[0].sym, operand), first + more;
      WithoutNewlinesAppend(first, more);
      ConcatOnce(first, more, ParsePrefix(toks).rest);
    } else if toks[0].LParen? {
      g, read := GroupRespects(toks);
    } else {
      g, read := Leaf(toks[0]), first;
    }
  }

  lemma OneToken(tok: Token)
    ensures WithoutNewlines([tok]) == if tok.Newline? then [] else [tok]
  {
  }

  lemma {:induction false} GroupRespects(toks: seq<Token>) returns (g: Tree, read: seq<Token>)
    requires toks != [] && toks[0].LParen? && ParsePrefix(toks).Parsed?
    ensures Reads(g, read, toks, ParsePrefix(toks).tree, ParsePrefix(toks).rest) && g.Group?
    decreases |toks|, 0
  {
    var inner, more := ExprRespects(toks[1..], 0);
    g, read := Group(inner), [LParen] + more + [RParen];
    OneToken(LParen);
    OneToken(RParen);
    WithoutNewlinesAppend([LParen] + more, [RParen]);
    WithoutNewlinesAppend([LParen], more);
    GroupTokens(toks, more, ParseExpr(toks[1..], 0).rest);
  }

  lemma GroupTokens(toks: seq<Token>, inner: seq<Token>, rest: seq<Token>)
    requires toks != [] && toks[0].LParen? && toks[1..] == inner + rest && rest != [] && rest[0].RParen?
    ensures toks == ([LParen] + inner + [RParen]) + rest[1..]
  {
    assert rest == [RParen] + rest[1..];
    ConcatOnce([LParen] + inner, [RParen], rest[1..]);
    ConcatOnce([LParen], inner, rest);
  }

  // ---- the parentheses printed are needed ---------------------------------

  /** A tree that respects precedence has the parentheses that are printed, and is longer unless it has no others. */
  lemma {:induction false} HasThoseNeeded(g: Tree, level: nat)
    requires Respects(g) && Level(g) >= level
    ensures
      var p := Wrap(Parenthesize(Erase(g)), level);
      |Yield(g)| >= |Yield(p)| && (|Yield(g)| == |Yield(p)| ==> g == p)
  {
    LevelStays(Erase(g));
    match g
    case Leaf(_) =>
    case Prefix(_, operand) => HasThoseNeeded(operand, PREFIX_LEVEL);
    case Binary(op, l, r) =>
      HasThoseNeeded(l, Binds(op));
      HasThoseNeeded(r, Binds(op) + 1);
    case Group(inner) => HasThoseNeeded(inner, 0);
  }

  lemma {:induction false} LevelStays(t: Tree)
    ensures !Parenthesize(t).Group? && (!t.Group? ==> Level(Parenthesize(t)) == Level(t))
  {
    match t
    case Group(inner) => LevelStays(inner);
    case _ =>
  }

  /** No text is shorter than the printed one that parse_expr reads as the tree, and no other is as short. */
  lemma PrintIsShortest(toks: seq<Token>, t: Tree)
    requires ParseExpr(toks, 0) == Parsed(t, [])
    ensures |toks| >= |Print(t)| && (|toks| == |Print(t)| ==> toks == Print(t))
  {
    var g, read := ExprRespects(toks, 0);
    ReadsAreNoShorter(g, read, toks, t);
  }

  lemma ReadsAreNoShorter(g: Tree, read: seq<Token>, toks: seq<Token>, t: Tree)
    requires Reads(g, read, toks, t, [])
    ensures |toks| >= |Print(t)| && (|toks| == |Print(t)| ==> toks == Print(t))
  {
    HasThoseNeeded(g, 0);
    assert read == toks;
  }

  // ---- the constant parser ------------------------------------------------

  /** The tree with the suffixes of its literals dropped. */
  function Strip(t: Tree): Tree {
    match t
    case Leaf(tok) => if tok.Int? then Leaf(Int(tok.value, "")) else t
    case Prefix(op, operand) => Prefix(op, Strip(operand))
    case Binary(op, l, r) => Binary(op, Strip(l), Strip(r))
    case Group(inner) => Group(Strip(inner))
  }

  /** The tree read, but for its literals' suffixes. */
  predicate ReadsConst(g: Tree, toks: seq<Token>, tree: Tree, rest: seq<Token>) {
    Respects(g) && NoAmbiguity(g) && Strip(g) == tree && toks == Yield(g) + rest
  }

  lemma BinaryTokens(left: Tree, toks: seq<Token>, right: Tree, rest: seq<Token>)
    requires toks != [] && toks[0].Op? && toks[1..] == Yield(right) + rest
    ensures Yield(left) + toks == Yield(Binary(toks[0].sym, left, right)) + rest
  {
    assert toks == [toks[0]] + (Yield(right) + rest);
  }

  lemma PrefixTokens(toks: seq<Token>, operand: Tree, rest: seq<Token>)
    requires toks != [] && toks[0].Op? && toks[1..] == Yield(operand) + rest
    ensures toks == Yield(Prefix(toks[0].sym, operand)) + rest
  {
    assert toks == [toks[0]] + (Yield(operand) + rest);
  }

  lemma GroupedTokens(toks: seq<Token>, inner: Tree, rest: seq<Token>)
    requires toks != [] && toks[0].LParen? && toks[1..] == Yield(inner) + rest && rest != [] && rest[0].RParen?
    ensures toks == Yield(Group(inner)) + rest[1..]
  {
    assert toks == [LParen] + (Yield(inner) + rest) && rest == [RParen] + rest[1..];
  }

  lemma {:induction false} ConstRespects(toks: seq<Token>, min: nat) returns (g: Tree)
    requires ParseConst(toks, min).Parsed?
    ensures
      var r := ParseConst(toks, min);
      ReadsConst(g, toks, r.tree, r.rest) && ConstBindsAt(r.rest) < min as int &&
        (min <= PREFIX_LEVEL ==> Level(g) >= min)
    decreases |toks|, 2
  {
    var left := ConstPrimaryRespects(toks);
    g := ConstInfixRespects(left, ParseConstPrimary(toks).rest, min);
  }

  lemma {:induction false} ConstInfixRespects(left: Tree, toks: seq<Token>, min: nat) returns (g: Tree)
    requires Respects(left) && NoAmbiguity(left) && ConstBindsAt(toks) <= Level(left) &&
      (min <= PREFIX_LEVEL ==> Level(left) >= min)
    requires ParseConstInfix(Strip(left), toks, min).Parsed?
    ensures
      var r := ParseConstInfix(Strip(left), toks, min);
      ReadsConst(g, Yield(left) + toks, r.tree, r.rest) && ConstBindsAt(r.rest) < min as int &&
        (min <= PREFIX_LEVEL ==> Level(g) >= min)
    decreases |toks|, 3
  {
    var prec := ConstBindsAt(toks);
    if prec < min as int {
      g := left;
    } else {
      var r := ParseConst(toks[1..], (prec + 1) as nat);
      var right := ConstRespects(toks[1..], (prec + 1) as nat);
      var both := Binary(toks[0].sym, left, right);
      BinaryTokens(left, toks, right, r.rest);
      g := ConstInfixRespects(both, r.rest, min);
    }
  }

  lemma {:induction false} ConstPrimaryRespects(toks: seq<Token>) returns (g: Tree)
    requires ParseConstPrimary(toks).Parsed?
    ensures ReadsConst(g, toks, ParseConstPrimary(toks).tree, ParseConstPrimary(toks).rest) && Level(g) >= PREFIX_LEVEL
    decreases |toks|, 1
  {
    if toks[0].Op? {
      var operand := ConstPrimaryRespects(toks[1..]);
      g := Prefix(toks[0].sym, operand);
      PrefixTokens(toks, operand, ParseConstPrimary(toks).rest);
    } else if toks[0].LParen? {
      var r := ParseConst(toks[1..], 0);
      var inner := ConstRespects(toks[1..], 0);
      g := Group(inner);
      GroupedTokens(toks, inner, r.rest);
    } else {
      g := Leaf(toks[0]);
      assert toks == [toks[0]] + toks[1..];
    }
  }

  // ---- the constant parser finds the tree that respects precedence ---------

  /** A tree the constant parser reads: operators and prefixes it knows. */
  predicate IsConst(t: Tree) {
    match t
    case Leaf(_) => true
    case Prefix(op, operand) => (op.Minus? || op.Tilde?) && IsConst(operand)
    case Binary(op, l, r) => ConstBindsAt([Op(op)]) > 0 && IsConst(l) && IsConst(r)
    case Group(inner) => IsConst(inner)
  }

  lemma {:induction false} ConstReadsTree(t: Tree, min: nat, rest: seq<Token>)
    requires Respects(t) && IsConst(t) && Level(t) >= min && ConstBindsAt(rest) <= Level(t)
    ensures ParseConst(Yield(t) + rest, min) == ParseConstInfix(Strip(t), rest, min)
    decreases t, 1
  {
    if t.Binary? {
      var op, l, r := t.op, t.left, t.right;
      var tail := [Op(op)] + (Yield(r) + rest);
      assert Yield(t) + rest == Yield(l) + tail;
      ConstReadsTree(l, min, tail);
      assert tail[1..] == Yield(r) + rest && ConstBindsAt(tail) == Binds(op);
      ConstReadsTree(r, Binds(op) + 1, rest);
    } else {
      ConstReadsOperand(t, rest);
    }
  }

  lemma {:induction false} ConstReadsOperand(t: Tree, rest: seq<Token>)
    requires Respects(t) && IsConst(t) && !t.Binary?
    ensures ParseConstPrimary(Yield(t) + rest) == Parsed(Strip(t), rest)
    decreases t, 0
  {
    var toks := Yield(t) + rest;
    match t
    case Leaf(_) => assert toks[1..] == rest;
    case Prefix(op, operand) =>
      assert toks[1..] == Yield(operand) + rest;
      ConstReadsOperand(operand, rest);
    case Group(inner) =>
      var tail := [RParen] + rest;
      assert toks[1..] == Yield(inner) + tail;
      ConstReadsTree(inner, 0, tail);
      assert tail[1..] == rest;
  }

  /** The constant parser, on the tokens of a tree that respects precedence, gives that tree but for suffixes. */
  lemma ConstUndoesYield(t: Tree, min: nat, rest: seq<Token>)
    requires Respects(t) && IsConst(t) && Level(t) >= min && ConstBindsAt(rest) < min as int
    ensures ParseConst(Yield(t) + rest, min) == Parsed(Strip(t), rest)
  {
    ConstReadsTree(t, min, rest);
  }

  /** Constant expressions have the operators of the classes but for words, ranges and comparisons. */
  predicate InConstants(op: Sym, i: nat) {
    i < |CLASSES| && op in CLASSES[i] && op !in {Or, And, DotDot, DotDotEq} && op !in CLASSES[5] && op !in CLASSES[6]
  }

  predicate IsConstOperand(t: Tree) {
    Respects(t) && IsConst(t) && !t.Binary?
  }

  /** The constant parser groups by the same classes. */
  lemma ConstGroupsByClass(a: Tree, o1: Sym, i: nat, b: Tree, o2: Sym, j: nat, c: Tree, rest: seq<Token>)
    requires IsConstOperand(a) && IsConstOperand(b) && IsConstOperand(c)
    requires InConstants(o1, i) && InConstants(o2, j) && ConstBindsAt(rest) == -1
    ensures ParseConst(TwoTokens(a, o1, b, o2, c) + rest, 0) ==
      Parsed(TwoGrouped(Strip(a), o1, Strip(b), o2, Strip(c), j > i), rest)
  {
    ConstClassBinds(o1, i);
    ConstClassBinds(o2, j);
    ConstGroupsByLevel(a, o1, b, o2, c, j > i, rest);
  }

  lemma ConstClassBinds(op: Sym, i: nat)
    requires InConstants(op, i)
    ensures ConstBindsAt([Op(op)]) == Binds(op) == i + 1
  {
  }

  lemma ConstGroupsByLevel(a: Tree, o1: Sym, b: Tree, o2: Sym, c: Tree, second: bool, rest: seq<Token>)
    requires IsConstOperand(a) && IsConstOperand(b) && IsConstOperand(c)
    requires 0 < ConstBindsAt([Op(o1)]) < PREFIX_LEVEL && 0 < ConstBindsAt([Op(o2)]) < PREFIX_LEVEL
    requires ConstBindsAt(rest) == -1 && second == (ConstBindsAt([Op(o2)]) > ConstBindsAt([Op(o1)]))
    ensures ParseConst(TwoTokens(a, o1, b, o2, c) + rest, 0) ==
      Parsed(TwoGrouped(Strip(a), o1, Strip(b), o2, Strip(c), second), rest)
  {
    TwoYield(a, o1, b, o2, c, second);
    TwoAreConst(a, o1, b, o2, c, second);
    ConstUndoesYield(TwoGrouped(a, o1, b, o2, c, second), 0, rest);
  }

  lemma TwoAreConst(a: Tree, o1: Sym, b: Tree, o2: Sym, c: Tree, second: bool)
    requires IsConstOperand(a) && IsConstOperand(b) && IsConstOperand(c)
    requires 0 < ConstBindsAt([Op(o1)]) < PREFIX_LEVEL && 0 < ConstBindsAt([Op(o2)]) < PREFIX_LEVEL
    requires second == (ConstBindsAt([Op(o2)]) > ConstBindsAt([Op(o1)]))
    ensures
      var t := TwoGrouped(a, o1, b, o2, c, second);
      Respects(t) && IsConst(t) && Strip(t) == TwoGrouped(Strip(a), o1, Strip(b), o2, Strip(c), second)
  {
  }

  predicate NoSuffixes(toks: seq<Token>) {
    forall tok :: tok in toks && tok.Int? ==> tok.suffix == ""
  }

  lemma {:induction false} StripKeepsExactly(g: Tree)
    requires Respects(g)
    ensures Erase(Strip(g)) == Erase(g) <==> NoSuffixes(Yield(g))
  {
    match g
    case Leaf(tok) => assert tok in Yield(g);
    case Prefix(op, operand) =>
      StripKeepsExactly(operand);
      NoSuffixesIn([Op(op)], Yield(operand));
    case Binary(op, l, r) =>
      StripKeepsExactly(l);
      StripKeepsExactly(r);
      NoSuffixesIn(Yield(l), [Op(op)]);
      NoSuffixesIn(Yield(l) + [Op(op)], Yield(r));
    case Group(inner) =>
      StripKeepsExactly(inner);
      NoSuffixesIn([LParen], Yield(inner));
      NoSuffixesIn([LParen] + Yield(inner), [RParen]);
  }

  lemma NoSuffixesIn(a: seq<Token>, b: seq<Token>)
    ensures NoSuffixes(a + b) <==> NoSuffixes(a) && NoSuffixes(b)
  {
    assert forall tok :: tok in a + b <==> tok in a || tok in b;
  }

  /** Where the constant parser stops before something that does not carry the expression on (`]`, say),
      parse_expr one level lower reads the same tokens; and the trees are the same but for parentheses
      if and only if no literal read has a type suffix. */
  lemma ClimbersAgree(toks: seq<Token>, m: nat)
    requires m < PREFIX_LEVEL && ParseConst(toks, m + 1).Parsed? && Stops(ParseConst(toks, m + 1).rest, m)
    ensures
      var c, e := ParseConst(toks, m + 1), ParseExpr(toks, m);
      && e.Parsed? && e.rest == c.rest
      && (Erase(c.tree) == e.tree <==> NoSuffixes(toks[..|toks| - |c.rest|]))
  {
    var c := ParseConst(toks, m + 1);
    var g := ConstRespects(toks, m + 1);
    ParseUndoesYield(g, m, c.rest);
    assert toks[..|toks| - |c.rest|] == Yield(g);
    StripKeepsExactly(g);
  }

  /** Every operator of constant expressions binds at 1 at least, so starting at 0 is starting at 1. */
  lemma ConstStartsAtOne(toks: seq<Token>)
    ensures ParseConst(toks, 0) == ParseConst(toks, 1)
  {
    var l := ParseConstPrimary(toks);
    if l.Parsed? {
      ConstInfixStartsAtOne(l.tree, l.rest);
    }
  }

  lemma {:induction false} ConstInfixStartsAtOne(left: Tree, toks: seq<Token>)
    ensures ParseConstInfix(left, toks, 0) == ParseConstInfix(left, toks, 1)
    decreases |toks|
  {
    var prec := ConstBindsAt(toks);
    if prec >= 1 {
      var r := ParseConst(toks[1..], (prec + 1) as nat);
      if r.Parsed? {
        ConstInfixStartsAtOne(Binary(toks[0].sym, left, r.tree), r.rest);
      }
    }
  }

  /** In particular where the compiler enters them, the constant parser at 0 and parse_expr at 0. */
  lemma EntriesAgree(toks: seq<Token>)
    requires ParseConst(toks, 0).Parsed? && Stops(ParseConst(toks, 0).rest, 0)
    ensures
      var c, e := ParseConst(toks, 0), ParseExpr(toks, 0);
      && e.Parsed? && e.rest == c.rest
      && (Erase(c.tree) == e.tree <==> NoSuffixes(toks[..|toks| - |c.rest|]))
  {
    ConstStartsAtOne(toks);
    ClimbersAgree(toks, 0);
  }
}
