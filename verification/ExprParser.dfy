/** The parser object: a position in a token list that expressions are read from, and that
    speculation may split tokens of and put back. */
module ExprParser {
  import opened Precedence

  /** What a parsing method comes back with. */
  datatype Outcome = Got(tree: Tree) | Refused | Elsewhere

  /** The parser's state, as a value. */
  datatype ParserState = ParserState(tokens: seq<Token>, pos: nat, splits: seq<(nat, Token)>)

  // ---- splitting closing angle brackets -----------------------------------

  /** What is left of a token that begins with `>` once that is split off. */
  function AfterGt(tok: Token): seq<Token> {
    if tok == Op(Shr) then [Op(Gt)] else if tok == Op(Geq) then [Punct("=")] else []
  }

  predicate Splittable(s: ParserState) {
    s.pos < |s.tokens| && AfterGt(s.tokens[s.pos]) != []
  }

  function Split(s: ParserState): ParserState {
    if !Splittable(s) then s
    else
      var tok := s.tokens[s.pos];
      s.(tokens := s.tokens[..s.pos] + [Op(Gt)] + AfterGt(tok) + s.tokens[s.pos + 1..],
        splits := s.splits + [(s.pos, tok)])
  }

  function Advance(s: ParserState): ParserState {
    if s.pos < |s.tokens| then s.(pos := s.pos + 1) else s
  }

  /** Puts the last split's token back. */
  function Unsplit(tokens: seq<Token>, split: (nat, Token)): seq<Token> {
    if split.0 + 2 <= |tokens| then tokens[..split.0] + [split.1] + tokens[split.0 + 2..] else tokens
  }

  /** The tokens once every split after the first `depth` is undone, the last first. */
  function Undo(tokens: seq<Token>, splits: seq<(nat, Token)>, depth: nat): seq<Token>
    decreases |splits|
  {
    if |splits| <= depth then tokens
    else Undo(Unsplit(tokens, splits[|splits| - 1]), splits[..|splits| - 1], depth)
  }

  datatype Mark = Mark(pos: nat, depth: nat)

  function MarkOf(s: ParserState): Mark {
    Mark(s.pos, |s.splits|)
  }

  function Reset(s: ParserState, m: Mark): ParserState {
    if |s.splits| <= m.depth then s.(pos := m.pos)
    else ParserState(Undo(s.tokens, s.splits, m.depth), m.pos, s.splits[..m.depth])
  }

  /** What parsing does to the state: steps, and speculation that marks, acts and resets. */
  datatype Act = Step | SplitHere | Speculate(acts: seq<Act>)

  function Perform(s: ParserState, acts: seq<Act>): ParserState
    decreases acts
  {
    if acts == [] then s
    else
      var s' := match acts[0]
        case Step => Advance(s)
        case SplitHere => Split(s)
        case Speculate(inner) => Reset(Perform(s, inner), MarkOf(s));
      Perform(s', acts[1..])
  }

  /** `t` was reached from `s` by acts that can all be undone. */
  ghost predicate Undoable(s: ParserState, t: ParserState) {
    s.splits <= t.splits && Undo(t.tokens, t.splits, |s.splits|) == s.tokens
  }

  lemma SplitIsUndoable(s: ParserState, t: ParserState)
    requires Undoable(s, t)
    ensures Undoable(s, Split(t))
  {
    if Splittable(t) {
      var u := Split(t);
      var tok := t.tokens[t.pos];
      assert u.splits[..|u.splits| - 1] == t.splits;
      assert |AfterGt(tok)| == 1;
      assert u.tokens[..t.pos] == t.tokens[..t.pos] && u.tokens[t.pos + 2..] == t.tokens[t.pos + 1..];
      assert Unsplit(u.tokens, (t.pos, tok)) == t.tokens;
    }
  }

  /** Backtracking is exact: whatever was done since the mark, nested speculation and splits
      included, resetting gives back the tokens, the position and the undo log there were. */
  lemma {:induction false} ResetRestores(s: ParserState, acts: seq<Act>)
    ensures Undoable(s, Perform(s, acts)) && Reset(Perform(s, acts), MarkOf(s)) == s
  {
    PerformIsUndoable(s, s, acts);
    var t := Perform(s, acts);
    assert t.splits[..|s.splits|] == s.splits;
  }

  lemma {:induction false} PerformIsUndoable(s: ParserState, t: ParserState, acts: seq<Act>)
    requires Undoable(s, t)
    ensures Undoable(s, Perform(t, acts))
    decreases acts, 0
  {
    if acts != [] {
      match acts[0] {
        case Step => PerformIsUndoable(s, Advance(t), acts[1..]);
        case SplitHere =>
          SplitIsUndoable(s, t);
          PerformIsUndoable(s, Split(t), acts[1..]);
        case Speculate(inner) =>
          SpeculationChangesNothing(t, inner);
          PerformIsUndoable(s, t, acts[1..]);
      }
    }
  }

  /** A speculation that fails leaves the parser as it was. */
  lemma {:induction false} SpeculationChangesNothing(s: ParserState, inner: seq<Act>)
    ensures Reset(Perform(s, inner), MarkOf(s)) == s
    decreases inner, 1
  {
    PerformIsUndoable(s, s, inner);
    var t := Perform(s, inner);
    assert t.splits[..|s.splits|] == s.splits;
  }

  /** The text of a token, where `other` gives that of the tokens splitting is not about. */
  function TokenText(tok: Token, other: Token -> string): string {
    if tok == Op(Shr) then ">>" else if tok == Op(Geq) then ">=" else if tok == Op(Gt) then ">"
    else if tok == Punct("=") then "=" else other(tok)
  }

  function Text(toks: seq<Token>, other: Token -> string): string {
    if toks == [] then "" else TokenText(toks[0], other) + Text(toks[1..], other)
  }

  lemma {:induction false} TextAppend(a: seq<Token>, b: seq<Token>, other: Token -> string)
    ensures Text(a + b, other) == Text(a, other) + Text(b, other)
  {
    if a == [] {
      assert a + b == b;
    } else {
      assert (a + b)[0] == a[0] && (a + b)[1..] == a[1..] + b;
      TextAppend(a[1..], b, other);
      assert TokenText(a[0], other) + (Text(a[1..], other) + Text(b, other)) ==
        (TokenText(a[0], other) + Text(a[1..], other)) + Text(b, other);
    }
  }

  lemma SplitTokenKeepsText(tok: Token, other: Token -> string)
    requires AfterGt(tok) != []
    ensures Text([tok], other) == Text([Op(Gt)] + AfterGt(tok), other)
  {
    var parts := [Op(Gt)] + AfterGt(tok);
    assert [tok][1..] == [] && parts[1..] == AfterGt(tok) && AfterGt(tok)[1..] == [];
  }

  /** Splitting a token keeps the text of the whole. */
  lemma SplitKeepsText(s: ParserState, other: Token -> string)
    ensures Text(Split(s).tokens, other) == Text(s.tokens, other)
  {
    if Splittable(s) {
      var before, tok, after := s.tokens[..s.pos], s.tokens[s.pos], s.tokens[s.pos + 1..];
      var parts := [Op(Gt)] + AfterGt(tok);
      SplitTokenKeepsText(tok, other);
      assert s.tokens == (before + [tok]) + after;
      assert Split(s).tokens == (before + parts) + after;
      TextAppend(before + [tok], after, other);
      TextAppend(before, [tok], other);
      TextAppend(before + parts, after, other);
      TextAppend(before, parts, other);
    }
  }

  // ---- the object ---------------------------------------------------------

  class Parser {
    var tokens: seq<Token>
    var pos: nat
    var splits: seq<(nat, Token)>

    constructor (toks: seq<Token>)
      ensures State() == ParserState(toks, 0, [])
    {
      tokens, pos, splits := toks, 0, [];
    }

    function State(): ParserState
      reads this
    {
      ParserState(tokens, pos, splits)
    }

    predicate Valid()
      reads this
    {
      pos <= |tokens|
    }

    function Rest(): seq<Token>
      requires Valid()
      reads this
    {
      tokens[pos..]
    }

    /** The method did what the parsing function says, from the given tokens. */
    ghost predicate Did(p: Parse, o: Outcome)
      requires Valid()
      reads this
    {
      match p
      case Parsed(tree, rest) => o == Got(tree) && Rest() == rest
      case Error => o == Refused
      case Outside => o == Elsewhere
    }

    method Take()
      requires Valid()
      modifies this`pos
      ensures Valid() && State() == Advance(old(State()))
      ensures old(Rest()) != [] ==> Rest() == old(Rest())[1..]
    {
      if pos < |tokens| {
        pos := pos + 1;
      }
    }

    method TakeNewlines()
      requires Valid()
      modifies this`pos
      ensures Valid() && Rest() == SkipNewlines(old(Rest()))
    {
      while pos < |tokens| && tokens[pos].Newline?
        invariant Valid() && SkipNewlines(Rest()) == SkipNewlines(old(Rest()))
      {
        pos := pos + 1;
      }
    }

    method Expr(min: nat) returns (o: Outcome)
      requires Valid()
      modifies this`pos
      ensures Valid() && Did(ParseExpr(old(Rest()), min), o)
      decreases |Rest()|, 2
    {
      ghost var start := Rest();
      o := PrefixExpr();
      if !o.Got? {
        return;
      }
      var left := o.tree;
      while true
        invariant Valid() && |Rest()| < |start|
        invariant ParseInfix(left, Rest(), min) == ParseExpr(start, min)
        decreases |Rest()|
      {
        if pos < |tokens| && tokens[pos] == Punct("as") {
          return Elsewhere;
        }
        var prec := if pos < |tokens| && tokens[pos].Op? then Binds(tokens[pos].sym) else 0;
        assert prec == BindsAt(Rest());
        if prec <= min {
          return Got(left);
        }
        var op := tokens[pos].sym;
        ghost var here := Rest();
        Take();
        TakeNewlines();
        o := Expr(prec);
        if !o.Got? {
          return;
        }
        left := Binary(op, left, o.tree);
      }
    }

    method PrefixExpr() returns (o: Outcome)
      requires Valid()
      modifies this`pos
      ensures Valid() && Did(ParsePrefix(old(Rest())), o)
      decreases |Rest()|, 1
    {
      if pos < |tokens| && tokens[pos].Op? && IsPrefix(tokens[pos].sym) {
        var op := tokens[pos].sym;
        Take();
        o := PrefixExpr();
        if o.Got? {
          o := Got(Prefix(op, o.tree));
        }
      } else {
        o := PostfixExpr();
      }
    }

    method PostfixExpr() returns (o: Outcome)
      requires Valid()
      modifies this`pos
      ensures Valid() && Did(ParsePostfix(old(Rest())), o)
      decreases |Rest()|, 0
    {
      if pos == |tokens| {
        return Refused;
      }
      var tok := tokens[pos];
      match tok
      case Int(_, _) =>
        Take();
        return if Continues(Rest()) then Elsewhere else Got(Leaf(tok));
      case Ident(_) =>
        Take();
        return if Continues(Rest()) || ContinuesName(Rest()) then Elsewhere else Got(Leaf(tok));
      case LParen =>
        Take();
        if pos < |tokens| && tokens[pos].RParen? {
          return Elsewhere;
        }
        o := Expr(0);
        if o.Got? {
          if pos < |tokens| && tokens[pos].RParen? {
            Take();
            return if Continues(Rest()) then Elsewhere else o;
          }
          return if AtPunct(Rest(), 0, {","}) then Elsewhere else Refused;
        }
      case Punct(_) => return Elsewhere;
      case Op(s) => return if s.Bar? then Elsewhere else Refused;
      case RParen => return Refused;
      case Newline => return Refused;
    }

    method ConstExpr(min: nat) returns (o: Outcome)
      requires Valid()
      modifies this`pos
      ensures Valid() && Did(ParseConst(old(Rest()), min), o)
      decreases |Rest()|, 2
    {
      ghost var start := Rest();
      o := ConstPrimary();
      if !o.Got? {
        return;
      }
      var left := o.tree;
      while true
        invariant Valid() && |Rest()| < |start|
        invariant ParseConstInfix(left, Rest(), min) == ParseConst(start, min)
        decreases |Rest()|
      {
        var prec := ConstBindsAt(Rest());
        if prec < min as int {
          return Got(left);
        }
        var op := tokens[pos].sym;
        Take();
        o := ConstExpr((prec + 1) as nat);
        if !o.Got? {
          return;
        }
        left := Binary(op, left, o.tree);
      }
    }

    method ConstPrimary() returns (o: Outcome)
      requires Valid()
      modifies this`pos
      ensures Valid() && Did(ParseConstPrimary(old(Rest())), o)
      decreases |Rest()|, 1
    {
      if pos == |tokens| {
        return Refused;
      }
      match tokens[pos]
      case Int(value, _) =>
        Take();
        return Got(Leaf(Int(value, "")));
      case Ident(name) =>
        Take();
        return Got(Leaf(Ident(name)));
      case LParen =>
        Take();
        o := ConstExpr(0);
        if o.Got? {
          if pos < |tokens| && tokens[pos].RParen? {
            Take();
            return Got(Group(o.tree));
          }
          return Refused;
        }
      case Op(s) =>
        if !s.Minus? && !s.Tilde? {
          return Refused;
        }
        Take();
        o := ConstPrimary();
        if o.Got? {
          o := Got(Prefix(s, o.tree));
        }
      case _ => return Refused;
    }

    /** Splits a leading `>` off the current token, if it has one and is not just that. */
    method SplitLeadingGt() returns (did: bool)
      requires Valid()
      modifies this`tokens, this`splits
      ensures Valid() && State() == Split(old(State())) && did == Splittable(old(State()))
    {
      if pos == |tokens| || AfterGt(tokens[pos]) == [] {
        return false;
      }
      var tok := tokens[pos];
      splits := splits + [(pos, tok)];
      tokens := tokens[..pos] + [Op(Gt)] + AfterGt(tok) + tokens[pos + 1..];
      return true;
    }

    method ResetTo(m: Mark)
      modifies this
      ensures State() == Reset(old(State()), m)
    {
      while |splits| > m.depth
        invariant pos == old(pos) && (|old(splits)| <= m.depth ==> splits == old(splits))
        invariant |old(splits)| > m.depth ==> m.depth <= |splits| <= |old(splits)| && splits == old(splits)[..|splits|]
        invariant Undo(tokens, splits, m.depth) == Undo(old(tokens), old(splits), m.depth)
      {
        tokens := Unsplit(tokens, splits[|splits| - 1]);
        splits := splits[..|splits| - 1];
      }
      pos := m.pos;
    }
  }
}
