/** Indentation: the tokens the lexer makes of it, line by line, and the blocks they delimit. */
module Indentation {
  import opened Basics

  /** What a line holds after its leading blanks; a line of code has at least one word. */
  datatype Body = Blank | Comment | Tabbed | Code(words: nat)

  datatype Line = Line(indent: nat, body: Body)

  type Lines = ls: seq<Line> | ls != [] && forall l :: l in ls && l.body.Code? ==> l.body.words > 0
    witness [Line(0, Blank)]

  datatype Token = Indent(line: nat) | Dedent(line: nat) | Newline(line: nat) | Word(line: nat, index: nat) | Eof

  // ---- one line -----------------------------------------------------------

  /** A stack of indentation widths, from 0 up. */
  predicate IsStack(stack: seq<nat>) {
    stack != [] && stack[0] == 0 && forall i, j :: 0 <= i < j < |stack| ==> stack[i] < stack[j]
  }

  function Top(stack: seq<nat>): nat
    requires stack != []
  {
    stack[|stack| - 1]
  }

  /** The stack without the levels deeper than the line. */
  function Popped(stack: seq<nat>, indent: nat): (r: seq<nat>)
    requires IsStack(stack)
    ensures IsStack(r) && |r| <= |stack| && Top(r) <= indent
  {
    if Top(stack) <= indent then stack else Popped(stack[..|stack| - 1], indent)
  }

  lemma {:induction false} PoppedLevels(stack: seq<nat>, indent: nat)
    requires IsStack(stack)
    ensures Popped(stack, indent) == stack[..|Popped(stack, indent)|]
    ensures forall i :: |Popped(stack, indent)| <= i < |stack| ==> stack[i] > indent
    decreases |stack|
  {
    if Top(stack) > indent {
      PoppedLevels(stack[..|stack| - 1], indent);
    }
  }

  function Dedents(n: nat, count: nat): (ts: seq<Token>)
    ensures |ts| == count && forall k :: 0 <= k < count ==> ts[k] == Dedent(n)
  {
    seq(count, _ => Dedent(n))
  }

  lemma MoreDedents(n: nat, count: nat)
    ensures Dedents(n, count) + [Dedent(n)] == Dedents(n, count + 1)
  {
  }

  lemma PopOnce(stack: seq<nat>, indent: nat)
    requires IsStack(stack) && Top(stack) > indent
    ensures IsStack(stack[..|stack| - 1]) && Popped(stack, indent) == Popped(stack[..|stack| - 1], indent)
  {
  }

  datatype Indented = Indented(tokens: seq<Token>, stack: seq<nat>)

  /** The tokens of a line's indentation; none if it starts with a tab or fits no outer level. */
  function HandleIndentation(stack: seq<nat>, n: nat, l: Line): (r: Option<Indented>)
    requires IsStack(stack)
    ensures r.Some? ==> IsStack(r.value.stack)
  {
    match l.body
    case Tabbed => None
    case Blank => Some(Indented([], stack))
    case Comment => Some(Indented([], stack))
    case Code(_) =>
      if l.indent > Top(stack) then Some(Indented([Indent(n)], stack + [l.indent]))
      else
        var stack' := Popped(stack, l.indent);
        if Top(stack') != l.indent then None else Some(Indented(Dedents(n, |stack| - |stack'|), stack'))
  }

  function WordsLeft(l: Line, k: nat): nat {
    if l.body.Code? && k < l.body.words then l.body.words - k else 0
  }

  function WordsFrom(n: nat, l: Line, k: nat): (ts: seq<Token>)
    ensures forall t :: t in ts ==> t.Word? && t.line == n
    decreases WordsLeft(l, k)
  {
    if WordsLeft(l, k) > 0 then [Word(n, k)] + WordsFrom(n, l, k + 1) else []
  }

  // ---- the whole source ---------------------------------------------------

  function Prepend(ts: seq<Token>, rest: Option<seq<Token>>): Option<seq<Token>> {
    if rest.None? then None else Some(ts + rest.value)
  }

  lemma PrependTwice(ts: seq<Token>, us: seq<Token>, rest: Option<seq<Token>>)
    ensures Prepend(ts, Prepend(us, rest)) == Prepend(ts + us, rest)
    ensures Prepend([], rest) == rest
  {
    if rest.Some? {
      assert ts + (us + rest.value) == ts + us + rest.value && [] + rest.value == rest.value;
    }
  }

  /** The tokens from the start of line n on; none on a lexical error. */
  function Lex(lines: Lines, n: nat, stack: seq<nat>): Option<seq<Token>>
    requires n < |lines| && IsStack(stack)
    decreases |lines| - n, 1
  {
    match HandleIndentation(stack, n, lines[n])
    case None => None
    case Some(i) => Prepend(i.tokens + WordsFrom(n, lines[n], 0), LineEnd(lines, n, i.stack))
  }

  /** From the end of line n on. */
  function LineEnd(lines: Lines, n: nat, stack: seq<nat>): Option<seq<Token>>
    requires n < |lines| && IsStack(stack)
    decreases |lines| - n, 0
  {
    if n + 1 < |lines| then Prepend([Newline(n)], Lex(lines, n + 1, stack))
    else Some(Dedents(n, |stack| - 1) + [Eof])
  }

  function Tokens(lines: Lines): Option<seq<Token>> {
    Lex(lines, 0, [0])
  }

  // ---- which sources lex --------------------------------------------------

  predicate IsCode(lines: Lines, k: nat) {
    k < |lines| && lines[k].body.Code?
  }

  /** Every line of code from one line up to another is at least so deep. */
  predicate StayWithin(lines: Lines, from: nat, to: nat, width: nat) {
    forall j :: from <= j < to && IsCode(lines, j) ==> lines[j].indent >= width
  }

  /** The width is a level still open where line n starts: the margin, or that of a line of code after which nothing
      was shallower. */
  ghost predicate OpenAt(lines: Lines, n: nat, width: nat) {
    width == 0 || exists k: nat :: OpenedBy(lines, n, width, k)
  }

  predicate OpenedBy(lines: Lines, n: nat, width: nat, k: nat) {
    k < n && IsCode(lines, k) && lines[k].indent == width && StayWithin(lines, k, n, width)
  }

  /** Line k is the last line of code before line n. */
  predicate LastCode(lines: Lines, n: nat, k: nat) {
    k < n && IsCode(lines, k) && forall j :: k < j < n ==> !IsCode(lines, j)
  }

  /** The line starts with a tab, or is code shallower than the code before it at a width no open level has. */
  ghost predicate Misindented(lines: Lines, n: nat) {
    n < |lines| &&
    (|| lines[n].body.Tabbed?
     || (&& IsCode(lines, n) && !OpenAt(lines, n, lines[n].indent)
         && exists k: nat :: LastCode(lines, n, k) && lines[n].indent < lines[k].indent))
  }

  /** The stack holds the levels open where line n starts. */
  ghost predicate HoldsLevels(lines: Lines, n: nat, stack: seq<nat>) {
    IsStack(stack) && forall width :: width in stack <==> OpenAt(lines, n, width)
  }

  lemma {:induction false} LastCodeExists(lines: Lines, n: nat, m: nat)
    requires m < n && IsCode(lines, m)
    ensures exists k: nat :: m <= k && LastCode(lines, n, k)
    decreases n - m
  {
    if j :| m < j < n && IsCode(lines, j) {
      LastCodeExists(lines, n, j);
    } else {
      assert LastCode(lines, n, m);
    }
  }

  /** The deepest level open is that of the last line of code. */
  lemma TopIsLastCode(lines: Lines, n: nat, stack: seq<nat>, k: nat)
    requires HoldsLevels(lines, n, stack) && LastCode(lines, n, k)
    ensures Top(stack) == lines[k].indent
  {
    assert OpenedBy(lines, n, lines[k].indent, k);
    assert OpenAt(lines, n, lines[k].indent);
    var top := Top(stack);
    assert top in stack;
    if top != 0 {
      var j: nat :| OpenedBy(lines, n, top, j);
      assert j <= k;
    }
  }

  lemma TopWithoutCode(lines: Lines, n: nat, stack: seq<nat>)
    requires HoldsLevels(lines, n, stack) && Top(stack) != 0
    ensures exists k: nat :: LastCode(lines, n, k)
  {
    assert Top(stack) in stack;
    var j: nat :| OpenedBy(lines, n, Top(stack), j);
    LastCodeExists(lines, n, j);
  }

  lemma LevelsAfterCode(lines: Lines, n: nat, width: nat)
    requires IsCode(lines, n)
    ensures OpenAt(lines, n + 1, width) <==>
      width == lines[n].indent || (OpenAt(lines, n, width) && width <= lines[n].indent)
  {
    if OpenAt(lines, n + 1, width) && width != 0 {
      var k: nat :| OpenedBy(lines, n + 1, width, k);
      assert IsCode(lines, n) && k <= n;
      if k < n {
        assert OpenedBy(lines, n, width, k);
      }
    }
    if width == lines[n].indent {
      assert OpenedBy(lines, n + 1, width, n);
    } else if width != 0 && OpenAt(lines, n, width) && width <= lines[n].indent {
      var k: nat :| OpenedBy(lines, n, width, k);
      assert OpenedBy(lines, n + 1, width, k);
    }
  }

  lemma LevelsAfterNone(lines: Lines, n: nat, width: nat)
    requires !IsCode(lines, n)
    ensures OpenAt(lines, n + 1, width) <==> OpenAt(lines, n, width)
  {
    if width != 0 && OpenAt(lines, n + 1, width) {
      var k: nat :| OpenedBy(lines, n + 1, width, k);
      assert OpenedBy(lines, n, width, k);
    }
    if width != 0 && OpenAt(lines, n, width) {
      var k: nat :| OpenedBy(lines, n, width, k);
      assert OpenedBy(lines, n + 1, width, k);
    }
  }

  lemma PoppedHolds(stack: seq<nat>, indent: nat, width: nat)
    requires IsStack(stack)
    ensures width in Popped(stack, indent) <==> width in stack && width <= indent
  {
    PoppedLevels(stack, indent);
    var r := Popped(stack, indent);
    if width in stack && width <= indent {
      var i :| 0 <= i < |stack| && stack[i] == width;
      assert r[i] == width;
    }
  }

  lemma LineFitsExactly(lines: Lines, n: nat, stack: seq<nat>)
    requires n < |lines| && HoldsLevels(lines, n, stack)
    ensures HandleIndentation(stack, n, lines[n]).Some? <==> !Misindented(lines, n)
  {
    if IsCode(lines, n) && lines[n].indent <= Top(stack) {
      var d := lines[n].indent;
      PoppedHolds(stack, d, d);
      assert Top(Popped(stack, d)) in Popped(stack, d);
      assert d in stack <==> Top(Popped(stack, d)) == d;
      if d !in stack {
        assert Top(stack) in stack;
        TopWithoutCode(lines, n, stack);
        var k: nat :| LastCode(lines, n, k);
        TopIsLastCode(lines, n, stack, k);
      }
    } else if IsCode(lines, n) {
      forall k: nat | LastCode(lines, n, k) ensures lines[n].indent > lines[k].indent {
        TopIsLastCode(lines, n, stack, k);
      }
    }
  }

  lemma LineKeepsLevels(lines: Lines, n: nat, stack: seq<nat>)
    requires n < |lines| && HoldsLevels(lines, n, stack) && HandleIndentation(stack, n, lines[n]).Some?
    ensures HoldsLevels(lines, n + 1, HandleIndentation(stack, n, lines[n]).value.stack)
  {
    var stack' := HandleIndentation(stack, n, lines[n]).value.stack;
    forall width ensures width in stack' <==> OpenAt(lines, n + 1, width) {
      if IsCode(lines, n) {
        LevelsAfterCode(lines, n, width);
        PoppedHolds(stack, lines[n].indent, width);
        PoppedHolds(stack, lines[n].indent, lines[n].indent);
      } else {
        LevelsAfterNone(lines, n, width);
      }
    }
  }

  lemma {:induction false} LexesExactlyFrom(lines: Lines, n: nat, stack: seq<nat>)
    requires n < |lines| && HoldsLevels(lines, n, stack)
    ensures Lex(lines, n, stack).Some? <==> forall m :: n <= m < |lines| ==> !Misindented(lines, m)
    decreases |lines| - n
  {
    LineFitsExactly(lines, n, stack);
    if !Misindented(lines, n) && n + 1 < |lines| {
      LineKeepsLevels(lines, n, stack);
      LexesExactlyFrom(lines, n + 1, HandleIndentation(stack, n, lines[n]).value.stack);
    }
  }

  /** A source has tokens if and only if no line of it is misindented. */
  lemma LexesExactly(lines: Lines)
    ensures Tokens(lines).Some? <==> forall n :: 0 <= n < |lines| ==> !Misindented(lines, n)
  {
    LexesExactlyFrom(lines, 0, [0]);
  }

  // ---- the lexer ----------------------------------------------------------

  /** What is to come in a line whose indentation has been handled. */
  function InLine(lines: Lines, n: nat, pending: seq<Token>, word: nat, stack: seq<nat>): Option<seq<Token>>
    requires n < |lines| && IsStack(stack)
  {
    Prepend(pending + WordsFrom(n, lines[n], word), LineEnd(lines, n, stack))
  }

  lemma LineStarts(lines: Lines, n: nat, stack: seq<nat>)
    requires n < |lines| && IsStack(stack)
    ensures
      var i := HandleIndentation(stack, n, lines[n]);
      Lex(lines, n, stack) == if i.None? then None else InLine(lines, n, i.value.tokens, 0, i.value.stack)
  {
  }

  lemma LexedLine(lines: Lines, n: nat, stack: seq<nat>)
    requires n < |lines| && IsStack(stack) && Lex(lines, n, stack).Some?
    ensures
      var i := HandleIndentation(stack, n, lines[n]);
      i.Some? && LineEnd(lines, n, i.value.stack).Some? &&
      Lex(lines, n, stack).value ==
        (i.value.tokens + WordsFrom(n, lines[n], 0)) + LineEnd(lines, n, i.value.stack).value
  {
  }

  lemma PendingComes(lines: Lines, n: nat, pending: seq<Token>, word: nat, stack: seq<nat>)
    requires n < |lines| && IsStack(stack) && pending != []
    ensures InLine(lines, n, pending, word, stack) == Prepend([pending[0]], InLine(lines, n, pending[1..], word, stack))
  {
    var words := WordsFrom(n, lines[n], word);
    assert pending + words == [pending[0]] + (pending[1..] + words);
    PrependTwice([pending[0]], pending[1..] + words, LineEnd(lines, n, stack));
  }

  lemma WordComes(lines: Lines, n: nat, word: nat, stack: seq<nat>)
    requires n < |lines| && IsStack(stack) && WordsLeft(lines[n], word) > 0
    ensures InLine(lines, n, [], word, stack) == Prepend([Word(n, word)], InLine(lines, n, [], word + 1, stack))
  {
    var words := WordsFrom(n, lines[n], word + 1);
    assert [] + WordsFrom(n, lines[n], word) == [Word(n, word)] + ([] + words);
    PrependTwice([Word(n, word)], [] + words, LineEnd(lines, n, stack));
  }

  lemma NewlineComes(lines: Lines, n: nat, word: nat, stack: seq<nat>)
    requires n + 1 < |lines| && IsStack(stack) && WordsFrom(n, lines[n], word) == []
    ensures InLine(lines, n, [], word, stack) == Prepend([Newline(n)], Lex(lines, n + 1, stack))
  {
    assert [] + WordsFrom(n, lines[n], word) == [];
    PrependTwice([], [], LineEnd(lines, n, stack));
  }

  lemma DedentComes(lines: Lines, n: nat, word: nat, stack: seq<nat>)
    requires n + 1 == |lines| && IsStack(stack) && |stack| > 1 && WordsFrom(n, lines[n], word) == []
    ensures IsStack(stack[..|stack| - 1])
    ensures InLine(lines, n, [], word, stack) == Prepend([Dedent(n)], InLine(lines, n, [], word, stack[..|stack| - 1]))
  {
    var outer := stack[..|stack| - 1];
    assert [] + WordsFrom(n, lines[n], word) == [];
    PrependTwice([], [], LineEnd(lines, n, stack));
    PrependTwice([], [], LineEnd(lines, n, outer));
    assert Dedents(n, |stack| - 1) + [Eof] == [Dedent(n)] + (Dedents(n, |outer| - 1) + [Eof]);
  }

  lemma EofComes(lines: Lines, n: nat, word: nat, stack: seq<nat>)
    requires n + 1 == |lines| && IsStack(stack) && |stack| == 1 && WordsFrom(n, lines[n], word) == []
    ensures InLine(lines, n, [], word, stack) == Some([Eof])
  {
    assert [] + WordsFrom(n, lines[n], word) == [];
    assert Dedents(n, |stack| - 1) + [Eof] == [Eof];
  }

  /** Less in the first place where they differ. */
  predicate Less(a: (nat, nat, nat, nat, nat), b: (nat, nat, nat, nat, nat)) {
    if a.0 != b.0 then a.0 < b.0
    else if a.1 != b.1 then a.1 < b.1
    else if a.2 != b.2 then a.2 < b.2
    else if a.3 != b.3 then a.3 < b.3
    else a.4 < b.4
  }

  /** The lexer as the object it is, its position a line and a word in it. */
  class Lexer {
    const lines: Lines
    var line: nat
    var word: nat
    var indentStack: seq<nat>
    var pending: seq<Token>
    var atLineStart: bool

    ghost predicate Valid()
      reads this
    {
      line < |lines| && IsStack(indentStack) && Eof !in pending && (atLineStart ==> pending == [] && word == 0)
    }

    /** What is still to come. */
    ghost function Remaining(): Option<seq<Token>>
      requires Valid()
      reads this
    {
      if atLineStart then Lex(lines, line, indentStack)
      else InLine(lines, line, pending, word, indentStack)
    }

    constructor (source: Lines)
      ensures Valid() && lines == source && Remaining() == Tokens(source)
    {
      lines, line, word, indentStack, pending, atLineStart := source, 0, 0, [0], [], true;
    }

    /** What is left, in the order in which it is used up: the lines, the start of this one, the tokens
        pending, the words, the levels open. */
    ghost function Ahead(): (nat, nat, nat, nat, nat)
      requires Valid()
      reads this
    {
      (|lines| - line, if atLineStart then 1 else 0, |pending|, WordsLeft(lines[line], word), |indentStack|)
    }

    /** What was to come is the token and what is still to come; none was to come if there was an error. */
    ghost predicate Delivers(tok: Option<Token>, before: Option<seq<Token>>, ahead: (nat, nat, nat, nat, nat))
      requires Valid()
      reads this
    {
      match tok
      case None => before == None
      case Some(t) =>
        if t == Eof then before == Some([Eof]) else before == Prepend([t], Remaining()) && Less(Ahead(), ahead)
    }

    /** The next token, or none on a lexical error. Every token but Eof leaves less ahead. */
    method NextToken() returns (tok: Option<Token>)
      requires Valid()
      modifies this
      ensures Valid() && Delivers(tok, old(Remaining()), old(Ahead()))
    {
      if pending != [] {
        tok := NextPending();
        return;
      }
      if atLineStart {
        LineStarts(lines, line, indentStack);
        atLineStart := false;
        var ok := StartLine();
        if !ok {
          return None;
        }
        if pending != [] {
          tok := NextPending();
          return;
        }
      }
      tok := NextOfLine();
    }

    /** Opens or closes levels to fit the line; false on a lexical error. */
    method StartLine() returns (ok: bool)
      requires Valid() && !atLineStart && pending == []
      modifies this`indentStack, this`pending
      ensures ok == HandleIndentation(old(indentStack), line, lines[line]).Some? && Valid()
      ensures ok ==> Some(Indented(pending, indentStack)) == HandleIndentation(old(indentStack), line, lines[line])
    {
      var l := lines[line];
      if l.body.Tabbed? {
        return false;
      }
      if !l.body.Code? {
        return true;
      }
      if l.indent > Top(indentStack) {
        indentStack, pending := indentStack + [l.indent], [Indent(line)];
        return true;
      }
      CloseLevels(l.indent);
      ok := Top(indentStack) == l.indent;
    }

    /** Closes the levels deeper than the line, a DEDENT for each. */
    method CloseLevels(indent: nat)
      requires IsStack(indentStack) && pending == []
      modifies this`indentStack, this`pending
      ensures indentStack == Popped(old(indentStack), indent)
      ensures pending == Dedents(line, old(|indentStack|) - |indentStack|)
    {
      while Top(indentStack) > indent
        invariant IsStack(indentStack) && |indentStack| <= old(|indentStack|)
        invariant Popped(indentStack, indent) == Popped(old(indentStack), indent)
        invariant pending == Dedents(line, old(|indentStack|) - |indentStack|)
        decreases |indentStack|
      {
        PopOnce(indentStack, indent);
        MoreDedents(line, old(|indentStack|) - |indentStack|);
        indentStack, pending := indentStack[..|indentStack| - 1], pending + [Dedent(line)];
      }
    }

    method NextPending() returns (tok: Option<Token>)
      requires Valid() && !atLineStart && pending != []
      modifies this`pending
      ensures Valid() && Delivers(tok, old(Remaining()), old(Ahead()))
    {
      PendingComes(lines, line, pending, word, indentStack);
      tok := Some(pending[0]);
      pending := pending[1..];
    }

    method NextOfLine() returns (tok: Option<Token>)
      requires Valid() && !atLineStart && pending == []
      modifies this
      ensures Valid() && Delivers(tok, old(Remaining()), old(Ahead()))
    {
      if WordsLeft(lines[line], word) > 0 {
        tok := NextWord();
      } else if line + 1 < |lines| {
        tok := NextLine();
      } else {
        tok := NextAtEnd();
      }
    }

    method NextWord() returns (tok: Option<Token>)
      requires Valid() && !atLineStart && pending == [] && WordsLeft(lines[line], word) > 0
      modifies this`word
      ensures Valid() && Delivers(tok, old(Remaining()), old(Ahead()))
    {
      WordComes(lines, line, word, indentStack);
      tok := Some(Word(line, word));
      word := word + 1;
    }

    method NextLine() returns (tok: Option<Token>)
      requires Valid() && !atLineStart && pending == [] && WordsFrom(line, lines[line], word) == [] &&
        line + 1 < |lines|
      modifies this
      ensures Valid() && Delivers(tok, old(Remaining()), old(Ahead()))
    {
      NewlineComes(lines, line, word, indentStack);
      tok := Some(Newline(line));
      line, word, atLineStart := line + 1, 0, true;
    }

    method NextAtEnd() returns (tok: Option<Token>)
      requires Valid() && !atLineStart && pending == [] && WordsFrom(line, lines[line], word) == [] &&
        line + 1 == |lines|
      modifies this`indentStack
      ensures Valid() && Delivers(tok, old(Remaining()), old(Ahead()))
    {
      if |indentStack| > 1 {
        DedentComes(lines, line, word, indentStack);
        indentStack := indentStack[..|indentStack| - 1];
        return Some(Dedent(line));
      }
      EofComes(lines, line, word, indentStack);
      tok := Some(Eof);
    }

    /** All tokens up to Eof: it terminates on every source. */
    method Tokenize() returns (tokens: Option<seq<Token>>)
      requires Valid()
      modifies this
      ensures tokens == old(Remaining())
    {
      var ts: seq<Token> := [];
      PrependTwice([], [], Remaining());
      while true
        invariant Valid() && Prepend(ts, Remaining()) == old(Remaining())
        decreases Ahead().0, Ahead().1, Ahead().2, Ahead().3, Ahead().4
      {
        ghost var before := ts;
        var tok := NextToken();
        if tok.None? {
          return None;
        }
        ts := ts + [tok.value];
        PrependTwice(before, [tok.value], Remaining());
        if tok.value == Eof {
          return Some(ts);
        }
      }
    }
  }

  // ---- nesting ------------------------------------------------------------

  /** The depth after some tokens; none if a level is closed that was not opened. */
  function After(ts: seq<Token>, depth: nat): Option<nat> {
    if ts == [] then Some(depth)
    else if ts[0].Indent? then After(ts[1..], depth + 1)
    else if !ts[0].Dedent? then After(ts[1..], depth)
    else if depth == 0 then None
    else After(ts[1..], depth - 1)
  }

  lemma {:induction false} AfterBoth(a: seq<Token>, b: seq<Token>, depth: nat)
    ensures After(a + b, depth) == if After(a, depth).None? then None else After(b, After(a, depth).value)
    decreases |a|
  {
    if a == [] {
      assert a + b == b;
    } else {
      assert (a + b)[1..] == a[1..] + b;
      if a[0].Indent? {
        AfterBoth(a[1..], b, depth + 1);
      } else if !a[0].Dedent? {
        AfterBoth(a[1..], b, depth);
      } else if depth > 0 {
        AfterBoth(a[1..], b, depth - 1);
      }
    }
  }

  lemma {:induction false} AfterDedents(n: nat, count: nat, depth: nat)
    requires count <= depth
    ensures After(Dedents(n, count), depth) == Some(depth - count)
    decreases count
  {
    if count > 0 {
      assert Dedents(n, count)[1..] == Dedents(n, count - 1);
      AfterDedents(n, count - 1, depth - 1);
    }
  }

  lemma {:induction false} AfterLevel(ts: seq<Token>, depth: nat)
    requires forall t :: t in ts ==> !t.Indent? && !t.Dedent?
    ensures After(ts, depth) == Some(depth)
    decreases |ts|
  {
    if ts != [] {
      assert ts[0] in ts;
      AfterLevel(ts[1..], depth);
    }
  }

  /** A line's indentation moves the depth as it moves the stack. */
  lemma IndentationMoves(stack: seq<nat>, n: nat, l: Line)
    requires IsStack(stack) && HandleIndentation(stack, n, l).Some?
    ensures
      var i := HandleIndentation(stack, n, l).value;
      After(i.tokens, |stack| - 1) == Some(|i.stack| - 1)
  {
    if l.body.Code? && l.indent > Top(stack) {
      assert [Indent(n)][1..] == [];
    } else if l.body.Code? {
      AfterDedents(n, |stack| - |Popped(stack, l.indent)|, |stack| - 1);
    }
  }

  /** A line's tokens, before its end. */
  lemma LineMoves(stack: seq<nat>, n: nat, l: Line)
    requires IsStack(stack) && HandleIndentation(stack, n, l).Some?
    ensures
      var i := HandleIndentation(stack, n, l).value;
      After(i.tokens + WordsFrom(n, l, 0), |stack| - 1) == Some(|i.stack| - 1)
  {
    var i := HandleIndentation(stack, n, l).value;
    IndentationMoves(stack, n, l);
    AfterBoth(i.tokens, WordsFrom(n, l, 0), |stack| - 1);
    AfterLevel(WordsFrom(n, l, 0), |i.stack| - 1);
  }

  lemma {:induction false} LexBalances(lines: Lines, n: nat, stack: seq<nat>)
    requires n < |lines| && IsStack(stack) && Lex(lines, n, stack).Some?
    ensures After(Lex(lines, n, stack).value, |stack| - 1) == Some(0)
    decreases |lines| - n, 1
  {
    LexedLine(lines, n, stack);
    LineMoves(stack, n, lines[n]);
    var i := HandleIndentation(stack, n, lines[n]).value;
    var here, rest := i.tokens + WordsFrom(n, lines[n], 0), LineEnd(lines, n, i.stack).value;
    LineEndBalances(lines, n, i.stack);
    AfterBoth(here, rest, |stack| - 1);
  }

  lemma {:induction false} LineEndBalances(lines: Lines, n: nat, stack: seq<nat>)
    requires n < |lines| && IsStack(stack) && LineEnd(lines, n, stack).Some?
    ensures After(LineEnd(lines, n, stack).value, |stack| - 1) == Some(0)
    decreases |lines| - n, 0
  {
    if n + 1 < |lines| {
      var rest := Lex(lines, n + 1, stack).value;
      LexBalances(lines, n + 1, stack);
      AfterLevel([Newline(n)], |stack| - 1);
      AfterBoth([Newline(n)], rest, |stack| - 1);
    } else {
      AfterDedents(n, |stack| - 1, |stack| - 1);
      AfterLevel([Eof], 0);
      AfterBoth(Dedents(n, |stack| - 1), [Eof], |stack| - 1);
    }
  }

  /** On every source that lexes, INDENT and DEDENT nest and balance. */
  lemma TokensBalance(lines: Lines)
    requires Tokens(lines).Some?
    ensures After(Tokens(lines).value, 0) == Some(0)
  {
    LexBalances(lines, 0, [0]);
  }

  // ---- blocks -------------------------------------------------------------

  /** The tokens up to the DEDENT that closes the block they are in. */
  function TakeBlock(ts: seq<Token>, depth: nat): seq<Token> {
    if ts == [] || (ts[0].Dedent? && depth == 0) then []
    else [ts[0]] + TakeBlock(ts[1..], if ts[0].Indent? then depth + 1 else if ts[0].Dedent? then depth - 1 else depth)
  }

  function SkipNewlines(ts: seq<Token>): seq<Token> {
    if ts != [] && ts[0].Newline? then SkipNewlines(ts[1..]) else ts
  }

  /** The block that follows a header's line, if one does: what the parser reads as its body. */
  function Block(ts: seq<Token>): Option<seq<Token>> {
    var ts' := SkipNewlines(ts);
    if ts' != [] && ts'[0].Indent? then Some(TakeBlock(ts'[1..], 0)) else None
  }

  function WordLines(ts: seq<Token>): set<nat> {
    set t | t in ts && t.Word? :: t.line
  }

  /** The lines of code a scan finds below a header: up to the first one no deeper than it. */
  function LinesBelow(lines: Lines, n: nat, base: nat): set<nat>
    requires n <= |lines|
    decreases |lines| - n
  {
    if n == |lines| then {}
    else if !lines[n].body.Code? then LinesBelow(lines, n + 1, base)
    else if lines[n].indent <= base then {}
    else {n} + LinesBelow(lines, n + 1, base)
  }

  lemma {:induction false} TakeThrough(a: seq<Token>, b: seq<Token>, depth: nat)
    requires After(a, depth).Some?
    ensures TakeBlock(a + b, depth) == a + TakeBlock(b, After(a, depth).value)
    decreases |a|
  {
    if a == [] {
      assert a + b == b && [] + TakeBlock(b, depth) == TakeBlock(b, depth);
    } else {
      assert (a + b)[1..] == a[1..] + b;
      var depth' := if a[0].Indent? then depth + 1 else if a[0].Dedent? then depth - 1 else depth;
      TakeThrough(a[1..], b, depth');
      assert a == [a[0]] + a[1..];
    }
  }

  lemma {:induction false} TakeDedents(n: nat, count: nat, b: seq<Token>, depth: nat)
    requires count > depth
    ensures WordLines(TakeBlock(Dedents(n, count) + b, depth)) == {}
    decreases depth
  {
    var ts := Dedents(n, count) + b;
    if depth > 0 {
      assert ts[1..] == Dedents(n, count - 1) + b;
      TakeDedents(n, count - 1, b, depth - 1);
      assert TakeBlock(ts, depth) == [Dedent(n)] + TakeBlock(ts[1..], depth - 1);
      assert forall t :: t in TakeBlock(ts, depth) && t.Word? ==> t in TakeBlock(ts[1..], depth - 1);
    }
  }

  lemma WordLinesOfBoth(a: seq<Token>, b: seq<Token>)
    ensures WordLines(a + b) == WordLines(a) + WordLines(b)
  {
  }

  lemma WordLinesOfLine(tokens: seq<Token>, n: nat, l: Line)
    requires forall t :: t in tokens ==> !t.Word?
    requires l.body.Code? ==> l.body.words > 0
    ensures WordLines(tokens + WordsFrom(n, l, 0)) == if l.body.Code? then {n} else {}
  {
    WordLinesOfBoth(tokens, WordsFrom(n, l, 0));
    assert WordLines(tokens) == {};
    if l.body.Code? {
      assert Word(n, 0) in WordsFrom(n, l, 0);
    }
  }

  /** A level deeper than an outer stack stays open past any line deeper than that stack. */
  lemma DeeperStaysOpen(stack: seq<nat>, outer: nat, n: nat, l: Line)
    requires IsStack(stack) && 0 < outer < |stack| && HandleIndentation(stack, n, l).Some?
    requires l.body.Code? ==> l.indent > stack[outer - 1]
    ensures
      var i := HandleIndentation(stack, n, l).value;
      outer < |i.stack| && i.stack[outer - 1] == stack[outer - 1] &&
        After(i.tokens, |stack| - 1 - outer) == Some(|i.stack| - 1 - outer)
      && forall t :: t in i.tokens ==> !t.Word?
  {
    if l.body.Code? && l.indent > Top(stack) {
      assert [Indent(n)][1..] == [];
    } else if l.body.Code? {
      var stack' := Popped(stack, l.indent);
      PoppedLevels(stack, l.indent);
      assert |stack'| > outer;
      AfterDedents(n, |stack| - |stack'|, |stack| - 1 - outer);
    }
  }

  /** The lines with words in the rest of the block are those the scan finds. */
  predicate BlockAgrees(lines: Lines, n: nat, stack: seq<nat>, outer: nat, ts: seq<Token>)
    requires n <= |lines| && 0 < outer < |stack|
  {
    WordLines(TakeBlock(ts, |stack| - 1 - outer)) == LinesBelow(lines, n, stack[outer - 1])
  }

  /** In the middle of a block: the lines of code up to the DEDENT that closes it are those the scan finds. */
  lemma {:induction false} BlockIsLinesBelow(lines: Lines, n: nat, stack: seq<nat>, outer: nat)
    requires n < |lines| && IsStack(stack) && 0 < outer < |stack| && Lex(lines, n, stack).Some?
    ensures BlockAgrees(lines, n, stack, outer, Lex(lines, n, stack).value)
    decreases |lines| - n, 1
  {
    LexedLine(lines, n, stack);
    var l, i := lines[n], HandleIndentation(stack, n, lines[n]).value;
    var rest := LineEnd(lines, n, i.stack).value;
    if l.body.Code? && l.indent <= stack[outer - 1] {
      ClosingLineAgrees(lines, n, stack, outer, rest);
    } else {
      DeeperStaysOpen(stack, outer, n, l);
      RestOfBlock(lines, n, i.stack, outer);
      OpenLineAgrees(lines, n, stack, outer, i, rest);
    }
  }

  lemma ClosingLineAgrees(lines: Lines, n: nat, stack: seq<nat>, outer: nat, rest: seq<Token>)
    requires n < |lines| && IsStack(stack) && 0 < outer < |stack| && HandleIndentation(stack, n, lines[n]).Some?
    requires lines[n].body.Code? && lines[n].indent <= stack[outer - 1]
    ensures BlockAgrees(lines, n, stack, outer,
      (HandleIndentation(stack, n, lines[n]).value.tokens + WordsFrom(n, lines[n], 0)) + rest)
  {
    LineCloses(stack, n, lines[n], outer, rest);
  }

  lemma OpenLineAgrees(lines: Lines, n: nat, stack: seq<nat>, outer: nat, i: Indented, rest: seq<Token>)
    requires n < |lines| && 0 < outer < |stack| && outer < |i.stack| && i.stack[outer - 1] == stack[outer - 1]
    requires lines[n].body.Code? ==> lines[n].indent > stack[outer - 1]
    requires After(i.tokens, |stack| - 1 - outer) == Some(|i.stack| - 1 - outer)
    requires forall t :: t in i.tokens ==> !t.Word?
    requires BlockAgrees(lines, n + 1, i.stack, outer, rest)
    ensures BlockAgrees(lines, n, stack, outer, (i.tokens + WordsFrom(n, lines[n], 0)) + rest)
  {
    assert lines[n] in lines;
    TokensStayInside(i.tokens, n, lines[n], rest, |stack| - 1 - outer, |i.stack| - 1 - outer);
    LinesBelowUnfolds(lines, n, stack[outer - 1]);
  }

  lemma LinesBelowUnfolds(lines: Lines, n: nat, base: nat)
    requires n < |lines|
    ensures LinesBelow(lines, n, base) ==
      if lines[n].body.Code? && lines[n].indent <= base then {}
      else (if lines[n].body.Code? then {n} else {}) + LinesBelow(lines, n + 1, base)
  {
  }

  lemma LineCloses(stack: seq<nat>, n: nat, l: Line, outer: nat, rest: seq<Token>)
    requires IsStack(stack) && 0 < outer < |stack| && HandleIndentation(stack, n, l).Some?
    requires l.body.Code? && l.indent <= stack[outer - 1]
    ensures
      var tokens := HandleIndentation(stack, n, l).value.tokens + WordsFrom(n, l, 0);
      WordLines(TakeBlock(tokens + rest, |stack| - 1 - outer)) == {}
  {
    var stack', words := Popped(stack, l.indent), WordsFrom(n, l, 0);
    PoppedLevels(stack, l.indent);
    assert |stack'| <= outer;
    var dedents := Dedents(n, |stack| - |stack'|);
    assert (dedents + words) + rest == dedents + (words + rest);
    TakeDedents(n, |stack| - |stack'|, words + rest, |stack| - 1 - outer);
  }

  lemma {:induction false} TokensStayInside(tokens: seq<Token>, n: nat, l: Line, rest: seq<Token>, depth: nat,
      depth': nat)
    requires After(tokens, depth) == Some(depth') && (forall t :: t in tokens ==> !t.Word?) &&
      (l.body.Code? ==> l.body.words > 0)
    ensures WordLines(TakeBlock((tokens + WordsFrom(n, l, 0)) + rest, depth)) ==
      (if l.body.Code? then {n} else {}) + WordLines(TakeBlock(rest, depth'))
  {
    var words := WordsFrom(n, l, 0);
    AfterBoth(tokens, words, depth);
    AfterLevel(words, depth');
    TakeThrough(tokens + words, rest, depth);
    WordLinesOfBoth(tokens + words, TakeBlock(rest, depth'));
    WordLinesOfLine(tokens, n, l);
  }

  lemma {:induction false} RestOfBlock(lines: Lines, n: nat, stack: seq<nat>, outer: nat)
    requires n < |lines| && IsStack(stack) && 0 < outer < |stack| && LineEnd(lines, n, stack).Some?
    ensures BlockAgrees(lines, n + 1, stack, outer, LineEnd(lines, n, stack).value)
    decreases |lines| - n, 0
  {
    var depth := |stack| - 1 - outer;
    if n + 1 < |lines| {
      var rest := Lex(lines, n + 1, stack).value;
      AfterLevel([Newline(n)], depth);
      TakeThrough([Newline(n)], rest, depth);
      WordLinesOfBoth([Newline(n)], TakeBlock(rest, depth));
      assert WordLines([Newline(n)]) == {};
      BlockIsLinesBelow(lines, n + 1, stack, outer);
    } else {
      TakeDedents(n, |stack| - 1, [Eof], depth);
    }
  }

  /** The block that follows a header, found from the tokens and found by the scan. */
  lemma {:induction false} BlockBelow(lines: Lines, n: nat, stack: seq<nat>)
    requires n < |lines| && IsStack(stack) && Lex(lines, n, stack).Some?
    ensures
      var block, below := Block(Lex(lines, n, stack).value), LinesBelow(lines, n, Top(stack));
      (block.Some? <==> below != {}) && (block.Some? ==> WordLines(block.value) == below)
    decreases |lines| - n
  {
    LexedLine(lines, n, stack);
    LinesBelowUnfolds(lines, n, Top(stack));
    assert lines[n] in lines;
    var l, i := lines[n], HandleIndentation(stack, n, lines[n]).value;
    var rest := LineEnd(lines, n, i.stack).value;
    if !l.body.Code? {
      assert (i.tokens + WordsFrom(n, l, 0)) + rest == rest;
      if n + 1 < |lines| {
        assert rest == [Newline(n)] + Lex(lines, n + 1, stack).value;
        BlockBelow(lines, n + 1, stack);
      } else {
        assert SkipNewlines(rest) == rest;
      }
    } else if l.indent > Top(stack) {
      RestOfBlock(lines, n, i.stack, |stack|);
      IndentOpens(lines, n, stack, rest);
    } else {
      NoIndentNoBlock(stack, n, l, rest);
    }
  }

  lemma {:induction false} IndentOpens(lines: Lines, n: nat, stack: seq<nat>, rest: seq<Token>)
    requires n < |lines| && IsStack(stack) && lines[n].body.Code? && lines[n].indent > Top(stack)
    requires BlockAgrees(lines, n + 1, stack + [lines[n].indent], |stack|, rest)
    ensures
      var block := Block(([Indent(n)] + WordsFrom(n, lines[n], 0)) + rest);
      block.Some? && WordLines(block.value) == {n} + LinesBelow(lines, n + 1, Top(stack))
  {
    assert lines[n] in lines;
    OpensBlock(n, WordsFrom(n, lines[n], 0), rest);
    WordsStayInside(n, lines[n], rest);
  }

  lemma {:induction false} OpensBlock(n: nat, words: seq<Token>, rest: seq<Token>)
    ensures Block(([Indent(n)] + words) + rest) == Some(TakeBlock(words + rest, 0))
  {
    var ts := ([Indent(n)] + words) + rest;
    assert ts[0] == Indent(n) && ts[1..] == words + rest;
  }

  lemma {:induction false} WordsStayInside(n: nat, l: Line, rest: seq<Token>)
    requires l.body.Code? && l.body.words > 0
    ensures WordLines(TakeBlock(WordsFrom(n, l, 0) + rest, 0)) == {n} + WordLines(TakeBlock(rest, 0))
  {
    var words := WordsFrom(n, l, 0);
    AfterLevel(words, 0);
    TakeThrough(words, rest, 0);
    WordLinesOfBoth(words, TakeBlock(rest, 0));
    WordLinesOfLine([], n, l);
    assert [] + words == words;
  }

  lemma NoIndentNoBlock(stack: seq<nat>, n: nat, l: Line, rest: seq<Token>)
    requires IsStack(stack) && HandleIndentation(stack, n, l).Some? && l.body.Code? && l.body.words > 0 &&
      l.indent <= Top(stack)
    ensures Block((HandleIndentation(stack, n, l).value.tokens + WordsFrom(n, l, 0)) + rest) == None
  {
    var tokens, words := HandleIndentation(stack, n, l).value.tokens, WordsFrom(n, l, 0);
    var ts := (tokens + words) + rest;
    assert ts[0] == if tokens == [] then words[0] else tokens[0];
  }

  /** The tokens after those of a line. */
  function AfterLine(ts: seq<Token>, h: nat): seq<Token> {
    if ts == [] then [] else if ts[0] == Newline(h) then ts[1..] else AfterLine(ts[1..], h)
  }

  lemma {:induction false} AfterLineSkips(a: seq<Token>, b: seq<Token>, h: nat)
    requires Newline(h) !in a
    ensures AfterLine(a + b, h) == AfterLine(b, h)
    decreases |a|
  {
    if a == [] {
      assert a + b == b;
    } else {
      assert (a + b)[1..] == a[1..] + b && a[0] in a;
      AfterLineSkips(a[1..], b, h);
    }
  }

  lemma NoNewlineInLine(stack: seq<nat>, n: nat, l: Line, h: nat)
    requires IsStack(stack) && HandleIndentation(stack, n, l).Some?
    ensures Newline(h) !in HandleIndentation(stack, n, l).value.tokens + WordsFrom(n, l, 0)
  {
  }

  /** After a line of code the lexer stands at the next line with that line's level on top. */
  lemma {:induction false} LexAfterLine(lines: Lines, n: nat, stack: seq<nat>, h: nat) returns (stack': seq<nat>)
    requires n <= h && h + 1 < |lines| && IsStack(stack) && Lex(lines, n, stack).Some?
    ensures IsStack(stack') && Lex(lines, h + 1, stack').Some?
    ensures AfterLine(Lex(lines, n, stack).value, h) == Lex(lines, h + 1, stack').value
    ensures lines[h].body.Code? ==> Top(stack') == lines[h].indent
    decreases |lines| - n
  {
    LexedLine(lines, n, stack);
    NoNewlineInLine(stack, n, lines[n], h);
    var i := HandleIndentation(stack, n, lines[n]).value;
    var rest := Lex(lines, n + 1, i.stack).value;
    AfterLineSkips(i.tokens + WordsFrom(n, lines[n], 0), [Newline(n)] + rest, h);
    assert ([Newline(n)] + rest)[1..] == rest;
    if n == h {
      stack' := i.stack;
    } else {
      stack' := LexAfterLine(lines, n + 1, i.stack, h);
    }
  }

  /** On every source that lexes, the scan below a line of code finds the very block the lexer delimits after it. */
  lemma ScanFindsTheBlock(lines: Lines, h: nat)
    requires Tokens(lines).Some? && h + 1 < |lines| && lines[h].body.Code?
    ensures
      var block, below := Block(AfterLine(Tokens(lines).value, h)), LinesBelow(lines, h + 1, lines[h].indent);
      (block.Some? <==> below != {}) && (block.Some? ==> WordLines(block.value) == below)
  {
    var stack := LexAfterLine(lines, 0, [0], h);
    BlockBelow(lines, h + 1, stack);
  }

  // ---- the interface text -------------------------------------------------

  /** A line of the text: as it was, its header made `extern`, or blanked. */
  datatype OutLine = Kept | Declared | Blanked

  /** Where the scan below line `from` stops: the last line deeper than the base before one that is not. */
  function ScanEnd(lines: Lines, n: nat, base: nat, end: nat): (last: nat)
    requires end < n <= |lines|
    ensures end <= last < |lines|
    decreases |lines| - n
  {
    if n == |lines| then end
    else if lines[n].body.Blank? || lines[n].body.Comment? then ScanEnd(lines, n + 1, base, end)
    else if lines[n].indent <= base then end
    else ScanEnd(lines, n + 1, base, n)
  }

  function EndOf(lines: Lines, h: nat): nat
    requires h < |lines|
  {
    ScanEnd(lines, h + 1, lines[h].indent, h)
  }

  lemma {:induction false} NothingTabbed(lines: Lines, n: nat, stack: seq<nat>)
    requires n < |lines| && IsStack(stack) && Lex(lines, n, stack).Some?
    ensures forall m :: n <= m < |lines| ==> !lines[m].body.Tabbed?
    decreases |lines| - n
  {
    LexedLine(lines, n, stack);
    if n + 1 < |lines| {
      NothingTabbed(lines, n + 1, HandleIndentation(stack, n, lines[n]).value.stack);
    }
  }

  lemma {:induction false} ScanEndIs(lines: Lines, n: nat, base: nat, end: nat)
    requires end < n <= |lines| && forall m :: n <= m < |lines| ==> !lines[m].body.Tabbed?
    ensures
      var last, below := ScanEnd(lines, n, base, end), LinesBelow(lines, n, base);
      && end <= last < |lines| && (last == end || last in below)
      && (forall m :: m in below <==> n <= m <= last && lines[m].body.Code?)
    decreases |lines| - n
  {
    if n < |lines| {
      if !lines[n].body.Code? {
        ScanEndIs(lines, n + 1, base, end);
      } else if lines[n].indent > base {
        ScanEndIs(lines, n + 1, base, n);
      }
    }
  }

  /** The text after a function's block is blanked. */
  function Stripped(lines: Lines, h: nat, n: nat, before: OutLine): OutLine
    requires h < |lines|
  {
    if n == h then Declared else if h < n <= EndOf(lines, h) then Blanked else before
  }

  /** A line of the text as the scan sees it. */
  function Seen(l: Line, o: OutLine): Line {
    if o.Blanked? then Line(0, Blank) else l
  }

  /** Blanks the body under a one-line header, in place; false if it has none. */
  method DeclareFn(lines: Lines, out: array<OutLine>, h: nat) returns (ok: bool)
    requires h < out.Length == |lines| && forall n :: h <= n < |lines| ==> !out[n].Blanked?
    modifies out
    ensures ok == (EndOf(lines, h) != h)
    ensures forall n :: 0 <= n < |lines| ==> out[n] == if ok then Stripped(lines, h, n, old(out[n])) else old(out[n])
  {
    var base, end, n := Seen(lines[h], out[h]).indent, h, h + 1;
    while n < |lines|
      invariant h <= end < n <= |lines|
      invariant ScanEnd(lines, n, base, end) == EndOf(lines, h)
    {
      var s := Seen(lines[n], out[n]);
      if !s.body.Blank? && !s.body.Comment? {
        if s.indent <= base {
          break;
        }
        end := n;
      }
      n := n + 1;
    }
    assert end == EndOf(lines, h);
    if end == h {
      return false;
    }
    out[h] := Declared;
    for k := h + 1 to end + 1
      invariant out[h] == Declared
      invariant forall m :: h < m < k ==> out[m] == Blanked
      invariant forall m :: 0 <= m < |lines| && (m < h || k <= m) ==> out[m] == old(out[m])
    {
      out[k] := Blanked;
    }
    ok := true;
  }

  /** What the text holds of a line: the headers declared, what is below them blanked, the rest kept. */
  function StrippedOf(lines: Lines, headers: seq<nat>, n: nat): OutLine {
    if n in headers then Declared
    else if exists h :: h in headers && h < |lines| && h < n <= EndOf(lines, h) then Blanked
    else Kept
  }

  lemma OneMoreStripped(lines: Lines, headers: seq<nat>, h: nat, n: nat)
    requires h < |lines| && n < |lines| && forall g :: g in headers ==> g < |lines| && EndOf(lines, g) < h
    ensures StrippedOf(lines, headers + [h], n) == Stripped(lines, h, n, StrippedOf(lines, headers, n))
  {
    assert forall g :: g in headers + [h] <==> g in headers || g == h;
    if n != h && n !in headers && h < n <= EndOf(lines, h) {
      assert h in headers + [h];
    }
  }

  /** The interface text for the functions with these headers, in order, none in the body of another. */
  method InterfaceText(lines: Lines, headers: seq<nat>) returns (out: array<OutLine>, ok: bool)
    requires forall h :: h in headers ==> h < |lines|
    requires forall i, j :: 0 <= i < j < |headers| ==> headers[i] < |lines| && EndOf(lines, headers[i]) < headers[j]
    ensures fresh(out) && out.Length == |lines|
    ensures ok <==> forall h :: h in headers ==> h < |lines| && EndOf(lines, h) != h
    ensures ok ==> forall n :: 0 <= n < |lines| ==> out[n] == StrippedOf(lines, headers, n)
  {
    out := new OutLine[|lines|](_ => Kept);
    for k := 0 to |headers|
      invariant forall h :: h in headers[..k] ==> h < |lines| && EndOf(lines, h) != h
      invariant forall n :: 0 <= n < |lines| ==> out[n] == StrippedOf(lines, headers[..k], n)
    {
      assert headers[..k + 1] == headers[..k] + [headers[k]];
      assert headers[k] in headers;
      assert forall h :: h in headers[..k] ==> h < |lines| && EndOf(lines, h) < headers[k];
      assert forall n :: headers[k] <= n < |lines| ==> !out[n].Blanked?;
      ghost var before := out[..];
      ok := DeclareFn(lines, out, headers[k]);
      if !ok {
        return;
      }
      forall n | 0 <= n < |lines| ensures out[n] == StrippedOf(lines, headers[..k + 1], n) {
        OneMoreStripped(lines, headers[..k], headers[k], n);
        assert before[n] == StrippedOf(lines, headers[..k], n);
      }
    }
    assert headers[..|headers|] == headers;
    ok := true;
  }

  /** The lines of code blanked under a header are those with the words of the block the lexer delimits after it, and
      the blanks end with the block's last line. */
  lemma BlankedIsTheBlock(lines: Lines, h: nat)
    requires Tokens(lines).Some? && h + 1 < |lines| && lines[h].body.Code?
    ensures
      var block := Block(AfterLine(Tokens(lines).value, h));
      && (EndOf(lines, h) != h <==> block.Some?)
      && (block.Some? ==> EndOf(lines, h) in WordLines(block.value))
      && (block.Some? ==> forall n :: h < n < |lines| && lines[n].body.Code? ==>
            (Stripped(lines, h, n, Kept) == Blanked <==> n in WordLines(block.value)))
  {
    NothingTabbed(lines, 0, [0]);
    ScanEndIs(lines, h + 1, lines[h].indent, h);
    ScanFindsTheBlock(lines, h);
  }
}
