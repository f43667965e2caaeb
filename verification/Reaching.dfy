/** What a phrase's runs can come to, and how the runs of a phrase are put together from those of its parts. */
module Reaching {
  import opened OwnershipSyntax
  import opened Execution

  /** Phrases, and the ways they are put together: one after the other, either as a choice picks, and in a scope of
      their own with some bindings. `Skip` and `Quit` end at once, normally or by returning. `OfLoop` is a loop from its
      head. */
  datatype Phrase =
    | OfExpr(e: Expr, moves: bool)
    | OfArgs(args: Args)
    | OfArms(arms: Arms, moves: bool)
    | OfBlock(b: Block)
    | OfStmt(s: Stmt)
    | OfTarget(t: Target)
    | OfLoop(loop: Stmt)
    | Binding(x: Name)
    | Both(first: Phrase, second: Phrase)
    | Choice(yes: Phrase, no: Phrase)
    | Inside(binds: set<Name>, inner: Phrase)
    | Skip
    | Quit

  ghost function RunOf(p: Phrase, store: Store, ch: Choices): Run
    decreases p
  {
    match p
    case OfExpr(e, moves) => RunExpr(e, moves, store, ch)
    case OfArgs(args) => RunArgs(args, store, ch)
    case OfArms(arms, moves) => RunArms(arms, moves, store, ch)
    case OfBlock(b) => RunBlock(b, store, ch)
    case OfStmt(s) => RunStmt(s, store, ch)
    case OfTarget(t) => RunTarget(t, store, ch)
    case OfLoop(s) => if IsLoop(s) then RunLoop(s, store, ch) else Unfinished
    case Binding(x) => Done(store[x := Whole], ch)
    case Both(first, second) => (
      match RunOf(first, store, ch)
      case Done(s, c) => RunOf(second, s, c)
      case other => other)
    case Choice(yes, no) =>
      if ch == [] then Unfinished else if ch[0] then RunOf(yes, store, ch[1..]) else RunOf(no, store, ch[1..])
    case Inside(binds, inner) => Leave(RunOf(inner, Bind(store, binds), ch), store.Keys)
    case Skip => Done(store, ch)
    case Quit => Returned
  }

  // ---- more choices -------------------------------------------------------

  /** With more choices a run that has ended ends the same, and leaves them over. */
  predicate Extended(r: Run, r': Run, more: Choices) {
    match r
    case Done(s, c) => r' == Done(s, c + more)
    case Broke(s, c) => r' == Broke(s, c + more)
    case Continued(s, c) => r' == Continued(s, c + more)
    case Returned => r' == Returned
    case Stuck => r' == Stuck
    case Unfinished => true
  }

  lemma NextChoice(ch: Choices, more: Choices)
    requires ch != []
    ensures ch + more != [] && (ch + more)[0] == ch[0] && (ch + more)[1..] == ch[1..] + more
  {
  }

  lemma {:induction false} ExprExtends(e: Expr, moves: bool, store: Store, ch: Choices, more: Choices)
    ensures Extended(RunExpr(e, moves, store, ch), RunExpr(e, moves, store, ch + more), more)
    decreases |ch|, e, 1
  {
    match e
    case Literal =>
    case Use(_, _, _) =>
    case Eval(parts) => ArgsExtend(parts, store, ch, more);
    case ShortCircuit(l, r) =>
      ExprExtends(l, false, store, ch, more);
      var x := RunExpr(l, false, store, ch);
      if x.Done? && x.rest != [] {
        NextChoice(x.rest, more);
        ExprExtends(r, false, x.store, x.rest[1..], more);
      }
    case Call(callee, takesCallee, args) =>
      ExprExtends(callee, takesCallee, store, ch, more);
      var x := RunExpr(callee, takesCallee, store, ch);
      if x.Done? {
        ArgsExtend(args, x.store, x.rest, more);
      }
    case Try(operand) =>
      ExprExtends(operand, moves, store, ch, more);
      var x := RunExpr(operand, moves, store, ch);
      if x.Done? && x.rest != [] {
        NextChoice(x.rest, more);
      }
    case If(_, _, _) => IfExtends(e, moves, store, ch, more);
    case IfOnly(_, _) => IfExtends(e, moves, store, ch, more);
    case Match(scrutinee, lent, arms) =>
      ExprExtends(scrutinee, !lent, store, ch, more);
      var x := RunExpr(scrutinee, !lent, store, ch);
      if x.Done? {
        ArmsExtend(arms, moves, x.store, x.rest, more);
      }
    case Scoped(block) => BlockExtends(block, store, ch, more);
    case Break =>
    case Continue =>
    case Return(value) => ExprExtends(value, true, store, ch, more);
  }

  lemma {:induction false} IfExtends(e: Expr, moves: bool, store: Store, ch: Choices, more: Choices)
    requires e.If? || e.IfOnly?
    ensures Extended(RunExpr(e, moves, store, ch), RunExpr(e, moves, store, ch + more), more)
    decreases |ch|, e, 0
  {
    ExprExtends(e.cond, false, store, ch, more);
    var x := RunExpr(e.cond, false, store, ch);
    if x.Done? && x.rest != [] {
      NextChoice(x.rest, more);
      if x.rest[0] {
        BlockExtends(e.thn, x.store, x.rest[1..], more);
      } else if e.If? {
        BlockExtends(e.els, x.store, x.rest[1..], more);
      }
    }
  }

  lemma {:induction false} ArgsExtend(args: Args, store: Store, ch: Choices, more: Choices)
    ensures Extended(RunArgs(args, store, ch), RunArgs(args, store, ch + more), more)
    decreases |ch|, args, 0
  {
    if args.Arg? {
      ExprExtends(args.e, args.moves, store, ch, more);
      var x := RunExpr(args.e, args.moves, store, ch);
      if x.Done? {
        ArgsExtend(args.rest, x.store, x.rest, more);
      }
    }
  }

  lemma {:induction false} ArmsExtend(arms: Arms, moves: bool, store: Store, ch: Choices, more: Choices)
    ensures Extended(RunArms(arms, moves, store, ch), RunArms(arms, moves, store, ch + more), more)
    decreases |ch|, arms, 0
  {
    if !arms.NoArms? && ch != [] {
      NextChoice(ch, more);
      if !ch[0] {
        ArmsExtend(arms.rest, moves, store, ch[1..], more);
      } else if arms.BlockArm? {
        BlockExtends(arms.body, Bind(store, arms.binds), ch[1..], more);
      } else {
        ExprExtends(arms.e, moves, Bind(store, arms.binds), ch[1..], more);
      }
    }
  }

  lemma {:induction false} BlockExtends(b: Block, store: Store, ch: Choices, more: Choices)
    ensures Extended(RunBlock(b, store, ch), RunBlock(b, store, ch + more), more)
    decreases |ch|, b, 0
  {
    match b
    case End =>
    case Tail(e) => ExprExtends(e, true, store, ch, more);
    case Seq(s, rest) =>
      StmtExtends(s, store, ch, more);
      var x := RunStmt(s, store, ch);
      if x.Done? {
        BlockExtends(rest, x.store, x.rest, more);
      }
  }

  lemma {:induction false} StmtExtends(s: Stmt, store: Store, ch: Choices, more: Choices)
    ensures Extended(RunStmt(s, store, ch), RunStmt(s, store, ch + more), more)
    decreases |ch|, s, 2
  {
    match s
    case Let(_, value) => ExprExtends(value, true, store, ch, more);
    case Do(e) => ExprExtends(e, false, store, ch, more);
    case Assign(target, value) =>
      ExprExtends(value, true, store, ch, more);
      var x := RunExpr(value, true, store, ch);
      if x.Done? {
        TargetExtends(target, x.store, x.rest, more);
      }
    case While(_, _) => LoopExtends(s, store, ch, more);
    case For(_, iter, lent, _) =>
      ExprExtends(iter, !lent, store, ch, more);
      var x := RunExpr(iter, !lent, store, ch);
      if x.Done? {
        LoopExtends(s, x.store, x.rest, more);
      }
    case ReturnStmt(value) => ExprExtends(value, true, store, ch, more);
    case BreakStmt =>
    case ContinueStmt =>
  }

  lemma {:induction false} TargetExtends(target: Target, store: Store, ch: Choices, more: Choices)
    ensures Extended(RunTarget(target, store, ch), RunTarget(target, store, ch + more), more)
    decreases |ch|, target, 0
  {
    if target.ToOther? {
      ExprExtends(target.e, false, store, ch, more);
    }
  }

  lemma {:induction false} LoopExtends(s: Stmt, store: Store, ch: Choices, more: Choices)
    requires IsLoop(s)
    ensures Extended(RunLoop(s, store, ch), RunLoop(s, store, ch + more), more)
    decreases |ch|, s, 1
  {
    CondExtends(s, store, ch, more);
    var x := RunCond(s, store, ch);
    if (x.Done? || x.Continued?) && x.rest != [] {
      NextChoice(x.rest, more);
      if x.Continued? {
        LoopExtends(s, x.store, x.rest[1..], more);
      } else if x.rest[0] {
        BodyExtends(s, x.store, x.rest[1..], more);
        var y := RunBody(s, x.store, x.rest[1..]);
        if y.Done? || y.Continued? {
          LoopExtends(s, y.store, y.rest, more);
        }
      }
    }
  }

  lemma {:induction false} CondExtends(s: Stmt, store: Store, ch: Choices, more: Choices)
    requires IsLoop(s)
    ensures Extended(RunCond(s, store, ch), RunCond(s, store, ch + more), more)
    decreases |ch|, s, 0
  {
    if s.While? {
      ExprExtends(s.cond, false, store, ch, more);
    }
  }

  lemma {:induction false} BodyExtends(s: Stmt, store: Store, ch: Choices, more: Choices)
    requires IsLoop(s)
    ensures Extended(RunBody(s, store, ch), RunBody(s, store, ch + more), more)
    decreases |ch|, s, 0
  {
    BlockExtends(s.body, if s.While? then store else Bind(store, {s.x}), ch, more);
  }

  lemma {:induction false} Extends(p: Phrase, store: Store, ch: Choices, more: Choices)
    ensures Extended(RunOf(p, store, ch), RunOf(p, store, ch + more), more)
    decreases p
  {
    match p
    case OfExpr(e, moves) => ExprExtends(e, moves, store, ch, more);
    case OfArgs(args) => ArgsExtend(args, store, ch, more);
    case OfArms(arms, moves) => ArmsExtend(arms, moves, store, ch, more);
    case OfBlock(b) => BlockExtends(b, store, ch, more);
    case OfStmt(s) => StmtExtends(s, store, ch, more);
    case OfTarget(t) => TargetExtends(t, store, ch, more);
    case OfLoop(s) => if IsLoop(s) { LoopExtends(s, store, ch, more); }
    case Both(first, second) =>
      Extends(first, store, ch, more);
      var x := RunOf(first, store, ch);
      if x.Done? {
        Extends(second, x.store, x.rest, more);
      }
    case Choice(yes, no) =>
      if ch != [] {
        NextChoice(ch, more);
        Extends(if ch[0] then yes else no, store, ch[1..], more);
      }
    case Inside(binds, inner) => Extends(inner, Bind(store, binds), ch, more);
    case _ =>
  }

  // ---- what can be reached ------------------------------------------------

  /** Some run of the phrase, with no choice left over, is `r`. */
  ghost predicate Reaches(p: Phrase, store: Store, r: Run) {
    exists ch :: RunOf(p, store, ch) == r
  }

  predicate Spent(r: Run) {
    match r
    case Done(_, c) => c == []
    case Broke(_, c) => c == []
    case Continued(_, c) => c == []
    case Returned => true
    case Stuck => true
    case Unfinished => false
  }

  lemma SecondReaches(p: Phrase, q: Phrase, store: Store, s1: Store, r: Run)
    requires Reaches(p, store, Done(s1, [])) && Reaches(q, s1, r) && Spent(r)
    ensures Reaches(Both(p, q), store, r)
  {
    var a :| RunOf(p, store, a) == Done(s1, []);
    var b :| RunOf(q, s1, b) == r;
    Extends(p, store, a, b);
    assert [] + b == b;
    BothRuns(p, q, store, a + b);
  }

  lemma BothRuns(p: Phrase, q: Phrase, store: Store, ch: Choices)
    ensures RunOf(p, store, ch).Done? ==>
      RunOf(Both(p, q), store, ch) == RunOf(q, RunOf(p, store, ch).store, RunOf(p, store, ch).rest)
    ensures !RunOf(p, store, ch).Done? ==> RunOf(Both(p, q), store, ch) == RunOf(p, store, ch)
  {
  }

  lemma FirstReaches(p: Phrase, q: Phrase, store: Store, r: Run)
    requires Reaches(p, store, r) && !r.Done?
    ensures Reaches(Both(p, q), store, r)
  {
    var a :| RunOf(p, store, a) == r;
    assert RunOf(Both(p, q), store, a) == r;
  }

  lemma ChoiceReaches(p: Phrase, q: Phrase, store: Store, r: Run, yes: bool)
    requires Reaches(if yes then p else q, store, r)
    ensures Reaches(Choice(p, q), store, r)
  {
    var a :| RunOf(if yes then p else q, store, a) == r;
    assert ([yes] + a)[1..] == a;
    assert RunOf(Choice(p, q), store, [yes] + a) == r;
  }

  lemma InsideReaches(binds: set<Name>, p: Phrase, store: Store, r: Run)
    requires Reaches(p, Bind(store, binds), r)
    ensures Reaches(Inside(binds, p), store, Leave(r, store.Keys))
  {
    var a :| RunOf(p, Bind(store, binds), a) == r;
    assert RunOf(Inside(binds, p), store, a) == Leave(r, store.Keys);
  }

  // ---- phrases by their parts ---------------------------------------------

  /** The phrase as its parts put together; one that has none is itself. */
  function Parts(p: Phrase): Phrase {
    match p
    case OfExpr(e, moves) => PartsOfExpr(e, moves)
    case OfArgs(args) => if args.Arg? then Both(OfExpr(args.e, args.moves), OfArgs(args.rest)) else Skip
    case OfArms(arms, moves) => (
      match arms
      case NoArms => Quit
      case BlockArm(binds, body, rest) => Choice(Inside(binds, OfBlock(body)), OfArms(rest, moves))
      case ExprArm(binds, e, rest) => Choice(Inside(binds, OfExpr(e, moves)), OfArms(rest, moves)))
    case OfBlock(b) => (
      match b
      case End => Skip
      case Tail(e) => OfExpr(e, true)
      case Seq(s, rest) => Both(OfStmt(s), OfBlock(rest)))
    case OfStmt(s) => PartsOfStmt(s)
    case OfTarget(t) => if t.ToOther? then OfExpr(t.e, false) else p
    case _ => p
  }

  function PartsOfExpr(e: Expr, moves: bool): Phrase {
    match e
    case Literal => Skip
    case Eval(parts) => OfArgs(parts)
    case ShortCircuit(l, r) => Both(OfExpr(l, false), Choice(OfExpr(r, false), Skip))
    case Call(callee, takesCallee, args) => Both(OfExpr(callee, takesCallee), OfArgs(args))
    case Try(operand) => Both(OfExpr(operand, moves), Choice(Skip, Quit))
    case If(cond, thn, els) =>
      Both(OfExpr(cond, false), Choice(Inside({}, OfBlock(thn)), Inside({}, OfBlock(els))))
    case IfOnly(cond, thn) => Both(OfExpr(cond, false), Choice(Inside({}, OfBlock(thn)), Skip))
    case Match(scrutinee, lent, arms) => Both(OfExpr(scrutinee, !lent), OfArms(arms, moves))
    case Scoped(block) => Inside({}, OfBlock(block))
    case Return(value) => Both(OfExpr(value, true), Quit)
    case _ => OfExpr(e, moves)
  }

  function PartsOfStmt(s: Stmt): Phrase {
    match s
    case Let(x, value) => Both(OfExpr(value, true), Binding(x))
    case Do(e) => OfExpr(e, false)
    case Assign(target, value) => Both(OfExpr(value, true), OfTarget(target))
    case While(_, _) => OfLoop(s)
    case For(_, iter, lent, _) => Both(OfExpr(iter, !lent), OfLoop(s))
    case ReturnStmt(value) => Both(OfExpr(value, true), Quit)
    case _ => OfStmt(s)
  }

  lemma NothingBound(store: Store)
    ensures Bind(store, {}) == store
  {
  }

  lemma PartsRun(p: Phrase, store: Store, ch: Choices)
    ensures RunOf(Parts(p), store, ch) == RunOf(p, store, ch)
  {
    match p
    case OfExpr(e, moves) => PartsOfExprRun(e, moves, store, ch);
    case OfArgs(args) =>
    case OfArms(arms, moves) => PartsOfArmsRun(arms, moves, store, ch);
    case OfBlock(b) =>
    case OfStmt(s) => PartsOfStmtRun(s, store, ch);
    case OfTarget(t) =>
    case _ =>
  }

  lemma PartsOfArmsRun(arms: Arms, moves: bool, store: Store, ch: Choices)
    ensures RunOf(Parts(OfArms(arms, moves)), store, ch) == RunArms(arms, moves, store, ch)
  {
    if !arms.NoArms? && ch != [] {
      var p := if arms.BlockArm? then OfBlock(arms.body) else OfExpr(arms.e, moves);
      InsideUnfolds(arms.binds, p, store, ch[1..]);
    }
  }

  lemma InsideUnfolds(binds: set<Name>, p: Phrase, store: Store, ch: Choices)
    ensures RunOf(Inside(binds, p), store, ch) == Leave(RunOf(p, Bind(store, binds), ch), store.Keys)
  {
  }

  lemma InsideRuns(b: Block, store: Store, ch: Choices)
    ensures RunOf(Inside({}, OfBlock(b)), store, ch) == Leave(RunBlock(b, store, ch), store.Keys)
  {
    NothingBound(store);
    assert RunOf(OfBlock(b), store, ch) == RunBlock(b, store, ch);
  }

  lemma PartsOfExprRun(e: Expr, moves: bool, store: Store, ch: Choices)
    ensures RunOf(PartsOfExpr(e, moves), store, ch) == RunExpr(e, moves, store, ch)
  {
    match e
    case If(_, _, _) => PartsOfIfRun(e, moves, store, ch);
    case IfOnly(_, _) => PartsOfIfRun(e, moves, store, ch);
    case ShortCircuit(_, _) => PartsOfShortCircuitRun(e, moves, store, ch);
    case Try(_) => PartsOfTryRun(e, moves, store, ch);
    case Scoped(block) => InsideRuns(block, store, ch);
    case _ => PartsOfOtherRun(e, moves, store, ch);
  }

  lemma PartsOfOtherRun(e: Expr, moves: bool, store: Store, ch: Choices)
    requires !e.If? && !e.IfOnly? && !e.ShortCircuit? && !e.Try? && !e.Scoped?
    ensures RunOf(PartsOfExpr(e, moves), store, ch) == RunExpr(e, moves, store, ch)
  {
    match e
    case Match(_, _, _) =>
    case Call(_, _, _) =>
    case Eval(_) =>
    case Return(_) =>
    case _ =>
  }

  lemma PartsOfShortCircuitRun(e: Expr, moves: bool, store: Store, ch: Choices)
    requires e.ShortCircuit?
    ensures RunOf(PartsOfExpr(e, moves), store, ch) == RunExpr(e, moves, store, ch)
  {
    var x := RunExpr(e.left, false, store, ch);
    if x.Done? && x.rest != [] {
      assert RunOf(Choice(OfExpr(e.right, false), Skip), x.store, x.rest) ==
        if x.rest[0] then RunExpr(e.right, false, x.store, x.rest[1..]) else Done(x.store, x.rest[1..]);
    }
  }

  lemma PartsOfTryRun(e: Expr, moves: bool, store: Store, ch: Choices)
    requires e.Try?
    ensures RunOf(PartsOfExpr(e, moves), store, ch) == RunExpr(e, moves, store, ch)
  {
    var x := RunExpr(e.operand, moves, store, ch);
    if x.Done? && x.rest != [] {
      assert RunOf(Choice(Skip, Quit), x.store, x.rest) == if x.rest[0] then Done(x.store, x.rest[1..]) else Returned;
    }
  }

  lemma PartsOfIfRun(e: Expr, moves: bool, store: Store, ch: Choices)
    requires e.If? || e.IfOnly?
    ensures RunOf(PartsOfExpr(e, moves), store, ch) == RunExpr(e, moves, store, ch)
  {
    var x := RunExpr(e.cond, false, store, ch);
    if x.Done? && x.rest != [] {
      InsideRuns(e.thn, x.store, x.rest[1..]);
      var no := if e.If? then Inside({}, OfBlock(e.els)) else Skip;
      if e.If? {
        InsideRuns(e.els, x.store, x.rest[1..]);
      }
      assert RunOf(Choice(Inside({}, OfBlock(e.thn)), no), x.store, x.rest) ==
        if x.rest[0] then RunOf(Inside({}, OfBlock(e.thn)), x.store, x.rest[1..]) else RunOf(no, x.store, x.rest[1..]);
    }
  }

  lemma PartsOfStmtRun(s: Stmt, store: Store, ch: Choices)
    ensures RunOf(PartsOfStmt(s), store, ch) == RunStmt(s, store, ch)
  {
  }

  lemma WholeReaches(p: Phrase, store: Store, r: Run)
    requires Reaches(Parts(p), store, r)
    ensures Reaches(p, store, r)
  {
    var ch :| RunOf(Parts(p), store, ch) == r;
    PartsRun(p, store, ch);
  }

  // ---- loops --------------------------------------------------------------

  function Cond(s: Stmt): Phrase {
    if s.While? then OfExpr(s.cond, false) else Skip
  }

  function Body(s: Stmt): Phrase {
    match s
    case While(_, body) => Inside({}, OfBlock(body))
    case For(x, _, _, body) => Inside({x}, OfBlock(body))
    case _ => Skip
  }

  /** Once round a loop: its condition, and its body if that holds. */
  function Round(s: Stmt): Phrase {
    Both(Cond(s), Choice(Body(s), Quit))
  }

  lemma BodyRuns(s: Stmt, store: Store, ch: Choices)
    requires IsLoop(s)
    ensures RunOf(Body(s), store, ch) == RunBody(s, store, ch)
  {
    if s.While? {
      InsideRuns(s.body, store, ch);
    }
  }

  lemma RoundRuns(s: Stmt, store: Store, ch: Choices)
    requires IsLoop(s)
    ensures RunOf(Round(s), store, ch) ==
      match RunCond(s, store, ch)
      case Done(s1, c) => (if c == [] then Unfinished else if c[0] then RunBody(s, s1, c[1..]) else Returned)
      case other => other
  {
    var x := RunCond(s, store, ch);
    assert RunOf(Cond(s), store, ch) == x;
    if x.Done? && x.rest != [] {
      BodyRuns(s, x.store, x.rest[1..]);
      assert RunOf(Choice(Body(s), Quit), x.store, x.rest) ==
        if x.rest[0] then RunOf(Body(s), x.store, x.rest[1..]) else Returned;
    }
  }

  /** Once round and back at the head, the loop goes on from there. */
  lemma LoopGoesOn(s: Stmt, store: Store, s2: Store, r: Run)
    requires IsLoop(s) && Reaches(OfLoop(s), s2, r) && Spent(r)
    requires Reaches(Round(s), store, Done(s2, [])) || Reaches(Round(s), store, Continued(s2, []))
    ensures Reaches(OfLoop(s), store, r)
  {
    var a :| RunOf(Round(s), store, a) in {Done(s2, []), Continued(s2, [])};
    var b :| RunOf(OfLoop(s), s2, b) == r;
    RoundRuns(s, store, a);
    var x := RunCond(s, store, a);
    if x.Continued? {
      CondExtends(s, store, a, [true] + b);
      assert [] + ([true] + b) == [true] + b && ([true] + b)[1..] == b;
      assert RunOf(OfLoop(s), store, a + ([true] + b)) == r;
    } else {
      CondExtends(s, store, a, b);
      NextChoice(x.rest, b);
      BodyExtends(s, x.store, x.rest[1..], b);
      assert [] + b == b;
      assert RunOf(OfLoop(s), store, a + b) == r;
    }
  }

  lemma LoopEnds(s: Stmt, store: Store, r: Run)
    requires IsLoop(s) && Reaches(Round(s), store, r) && (r == Stuck || r.Broke?)
    ensures Reaches(OfLoop(s), store, if r.Broke? then Done(r.store, r.rest) else Stuck)
  {
    var a :| RunOf(Round(s), store, a) == r;
    RoundRuns(s, store, a);
    assert RunOf(OfLoop(s), store, a) == if r.Broke? then Done(r.store, r.rest) else Stuck;
  }

  lemma LoopExits(s: Stmt, store: Store, s1: Store)
    requires IsLoop(s) && Reaches(Cond(s), store, Done(s1, []))
    ensures Reaches(OfLoop(s), store, Done(s1, []))
  {
    var a :| RunOf(Cond(s), store, a) == Done(s1, []);
    CondExtends(s, store, a, [false]);
    assert [] + [false] == [false] && [false][1..] == [];
    assert RunOf(OfLoop(s), store, a + [false]) == Done(s1, []);
  }
}
