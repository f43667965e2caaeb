/** Bodies without dead code: what is followed by something flows on to it. */
module LiveCode {
  import opened OwnershipSyntax
  import opened MoveRules
  import opened MoveSoundness

  // ---- where the checker goes on with what no run leaves ------------------

  predicate StaysMoved(before: State, after: State, scope: set<Name>) {
    forall m :: m in before && m.root in scope ==> m in after
  }

  predicate StaysWhole(before: State, after: State, scope: set<Name>) {
    forall m :: m in before && m.path == [] && m.root in scope ==> m in after
  }

  /** Some run gets to the end, and all that is moved in the state there is moved by one that does: no branch that ends
      by leaving passes for one that falls through, and no call argument gives back a binding moved before. */
  ghost predicate FlowsExpr(e: Expr, moves: bool, scope: set<Name>, S: State)
    decreases e, 0
  {
    match e
    case Literal => true
    case Use(_, _, _) => true
    case Eval(parts) => FlowsArgs(parts, scope, S)
    case ShortCircuit(l, r) =>
      FlowsExpr(l, false, scope, S) && FlowsExpr(r, false, scope, CheckExpr(l, false, scope, S).moved)
    case Call(callee, takesCallee, args) =>
      var f := CheckExpr(callee, takesCallee, scope, S).moved;
      && FlowsExpr(callee, takesCallee, scope, S) && FlowsArgs(args, scope, f)
      && StaysWhole(f, CheckArgs(args, scope, f).moved, scope)
    case Try(operand) => FlowsExpr(operand, moves, scope, S)
    case If(cond, thn, els) =>
      var c := CheckExpr(cond, false, scope, S).moved;
      var t, f := CheckBlock(thn, scope, c), CheckBlock(els, scope, c);
      && FlowsExpr(cond, false, scope, S) && !(t.left && f.left)
      && (t.left || FlowsBlock(thn, scope, c)) && (f.left || FlowsBlock(els, scope, c))
    case IfOnly(cond, thn) =>
      var c := CheckExpr(cond, false, scope, S).moved;
      FlowsExpr(cond, false, scope, S) && (CheckBlock(thn, scope, c).left || FlowsBlock(thn, scope, c))
    case Match(scrutinee, lent, arms) =>
      var s := CheckExpr(scrutinee, !lent, scope, S).moved;
      && FlowsExpr(scrutinee, !lent, scope, S) && FlowsArms(arms, moves, scope, s)
      && CheckArms(arms, moves, scope, s, s).meet != []
    case Scoped(block) => FlowsBlock(block, scope, S)
    case Break => false
    case Continue => false
    case Return(_) => false
  }

  ghost predicate FlowsArgs(args: Args, scope: set<Name>, S: State)
    decreases args, 0
  {
    match args
    case NoArgs => true
    case Arg(e, moves, rest) =>
      FlowsExpr(e, moves, scope, S) && FlowsArgs(rest, scope, CheckExpr(e, moves, scope, S).moved)
  }

  ghost predicate FlowsArms(arms: Arms, moves: bool, scope: set<Name>, before: State)
    decreases arms, 0
  {
    match arms
    case NoArms => true
    case BlockArm(binds, body, rest) =>
      var entry := ForgetAll(before, binds);
      && (CheckBlock(body, scope + binds, entry).left || FlowsBlock(body, scope + binds, entry))
      && FlowsArms(rest, moves, scope, before)
    case ExprArm(binds, e, rest) =>
      && (LeavesArm(e) || FlowsExpr(e, moves, scope + binds, ForgetAll(before, binds)))
      && FlowsArms(rest, moves, scope, before)
  }

  ghost predicate FlowsBlock(b: Block, scope: set<Name>, S: State)
    decreases b, 0
  {
    match b
    case End => true
    case Tail(e) => FlowsExpr(e, true, scope, S)
    case Seq(s, rest) =>
      var a := CheckStmt(s, scope, S);
      !a.left && FlowsStmt(s, scope, S) && FlowsBlock(rest, scope + Binds(s), a.moved)
  }

  ghost predicate FlowsStmt(s: Stmt, scope: set<Name>, S: State)
    decreases s, 1
  {
    match s
    case Let(_, value) => FlowsExpr(value, true, scope, S)
    case Do(e) => FlowsExpr(e, false, scope, S)
    case Assign(target, value) =>
      && FlowsExpr(value, true, scope, S)
      && (target.ToOther? ==> FlowsExpr(target.e, false, scope, CheckExpr(value, true, scope, S).moved))
    case While(_, _) => FlowsLoop(s, scope, Settle(s, scope, S, MAX_PASSES).head)
    case For(_, iter, lent, _) =>
      var i := CheckExpr(iter, !lent, scope, S).moved;
      FlowsExpr(iter, !lent, scope, S) && FlowsLoop(s, scope, Settle(s, scope, i, MAX_PASSES).head)
    case ReturnStmt(_) => false
    case BreakStmt => false
    case ContinueStmt => false
  }

  /** A loop's condition gives back nothing that is moved at the head. */
  ghost predicate FlowsLoop(s: Stmt, scope: set<Name>, head: State)
    requires IsLoop(s)
    decreases s, 0
  {
    s.While? ==>
      && FlowsExpr(s.cond, false, scope, head)
      && StaysMoved(head, CheckExpr(s.cond, false, scope, head).moved, scope)
  }

  /** Nothing is dead: what is followed by something flows on to it. */
  ghost predicate LiveExpr(e: Expr, moves: bool, scope: set<Name>, S: State)
    decreases e, 0
  {
    match e
    case Literal => true
    case Use(_, _, _) => true
    case Eval(parts) => LiveArgs(parts, scope, S)
    case ShortCircuit(l, r) =>
      && LiveExpr(l, false, scope, S) && FlowsExpr(l, false, scope, S)
      && LiveExpr(r, false, scope, CheckExpr(l, false, scope, S).moved)
    case Call(callee, takesCallee, args) =>
      && LiveExpr(callee, takesCallee, scope, S) && (args.Arg? ==> FlowsExpr(callee, takesCallee, scope, S))
      && LiveArgs(args, scope, CheckExpr(callee, takesCallee, scope, S).moved)
    case Try(operand) => LiveExpr(operand, moves, scope, S)
    case If(cond, thn, els) =>
      var c := CheckExpr(cond, false, scope, S).moved;
      && LiveExpr(cond, false, scope, S) && FlowsExpr(cond, false, scope, S)
      && LiveBlock(thn, scope, c) && LiveBlock(els, scope, c)
    case IfOnly(cond, thn) =>
      && LiveExpr(cond, false, scope, S) && FlowsExpr(cond, false, scope, S)
      && LiveBlock(thn, scope, CheckExpr(cond, false, scope, S).moved)
    case Match(scrutinee, lent, arms) =>
      && LiveExpr(scrutinee, !lent, scope, S) && (arms.NoArms? || FlowsExpr(scrutinee, !lent, scope, S))
      && LiveArms(arms, moves, scope, CheckExpr(scrutinee, !lent, scope, S).moved)
    case Scoped(block) => LiveBlock(block, scope, S)
    case Break => true
    case Continue => true
    case Return(value) => LiveExpr(value, true, scope, S)
  }

  ghost predicate LiveArgs(args: Args, scope: set<Name>, S: State)
    decreases args, 0
  {
    match args
    case NoArgs => true
    case Arg(e, moves, rest) =>
      && LiveExpr(e, moves, scope, S) && (rest.Arg? ==> FlowsExpr(e, moves, scope, S))
      && LiveArgs(rest, scope, CheckExpr(e, moves, scope, S).moved)
  }

  ghost predicate LiveArms(arms: Arms, moves: bool, scope: set<Name>, before: State)
    decreases arms, 0
  {
    match arms
    case NoArms => true
    case BlockArm(binds, body, rest) =>
      LiveBlock(body, scope + binds, ForgetAll(before, binds)) && LiveArms(rest, moves, scope, before)
    case ExprArm(binds, e, rest) =>
      LiveExpr(e, moves, scope + binds, ForgetAll(before, binds)) && LiveArms(rest, moves, scope, before)
  }

  ghost predicate LiveBlock(b: Block, scope: set<Name>, S: State)
    decreases b, 0
  {
    match b
    case End => true
    case Tail(e) => LiveExpr(e, true, scope, S)
    case Seq(s, rest) =>
      var a := CheckStmt(s, scope, S);
      && LiveStmt(s, scope, S)
      && (a.left || ((rest.End? || FlowsStmt(s, scope, S)) && LiveBlock(rest, scope + Binds(s), a.moved)))
  }

  ghost predicate LiveStmt(s: Stmt, scope: set<Name>, S: State)
    decreases s, 2
  {
    match s
    case Let(_, value) => LiveExpr(value, true, scope, S)
    case Do(e) => LiveExpr(e, false, scope, S)
    case Assign(target, value) =>
      && LiveExpr(value, true, scope, S) && FlowsExpr(value, true, scope, S)
      && (target.ToOther? ==> LiveExpr(target.e, false, scope, CheckExpr(value, true, scope, S).moved))
    case While(_, _) => LiveLoop(s, scope, S)
    case For(_, iter, lent, _) =>
      && LiveExpr(iter, !lent, scope, S) && FlowsExpr(iter, !lent, scope, S)
      && LiveLoop(s, scope, CheckExpr(iter, !lent, scope, S).moved)
    case ReturnStmt(value) => LiveExpr(value, true, scope, S)
    case BreakStmt => true
    case ContinueStmt => true
  }

  /** In the first pass over a loop and in the second, from the head the first one leaves. */
  ghost predicate LiveLoop(s: Stmt, scope: set<Name>, S: State)
    requires IsLoop(s)
    decreases s, 1
  {
    LiveRound(s, scope, S) && LiveRound(s, scope, NextHead(Iterate(s, scope, S), scope, S))
  }

  /** The joins inside are made, nothing is dead, and the body leaves or flows on to the head. */
  ghost predicate LiveRound(s: Stmt, scope: set<Name>, head: State)
    requires IsLoop(s)
    decreases s, 0
  {
    match s
    case While(cond, body) =>
      var c := CheckExpr(cond, false, scope, head).moved;
      && JoinsExpr(cond, false, scope, head)
      && LiveExpr(cond, false, scope, head) && FlowsExpr(cond, false, scope, head)
      && LiveEnd(body, scope, c)
    case For(x, _, _, body) => LiveEnd(body, scope + {x}, Forget(head, x))
  }

  ghost predicate LiveEnd(body: Block, scope: set<Name>, S: State)
    decreases body, 1
  {
    && JoinsBlock(body, scope, S) && LiveBlock(body, scope, S)
    && (CheckBlock(body, scope, S).left || FlowsBlock(body, scope, S))
  }
}
