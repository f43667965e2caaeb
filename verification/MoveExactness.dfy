/** The converse of soundness: what the move checker reports, some run meets. */
module MoveExactness {
  import opened OwnershipSyntax
  import opened MoveRules
  import opened Execution
  import opened MoveSoundness
  import opened LiveCode
  import opened Reaching
  import opened MoveWitness
  import MoveEffects
  import MoveLimits

  // ---- refused phrases: some run gets stuck -------------------------------

  /** From every store the state covers that is missing `m`, if the state has it, some run of the phrase gets stuck. */
  ghost predicate Sticks(p: Phrase, scope: set<Name>, S: State, m: Place) {
    forall store :: At(S, scope, store, m) ==> Reaches(p, store, Stuck)
  }

  lemma WholeSticks(p: Phrase, scope: set<Name>, S: State, m: Place)
    requires Sticks(Parts(p), scope, S, m)
    ensures Sticks(p, scope, S, m)
  {
    forall store | At(S, scope, store, m) ensures Reaches(p, store, Stuck) {
      WholeReaches(p, store, Stuck);
    }
  }

  lemma FirstSticks(p: Phrase, q: Phrase, scope: set<Name>, S: State, m: Place)
    requires Sticks(p, scope, S, m)
    ensures Sticks(Both(p, q), scope, S, m)
  {
    forall store | At(S, scope, store, m) ensures Reaches(Both(p, q), store, Stuck) {
      FirstReaches(p, q, store, Stuck);
    }
  }

  /** The phrase leads on to where the second gets stuck. */
  ghost predicate LeadsOn(p: Phrase, scope: set<Name>, S: State, mid: set<Name>, T: State, m: Place) {
    forall store :: At(S, scope, store, m) ==> exists s1 :: Reaches(p, store, Done(s1, [])) && At(T, mid, s1, m)
  }

  lemma SecondSticks(p: Phrase, q: Phrase, scope: set<Name>, S: State, mid: set<Name>, T: State, m: Place)
    requires LeadsOn(p, scope, S, mid, T, m) && Sticks(q, mid, T, m)
    ensures Sticks(Both(p, q), scope, S, m)
  {
    forall store | At(S, scope, store, m) ensures Reaches(Both(p, q), store, Stuck) {
      var s1 :| Reaches(p, store, Done(s1, [])) && At(T, mid, s1, m);
      SecondReaches(p, q, store, s1, Stuck);
    }
  }

  lemma ExprLeadsOn(e: Expr, moves: bool, scope: set<Name>, S: State, m: Place)
    requires CheckExpr(e, moves, scope, S).errors == 0 && JoinsExpr(e, moves, scope, S)
    requires LiveExpr(e, moves, scope, S) && FlowsExpr(e, moves, scope, S)
    ensures LeadsOn(OfExpr(e, moves), scope, S, scope, CheckExpr(e, moves, scope, S).moved, m)
  {
    forall store | At(S, scope, store, m)
      ensures exists s1 ::
        Reaches(OfExpr(e, moves), store, Done(s1, [])) && At(CheckExpr(e, moves, scope, S).moved, scope, s1, m)
    {
      ExprShows(e, moves, scope, S, store, m);
      var s1 := EndOfExpr(e, moves, scope, S, store, m);
    }
  }

  lemma ChoiceSticks(p: Phrase, q: Phrase, scope: set<Name>, S: State, m: Place, yes: bool)
    requires Sticks(if yes then p else q, scope, S, m)
    ensures Sticks(Choice(p, q), scope, S, m)
  {
    forall store | At(S, scope, store, m) ensures Reaches(Choice(p, q), store, Stuck) {
      ChoiceReaches(p, q, store, Stuck, yes);
    }
  }

  lemma InsideSticks(binds: set<Name>, p: Phrase, scope: set<Name>, S: State, m: Place)
    requires Sticks(p, scope + binds, ForgetAll(S, binds), m)
    ensures Sticks(Inside(binds, p), scope, S, m)
  {
    forall store | At(S, scope, store, m) ensures Reaches(Inside(binds, p), store, Stuck) {
      AtInside(binds, scope, S, store, m);
      InsideReaches(binds, p, store, Stuck);
    }
  }

  /** A use refused is of a place that overlaps a moved one, or a move that is not allowed. */
  lemma UseSticks(place: Place, moveOnly: bool, pinned: bool, moves: bool, scope: set<Name>, S: State)
      returns (m: Place)
    requires CheckUse(place, moveOnly, pinned, moves, scope, S).errors > 0
    ensures Sticks(OfExpr(Use(place, moveOnly, pinned), moves), scope, S, m)
  {
    m := place;
    if n :| n in S && Overlaps(n, place) {
      m := n;
    }
    var p := OfExpr(Use(place, moveOnly, pinned), moves);
    forall store | At(S, scope, store, m) ensures Reaches(p, store, Stuck) {
      if m in S && Overlaps(m, place) {
        MissingIsNotIntact(place, store, m);
      } else {
        UseAgrees(place, true, false, false, scope, S, store, []);
      }
      assert RunOf(p, store, []) == Stuck;
    }
  }

  lemma MissingIsNotIntact(place: Place, store: Store, m: Place)
    requires Missing(store, m) && Overlaps(m, place)
    ensures !Intact(store[place.root], place.path)
  {
    var v := store[place.root];
    if place.path <= m.path {
      assert m.path == place.path + m.path[|place.path|..];
    } else {
      HolesGoDown(v, m.path, place.path);
      assert place.path + [] == place.path;
    }
  }

  lemma AssignSticks(place: Place, scope: set<Name>, S: State) returns (m: Place)
    requires CheckAssign(place, scope, S).errors > 0
    ensures Sticks(OfTarget(ToPlace(place)), scope, S, m)
  {
    m :| m in S && Within(place, m) && m != place;
    var p := OfTarget(ToPlace(place));
    forall store | At(S, scope, store, m) ensures Reaches(p, store, Stuck) {
      assert m.path == place.path[..|m.path|] && |m.path| < |place.path|;
      assert RunOf(p, store, []) == Stuck;
    }
  }

  lemma {:induction false} ExprSticks(e: Expr, moves: bool, scope: set<Name>, S: State) returns (m: Place)
    requires CheckExpr(e, moves, scope, S).errors > 0 && JoinsExpr(e, moves, scope, S) && LiveExpr(e, moves, scope, S)
    ensures Sticks(OfExpr(e, moves), scope, S, m)
    decreases e, 1
  {
    match e {
      case Use(place, moveOnly, pinned) => m := UseSticks(place, moveOnly, pinned, moves, scope, S);
      case Eval(parts) =>
        m := ArgsStick(parts, scope, S);
        WholeSticks(OfExpr(e, moves), scope, S, m);
      case ShortCircuit(l, r) =>
        var a := CheckExpr(l, false, scope, S);
        if a.errors > 0 {
          m := ExprSticks(l, false, scope, S);
          FirstSticks(OfExpr(l, false), Choice(OfExpr(r, false), Skip), scope, S, m);
        } else {
          m := ExprSticks(r, false, scope, a.moved);
          ChoiceSticks(OfExpr(r, false), Skip, scope, a.moved, m, true);
          ExprLeadsOn(l, false, scope, S, m);
          SecondSticks(OfExpr(l, false), Choice(OfExpr(r, false), Skip), scope, S, scope, a.moved, m);
        }
        WholeSticks(OfExpr(e, moves), scope, S, m);
      case Call(callee, takesCallee, args) =>
        var f := CheckExpr(callee, takesCallee, scope, S);
        if f.errors > 0 {
          m := ExprSticks(callee, takesCallee, scope, S);
          FirstSticks(OfExpr(callee, takesCallee), OfArgs(args), scope, S, m);
        } else {
          m := ArgsStick(args, scope, f.moved);
          ExprLeadsOn(callee, takesCallee, scope, S, m);
          SecondSticks(OfExpr(callee, takesCallee), OfArgs(args), scope, S, scope, f.moved, m);
        }
        WholeSticks(OfExpr(e, moves), scope, S, m);
      case Try(operand) =>
        m := ExprSticks(operand, moves, scope, S);
        FirstSticks(OfExpr(operand, moves), Choice(Skip, Quit), scope, S, m);
        WholeSticks(OfExpr(e, moves), scope, S, m);
      case If(_, _, _) => m := IfSticks(e, moves, scope, S);
      case IfOnly(_, _) => m := IfSticks(e, moves, scope, S);
      case Match(_, _, _) => m := MatchSticks(e, moves, scope, S);
      case Scoped(block) =>
        m := BlockInsideSticks(block, {}, scope, S);
        WholeSticks(OfExpr(e, moves), scope, S, m);
      case Return(value) =>
        m := ExprSticks(value, true, scope, S);
        FirstSticks(OfExpr(value, true), Quit, scope, S, m);
        WholeSticks(OfExpr(e, moves), scope, S, m);
    }
  }

  lemma {:induction false} BlockInsideSticks(b: Block, binds: set<Name>, scope: set<Name>, S: State)
      returns (m: Place)
    requires
      var inner, T := scope + binds, ForgetAll(S, binds);
      || (CheckBlock(b, inner, T).errors > 0 && JoinsBlock(b, inner, T) && LiveBlock(b, inner, T))
      || (binds == {} && CheckBlock(b, scope, S).errors > 0 && JoinsBlock(b, scope, S) && LiveBlock(b, scope, S))
    ensures Sticks(Inside(binds, OfBlock(b)), scope, S, m)
    decreases b, 2
  {
    if binds == {} {
      assert scope + binds == scope && ForgetAll(S, binds) == S;
    }
    m := BlockSticks(b, scope + binds, ForgetAll(S, binds));
    InsideSticks(binds, OfBlock(b), scope, S, m);
  }

  lemma {:induction false} IfSticks(e: Expr, moves: bool, scope: set<Name>, S: State) returns (m: Place)
    requires (e.If? || e.IfOnly?) && CheckExpr(e, moves, scope, S).errors > 0
    requires JoinsExpr(e, moves, scope, S) && LiveExpr(e, moves, scope, S)
    ensures Sticks(OfExpr(e, moves), scope, S, m)
    decreases e, 0
  {
    var c := CheckExpr(e.cond, false, scope, S);
    var p, q := Inside({}, OfBlock(e.thn)), if e.If? then Inside({}, OfBlock(e.els)) else Skip;
    if c.errors > 0 {
      m := ExprSticks(e.cond, false, scope, S);
      FirstSticks(OfExpr(e.cond, false), Choice(p, q), scope, S, m);
    } else {
      if CheckBlock(e.thn, scope, c.moved).errors > 0 {
        m := BlockInsideSticks(e.thn, {}, scope, c.moved);
        ChoiceSticks(p, q, scope, c.moved, m, true);
      } else {
        m := BlockInsideSticks(e.els, {}, scope, c.moved);
        ChoiceSticks(p, q, scope, c.moved, m, false);
      }
      ExprLeadsOn(e.cond, false, scope, S, m);
      SecondSticks(OfExpr(e.cond, false), Choice(p, q), scope, S, scope, c.moved, m);
    }
    WholeSticks(OfExpr(e, moves), scope, S, m);
  }

  lemma {:induction false} MatchSticks(e: Expr, moves: bool, scope: set<Name>, S: State) returns (m: Place)
    requires e.Match? && CheckExpr(e, moves, scope, S).errors > 0
    requires JoinsExpr(e, moves, scope, S) && LiveExpr(e, moves, scope, S)
    ensures Sticks(OfExpr(e, moves), scope, S, m)
    decreases e, 0
  {
    var Match(scrutinee, lent, arms) := e;
    var s := CheckExpr(scrutinee, !lent, scope, S);
    if s.errors > 0 {
      m := ExprSticks(scrutinee, !lent, scope, S);
      FirstSticks(OfExpr(scrutinee, !lent), OfArms(arms, moves), scope, S, m);
    } else {
      m := ArmsStick(arms, moves, scope, s.moved, s.moved);
      ExprLeadsOn(scrutinee, !lent, scope, S, m);
      SecondSticks(OfExpr(scrutinee, !lent), OfArms(arms, moves), scope, S, scope, s.moved, m);
    }
    WholeSticks(OfExpr(e, moves), scope, S, m);
  }

  lemma {:induction false} ArgsStick(args: Args, scope: set<Name>, S: State) returns (m: Place)
    requires CheckArgs(args, scope, S).errors > 0 && JoinsArgs(args, scope, S) && LiveArgs(args, scope, S)
    ensures Sticks(OfArgs(args), scope, S, m)
    decreases args, 0
  {
    var Arg(e, moves, rest) := args;
    var a := CheckExpr(e, moves, scope, S);
    if a.errors > 0 {
      m := ExprSticks(e, moves, scope, S);
      FirstSticks(OfExpr(e, moves), OfArgs(rest), scope, S, m);
    } else {
      m := ArgsStick(rest, scope, a.moved);
      ExprLeadsOn(e, moves, scope, S, m);
      SecondSticks(OfExpr(e, moves), OfArgs(rest), scope, S, scope, a.moved, m);
    }
    WholeSticks(OfArgs(args), scope, S, m);
  }

  lemma {:induction false} ArmsStick(arms: Arms, moves: bool, scope: set<Name>, before: State, last: State)
      returns (m: Place)
    requires CheckArms(arms, moves, scope, before, last).out.errors > 0
    requires JoinsArms(arms, moves, scope, before) && LiveArms(arms, moves, scope, before)
    ensures Sticks(OfArms(arms, moves), scope, before, m)
    decreases arms, 0
  {
    var inner, entry := scope + arms.binds, ForgetAll(before, arms.binds);
    var b := Pop(if arms.BlockArm? then CheckBlock(arms.body, inner, entry) else CheckExpr(arms.e, moves, inner, entry),
      scope);
    var p := Inside(arms.binds, if arms.BlockArm? then OfBlock(arms.body) else OfExpr(arms.e, moves));
    if b.errors == 0 {
      m := ArmsStick(arms.rest, moves, scope, before, b.moved);
      ChoiceSticks(p, OfArms(arms.rest, moves), scope, before, m, false);
    } else {
      if arms.BlockArm? {
        m := BlockInsideSticks(arms.body, arms.binds, scope, before);
      } else {
        m := ExprSticks(arms.e, moves, inner, entry);
        InsideSticks(arms.binds, OfExpr(arms.e, moves), scope, before, m);
      }
      ChoiceSticks(p, OfArms(arms.rest, moves), scope, before, m, true);
    }
    WholeSticks(OfArms(arms, moves), scope, before, m);
  }

  lemma {:induction false} BlockSticks(b: Block, scope: set<Name>, S: State) returns (m: Place)
    requires CheckBlock(b, scope, S).errors > 0 && JoinsBlock(b, scope, S) && LiveBlock(b, scope, S)
    ensures Sticks(OfBlock(b), scope, S, m)
    decreases b, 1
  {
    match b {
      case Tail(e) => m := ExprSticks(e, true, scope, S);
      case Seq(s, rest) =>
        var a, inner := CheckStmt(s, scope, S), scope + Binds(s);
        if a.errors > 0 {
          m := StmtSticks(s, scope, S);
          FirstSticks(OfStmt(s), OfBlock(rest), scope, S, m);
        } else {
          m := BlockSticks(rest, inner, a.moved);
          StmtLeadsOn(s, scope, S, m);
          SecondSticks(OfStmt(s), OfBlock(rest), scope, S, inner, a.moved, m);
        }
    }
    WholeSticks(OfBlock(b), scope, S, m);
  }

  lemma StmtLeadsOn(s: Stmt, scope: set<Name>, S: State, m: Place)
    requires CheckStmt(s, scope, S).errors == 0 && JoinsStmt(s, scope, S)
    requires LiveStmt(s, scope, S) && FlowsStmt(s, scope, S)
    ensures LeadsOn(OfStmt(s), scope, S, scope + Binds(s), CheckStmt(s, scope, S).moved, m)
  {
    forall store | At(S, scope, store, m)
      ensures exists s1 ::
        Reaches(OfStmt(s), store, Done(s1, [])) && At(CheckStmt(s, scope, S).moved, scope + Binds(s), s1, m)
    {
      StmtShows(s, scope, S, store, m);
      var s1 := EndOfStmt(s, scope, S, store, m);
    }
  }

  lemma {:induction false} StmtSticks(s: Stmt, scope: set<Name>, S: State) returns (m: Place)
    requires CheckStmt(s, scope, S).errors > 0 && JoinsStmt(s, scope, S) && LiveStmt(s, scope, S)
    ensures Sticks(OfStmt(s), scope, S, m)
    decreases s, 3
  {
    match s {
      case Let(x, value) =>
        m := ExprSticks(value, true, scope, S);
        FirstSticks(OfExpr(value, true), Binding(x), scope, S, m);
      case Do(e) => m := ExprSticks(e, false, scope, S);
      case Assign(target, value) =>
        var v := CheckExpr(value, true, scope, S);
        if v.errors > 0 {
          m := ExprSticks(value, true, scope, S);
          FirstSticks(OfExpr(value, true), OfTarget(target), scope, S, m);
        } else {
          if target.ToPlace? {
            m := AssignSticks(target.place, scope, v.moved);
          } else {
            m := ExprSticks(target.e, false, scope, v.moved);
            WholeSticks(OfTarget(target), scope, v.moved, m);
          }
          ExprLeadsOn(value, true, scope, S, m);
          SecondSticks(OfExpr(value, true), OfTarget(target), scope, S, scope, v.moved, m);
        }
      case While(_, _) => m := LoopSticks(s, scope, S);
      case For(_, iter, lent, _) =>
        var i := CheckExpr(iter, !lent, scope, S);
        if i.errors > 0 {
          m := ExprSticks(iter, !lent, scope, S);
          FirstSticks(OfExpr(iter, !lent), OfLoop(s), scope, S, m);
        } else {
          m := LoopSticks(s, scope, i.moved);
          ExprLeadsOn(iter, !lent, scope, S, m);
          SecondSticks(OfExpr(iter, !lent), OfLoop(s), scope, S, scope, i.moved, m);
        }
      case ReturnStmt(value) =>
        m := ExprSticks(value, true, scope, S);
        FirstSticks(OfExpr(value, true), Quit, scope, S, m);
    }
    WholeSticks(OfStmt(s), scope, S, m);
  }

  lemma {:induction false} RoundSticks(s: Stmt, scope: set<Name>, head: State) returns (m: Place)
    requires IsLoop(s) && Iterate(s, scope, head).errors > 0 && LiveRound(s, scope, head)
    ensures Sticks(Round(s), scope, head, m)
    decreases s, 1
  {
    if s.While? {
      var c := CheckExpr(s.cond, false, scope, head);
      if c.errors > 0 {
        m := ExprSticks(s.cond, false, scope, head);
        FirstSticks(Cond(s), Choice(Body(s), Quit), scope, head, m);
      } else {
        m := BlockInsideSticks(s.body, {}, scope, c.moved);
        ChoiceSticks(Body(s), Quit, scope, c.moved, m, true);
        ExprLeadsOn(s.cond, false, scope, head, m);
        SecondSticks(Cond(s), Choice(Body(s), Quit), scope, head, scope, c.moved, m);
      }
    } else {
      assert ForgetAll(head, {s.x}) == Forget(head, s.x);
      m := BlockInsideSticks(s.body, {s.x}, scope, head);
      ChoiceSticks(Body(s), Quit, scope, head, m, true);
      forall store | At(head, scope, store, m)
        ensures exists s1 :: Reaches(Cond(s), store, Done(s1, [])) && At(head, scope, s1, m)
      {
        assert RunOf(Cond(s), store, []) == Done(store, []);
        assert Reaches(Cond(s), store, Done(store, []));
      }
      SecondSticks(Cond(s), Choice(Body(s), Quit), scope, head, scope, head, m);
    }
  }

  lemma CleanTwice(s: Stmt, scope: set<Name>, S: State)
    requires IsLoop(s) && Iterate(s, scope, S).errors == 0
    requires Iterate(s, scope, NextHead(Iterate(s, scope, S), scope, S)).errors == 0
    ensures CheckLoop(s, scope, S).errors == 0
  {
    var next := NextHead(Iterate(s, scope, S), scope, S);
    if next != S {
      MoveEffects.SecondPassIsStable(s, scope, S);
      assert Settle(s, scope, next, MAX_PASSES - 1).errors == 0;
    }
  }

  /** The first or the second pass reports an error. */
  lemma FirstErrors(s: Stmt, scope: set<Name>, S: State)
    requires IsLoop(s) && CheckLoop(s, scope, S).errors > 0 && Iterate(s, scope, S).errors == 0
    ensures Iterate(s, scope, NextHead(Iterate(s, scope, S), scope, S)).errors > 0
  {
    if Iterate(s, scope, NextHead(Iterate(s, scope, S), scope, S)).errors == 0 {
      CleanTwice(s, scope, S);
    }
  }

  lemma {:induction false} LoopSticks(s: Stmt, scope: set<Name>, S: State) returns (m: Place)
    requires IsLoop(s) && CheckLoop(s, scope, S).errors > 0 && LiveLoop(s, scope, S)
    ensures Sticks(OfLoop(s), scope, S, m)
    decreases s, 2
  {
    var it := Iterate(s, scope, S);
    var next := NextHead(it, scope, S);
    if it.errors > 0 {
      m := RoundSticks(s, scope, S);
      forall store | At(S, scope, store, m) ensures Reaches(OfLoop(s), store, Stuck) {
        LoopEnds(s, store, Stuck);
      }
    } else {
      FirstErrors(s, scope, S);
      m := RoundSticks(s, scope, next);
      forall store | At(S, scope, store, m) ensures Reaches(OfLoop(s), store, Stuck) {
        if m in next && m !in S {
          var s2 := BackWithout(s, scope, S, store, m);
          LoopEnds(s, s2, Stuck);
          LoopGoesOn(s, store, s2, Stuck);
        } else {
          CoversMore(S, next, store);
          LoopEnds(s, store, Stuck);
        }
      }
    }
  }

  // ---- the verdict is exact -----------------------------------------------

  /** Where joins are made and nothing is dead, the checker reports an error exactly when, from a store with the
      state's holes, some run of the block gets stuck. */
  lemma BlockIsExact(b: Block, scope: set<Name>, S: State, store: Store)
    requires JoinsBlock(b, scope, S) && LiveBlock(b, scope, S)
    requires store.Keys == scope && MoveLimits.Matches(S, store)
    ensures CheckBlock(b, scope, S).errors == 0 <==> forall ch :: RunBlock(b, store, ch) != Stuck
  {
    assert Covers(S, store);
    if CheckBlock(b, scope, S).errors == 0 {
      forall ch ensures RunBlock(b, store, ch) != Stuck {
        BlockAgrees(b, scope, S, store, ch);
      }
    } else {
      var m := BlockSticks(b, scope, S);
      assert Tracks(m, S, scope, store) by {
        if m in S {
          assert Gone(S, m);
        }
      }
      assert Reaches(OfBlock(b), store, Stuck);
      var ch :| RunOf(OfBlock(b), store, ch) == Stuck;
      assert RunBlock(b, store, ch) == Stuck;
    }
  }

  /** A function body is accepted exactly when none of its runs gets stuck. */
  lemma AcceptedExactly(body: Block, params: set<Name>)
    requires JoinsBlock(body, params, {}) && LiveBlock(body, params, {})
    ensures CheckBlock(body, params, {}).errors == 0 <==>
      forall ch :: RunBlock(body, Bind(map[], params), ch) != Stuck
  {
    BlockIsExact(body, params, {}, Bind(map[], params));
  }
}
