/** Where the move checker is exact, and where it is not sound: the paths it does not join. */
module MoveLimits {
  import opened OwnershipSyntax
  import opened MoveRules
  import opened Execution
  import opened MoveEffects
  import opened MoveSoundness

  // ---- stores with exactly the holes of a state ---------------------------

  /** The store's holes are exactly what `S` says is gone. */
  ghost predicate Matches(S: State, store: Store) {
    forall x, path :: x in store ==> (HoleAt(store[x], path) <==> Gone(S, Place(x, path)))
  }

  lemma {:induction false} StoreFor(S: State, scope: set<Name>) returns (store: Store)
    ensures store.Keys == scope && Matches(S, store)
    decreases |S|
  {
    if S == {} {
      store := Bind(map[], scope);
    } else {
      var m :| m in S;
      var rest := S - {m};
      var s := StoreFor(rest, scope);
      store := if m.root in scope then s[m.root := Take(s[m.root], m.path)] else s;
      forall x, path | x in store ensures HoleAt(store[x], path) <==> Gone(S, Place(x, path)) {
        assert Gone(S, Place(x, path)) <==> Gone(rest, Place(x, path)) || Within(Place(x, path), m) by {
          if Gone(rest, Place(x, path)) {
            var n :| n in rest && Within(Place(x, path), n);
            assert n in S;
          }
        }
        if x == m.root {
          TakeMakesAHole(s[x], m.path, path);
        }
      }
    }
  }

  // ---- straight-line code: the verdict is exact ---------------------------

  predicate StraightExpr(e: Expr)
    decreases e
  {
    match e
    case Literal => true
    case Use(_, _, _) => true
    case Eval(parts) => StraightArgs(parts)
    case Call(callee, _, args) => StraightExpr(callee) && StraightArgs(args)
    case _ => false
  }

  predicate StraightArgs(args: Args)
    decreases args
  {
    args.Arg? ==> StraightExpr(args.e) && StraightArgs(args.rest)
  }

  /** No branch, no loop, no early exit. */
  predicate StraightBlock(b: Block)
    decreases b
  {
    match b
    case End => true
    case Tail(e) => StraightExpr(e)
    case Seq(s, rest) => StraightStmt(s) && StraightBlock(rest)
  }

  predicate StraightStmt(s: Stmt) {
    match s
    case Let(_, value) => StraightExpr(value)
    case Do(e) => StraightExpr(e)
    case Assign(target, value) => StraightExpr(value) && (target.ToOther? ==> StraightExpr(target.e))
    case _ => false
  }

  /** No error and a store the state still matches, or an error and a stuck run. */
  ghost predicate Exact(r: Run, o: Out, scope: set<Name>) {
    if o.errors == 0 then r.Done? && r.store.Keys == scope && Matches(o.moved, r.store) else r == Stuck
  }

  /** Every refusal to move a pinned value is a run that is stuck, and so is every use of a moved one. */
  lemma {:induction false} UseIsExact(place: Place, moveOnly: bool, pinned: bool, moves: bool, scope: set<Name>,
      S: State, store: Store, ch: Choices)
    requires store.Keys == scope && Matches(S, store)
    ensures Exact(RunUse(place, moveOnly, pinned, moves, store, ch), CheckUse(place, moveOnly, pinned, moves, scope, S),
      scope)
  {
    if place.root in scope {
      IntactExactly(place, scope, S, store, ch);
      if moves && moveOnly && Intact(store[place.root], place.path) {
        TakenMatches(place, S, store);
      }
    }
  }

  lemma IntactExactly(place: Place, scope: set<Name>, S: State, store: Store, ch: Choices)
    requires store.Keys == scope && Matches(S, store) && place.root in scope
    ensures Intact(store[place.root], place.path) <==> !exists m :: m in S && Overlaps(m, place)
  {
    if exists m :: m in S && Overlaps(m, place) {
      var m :| m in S && Overlaps(m, place);
      OverlapShows(place, S, store, m);
    } else {
      assert Covers(S, store);
      UseAgrees(place, true, false, false, scope, S, store, ch);
    }
  }

  lemma OverlapShows(place: Place, S: State, store: Store, m: Place)
    requires Matches(S, store) && place.root in store && m in S && Overlaps(m, place)
    ensures !Intact(store[place.root], place.path)
  {
    var v := store[place.root];
    if Within(m, place) {
      assert Gone(S, m);
      assert HoleAt(v, m.path) && m.path == place.path + m.path[|place.path|..];
    } else {
      assert Gone(S, place) && place.path + [] == place.path;
      assert HoleAt(v, place.path + []);
    }
  }

  lemma TakenMatches(place: Place, S: State, store: Store)
    requires Matches(S, store) && place.root in store && Intact(store[place.root], place.path)
    ensures Matches(S + {place}, store[place.root := Take(store[place.root], place.path)])
  {
    var v := store[place.root];
    var T, store' := S + {place}, store[place.root := Take(v, place.path)];
    forall x, path | x in store' ensures HoleAt(store'[x], path) <==> Gone(T, Place(x, path)) {
      OneMoreGone(S, place, Place(x, path));
      if x == place.root {
        TakeMakesAHole(v, place.path, path);
      }
    }
  }

  lemma OneMoreGone(S: State, place: Place, q: Place)
    ensures Gone(S + {place}, q) <==> Gone(S, q) || Within(q, place)
  {
    if Gone(S, q) {
      var n :| n in S && Within(q, n);
      assert n in S + {place};
    }
    assert place in S + {place};
  }

  lemma {:induction false} AssignIsExact(place: Place, scope: set<Name>, S: State, store: Store, ch: Choices)
    requires store.Keys == scope && Matches(S, store)
    ensures Exact(RunAssign(place, store, ch), CheckAssign(place, scope, S), scope)
  {
    if place.root in scope {
      var v := store[place.root];
      if exists m :: m in S && Within(place, m) && m != place {
        var m :| m in S && Within(place, m) && m != place;
        assert m.path == place.path[..|m.path|];
        assert |m.path| == |place.path| ==> m.path == place.path;
        assert HoleAt(v, place.path[..|m.path|]);
      } else {
        assert Covers(S, store);
        AssignAgrees(place, scope, S, store, ch);
        var T, store' := CheckAssign(place, scope, S).moved, store[place.root := Put(v, place.path)];
        assert HasParent(v, place.path);
        forall x, path | x in store' ensures Gone(T, Place(x, path)) ==> HoleAt(store'[x], path) {
          if Gone(T, Place(x, path)) {
            GoneIsStillAHole(place, S, store, x, path);
          }
        }
      }
    }
  }

  /** What is gone after an assignment was gone before, and is not in the place assigned. */
  lemma GoneIsStillAHole(place: Place, S: State, store: Store, x: Name, path: Path)
    requires Matches(S, store) && place.root in store && x in store && HasParent(store[place.root], place.path)
    requires !exists m :: m in S && Within(place, m) && m != place
    requires Gone((set m | m in S && !Within(m, place)), Place(x, path))
    ensures HoleAt(store[place.root := Put(store[place.root], place.path)][x], path)
  {
    var m :| m in S && !Within(m, place) && Within(Place(x, path), m);
    assert Gone(S, Place(x, path));
    if x == place.root {
      PutFillsHoles(store[x], place.path, path);
      if place.path <= path {
        PrefixesCompare(m.path, place.path, path);
        assert false;
      }
    }
  }

  lemma {:induction false} StraightExprIsExact(e: Expr, moves: bool, scope: set<Name>, S: State, store: Store,
      ch: Choices)
    requires StraightExpr(e) && store.Keys == scope && Matches(S, store)
    ensures Exact(RunExpr(e, moves, store, ch), CheckExpr(e, moves, scope, S), scope)
    ensures S <= CheckExpr(e, moves, scope, S).moved
    decreases e
  {
    match e
    case Literal =>
    case Use(place, moveOnly, pinned) => UseIsExact(place, moveOnly, pinned, moves, scope, S, store, ch);
    case Eval(parts) => StraightArgsAreExact(parts, scope, S, store, ch);
    case Call(callee, takesCallee, args) =>
      StraightExprIsExact(callee, takesCallee, scope, S, store, ch);
      var f := CheckExpr(callee, takesCallee, scope, S);
      var r := RunExpr(callee, takesCallee, store, ch);
      StraightArgsGrow(args, scope, f.moved);
      assert CheckExpr(e, moves, scope, S).moved == CheckArgs(args, scope, f.moved).moved;
      if f.errors == 0 {
        StraightArgsAreExact(args, scope, f.moved, r.store, r.rest);
      }
  }

  lemma {:induction false} StraightExprGrows(e: Expr, moves: bool, scope: set<Name>, S: State)
    requires StraightExpr(e)
    ensures S <= CheckExpr(e, moves, scope, S).moved
    decreases e
  {
    match e
    case Literal =>
    case Use(_, _, _) =>
    case Eval(parts) => StraightArgsGrow(parts, scope, S);
    case Call(callee, takesCallee, args) =>
      StraightExprGrows(callee, takesCallee, scope, S);
      StraightArgsGrow(args, scope, CheckExpr(callee, takesCallee, scope, S).moved);
  }

  lemma {:induction false} StraightArgsGrow(args: Args, scope: set<Name>, S: State)
    requires StraightArgs(args)
    ensures S <= CheckArgs(args, scope, S).moved
    decreases args
  {
    if args.Arg? {
      StraightExprGrows(args.e, args.moves, scope, S);
      StraightArgsGrow(args.rest, scope, CheckExpr(args.e, args.moves, scope, S).moved);
    }
  }

  lemma {:induction false} StraightArgsAreExact(args: Args, scope: set<Name>, S: State, store: Store, ch: Choices)
    requires StraightArgs(args) && store.Keys == scope && Matches(S, store)
    ensures Exact(RunArgs(args, store, ch), CheckArgs(args, scope, S), scope)
    ensures S <= CheckArgs(args, scope, S).moved
    decreases args
  {
    StraightArgsGrow(args, scope, S);
    if args.Arg? {
      StraightExprIsExact(args.e, args.moves, scope, S, store, ch);
      var a, r := CheckExpr(args.e, args.moves, scope, S), RunExpr(args.e, args.moves, store, ch);
      if a.errors == 0 {
        StraightArgsAreExact(args.rest, scope, a.moved, r.store, r.rest);
      }
    }
  }

  /** On straight-line code the checker accepts exactly the bodies that run to their end:
      it reports an error if and only if the run gets stuck. */
  lemma {:induction false} StraightBlockIsExact(b: Block, scope: set<Name>, S: State, store: Store, ch: Choices)
    requires StraightBlock(b) && store.Keys == scope && Matches(S, store)
    ensures CheckBlock(b, scope, S).errors == 0 <==> RunBlock(b, store, ch) != Stuck
    ensures CheckBlock(b, scope, S).errors == 0 ==> RunBlock(b, store, ch).Done?
    decreases b
  {
    match b
    case End =>
    case Tail(e) => StraightExprIsExact(e, true, scope, S, store, ch);
    case Seq(s, rest) =>
      var a, r := CheckStmt(s, scope, S), RunStmt(s, store, ch);
      StraightStmtIsExact(s, scope, S, store, ch);
      if a.errors == 0 {
        StraightBlockIsExact(rest, scope + Binds(s), a.moved, r.store, r.rest);
      }
  }

  lemma {:induction false} StraightStmtIsExact(s: Stmt, scope: set<Name>, S: State, store: Store, ch: Choices)
    requires StraightStmt(s) && store.Keys == scope && Matches(S, store)
    ensures Exact(RunStmt(s, store, ch), CheckStmt(s, scope, S), scope + Binds(s)) && !CheckStmt(s, scope, S).left
  {
    match s
    case Let(x, value) =>
      StraightExprIsExact(value, true, scope, S, store, ch);
      var v, r := CheckExpr(value, true, scope, S), RunExpr(value, true, store, ch);
      if v.errors == 0 {
        var T, store' := Forget(v.moved, x), r.store[x := Whole];
        forall y, path | y in store' ensures HoleAt(store'[y], path) <==> Gone(T, Place(y, path)) {
          if y != x && HoleAt(store'[y], path) {
            var m :| m in v.moved && Within(Place(y, path), m);
            assert m in T;
          }
        }
      }
    case Do(e) => StraightExprIsExact(e, false, scope, S, store, ch);
    case Assign(target, value) =>
      assert scope + Binds(s) == scope;
      StraightExprIsExact(value, true, scope, S, store, ch);
      var v, r := CheckExpr(value, true, scope, S), RunExpr(value, true, store, ch);
      if v.errors == 0 {
        match target {
          case ToPlace(place) => AssignIsExact(place, scope, v.moved, r.store, r.rest);
          case ToOther(e) => StraightExprIsExact(e, false, scope, v.moved, r.store, r.rest);
        }
        var t := CheckTarget(target, scope, v.moved);
        assert Exact(RunTarget(target, r.store, r.rest), t, scope);
        assert CheckStmt(s, scope, S) == Then(v, t).(left := false);
      }
  }

  // ---- the paths that are not joined --------------------------------------

  /** A phrase is safe to skip: what is moved before it, or a parent of it, is still moved
      after it, because the phrase sets it or leaves it alone. `end` is the phrase's effect on each place. */
  predicate Keeps(end: Place -> Effect, scope: set<Name>, S: State) {
    forall m :: m in S && m.root in scope ==>
      exists k :: 0 <= k <= |m.path| && StaysGone(end, S, Place(m.root, m.path[..k]))
  }

  predicate StaysGone(end: Place -> Effect, S: State, q: Place) {
    Apply(end(q), q in S)
  }

  predicate SafeToSkip(thn: Block, scope: set<Name>, S: State) {
    Keeps(q => BlockEffects(thn, scope, q).end, scope, S)
  }

  predicate SafeToSkipOperand(r: Expr, scope: set<Name>, S: State) {
    Keeps(q => ExprEffects(r, false, scope, q).end, scope, S)
  }

  lemma KeptIsIncluded(end: Place -> Effect, scope: set<Name>, S: State, after: State)
    requires forall q: Place :: q.root in scope ==> (q in after <==> Apply(end(q), q in S))
    ensures Includes(after, Restrict(S, scope)) <==> Keeps(end, scope, S)
  {
    forall m | m in S && m.root in scope
      ensures Gone(after, m) <==> exists k :: 0 <= k <= |m.path| && StaysGone(end, S, Place(m.root, m.path[..k]))
    {
      if Gone(after, m) {
        var n :| n in after && Within(m, n);
        assert n == Place(m.root, m.path[..|n.path|]);
      }
      if k :| 0 <= k <= |m.path| && StaysGone(end, S, Place(m.root, m.path[..k])) {
        var n := Place(m.root, m.path[..k]);
        assert n in after && Within(m, n);
      }
    }
    assert forall m :: m in Restrict(S, scope) <==> m in S && m.root in scope;
  }

  lemma SkipIsIncludedExactly(thn: Block, scope: set<Name>, S: State)
    requires CheckBlock(thn, scope, S).errors == 0
    ensures Includes(Pop(CheckBlock(thn, scope, S), scope).moved, Restrict(S, scope)) <==> SafeToSkip(thn, scope, S)
  {
    var after := Pop(CheckBlock(thn, scope, S), scope).moved;
    forall q: Place | q.root in scope
      ensures q in after <==> Apply(BlockEffects(thn, scope, q).end, q in S)
    {
      BlockIsGenKill(thn, scope, S, q);
    }
    KeptIsIncluded(q => BlockEffects(thn, scope, q).end, scope, S, after);
  }

  lemma SkippedOperandIsIncludedExactly(r: Expr, scope: set<Name>, S: State)
    requires CheckExpr(r, false, scope, S).errors == 0
    ensures Includes(CheckExpr(r, false, scope, S).moved, Restrict(S, scope)) <==> SafeToSkipOperand(r, scope, S)
  {
    var after := CheckExpr(r, false, scope, S).moved;
    forall q: Place | q.root in scope
      ensures q in after <==> Apply(ExprEffects(r, false, scope, q).end, q in S)
    {
      ExprIsGenKill(r, false, scope, S, q);
    }
    KeptIsIncluded(q => ExprEffects(r, false, scope, q).end, scope, S, after);
  }

  /** A statement and then a use of `u`. */
  function ThenUse(s: Stmt, u: Place): Block {
    Seq(s, Tail(Use(u, false, false)))
  }

  /** No use after the statement that the checker accepts is stuck, from any store the state covers. */
  ghost predicate UsesAreSound(s: Stmt, scope: set<Name>, S: State) {
    forall u, store, ch :: UseIsSound(s, u, scope, S, store, ch)
  }

  ghost predicate UseIsSound(s: Stmt, u: Place, scope: set<Name>, S: State, store: Store, ch: Choices) {
    store.Keys == scope && Covers(S, store) && CheckBlock(ThenUse(s, u), scope, S).errors == 0
    ==> RunBlock(ThenUse(s, u), store, ch) != Stuck
  }

  /** An else-less `if` whose block falls through is checked soundly if and only if the
      block is safe to skip: otherwise some use after it is accepted and sticks. */
  lemma ElseLessIfIsSoundExactly(thn: Block, scope: set<Name>, S: State)
    requires CheckBlock(thn, scope, S).errors == 0 && !CheckBlock(thn, scope, S).left && JoinsBlock(thn, scope, S)
    ensures SafeToSkip(thn, scope, S) <==> UsesAreSound(Do(IfOnly(Literal, thn)), scope, S)
  {
    var e := IfOnly(Literal, thn);
    SkipIsIncludedExactly(thn, scope, S);
    IfOnlyIs(thn, scope, S);
    if SafeToSkip(thn, scope, S) {
      JoinedStmtIsSound(Do(e), scope, S);
    } else {
      SkippedIsMissed(e, scope, S);
    }
  }

  /** An `if` or `&&` that may be skipped, and that gives back what was moved before it. */
  lemma SkippedIsMissed(e: Expr, scope: set<Name>, S: State)
    requires (e.IfOnly? && e.cond == Literal) || (e.ShortCircuit? && e.left == Literal)
    requires CheckExpr(e, false, scope, S).errors == 0 &&
      !Includes(CheckExpr(e, false, scope, S).moved, Restrict(S, scope))
    ensures !UsesAreSound(Do(e), scope, S)
  {
    var store := StoreFor(S, scope);
    assert RunExpr(Literal, false, store, [false]) == Done(store, [false]);
    assert RunStmt(Do(e), store, [false]) == Done(store, []);
    MissedUse(Do(e), scope, S, store, [false], S, store);
  }

  lemma IfOnlyIs(thn: Block, scope: set<Name>, S: State)
    requires CheckBlock(thn, scope, S).errors == 0 && !CheckBlock(thn, scope, S).left
    ensures
      var o := CheckExpr(IfOnly(Literal, thn), false, scope, S);
      o.errors == 0 && o.moved == Pop(CheckBlock(thn, scope, S), scope).moved
    ensures
      JoinsExpr(IfOnly(Literal, thn), false, scope, S) <==>
      JoinsBlock(thn, scope, S) && Includes(Pop(CheckBlock(thn, scope, S), scope).moved, Restrict(S, scope))
  {
    assert CheckExpr(Literal, false, scope, S) == Plain(S);
  }

  /** `? && r` is checked soundly if and only if its operand is safe to skip. */
  lemma ShortCircuitIsSoundExactly(r: Expr, scope: set<Name>, S: State)
    requires CheckExpr(r, false, scope, S).errors == 0 && JoinsExpr(r, false, scope, S)
    ensures SafeToSkipOperand(r, scope, S) <==> UsesAreSound(Do(ShortCircuit(Literal, r)), scope, S)
  {
    var e := ShortCircuit(Literal, r);
    SkippedOperandIsIncludedExactly(r, scope, S);
    ShortCircuitIs(r, scope, S);
    if SafeToSkipOperand(r, scope, S) {
      JoinedStmtIsSound(Do(e), scope, S);
    } else {
      SkippedIsMissed(e, scope, S);
    }
  }

  lemma ShortCircuitIs(r: Expr, scope: set<Name>, S: State)
    ensures
      var o := CheckExpr(ShortCircuit(Literal, r), false, scope, S);
      o.errors == CheckExpr(r, false, scope, S).errors && o.moved == CheckExpr(r, false, scope, S).moved
    ensures
      JoinsExpr(ShortCircuit(Literal, r), false, scope, S) <==>
      JoinsExpr(r, false, scope, S) && Includes(CheckExpr(r, false, scope, S).moved, Restrict(S, scope))
  {
    assert CheckExpr(Literal, false, scope, S) == Plain(S);
  }

  /** Whatever the condition moves is gone in the state after the loop, which holds the head and the `break`s. */
  ghost predicate ExitHoldsWhatMoves(cond: Expr, scope: set<Name>, exit: State) {
    forall m: Place :: m.root in scope && ExprEffects(cond, false, scope, m).end == Set ==> Gone(exit, m)
  }

  /** A loop is checked soundly at its exit if and only if the exit state holds what its condition moves. */
  lemma LoopExitIsSoundExactly(s: Stmt, scope: set<Name>, S: State)
    requires s.While? && StraightExpr(s.cond) && CheckLoop(s, scope, S).errors == 0
    requires JoinsBlock(s.body, scope, CheckExpr(s.cond, false, scope, Settle(s, scope, S, MAX_PASSES).head).moved)
    ensures ExitHoldsWhatMoves(s.cond, scope, CheckLoop(s, scope, S).moved) <==> UsesAreSound(s, scope, S)
  {
    var head, exit := Settle(s, scope, S, MAX_PASSES).head, CheckLoop(s, scope, S).moved;
    LoopSettles(s, scope, S, MAX_PASSES);
    assert exit == ExitState(s, scope, head);
    ExitIncludesExactly(s.cond, scope, head, exit);
    if ExitHoldsWhatMoves(s.cond, scope, exit) {
      StraightExprJoins(s.cond, false, scope, head);
      assert JoinsLoop(s, scope, head);
      JoinedStmtIsSound(s, scope, S);
    } else {
      assert Iterate(s, scope, S).errors == 0;
      ExitThatMissesIsUnsound(s, scope, S);
    }
  }

  lemma ExitThatMissesIsUnsound(s: Stmt, scope: set<Name>, S: State)
    requires s.While? && StraightExpr(s.cond) && CheckLoop(s, scope, S).errors == 0
    requires CheckExpr(s.cond, false, scope, S).errors == 0
    requires !ExitHoldsWhatMoves(s.cond, scope, CheckLoop(s, scope, S).moved)
    ensures !UsesAreSound(s, scope, S)
  {
    var store := StoreFor(S, scope);
    var left := ConditionFails(s, scope, S, store);
    ExitMisses(s.cond, scope, S, CheckLoop(s, scope, S).moved);
    WhileIsItsLoop(s, scope, S, store, [false]);
    MissedUse(s, scope, S, store, [false], CheckExpr(s.cond, false, scope, S).moved, left);
  }

  lemma WhileIsItsLoop(s: Stmt, scope: set<Name>, S: State, store: Store, ch: Choices)
    requires s.While?
    ensures CheckStmt(s, scope, S) == CheckLoop(s, scope, S) && !CheckLoop(s, scope, S).left
    ensures RunStmt(s, store, ch) == RunLoop(s, store, ch) && Binds(s) == {}
  {
  }

  /** A run in which the condition fails at once. */
  lemma ConditionFails(s: Stmt, scope: set<Name>, S: State, store: Store) returns (left: Store)
    requires s.While? && StraightExpr(s.cond) && CheckExpr(s.cond, false, scope, S).errors == 0
    requires store.Keys == scope && Matches(S, store)
    ensures RunLoop(s, store, [false]) == Done(left, [])
    ensures left.Keys == scope && Matches(CheckExpr(s.cond, false, scope, S).moved, left)
  {
    StraightExprIsExact(s.cond, false, scope, S, store, [false]);
    StraightExprKeepsChoices(s.cond, false, store, [false]);
    left := RunExpr(s.cond, false, store, [false]).store;
  }

  lemma ExitIncludesExactly(cond: Expr, scope: set<Name>, head: State, exit: State)
    requires CheckExpr(cond, false, scope, head).errors == 0 && head <= exit
    ensures Includes(exit, Restrict(CheckExpr(cond, false, scope, head).moved, scope)) <==>
      ExitHoldsWhatMoves(cond, scope, exit)
  {
    var c := CheckExpr(cond, false, scope, head).moved;
    forall m: Place | m.root in scope
      ensures m in c <==> Apply(ExprEffects(cond, false, scope, m).end, m in head)
    {
      ExprIsGenKill(cond, false, scope, head, m);
    }
    if Includes(exit, Restrict(c, scope)) {
      forall m: Place | m.root in scope && ExprEffects(cond, false, scope, m).end == Set ensures Gone(exit, m) {
        assert m in Restrict(c, scope);
      }
    } else {
      var m :| m in Restrict(c, scope) && !Gone(exit, m);
      assert m in head ==> m in exit && Within(m, m);
    }
  }

  lemma ExitMisses(cond: Expr, scope: set<Name>, S: State, exit: State)
    requires CheckExpr(cond, false, scope, S).errors == 0 && !ExitHoldsWhatMoves(cond, scope, exit)
    ensures !Includes(exit, Restrict(CheckExpr(cond, false, scope, S).moved, scope))
  {
    var m: Place :| m.root in scope && ExprEffects(cond, false, scope, m).end == Set && !Gone(exit, m);
    ExprIsGenKill(cond, false, scope, S, m);
    assert m in Restrict(CheckExpr(cond, false, scope, S).moved, scope);
  }

  lemma {:induction false} StraightExprJoins(e: Expr, moves: bool, scope: set<Name>, S: State)
    requires StraightExpr(e)
    ensures JoinsExpr(e, moves, scope, S)
    decreases e
  {
    match e
    case Literal =>
    case Use(_, _, _) =>
    case Eval(parts) => StraightArgsJoin(parts, scope, S);
    case Call(callee, takesCallee, args) =>
      StraightExprJoins(callee, takesCallee, scope, S);
      StraightArgsJoin(args, scope, CheckExpr(callee, takesCallee, scope, S).moved);
  }

  lemma {:induction false} StraightArgsJoin(args: Args, scope: set<Name>, S: State)
    requires StraightArgs(args)
    ensures JoinsArgs(args, scope, S)
    decreases args
  {
    if args.Arg? {
      StraightExprJoins(args.e, args.moves, scope, S);
      StraightArgsJoin(args.rest, scope, CheckExpr(args.e, args.moves, scope, S).moved);
    }
  }

  lemma {:induction false} StraightExprKeepsChoices(e: Expr, moves: bool, store: Store, ch: Choices)
    requires StraightExpr(e)
    ensures var r := RunExpr(e, moves, store, ch); r == Stuck || (r.Done? && r.rest == ch)
    decreases e
  {
    match e
    case Literal =>
    case Use(_, _, _) =>
    case Eval(parts) => StraightArgsKeepChoices(parts, store, ch);
    case Call(callee, takesCallee, args) =>
      StraightExprKeepsChoices(callee, takesCallee, store, ch);
      var r := RunExpr(callee, takesCallee, store, ch);
      if r.Done? {
        StraightArgsKeepChoices(args, r.store, ch);
      }
  }

  lemma {:induction false} StraightArgsKeepChoices(args: Args, store: Store, ch: Choices)
    requires StraightArgs(args)
    ensures var r := RunArgs(args, store, ch); r == Stuck || (r.Done? && r.rest == ch)
    decreases args
  {
    if args.Arg? {
      StraightExprKeepsChoices(args.e, args.moves, store, ch);
      var r := RunExpr(args.e, args.moves, store, ch);
      if r.Done? {
        StraightArgsKeepChoices(args.rest, r.store, ch);
      }
    }
  }

  /** A statement whose joins are made and which the checker goes on after. */
  lemma JoinedStmtIsSound(s: Stmt, scope: set<Name>, S: State)
    requires JoinsStmt(s, scope, S) && Binds(s) == {}
    ensures UsesAreSound(s, scope, S)
  {
    forall u, store, ch ensures UseIsSound(s, u, scope, S, store, ch) {
      if store.Keys == scope && Covers(S, store) && CheckBlock(ThenUse(s, u), scope, S).errors == 0 {
        assert JoinsBlock(Tail(Use(u, false, false)), scope + Binds(s), CheckStmt(s, scope, S).moved);
        assert JoinsBlock(ThenUse(s, u), scope, S);
        BlockAgrees(ThenUse(s, u), scope, S, store, ch);
      }
    }
  }

  /** When a run leaves a store with holes the checker's state does not include, some use of one
      of them is accepted and sticks. */
  lemma MissedUse(s: Stmt, scope: set<Name>, S: State, store: Store, ch: Choices, c: State, left: Store)
    requires Binds(s) == {} && CheckStmt(s, scope, S).errors == 0 && !CheckStmt(s, scope, S).left
    requires store.Keys == scope && Matches(S, store)
    requires RunStmt(s, store, ch) == Done(left, []) && left.Keys == scope && Matches(c, left)
    requires !Includes(CheckStmt(s, scope, S).moved, Restrict(c, scope))
    ensures !UsesAreSound(s, scope, S)
  {
    var u := MissedPlace(CheckStmt(s, scope, S).moved, Restrict(c, scope));
    GoneIsNotIntact(c, scope, left, u);
    MatchesCovers(S, store);
    UseSticks(s, u, scope, S, store, ch, left);
  }

  lemma UseSticks(s: Stmt, u: Place, scope: set<Name>, S: State, store: Store, ch: Choices, left: Store)
    requires Binds(s) == {} && CheckStmt(s, scope, S).errors == 0 && !CheckStmt(s, scope, S).left
    requires store.Keys == scope && Covers(S, store) && RunStmt(s, store, ch) == Done(left, [])
    requires u.root in left && !Intact(left[u.root], u.path)
    requires !exists n :: n in CheckStmt(s, scope, S).moved && Overlaps(n, u)
    ensures !UseIsSound(s, u, scope, S, store, ch)
  {
    ThenUseIs(s, u, scope, S, store, ch);
  }

  lemma MatchesCovers(S: State, store: Store)
    requires Matches(S, store)
    ensures Covers(S, store)
  {
  }

  /** The check of a use after a statement, and its run. */
  lemma ThenUseIs(s: Stmt, u: Place, scope: set<Name>, S: State, store: Store, ch: Choices)
    requires Binds(s) == {} && !CheckStmt(s, scope, S).left
    ensures
      var a := CheckStmt(s, scope, S);
      CheckBlock(ThenUse(s, u), scope, S).errors == a.errors + CheckUse(u, false, false, true, scope, a.moved).errors
    ensures RunStmt(s, store, ch).Done? ==>
      RunBlock(ThenUse(s, u), store, ch) ==
        RunUse(u, false, false, true, RunStmt(s, store, ch).store, RunStmt(s, store, ch).rest)
  {
    assert scope + Binds(s) == scope;
    var use, after := Tail(Use(u, false, false)), CheckStmt(s, scope, S).moved;
    assert CheckBlock(use, scope, after).errors == CheckUse(u, false, false, true, scope, after).errors;
    if RunStmt(s, store, ch).Done? {
      var r := RunStmt(s, store, ch);
      assert RunBlock(use, r.store, r.rest) == RunUse(u, false, false, true, r.store, r.rest);
    }
  }

  lemma GoneIsNotIntact(S: State, scope: set<Name>, store: Store, u: Place)
    requires store.Keys == scope && Matches(S, store) && Gone(Restrict(S, scope), u)
    ensures u.root in store && !Intact(store[u.root], u.path)
  {
    var m :| m in Restrict(S, scope) && Within(u, m);
    assert m in S && u.path + [] == u.path;
    assert HoleAt(store[u.root], u.path + []);
  }

  /** A place gone before that nothing moved after overlaps. */
  lemma MissedPlace(after: State, before: State) returns (u: Place)
    requires !Includes(after, before)
    ensures Gone(before, u) && !exists n :: n in after && Overlaps(n, u)
  {
    var m :| m in before && !Gone(after, m);
    var field := FreshField(after);
    u := Place(m.root, m.path + [field]);
    NothingBelow(after, m, field);
    assert Within(u, m);
  }

  /** A field name no path in `S` mentions. */
  lemma {:induction false} FreshField(S: State) returns (field: string)
    ensures forall m :: m in S ==> field !in m.path
  {
    var names := set m, f | m in S && f in m.path :: f;
    field := LongerThanAll(names);
    assert forall m, f :: m in S && f in m.path ==> f in names;
  }

  lemma {:induction false} LongerThanAll(names: set<string>) returns (longer: string)
    ensures forall f :: f in names ==> |f| < |longer|
    decreases |names|
  {
    if names == {} {
      longer := "";
    } else {
      var f :| f in names;
      var rest := LongerThanAll(names - {f});
      longer := rest + f + "x";
    }
  }

  lemma NothingBelow(S: State, m: Place, field: string)
    requires !Gone(S, m) && forall n :: n in S ==> field !in n.path
    ensures !exists n :: n in S && Overlaps(n, Place(m.root, m.path + [field]))
  {
    forall n | n in S && Overlaps(n, Place(m.root, m.path + [field])) ensures false {
      OverlapsBelow(n, m, field);
    }
  }

  lemma OverlapsBelow(n: Place, m: Place, field: string)
    requires Overlaps(n, Place(m.root, m.path + [field]))
    ensures Within(m, n) || field in n.path
  {
    var u := m.path + [field];
    if u <= n.path {
      assert n.path[|m.path|] == field;
    } else {
      assert n.path == u[..|n.path|] && |n.path| != |u|;
      assert n.path == m.path[..|n.path|];
    }
  }

  // ---- bodies that are accepted and stick ---------------------------------

  /** `give(x)`: a call that takes its move-only argument. */
  function Give(x: Name): Expr {
    Call(Literal, false, Arg(Use(Place(x, []), true, false), true, NoArgs))
  }

  /** `x = ...` in a block of its own. */
  function Reown(x: Name): Block {
    Seq(Assign(ToPlace(Place(x, [])), Literal), End)
  }

  /** give(x); middle; give(x) */
  function Around(middle: Expr, x: Name): Block {
    Seq(Do(Give(x)), Seq(Do(middle), Tail(Give(x))))
  }

  function Owned(x: Name): Store {
    map[x := Whole]
  }

  function Given(x: Name): Store {
    map[x := Hole]
  }

  lemma GiveChecks(x: Name, moves: bool)
    ensures CheckExpr(Give(x), moves, {x}, {}) == Plain({Place(x, [])})
  {
    var use := Use(Place(x, []), true, false);
    assert CheckExpr(use, true, {x}, {}) == Plain({Place(x, [])});
    assert CheckArgs(Arg(use, true, NoArgs), {x}, {}) == Plain({Place(x, [])});
  }

  lemma GiveRuns(x: Name, moves: bool, ch: Choices)
    ensures RunExpr(Give(x), moves, Owned(x), ch) == Done(Given(x), ch)
    ensures RunExpr(Give(x), moves, Given(x), ch) == Stuck
  {
    var use := Use(Place(x, []), true, false);
    assert forall store ::
      RunArgs(Arg(use, true, NoArgs), store, ch) == RunUse(Place(x, []), true, false, true, store, ch);
    assert Owned(x)[x := Hole] == Given(x);
    assert Intact(Owned(x)[x], []);
    assert HoleAt(Given(x)[x], [] + []);
  }

  lemma ReownChecks(x: Name)
    ensures forall S: State :: S <= {Place(x, [])} ==> CheckBlock(Reown(x), {x}, S) == Plain({})
  {
    forall S: State | S <= {Place(x, [])} ensures CheckBlock(Reown(x), {x}, S) == Plain({}) {
      ReownChecksFrom(x, S);
    }
  }

  lemma ReownChecksFrom(x: Name, S: State)
    requires S <= {Place(x, [])}
    ensures CheckBlock(Reown(x), {x}, S) == Plain({})
  {
    var p := Place(x, []);
    AssignChecksFrom(x, S);
    AssignedLiteral(p, {x}, S);
    OneStmtBlock(Assign(ToPlace(p), Literal), {x}, S);
  }

  lemma AssignedLiteral(place: Place, scope: set<Name>, S: State)
    ensures CheckStmt(Assign(ToPlace(place), Literal), scope, S) ==
      Then(Plain(S), CheckAssign(place, scope, S)).(left := false)
  {
    assert CheckExpr(Literal, true, scope, S) == Plain(S);
    assert CheckTarget(ToPlace(place), scope, S) == CheckAssign(place, scope, S);
  }

  lemma OneStmtBlock(s: Stmt, scope: set<Name>, S: State)
    requires CheckStmt(s, scope, S) == Plain({})
    ensures CheckBlock(Seq(s, End), scope, S) == Plain({})
  {
    assert CheckBlock(End, scope + Binds(s), {}) == Plain({});
  }

  lemma AssignChecksFrom(x: Name, S: State)
    requires S <= {Place(x, [])}
    ensures CheckAssign(Place(x, []), {x}, S) == Plain({})
  {
  }

  /** When `middle` is checked as owning `x` again but may be skipped, the body is accepted and sticks. */
  lemma AroundIsUnsound(middle: Expr, x: Name)
    requires CheckExpr(middle, false, {x}, {Place(x, [])}) == Plain({})
    requires RunExpr(middle, false, Given(x), [false]) == Done(Given(x), [])
    ensures CheckBlock(Around(middle, x), {x}, {}).errors == 0
    ensures RunBlock(Around(middle, x), Owned(x), [false]) == Stuck
  {
    var last := Seq(Do(middle), Tail(Give(x)));
    assert {x} + {} == {x};
    GiveChecks(x, false);
    GiveChecks(x, true);
    assert CheckBlock(last, {x}, {Place(x, [])}).errors == 0;
    GiveRuns(x, false, [false]);
    GiveRuns(x, true, []);
    assert RunBlock(last, Given(x), [false]) == Stuck;
  }

  /** give(x); if ? { x = ... }; give(x) is accepted, and sticks when the block is skipped. */
  lemma ElseLessIfIsUnsound(x: Name)
    ensures CheckBlock(Around(IfOnly(Literal, Reown(x)), x), {x}, {}).errors == 0
    ensures RunBlock(Around(IfOnly(Literal, Reown(x)), x), Owned(x), [false]) == Stuck
  {
    ReownChecks(x);
    AroundIsUnsound(IfOnly(Literal, Reown(x)), x);
  }

  /** give(x); ? && { x = ... }; give(x) is accepted, and sticks when the operand is skipped. */
  lemma ShortCircuitIsUnsound(x: Name)
    ensures CheckBlock(Around(ShortCircuit(Literal, Scoped(Reown(x))), x), {x}, {}).errors == 0
    ensures RunBlock(Around(ShortCircuit(Literal, Scoped(Reown(x))), x), Owned(x), [false]) == Stuck
  {
    ReownChecks(x);
    assert CheckExpr(Scoped(Reown(x)), false, {x}, {Place(x, [])}) == Plain({});
    AroundIsUnsound(ShortCircuit(Literal, Scoped(Reown(x))), x);
  }

  /** while give(x) { x = ... }; give(x) is accepted, and sticks when the condition fails at once. */
  lemma MovingConditionIsUnsound(x: Name)
    ensures CheckBlock(Seq(While(Give(x), Reown(x)), Tail(Give(x))), {x}, {}).errors == 0
    ensures RunBlock(Seq(While(Give(x), Reown(x)), Tail(Give(x))), Owned(x), [false]) == Stuck
  {
    var loop := While(Give(x), Reown(x));
    GiveChecks(x, false);
    GiveChecks(x, true);
    ReownChecks(x);
    assert {x} + {} == {x};
    assert Iterate(loop, {x}, {}) == Plain({});
    assert NextHead(Plain({}), {x}, {}) == {} by {
      var back: seq<State> := [{}];
      assert [] + back == back && JoinAll(back) == {};
    }
    assert CheckLoop(loop, {x}, {}) == Plain({});
    GiveRuns(x, false, [false]);
    GiveRuns(x, true, []);
    assert RunLoop(loop, Owned(x), [false]) == Done(Given(x), []);
  }
}
