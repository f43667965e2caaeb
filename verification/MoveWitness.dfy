/** What the move checker takes to be moved in a body it accepts, some run has moved. */
module MoveWitness {
  import opened OwnershipSyntax
  import opened MoveRules
  import opened Execution
  import opened MoveSoundness
  import opened LiveCode
  import opened Reaching
  import MoveEffects

  // ---- what a phrase shows of one place -----------------------------------

  predicate Missing(store: Store, m: Place) {
    m.root in store && HoleAt(store[m.root], m.path)
  }

  /** If the state has the place, the store is missing it. */
  predicate Tracks(m: Place, S: State, scope: set<Name>, store: Store) {
    m in S && m.root in scope ==> Missing(store, m)
  }

  ghost predicate ShowsEnd(p: Phrase, store: Store, moved: State, scope: set<Name>, m: Place) {
    exists s :: Reaches(p, store, Done(s, [])) && Tracks(m, moved, scope, s)
  }

  ghost predicate ShowsBreak(p: Phrase, store: Store, m: Place) {
    exists s :: Reaches(p, store, Broke(s, [])) && Missing(s, m)
  }

  ghost predicate ShowsContinue(p: Phrase, store: Store, m: Place) {
    exists s :: Reaches(p, store, Continued(s, [])) && Missing(s, m)
  }

  /** Where the checker's result has the place moved, some run has moved it: at the end, if the phrase flows on, in the
      scope there, and at a `break` and a `continue`. */
  ghost predicate Shows(p: Phrase, store: Store, o: Out, scope: set<Name>, after: set<Name>, m: Place, flows: bool) {
    && (flows ==> ShowsEnd(p, store, o.moved, after, m))
    && (m in JoinAll(o.breaks) && m.root in scope ==> ShowsBreak(p, store, m))
    && (m in JoinAll(o.continues) && m.root in scope ==> ShowsContinue(p, store, m))
  }

  lemma WholeShows(p: Phrase, store: Store, o: Out, scope: set<Name>, after: set<Name>, m: Place, flows: bool)
    requires Shows(Parts(p), store, o, scope, after, m, flows)
    ensures Shows(p, store, o, scope, after, m, flows)
  {
    forall r | Reaches(Parts(p), store, r) ensures Reaches(p, store, r) {
      WholeReaches(p, store, r);
    }
    SameShows(Parts(p), p, store, o, scope, after, m, flows);
  }

  /** A part from which what the phrase reaches is reached shows the same. */
  lemma SameShows(p: Phrase, q: Phrase, store: Store, o: Out, scope: set<Name>, after: set<Name>, m: Place, flows: bool)
    requires Shows(p, store, o, scope, after, m, flows) && ReachesAll(p, q, store)
    ensures Shows(q, store, o, scope, after, m, flows)
  {
    if flows {
      var s :| Reaches(p, store, Done(s, [])) && Tracks(m, o.moved, after, s);
      assert Reaches(q, store, Done(s, []));
    }
    if ShowsBreak(p, store, m) {
      var s :| Reaches(p, store, Broke(s, [])) && Missing(s, m);
      assert Reaches(q, store, Broke(s, []));
    }
    if ShowsContinue(p, store, m) {
      var s :| Reaches(p, store, Continued(s, [])) && Missing(s, m);
      assert Reaches(q, store, Continued(s, []));
    }
  }

  ghost predicate ReachesAll(p: Phrase, q: Phrase, store: Store) {
    forall r :: Reaches(p, store, r) ==> Reaches(q, store, r)
  }

  /** The phrase, and from where it ends another; or there is no other. */
  lemma BothShow(p: Phrase, q: Phrase, store: Store, s1: Store, a: Out, b: Out, scope: set<Name>, mid: set<Name>,
      after: set<Name>, m: Place, flows: bool, flowsOn: bool)
    requires scope <= mid && Shows(p, store, a, scope, mid, m, flows)
    requires if flows then Reaches(p, store, Done(s1, [])) && Shows(q, s1, b, mid, after, m, flowsOn)
      else b.breaks == [] && b.continues == []
    ensures Shows(Both(p, q), store, Then(a, b), scope, after, m, flows && flowsOn)
  {
    MoveEffects.JoinAllAppend(a.breaks, b.breaks);
    MoveEffects.JoinAllAppend(a.continues, b.continues);
    FirstShows(p, q, store, m);
    if flows {
      SecondShows(p, q, store, s1, b.moved, after, m);
    }
  }

  lemma FirstShows(p: Phrase, q: Phrase, store: Store, m: Place)
    ensures ShowsBreak(p, store, m) ==> ShowsBreak(Both(p, q), store, m)
    ensures ShowsContinue(p, store, m) ==> ShowsContinue(Both(p, q), store, m)
  {
    if ShowsBreak(p, store, m) {
      var s :| Reaches(p, store, Broke(s, [])) && Missing(s, m);
      FirstReaches(p, q, store, Broke(s, []));
    }
    if ShowsContinue(p, store, m) {
      var s :| Reaches(p, store, Continued(s, [])) && Missing(s, m);
      FirstReaches(p, q, store, Continued(s, []));
    }
  }

  lemma SecondShows(p: Phrase, q: Phrase, store: Store, s1: Store, moved: State, after: set<Name>, m: Place)
    requires Reaches(p, store, Done(s1, []))
    ensures ShowsEnd(q, s1, moved, after, m) ==> ShowsEnd(Both(p, q), store, moved, after, m)
    ensures ShowsBreak(q, s1, m) ==> ShowsBreak(Both(p, q), store, m)
    ensures ShowsContinue(q, s1, m) ==> ShowsContinue(Both(p, q), store, m)
  {
    forall r | Reaches(q, s1, r) && Spent(r) ensures Reaches(Both(p, q), store, r) {
      SecondReaches(p, q, store, s1, r);
    }
  }

  lemma ChoiceShows(p: Phrase, q: Phrase, store: Store, o: Out, scope: set<Name>, after: set<Name>, m: Place,
      flows: bool, yes: bool)
    requires Shows(if yes then p else q, store, o, scope, after, m, flows)
    ensures Shows(Choice(p, q), store, o, scope, after, m, flows)
  {
    forall r | Reaches(if yes then p else q, store, r) ensures Reaches(Choice(p, q), store, r) {
      ChoiceReaches(p, q, store, r, yes);
    }
    SameShows(if yes then p else q, Choice(p, q), store, o, scope, after, m, flows);
  }

  /** What two branches show together. */
  lemma BranchesShow(p: Phrase, q: Phrase, store: Store, t: Out, f: Out, moved: State, scope: set<Name>, m: Place,
      flows: bool)
    requires Shows(p, store, t, scope, scope, m, !t.left && flows)
    requires Shows(q, store, f, scope, scope, m, !f.left && flows)
    requires !(t.left && f.left) || !flows
    requires moved == if t.left then f.moved else if f.left then t.moved else t.moved + f.moved
    ensures Shows(Choice(p, q), store, Then(t, f).(moved := moved, left := false), scope, scope, m, flows)
  {
    MoveEffects.JoinAllAppend(t.breaks, f.breaks);
    MoveEffects.JoinAllAppend(t.continues, f.continues);
    ChoiceShows(p, q, store, t, scope, scope, m, !t.left && flows, true);
    ChoiceShows(p, q, store, f, scope, scope, m, !f.left && flows, false);
  }

  /** Leaving a scope keeps what is missing of the bindings around it. */
  lemma InsideShows(binds: set<Name>, p: Phrase, store: Store, o: Out, scope: set<Name>, m: Place, flows: bool)
    requires store.Keys == scope
    requires Shows(p, Bind(store, binds), o, scope + binds, scope + binds, m, flows)
    ensures Shows(Inside(binds, p), store, Pop(o, scope), scope, scope, m, flows)
  {
    if flows {
      InsideEnds(binds, p, store, o.moved, scope, m);
    }
    if m.root in scope {
      InsideLeaves(binds, p, store, m);
    }
  }

  lemma InsideEnds(binds: set<Name>, p: Phrase, store: Store, moved: State, scope: set<Name>, m: Place)
    requires store.Keys == scope && ShowsEnd(p, Bind(store, binds), moved, scope + binds, m)
    ensures ShowsEnd(Inside(binds, p), store, Restrict(moved, scope), scope, m)
  {
    var s :| Reaches(p, Bind(store, binds), Done(s, [])) && Tracks(m, moved, scope + binds, s);
    InsideReaches(binds, p, store, Done(s, []));
    assert Tracks(m, Restrict(moved, scope), scope, Keep(s, scope));
  }

  lemma InsideLeaves(binds: set<Name>, p: Phrase, store: Store, m: Place)
    requires m.root in store
    ensures ShowsBreak(p, Bind(store, binds), m) ==> ShowsBreak(Inside(binds, p), store, m)
    ensures ShowsContinue(p, Bind(store, binds), m) ==> ShowsContinue(Inside(binds, p), store, m)
  {
    if ShowsBreak(p, Bind(store, binds), m) {
      var s :| Reaches(p, Bind(store, binds), Broke(s, [])) && Missing(s, m);
      InsideReaches(binds, p, store, Broke(s, []));
      assert Missing(Keep(s, store.Keys), m);
    }
    if ShowsContinue(p, Bind(store, binds), m) {
      var s :| Reaches(p, Bind(store, binds), Continued(s, [])) && Missing(s, m);
      InsideReaches(binds, p, store, Continued(s, []));
      assert Missing(Keep(s, store.Keys), m);
    }
  }

  // ---- accepted phrases: what is moved, some run has moved ----------------

  /** A store the state covers, and of the place `m` it is no further on. */
  ghost predicate At(S: State, scope: set<Name>, store: Store, m: Place) {
    store.Keys == scope && Covers(S, store) && Tracks(m, S, scope, store)
  }

  lemma EndOfExpr(e: Expr, moves: bool, scope: set<Name>, S: State, store: Store, m: Place) returns (s1: Store)
    requires At(S, scope, store, m) && CheckExpr(e, moves, scope, S).errors == 0 && JoinsExpr(e, moves, scope, S)
    requires Shows(OfExpr(e, moves), store, CheckExpr(e, moves, scope, S), scope, scope, m, true)
    ensures Reaches(OfExpr(e, moves), store, Done(s1, [])) && At(CheckExpr(e, moves, scope, S).moved, scope, s1, m)
  {
    s1 :| Reaches(OfExpr(e, moves), store, Done(s1, [])) && Tracks(m, CheckExpr(e, moves, scope, S).moved, scope, s1);
    var ch :| RunOf(OfExpr(e, moves), store, ch) == Done(s1, []);
    ExprAgrees(e, moves, scope, S, store, ch);
  }

  lemma SkipShows(store: Store, moved: State, scope: set<Name>, m: Place)
    requires Tracks(m, moved, scope, store)
    ensures Shows(Skip, store, Plain(moved), scope, scope, m, true)
  {
    assert RunOf(Skip, store, []) == Done(store, []);
    assert Reaches(Skip, store, Done(store, []));
  }

  lemma QuitShows(store: Store, moved: State, scope: set<Name>, m: Place)
    ensures Shows(Quit, store, Plain(moved), scope, scope, m, false)
  {
  }

  lemma NothingNoted(a: Out)
    ensures Then(a, Plain(a.moved)).(left := a.left) == a
  {
  }

  lemma UseShows(place: Place, moveOnly: bool, pinned: bool, moves: bool, scope: set<Name>, S: State, store: Store,
      m: Place)
    requires At(S, scope, store, m) && CheckUse(place, moveOnly, pinned, moves, scope, S).errors == 0
    ensures ExprShown(Use(place, moveOnly, pinned), moves, scope, S, store, m)
  {
    var e := OfExpr(Use(place, moveOnly, pinned), moves);
    UseAgrees(place, moveOnly, pinned, moves, scope, S, store, []);
    var r := RunUse(place, moveOnly, pinned, moves, store, []);
    assert RunOf(e, store, []) == r;
    if place.root in scope && moves && moveOnly {
      TakeMakesAHole(store[place.root], place.path, m.path);
    }
    assert Reaches(e, store, Done(r.store, [])) && Tracks(m, CheckUse(place, moveOnly, pinned, moves, scope, S).moved,
      scope, r.store);
  }

  lemma AssignShows(place: Place, scope: set<Name>, S: State, store: Store, m: Place)
    requires At(S, scope, store, m) && CheckAssign(place, scope, S).errors == 0
    ensures Shows(OfTarget(ToPlace(place)), store, CheckAssign(place, scope, S), scope, scope, m, true)
  {
    var t := OfTarget(ToPlace(place));
    AssignAgrees(place, scope, S, store, []);
    var r := RunAssign(place, store, []);
    assert RunOf(t, store, []) == r;
    if place.root in scope {
      PutFillsHoles(store[place.root], place.path, m.path);
    }
    assert Reaches(t, store, Done(r.store, [])) && Tracks(m, CheckAssign(place, scope, S).moved, scope, r.store);
  }

  ghost predicate ExprShown(e: Expr, moves: bool, scope: set<Name>, S: State, store: Store, m: Place) {
    Shows(OfExpr(e, moves), store, CheckExpr(e, moves, scope, S), scope, scope, m, FlowsExpr(e, moves, scope, S))
  }

  lemma {:induction false} ExprShows(e: Expr, moves: bool, scope: set<Name>, S: State, store: Store, m: Place)
    requires At(S, scope, store, m) && CheckExpr(e, moves, scope, S).errors == 0
    requires JoinsExpr(e, moves, scope, S) && LiveExpr(e, moves, scope, S)
    ensures ExprShown(e, moves, scope, S, store, m)
    decreases e, 1
  {
    match e
    case Literal =>
      SkipShows(store, S, scope, m);
      WholeShows(OfExpr(e, moves), store, Plain(S), scope, scope, m, true);
    case Use(place, moveOnly, pinned) => UseShows(place, moveOnly, pinned, moves, scope, S, store, m);
    case Eval(parts) =>
      ArgsShow(parts, scope, S, store, m);
      WholeShows(OfExpr(e, moves), store, CheckArgs(parts, scope, S), scope, scope, m, FlowsArgs(parts, scope, S));
    case ShortCircuit(_, _) => ShortCircuitShows(e, moves, scope, S, store, m);
    case Call(_, _, _) => CallShows(e, moves, scope, S, store, m);
    case Try(_) => TryShows(e, moves, scope, S, store, m);
    case If(_, _, _) => IfShows(e, moves, scope, S, store, m);
    case IfOnly(_, _) => IfOnlyShows(e, moves, scope, S, store, m);
    case Match(_, _, _) => MatchShows(e, moves, scope, S, store, m);
    case Scoped(block) =>
      assert ForgetAll(S, {}) == S && scope + {} == scope;
      BlockInsideShows(block, {}, scope, S, store, m);
      WholeShows(OfExpr(e, moves), store, CheckExpr(e, moves, scope, S), scope, scope, m, FlowsBlock(block, scope, S));
    case Break => LeavesAtOnce(OfExpr(e, moves), scope, S, store, m);
    case Continue => LeavesAtOnce(OfExpr(e, moves), scope, S, store, m);
    case Return(value) => ReturnShows(OfExpr(e, moves), value, scope, S, store, m);
  }

  /** A `break` or a `continue`. */
  lemma LeavesAtOnce(p: Phrase, scope: set<Name>, S: State, store: Store, m: Place)
    requires At(S, scope, store, m)
    ensures RunOf(p, store, []) == Broke(store, []) ==>
      Shows(p, store, Plain(S).(breaks := [S]), scope, scope, m, false)
    ensures RunOf(p, store, []) == Continued(store, []) ==>
      Shows(p, store, Plain(S).(continues := [S]), scope, scope, m, false)
  {
    assert JoinAll([S]) == S by {
      assert [S][1..] == [];
    }
    if RunOf(p, store, []) == Broke(store, []) {
      assert Reaches(p, store, Broke(store, []));
    }
    if RunOf(p, store, []) == Continued(store, []) {
      assert Reaches(p, store, Continued(store, []));
    }
  }

  lemma {:induction false} ReturnShows(p: Phrase, value: Expr, scope: set<Name>, S: State, store: Store, m: Place)
    requires At(S, scope, store, m) && CheckExpr(value, true, scope, S).errors == 0
    requires JoinsExpr(value, true, scope, S) && LiveExpr(value, true, scope, S)
    requires Parts(p) == Both(OfExpr(value, true), Quit)
    ensures Shows(p, store, CheckExpr(value, true, scope, S), scope, scope, m, false)
    decreases value, 2
  {
    var a := CheckExpr(value, true, scope, S);
    ExprShows(value, true, scope, S, store, m);
    var flows := FlowsExpr(value, true, scope, S);
    var s1 := store;
    if flows {
      s1 := EndOfExpr(value, true, scope, S, store, m);
    }
    QuitShows(s1, a.moved, scope, m);
    BothShow(OfExpr(value, true), Quit, store, s1, a, Plain(a.moved), scope, scope, scope, m, flows, false);
    NothingNoted(a);
    WholeShows(p, store, a, scope, scope, m, false);
  }

  lemma {:induction false} TryShows(e: Expr, moves: bool, scope: set<Name>, S: State, store: Store, m: Place)
    requires e.Try? && At(S, scope, store, m) && CheckExpr(e, moves, scope, S).errors == 0
    requires JoinsExpr(e, moves, scope, S) && LiveExpr(e, moves, scope, S)
    ensures ExprShown(e, moves, scope, S, store, m)
    decreases e, 0
  {
    var a := CheckExpr(e.operand, moves, scope, S);
    ExprShows(e.operand, moves, scope, S, store, m);
    var flows := FlowsExpr(e.operand, moves, scope, S);
    var s1 := store;
    if flows {
      s1 := EndOfExpr(e.operand, moves, scope, S, store, m);
      SkipShows(s1, a.moved, scope, m);
      ChoiceShows(Skip, Quit, s1, Plain(a.moved), scope, scope, m, true, true);
    }
    BothShow(OfExpr(e.operand, moves), Choice(Skip, Quit), store, s1, a, Plain(a.moved), scope, scope, scope, m, flows,
      true);
    NothingNoted(a);
    WholeShows(OfExpr(e, moves), store, a, scope, scope, m, flows);
  }

  lemma {:induction false} ShortCircuitShows(e: Expr, moves: bool, scope: set<Name>, S: State, store: Store, m: Place)
    requires e.ShortCircuit? && At(S, scope, store, m) && CheckExpr(e, moves, scope, S).errors == 0
    requires JoinsExpr(e, moves, scope, S) && LiveExpr(e, moves, scope, S)
    ensures ExprShown(e, moves, scope, S, store, m)
    decreases e, 0
  {
    var ShortCircuit(l, r) := e;
    var a := CheckExpr(l, false, scope, S);
    ExprShows(l, false, scope, S, store, m);
    var s1 := EndOfExpr(l, false, scope, S, store, m);
    var b, flows := CheckExpr(r, false, scope, a.moved), FlowsExpr(r, false, scope, a.moved);
    ExprShows(r, false, scope, a.moved, s1, m);
    ChoiceShows(OfExpr(r, false), Skip, s1, b, scope, scope, m, flows, true);
    BothShow(OfExpr(l, false), Choice(OfExpr(r, false), Skip), store, s1, a, b, scope, scope, scope, m, true, flows);
    WholeShows(OfExpr(e, moves), store, Then(a, b), scope, scope, m, flows);
  }

  lemma {:induction false} CallShows(e: Expr, moves: bool, scope: set<Name>, S: State, store: Store, m: Place)
    requires e.Call? && At(S, scope, store, m) && CheckExpr(e, moves, scope, S).errors == 0
    requires JoinsExpr(e, moves, scope, S) && LiveExpr(e, moves, scope, S)
    ensures ExprShown(e, moves, scope, S, store, m)
    decreases e, 0
  {
    var Call(callee, takesCallee, args) := e;
    var f := CheckExpr(callee, takesCallee, scope, S);
    var a := CheckArgs(args, scope, f.moved);
    ExprShows(callee, takesCallee, scope, S, store, m);
    var flows := FlowsExpr(callee, takesCallee, scope, S);
    var s1 := store;
    if flows {
      s1 := EndOfExpr(callee, takesCallee, scope, S, store, m);
      ArgsShow(args, scope, f.moved, s1, m);
    }
    BothShow(OfExpr(callee, takesCallee), OfArgs(args), store, s1, f, a, scope, scope, scope, m, flows,
      FlowsArgs(args, scope, f.moved));
    var o := CheckExpr(e, moves, scope, S);
    if FlowsExpr(e, moves, scope, S) {
      assert m in o.moved && m.root in scope ==> m in a.moved;
    }
    WholeShows(OfExpr(e, moves), store, o, scope, scope, m, FlowsExpr(e, moves, scope, S));
  }

  /** A block in a scope of its own. */
  lemma {:induction false} BlockInsideShows(b: Block, binds: set<Name>, scope: set<Name>, S: State, store: Store,
      m: Place)
    requires At(S, scope, store, m) && CheckBlock(b, scope + binds, ForgetAll(S, binds)).errors == 0
    requires JoinsBlock(b, scope + binds, ForgetAll(S, binds)) && LiveBlock(b, scope + binds, ForgetAll(S, binds))
    ensures Shows(Inside(binds, OfBlock(b)), store, Pop(CheckBlock(b, scope + binds, ForgetAll(S, binds)), scope),
      scope, scope, m, FlowsBlock(b, scope + binds, ForgetAll(S, binds)))
    decreases b, 2
  {
    AtInside(binds, scope, S, store, m);
    BlockShows(b, scope + binds, ForgetAll(S, binds), Bind(store, binds), m);
    InsideShows(binds, OfBlock(b), store, CheckBlock(b, scope + binds, ForgetAll(S, binds)), scope, m,
      FlowsBlock(b, scope + binds, ForgetAll(S, binds)));
  }

  lemma AtInside(binds: set<Name>, scope: set<Name>, S: State, store: Store, m: Place)
    requires At(S, scope, store, m)
    ensures At(ForgetAll(S, binds), scope + binds, Bind(store, binds), m)
  {
    CoversBound(S, store, binds);
  }

  lemma {:induction false} IfShows(e: Expr, moves: bool, scope: set<Name>, S: State, store: Store, m: Place)
    requires e.If? && At(S, scope, store, m) && CheckExpr(e, moves, scope, S).errors == 0
    requires JoinsExpr(e, moves, scope, S) && LiveExpr(e, moves, scope, S)
    ensures ExprShown(e, moves, scope, S, store, m)
    decreases e, 0
  {
    var If(cond, thn, els) := e;
    var c := CheckExpr(cond, false, scope, S);
    var t, f := Pop(CheckBlock(thn, scope, c.moved), scope), Pop(CheckBlock(els, scope, c.moved), scope);
    var o, flows := CheckExpr(e, moves, scope, S), FlowsExpr(e, moves, scope, S);
    ExprShows(cond, false, scope, S, store, m);
    var s1 := EndOfExpr(cond, false, scope, S, store, m);
    assert ForgetAll(c.moved, {}) == c.moved && scope + {} == scope;
    BlockInsideShows(thn, {}, scope, c.moved, s1, m);
    BlockInsideShows(els, {}, scope, c.moved, s1, m);
    var p, q := Inside({}, OfBlock(thn)), Inside({}, OfBlock(els));
    BranchesShow(p, q, s1, t, f, o.moved, scope, m, flows);
    var b := Then(t, f).(moved := o.moved, left := false);
    BothShow(OfExpr(cond, false), Choice(p, q), store, s1, c, b, scope, scope, scope, m, true, flows);
    WholeShows(OfExpr(e, moves), store, o, scope, scope, m, flows);
  }

  lemma {:induction false} IfOnlyShows(e: Expr, moves: bool, scope: set<Name>, S: State, store: Store, m: Place)
    requires e.IfOnly? && At(S, scope, store, m) && CheckExpr(e, moves, scope, S).errors == 0
    requires JoinsExpr(e, moves, scope, S) && LiveExpr(e, moves, scope, S)
    ensures ExprShown(e, moves, scope, S, store, m)
    decreases e, 0
  {
    var IfOnly(cond, thn) := e;
    var c := CheckExpr(cond, false, scope, S);
    var t := Pop(CheckBlock(thn, scope, c.moved), scope);
    var o, flows := CheckExpr(e, moves, scope, S), FlowsExpr(e, moves, scope, S);
    ExprShows(cond, false, scope, S, store, m);
    var s1 := EndOfExpr(cond, false, scope, S, store, m);
    assert ForgetAll(c.moved, {}) == c.moved && scope + {} == scope;
    BlockInsideShows(thn, {}, scope, c.moved, s1, m);
    SkipShows(s1, c.moved, scope, m);
    var p := Inside({}, OfBlock(thn));
    var b := t.(moved := o.moved, left := false);
    SkippedShows(p, s1, t, c.moved, scope, m, flows);
    BothShow(OfExpr(cond, false), Choice(p, Skip), store, s1, c, b, scope, scope, scope, m, true, flows);
    WholeShows(OfExpr(e, moves), store, o, scope, scope, m, flows);
  }

  /** A block or nothing: what the checker goes on with is the block's state, or the one before if it leaves. */
  lemma SkippedShows(p: Phrase, store: Store, t: Out, before: State, scope: set<Name>, m: Place, flows: bool)
    requires Shows(p, store, t, scope, scope, m, !t.left && flows)
    requires Shows(Skip, store, Plain(before), scope, scope, m, true)
    ensures
      var moved := if t.left then before else t.moved;
      Shows(Choice(p, Skip), store, t.(moved := moved, left := false), scope, scope, m, flows)
  {
    ChoiceShows(p, Skip, store, t, scope, scope, m, !t.left && flows, true);
    ChoiceShows(p, Skip, store, Plain(before), scope, scope, m, true, false);
  }

  lemma {:induction false} ArgsShow(args: Args, scope: set<Name>, S: State, store: Store, m: Place)
    requires At(S, scope, store, m) && CheckArgs(args, scope, S).errors == 0
    requires JoinsArgs(args, scope, S) && LiveArgs(args, scope, S)
    ensures Shows(OfArgs(args), store, CheckArgs(args, scope, S), scope, scope, m, FlowsArgs(args, scope, S))
    decreases args, 0
  {
    match args
    case NoArgs =>
      SkipShows(store, S, scope, m);
      WholeShows(OfArgs(args), store, Plain(S), scope, scope, m, true);
    case Arg(e, moves, rest) =>
      var a, flows := CheckExpr(e, moves, scope, S), FlowsExpr(e, moves, scope, S);
      var b := CheckArgs(rest, scope, a.moved);
      ExprShows(e, moves, scope, S, store, m);
      var s1 := store;
      if flows {
        s1 := EndOfExpr(e, moves, scope, S, store, m);
        ArgsShow(rest, scope, a.moved, s1, m);
      }
      BothShow(OfExpr(e, moves), OfArgs(rest), store, s1, a, b, scope, scope, scope, m, flows,
        FlowsArgs(rest, scope, a.moved));
      WholeShows(OfArgs(args), store, Then(a, b), scope, scope, m, FlowsArgs(args, scope, S));
  }

  // ---- matches ------------------------------------------------------------

  ghost predicate ArmsShown(p: Phrase, store: Store, a: ArmsOut, scope: set<Name>, m: Place, flows: bool) {
    && (flows && a.meet != [] ==> ShowsEnd(p, store, JoinAll(a.meet), scope, m))
    && (m in JoinAll(a.out.breaks) && m.root in scope ==> ShowsBreak(p, store, m))
    && (m in JoinAll(a.out.continues) && m.root in scope ==> ShowsContinue(p, store, m))
  }

  /** An arm and those after it. */
  lemma NextArmShows(p: Phrase, q: Phrase, store: Store, b: Out, left: bool, rest: ArmsOut, scope: set<Name>, m: Place,
      flows: bool)
    requires Shows(p, store, b, scope, scope, m, !left && flows) && ArmsShown(q, store, rest, scope, m, flows)
    ensures ArmsShown(Choice(p, q), store, NextArm(b, left, rest), scope, m, flows)
  {
    MoveEffects.JoinAllAppend(b.breaks, rest.out.breaks);
    MoveEffects.JoinAllAppend(b.continues, rest.out.continues);
    MoveEffects.JoinAllAppend(if left then [] else [b.moved], rest.meet);
    assert JoinAll([b.moved]) == b.moved by {
      assert [b.moved][1..] == [];
    }
    EitherReaches(p, q, store);
  }

  lemma EitherReaches(p: Phrase, q: Phrase, store: Store)
    ensures forall r :: Reaches(p, store, r) || Reaches(q, store, r) ==> Reaches(Choice(p, q), store, r)
  {
    forall r | Reaches(p, store, r) || Reaches(q, store, r) ensures Reaches(Choice(p, q), store, r) {
      ChoiceReaches(p, q, store, r, Reaches(p, store, r));
    }
  }

  lemma {:induction false} ArmsShow(arms: Arms, moves: bool, scope: set<Name>, before: State, last: State, store: Store,
      m: Place)
    requires At(before, scope, store, m) && CheckArms(arms, moves, scope, before, last).out.errors == 0
    requires JoinsArms(arms, moves, scope, before) && LiveArms(arms, moves, scope, before)
    ensures ArmsShown(OfArms(arms, moves), store, CheckArms(arms, moves, scope, before, last), scope, m,
      FlowsArms(arms, moves, scope, before))
    decreases arms, 0
  {
    var a, flows := CheckArms(arms, moves, scope, before, last), FlowsArms(arms, moves, scope, before);
    match arms {
      case NoArms =>
      case BlockArm(binds, body, rest) =>
        var b := Pop(CheckBlock(body, scope + binds, ForgetAll(before, binds)), scope);
        BlockInsideShows(body, binds, scope, before, store, m);
        ArmsShow(rest, moves, scope, before, b.moved, store, m);
        NextArmShows(Inside(binds, OfBlock(body)), OfArms(rest, moves), store, b, b.left,
          CheckArms(rest, moves, scope, before, b.moved), scope, m, flows);
      case ExprArm(binds, e, rest) =>
        var b := Pop(CheckExpr(e, moves, scope + binds, ForgetAll(before, binds)), scope);
        ExprInsideShows(e, moves, binds, scope, before, store, m);
        ArmsShow(rest, moves, scope, before, b.moved, store, m);
        NextArmShows(Inside(binds, OfExpr(e, moves)), OfArms(rest, moves), store, b, LeavesArm(e),
          CheckArms(rest, moves, scope, before, b.moved), scope, m, flows);
    }
    WholeArmsShown(OfArms(arms, moves), store, a, scope, m, flows);
  }

  lemma WholeArmsShown(p: Phrase, store: Store, a: ArmsOut, scope: set<Name>, m: Place, flows: bool)
    requires ArmsShown(Parts(p), store, a, scope, m, flows)
    ensures ArmsShown(p, store, a, scope, m, flows)
  {
    forall r | Reaches(Parts(p), store, r) ensures Reaches(p, store, r) {
      WholeReaches(p, store, r);
    }
  }

  lemma {:induction false} ExprInsideShows(e: Expr, moves: bool, binds: set<Name>, scope: set<Name>, S: State,
      store: Store, m: Place)
    requires At(S, scope, store, m) && CheckExpr(e, moves, scope + binds, ForgetAll(S, binds)).errors == 0
    requires JoinsExpr(e, moves, scope + binds, ForgetAll(S, binds))
    requires LiveExpr(e, moves, scope + binds, ForgetAll(S, binds))
    ensures Shows(Inside(binds, OfExpr(e, moves)), store,
      Pop(CheckExpr(e, moves, scope + binds, ForgetAll(S, binds)), scope), scope, scope, m,
      FlowsExpr(e, moves, scope + binds, ForgetAll(S, binds)))
    decreases e, 2
  {
    AtInside(binds, scope, S, store, m);
    ExprShows(e, moves, scope + binds, ForgetAll(S, binds), Bind(store, binds), m);
    InsideShows(binds, OfExpr(e, moves), store, CheckExpr(e, moves, scope + binds, ForgetAll(S, binds)), scope, m,
      FlowsExpr(e, moves, scope + binds, ForgetAll(S, binds)));
  }

  lemma {:induction false} MatchShows(e: Expr, moves: bool, scope: set<Name>, S: State, store: Store, m: Place)
    requires e.Match? && At(S, scope, store, m) && CheckExpr(e, moves, scope, S).errors == 0
    requires JoinsExpr(e, moves, scope, S) && LiveExpr(e, moves, scope, S)
    ensures ExprShown(e, moves, scope, S, store, m)
    decreases e, 0
  {
    var Match(scrutinee, lent, arms) := e;
    var s := CheckExpr(scrutinee, !lent, scope, S);
    var a := CheckArms(arms, moves, scope, s.moved, s.moved);
    var o, flows := CheckExpr(e, moves, scope, S), FlowsExpr(e, moves, scope, S);
    ExprShows(scrutinee, !lent, scope, S, store, m);
    var s1, first := store, FlowsExpr(scrutinee, !lent, scope, S);
    if first {
      s1 := EndOfExpr(scrutinee, !lent, scope, S, store, m);
      ArmsShow(arms, moves, scope, s.moved, s.moved, s1, m);
    }
    var b := a.out.(moved := o.moved, left := false);
    BothShow(OfExpr(scrutinee, !lent), OfArms(arms, moves), store, s1, s, b, scope, scope, scope, m, first, flows);
    WholeShows(OfExpr(e, moves), store, o, scope, scope, m, flows);
  }

  // ---- blocks and statements ----------------------------------------------

  lemma {:induction false} BlockShows(b: Block, scope: set<Name>, S: State, store: Store, m: Place)
    requires At(S, scope, store, m) && CheckBlock(b, scope, S).errors == 0
    requires JoinsBlock(b, scope, S) && LiveBlock(b, scope, S)
    ensures Shows(OfBlock(b), store, CheckBlock(b, scope, S), scope, scope, m, FlowsBlock(b, scope, S))
    decreases b, 1
  {
    match b
    case End =>
      SkipShows(store, S, scope, m);
      WholeShows(OfBlock(b), store, Plain(S), scope, scope, m, true);
    case Tail(e) =>
      ExprShows(e, true, scope, S, store, m);
      WholeShows(OfBlock(b), store, CheckExpr(e, true, scope, S), scope, scope, m, FlowsExpr(e, true, scope, S));
    case Seq(s, rest) => SeqShows(s, rest, scope, S, store, m);
  }

  lemma {:induction false} SeqShows(s: Stmt, rest: Block, scope: set<Name>, S: State, store: Store, m: Place)
    requires At(S, scope, store, m) && CheckBlock(Seq(s, rest), scope, S).errors == 0
    requires JoinsBlock(Seq(s, rest), scope, S) && LiveBlock(Seq(s, rest), scope, S)
    ensures Shows(OfBlock(Seq(s, rest)), store, CheckBlock(Seq(s, rest), scope, S), scope, scope, m,
      FlowsBlock(Seq(s, rest), scope, S))
    decreases Seq(s, rest), 0
  {
    var a, inner, flows := CheckStmt(s, scope, S), scope + Binds(s), FlowsStmt(s, scope, S);
    StmtShows(s, scope, S, store, m);
    var p, o := OfBlock(Seq(s, rest)), CheckBlock(Seq(s, rest), scope, S);
    if a.left {
      FirstShows(OfStmt(s), OfBlock(rest), store, m);
      WholeShows(p, store, o, scope, scope, m, false);
    } else {
      var b, on := CheckBlock(rest, inner, a.moved), FlowsBlock(rest, inner, a.moved);
      var s1 := store;
      if flows {
        s1 := EndOfStmt(s, scope, S, store, m);
        BlockShows(rest, inner, a.moved, s1, m);
      }
      BothShow(OfStmt(s), OfBlock(rest), store, s1, a, b, scope, inner, inner, m, flows, on);
      WholeShows(p, store, o, scope, inner, m, flows && on);
    }
  }

  lemma EndOfStmt(s: Stmt, scope: set<Name>, S: State, store: Store, m: Place) returns (s1: Store)
    requires At(S, scope, store, m) && CheckStmt(s, scope, S).errors == 0 && JoinsStmt(s, scope, S)
    requires Shows(OfStmt(s), store, CheckStmt(s, scope, S), scope, scope + Binds(s), m, true)
    ensures Reaches(OfStmt(s), store, Done(s1, [])) && At(CheckStmt(s, scope, S).moved, scope + Binds(s), s1, m)
  {
    s1 :| Reaches(OfStmt(s), store, Done(s1, [])) && Tracks(m, CheckStmt(s, scope, S).moved, scope + Binds(s), s1);
    var ch :| RunOf(OfStmt(s), store, ch) == Done(s1, []);
    StmtAgrees(s, scope, S, store, ch);
  }

  lemma {:induction false} StmtShows(s: Stmt, scope: set<Name>, S: State, store: Store, m: Place)
    requires At(S, scope, store, m) && CheckStmt(s, scope, S).errors == 0
    requires JoinsStmt(s, scope, S) && LiveStmt(s, scope, S)
    ensures Shows(OfStmt(s), store, CheckStmt(s, scope, S), scope, scope + Binds(s), m, FlowsStmt(s, scope, S))
    decreases s, 5
  {
    match s
    case Let(x, value) => LetShows(x, value, scope, S, store, m);
    case Do(e) =>
      ExprShows(e, false, scope, S, store, m);
      assert scope + Binds(s) == scope;
      WholeShows(OfStmt(s), store, CheckExpr(e, false, scope, S), scope, scope, m, FlowsExpr(e, false, scope, S));
    case Assign(_, _) => AssignStmtShows(s, scope, S, store, m);
    case While(_, _) =>
      LoopShows(s, scope, S, store, m);
      assert scope + Binds(s) == scope;
      WholeShows(OfStmt(s), store, CheckLoop(s, scope, S), scope, scope, m, FlowsStmt(s, scope, S));
    case For(_, _, _, _) => ForShows(s, scope, S, store, m);
    case ReturnStmt(value) =>
      ReturnShows(OfStmt(s), value, scope, S, store, m);
    case BreakStmt => LeavesAtOnce(OfStmt(s), scope, S, store, m);
    case ContinueStmt => LeavesAtOnce(OfStmt(s), scope, S, store, m);
  }

  lemma {:induction false} LetShows(x: Name, value: Expr, scope: set<Name>, S: State, store: Store, m: Place)
    requires At(S, scope, store, m) && CheckExpr(value, true, scope, S).errors == 0
    requires JoinsExpr(value, true, scope, S) && LiveExpr(value, true, scope, S)
    ensures Shows(OfStmt(Let(x, value)), store, CheckStmt(Let(x, value), scope, S), scope, scope + {x}, m,
      FlowsExpr(value, true, scope, S))
    decreases value, 2
  {
    var v, flows := CheckExpr(value, true, scope, S), FlowsExpr(value, true, scope, S);
    var b := Plain(Forget(v.moved, x));
    ExprShows(value, true, scope, S, store, m);
    var s1 := store;
    if flows {
      s1 := EndOfExpr(value, true, scope, S, store, m);
      assert RunOf(Binding(x), s1, []) == Done(s1[x := Whole], []);
      assert Reaches(Binding(x), s1, Done(s1[x := Whole], []));
      assert Tracks(m, b.moved, scope + {x}, s1[x := Whole]);
    }
    BothShow(OfExpr(value, true), Binding(x), store, s1, v, b, scope, scope, scope + {x}, m, flows, true);
    assert Then(v, b) == CheckStmt(Let(x, value), scope, S);
    WholeShows(OfStmt(Let(x, value)), store, Then(v, b), scope, scope + {x}, m, flows);
  }

  lemma {:induction false} AssignStmtShows(s: Stmt, scope: set<Name>, S: State, store: Store, m: Place)
    requires s.Assign? && At(S, scope, store, m) && CheckStmt(s, scope, S).errors == 0
    requires JoinsStmt(s, scope, S) && LiveStmt(s, scope, S)
    ensures Shows(OfStmt(s), store, CheckStmt(s, scope, S), scope, scope + Binds(s), m, FlowsStmt(s, scope, S))
    decreases s, 0
  {
    var Assign(target, value) := s;
    var v := CheckExpr(value, true, scope, S);
    var t, flows := CheckTarget(target, scope, v.moved), FlowsStmt(s, scope, S);
    ExprShows(value, true, scope, S, store, m);
    var s1 := EndOfExpr(value, true, scope, S, store, m);
    match target {
      case ToPlace(place) => AssignShows(place, scope, v.moved, s1, m);
      case ToOther(e) =>
        ExprShows(e, false, scope, v.moved, s1, m);
        WholeShows(OfTarget(target), s1, t, scope, scope, m, FlowsExpr(e, false, scope, v.moved));
    }
    BothShow(OfExpr(value, true), OfTarget(target), store, s1, v, t, scope, scope, scope, m, true, flows);
    assert scope + Binds(s) == scope;
    WholeShows(OfStmt(s), store, Then(v, t), scope, scope, m, flows);
  }

  lemma {:induction false} ForShows(s: Stmt, scope: set<Name>, S: State, store: Store, m: Place)
    requires s.For? && At(S, scope, store, m) && CheckStmt(s, scope, S).errors == 0
    requires JoinsStmt(s, scope, S) && LiveStmt(s, scope, S)
    ensures Shows(OfStmt(s), store, CheckStmt(s, scope, S), scope, scope + Binds(s), m, FlowsStmt(s, scope, S))
    decreases s, 4
  {
    var i := CheckExpr(s.iter, !s.lent, scope, S);
    var l, flows := CheckLoop(s, scope, i.moved), FlowsStmt(s, scope, S);
    ExprShows(s.iter, !s.lent, scope, S, store, m);
    var s1 := EndOfExpr(s.iter, !s.lent, scope, S, store, m);
    LoopShows(s, scope, i.moved, s1, m);
    BothShow(OfExpr(s.iter, !s.lent), OfLoop(s), store, s1, i, l, scope, scope, scope, m, true, flows);
    assert scope + Binds(s) == scope;
    WholeShows(OfStmt(s), store, Then(i, l), scope, scope, m, flows);
  }

  // ---- loops --------------------------------------------------------------

  /** Once round: `Iterate` as the checker has it. */
  lemma {:induction false} RoundShows(s: Stmt, scope: set<Name>, head: State, store: Store, m: Place)
    requires IsLoop(s) && At(head, scope, store, m) && Iterate(s, scope, head).errors == 0 && LiveRound(s, scope, head)
    ensures Shows(Round(s), store, Iterate(s, scope, head), scope, scope, m, !Iterate(s, scope, head).left)
    decreases s, 1
  {
    if s.While? {
      WhileRoundShows(s, scope, head, store, m);
    } else {
      ForRoundShows(s, scope, head, store, m);
    }
  }

  lemma {:induction false} WhileRoundShows(s: Stmt, scope: set<Name>, head: State, store: Store, m: Place)
    requires s.While? && At(head, scope, store, m) && Iterate(s, scope, head).errors == 0 && LiveRound(s, scope, head)
    ensures Shows(Round(s), store, Iterate(s, scope, head), scope, scope, m, !Iterate(s, scope, head).left)
    decreases s, 0
  {
    var c := CheckExpr(s.cond, false, scope, head);
    var b := Pop(CheckBlock(s.body, scope, c.moved), scope);
    ExprShows(s.cond, false, scope, head, store, m);
    var s1 := EndOfExpr(s.cond, false, scope, head, store, m);
    assert ForgetAll(c.moved, {}) == c.moved && scope + {} == scope;
    BlockInsideShows(s.body, {}, scope, c.moved, s1, m);
    ChoiceShows(Body(s), Quit, s1, b, scope, scope, m, !b.left, true);
    BothShow(Cond(s), Choice(Body(s), Quit), store, s1, c, b, scope, scope, scope, m, true, !b.left);
  }

  lemma {:induction false} ForRoundShows(s: Stmt, scope: set<Name>, head: State, store: Store, m: Place)
    requires s.For? && At(head, scope, store, m) && Iterate(s, scope, head).errors == 0 && LiveRound(s, scope, head)
    ensures Shows(Round(s), store, Iterate(s, scope, head), scope, scope, m, !Iterate(s, scope, head).left)
    decreases s, 0
  {
    var it := Iterate(s, scope, head);
    assert ForgetAll(head, {s.x}) == Forget(head, s.x);
    BlockInsideShows(s.body, {s.x}, scope, head, store, m);
    ChoiceShows(Body(s), Quit, store, it, scope, scope, m, !it.left, true);
    SkippingShows(Choice(Body(s), Quit), store, it, head, scope, m, !it.left);
  }

  lemma SkippingShows(q: Phrase, store: Store, b: Out, before: State, scope: set<Name>, m: Place, flows: bool)
    requires Tracks(m, before, scope, store) && Shows(q, store, b, scope, scope, m, flows)
    ensures Shows(Both(Skip, q), store, b, scope, scope, m, flows)
  {
    SkipShows(store, before, scope, m);
    assert RunOf(Skip, store, []) == Done(store, []);
    assert Then(Plain(before), b) == b;
    BothShow(Skip, q, store, store, Plain(before), b, scope, scope, scope, m, true, flows);
  }

  lemma {:induction false} RoundAgrees(s: Stmt, scope: set<Name>, head: State, store: Store, ch: Choices)
    requires IsLoop(s) && store.Keys == scope && Covers(head, store)
    requires Iterate(s, scope, head).errors == 0 && LiveRound(s, scope, head)
    ensures IterationAgrees(RunOf(Round(s), store, ch), Iterate(s, scope, head), scope)
  {
    RoundRuns(s, store, ch);
    match s
    case While(cond, body) =>
      var c := CheckExpr(cond, false, scope, head);
      var o := CheckBlock(body, scope, c.moved);
      var x := RunExpr(cond, false, store, ch);
      ExprAgrees(cond, false, scope, head, store, ch);
      if !x.Done? {
        EndsEarly(x, c, Pop(o, scope), scope);
      } else if x.rest != [] {
        BlockAgrees(body, scope, c.moved, x.store, x.rest[1..]);
        var r := RunBlock(body, x.store, x.rest[1..]);
        LeavingAgrees(r, o, scope);
        EndsLater(Leave(r, scope), c, Pop(o, scope), scope);
      }
    case For(x, _, _, body) =>
      if ch != [] {
        CoversBound(head, store, {x});
        assert ForgetAll(head, {x}) == Forget(head, x);
        BlockAgrees(body, scope + {x}, Forget(head, x), Bind(store, {x}), ch[1..]);
        LeavingAgrees(RunBlock(body, Bind(store, {x}), ch[1..]), CheckBlock(body, scope + {x}, Forget(head, x)), scope);
      }
  }

  /** Back at the head, the next head covers the store. */
  lemma RoundCovers(s: Stmt, scope: set<Name>, head: State, store: Store, s2: Store)
    requires IsLoop(s) && store.Keys == scope && Covers(head, store)
    requires Iterate(s, scope, head).errors == 0 && LiveRound(s, scope, head)
    requires Reaches(Round(s), store, Done(s2, [])) || Reaches(Round(s), store, Continued(s2, []))
    ensures s2.Keys == scope && Covers(NextHead(Iterate(s, scope, head), scope, head), s2)
  {
    var it := Iterate(s, scope, head);
    var end := if it.left then [] else [it.moved];
    var ch :| RunOf(Round(s), store, ch) in {Done(s2, []), Continued(s2, [])};
    RoundAgrees(s, scope, head, store, ch);
    if RunOf(Round(s), store, ch).Done? {
      assert Covers(end[0], s2);
    }
    NotedMore(it.continues, end, s2);
    NotedJoined(it.continues + end, scope, s2, head);
  }

  /** A place the next head has and the head has not is missing in some store back at the head. */
  lemma {:induction false} BackWithout(s: Stmt, scope: set<Name>, head: State, store: Store, m: Place)
      returns (s2: Store)
    requires IsLoop(s) && At(head, scope, store, m) && Iterate(s, scope, head).errors == 0 && LiveRound(s, scope, head)
    requires m in NextHead(Iterate(s, scope, head), scope, head) && m !in head
    ensures Reaches(Round(s), store, Done(s2, [])) || Reaches(Round(s), store, Continued(s2, []))
    ensures At(NextHead(Iterate(s, scope, head), scope, head), scope, s2, m) && Missing(s2, m)
    decreases s, 2
  {
    var it := Iterate(s, scope, head);
    RoundShows(s, scope, head, store, m);
    MoveEffects.JoinAllAppend(it.continues, if it.left then [] else [it.moved]);
    assert JoinAll([it.moved]) == it.moved by {
      assert [it.moved][1..] == [];
    }
    if m in JoinAll(it.continues) {
      s2 :| Reaches(Round(s), store, Continued(s2, [])) && Missing(s2, m);
    } else {
      s2 :| Reaches(Round(s), store, Done(s2, [])) && Tracks(m, it.moved, scope, s2);
    }
    RoundCovers(s, scope, head, store, s2);
  }

  /** At the head, the condition fails. */
  lemma {:induction false} ExitShows(s: Stmt, scope: set<Name>, head: State, store: Store, m: Place)
    requires IsLoop(s) && At(head, scope, store, m) && Iterate(s, scope, head).errors == 0 && LiveRound(s, scope, head)
    requires FlowsLoop(s, scope, head)
    ensures ShowsEnd(OfLoop(s), store, head, scope, m)
    decreases s, 2
  {
    if s.While? {
      ExprShows(s.cond, false, scope, head, store, m);
      var s1 := EndOfExpr(s.cond, false, scope, head, store, m);
      LoopExits(s, store, s1);
    } else {
      assert RunOf(Cond(s), store, []) == Done(store, []);
      LoopExits(s, store, store);
    }
  }

  lemma {:induction false} LoopShows(s: Stmt, scope: set<Name>, S: State, store: Store, m: Place)
    requires IsLoop(s) && At(S, scope, store, m) && CheckLoop(s, scope, S).errors == 0 && LiveLoop(s, scope, S)
    ensures Shows(OfLoop(s), store, CheckLoop(s, scope, S), scope, scope, m,
      FlowsLoop(s, scope, Settle(s, scope, S, MAX_PASSES).head))
    decreases s, 3
  {
    MoveEffects.LoopSettles(s, scope, S, MAX_PASSES);
    var head, o := Settle(s, scope, S, MAX_PASSES).head, CheckLoop(s, scope, S);
    if FlowsLoop(s, scope, head) {
      CoversMore(S, head, store);
      var it := Iterate(s, scope, head);
      if m in head && m !in S {
        var s2 := BackWithout(s, scope, S, store, m);
        ExitShows(s, scope, head, s2, m);
        GoesOnShown(s, store, s2, head, scope, m);
      } else {
        RoundShows(s, scope, head, store, m);
        ExitShows(s, scope, head, store, m);
        if m !in head && m in JoinAll(it.breaks) && m.root in scope {
          var s2 :| Reaches(Round(s), store, Broke(s2, [])) && Missing(s2, m);
          LoopEnds(s, store, Broke(s2, []));
          assert Tracks(m, o.moved, scope, s2);
        }
      }
    }
  }

  lemma GoesOnShown(s: Stmt, store: Store, s2: Store, moved: State, scope: set<Name>, m: Place)
    requires IsLoop(s) && ShowsEnd(OfLoop(s), s2, moved, scope, m)
    requires Reaches(Round(s), store, Done(s2, [])) || Reaches(Round(s), store, Continued(s2, []))
    ensures ShowsEnd(OfLoop(s), store, moved, scope, m)
  {
    var s3 :| Reaches(OfLoop(s), s2, Done(s3, [])) && Tracks(m, moved, scope, s3);
    LoopGoesOn(s, store, s2, Done(s3, []));
  }
}
