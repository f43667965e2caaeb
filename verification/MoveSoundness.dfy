/** Soundness of the move checker: a body it accepts never touches a moved-out value. */
module MoveSoundness {
  import opened OwnershipSyntax
  import opened MoveRules
  import opened Execution
  import MoveEffects

  /** `p` is moved: it is an entry of `S` or a part of one. */
  predicate Gone(S: State, p: Place) {
    exists m :: m in S && Within(p, m)
  }

  /** Everything gone by `before` is gone by `after`. */
  predicate Includes(after: State, before: State) {
    forall m :: m in before ==> Gone(after, m)
  }

  /** Every hole in the store is a place the checker takes to be moved. */
  ghost predicate Covers(S: State, store: Store) {
    forall x, path :: x in store && HoleAt(store[x], path) ==> Gone(S, Place(x, path))
  }

  lemma IncludesCovers(after: State, before: State, store: Store)
    requires Includes(after, before) && Covers(before, store)
    ensures Covers(after, store)
  {
    forall x, path | x in store && HoleAt(store[x], path) ensures Gone(after, Place(x, path)) {
      var m :| m in before && Within(Place(x, path), m);
      var n :| n in after && Within(m, n);
      assert Within(Place(x, path), n);
    }
  }

  // ---- the joins the checker leaves out -----------------------------------

  /** At every else-less `if` that falls through, every `&&`/`||` and every loop condition
      met on the way, the state the checker goes on with includes the state of the path it does
      not join: the one that skips the block or the right operand, or on which the condition fails. */
  ghost predicate JoinsExpr(e: Expr, moves: bool, scope: set<Name>, S: State)
    decreases e, 0
  {
    match e
    case Literal => true
    case Use(_, _, _) => true
    case Eval(parts) => JoinsArgs(parts, scope, S)
    case ShortCircuit(l, r) =>
      var a := CheckExpr(l, false, scope, S).moved;
      JoinsExpr(l, false, scope, S) && JoinsExpr(r, false, scope, a)
      && Includes(CheckExpr(r, false, scope, a).moved, Restrict(a, scope))
    case Call(callee, takesCallee, args) =>
      JoinsExpr(callee, takesCallee, scope, S) && JoinsArgs(args, scope, CheckExpr(callee, takesCallee, scope, S).moved)
    case Try(operand) => JoinsExpr(operand, moves, scope, S)
    case If(cond, thn, els) =>
      var c := CheckExpr(cond, false, scope, S).moved;
      JoinsExpr(cond, false, scope, S) && JoinsBlock(thn, scope, c) && JoinsBlock(els, scope, c)
    case IfOnly(cond, thn) =>
      var c := CheckExpr(cond, false, scope, S).moved;
      var t := Pop(CheckBlock(thn, scope, c), scope);
      JoinsExpr(cond, false, scope, S) && JoinsBlock(thn, scope, c) && (t.left || Includes(t.moved, Restrict(c, scope)))
    case Match(scrutinee, lent, arms) =>
      JoinsExpr(scrutinee, !lent, scope, S) &&
        JoinsArms(arms, moves, scope, CheckExpr(scrutinee, !lent, scope, S).moved)
    case Scoped(block) => JoinsBlock(block, scope, S)
    case Break => true
    case Continue => true
    case Return(value) => JoinsExpr(value, true, scope, S)
  }

  ghost predicate JoinsArgs(args: Args, scope: set<Name>, S: State)
    decreases args, 0
  {
    match args
    case NoArgs => true
    case Arg(e, moves, rest) =>
      JoinsExpr(e, moves, scope, S) && JoinsArgs(rest, scope, CheckExpr(e, moves, scope, S).moved)
  }

  ghost predicate JoinsArms(arms: Arms, moves: bool, scope: set<Name>, before: State)
    decreases arms, 0
  {
    match arms
    case NoArms => true
    case BlockArm(binds, body, rest) =>
      JoinsBlock(body, scope + binds, ForgetAll(before, binds)) && JoinsArms(rest, moves, scope, before)
    case ExprArm(binds, e, rest) =>
      JoinsExpr(e, moves, scope + binds, ForgetAll(before, binds)) && JoinsArms(rest, moves, scope, before)
  }

  ghost predicate JoinsBlock(b: Block, scope: set<Name>, S: State)
    decreases b, 0
  {
    match b
    case End => true
    case Tail(e) => JoinsExpr(e, true, scope, S)
    case Seq(s, rest) =>
      var a := CheckStmt(s, scope, S);
      JoinsStmt(s, scope, S) && (a.left || JoinsBlock(rest, scope + Binds(s), a.moved))
  }

  ghost predicate JoinsStmt(s: Stmt, scope: set<Name>, S: State)
    decreases s, 1
  {
    match s
    case Let(_, value) => JoinsExpr(value, true, scope, S)
    case Do(e) => JoinsExpr(e, false, scope, S)
    case Assign(target, value) =>
      JoinsExpr(value, true, scope, S)
      && (target.ToOther? ==> JoinsExpr(target.e, false, scope, CheckExpr(value, true, scope, S).moved))
    case While(_, _) => JoinsLoop(s, scope, Settle(s, scope, S, MAX_PASSES).head)
    case For(_, iter, lent, _) =>
      var i := CheckExpr(iter, !lent, scope, S).moved;
      JoinsExpr(iter, !lent, scope, S) && JoinsLoop(s, scope, Settle(s, scope, i, MAX_PASSES).head)
    case ReturnStmt(value) => JoinsExpr(value, true, scope, S)
    case BreakStmt => true
    case ContinueStmt => true
  }

  /** After a loop with this head: the head joined with its `break`s. */
  function ExitState(s: Stmt, scope: set<Name>, head: State): State
    requires IsLoop(s)
  {
    head + Restrict(JoinAll(Iterate(s, scope, head).breaks), scope)
  }

  ghost predicate JoinsLoop(s: Stmt, scope: set<Name>, head: State)
    requires IsLoop(s)
    decreases s, 0
  {
    match s
    case While(cond, body) =>
      var c := CheckExpr(cond, false, scope, head).moved;
      JoinsExpr(cond, false, scope, head) && Includes(ExitState(s, scope, head), Restrict(c, scope)) &&
        JoinsBlock(body, scope, c)
    case For(x, _, _, body) => JoinsBlock(body, scope + {x}, Forget(head, x))
  }

  // ---- simulation ---------------------------------------------------------

  /** One of the noted states covers the store. */
  ghost predicate Noted(states: seq<State>, store: Store) {
    exists k :: 0 <= k < |states| && Covers(states[k], store)
  }

  /** The run is not stuck, and however it ends the checker's state there covers the store. */
  ghost predicate Agrees(r: Run, o: Out, scope: set<Name>) {
    && r != Stuck
    && (r.Done? ==> r.store.Keys == scope && Covers(o.moved, r.store))
    && (r.Broke? ==> r.store.Keys == scope && Noted(o.breaks, r.store))
    && (r.Continued? ==> r.store.Keys == scope && Noted(o.continues, r.store))
  }

  /** The same for a block whose scope is still open: the store may hold more bindings. */
  ghost predicate AgreesInside(r: Run, o: Out, scope: set<Name>) {
    && r != Stuck
    && (r.Done? ==> scope <= r.store.Keys && Covers(o.moved, r.store) && !o.left)
    && (r.Broke? ==> scope <= r.store.Keys && Noted(o.breaks, r.store))
    && (r.Continued? ==> scope <= r.store.Keys && Noted(o.continues, r.store))
  }

  lemma NotedMore(a: seq<State>, b: seq<State>, store: Store)
    requires Noted(a, store) || Noted(b, store)
    ensures Noted(a + b, store)
  {
    if Noted(a, store) {
      var k :| 0 <= k < |a| && Covers(a[k], store);
      assert Covers((a + b)[k], store);
    } else {
      var k :| 0 <= k < |b| && Covers(b[k], store);
      assert Covers((a + b)[|a| + k], store);
    }
  }

  lemma {:induction false} InJoinAll(states: seq<State>, k: nat)
    requires k < |states|
    ensures states[k] <= JoinAll(states)
  {
    if k > 0 {
      InJoinAll(states[1..], k - 1);
    }
  }

  lemma NotedJoined(states: seq<State>, scope: set<Name>, store: Store, more: State)
    requires Noted(states, store) && store.Keys <= scope
    ensures Covers(more + Restrict(JoinAll(states), scope), store)
  {
    var k :| 0 <= k < |states| && Covers(states[k], store);
    InJoinAll(states, k);
    CoversInScope(states[k], scope, store);
    CoversMore(Restrict(states[k], scope), more + Restrict(JoinAll(states), scope), store);
  }

  lemma CoversMore(S: State, T: State, store: Store)
    requires Covers(S, store) && S <= T
    ensures Covers(T, store)
  {
    forall x, path | x in store && HoleAt(store[x], path) ensures Gone(T, Place(x, path)) {
      var m :| m in S && Within(Place(x, path), m);
      assert m in T;
    }
  }

  lemma CoversInScope(S: State, scope: set<Name>, store: Store)
    requires Covers(S, store) && store.Keys <= scope
    ensures Covers(Restrict(S, scope), store)
  {
    forall x, path | x in store && HoleAt(store[x], path) ensures Gone(Restrict(S, scope), Place(x, path)) {
      var m :| m in S && Within(Place(x, path), m);
      assert m in Restrict(S, scope);
    }
  }

  lemma CoversBound(S: State, store: Store, xs: set<Name>)
    requires Covers(S, store)
    ensures Covers(ForgetAll(S, xs), Bind(store, xs))
  {
    var b := Bind(store, xs);
    forall x, path | x in b && HoleAt(b[x], path) ensures Gone(ForgetAll(S, xs), Place(x, path)) {
      assert x !in xs;
      var m :| m in S && Within(Place(x, path), m);
      assert m in ForgetAll(S, xs);
    }
  }

  /** The first phrase's run is the whole run. */
  lemma EndsEarly(r: Run, a: Out, b: Out, scope: set<Name>)
    requires Agrees(r, a, scope) && !r.Done?
    ensures Agrees(r, Then(a, b), scope)
  {
    if r.Broke? { NotedMore(a.breaks, b.breaks, r.store); }
    if r.Continued? { NotedMore(a.continues, b.continues, r.store); }
  }

  /** The second phrase's run is the rest of the run. */
  lemma EndsLater(r: Run, a: Out, b: Out, scope: set<Name>)
    requires Agrees(r, b, scope)
    ensures Agrees(r, Then(a, b), scope)
  {
    if r.Broke? { NotedMore(a.breaks, b.breaks, r.store); }
    if r.Continued? { NotedMore(a.continues, b.continues, r.store); }
  }

  lemma LeavingAgrees(r: Run, o: Out, scope: set<Name>)
    requires AgreesInside(r, o, scope)
    ensures Agrees(Leave(r, scope), Pop(o, scope), scope)
  {
    if r.Done? || r.Broke? || r.Continued? {
      var k := Keep(r.store, scope);
      assert k.Keys == scope;
      if r.Done? {
        assert Covers(o.moved, k);
        CoversInScope(o.moved, scope, k);
      }
      if r.Broke? {
        var i :| 0 <= i < |o.breaks| && Covers(o.breaks[i], r.store);
        assert Covers(o.breaks[i], k);
      }
      if r.Continued? {
        var i :| 0 <= i < |o.continues| && Covers(o.continues[i], r.store);
        assert Covers(o.continues[i], k);
      }
    }
  }

  lemma Widen(r: Run, o: Out, moved: State, scope: set<Name>)
    requires Agrees(r, o, scope) && (r.Done? ==> o.moved <= moved)
    ensures Agrees(r, o.(moved := moved), scope) && Agrees(r, o.(moved := moved, left := false), scope)
  {
    if r.Done? { CoversMore(o.moved, moved, r.store); }
  }

  lemma {:induction false} UseAgrees(place: Place, moveOnly: bool, pinned: bool, moves: bool, scope: set<Name>,
      S: State, store: Store, ch: Choices)
    requires store.Keys == scope && Covers(S, store)
    requires CheckUse(place, moveOnly, pinned, moves, scope, S).errors == 0
    ensures Agrees(RunUse(place, moveOnly, pinned, moves, store, ch),
      CheckUse(place, moveOnly, pinned, moves, scope, S), scope)
  {
    if place.root in scope {
      var v := store[place.root];
      forall below: Path ensures !HoleAt(v, place.path + below) {
        if HoleAt(v, place.path + below) {
          GoneBelowOverlaps(S, place, below);
        }
      }
      if moves && moveOnly {
        var T, store' := S + {place}, store[place.root := Take(v, place.path)];
        forall x, path | x in store' && HoleAt(store'[x], path) ensures Gone(T, Place(x, path)) {
          if x == place.root {
            TakeMakesAHole(v, place.path, path);
            if HoleAt(v, path) {
              var m :| m in S && Within(Place(x, path), m);
              assert m in T;
            } else {
              assert place in T && Within(Place(x, path), place);
            }
          } else {
            var m :| m in S && Within(Place(x, path), m);
            assert m in T;
          }
        }
      }
    }
  }

  lemma GoneBelowOverlaps(S: State, place: Place, below: Path)
    requires Gone(S, Place(place.root, place.path + below))
    ensures exists m :: m in S && Overlaps(m, place)
  {
    var m :| m in S && Within(Place(place.root, place.path + below), m);
    PrefixesCompare(m.path, place.path, place.path + below);
    assert Overlaps(m, place);
  }

  lemma GoneAboveIsAParent(S: State, place: Place, k: nat)
    requires k < |place.path| && Gone(S, Place(place.root, place.path[..k]))
    ensures exists m :: m in S && Within(place, m) && m != place
  {
    var m :| m in S && Within(Place(place.root, place.path[..k]), m);
    assert Within(place, m) && m != place;
  }

  lemma PrefixesCompare(a: Path, b: Path, whole: Path)
    requires a <= whole && b <= whole
    ensures a <= b || b <= a
  {
    if |a| <= |b| {
      assert a == whole[..|a|] == b[..|a|];
    } else {
      assert b == whole[..|b|] == a[..|b|];
    }
  }

  lemma {:induction false} AssignAgrees(place: Place, scope: set<Name>, S: State, store: Store, ch: Choices)
    requires store.Keys == scope && Covers(S, store)
    requires CheckAssign(place, scope, S).errors == 0
    ensures Agrees(RunAssign(place, store, ch), CheckAssign(place, scope, S), scope)
  {
    if place.root in scope {
      var v := store[place.root];
      forall k | 0 <= k < |place.path| ensures !HoleAt(v, place.path[..k]) {
        if HoleAt(v, place.path[..k]) {
          GoneAboveIsAParent(S, place, k);
        }
      }
      var T := CheckAssign(place, scope, S).moved;
      var store' := store[place.root := Put(v, place.path)];
      forall x, path | x in store' && HoleAt(store'[x], path) ensures Gone(T, Place(x, path)) {
        if x == place.root {
          PutFillsHoles(v, place.path, path);
        }
        var m :| m in S && Within(Place(x, path), m);
        assert Within(m, place) ==> Within(Place(x, path), place);
        assert m in T;
      }
    }
  }

  lemma {:induction false} ExprAgrees(e: Expr, moves: bool, scope: set<Name>, S: State, store: Store, ch: Choices)
    requires store.Keys == scope && Covers(S, store)
    requires CheckExpr(e, moves, scope, S).errors == 0 && JoinsExpr(e, moves, scope, S)
    ensures Agrees(RunExpr(e, moves, store, ch), CheckExpr(e, moves, scope, S), scope)
    decreases |ch|, e, 1
  {
    match e
    case Literal =>
    case Use(place, moveOnly, pinned) => UseAgrees(place, moveOnly, pinned, moves, scope, S, store, ch);
    case Eval(parts) => ArgsAgree(parts, scope, S, store, ch);
    case ShortCircuit(_, _) => ShortCircuitAgrees(e, moves, scope, S, store, ch);
    case Call(_, _, _) => CallAgrees(e, moves, scope, S, store, ch);
    case Try(operand) => ExprAgrees(operand, moves, scope, S, store, ch);
    case If(_, _, _) => IfAgrees(e, moves, scope, S, store, ch);
    case IfOnly(_, _) => IfOnlyAgrees(e, moves, scope, S, store, ch);
    case Match(_, _, _) => MatchAgrees(e, moves, scope, S, store, ch);
    case Scoped(block) =>
      BlockAgrees(block, scope, S, store, ch);
      LeavingAgrees(RunBlock(block, store, ch), CheckBlock(block, scope, S), scope);
    case Break => assert Covers([S][0], store);
    case Continue => assert Covers([S][0], store);
    case Return(value) => ExprAgrees(value, true, scope, S, store, ch);
  }

  lemma {:induction false} ShortCircuitAgrees(e: Expr, moves: bool, scope: set<Name>, S: State, store: Store,
      ch: Choices)
    requires e.ShortCircuit? && store.Keys == scope && Covers(S, store)
    requires CheckExpr(e, moves, scope, S).errors == 0 && JoinsExpr(e, moves, scope, S)
    ensures Agrees(RunExpr(e, moves, store, ch), CheckExpr(e, moves, scope, S), scope)
    decreases |ch|, e, 0
  {
    var a := CheckExpr(e.left, false, scope, S);
    var b := CheckExpr(e.right, false, scope, a.moved);
    ExprAgrees(e.left, false, scope, S, store, ch);
    var l := RunExpr(e.left, false, store, ch);
    if l.Done? {
      if l.rest != [] {
        if l.rest[0] {
          ExprAgrees(e.right, false, scope, a.moved, l.store, l.rest[1..]);
          EndsLater(RunExpr(e.right, false, l.store, l.rest[1..]), a, b, scope);
        } else {
          CoversInScope(a.moved, scope, l.store);
          IncludesCovers(b.moved, Restrict(a.moved, scope), l.store);
        }
      }
    } else {
      EndsEarly(l, a, b, scope);
    }
  }

  lemma {:induction false} CallAgrees(e: Expr, moves: bool, scope: set<Name>, S: State, store: Store, ch: Choices)
    requires e.Call? && store.Keys == scope && Covers(S, store)
    requires CheckExpr(e, moves, scope, S).errors == 0 && JoinsExpr(e, moves, scope, S)
    ensures Agrees(RunExpr(e, moves, store, ch), CheckExpr(e, moves, scope, S), scope)
    decreases |ch|, e, 0
  {
    var f := CheckExpr(e.callee, e.takesCallee, scope, S);
    var a := CheckArgs(e.args, scope, f.moved);
    var after := a.moved + (set m | m in f.moved && m.path == []);
    ExprAgrees(e.callee, e.takesCallee, scope, S, store, ch);
    var c := RunExpr(e.callee, e.takesCallee, store, ch);
    if c.Done? {
      ArgsAgree(e.args, scope, f.moved, c.store, c.rest);
      Widen(RunArgs(e.args, c.store, c.rest), a, after, scope);
      EndsLater(RunArgs(e.args, c.store, c.rest), f, a.(moved := after), scope);
    } else {
      EndsEarly(c, f, a.(moved := after), scope);
    }
  }

  lemma {:induction false} IfAgrees(e: Expr, moves: bool, scope: set<Name>, S: State, store: Store, ch: Choices)
    requires e.If? && store.Keys == scope && Covers(S, store)
    requires CheckExpr(e, moves, scope, S).errors == 0 && JoinsExpr(e, moves, scope, S)
    ensures Agrees(RunExpr(e, moves, store, ch), CheckExpr(e, moves, scope, S), scope)
    decreases |ch|, e, 0
  {
    var c := CheckExpr(e.cond, false, scope, S);
    var t := Pop(CheckBlock(e.thn, scope, c.moved), scope);
    var f := Pop(CheckBlock(e.els, scope, c.moved), scope);
    var after := if t.left then f.moved else if f.left then t.moved else t.moved + f.moved;
    var b := Then(t, f).(moved := after, left := false);
    ExprAgrees(e.cond, false, scope, S, store, ch);
    var r := RunExpr(e.cond, false, store, ch);
    if !r.Done? {
      EndsEarly(r, c, b, scope);
    } else if r.rest != [] {
      var taken := if r.rest[0] then e.thn else e.els;
      var o := if r.rest[0] then t else f;
      BlockAgrees(taken, scope, c.moved, r.store, r.rest[1..]);
      var run := RunBlock(taken, r.store, r.rest[1..]);
      LeavingAgrees(run, CheckBlock(taken, scope, c.moved), scope);
      Widen(Leave(run, scope), o, after, scope);
      if run.Broke? { NotedMore(t.breaks, f.breaks, Leave(run, scope).store); }
      if run.Continued? { NotedMore(t.continues, f.continues, Leave(run, scope).store); }
      EndsLater(Leave(run, scope), c, b, scope);
    }
  }

  lemma {:induction false} IfOnlyAgrees(e: Expr, moves: bool, scope: set<Name>, S: State, store: Store, ch: Choices)
    requires e.IfOnly? && store.Keys == scope && Covers(S, store)
    requires CheckExpr(e, moves, scope, S).errors == 0 && JoinsExpr(e, moves, scope, S)
    ensures Agrees(RunExpr(e, moves, store, ch), CheckExpr(e, moves, scope, S), scope)
    decreases |ch|, e, 0
  {
    var c := CheckExpr(e.cond, false, scope, S);
    var t := Pop(CheckBlock(e.thn, scope, c.moved), scope);
    var after := if t.left then c.moved else t.moved;
    var b := t.(moved := after, left := false);
    ExprAgrees(e.cond, false, scope, S, store, ch);
    var r := RunExpr(e.cond, false, store, ch);
    if !r.Done? {
      EndsEarly(r, c, b, scope);
    } else if r.rest != [] {
      if r.rest[0] {
        BlockAgrees(e.thn, scope, c.moved, r.store, r.rest[1..]);
        var run := RunBlock(e.thn, r.store, r.rest[1..]);
        LeavingAgrees(run, CheckBlock(e.thn, scope, c.moved), scope);
        Widen(Leave(run, scope), t, after, scope);
        EndsLater(Leave(run, scope), c, b, scope);
      } else if !t.left {
        CoversInScope(c.moved, scope, r.store);
        IncludesCovers(after, Restrict(c.moved, scope), r.store);
      }
    }
  }

  lemma {:induction false} MatchAgrees(e: Expr, moves: bool, scope: set<Name>, S: State, store: Store, ch: Choices)
    requires e.Match? && store.Keys == scope && Covers(S, store)
    requires CheckExpr(e, moves, scope, S).errors == 0 && JoinsExpr(e, moves, scope, S)
    ensures Agrees(RunExpr(e, moves, store, ch), CheckExpr(e, moves, scope, S), scope)
    decreases |ch|, e, 0
  {
    var s := CheckExpr(e.scrutinee, !e.lent, scope, S);
    var a := CheckArms(e.arms, moves, scope, s.moved, s.moved);
    var b := a.out.(moved := if a.meet == [] then a.out.moved else JoinAll(a.meet), left := false);
    ExprAgrees(e.scrutinee, !e.lent, scope, S, store, ch);
    var r := RunExpr(e.scrutinee, !e.lent, store, ch);
    if !r.Done? {
      EndsEarly(r, s, b, scope);
    } else {
      ArmsAgree(e.arms, moves, scope, s.moved, s.moved, r.store, r.rest);
      var run := RunArms(e.arms, moves, r.store, r.rest);
      if run.Done? {
        var k :| 0 <= k < |a.meet| && Covers(a.meet[k], run.store);
        InJoinAll(a.meet, k);
        CoversMore(a.meet[k], b.moved, run.store);
      }
      EndsLater(run, s, b, scope);
    }
  }

  lemma {:induction false} ArgsAgree(args: Args, scope: set<Name>, S: State, store: Store, ch: Choices)
    requires store.Keys == scope && Covers(S, store)
    requires CheckArgs(args, scope, S).errors == 0 && JoinsArgs(args, scope, S)
    ensures Agrees(RunArgs(args, store, ch), CheckArgs(args, scope, S), scope)
    decreases |ch|, args, 0
  {
    match args
    case NoArgs =>
    case Arg(e, moves, rest) =>
      var a := CheckExpr(e, moves, scope, S);
      ExprAgrees(e, moves, scope, S, store, ch);
      var r := RunExpr(e, moves, store, ch);
      if r.Done? {
        ArgsAgree(rest, scope, a.moved, r.store, r.rest);
        EndsLater(RunArgs(rest, r.store, r.rest), a, CheckArgs(rest, scope, a.moved), scope);
      } else {
        EndsEarly(r, a, CheckArgs(rest, scope, a.moved), scope);
      }
  }

  /** An arm that ends normally ends in one of the states that meet. */
  ghost predicate ArmsAgreeOn(r: Run, a: ArmsOut, scope: set<Name>) {
    && r != Stuck
    && (r.Done? ==> r.store.Keys == scope && Noted(a.meet, r.store))
    && (r.Broke? ==> r.store.Keys == scope && Noted(a.out.breaks, r.store))
    && (r.Continued? ==> r.store.Keys == scope && Noted(a.out.continues, r.store))
  }

  lemma ThisArm(r: Run, b: Out, left: bool, rest: ArmsOut, scope: set<Name>)
    requires Agrees(r, b, scope) && (left ==> !r.Done?)
    ensures ArmsAgreeOn(r, NextArm(b, left, rest), scope)
  {
    if r.Done? {
      assert Covers([b.moved][0], r.store);
      NotedMore([b.moved], rest.meet, r.store);
    }
    if r.Broke? { NotedMore(b.breaks, rest.out.breaks, r.store); }
    if r.Continued? { NotedMore(b.continues, rest.out.continues, r.store); }
  }

  lemma LaterArm(r: Run, b: Out, left: bool, rest: ArmsOut, scope: set<Name>)
    requires ArmsAgreeOn(r, rest, scope)
    ensures ArmsAgreeOn(r, NextArm(b, left, rest), scope)
  {
    if r.Done? { NotedMore(if left then [] else [b.moved], rest.meet, r.store); }
    if r.Broke? { NotedMore(b.breaks, rest.out.breaks, r.store); }
    if r.Continued? { NotedMore(b.continues, rest.out.continues, r.store); }
  }

  lemma {:induction false} ArmsAgree(arms: Arms, moves: bool, scope: set<Name>, before: State, last: State,
      store: Store, ch: Choices)
    requires store.Keys == scope && Covers(before, store)
    requires CheckArms(arms, moves, scope, before, last).out.errors == 0 && JoinsArms(arms, moves, scope, before)
    ensures ArmsAgreeOn(RunArms(arms, moves, store, ch), CheckArms(arms, moves, scope, before, last), scope)
    decreases |ch|, arms, 1
  {
    match arms
    case NoArms =>
    case BlockArm(_, _, _) => BlockArmAgrees(arms, moves, scope, before, last, store, ch);
    case ExprArm(_, _, _) => ExprArmAgrees(arms, moves, scope, before, last, store, ch);
  }

  lemma {:induction false} BlockArmAgrees(arms: Arms, moves: bool, scope: set<Name>, before: State, last: State,
      store: Store, ch: Choices)
    requires arms.BlockArm? && store.Keys == scope && Covers(before, store)
    requires CheckArms(arms, moves, scope, before, last).out.errors == 0 && JoinsArms(arms, moves, scope, before)
    ensures ArmsAgreeOn(RunArms(arms, moves, store, ch), CheckArms(arms, moves, scope, before, last), scope)
    decreases |ch|, arms, 0
  {
    var BlockArm(binds, body, rest) := arms;
    var entry := ForgetAll(before, binds);
    var b := CheckBlock(body, scope + binds, entry);
    var p := Pop(b, scope);
    if ch != [] {
      if ch[0] {
        CoversBound(before, store, binds);
        BlockAgrees(body, scope + binds, entry, Bind(store, binds), ch[1..]);
        var r := RunBlock(body, Bind(store, binds), ch[1..]);
        LeavingAgrees(r, b, scope);
        ThisArm(Leave(r, scope), p, p.left, CheckArms(rest, moves, scope, before, p.moved), scope);
      } else {
        ArmsAgree(rest, moves, scope, before, p.moved, store, ch[1..]);
        LaterArm(RunArms(rest, moves, store, ch[1..]), p, p.left, CheckArms(rest, moves, scope, before, p.moved),
          scope);
      }
    }
  }

  lemma {:induction false} ExprArmAgrees(arms: Arms, moves: bool, scope: set<Name>, before: State, last: State,
      store: Store, ch: Choices)
    requires arms.ExprArm? && store.Keys == scope && Covers(before, store)
    requires CheckArms(arms, moves, scope, before, last).out.errors == 0 && JoinsArms(arms, moves, scope, before)
    ensures ArmsAgreeOn(RunArms(arms, moves, store, ch), CheckArms(arms, moves, scope, before, last), scope)
    decreases |ch|, arms, 0
  {
    var ExprArm(binds, e, rest) := arms;
    var entry := ForgetAll(before, binds);
    var b := CheckExpr(e, moves, scope + binds, entry);
    var p := Pop(b, scope);
    if ch != [] {
      if ch[0] {
        CoversBound(before, store, binds);
        ExprAgrees(e, moves, scope + binds, entry, Bind(store, binds), ch[1..]);
        var r := RunExpr(e, moves, Bind(store, binds), ch[1..]);
        assert AgreesInside(r, b.(left := false), scope);
        LeavingAgrees(r, b.(left := false), scope);
        ThisArm(Leave(r, scope), p, LeavesArm(e), CheckArms(rest, moves, scope, before, p.moved), scope);
      } else {
        ArmsAgree(rest, moves, scope, before, p.moved, store, ch[1..]);
        LaterArm(RunArms(rest, moves, store, ch[1..]), p, LeavesArm(e), CheckArms(rest, moves, scope, before, p.moved),
          scope);
      }
    }
  }

  lemma {:induction false} BlockAgrees(b: Block, scope: set<Name>, S: State, store: Store, ch: Choices)
    requires store.Keys == scope && Covers(S, store)
    requires CheckBlock(b, scope, S).errors == 0 && JoinsBlock(b, scope, S)
    ensures AgreesInside(RunBlock(b, store, ch), CheckBlock(b, scope, S), scope)
    decreases |ch|, b, 0
  {
    match b
    case End =>
    case Tail(e) => ExprAgrees(e, true, scope, S, store, ch);
    case Seq(s, rest) =>
      var a := CheckStmt(s, scope, S);
      StmtAgrees(s, scope, S, store, ch);
      var r := RunStmt(s, store, ch);
      if r.Done? {
        var inner := scope + Binds(s);
        var o := CheckBlock(rest, inner, a.moved);
        BlockAgrees(rest, inner, a.moved, r.store, r.rest);
        var run := RunBlock(rest, r.store, r.rest);
        if run.Broke? { NotedMore(a.breaks, o.breaks, run.store); }
        if run.Continued? { NotedMore(a.continues, o.continues, run.store); }
      } else if !a.left {
        var o := CheckBlock(rest, scope + Binds(s), a.moved);
        if r.Broke? { NotedMore(a.breaks, o.breaks, r.store); }
        if r.Continued? { NotedMore(a.continues, o.continues, r.store); }
      }
  }

  /** A statement that ends normally has added its bindings; otherwise the scope is as it was. */
  ghost predicate StmtAgreesOn(r: Run, s: Stmt, o: Out, scope: set<Name>) {
    && r != Stuck
    && (r.Done? ==> r.store.Keys == scope + Binds(s) && Covers(o.moved, r.store) && !o.left)
    && (r.Broke? ==> r.store.Keys == scope && Noted(o.breaks, r.store))
    && (r.Continued? ==> r.store.Keys == scope && Noted(o.continues, r.store))
  }

  lemma {:induction false} StmtAgrees(s: Stmt, scope: set<Name>, S: State, store: Store, ch: Choices)
    requires store.Keys == scope && Covers(S, store)
    requires CheckStmt(s, scope, S).errors == 0 && JoinsStmt(s, scope, S)
    ensures StmtAgreesOn(RunStmt(s, store, ch), s, CheckStmt(s, scope, S), scope)
    decreases |ch|, s, 3
  {
    match s
    case Let(x, value) =>
      ExprAgrees(value, true, scope, S, store, ch);
      var r := RunExpr(value, true, store, ch);
      if r.Done? {
        CoversBound(CheckExpr(value, true, scope, S).moved, r.store, {x});
        assert Bind(r.store, {x}) == r.store[x := Whole];
        assert ForgetAll(CheckExpr(value, true, scope, S).moved, {x}) ==
          Forget(CheckExpr(value, true, scope, S).moved, x);
      }
    case Do(e) => ExprAgrees(e, false, scope, S, store, ch);
    case Assign(target, value) => AssignStmtAgrees(s, scope, S, store, ch);
    case While(_, _) => LoopAgrees(s, scope, S, store, ch);
    case For(_, iter, lent, _) =>
      var i := CheckExpr(iter, !lent, scope, S);
      ExprAgrees(iter, !lent, scope, S, store, ch);
      var r := RunExpr(iter, !lent, store, ch);
      var l := CheckLoop(s, scope, i.moved);
      if r.Done? {
        LoopAgrees(s, scope, i.moved, r.store, r.rest);
        EndsLater(RunLoop(s, r.store, r.rest), i, l, scope);
      } else {
        EndsEarly(r, i, l, scope);
      }
    case ReturnStmt(value) => ExprAgrees(value, true, scope, S, store, ch);
    case BreakStmt => assert Covers([S][0], store);
    case ContinueStmt => assert Covers([S][0], store);
  }

  lemma {:induction false} AssignStmtAgrees(s: Stmt, scope: set<Name>, S: State, store: Store, ch: Choices)
    requires s.Assign? && store.Keys == scope && Covers(S, store)
    requires CheckStmt(s, scope, S).errors == 0 && JoinsStmt(s, scope, S)
    ensures StmtAgreesOn(RunStmt(s, store, ch), s, CheckStmt(s, scope, S), scope)
    decreases |ch|, s, 0
  {
    var v := CheckExpr(s.value, true, scope, S);
    ExprAgrees(s.value, true, scope, S, store, ch);
    var r := RunExpr(s.value, true, store, ch);
    var t := CheckTarget(s.target, scope, v.moved);
    if r.Done? {
      match s.target {
        case ToPlace(place) => AssignAgrees(place, scope, v.moved, r.store, r.rest);
        case ToOther(e) => ExprAgrees(e, false, scope, v.moved, r.store, r.rest);
      }
      EndsLater(RunTarget(s.target, r.store, r.rest), v, t, scope);
    } else {
      EndsEarly(r, v, t, scope);
    }
  }

  lemma {:induction false} LoopAgrees(s: Stmt, scope: set<Name>, S: State, store: Store, ch: Choices)
    requires IsLoop(s) && store.Keys == scope && Covers(S, store)
    requires CheckLoop(s, scope, S).errors == 0 && JoinsLoop(s, scope, Settle(s, scope, S, MAX_PASSES).head)
    ensures Agrees(RunLoop(s, store, ch), CheckLoop(s, scope, S), scope)
    decreases |ch|, s, 2
  {
    MoveEffects.LoopSettles(s, scope, S, MAX_PASSES);
    var head := Settle(s, scope, S, MAX_PASSES).head;
    CoversMore(S, head, store);
    HeadAgrees(s, scope, head, store, ch);
  }

  /** From a settled head: the store at the head stays covered by it however often the loop runs. */
  lemma {:induction false} HeadAgrees(s: Stmt, scope: set<Name>, head: State, store: Store, ch: Choices)
    requires IsLoop(s) && store.Keys == scope && Covers(head, store) && JoinsLoop(s, scope, head)
    requires
      var it := Iterate(s, scope, head);
      it.errors == 0 && NextHead(it, scope, head) == head
    ensures Agrees(RunLoop(s, store, ch), Plain(ExitState(s, scope, head)), scope)
    decreases |ch|, s, 1
  {
    var it := Iterate(s, scope, head);
    var c := RunCond(s, store, ch);
    CondAgrees(s, scope, head, store, ch);
    match c {
      case Done(s1, rest) =>
        if rest != [] && rest[0] {
          BodyAgrees(s, scope, head, s1, rest[1..]);
          var b := RunBody(s, s1, rest[1..]);
          if b.Done? || b.Continued? {
            BackAtHead(s, scope, head, b);
            HeadAgrees(s, scope, head, b.store, b.rest);
          }
          if b.Broke? { NotedJoined(it.breaks, scope, b.store, head); }
        }
      case Continued(s1, rest) =>
        BackAtHead(s, scope, head, c);
        if rest != [] { HeadAgrees(s, scope, head, s1, rest[1..]); }
      case Broke(s1, rest) => NotedJoined(it.breaks, scope, s1, head);
      case Returned =>
      case Unfinished =>
    }
  }

  /** What an iteration of the loop leaves at its exits. */
  ghost predicate IterationAgrees(r: Run, it: Out, scope: set<Name>) {
    && r != Stuck
    && (r.Done? ==> r.store.Keys == scope && Covers(it.moved, r.store) && !it.left)
    && (r.Broke? ==> r.store.Keys == scope && Noted(it.breaks, r.store))
    && (r.Continued? ==> r.store.Keys == scope && Noted(it.continues, r.store))
  }

  lemma BackAtHead(s: Stmt, scope: set<Name>, head: State, r: Run)
    requires IsLoop(s) && NextHead(Iterate(s, scope, head), scope, head) == head
    requires IterationAgrees(r, Iterate(s, scope, head), scope) && (r.Done? || r.Continued?)
    ensures Covers(head, r.store)
  {
    var it := Iterate(s, scope, head);
    var end := if it.left then [] else [it.moved];
    if r.Done? {
      assert Covers(end[0], r.store);
    }
    NotedMore(it.continues, end, r.store);
    NotedJoined(it.continues + end, scope, r.store, head);
  }

  /** The body's entry state: after the condition, or with the loop variable bound. */
  function BodyEntry(s: Stmt, scope: set<Name>, head: State): State
    requires IsLoop(s)
  {
    if s.While? then CheckExpr(s.cond, false, scope, head).moved else head
  }

  lemma {:induction false} CondAgrees(s: Stmt, scope: set<Name>, head: State, store: Store, ch: Choices)
    requires IsLoop(s) && store.Keys == scope && Covers(head, store) && JoinsLoop(s, scope, head)
    requires Iterate(s, scope, head).errors == 0
    ensures
      var r, it := RunCond(s, store, ch), Iterate(s, scope, head);
      && (r.Done? ==> r.store.Keys == scope && Covers(BodyEntry(s, scope, head), r.store))
      && (r.Done? ==> Covers(ExitState(s, scope, head), r.store))
      && (!r.Done? ==> IterationAgrees(r, it, scope))
    decreases |ch|, s, 0
  {
    if s.While? {
      var c := CheckExpr(s.cond, false, scope, head);
      ExprAgrees(s.cond, false, scope, head, store, ch);
      var r := RunCond(s, store, ch);
      if r.Done? {
        CoversInScope(c.moved, scope, r.store);
        IncludesCovers(ExitState(s, scope, head), Restrict(c.moved, scope), r.store);
      } else {
        EndsEarly(r, c, Pop(CheckBlock(s.body, scope, c.moved), scope), scope);
      }
    } else {
      CoversMore(head, ExitState(s, scope, head), store);
    }
  }

  lemma {:induction false} BodyAgrees(s: Stmt, scope: set<Name>, head: State, store: Store, ch: Choices)
    requires IsLoop(s) && store.Keys == scope && Covers(BodyEntry(s, scope, head), store) && JoinsLoop(s, scope, head)
    requires Iterate(s, scope, head).errors == 0
    ensures IterationAgrees(RunBody(s, store, ch), Iterate(s, scope, head), scope)
    decreases |ch|, s, 0
  {
    match s
    case While(cond, body) =>
      var c := CheckExpr(cond, false, scope, head);
      BlockAgrees(body, scope, c.moved, store, ch);
      var o := CheckBlock(body, scope, c.moved);
      LeavingAgrees(RunBlock(body, store, ch), o, scope);
      EndsLater(Leave(RunBlock(body, store, ch), scope), c, Pop(o, scope), scope);
    case For(x, _, _, body) =>
      CoversBound(head, store, {x});
      assert ForgetAll(head, {x}) == Forget(head, x);
      BlockAgrees(body, scope + {x}, Forget(head, x), Bind(store, {x}), ch);
      LeavingAgrees(RunBlock(body, Bind(store, {x}), ch), CheckBlock(body, scope + {x}, Forget(head, x)), scope);
  }

  /** No run of a body the checker accepts, however long and whichever way it goes,
      reads, moves or assigns into a moved-out value. */
  lemma AcceptedBodiesNeverStick(body: Block, params: set<Name>, ch: Choices)
    requires CheckBlock(body, params, {}).errors == 0 && JoinsBlock(body, params, {})
    ensures RunBlock(body, Bind(map[], params), ch) != Stuck
  {
    BlockAgrees(body, params, {}, Bind(map[], params), ch);
  }
}
