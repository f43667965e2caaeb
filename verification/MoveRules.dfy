/** The move checker's verdict as a function: the moved places it tracks, the
    errors it reports and the states it notes at `break` and `continue`. */
module MoveRules {
  import opened OwnershipSyntax

  /** A set of moved places: a binding's own entry has an empty path. */
  type State = set<Place>

  /** The loop check gives up after this many passes. */
  const MAX_PASSES: nat := 8

  /** What checking a phrase leaves: the state after it, the number of errors,
      the states noted at `break` and `continue`, and whether it surely leaves. */
  datatype Out = Out(moved: State, errors: nat, breaks: seq<State>, continues: seq<State>, left: bool)

  function Plain(S: State): Out {
    Out(S, 0, [], [], false)
  }

  /** `b` was checked after `a`, from the state `a` left. */
  function Then(a: Out, b: Out): Out {
    Out(b.moved, a.errors + b.errors, a.breaks + b.breaks, a.continues + b.continues, b.left)
  }

  /** The entries of the bindings in `scope`. */
  function Restrict(S: State, scope: set<Name>): State {
    set m | m in S && m.root in scope
  }

  /** `x` is owned whole: it and its parts are forgotten. */
  function Forget(S: State, x: Name): State {
    set m | m in S && m.root != x
  }

  function ForgetAll(S: State, xs: set<Name>): State {
    set m | m in S && m.root !in xs
  }

  /** Where several paths meet a place is moved if it is on any of them. */
  function JoinAll(paths: seq<State>): State {
    if paths == [] then {} else paths[0] + JoinAll(paths[1..])
  }

  function Pop(o: Out, scope: set<Name>): Out {
    o.(moved := Restrict(o.moved, scope))
  }

  // ---- places -------------------------------------------------------------

  function CheckUse(place: Place, moveOnly: bool, pinned: bool, moves: bool, scope: set<Name>, S: State): Out {
    if place.root !in scope then Plain(S)
    else if exists m :: m in S && Overlaps(m, place) then Plain(S).(errors := 1)
    else if !moves || !moveOnly then Plain(S)
    else if pinned then Plain(S).(errors := 1)
    else Plain(S + {place})
  }

  /** Assigning to a place gives back what moved out of it and its parts, unless
      a parent of it is gone too, which is a use of a moved value. */
  function CheckAssign(place: Place, scope: set<Name>, S: State): Out {
    if place.root !in scope then Plain(S)
    else if exists m :: m in S && Within(place, m) && m != place then Plain(S).(errors := 1)
    else Plain(set m | m in S && !Within(m, place))
  }

  // ---- expressions --------------------------------------------------------

  function CheckExpr(e: Expr, moves: bool, scope: set<Name>, S: State): Out
    decreases e, 0
  {
    match e
    case Literal => Plain(S)
    case Use(place, moveOnly, pinned) => CheckUse(place, moveOnly, pinned, moves, scope, S)
    case Eval(parts) => CheckArgs(parts, scope, S)
    case ShortCircuit(l, r) =>
      var a := CheckExpr(l, false, scope, S);
      Then(a, CheckExpr(r, false, scope, a.moved))
    case Call(callee, takesCallee, args) =>
      var f := CheckExpr(callee, takesCallee, scope, S);
      var a := CheckArgs(args, scope, f.moved);
      // A binding already moved before the arguments stays moved after them.
      Then(f, a.(moved := a.moved + (set m | m in f.moved && m.path == [])))
    case Try(operand) => CheckExpr(operand, moves, scope, S)
    case If(cond, thn, els) =>
      var c := CheckExpr(cond, false, scope, S);
      var t := Pop(CheckBlock(thn, scope, c.moved), scope);
      var f := Pop(CheckBlock(els, scope, c.moved), scope);
      var after := if t.left then f.moved else if f.left then t.moved else t.moved + f.moved;
      Then(c, Then(t, f)).(moved := after, left := false)
    case IfOnly(cond, thn) =>
      var c := CheckExpr(cond, false, scope, S);
      var t := Pop(CheckBlock(thn, scope, c.moved), scope);
      // The path that skips the block is joined only when the block leaves.
      Then(c, t).(moved := if t.left then c.moved else t.moved, left := false)
    case Match(scrutinee, lent, arms) =>
      var s := CheckExpr(scrutinee, !lent, scope, S);
      var a := CheckArms(arms, moves, scope, s.moved, s.moved);
      Then(s, a.out).(moved := if a.meet == [] then a.out.moved else JoinAll(a.meet), left := false)
    case Scoped(block) => Pop(CheckBlock(block, scope, S), scope).(left := false)
    case Break => Plain(S).(breaks := [S])
    case Continue => Plain(S).(continues := [S])
    case Return(value) => CheckExpr(value, true, scope, S)
  }

  function CheckArgs(args: Args, scope: set<Name>, S: State): Out
    decreases args, 0
  {
    match args
    case NoArgs => Plain(S)
    case Arg(e, moves, rest) =>
      var a := CheckExpr(e, moves, scope, S);
      Then(a, CheckArgs(rest, scope, a.moved))
  }

  /** The arms' common result: `meet` holds the states of the arms that fall
      through, `out.moved` the state after the last arm. */
  datatype ArmsOut = ArmsOut(meet: seq<State>, out: Out)

  predicate LeavesArm(e: Expr) {
    e.Break? || e.Continue? || e.Return?
  }

  function CheckArms(arms: Arms, moves: bool, scope: set<Name>, before: State, last: State): ArmsOut
    decreases arms, 0
  {
    match arms
    case NoArms => ArmsOut([], Plain(last))
    case BlockArm(binds, body, rest) =>
      var b := Pop(CheckBlock(body, scope + binds, ForgetAll(before, binds)), scope);
      NextArm(b, b.left, CheckArms(rest, moves, scope, before, b.moved))
    case ExprArm(binds, e, rest) =>
      var b := Pop(CheckExpr(e, moves, scope + binds, ForgetAll(before, binds)), scope);
      NextArm(b, LeavesArm(e), CheckArms(rest, moves, scope, before, b.moved))
  }

  function NextArm(arm: Out, left: bool, rest: ArmsOut): ArmsOut {
    ArmsOut((if left then [] else [arm.moved]) + rest.meet, Then(arm, rest.out))
  }

  // ---- statements ---------------------------------------------------------

  function CheckBlock(b: Block, scope: set<Name>, S: State): Out
    decreases b, 0
  {
    match b
    case End => Plain(S)
    case Tail(e) => CheckExpr(e, true, scope, S).(left := false)
    case Seq(s, rest) =>
      var a := CheckStmt(s, scope, S);
      // What follows a statement that leaves is dead and is not checked.
      if a.left then a else Then(a, CheckBlock(rest, scope + Binds(s), a.moved))
  }

  function CheckStmt(s: Stmt, scope: set<Name>, S: State): Out
    decreases s, MAX_PASSES + 2
  {
    match s
    case Let(x, value) =>
      var v := CheckExpr(value, true, scope, S);
      v.(moved := Forget(v.moved, x), left := false)
    case Do(e) => CheckExpr(e, false, scope, S).(left := false)
    case Assign(target, value) =>
      var v := CheckExpr(value, true, scope, S);
      Then(v, CheckTarget(target, scope, v.moved)).(left := false)
    case While(_, _) => CheckLoop(s, scope, S)
    case For(_, iter, lent, _) =>
      var i := CheckExpr(iter, !lent, scope, S);
      Then(i, CheckLoop(s, scope, i.moved))
    case ReturnStmt(value) => CheckExpr(value, true, scope, S).(left := true)
    case BreakStmt => Plain(S).(breaks := [S], left := true)
    case ContinueStmt => Plain(S).(continues := [S], left := true)
  }

  function CheckTarget(target: Target, scope: set<Name>, S: State): Out
    decreases target, 0
  {
    match target
    case ToPlace(place) => CheckAssign(place, scope, S)
    case ToOther(e) => CheckExpr(e, false, scope, S)
  }

  // ---- loops --------------------------------------------------------------

  /** One pass over a loop's condition and body from the state at its head. */
  function Iterate(s: Stmt, scope: set<Name>, head: State): Out
    requires IsLoop(s)
    decreases s, 0
  {
    match s
    case While(cond, body) =>
      var c := CheckExpr(cond, false, scope, head);
      Then(c, Pop(CheckBlock(body, scope, c.moved), scope))
    case For(x, _, _, body) =>
      Pop(CheckBlock(body, scope + {x}, Forget(head, x)), scope)
  }

  /** The head joined with every path back to it. */
  function NextHead(it: Out, scope: set<Name>, head: State): State {
    var back := it.continues + if it.left then [] else [it.moved];
    head + Restrict(JoinAll(back), scope)
  }

  /** Where the passes stopped: the head they settled on, the last pass over it,
      the errors of all passes, how many ran, and whether the last one left the head as it was. */
  datatype Fixpoint = Fixpoint(head: State, last: Out, errors: nat, passes: nat, stable: bool)

  function Settle(s: Stmt, scope: set<Name>, head: State, passes: nat): Fixpoint
    requires IsLoop(s) && 1 <= passes
    decreases s, passes
  {
    var it := Iterate(s, scope, head);
    var next := NextHead(it, scope, head);
    if next == head || passes == 1 then
      Fixpoint(next, it, it.errors, 1, next == head)
    else
      var f := Settle(s, scope, next, passes - 1);
      f.(errors := it.errors + f.errors, passes := f.passes + 1)
  }

  /** After a loop: its condition failed at the head, or a `break` was taken. */
  function CheckLoop(s: Stmt, scope: set<Name>, S: State): Out
    requires IsLoop(s)
    decreases s, MAX_PASSES + 1
  {
    var f := Settle(s, scope, S, MAX_PASSES);
    Plain(f.head + Restrict(JoinAll(f.last.breaks), scope)).(errors := f.errors)
  }
}
