/** The moved-set transformer of every phrase checked without error is gen/kill: it sets,
    clears or keeps one place's moved bit, whatever the state. So a loop's head settles
    by the second pass and the pass limit never decides. */
module MoveEffects {
  import opened OwnershipSyntax
  import opened MoveRules

  /** What happens to one place's moved bit: never moved after, as before, always moved after. */
  datatype Effect = Clear | Same | Set

  predicate Apply(e: Effect, moved: bool) {
    e == Set || (e == Same && moved)
  }

  /** `b` happens after `a`. */
  function After(a: Effect, b: Effect): Effect {
    if b == Same then a else b
  }

  /** Moved if it is on either path. */
  function Either(a: Effect, b: Effect): Effect {
    if a == Set || b == Set then Set else if a == Same || b == Same then Same else Clear
  }

  /** A phrase's effect on one place: where it ends, and joined over its `break`s and
      over its `continue`s (Clear when it has none); and whether it surely leaves. */
  datatype Effects = Effects(end: Effect, brk: Effect, cnt: Effect, left: bool)

  function Ends(e: Effect): Effects {
    Effects(e, Clear, Clear, false)
  }

  function Chain(a: Effects, b: Effects): Effects {
    Effects(After(a.end, b.end), Either(a.brk, After(a.end, b.brk)), Either(a.cnt, After(a.end, b.cnt)), b.left)
  }

  // ---- the effects, by recursion over the syntax only ---------------------

  function ExprEffects(e: Expr, moves: bool, scope: set<Name>, m: Place): Effects
    decreases e, 0
  {
    match e
    case Literal => Ends(Same)
    case Use(place, moveOnly, pinned) =>
      Ends(if place == m && place.root in scope && moves && moveOnly && !pinned then Set else Same)
    case Eval(parts) => ArgsEffects(parts, scope, m)
    case ShortCircuit(l, r) => Chain(ExprEffects(l, false, scope, m), ExprEffects(r, false, scope, m))
    case Call(callee, takesCallee, args) =>
      var a := ArgsEffects(args, scope, m);
      Chain(ExprEffects(callee, takesCallee, scope, m), a.(end := if m.path == [] then Either(a.end, Same) else a.end))
    case Try(operand) => ExprEffects(operand, moves, scope, m)
    case If(cond, thn, els) =>
      var t := BlockEffects(thn, scope, m);
      var f := BlockEffects(els, scope, m);
      var end := if t.left then f.end else if f.left then t.end else Either(t.end, f.end);
      Chain(ExprEffects(cond, false, scope, m), Effects(end, Either(t.brk, f.brk), Either(t.cnt, f.cnt), false))
    case IfOnly(cond, thn) =>
      var t := BlockEffects(thn, scope, m);
      Chain(ExprEffects(cond, false, scope, m), t.(end := if t.left then Same else t.end, left := false))
    case Match(scrutinee, lent, arms) =>
      var a := ArmsEffects(arms, moves, scope, m, Same);
      Chain(ExprEffects(scrutinee, !lent, scope, m),
        a.out.(end := if a.falls then a.meet else a.out.end, left := false))
    case Scoped(block) => BlockEffects(block, scope, m).(left := false)
    case Break => Effects(Same, Same, Clear, false)
    case Continue => Effects(Same, Clear, Same, false)
    case Return(value) => ExprEffects(value, true, scope, m)
  }

  function ArgsEffects(args: Args, scope: set<Name>, m: Place): Effects
    decreases args, 0
  {
    match args
    case NoArgs => Ends(Same)
    case Arg(e, moves, rest) => Chain(ExprEffects(e, moves, scope, m), ArgsEffects(rest, scope, m))
  }

  /** The arms' effects: joined over those that fall through, and the last arm's. */
  datatype ArmEffects = ArmEffects(falls: bool, meet: Effect, out: Effects)

  function ArmsEffects(arms: Arms, moves: bool, scope: set<Name>, m: Place, last: Effect): ArmEffects
    decreases arms, 0
  {
    match arms
    case NoArms => ArmEffects(false, Clear, Ends(last))
    case BlockArm(binds, body, rest) =>
      var b := Chain(Entering(binds, m), BlockEffects(body, scope + binds, m));
      NextArmEffects(b, b.left, ArmsEffects(rest, moves, scope, m, b.end))
    case ExprArm(binds, e, rest) =>
      var b := Chain(Entering(binds, m), ExprEffects(e, moves, scope + binds, m));
      NextArmEffects(b, LeavesArm(e), ArmsEffects(rest, moves, scope, m, b.end))
  }

  function NextArmEffects(arm: Effects, left: bool, rest: ArmEffects): ArmEffects {
    ArmEffects(!left || rest.falls, if left then rest.meet else Either(arm.end, rest.meet),
               Effects(rest.out.end, Either(arm.brk, rest.out.brk), Either(arm.cnt, rest.out.cnt), rest.out.left))
  }

  function Entering(binds: set<Name>, m: Place): Effects {
    Ends(if m.root in binds then Clear else Same)
  }

  function BlockEffects(b: Block, scope: set<Name>, m: Place): Effects
    decreases b, 0
  {
    match b
    case End => Ends(Same)
    case Tail(e) => ExprEffects(e, true, scope, m).(left := false)
    case Seq(s, rest) =>
      var a := StmtEffects(s, scope, m);
      if a.left then a else Chain(a, BlockEffects(rest, scope + Binds(s), m))
  }

  function StmtEffects(s: Stmt, scope: set<Name>, m: Place): Effects
    decreases s, 3
  {
    match s
    case Let(x, value) => Chain(ExprEffects(value, true, scope, m), Entering({x}, m))
    case Do(e) => ExprEffects(e, false, scope, m).(left := false)
    case Assign(target, value) =>
      Chain(ExprEffects(value, true, scope, m), TargetEffects(target, scope, m)).(left := false)
    case While(_, _) => LoopEffects(s, scope, m)
    case For(_, iter, lent, _) => Chain(ExprEffects(iter, !lent, scope, m), LoopEffects(s, scope, m))
    case ReturnStmt(value) => ExprEffects(value, true, scope, m).(left := true)
    case BreakStmt => Effects(Same, Same, Clear, true)
    case ContinueStmt => Effects(Same, Clear, Same, true)
  }

  function TargetEffects(target: Target, scope: set<Name>, m: Place): Effects
    decreases target, 0
  {
    match target
    case ToPlace(place) => Ends(if place.root in scope && Within(m, place) then Clear else Same)
    case ToOther(e) => ExprEffects(e, false, scope, m)
  }

  function IterationEffects(s: Stmt, scope: set<Name>, m: Place): Effects
    requires IsLoop(s)
    decreases s, 0
  {
    match s
    case While(cond, body) => Chain(ExprEffects(cond, false, scope, m), BlockEffects(body, scope, m))
    case For(x, _, _, body) => Chain(Entering({x}, m), BlockEffects(body, scope + {x}, m))
  }

  /** The head is the entry state joined with what any number of iterations sets. */
  function HeadEffect(s: Stmt, scope: set<Name>, m: Place): Effect
    requires IsLoop(s)
    decreases s, 1
  {
    var it := IterationEffects(s, scope, m);
    Either(Same, Either(it.cnt, if it.left then Clear else it.end))
  }

  function LoopEffects(s: Stmt, scope: set<Name>, m: Place): Effects
    requires IsLoop(s)
    decreases s, 2
  {
    var h := HeadEffect(s, scope, m);
    Ends(Either(h, After(h, IterationEffects(s, scope, m).brk)))
  }

  // ---- what the checker computes is what the effects say ------------------

  /** From a state where the place's bit is `was`, `o` has it where `f` says. */
  predicate Does(o: Out, f: Effects, m: Place, was: bool) {
    && (m in o.moved <==> Apply(f.end, was))
    && (m in JoinAll(o.breaks) <==> Apply(f.brk, was))
    && (m in JoinAll(o.continues) <==> Apply(f.cnt, was))
  }

  lemma {:induction false} JoinAllAppend(a: seq<State>, b: seq<State>)
    ensures JoinAll(a + b) == JoinAll(a) + JoinAll(b)
  {
    if a == [] {
      assert a + b == b;
    } else {
      JoinAllAppend(a[1..], b);
      assert (a + b)[1..] == a[1..] + b;
    }
  }

  lemma ThenDoes(a: Out, fa: Effects, b: Out, fb: Effects, m: Place, was: bool)
    requires Does(a, fa, m, was) && Does(b, fb, m, m in a.moved)
    ensures Does(Then(a, b), Chain(fa, fb), m, was)
  {
    JoinAllAppend(a.breaks, b.breaks);
    JoinAllAppend(a.continues, b.continues);
  }

  /** `a` and `b` were checked from the same state, and `moved` is where they meet. */
  lemma MeetDoes(a: Out, fa: Effects, b: Out, fb: Effects, moved: State, end: Effect, m: Place, was: bool)
    requires Does(a, fa, m, was) && Does(b, fb, m, was)
    requires m in moved <==> Apply(end, was)
    ensures Does(Then(a, b).(moved := moved), Effects(end, Either(fa.brk, fb.brk), Either(fa.cnt, fb.cnt), false), m,
      was)
  {
    JoinAllAppend(a.breaks, b.breaks);
    JoinAllAppend(a.continues, b.continues);
  }

  lemma {:induction false} ExprIsGenKill(e: Expr, moves: bool, scope: set<Name>, S: State, m: Place)
    requires m.root in scope && CheckExpr(e, moves, scope, S).errors == 0
    ensures Does(CheckExpr(e, moves, scope, S), ExprEffects(e, moves, scope, m), m, m in S)
    decreases e, 1
  {
    match e
    case Literal =>
    case Use(_, _, _) =>
    case Eval(parts) => ArgsAreGenKill(parts, scope, S, m);
    case ShortCircuit(_, _) => ShortCircuitIsGenKill(e, moves, scope, S, m);
    case Call(_, _, _) => CallIsGenKill(e, moves, scope, S, m);
    case Try(operand) => ExprIsGenKill(operand, moves, scope, S, m);
    case If(_, _, _) => IfIsGenKill(e, moves, scope, S, m);
    case IfOnly(_, _) => IfOnlyIsGenKill(e, moves, scope, S, m);
    case Match(_, _, _) => MatchIsGenKill(e, moves, scope, S, m);
    case Scoped(block) => BlockIsGenKill(block, scope, S, m);
    case Break =>
    case Continue =>
    case Return(value) => ExprIsGenKill(value, true, scope, S, m);
  }

  lemma {:induction false} ShortCircuitIsGenKill(e: Expr, moves: bool, scope: set<Name>, S: State, m: Place)
    requires e.ShortCircuit? && m.root in scope && CheckExpr(e, moves, scope, S).errors == 0
    ensures Does(CheckExpr(e, moves, scope, S), ExprEffects(e, moves, scope, m), m, m in S)
    decreases e, 0
  {
    var ShortCircuit(l, r) := e;
    var a := CheckExpr(l, false, scope, S);
    ExprIsGenKill(l, false, scope, S, m);
    ExprIsGenKill(r, false, scope, a.moved, m);
    ThenDoes(a, ExprEffects(l, false, scope, m), CheckExpr(r, false, scope, a.moved), ExprEffects(r, false, scope, m),
      m, m in S);
  }

  /** Putting back whole bindings moved before. */
  lemma ReleaseDoes(a: Out, fa: Effects, saved: State, m: Place)
    requires Does(a, fa, m, m in saved)
    ensures Does(a.(moved := a.moved + (set p | p in saved && p.path == [])),
                 fa.(end := if m.path == [] then Either(fa.end, Same) else fa.end), m, m in saved)
  {
  }

  lemma {:induction false} CallIsGenKill(e: Expr, moves: bool, scope: set<Name>, S: State, m: Place)
    requires e.Call? && m.root in scope && CheckExpr(e, moves, scope, S).errors == 0
    ensures Does(CheckExpr(e, moves, scope, S), ExprEffects(e, moves, scope, m), m, m in S)
    decreases e, 0
  {
    var Call(callee, takesCallee, args) := e;
    var f := CheckExpr(callee, takesCallee, scope, S);
    var a := CheckArgs(args, scope, f.moved);
    ExprIsGenKill(callee, takesCallee, scope, S, m);
    ArgsAreGenKill(args, scope, f.moved, m);
    var fa := ArgsEffects(args, scope, m);
    ReleaseDoes(a, fa, f.moved, m);
    ThenDoes(f, ExprEffects(callee, takesCallee, scope, m),
             a.(moved := a.moved + (set p | p in f.moved && p.path == [])),
             fa.(end := if m.path == [] then Either(fa.end, Same) else fa.end), m, m in S);
  }

  lemma {:induction false} IfIsGenKill(e: Expr, moves: bool, scope: set<Name>, S: State, m: Place)
    requires e.If? && m.root in scope && CheckExpr(e, moves, scope, S).errors == 0
    ensures Does(CheckExpr(e, moves, scope, S), ExprEffects(e, moves, scope, m), m, m in S)
    decreases e, 0
  {
    var If(cond, thn, els) := e;
    var c := CheckExpr(cond, false, scope, S);
    ExprIsGenKill(cond, false, scope, S, m);
    var t := Pop(CheckBlock(thn, scope, c.moved), scope);
    var f := Pop(CheckBlock(els, scope, c.moved), scope);
    BlockIsGenKill(thn, scope, c.moved, m);
    BlockIsGenKill(els, scope, c.moved, m);
    var ft, ff := BlockEffects(thn, scope, m), BlockEffects(els, scope, m);
    var after := if t.left then f.moved else if f.left then t.moved else t.moved + f.moved;
    var end := if ft.left then ff.end else if ff.left then ft.end else Either(ft.end, ff.end);
    MeetDoes(t, ft, f, ff, after, end, m, m in c.moved);
    ThenDoes(c, ExprEffects(cond, false, scope, m), Then(t, f).(moved := after),
             Effects(end, Either(ft.brk, ff.brk), Either(ft.cnt, ff.cnt), false), m, m in S);
  }

  lemma {:induction false} IfOnlyIsGenKill(e: Expr, moves: bool, scope: set<Name>, S: State, m: Place)
    requires e.IfOnly? && m.root in scope && CheckExpr(e, moves, scope, S).errors == 0
    ensures Does(CheckExpr(e, moves, scope, S), ExprEffects(e, moves, scope, m), m, m in S)
    decreases e, 0
  {
    var IfOnly(cond, thn) := e;
    var c := CheckExpr(cond, false, scope, S);
    ExprIsGenKill(cond, false, scope, S, m);
    var t := Pop(CheckBlock(thn, scope, c.moved), scope);
    BlockIsGenKill(thn, scope, c.moved, m);
    var ft := BlockEffects(thn, scope, m);
    ThenDoes(c, ExprEffects(cond, false, scope, m), t.(moved := if t.left then c.moved else t.moved),
             ft.(end := if ft.left then Same else ft.end, left := false), m, m in S);
  }

  lemma {:induction false} MatchIsGenKill(e: Expr, moves: bool, scope: set<Name>, S: State, m: Place)
    requires e.Match? && m.root in scope && CheckExpr(e, moves, scope, S).errors == 0
    ensures Does(CheckExpr(e, moves, scope, S), ExprEffects(e, moves, scope, m), m, m in S)
    decreases e, 0
  {
    var Match(scrutinee, lent, arms) := e;
    var s := CheckExpr(scrutinee, !lent, scope, S);
    ExprIsGenKill(scrutinee, !lent, scope, S, m);
    var a := CheckArms(arms, moves, scope, s.moved, s.moved);
    ArmsAreGenKill(arms, moves, scope, s.moved, s.moved, m, Same);
    var fa := ArmsEffects(arms, moves, scope, m, Same);
    ThenDoes(s, ExprEffects(scrutinee, !lent, scope, m),
             a.out.(moved := if a.meet == [] then a.out.moved else JoinAll(a.meet)),
             fa.out.(end := if fa.falls then fa.meet else fa.out.end, left := false), m, m in S);
  }

  lemma {:induction false} ArgsAreGenKill(args: Args, scope: set<Name>, S: State, m: Place)
    requires m.root in scope && CheckArgs(args, scope, S).errors == 0
    ensures Does(CheckArgs(args, scope, S), ArgsEffects(args, scope, m), m, m in S)
    decreases args, 0
  {
    match args
    case NoArgs =>
    case Arg(e, moves, rest) =>
      var a := CheckExpr(e, moves, scope, S);
      ExprIsGenKill(e, moves, scope, S, m);
      ArgsAreGenKill(rest, scope, a.moved, m);
      ThenDoes(a, ExprEffects(e, moves, scope, m), CheckArgs(rest, scope, a.moved), ArgsEffects(rest, scope, m), m,
        m in S);
  }

  lemma {:induction false} ArmsAreGenKill(arms: Arms, moves: bool, scope: set<Name>, before: State, last: State,
      m: Place, lastEffect: Effect)
    requires m.root in scope && CheckArms(arms, moves, scope, before, last).out.errors == 0
    requires m in last <==> Apply(lastEffect, m in before)
    ensures
      var a, f := CheckArms(arms, moves, scope, before, last), ArmsEffects(arms, moves, scope, m, lastEffect);
      && Does(a.out, f.out, m, m in before)
      && (f.falls <==> a.meet != [])
      && (m in JoinAll(a.meet) <==> Apply(f.meet, m in before))
    decreases arms, 0
  {
    match arms
    case NoArms =>
    case BlockArm(binds, body, rest) =>
      var entry := ForgetAll(before, binds);
      var b := Pop(CheckBlock(body, scope + binds, entry), scope);
      BlockIsGenKill(body, scope + binds, entry, m);
      var fb := Chain(Entering(binds, m), BlockEffects(body, scope + binds, m));
      EnteringDoes(binds, scope, before, CheckBlock(body, scope + binds, entry), BlockEffects(body, scope + binds, m),
        m);
      ArmsAreGenKill(rest, moves, scope, before, b.moved, m, fb.end);
      NextArmDoes(b, b.left, CheckArms(rest, moves, scope, before, b.moved), fb,
        ArmsEffects(rest, moves, scope, m, fb.end), m, m in before);
    case ExprArm(binds, e, rest) =>
      var entry := ForgetAll(before, binds);
      var b := Pop(CheckExpr(e, moves, scope + binds, entry), scope);
      ExprIsGenKill(e, moves, scope + binds, entry, m);
      var fb := Chain(Entering(binds, m), ExprEffects(e, moves, scope + binds, m));
      EnteringDoes(binds, scope, before, CheckExpr(e, moves, scope + binds, entry),
        ExprEffects(e, moves, scope + binds, m), m);
      ArmsAreGenKill(rest, moves, scope, before, b.moved, m, fb.end);
      NextArmDoes(b, LeavesArm(e), CheckArms(rest, moves, scope, before, b.moved), fb,
        ArmsEffects(rest, moves, scope, m, fb.end), m, m in before);
  }

  /** A phrase checked in a scope of its own holding `binds`. */
  lemma EnteringDoes(binds: set<Name>, scope: set<Name>, before: State, o: Out, f: Effects, m: Place)
    requires m.root in scope && Does(o, f, m, m in ForgetAll(before, binds))
    ensures Does(Pop(o, scope), Chain(Entering(binds, m), f), m, m in before)
  {
  }

  lemma NextArmDoes(b: Out, left: bool, rest: ArmsOut, fb: Effects, frest: ArmEffects, m: Place, was: bool)
    requires Does(b, fb, m, was) && Does(rest.out, frest.out, m, was)
    requires frest.falls <==> rest.meet != []
    requires m in JoinAll(rest.meet) <==> Apply(frest.meet, was)
    ensures
      var a, f := NextArm(b, left, rest), NextArmEffects(fb, left, frest);
      && Does(a.out, f.out, m, was)
      && (f.falls <==> a.meet != [])
      && (m in JoinAll(a.meet) <==> Apply(f.meet, was))
  {
    JoinAllAppend(b.breaks, rest.out.breaks);
    JoinAllAppend(b.continues, rest.out.continues);
    JoinAllAppend(if left then [] else [b.moved], rest.meet);
  }

  lemma {:induction false} BlockIsGenKill(b: Block, scope: set<Name>, S: State, m: Place)
    requires m.root in scope && CheckBlock(b, scope, S).errors == 0
    ensures Does(CheckBlock(b, scope, S), BlockEffects(b, scope, m), m, m in S)
    ensures CheckBlock(b, scope, S).left == BlockEffects(b, scope, m).left
    decreases b, 0
  {
    match b
    case End =>
    case Tail(e) => ExprIsGenKill(e, true, scope, S, m);
    case Seq(s, rest) =>
      var a := CheckStmt(s, scope, S);
      StmtIsGenKill(s, scope, S, m);
      if !a.left {
        var inner := scope + Binds(s);
        BlockIsGenKill(rest, inner, a.moved, m);
        ThenDoes(a, StmtEffects(s, scope, m), CheckBlock(rest, inner, a.moved), BlockEffects(rest, inner, m), m,
          m in S);
      }
  }

  lemma {:induction false} StmtIsGenKill(s: Stmt, scope: set<Name>, S: State, m: Place)
    requires m.root in scope && CheckStmt(s, scope, S).errors == 0
    ensures Does(CheckStmt(s, scope, S), StmtEffects(s, scope, m), m, m in S)
    ensures CheckStmt(s, scope, S).left == StmtEffects(s, scope, m).left
    decreases s, 5
  {
    match s
    case Let(x, value) =>
      var v := CheckExpr(value, true, scope, S);
      ExprIsGenKill(value, true, scope, S, m);
      ThenDoes(v, ExprEffects(value, true, scope, m), Plain(Forget(v.moved, x)), Entering({x}, m), m, m in S);
      assert v.breaks + [] == v.breaks && v.continues + [] == v.continues;
    case Do(e) => ExprIsGenKill(e, false, scope, S, m);
    case Assign(target, value) =>
      var v := CheckExpr(value, true, scope, S);
      ExprIsGenKill(value, true, scope, S, m);
      match target {
        case ToPlace(_) =>
        case ToOther(e) => ExprIsGenKill(e, false, scope, v.moved, m);
      }
      ThenDoes(v, ExprEffects(value, true, scope, m), CheckTarget(target, scope, v.moved),
        TargetEffects(target, scope, m), m, m in S);
    case While(_, _) => LoopIsGenKill(s, scope, S, m);
    case For(_, iter, lent, _) =>
      var i := CheckExpr(iter, !lent, scope, S);
      ExprIsGenKill(iter, !lent, scope, S, m);
      LoopIsGenKill(s, scope, i.moved, m);
      ThenDoes(i, ExprEffects(iter, !lent, scope, m), CheckLoop(s, scope, i.moved), LoopEffects(s, scope, m), m,
        m in S);
    case ReturnStmt(value) => ExprIsGenKill(value, true, scope, S, m);
    case BreakStmt =>
    case ContinueStmt =>
  }

  lemma {:induction false} IterationIsGenKill(s: Stmt, scope: set<Name>, head: State, m: Place)
    requires IsLoop(s) && m.root in scope && Iterate(s, scope, head).errors == 0
    ensures
      var it, f := Iterate(s, scope, head), IterationEffects(s, scope, m);
      && Does(it, f, m, m in head) && it.left == f.left
      && (m in NextHead(it, scope, head) <==> Apply(HeadEffect(s, scope, m), m in head))
    decreases s, 1
  {
    if s.While? {
      WhileIsGenKill(s, scope, head, m);
    } else {
      ForIsGenKill(s, scope, head, m);
    }
    var it := Iterate(s, scope, head);
    JoinAllAppend(it.continues, if it.left then [] else [it.moved]);
  }

  lemma {:induction false} WhileIsGenKill(s: Stmt, scope: set<Name>, head: State, m: Place)
    requires s.While? && m.root in scope && Iterate(s, scope, head).errors == 0
    ensures
      var it, f := Iterate(s, scope, head), IterationEffects(s, scope, m);
      Does(it, f, m, m in head) && it.left == f.left
    decreases s, 0
  {
    var While(cond, body) := s;
    var c := CheckExpr(cond, false, scope, head);
    ExprIsGenKill(cond, false, scope, head, m);
    BlockIsGenKill(body, scope, c.moved, m);
    ThenDoes(c, ExprEffects(cond, false, scope, m), Pop(CheckBlock(body, scope, c.moved), scope),
      BlockEffects(body, scope, m), m, m in head);
  }

  lemma {:induction false} ForIsGenKill(s: Stmt, scope: set<Name>, head: State, m: Place)
    requires s.For? && m.root in scope && Iterate(s, scope, head).errors == 0
    ensures
      var it, f := Iterate(s, scope, head), IterationEffects(s, scope, m);
      Does(it, f, m, m in head) && it.left == f.left
    decreases s, 0
  {
    var For(x, _, _, body) := s;
    var entry := Forget(head, x);
    BlockIsGenKill(body, scope + {x}, entry, m);
    ThenDoes(Plain(entry), Entering({x}, m), Pop(CheckBlock(body, scope + {x}, entry), scope),
      BlockEffects(body, scope + {x}, m), m, m in head);
    var o := CheckBlock(body, scope + {x}, entry);
    assert [] + o.breaks == o.breaks && [] + o.continues == o.continues;
  }

  /** When the first two passes report no error the second leaves the head as it was. */
  lemma SecondPassIsStable(s: Stmt, scope: set<Name>, head: State)
    requires IsLoop(s) && Iterate(s, scope, head).errors == 0
    requires
      var next := NextHead(Iterate(s, scope, head), scope, head);
      Iterate(s, scope, next).errors == 0
    ensures
      var next := NextHead(Iterate(s, scope, head), scope, head);
      NextHead(Iterate(s, scope, next), scope, next) == next
    decreases s, 2
  {
    var next := NextHead(Iterate(s, scope, head), scope, head);
    var again := NextHead(Iterate(s, scope, next), scope, next);
    forall m ensures m in again <==> m in next {
      if m.root in scope {
        IterationIsGenKill(s, scope, head, m);
        IterationIsGenKill(s, scope, next, m);
      }
    }
  }

  /** A loop checked without error settles by the second pass, and its head holds
      every path back to it: the limit on the passes decides nothing. */
  lemma {:induction false} LoopSettles(s: Stmt, scope: set<Name>, S: State, passes: nat)
    requires IsLoop(s) && 2 <= passes && Settle(s, scope, S, passes).errors == 0
    ensures
      var f := Settle(s, scope, S, passes);
      && f.stable && f.passes <= 2
      && f.head == NextHead(Iterate(s, scope, S), scope, S)
      && f.last == Iterate(s, scope, f.head) && f.last.errors == 0
      && NextHead(f.last, scope, f.head) == f.head
    ensures Settle(s, scope, S, passes) == Settle(s, scope, S, 2)
    decreases s, 3
  {
    var next := NextHead(Iterate(s, scope, S), scope, S);
    if next != S {
      assert Settle(s, scope, next, passes - 1).errors == 0;
      SecondPassIsStable(s, scope, S);
      assert Settle(s, scope, next, passes - 1) == Settle(s, scope, next, 1);
    }
  }

  lemma {:induction false} LoopIsGenKill(s: Stmt, scope: set<Name>, S: State, m: Place)
    requires IsLoop(s) && m.root in scope && CheckLoop(s, scope, S).errors == 0
    ensures Does(CheckLoop(s, scope, S), LoopEffects(s, scope, m), m, m in S)
    decreases s, 4
  {
    LoopSettles(s, scope, S, MAX_PASSES);
    var f := Settle(s, scope, S, MAX_PASSES);
    assert Iterate(s, scope, S).errors == 0;
    IterationIsGenKill(s, scope, S, m);
    IterationIsGenKill(s, scope, f.head, m);
  }
}
