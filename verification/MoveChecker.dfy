/** The move checker as the class it is: it walks a function body and updates
    the visible bindings, the moved places, the errors and the loop frames. */
module MoveCheckerClass {
  import opened OwnershipSyntax
  import opened MoveRules
  import Execution
  import LiveCode
  import MoveSoundness
  import MoveExactness

  /** The states noted at the `break`s and `continue`s of one enclosing loop. */
  datatype Frame = Frame(breaks: seq<State>, continues: seq<State>)

  /** The loop frames after the innermost one noted what `o` notes. */
  function Noted(loops: seq<Frame>, o: Out): seq<Frame> {
    if loops == [] || (o.breaks == [] && o.continues == []) then loops
    else
      var f := loops[|loops| - 1];
      loops[|loops| - 1 := Frame(f.breaks + o.breaks, f.continues + o.continues)]
  }

  lemma NotedThen(loops: seq<Frame>, a: Out, b: Out)
    ensures Noted(Noted(loops, a), b) == Noted(loops, Then(a, b))
  {
    if loops != [] {
      var f := loops[|loops| - 1];
      assert (f.breaks + a.breaks) + b.breaks == f.breaks + (a.breaks + b.breaks);
      assert (f.continues + a.continues) + b.continues == f.continues + (a.continues + b.continues);
      assert f.breaks + [] == f.breaks && f.continues + [] == f.continues;
      assert [] + b.breaks == b.breaks && [] + b.continues == b.continues;
      assert a.breaks + [] == a.breaks && a.continues + [] == a.continues;
      assert loops[|loops| - 1 := f] == loops;
    }
  }

  /** What is noted does not depend on the state left or on whether it was left. */
  lemma NotedElse(loops: seq<Frame>, o: Out, moved: State)
    ensures Noted(loops, o.(moved := moved, left := false)) == Noted(loops, o)
  {
  }

  class MoveChecker {
    var scope: set<Name>
    var moved: State
    var errors: nat
    var loops: seq<Frame>

    constructor (params: set<Name>)
      ensures scope == params && moved == {} && errors == 0 && loops == []
    {
      scope, moved, errors, loops := params, {}, 0, [];
    }

    /** The checker's fields after it has done what `o` says, from the given fields. */
    ghost predicate Did(o: Out, moved0: State, errors0: nat, loops0: seq<Frame>)
      reads this
    {
      && moved == o.moved
      && errors == errors0 + o.errors
      && loops == Noted(loops0, o)
    }

    /** Checks a function body: it is accepted exactly when the rules find no error. No run of an accepted body whose
        joins are all made gets stuck; and if besides nothing in it is dead, some run of a refused one does. */
    method CheckFn(body: Block) returns (accepted: bool)
      requires loops == [] && errors == 0
      modifies this
      ensures accepted <==> CheckBlock(body, old(scope), old(moved)).errors == 0
      ensures moved == CheckBlock(body, old(scope), old(moved)).moved && loops == []
      ensures accepted && old(moved) == {} && MoveSoundness.JoinsBlock(body, old(scope), {}) ==>
        forall ch: Execution.Choices ::
          Execution.RunBlock(body, Execution.Bind(map[], old(scope)), ch) != Execution.Stuck
      ensures (!accepted && old(moved) == {} &&
               MoveSoundness.JoinsBlock(body, old(scope), {}) && LiveCode.LiveBlock(body, old(scope), {})) ==>
        exists ch: Execution.Choices ::
          Execution.RunBlock(body, Execution.Bind(map[], old(scope)), ch) == Execution.Stuck
    {
      ghost var params, isNew := scope, moved == {};
      var left := CheckBlockStmts(body);
      accepted := errors == 0;
      if isNew && MoveSoundness.JoinsBlock(body, params, {}) && LiveCode.LiveBlock(body, params, {}) {
        MoveExactness.AcceptedExactly(body, params);
      }
      if accepted && isNew && MoveSoundness.JoinsBlock(body, params, {}) {
        forall ch: Execution.Choices
          ensures Execution.RunBlock(body, Execution.Bind(map[], params), ch) != Execution.Stuck
        {
          MoveSoundness.AcceptedBodiesNeverStick(body, params, ch);
        }
      }
    }

    method CheckPlaceUse(place: Place, moveOnly: bool, pinned: bool, moves: bool)
      modifies this
      ensures scope == old(scope)
      ensures Did(CheckUse(place, moveOnly, pinned, moves, scope, old(moved)), old(moved), old(errors), old(loops))
    {
      if place.root in scope {
        if Place(place.root, []) in moved {
          // The whole binding is gone.
          assert Overlaps(Place(place.root, []), place);
          errors := errors + 1;
        } else if exists m :: m in moved && m.root == place.root && (m.path <= place.path || place.path <= m.path) {
          var m :| m in moved && m.root == place.root && (m.path <= place.path || place.path <= m.path);
          assert Overlaps(m, place);
          errors := errors + 1;
        } else {
          assert !exists m :: m in moved && Overlaps(m, place);
          if moves && moveOnly {
            if pinned {
              errors := errors + 1;
            } else {
              moved := moved + {place};
            }
          }
        }
      }
    }

    /** Gives back what moved out of a field; false if it gave nothing back. */
    method ReownField(place: Place) returns (gave: bool)
      requires place.root in scope && place.path != []
      modifies this`moved
      ensures gave <==>
        && (forall m :: m in old(moved) && Within(place, m) ==> m == place)
        && (exists m :: m in old(moved) && Within(m, place))
      ensures moved == if gave then set m | m in old(moved) && !Within(m, place) else old(moved)
    {
      if exists m :: m in moved && Within(place, m) && m != place {
        return false;
      }
      var back := set m | m in moved && Within(m, place);
      moved := moved - back;
      if back != {} {
        var m :| m in back;
        assert m in old(moved) && Within(m, place);
        return true;
      }
      assert forall m :: m in old(moved) && Within(m, place) ==> m in back;
      return false;
    }

    method AssignPlace(place: Place)
      modifies this
      ensures scope == old(scope)
      ensures Did(CheckAssign(place, scope, old(moved)), old(moved), old(errors), old(loops))
    {
      if place.root in scope {
        if place.path == [] {
          assert forall m :: Within(place, m) ==> m == place;
          assert forall m :: Within(m, place) <==> m.root == place.root;
          moved := set m | m in moved && m.root != place.root;
        } else {
          var gave := ReownField(place);
          if !gave {
            ghost var parents := exists m :: m in moved && Within(place, m) && m != place;
            assert !parents ==> (set m | m in moved && !Within(m, place)) == moved;
            assert parents <==> exists m :: m in moved && Overlaps(m, place);
            CheckPlaceUse(place, false, false, false);
          }
        }
      }
    }

    method CheckExpression(e: Expr, moves: bool)
      modifies this
      ensures scope == old(scope)
      ensures Did(CheckExpr(e, moves, scope, old(moved)), old(moved), old(errors), old(loops))
      decreases e, 1
    {
      match e
      case Literal =>
      case Use(place, moveOnly, pinned) =>
        CheckPlaceUse(place, moveOnly, pinned, moves);
      case Eval(parts) =>
        CheckParts(parts);
      case ShortCircuit(_, _) =>
        CheckShortCircuit(e, moves);
      case Call(_, _, _) =>
        CheckCall(e, moves);
      case Try(operand) =>
        CheckExpression(operand, moves);
      case If(_, _, _) =>
        CheckIf(e, moves);
      case IfOnly(_, _) =>
        CheckIfOnly(e, moves);
      case Match(_, _, _) =>
        CheckMatch(e, moves);
      case Scoped(block) =>
        var leaves := CheckInScope(block, {});
      case Break =>
        NoteBreak();
      case Continue =>
        NoteContinue();
      case Return(value) =>
        CheckExpression(value, true);
    }

    method CheckShortCircuit(e: Expr, ghost moves: bool)
      requires e.ShortCircuit?
      modifies this
      ensures scope == old(scope)
      ensures Did(CheckExpr(e, moves, scope, old(moved)), old(moved), old(errors), old(loops))
      decreases e, 0
    {
      var ShortCircuit(l, r) := e;
      CheckExpression(l, false);
      ghost var a := CheckExpr(l, false, scope, old(moved));
      ghost var b := CheckExpr(r, false, scope, moved);
      CheckExpression(r, false);
      NotedThen(old(loops), a, b);
    }

    method CheckCall(e: Expr, ghost moves: bool)
      requires e.Call?
      modifies this
      ensures scope == old(scope)
      ensures Did(CheckExpr(e, moves, scope, old(moved)), old(moved), old(errors), old(loops))
      decreases e, 0
    {
      var Call(callee, takesCallee, args) := e;
      CheckExpression(callee, takesCallee);
      ghost var f := CheckExpr(callee, takesCallee, scope, old(moved));
      var saved := moved;
      ghost var a := CheckArgs(args, scope, moved);
      CheckParts(args);
      // Releasing the borrows made for the arguments puts back the state saved before them.
      moved := moved + (set m | m in saved && m.path == []);
      NotedThen(old(loops), f, a);
    }

    method CheckIf(e: Expr, ghost moves: bool)
      requires e.If?
      modifies this
      ensures scope == old(scope)
      ensures Did(CheckExpr(e, moves, scope, old(moved)), old(moved), old(errors), old(loops))
      decreases e, 0
    {
      var If(cond, thn, els) := e;
      CheckExpression(cond, false);
      ghost var c := CheckExpr(cond, false, scope, old(moved));
      var saved := moved;
      ghost var t := Pop(CheckBlock(thn, scope, saved), scope);
      var thenLeaves := CheckInScope(thn, {});
      var afterThen := moved;
      moved := saved;
      ghost var f := Pop(CheckBlock(els, scope, saved), scope);
      var elseLeaves := CheckInScope(els, {});
      if thenLeaves {
      } else if elseLeaves {
        moved := afterThen;
      } else {
        moved := afterThen + moved;
      }
      NotedThen(old(loops), c, t);
      NotedThen(old(loops), c, Then(t, f));
      NotedThen(Noted(old(loops), c), t, f);
    }

    method CheckIfOnly(e: Expr, ghost moves: bool)
      requires e.IfOnly?
      modifies this
      ensures scope == old(scope)
      ensures Did(CheckExpr(e, moves, scope, old(moved)), old(moved), old(errors), old(loops))
      decreases e, 0
    {
      var IfOnly(cond, thn) := e;
      CheckExpression(cond, false);
      ghost var c := CheckExpr(cond, false, scope, old(moved));
      var saved := moved;
      ghost var t := Pop(CheckBlock(thn, scope, saved), scope);
      var leaves := CheckInScope(thn, {});
      if leaves {
        moved := saved;
      }
      NotedThen(old(loops), c, t);
    }

    method CheckMatch(e: Expr, moves: bool)
      requires e.Match?
      modifies this
      ensures scope == old(scope)
      ensures Did(CheckExpr(e, moves, scope, old(moved)), old(moved), old(errors), old(loops))
      decreases e, 0
    {
      var Match(scrutinee, lent, arms) := e;
      CheckExpression(scrutinee, !lent);
      ghost var s := CheckExpr(scrutinee, !lent, scope, old(moved));
      ghost var a := CheckArms(arms, moves, scope, moved, moved);
      var outs := CheckEachArm(arms, moves, moved);
      if outs != [] {
        moved := JoinAll(outs);
      }
      NotedThen(old(loops), s, a.out);
      NotedElse(old(loops), Then(s, a.out), moved);
    }

    method NoteBreak()
      modifies this`loops
      ensures loops == Noted(old(loops), Plain(moved).(breaks := [moved]))
    {
      if loops != [] {
        var f := loops[|loops| - 1];
        loops := loops[|loops| - 1 := f.(breaks := f.breaks + [moved])];
        assert f.continues + [] == f.continues;
      }
    }

    method NoteContinue()
      modifies this`loops
      ensures loops == Noted(old(loops), Plain(moved).(continues := [moved]))
    {
      if loops != [] {
        var f := loops[|loops| - 1];
        loops := loops[|loops| - 1 := f.(continues := f.continues + [moved])];
        assert f.breaks + [] == f.breaks;
      }
    }

    method CheckParts(args: Args)
      modifies this
      ensures scope == old(scope)
      ensures Did(CheckArgs(args, scope, old(moved)), old(moved), old(errors), old(loops))
      decreases args, 0
    {
      match args
      case NoArgs =>
      case Arg(e, moves, rest) =>
        CheckExpression(e, moves);
        ghost var a := CheckExpr(e, moves, scope, old(moved));
        ghost var b := CheckArgs(rest, scope, moved);
        CheckParts(rest);
        NotedThen(old(loops), a, b);
    }

    /** Checks a block in a scope of its own holding `binds`. */
    method CheckInScope(block: Block, binds: set<Name>) returns (left: bool)
      modifies this
      ensures scope == old(scope)
      ensures
        var o := Pop(CheckBlock(block, scope + binds, ForgetAll(old(moved), binds)), scope);
        Did(o, old(moved), old(errors), old(loops)) && left == o.left
      ensures binds == {} ==> scope + binds == scope && ForgetAll(old(moved), binds) == old(moved)
      decreases block, 1
    {
      var outer := scope;
      scope, moved := scope + binds, ForgetAll(moved, binds);
      left := CheckBlockStmts(block);
      scope, moved := outer, Restrict(moved, outer);
    }

    method CheckEachArm(arms: Arms, moves: bool, before: State) returns (outs: seq<State>)
      modifies this
      ensures scope == old(scope)
      ensures
        var a := CheckArms(arms, moves, scope, before, old(moved));
        Did(a.out, old(moved), old(errors), old(loops)) && outs == a.meet
      decreases arms, 0
    {
      match arms
      case NoArms =>
        outs := [];
      case BlockArm(binds, body, rest) =>
        moved := before;
        var left := CheckInScope(body, binds);
        ghost var b := Pop(CheckBlock(body, scope + binds, ForgetAll(before, binds)), scope);
        var out := moved;
        ghost var r := CheckArms(rest, moves, scope, before, out);
        outs := CheckEachArm(rest, moves, before);
        outs := (if left then [] else [out]) + outs;
        NotedThen(old(loops), b, r.out);
      case ExprArm(binds, e, rest) =>
        var outer := scope;
        scope, moved := scope + binds, ForgetAll(before, binds);
        ghost var b := Pop(CheckExpr(e, moves, scope, moved), outer);
        CheckExpression(e, moves);
        scope, moved := outer, Restrict(moved, outer);
        var out := moved;
        ghost var r := CheckArms(rest, moves, scope, before, out);
        outs := CheckEachArm(rest, moves, before);
        outs := (if LeavesArm(e) then [] else [out]) + outs;
        NotedThen(old(loops), b, r.out);
    }

    method CheckBlockStmts(block: Block) returns (left: bool)
      modifies this
      ensures scope >= old(scope)
      ensures
        var o := CheckBlock(block, old(scope), old(moved));
        Did(o, old(moved), old(errors), old(loops)) && left == o.left
      decreases block, 0
    {
      match block
      case End =>
        left := false;
      case Tail(e) =>
        CheckExpression(e, true);
        left := false;
      case Seq(s, rest) =>
        left := CheckStatement(s);
        ghost var a := CheckStmt(s, old(scope), old(moved));
        if !left {
          ghost var b := CheckBlock(rest, scope, moved);
          left := CheckBlockStmts(rest);
          NotedThen(old(loops), a, b);
        }
    }

    method CheckStatement(s: Stmt) returns (left: bool)
      modifies this
      ensures scope == old(scope) + Binds(s)
      ensures
        var o := CheckStmt(s, old(scope), old(moved));
        Did(o, old(moved), old(errors), old(loops)) && left == o.left
      decreases s, 3
    {
      left := false;
      match s
      case Let(x, value) =>
        CheckExpression(value, true);
        scope, moved := scope + {x}, Forget(moved, x);
      case Do(e) =>
        CheckExpression(e, false);
      case Assign(target, value) =>
        CheckExpression(value, true);
        ghost var v := CheckExpr(value, true, scope, old(moved));
        ghost var t := CheckTarget(target, scope, moved);
        match target {
          case ToPlace(place) => AssignPlace(place);
          case ToOther(e) => CheckExpression(e, false);
        }
        NotedThen(old(loops), v, t);
      case While(_, _) =>
        CheckPasses(s);
      case For(_, iter, lent, _) =>
        CheckExpression(iter, !lent);
        ghost var i := CheckExpr(iter, !lent, scope, old(moved));
        ghost var l := CheckLoop(s, scope, moved);
        CheckPasses(s);
        NotedThen(old(loops), i, l);
      case ReturnStmt(value) =>
        CheckExpression(value, true);
        left := true;
      case BreakStmt =>
        NoteBreak();
        left := true;
      case ContinueStmt =>
        NoteContinue();
        left := true;
    }

    method CheckIteration(s: Stmt) returns (done: bool)
      requires IsLoop(s)
      modifies this
      ensures scope == old(scope)
      ensures
        var o := Iterate(s, scope, old(moved));
        Did(o, old(moved), old(errors), old(loops)) && done == o.left
      decreases s, 0
    {
      match s
      case While(cond, body) =>
        CheckExpression(cond, false);
        ghost var c := CheckExpr(cond, false, scope, old(moved));
        ghost var b := Pop(CheckBlock(body, scope, moved), scope);
        done := CheckInScope(body, {});
        NotedThen(old(loops), c, b);
      case For(x, _, _, body) =>
        assert ForgetAll(moved, {x}) == Forget(moved, x);
        done := CheckInScope(body, {x});
    }

    /** One pass over a loop's iteration: the merged head state, and the states at its `break`s. */
    method CheckPass(s: Stmt, head: State) returns (newHead: State, breaks: seq<State>)
      requires IsLoop(s)
      modifies this
      ensures scope == old(scope) && loops == old(loops)
      ensures
        var it := Iterate(s, scope, head);
        newHead == NextHead(it, scope, head) && breaks == it.breaks && errors == old(errors) + it.errors
      decreases s, 1
    {
      ghost var it := Iterate(s, scope, head);
      moved, loops := head, loops + [Frame([], [])];
      var done := CheckIteration(s);
      var frame := loops[|loops| - 1];
      assert frame.breaks == it.breaks && frame.continues == it.continues;
      loops := loops[..|loops| - 1];
      assert loops == old(loops);
      var back := frame.continues + if done then [] else [moved];
      newHead, breaks := head + Restrict(JoinAll(back), scope), frame.breaks;
    }

    /** Checks a loop's iteration again with the merged head state while that
        grows, at most MAX_PASSES times. */
    method CheckPasses(s: Stmt)
      requires IsLoop(s)
      modifies this
      ensures scope == old(scope)
      ensures Did(CheckLoop(s, scope, old(moved)), old(moved), old(errors), old(loops))
      decreases s, 2
    {
      ghost var fix := Settle(s, scope, moved, MAX_PASSES);
      var head, breaks, pass := moved, [], 0;
      while true
        invariant pass < MAX_PASSES && scope == old(scope) && loops == old(loops)
        invariant
          var f := Settle(s, scope, head, MAX_PASSES - pass);
          && f.head == fix.head && f.last == fix.last
          && errors + f.errors == old(errors) + fix.errors
        decreases MAX_PASSES - pass
      {
        var newHead;
        newHead, breaks := CheckPass(s, head);
        pass := pass + 1;
        if newHead == head || pass == MAX_PASSES {
          head := newHead;
          break;
        }
        head := newHead;
      }
      moved := head + Restrict(JoinAll(breaks), scope);
      assert loops == Noted(old(loops), CheckLoop(s, scope, old(moved)));
    }
  }
}
