/** What running a body does to the values its bindings hold. A moved-out value
    leaves a hole; a run is stuck when it reads, moves, borrows or assigns into a hole,
    or moves a value that is not its to move. Branches follow a list of choices, so every
    prefix of every execution is the run of some list. */
module Execution {
  import opened OwnershipSyntax

  /** A binding's value: whole, moved out, or moved out in some of its fields
      (a field not listed is whole). */
  datatype Val = Whole | Hole | Partial(parts: map<string, Val>)

  /** Is the part of `v` at `path` missing? */
  predicate HoleAt(v: Val, path: Path)
    decreases path
  {
    match v
    case Whole => false
    case Hole => true
    case Partial(parts) => path != [] && path[0] in parts && HoleAt(parts[path[0]], path[1..])
  }

  /** No part of the value at `path` is missing. */
  ghost predicate Intact(v: Val, path: Path) {
    forall below: Path :: !HoleAt(v, path + below)
  }

  /** The value that holds the part at `path` is there. */
  ghost predicate HasParent(v: Val, path: Path) {
    forall k :: 0 <= k < |path| ==> !HoleAt(v, path[..k])
  }

  /** Moves the part at `path` out. */
  function Take(v: Val, path: Path): Val
    decreases |path|
  {
    if path == [] then Hole
    else match v
      case Hole => Hole
      case Whole => Partial(map[path[0] := Take(Whole, path[1..])])
      case Partial(parts) =>
        var part := if path[0] in parts then parts[path[0]] else Whole;
        Partial(parts[path[0] := Take(part, path[1..])])
  }

  /** Stores a whole value at `path`. */
  function Put(v: Val, path: Path): Val
    decreases |path|
  {
    if path == [] then Whole
    else match v
      case Hole => Hole
      case Whole => Whole
      case Partial(parts) =>
        if path[0] in parts then Partial(parts[path[0] := Put(parts[path[0]], path[1..])]) else v
  }

  lemma {:induction false} TakeMakesAHole(v: Val, path: Path, q: Path)
    ensures HoleAt(Take(v, path), q) <==> HoleAt(v, q) || path <= q
    decreases |path|
  {
    if path != [] && q != [] && path[0] == q[0] {
      var part := if v.Partial? && path[0] in v.parts then v.parts[path[0]] else Whole;
      TakeMakesAHole(part, path[1..], q[1..]);
      assert path <= q <==> path[1..] <= q[1..] by {
        assert path == [path[0]] + path[1..] && q == [q[0]] + q[1..];
      }
    }
  }

  lemma {:induction false} PutFillsHoles(v: Val, path: Path, q: Path)
    requires HasParent(v, path)
    ensures HoleAt(Put(v, path), q) <==> HoleAt(v, q) && !(path <= q)
    decreases |path|
  {
    if path != [] {
      assert !HoleAt(v, path[..0]);
      if v.Partial? && path[0] in v.parts {
        var part := v.parts[path[0]];
        forall k | 0 <= k < |path[1..]| ensures !HoleAt(part, path[1..][..k]) {
          assert path[..k + 1][1..] == path[1..][..k];
          assert !HoleAt(v, path[..k + 1]);
        }
        if q != [] && q[0] == path[0] {
          PutFillsHoles(part, path[1..], q[1..]);
          assert path <= q <==> path[1..] <= q[1..] by {
            assert path == [path[0]] + path[1..] && q == [q[0]] + q[1..];
          }
        }
      } else if path <= q {
        assert path[0] == q[0];
      }
    }
  }

  /** What is missing stays missing below. */
  lemma {:induction false} HolesGoDown(v: Val, path: Path, q: Path)
    requires HoleAt(v, path) && path <= q
    ensures HoleAt(v, q)
    decreases |path|
  {
    if v.Partial? {
      assert q[0] == path[0] && path[1..] <= q[1..];
      HolesGoDown(v.parts[path[0]], path[1..], q[1..]);
    }
  }

  // ---- runs ---------------------------------------------------------------

  type Store = map<Name, Val>
  type Choices = seq<bool>

  /** How a run of a phrase ends: normally, at a `break` or `continue`, by returning,
      stuck, or not yet (the choices ran out first). */
  datatype Run =
    | Done(store: Store, rest: Choices)
    | Broke(store: Store, rest: Choices)
    | Continued(store: Store, rest: Choices)
    | Returned
    | Stuck
    | Unfinished

  ghost predicate Shrinks(r: Run, ch: Choices) {
    r.Done? || r.Broke? || r.Continued? ==> |r.rest| <= |ch|
  }

  function Keep(store: Store, scope: set<Name>): Store {
    map x | x in store && x in scope :: store[x]
  }

  /** Leaving a scope drops its bindings. */
  function Leave(r: Run, scope: set<Name>): Run {
    match r
    case Done(store, rest) => Done(Keep(store, scope), rest)
    case Broke(store, rest) => Broke(Keep(store, scope), rest)
    case Continued(store, rest) => Continued(Keep(store, scope), rest)
    case _ => r
  }

  function Bind(store: Store, xs: set<Name>): Store {
    store + map x | x in xs :: Whole
  }

  ghost function RunUse(place: Place, moveOnly: bool, pinned: bool, moves: bool, store: Store, ch: Choices): Run {
    if place.root !in store then Done(store, ch)
    else if !Intact(store[place.root], place.path) then Stuck
    else if !moves || !moveOnly then Done(store, ch)
    else if pinned then Stuck
    else Done(store[place.root := Take(store[place.root], place.path)], ch)
  }

  ghost function RunAssign(place: Place, store: Store, ch: Choices): Run {
    if place.root !in store then Done(store, ch)
    else if !HasParent(store[place.root], place.path) then Stuck
    else Done(store[place.root := Put(store[place.root], place.path)], ch)
  }

  ghost function RunExpr(e: Expr, moves: bool, store: Store, ch: Choices): (r: Run)
    ensures Shrinks(r, ch)
    decreases |ch|, e, 0
  {
    match e
    case Literal => Done(store, ch)
    case Use(place, moveOnly, pinned) => RunUse(place, moveOnly, pinned, moves, store, ch)
    case Eval(parts) => RunArgs(parts, store, ch)
    case ShortCircuit(l, r) => (
      match RunExpr(l, false, store, ch)
      case Done(s, c) =>
        if c == [] then Unfinished
        else if c[0] then RunExpr(r, false, s, c[1..])
        else Done(s, c[1..])
      case other => other)
    case Call(callee, takesCallee, args) => (
      match RunExpr(callee, takesCallee, store, ch)
      case Done(s, c) => RunArgs(args, s, c)
      case other => other)
    case Try(operand) => (
      match RunExpr(operand, moves, store, ch)
      case Done(s, c) =>
        if c == [] then Unfinished
        else if c[0] then Done(s, c[1..])
        else Returned
      case other => other)
    case If(cond, thn, els) => (
      match RunExpr(cond, false, store, ch)
      case Done(s, c) =>
        if c == [] then Unfinished
        else Leave(RunBlock(if c[0] then thn else els, s, c[1..]), s.Keys)
      case other => other)
    case IfOnly(cond, thn) => (
      match RunExpr(cond, false, store, ch)
      case Done(s, c) =>
        if c == [] then Unfinished
        else if c[0] then Leave(RunBlock(thn, s, c[1..]), s.Keys)
        else Done(s, c[1..])
      case other => other)
    case Match(scrutinee, lent, arms) => (
      match RunExpr(scrutinee, !lent, store, ch)
      case Done(s, c) => RunArms(arms, moves, s, c)
      case other => other)
    case Scoped(block) => Leave(RunBlock(block, store, ch), store.Keys)
    case Break => Broke(store, ch)
    case Continue => Continued(store, ch)
    case Return(value) => (
      match RunExpr(value, true, store, ch)
      case Done(_, _) => Returned
      case other => other)
  }

  ghost function RunArgs(args: Args, store: Store, ch: Choices): (r: Run)
    ensures Shrinks(r, ch)
    decreases |ch|, args, 0
  {
    match args
    case NoArgs => Done(store, ch)
    case Arg(e, moves, rest) => (
      match RunExpr(e, moves, store, ch)
      case Done(s, c) => RunArgs(rest, s, c)
      case other => other)
  }

  /** The first arm a choice picks runs; a value no arm takes ends the run. */
  ghost function RunArms(arms: Arms, moves: bool, store: Store, ch: Choices): (r: Run)
    ensures Shrinks(r, ch)
    decreases |ch|, arms, 0
  {
    match arms
    case NoArms => Returned
    case BlockArm(binds, body, rest) =>
      if ch == [] then Unfinished
      else if ch[0] then Leave(RunBlock(body, Bind(store, binds), ch[1..]), store.Keys)
      else RunArms(rest, moves, store, ch[1..])
    case ExprArm(binds, e, rest) =>
      if ch == [] then Unfinished
      else if ch[0] then Leave(RunExpr(e, moves, Bind(store, binds), ch[1..]), store.Keys)
      else RunArms(rest, moves, store, ch[1..])
  }

  ghost function RunBlock(b: Block, store: Store, ch: Choices): (r: Run)
    ensures Shrinks(r, ch)
    decreases |ch|, b, 0
  {
    match b
    case End => Done(store, ch)
    case Tail(e) => RunExpr(e, true, store, ch)
    case Seq(s, rest) => (
      match RunStmt(s, store, ch)
      case Done(s', c) => RunBlock(rest, s', c)
      case other => other)
  }

  ghost function RunStmt(s: Stmt, store: Store, ch: Choices): (r: Run)
    ensures Shrinks(r, ch)
    decreases |ch|, s, 2
  {
    match s
    case Let(x, value) => (
      match RunExpr(value, true, store, ch)
      case Done(s, c) => Done(s[x := Whole], c)
      case other => other)
    case Do(e) => RunExpr(e, false, store, ch)
    case Assign(target, value) => (
      match RunExpr(value, true, store, ch)
      case Done(s, c) => RunTarget(target, s, c)
      case other => other)
    case While(_, _) => RunLoop(s, store, ch)
    case For(_, iter, lent, _) => (
      match RunExpr(iter, !lent, store, ch)
      case Done(s', c) => RunLoop(s, s', c)
      case other => other)
    case ReturnStmt(value) => (
      match RunExpr(value, true, store, ch)
      case Done(_, _) => Returned
      case other => other)
    case BreakStmt => Broke(store, ch)
    case ContinueStmt => Continued(store, ch)
  }

  ghost function RunTarget(target: Target, store: Store, ch: Choices): (r: Run)
    ensures Shrinks(r, ch)
    decreases |ch|, target, 0
  {
    match target
    case ToPlace(place) => RunAssign(place, store, ch)
    case ToOther(e) => RunExpr(e, false, store, ch)
  }

  /** A loop from its head: the condition runs, a choice says whether it holds,
      then the body runs and control comes back to the head. */
  ghost function RunLoop(s: Stmt, store: Store, ch: Choices): (r: Run)
    requires IsLoop(s)
    ensures Shrinks(r, ch)
    decreases |ch|, s, 1
  {
    match RunCond(s, store, ch)
    case Done(s1, c) =>
      if c == [] then Unfinished
      else if !c[0] then Done(s1, c[1..])
      else (
        match RunBody(s, s1, c[1..])
        case Done(s2, c2) => RunLoop(s, s2, c2)
        case Continued(s2, c2) => RunLoop(s, s2, c2)
        case Broke(s2, c2) => Done(s2, c2)
        case other => other)
    // Going round from inside the condition spends a choice.
    case Continued(s1, c) => if c == [] then Unfinished else RunLoop(s, s1, c[1..])
    case Broke(s1, c) => Done(s1, c)
    case other => other
  }

  ghost function RunCond(s: Stmt, store: Store, ch: Choices): (r: Run)
    requires IsLoop(s)
    ensures Shrinks(r, ch)
    decreases |ch|, s, 0
  {
    if s.While? then RunExpr(s.cond, false, store, ch) else Done(store, ch)
  }

  ghost function RunBody(s: Stmt, store: Store, ch: Choices): (r: Run)
    requires IsLoop(s)
    ensures Shrinks(r, ch)
    decreases |ch|, s, 0
  {
    if s.While? then Leave(RunBlock(s.body, store, ch), store.Keys)
    else Leave(RunBlock(s.body, Bind(store, {s.x}), ch), store.Keys)
  }
}
