/** The part of the language the move checker looks at: which places an
    expression uses, in what order, and how control leaves it. */
module OwnershipSyntax {

  type Name = string
  type Path = seq<string>

  /** A binding and a field path below it: `b` is Place("b", []), `b.f.g` is Place("b", ["f", "g"]). */
  datatype Place = Place(root: Name, path: Path)

  /** `inner` is the place `outer` or a part of it. */
  predicate Within(inner: Place, outer: Place) {
    inner.root == outer.root && outer.path <= inner.path
  }

  /** One of the two places is the other or a part of it. */
  predicate Overlaps(a: Place, b: Place) {
    Within(a, b) || Within(b, a)
  }

  datatype Expr =
    | Literal
      // An identifier or a by-value field path. `moveOnly`: its type moves.
      // `pinned`: a move out of it is refused (a `name:& T` parameter's value,
      // or a field of a type with its own Drop).
    | Use(place: Place, moveOnly: bool, pinned: bool)
      // Operators, indexing, casts, aggregates: the parts run left to right.
    | Eval(parts: Args)
    | ShortCircuit(left: Expr, right: Expr)
      // Calls and method calls: callee or receiver, then arguments.
    | Call(callee: Expr, takesCallee: bool, args: Args)
    | Try(operand: Expr)
    | If(cond: Expr, thn: Block, els: Block)
    | IfOnly(cond: Expr, thn: Block)
      // `lent`: the scrutinee is reached through a reference, so it is only read.
    | Match(scrutinee: Expr, lent: bool, arms: Arms)
    | Scoped(block: Block)
    | Break
    | Continue
    | Return(value: Expr)

  /** Subexpressions in evaluation order, each with whether its value is moved. */
  datatype Args = NoArgs | Arg(e: Expr, moves: bool, rest: Args)

  /** Match arms. A body is a block or a bare expression; both see the pattern's bindings. */
  datatype Arms =
    | NoArms
    | BlockArm(binds: set<Name>, body: Block, rest: Arms)
    | ExprArm(binds: set<Name>, e: Expr, rest: Arms)

  datatype Block = End | Tail(e: Expr) | Seq(s: Stmt, rest: Block)

  datatype Stmt =
    | Let(x: Name, value: Expr)
    | Do(e: Expr)
    | Assign(target: Target, value: Expr)
    | While(cond: Expr, body: Block)
    | For(x: Name, iter: Expr, lent: bool, body: Block)
    | ReturnStmt(value: Expr)
    | BreakStmt
    | ContinueStmt

  /** An assignment target: a binding or by-value field path, or any other lvalue. */
  datatype Target = ToPlace(place: Place) | ToOther(e: Expr)

  predicate IsLoop(s: Stmt) {
    s.While? || s.For?
  }

  function Binds(s: Stmt): set<Name> {
    if s.Let? then {s.x} else {}
  }
}
