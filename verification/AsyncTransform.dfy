/** The transformation of async functions whose body is a chain of awaits and a result into
    state machines driven by a poll function, and what polling them gives. */
module AsyncTransform {
  import opened Basics

  const PENDING := -1

  // ---- functions and machines ---------------------------------------------

  datatype Expr =
    | Int(value: int)
    | Ident(name: string)
    | SelfField(name: string)
    | Bin(op: string, left: Expr, right: Expr)
    | Un(op: string, operand: Expr)
    | Call(func: string, args: seq<Expr>)
    | Cast(operand: Expr, target: string)
    | Other(kind: string, operand: Expr)  // the kinds the transformer leaves as they are: indexing, field access, ...

  /** `let name = await awaited`, with no await in what is awaited. */
  datatype Await = Await(name: string, awaited: Expr)

  datatype AsyncFn = AsyncFn(params: seq<string>, awaits: seq<Await>, result: Option<Expr>)

  type Program = map<string, AsyncFn>

  /** `if self.__state == index { poll; if pending return; self.field = it; self.__state = index + 1 }`: polled is the
      future of an async call, and anything else itself. */
  datatype Handler = Handler(index: nat, polled: Expr, field: string)

  datatype Machine = Machine(params: seq<string>, fields: set<string>, handlers: seq<Handler>, final: Expr)

  /** Parameters and locals: all become fields of the future. */
  function Locals(f: AsyncFn): set<string> {
    (set x | x in f.params) + (set k | 0 <= k < |f.awaits| :: f.awaits[k].name)
  }

  function Transform(locals: set<string>, e: Expr): Expr {
    match e
    case Int(_) => e
    case Ident(x) => if x in locals then SelfField(x) else e
    case SelfField(_) => e
    case Bin(op, l, r) => Bin(op, Transform(locals, l), Transform(locals, r))
    case Un(op, e1) => Un(op, Transform(locals, e1))
    case Call(fn, args) => Call(fn, TransformAll(locals, args))
    case Cast(e1, target) => Cast(Transform(locals, e1), target)
    case Other(_, _) => e
  }

  function TransformAll(locals: set<string>, es: seq<Expr>): (r: seq<Expr>)
    ensures |r| == |es|
  {
    if es == [] then [] else [Transform(locals, es[0])] + TransformAll(locals, es[1..])
  }

  function Generate(f: AsyncFn): Machine {
    var locals := Locals(f);
    Machine(f.params, locals,
      seq(|f.awaits|, k requires 0 <= k < |f.awaits| =>
        Handler(k, Transform(locals, f.awaits[k].awaited), f.awaits[k].name)),
      match f.result case Some(e) => Transform(locals, e) case None => Int(0))
  }

  // ---- meaning of expressions ---------------------------------------------

  type Env = map<string, int>

  /** What the program's pure parts compute, and its leaves: the value each call will have, and what polling it
      gives at each time. */
  datatype Interp = Interp(
    bin: (string, int, int) -> int,
    un: (string, int) -> int,
    call: (string, seq<int>) -> int,
    cast: (int, string) -> int,
    other: (string, int) -> int,
    global: string -> int,
    value: (string, seq<int>) -> int,
    leaf: (string, seq<int>, nat) -> int)

  function Eval(i: Interp, locals: Env, self: Env, e: Expr): int {
    match e
    case Int(n) => n
    case Ident(x) => if x in locals then locals[x] else i.global(x)
    case SelfField(x) => if x in self then self[x] else 0
    case Bin(op, l, r) => i.bin(op, Eval(i, locals, self, l), Eval(i, locals, self, r))
    case Un(op, e1) => i.un(op, Eval(i, locals, self, e1))
    case Call(fn, args) => i.call(fn, EvalAll(i, locals, self, args))
    case Cast(e1, target) => i.cast(Eval(i, locals, self, e1), target)
    case Other(kind, e1) => i.other(kind, Eval(i, locals, self, e1))
  }

  function EvalAll(i: Interp, locals: Env, self: Env, es: seq<Expr>): (r: seq<int>)
    ensures |r| == |es|
  {
    if es == [] then [] else [Eval(i, locals, self, es[0])] + EvalAll(i, locals, self, es[1..])
  }

  /** No field of a future is read: what a parser gives. */
  predicate IsSource(e: Expr) {
    match e
    case Int(_) => true
    case Ident(_) => true
    case SelfField(_) => false
    case Bin(_, l, r) => IsSource(l) && IsSource(r)
    case Un(_, e1) => IsSource(e1)
    case Call(_, args) => AllSource(args)
    case Cast(e1, _) => IsSource(e1)
    case Other(_, e1) => IsSource(e1)
  }

  predicate AllSource(es: seq<Expr>) {
    es == [] || (IsSource(es[0]) && AllSource(es[1..]))
  }

  /** Is the name read, be it in a kind left as it is if those are looked through? */
  predicate Shows(e: Expr, x: string, through: bool) {
    match e
    case Int(_) => false
    case Ident(y) => x == y
    case SelfField(_) => false
    case Bin(_, l, r) => Shows(l, x, through) || Shows(r, x, through)
    case Un(_, e1) => Shows(e1, x, through)
    case Call(_, args) => SomeShows(args, x, through)
    case Cast(e1, _) => Shows(e1, x, through)
    case Other(_, e1) => through && Shows(e1, x, through)
  }

  predicate SomeShows(es: seq<Expr>, x: string, through: bool) {
    es != [] && (Shows(es[0], x, through) || SomeShows(es[1..], x, through))
  }

  predicate NoneShows(e: Expr, names: set<string>) {
    forall x :: x in names ==> !Shows(e, x, true)
  }

  /** A source expression whose locals are all bound where the transformer goes, and none bound in a kind it leaves
      as it is. */
  predicate Faithful(locals: set<string>, bound: set<string>, e: Expr) {
    match e
    case Int(_) => true
    case Ident(x) => x in locals ==> x in bound
    case SelfField(_) => false
    case Bin(_, l, r) => Faithful(locals, bound, l) && Faithful(locals, bound, r)
    case Un(_, e1) => Faithful(locals, bound, e1)
    case Call(_, args) => AllFaithful(locals, bound, args)
    case Cast(e1, _) => Faithful(locals, bound, e1)
    case Other(_, e1) => IsSource(e1) && NoneShows(e1, bound)
  }

  predicate AllFaithful(locals: set<string>, bound: set<string>, es: seq<Expr>) {
    es == [] || (Faithful(locals, bound, es[0]) && AllFaithful(locals, bound, es[1..]))
  }

  /** The future's fields hold what the locals hold. */
  predicate Agree(env: Env, self: Env) {
    forall x :: x in env ==> x in self && self[x] == env[x]
  }

  /** An expression none of whose names is bound means the same wherever it is evaluated. */
  lemma {:induction false} UnboundMeansTheSame(i: Interp, env: Env, self: Env, e: Expr)
    requires IsSource(e) && NoneShows(e, env.Keys)
    ensures Eval(i, map[], self, e) == Eval(i, env, map[], e)
    decreases e
  {
    match e
    case Int(_) =>
    case Ident(x) => assert Shows(e, x, true);
    case Bin(_, l, r) =>
      assert forall x :: Shows(l, x, true) || Shows(r, x, true) ==> Shows(e, x, true);
      UnboundMeansTheSame(i, env, self, l);
      UnboundMeansTheSame(i, env, self, r);
    case Un(_, e1) =>
      assert forall x :: Shows(e1, x, true) ==> Shows(e, x, true);
      UnboundMeansTheSame(i, env, self, e1);
    case Call(_, args) =>
      assert forall x :: SomeShows(args, x, true) ==> Shows(e, x, true);
      AllUnboundMeanTheSame(i, env, self, args);
    case Cast(e1, _) =>
      assert forall x :: Shows(e1, x, true) ==> Shows(e, x, true);
      UnboundMeansTheSame(i, env, self, e1);
    case Other(_, e1) =>
      assert forall x :: Shows(e1, x, true) ==> Shows(e, x, true);
      UnboundMeansTheSame(i, env, self, e1);
  }

  lemma {:induction false} AllUnboundMeanTheSame(i: Interp, env: Env, self: Env, es: seq<Expr>)
    requires AllSource(es) && forall x :: x in env ==> !SomeShows(es, x, true)
    ensures EvalAll(i, map[], self, es) == EvalAll(i, env, map[], es)
    decreases es
  {
    if es != [] {
      assert forall x :: Shows(es[0], x, true) || SomeShows(es[1..], x, true) ==> SomeShows(es, x, true);
      UnboundMeansTheSame(i, env, self, es[0]);
      AllUnboundMeanTheSame(i, env, self, es[1..]);
    }
  }

  /** Reading the future's fields gives what reading the locals gave. */
  lemma {:induction false} TransformPreserves(i: Interp, locals: set<string>, env: Env, self: Env, e: Expr)
    requires env.Keys <= locals && Agree(env, self) && Faithful(locals, env.Keys, e)
    ensures Eval(i, map[], self, Transform(locals, e)) == Eval(i, env, map[], e)
    decreases e
  {
    match e
    case Int(_) =>
    case Ident(_) =>
    case Bin(_, l, r) =>
      TransformPreserves(i, locals, env, self, l);
      TransformPreserves(i, locals, env, self, r);
    case Un(_, e1) => TransformPreserves(i, locals, env, self, e1);
    case Call(_, args) => TransformAllPreserves(i, locals, env, self, args);
    case Cast(e1, _) => TransformPreserves(i, locals, env, self, e1);
    case Other(_, e1) => UnboundMeansTheSame(i, env, self, e1);
  }

  lemma {:induction false} TransformAllPreserves(i: Interp, locals: set<string>, env: Env, self: Env, es: seq<Expr>)
    requires env.Keys <= locals && Agree(env, self) && AllFaithful(locals, env.Keys, es)
    ensures EvalAll(i, map[], self, TransformAll(locals, es)) == EvalAll(i, env, map[], es)
    decreases es
  {
    if es != [] {
      TransformPreserves(i, locals, env, self, es[0]);
      TransformAllPreserves(i, locals, env, self, es[1..]);
    }
  }

  // ---- the fragment is all that is preserved ------------------------------

  function Max(a: int, b: int): int {
    if a < b then b else a
  }

  /** More than any literal, and than 0. */
  function Above(e: Expr): int {
    match e
    case Int(n) => Max(n + 1, 1)
    case Ident(_) => 1
    case SelfField(_) => 1
    case Bin(_, l, r) => Max(Above(l), Above(r))
    case Un(_, e1) => Above(e1)
    case Call(_, args) => AboveAll(args)
    case Cast(e1, _) => Above(e1)
    case Other(_, e1) => Above(e1)
  }

  function AboveAll(es: seq<Expr>): int {
    if es == [] then 1 else Max(Above(es[0]), AboveAll(es[1..]))
  }

  lemma {:induction false} TransformKeepsLiterals(locals: set<string>, e: Expr)
    ensures Above(Transform(locals, e)) == Above(e)
    decreases e
  {
    match e
    case Int(_) =>
    case Ident(_) =>
    case SelfField(_) =>
    case Bin(_, l, r) =>
      TransformKeepsLiterals(locals, l);
      TransformKeepsLiterals(locals, r);
    case Un(_, e1) => TransformKeepsLiterals(locals, e1);
    case Call(_, args) => TransformAllKeepsLiterals(locals, args);
    case Cast(e1, _) => TransformKeepsLiterals(locals, e1);
    case Other(_, _) =>
  }

  lemma {:induction false} TransformAllKeepsLiterals(locals: set<string>, es: seq<Expr>)
    ensures AboveAll(TransformAll(locals, es)) == AboveAll(es)
    decreases es
  {
    if es != [] {
      TransformKeepsLiterals(locals, es[0]);
      TransformAllKeepsLiterals(locals, es[1..]);
    }
  }

  /** A meaning under which `mark` is what the global `x` holds and passes through everything, the kinds left as they
      are only if asked to; and nothing else makes it. */
  function Tainting(x: string, mark: int, through: bool): Interp {
    Interp(
      (_, a, b) => if a == mark || b == mark then mark else 0,
      (_, a) => if a == mark then mark else 0,
      (_, vs) => if mark in vs then mark else 0,
      (a, _) => if a == mark then mark else 0,
      (_, a) => if through && a == mark then mark else 0,
      y => if y == x then mark else 0,
      (_, _) => 0,
      (_, _, _) => 0)
  }

  predicate ValuesBelow(env: Env, mark: int) {
    forall x :: x in env ==> env[x] < mark
  }

  lemma {:induction false} MarkShows(x: string, mark: int, through: bool, env: Env, self: Env, e: Expr)
    requires Above(e) <= mark && 0 < mark && ValuesBelow(env, mark) && ValuesBelow(self, mark)
    ensures Eval(Tainting(x, mark, through), env, self, e) == mark <==> x !in env && Shows(e, x, through)
    decreases e
  {
    match e
    case Int(_) =>
    case Ident(_) =>
    case SelfField(_) =>
    case Bin(_, l, r) =>
      MarkShows(x, mark, through, env, self, l);
      MarkShows(x, mark, through, env, self, r);
    case Un(_, e1) => MarkShows(x, mark, through, env, self, e1);
    case Call(_, args) => MarkShowsInSome(x, mark, through, env, self, args);
    case Cast(e1, _) => MarkShows(x, mark, through, env, self, e1);
    case Other(_, e1) => MarkShows(x, mark, through, env, self, e1);
  }

  lemma {:induction false} MarkShowsInSome(x: string, mark: int, through: bool, env: Env, self: Env, es: seq<Expr>)
    requires AboveAll(es) <= mark && 0 < mark && ValuesBelow(env, mark) && ValuesBelow(self, mark)
    ensures mark in EvalAll(Tainting(x, mark, through), env, self, es) <==> x !in env && SomeShows(es, x, through)
    decreases es
  {
    if es != [] {
      MarkShows(x, mark, through, env, self, es[0]);
      MarkShowsInSome(x, mark, through, env, self, es[1..]);
    }
  }

  /** Outside the kinds left as they are, no local is left in the transformed expression. */
  lemma {:induction false} NoLocalShows(locals: set<string>, e: Expr, x: string)
    requires x in locals
    ensures !Shows(Transform(locals, e), x, false)
    decreases e
  {
    match e
    case Int(_) =>
    case Ident(_) =>
    case SelfField(_) =>
    case Bin(_, l, r) =>
      NoLocalShows(locals, l, x);
      NoLocalShows(locals, r, x);
    case Un(_, e1) => NoLocalShows(locals, e1, x);
    case Call(_, args) => NoLocalShowsInAny(locals, args, x);
    case Cast(e1, _) => NoLocalShows(locals, e1, x);
    case Other(_, _) =>
  }

  lemma {:induction false} NoLocalShowsInAny(locals: set<string>, es: seq<Expr>, x: string)
    requires x in locals
    ensures !SomeShows(TransformAll(locals, es), x, false)
    decreases es
  {
    if es != [] {
      NoLocalShows(locals, es[0], x);
      NoLocalShowsInAny(locals, es[1..], x);
    }
  }

  /** Why an expression is not faithful: a local read before it is bound, or one bound but read in a kind left as it
      is. */
  predicate Offends(locals: set<string>, bound: set<string>, e: Expr, x: string) {
    (x in locals && x !in bound && Shows(e, x, false)) || (x in bound && Shows(Transform(locals, e), x, true))
  }

  lemma {:induction false} Offender(locals: set<string>, bound: set<string>, e: Expr) returns (x: string)
    requires bound <= locals && IsSource(e) && !Faithful(locals, bound, e)
    ensures Offends(locals, bound, e, x)
    decreases e
  {
    match e
    case Ident(y) => x := y;
    case Bin(_, l, r) =>
      x := Offender(locals, bound, if Faithful(locals, bound, l) then r else l);
    case Un(_, e1) => x := Offender(locals, bound, e1);
    case Call(_, args) => x := OffenderIn(locals, bound, args);
    case Cast(e1, _) => x := Offender(locals, bound, e1);
    case Other(_, e1) => x :| x in bound && Shows(e1, x, true);
  }

  lemma {:induction false} OffenderIn(locals: set<string>, bound: set<string>, es: seq<Expr>) returns (x: string)
    requires bound <= locals && AllSource(es) && !AllFaithful(locals, bound, es)
    ensures (x in locals && x !in bound && SomeShows(es, x, false)) ||
      (x in bound && SomeShows(TransformAll(locals, es), x, true))
    decreases es
  {
    if Faithful(locals, bound, es[0]) {
      x := OffenderIn(locals, bound, es[1..]);
    } else {
      x := Offender(locals, bound, es[0]);
    }
  }

  lemma {:induction false} ValuesAreBelow(env: Env) returns (mark: int)
    ensures ValuesBelow(env, mark)
    decreases |env|
  {
    if x :| x in env {
      var rest := env - {x};
      assert |rest.Keys| < |env.Keys| by {
        assert rest.Keys == env.Keys - {x};
      }
      mark := ValuesAreBelow(rest);
      assert forall y :: y in env && y != x ==> y in rest && rest[y] == env[y];
      mark := Max(mark, env[x] + 1);
    } else {
      mark := 0;
    }
  }

  /** The transformed expression means the same. */
  ghost predicate MeansTheSame(locals: set<string>, env: Env, e: Expr) {
    forall i: Interp, self: Env :: Agree(env, self) ==>
      Eval(i, map[], self, Transform(locals, e)) == Eval(i, env, map[], e)
  }

  /** The fragment is exact: an expression means the same read from the fields, whatever the rest of the program
      means, if and only if its locals are bound where the transformer goes and none is bound where it does not. */
  lemma TransformPreservesExactly(locals: set<string>, env: Env, e: Expr)
    requires env.Keys <= locals && IsSource(e)
    ensures Faithful(locals, env.Keys, e) <==> MeansTheSame(locals, env, e)
  {
    if Faithful(locals, env.Keys, e) {
      forall i: Interp, self: Env | Agree(env, self)
        ensures Eval(i, map[], self, Transform(locals, e)) == Eval(i, env, map[], e)
      {
        TransformPreserves(i, locals, env, self, e);
      }
    } else {
      var x := Offender(locals, env.Keys, e);
      OffenderShows(locals, env, e, x);
    }
  }

  lemma OffenderShows(locals: set<string>, env: Env, e: Expr, x: string)
    requires env.Keys <= locals && Offends(locals, env.Keys, e, x)
    ensures !MeansTheSame(locals, env, e)
  {
    var mark := ValuesAreBelow(env);
    mark := Max(Max(mark, 1), Above(e));
    var i, e' := Tainting(x, mark, x in env), Transform(locals, e);
    TransformKeepsLiterals(locals, e);
    MarkShows(x, mark, x in env, env, map[], e);
    MarkShows(x, mark, x in env, map[], env, e');
    NoLocalShows(locals, e, x);
    assert Agree(env, env);
    assert Eval(i, map[], env, e') != Eval(i, env, map[], e);
  }

  // ---- programs -----------------------------------------------------------

  /** A program, how deep its async calls nest, and its meaning. */
  datatype System = System(program: Program, depth: string -> nat, interp: Interp)

  /** What is bound when the k-th await is reached. */
  function BoundAt(f: AsyncFn, k: nat): set<string>
    requires k <= |f.awaits|
  {
    (set x | x in f.params) + (set j | 0 <= j < k :: f.awaits[j].name)
  }

  predicate IsAsyncCall(s: System, e: Expr) {
    e.Call? && e.func in s.program
  }

  predicate FnOk(s: System, name: string)
    requires name in s.program
  {
    var f := s.program[name];
    && (forall k :: 0 <= k < |f.awaits| ==>
          && Faithful(Locals(f), BoundAt(f, k), f.awaits[k].awaited)
          && (IsAsyncCall(s, f.awaits[k].awaited) ==>
                var a := f.awaits[k].awaited;
                s.depth(a.func) < s.depth(name) && |a.args| == |s.program[a.func].params|))
    && (f.result.Some? ==> Faithful(Locals(f), BoundAt(f, |f.awaits|), f.result.value))
  }

  /** Polled leaves are pending, then ready for good, always with the one value. */
  ghost predicate LeavesOk(i: Interp) {
    && (forall n, a, t :: i.leaf(n, a, t) == PENDING || i.leaf(n, a, t) == i.value(n, a))
    && (forall n, a, t, t' :: t <= t' && i.leaf(n, a, t) != PENDING ==> i.leaf(n, a, t') == i.leaf(n, a, t))
  }

  ghost predicate SystemOk(s: System) {
    (forall name :: name in s.program ==> FnOk(s, name)) && LeavesOk(s.interp)
  }

  ghost const NOTHING := System(map[], _ => 0,
    Interp((_, _, _) => 0, (_, _) => 0, (_, _) => 0, (_, _) => 0, (_, _) => 0, _ => 0, (_, _) => 0, (_, _, _) => 0))

  /** Systems whose functions lie in the preserved fragment. */
  type Checked = s: System | SystemOk(s) ghost witness NOTHING

  function Bind(params: seq<string>, args: seq<int>): (env: Env)
    requires |params| == |args|
    ensures env.Keys == set x | x in params
  {
    if params == [] then map[]
    else Bind(params[..|params| - 1], args[..|args| - 1])[params[|params| - 1] := args[|args| - 1]]
  }

  predicate CallOk(s: System, name: string, args: seq<int>) {
    name in s.program && |args| == |s.program[name].params|
  }

  // ---- running in sequence ------------------------------------------------

  /** What an await asks for: a call, which may have to wait, or a value there at once. */
  datatype Asked = OfCall(func: string, args: seq<int>) | OfValue(value: int)

  function Asks(i: Interp, locals: Env, self: Env, e: Expr): Asked {
    if e.Call? then OfCall(e.func, EvalAll(i, locals, self, e.args)) else OfValue(Eval(i, locals, self, e))
  }

  /** What an await gives when nothing has to wait. */
  function AwaitValue(s: Checked, name: string, k: nat, env: Env): int
    requires name in s.program && k < |s.program[name].awaits|
    decreases s.depth(name), k, 0
  {
    assert FnOk(s, name);
    match Asks(s.interp, env, map[], s.program[name].awaits[k].awaited)
    case OfCall(func, args) => if func in s.program then Run(s, func, args) else s.interp.value(func, args)
    case OfValue(value) => value
  }

  /** The locals when the k-th await is reached. */
  function EnvAt(s: Checked, name: string, args: seq<int>, k: nat): (env: Env)
    requires CallOk(s, name, args) && k <= |s.program[name].awaits|
    ensures env.Keys == BoundAt(s.program[name], k)
    decreases s.depth(name), k, 1
  {
    var f := s.program[name];
    if k == 0 then Bind(f.params, args)
    else
      var env := EnvAt(s, name, args, k - 1);
      env[f.awaits[k - 1].name := AwaitValue(s, name, k - 1, env)]
  }

  /** The sequential program's value. */
  function Run(s: Checked, name: string, args: seq<int>): int
    requires CallOk(s, name, args)
    decreases s.depth(name), |s.program[name].awaits|, 2
  {
    var f := s.program[name];
    match f.result
    case None => 0
    case Some(e) => Eval(s.interp, EnvAt(s, name, args, |f.awaits|), map[], e)
  }

  // ---- polling ------------------------------------------------------------

  datatype Future = Future(state: nat, fields: Env)

  datatype Polled = Polled(result: int, future: Future)

  /** The constructor: state 0, the arguments, zero for every other local. */
  function Construct(m: Machine, args: seq<int>): Future
    requires |args| == |m.params|
  {
    var given := Bind(m.params, args);
    Future(0, map x | x in m.fields :: if x in given then given[x] else 0)
  }

  /** Polling what an await waits for: a new future polled once, the leaf itself, or the value. */
  function PollCallee(s: Checked, name: string, k: nat, self: Env, t: nat): int
    requires name in s.program && k < |s.program[name].awaits|
    decreases s.depth(name), 0, 0
  {
    assert FnOk(s, name);
    match Asks(s.interp, map[], self, Generate(s.program[name]).handlers[k].polled)
    case OfCall(func, args) =>
      if func in s.program then PollFrom(s, func, 0, Construct(Generate(s.program[func]), args), t).result
      else s.interp.leaf(func, args, t)
    case OfValue(value) => value
  }

  /** The handlers from the k-th on, then the final expression. */
  function PollFrom(s: Checked, name: string, k: nat, fut: Future, t: nat): Polled
    requires name in s.program && k <= |s.program[name].awaits|
    decreases s.depth(name), 1, |s.program[name].awaits| - k
  {
    var m := Generate(s.program[name]);
    if k == |m.handlers| then Polled(Eval(s.interp, map[], fut.fields, m.final), fut)
    else if fut.state != m.handlers[k].index then PollFrom(s, name, k + 1, fut, t)
    else
      var inner := PollCallee(s, name, k, fut.fields, t);
      if inner == PENDING then Polled(PENDING, fut)
      else PollFrom(s, name, k + 1, Future(k + 1, fut.fields[m.handlers[k].field := inner]), t)
  }

  function Poll(s: Checked, name: string, fut: Future, t: nat): Polled
    requires name in s.program
  {
    PollFrom(s, name, 0, fut, t)
  }

  // ---- one poll -----------------------------------------------------------

  /** The future of a call stands before some await, its fields holding what was awaited so far. */
  predicate Stands(s: Checked, name: string, args: seq<int>, fut: Future) {
    && CallOk(s, name, args) && fut.state <= |s.program[name].awaits|
    && Agree(EnvAt(s, name, args, fut.state), fut.fields)
  }

  /** All the await waits for is there at time t. */
  predicate AwaitReady(s: Checked, name: string, args: seq<int>, k: nat, t: nat)
    requires CallOk(s, name, args) && k < |s.program[name].awaits|
    decreases s.depth(name), 0
  {
    assert FnOk(s, name);
    match Asks(s.interp, EnvAt(s, name, args, k), map[], s.program[name].awaits[k].awaited)
    case OfCall(func, inner) =>
      if func in s.program then Ready(s, func, inner, t) && Run(s, func, inner) != PENDING
      else s.interp.leaf(func, inner, t) != PENDING
    case OfValue(value) => value != PENDING
  }

  predicate Ready(s: Checked, name: string, args: seq<int>, t: nat)
    requires CallOk(s, name, args)
    decreases s.depth(name), 1
  {
    forall k :: 0 <= k < |s.program[name].awaits| ==> AwaitReady(s, name, args, k, t)
  }

  lemma ConstructStands(s: Checked, name: string, args: seq<int>)
    requires CallOk(s, name, args)
    ensures Stands(s, name, args, Construct(Generate(s.program[name]), args))
  {
  }

  lemma BoundGrows(f: AsyncFn, k: nat)
    requires k <= |f.awaits|
    ensures BoundAt(f, k) <= Locals(f)
  {
  }

  /** A handler asks for what its await does. */
  lemma HandlerAsksTheSame(s: Checked, name: string, args: seq<int>, fut: Future)
    requires Stands(s, name, args, fut) && fut.state < |s.program[name].awaits|
    ensures Asks(s.interp, map[], fut.fields, Generate(s.program[name]).handlers[fut.state].polled) ==
      Asks(s.interp, EnvAt(s, name, args, fut.state), map[], s.program[name].awaits[fut.state].awaited)
  {
    assert FnOk(s, name);
    var f, env := s.program[name], EnvAt(s, name, args, fut.state);
    var a := f.awaits[fut.state].awaited;
    BoundGrows(f, fut.state);
    if a.Call? {
      TransformAllPreserves(s.interp, Locals(f), env, fut.fields, a.args);
    } else {
      TransformPreserves(s.interp, Locals(f), env, fut.fields, a);
    }
  }

  /** Polling for an await gives its value if all it waits for is there, and pending if not. */
  lemma {:induction false} CalleePolls(s: Checked, name: string, args: seq<int>, fut: Future, t: nat)
    requires Stands(s, name, args, fut) && fut.state < |s.program[name].awaits|
    ensures PollCallee(s, name, fut.state, fut.fields, t) ==
      if AwaitReady(s, name, args, fut.state, t) then AwaitValue(s, name, fut.state, EnvAt(s, name, args, fut.state))
        else PENDING
    decreases s.depth(name), 0, 0
  {
    assert FnOk(s, name) && LeavesOk(s.interp);
    HandlerAsksTheSame(s, name, args, fut);
    match Asks(s.interp, EnvAt(s, name, args, fut.state), map[], s.program[name].awaits[fut.state].awaited)
    case OfCall(func, inner) =>
      if func in s.program {
        FreshPolls(s, func, inner, t);
      }
    case OfValue(_) =>
  }

  /** Polling a new future gives its value if all it waits for is there, and pending if not. */
  lemma {:induction false} FreshPolls(s: Checked, name: string, args: seq<int>, t: nat)
    requires CallOk(s, name, args)
    ensures PollFrom(s, name, 0, Construct(Generate(s.program[name]), args), t).result ==
      if Ready(s, name, args, t) then Run(s, name, args) else PENDING
    decreases s.depth(name), 2, 0
  {
    ConstructStands(s, name, args);
    PollsFrom(s, name, args, 0, Construct(Generate(s.program[name]), args), t);
  }

  /** What a poll that reaches the k-th handler does: the state moves on to the first await not ready, and the
      value is returned when there is none. */
  predicate PollsRight(s: Checked, name: string, args: seq<int>, fut: Future, t: nat, r: Polled)
    requires CallOk(s, name, args)
  {
    && Stands(s, name, args, r.future) && fut.state <= r.future.state
    && (forall j :: fut.state <= j < r.future.state ==> AwaitReady(s, name, args, j, t))
    && (if r.future.state == |s.program[name].awaits| then r.result == Run(s, name, args)
        else r.result == PENDING && !AwaitReady(s, name, args, r.future.state, t))
  }

  lemma {:induction false} PollsFrom(s: Checked, name: string, args: seq<int>, k: nat, fut: Future, t: nat)
    requires Stands(s, name, args, fut) && k <= fut.state
    ensures PollsRight(s, name, args, fut, t, PollFrom(s, name, k, fut, t))
    decreases s.depth(name), 1, |s.program[name].awaits| - k, 1
  {
    var f := s.program[name];
    if k == |f.awaits| {
      FinalIsRun(s, name, args, fut);
    } else if k < fut.state {
      PollsFrom(s, name, args, k + 1, fut, t);
    } else {
      AwaitPolls(s, name, args, fut, t);
    }
  }

  /** The handler of the await the future stands at. */
  lemma {:induction false} AwaitPolls(s: Checked, name: string, args: seq<int>, fut: Future, t: nat)
    requires Stands(s, name, args, fut) && fut.state < |s.program[name].awaits|
    ensures PollsRight(s, name, args, fut, t, PollFrom(s, name, fut.state, fut, t))
    decreases s.depth(name), 1, |s.program[name].awaits| - fut.state, 0
  {
    var k := fut.state;
    CalleePolls(s, name, args, fut, t);
    HandlerRuns(s, name, fut, t);
    if AwaitReady(s, name, args, k, t) {
      ReadyIsNotPending(s, name, args, k, t);
      var fut' := Awaited(s, name, fut, t);
      OneMoreAwaited(s, name, args, fut, fut');
      PollsFrom(s, name, args, k + 1, fut', t);
      FromTheNext(s, name, args, fut, fut', t, PollFrom(s, name, k + 1, fut', t));
    } else {
      NothingPolled(s, name, args, fut, t);
    }
  }

  lemma NothingPolled(s: Checked, name: string, args: seq<int>, fut: Future, t: nat)
    requires Stands(s, name, args, fut) && fut.state < |s.program[name].awaits|
    requires !AwaitReady(s, name, args, fut.state, t)
    ensures PollsRight(s, name, args, fut, t, Polled(PENDING, fut))
  {
  }

  /** The future once the await it stands at has been delivered. */
  function Awaited(s: Checked, name: string, fut: Future, t: nat): Future
    requires name in s.program && fut.state < |s.program[name].awaits|
  {
    var field := s.program[name].awaits[fut.state].name;
    Future(fut.state + 1, fut.fields[field := PollCallee(s, name, fut.state, fut.fields, t)])
  }

  lemma HandlerRuns(s: Checked, name: string, fut: Future, t: nat)
    requires name in s.program && fut.state < |s.program[name].awaits|
    ensures PollFrom(s, name, fut.state, fut, t) ==
      if PollCallee(s, name, fut.state, fut.fields, t) == PENDING then Polled(PENDING, fut)
      else PollFrom(s, name, fut.state + 1, Awaited(s, name, fut, t), t)
  {
  }

  lemma OneMoreAwaited(s: Checked, name: string, args: seq<int>, fut: Future, fut': Future)
    requires Stands(s, name, args, fut) && fut.state < |s.program[name].awaits| && fut'.state == fut.state + 1
    requires fut'.fields == fut.fields[s.program[name].awaits[fut.state].name :=
      AwaitValue(s, name, fut.state, EnvAt(s, name, args, fut.state))]
    ensures Stands(s, name, args, fut')
  {
  }

  lemma FromTheNext(s: Checked, name: string, args: seq<int>, fut: Future, fut': Future, t: nat, r: Polled)
    requires CallOk(s, name, args) && fut.state < |s.program[name].awaits| && fut'.state == fut.state + 1
    requires AwaitReady(s, name, args, fut.state, t) && PollsRight(s, name, args, fut', t, r)
    ensures PollsRight(s, name, args, fut, t, r)
  {
  }

  lemma FinalIsRun(s: Checked, name: string, args: seq<int>, fut: Future)
    requires Stands(s, name, args, fut) && fut.state == |s.program[name].awaits|
    ensures Eval(s.interp, map[], fut.fields, Generate(s.program[name]).final) == Run(s, name, args)
  {
    assert FnOk(s, name);
    var f := s.program[name];
    BoundGrows(f, |f.awaits|);
    if f.result.Some? {
      TransformPreserves(s.interp, Locals(f), EnvAt(s, name, args, |f.awaits|), fut.fields, f.result.value);
    }
  }

  lemma ReadyIsNotPending(s: Checked, name: string, args: seq<int>, k: nat, t: nat)
    requires CallOk(s, name, args) && k < |s.program[name].awaits|
    ensures AwaitReady(s, name, args, k, t) ==> AwaitValue(s, name, k, EnvAt(s, name, args, k)) != PENDING
  {
    assert LeavesOk(s.interp);
  }

  // ---- every sequence of polls --------------------------------------------

  lemma {:induction false} ReadyStays(s: Checked, name: string, args: seq<int>, t: nat, t': nat)
    requires CallOk(s, name, args) && t <= t'
    ensures forall k :: 0 <= k < |s.program[name].awaits| && AwaitReady(s, name, args, k, t) ==>
      AwaitReady(s, name, args, k, t')
    ensures Ready(s, name, args, t) ==> Ready(s, name, args, t')
    decreases s.depth(name)
  {
    assert FnOk(s, name);
    forall k | 0 <= k < |s.program[name].awaits| && AwaitReady(s, name, args, k, t)
      ensures AwaitReady(s, name, args, k, t')
    {
      assert LeavesOk(s.interp);
      match Asks(s.interp, EnvAt(s, name, args, k), map[], s.program[name].awaits[k].awaited) {
        case OfCall(func, inner) =>
          if func in s.program {
            ReadyStays(s, func, inner, t, t');
          }
        case OfValue(_) =>
      }
    }
  }

  function PollAll(s: Checked, name: string, fut: Future, times: seq<nat>): (r: seq<Polled>)
    requires name in s.program
    ensures |r| == |times|
    decreases |times|
  {
    if times == [] then []
    else
      var r := Poll(s, name, fut, times[0]);
      [r] + PollAll(s, name, r.future, times[1..])
  }

  predicate InOrder(times: seq<nat>) {
    forall i, j :: 0 <= i <= j < |times| ==> times[i] <= times[j]
  }

  /** What a poll at time t gives and leaves. */
  predicate PolledAt(s: Checked, name: string, args: seq<int>, t: nat, r: Polled)
    requires CallOk(s, name, args)
  {
    && r.result == (if Ready(s, name, args, t) then Run(s, name, args) else PENDING)
    && Stands(s, name, args, r.future)
  }

  /** Each poll gives what it should, and the state never goes back, not below that of the future polled either. */
  predicate AllPolledRight(s: Checked, name: string, args: seq<int>, since: nat, times: seq<nat>, rs: seq<Polled>)
    requires CallOk(s, name, args) && |rs| == |times|
  {
    && (forall i :: 0 <= i < |times| ==> PolledAt(s, name, args, times[i], rs[i]) && since <= rs[i].future.state)
    && (forall i, j :: 0 <= i <= j < |times| ==> rs[i].future.state <= rs[j].future.state)
  }

  predicate ReadyBelow(s: Checked, name: string, args: seq<int>, state: nat, t: nat)
    requires CallOk(s, name, args) && state <= |s.program[name].awaits|
  {
    forall j :: 0 <= j < state ==> AwaitReady(s, name, args, j, t)
  }

  lemma {:induction false} PollsInOrder(s: Checked, name: string, args: seq<int>, fut: Future, since: nat,
      times: seq<nat>)
    requires Stands(s, name, args, fut) && InOrder(times) && (forall i :: 0 <= i < |times| ==> since <= times[i])
    requires ReadyBelow(s, name, args, fut.state, since)
    ensures AllPolledRight(s, name, args, fut.state, times, PollAll(s, name, fut, times))
    decreases |times|
  {
    if times != [] {
      var r := Poll(s, name, fut, times[0]);
      FirstPoll(s, name, args, fut, since, times[0]);
      PollsInOrder(s, name, args, r.future, times[0], times[1..]);
      OnePollMore(s, name, args, fut.state, times, r, PollAll(s, name, r.future, times[1..]));
    }
  }

  lemma FirstPoll(s: Checked, name: string, args: seq<int>, fut: Future, since: nat, t: nat)
    requires Stands(s, name, args, fut) && since <= t && ReadyBelow(s, name, args, fut.state, since)
    ensures
      var r := Poll(s, name, fut, t);
      && PolledAt(s, name, args, t, r) && fut.state <= r.future.state
      && ReadyBelow(s, name, args, r.future.state, t)
  {
    PollsFrom(s, name, args, 0, fut, t);
    ReadyStays(s, name, args, since, t);
  }

  lemma OnePollMore(s: Checked, name: string, args: seq<int>, state: nat, times: seq<nat>, r: Polled, rs: seq<Polled>)
    requires CallOk(s, name, args) && times != [] && |rs| == |times| - 1
    requires PolledAt(s, name, args, times[0], r) && state <= r.future.state
    requires AllPolledRight(s, name, args, r.future.state, times[1..], rs)
    ensures AllPolledRight(s, name, args, state, times, [r] + rs)
  {
    var all := [r] + rs;
    forall i | 0 <= i < |times|
      ensures PolledAt(s, name, args, times[i], all[i]) && r.future.state <= all[i].future.state
    {
      assert i > 0 ==> all[i] == rs[i - 1] && times[i] == times[1..][i - 1];
    }
  }

  /** However a call's future is polled: each poll returns the sequential program's value if all it waits for is there
      by then and pending if not, every stored field is the value awaited, and the state never goes back. */
  lemma EveryPollSequence(s: Checked, name: string, args: seq<int>, times: seq<nat>)
    requires CallOk(s, name, args) && InOrder(times)
    ensures
      var rs := PollAll(s, name, Construct(Generate(s.program[name]), args), times);
      && (forall i :: 0 <= i < |times| ==> PolledAt(s, name, args, times[i], rs[i]))
      && (forall i, j :: 0 <= i <= j < |times| ==> rs[i].future.state <= rs[j].future.state)
  {
    ConstructStands(s, name, args);
    PollsInOrder(s, name, args, Construct(Generate(s.program[name]), args), 0, times);
  }

  /** Once a value has been returned, every later poll returns it. */
  lemma ReturnedForGood(s: Checked, name: string, args: seq<int>, times: seq<nat>, i: nat, j: nat)
    requires CallOk(s, name, args) && InOrder(times) && i <= j < |times|
    requires PollAll(s, name, Construct(Generate(s.program[name]), args), times)[i].result != PENDING
    ensures
      var rs := PollAll(s, name, Construct(Generate(s.program[name]), args), times);
      rs[i].result == rs[j].result == Run(s, name, args)
  {
    var rs := PollAll(s, name, Construct(Generate(s.program[name]), args), times);
    EveryPollSequence(s, name, args, times);
    assert PolledAt(s, name, args, times[i], rs[i]) && PolledAt(s, name, args, times[j], rs[j]);
    ReadyStays(s, name, args, times[i], times[j]);
  }

  // ---- where it stops -----------------------------------------------------

  /** An awaited value that is the code for pending is never delivered: such a call never finishes. */
  lemma PendingValueNeverFinishes(s: Checked, name: string, args: seq<int>, k: nat, times: seq<nat>)
    requires CallOk(s, name, args) && InOrder(times) && k < |s.program[name].awaits|
    requires AwaitValue(s, name, k, EnvAt(s, name, args, k)) == PENDING
    ensures
      var rs := PollAll(s, name, Construct(Generate(s.program[name]), args), times);
      forall i :: 0 <= i < |times| ==> rs[i].result == PENDING
  {
    EveryPollSequence(s, name, args, times);
    forall i | 0 <= i < |times| ensures !Ready(s, name, args, times[i]) {
      ReadyIsNotPending(s, name, args, k, times[i]);
      assert !AwaitReady(s, name, args, k, times[i]);
    }
    var rs := PollAll(s, name, Construct(Generate(s.program[name]), args), times);
    assert forall i :: 0 <= i < |times| ==> PolledAt(s, name, args, times[i], rs[i]);
  }

  /** A name bound only by a later await reads that await's field, still zero, and not what it names: this is why
      locals must be bound where they are used. */
  lemma LaterLocalHidesGlobal(i: Interp, f: AsyncFn, x: string, args: seq<int>)
    requires x in Locals(f) && x !in f.params && |args| == |f.params|
    ensures Eval(i, map[], Construct(Generate(f), args).fields, Transform(Locals(f), Ident(x))) == 0
    ensures Eval(i, Bind(f.params, args), map[], Ident(x)) == i.global(x)
  {
  }

  /** Inside a kind left as it is a local is no longer found. */
  lemma UntransformedKindLosesLocals(i: Interp, f: AsyncFn, kind: string, x: string, args: seq<int>)
    requires x in f.params && |args| == |f.params|
    ensures
      var env := Bind(f.params, args);
      && Eval(i, map[], Construct(Generate(f), args).fields, Transform(Locals(f), Other(kind, Ident(x)))) ==
        i.other(kind, i.global(x))
      && Eval(i, env, map[], Other(kind, Ident(x))) == i.other(kind, env[x])
  {
  }

  // ---- the analysis -------------------------------------------------------

  datatype AwaitPoint = AwaitPoint(index: nat, await: Await)

  /** Finds the await points and the locals that become fields. */
  class AsyncAnalyzer {
    var awaitPoints: seq<AwaitPoint>
    var currentLocals: set<string>

    constructor ()
      ensures awaitPoints == [] && currentLocals == {}
    {
      awaitPoints, currentLocals := [], {};
    }

    /** All locals cross some await, if there is one. */
    method Analyze(f: AsyncFn) returns (crossAwait: set<string>)
      modifies this
      ensures |awaitPoints| == |f.awaits|
      ensures forall k :: 0 <= k < |f.awaits| ==> awaitPoints[k] == AwaitPoint(k, f.awaits[k])
      ensures currentLocals == Locals(f) && crossAwait == if f.awaits == [] then {} else Locals(f)
      ensures crossAwait + (set x | x in f.params) == Locals(f)
    {
      awaitPoints, currentLocals := [], set x | x in f.params;
      for k := 0 to |f.awaits|
        invariant |awaitPoints| == k && forall j :: 0 <= j < k ==> awaitPoints[j] == AwaitPoint(j, f.awaits[j])
        invariant currentLocals == BoundAt(f, k)
      {
        awaitPoints := awaitPoints + [AwaitPoint(k, f.awaits[k])];
        currentLocals := currentLocals + {f.awaits[k].name};
      }
      crossAwait := {};
      for k := 0 to |awaitPoints|
        invariant crossAwait == if k == 0 then {} else currentLocals
      {
        crossAwait := crossAwait + currentLocals;
      }
    }
  }
}
