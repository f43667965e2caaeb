/** Constant folding over unbounded integers, and the 64-bit arithmetic it stands for. */
module ConstFold {
  import opened Basics

  // ---- unbounded two's-complement bits ------------------------------------

  function Pow2(n: nat): (p: int)
    ensures p > 0
  {
    if n == 0 then 1 else 2 * Pow2(n - 1)
  }

  datatype BitOp = And | Or | Xor

  function Bit(op: BitOp, x: int, y: int): (b: int)
    ensures 0 <= b <= 1
  {
    var (x, y) := (x % 2 == 1, y % 2 == 1);
    if (match op case And => x && y case Or => x || y case Xor => x != y) then 1 else 0
  }

  function Size(n: int): nat {
    if n >= 0 then n else -n - 1
  }

  /** Bit by bit on integers of endless width: negative ones go on with ones, the others with zeros. */
  function Bits(op: BitOp, a: int, b: int): int
    decreases Size(a) + Size(b)
  {
    if Size(a) == 0 && Size(b) == 0 then -Bit(op, a, b)
    else 2 * Bits(op, a / 2, b / 2) + Bit(op, a, b)
  }

  lemma BitsUnfold(op: BitOp, a: int, b: int)
    ensures Bits(op, a, b) == 2 * Bits(op, a / 2, b / 2) + Bit(op, a, b)
  {
  }

  predicate TestBit(a: int, k: nat)
    decreases k
  {
    if k == 0 then a % 2 == 1 else TestBit(a / 2, k - 1)
  }

  predicate Combined(op: BitOp, p: bool, q: bool) {
    match op case And => p && q case Or => p || q case Xor => p != q
  }

  /** Each bit of the result is made of the two in its place. */
  lemma {:induction false} BitsInTheirPlaces(op: BitOp, a: int, b: int, k: nat)
    ensures TestBit(Bits(op, a, b), k) <==> Combined(op, TestBit(a, k), TestBit(b, k))
    decreases k
  {
    LastBit(op, a, b);
    if k > 0 {
      BitsInTheirPlaces(op, a / 2, b / 2, k - 1);
    }
  }

  lemma LastBit(op: BitOp, a: int, b: int)
    ensures Bits(op, a, b) / 2 == Bits(op, a / 2, b / 2)
    ensures Bits(op, a, b) % 2 == 1 <==> Combined(op, a % 2 == 1, b % 2 == 1)
  {
    BitsUnfold(op, a, b);
  }

  // ---- congruence ---------------------------------------------------------

  /** Equal in the last n bits. */
  predicate Same(n: nat, a: int, b: int) {
    a % Pow2(n) == b % Pow2(n)
  }

  lemma SameByQuotient(n: nat, a: int, b: int, q: int)
    requires a == b + Pow2(n) * q
    ensures Same(n, a, b)
  {
    var m := Pow2(n);
    var d := b / m + q;
    assert a == m * d + b % m by {
      assert b == m * (b / m) + b % m;
      assert m * d == m * (b / m) + m * q;
    }
    DivIs(a, m, d, b % m);
  }

  lemma DivIs(a: int, m: int, q: int, r: int)
    requires m > 0 && a == m * q + r && 0 <= r < m
    ensures a / m == q && a % m == r
  {
    assert a == m * (a / m) + a % m;
    assert m * (q - a / m) == a % m - r;
    SmallMultipleIsZero(m, q - a / m);
  }

  lemma SmallMultipleIsZero(m: int, d: int)
    requires -m < m * d < m
    ensures d == 0
  {
    assert d >= 1 ==> m * d >= m;
    assert d <= -1 ==> m * d <= -m;
  }

  lemma Quotient(n: nat, a: int, b: int) returns (q: int)
    requires Same(n, a, b)
    ensures a == b + Pow2(n) * q
  {
    var m := Pow2(n);
    q := a / m - b / m;
    assert a == m * (a / m) + a % m && b == m * (b / m) + b % m;
    assert m * q == m * (a / m) - m * (b / m);
  }

  lemma SameAsWrapped(n: nat, a: int)
    ensures 0 <= a % Pow2(n) < Pow2(n) && Same(n, a % Pow2(n), a)
  {
    var m := Pow2(n);
    assert a == m * (a / m) + a % m;
    assert m * -(a / m) == -(m * (a / m));
    SameByQuotient(n, a % m, a, -(a / m));
  }

  lemma SameSum(n: nat, a: int, a': int, b: int, b': int)
    requires Same(n, a, a') && Same(n, b, b')
    ensures Same(n, a + b, a' + b') && Same(n, a - b, a' - b')
  {
    var m := Pow2(n);
    var q := Quotient(n, a, a');
    var r := Quotient(n, b, b');
    assert m * (q + r) == m * q + m * r && m * (q - r) == m * q - m * r;
    SameByQuotient(n, a + b, a' + b', q + r);
    SameByQuotient(n, a - b, a' - b', q - r);
  }

  lemma SameProduct(n: nat, a: int, a': int, b: int, b': int)
    requires Same(n, a, a') && Same(n, b, b')
    ensures Same(n, a * b, a' * b')
  {
    SameTimes(n, a, a', b);
    SameTimes(n, b, b', a');
    assert b * a' == a' * b && b' * a' == a' * b';
  }

  lemma SameTimes(n: nat, a: int, a': int, b: int)
    requires Same(n, a, a')
    ensures Same(n, a * b, a' * b)
  {
    var m := Pow2(n);
    var q := Quotient(n, a, a');
    assert (a' + m * q) * b == a' * b + (m * q) * b && (m * q) * b == m * (q * b);
    SameByQuotient(n, a * b, a' * b, q * b);
  }

  /** Halving two numbers equal in n + 1 bits: the same last bit, and halves equal in n bits; and the converse. */
  lemma SameHalves(n: nat, a: int, b: int)
    requires Same(n + 1, a, b)
    ensures a % 2 == b % 2 && Same(n, a / 2, b / 2)
  {
    var q := Quotient(n + 1, a, b);
    assert Pow2(n + 1) * q == 2 * (Pow2(n) * q);
    assert a / 2 == b / 2 + Pow2(n) * q;
    SameByQuotient(n, a / 2, b / 2, q);
  }

  lemma SameDoubles(n: nat, a: int, b: int, bit: int)
    requires Same(n, a, b)
    ensures Same(n + 1, 2 * a + bit, 2 * b + bit)
  {
    var q := Quotient(n, a, b);
    assert Pow2(n + 1) * q == 2 * (Pow2(n) * q);
    SameByQuotient(n + 1, 2 * a + bit, 2 * b + bit, q);
  }

  lemma {:induction false} SameBits(n: nat, op: BitOp, a: int, a': int, b: int, b': int)
    requires Same(n, a, a') && Same(n, b, b')
    ensures Same(n, Bits(op, a, b), Bits(op, a', b'))
  {
    if n > 0 {
      SameHalves(n - 1, a, a');
      SameHalves(n - 1, b, b');
      SameBits(n - 1, op, a / 2, a' / 2, b / 2, b' / 2);
      BitsUnfold(op, a, b);
      BitsUnfold(op, a', b');
      SameDoubles(n - 1, Bits(op, a / 2, b / 2), Bits(op, a' / 2, b' / 2), Bit(op, a, b));
    } else {
      assert Pow2(0) == 1;
    }
  }

  /** Masking with n ones keeps the last n bits: `x & ((1 << n) - 1)` is `x mod 2^n`. */
  lemma {:induction false} MaskIsRemainder(n: nat, a: int)
    ensures Bits(And, a, Pow2(n) - 1) == a % Pow2(n)
  {
    if n == 0 {
      AndWithZero(a);
    } else {
      var m := Pow2(n - 1);
      BitsUnfold(And, a, 2 * m - 1);
      assert (2 * m - 1) / 2 == m - 1 && (2 * m - 1) % 2 == 1;
      MaskIsRemainder(n - 1, a / 2);
      RemainderOfHalf(m, a);
    }
  }

  lemma RemainderOfHalf(m: int, a: int)
    requires m > 0
    ensures a % (2 * m) == 2 * ((a / 2) % m) + a % 2
  {
    var h := a / 2;
    assert h == m * (h / m) + h % m;
    assert 2 * (m * (h / m)) == (2 * m) * (h / m);
    DivIs(a, 2 * m, h / m, 2 * (h % m) + a % 2);
  }

  lemma {:induction false} AndWithZero(a: int)
    ensures Bits(And, a, 0) == 0
    decreases Size(a)
  {
    if Size(a) != 0 {
      AndWithZero(a / 2);
    }
  }

  // ---- constant expressions -----------------------------------------------

  /** An integer type, by the name written and what that stands for. */
  datatype IntType = IntType(name: string, signed: bool, bits: nat)

  datatype UnOp = Neg | Complement | LogicalNot

  datatype BinOp = Add | Sub | Mul | Div | Mod | Shl | Shr | Bitwise(op: BitOp)
    | Eq | Ne | Lt | Le | Gt | Ge | LogicalAnd | LogicalOr

  datatype Expr =
    | Int(value: nat)
    | Char(code: nat)
    | Bool(truth: bool)
    | Name(name: string)
    | Cast(operand: Expr, target: IntType)
    | Unary(uop: UnOp, operand: Expr)
    | Binary(bop: BinOp, left: Expr, right: Expr)
    | Grouped(operand: Expr)

  /** The constants known, the names among them declared u64, and the width of a u64: 64. What is proved holds at
      every width. */
  datatype Evaluator = Evaluator(constants: map<string, int>, u64: set<string>, width: nat) {
    function Word(): int {
      Pow2(width)
    }
  }

  predicate IsU64(v: Evaluator, e: Expr) {
    match e
    case Int(n) => 2 * n >= v.Word()
    case Name(x) => x in v.u64
    case Cast(_, target) => target.name == "u64"
    case Unary(_, e1) => IsU64(v, e1)
    case Binary(op, l, r) => if op.Shl? || op.Shr? then IsU64(v, l) else IsU64(v, l) || IsU64(v, r)
    case _ => false
  }

  function Abs(n: int): nat {
    if n < 0 then -n else n
  }

  function Truth(b: bool): int {
    if b then 1 else 0
  }

  function TruncDiv(a: int, b: int): int
    requires b != 0
  {
    var q := Abs(a) / Abs(b);
    if (a < 0) == (b < 0) then q else -q
  }

  function TruncMod(a: int, b: int): int
    requires b != 0
  {
    var r := Abs(a) % Abs(b);
    if a < 0 then -r else r
  }

  function Apply(w: nat, op: BinOp, leftIsU64: bool, a: int, b: int): Option<int> {
    match op
    case Add => Some(a + b)
    case Sub => Some(a - b)
    case Mul => Some(a * b)
    case Div => if b == 0 then None else Some(TruncDiv(a, b))
    case Mod => if b == 0 then None else Some(TruncMod(a, b))
    case Shl => if b < 0 then None else Some(a * Pow2(b))
    case Shr => if b < 0 then None else Some((if leftIsU64 then Bits(And, a, Pow2(w) - 1) else a) / Pow2(b))
    case Bitwise(o) => Some(Bits(o, a, b))
    case Eq => Some(Truth(a == b))
    case Ne => Some(Truth(a != b))
    case Lt => Some(Truth(a < b))
    case Le => Some(Truth(a <= b))
    case Gt => Some(Truth(a > b))
    case Ge => Some(Truth(a >= b))
    case LogicalAnd => Some(Truth(a != 0 && b != 0))
    case LogicalOr => Some(Truth(a != 0 || b != 0))
  }

  /** The fold; none for an unknown name, a division by zero or a negative shift. */
  function Evaluate(v: Evaluator, e: Expr): Option<int> {
    match e
    case Int(n) => Some(n)
    case Char(n) => Some(n)
    case Bool(b) => Some(Truth(b))
    case Name(x) => if x in v.constants then Some(v.constants[x]) else None
    case Cast(e1, _) => Evaluate(v, e1)
    case Unary(op, e1) =>
      (match Evaluate(v, e1)
       case None => None
       case Some(a) => Some(match op case Neg => -a case Complement => -a - 1 case LogicalNot => Truth(a == 0)))
    case Binary(op, l, r) =>
      var a, b := Evaluate(v, l), Evaluate(v, r);
      if a.None? || b.None? then None else Apply(v.width, op, IsU64(v, l), a.value, b.value)
    case Grouped(e1) => Evaluate(v, e1)
  }

  // ---- 64-bit arithmetic --------------------------------------------------

  /** The number that the last bits of a register are, as the type has it. */
  function Convert(t: IntType, a: int): int {
    var r := a % Pow2(t.bits);
    if t.signed && 2 * r >= Pow2(t.bits) then r - Pow2(t.bits) else r
  }

  predicate Fits(t: IntType, a: int) {
    if t.signed then -Pow2(t.bits) <= 2 * a < Pow2(t.bits) else 0 <= a < Pow2(t.bits)
  }

  /** The signed type of the full width. */
  function SignedWord(v: Evaluator): IntType {
    IntType("i64", true, v.width)
  }

  /** Is a register of the full width unsigned, as the generated code has it? There parentheses leave no trace. */
  predicate Unsigned(v: Evaluator, e: Expr) {
    match e
    case Int(n) => 2 * n >= v.Word()
    case Name(x) => x in v.u64
    case Cast(_, target) => !target.signed
    case Unary(_, e1) => Unsigned(v, e1)
    case Binary(op, l, r) => if op.Shl? || op.Shr? then Unsigned(v, l) else Unsigned(v, l) || Unsigned(v, r)
    case Grouped(e1) => Unsigned(v, e1)
    case _ => false
  }

  /** The number a register holds. */
  function Read(v: Evaluator, unsigned: bool, a: int): int {
    if unsigned then a % v.Word() else Convert(SignedWord(v), a)
  }

  /** The same in registers that wrap: shifts right are logical on an unsigned operand and arithmetic on a signed one,
      and casts cut off what the type has no bits for. */
  function Machine(v: Evaluator, constants: map<string, int>, e: Expr): (r: Option<int>)
    ensures r.Some? ==> 0 <= r.value < v.Word()
  {
    match e
    case Int(n) => Some(n % v.Word())
    case Char(n) => Some(n % v.Word())
    case Bool(b) => Some(Truth(b) % v.Word())
    case Name(x) => if x in constants then Some(constants[x] % v.Word()) else None
    case Cast(e1, t) =>
      (match Machine(v, constants, e1)
       case None => None
       case Some(a) => Some(Convert(t, a) % v.Word()))
    case Unary(op, e1) =>
      (match Machine(v, constants, e1)
       case None => None
       case Some(a) =>
         Some((match op case Neg => -a case Complement => -a - 1 case LogicalNot => Truth(a == 0)) % v.Word()))
    case Binary(op, l, r) =>
      var a, b := Machine(v, constants, l), Machine(v, constants, r);
      if a.None? || b.None? then None else MachineApply(v, op, Unsigned(v, l), a.value, b.value)
    case Grouped(e1) => Machine(v, constants, e1)
  }

  function MachineApply(v: Evaluator, op: BinOp, unsigned: bool, a: int, b: int): (r: Option<int>)
    ensures r.Some? ==> 0 <= r.value < v.Word()
  {
    match op
    case Add => Some((a + b) % v.Word())
    case Sub => Some((a - b) % v.Word())
    case Mul => Some((a * b) % v.Word())
    case Shl => if b < 0 then None else Some((a * Pow2(b)) % v.Word())
    case Shr => if b < 0 then None else Some((Read(v, unsigned, a) / Pow2(b)) % v.Word())
    case Bitwise(o) => Some(Bits(o, a, b) % v.Word())
    case _ => None
  }

  /** The fold of a shift right can be trusted: the operand is known to be u64, or what it folds to differs from what
      its register holds by a multiple of 2^k words. */
  predicate ShiftIsRight(v: Evaluator, l: Expr, k: nat) {
    IsU64(v, l) || Evaluate(v, l).None? ||
    var a := Evaluate(v, l).value;
    ((a - Read(v, Unsigned(v, l), a)) / v.Word()) % Pow2(k) == 0
  }

  predicate IsCount(v: Evaluator, e: Expr) {
    e.Int? && e.value < v.width
  }

  /** A type of the full width; the unsigned one is u64. */
  predicate IsFullWidth(v: Evaluator, t: IntType) {
    t.bits == v.width && (t.name == "u64" <==> !t.signed)
  }

  /** Sums, products, bits, casts to types of the full width, and shifts by less than that, every shift right one that
      can be trusted. Characters and truth values, which are narrower, only where they are cast. */
  predicate InFragment(v: Evaluator, e: Expr) {
    match e
    case Int(_) => true
    case Char(_) => false
    case Bool(_) => false
    case Name(_) => true
    case Cast(e1, t) => IsFullWidth(v, t) && (e1.Char? || e1.Bool? || InFragment(v, e1))
    case Unary(op, e1) => !op.LogicalNot? && InFragment(v, e1)
    case Binary(op, l, r) =>
      && InFragment(v, l)
      && (match op
          case Add => InFragment(v, r)
          case Sub => InFragment(v, r)
          case Mul => InFragment(v, r)
          case Bitwise(_) => InFragment(v, r)
          case Shl => IsCount(v, r)
          case Shr => IsCount(v, r) && ShiftIsRight(v, l, r.value)
          case _ => false)
    case Grouped(e1) => InFragment(v, e1)
  }

  /** What the fold takes to be u64 is. */
  lemma {:induction false} U64IsUnsigned(v: Evaluator, e: Expr)
    requires InFragment(v, e) && IsU64(v, e)
    ensures Unsigned(v, e)
  {
    match e
    case Unary(_, e1) => U64IsUnsigned(v, e1);
    case Binary(op, l, r) => U64IsUnsigned(v, if IsU64(v, l) then l else r);
    case _ =>
  }

  /** The same names, each with the same last bits: whichever form of a constant is stored. */
  predicate SameConstants(w: nat, c: map<string, int>, c': map<string, int>) {
    c.Keys == c'.Keys && forall x :: x in c ==> Same(w, c[x], c'[x])
  }

  predicate SameResult(w: nat, a: Option<int>, b: Option<int>) {
    a.Some? == b.Some? && (a.Some? ==> Same(w, a.value, b.value))
  }

  lemma SmallIsItself(n: nat, w: nat)
    requires n < w
    ensures n % Pow2(w) == n
  {
    PowAbove(n, w);
    DivIs(n, Pow2(w), 0, n);
  }

  lemma {:induction false} PowAbove(n: nat, k: nat)
    requires n < k
    ensures n < Pow2(k)
  {
    if n > 0 {
      PowAbove(n - 1, k - 1);
    }
  }

  /** Folding, whichever form its constants are stored in, gives the last bits of the machine's result, and fails
      exactly when an unknown name is used. */
  lemma {:induction false} FoldIsMachineArithmetic(v: Evaluator, constants: map<string, int>, e: Expr)
    requires InFragment(v, e) && SameConstants(v.width, v.constants, constants)
    ensures SameResult(v.width, Evaluate(v, e), Machine(v, constants, e))
    decreases e, 0
  {
    var w := v.width;
    match e
    case Int(n) => SameAsWrapped(w, n);
    case Name(x) =>
      if x in constants {
        SameAsWrapped(w, constants[x]);
      }
    case Cast(e1, t) =>
      match e1 {
        case Char(n) => SameAsWrapped(w, n);
        case Bool(b) => SameAsWrapped(w, Truth(b));
        case _ => FoldIsMachineArithmetic(v, constants, e1);
      }
      var a' := Machine(v, constants, e1);
      if a'.Some? {
        ConvertKeepsBits(t, a'.value);
        SameAsWrapped(w, Convert(t, a'.value));
      }
    case Grouped(e1) => FoldIsMachineArithmetic(v, constants, e1);
    case Unary(op, e1) =>
      FoldIsMachineArithmetic(v, constants, e1);
      var a, a' := Evaluate(v, e1), Machine(v, constants, e1);
      if a.Some? {
        UnaryAgrees(w, a.value, a'.value);
      }
    case Binary(op, l, r) =>
      if op.Shr? {
        ShiftAgreesExactly(v, constants, l, r.value);
      } else {
        FoldIsMachineArithmetic(v, constants, l);
        var a, a' := Evaluate(v, l), Machine(v, constants, l);
        if op.Shl? {
          SmallIsItself(r.value, w);
          if a.Some? {
            ShiftsLeftAgree(w, a.value, a'.value, r.value);
          }
        } else {
          FoldIsMachineArithmetic(v, constants, r);
          var b, b' := Evaluate(v, r), Machine(v, constants, r);
          if a.Some? && b.Some? {
            BinaryAgrees(v, op, IsU64(v, l), Unsigned(v, l), a.value, a'.value, b.value, b'.value);
          }
        }
      }
  }

  lemma UnaryAgrees(w: nat, a: int, a': int)
    requires Same(w, a, a')
    ensures Same(w, -a, (-a') % Pow2(w)) && Same(w, -a - 1, (-a' - 1) % Pow2(w))
  {
    SameSum(w, 0, 0, a, a');
    SameSum(w, -1, -1, a, a');
    SameAsWrapped(w, -a');
    SameAsWrapped(w, -a' - 1);
  }

  lemma BinaryAgrees(v: Evaluator, op: BinOp, u64: bool, unsigned: bool, a: int, a': int, b: int, b': int)
    requires Same(v.width, a, a') && Same(v.width, b, b') && (op.Add? || op.Sub? || op.Mul? || op.Bitwise?)
    ensures SameResult(v.width, Apply(v.width, op, u64, a, b), MachineApply(v, op, unsigned, a', b'))
  {
    var w := v.width;
    match op
    case Add => SameSum(w, a, a', b, b'); SameAsWrapped(w, a' + b');
    case Sub => SameSum(w, a, a', b, b'); SameAsWrapped(w, a' - b');
    case Mul => SameProduct(w, a, a', b, b'); SameAsWrapped(w, a' * b');
    case Bitwise(o) => SameBits(w, o, a, a', b, b'); SameAsWrapped(w, Bits(o, a', b'));
  }

  lemma ShiftsLeftAgree(w: nat, a: int, a': int, k: nat)
    requires Same(w, a, a')
    ensures Same(w, a * Pow2(k), (a' * Pow2(k)) % Pow2(w))
  {
    SameProduct(w, a, a', Pow2(k), Pow2(k));
    SameAsWrapped(w, a' * Pow2(k));
  }

  // ---- shifts right -------------------------------------------------------

  /** Two numbers equal in the last w bits, each shifted by k: equal in them again exactly when the words they differ by
      are a multiple of 2^k. */
  lemma ShiftedSameExactly(w: nat, k: nat, a: int, c: int)
    requires k <= w && Same(w, a, c)
    ensures Same(w, a / Pow2(k), c / Pow2(k)) <==> ((a - c) / Pow2(w)) % Pow2(k) == 0
  {
    PowSplits(w - k, k);
    var q := Quotient(w, a, c);
    DivIs(a - c, Pow2(w), q, 0);
    ShiftedSum(a, Pow2(k), Pow2(w - k), q, c);
    MultipleExactly(w, c / Pow2(k), Pow2(w - k), q, Pow2(k));
  }

  lemma MultipleExactly(w: nat, b: int, h: int, q: int, p: int)
    requires h > 0 && p > 0 && Pow2(w) == h * p
    ensures Same(w, b + h * q, b) <==> q % p == 0
  {
    if Same(w, b + h * q, b) {
      var d := Quotient(w, b + h * q, b);
      SameFactor(h, q, p, d);
      DivIs(q, p, d, 0);
    } else if q % p == 0 {
      assert q == p * (q / p);
      assert h * (p * (q / p)) == (h * p) * (q / p);
      SameByQuotient(w, b + h * q, b, q / p);
    }
  }

  lemma ShiftedSum(a: int, p: int, h: int, q: int, c: int)
    requires p > 0 && a == c + (h * p) * q
    ensures a / p == c / p + h * q
  {
    assert c == p * (c / p) + c % p;
    assert (h * p) * q == p * (h * q);
    assert p * (c / p) + p * (h * q) == p * (c / p + h * q);
    DivIs(a, p, c / p + h * q, c % p);
  }

  lemma SameFactor(h: int, q: int, p: int, d: int)
    requires h > 0 && h * q == (h * p) * d
    ensures q == p * d
  {
    assert (h * p) * d == h * (p * d);
    assert h * (q - p * d) == 0;
    SmallMultipleIsZero(h, q - p * d);
  }

  lemma ReadKeepsBits(v: Evaluator, unsigned: bool, a: int)
    ensures Same(v.width, Read(v, unsigned, a), a)
  {
    SameAsWrapped(v.width, a);
    ConvertKeepsBits(SignedWord(v), a);
  }

  /** What a register holds depends on its bits alone. */
  lemma SameRead(v: Evaluator, unsigned: bool, a: int, a': int)
    requires Same(v.width, a, a')
    ensures Read(v, unsigned, a) == Read(v, unsigned, a')
  {
  }

  /** A shift right folds to the machine's result exactly when the operand is known to be u64, or the value it folds to
      differs from the number in its register by a multiple of 2^k words. */
  lemma {:induction false} ShiftAgreesExactly(v: Evaluator, constants: map<string, int>, l: Expr, k: nat)
    requires InFragment(v, l) && SameConstants(v.width, v.constants, constants) && k < v.width
    ensures
      var e := Binary(Shr, l, Int(k));
      SameResult(v.width, Evaluate(v, e), Machine(v, constants, e)) <==> ShiftIsRight(v, l, k)
    decreases l, 1
  {
    FoldIsMachineArithmetic(v, constants, l);
    var w, e := v.width, Binary(Shr, l, Int(k));
    SmallIsItself(k, w);
    assert Evaluate(v, Int(k)) == Machine(v, constants, Int(k)) == Some(k);
    if Evaluate(v, l).Some? {
      var a, a' := Evaluate(v, l).value, Machine(v, constants, l).value;
      var unsigned := Unsigned(v, l);
      SameRead(v, unsigned, a, a');
      var c := Read(v, unsigned, a);
      assert Machine(v, constants, e) == Some((c / Pow2(k)) % v.Word());
      SameAsWrapped(w, c / Pow2(k));
      if IsU64(v, l) {
        U64IsUnsigned(v, l);
        MaskIsRemainder(w, a);
        assert Evaluate(v, e) == Some(c / Pow2(k));
      } else {
        assert Evaluate(v, e) == Some(a / Pow2(k));
        ReadKeepsBits(v, unsigned, a);
        ShiftedSameExactly(w, k, a, c);
      }
    }
  }

  /** In particular a signed operand that folds to a number its type holds: the shift folds to exactly the arithmetic
      shift of its register. */
  lemma FittingShiftIsArithmetic(v: Evaluator, constants: map<string, int>, l: Expr, k: nat)
    requires InFragment(v, l) && SameConstants(v.width, v.constants, constants)
    requires !IsU64(v, l) && !Unsigned(v, l) && Evaluate(v, l).Some? && Fits(SignedWord(v), Evaluate(v, l).value)
    ensures ShiftIsRight(v, l, k) && Machine(v, constants, l).Some?
    ensures Evaluate(v, Binary(Shr, l, Int(k))) ==
      Some(Convert(SignedWord(v), Machine(v, constants, l).value) / Pow2(k))
  {
    FoldIsMachineArithmetic(v, constants, l);
    var a, a' := Evaluate(v, l).value, Machine(v, constants, l).value;
    SameRead(v, false, a, a');
    ReadKeepsBits(v, false, a);
    ConvertFits(SignedWord(v), a);
    FittingIsUnique(SignedWord(v), a, Read(v, false, a));
    assert Evaluate(v, Int(k)) == Some(k);
    NothingAbove(v, a, k);
  }

  lemma NothingAbove(v: Evaluator, a: int, k: nat)
    ensures ((a - a) / v.Word()) % Pow2(k) == 0
  {
    DivIs(0, v.Word(), 0, 0);
    DivIs(0, Pow2(k), 0, 0);
  }

  // ---- narrowing casts ----------------------------------------------------

  lemma ConvertKeepsBits(t: IntType, a: int)
    ensures Same(t.bits, Convert(t, a), a)
  {
    var m := Pow2(t.bits);
    SameAsWrapped(t.bits, a);
    SameByQuotient(t.bits, a % m - m, a % m, -1);
  }

  lemma ConvertFits(t: IntType, a: int)
    ensures Fits(t, Convert(t, a))
  {
    SameAsWrapped(t.bits, a);
  }

  lemma SameInFewerBits(w: nat, n: nat, a: int, b: int)
    requires n <= w && Same(w, a, b)
    ensures Same(n, a, b)
  {
    var q := Quotient(w, a, b);
    PowSplits(w - n, n);
    assert Pow2(w - n) * Pow2(n) * q == Pow2(n) * (Pow2(w - n) * q);
    SameByQuotient(n, a, b, Pow2(w - n) * q);
  }

  lemma FittingIsUnique(t: IntType, a: int, b: int)
    requires Fits(t, a) && Fits(t, b) && Same(t.bits, a, b)
    ensures a == b
  {
    var q := Quotient(t.bits, a, b);
    SmallMultipleIsZero(Pow2(t.bits), q);
  }

  /** A cast folds to the number the machine's register is in that type exactly when the operand's value fits the type:
      the fold keeps what the generated code cuts off. */
  lemma CastAgreesExactly(v: Evaluator, constants: map<string, int>, e: Expr, t: IntType)
    requires InFragment(v, e) && SameConstants(v.width, v.constants, constants) && t.bits <= v.width
    ensures
      var folded, register := Evaluate(v, Cast(e, t)), Machine(v, constants, e);
      && folded.Some? == register.Some?
      && (folded.Some? ==> (folded.value == Convert(t, register.value) <==> Fits(t, folded.value)))
  {
    FoldIsMachineArithmetic(v, constants, e);
    var folded, register := Evaluate(v, Cast(e, t)), Machine(v, constants, e);
    if folded.Some? {
      SameInFewerBits(v.width, t.bits, folded.value, register.value);
      ConvertKeepsBits(t, register.value);
      ConvertFits(t, register.value);
      if Fits(t, folded.value) {
        FittingIsUnique(t, folded.value, Convert(t, register.value));
      }
    }
  }

  // ---- where it stops -----------------------------------------------------

  lemma {:induction false} PowSplits(j: nat, k: nat)
    ensures Pow2(j + k) == Pow2(j) * Pow2(k)
  {
    if k > 0 {
      PowSplits(j, k - 1);
      DoubleProduct(Pow2(j), Pow2(k - 1));
    }
  }

  lemma DoubleProduct(a: int, b: int)
    ensures a * (2 * b) == 2 * (a * b)
  {
  }

  /** Parentheses hide that what they hold is u64: around a negated literal only a u64 can hold, they change what a
      shift right of it folds to. */
  lemma ParenthesesChangeAShift(v: Evaluator, n: int)
    requires 0 < n < v.Word() <= 2 * n
    ensures
      var e := Unary(Neg, Int(n));
      && Evaluate(v, Binary(Shr, e, Int(1))) == Some((v.Word() - n) / 2)
      && Evaluate(v, Binary(Shr, Grouped(e), Int(1))) == Some(-n / 2)
      && Evaluate(v, Grouped(e)) == Evaluate(v, e)
  {
    MaskIsRemainder(v.width, -n);
    DivIs(-n, v.Word(), -1, v.Word() - n);
    var e := Unary(Neg, Int(n));
    assert Evaluate(v, Int(n)) == Some(n);
    assert Evaluate(v, e) == Some(-n) && IsU64(v, e);
    assert Evaluate(v, Grouped(e)) == Some(-n) && !IsU64(v, Grouped(e));
    assert Evaluate(v, Int(1)) == Some(1);
    assert Bits(And, -n, v.Word() - 1) == v.Word() - n;
    assert Pow2(1) == 2 * Pow2(0) == 2;
  }

  /** Division truncates: the quotient and remainder rebuild the dividend, the remainder is smaller than the divisor
      and takes the dividend's sign; and only that pair does. */
  lemma DivisionTruncates(a: int, b: int, q: int, r: int)
    requires b != 0
    ensures q == TruncDiv(a, b) && r == TruncMod(a, b) <==>
      a == b * q + r && Abs(r) < Abs(b) && (r != 0 ==> (r < 0) == (a < 0))
  {
    Truncates(a, b);
    if a == b * q + r && Abs(r) < Abs(b) && (r != 0 ==> (r < 0) == (a < 0)) {
      OnlyOneTruncates(a, b, q, r);
    }
  }

  /** A folded quotient and remainder are that pair; there is none if and only if the divisor folds to zero. */
  lemma FoldedDivision(v: Evaluator, l: Expr, r: Expr, a: int, b: int, q: int, m: int)
    requires Evaluate(v, l) == Some(a) && Evaluate(v, r) == Some(b)
    ensures
      var quotient, remainder := Evaluate(v, Binary(Div, l, r)), Evaluate(v, Binary(Mod, l, r));
      && (quotient.None? <==> b == 0) && (remainder.None? <==> b == 0)
      && (quotient == Some(q) && remainder == Some(m) <==>
          b != 0 && a == b * q + m && Abs(m) < Abs(b) && (m != 0 ==> (m < 0) == (a < 0)))
  {
    if b != 0 {
      DivisionTruncates(a, b, q, m);
    }
  }

  predicate FoldsTo(v: Evaluator, e: Expr, truth: bool) {
    Evaluate(v, e) == if truth then Some(1) else Some(0)
  }

  /** A comparison folds to 1 or 0 by the sign of the folded difference. */
  lemma FoldedComparison(v: Evaluator, l: Expr, r: Expr, d: int)
    requires Evaluate(v, Binary(Sub, l, r)) == Some(d)
    ensures FoldsTo(v, Binary(Eq, l, r), d == 0) && FoldsTo(v, Binary(Ne, l, r), d != 0)
    ensures FoldsTo(v, Binary(Lt, l, r), d < 0) && FoldsTo(v, Binary(Ge, l, r), d >= 0)
    ensures FoldsTo(v, Binary(Gt, l, r), d > 0) && FoldsTo(v, Binary(Le, l, r), d <= 0)
  {
    var a, b := Evaluate(v, l).value, Evaluate(v, r).value;
    BinaryFolds(v, Eq, l, r, a, b);
    BinaryFolds(v, Ne, l, r, a, b);
    BinaryFolds(v, Lt, l, r, a, b);
    BinaryFolds(v, Ge, l, r, a, b);
    BinaryFolds(v, Gt, l, r, a, b);
    BinaryFolds(v, Le, l, r, a, b);
  }

  /** And the logical operators by whether their operands fold to 0. */
  lemma FoldedLogic(v: Evaluator, l: Expr, r: Expr, a: int, b: int)
    requires Evaluate(v, l) == Some(a) && Evaluate(v, r) == Some(b)
    ensures FoldsTo(v, Binary(LogicalAnd, l, r), a != 0 && b != 0)
    ensures FoldsTo(v, Binary(LogicalOr, l, r), a != 0 || b != 0)
    ensures FoldsTo(v, Unary(LogicalNot, l), a == 0)
  {
    BinaryFolds(v, LogicalAnd, l, r, a, b);
    BinaryFolds(v, LogicalOr, l, r, a, b);
  }

  lemma BinaryFolds(v: Evaluator, op: BinOp, l: Expr, r: Expr, a: int, b: int)
    requires Evaluate(v, l) == Some(a) && Evaluate(v, r) == Some(b)
    ensures Evaluate(v, Binary(op, l, r)) == Apply(v.width, op, IsU64(v, l), a, b)
  {
  }

  /** What the type of an expression is read off: the operands that are no shift's count, through casts no further,
      and nothing in parentheses. */
  function Deciding(e: Expr): set<Expr> {
    match e
    case Unary(_, e1) => Deciding(e1)
    case Binary(op, l, r) => if op.Shl? || op.Shr? then Deciding(l) else Deciding(l) + Deciding(r)
    case _ => {e}
  }

  /** An expression is taken to be u64 if and only if one of those is a literal too large for i64, a name declared u64
      or a cast to u64. */
  lemma {:induction false} U64ByLeaves(v: Evaluator, e: Expr)
    ensures IsU64(v, e) <==> (
      exists d :: d in Deciding(e) &&
        ((d.Int? && 2 * d.value >= v.Word()) || (d.Name? && d.name in v.u64) || (d.Cast? && d.target.name == "u64")))
  {
    match e
    case Unary(_, e1) => U64ByLeaves(v, e1);
    case Binary(_, l, r) =>
      U64ByLeaves(v, l);
      U64ByLeaves(v, r);
    case _ =>
  }

  lemma Truncates(a: int, b: int)
    requires b != 0
    ensures a == b * TruncDiv(a, b) + TruncMod(a, b)
    ensures Abs(TruncMod(a, b)) < Abs(b) && (TruncMod(a, b) != 0 ==> (TruncMod(a, b) < 0) == (a < 0))
  {
    var m: int, n: int := Abs(a), Abs(b);
    assert m == n * (m / n) + m % n;
    WithSigns(a, b, m / n, m % n);
  }

  lemma WithSigns(a: int, b: int, d: int, r: int)
    requires Abs(a) == Abs(b) * d + r
    ensures a == b * (if (a < 0) == (b < 0) then d else -d) + (if a < 0 then -r else r)
  {
    ProductSigns(b, d);
  }

  lemma ProductSigns(b: int, d: int)
    ensures b * -d == -(b * d) && -b * d == -(b * d)
  {
  }

  lemma OnlyOneTruncates(a: int, b: int, q: int, r: int)
    requires b != 0 && a == b * q + r && Abs(r) < Abs(b) && (r != 0 ==> (r < 0) == (a < 0))
    ensures q == TruncDiv(a, b) && r == TruncMod(a, b)
  {
    var m: int, n: int := Abs(a), Abs(b);
    var d := if (a < 0) == (b < 0) then q else -q;
    assert b * q == if a < 0 then -(n * d) else n * d by {
      assert b * -q == -b * q;
    }
    DivIs(m, n, d, Abs(r));
  }
}
