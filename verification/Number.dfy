/**
  Integer arithmetic of any width: the source computes on 64 bits and converts the
  result back, and this gives what native arithmetic of the operand's width gives.
 */
module Number {
  import opened Wrappers

  // ---------------------------------------------------------------------
  // Powers of two and wrap-around
  // ---------------------------------------------------------------------

  function Pow2(n: nat): (r: nat)
    ensures r > 0
  {
    if n == 0 then 1 else 2 * Pow2(n - 1)
  }

  /** A Go integer type. */
  datatype Kind = Kind(signed: bool, width: nat)

  predicate InRange(k: Kind, x: int)
    requires k.width > 0
  {
    if k.signed then 0 - Pow2(k.width - 1) <= x < Pow2(k.width - 1) else 0 <= x < Pow2(k.width)
  }

  /** The value of the type that is congruent to `x`: what Go's wrap-around and its conversions leave. */
  function Fit(k: Kind, x: int): (r: int)
    requires k.width > 0
    ensures InRange(k, r)
  {
    var half := Pow2(k.width - 1);
    if k.signed then (x + half) % Pow2(k.width) - half else x % Pow2(k.width)
  }

  lemma {:induction false} PowSplit(a: nat, b: nat)
    ensures Pow2(a + b) == Pow2(a) * Pow2(b)
  {
    if a > 0 { PowSplit(a - 1, b); }
  }

  lemma ModShift(x: int, q: int, m: int)
    requires m > 0
    ensures (x + q * m) % m == x % m
  {
    var a, b := (x + q * m) / m, x / m;
    assert (x + q * m) - x == (a - b) * m + ((x + q * m) % m - x % m);
    assert (q - a + b) * m == (x + q * m) % m - x % m;
    MulBounds(q - a + b, m);
  }

  lemma MulBounds(t: int, m: int)
    requires m > 0
    ensures (t >= 1 ==> t * m >= m) && (t <= -1 ==> t * m <= -m)
  {
    if t >= 1 { assert (t - 1) * m >= 0; }
    if t <= -1 { assert (-1 - t) * m >= 0; }
  }

  lemma ModSmall(x: int, m: int)
    requires 0 <= x < m
    ensures x % m == x
  {
  }

  /** Values that differ by a multiple of the modulus fit the same. */
  lemma FitShift(k: Kind, x: int, q: int)
    requires k.width > 0
    ensures Fit(k, x + q * Pow2(k.width)) == Fit(k, x)
  {
    var half := Pow2(k.width - 1);
    ModShift(x + half, q, Pow2(k.width));
    ModShift(x, q, Pow2(k.width));
    assert x + q * Pow2(k.width) + half == x + half + q * Pow2(k.width);
  }

  lemma FitCongruent(k: Kind, x: int) returns (q: int)
    requires k.width > 0
    ensures Fit(k, x) == x + q * Pow2(k.width)
  {
    var half := Pow2(k.width - 1);
    var y := if k.signed then x + half else x;
    q := -(y / Pow2(k.width));
  }

  lemma FitSame(k: Kind, x: int)
    requires k.width > 0 && InRange(k, x)
    ensures Fit(k, x) == x
  {
    var half := Pow2(k.width - 1);
    assert Pow2(k.width) == 2 * half;
    hide Pow2;
    ModSmall(if k.signed then x + half else x, Pow2(k.width));
  }

  lemma PowMultiple(q: int, wide: nat, w: nat) returns (p: int)
    requires w <= wide
    ensures q * Pow2(wide) == p * Pow2(w)
  {
    PowSplit(wide - w, w);
    p := q * Pow2(wide - w);
    MulAssoc(q, Pow2(wide - w), Pow2(w));
  }

  lemma MulAssoc(x: int, a: int, m: int)
    ensures x * (a * m) == x * a * m
  {
  }

  /** Converting down from a wider type of either sign keeps the low bits. */
  lemma FitNarrow(wide: Kind, k: Kind, x: int)
    requires 0 < k.width <= wide.width
    ensures Fit(k, Fit(wide, x)) == Fit(k, x)
  {
    var q := FitCongruent(wide, x);
    hide *;
    var p := PowMultiple(q, wide.width, k.width);
    FitShift(k, x, p);
  }

  // ---------------------------------------------------------------------
  // Go's operators on a type
  // ---------------------------------------------------------------------

  datatype Operator = Add | Sub | Mul | Div | Rem | And | Or | Xor | AndNot | Shl | Shr

  /** Division truncates toward zero. */
  function Quo(x: int, y: int): int
    requires y != 0
  {
    if x >= 0 then (if y > 0 then x / y else -(x / -y))
    else (if y > 0 then -(-x / y) else -x / -y)
  }

  function Mod(x: int, y: int): int
    requires y != 0
  {
    x - y * Quo(x, y)
  }

  function LowBit(op: Operator, x: int, y: int): (r: nat)
    requires op.And? || op.Or? || op.Xor? || op.AndNot?
    ensures r < 2
  {
    var a, b := x % 2 == 1, y % 2 == 1;
    var bit := match op
      case And => a && b
      case Or => a || b
      case Xor => a != b
      case AndNot => a && !b;
    if bit then 1 else 0
  }

  /** Digit by digit on `n` bits of two's complement. */
  function Bitwise(op: Operator, n: nat, x: int, y: int): (r: nat)
    requires op.And? || op.Or? || op.Xor? || op.AndNot?
    ensures r < Pow2(n)
  {
    if n == 0 then 0
    else
      2 * Bitwise(op, n - 1, x / 2, y / 2) + LowBit(op, x, y)
  }

  /** Shifting by `n` is shifting by one `n` times. */
  function ShiftLeft(k: Kind, x: int, n: nat): int
    requires k.width > 0
  {
    if n == 0 then x else Fit(k, 2 * ShiftLeft(k, x, n - 1))
  }

  /** Rounds down, so that the sign stays. */
  function ShiftRight(x: int, n: nat): int {
    if n == 0 then x else ShiftRight(x, n - 1) / 2
  }

  datatype Error = DivideByZero | NegativeShift

  /** What Go computes for two operands of the type; the errors are its run-time panics. */
  function Native(k: Kind, op: Operator, x: int, y: int): Result<int, Error>
    requires k.width > 0
  {
    match op
    case Add => Ok(Fit(k, x + y))
    case Sub => Ok(Fit(k, x - y))
    case Mul => Ok(Fit(k, x * y))
    case Div => if y == 0 then Err(DivideByZero) else Ok(Fit(k, Quo(x, y)))
    case Rem => if y == 0 then Err(DivideByZero) else Ok(Fit(k, Mod(x, y)))
    case Shl => if y < 0 then Err(NegativeShift) else Ok(ShiftLeft(k, x, y))
    case Shr => if y < 0 then Err(NegativeShift) else Ok(ShiftRight(x, y))
    case _ => Ok(Fit(k, Bitwise(op, k.width, x, y)))
  }

  // ---------------------------------------------------------------------
  // The source: 64 bits, then a conversion
  // ---------------------------------------------------------------------

  /** The errors of Compute on two integers of one type. */
  datatype Failure = Panic(error: Error) | Unsupported

  function OperatorOf(symbol: string): Option<Operator> {
    match symbol
    case "+" => Some(Add)
    case "-" => Some(Sub)
    case "*" => Some(Mul)
    case "/" => Some(Div)
    case "%" => Some(Rem)
    case "&" => Some(And)
    case "|" => Some(Or)
    case "^" => Some(Xor)
    case "&^" => Some(AndNot)
    case "<<" => Some(Shl)
    case ">>" => Some(Shr)
    case _ => None
  }

  function ComputeInt(k: Kind, symbol: string, xi: int, yi: int): Result<int, Failure>
    requires k.width > 0
  {
    var wide := Kind(k.signed, 64);
    if (symbol == "/" || symbol == "%") && yi == 0 then Err(Panic(DivideByZero))
    else if k.signed && (symbol == "<<" || symbol == ">>") && yi < 0 then Err(Panic(NegativeShift))
    else
      match OperatorOf(symbol)
      case None => Err(Unsupported)
      case Some(op) =>
        match Native(wide, op, xi, yi)
        case Err(e) => Err(Panic(e))
        case Ok(res) => Ok(Fit(k, res))
  }

  // ---------------------------------------------------------------------
  // The two agree
  // ---------------------------------------------------------------------

  lemma {:induction false} BitwiseNarrow(op: Operator, n: nat, w: nat, x: int, y: int)
    requires w <= n && (op.And? || op.Or? || op.Xor? || op.AndNot?)
    ensures Bitwise(op, n, x, y) % Pow2(w) == Bitwise(op, w, x, y)
  {
    if w > 0 {
      var bit := BitwiseStep(op, n, x, y);
      var low := BitwiseStep(op, w, x, y);
      hide Bitwise;
      BitwiseNarrow(op, n - 1, w - 1, x / 2, y / 2);
      DoubleMod(Bitwise(op, n - 1, x / 2, y / 2), Pow2(w - 1), bit);
    }
  }

  lemma BitwiseStep(op: Operator, n: nat, x: int, y: int) returns (bit: nat)
    requires n > 0 && (op.And? || op.Or? || op.Xor? || op.AndNot?)
    ensures bit < 2 && Bitwise(op, n, x, y) == 2 * Bitwise(op, n - 1, x / 2, y / 2) + bit
    ensures bit == LowBit(op, x, y)
  {
    bit := LowBit(op, x, y);
  }

  lemma DoubleMod(a: nat, m: nat, bit: nat)
    requires m > 0 && bit < 2
    ensures (2 * a + bit) % (2 * m) == 2 * (a % m) + bit
  {
    var q := a / m;
    assert 2 * a + bit == 2 * (a % m) + bit + q * (2 * m);
    ModShift(2 * (a % m) + bit, q, 2 * m);
    ModSmall(2 * (a % m) + bit, 2 * m);
  }

  /** Doubling before or after the conversion is the same. */
  lemma FitDouble(k: Kind, s: int)
    requires k.width > 0
    ensures Fit(k, 2 * Fit(k, s)) == Fit(k, 2 * s)
  {
    var q := FitCongruent(k, s);
    var m := Pow2(k.width);
    hide Fit, Pow2;
    assert 2 * Fit(k, s) == 2 * s + (2 * q) * m;
    FitShift(k, 2 * s, 2 * q);
  }

  lemma {:induction false} ShiftLeftNarrow(wide: Kind, k: Kind, x: int, n: nat)
    requires 0 < k.width <= wide.width && InRange(k, x)
    ensures Fit(k, ShiftLeft(wide, x, n)) == ShiftLeft(k, x, n)
  {
    hide Fit, Pow2, InRange;
    if n == 0 {
      FitSame(k, x);
    } else {
      ShiftLeftNarrow(wide, k, x, n - 1);
      var s := ShiftLeft(wide, x, n - 1);
      FitNarrow(wide, k, 2 * s);
      FitDouble(k, s);
    }
  }

  lemma {:induction false} ShiftRightInRange(k: Kind, x: int, n: nat)
    requires k.width > 0 && InRange(k, x)
    ensures InRange(k, ShiftRight(x, n))
  {
    if n > 0 { ShiftRightInRange(k, x, n - 1); }
  }

  lemma WideAgrees(k: Kind, op: Operator, x: int, y: int)
    requires 0 < k.width <= 64 && InRange(k, x) && InRange(k, y)
    ensures var wide := Native(Kind(k.signed, 64), op, x, y);
      match Native(k, op, x, y)
      case Err(e) => wide == Err(e)
      case Ok(r) => wide.Ok? && Fit(k, wide.value) == r
  {
    var wide := Kind(k.signed, 64);
    hide Fit, InRange, Pow2, Quo, Mod, ShiftLeft, ShiftRight, Bitwise;
    match op
    case Add => FitNarrow(wide, k, x + y);
    case Sub => FitNarrow(wide, k, x - y);
    case Mul => FitNarrow(wide, k, x * y);
    case Div => if y != 0 { FitNarrow(wide, k, Quo(x, y)); }
    case Rem => if y != 0 { FitNarrow(wide, k, Mod(x, y)); }
    case Shl => if y >= 0 { ShiftLeftNarrow(wide, k, x, y); }
    case Shr =>
      if y >= 0 {
        ShiftRightInRange(k, x, y);
        FitSame(k, ShiftRight(x, y));
      }
    case _ => BitwiseFits(wide, k, op, x, y);
  }

  /** For every width up to 64, either sign and every operator: computing on 64 bits and converting
      gives the native result, and fails exactly where native arithmetic panics. */
  lemma ComputeIsNative(k: Kind, symbol: string, x: int, y: int)
    requires 0 < k.width <= 64 && InRange(k, x) && InRange(k, y)
    ensures ComputeInt(k, symbol, x, y) ==
      match OperatorOf(symbol)
      case None => Err(Unsupported)
      case Some(op) =>
        match Native(k, op, x, y)
        case Err(e) => Err(Panic(e))
        case Ok(r) => Ok(r)
  {
    var op := OperatorOf(symbol);
    if op.Some? {
      WideAgrees(k, op.value, x, y);
      if op.value.Div? || op.value.Rem? || op.value.Shl? || op.value.Shr? {
        NativePanics(Kind(k.signed, 64), op.value, x, y);
        NativePanics(k, op.value, x, y);
      }
      hide Native, Fit, Pow2;
    }
  }

  /** The only panics are a zero divisor and a negative shift. */
  lemma NativePanics(k: Kind, op: Operator, x: int, y: int)
    requires k.width > 0
    ensures Native(k, op, x, y) ==
      if (op.Div? || op.Rem?) && y == 0 then Err(DivideByZero)
      else if (op.Shl? || op.Shr?) && y < 0 then Err(NegativeShift)
      else Ok(Native(k, op, x, y).value)
  {
  }

  lemma BitwiseSplit(op: Operator, n: nat, w: nat, x: int, y: int) returns (q: int)
    requires w <= n && (op.And? || op.Or? || op.Xor? || op.AndNot?)
    ensures Bitwise(op, n, x, y) == Bitwise(op, w, x, y) + q * Pow2(w)
  {
    hide *;
    BitwiseNarrow(op, n, w, x, y);
    q := DivMod(Bitwise(op, n, x, y), Pow2(w));
  }

  lemma DivMod(r: int, m: int) returns (q: int)
    requires m > 0
    ensures r == r % m + q * m
  {
    q := r / m;
  }

  lemma BitwiseFits(wide: Kind, k: Kind, op: Operator, x: int, y: int)
    requires 0 < k.width <= wide.width && (op.And? || op.Or? || op.Xor? || op.AndNot?)
    ensures Fit(k, Fit(wide, Bitwise(op, wide.width, x, y))) == Fit(k, Bitwise(op, k.width, x, y))
  {
    hide *;
    FitNarrow(wide, k, Bitwise(op, wide.width, x, y));
    var q := BitwiseSplit(op, wide.width, k.width, x, y);
    FitShift(k, Bitwise(op, k.width, x, y), q);
  }

  // ---------------------------------------------------------------------
  // What the operators mean
  // ---------------------------------------------------------------------

  lemma {:induction false} ShiftLeftIsTimes(k: Kind, x: int, n: nat)
    requires k.width > 0 && InRange(k, x)
    ensures ShiftLeft(k, x, n) == Fit(k, x * Pow2(n))
  {
    if n == 0 {
      FitSame(k, x);
    } else {
      ShiftLeftIsTimes(k, x, n - 1);
      FitDouble(k, x * Pow2(n - 1));
      assert 2 * (x * Pow2(n - 1)) == x * Pow2(n);
    }
  }

  lemma {:induction false} PowGrows(a: nat, b: nat)
    requires a <= b
    ensures Pow2(a) <= Pow2(b)
  {
    if a < b { PowGrows(a, b - 1); }
  }

  lemma {:induction false} ShiftRightShrinks(x: int, n: nat)
    requires 0 - Pow2(n) <= x < Pow2(n)
    ensures ShiftRight(x, n) == if x < 0 then -1 else 0
  {
    ShiftRightBounds(x, n, n);
  }

  lemma {:induction false} ShiftRightBounds(x: int, n: nat, i: nat)
    requires i <= n && 0 - Pow2(n) <= x < Pow2(n)
    ensures var r := ShiftRight(x, i);
      (x >= 0 ==> 0 <= r < Pow2(n - i)) && (x < 0 ==> 0 - Pow2(n - i) <= r < 0)
  {
    if i > 0 { ShiftRightBounds(x, n, i - 1); }
  }

  /** Bit `i` of two's complement. */
  function Bit(x: int, i: nat): nat
    decreases i
  {
    if i == 0 then x % 2 else Bit(x / 2, i - 1)
  }

  /** The bit operators work bit by bit. */
  lemma {:induction false} BitOfBitwise(op: Operator, n: nat, x: int, y: int, i: nat)
    requires (op.And? || op.Or? || op.Xor? || op.AndNot?) && i < n
    ensures Bit(Bitwise(op, n, x, y), i) == LowBit(op, Bit(x, i), Bit(y, i))
  {
    var r := Bitwise(op, n, x, y);
    var bit := BitwiseStep(op, n, x, y);
    hide Bitwise, LowBit;
    assert r % 2 == bit && r / 2 == Bitwise(op, n - 1, x / 2, y / 2);
    if i == 0 {
      LowBitOfBit(op, x, y);
    } else {
      BitOfBitwise(op, n - 1, x / 2, y / 2, i - 1);
    }
  }

  lemma LowBitOfBit(op: Operator, x: int, y: int)
    requires op.And? || op.Or? || op.Xor? || op.AndNot?
    ensures LowBit(op, x, y) == LowBit(op, x % 2, y % 2)
  {
  }

  lemma {:induction false} BitOfCongruent(x: int, q: int, w: nat, i: nat)
    requires i < w
    ensures Bit(x + q * Pow2(w), i) == Bit(x, i)
    decreases i
  {
    var half := Pow2(w - 1);
    assert q * Pow2(w) == 2 * (q * half);
    if i > 0 {
      hide Pow2;
      assert (x + 2 * (q * half)) / 2 == x / 2 + q * half;
      BitOfCongruent(x / 2, q, w - 1, i - 1);
    }
  }

  /** Conversion to a type keeps the bits of the type. */
  lemma BitOfFit(k: Kind, x: int, i: nat)
    requires i < k.width
    ensures Bit(Fit(k, x), i) == Bit(x, i)
  {
    var q := FitCongruent(k, x);
    hide Fit, Pow2;
    BitOfCongruent(x, q, k.width, i);
  }

  /** What each operator does to a pair of bits. */
  function OnBits(symbol: string, a: nat, b: nat): nat {
    match symbol
    case "&" => if a == 1 && b == 1 then 1 else 0
    case "|" => if a == 1 || b == 1 then 1 else 0
    case "^" => if a != b then 1 else 0
    case _ => if a == 1 && b != 1 then 1 else 0
  }

  lemma {:induction false} BitIsBit(x: int, i: nat)
    ensures Bit(x, i) == 0 || Bit(x, i) == 1
    decreases i
  {
    if i > 0 { BitIsBit(x / 2, i - 1); }
  }

  lemma OnLowBits(op: Operator, symbol: string, a: nat, b: nat)
    requires OperatorOf(symbol) == Some(op) && (op.And? || op.Or? || op.Xor? || op.AndNot?) && a < 2 && b < 2
    ensures LowBit(op, a, b) == OnBits(symbol, a, b)
  {
  }

  /** Every bit of the result of a bit operator, on operands of any width up to 64. */
  lemma BitsMean(k: Kind, symbol: string, x: int, y: int, i: nat)
    requires 0 < k.width <= 64 && InRange(k, x) && InRange(k, y) && i < k.width
    requires symbol == "&" || symbol == "|" || symbol == "^" || symbol == "&^"
    ensures var r := ComputeInt(k, symbol, x, y);
      r.Ok? && InRange(k, r.value) && Bit(r.value, i) == OnBits(symbol, Bit(x, i), Bit(y, i))
  {
    var op := OperatorOf(symbol).value;
    assert op.And? || op.Or? || op.Xor? || op.AndNot?;
    ComputeIsNative(k, symbol, x, y);
    OnLowBits(op, symbol, Bit(x, i), Bit(y, i)) by { BitIsBit(x, i); BitIsBit(y, i); }
    hide *;
    BitsNative(k, op, x, y, i);
  }

  lemma BitsNative(k: Kind, op: Operator, x: int, y: int, i: nat)
    requires i < k.width && (op.And? || op.Or? || op.Xor? || op.AndNot?)
    ensures var r := Native(k, op, x, y);
      r.Ok? && InRange(k, r.value) && Bit(r.value, i) == LowBit(op, Bit(x, i), Bit(y, i))
  {
    assert Native(k, op, x, y) == Ok(Fit(k, Bitwise(op, k.width, x, y)));
    hide *;
    BitOfBitwise(op, k.width, x, y, i);
    BitOfFit(k, Bitwise(op, k.width, x, y), i);
  }

  /** The quotient is the only one whose remainder is smaller than the divisor and has the dividend's sign. */
  predicate Truncates(x: int, y: int, q: int, r: int) {
    q * y + r == x && Abs(r) < Abs(y) && (if x < 0 then r <= 0 else 0 <= r)
  }

  lemma {:induction false} ShiftRightIsFloor(x: int, n: nat)
    ensures ShiftRight(x, n) * Pow2(n) <= x < (ShiftRight(x, n) + 1) * Pow2(n)
  {
    if n > 0 {
      ShiftRightIsFloor(x, n - 1);
      var s, p := ShiftRight(x, n - 1), Pow2(n - 1);
      var h := s / 2;
      hide ShiftRight, Pow2;
      FloorHalves(x, s, h, p);
    }
  }

  lemma FloorHalves(x: int, s: int, h: int, p: nat)
    requires s * p <= x < (s + 1) * p && p > 0 && 2 * h <= s <= 2 * h + 1
    ensures h * (2 * p) <= x < (h + 1) * (2 * p)
  {
    assert h * (2 * p) == 2 * h * p;
    assert (h + 1) * (2 * p) == (2 * h + 2) * p;
    if s == 2 * h {
      assert (2 * h + 2) * p == (s + 1) * p + p;
    } else {
      assert 2 * h * p == s * p - p;
    }
  }

  /** What an arithmetic operator or a shift gives: the exact result wrapped to the type, truncated toward zero
      for a quotient and rounded down for a shift to the right. */
  ghost predicate Means(k: Kind, op: Operator, x: int, y: int, r: Result<int, Error>)
    requires k.width > 0
  {
    match op
    case Add => r == Ok(Fit(k, x + y))
    case Sub => r == Ok(Fit(k, x - y))
    case Mul => r == Ok(Fit(k, x * y))
    case Div =>
      if y == 0 then r == Err(DivideByZero) else exists q, m :: Truncates(x, y, q, m) && r == Ok(Fit(k, q))
    case Rem =>
      if y == 0 then r == Err(DivideByZero) else exists q, m :: Truncates(x, y, q, m) && r == Ok(Fit(k, m))
    case Shl => r == if y < 0 then Err(NegativeShift) else Ok(Fit(k, x * Pow2(y)))
    case Shr =>
      if y < 0 then r == Err(NegativeShift) else r.Ok? && r.value * Pow2(y) <= x < (r.value + 1) * Pow2(y)
    case _ => r.Ok?
  }

  lemma NativeMeans(k: Kind, op: Operator, x: int, y: int)
    requires k.width > 0 && InRange(k, x)
    ensures Means(k, op, x, y, Native(k, op, x, y))
  {
    hide Fit, InRange, Pow2, ShiftLeft, ShiftRight, Bitwise, Quo, Mod, Truncates;
    match op
    case Div => if y != 0 { Truncated(x, y); }
    case Rem => if y != 0 { Truncated(x, y); }
    case Shl => if y >= 0 { ShiftLeftIsTimes(k, x, y); }
    case Shr => if y >= 0 { ShiftRightIsFloor(x, y); }
    case _ =>
  }

  lemma Truncated(x: int, y: int)
    requires y != 0
    ensures Truncates(x, y, Quo(x, y), Mod(x, y))
  {
    QuotientAndRemainder(x, y);
  }

  /** The operator that each symbol stands for. */
  function Symbol(op: Operator): string {
    match op
    case Add => "+"
    case Sub => "-"
    case Mul => "*"
    case Div => "/"
    case Rem => "%"
    case And => "&"
    case Or => "|"
    case Xor => "^"
    case AndNot => "&^"
    case Shl => "<<"
    case Shr => ">>"
  }

  lemma SymbolRead(op: Operator)
    ensures OperatorOf(Symbol(op)) == Some(op)
  {
  }

  /** Compute on operands of any width up to 64 gives what the operator with that symbol means. */
  lemma SymbolsMean(k: Kind, op: Operator, x: int, y: int)
    requires 0 < k.width <= 64 && InRange(k, x) && InRange(k, y)
    ensures
      match ComputeInt(k, Symbol(op), x, y)
      case Ok(r) => Means(k, op, x, y, Ok(r))
      case Err(Panic(e)) => Means(k, op, x, y, Err(e))
      case Err(Unsupported) => false
  {
    SymbolRead(op);
    ComputeIsNative(k, Symbol(op), x, y);
    NativeMeans(k, op, x, y);
    hide *;
  }

  /** Any other symbol is refused. */
  lemma OthersUnsupported(k: Kind, symbol: string, x: int, y: int)
    requires k.width > 0
    requires symbol !in {"+", "-", "*", "/", "%", "&", "|", "^", "&^", "<<", ">>"}
    ensures ComputeInt(k, symbol, x, y) == Err(Unsupported)
  {
    hide Native;
  }

  /** A shift by the width or more leaves nothing but the sign. */
  lemma ShiftPastWidth(k: Kind, x: int, n: nat)
    requires 0 < k.width <= n && InRange(k, x)
    ensures ShiftLeft(k, x, n) == 0
    ensures ShiftRight(x, n) == if x < 0 then -1 else 0
  {
    RangeBound(k, x, n);
    ShiftRightShrinks(x, n);
    hide *;
    ShiftLeftIsTimes(k, x, n);
    TimesVanishes(k, x, n);
  }

  lemma RangeBound(k: Kind, x: int, n: nat)
    requires 0 < k.width <= n && InRange(k, x)
    ensures 0 - Pow2(n) <= x < Pow2(n)
  {
    PowGrows(k.width - 1, n);
    PowGrows(k.width, n);
  }

  lemma TimesVanishes(k: Kind, x: int, n: nat)
    requires 0 < k.width <= n
    ensures Fit(k, x * Pow2(n)) == 0
  {
    FitSame(k, 0);
    hide *;
    var p := PowMultiple(x, n, k.width);
    FitShift(k, 0, p);
  }

  function Abs(x: int): int { if x < 0 then -x else x }

  /** Quotient and remainder put the dividend together again, and the remainder has its sign. */
  lemma QuotientAndRemainder(x: int, y: int)
    requires y != 0
    ensures Quo(x, y) * y + Mod(x, y) == x
    ensures Abs(Mod(x, y)) < Abs(y)
    ensures if x < 0 then Mod(x, y) <= 0 else 0 <= Mod(x, y)
  {
  }

  /** The least value divided by -1 wraps to itself. */
  lemma LeastByMinusOne(k: Kind)
    requires k.signed && k.width > 0
    ensures var least: int := 0 - Pow2(k.width - 1);
      Native(k, Div, least, -1) == Ok(least) && Native(k, Rem, least, -1) == Ok(0)
  {
    var half: int := Pow2(k.width - 1);
    var least := -half;
    assert Quo(least, -1) == half && Mod(least, -1) == 0;
    FitShift(k, least, 1);
    FitSame(k, least);
    FitSame(k, 0);
  }
}
