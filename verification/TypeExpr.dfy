/**
  The type-expression parser: `*T`, `[]T`, `[N]T`, `map[K]V`, the three channel
  forms and registered names, with a printer that inverts it.
 */
module TypeExpr {
  import opened Wrappers
  import opened Text
  import Number

  datatype Dir = Both | Recv | Send

  /** What a one-element type is made of besides its element. */
  datatype Shape = PointerTo | SliceOf | ArrayOf(len: nat) | ChanOf(dir: Dir)

  datatype Type = Named(name: string) | Unary(shape: Shape, elem: Type) | Map(key: Type, val: Type)

  /** `Panics` stands for the panic of `reflect.MapOf` on a key type without equality. */
  datatype Error = Empty | Malformed | BadLength | Unknown | Panics

  /** The registered names, and whether values of each type can be compared. */
  type Registry = map<string, bool>

  predicate Comparable(reg: Registry, t: Type) {
    match t
    case Named(name) => name in reg && reg[name]
    case Unary(shape, elem) =>
      (match shape
       case PointerTo => true
       case SliceOf => false
       case ArrayOf(_) => Comparable(reg, elem)
       case ChanOf(_) => true)
    case Map(_, _) => false
  }

  // ---------------------------------------------------------------------
  // Array lengths
  // ---------------------------------------------------------------------

  const TWO64: int := 2 * TWO63

  /** The value that Go's 64-bit signed addition and multiplication leave of `x`. */
  function Wrap64(x: int): (r: int)
    ensures -TWO63 <= r < TWO63
  {
    Pow2Of63();
    Number.Fit(Number.Kind(true, 64), x)
  }

  lemma SmallPowers()
    ensures Number.Pow2(7) == 128 && Number.Pow2(8) == 256
  {
  }

  lemma Pow2Of63()
    ensures Number.Pow2(63) == TWO63 && Number.Pow2(64) == TWO64
  {
    hide Number.Pow2;
    SmallPowers();
    Number.PowSplit(8, 8);
    Number.PowSplit(16, 16);
    Number.PowSplit(32, 16);
    Number.PowSplit(48, 8);
    Number.PowSplit(56, 7);
    Number.PowSplit(56, 8);
  }

  /** The low 64 bits, read as negative from 2^63 on. */
  lemma WrapMeans(x: int)
    ensures Wrap64(x) == if x % TWO64 < TWO63 then x % TWO64 else x % TWO64 - TWO64
  {
    Pow2Of63();
    hide Number.Pow2;
  }

  /** The accumulating loop: the only overflow test is the sign. */
  function Accumulate(s: string): (r: Option<int>)
    ensures r.Some? ==> 0 <= r.value < TWO63
    decreases |s|
  {
    if s == "" then Some(0)
    else
      var r := Accumulate(s[..|s| - 1]);
      var c := s[|s| - 1];
      if r.None? || !IsDigit(c) then None
      else
        var n := Wrap64(r.value * 10 + DigitValue(c));
        if n < 0 then None else Some(n)
  }

  function NonNegInt(s: string): (r: Option<int>)
    ensures r.Some? ==> 0 <= r.value < TWO63
  {
    var digits := TrimSpace(s);
    if digits == "" then None else Accumulate(digits)
  }

  lemma {:induction false} AccumulateFails(s: string, n: nat)
    requires n <= |s| && Accumulate(s[..n]).None?
    ensures Accumulate(s).None?
    decreases |s|
  {
    if n == |s| {
      assert s[..n] == s;
    } else {
      assert s[..|s| - 1][..n] == s[..n];
      AccumulateFails(s[..|s| - 1], n);
    }
  }

  lemma AccumulateNext(s: string, i: nat)
    requires i < |s|
    ensures Accumulate(s[..i + 1]) ==
      var r := Accumulate(s[..i]);
      if r.None? || !IsDigit(s[i]) || Wrap64(r.value * 10 + DigitValue(s[i])) < 0 then None
      else Some(Wrap64(r.value * 10 + DigitValue(s[i])))
  {
    hide Wrap64;
    assert s[..i + 1][..i] == s[..i];
  }

  /** Only digits are read as a length, and at least one of them. */
  lemma LengthsAreDigits(s: string)
    requires NonNegInt(s).Some?
    ensures TrimSpace(s) != "" && AllDigits(TrimSpace(s))
  {
    AccumulatesDigits(TrimSpace(s));
    hide Accumulate, TrimSpace;
  }

  lemma {:induction false} AccumulatesDigits(s: string)
    requires Accumulate(s).Some?
    ensures AllDigits(s)
    decreases |s|
  {
    hide Wrap64;
    if s != "" {
      AccumulatesDigits(s[..|s| - 1]);
      assert s == s[..|s| - 1] + [s[|s| - 1]];
    }
  }

  method ParseNonNegInt(s: string) returns (r: Option<int>)
    ensures r == NonNegInt(s)
  {
    var digits := TrimSpace(s);
    if digits == "" {
      return None;
    }
    assert Accumulate(digits[..0]) == Some(0);
    hide Accumulate, Wrap64;
    var n := 0;
    for i := 0 to |digits|
      invariant Accumulate(digits[..i]) == Some(n)
    {
      var c := digits[i];
      AccumulateNext(digits, i);
      if c < '0' || c > '9' {
        AccumulateFails(digits, i + 1);
        return None;
      }
      n := Wrap64(n * 10 + (c as int - '0' as int));
      if n < 0 {
        AccumulateFails(digits, i + 1);
        return None;
      }
    }
    assert digits[..|digits|] == digits;
    return Some(n);
  }

  /** Every prefix is read as a number whose low 64 bits are not negative. */
  predicate FitsAll(s: string)
    requires AllDigits(s)
    decreases |s|
  {
    s == "" || (FitsAll(s[..|s| - 1]) && Value(s) % TWO64 < TWO63)
  }

  lemma NextValue(v: nat, d: nat)
    ensures (10 * (v % TWO64) + d) % TWO64 == (10 * v + d) % TWO64
  {
    var q, m := v / TWO64, TWO64;
    assert 10 * v + d == 10 * (v % m) + d + 10 * q * m;
    Number.ModShift(10 * (v % m) + d, 10 * q, m);
  }

  /** What the loop makes of any digit string: the low 64 bits, unless some prefix has its sign bit set. */
  lemma {:induction false} AccumulateMeans(s: string)
    requires AllDigits(s)
    ensures Accumulate(s) == if FitsAll(s) then Some(Value(s) % TWO64) else None
    decreases |s|
  {
    if s != "" {
      var front, c := s[..|s| - 1], s[|s| - 1];
      assert IsDigit(c);
      AccumulateMeans(front);
      hide AllDigits, Wrap64;
      NextValue(Value(front), DigitValue(c));
      WrapMeans(10 * (Value(front) % TWO64) + DigitValue(c));
    }
  }

  /** The loop yields the number written exactly when that number fits in an int. */
  lemma {:induction false} AccumulateExact(s: string)
    requires AllDigits(s)
    ensures Accumulate(s) == Some(Value(s)) <==> Value(s) < TWO63
    decreases |s|
  {
    hide FitsAll, Value, Accumulate, AllDigits;
    AccumulateMeans(s);
    if Value(s) < TWO63 {
      SmallFits(s);
      Number.ModSmall(Value(s), TWO64);
    }
  }

  lemma {:induction false} SmallFits(s: string)
    requires AllDigits(s) && Value(s) < TWO63
    ensures FitsAll(s)
    decreases |s|
  {
    if s != "" {
      assert IsDigit(s[|s| - 1]) && Value(s[..|s| - 1]) <= Value(s);
      Number.ModSmall(Value(s), TWO64);
      SmallFits(s[..|s| - 1]);
    }
  }

  lemma LastDigit(n: nat)
    requires 10 <= n
    ensures var s := Decimal(n); s[..|s| - 1] == Decimal(n / 10)
  {
  }

  /** Below 10 * 2^63 only the last digit can overflow, so the second half of each 2^64 is refused there
      and the first half misread: 2^64 + 5 is read as 5. */
  lemma OverflowMissed(n: nat)
    requires TWO63 <= n < 10 * TWO63
    ensures Accumulate(Decimal(n)) == if n % TWO64 < TWO63 then Some(n % TWO64) else None
  {
    var s := Decimal(n);
    DecimalValue(n);
    DecimalValue(n / 10);
    LastDigit(n);
    AccumulateMeans(s);
    hide Decimal, AllDigits, Value, Accumulate;
    SmallFits(Decimal(n / 10));
  }

  /** From there on an earlier digit can be refused first, whatever the low 64 bits are. */
  lemma OverflowRefused(n: nat)
    requires 10 * TWO63 <= n < 10 * TWO64
    ensures Accumulate(Decimal(n)) == None
  {
    var s, q := Decimal(n), n / 10;
    assert TWO63 <= q < TWO64;
    LastDigit(n);
    hide Decimal, Accumulate;
    Number.ModSmall(q, TWO64);
    OverflowMissed(q);
    AccumulateFails(s, |s| - 1);
  }

  // ---------------------------------------------------------------------
  // Brackets, and the end of a map key
  // ---------------------------------------------------------------------

  predicate IsBracket(c: char) { c == '[' || c == ']' }

  function Brackets(s: string): string {
    if s == "" then "" else (if IsBracket(s[0]) then [s[0]] else "") + Brackets(s[1..])
  }

  lemma {:induction false} BracketsConcat(a: string, b: string)
    ensures Brackets(a + b) == Brackets(a) + Brackets(b)
  {
    if a == "" {
      assert a + b == b;
    } else {
      var first := if IsBracket(a[0]) then [a[0]] else "";
      assert (a + b)[0] == a[0] && (a + b)[1..] == a[1..] + b;
      assert Brackets(a) == first + Brackets(a[1..]);
      assert Brackets(a + b) == first + Brackets(a[1..] + b);
      BracketsConcat(a[1..], b);
      hide Brackets;
      Assoc(first, Brackets(a[1..]), Brackets(b));
    }
  }

  lemma {:induction false} NoBrackets(s: string)
    requires forall c <- s :: !IsBracket(c)
    ensures Brackets(s) == ""
  {
    if s != "" { NoBrackets(s[1..]); }
  }

  /** The depth after reading `s` from depth `d`; None if a bracket closes what `s` did not open. */
  function Depth(s: string, d: nat): Option<nat> {
    if s == "" then Some(d)
    else if s[0] == '[' then Depth(s[1..], d + 1)
    else if s[0] == ']' then if d == 0 then None else Depth(s[1..], d - 1)
    else Depth(s[1..], d)
  }

  lemma {:induction false} DepthOfBrackets(s: string, d: nat)
    ensures Depth(Brackets(s), d) == Depth(s, d)
  {
    if s != "" {
      if s[0] == '[' {
        DepthOfBrackets(s[1..], d + 1);
      } else if s[0] == ']' {
        if d > 0 { DepthOfBrackets(s[1..], d - 1); }
      } else {
        DepthOfBrackets(s[1..], d);
      }
      if IsBracket(s[0]) {
        assert Brackets(s)[0] == s[0] && Brackets(s)[1..] == Brackets(s[1..]);
      } else {
        assert Brackets(s) == Brackets(s[1..]);
      }
    }
  }

  lemma {:induction false} DepthConcat(a: string, b: string, d: nat)
    ensures Depth(a + b, d) == if Depth(a, d).None? then None else Depth(b, Depth(a, d).value)
  {
    if a == "" {
      assert a + b == b;
    } else {
      assert (a + b)[1..] == a[1..] + b && (a + b)[0] == a[0];
      if a[0] == '[' {
        DepthConcat(a[1..], b, d + 1);
      } else if a[0] == ']' {
        if d > 0 { DepthConcat(a[1..], b, d - 1); }
      } else {
        DepthConcat(a[1..], b, d);
      }
    }
  }

  /** Every bracket is closed, and none is closed that was not opened. */
  predicate Closed(s: string) { Depth(s, 0) == Some(0) }

  /** Where the scan from depth `d` meets a closing bracket at depth 0. */
  function KeyEnd(s: string, d: nat): (r: Option<nat>)
    ensures r.Some? ==> r.value < |s| && s[r.value] == ']'
  {
    if s == "" then None
    else if s[0] == ']' && d == 0 then Some(0)
    else
      var r := KeyEnd(s[1..], if s[0] == '[' then d + 1 else if s[0] == ']' then d - 1 else d);
      if r.None? then None else Some(r.value + 1)
  }

  /** What the scan from position `i` at depth `d` finds in all of `s`. */
  function KeyEndFrom(s: string, i: nat, d: nat): Option<nat>
    requires i <= |s|
  {
    var r := KeyEnd(s[i..], d);
    if r.None? then None else Some(i + r.value)
  }

  lemma KeyEndNext(s: string, i: nat, d: nat)
    requires i < |s|
    ensures KeyEndFrom(s, i, d)
         == if s[i] == ']' && d == 0 then Some(i)
            else KeyEndFrom(s, i + 1, if s[i] == '[' then d + 1 else if s[i] == ']' then d - 1 else d)
  {
    assert s[i..][1..] == s[i + 1..];
  }

  method FindKeyEnd(s: string) returns (r: Option<nat>)
    ensures r == KeyEnd(s, 0)
  {
    var depth := 0;
    assert s[0..] == s;
    assert forall d: nat :: KeyEndFrom(s, |s|, d) == None;
    hide KeyEnd, KeyEndFrom;
    for i := 0 to |s|
      invariant KeyEnd(s, 0) == KeyEndFrom(s, i, depth)
    {
      KeyEndNext(s, i, depth);
      if s[i] == '[' {
        depth := depth + 1;
      } else if s[i] == ']' {
        if depth == 0 {
          return Some(i);
        }
        depth := depth - 1;
      }
    }
    return None;
  }

  /** The key that the scan finds is the only closed prefix in front of a closing bracket. */
  lemma {:induction false} KeyEndCloses(s: string, d: nat, k: nat)
    requires k < |s|
    ensures KeyEnd(s, d) == Some(k) <==> s[k] == ']' && Depth(s[..k], d) == Some(0)
  {
    if k > 0 {
      assert s[..k][1..] == s[1..][..k - 1];
      if s[0] == '[' {
        KeyEndCloses(s[1..], d + 1, k - 1);
      } else if s[0] == ']' {
        if d > 0 { KeyEndCloses(s[1..], d - 1, k - 1); }
      } else {
        KeyEndCloses(s[1..], d, k - 1);
      }
    } else {
      assert s[..k] == "";
    }
  }

  // ---------------------------------------------------------------------
  // The parser
  // ---------------------------------------------------------------------

  /** What a trimmed expression starts with. */
  datatype Lead =
    | Prefixed(shape: Shape, rest: string)
    | KeyVal(key: string, val: string)
    | Name
    | Bad(error: Error)

  function LeadArray(s: string): Lead
    requires "[" <= s
  {
    var c := Cut(s[1..], ']');
    if c.None? then Bad(Malformed)
    else
      var n := NonNegInt(TrimSpace(c.value.0));
      if n.None? then Bad(BadLength) else Prefixed(ArrayOf(n.value), c.value.1)
  }

  function LeadMap(s: string): Lead
    requires "map[" <= s
  {
    var end := KeyEnd(s[4..], 0);
    if end.None? then Bad(Malformed) else KeyVal(s[4..4 + end.value], s[4 + end.value + 1..])
  }

  function Leading(s: string): (r: Lead)
    ensures r.Prefixed? ==> |r.rest| < |s|
    ensures r.KeyVal? ==> |r.key| < |s| && |r.val| < |s|
  {
    if "*" <= s then Prefixed(PointerTo, s[1..])
    else if "[]" <= s then Prefixed(SliceOf, s[2..])
    else if "[" <= s then LeadArray(s)
    else if "map[" <= s then LeadMap(s)
    else if "chan " <= s then Prefixed(ChanOf(Both), s[5..])
    else if "<-chan " <= s then Prefixed(ChanOf(Recv), s[7..])
    else if "chan<- " <= s then Prefixed(ChanOf(Send), s[7..])
    else Name
  }

  function ParseType(reg: Registry, text: string): Result<Type, Error>
    decreases |text|
  {
    var s := TrimSpace(text);
    if s == "" then Err(Empty)
    else
      match Leading(s)
      case Bad(e) => Err(e)
      case Name => if s in reg then Ok(Named(s)) else Err(Unknown)
      case Prefixed(shape, rest) =>
        (match ParseType(reg, rest)
         case Err(e) => Err(e)
         case Ok(elem) => Ok(Unary(shape, elem)))
      case KeyVal(k, v) =>
        match ParseType(reg, k)
        case Err(e) => Err(e)
        case Ok(key) =>
          match ParseType(reg, v)
          case Err(e) => Err(e)
          case Ok(val) => if Comparable(reg, key) then Ok(Map(key, val)) else Err(Panics)
  }

  // ---------------------------------------------------------------------
  // The printer
  // ---------------------------------------------------------------------

  function Prefix(shape: Shape): string {
    match shape
    case PointerTo => "*"
    case SliceOf => "[]"
    case ArrayOf(n) => "[" + Decimal(n) + "]"
    case ChanOf(Both) => "chan "
    case ChanOf(Recv) => "<-chan "
    case ChanOf(Send) => "chan<- "
  }

  function Print(t: Type): string {
    match t
    case Named(name) => name
    case Unary(shape, elem) => Prefix(shape) + Print(elem)
    case Map(key, val) => "map[" + Print(key) + "]" + Print(val)
  }

  /** A registered name that the parser takes for a name. */
  predicate Nameable(reg: Registry, name: string) {
    name in reg && name != "" && TrimSpace(name) == name && Leading(name) == Name
  }

  /** Any registered name without white space at its ends that does not start like a composite type. */
  lemma NameableMeans(reg: Registry, name: string)
    ensures Nameable(reg, name) <==>
      && name in reg && name != "" && !IsSpace(name[0]) && !IsSpace(name[|name| - 1])
      && name[0] != '*' && name[0] != '['
      && !("map[" <= name) && !("chan " <= name) && !("<-chan " <= name) && !("chan<- " <= name)
  {
    TrimSpaceEnds(name);
    hide LeadArray, LeadMap, TrimSpace, Brackets;
    if name != "" {
      assert "*" <= name <==> name[0] == '*';
      assert "[" <= name <==> name[0] == '[';
      assert "[]" <= name ==> name[0] == '[';
      LeadsAreNoNames(name);
    }
  }

  lemma LeadsAreNoNames(s: string)
    ensures "[" <= s ==> LeadArray(s) != Name
    ensures "map[" <= s ==> LeadMap(s) != Name
  {
  }

  /** The type inside any number of array types. */
  function Core(t: Type): Type {
    match t
    case Unary(ArrayOf(_), elem) => Core(elem)
    case _ => t
  }

  /** A map key is a pointer, a channel or a comparable name, or an array of these; the parser panics on others. */
  lemma {:induction false} ComparableMeans(reg: Registry, t: Type)
    ensures Comparable(reg, t) <==>
      match Core(t)
      case Named(name) => name in reg && reg[name]
      case Unary(shape, _) => shape.PointerTo? || shape.ChanOf?
      case Map(_, _) => false
  {
    if t.Unary? && t.shape.ArrayOf? { ComparableMeans(reg, t.elem); }
  }

  predicate WellFormed(reg: Registry, t: Type) {
    match t
    case Named(name) => Nameable(reg, name)
    case Unary(shape, elem) => (shape.ArrayOf? ==> shape.len < TWO63) && WellFormed(reg, elem)
    case Map(key, val) =>
      WellFormed(reg, key) && WellFormed(reg, val) && Closed(Print(key)) && Comparable(reg, key)
  }

  // ---------------------------------------------------------------------
  // Trimming
  // ---------------------------------------------------------------------

  predicate Trimmed(s: string) {
    s != "" ==> !IsSpace(s[0]) && !IsSpace(s[|s| - 1])
  }

  lemma SkipBlank(s: string)
    requires s != "" && !IsBracket(s[0])
    ensures Brackets(s) == Brackets(s[1..])
  {
  }

  lemma {:induction false} TrimLeftEnds(s: string)
    ensures var r := TrimLeft(s); (r != "" ==> !IsSpace(r[0]) && r[|r| - 1] == s[|s| - 1]) && Brackets(r) == Brackets(s)
  {
    hide Brackets;
    if s != "" && IsSpace(s[0]) {
      TrimLeftEnds(s[1..]);
      SkipBlank(s);
    }
  }

  lemma {:induction false} TrimRightEnds(s: string)
    ensures var r := TrimRight(s); r != "" ==> !IsSpace(r[|r| - 1]) && r[0] == s[0]
    decreases |s|
  {
    if s != "" && IsSpace(s[|s| - 1]) { TrimRightEnds(s[..|s| - 1]); }
  }

  lemma {:induction false} TrimRightBrackets(s: string)
    ensures Brackets(TrimRight(s)) == Brackets(s)
    decreases |s|
  {
    if s != "" && IsSpace(s[|s| - 1]) {
      var front, last := s[..|s| - 1], [s[|s| - 1]];
      NoBrackets(last);
      hide Brackets;
      TrimRightBrackets(front);
      assert front + last == s;
      BracketsConcat(front, last);
    }
  }

  lemma TrimSpaceEnds(s: string)
    ensures Trimmed(TrimSpace(s)) && Brackets(TrimSpace(s)) == Brackets(s)
    ensures Trimmed(s) ==> TrimSpace(s) == s
  {
    TrimLeftEnds(s);
    TrimRightEnds(TrimLeft(s));
    TrimRightBrackets(TrimLeft(s));
    hide Brackets;
  }

  // ---------------------------------------------------------------------
  // What a printed type starts with, and what a parsed text was made of
  // ---------------------------------------------------------------------

  lemma ArrayLead(n: nat, rest: string)
    requires n < TWO63
    ensures LeadArray("[" + Decimal(n) + "]" + rest) == Prefixed(ArrayOf(n), rest)
  {
    var d := Decimal(n);
    var s := "[" + d + "]" + rest;
    assert s[1..] == d + "]" + rest;
    assert ']' !in d;
    CutAtFirst(d, ']', rest);
    DigitsTrimmed(d);
    DecimalValue(n);
    AccumulateExact(d);
  }

  lemma DigitsTrimmed(s: string)
    requires AllDigits(s)
    ensures TrimSpace(s) == s
  {
    TrimSpaceEnds(s);
    if s != "" { assert IsDigit(s[0]) && IsDigit(s[|s| - 1]); }
  }

  lemma PrintedLead(shape: Shape, rest: string)
    requires shape.ArrayOf? ==> shape.len < TWO63
    ensures Leading(Prefix(shape) + rest) == Prefixed(shape, rest)
  {
    var p := Prefix(shape);
    var s := p + rest;
    assert s[|p|..] == rest;
    if shape.ArrayOf? {
      var d := Decimal(shape.len);
      ArrayLead(shape.len, rest);
      assert s == "[" + d + "]" + rest;
      assert s[0] == '[' && s[1] == d[0] && IsDigit(d[0]);
      hide LeadArray, Decimal;
    } else {
      assert p <= s && s[0] == p[0] && (|p| > 4 ==> s[4] == p[4]);
      hide LeadArray, LeadMap;
      assert shape == ChanOf(Send) ==> p[4] == '<';
    }
  }

  lemma PrintedMapLead(k: string, v: string)
    requires Closed(k)
    ensures Leading("map[" + k + "]" + v) == KeyVal(k, v)
  {
    var s := "map[" + k + "]" + v;
    var t := s[4..];
    assert t == k + "]" + v && t[|k|] == ']' && t[..|k|] == k;
    KeyEndCloses(t, 0, |k|);
    assert "map[" <= s && s[0] == 'm' && s[4..4 + |k|] == k && s[4 + |k| + 1..] == v;
    assert KeyEnd(t, 0) == Some(|k|);
    assert LeadMap(s) == KeyVal(k, v);
  }

  lemma ReadShape(s: string)
    requires Leading(s).Prefixed?
    ensures var r := Leading(s);
      (r.shape.ArrayOf? ==> r.shape.len < TWO63) && Brackets(s) == Brackets(Prefix(r.shape)) + Brackets(r.rest)
  {
    var r := Leading(s);
    if r.shape.ArrayOf? {
      ReadArray(s);
    } else {
      assert s == Prefix(r.shape) + r.rest;
      BracketsConcat(Prefix(r.shape), r.rest);
    }
  }

  lemma ReadArray(s: string)
    requires "[" <= s && LeadArray(s).Prefixed?
    ensures var r := LeadArray(s);
      r.shape.ArrayOf? && r.shape.len < TWO63 && Brackets(s) == Brackets(Prefix(r.shape)) + Brackets(r.rest)
  {
    var r := LeadArray(s);
    var n := Cut(s[1..], ']').value.0;
    assert s == "[" + n + "]" + r.rest;
    NumberHasNoBrackets(n);
    ArrayPrefixBrackets(r.shape.len);
    hide Brackets, Cut, NonNegInt, TrimSpace;
    BracketsOfArray(n, r.rest);
  }

  lemma ArrayPrefixBrackets(n: nat)
    ensures Brackets(Prefix(ArrayOf(n))) == "[]"
  {
    var d := Decimal(n);
    assert forall c <- d :: IsDigit(c);
    hide Decimal;
    NoBrackets(d);
    BracketsOfArray(d, "");
    assert "[" + d + "]" + "" == "[" + d + "]";
    assert Brackets("") == "";
  }

  lemma BracketsOfArray(n: string, rest: string)
    requires Brackets(n) == ""
    ensures Brackets("[" + n + "]" + rest) == "[]" + Brackets(rest)
  {
    BracketsConcat("[" + n + "]", rest);
    BracketsConcat("[" + n, "]");
    BracketsConcat("[", n);
    OneBracket('[');
    OneBracket(']');
  }

  lemma OneBracket(c: char)
    requires IsBracket(c)
    ensures Brackets([c]) == [c]
  {
    assert [c][1..] == "";
  }

  lemma NumberHasNoBrackets(n: string)
    requires NonNegInt(TrimSpace(n)).Some?
    ensures Brackets(n) == ""
  {
    TrimSpaceEnds(n);
    TrimSpaceEnds(TrimSpace(n));
    AccumulateDigits(TrimSpace(TrimSpace(n)));
    NoBrackets(TrimSpace(TrimSpace(n)));
  }

  lemma {:induction false} AccumulateDigits(s: string)
    requires Accumulate(s).Some?
    ensures AllDigits(s)
    decreases |s|
  {
    if s != "" {
      AccumulateDigits(s[..|s| - 1]);
      assert s == s[..|s| - 1] + [s[|s| - 1]];
    }
  }

  lemma ReadMap(s: string)
    requires Leading(s).KeyVal?
    ensures var r := Leading(s); s == "map[" + r.key + "]" + r.val && Closed(r.key)
  {
    var t := s[4..];
    var k := KeyEnd(t, 0).value;
    KeyEndCloses(t, 0, k);
    assert t[..k] == s[4..4 + k];
  }

  // ---------------------------------------------------------------------
  // Printing and parsing
  // ---------------------------------------------------------------------

  lemma {:induction false} PrintTrimmed(reg: Registry, t: Type)
    requires WellFormed(reg, t)
    ensures Print(t) != "" && Trimmed(Print(t))
  {
    hide Trimmed, Prefix;
    match t
    case Named(name) => TrimSpaceEnds(name);
    case Unary(shape, elem) =>
      PrintTrimmed(reg, elem);
      PrefixLead(shape);
      TrimmedConcat(Prefix(shape), Print(elem));
    case Map(key, val) =>
      PrintTrimmed(reg, val);
      TrimmedConcat("map[" + Print(key) + "]", Print(val));
  }

  lemma PrefixLead(shape: Shape)
    ensures Prefix(shape) != "" && !IsSpace(Prefix(shape)[0])
  {
  }

  lemma TrimmedConcat(a: string, b: string)
    requires a != "" && !IsSpace(a[0]) && b != "" && Trimmed(b)
    ensures Trimmed(a + b)
  {
  }

  /** Parsing the printed form of a well-formed type gives the type back. */
  lemma {:induction false} PrintThenParse(reg: Registry, t: Type)
    requires WellFormed(reg, t)
    ensures ParseType(reg, Print(t)) == Ok(t)
  {
    hide Trimmed, TrimSpace, Leading, Prefix, Closed, Comparable;
    PrintTrimmed(reg, t);
    TrimSpaceEnds(Print(t));
    match t
    case Named(name) =>
    case Unary(shape, elem) =>
      PrintThenParse(reg, elem);
      PrintedLead(shape, Print(elem));
    case Map(key, val) =>
      PrintThenParse(reg, key);
      PrintThenParse(reg, val);
      PrintedMapLead(Print(key), Print(val));
  }

  /** White space around an expression does not matter. */
  lemma BlanksAround(reg: Registry, a: string, s: string, b: string)
    requires Blank(a) && Blank(b) && Trimmed(s)
    ensures ParseType(reg, a + s + b) == ParseType(reg, s)
  {
    TrimSpaceMeans(a, s, b);
    TrimSpaceEnds(s);
    hide TrimSpace, Leading, Brackets;
  }

  /** Whatever parses is well formed, and its printed form has the same brackets as the text. */
  lemma {:induction false} ParsedIsWellFormed(reg: Registry, text: string)
    requires ParseType(reg, text).Ok?
    ensures var t := ParseType(reg, text).value; WellFormed(reg, t) && Brackets(Print(t)) == Brackets(text)
    decreases |text|
  {
    var s := TrimSpace(text);
    TrimSpaceEnds(text);
    TrimSpaceEnds(s);
    hide Trimmed, TrimSpace, Leading, Prefix, Comparable, Brackets, Closed;
    match Leading(s)
    case Name =>
    case Prefixed(shape, rest) =>
      ReadShape(s);
      ParsedIsWellFormed(reg, rest);
      BracketsConcat(Prefix(shape), Print(ParseType(reg, rest).value));
    case KeyVal(k, v) =>
      ReadMap(s);
      ParsedIsWellFormed(reg, k);
      ParsedIsWellFormed(reg, v);
      var key, val := ParseType(reg, k).value, ParseType(reg, v).value;
      SameBracketsClosed(k, Print(key));
      SameBracketsMap(k, v, Print(key), Print(val));
  }

  lemma SameBracketsClosed(a: string, b: string)
    requires Closed(a) && Brackets(a) == Brackets(b)
    ensures Closed(b)
  {
    DepthOfBrackets(a, 0);
    DepthOfBrackets(b, 0);
  }

  lemma SameBracketsMap(k: string, v: string, k': string, v': string)
    requires Brackets(k) == Brackets(k') && Brackets(v) == Brackets(v')
    ensures Brackets("map[" + k + "]" + v) == Brackets("map[" + k' + "]" + v')
  {
    hide Brackets;
    BracketsConcat("map[" + k + "]", v);
    BracketsConcat("map[" + k, "]");
    BracketsConcat("map[", k);
    BracketsConcat("map[" + k' + "]", v');
    BracketsConcat("map[" + k', "]");
    BracketsConcat("map[", k');
  }

  /** The round trip holds for exactly the well-formed types. */
  lemma RoundTrip(reg: Registry, t: Type)
    ensures ParseType(reg, Print(t)) == Ok(t) <==> WellFormed(reg, t)
  {
    if WellFormed(reg, t) { PrintThenParse(reg, t); }
    if ParseType(reg, Print(t)) == Ok(t) { ParsedIsWellFormed(reg, Print(t)); }
  }

  /** Printing a parsed text normalises it: parsing that again gives the same type. */
  lemma ParsePrintParse(reg: Registry, text: string)
    requires ParseType(reg, text).Ok?
    ensures var r := ParseType(reg, text); ParseType(reg, Print(r.value)) == r
  {
    ParsedIsWellFormed(reg, text);
    PrintThenParse(reg, ParseType(reg, text).value);
  }

  lemma LiteralLead(digits: string, rest: string)
    requires AllDigits(digits) && digits != ""
    ensures Leading("[" + digits + "]" + rest)
         == if FitsAll(digits) then Prefixed(ArrayOf(Value(digits) % TWO64), rest) else Bad(BadLength)
  {
    var s := "[" + digits + "]" + rest;
    assert ']' !in digits;
    assert s[1..] == digits + "]" + rest && s[0] == '[' && s[1] == digits[0] && IsDigit(digits[0]);
    CutAtFirst(digits, ']', rest);
    DigitsTrimmed(digits);
    hide AllDigits, FitsAll, Value, Accumulate, Cut, TrimSpace;
    AccumulateMeans(digits);
  }

  /** How a literal array length is read, whatever its digits: as its low 64 bits, or not at all. */
  lemma ArrayLengthRead(reg: Registry, digits: string, name: string)
    requires AllDigits(digits) && digits != "" && Nameable(reg, name)
    ensures ParseType(reg, "[" + digits + "]" + name)
         == if FitsAll(digits) then Ok(Unary(ArrayOf(Value(digits) % TWO64), Named(name))) else Err(BadLength)
  {
    var s := "[" + digits + "]" + name;
    TrimSpaceEnds(name);
    assert Trimmed(s) && s != "";
    TrimSpaceEnds(s);
    hide AllDigits, FitsAll, Value, Brackets, Trimmed, TrimSpace, Leading;
    LiteralLead(digits, name);
  }

  /** A length of 2^64 + 5 is read as 5, and so on below 10 * 2^63. */
  lemma LengthMisread(reg: Registry, n: nat, name: string)
    requires Nameable(reg, name) && TWO63 <= n < 10 * TWO63 && n % TWO64 < TWO63
    ensures ParseType(reg, "[" + Decimal(n) + "]" + name) == Ok(Unary(ArrayOf(n % TWO64), Named(name)))
    ensures n % TWO64 != n
  {
    hide Decimal, Nameable, ParseType, FitsAll, Value, Accumulate, AllDigits;
    OverflowMissed(n);
    AccumulateMeans(Decimal(n));
    ArrayLengthRead(reg, Decimal(n), name);
    DecimalValue(n);
  }

  // ---------------------------------------------------------------------
  // Bracket-free names
  // ---------------------------------------------------------------------

  predicate BracketFree(s: string) { forall c <- s :: !IsBracket(c) }

  /** Every name of the tree is registered, nameable and free of brackets. */
  predicate PlainNames(reg: Registry, t: Type) {
    match t
    case Named(name) => Nameable(reg, name) && BracketFree(name)
    case Unary(_, elem) => PlainNames(reg, elem)
    case Map(key, val) => PlainNames(reg, key) && PlainNames(reg, val)
  }

  /** Lengths fit in an int, and every map key can be compared. */
  predicate Constructible(reg: Registry, t: Type) {
    match t
    case Named(_) => true
    case Unary(shape, elem) => (shape.ArrayOf? ==> shape.len < TWO63) && Constructible(reg, elem)
    case Map(key, val) => Constructible(reg, key) && Constructible(reg, val) && Comparable(reg, key)
  }

  lemma PrefixClosed(shape: Shape)
    ensures Closed(Prefix(shape))
  {
    var p := Prefix(shape);
    if shape.ArrayOf? || shape.SliceOf? {
      if shape.ArrayOf? {
        ArrayPrefixBrackets(shape.len);
        DepthOfBrackets(p, 0);
        assert Depth(p, 0) == Depth("[]", 0);
      }
      assert "[]"[1..] == "]" && "]"[1..] == "";
      assert Depth("]", 1) == Some(0);
    } else {
      NoBrackets(p);
      DepthOfBrackets(p, 0);
    }
  }

  lemma {:induction false} PlainPrintClosed(reg: Registry, t: Type)
    requires PlainNames(reg, t)
    ensures Closed(Print(t))
  {
    match t
    case Named(name) =>
      NoBrackets(name);
      DepthOfBrackets(name, 0);
      assert Depth("", 0) == Some(0);
    case Unary(shape, elem) =>
      PrefixClosed(shape);
      PlainPrintClosed(reg, elem);
      DepthConcat(Prefix(shape), Print(elem), 0);
    case Map(key, val) =>
      PlainPrintClosed(reg, key);
      PlainPrintClosed(reg, val);
      MapClosed(Print(key), Print(val));
  }

  lemma {:induction false} DeeperSame(s: string, d: nat, e: nat)
    requires Depth(s, d).Some?
    ensures Depth(s, d + e) == Some(Depth(s, d).value + e)
  {
    if s != "" {
      DeeperSame(s[1..], if s[0] == '[' then d + 1 else if s[0] == ']' then d - 1 else d, e);
    }
  }

  lemma MapClosed(k: string, v: string)
    requires Closed(k) && Closed(v)
    ensures Closed("map[" + k + "]" + v)
  {
    DepthConcat("map[" + k + "]", v, 0);
    DepthConcat("map[" + k, "]", 0);
    DepthConcat("map[", k, 0);
    DeeperSame(k, 0, 1);
    assert "map["[1..] == "ap[" && "ap["[1..] == "p[" && "p["[1..] == "[" && "["[1..] == "";
    assert Depth("[", 0) == Some(1);
    assert Depth("]", 1) == Some(0);
  }

  /** Over bracket-free names every constructible type, nested keys included, survives the round trip. */
  lemma PlainRoundTrip(reg: Registry, t: Type)
    requires PlainNames(reg, t)
    ensures ParseType(reg, Print(t)) == Ok(t) <==> Constructible(reg, t)
  {
    PlainWellFormed(reg, t);
    RoundTrip(reg, t);
  }

  lemma {:induction false} PlainWellFormed(reg: Registry, t: Type)
    requires PlainNames(reg, t)
    ensures WellFormed(reg, t) <==> Constructible(reg, t)
  {
    match t
    case Named(_) =>
    case Unary(_, elem) => PlainWellFormed(reg, elem);
    case Map(key, val) =>
      PlainWellFormed(reg, key);
      PlainWellFormed(reg, val);
      PlainPrintClosed(reg, key);
  }
}
