/** The Go library's string functions that several components use. */
module Text {
  import opened Wrappers

  // ---------------------------------------------------------------------
  // strings.Split and its inverse
  // ---------------------------------------------------------------------

  function Split(s: string, sep: char): (r: seq<string>)
    ensures |r| > 0
  {
    if s == "" then [""]
    else
      var r := Split(s[1..], sep);
      if s[0] == sep then [""] + r else [[s[0]] + r[0]] + r[1..]
  }

  function Join(parts: seq<string>, sep: char): string
    requires |parts| > 0
  {
    if |parts| == 1 then parts[0] else parts[0] + [sep] + Join(parts[1..], sep)
  }

  lemma {:induction false} SplitPiece(piece: string, s: string, sep: char)
    requires sep !in piece
    ensures Split(piece, sep) == [piece]
    ensures Split(piece + [sep] + s, sep) == [piece] + Split(s, sep)
  {
    var whole := piece + [sep] + s;
    if piece == "" {
      assert whole[1..] == s;
    } else {
      SplitPiece(piece[1..], s, sep);
      assert whole[1..] == piece[1..] + [sep] + s;
      assert [piece[0]] + piece[1..] == piece;
    }
  }

  /** Joining pieces that do not hold the separator and splitting again changes nothing. */
  lemma {:induction false} JoinThenSplit(parts: seq<string>, sep: char)
    requires |parts| > 0 && forall p <- parts :: sep !in p
    ensures Split(Join(parts, sep), sep) == parts
  {
    if |parts| == 1 {
      SplitPiece(parts[0], "", sep);
    } else {
      JoinThenSplit(parts[1..], sep);
      SplitPiece(parts[0], Join(parts[1..], sep), sep);
    }
  }

  // ---------------------------------------------------------------------
  // strings.TrimSpace and a cut at the first occurrence of a character
  // ---------------------------------------------------------------------

  /** `unicode.IsSpace` */
  predicate IsSpace(c: char) {
    || '\t' <= c <= '\r' || c == ' ' || c == '\U{85}' || c == '\U{A0}' || c == '\U{1680}'
    || '\U{2000}' <= c <= '\U{200A}' || c == '\U{2028}' || c == '\U{2029}' || c == '\U{202F}'
    || c == '\U{205F}' || c == '\U{3000}'
  }

  function TrimLeft(s: string): (r: string)
    ensures |r| <= |s|
  {
    if s != "" && IsSpace(s[0]) then TrimLeft(s[1..]) else s
  }

  function TrimRight(s: string): (r: string)
    ensures |r| <= |s|
  {
    if s != "" && IsSpace(s[|s| - 1]) then TrimRight(s[..|s| - 1]) else s
  }

  function TrimSpace(s: string): (r: string)
    ensures |r| <= |s|
  {
    TrimRight(TrimLeft(s))
  }

  predicate Blank(s: string) { forall i | 0 <= i < |s| :: IsSpace(s[i]) }

  lemma {:induction false} TrimLeftMeans(a: string, s: string)
    requires Blank(a) && (s != "" ==> !IsSpace(s[0]))
    ensures TrimLeft(a + s) == s
  {
    if a == "" {
      assert a + s == s;
    } else {
      TrimLeftMeans(a[1..], s);
      assert (a + s)[1..] == a[1..] + s;
    }
  }

  lemma {:induction false} TrimRightMeans(s: string, b: string)
    requires Blank(b) && (s != "" ==> !IsSpace(s[|s| - 1]))
    ensures TrimRight(s + b) == s
    decreases |b|
  {
    if b == "" {
      assert s + b == s;
    } else {
      var n := |b| - 1;
      TrimRightMeans(s, b[..n]);
      assert (s + b)[..|s| + n] == s + b[..n];
    }
  }

  /** Exactly the white space at both ends is removed. */
  lemma TrimSpaceMeans(a: string, s: string, b: string)
    requires Blank(a) && Blank(b) && (s != "" ==> !IsSpace(s[0]) && !IsSpace(s[|s| - 1]))
    ensures TrimSpace(a + s + b) == s
  {
    if s == "" {
      assert a + s + b == (a + b) + "";
      TrimLeftMeans(a + b, "");
    } else {
      assert a + s + b == a + (s + b);
      TrimLeftMeans(a, s + b);
      TrimRightMeans(s, b);
    }
  }

  /** `strings.SplitN(s, c, 2)`: the text before and after the first `c`. */
  function Cut(s: string, c: char): (r: Option<(string, string)>)
    ensures r.Some? ==> c !in r.value.0 && s == r.value.0 + [c] + r.value.1
    ensures r.None? <==> c !in s
  {
    if s == "" then None
    else if s[0] == c then Some(("", s[1..]))
    else
      var r := Cut(s[1..], c);
      if r.None? then None else Some(([s[0]] + r.value.0, r.value.1))
  }

  lemma {:induction false} CutAtFirst(a: string, c: char, b: string)
    requires c !in a
    ensures Cut(a + [c] + b, c) == Some((a, b))
  {
    var s := a + [c] + b;
    if a == "" {
      assert s[1..] == b;
    } else {
      CutAtFirst(a[1..], c, b);
      assert s[1..] == a[1..] + [c] + b;
      assert [a[0]] + a[1..] == a;
    }
  }

  // ---------------------------------------------------------------------
  // Decimal numbers
  // ---------------------------------------------------------------------

  predicate IsDigit(c: char) { '0' <= c <= '9' }

  function DigitValue(c: char): nat
    requires IsDigit(c)
  {
    c as nat - '0' as nat
  }

  predicate AllDigits(s: string) { forall c <- s :: IsDigit(c) }

  function Value(s: string): nat
    requires AllDigits(s)
    decreases |s|
  {
    if s == "" then 0
    else
      assert IsDigit(s[|s| - 1]);
      10 * Value(s[..|s| - 1]) + DigitValue(s[|s| - 1])
  }

  /** `%d` of a natural number */
  function Decimal(n: nat): (s: string)
    ensures s != "" && AllDigits(s)
  {
    var d := [(n % 10) as char + '0'];
    if n < 10 then d else Decimal(n / 10) + d
  }

  lemma {:induction false} DecimalValue(n: nat)
    ensures Value(Decimal(n)) == n
  {
    var s := Decimal(n);
    if n >= 10 {
      DecimalValue(n / 10);
      assert s[..|s| - 1] == Decimal(n / 10);
    } else {
      assert s[..|s| - 1] == "";
    }
  }

  const TWO63: int := 0x8000_0000_0000_0000

  /** `strconv.ParseInt(s, 10, 64)`; None stands for any of its errors. */
  function ParseInt(s: string): (r: Option<int>)
    ensures r.Some? ==> -TWO63 <= r.value < TWO63
  {
    var negative := s != "" && s[0] == '-';
    var digits := if s != "" && (s[0] == '-' || s[0] == '+') then s[1..] else s;
    if digits == "" || !AllDigits(digits) then None
    else
      var v: int := Value(digits);
      if negative then if v <= TWO63 then Some(-v) else None
      else if v < TWO63 then Some(v) else None
  }

  /** Digits with an optional sign are read as the number they write, if it fits in 64 bits. */
  lemma ParseSigned(digits: string)
    requires digits != "" && AllDigits(digits)
    ensures ParseInt(digits) == ParseInt("+" + digits) == if Value(digits) < TWO63 then Some(Value(digits)) else None
    ensures ParseInt("-" + digits) == if Value(digits) <= TWO63 then Some(0 - Value(digits)) else None
  {
    assert IsDigit(digits[0]);
    assert ("+" + digits)[1..] == digits && ("-" + digits)[1..] == digits;
    hide Value;
  }

  /** Nothing else is a number. */
  lemma OnlyNumbersParse(s: string)
    requires ParseInt(s).Some?
    ensures var digits := if s[0] == '-' || s[0] == '+' then s[1..] else s;
      digits != "" && forall i | 0 <= i < |digits| :: '0' <= digits[i] <= '9'
  {
    var digits := if s[0] == '-' || s[0] == '+' then s[1..] else s;
    assert forall i | 0 <= i < |digits| :: digits[i] in digits;
  }

  lemma ParseDecimal(n: nat)
    ensures ParseInt(Decimal(n)) == if n < TWO63 then Some(n) else None
  {
    DecimalValue(n);
    assert IsDigit(Decimal(n)[0]);
  }
}
