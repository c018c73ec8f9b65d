/**
  Byte ranges of the static file handler: from a Range header to sorted, merged
  blocks, in the source's 64-bit arithmetic, and from blocks to a response.
 */
module Ranges {
  import opened Wrappers
  import opened Text

  /** Go's int64. Every value stored in one is proved to fit, so nothing wraps. */
  type int64 = x: int | -TWO63 <= x < TWO63

  datatype Block = Block(start: int64, length: int64) {
    function End(): int { start + length }

    predicate Holds(x: int) { start <= x < End() }
  }

  // ---------------------------------------------------------------------
  // What a header asks for, byte by byte
  // ---------------------------------------------------------------------

  /** An accepted range: the last `count` bytes, everything from `first` on, or a closed interval. */
  datatype Spec = Suffix(count: int64) | From(first: int64) | Span(first: int64, last: int64)

  /** Pieces that do not parse are skipped one by one. */
  function ParseSpec(piece: string): Option<Spec> {
    var v := TrimSpace(piece);
    var rv := Cut(v, '-');
    if rv.None? then None
    else
      var (a, b) := rv.value;
      if a == "" then
        var count := ParseInt(b);
        if count.None? || count.value <= 0 then None else Some(Suffix(count.value))
      else
        var first := ParseInt(a);
        if first.None? || first.value < 0 then None
        else if b == "" then Some(From(first.value))
        else
          var last := ParseInt(b);
          if last.None? then None else Some(Span(first.value, last.value))
  }

  predicate Asks(spec: Spec, size: int64, x: int) {
    match spec
    case Suffix(count) => size - count <= x
    case From(first) => first <= x
    case Span(first, last) => first <= x <= last
  }

  const UNIT := "bytes="

  predicate PieceAsks(piece: string, size: int64, x: int) {
    ParseSpec(piece).Some? && Asks(ParseSpec(piece).value, size, x)
  }

  predicate Asked(header: string, size: int64, x: int) {
    UNIT <= header && exists piece <- Split(header[|UNIT|..], ',') :: PieceAsks(piece, size, x)
  }

  /** The bytes of a file of `size` bytes that the header asks for. */
  function Bytes(header: string, size: int64): set<int> {
    set x | 0 <= x < size && Asked(header, size, x)
  }

  /** A piece without a dash asks for nothing. */
  lemma NoDashAsksNothing(piece: string, size: int64, x: int)
    requires '-' !in piece
    ensures !PieceAsks(piece, size, x)
  {
    hide IsSpace;
    TrimKeeps(piece);
  }

  lemma {:induction false} TrimKeeps(s: string)
    ensures forall c <- TrimSpace(s) :: c in s
  {
    TrimLeftKeeps(s);
    TrimRightKeeps(TrimLeft(s));
  }

  lemma {:induction false} TrimLeftKeeps(s: string)
    ensures forall c <- TrimLeft(s) :: c in s
  {
    if s != "" { TrimLeftKeeps(s[1..]); }
  }

  lemma {:induction false} TrimRightKeeps(s: string)
    ensures forall c <- TrimRight(s) :: c in s
    decreases |s|
  {
    if s != "" { TrimRightKeeps(s[..|s| - 1]); }
  }

  /** A piece is cut at its first dash. */
  lemma PieceCut(a: string, b: string)
    requires '-' !in a && (a != "" ==> !IsSpace(a[0])) && (b != "" ==> !IsSpace(b[|b| - 1]))
    ensures var v := TrimSpace(a + "-" + b); v == a + "-" + b && Cut(v, '-') == Some((a, b))
  {
    var v := a + "-" + b;
    assert v[0] == (if a == "" then '-' else a[0]) && v[|v| - 1] == if b == "" then '-' else b[|b| - 1];
    hide TrimSpace;
    assert "" + v + "" == v;
    TrimSpaceMeans("", v, "");
    CutAtFirst(a, '-', b);
  }

  lemma DigitsEnd(n: nat)
    ensures var d := Decimal(n); d != "" && !IsSpace(d[0]) && !IsSpace(d[|d| - 1]) && '-' !in d && ',' !in d
  {
    var d := Decimal(n);
    assert IsDigit(d[0]) && IsDigit(d[|d| - 1]);
    NoSign(d);
  }

  /** `-n`: the last n bytes, for a positive n that fits in 64 bits. */
  lemma SuffixMeans(n: nat, size: int64, x: int)
    ensures PieceAsks("-" + Decimal(n), size, x) <==> 0 < n < TWO63 && size - n <= x
  {
    ParseDecimal(n);
    DigitsEnd(n);
    hide ParseInt, Decimal, Cut, TrimSpace, IsSpace;
    assert "" + "-" + Decimal(n) == "-" + Decimal(n);
    PieceCut("", Decimal(n));
  }

  /** `a-`: from position a to the end. */
  lemma FromMeans(a: nat, size: int64, x: int)
    ensures PieceAsks(Decimal(a) + "-", size, x) <==> a < TWO63 && a <= x
  {
    ParseDecimal(a);
    DigitsEnd(a);
    hide ParseInt, Decimal, Cut, TrimSpace, IsSpace;
    assert Decimal(a) + "-" + "" == Decimal(a) + "-";
    PieceCut(Decimal(a), "");
  }

  /** `a-b`: from position a to position b, both included; nothing if either does not fit. */
  lemma SpanMeans(a: nat, b: nat, size: int64, x: int)
    ensures PieceAsks(Decimal(a) + "-" + Decimal(b), size, x) <==> a < TWO63 && b < TWO63 && a <= x <= b
  {
    ParseDecimal(a);
    ParseDecimal(b);
    DigitsEnd(a);
    DigitsEnd(b);
    hide ParseInt, Decimal, Cut, TrimSpace, IsSpace;
    PieceCut(Decimal(a), Decimal(b));
  }

  /** White space around a piece does not matter. */
  lemma BlanksAroundPiece(a: string, piece: string, b: string, size: int64, x: int)
    requires Blank(a) && Blank(b) && (piece != "" ==> !IsSpace(piece[0]) && !IsSpace(piece[|piece| - 1]))
    ensures PieceAsks(a + piece + b, size, x) <==> PieceAsks(piece, size, x)
  {
    TrimSpaceMeans(a, piece, b);
    TrimSpaceMeans("", piece, "");
    assert "" + piece + "" == piece;
    hide TrimSpace, Cut;
  }

  /** A header asks for what any of its pieces asks for; without the unit it asks for nothing. */
  lemma HeaderMeans(header: string, pieces: seq<string>, size: int64, x: int)
    requires pieces != [] && forall p <- pieces :: ',' !in p
    ensures x in Bytes(UNIT + Join(pieces, ','), size)
       <==> 0 <= x < size && exists p <- pieces :: PieceAsks(p, size, x)
    ensures !(UNIT <= header) ==> Bytes(header, size) == {}
  {
    var h := UNIT + Join(pieces, ',');
    assert h[|UNIT|..] == Join(pieces, ',');
    JoinThenSplit(pieces, ',');
    hide PieceAsks, Join, Split;
  }

  // ---------------------------------------------------------------------
  // The simple form: scan the file byte by byte
  // ---------------------------------------------------------------------

  predicate InBlocks(bs: seq<Block>, x: int) { exists b <- bs :: b.Holds(x) }

  /** Non-empty blocks inside [0, size). */
  predicate Inside(bs: seq<Block>, size: int) {
    forall b <- bs :: 0 <= b.start && 0 < b.length && b.End() <= size
  }

  /** Strictly increasing besides, and no two touching. */
  predicate Normal(bs: seq<Block>, size: int) {
    && Inside(bs, size)
    && (forall i, j | 0 <= i < j < |bs| :: bs[i].End() < bs[j].start)
  }

  lemma PushNormal(bs: seq<Block>, b: Block, size: int)
    requires Normal(bs, size) && Inside([b], size)
    requires bs != [] ==> bs[|bs| - 1].End() < b.start
    ensures Normal(bs + [b], size)
  {
    assert b in [b];
    assert bs != [] ==> bs[|bs| - 1] in bs;
  }

  lemma FrontNormal(bs: seq<Block>, size: int)
    requires Normal(bs, size) && bs != []
    ensures Normal(bs[..|bs| - 1], size)
    ensures |bs| > 1 ==> bs[|bs| - 2].End() < bs[|bs| - 1].start
  {
    assert forall b <- bs[..|bs| - 1] :: b in bs;
  }

  /** Block `b`, which starts no earlier than the last one, joined to the blocks before it. */
  function Absorb(bs: seq<Block>, b: Block, size: int64): (r: seq<Block>)
    requires Normal(bs, size) && Inside([b], size)
    requires bs != [] ==> bs[|bs| - 1].start <= b.start
    ensures Normal(r, size) && r != [] && r[|r| - 1].start <= b.start
  {
    assert b in [b];
    if bs == [] || bs[|bs| - 1].End() < b.start then
      PushNormal(bs, b, size);
      bs + [b]
    else
      var last := bs[|bs| - 1];
      assert last in bs;
      if last.End() < b.End() then
        FrontNormal(bs, size);
        PushNormal(bs[..|bs| - 1], Block(last.start, b.End() - last.start), size);
        bs[..|bs| - 1] + [Block(last.start, b.End() - last.start)]
      else bs
  }

  lemma NoneHolds(x: int)
    ensures !InBlocks([], x)
  {
    assert forall b: Block :: b !in [];
  }

  lemma SnocHolds(bs: seq<Block>, b: Block, x: int)
    ensures InBlocks(bs + [b], x) <==> InBlocks(bs, x) || b.Holds(x)
  {
    assert forall c :: c in bs + [b] <==> c in bs || c == b;
  }

  lemma GrowHolds(front: seq<Block>, last: Block, longer: Block, b: Block, x: int)
    requires last.start <= b.start <= last.End() <= b.End()
    requires longer.start == last.start && longer.End() == b.End()
    ensures InBlocks(front + [longer], x) <==> InBlocks(front + [last], x) || b.Holds(x)
  {
    SnocHolds(front, last, x);
    SnocHolds(front, longer, x);
    hide InBlocks;
  }

  lemma AbsorbPushes(bs: seq<Block>, b: Block, size: int64)
    requires Normal(bs, size) && Inside([b], size)
    requires bs == [] || bs[|bs| - 1].End() < b.start
    ensures (bs != [] ==> bs[|bs| - 1].start <= b.start) && Absorb(bs, b, size) == bs + [b]
  {
    assert bs != [] ==> bs[|bs| - 1] in bs;
  }

  lemma AbsorbGrows(bs: seq<Block>, b: Block, size: int64) returns (longer: Block)
    requires Normal(bs, size) && Inside([b], size)
    requires bs != [] && bs[|bs| - 1].start <= b.start <= bs[|bs| - 1].End() < b.End()
    ensures longer.start == bs[|bs| - 1].start && longer.End() == b.End()
    ensures Absorb(bs, b, size) == bs[..|bs| - 1] + [longer]
  {
    assert b in [b] && bs[|bs| - 1] in bs;
    longer := Block(bs[|bs| - 1].start, b.End() - bs[|bs| - 1].start);
  }

  lemma AbsorbHolds(bs: seq<Block>, b: Block, size: int64, x: int)
    requires Normal(bs, size) && Inside([b], size)
    requires bs != [] ==> bs[|bs| - 1].start <= b.start
    ensures InBlocks(Absorb(bs, b, size), x) <==> InBlocks(bs, x) || b.Holds(x)
  {
    if bs == [] || bs[|bs| - 1].End() < b.start {
      AbsorbPushes(bs, b, size);
      hide Normal, Inside, InBlocks, Absorb;
      SnocHolds(bs, b, x);
    } else {
      var front, last := bs[..|bs| - 1], bs[|bs| - 1];
      assert front + [last] == bs;
      if last.End() < b.End() {
        var longer := AbsorbGrows(bs, b, size);
        hide Normal, Inside, InBlocks, Absorb;
        GrowHolds(front, last, longer, b, x);
      } else {
        assert Absorb(bs, b, size) == bs;
        hide Normal, Inside, InBlocks, Absorb;
        SnocHolds(front, last, x);
      }
    }
  }

  /** The maximal runs of `s` below `n`, found by looking at one byte after the other. */
  function Runs(s: set<int>, n: int64): (r: seq<Block>)
    requires 0 <= n
    ensures Normal(r, n)
  {
    if n == 0 then []
    else
      var r := Runs(s, n - 1);
      if n - 1 in s then Absorb(r, Block(n - 1, 1), n) else r
  }

  lemma {:induction false} RunsHold(s: set<int>, n: int64, x: int)
    requires 0 <= n
    ensures InBlocks(Runs(s, n), x) <==> x in s && 0 <= x < n
  {
    hide InBlocks, Absorb;
    if n == 0 {
      NoneHolds(x);
    } else {
      RunsHold(s, n - 1, x);
      AbsorbHolds(Runs(s, n - 1), Block(n - 1, 1), n, x);
    }
  }

  lemma NormalHeads(a: seq<Block>, b: seq<Block>, size: int)
    requires Normal(a, size) && Normal(b, size) && a != [] && b != []
    requires forall x :: InBlocks(a, x) <==> InBlocks(b, x)
    ensures a[0] == b[0]
  {
    NoEarlier(a, b, size);
    NoEarlier(b, a, size);
    NoLonger(a, b, size);
    NoLonger(b, a, size);
  }

  lemma NoEarlier(a: seq<Block>, b: seq<Block>, size: int)
    requires Normal(a, size) && Normal(b, size) && a != [] && b != []
    requires forall x :: InBlocks(a, x) <==> InBlocks(b, x)
    ensures b[0].start <= a[0].start
  {
    assert a[0].Holds(a[0].start) && InBlocks(b, a[0].start);
  }

  lemma NoLonger(a: seq<Block>, b: seq<Block>, size: int)
    requires Normal(a, size) && Normal(b, size) && a != [] && b != [] && a[0].start == b[0].start
    requires forall x :: InBlocks(a, x) <==> InBlocks(b, x)
    ensures b[0].End() <= a[0].End()
  {
    assert !InBlocks(a, a[0].End());
    assert !b[0].Holds(a[0].End());
  }

  lemma TailHolds(a: seq<Block>, size: int, x: int)
    requires Normal(a, size) && a != []
    ensures InBlocks(a[1..], x) <==> InBlocks(a, x) && a[0].End() <= x
  {
    assert a == [a[0]] + a[1..];
    assert forall b <- a[1..] :: a[0].End() < b.start;
  }

  /** Normal blocks are determined by the bytes they hold. */
  lemma {:induction false} NormalUnique(a: seq<Block>, b: seq<Block>, size: int)
    requires Normal(a, size) && Normal(b, size)
    requires forall x :: InBlocks(a, x) <==> InBlocks(b, x)
    ensures a == b
    decreases |a|
  {
    assert a != [] ==> a[0].Holds(a[0].start) && InBlocks(a, a[0].start);
    assert b != [] ==> b[0].Holds(b[0].start) && InBlocks(b, b[0].start);
    if a != [] && b != [] {
      hide InBlocks;
      NormalHeads(a, b, size);
      forall x ensures InBlocks(a[1..], x) <==> InBlocks(b[1..], x) {
        TailHolds(a, size, x);
        TailHolds(b, size, x);
      }
      NormalUnique(a[1..], b[1..], size);
      assert a == [a[0]] + a[1..] && b == [b[0]] + b[1..];
    }
  }

  function Total(bs: seq<Block>): int {
    if bs == [] then 0 else Total(bs[..|bs| - 1]) + bs[|bs| - 1].length
  }

  lemma AbsorbTotal(bs: seq<Block>, n: int64)
    requires 0 < n && Normal(bs, n - 1)
    ensures Total(Absorb(bs, Block(n - 1, 1), n)) == Total(bs) + 1
  {
    var r := Absorb(bs, Block(n - 1, 1), n);
    if bs == [] || bs[|bs| - 1].End() < n - 1 {
      assert r[..|r| - 1] == bs;
    } else {
      assert r[..|r| - 1] == bs[..|bs| - 1];
    }
  }

  /** The lengths of the runs add up to the number of bytes. */
  lemma {:induction false} RunsTotal(s: set<int>, n: int64)
    requires 0 <= n
    ensures Total(Runs(s, n)) == |set x | x in s && 0 <= x < n|
  {
    hide Total, Absorb, Normal;
    var below := set x | x in s && 0 <= x < n;
    if n == 0 {
      assert below == {} && Total([]) == 0 by { TotalNone(); }
    } else {
      RunsTotal(s, n - 1);
      AbsorbTotal(Runs(s, n - 1), n);
      var rest := set x | x in s && 0 <= x < n - 1;
      assert below == if n - 1 in s then rest + {n - 1} else rest;
    }
  }

  lemma TotalNone()
    ensures Total([]) == 0
  {
  }

  lemma Count(s: set<int>, n: int64)
    requires 0 <= n && forall x <- s :: 0 <= x < n
    ensures Total(Runs(s, n)) == |s| <= n
  {
    RunsTotal(s, n);
    assert s == set x | x in s && 0 <= x < n;
    AtMost(s, n);
  }

  lemma {:induction false} AtMost(s: set<int>, n: int)
    requires 0 <= n && forall x <- s :: 0 <= x < n
    ensures |s| <= n
    decreases n
  {
    if n == 0 {
      assert forall x :: x !in s;
      assert s == {};
    } else {
      AtMost(s - {n - 1}, n - 1);
      if n - 1 !in s { assert s - {n - 1} == s; }
    }
  }

  // ---------------------------------------------------------------------
  // The source's form: parse, clip, sort, merge
  // ---------------------------------------------------------------------

  /** The clipped block of one piece, if the piece is accepted and meets the file. */
  method ClipPiece(piece: string, size: int64) returns (r: Option<Block>)
    requires 0 < size
    ensures r.Some? ==> Inside([r.value], size)
    ensures forall x | 0 <= x < size :: PieceAsks(piece, size, x) <==> r.Some? && r.value.Holds(x)
  {
    var v := TrimSpace(piece);
    if v == "" {
      return None;
    }
    var rv := Cut(v, '-');
    if rv.None? {
      return None;
    }
    var start: int64, end: int64;
    if rv.value.0 == "" {
      if rv.value.1 == "" {
        return None;
      }
      var val := ParseInt(rv.value.1);
      if val.None? || val.value <= 0 {
        return None;
      }
      var rest: int64 := size - val.value;
      start := if rest < 0 then 0 else rest;
      end := size - 1;
    } else {
      var first := ParseInt(rv.value.0);
      if first.None? || first.value < 0 {
        return None;
      }
      start := first.value;
      if rv.value.1 == "" {
        end := size - 1;
      } else {
        var last := ParseInt(rv.value.1);
        if last.None? {
          return None;
        }
        end := last.value;
      }
    }
    if end >= size {
      end := size - 1;
    }
    if start >= size || start > end {
      return None;
    }
    return Some(Block(start, end - start + 1));
  }

  /** The blocks of the accepted pieces, in the order of the header. */
  method Collect(header: string, size: int64) returns (raw: seq<Block>)
    requires 0 < size && UNIT <= header
    ensures Inside(raw, size)
    ensures forall x | 0 <= x < size :: InBlocks(raw, x) <==> Asked(header, size, x)
  {
    var pieces := Split(header[|UNIT|..], ',');
    raw := [];
    for i := 0 to |pieces|
      invariant Inside(raw, size)
      invariant forall x | 0 <= x < size :: InBlocks(raw, x) <==> exists p <- pieces[..i] :: PieceAsks(p, size, x)
    {
      var b := ClipPiece(pieces[i], size);
      assert pieces[..i + 1] == pieces[..i] + [pieces[i]];
      if b.Some? {
        forall x { SnocHolds(raw, b.value, x); }
        raw := raw + [b.value];
      }
    }
    assert pieces[..|pieces|] == pieces;
  }

  predicate ByStart(bs: seq<Block>) { forall i, j | 0 <= i < j < |bs| :: bs[i].start <= bs[j].start }

  lemma InsertKeepsOrder(front: seq<Block>, b: Block, back: seq<Block>)
    requires ByStart(front + back)
    requires forall j | 0 <= j < |front| :: front[j].start <= b.start
    requires back != [] ==> b.start <= back[0].start
    ensures ByStart(front + [b] + back)
  {
    var s, r := front + back, front + [b] + back;
    forall i, j | 0 <= i < j < |r| ensures r[i].start <= r[j].start {
      if j > |front| { assert r[j] == s[j - 1]; }
      if i > |front| { assert r[i] == s[i - 1]; }
      if i < |front| { assert r[i] == s[i] == front[i]; }
      if j < |front| { assert r[j] == s[j]; }
      if j == |front| { assert r[j] == b; }
      if i == |front| && back != [] { assert s[|front|] == back[0]; }
    }
  }

  method Insert(sorted: seq<Block>, b: Block) returns (r: seq<Block>)
    requires ByStart(sorted)
    ensures ByStart(r) && multiset(r) == multiset(sorted) + multiset{b}
  {
    var k := 0;
    while k < |sorted| && sorted[k].start <= b.start
      invariant 0 <= k <= |sorted|
      invariant forall j | 0 <= j < k :: sorted[j].start <= b.start
    {
      k := k + 1;
    }
    var front, back := sorted[..k], sorted[k..];
    assert sorted == front + back;
    assert k < |sorted| ==> back[0] == sorted[k];
    hide ByStart;
    InsertKeepsOrder(front, b, back);
    r := front + [b] + back;
  }

  /** Stands for `sort.Slice`: only that the result is an ordered permutation is used. */
  method SortByStart(raw: seq<Block>) returns (r: seq<Block>)
    ensures multiset(r) == multiset(raw) && ByStart(r)
  {
    r := [];
    for i := 0 to |raw|
      invariant multiset(r) == multiset(raw[..i]) && ByStart(r)
    {
      r := Insert(r, raw[i]);
      assert raw[..i + 1] == raw[..i] + [raw[i]];
    }
    assert raw[..|raw|] == raw;
  }

  /** Joins overlapping and touching neighbours. */
  method Merge(raw: seq<Block>, size: int64) returns (r: seq<Block>)
    requires Inside(raw, size) && ByStart(raw) && raw != []
    ensures Normal(r, size)
    ensures forall x :: InBlocks(r, x) <==> InBlocks(raw, x)
  {
    r := [raw[0]];
    assert raw[..1] == [raw[0]];
    for i := 1 to |raw|
      invariant Normal(r, size) && r != [] && r[|r| - 1].start <= raw[i - 1].start
      invariant forall x :: InBlocks(r, x) <==> InBlocks(raw[..i], x)
    {
      var b, last := raw[i], r[|r| - 1];
      var before := r;
      var lastEnd: int64 := last.start + last.length;
      if b.start <= lastEnd {
        var bEnd: int64 := b.start + b.length;
        if bEnd > lastEnd {
          r := r[|r| - 1 := last.(length := bEnd - last.start)];
        }
      } else {
        r := r + [b];
      }
      assert r == Absorb(before, b, size);
      assert raw[..i + 1] == raw[..i] + [raw[i]];
      forall x ensures InBlocks(r, x) <==> InBlocks(raw[..i + 1], x) {
        AbsorbHolds(before, b, size, x);
        SnocHolds(raw[..i], raw[i], x);
      }
    }
    assert raw[..|raw|] == raw;
  }

  method Sum(r: seq<Block>, size: int64) returns (n: int64)
    requires Normal(r, size) && 0 <= size
    ensures n == Total(r) <= size
  {
    n := 0;
    for i := 0 to |r|
      invariant n == Total(r[..i])
      invariant 0 <= n <= if i == 0 then 0 else r[i - 1].End()
    {
      assert r[..i + 1][..i] == r[..i];
      assert r[i] in r;
      n := n + r[i].length;
    }
    assert r[..|r|] == r;
    assert r != [] ==> r[|r| - 1] in r;
  }

  lemma SameBlocks(raw: seq<Block>, sorted: seq<Block>, size: int64)
    requires multiset(raw) == multiset(sorted) && Inside(raw, size)
    ensures Inside(sorted, size) && forall x :: InBlocks(raw, x) <==> InBlocks(sorted, x)
  {
    assert forall b :: b in raw <==> b in multiset(raw);
    assert forall b :: b in sorted <==> b in multiset(sorted);
  }

  /** Normal blocks that hold the bytes asked for are the runs of those bytes. */
  lemma Settled(header: string, size: int64, r: seq<Block>)
    requires 0 <= size && Normal(r, size)
    requires forall x | 0 <= x < size :: InBlocks(r, x) <==> Asked(header, size, x)
    ensures r == Runs(Bytes(header, size), size) && Total(r) == |Bytes(header, size)| <= size
  {
    var s := Bytes(header, size);
    forall x ensures InBlocks(r, x) <==> InBlocks(Runs(s, size), x) {
      RunsHold(s, size, x);
      assert InBlocks(r, x) ==> 0 <= x < size;
    }
    NormalUnique(r, Runs(s, size), size);
    Count(s, size);
  }

  /** The blocks are exactly the maximal runs of the bytes asked for, and `n` is their number. */
  method Ranges(header: string, size: int64) returns (r: seq<Block>, n: int64)
    ensures r == Runs(Bytes(header, size), if size < 0 then 0 else size)
    ensures n == |Bytes(header, size)|
    ensures 0 <= size ==> n <= size
  {
    if size <= 0 {
      assert Bytes(header, size) == {};
      return [], 0;
    }
    hide Asked, InBlocks, Runs;
    if !(UNIT <= header) {
      assert forall x :: !Asked(header, size, x) by { NotInBytes(header, size); }
      assert forall x :: !InBlocks([], x) by { forall x { NoneHolds(x); } }
      Settled(header, size, []);
      return [], 0;
    }
    var raw := Collect(header, size);
    if raw == [] {
      Settled(header, size, []);
      return [], 0;
    }
    var sorted := SortByStart(raw);
    assert |sorted| == |multiset(sorted)| == |multiset(raw)| == |raw|;
    SameBlocks(raw, sorted, size);
    r := Merge(sorted, size);
    n := Sum(r, size);
    Settled(header, size, r);
  }

  lemma NotInBytes(header: string, size: int64)
    requires !(UNIT <= header)
    ensures forall x :: !Asked(header, size, x)
  {
  }

  /** Only the pieces matter: neither their order nor how often each is repeated. */
  lemma OrderIrrelevant(a: string, b: string, size: int64)
    requires UNIT <= a && UNIT <= b
    requires forall p :: p in Split(a[|UNIT|..], ',') <==> p in Split(b[|UNIT|..], ',')
    ensures Bytes(a, size) == Bytes(b, size)
  {
    hide ParseSpec, Split;
    forall x ensures Asked(a, size, x) <==> Asked(b, size, x) {
      if p :| p in Split(a[|UNIT|..], ',') && PieceAsks(p, size, x) { assert p in Split(b[|UNIT|..], ','); }
      if p :| p in Split(b[|UNIT|..], ',') && PieceAsks(p, size, x) { assert p in Split(a[|UNIT|..], ','); }
    }
  }

  // ---------------------------------------------------------------------
  // Printing blocks and reading them back
  // ---------------------------------------------------------------------

  /** First and last position, as every Content-Range prints them. */
  function PrintBlock(b: Block): string
    requires 0 <= b.start && 0 < b.length
  {
    Decimal(b.start) + "-" + Decimal(b.start + b.length - 1)
  }

  function PrintBlocks(bs: seq<Block>, size: int64): (r: seq<string>)
    requires Inside(bs, size)
  {
    seq(|bs|, i requires 0 <= i < |bs| => PrintBlock(bs[i]))
  }

  function PrintHeader(bs: seq<Block>, size: int64): string
    requires bs != [] && Inside(bs, size)
  {
    UNIT + Join(PrintBlocks(bs, size), ',')
  }

  lemma PrintedBlock(b: Block, size: int64)
    requires Inside([b], size)
    ensures ParseSpec(PrintBlock(b)) == Some(Span(b.start, b.End() - 1)) && ',' !in PrintBlock(b)
  {
    assert b in [b];
    ParseDecimal(b.start);
    ParseDecimal(b.End() - 1);
    hide ParseInt, Decimal, ParseSpec, AllDigits;
    NoSign(Decimal(b.start));
    NoSign(Decimal(b.End() - 1));
    PairParses(Decimal(b.start), Decimal(b.End() - 1), b.start, b.End() - 1);
  }

  lemma PairParses(a: string, b: string, first: int64, last: int64)
    requires a != "" && b != "" && AllDigits(a) && AllDigits(b) && '-' !in a
    requires ParseInt(a) == Some(first) && ParseInt(b) == Some(last) && 0 <= first
    ensures ParseSpec(a + "-" + b) == Some(Span(first, last))
  {
    var v := a + "-" + b;
    assert v[0] == a[0] && v[|v| - 1] == b[|b| - 1];
    assert IsDigit(a[0]) && IsDigit(b[|b| - 1]);
    hide AllDigits, ParseInt;
    assert TrimSpace(v) == v;
    CutAtFirst(a, '-', b);
    hide Cut, TrimSpace;
  }

  lemma NoSign(s: string)
    requires AllDigits(s)
    ensures '-' !in s && ',' !in s
  {
  }

  lemma PrintedPiece(bs: seq<Block>, size: int64, i: nat, x: int)
    requires Inside(bs, size) && i < |bs|
    ensures ',' !in PrintBlocks(bs, size)[i]
    ensures PieceAsks(PrintBlocks(bs, size)[i], size, x) <==> bs[i].Holds(x)
  {
    hide PrintBlock, ParseSpec;
    assert bs[i] in bs;
    PrintedBlock(bs[i], size);
  }

  lemma PrintedBlocks(bs: seq<Block>, size: int64)
    requires Inside(bs, size)
    ensures forall p <- PrintBlocks(bs, size) :: ',' !in p
    ensures forall x :: InBlocks(bs, x) <==> exists p <- PrintBlocks(bs, size) :: PieceAsks(p, size, x)
  {
    hide PieceAsks, Inside;
    var pieces := PrintBlocks(bs, size);
    assert |pieces| == |bs|;
    hide PrintBlocks;
    forall p | p in pieces ensures ',' !in p {
      var i: nat :| i < |pieces| && pieces[i] == p;
      PrintedPiece(bs, size, i, 0);
    }
    forall x ensures InBlocks(bs, x) <==> exists p <- pieces :: PieceAsks(p, size, x) {
      if b :| b in bs && b.Holds(x) {
        var i: nat :| i < |bs| && bs[i] == b;
        PrintedPiece(bs, size, i, x);
        assert pieces[i] in pieces;
      }
      if p :| p in pieces && PieceAsks(p, size, x) {
        var i: nat :| i < |pieces| && pieces[i] == p;
        PrintedPiece(bs, size, i, x);
        assert bs[i] in bs;
      }
    }
  }

  /** Printing blocks as a header and reading it again gives the same blocks. */
  lemma PrintThenRead(bs: seq<Block>, size: int64)
    requires 0 <= size && Normal(bs, size) && bs != []
    ensures Runs(Bytes(PrintHeader(bs, size), size), size) == bs
  {
    var pieces, header := PrintBlocks(bs, size), PrintHeader(bs, size);
    assert header[|UNIT|..] == Join(pieces, ',');
    hide PrintBlocks, PieceAsks, Runs, InBlocks, Join, Split;
    PrintedBlocks(bs, size);
    JoinThenSplit(pieces, ',');
    Settled(header, size, bs);
  }

  // ---------------------------------------------------------------------
  // The response
  // ---------------------------------------------------------------------

  /** A stretch of the file, and the Content-Range that goes with it. */
  datatype Part<T> = Part(range: Option<string>, bytes: seq<T>)

  datatype Response<T> = Response(status: nat, range: Option<string>, length: Option<int>, parts: seq<Part<T>>)

  function Label(b: Block, size: int): string
    requires 0 <= b.start && 0 < b.length && b.End() <= size
  {
    "bytes " + PrintBlock(b) + "/" + Decimal(size)
  }

  function Slice<T>(file: seq<T>, b: Block): seq<T>
    requires 0 <= b.start && 0 < b.length && b.End() <= |file|
  {
    file[b.start..b.End()]
  }

  /** All slices of normal blocks, one after the other. */
  function Slices<T>(file: seq<T>, bs: seq<Block>): seq<T>
    requires Inside(bs, |file|)
  {
    if bs == [] then []
    else
      assert bs[|bs| - 1] in bs;
      Slices(file, bs[..|bs| - 1]) + Slice(file, bs[|bs| - 1])
  }

  /** The elements of the file at the positions in `s`, in file order. */
  function Pick<T>(file: seq<T>, s: set<int>, n: nat): seq<T>
    requires n <= |file|
  {
    if n == 0 then [] else Pick(file, s, n - 1) + (if n - 1 in s then [file[n - 1]] else [])
  }

  lemma SnocSlices<T>(file: seq<T>, bs: seq<Block>, b: Block)
    requires Inside(bs + [b], |file|)
    ensures Inside(bs, |file|) && b in bs + [b]
    ensures Slices(file, bs + [b]) == Slices(file, bs) + Slice(file, b)
  {
    var r := bs + [b];
    assert r[|bs|] == b && r[..|bs|] == bs;
    assert forall c <- bs :: c in r;
  }

  lemma SliceGrows<T>(file: seq<T>, a: int64, n: int64)
    requires 0 <= a < n - 1 < |file|
    ensures Slice(file, Block(a, n - a)) == Slice(file, Block(a, n - 1 - a)) + [file[n - 1]]
  {
  }

  lemma GrowSlices<T>(file: seq<T>, front: seq<Block>, a: int64, n: int64)
    requires 0 <= a < n - 1 < |file|
    requires Inside(front + [Block(a, n - 1 - a)], |file|) && Inside(front + [Block(a, n - a)], |file|)
    ensures Slices(file, front + [Block(a, n - a)]) == Slices(file, front + [Block(a, n - 1 - a)]) + [file[n - 1]]
  {
    hide Slices, Slice;
    SnocSlices(file, front, Block(a, n - 1 - a));
    SnocSlices(file, front, Block(a, n - a));
    SliceGrows(file, a, n);
    Assoc(Slices(file, front), Slice(file, Block(a, n - 1 - a)), [file[n - 1]]);
  }

  lemma AbsorbSlices<T>(file: seq<T>, bs: seq<Block>, n: int64)
    requires 0 < n <= |file| && Normal(bs, n - 1)
    ensures Inside(bs, |file|) && Inside(Absorb(bs, Block(n - 1, 1), n), |file|)
    ensures Slices(file, Absorb(bs, Block(n - 1, 1), n)) == Slices(file, bs) + [file[n - 1]]
  {
    AbsorbInside(bs, n, |file|);
    AbsorbByte(bs, n);
    hide *;
    if bs == [] || bs[|bs| - 1].End() < n - 1 {
      SnocSlices(file, bs, Block(n - 1, 1));
      OneByte(file, n);
    } else {
      GrowSlices(file, bs[..|bs| - 1], bs[|bs| - 1].start, n);
    }
  }

  lemma AbsorbInside(bs: seq<Block>, n: int64, size: int)
    requires 0 < n <= size && Normal(bs, n - 1)
    ensures (bs != [] ==> bs[|bs| - 1].start <= n - 1) && Normal(bs, n) && Inside([Block(n - 1, 1)], n)
    ensures Inside(bs, size) && Inside(Absorb(bs, Block(n - 1, 1), n), size)
  {
    assert bs != [] ==> bs[|bs| - 1] in bs;
  }

  /** The next byte starts a new block or lengthens the last one. */
  lemma AbsorbByte(bs: seq<Block>, n: int64)
    requires 0 < n && Normal(bs, n - 1)
    ensures var r := Absorb(bs, Block(n - 1, 1), n);
      if bs == [] || bs[|bs| - 1].End() < n - 1 then r == bs + [Block(n - 1, 1)]
      else
        var front, a := bs[..|bs| - 1], bs[|bs| - 1].start;
        0 <= a < n - 1 && bs == front + [Block(a, n - 1 - a)] && r == front + [Block(a, n - a)]
  {
    assert bs != [] ==> bs[|bs| - 1] in bs;
  }

  lemma OneByte<T>(file: seq<T>, n: int64)
    requires 0 < n <= |file|
    ensures Slice(file, Block(n - 1, 1)) == [file[n - 1]]
  {
  }

  /** The slices of the runs of `s` hold every byte of `s` once and in order. */
  lemma {:induction false} RunsPick<T>(file: seq<T>, s: set<int>, n: int64)
    requires 0 <= n <= |file|
    ensures Inside(Runs(s, n), |file|) && Slices(file, Runs(s, n)) == Pick(file, s, n)
  {
    hide Absorb, Normal;
    if n > 0 {
      RunsPick(file, s, n - 1);
      AbsorbSlices(file, Runs(s, n - 1), n);
    } else {
      NoSlices(file);
    }
  }

  lemma NoSlices<T>(file: seq<T>)
    ensures Inside([], |file|) && Slices(file, []) == []
  {
  }

  function PartOf<T>(file: seq<T>, b: Block): Part<T>
    requires Inside([b], |file|)
  {
    assert b in [b];
    Part(Some(Label(b, |file|)), Slice(file, b))
  }

  /** Everything the response carries of the file. */
  function Body<T>(parts: seq<Part<T>>): seq<T> {
    if parts == [] then [] else Body(parts[..|parts| - 1]) + parts[|parts| - 1].bytes
  }

  predicate AreParts<T(==)>(file: seq<T>, blocks: seq<Block>, parts: seq<Part<T>>)
    requires Inside(blocks, |file|)
  {
    |parts| == |blocks| && forall i | 0 <= i < |parts| :: blocks[i] in blocks && parts[i] == PartOf(file, blocks[i])
  }

  lemma {:induction false} PartsHoldSlices<T>(file: seq<T>, blocks: seq<Block>, parts: seq<Part<T>>)
    requires Inside(blocks, |file|) && AreParts(file, blocks, parts)
    ensures Body(parts) == Slices(file, blocks)
    decreases |parts|
  {
    if parts != [] {
      var n := |parts| - 1;
      FrontParts(file, blocks, parts);
      assert parts[n].bytes == Slice(file, blocks[n]);
      hide AreParts, Inside, Slice;
      PartsHoldSlices(file, blocks[..n], parts[..n]);
    }
  }

  lemma FrontParts<T>(file: seq<T>, blocks: seq<Block>, parts: seq<Part<T>>)
    requires Inside(blocks, |file|) && AreParts(file, blocks, parts) && parts != []
    ensures Inside(blocks[..|parts| - 1], |file|) && AreParts(file, blocks[..|parts| - 1], parts[..|parts| - 1])
  {
    var n := |parts| - 1;
    assert forall b <- blocks[..n] :: b in blocks;
    hide PartOf;
    assert forall i | 0 <= i < n :: blocks[..n][i] == blocks[i] && parts[..n][i] == parts[i];
  }

  /** The parts of a multipart body. */
  method WriteParts<T(==)>(file: seq<T>, blocks: seq<Block>) returns (parts: seq<Part<T>>)
    requires Inside(blocks, |file|)
    ensures AreParts(file, blocks, parts)
  {
    parts := [];
    for i := 0 to |blocks|
      invariant |parts| == i
      invariant forall j | 0 <= j < i :: blocks[j] in blocks && parts[j] == PartOf(file, blocks[j])
    {
      var b := blocks[i];
      assert b in blocks;
      parts := parts + [Part(Some(Label(b, |file|)), file[b.start..b.start + b.length])];
    }
  }

  /** `setHeader` from the size on, then `body`. `applies` is the verdict of If-Range. */
  method Respond<T(==)>(file: seq<T>, header: string, applies: bool, head: bool) returns (r: Response<T>)
    requires |file| < TWO63
    ensures file == [] ==> r == Response(200, None, Some(0), [])
    ensures file != [] && (header == "" || !applies) ==>
      r.status == 200 && r.range == None && r.length == Some(|file|) && Body(r.parts) == if head then [] else file
    ensures file != [] && header != "" && applies ==>
      var s := Bytes(header, |file|);
      var bs := Runs(s, |file|);
      if s == {} then r == Response(416, Some("bytes */" + Decimal(|file|)), Some(0), [])
      else
        && r.status == 206 && Body(r.parts) == (if head then [] else Pick(file, s, |file|))
        && (|bs| == 1 ==> r.range == Some(Label(bs[0], |file|)) && r.length == Some(|s|))
        && (|bs| > 1 ==> r.range == None && r.length == None && (!head ==> AreParts(file, bs, r.parts)))
  {
    var size: int64 := |file|;
    if size == 0 {
      return Response(200, None, Some(0), []);
    }
    if header == "" || !applies {
      return Response(200, None, Some(size), if head then [] else [Part(None, file)]);
    }
    if !(UNIT <= header) {
      NotInBytes(header, size);
      assert Bytes(header, size) == {};
      return Response(416, Some("bytes */" + Decimal(size)), Some(0), []);
    }
    var blocks, total := Ranges(header, size);
    var s := Bytes(header, size);
    Count(s, size);
    RunsPick(file, s, size);
    hide Bytes, Runs, Pick;
    assert blocks == [] <==> s == {} by { NoBytes(blocks, s); }
    if blocks == [] {
      return Response(416, Some("bytes */" + Decimal(size)), Some(0), []);
    }
    if total > size {
      assert false;
    }
    if |blocks| == 1 {
      var b := blocks[0];
      r := Response(206, Some(Label(b, size)), Some(b.length),
                    if head then [] else [Part(None, file[b.start..b.start + b.length])]);
    } else if head {
      r := Response(206, None, None, []);
    } else {
      var parts := WriteParts(file, blocks);
      PartsHoldSlices(file, blocks, parts);
      r := Response(206, None, None, parts);
    }
  }

  lemma NoBytes(bs: seq<Block>, s: set<int>)
    requires Total(bs) == |s| && forall b <- bs :: 0 < b.length
    ensures bs == [] <==> s == {}
  {
    if bs != [] { PositiveTotal(bs); }
  }

  lemma {:induction false} PositiveTotal(bs: seq<Block>)
    requires bs != [] && forall b <- bs :: 0 < b.length
    ensures 0 < Total(bs)
  {
    assert bs[|bs| - 1] in bs;
    if |bs| > 1 { PositiveTotal(bs[..|bs| - 1]); }
  }
}
