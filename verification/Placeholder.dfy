/**
  Placeholder segments such as `b{id}b`: the segment grammar with its inverse,
  and the matcher, which scans once and never backtracks.
 */
module Placeholder {
  import opened Wrappers

  /** `segmentPart` */
  datatype Part = Lit(text: string) | Param(name: string)

  function Text(p: Part): string { if p.Lit? then p.text else p.name }

  // ---------------------------------------------------------------------
  // The grammar
  // ---------------------------------------------------------------------

  function RenderPart(p: Part): string {
    match p
    case Lit(t) => t
    case Param(n) => "{" + n + "}"
  }

  function Render(parts: seq<Part>): string {
    if parts == [] then "" else Render(parts[..|parts| - 1]) + RenderPart(parts[|parts| - 1])
  }

  predicate BraceFree(s: string) { '{' !in s && '}' !in s }

  /** Non-empty brace-free texts and names, strictly alternating. */
  predicate Alternating(parts: seq<Part>) {
    && (forall p <- parts :: GoodText(p))
    && (forall i | 0 <= i < |parts| - 1 :: parts[i].Lit? != parts[i + 1].Lit?)
  }

  predicate NoAdjacentParams(parts: seq<Part>) {
    forall i | 0 <= i < |parts| - 1 :: !(parts[i].Param? && parts[i + 1].Param?)
  }

  /** The scanner's state between two characters. */
  datatype Scan = Scan(parts: seq<Part>, buffer: string, inside: bool) | Bad

  function Flush(parts: seq<Part>, buffer: string): seq<Part> {
    if buffer == "" then parts else parts + [Lit(buffer)]
  }

  function ScanChar(s: Scan, c: char): Scan {
    if s.Bad? then Bad
    else if c == '{' then if s.inside then Bad else Scan(Flush(s.parts, s.buffer), "", true)
    else if c == '}' then
      if !s.inside || s.buffer == "" then Bad else Scan(s.parts + [Param(s.buffer)], "", false)
    else Scan(s.parts, s.buffer + [c], s.inside)
  }

  function ScanAll(seg: string): Scan {
    if seg == "" then Scan([], "", false) else ScanChar(ScanAll(seg[..|seg| - 1]), seg[|seg| - 1])
  }

  /** `parsePlaceholderSegment` */
  function ParseSegment(seg: string): Option<seq<Part>> {
    var s := ScanAll(seg);
    if s.Bad? || s.inside then None
    else if NoAdjacentParams(Flush(s.parts, s.buffer)) then Some(Flush(s.parts, s.buffer))
    else None
  }

  method ParsePlaceholderSegment(seg: string) returns (r: Option<seq<Part>>)
    ensures r == ParseSegment(seg)
  {
    var parts: seq<Part> := [];
    var buffer := "";
    var inside := false;
    for i := 0 to |seg|
      invariant ScanAll(seg[..i]) == Scan(parts, buffer, inside)
    {
      assert seg[..i + 1][..i] == seg[..i];
      var c := seg[i];
      if c == '{' {
        if inside {
          BadStays(seg, i + 1);
          return None;
        }
        if |buffer| > 0 {
          parts := parts + [Lit(buffer)];
          buffer := "";
        }
        inside := true;
      } else if c == '}' {
        if !inside || |buffer| == 0 {
          BadStays(seg, i + 1);
          return None;
        }
        parts := parts + [Param(buffer)];
        buffer := "";
        inside := false;
      } else {
        buffer := buffer + [c];
      }
    }
    assert seg[..|seg|] == seg;
    if inside {
      return None;
    }
    if |buffer| > 0 {
      parts := parts + [Lit(buffer)];
    }
    var i := 0;
    while i < |parts| - 1
      invariant 0 <= i && (i == 0 || i < |parts|)
      invariant forall j | 0 <= j < i :: !(parts[j].Param? && parts[j + 1].Param?)
    {
      if parts[i].Param? && parts[i + 1].Param? {
        return None;
      }
      i := i + 1;
    }
    return Some(parts);
  }

  lemma {:induction false} BadStays(seg: string, n: nat)
    requires n <= |seg| && ScanAll(seg[..n]).Bad?
    ensures ScanAll(seg).Bad?
    decreases |seg|
  {
    if n == |seg| {
      assert seg[..n] == seg;
    } else {
      assert seg[..|seg| - 1][..n] == seg[..n];
      BadStays(seg[..|seg| - 1], n);
    }
  }

  lemma RenderSnoc(parts: seq<Part>, p: Part)
    ensures Render(parts + [p]) == Render(parts) + RenderPart(p)
  {
    assert (parts + [p])[..|parts|] == parts;
  }

  predicate GoodText(p: Part) { Text(p) != "" && BraceFree(Text(p)) }

  /** Good texts, and no two literals in a row. */
  predicate Merged(parts: seq<Part>) {
    && (forall p <- parts :: GoodText(p))
    && (forall i | 0 <= i < |parts| - 1 :: parts[i].Param? || parts[i + 1].Param?)
  }

  lemma MergedSnoc(parts: seq<Part>, p: Part)
    requires Merged(parts) && GoodText(p) && (p.Param? || parts == [] || parts[|parts| - 1].Param?)
    ensures Merged(parts + [p])
  {
  }

  lemma RenderFlush(parts: seq<Part>, buffer: string)
    ensures Render(Flush(parts, buffer)) == Render(parts) + buffer
  {
    RenderSnoc(parts, Lit(buffer));
  }

  function ReadBack(s: Scan): string
    requires s.Scan?
  {
    Render(s.parts) + (if s.inside then "{" else "") + s.buffer
  }

  lemma ReadsChar(s: Scan, c: char)
    requires s.Scan? && ScanChar(s, c).Scan?
    ensures ReadBack(ScanChar(s, c)) == ReadBack(s) + [c]
  {
    var r := Render(s.parts);
    if c == '{' {
      RenderFlush(s.parts, s.buffer);
      hide *;
      Assoc(r, "", s.buffer);
      Assoc(r + s.buffer, "{", "");
    } else if c == '}' {
      RenderSnoc(s.parts, Param(s.buffer));
      hide Render;
      Assoc(r, "{" + s.buffer, "}");
      Assoc(r, "{", s.buffer);
      Assoc(r + ("{" + s.buffer + "}"), "", "");
    } else {
      hide Render;
      Assoc(r + (if s.inside then "{" else ""), s.buffer, [c]);
    }
  }

  /** What the scanner has read so far is what it has collected. */
  lemma {:induction false} ScanReads(seg: string)
    ensures ScanAll(seg).Scan? ==> seg == ReadBack(ScanAll(seg))
    decreases |seg|
  {
    if seg != "" {
      hide ReadBack, ScanChar;
      var n := |seg| - 1;
      ScanReads(seg[..n]);
      assert seg == seg[..n] + [seg[n]];
      if ScanAll(seg).Scan? {
        assert ScanAll(seg[..n]).Scan? by { BadGoesOn(seg[n]); }
        ReadsChar(ScanAll(seg[..n]), seg[n]);
      }
    } else {
      assert Render([]) == "";
    }
  }

  lemma BadGoesOn(c: char)
    ensures ScanChar(Bad, c) == Bad
  {
  }

  lemma {:induction false} ScanMerges(seg: string)
    ensures var s := ScanAll(seg);
      s.Scan? ==>
        && BraceFree(s.buffer) && Merged(s.parts)
        && (!s.inside && s.parts != [] ==> s.parts[|s.parts| - 1].Param?)
    decreases |seg|
  {
    if seg != "" {
      var n := |seg| - 1;
      ScanMerges(seg[..n]);
      var s := ScanAll(seg[..n]);
      if s.Scan? {
        hide Merged;
        if s.buffer != "" && !s.inside { MergedSnoc(s.parts, Lit(s.buffer)); }
        if s.buffer != "" { MergedSnoc(s.parts, Param(s.buffer)); }
      }
    }
  }

  /** An accepted segment has alternating parts, and they render to the segment. */
  lemma ParseThenRender(seg: string)
    requires ParseSegment(seg).Some?
    ensures Alternating(ParseSegment(seg).value) && Render(ParseSegment(seg).value) == seg
  {
    hide ScanAll, Render, Alternating, Merged, BraceFree;
    ScanReads(seg);
    ScanMerges(seg);
    var s := ScanAll(seg);
    RenderFlush(s.parts, s.buffer);
    assert Render(s.parts) + "" + s.buffer == Render(s.parts) + s.buffer;
    if s.buffer != "" { MergedSnoc(s.parts, Lit(s.buffer)); }
    MergedAlternates(Flush(s.parts, s.buffer));
  }

  lemma MergedAlternates(parts: seq<Part>)
    requires Merged(parts) && NoAdjacentParams(parts)
    ensures Alternating(parts)
  {
  }

  lemma {:induction false} ScanText(seg: string, t: string)
    requires ScanAll(seg).Scan? && BraceFree(t)
    ensures var s := ScanAll(seg); ScanAll(seg + t) == Scan(s.parts, s.buffer + t, s.inside)
    decreases |t|
  {
    hide ScanAll;
    var s := ScanAll(seg);
    if t == "" {
      assert seg + t == seg && s.buffer + t == s.buffer;
    } else {
      var front, c := t[..|t| - 1], t[|t| - 1];
      assert t == front + [c] && c in t;
      ScanText(seg, front);
      ScanSnoc(seg + front, c);
      Assoc(seg, front, [c]);
      Assoc(s.buffer, front, [c]);
    }
  }

  lemma ScanSnoc(seg: string, c: char)
    ensures ScanAll(seg + [c]) == ScanChar(ScanAll(seg), c)
  {
    assert (seg + [c])[..|seg|] == seg;
  }

  lemma ScanParam(seg: string, n: string)
    requires ScanAll(seg).Scan? && !ScanAll(seg).inside && n != "" && BraceFree(n)
    ensures var s := ScanAll(seg);
            ScanAll(seg + RenderPart(Param(n))) == Scan(Flush(s.parts, s.buffer) + [Param(n)], "", false)
  {
    hide ScanAll, BraceFree;
    ScanSnoc(seg, '{');
    ScanText(seg + "{", n);
    ScanSnoc(seg + "{" + n, '}');
    Assoc(n, "", "");
    Assoc(seg, "{" + n, "}");
    Assoc(seg, "{", n);
  }

  /** The scan of a rendering has just read these parts. */
  ghost predicate Scanned(s: Scan, parts: seq<Part>) {
    && s.Scan? && !s.inside && Flush(s.parts, s.buffer) == parts
    && (parts == [] || parts[|parts| - 1].Param? ==> s.buffer == "")
  }

  lemma ScanLit(front: seq<Part>, seg: string, t: string)
    requires Scanned(ScanAll(seg), front) && GoodText(Lit(t)) && (front == [] || front[|front| - 1].Param?)
    ensures Scanned(ScanAll(seg + t), front + [Lit(t)])
  {
    hide ScanAll;
    ScanText(seg, t);
    assert "" + t == t;
  }

  lemma ScanName(front: seq<Part>, seg: string, n: string)
    requires Scanned(ScanAll(seg), front) && GoodText(Param(n))
    ensures Scanned(ScanAll(seg + RenderPart(Param(n))), front + [Param(n)])
  {
    hide ScanAll;
    ScanParam(seg, n);
  }

  lemma AlternatingSnoc(front: seq<Part>, p: Part)
    requires Alternating(front + [p])
    ensures Alternating(front) && GoodText(p) && (front != [] ==> front[|front| - 1].Lit? != p.Lit?)
  {
    var parts := front + [p];
    assert parts[|front|] == p && p in parts;
    assert forall q <- front :: q in parts;
    assert forall i | 0 <= i < |front| :: parts[i] == front[i];
  }

  lemma {:induction false} ScanRendered(parts: seq<Part>)
    requires Alternating(parts)
    ensures Scanned(ScanAll(Render(parts)), parts)
    decreases |parts|
  {
    if parts != [] {
      var front, p := parts[..|parts| - 1], parts[|parts| - 1];
      assert Render(parts) == Render(front) + RenderPart(p);
      assert parts == front + [p] && RenderPart(p) == if p.Lit? then p.text else RenderPart(p);
      hide *;
      AlternatingSnoc(front, p);
      ScanRendered(front);
      match p
      case Lit(t) => ScanLit(front, Render(front), t);
      case Param(n) => ScanName(front, Render(front), n);
    }
  }

  /** Every alternating list of parts is what its rendering parses to. */
  lemma RenderThenParse(parts: seq<Part>)
    requires Alternating(parts)
    ensures ParseSegment(Render(parts)) == Some(parts)
  {
    ScanRendered(parts);
  }

  /** The accepted segments are exactly the renderings of alternating lists. */
  lemma AcceptedSegments(seg: string)
    ensures ParseSegment(seg).Some? <==> exists parts :: Alternating(parts) && Render(parts) == seg
  {
    if ParseSegment(seg).Some? { ParseThenRender(seg); }
    forall parts | Alternating(parts) && Render(parts) == seg ensures ParseSegment(seg).Some? {
      RenderThenParse(parts);
    }
  }

  // ---------------------------------------------------------------------
  // The matcher
  // ---------------------------------------------------------------------

  /** `strings.Index`: the first occurrence of `t` in `u`. */
  function Find(u: string, t: string): (r: Option<nat>)
    ensures r.Some? ==> r.value <= |u|
  {
    if t <= u then Some(0)
    else if u == "" then None
    else
      var rest := Find(u[1..], t);
      if rest.None? then None else Some(rest.value + 1)
  }

  lemma {:induction false} FindIsFirst(u: string, t: string)
    ensures Find(u, t).Some? ==> Find(u, t).value <= |u| && t <= u[Find(u, t).value..]
    ensures forall k | 0 <= k <= |u| && t <= u[k..] :: Find(u, t).Some? && Find(u, t).value <= k
    decreases |u|
  {
    if !(t <= u) && u != "" {
      FindIsFirst(u[1..], t);
      forall k | 0 <= k <= |u| && t <= u[k..] ensures Find(u, t).Some? && Find(u, t).value <= k {
        assert k > 0;
        assert u[1..][k - 1..] == u[k..];
      }
      if Find(u, t).Some? { assert u[1..][Find(u, t).value - 1..] == u[Find(u, t).value..]; }
    }
  }

  /** The captures of the single left-to-right scan. */
  function Extract(parts: seq<Part>, u: string): Option<seq<string>>
    decreases |parts|
  {
    if parts == [] then if u == "" then Some([]) else None
    else if parts[0].Lit? then
      if parts[0].text <= u then Extract(parts[1..], u[|parts[0].text|..]) else None
    else if |parts| == 1 then Some([u])
    else
      var j := Find(u, Text(parts[1]));
      if j.None? then None
      else
        var rest := Extract(parts[1..], u[j.value..]);
        if rest.None? then None else Some([u[..j.value]] + rest.value)
  }

  function Params(parts: seq<Part>): nat {
    if parts == [] then 0 else Params(parts[1..]) + if parts[0].Param? then 1 else 0
  }

  /** The segment that the captures make of the pattern. */
  function Fill(parts: seq<Part>, caps: seq<string>): string
    requires |caps| == Params(parts)
    decreases |parts|
  {
    if parts == [] then ""
    else if parts[0].Lit? then parts[0].text + Fill(parts[1..], caps)
    else caps[0] + Fill(parts[1..], caps[1..])
  }

  ghost predicate Decomposes(parts: seq<Part>, caps: seq<string>, u: string) {
    |caps| == Params(parts) && Fill(parts, caps) == u
  }

  /** Every capture stops at the first occurrence of the text that follows it. */
  ghost predicate Leftmost(parts: seq<Part>, caps: seq<string>)
    requires |caps| == Params(parts)
    decreases |parts|
  {
    if parts == [] then true
    else if parts[0].Lit? then Leftmost(parts[1..], caps)
    else if |parts| == 1 then true
    else Find(Fill(parts, caps), Text(parts[1])) == Some(|caps[0]|) && Leftmost(parts[1..], caps[1..])
  }

  lemma LitLeftmost(parts: seq<Part>, u: string, caps: seq<string>)
    requires parts != [] && parts[0].Lit?
    ensures Decomposes(parts, caps, u) && Leftmost(parts, caps) <==>
      var t := parts[0].text; t <= u && Decomposes(parts[1..], caps, u[|t|..]) && Leftmost(parts[1..], caps)
  {
    var t := parts[0].text;
    assert t <= u ==> u == t + u[|t|..];
    hide Find, Text;
  }

  lemma ParamLeftmost(parts: seq<Part>, u: string, caps: seq<string>)
    requires |parts| > 1 && parts[0].Param?
    ensures Decomposes(parts, caps, u) && Leftmost(parts, caps) <==>
      var j := Find(u, Text(parts[1]));
      && j.Some? && caps != [] && caps[0] == u[..j.value]
      && Decomposes(parts[1..], caps[1..], u[j.value..]) && Leftmost(parts[1..], caps[1..])
  {
    hide Find, Text;
    var j := Find(u, Text(parts[1]));
    if j.Some? { assert u == u[..j.value] + u[j.value..]; }
    if Decomposes(parts, caps, u) {
      assert u == caps[0] + Fill(parts[1..], caps[1..]);
      assert u[..|caps[0]|] == caps[0] && u[|caps[0]|..] == Fill(parts[1..], caps[1..]);
    }
  }

  /** The matcher succeeds with `caps` exactly when they are the leftmost decomposition. */
  lemma {:induction false} ExtractIsLeftmost(parts: seq<Part>, u: string, caps: seq<string>)
    ensures Extract(parts, u) == Some(caps) <==> Decomposes(parts, caps, u) && Leftmost(parts, caps)
    decreases |parts|
  {
    if parts == [] {
    } else if parts[0].Lit? {
      LitLeftmost(parts, u, caps);
      hide Decomposes, Leftmost;
      var t := parts[0].text;
      if t <= u { ExtractIsLeftmost(parts[1..], u[|t|..], caps); }
    } else if |parts| == 1 {
      if |caps| == 1 { assert Fill(parts, caps) == caps[0] && caps == [caps[0]]; }
    } else {
      ParamLeftmost(parts, u, caps);
      hide Decomposes, Leftmost, Find, Text;
      var j := Find(u, Text(parts[1]));
      if j.Some? && caps != [] {
        ExtractIsLeftmost(parts[1..], u[j.value..], caps[1..]);
        assert caps == [caps[0]] + caps[1..];
      }
    }
  }

  /** On success the captures rebuild the segment. */
  lemma ExtractRebuilds(parts: seq<Part>, u: string)
    requires Extract(parts, u).Some?
    ensures Decomposes(parts, Extract(parts, u).value, u)
  {
    ExtractIsLeftmost(parts, u, Extract(parts, u).value);
  }

  predicate EndsInParam(parts: seq<Part>) { parts != [] && parts[|parts| - 1].Param? }

  /** A pattern that ends in a placeholder matches longer segments too: text put
      before a match goes into the first capture. */
  lemma Absorb(parts: seq<Part>, caps: seq<string>, u: string, x: string)
    requires parts != [] && parts[0].Param? && Decomposes(parts, caps, u)
    ensures Decomposes(parts, [x + caps[0]] + caps[1..], x + u)
  {
    assert ([x + caps[0]] + caps[1..])[1..] == caps[1..];
  }

  /** A placeholder and the literal after it. */
  lemma PairUnfolds(parts: seq<Part>)
    requires Alternating(parts) && |parts| > 1 && parts[0].Param?
    ensures parts[1].Lit? && parts[1].text != "" && Alternating(parts[2..]) && Params(parts) == 1 + Params(parts[2..])
    ensures EndsInParam(parts) <==> EndsInParam(parts[2..])
  {
    assert parts[1..][1..] == parts[2..];
    assert parts[1] in parts && parts[1..][0] == parts[1];
    assert Params(parts) == 1 + Params(parts[1..]);
    assert Params(parts[1..]) == Params(parts[2..]);
  }

  lemma PairFills(parts: seq<Part>, caps: seq<string>)
    requires Alternating(parts) && |parts| > 1 && parts[0].Param? && |caps| == Params(parts)
    ensures |caps| == 1 + Params(parts[2..])
            && Fill(parts, caps) == caps[0] + (Text(parts[1]) + Fill(parts[2..], caps[1..]))
  {
    PairUnfolds(parts);
    assert parts[1..][1..] == parts[2..];
    assert Fill(parts[1..], caps[1..]) == parts[1].text + Fill(parts[2..], caps[1..]);
  }

  lemma ParamExtracts(parts: seq<Part>, u: string)
    requires |parts| > 1 && parts[0].Param?
    ensures var j := Find(u, Text(parts[1]));
      Extract(parts, u).Some? <==> j.Some? && Extract(parts[1..], u[j.value..]).Some?
  {
    hide Find, Text;
  }

  lemma LitExtracts(parts: seq<Part>, u: string)
    requires parts != [] && parts[0].Lit? && Text(parts[0]) <= u
    ensures Extract(parts, u) == Extract(parts[1..], u[|Text(parts[0])|..])
  {
  }

  lemma PairExtracts(parts: seq<Part>, u: string)
    requires Alternating(parts) && |parts| > 1 && parts[0].Param?
    ensures var j, n := Find(u, Text(parts[1])), |Text(parts[1])|;
      && (j.Some? ==> j.value + n <= |u|)
      && (Extract(parts, u).Some? <==> j.Some? && Extract(parts[2..], u[j.value + n..]).Some?)
  {
    hide *;
    PairUnfolds(parts);
    var t := Text(parts[1]);
    FindIsFirst(u, t);
    ParamExtracts(parts, u);
    var j := Find(u, t);
    if j.Some? {
      var tail, v := parts[1..], u[j.value..];
      assert tail[0] == parts[1];
      LitExtracts(tail, v);
      Drops(parts, 1, 1);
      Drops(u, j.value, |t|);
    }
  }

  lemma Drops<T>(s: seq<T>, i: nat, j: nat)
    requires i + j <= |s|
    ensures s[i..][j..] == s[i + j..]
  {
  }

  lemma LitFills(parts: seq<Part>, caps: seq<string>, u: string)
    requires |parts| > 1 && parts[0].Lit? && Decomposes(parts, caps, u)
    ensures Text(parts[0]) <= u && Decomposes(parts[1..], caps, u[|Text(parts[0])|..])
  {
    var t := Text(parts[0]);
    assert u == t + Fill(parts[1..], caps);
    hide Fill;
    assert u[|t|..] == Fill(parts[1..], caps);
  }

  lemma LitUnfolds(parts: seq<Part>)
    requires Alternating(parts) && EndsInParam(parts) && parts[0].Lit?
    ensures |parts| > 1 && Alternating(parts[1..]) && EndsInParam(parts[1..])
  {
  }

  lemma PairRest(parts: seq<Part>)
    requires Alternating(parts) && EndsInParam(parts) && |parts| > 1 && parts[0].Param?
    ensures parts[2..] != [] && parts[2..][0].Param? && EndsInParam(parts[2..])
  {
    assert parts[0].Lit? != parts[1].Lit?;
    assert |parts| > 2 ==> parts[1].Lit? != parts[2].Lit?;
  }

  lemma DecomposedBy(parts: seq<Part>, caps: seq<string>, u: string)
    requires EndsInParam(parts) && Decomposes(parts, caps, u)
    ensures parts != [] && |caps| == Params(parts) && u == Fill(parts, caps)
  {
  }

  lemma LoneParam(parts: seq<Part>, u: string)
    requires |parts| == 1 && parts[0].Param?
    ensures Extract(parts, u) == Some([u])
  {
  }

  /** Ending in a placeholder, the scan succeeds whenever any decomposition exists. */
  lemma {:induction false} CompleteAtParam(parts: seq<Part>, caps: seq<string>, u: string)
    requires Alternating(parts) && EndsInParam(parts) && Decomposes(parts, caps, u)
    ensures Extract(parts, u).Some?
    decreases |parts|
  {
    DecomposedBy(parts, caps, u);
    hide *;
    if parts[0].Lit? {
      LitUnfolds(parts);
      LitFills(parts, caps, u);
      LitExtracts(parts, u);
      CompleteAtParam(parts[1..], caps, u[|Text(parts[0])|..]);
    } else if |parts| == 1 {
      LoneParam(parts, u);
    } else {
      CompleteAtPair(parts, caps, u);
    }
  }

  lemma CompleteAtPair(parts: seq<Part>, caps: seq<string>, u: string)
    requires Alternating(parts) && EndsInParam(parts) && |parts| > 1 && parts[0].Param?
    requires |caps| == Params(parts) && u == Fill(parts, caps)
    ensures Extract(parts, u).Some?
    decreases |parts|, 0
  {
    hide *;
    PairUnfolds(parts);
    PairRest(parts);
    PairFills(parts, caps);
    PairExtracts(parts, u);
    CompletePair(Text(parts[1]), caps[0], parts[2..], caps[1..]);
  }

  lemma Remainder(c: string, t: string, tail: string, j: nat)
    requires j <= |c|
    ensures var u := c + (t + tail); u[j + |t|..] == u[j + |t|..|c| + |t|] + tail
  {
  }

  lemma AfterCapture(c: string, t: string, tail: string)
    ensures t <= (c + (t + tail))[|c|..]
  {
    assert (c + (t + tail))[|c|..] == t + tail;
  }

  /** The first occurrence of `t` leaves the rest of the pattern a longer text, which it absorbs. */
  lemma CompletePair(t: string, c: string, rest: seq<Part>, caps: seq<string>)
    requires rest != [] && rest[0].Param? && Alternating(rest) && EndsInParam(rest) && |caps| == Params(rest)
    ensures var u := c + (t + Fill(rest, caps));
      Find(u, t).Some? && Find(u, t).value + |t| <= |u| && Extract(rest, u[Find(u, t).value + |t|..]).Some?
    decreases |rest| + 1
  {
    hide Fill, Find, Extract, Alternating, EndsInParam;
    var tail := Fill(rest, caps);
    AfterCapture(c, t, tail);
    FindIsFirst(c + (t + tail), t);
    var j := Find(c + (t + tail), t).value;
    Remainder(c, t, tail, j);
    var x := (c + (t + tail))[j + |t|..|c| + |t|];
    Absorb(rest, caps, tail, x);
    CompleteAtParam(rest, [x + caps[0]] + caps[1..], x + tail);
  }

  /** Empty captures, except that the last one repeats the text after it. */
  function Trap(parts: seq<Part>): seq<string>
    decreases |parts|
  {
    if parts == [] then []
    else if parts[0].Lit? then Trap(parts[1..])
    else if |parts| <= 2 then [Text(parts[|parts| - 1])]
    else [""] + Trap(parts[2..])
  }

  /** Ending in a literal after a placeholder, the scan misses some decomposition. */
  lemma {:induction false} IncompleteAtLiteral(parts: seq<Part>)
    requires Alternating(parts) && Params(parts) > 0 && !EndsInParam(parts)
    ensures |Trap(parts)| == Params(parts) && Extract(parts, Fill(parts, Trap(parts))).None?
    decreases |parts|
  {
    if parts[0].Lit? {
      IncompleteAtLiteral(parts[1..]);
      var t, rest := parts[0].text, Fill(parts[1..], Trap(parts[1..]));
      assert (t + rest)[|t|..] == rest;
    } else {
      PairUnfolds(parts);
      var t, rest := Text(parts[1]), parts[2..];
      if |parts| == 2 {
        PairFills(parts, [t]);
        assert rest == [] && t + "" == t && (t + t)[|t|..] == t;
        PairExtracts(parts, t + t);
        assert Find(t + t, t) == Some(0);
      } else {
        assert rest[0] == parts[2];
        IncompleteAtLiteral(rest);
        PairFills(parts, [""] + Trap(rest));
        assert ([""] + Trap(rest))[1..] == Trap(rest);
        var tail := Fill(rest, Trap(rest));
        assert "" + (t + tail) == t + tail && (t + tail)[|t|..] == tail;
        PairExtracts(parts, t + tail);
        assert Find(t + tail, t) == Some(0);
      }
    }
  }

  /** The matcher is complete for exactly the patterns that end in a placeholder or have none. */
  lemma CompletePatterns(parts: seq<Part>)
    requires Alternating(parts)
    ensures (forall u, caps :: Decomposes(parts, caps, u) ==> Extract(parts, u).Some?)
       <==> EndsInParam(parts) || Params(parts) == 0
  {
    if EndsInParam(parts) || Params(parts) == 0 {
      forall u, caps | Decomposes(parts, caps, u) ensures Extract(parts, u).Some? {
        if EndsInParam(parts) {
          CompleteAtParam(parts, caps, u);
        } else {
          LiteralOnly(parts, caps);
          ExtractIsLeftmost(parts, u, caps);
        }
      }
    } else {
      IncompleteAtLiteral(parts);
      assert Decomposes(parts, Trap(parts), Fill(parts, Trap(parts)));
    }
  }

  lemma {:induction false} LiteralOnly(parts: seq<Part>, caps: seq<string>)
    requires Params(parts) == 0 && caps == []
    ensures Leftmost(parts, caps)
    decreases |parts|
  {
    if parts != [] { LiteralOnly(parts[1..], caps); }
  }

  // ---------------------------------------------------------------------
  // The parameter map
  // ---------------------------------------------------------------------

  /** `result[name] = capture`, in pattern order. */
  function Bind(m: map<string, string>, parts: seq<Part>, caps: seq<string>): map<string, string>
    requires |caps| == Params(parts)
    decreases |parts|
  {
    if parts == [] then m
    else if parts[0].Lit? then Bind(m, parts[1..], caps)
    else Bind(m[parts[0].name := caps[0]], parts[1..], caps[1..])
  }

  predicate Names(parts: seq<Part>, n: string) { Param(n) in parts }

  /** Which capture a placeholder's name ends with: that of its last occurrence. */
  function LastCapture(parts: seq<Part>, caps: seq<string>, n: string): string
    requires |caps| == Params(parts) && Names(parts, n)
    decreases |parts|
  {
    if parts[0].Lit? then LastCapture(parts[1..], caps, n)
    else if Names(parts[1..], n) then LastCapture(parts[1..], caps[1..], n)
    else caps[0]
  }

  lemma {:induction false} BindKeepsLast(m: map<string, string>, parts: seq<Part>, caps: seq<string>, n: string)
    requires |caps| == Params(parts)
    ensures var r := Bind(m, parts, caps);
      if Names(parts, n) then n in r && r[n] == LastCapture(parts, caps, n)
      else (n in r <==> n in m) && (n in r ==> r[n] == m[n])
    decreases |parts|
  {
    if parts != [] {
      if parts[0].Lit? {
        BindKeepsLast(m, parts[1..], caps, n);
      } else {
        BindKeepsLast(m[parts[0].name := caps[0]], parts[1..], caps[1..], n);
      }
    }
  }

  /** The map that the rest of the pattern makes of the rest of the segment. */
  ghost function Outcome(m: map<string, string>, parts: seq<Part>, u: string): Option<map<string, string>> {
    if Extract(parts, u).None? then None
    else
      ExtractRebuilds(parts, u);
      Some(Bind(m, parts, Extract(parts, u).value))
  }

  lemma OutcomeLit(m: map<string, string>, parts: seq<Part>, u: string)
    requires parts != [] && parts[0].Lit?
    ensures Outcome(m, parts, u) ==
      if parts[0].text <= u then Outcome(m, parts[1..], u[|parts[0].text|..]) else None
  {
  }

  lemma OutcomeParam(m: map<string, string>, parts: seq<Part>, u: string, end: nat)
    requires parts != [] && parts[0].Param? && end <= |u|
    requires if |parts| == 1 then end == |u| else Find(u, Text(parts[1])) == Some(end)
    ensures Outcome(m, parts, u) == Outcome(m[parts[0].name := u[..end]], parts[1..], u[end..])
  {
    hide Find, Text;
    if |parts| == 1 {
      assert parts[1..] == [] && u[..end] == u && u[end..] == "";
      assert Extract(parts, u) == Some([u]);
      var caps := [u];
      assert caps[1..] == [];
    } else {
      var rest := Extract(parts[1..], u[end..]);
      if rest.Some? {
        var caps := [u[..end]] + rest.value;
        assert caps[1..] == rest.value;
      }
    }
  }

  lemma NothingFound(m: map<string, string>, parts: seq<Part>, u: string)
    requires |parts| > 1 && parts[0].Param? && Find(u, Text(parts[1])).None?
    ensures Outcome(m, parts, u) == None
  {
  }

  lemma OutcomeEnd(m: map<string, string>, u: string)
    ensures Outcome(m, [], u) == if u == "" then Some(m) else None
  {
  }

  lemma OutcomeMeans(parts: seq<Part>, u: string)
    ensures var r := Extract(parts, u);
      if r.None? then Outcome(map[], parts, u) == None
      else |r.value| == Params(parts) && Outcome(map[], parts, u) == Some(Bind(map[], parts, r.value))
  {
    if Extract(parts, u).Some? { ExtractRebuilds(parts, u); }
    hide Extract, Bind;
  }

  // The same at position `i` of the pattern and `at` of the segment.

  lemma OutcomeAtLit(m: map<string, string>, parts: seq<Part>, u: string, i: nat, at: nat)
    requires i < |parts| && at <= |u| && parts[i].Lit?
    ensures var n := |parts[i].text|;
      Outcome(m, parts[i..], u[at..]) ==
        if at + n <= |u| && u[at..at + n] == parts[i].text then Outcome(m, parts[i + 1..], u[at + n..]) else None
  {
    hide *;
    var t := parts[i].text;
    OutcomeLit(m, parts[i..], u[at..]);
    Drops(parts, i, 1);
    PrefixAt(t, u, at);
    if at + |t| <= |u| { Drops(u, at, |t|); }
  }

  lemma PrefixAt(t: string, u: string, at: nat)
    requires at <= |u|
    ensures t <= u[at..] <==> at + |t| <= |u| && u[at..at + |t|] == t
  {
    if at + |t| <= |u| { assert u[at..][..|t|] == u[at..at + |t|]; }
  }

  lemma OutcomeAtParam(m: map<string, string>, parts: seq<Part>, u: string, i: nat, at: nat, end: nat)
    requires i < |parts| && parts[i].Param? && at <= end <= |u|
    requires if i + 1 == |parts| then end == |u| else Find(u[at..], Text(parts[i + 1])) == Some(end - at)
    ensures Outcome(m, parts[i..], u[at..]) == Outcome(m[parts[i].name := u[at..end]], parts[i + 1..], u[end..])
  {
    hide *;
    OutcomeParam(m, parts[i..], u[at..], end - at);
    Drops(parts, i, 1);
    Drops(u, at, end - at);
    assert u[at..][..end - at] == u[at..end];
  }

  lemma NothingAt(m: map<string, string>, parts: seq<Part>, u: string, i: nat, at: nat)
    requires i + 1 < |parts| && at <= |u| && parts[i].Param? && Find(u[at..], Text(parts[i + 1])).None?
    ensures Outcome(m, parts[i..], u[at..]) == None
  {
    hide *;
    NothingFound(m, parts[i..], u[at..]);
  }

  method ExtractParams(parts: seq<Part>, u: string) returns (ok: bool, result: map<string, string>)
    ensures ok == Extract(parts, u).Some?
    ensures ok ==> |Extract(parts, u).value| == Params(parts) && result == Bind(map[], parts, Extract(parts, u).value)
  {
    hide *;
    OutcomeMeans(parts, u);
    ghost var all := Outcome(map[], parts, u);
    result := map[];
    var at := 0;
    assert parts[0..] == parts && u[0..] == u;
    for i := 0 to |parts|
      invariant 0 <= at <= |u|
      invariant all == Outcome(result, parts[i..], u[at..])
    {
      if parts[i].Lit? {
        OutcomeAtLit(result, parts, u, i, at);
        var n := |parts[i].text|;
        if at + n > |u| {
          return false, map[];
        }
        if u[at..at + n] != parts[i].text {
          return false, map[];
        }
        at := at + n;
      } else {
        var end := |u|;
        if i + 1 < |parts| {
          var found := Find(u[at..], Text(parts[i + 1]));
          if found.None? {
            NothingAt(result, parts, u, i, at);
            return false, map[];
          }
          end := at + found.value;
        }
        OutcomeAtParam(result, parts, u, i, at, end);
        result := result[parts[i].name := u[at..end]];
        at := end;
      }
    }
    OutcomeEnd(result, u[at..]);
    assert parts[|parts|..] == [];
    if at != |u| {
      return false, map[];
    }
    return true, result;
  }
}
