/**
  The router: matching a path segment by segment, and the route table, a map by
  url beside a list in registration order.
 */
module Route {
  import opened Wrappers
  import opened Text
  import opened Placeholder

  // ---------------------------------------------------------------------
  // Matching a path against a placeholder pattern
  // ---------------------------------------------------------------------

  /** The parts parsed at registration, if there are any, or parsed now. */
  function PartsOf(seg: string, pre: seq<Option<seq<Part>>>, i: nat): Option<seq<Part>> {
    if i < |pre| && pre[i].Some? then pre[i] else ParseSegment(seg)
  }

  /** One segment: the parameters it captures, or None. */
  function MatchSegment(seg: string, u: string, pre: seq<Option<seq<Part>>>, i: nat): Option<map<string, string>> {
    if BraceFree(seg) then if seg == u then Some(map[]) else None
    else
      var parts := PartsOf(seg, pre, i);
      if parts.None? || Extract(parts.value, u).None? then None
      else
        ExtractRebuilds(parts.value, u);
        Some(Bind(map[], parts.value, Extract(parts.value, u).value))
  }

  /** `parsePathParamsPreparsed` over the first `n` segments. */
  function MatchFront(user: seq<string>, pattern: seq<string>, pre: seq<Option<seq<Part>>>, n: nat)
    : Option<map<string, string>>
    requires n <= |user| && n <= |pattern|
  {
    if n == 0 then Some(map[])
    else
      var front := MatchFront(user, pattern, pre, n - 1);
      var last := MatchSegment(pattern[n - 1], user[n - 1], pre, n - 1);
      if front.None? || last.None? then None else Some(front.value + last.value)
  }

  function MatchPath(user: seq<string>, pattern: seq<string>, pre: seq<Option<seq<Part>>>)
    : Option<map<string, string>>
  {
    if |user| != |pattern| then None else MatchFront(user, pattern, pre, |user|)
  }

  method ParsePathParams(user: seq<string>, pattern: seq<string>, pre: seq<Option<seq<Part>>>)
    returns (r: Option<map<string, string>>)
    ensures r == MatchPath(user, pattern, pre)
  {
    if |user| != |pattern| {
      return None;
    }
    var result: map<string, string> := map[];
    for i := 0 to |user|
      invariant MatchFront(user, pattern, pre, i) == Some(result)
    {
      if BraceFree(pattern[i]) {
        if pattern[i] != user[i] {
          FrontFails(user, pattern, pre, i + 1, |user|);
          return None;
        }
        assert result + map[] == result;
        continue;
      }
      var parts := PartsOf(pattern[i], pre, i);
      if parts.None? {
        FrontFails(user, pattern, pre, i + 1, |user|);
        return None;
      }
      var ok, params := ExtractParams(parts.value, user[i]);
      if !ok {
        FrontFails(user, pattern, pre, i + 1, |user|);
        return None;
      }
      result := result + params;
    }
    return Some(result);
  }

  lemma {:induction false} FrontFails(user: seq<string>, pattern: seq<string>, pre: seq<Option<seq<Part>>>,
                                     k: nat, n: nat)
    requires k <= n <= |user| == |pattern| && MatchFront(user, pattern, pre, k).None?
    ensures MatchFront(user, pattern, pre, n).None?
    decreases n
  {
    if k < n { FrontFails(user, pattern, pre, k, n - 1); }
  }

  /** What it means for a segment of a request to fit a segment of a pattern. */
  ghost predicate Fits(seg: string, u: string) {
    if BraceFree(seg) then seg == u
    else
      && ParseSegment(seg).Some?
      && exists caps :: Decomposes(ParseSegment(seg).value, caps, u) && Leftmost(ParseSegment(seg).value, caps)
  }

  /** The parts stored at registration. */
  function PreParse(pattern: seq<string>): seq<Option<seq<Part>>> {
    seq(|pattern|, i requires 0 <= i < |pattern| => if BraceFree(pattern[i]) then None else ParseSegment(pattern[i]))
  }

  lemma SegmentFits(seg: string, u: string, pre: seq<Option<seq<Part>>>, i: nat)
    requires i < |pre| && pre[i].Some? ==> pre[i] == ParseSegment(seg)
    ensures MatchSegment(seg, u, pre, i).Some? <==> Fits(seg, u)
  {
    if !BraceFree(seg) && ParseSegment(seg).Some? {
      var parts := ParseSegment(seg).value;
      if Extract(parts, u).Some? { ExtractIsLeftmost(parts, u, Extract(parts, u).value); }
      forall caps | Decomposes(parts, caps, u) && Leftmost(parts, caps) ensures Extract(parts, u) == Some(caps) {
        ExtractIsLeftmost(parts, u, caps);
      }
    }
  }

  lemma StoredFits(pattern: seq<string>, i: nat, u: string)
    requires i < |pattern|
    ensures MatchSegment(pattern[i], u, PreParse(pattern), i).Some? <==> Fits(pattern[i], u)
  {
    SegmentFits(pattern[i], u, PreParse(pattern), i);
  }

  lemma {:induction false} FrontFits(user: seq<string>, pattern: seq<string>, n: nat)
    requires n <= |user| == |pattern|
    ensures MatchFront(user, pattern, PreParse(pattern), n).Some?
       <==> forall i | 0 <= i < n :: Fits(pattern[i], user[i])
  {
    if n > 0 {
      StoredFits(pattern, n - 1, user[n - 1]);
      hide PreParse, MatchSegment, Fits;
      FrontFits(user, pattern, n - 1);
    }
  }

  /** With the stored parts, a path matches exactly when every segment fits. */
  lemma PathFits(user: seq<string>, pattern: seq<string>)
    ensures MatchPath(user, pattern, PreParse(pattern)).Some?
       <==> |user| == |pattern| && forall i | 0 <= i < |pattern| :: Fits(pattern[i], user[i])
  {
    if |user| == |pattern| { FrontFits(user, pattern, |user|); }
  }

  /** A placeholder of the segment is called `n`. */
  predicate SegNames(seg: string, n: string) {
    !BraceFree(seg) && ParseSegment(seg).Some? && Names(ParseSegment(seg).value, n)
  }

  /** `v` is what the last placeholder called `n` captures when `u` fits the segment. */
  ghost predicate Captures(seg: string, u: string, n: string, v: string)
    requires SegNames(seg, n)
  {
    var parts := ParseSegment(seg).value;
    exists caps :: Decomposes(parts, caps, u) && Leftmost(parts, caps) && v == LastCapture(parts, caps, n)
  }

  ghost predicate SegmentDelivers(seg: string, u: string, m: map<string, string>) {
    && (forall n :: n in m <==> SegNames(seg, n))
    && (forall n <- m :: Captures(seg, u, n, m[n]))
  }

  lemma MatchDelivers(seg: string, u: string, pre: seq<Option<seq<Part>>>, i: nat)
    requires i < |pre| && pre[i].Some? ==> pre[i] == ParseSegment(seg)
    requires MatchSegment(seg, u, pre, i).Some?
    ensures SegmentDelivers(seg, u, MatchSegment(seg, u, pre, i).value)
  {
    if !BraceFree(seg) {
      var parts := ParseSegment(seg).value;
      var caps := Extract(parts, u).value;
      ExtractIsLeftmost(parts, u, caps);
      forall n ensures n in Bind(map[], parts, caps) <==> Names(parts, n)
        ensures Names(parts, n) ==> Bind(map[], parts, caps)[n] == LastCapture(parts, caps, n)
      {
        BindKeepsLast(map[], parts, caps, n);
      }
      hide Extract, Bind, Decomposes, Leftmost, LastCapture, ParseSegment, BraceFree;
    }
  }

  lemma StoredDelivers(pattern: seq<string>, i: nat, u: string)
    requires i < |pattern| && MatchSegment(pattern[i], u, PreParse(pattern), i).Some?
    ensures SegmentDelivers(pattern[i], u, MatchSegment(pattern[i], u, PreParse(pattern), i).value)
  {
    MatchDelivers(pattern[i], u, PreParse(pattern), i);
  }

  /** The parameters are those of the placeholders in the first `n` segments, each as the last of these
      segments that has it captures it. */
  ghost predicate Delivers(user: seq<string>, pattern: seq<string>, n: nat, r: map<string, string>)
    requires n <= |user| && n <= |pattern|
  {
    && (forall name :: name in r <==> exists i | 0 <= i < n :: SegNames(pattern[i], name))
    && (forall i, name | 0 <= i < n && SegNames(pattern[i], name) ::
          (forall j | i < j < n :: !SegNames(pattern[j], name)) ==> Captures(pattern[i], user[i], name, r[name]))
  }

  lemma DeliversNext(user: seq<string>, pattern: seq<string>, n: nat, r: map<string, string>, m: map<string, string>)
    requires n < |user| && n < |pattern| && Delivers(user, pattern, n, r) && SegmentDelivers(pattern[n], user[n], m)
    ensures Delivers(user, pattern, n + 1, r + m)
  {
    hide SegNames, Captures;
    forall i, name | 0 <= i < n + 1 && SegNames(pattern[i], name)
                     && forall j | i < j < n + 1 :: !SegNames(pattern[j], name)
      ensures name in r + m && Captures(pattern[i], user[i], name, (r + m)[name])
    {
      if i < n { assert !SegNames(pattern[n], name); }
    }
  }

  lemma {:induction false} FrontDelivers(user: seq<string>, pattern: seq<string>, n: nat)
    requires n <= |user| == |pattern| && MatchFront(user, pattern, PreParse(pattern), n).Some?
    ensures Delivers(user, pattern, n, MatchFront(user, pattern, PreParse(pattern), n).value)
  {
    if n > 0 {
      StoredDelivers(pattern, n - 1, user[n - 1]);
      hide PreParse, MatchSegment, Delivers, SegmentDelivers;
      FrontDelivers(user, pattern, n - 1);
      var pre := PreParse(pattern);
      DeliversNext(user, pattern, n - 1, MatchFront(user, pattern, pre, n - 1).value,
                   MatchSegment(pattern[n - 1], user[n - 1], pre, n - 1).value);
    }
  }

  /** A match delivers exactly the names of the pattern, each with its last capture. */
  lemma PathDelivers(user: seq<string>, pattern: seq<string>)
    requires MatchPath(user, pattern, PreParse(pattern)).Some?
    ensures |user| == |pattern| && Delivers(user, pattern, |pattern|, MatchPath(user, pattern, PreParse(pattern)).value)
  {
    FrontDelivers(user, pattern, |user|);
  }

  /** Matching with stored parts equals parsing the pattern again for each request. */
  lemma {:induction false} StoredPartsAgree(user: seq<string>, pattern: seq<string>, n: nat)
    requires n <= |user| == |pattern|
    ensures MatchFront(user, pattern, PreParse(pattern), n) == MatchFront(user, pattern, [], n)
  {
    if n > 0 {
      SameSegment(pattern[n - 1], user[n - 1], PreParse(pattern), n - 1);
      hide PreParse, MatchSegment;
      StoredPartsAgree(user, pattern, n - 1);
    }
  }

  lemma SameSegment(seg: string, u: string, pre: seq<Option<seq<Part>>>, i: nat)
    requires i < |pre| && (pre[i].Some? ==> pre[i] == ParseSegment(seg))
    ensures MatchSegment(seg, u, pre, i) == MatchSegment(seg, u, [], i)
  {
    hide Extract, Bind, ParseSegment;
  }

  // ---------------------------------------------------------------------
  // The route table
  // ---------------------------------------------------------------------

  datatype Kind = Literal | Regexp | Symbol | Placeholders

  datatype Entry = Entry(url: string, kind: Kind, handle: nat)

  /** Regular expressions and `path.Match`, which are not modelled. */
  datatype Oracles = Oracles(
    validRegex: string -> bool,
    regexMatch: (string, string) -> bool,
    globMatch: (string, string) -> bool)

  predicate ContainsAny(s: string, chars: string) { exists c <- s :: c in chars }

  predicate HasSuffix(s: string, c: char) { s != "" && s[|s| - 1] == c }

  function KindOf(url: string): Kind {
    if (url != "" && url[0] == '^') || HasSuffix(url, '$') then Regexp
    else if ContainsAny(url, "[]*?\\") then Symbol
    else if ContainsAny(url, "{}") then Placeholders
    else Literal
  }

  /** Registration panics on an invalid expression or placeholder segment. */
  predicate Registrable(o: Oracles, url: string) {
    match KindOf(url)
    case Regexp => o.validRegex(url)
    case Placeholders => forall seg <- Split(url, '/') :: BraceFree(seg) || ParseSegment(seg).Some?
    case _ => true
  }

  /** Whether the list scan serves `path` with `e`. */
  predicate Hits(o: Oracles, e: Entry, path: string) {
    && HasSuffix(e.url, '/') == HasSuffix(path, '/')
    && match e.kind
       case Regexp => o.regexMatch(e.url, path)
       case Symbol => o.globMatch(e.url, path)
       case Placeholders => MatchPath(Split(path, '/'), Split(e.url, '/'), PreParse(Split(e.url, '/'))).Some?
       case Literal => e.url == path
  }

  function FirstHit(o: Oracles, list: seq<Entry>, path: string): Option<Entry> {
    if list == [] then None
    else if Hits(o, list[0], path) then Some(list[0])
    else FirstHit(o, list[1..], path)
  }

  function IndexOf(list: seq<Entry>, url: string): Option<nat> {
    if list == [] then None
    else if list[0].url == url then Some(0)
    else
      var r := IndexOf(list[1..], url);
      if r.None? then None else Some(r.value + 1)
  }

  lemma {:induction false} IndexOfFirst(list: seq<Entry>, url: string)
    ensures var r := IndexOf(list, url);
      && (r.Some? ==> r.value < |list| && list[r.value].url == url)
      && (r.None? ==> forall e <- list :: e.url != url)
      && (forall i | 0 <= i < |list| && list[i].url == url :: r.Some? && r.value <= i)
  {
    if list != [] && list[0].url != url {
      IndexOfFirst(list[1..], url);
      assert forall i | 0 < i < |list| :: list[i] == list[1..][i - 1];
    }
  }

  /** Replaces the entry of the same url in place, or appends. */
  function Upsert(list: seq<Entry>, e: Entry): seq<Entry> {
    var i := IndexOf(list, e.url);
    IndexOfFirst(list, e.url);
    if i.Some? then list[i.value := e] else list + [e]
  }

  function Without(list: seq<Entry>, url: string): seq<Entry> {
    var i := IndexOf(list, url);
    IndexOfFirst(list, url);
    if i.Some? then list[..i.value] + list[i.value + 1..] else list
  }

  datatype Table = Table(rt: map<string, Entry>, list: seq<Entry>)

  function Serve(o: Oracles, t: Table, path: string): Option<Entry> {
    if path in t.rt && t.rt[path].kind == Literal then Some(t.rt[path]) else FirstHit(o, t.list, path)
  }

  /** The parameters handed to the handler, for a placeholder pattern only. */
  function UrlParams(r: Option<Entry>, path: string): Option<map<string, string>> {
    if r.Some? && r.value.kind == Placeholders
    then MatchPath(Split(path, '/'), Split(r.value.url, '/'), PreParse(Split(r.value.url, '/')))
    else None
  }

  class Router {
    const o: Oracles
    var rt: map<string, Entry>
    var list: seq<Entry>

    function View(): Table
      reads this
    {
      Table(rt, list)
    }

    constructor (o: Oracles)
      ensures this.o == o && View() == Table(map[], [])
    {
      this.o, rt, list := o, map[], [];
    }

    /** False stands for the panic, before anything is stored. */
    method AddHandle(url: string, handle: nat) returns (ok: bool)
      modifies this
      ensures ok == Registrable(o, url)
      ensures View() == AfterOp(o, old(View()), Add(url, handle))
    {
      if !Registrable(o, url) {
        return false;
      }
      var e := Entry(url, KindOf(url), handle);
      rt := rt[url := e];
      var i := 0;
      IndexOfFirst(list, url);
      while i < |list|
        invariant 0 <= i <= |list| && list == old(list)
        invariant forall j | 0 <= j < i :: list[j].url != url
      {
        if list[i].url == url {
          list := list[i := e];
          return true;
        }
        i := i + 1;
      }
      list := list + [e];
      return true;
    }

    method RemoveHandle(url: string)
      modifies this
      ensures View() == AfterOp(o, old(View()), Remove(url))
    {
      rt := rt - {url};
      var i := 0;
      IndexOfFirst(list, url);
      while i < |list|
        invariant 0 <= i <= |list| && list == old(list)
        invariant forall j | 0 <= j < i :: list[j].url != url
      {
        if list[i].url == url {
          list := list[..i] + list[i + 1..];
          return;
        }
        i := i + 1;
      }
    }

    /** The dispatch part of ServeHTTP: the entry served and the parameters its handler gets; None stands
        for the error handler. */
    method Dispatch(path: string) returns (r: Option<Entry>, params: Option<map<string, string>>)
      ensures r == Serve(o, View(), path) && params == UrlParams(r, path)
    {
      params := None;
      if path in rt {
        if rt[path].kind == Literal {
          return Some(rt[path]), None;
        }
      }
      var user := Split(path, '/');
      for i := 0 to |list|
        invariant FirstHit(o, list, path) == FirstHit(o, list[i..], path)
      {
        var e := list[i];
        assert list[i..][1..] == list[i + 1..];
        if HasSuffix(e.url, '/') != HasSuffix(path, '/') {
          continue;
        }
        match e.kind
        case Regexp =>
          if o.regexMatch(e.url, path) {
            return Some(e), None;
          }
        case Symbol =>
          if o.globMatch(e.url, path) {
            return Some(e), None;
          }
        case Placeholders =>
          var found := ParsePathParams(user, Split(e.url, '/'), PreParse(Split(e.url, '/')));
          if found.Some? {
            return Some(e), found;
          }
        case Literal =>
          if e.url == path {
            return Some(e), None;
          }
      }
      return None, None;
    }
  }

  // ---------------------------------------------------------------------
  // Any sequence of registrations, replacements and removals
  // ---------------------------------------------------------------------

  /** `HandleFunc` with a handler, and with nil. */
  datatype Op = Add(url: string, handle: nat) | Remove(url: string)

  function AfterOp(o: Oracles, t: Table, op: Op): Table {
    match op
    case Add(url, handle) =>
      if !Registrable(o, url) then t
      else var e := Entry(url, KindOf(url), handle); Table(t.rt[url := e], Upsert(t.list, e))
    case Remove(url) => Table(t.rt - {url}, Without(t.list, url))
  }

  function After(o: Oracles, ops: seq<Op>): Table {
    if ops == [] then Table(map[], []) else AfterOp(o, After(o, ops[..|ops| - 1]), ops[|ops| - 1])
  }

  /** The entry that the last effective operation on `url` left. */
  function Current(o: Oracles, ops: seq<Op>, url: string): Option<Entry> {
    if ops == [] then None
    else
      var front, op := ops[..|ops| - 1], ops[|ops| - 1];
      if op.url != url || (op.Add? && !Registrable(o, url)) then Current(o, front, url)
      else if op.Add? then Some(Entry(url, KindOf(url), op.handle))
      else None
  }

  /** When `url` was registered: the first registration since it was last absent. */
  function Birth(o: Oracles, ops: seq<Op>, url: string): nat {
    if ops == [] then 0
    else
      var front, op := ops[..|ops| - 1], ops[|ops| - 1];
      if op.Add? && op.url == url && Registrable(o, url) && Current(o, front, url).None? then |ops|
      else Birth(o, front, url)
  }

  ghost predicate MapOk(o: Oracles, ops: seq<Op>, rt: map<string, Entry>) {
    && (forall url <- rt :: Current(o, ops, url) == Some(rt[url]))
    && (forall url :: Current(o, ops, url).Some? ==> url in rt)
  }

  ghost predicate ListOk(o: Oracles, ops: seq<Op>, list: seq<Entry>) {
    && (forall e <- list :: Current(o, ops, e.url) == Some(e))
    && (forall url :: Current(o, ops, url).Some? ==> Current(o, ops, url).value in list)
  }

  ghost predicate OrderOk(o: Oracles, ops: seq<Op>, list: seq<Entry>) {
    && (forall i, j | 0 <= i < j < |list| :: Birth(o, ops, list[i].url) < Birth(o, ops, list[j].url))
    && (forall url :: Birth(o, ops, url) <= |ops|)
  }

  lemma CurrentStep(o: Oracles, ops: seq<Op>, op: Op, url: string)
    ensures Current(o, ops + [op], url) ==
              if op.url != url || (op.Add? && !Registrable(o, url)) then Current(o, ops, url)
              else if op.Add? then Some(Entry(url, KindOf(url), op.handle))
              else None
    ensures Birth(o, ops + [op], url) ==
              if op.Add? && op.url == url && Registrable(o, url) && Current(o, ops, url).None? then |ops| + 1
              else Birth(o, ops, url)
  {
    assert (ops + [op])[..|ops|] == ops;
  }

  lemma {:induction false} CurrentUrl(o: Oracles, ops: seq<Op>, url: string)
    ensures Current(o, ops, url).Some? ==> Current(o, ops, url).value.url == url
    decreases |ops|
  {
    if ops != [] { CurrentUrl(o, ops[..|ops| - 1], url); }
  }

  lemma MapStep(o: Oracles, ops: seq<Op>, op: Op, t: Table)
    requires MapOk(o, ops, t.rt)
    ensures MapOk(o, ops + [op], AfterOp(o, t, op).rt)
  {
    hide Current, Birth, Registrable, KindOf, Upsert, Without;
    forall url
      ensures url in AfterOp(o, t, op).rt ==> Current(o, ops + [op], url) == Some(AfterOp(o, t, op).rt[url])
      ensures Current(o, ops + [op], url).Some? ==> url in AfterOp(o, t, op).rt
    {
      CurrentStep(o, ops, op, url);
    }
  }

  lemma UrlsDiffer(o: Oracles, ops: seq<Op>, list: seq<Entry>)
    requires OrderOk(o, ops, list)
    ensures forall i, j | 0 <= i < j < |list| :: list[i].url != list[j].url
  {
    hide Birth;
    forall i, j | 0 <= i < j < |list| ensures list[i].url != list[j].url {
      assert Birth(o, ops, list[i].url) < Birth(o, ops, list[j].url);
    }
  }

  lemma WithoutAt(list: seq<Entry>, url: string, i: nat)
    requires i < |Without(list, url)|
    ensures var k := IndexOf(list, url);
      if k.None? || i < k.value then i < |list| && Without(list, url)[i] == list[i]
      else i + 1 < |list| && Without(list, url)[i] == list[i + 1]
  {
    IndexOfFirst(list, url);
  }

  /** The entries that remain after a removal are those of the other urls, in order. */
  lemma WithoutMembers(list: seq<Entry>, url: string)
    requires forall i, j | 0 <= i < j < |list| :: list[i].url != list[j].url
    ensures forall e :: e in Without(list, url) <==> e in list && e.url != url
  {
    IndexOfFirst(list, url);
    var k, r := IndexOf(list, url), Without(list, url);
    if k.Some? {
      forall e | e in list && e.url != url ensures e in r {
        var i :| 0 <= i < |list| && list[i] == e;
        assert r[if i < k.value then i else i - 1] == e;
      }
    }
    forall e | e in r ensures e in list && e.url != url {
      var i: nat :| i < |r| && r[i] == e;
      WithoutAt(list, url, i);
    }
  }

  lemma WithoutKeepsOrder(o: Oracles, ops: seq<Op>, list: seq<Entry>, url: string)
    requires OrderOk(o, ops, list)
    ensures forall i, j | 0 <= i < j < |Without(list, url)| ::
              Birth(o, ops, Without(list, url)[i].url) < Birth(o, ops, Without(list, url)[j].url)
  {
    hide Birth, Without, IndexOf;
    var r := Without(list, url);
    forall i, j | 0 <= i < j < |r| ensures Birth(o, ops, r[i].url) < Birth(o, ops, r[j].url) {
      WithoutAt(list, url, i);
      WithoutAt(list, url, j);
    }
  }

  lemma UpsertMembers(list: seq<Entry>, e: Entry)
    requires forall i, j | 0 <= i < j < |list| :: list[i].url != list[j].url
    ensures forall x :: x in Upsert(list, e) <==> x == e || (x in list && x.url != e.url)
  {
    IndexOfFirst(list, e.url);
    var k := IndexOf(list, e.url);
    if k.Some? {
      var r := Upsert(list, e);
      assert r[k.value] == e;
      forall x ensures x in r <==> x == e || (x in list && x.url != e.url) {
        if x in list && x.url != e.url {
          var i :| 0 <= i < |list| && list[i] == x;
          assert r[i] == x;
        }
      }
    }
  }

  lemma ListStep(o: Oracles, ops: seq<Op>, op: Op, t: Table)
    requires ListOk(o, ops, t.list) && OrderOk(o, ops, t.list)
    ensures ListOk(o, ops + [op], AfterOp(o, t, op).list)
  {
    hide Current, Birth, Registrable, KindOf, Upsert, Without;
    UrlsDiffer(o, ops, t.list);
    hide OrderOk;
    WithoutMembers(t.list, op.url);
    if op.Add? { UpsertMembers(t.list, Entry(op.url, KindOf(op.url), op.handle)); }
    var list := AfterOp(o, t, op).list;
    forall url ensures Current(o, ops + [op], url).Some? ==> Current(o, ops + [op], url).value in list {
      CurrentStep(o, ops, op, url);
      CurrentUrl(o, ops, url);
    }
    forall e: Entry | e in list ensures Current(o, ops + [op], e.url) == Some(e) {
      CurrentStep(o, ops, op, e.url);
      assert e in t.list ==> Current(o, ops, e.url) == Some(e);
    }
  }

  lemma OrderStep(o: Oracles, ops: seq<Op>, op: Op, t: Table)
    requires ListOk(o, ops, t.list) && OrderOk(o, ops, t.list)
    ensures OrderOk(o, ops + [op], AfterOp(o, t, op).list)
  {
    hide Current, Registrable, KindOf, Birth, Without, IndexOf;
    forall url ensures Birth(o, ops + [op], url) <= |ops + [op]| {
      CurrentStep(o, ops, op, url);
    }
    IndexOfFirst(t.list, op.url);
    CurrentUrl(o, ops, op.url);
    assert IndexOf(t.list, op.url).Some? <==> Current(o, ops, op.url).Some?;
    var list := AfterOp(o, t, op).list;
    forall i, j | 0 <= i < j < |list| ensures Birth(o, ops + [op], list[i].url) < Birth(o, ops + [op], list[j].url) {
      CurrentStep(o, ops, op, list[i].url);
      CurrentStep(o, ops, op, list[j].url);
      if op.Remove? { WithoutKeepsOrder(o, ops, t.list, op.url); }
    }
  }

  ghost predicate TableOk(o: Oracles, ops: seq<Op>, t: Table) {
    MapOk(o, ops, t.rt) && ListOk(o, ops, t.list) && OrderOk(o, ops, t.list)
  }

  lemma EmptyTable(o: Oracles)
    ensures TableOk(o, [], Table(map[], []))
  {
  }

  lemma TableStep(o: Oracles, ops: seq<Op>, op: Op, t: Table)
    requires TableOk(o, ops, t)
    ensures TableOk(o, ops + [op], AfterOp(o, t, op))
  {
    hide MapOk, ListOk, OrderOk, AfterOp;
    MapStep(o, ops, op, t);
    ListStep(o, ops, op, t);
    OrderStep(o, ops, op, t);
  }

  /** Map and list hold the current entries, one per url, in order of registration. */
  lemma {:induction false} TableHoldsCurrent(o: Oracles, ops: seq<Op>)
    ensures TableOk(o, ops, After(o, ops))
    decreases |ops|
  {
    hide TableOk, AfterOp;
    if ops == [] {
      EmptyTable(o);
    } else {
      var front, op := ops[..|ops| - 1], ops[|ops| - 1];
      TableHoldsCurrent(o, front);
      TableStep(o, front, op, After(o, front));
      assert front + [op] == ops;
    }
  }

  lemma {:induction false} FirstHitIsFirst(o: Oracles, list: seq<Entry>, path: string)
    ensures var r := FirstHit(o, list, path);
      && (r.None? ==> forall e <- list :: !Hits(o, e, path))
      && (r.Some? ==> exists i | 0 <= i < |list| :: list[i] == r.value && Hits(o, r.value, path)
                        && forall j | 0 <= j < i :: !Hits(o, list[j], path))
  {
    hide Hits;
    if list != [] && !Hits(o, list[0], path) {
      FirstHitIsFirst(o, list[1..], path);
      var r := FirstHit(o, list[1..], path);
      if r.Some? {
        var i :| 0 <= i < |list| - 1 && list[1..][i] == r.value &&
                forall j | 0 <= j < i :: !Hits(o, list[1..][j], path);
        assert list[i + 1] == r.value;
        forall j | 0 <= j < i + 1 ensures !Hits(o, list[j], path) {
          if j > 0 { assert list[1..][j - 1] == list[j]; }
        }
      }
    }
  }

  /** The entries that fit and come later in the list were registered later. */
  lemma FirstIsOldest(o: Oracles, ops: seq<Op>, t: Table, path: string, i: nat, url: string)
    requires TableOk(o, ops, t) && i < |t.list| && forall j | 0 <= j < i :: !Hits(o, t.list[j], path)
    requires Current(o, ops, url).Some? && Hits(o, Current(o, ops, url).value, path) && url != t.list[i].url
    ensures Birth(o, ops, t.list[i].url) < Birth(o, ops, url)
  {
    hide Current, Birth, Hits;
    CurrentUrl(o, ops, url);
    var k :| 0 <= k < |t.list| && t.list[k] == Current(o, ops, url).value;
  }

  /** After any history, dispatch serves the literal route of the path if there is one;
      otherwise the oldest current pattern that fits, and nothing only if none fits. */
  lemma DispatchServes(o: Oracles, ops: seq<Op>, path: string)
    ensures var r := Serve(o, After(o, ops), path);
      if Current(o, ops, path).Some? && Current(o, ops, path).value.kind == Literal then r == Current(o, ops, path)
      else if r.None? then forall url :: Current(o, ops, url).Some? ==> !Hits(o, Current(o, ops, url).value, path)
      else
        && Current(o, ops, r.value.url) == r && r.value.kind != Literal && Hits(o, r.value, path)
        && forall url | Current(o, ops, url).Some? && Hits(o, Current(o, ops, url).value, path) ::
             url != r.value.url ==> Birth(o, ops, r.value.url) < Birth(o, ops, url)
  {
    TableHoldsCurrent(o, ops);
    var t := After(o, ops);
    FirstHitIsFirst(o, t.list, path);
    hide After, Birth, Current, FirstHit;
    var r := Serve(o, t, path);
    if !(path in t.rt && t.rt[path].kind == Literal) {
      LiteralNeverHits(o, ops, path);
      hide Hits;
      if r.Some? {
        var i :| 0 <= i < |t.list| && t.list[i] == r.value && forall j | 0 <= j < i :: !Hits(o, t.list[j], path);
        forall url | Current(o, ops, url).Some? && Hits(o, Current(o, ops, url).value, path) && url != r.value.url
          ensures Birth(o, ops, r.value.url) < Birth(o, ops, url)
        {
          FirstIsOldest(o, ops, t, path, i, url);
        }
      }
    }
  }

  // ---------------------------------------------------------------------
  // What a url means
  // ---------------------------------------------------------------------

  ghost predicate Has(s: string, chars: string) { exists i | 0 <= i < |s| :: s[i] in chars }

  lemma ContainsAnyMeans(s: string, chars: string)
    ensures ContainsAny(s, chars) <==> Has(s, chars)
  {
  }

  /** The kind of a url, by its first and last character and the special characters in it. */
  lemma KindMeans(url: string)
    ensures KindOf(url) == Regexp <==> url != "" && (url[0] == '^' || url[|url| - 1] == '$')
    ensures KindOf(url) == Literal <==> KindOf(url) != Regexp && !Has(url, "[]*?\\") && !Has(url, "{}")
    ensures KindOf(url) == Symbol <==> KindOf(url) != Regexp && Has(url, "[]*?\\")
  {
    ContainsAnyMeans(url, "[]*?\\");
    ContainsAnyMeans(url, "{}");
    hide ContainsAny, Has;
  }

  /** A placeholder pattern is refused unless each segment with a brace is a rendering of alternating parts. */
  lemma RegistrableMeans(o: Oracles, url: string)
    ensures Registrable(o, url) <==>
      match KindOf(url)
      case Regexp => o.validRegex(url)
      case Placeholders =>
        forall seg <- Split(url, '/') :: BraceFree(seg) || exists parts :: Alternating(parts) && Render(parts) == seg
      case _ => true
  {
    forall seg ensures ParseSegment(seg).Some? <==> exists parts :: Alternating(parts) && Render(parts) == seg {
      AcceptedSegments(seg);
    }
    hide KindOf, ParseSegment, Alternating, Render, Split, BraceFree;
  }

  /** Whether a handler registered for `url` is meant to answer `path`. */
  ghost predicate Answers(o: Oracles, url: string, path: string) {
    && (path != "" && path[|path| - 1] == '/' <==> url != "" && url[|url| - 1] == '/')
    && if url != "" && (url[0] == '^' || url[|url| - 1] == '$') then o.regexMatch(url, path)
       else if Has(url, "[]*?\\") then o.globMatch(url, path)
       else if Has(url, "{}") then
         var user, pattern := Split(path, '/'), Split(url, '/');
         |user| == |pattern| && forall i | 0 <= i < |pattern| :: Fits(pattern[i], user[i])
       else url == path
  }

  lemma HitsMeans(o: Oracles, e: Entry, path: string)
    requires e.kind == KindOf(e.url)
    ensures Hits(o, e, path) <==> Answers(o, e.url, path)
  {
    KindMeans(e.url);
    PathFits(Split(path, '/'), Split(e.url, '/'));
    hide KindOf, Has, Split, Fits, MatchPath, PreParse;
  }

  lemma {:induction false} CurrentKind(o: Oracles, ops: seq<Op>, url: string)
    ensures Current(o, ops, url).Some? ==>
              Current(o, ops, url).value.url == url && Current(o, ops, url).value.kind == KindOf(url)
    decreases |ops|
  {
    hide KindOf;
    if ops != [] { CurrentKind(o, ops[..|ops| - 1], url); }
  }

  /** After any history a path is served if and only if some current url answers it, and then by one that does. */
  lemma ServedAnswers(o: Oracles, ops: seq<Op>, path: string)
    ensures var r := Serve(o, After(o, ops), path);
      && (r.Some? <==> exists url :: Current(o, ops, url).Some? && Answers(o, url, path))
      && (r.Some? ==> Current(o, ops, r.value.url) == r && Answers(o, r.value.url, path))
  {
    DispatchServes(o, ops, path);
    LiteralAnswers(o, ops, path);
    forall url | Current(o, ops, url).Some?
      ensures Current(o, ops, url).value.url == url
      ensures Hits(o, Current(o, ops, url).value, path) <==> Answers(o, url, path)
    {
      CurrentKind(o, ops, url);
      HitsMeans(o, Current(o, ops, url).value, path);
    }
    hide Current, Birth, After, Serve, Hits, Answers;
  }

  lemma LiteralAnswers(o: Oracles, ops: seq<Op>, path: string)
    ensures Current(o, ops, path).Some? && Current(o, ops, path).value.kind == Literal ==> Answers(o, path, path)
  {
    CurrentKind(o, ops, path);
    KindMeans(path);
    hide Current, KindOf, Has;
  }

  /** A placeholder pattern that is served hands over the parameters of its match; no other url hands over any. */
  lemma ServedDelivers(o: Oracles, t: Table, path: string)
    requires Serve(o, t, path).Some?
    ensures var e, params := Serve(o, t, path).value, UrlParams(Serve(o, t, path), path);
      var user, pattern := Split(path, '/'), Split(e.url, '/');
      && (params.Some? <==> e.kind == Placeholders)
      && (params.Some? ==> |user| == |pattern| && Delivers(user, pattern, |pattern|, params.value))
  {
    FirstHitIsFirst(o, t.list, path);
    var e := Serve(o, t, path).value;
    if e.kind == Placeholders {
      assert Hits(o, e, path);
      PathDelivers(Split(path, '/'), Split(e.url, '/'));
    }
    hide FirstHit, Delivers, MatchPath, Split, PreParse;
  }

  /** Once the map has been asked, the branch for literal entries in the list scan is never taken. */
  lemma LiteralNeverHits(o: Oracles, ops: seq<Op>, path: string)
    ensures var t := After(o, ops);
      !(path in t.rt && t.rt[path].kind == Literal) ==> forall e <- t.list :: e.kind == Literal ==> !Hits(o, e, path)
  {
    TableHoldsCurrent(o, ops);
    var t := After(o, ops);
    hide After, Birth, Current;
    forall e | e in t.list && e.kind == Literal && e.url == path ensures path in t.rt && t.rt[path] == e {
      assert Current(o, ops, e.url) == Some(e);
    }
  }
}
