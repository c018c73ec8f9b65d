/** What the page cache guarantees in every interleaving. */
module PageCacheTheorems {
  import opened Wrappers
  import opened PageCache
  import opened PageCacheInvariant

  // ---------------------------------------------------------------------
  // Safety and conservation over all interleavings
  // ---------------------------------------------------------------------

  /** refs counts the cache and the requests in possession, exactly. */
  lemma RefsCount(es: seq<Event>, x: Id)
    requires x in After(es).wraps
    ensures After(es).wraps[x].refs == One(!After(es).wraps[x].destroyed) + |Holders(After(es).threads, x)|
  {
    InvAfter(es);
  }

  /** While a request holds a template, nobody has closed it or is about to. */
  lemma NeverClosedInUse(es: seq<Event>, t: Id, x: Id)
    requires t in After(es).threads && Holds(After(es).threads[t].pc) == Some(x)
    ensures x in After(es).closes && After(es).closes[x] == 0 && Debtors(After(es).threads, x) == {}
  {
    var s := After(es);
    InvAfter(es);
    assert ThreadOk(s.tpls, s.wraps, s.cache, s.closed, s.threads[t]);
    InUse(s, t, x);
  }

  lemma InUse(s: State, t: Id, x: Id)
    requires t in s.threads && Holds(s.threads[t].pc) == Some(x)
    requires RefsOk(s.threads, s.wraps) && TokensOk(s.threads, s.closes, s.wraps) && s.closes.Keys == s.tpls.Keys
    requires HandsOk(s.tpls, s.wraps, s.threads[t])
    ensures x in s.closes && s.closes[x] == 0 && Debtors(s.threads, x) == {}
  {
    Owed(s.tpls, s.wraps, s.threads[t]);
    assert t in Holders(s.threads, x);
  }

  lemma ClosedAtMostOnce(es: seq<Event>, x: Id)
    requires x in After(es).closes
    ensures After(es).closes[x] <= 1
  {
    InvAfter(es);
  }

  predicate AtRest(pc: Pc) { Holds(pc).None? && Owes(pc).None? && Listed(pc) == {} }

  /** Once the handler is closed, its close loop is through and every request has
      released, every template ever obtained has been closed exactly once. */
  lemma Conservation(es: seq<Event>, x: Id)
    requires After(es).closed && forall t <- After(es).threads :: AtRest(After(es).threads[t].pc)
    requires x in After(es).tpls
    ensures x in After(es).closes && After(es).closes[x] == 1
  {
    var s := After(es);
    InvAfter(es);
    assert forall t <- s.threads :: ClosedOk(s.closed, s.threads[t]);
    AllClosed(s, x);
  }

  lemma AllClosed(s: State, x: Id)
    requires s.closed && s.cache == map[] && (forall t <- s.threads :: AtRest(s.threads[t].pc))
    requires forall t <- s.threads :: ClosedOk(s.closed, s.threads[t])
    requires KeptOk(s.threads, s.tpls, s.wraps, s.cache) && RefsOk(s.threads, s.wraps)
    requires TokensOk(s.threads, s.closes, s.wraps) && x in s.closes
    ensures s.closes[x] == 1
  {
    assert Debtors(s.threads, x) == {};
    assert Holders(s.threads, x) == {};
    assert forall t <- s.threads :: !Keeps(s.threads[t], x);
  }

  /** A request's template was parsed, for its page, under the time it observed. */
  lemma Freshness(es: seq<Event>, t: Id, x: Id)
    requires t in After(es).threads && Holds(After(es).threads[t].pc) == Some(x)
    ensures var s := After(es);
      x in s.tpls && s.tpls[x] == Template(s.threads[t].page, s.threads[t].mtime, true)
  {
    var s := After(es);
    InvAfter(es);
    assert ThreadOk(s.tpls, s.wraps, s.cache, s.closed, s.threads[t]);
    Owed(s.tpls, s.wraps, s.threads[t]);
  }

  /** The ignored acquire after a store, and that of a lookup, never fail. */
  lemma AcquireSucceeds(es: seq<Event>, t: Id)
    requires t in After(es).threads && (After(es).threads[t].pc.Found? || After(es).threads[t].pc.Grab?)
    ensures var s := After(es); s.threads[t].pc.x in s.wraps && AcquireRef(s.wraps[s.threads[t].pc.x]).1
  {
    var s := After(es);
    InvAfter(es);
    assert ThreadOk(s.tpls, s.wraps, s.cache, s.closed, s.threads[t]);
    AcquireLive(s, t);
  }

  /** After `Close` the page map stays empty and no request gains a wrapper. */
  lemma ClosedStaysEmpty(es: seq<Event>, e: Event, x: Id)
    requires After(es).closed
    ensures After(es).cache == map[] && Next(After(es), e).closed
    ensures Holders(Next(After(es), e).threads, x) <= Holders(After(es).threads, x)
  {
    var s := After(es);
    InvAfter(es);
    if e.Run? && e.t in s.threads {
      var now := s.threads[e.t];
      assert ThreadOk(s.tpls, s.wraps, s.cache, s.closed, now);
      PlanHands(s, e.t, e.c);
      NoGain(s, e.t, Plan(s, now, e.c).0, Plan(s, now, e.c).1, x);
    } else {
      hide *;
      QuietArrival(s, e, x);
    }
  }

  lemma QuietArrival(s: State, e: Event, x: Id)
    requires !e.Run? || e.t !in s.threads
    ensures Holders(Next(s, e).threads, x) <= Holders(s.threads, x) && Next(s, e).closed == s.closed
  {
  }

  lemma NoGain(s: State, t: Id, pc: Pc, e: Effect, x: Id)
    requires t in s.threads && s.closed && s.cache == map[]
    requires SectionOk(s.wraps, s.cache, s.threads[t]) && HoldMoves(s.wraps, s.threads[t].pc, pc, e)
    ensures Holders(Apply(s, t, pc, e).threads, x) <= Holders(s.threads, x)
  {
  }

  // ---------------------------------------------------------------------
  // At most one parser, and one successful parse, per page
  // ---------------------------------------------------------------------

  /** Inside parseTemplate. */
  predicate InParse(pc: Pc) { pc.Parse? || pc.Parsing? || pc.Drop? }

  lemma OneParser(es: seq<Event>, t: Id, u: Id)
    requires t in After(es).threads && u in After(es).threads
    requires InParse(After(es).threads[t].pc) && InParse(After(es).threads[u].pc)
    requires After(es).threads[t].page == After(es).threads[u].page && After(es).threads[t].page !in After(es).cleaned
    ensures t == u
  {
    PathsAfter(es);
    ParserHolds(After(es).threads[t].pc);
    ParserHolds(After(es).threads[u].pc);
    hide *;
    OnePath(After(es), t, u);
  }

  lemma PathsAfter(es: seq<Event>)
    ensures PathsOk(After(es))
  {
    hide LocksOk, PathsOk, RefsOk, TokensOk, CacheOk, KeptOk, ThreadOk, After;
    InvAfter(es);
  }

  lemma ParserHolds(pc: Pc)
    requires InParse(pc)
    ensures PathHeld(pc).Some?
  {
  }

  lemma OnePath(s: State, t: Id, u: Id)
    requires PathsOk(s) && t in s.threads && u in s.threads
    requires PathHeld(s.threads[t].pc).Some? && PathHeld(s.threads[u].pc).Some?
    requires s.threads[t].page == s.threads[u].page && s.threads[t].page !in s.cleaned
    ensures t == u
  {
    assert PathOk(s.locks, t, s.threads[t]) && PathOk(s.locks, u, s.threads[u]);
  }

  /** Every request for `p` so far observed one modification time, and no cleanup removed `p`. */
  ghost predicate Steady(s: State, p: Page) {
    && p !in s.cleaned
    && forall m, n :: (p, m) in s.observed && (p, n) in s.observed ==> m == n
  }

  /** Program points of a request that has observed its page and time. */
  predicate Asking(pc: Pc) {
    !pc.Start? && !pc.Observe? && !Tidying(pc)
  }

  ghost predicate AskedOk(s: State) {
    && (forall x <- s.tpls :: (s.tpls[x].page, s.tpls[x].mtime) in s.observed)
    && (forall t <- s.threads :: Asking(s.threads[t].pc) ==> (s.threads[t].page, s.threads[t].mtime) in s.observed)
  }

  /** About to parse, having missed the cache under the parse lock. */
  predicate Committed(pc: Pc) { (pc.Miss? && pc.k.Recheck? && !pc.shut) || pc.Parse? || pc.Parsing? }

  /** The parsed template on its way to the page map. */
  function Carried(pc: Pc): Option<Id> {
    match pc
    case StoreWait(_, x) => Some(x)
    case Store(_, x) => Some(x)
    case _ => Storing(pc)
  }

  predicate ParsedFor(s: State, x: Id, p: Page) { x in s.tpls && s.tpls[x].page == p && s.tpls[x].parsed }

  /** Who is committed to parse `p` does so because nothing has been parsed for it. */
  ghost predicate FirstOk(s: State, p: Page) {
    forall t: Id, x: Id | t in s.threads && s.threads[t].page == p && Committed(s.threads[t].pc) :: !ParsedFor(s, x, p)
  }

  ghost predicate SoleOk(s: State, p: Page) {
    forall x: Id, y: Id | ParsedFor(s, x, p) && ParsedFor(s, y, p) :: x == y
  }

  ghost predicate Shelved(s: State, p: Page, x: Id) {
    s.closed || Cached(s.cache, x, p)
    || exists t <- s.threads :: s.threads[t].page == p && Carried(s.threads[t].pc) == Some(x)
  }

  ghost predicate OnceOk(s: State, p: Page) {
    FirstOk(s, p) && SoleOk(s, p) && forall x: Id | ParsedFor(s, x, p) :: Shelved(s, p, x)
  }

  predicate OnceMoves(s: State, now: Thread, pc: Pc, e: Effect) {
    && (Asking(pc) ==> (Asking(now.pc) && !e.Lost?) || e.Saw?)
    && (e.Saw? || e.Lost? ==> !Committed(pc) && Carried(now.pc).None?)
    && (e.ParsedOk? ==> Committed(now.pc) && !Committed(pc) && Carried(pc).Some? && Carried(pc).value == e.x)
    && (e.Obtain? ==> Asking(now.pc))
    && (Committed(pc) ==> || Committed(now.pc)
                          || (now.pc.Read? && !s.closed && Lookup(s, now, now.pc.k) == pc && now.pc.k.Recheck?)
                          || (now.pc.Found? && now.pc.x in s.wraps && s.wraps[now.pc.x].destroyed))
    && (Carried(now.pc).Some? ==>
          && PathHeld(now.pc).Some?
          && (Carried(pc) == Carried(now.pc) || e == PutEntry(Carried(now.pc).value) || s.closed))
    && (Committed(now.pc) ==> PathHeld(now.pc).Some? && Asking(now.pc))
    && (now.pc.Read? && now.pc.k.Recheck? ==> PathHeld(now.pc).Some? && !Committed(now.pc))
  }

  lemma LookOnce(s: State, th: Thread, c: Choice)
    requires Looking(th.pc)
    ensures var (pc, e) := PlanLook(s, th, c); OnceMoves(s, th, pc, e)
  {
  }

  lemma MakeOnce(s: State, th: Thread, c: Choice)
    requires Making(th.pc)
    ensures var (pc, e) := PlanMake(s, th, c); OnceMoves(s, th, pc, e)
  {
  }

  lemma PublishOnce(s: State, th: Thread, c: Choice)
    requires Publishing(th.pc)
    ensures var (pc, e) := PlanPublish(s, th, c); OnceMoves(s, th, pc, e)
  {
  }

  lemma TidyOnce(s: State, th: Thread, c: Choice)
    requires Tidying(th.pc)
    ensures var (pc, e) := PlanTidy(s, th, c); OnceMoves(s, th, pc, e)
  {
  }

  lemma PlanOnce(s: State, th: Thread, c: Choice)
    ensures var (pc, e) := Plan(s, th, c); OnceMoves(s, th, pc, e)
  {
    hide OnceMoves, PlanLook, PlanMake, PlanPublish, PlanTidy;
    if Looking(th.pc) {
      LookOnce(s, th, c);
    } else if Making(th.pc) {
      MakeOnce(s, th, c);
    } else if Publishing(th.pc) {
      PublishOnce(s, th, c);
    } else {
      TidyOnce(s, th, c);
    }
  }

  lemma AskedTpls(s: State, t: Id, pc: Pc, e: Effect)
    requires t in s.threads && AskedOk(s) && OnceMoves(s, s.threads[t], pc, e)
    requires e.ParsedOk? ==> For(s.tpls, e.x, s.threads[t], false)
    ensures var n := Apply(s, t, pc, e); forall x <- n.tpls :: (n.tpls[x].page, n.tpls[x].mtime) in n.observed
  {
    assert Asking(s.threads[t].pc) ==> (s.threads[t].page, s.threads[t].mtime) in s.observed;
  }

  lemma AskedThreads(s: State, t: Id, pc: Pc, e: Effect)
    requires t in s.threads && AskedOk(s) && OnceMoves(s, s.threads[t], pc, e)
    ensures var n := Apply(s, t, pc, e);
      forall u <- n.threads :: Asking(n.threads[u].pc) ==> (n.threads[u].page, n.threads[u].mtime) in n.observed
  {
  }

  lemma AskedKept(s: State, t: Id, pc: Pc, e: Effect)
    requires t in s.threads && AskedOk(s) && OnceMoves(s, s.threads[t], pc, e)
    requires e.ParsedOk? ==> For(s.tpls, e.x, s.threads[t], false)
    ensures AskedOk(Apply(s, t, pc, e))
  {
    AskedTpls(s, t, pc, e);
    AskedThreads(s, t, pc, e);
    hide OnceMoves, Asking, Apply;
  }

  lemma SteadyBefore(s: State, t: Id, pc: Pc, e: Effect, p: Page)
    requires t in s.threads && Steady(Apply(s, t, pc, e), p)
    ensures Steady(s, p) && (e.DropEntry? && s.threads[t].page == p ==> s.closed)
  {
    var s' := Apply(s, t, pc, e);
    assert p !in s.cleaned;
    forall m, n | (p, m) in s.observed && (p, n) in s.observed ensures m == n {
      assert (p, m) in s'.observed && (p, n) in s'.observed;
    }
    assert Steady(s, p);
  }

  lemma ParsedAfter(s: State, t: Id, pc: Pc, e: Effect, x: Id, p: Page)
    requires t in s.threads && (e.ParsedOk? ==> For(s.tpls, e.x, s.threads[t], false)) && (e.Obtain? ==> e.x !in s.tpls)
    ensures ParsedFor(Apply(s, t, pc, e), x, p) <==> ParsedFor(s, x, p) || (e == ParsedOk(x) && s.threads[t].page == p)
  {
  }

  /** A lookup under the parse lock that misses has no parsed template to miss. */
  lemma MissMeansNone(s: State, t: Id, p: Page, x: Id)
    requires Inv(s) && AskedOk(s) && Steady(s, p) && OnceOk(s, p)
    requires t in s.threads && s.threads[t].page == p && s.threads[t].pc.Read?
             && s.threads[t].pc.k.Recheck? && !s.closed
    requires Lookup(s, s.threads[t], s.threads[t].pc.k).Miss?
    ensures !ParsedFor(s, x, p)
  {
    hide LocksOk, RefsOk, TokensOk, KeptOk, ThreadOk, PathsOk;
    if ParsedFor(s, x, p) {
      if u :| u in s.threads && s.threads[u].page == p && Carried(s.threads[u].pc) == Some(x) {
        OnePath(s, t, u);
      }
    }
  }

  lemma CommittedOther(s: State, t: Id, pc: Pc, e: Effect, p: Page, u: Id, x: Id)
    requires t in s.threads && PathsOk(s) && p !in s.cleaned && OnceOk(s, p) && OnceMoves(s, s.threads[t], pc, e)
    requires u in s.threads && u != t && s.threads[u].page == p && Committed(s.threads[u].pc)
    requires e.ParsedOk? ==> For(s.tpls, e.x, s.threads[t], false)
    requires e.Obtain? ==> e.x !in s.tpls
    ensures !ParsedFor(Apply(s, t, pc, e), x, p)
  {
    ParsedAfter(s, t, pc, e, x, p);
    PathsHeld(s.threads[u].pc);
    PathsHeld(s.threads[t].pc);
    if e.ParsedOk? && s.threads[t].page == p { OnePath(s, t, u); }
  }

  lemma PathsHeld(pc: Pc)
    ensures Committed(pc) ==> PathHeld(pc).Some?
  {
  }

  lemma CommittedSelf(s: State, t: Id, pc: Pc, e: Effect, p: Page, x: Id)
    requires Inv(s) && AskedOk(s) && Steady(s, p) && OnceOk(s, p)
    requires t in s.threads && s.threads[t].page == p && Committed(pc) && OnceMoves(s, s.threads[t], pc, e)
    requires e.Obtain? ==> e.x !in s.tpls
    ensures !ParsedFor(Apply(s, t, pc, e), x, p)
  {
    hide LocksOk, PathsOk, RefsOk, TokensOk, CacheOk, KeptOk, HandsOk, SectionOk, ClosedOk, Steady, AskedOk;
    ParsedAfter(s, t, pc, e, x, p);
    assert ThreadOk(s.tpls, s.wraps, s.cache, s.closed, s.threads[t]);
    if !Committed(s.threads[t].pc) {
      AcquireLive(s, t);
      MissMeansNone(s, t, p, x);
    }
  }

  /** What the once-only lemmas take from the plan. */
  ghost predicate OnceReady(s: State, t: Id, pc: Pc, e: Effect, p: Page)
    requires t in s.threads
  {
    && OnceMoves(s, s.threads[t], pc, e) && EntryMoves(s.cache, s.threads[t], pc, e)
    && (e.ParsedOk? ==> For(s.tpls, e.x, s.threads[t], false))
    && (e.PutEntry? ==> For(s.tpls, e.x, s.threads[t], true))
    && (e.Obtain? ==> e.x !in s.tpls)
    && (e.DropEntry? && s.threads[t].page == p ==> s.closed)
  }

  lemma CachedStays(s: State, now: Thread, pc: Pc, e: Effect, p: Page, x: Id)
    requires SoleOk(s, p) && ParsedFor(s, x, p) && Cached(s.cache, x, p)
    requires e.PutEntry? ==> For(s.tpls, e.x, now, true)
    requires e.DropEntry? ==> now.page != p
    ensures Cached(CacheAfter(s.cache, now, e), x, p) || e.ShutDown?
  {
    assert e.PutEntry? && now.page == p ==> ParsedFor(s, e.x, p);
  }

  lemma CarriedStays(s: State, t: Id, pc: Pc, e: Effect, p: Page, x: Id, u: Id)
    requires t in s.threads && u in s.threads && s.threads[u].page == p
             && Carried(s.threads[u].pc) == Some(x) && !s.closed
    requires OnceMoves(s, s.threads[t], pc, e)
    ensures var th := if u == t then Moved(s.threads[t], pc, e) else s.threads[u];
      (th.page == p && Carried(th.pc) == Some(x)) || (e.PutEntry? && Cached(CacheAfter(s.cache, s.threads[t], e), x, p))
  {
  }

  lemma ShelvedKept(s: State, t: Id, pc: Pc, e: Effect, p: Page, x: Id)
    requires t in s.threads && OnceReady(s, t, pc, e, p)
    requires SoleOk(s, p) && ParsedFor(s, x, p) && Shelved(s, p, x)
    ensures Shelved(Apply(s, t, pc, e), p, x)
  {
    hide SoleOk, ParsedFor, OnceMoves, EntryMoves, Cached, Carried, CacheAfter, Moved;
    if !s.closed && !e.ShutDown? {
      if Cached(s.cache, x, p) {
        CachedStays(s, s.threads[t], pc, e, p, x);
      } else {
        var u :| u in s.threads && s.threads[u].page == p && Carried(s.threads[u].pc) == Some(x);
        CarriedStays(s, t, pc, e, p, x, u);
        assert u in Apply(s, t, pc, e).threads;
      }
    }
  }

  lemma StillThere(s: State, now: Thread, pc: Pc, e: Effect)
    requires OnceMoves(s, now, pc, e)
    ensures Moved(now, pc, e).pc == pc && (Committed(pc) ==> Moved(now, pc, e).page == now.page)
  {
  }

  lemma FirstKept(s: State, t: Id, pc: Pc, e: Effect, p: Page)
    requires Inv(s) && AskedOk(s) && Steady(s, p) && OnceOk(s, p) && t in s.threads && OnceReady(s, t, pc, e, p)
    ensures FirstOk(Apply(s, t, pc, e), p)
  {
    hide LocksOk, PathsOk, RefsOk, TokensOk, CacheOk, KeptOk, ThreadOk, AskedOk,
         OnceOk, OnceMoves, EntryMoves, ParsedFor, Committed, Moved;
    var s' := Apply(s, t, pc, e);
    StillThere(s, s.threads[t], pc, e);
    forall u: Id, x: Id | u in s'.threads && s'.threads[u].page == p && Committed(s'.threads[u].pc)
      ensures !ParsedFor(s', x, p)
    {
      if u != t {
        CommittedOther(s, t, pc, e, p, u, x);
      } else {
        CommittedSelf(s, t, pc, e, p, x);
      }
    }
  }

  lemma SoleKept(s: State, t: Id, pc: Pc, e: Effect, p: Page)
    requires t in s.threads && FirstOk(s, p) && SoleOk(s, p) && OnceReady(s, t, pc, e, p)
    ensures SoleOk(Apply(s, t, pc, e), p)
  {
    forall x: Id, y: Id | ParsedFor(Apply(s, t, pc, e), x, p) && ParsedFor(Apply(s, t, pc, e), y, p) ensures x == y {
      ParsedAfter(s, t, pc, e, x, p);
      ParsedAfter(s, t, pc, e, y, p);
    }
  }

  lemma ShelvedNew(s: State, t: Id, pc: Pc, e: Effect, p: Page)
    requires t in s.threads && OnceReady(s, t, pc, e, p) && e.ParsedOk? && s.threads[t].page == p
    ensures Shelved(Apply(s, t, pc, e), p, e.x)
  {
    assert t in Apply(s, t, pc, e).threads;
  }

  lemma OnceKept(s: State, t: Id, pc: Pc, e: Effect, p: Page)
    requires Inv(s) && AskedOk(s) && Steady(s, p) && OnceOk(s, p) && t in s.threads && OnceReady(s, t, pc, e, p)
    ensures OnceOk(Apply(s, t, pc, e), p)
  {
    hide Inv, AskedOk, Steady, FirstOk, SoleOk, Shelved, ParsedFor, OnceMoves, EntryMoves, Apply;
    FirstKept(s, t, pc, e, p);
    SoleKept(s, t, pc, e, p);
    forall x: Id | ParsedFor(Apply(s, t, pc, e), x, p) ensures Shelved(Apply(s, t, pc, e), p, x) {
      ParsedAfter(s, t, pc, e, x, p);
      if e.ParsedOk? && e.x == x && s.threads[t].page == p {
        ShelvedNew(s, t, pc, e, p);
      } else {
        ShelvedKept(s, t, pc, e, p, x);
      }
    }
  }

  /** The parse bookkeeping that one step keeps, for a page steady until then. */
  ghost predicate Parses(s: State, p: Page) { Inv(s) && AskedOk(s) && (Steady(s, p) ==> OnceOk(s, p)) }

  lemma ParsesStep(s: State, t: Id, c: Choice, p: Page)
    requires Parses(s, p) && t in s.threads
    ensures Parses(Step(s, t, c), p)
  {
    hide LocksOk, PathsOk, RefsOk, TokensOk, CacheOk, AskedOk, Steady, OnceOk, HandsOk, SectionOk, ClosedOk;
    hide MuMoves, PathMoves, HoldMoves, DebtMoves, EntryMoves, KeepMoves, NewMoves, OnceMoves, Plan, Apply;
    var now := s.threads[t];
    var (pc, e) := Plan(s, now, c);
    InvStep(s, t, c);
    PlanHands(s, t, c);
    PlanOnce(s, now, c);
    InHand(s, now, pc, e);
    AskedKept(s, t, pc, e);
    if Steady(Step(s, t, c), p) {
      SteadyBefore(s, t, pc, e, p);
      OnceKept(s, t, pc, e, p);
    }
  }

  lemma {:induction false} ParsesAfter(es: seq<Event>, p: Page)
    ensures Parses(After(es), p)
  {
    InvAfter(es);
    if es != [] {
      var s, e := After(es[..|es| - 1]), es[|es| - 1];
      ParsesAfter(es[..|es| - 1], p);
      if e.Run? && e.t in s.threads {
        ParsesStep(s, e.t, e.c, p);
      } else {
        ParsesArrival(s, e, p);
      }
    }
  }

  lemma ShelvedArrival(s: State, e: Event, p: Page, x: Id)
    requires Shelved(s, p, x) && (!e.Run? || e.t !in s.threads)
    ensures Shelved(Next(s, e), p, x)
  {
    hide Step, Carried;
    if !s.closed && !Cached(s.cache, x, p) {
      var u :| u in s.threads && s.threads[u].page == p && Carried(s.threads[u].pc) == Some(x);
      assert u in Next(s, e).threads && Next(s, e).threads[u] == s.threads[u];
    }
  }

  lemma ParsesArrival(s: State, e: Event, p: Page)
    requires AskedOk(s) && (Steady(s, p) ==> OnceOk(s, p)) && (!e.Run? || e.t !in s.threads)
    ensures AskedOk(Next(s, e)) && (Steady(Next(s, e), p) ==> OnceOk(Next(s, e), p))
  {
    hide Step, Shelved;
    var s' := Next(s, e);
    assert s'.observed == s.observed && s'.cleaned == s.cleaned && s'.tpls == s.tpls;
    if Steady(s', p) {
      assert Steady(s, p);
      forall x: Id ensures ParsedFor(s', x, p) <==> ParsedFor(s, x, p) {
      }
      forall x: Id | ParsedFor(s', x, p) ensures Shelved(s', p, x) {
        ShelvedArrival(s, e, p, x);
      }
    }
  }

  /** Requests that all observe one modification time cause at most one successful parse. */
  lemma OneSuccessfulParse(es: seq<Event>, p: Page, x: Id, y: Id)
    requires Steady(After(es), p)
    requires ParsedFor(After(es), x, p) && ParsedFor(After(es), y, p)
    ensures x == y
  {
    ParsesAfter(es, p);
  }
}
