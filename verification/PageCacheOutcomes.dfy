/** What a request of the page cache ends with, in every interleaving. */
module PageCacheOutcomes {
  import opened Wrappers
  import opened PageCache
  import opened PageCacheInvariant
  import opened PageCacheTheorems

  lemma AfterSnoc(es: seq<Event>, e: Event)
    ensures After(es + [e]) == Next(After(es), e)
  {
    assert (es + [e])[..|es|] == es;
  }

  /** An event takes every thread but the one that runs where it was, and closes nothing that was open
      except by a shutdown; a closed handler stays closed. */
  lemma Bystander(s: State, e: Event, t: Id)
    requires t in s.threads && (e.Run? ==> e.t != t)
    ensures t in Next(s, e).threads && Next(s, e).threads[t] == s.threads[t] && (s.closed ==> Next(s, e).closed)
  {
    hide Plan, Moved;
  }

  // ---------------------------------------------------------------------
  // A request that has seen its file gets a template for it
  // ---------------------------------------------------------------------

  /** On the way to a template: looking it up, waiting, parsing or storing. */
  predicate Pending(pc: Pc) {
    || pc.ReadWait? || pc.Read? || pc.Found? || (pc.Miss? && !pc.shut) || pc.Open? || pc.Enter? || pc.PathWait?
    || pc.Parse? || pc.Parsing? || pc.StoreWait? || pc.Store? || pc.Replace? || pc.ReplaceReal? || pc.Publish?
    || pc.Grab?
  }

  /** What one step of a pending request comes to. */
  predicate Comes(closed: bool, pc: Pc, e: Effect, c: Choice) {
    && !e.Saw? && !e.Lost?
    && (Pending(pc) || Holds(pc).Some? || closed || c.Refused?)
  }

  lemma LookComes(s: State, th: Thread, c: Choice)
    requires Looking(th.pc) && Pending(th.pc)
    ensures Comes(s.closed, PlanLook(s, th, c).0, PlanLook(s, th, c).1, c)
  {
  }

  lemma MakeComes(s: State, th: Thread, c: Choice)
    requires Making(th.pc) && Pending(th.pc)
    ensures Comes(s.closed, PlanMake(s, th, c).0, PlanMake(s, th, c).1, c)
  {
  }

  lemma PublishComes(s: State, th: Thread, c: Choice)
    requires Publishing(th.pc) && Pending(th.pc)
    ensures Comes(s.closed, PlanPublish(s, th, c).0, PlanPublish(s, th, c).1, c)
  {
  }

  lemma StepComes(s: State, t: Id, c: Choice)
    requires t in s.threads && Pending(s.threads[t].pc)
    ensures var n := Step(s, t, c);
      && n.threads[t].page == s.threads[t].page && n.threads[t].mtime == s.threads[t].mtime
      && (Pending(n.threads[t].pc) || Holds(n.threads[t].pc).Some? || n.closed || c.Refused?)
  {
    var th := s.threads[t];
    hide PlanLook, PlanMake, PlanPublish, PlanTidy, Holds;
    if Looking(th.pc) {
      LookComes(s, th, c);
    } else if Making(th.pc) {
      MakeComes(s, th, c);
    } else {
      PublishComes(s, th, c);
    }
  }

  /** Still on the way to a template of `p` under time `m`. */
  predicate Underway(s: State, t: Id, p: Page, m: Time) {
    t in s.threads && s.threads[t].page == p && s.threads[t].mtime == m && Pending(s.threads[t].pc)
  }

  /** The request has acquired a template that was parsed for `p` under time `m`. */
  predicate Gets(s: State, t: Id, x: Id, p: Page, m: Time) {
    t in s.threads && Holds(s.threads[t].pc) == Some(x) && x in s.tpls && s.tpls[x] == Template(p, m, true)
  }

  lemma UnderwayNext(es: seq<Event>, e: Event, t: Id, p: Page, m: Time)
    requires Underway(After(es), t, p, m)
    ensures var n := After(es + [e]);
      Underway(n, t, p, m) || n.closed || e == Run(t, Refused) || exists x :: Gets(n, t, x, p, m)
  {
    var s := After(es);
    AfterSnoc(es, e);
    var n := After(es + [e]);
    if e.Run? && e.t == t {
      assert n == Step(s, t, e.c);
      hide After, Step, Pending, Holds;
      StepComes(s, t, e.c);
      if Holds(n.threads[t].pc).Some? {
        Freshness(es + [e], t, Holds(n.threads[t].pc).value);
        assert Gets(n, t, Holds(n.threads[t].pc).value, p, m);
      }
    } else {
      Bystander(s, e, t);
    }
  }

  lemma ClosedNext(s: State, e: Event)
    requires s.closed
    ensures Next(s, e).closed
  {
    hide Plan;
  }

  ghost predicate Served(es: seq<Event>, more: seq<Event>, t: Id, p: Page, m: Time) {
    exists k: nat, x: Id :: k <= |more| && Gets(After(es + more[..k]), t, x, p, m)
  }

  lemma {:induction false} UnderwayOrOut(es: seq<Event>, more: seq<Event>, t: Id, p: Page, m: Time)
    requires Underway(After(es), t, p, m)
    ensures Underway(After(es + more), t, p, m) || After(es + more).closed || Run(t, Refused) in more
            || Served(es, more, t, p, m)
    decreases |more|
  {
    if more == [] {
      assert es + more == es;
    } else {
      var front, e := more[..|more| - 1], more[|more| - 1];
      hide After, Next, Underway, Gets;
      UnderwayOrOut(es, front, t, p, m);
      assert es + more == es + front + [e] && more[..|more|] == more;
      AfterSnoc(es + front, e);
      if Underway(After(es + front), t, p, m) {
        UnderwayNext(es + front, e, t, p, m);
      } else if After(es + front).closed {
        ClosedNext(After(es + front), e);
      } else if Served(es, front, t, p, m) {
        var k: nat, x: Id :| k <= |front| && Gets(After(es + front[..k]), t, x, p, m);
        assert front[..k] == more[..k];
      }
    }
  }

  /** A request that has seen page `p` under time `m` ends only after it has held a template that was parsed for
      just that, unless the handler was closed or the environment refused it something. */
  lemma RequestIsServed(es: seq<Event>, t: Id, p: Page, m: Time, more: seq<Event>)
    requires t in After(es).threads && After(es).threads[t].pc.Observe?
    requires var n := After(es + [Run(t, Seen(p, m))] + more); t in n.threads && n.threads[t].pc.Done?
    ensures || After(es + [Run(t, Seen(p, m))] + more).closed
            || Run(t, Refused) in more
            || Served(es + [Run(t, Seen(p, m))], more, t, p, m)
  {
    AfterSnoc(es, Run(t, Seen(p, m)));
    assert Underway(After(es + [Run(t, Seen(p, m))]), t, p, m);
    hide After, Next, Served;
    UnderwayOrOut(es + [Run(t, Seen(p, m))], more, t, p, m);
  }

  // ---------------------------------------------------------------------
  // Empty hands after a parse mean a closed handler
  // ---------------------------------------------------------------------

  ghost predicate HandsFull(s: State) {
    forall t <- s.threads :: s.threads[t].pc.StoreUnlock? && s.threads[t].pc.got.None? ==> s.closed
  }

  lemma PublishHandsFull(s: State, th: Thread, c: Choice)
    requires Publishing(th.pc) && ClosedOk(s.closed, th)
    ensures var pc := PlanPublish(s, th, c).0; pc.StoreUnlock? && pc.got.None? ==> s.closed || pc == th.pc
  {
  }

  lemma OthersNoUnlock(s: State, th: Thread, c: Choice)
    requires !Publishing(th.pc)
    ensures !Plan(s, th, c).0.StoreUnlock?
  {
  }

  lemma PlanHandsFull(s: State, th: Thread, c: Choice)
    requires ClosedOk(s.closed, th)
    ensures var pc := Plan(s, th, c).0; pc.StoreUnlock? && pc.got.None? ==> s.closed || pc == th.pc
  {
    if Publishing(th.pc) { PublishHandsFull(s, th, c); } else { OthersNoUnlock(s, th, c); }
    hide PlanLook, PlanMake, PlanPublish, PlanTidy, ClosedOk;
  }

  lemma StepHandsFull(s: State, t: Id, c: Choice)
    requires t in s.threads && HandsFull(s) && ClosedOk(s.closed, s.threads[t])
    ensures HandsFull(Step(s, t, c))
  {
    var th := s.threads[t];
    PlanHandsFull(s, th, c);
    var (pc, e) := Plan(s, th, c);
    MovedPc(th, pc, e);
    hide Plan, Moved, ClosedOk;
  }

  /** After a parse, a request leaves the store section without a template only if the handler was closed. */
  lemma {:induction false} EmptyHandsMeanClosed(es: seq<Event>)
    ensures HandsFull(After(es))
    decreases |es|
  {
    if es != [] {
      var s, e := After(es[..|es| - 1]), es[|es| - 1];
      EmptyHandsMeanClosed(es[..|es| - 1]);
      if e.Run? && e.t in s.threads {
        InvAfter(es[..|es| - 1]);
        assert ThreadOk(s.tpls, s.wraps, s.cache, s.closed, s.threads[e.t]);
        StepHandsFull(s, e.t, e.c);
      }
      hide Step, Inv;
    }
  }

  // ---------------------------------------------------------------------
  // A lookup that starts with the current entry in the map ends with its template
  // ---------------------------------------------------------------------

  /** Inside the lookup's read lock, with the entry for its page and time in the map. */
  predicate OnTrack(s: State, t: Id, k: Phase, x: Id) {
    && t in s.threads && s.threads[t].page in s.cache
    && s.cache[s.threads[t].page] == Entry(x, s.threads[t].mtime)
    && ((s.threads[t].pc == Read(k) && (k.Recheck? ==> !s.closed)) || s.threads[t].pc == Found(k, x))
  }

  /** The page map changes only under the exclusive lock. */
  predicate MapMoves(s: State, pc: Pc, e: Effect) {
    e.PutEntry? || e.DropEntry? || e.ShutDown? ==> Writes(pc) || MuFree(s)
  }

  lemma PlanMapMoves(s: State, th: Thread, c: Choice)
    ensures MapMoves(s, th.pc, Plan(s, th, c).1)
  {
  }

  lemma ReaderKeepsMap(s: State, t: Id, u: Id, c: Choice)
    requires LocksOk(s.threads, s.writer, s.readers) && t in s.threads && Reads(s.threads[t].pc) && u in s.threads
    ensures var n := Step(s, u, c); n.cache == s.cache && n.closed == s.closed
  {
    PlanMapMoves(s, s.threads[u], c);
    hide Plan, Reads, Writes, Moved;
  }

  lemma TrackNext(es: seq<Event>, e: Event, t: Id, k: Phase, x: Id)
    requires OnTrack(After(es), t, k, x)
    ensures var n := After(es + [e]); OnTrack(n, t, k, x) || HoldsIt(n, t, x)
  {
    var s := After(es);
    AfterSnoc(es, e);
    InvAfter(es);
    assert LocksOk(s.threads, s.writer, s.readers);
    if e.Run? && e.t in s.threads {
      ReaderKeepsMap(s, t, e.t, e.c);
      if e.t == t {
        if s.threads[t].pc.Found? { AcquireSucceeds(es, t); }
        TrackStep(s, t, e.c, k, x);
      } else {
        Bystander(s, e, t);
      }
    } else {
      Bystander(s, e, t);
    }
    hide After, Inv, Step;
  }

  lemma TrackStep(s: State, t: Id, c: Choice, k: Phase, x: Id)
    requires OnTrack(s, t, k, x) && Step(s, t, c).cache == s.cache && Step(s, t, c).closed == s.closed
    requires s.threads[t].pc.Found? ==> x in s.wraps && AcquireRef(s.wraps[x]).1
    ensures var n := Step(s, t, c); OnTrack(n, t, k, x) || Holds(n.threads[t].pc) == Some(x)
  {
    var th := s.threads[t];
    var (pc, e) := PlanLook(s, th, c);
    assert Looking(th.pc) && Plan(s, th, c) == (pc, e) && !e.Saw? && !e.Lost?;
    hide Plan, PlanLook;
  }

  ghost predicate Acquired(es: seq<Event>, more: seq<Event>, t: Id, x: Id) {
    exists i: nat :: i <= |more| && HoldsIt(After(es + more[..i]), t, x)
  }

  predicate HoldsIt(s: State, t: Id, x: Id) { t in s.threads && Holds(s.threads[t].pc) == Some(x) }

  /** From then on the lookup either is still under way or has acquired that very template. */
  lemma {:induction false} LookupServes(es: seq<Event>, more: seq<Event>, t: Id, k: Phase, x: Id)
    requires OnTrack(After(es), t, k, x)
    ensures OnTrack(After(es + more), t, k, x) || Acquired(es, more, t, x)
    decreases |more|
  {
    if more == [] {
      assert es + more == es;
    } else {
      var front, e := more[..|more| - 1], more[|more| - 1];
      hide After, OnTrack, HoldsIt;
      LookupServes(es, front, t, k, x);
      assert es + more == es + front + [e] && more[..|more|] == more;
      if OnTrack(After(es + front), t, k, x) {
        TrackNext(es + front, e, t, k, x);
      } else {
        var i: nat :| i <= |front| && HoldsIt(After(es + front[..i]), t, x);
        assert front[..i] == more[..i];
      }
    }
  }

  // ---------------------------------------------------------------------
  // A refused request ends with empty hands, and a template that did not parse is never served
  // ---------------------------------------------------------------------

  predicate EmptyHanded(pc: Pc) { pc.Done? || pc.Drop? || (pc.Leaving? && pc.got.None?) }

  lemma EmptyNext(s: State, e: Event, t: Id)
    requires t in s.threads && EmptyHanded(s.threads[t].pc)
    ensures var n := Next(s, e); t in n.threads && EmptyHanded(n.threads[t].pc) && Holds(n.threads[t].pc).None?
  {
    hide PlanLook;
    if !(e.Run? && e.t == t) { Bystander(s, e, t); }
  }

  lemma RefusedStops(s: State, t: Id)
    requires t in s.threads && (s.threads[t].pc.Open? || s.threads[t].pc.Parse? || s.threads[t].pc.Parsing?)
    ensures var n := Step(s, t, Refused); EmptyHanded(n.threads[t].pc) && n.tpls == s.tpls
  {
    hide PlanLook, PlanPublish, PlanTidy;
  }

  /** A request that is refused the file, the module or the parse never holds a template. */
  lemma {:induction false} RefusedEndsEmpty(es: seq<Event>, t: Id, more: seq<Event>)
    requires t in After(es).threads
    requires var pc := After(es).threads[t].pc; pc.Open? || pc.Parse? || pc.Parsing?
    ensures var n := After(es + [Run(t, Refused)] + more);
      t in n.threads && EmptyHanded(n.threads[t].pc) && Holds(n.threads[t].pc).None?
    decreases |more|
  {
    var at := es + [Run(t, Refused)];
    if more == [] {
      AfterSnoc(es, Run(t, Refused));
      RefusedStops(After(es), t);
      assert at + more == at;
    } else {
      var front, e := more[..|more| - 1], more[|more| - 1];
      RefusedEndsEmpty(es, t, front);
      assert at + more == at + front + [e];
      hide After, Next, EmptyHanded;
      AfterSnoc(at + front, e);
      EmptyNext(After(at + front), e, t);
    }
  }

  /** An obtained template whose parse has failed, so that nobody is about to parse it. */
  ghost predicate Unparsed(s: State, x: Id) {
    x in s.tpls && !s.tpls[x].parsed && forall t <- s.threads :: !(s.threads[t].pc.Parsing? && s.threads[t].pc.x == x)
  }

  predicate ParseMoves(s: State, now: Pc, pc: Pc, e: Effect) {
    && (e.ParsedOk? ==> now.Parsing? && now.x == e.x)
    && (e.Obtain? ==> e.x !in s.tpls)
    && (pc.Parsing? ==> pc == now || e == Obtain(pc.x))
  }

  lemma MakeParseMoves(s: State, th: Thread, c: Choice)
    requires Making(th.pc)
    ensures ParseMoves(s, th.pc, PlanMake(s, th, c).0, PlanMake(s, th, c).1)
  {
  }

  lemma PublishParseMoves(s: State, th: Thread, c: Choice)
    requires Publishing(th.pc)
    ensures ParseMoves(s, th.pc, PlanPublish(s, th, c).0, PlanPublish(s, th, c).1)
  {
  }

  lemma OthersParseMoves(s: State, th: Thread, c: Choice)
    requires !Making(th.pc) && !Publishing(th.pc)
    ensures ParseMoves(s, th.pc, Plan(s, th, c).0, Plan(s, th, c).1)
  {
    hide PlanMake, PlanPublish;
  }

  lemma PlanParseMoves(s: State, th: Thread, c: Choice)
    ensures ParseMoves(s, th.pc, Plan(s, th, c).0, Plan(s, th, c).1)
  {
    hide PlanLook, PlanMake, PlanPublish, PlanTidy, ParseMoves;
    if Making(th.pc) {
      MakeParseMoves(s, th, c);
    } else if Publishing(th.pc) {
      PublishParseMoves(s, th, c);
    } else {
      OthersParseMoves(s, th, c);
    }
  }

  lemma UnparsedNext(s: State, e: Event, x: Id)
    requires Unparsed(s, x)
    ensures Unparsed(Next(s, e), x)
  {
    if e.Run? && e.t in s.threads {
      var th := s.threads[e.t];
      PlanParseMoves(s, th, e.c);
      var (pc, effect) := Plan(s, th, e.c);
      MovedPc(th, pc, effect);
      hide Plan, Moved;
    }
    hide Step;
  }

  lemma OneParses(s: State, t: Id, u: Id)
    requires TokensOk(s.threads, s.closes, s.wraps) && t in s.threads && u in s.threads
    requires s.threads[t].pc.Parsing? && s.threads[u].pc.Parsing? && s.threads[t].pc.x == s.threads[u].pc.x
    requires s.threads[t].pc.x in s.closes
    ensures t == u
  {
    var x := s.threads[t].pc.x;
    assert t in Debtors(s.threads, x) && u in Debtors(s.threads, x);
    if t != u {
      assert {t, u} <= Debtors(s.threads, x);
      Bigger({t, u}, Debtors(s.threads, x));
    }
  }

  lemma Bigger(a: set<Id>, b: set<Id>)
    requires a <= b
    ensures |a| <= |b|
  {
    assert b == a + (b - a);
  }

  lemma ParseFails(es: seq<Event>, t: Id)
    requires t in After(es).threads && After(es).threads[t].pc.Parsing?
    ensures Unparsed(After(es + [Run(t, Refused)]), After(es).threads[t].pc.x)
  {
    var s := After(es);
    var x := s.threads[t].pc.x;
    AfterSnoc(es, Run(t, Refused));
    InvAfter(es);
    assert ThreadOk(s.tpls, s.wraps, s.cache, s.closed, s.threads[t]);
    RefusedStops(s, t);
    var n := Step(s, t, Refused);
    forall u | u in n.threads && n.threads[u].pc.Parsing? && n.threads[u].pc.x == x ensures false {
      if u != t { OneParses(s, t, u); }
    }
    hide After, Plan;
  }

  /** A template whose parse has failed is never held by any request. */
  lemma {:induction false} FailedParseIsNeverServed(es: seq<Event>, t: Id, more: seq<Event>, u: Id)
    requires t in After(es).threads && After(es).threads[t].pc.Parsing?
    ensures var x, n := After(es).threads[t].pc.x, After(es + [Run(t, Refused)] + more);
      Unparsed(n, x) && (u in n.threads ==> Holds(n.threads[u].pc) != Some(x))
    decreases |more|
  {
    var at, x := es + [Run(t, Refused)], After(es).threads[t].pc.x;
    if more == [] {
      ParseFails(es, t);
      assert at + more == at;
    } else {
      var front, e := more[..|more| - 1], more[|more| - 1];
      FailedParseIsNeverServed(es, t, front, u);
      assert at + more == at + front + [e];
      AfterSnoc(at + front, e);
      hide After, Next, Unparsed;
      UnparsedNext(After(at + front), e, x);
    }
    NotParsedNotHeld(at + more, u, x);
  }

  lemma NotParsedNotHeld(es: seq<Event>, u: Id, x: Id)
    requires Unparsed(After(es), x)
    ensures u in After(es).threads ==> Holds(After(es).threads[u].pc) != Some(x)
  {
    hide After;
    if u in After(es).threads && Holds(After(es).threads[u].pc) == Some(x) { Freshness(es, u, x); }
  }

  // ---------------------------------------------------------------------
  // A page whose file is gone leaves the map
  // ---------------------------------------------------------------------

  predicate Clearing(s: State, t: Id, p: Page) {
    && t in s.threads && s.threads[t].page == p
    && var pc := s.threads[t].pc;
       pc.CleanWait? || pc.Clean? || pc.CleanClose? || pc.CleanReal? || pc.CleanDelete?
  }

  lemma ClearingNext(s: State, e: Event, t: Id, p: Page)
    requires Clearing(s, t, p)
    ensures Clearing(Next(s, e), t, p) || p !in Next(s, e).cache
  {
    if !(e.Run? && e.t == t) { Bystander(s, e, t); }
    hide PlanLook, PlanMake, PlanPublish;
  }

  ghost predicate Forgotten(es: seq<Event>, more: seq<Event>, p: Page) {
    exists k: nat :: k <= |more| && p !in After(es + more[..k]).cache
  }

  lemma {:induction false} ClearingOrGone(es: seq<Event>, more: seq<Event>, t: Id, p: Page)
    requires Clearing(After(es), t, p)
    ensures Clearing(After(es + more), t, p) || Forgotten(es, more, p)
    decreases |more|
  {
    if more == [] {
      assert es + more == es;
    } else {
      var front, e := more[..|more| - 1], more[|more| - 1];
      hide After, Next, Clearing;
      ClearingOrGone(es, front, t, p);
      assert es + more == es + front + [e] && more[..|more|] == more;
      AfterSnoc(es + front, e);
      if Clearing(After(es + front), t, p) {
        ClearingNext(After(es + front), e, t, p);
      } else {
        var k: nat :| k <= |front| && p !in After(es + front[..k]).cache;
        assert front[..k] == more[..k];
      }
    }
  }

  /** A request that finds the file of `p` gone ends only after `p` has been out of the map. */
  lemma GonePageIsForgotten(es: seq<Event>, t: Id, p: Page, more: seq<Event>)
    requires t in After(es).threads && After(es).threads[t].pc.Observe?
    requires var n := After(es + [Run(t, Unseen(p))] + more); t in n.threads && n.threads[t].pc.Done?
    ensures Forgotten(es + [Run(t, Unseen(p))], more, p)
  {
    AfterSnoc(es, Run(t, Unseen(p)));
    assert Clearing(After(es + [Run(t, Unseen(p))]), t, p);
    hide After, Next, Forgotten;
    ClearingOrGone(es + [Run(t, Unseen(p))], more, t, p);
  }

  // ---------------------------------------------------------------------
  // A request looks at its file unless the handler is closed
  // ---------------------------------------------------------------------

  lemma StartNext(s: State, e: Event, t: Id)
    requires AtStart(s, t)
    ensures var n := Next(s, e); AtStart(n, t) || AtObserve(n, t) || n.closed
  {
    hide PlanMake, PlanPublish, PlanTidy;
    if !(e.Run? && e.t == t) { Bystander(s, e, t); }
  }

  predicate AtStart(s: State, t: Id) { t in s.threads && s.threads[t].pc.Start? }

  predicate AtObserve(s: State, t: Id) { t in s.threads && s.threads[t].pc.Observe? }

  ghost predicate Looks(at: seq<Event>, more: seq<Event>, t: Id) {
    exists k: nat :: k <= |more| && AtObserve(After(at + more[..k]), t)
  }

  lemma {:induction false} RequestLooks(es: seq<Event>, t: Id, more: seq<Event>)
    requires t !in After(es).threads
    ensures var at := es + [Arrive(t)];
      || After(at + more).closed
      || AtStart(After(at + more), t)
      || Looks(at, more, t)
    decreases |more|
  {
    var at := es + [Arrive(t)];
    if more == [] {
      AfterSnoc(es, Arrive(t));
      assert at + more == at;
    } else {
      var front, e := more[..|more| - 1], more[|more| - 1];
      hide After, Next, AtStart, AtObserve;
      RequestLooks(es, t, front);
      assert at + more == at + front + [e] && more[..|more|] == more;
      AfterSnoc(at + front, e);
      if After(at + front).closed {
        ClosedNext(After(at + front), e);
      } else if AtStart(After(at + front), t) {
        StartNext(After(at + front), e, t);
      } else {
        var k: nat :| k <= |front| && AtObserve(After(at + front[..k]), t);
        assert front[..k] == more[..k];
      }
    }
  }

  // ---------------------------------------------------------------------
  // A request that arrives after Close does nothing
  // ---------------------------------------------------------------------

  lemma {:induction false} LateRequestDoesNothing(es: seq<Event>, t: Id, more: seq<Event>)
    requires After(es).closed && t !in After(es).threads
    ensures var n := After(es + [Arrive(t)] + more);
      n.closed && t in n.threads && (n.threads[t].pc.Start? || n.threads[t].pc.Done?)
    decreases |more|
  {
    if more == [] {
      AfterSnoc(es, Arrive(t));
      assert es + [Arrive(t)] + more == es + [Arrive(t)];
    } else {
      var front, e := more[..|more| - 1], more[|more| - 1];
      LateRequestDoesNothing(es, t, front);
      assert es + [Arrive(t)] + more == es + [Arrive(t)] + front + [e];
      AfterSnoc(es + [Arrive(t)] + front, e);
      hide After, Next;
      LateStep(After(es + [Arrive(t)] + front), e, t);
    }
  }

  lemma LateStep(s: State, e: Event, t: Id)
    requires s.closed && t in s.threads && (s.threads[t].pc.Start? || s.threads[t].pc.Done?)
    ensures var n := Next(s, e); n.closed && t in n.threads && (n.threads[t].pc.Start? || n.threads[t].pc.Done?)
  {
    hide PlanMake, PlanPublish;
    ClosedNext(s, e);
    if !(e.Run? && e.t == t) { Bystander(s, e, t); }
  }
}
