/** The page cache never deadlocks. */
module PageCacheProgress {
  import opened Wrappers
  import opened PageCache
  import opened PageCacheInvariant
  import opened PageCacheTheorems

  // ---------------------------------------------------------------------
  // A parse lock that is taken is held by the thread that took it
  // ---------------------------------------------------------------------

  ghost predicate OwnersOk(ths: map<Id, Thread>, locks: map<Id, PathLock>) {
    forall l <- locks | locks[l].owner.Some? ::
      locks[l].owner.value in ths && PathHeld(ths[locks[l].owner.value].pc) == Some(l)
  }

  lemma OwnersMove(s: State, t: Id, pc: Pc, e: Effect)
    requires t in s.threads && OwnersOk(s.threads, s.locks) && PathMoves(s, s.threads[t], pc, e)
    ensures OwnersOk(s.threads[t := Moved(s.threads[t], pc, e)], LocksAfter(s.locks, t, s.threads[t].page, e))
  {
    MovedPc(s.threads[t], pc, e);
    hide Moved;
    assert e.TakeLock? ==> PathHeld(s.threads[t].pc).None?;
    hide PathHeld;
  }

  lemma OwnersNext(s: State, e: Event)
    requires Inv(s) && OwnersOk(s.threads, s.locks)
    ensures OwnersOk(Next(s, e).threads, Next(s, e).locks)
  {
    if e.Run? && e.t in s.threads {
      hide Inv, OwnersOk;
      PlanHands(s, e.t, e.c);
      var (pc, effect) := Plan(s, s.threads[e.t], e.c);
      OwnersMove(s, e.t, pc, effect);
      hide MuMoves, PathMoves, HoldMoves, DebtMoves, EntryMoves, KeepMoves, NewMoves, ThreadOk, Plan, Moved, LocksAfter;
    } else {
      hide Inv, Step;
    }
  }

  lemma {:induction false} OwnersAfter(es: seq<Event>)
    ensures OwnersOk(After(es).threads, After(es).locks)
    decreases |es|
  {
    if es != [] {
      OwnersAfter(es[..|es| - 1]);
      InvAfter(es[..|es| - 1]);
      hide Inv, Next, OwnersOk;
      OwnersNext(After(es[..|es| - 1]), es[|es| - 1]);
    }
  }

  // ---------------------------------------------------------------------
  // A thread that does not wait for a lock can move
  // ---------------------------------------------------------------------

  /** Finished, or waiting for a lock that is not free. */
  predicate Waiting(s: State, pc: Pc) {
    match pc
    case ReadWait(_) => s.writer.Some?
    case Enter => !MuFree(s)
    case PathWait(l) => l in s.locks && s.locks[l].owner.Some?
    case StoreWait(_, _) => !MuFree(s)
    case CleanWait => !MuFree(s)
    case ShutWait => !MuFree(s)
    case Done => true
    case _ => false
  }

  lemma LookMoves(s: State, th: Thread) returns (c: Choice)
    requires Looking(th.pc) && !Waiting(s, th.pc)
    requires th.pc.Found? ==> th.pc.x in s.wraps
    requires th.pc.Hold? ==> th.pc.x in s.wraps
    ensures PlanLook(s, th, c).0 != th.pc
  {
    c := Tick;
  }

  lemma MakeMoves(s: State, th: Thread) returns (c: Choice)
    requires Making(th.pc) && !Waiting(s, th.pc)
    requires th.pc.PathWait? ==> th.pc.l in s.locks
    ensures PlanMake(s, th, c).0 != th.pc
  {
    if th.pc.Enter? {
      var l := FreshId(s.locks.Keys);
      c := Made(l);
    } else {
      c := Refused;
    }
  }

  lemma PublishMoves(s: State, th: Thread) returns (c: Choice)
    requires Publishing(th.pc)
    requires th.pc.Replace? ==> th.pc.prev in s.wraps
    ensures PlanPublish(s, th, c).0 != th.pc
  {
    c := Tick;
  }

  lemma TidyMoves(s: State, th: Thread) returns (c: Choice)
    requires Tidying(th.pc) && !Waiting(s, th.pc)
    requires th.pc.CleanClose? ==> th.pc.x in s.wraps
    requires th.pc.Shut? ==> th.pc.xs <= s.wraps.Keys
    ensures PlanTidy(s, th, c).0 != th.pc
  {
    if th.pc.Shut? && th.pc.xs != {} {
      var x :| x in th.pc.xs;
      c := Pick(x);
      assert x !in th.pc.xs - {x};
    } else {
      c := Tick;
    }
  }

  /** The wrappers that a thread is about to touch exist. */
  lemma InReach(s: State, t: Id)
    requires Inv(s) && t in s.threads
    ensures var pc := s.threads[t].pc;
      && (pc.Found? || pc.Hold? || pc.CleanClose? ==> pc.x in s.wraps)
      && (pc.Replace? ==> pc.prev in s.wraps)
      && (pc.Shut? ==> pc.xs <= s.wraps.Keys)
      && (pc.PathWait? ==> pc.l in s.locks)
  {
    var th := s.threads[t];
    assert ThreadOk(s.tpls, s.wraps, s.cache, s.closed, th) && PathOk(s.locks, t, th);
    EntriesExist(s);
    Owed(s.tpls, s.wraps, th);
    hide Inv, CacheOk, KeptOk, RefsOk, TokensOk, LocksOk, PathsOk, HandsOk, ClosedOk;
  }

  lemma EntriesExist(s: State)
    requires Inv(s)
    ensures forall p <- s.cache :: s.cache[p].exec in s.wraps
  {
    hide LocksOk, PathsOk, RefsOk, TokensOk, KeptOk, ThreadOk, Overwritten;
  }

  ghost predicate CanMove(s: State, t: Id) {
    t in s.threads && exists c :: Step(s, t, c).threads[t].pc != s.threads[t].pc
  }

  lemma Moves(s: State, t: Id)
    requires Inv(s) && t in s.threads && !Waiting(s, s.threads[t].pc)
    ensures CanMove(s, t)
  {
    var th := s.threads[t];
    InReach(s, t);
    hide Inv, PlanLook, PlanMake, PlanPublish, PlanTidy, Waiting;
    var c;
    if Looking(th.pc) {
      c := LookMoves(s, th);
    } else if Making(th.pc) {
      c := MakeMoves(s, th);
    } else if Publishing(th.pc) {
      c := PublishMoves(s, th);
    } else {
      c := TidyMoves(s, th);
    }
    var (pc, e) := Plan(s, th, c);
    MovedPc(th, pc, e);
    hide Moved, Plan;
    assert Step(s, t, c).threads[t].pc == pc;
  }

  // ---------------------------------------------------------------------
  // Some thread can always move
  // ---------------------------------------------------------------------

  lemma HoldersDoNotWait(s: State, pc: Pc)
    ensures Writes(pc) || Reads(pc) ==> !Waiting(s, pc)
    ensures MuFree(s) && PathHeld(pc).Some? ==> !Waiting(s, pc)
    ensures MuFree(s) && Waiting(s, pc) ==> pc.Done? || (pc.PathWait? && pc.l in s.locks && s.locks[pc.l].owner.Some?)
  {
  }

  /** In every reachable state in which some thread has not finished, some thread has a step that moves it. */
  lemma NoDeadlock(es: seq<Event>, t: Id)
    requires t in After(es).threads && !After(es).threads[t].pc.Done?
    ensures exists u :: CanMove(After(es), u)
  {
    var s := After(es);
    InvAfter(es);
    OwnersAfter(es);
    assert LocksOk(s.threads, s.writer, s.readers);
    hide After, Inv, CanMove, Waiting, Writes, Reads, PathHeld;
    var u := t;
    if s.writer.Some? {
      u := s.writer.value;
    } else if r :| r in s.readers {
      u := r;
    } else {
      HoldersDoNotWait(s, s.threads[t].pc);
      if Waiting(s, s.threads[t].pc) { u := s.locks[s.threads[t].pc.l].owner.value; }
    }
    HoldersDoNotWait(s, s.threads[u].pc);
    Moves(s, u);
  }

  // ---------------------------------------------------------------------
  // Every run can be brought to its end
  // ---------------------------------------------------------------------

  function PhaseRank(k: Phase): nat { if k.Fast? then 7 else 0 }

  /** How many moves a thread has still before it, at most; a shutdown counts its entries once it has them. */
  function Rank(pc: Pc): nat {
    match pc
    case Start => 25
    case Observe => 24
    case ReadWait(k) => 16 + PhaseRank(k)
    case Read(k) => 15 + PhaseRank(k)
    case Found(k, _) => 14 + PhaseRank(k)
    case Hit(k, _) => 13 + PhaseRank(k)
    case Miss(k, _) => 13 + PhaseRank(k)
    case Open => 19
    case Enter => 18
    case PathWait(_) => 17
    case Parse(_) => 12
    case Parsing(_, _) => 11
    case Drop(_, _) => 4
    case StoreWait(_, _) => 10
    case Store(_, _) => 9
    case DropLocked(_, _) => 5
    case Replace(_, _, _) => 8
    case ReplaceReal(_, _, _) => 7
    case Publish(_, _) => 6
    case Grab(_, _) => 5
    case StoreUnlock(_, _) => 4
    case Leaving(_, _) => 3
    case Hold(_) => 2
    case Real(_) => 1
    case CleanWait => 5
    case Clean => 4
    case CleanClose(_) => 3
    case CleanReal(_) => 2
    case CleanDelete => 1
    case ShutWait => 1
    case Shut(xs) => 1 + 2 * |xs|
    case ShutReal(xs, _) => 2 + 2 * |xs|
    case Done => 0
  }

  /** A move leads to a lower rank, or to the start of a close loop; nothing leads back to that point. */
  predicate Descends(from: Pc, to: Pc) {
    to == from || (!to.ShutWait? && (from.ShutWait? || Rank(to) < Rank(from)))
  }

  lemma LookDescends(s: State, th: Thread, c: Choice)
    requires Looking(th.pc)
    ensures Descends(th.pc, PlanLook(s, th, c).0)
  {
  }

  lemma MakeDescends(s: State, th: Thread, c: Choice)
    requires Making(th.pc)
    ensures Descends(th.pc, PlanMake(s, th, c).0)
  {
  }

  lemma PublishDescends(s: State, th: Thread, c: Choice)
    requires Publishing(th.pc)
    ensures Descends(th.pc, PlanPublish(s, th, c).0)
  {
  }

  lemma TidyDescends(s: State, th: Thread, c: Choice)
    requires Tidying(th.pc)
    ensures Descends(th.pc, PlanTidy(s, th, c).0)
  {
  }

  /** Every step of every schedule takes its thread forward or leaves it where it is. */
  lemma StepDescends(s: State, t: Id, c: Choice)
    requires t in s.threads
    ensures var n := Step(s, t, c);
      && n.threads.Keys == s.threads.Keys && Descends(s.threads[t].pc, n.threads[t].pc)
      && forall u <- s.threads :: u != t ==> n.threads[u] == s.threads[u]
  {
    var th := s.threads[t];
    if Looking(th.pc) {
      LookDescends(s, th, c);
    } else if Making(th.pc) {
      MakeDescends(s, th, c);
    } else if Publishing(th.pc) {
      PublishDescends(s, th, c);
    } else {
      TidyDescends(s, th, c);
    }
    var (pc, e) := Plan(s, th, c);
    hide PlanLook, PlanMake, PlanPublish, PlanTidy, Descends;
    MovedPc(th, pc, e);
    hide Moved, Plan;
  }

  /** The shutdowns that have not yet captured the entries. */
  function Undecided(ths: map<Id, Thread>): set<Id> { set t | t in ths && ths[t].pc.ShutWait? }

  ghost function Total(ths: map<Id, Thread>): nat {
    if ths == map[] then 0
    else
      var t :| t in ths;
      Rank(ths[t].pc) + Total(ths - {t})
  }

  lemma TotalFirst(ths: map<Id, Thread>) returns (first: Id)
    requires ths != map[]
    ensures first in ths && Total(ths) == Rank(ths[first].pc) + Total(ths - {first})
  {
    first :| first in ths && Total(ths) == Rank(ths[first].pc) + Total(ths - {first});
  }

  lemma {:induction false} TotalWithout(ths: map<Id, Thread>, t: Id)
    requires t in ths
    ensures Total(ths) == Rank(ths[t].pc) + Total(ths - {t})
    decreases |ths|
  {
    hide Total, Rank;
    var first := TotalFirst(ths);
    if first != t {
      TotalWithout(ths - {first}, t);
      TotalWithout(ths - {t}, first);
      assert ths - {first} - {t} == ths - {t} - {first};
    }
  }

  /** Fewer shutdowns before their close loop, or as many and fewer moves left. */
  ghost predicate Nearer(n: map<Id, Thread>, ths: map<Id, Thread>) {
    Undecided(n) < Undecided(ths) || (Undecided(n) == Undecided(ths) && Total(n) < Total(ths))
  }

  lemma TotalDrops(ths: map<Id, Thread>, n: map<Id, Thread>, t: Id)
    requires t in ths && n.Keys == ths.Keys && (forall u <- ths :: u != t ==> n[u] == ths[u])
    requires n[t].pc != ths[t].pc && Descends(ths[t].pc, n[t].pc)
    ensures Nearer(n, ths)
  {
    hide Rank, Total;
    if ths[t].pc.ShutWait? {
      assert t in Undecided(ths) && t !in Undecided(n);
    } else {
      TotalWithout(ths, t);
      TotalWithout(n, t);
      assert n - {t} == ths - {t};
    }
  }

  predicate Finished(s: State) { forall t <- s.threads :: s.threads[t].pc.Done? }

  /** The handler is closed, or some shutdown is still to close it. */
  ghost predicate ShutComes(s: State) { s.closed || exists t <- s.threads :: s.threads[t].pc.ShutWait? }

  lemma ShutStillComes(s: State, t: Id, c: Choice)
    requires t in s.threads && ShutComes(s)
    ensures ShutComes(Step(s, t, c))
  {
    var n := Step(s, t, c);
    if !s.closed {
      var u :| u in s.threads && s.threads[u].pc.ShutWait?;
      StepDescends(s, t, c);
      if u != t {
        assert n.threads[u].pc.ShutWait?;
      } else {
        assert n.closed || n.threads[t].pc.ShutWait?;
      }
    }
  }

  lemma MoveNearer(s: State, t: Id, c: Choice)
    requires t in s.threads && Step(s, t, c).threads[t].pc != s.threads[t].pc
    ensures Nearer(Step(s, t, c).threads, s.threads) && (ShutComes(s) ==> ShutComes(Step(s, t, c)))
  {
    hide Step, Descends, Nearer, ShutComes;
    StepDescends(s, t, c);
    TotalDrops(s.threads, Step(s, t, c).threads, t);
    if ShutComes(s) { ShutStillComes(s, t, c); }
  }

  lemma SomeMove(es: seq<Event>) returns (t: Id, c: Choice)
    requires !Finished(After(es))
    ensures t in After(es).threads && Step(After(es), t, c).threads[t].pc != After(es).threads[t].pc
  {
    var u :| u in After(es).threads && !After(es).threads[u].pc.Done?;
    hide After, Step;
    NoDeadlock(es, u);
    t :| CanMove(After(es), t);
    c :| Step(After(es), t, c).threads[t].pc != After(es).threads[t].pc;
  }

  lemma AfterRun(es: seq<Event>, t: Id, c: Choice)
    requires t in After(es).threads
    ensures After(es + [Run(t, c)]) == Step(After(es), t, c)
  {
    hide Step;
    assert (es + [Run(t, c)])[..|es|] == es;
  }

  lemma GetNearer(es: seq<Event>) returns (e: Event)
    requires !Finished(After(es))
    ensures e.Run? && Nearer(After(es + [e]).threads, After(es).threads)
    ensures ShutComes(After(es)) ==> ShutComes(After(es + [e]))
  {
    hide *;
    var t, c := SomeMove(es);
    e := Run(t, c);
    AfterRun(es, t, c);
    MoveNearer(After(es), t, c);
  }

  /** From every reachable state the threads alone can run to their end, and a shutdown among them takes effect. */
  lemma {:induction false} CanFinish(es: seq<Event>) returns (more: seq<Event>)
    ensures (forall e <- more :: e.Run?) && Finished(After(es + more))
    ensures ShutComes(After(es)) ==> After(es + more).closed
    decreases Undecided(After(es).threads), Total(After(es).threads)
  {
    hide After, Undecided, Total;
    if Finished(After(es)) {
      more := [];
      assert es + more == es;
    } else {
      var e := GetNearer(es);
      hide Finished, ShutComes;
      var rest := CanFinish(es + [e]);
      more := [e] + rest;
      assert es + more == es + [e] + rest;
    }
  }

  /** Whatever has happened, a run with a shutdown in it can go on to a point where every thread is through
      and every template ever obtained has been closed exactly once. */
  lemma EverythingIsClosed(es: seq<Event>)
    requires ShutComes(After(es))
    ensures exists more: seq<Event> ::
              (forall e <- more :: e.Run?) && Finished(After(es + more)) && AllClosedOnce(After(es + more))
  {
    var more := CanFinish(es);
    forall x | x in After(es + more).tpls
      ensures x in After(es + more).closes && After(es + more).closes[x] == 1
    {
      hide After;
      Conservation(es + more, x);
    }
    assert AllClosedOnce(After(es + more));
  }

  predicate AllClosedOnce(s: State) { forall x <- s.tpls :: x in s.closes && s.closes[x] == 1 }
}
