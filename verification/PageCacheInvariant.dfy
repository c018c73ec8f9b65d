/**
  The invariant of the page cache protocol, and its preservation by every step.

  Each step is first summed up by what it hands over (`MuMoves`, `PathMoves`,
  `HoldMoves`, `DebtMoves`, `EntryMoves`, `KeepMoves`, `NewMoves`); each part of
  the invariant then follows from those summaries and from the component it is
  about.
 */
module PageCacheInvariant {
  import opened Wrappers
  import opened PageCache

  // ---------------------------------------------------------------------
  // What a program point owns
  // ---------------------------------------------------------------------

  /** The wrapper this request has acquired and not released. */
  function Holds(pc: Pc): Option<Id> {
    match pc
    case Hit(_, x) => Some(x)
    case StoreUnlock(_, got) => got
    case Leaving(_, got) => got
    case Hold(x) => Some(x)
    case _ => None
  }

  /** The unwrapped template in hand. */
  function Unwrapped(pc: Pc): Option<Id> {
    match pc
    case Parsing(_, x) => Some(x)
    case Drop(_, x) => Some(x)
    case StoreWait(_, x) => Some(x)
    case Store(_, x) => Some(x)
    case DropLocked(_, x) => Some(x)
    case _ => None
  }

  /** The template this thread must close for real, or hand on to a wrapper. */
  function Owes(pc: Pc): Option<Id> {
    match pc
    case ReplaceReal(_, _, prev) => Some(prev)
    case Real(x) => Some(x)
    case CleanReal(x) => Some(x)
    case ShutReal(_, x) => Some(x)
    case _ => Unwrapped(pc)
  }

  /** The wrapper built but not yet in the page map. */
  function Storing(pc: Pc): Option<Id> {
    match pc
    case Replace(_, x, _) => Some(x)
    case ReplaceReal(_, x, _) => Some(x)
    case Publish(_, x) => Some(x)
    case _ => None
  }

  /** The captured entries the close loop has still to close. */
  function Listed(pc: Pc): set<Id> {
    match pc
    case Shut(xs) => xs
    case ShutReal(xs, _) => xs
    case _ => {}
  }

  predicate Reads(pc: Pc) { pc.Read? || pc.Found? || pc.Hit? || pc.Miss? }

  predicate Writes(pc: Pc) {
    || pc.Store? || pc.DropLocked? || pc.Replace? || pc.ReplaceReal? || pc.Publish? || pc.Grab? || pc.StoreUnlock?
    || pc.Clean? || pc.CleanClose? || pc.CleanReal? || pc.CleanDelete?
  }

  /** The writer that has closed the entry of its page but not yet overwritten it. */
  predicate Overwriting(pc: Pc) { pc.ReplaceReal? || pc.Publish? || pc.CleanReal? || pc.CleanDelete? }

  function LockOf(k: Phase): Option<Id> { if k.Recheck? then Some(k.lock) else None }

  /** The parse lock this thread owns. */
  function PathHeld(pc: Pc): Option<Id> {
    match pc
    case ReadWait(k) => LockOf(k)
    case Read(k) => LockOf(k)
    case Found(k, _) => LockOf(k)
    case Hit(k, _) => LockOf(k)
    case Miss(k, _) => LockOf(k)
    case Parse(l) => Some(l)
    case Parsing(l, _) => Some(l)
    case Drop(l, _) => Some(l)
    case StoreWait(l, _) => Some(l)
    case Store(l, _) => Some(l)
    case DropLocked(l, _) => Some(l)
    case Replace(l, _, _) => Some(l)
    case ReplaceReal(l, _, _) => Some(l)
    case Publish(l, _) => Some(l)
    case Grab(l, _) => Some(l)
    case StoreUnlock(l, _) => Some(l)
    case Leaving(l, _) => Some(l)
    case _ => None
  }

  function One(b: bool): nat { if b then 1 else 0 }

  function Holders(ths: map<Id, Thread>, x: Id): set<Id> {
    set t | t in ths && Holds(ths[t].pc) == Some(x)
  }

  function Debtors(ths: map<Id, Thread>, x: Id): set<Id> {
    set t | t in ths && Owes(ths[t].pc) == Some(x)
  }

  lemma HoldersMove(ths: map<Id, Thread>, t: Id, th: Thread, x: Id)
    ensures |Holders(ths[t := th], x)| + One(t in ths && Holds(ths[t].pc) == Some(x))
         == |Holders(ths, x)| + One(Holds(th.pc) == Some(x))
  {
    var rest := Holders(ths, x) - {t};
    assert Holders(ths[t := th], x) == if Holds(th.pc) == Some(x) then rest + {t} else rest;
    assert Holders(ths, x) == if t in ths && Holds(ths[t].pc) == Some(x) then rest + {t} else rest;
  }

  lemma DebtorsMove(ths: map<Id, Thread>, t: Id, th: Thread, x: Id)
    ensures |Debtors(ths[t := th], x)| + One(t in ths && Owes(ths[t].pc) == Some(x))
         == |Debtors(ths, x)| + One(Owes(th.pc) == Some(x))
  {
    var rest := Debtors(ths, x) - {t};
    assert Debtors(ths[t := th], x) == if Owes(th.pc) == Some(x) then rest + {t} else rest;
    assert Debtors(ths, x) == if t in ths && Owes(ths[t].pc) == Some(x) then rest + {t} else rest;
  }

  // ---------------------------------------------------------------------
  // The inductive invariant
  // ---------------------------------------------------------------------

  ghost predicate LocksOk(ths: map<Id, Thread>, writer: Option<Id>, readers: set<Id>) {
    && (forall t <- ths :: Writes(ths[t].pc) <==> writer == Some(t))
    && (forall t <- ths :: Reads(ths[t].pc) <==> t in readers)
    && (writer.Some? ==> writer.value in ths && readers == {})
    && readers <= ths.Keys
  }

  /** A parse lock a thread owns or waits for is the lock of its page. */
  predicate PathOk(locks: map<Id, PathLock>, t: Id, th: Thread) {
    && (PathHeld(th.pc).Some? ==>
          PathHeld(th.pc).value in locks && locks[PathHeld(th.pc).value] == PathLock(th.page, Some(t)))
    && (th.pc.PathWait? ==> th.pc.l in locks && locks[th.pc.l].page == th.page)
  }

  /** Until a cleanup, a page has one parse lock. */
  ghost predicate OneLock(locks: map<Id, PathLock>, pathLocks: map<Page, Id>, closed: bool, cleaned: set<Page>) {
    && (forall p <- pathLocks :: pathLocks[p] in locks && locks[pathLocks[p]].page == p)
    && (forall l <- locks :: closed || locks[l].page in cleaned || locks[l].page in pathLocks)
    && (forall l, m | l in locks && m in locks && locks[l].page == locks[m].page ::
          locks[l].page in cleaned || l == m)
  }

  ghost predicate PathsOk(s: State) {
    && OneLock(s.locks, s.pathLocks, s.closed, s.cleaned)
    && forall t <- s.threads :: PathOk(s.locks, t, s.threads[t])
  }

  /** refs = the cache's reference, plus one for each request holding the wrapper. */
  ghost predicate RefsOk(ths: map<Id, Thread>, wraps: map<Id, Wrapper>) {
    forall x <- wraps :: wraps[x].refs == One(!wraps[x].destroyed) + |Holders(ths, x)|
  }

  predicate Alive(wraps: map<Id, Wrapper>, x: Id) { x in wraps && wraps[x].refs > 0 }

  /** Every template is closed, or owed by exactly one thread, or alive in its wrapper. */
  ghost predicate TokensOk(ths: map<Id, Thread>, closes: map<Id, nat>, wraps: map<Id, Wrapper>) {
    forall x <- closes :: closes[x] + |Debtors(ths, x)| + One(Alive(wraps, x)) == 1
  }

  predicate Destroyed(wraps: map<Id, Wrapper>, x: Id) { x in wraps && wraps[x].destroyed }

  /** `x` is a template for what the thread asked for. */
  predicate For(tpls: map<Id, Template>, x: Id, th: Thread, parsed: bool) {
    x in tpls && tpls[x] == Template(th.page, th.mtime, parsed)
  }

  /** The page whose entry may be destroyed, because the writer is about to overwrite it. */
  function Overwritten(ths: map<Id, Thread>, writer: Option<Id>): Option<Page> {
    if writer.Some? && writer.value in ths && Overwriting(ths[writer.value].pc)
    then Some(ths[writer.value].page)
    else None
  }

  ghost predicate CacheOk(tpls: map<Id, Template>, wraps: map<Id, Wrapper>, cache: map<Page, Entry>,
                         hole: Option<Page>) {
    forall p <- cache ::
      var x := cache[p].exec;
      && x in wraps && x in tpls && tpls[x] == Template(p, cache[p].modeTime, true)
      && (wraps[x].destroyed ==> hole == Some(p))
  }

  /** Acquired: a wrapper of a parsed template for what the request asked for. */
  predicate Held(tpls: map<Id, Template>, wraps: map<Id, Wrapper>, th: Thread, x: Id) {
    x in wraps && For(tpls, x, th, true)
  }

  /** In hand: an unwrapped template for what the request asked for. */
  predicate Raw(tpls: map<Id, Template>, wraps: map<Id, Wrapper>, th: Thread, x: Id, parsed: bool) {
    x !in wraps && For(tpls, x, th, parsed)
  }

  /** Built, not yet published: only the cache's reference. */
  predicate Built(tpls: map<Id, Template>, wraps: map<Id, Wrapper>, th: Thread, x: Id) {
    x in wraps && wraps[x] == Wrapper(1, false) && For(tpls, x, th, true)
  }

  predicate HandsOk(tpls: map<Id, Template>, wraps: map<Id, Wrapper>, th: Thread) {
    match th.pc
    case Hit(_, x) => Held(tpls, wraps, th, x)
    case StoreUnlock(_, got) => got.Some? ==> Held(tpls, wraps, th, got.value)
    case Leaving(_, got) => got.Some? ==> Held(tpls, wraps, th, got.value)
    case Hold(x) => Held(tpls, wraps, th, x)
    case Parsing(_, x) => Raw(tpls, wraps, th, x, false)
    case Drop(_, x) => Raw(tpls, wraps, th, x, false)
    case StoreWait(_, x) => Raw(tpls, wraps, th, x, true)
    case Store(_, x) => Raw(tpls, wraps, th, x, true)
    case DropLocked(_, x) => Raw(tpls, wraps, th, x, true)
    case Replace(_, x, _) => Built(tpls, wraps, th, x)
    case ReplaceReal(_, x, prev) => Built(tpls, wraps, th, x) && prev in tpls
    case Publish(_, x) => Built(tpls, wraps, th, x)
    case Real(x) => x in tpls
    case CleanReal(x) => x in tpls
    case Shut(xs) => xs <= wraps.Keys
    case ShutReal(xs, x) => xs <= wraps.Keys && x in tpls
    case _ => true
  }

  /** What a thread inside a section of T.mu knows about the entry of its page. */
  predicate SectionOk(wraps: map<Id, Wrapper>, cache: map<Page, Entry>, th: Thread) {
    match th.pc
    case Found(_, x) => th.page in cache && cache[th.page] == Entry(x, th.mtime)
    case Replace(_, x, prev) => th.page in cache && cache[th.page].exec == prev && prev != x
    case ReplaceReal(_, x, prev) =>
      th.page in cache && cache[th.page].exec == prev && prev != x && Destroyed(wraps, prev)
    case Publish(_, x) => th.page in cache ==> cache[th.page].exec != x && Destroyed(wraps, cache[th.page].exec)
    case Grab(_, x) => th.page in cache && cache[th.page] == Entry(x, th.mtime)
    case CleanClose(x) => th.page in cache && cache[th.page].exec == x
    case CleanReal(x) => th.page in cache ==> Destroyed(wraps, cache[th.page].exec)
    case CleanDelete => th.page in cache ==> Destroyed(wraps, cache[th.page].exec)
    case _ => true
  }

  predicate ClosedOk(closed: bool, th: Thread) {
    && (th.pc.Shut? || th.pc.ShutReal? || th.pc.DropLocked? ==> closed)
    && (Storing(th.pc).Some? || th.pc.Grab? ==> !closed)
  }

  ghost predicate ThreadOk(tpls: map<Id, Template>, wraps: map<Id, Wrapper>, cache: map<Page, Entry>,
                          closed: bool, th: Thread) {
    HandsOk(tpls, wraps, th) && SectionOk(wraps, cache, th) && ClosedOk(closed, th)
  }

  predicate Keeps(th: Thread, x: Id) { Storing(th.pc) == Some(x) || x in Listed(th.pc) }

  predicate Cached(cache: map<Page, Entry>, x: Id, p: Page) { p in cache && cache[p].exec == x }

  /** An undestroyed wrapper is in the page map, being stored, or waits in a close loop. */
  ghost predicate KeptOk(ths: map<Id, Thread>, tpls: map<Id, Template>, wraps: map<Id, Wrapper>,
                         cache: map<Page, Entry>) {
    && wraps.Keys <= tpls.Keys
    && forall x <- wraps ::
         || wraps[x].destroyed
         || Cached(cache, x, tpls[x].page)
         || exists t <- ths :: Keeps(ths[t], x)
  }

  ghost predicate Inv(s: State) {
    && LocksOk(s.threads, s.writer, s.readers)
    && PathsOk(s)
    && RefsOk(s.threads, s.wraps)
    && TokensOk(s.threads, s.closes, s.wraps)
    && s.closes.Keys == s.tpls.Keys
    && CacheOk(s.tpls, s.wraps, s.cache, Overwritten(s.threads, s.writer))
    && (s.closed ==> s.cache == map[] && s.pathLocks == map[])
    && (forall t <- s.threads :: ThreadOk(s.tpls, s.wraps, s.cache, s.closed, s.threads[t]))
    && KeptOk(s.threads, s.tpls, s.wraps, s.cache)
  }

  // ---------------------------------------------------------------------
  // What a plan hands over
  // ---------------------------------------------------------------------

  predicate MuMoves(writer: Option<Id>, readers: set<Id>, now: Pc, pc: Pc, e: Effect) {
    && Writes(pc) == (e.WLock? || (Writes(now) && !e.WUnlock? && !e.DropEntry?))
    && Reads(pc) == (e.RLock? || (Reads(now) && !e.RUnlock?))
    && (e.WLock? ==> writer.None? && readers == {} && !Reads(now) && !Overwriting(pc))
    && (e.RLock? ==> writer.None? && !Writes(now))
    && (e.WUnlock? || e.DropEntry? ==> Writes(now))
    && (e.RUnlock? ==> Reads(now))
    && (e.Saw? || e.Lost? ==> !Writes(now))
  }

  predicate PathMoves(s: State, th: Thread, pc: Pc, e: Effect) {
    && PathHeld(pc) == (if e.TakeLock? then Some(e.l) else if e.GiveLock? then None else PathHeld(th.pc))
    && (e.Saw? || e.Lost? ==> PathHeld(th.pc).None? && !pc.PathWait?)
    && (e.GiveLock? ==> PathHeld(th.pc) == Some(e.l))
    && (e.TakeLock? ==> th.pc == PathWait(e.l) && e.l in s.locks && s.locks[e.l].owner.None?)
    && (e.NewLock? ==> e.l !in s.locks && th.page !in s.pathLocks && !s.closed && pc == PathWait(e.l))
    && (pc.PathWait? ==> pc == th.pc || e.NewLock? || (th.page in s.pathLocks && s.pathLocks[th.page] == pc.l))
  }

  predicate HoldMoves(wraps: map<Id, Wrapper>, now: Pc, pc: Pc, e: Effect) {
    && Holds(pc) == (if e.Acquire? then Some(e.x) else if e.Release? then None else Holds(now))
    && (e.Acquire? ==> Holds(now).None? && (now.Found? || now.Grab?) && now.x == e.x)
    && (e.Release? ==> Holds(now) == Some(e.x) && e.x in wraps)
  }

  predicate DebtMoves(wraps: map<Id, Wrapper>, now: Pc, pc: Pc, e: Effect) {
    && (e.Obtain? || e.Release? || e.CloseWrap? ==> Owes(now).None?)
    && (e.Release? || e.CloseWrap? ==> e.x in wraps)
    && (e.RealClose? || e.WrapUp? ==> Owes(now) == Some(e.x))
    && (e.WrapUp? ==> Unwrapped(now) == Some(e.x))
    && (e.Obtain? ==> Owes(pc) == Some(e.x))
    && (e.RealClose? || e.WrapUp? ==> Owes(pc).None?)
    && (e.Release? ==> Owes(pc) == if ReleaseRef(wraps[e.x]).1 then Some(e.x) else None)
    && (e.CloseWrap? ==> Owes(pc) == if CloseRef(wraps[e.x]).1 then Some(e.x) else None)
    && (!e.Obtain? && !e.RealClose? && !e.WrapUp? && !e.Release? && !e.CloseWrap? ==> Owes(pc) == Owes(now))
  }

  predicate EntryMoves(cache: map<Page, Entry>, now: Thread, pc: Pc, e: Effect) {
    && (Overwriting(now.pc) && !Overwriting(pc) ==> e.PutEntry? || e.DropEntry?)
    && (e.PutEntry? || e.DropEntry? ==> Overwriting(now.pc) && !Overwriting(pc) && Writes(now.pc))
    && (e.PutEntry? ==> Storing(now.pc) == Some(e.x) && now.pc.Publish?)
    && (e.DropEntry? ==> now.pc.CleanDelete?)
    && (e.CloseWrap? ==> e.x in Listed(now.pc) || (Writes(now.pc) && Overwriting(pc) && Cached(cache, e.x, now.page)))
  }

  predicate KeepMoves(cache: map<Page, Entry>, now: Pc, pc: Pc, e: Effect) {
    && (e.WrapUp? ==> Storing(pc) == Some(e.x))
    && (Storing(now).Some? ==> Storing(pc) == Storing(now) || e == PutEntry(Storing(now).value))
    && (forall x <- Listed(now) :: x in Listed(pc) || e == CloseWrap(x))
    && (e.ShutDown? ==> Listed(pc) == Entries(cache))
  }

  predicate NewMoves(s: State, th: Thread, pc: Pc, e: Effect) {
    && (e.Obtain? ==> e.x !in s.tpls)
    && (e.ParsedOk? ==> Unwrapped(th.pc) == Some(e.x) && th.pc.Parsing?)
    && (e.ShutDown? || e.WLock? || e.NewLock? ==> MuFree(s))
    && (e.ShutDown? ==> !s.closed)
  }

  lemma LookMu(s: State, th: Thread, c: Choice)
    requires Looking(th.pc)
    ensures var (pc, e) := PlanLook(s, th, c); MuMoves(s.writer, s.readers, th.pc, pc, e)
  {
  }

  lemma LookPaths(s: State, th: Thread, c: Choice)
    requires Looking(th.pc)
    ensures var (pc, e) := PlanLook(s, th, c); PathMoves(s, th, pc, e)
  {
  }

  lemma LookLocks(s: State, th: Thread, c: Choice)
    requires Looking(th.pc)
    ensures var (pc, e) := PlanLook(s, th, c);
      MuMoves(s.writer, s.readers, th.pc, pc, e) && PathMoves(s, th, pc, e)
  {
    hide *;
    LookMu(s, th, c);
    LookPaths(s, th, c);
  }

  lemma LookRefs(s: State, th: Thread, c: Choice)
    requires Looking(th.pc)
    ensures var (pc, e) := PlanLook(s, th, c);
      HoldMoves(s.wraps, th.pc, pc, e) && DebtMoves(s.wraps, th.pc, pc, e)
  {
  }

  lemma LookKeeps(s: State, th: Thread, c: Choice)
    requires Looking(th.pc) && SectionOk(s.wraps, s.cache, th)
    ensures var (pc, e) := PlanLook(s, th, c);
      EntryMoves(s.cache, th, pc, e) && KeepMoves(s.cache, th.pc, pc, e) && NewMoves(s, th, pc, e)
  {
  }

  lemma LookHands(s: State, th: Thread, c: Choice, hole: Option<Page>)
    requires Looking(th.pc) && HandsOk(s.tpls, s.wraps, th) && SectionOk(s.wraps, s.cache, th)
    requires CacheOk(s.tpls, s.wraps, s.cache, hole) && s.wraps.Keys <= s.tpls.Keys
    ensures var (pc, e) := PlanLook(s, th, c);
      HandsOk(TplsAfter(s.tpls, th, e), WrapsAfter(s.wraps, e), Moved(th, pc, e))
  {
  }

  lemma LookSection(s: State, th: Thread, c: Choice, hole: Option<Page>)
    requires Looking(th.pc) && ThreadOk(s.tpls, s.wraps, s.cache, s.closed, th)
    requires CacheOk(s.tpls, s.wraps, s.cache, hole)
    ensures var (pc, e) := PlanLook(s, th, c);
      && SectionOk(WrapsAfter(s.wraps, e), CacheAfter(s.cache, th, e), Moved(th, pc, e))
      && ClosedOk(s.closed || e.ShutDown?, Moved(th, pc, e))
  {
  }

  lemma MakeMu(s: State, th: Thread, c: Choice)
    requires Making(th.pc)
    ensures var (pc, e) := PlanMake(s, th, c); MuMoves(s.writer, s.readers, th.pc, pc, e)
  {
  }

  lemma MakePaths(s: State, th: Thread, c: Choice)
    requires Making(th.pc)
    ensures var (pc, e) := PlanMake(s, th, c); PathMoves(s, th, pc, e)
  {
  }

  lemma MakeLocks(s: State, th: Thread, c: Choice)
    requires Making(th.pc)
    ensures var (pc, e) := PlanMake(s, th, c);
      MuMoves(s.writer, s.readers, th.pc, pc, e) && PathMoves(s, th, pc, e)
  {
    hide *;
    MakeMu(s, th, c);
    MakePaths(s, th, c);
  }

  lemma MakeRefs(s: State, th: Thread, c: Choice)
    requires Making(th.pc)
    ensures var (pc, e) := PlanMake(s, th, c);
      HoldMoves(s.wraps, th.pc, pc, e) && DebtMoves(s.wraps, th.pc, pc, e)
  {
  }

  lemma MakeKeeps(s: State, th: Thread, c: Choice)
    requires Making(th.pc) && SectionOk(s.wraps, s.cache, th)
    ensures var (pc, e) := PlanMake(s, th, c);
      EntryMoves(s.cache, th, pc, e) && KeepMoves(s.cache, th.pc, pc, e) && NewMoves(s, th, pc, e)
  {
  }

  lemma MakeHands(s: State, th: Thread, c: Choice, hole: Option<Page>)
    requires Making(th.pc) && HandsOk(s.tpls, s.wraps, th) && SectionOk(s.wraps, s.cache, th)
    requires CacheOk(s.tpls, s.wraps, s.cache, hole) && s.wraps.Keys <= s.tpls.Keys
    ensures var (pc, e) := PlanMake(s, th, c);
      HandsOk(TplsAfter(s.tpls, th, e), WrapsAfter(s.wraps, e), Moved(th, pc, e))
  {
  }

  lemma MakeSection(s: State, th: Thread, c: Choice, hole: Option<Page>)
    requires Making(th.pc) && ThreadOk(s.tpls, s.wraps, s.cache, s.closed, th)
    requires CacheOk(s.tpls, s.wraps, s.cache, hole)
    ensures var (pc, e) := PlanMake(s, th, c);
      && SectionOk(WrapsAfter(s.wraps, e), CacheAfter(s.cache, th, e), Moved(th, pc, e))
      && ClosedOk(s.closed || e.ShutDown?, Moved(th, pc, e))
  {
  }

  lemma PublishLocks(s: State, th: Thread, c: Choice)
    requires Publishing(th.pc)
    ensures var (pc, e) := PlanPublish(s, th, c);
      MuMoves(s.writer, s.readers, th.pc, pc, e) && PathMoves(s, th, pc, e)
  {
  }

  lemma PublishRefs(s: State, th: Thread, c: Choice)
    requires Publishing(th.pc)
    ensures var (pc, e) := PlanPublish(s, th, c);
      HoldMoves(s.wraps, th.pc, pc, e) && DebtMoves(s.wraps, th.pc, pc, e)
  {
  }

  lemma PublishKeeps(s: State, th: Thread, c: Choice)
    requires Publishing(th.pc) && SectionOk(s.wraps, s.cache, th)
    ensures var (pc, e) := PlanPublish(s, th, c);
      EntryMoves(s.cache, th, pc, e) && KeepMoves(s.cache, th.pc, pc, e) && NewMoves(s, th, pc, e)
  {
  }

  lemma StoreHands(s: State, th: Thread, c: Choice, hole: Option<Page>)
    requires th.pc.Store? || th.pc.DropLocked? || th.pc.Replace? || th.pc.ReplaceReal?
    requires HandsOk(s.tpls, s.wraps, th) && SectionOk(s.wraps, s.cache, th)
    requires CacheOk(s.tpls, s.wraps, s.cache, hole) && s.wraps.Keys <= s.tpls.Keys
    ensures var (pc, e) := PlanPublish(s, th, c);
      HandsOk(TplsAfter(s.tpls, th, e), WrapsAfter(s.wraps, e), Moved(th, pc, e))
  {
  }

  lemma GrabHands(s: State, th: Thread, c: Choice, hole: Option<Page>)
    requires th.pc.Publish? || th.pc.Grab? || th.pc.StoreUnlock? || th.pc.Leaving?
    requires HandsOk(s.tpls, s.wraps, th) && SectionOk(s.wraps, s.cache, th)
    requires CacheOk(s.tpls, s.wraps, s.cache, hole) && s.wraps.Keys <= s.tpls.Keys
    ensures var (pc, e) := PlanPublish(s, th, c);
      HandsOk(TplsAfter(s.tpls, th, e), WrapsAfter(s.wraps, e), Moved(th, pc, e))
  {
  }

  lemma PublishHands(s: State, th: Thread, c: Choice, hole: Option<Page>)
    requires Publishing(th.pc) && HandsOk(s.tpls, s.wraps, th) && SectionOk(s.wraps, s.cache, th)
    requires CacheOk(s.tpls, s.wraps, s.cache, hole) && s.wraps.Keys <= s.tpls.Keys
    ensures var (pc, e) := PlanPublish(s, th, c);
      HandsOk(TplsAfter(s.tpls, th, e), WrapsAfter(s.wraps, e), Moved(th, pc, e))
  {
    hide HandsOk, SectionOk, CacheOk, PlanPublish, TplsAfter, WrapsAfter, Moved;
    if th.pc.Store? || th.pc.DropLocked? || th.pc.Replace? || th.pc.ReplaceReal? {
      StoreHands(s, th, c, hole);
    } else {
      GrabHands(s, th, c, hole);
    }
  }

  lemma PublishSection(s: State, th: Thread, c: Choice, hole: Option<Page>)
    requires Publishing(th.pc) && ThreadOk(s.tpls, s.wraps, s.cache, s.closed, th)
    requires CacheOk(s.tpls, s.wraps, s.cache, hole)
    ensures var (pc, e) := PlanPublish(s, th, c);
      && SectionOk(WrapsAfter(s.wraps, e), CacheAfter(s.cache, th, e), Moved(th, pc, e))
      && ClosedOk(s.closed || e.ShutDown?, Moved(th, pc, e))
  {
  }

  lemma TidyLocks(s: State, th: Thread, c: Choice)
    requires Tidying(th.pc)
    ensures var (pc, e) := PlanTidy(s, th, c);
      MuMoves(s.writer, s.readers, th.pc, pc, e) && PathMoves(s, th, pc, e)
  {
  }

  lemma TidyRefs(s: State, th: Thread, c: Choice)
    requires Tidying(th.pc)
    ensures var (pc, e) := PlanTidy(s, th, c);
      HoldMoves(s.wraps, th.pc, pc, e) && DebtMoves(s.wraps, th.pc, pc, e)
  {
  }

  lemma TidyKeeps(s: State, th: Thread, c: Choice)
    requires Tidying(th.pc) && SectionOk(s.wraps, s.cache, th)
    ensures var (pc, e) := PlanTidy(s, th, c);
      EntryMoves(s.cache, th, pc, e) && KeepMoves(s.cache, th.pc, pc, e) && NewMoves(s, th, pc, e)
  {
  }

  lemma TidyHands(s: State, th: Thread, c: Choice, hole: Option<Page>)
    requires Tidying(th.pc) && HandsOk(s.tpls, s.wraps, th) && SectionOk(s.wraps, s.cache, th)
    requires CacheOk(s.tpls, s.wraps, s.cache, hole) && s.wraps.Keys <= s.tpls.Keys
    ensures var (pc, e) := PlanTidy(s, th, c);
      HandsOk(TplsAfter(s.tpls, th, e), WrapsAfter(s.wraps, e), Moved(th, pc, e))
  {
  }

  lemma TidySection(s: State, th: Thread, c: Choice, hole: Option<Page>)
    requires Tidying(th.pc) && ThreadOk(s.tpls, s.wraps, s.cache, s.closed, th)
    requires CacheOk(s.tpls, s.wraps, s.cache, hole)
    ensures var (pc, e) := PlanTidy(s, th, c);
      SectionOk(WrapsAfter(s.wraps, e), CacheAfter(s.cache, th, e), Moved(th, pc, e))
  {
    hide ClosedOk, HandsOk;
  }

  lemma TidyClosed(s: State, th: Thread, c: Choice)
    requires Tidying(th.pc) && ThreadOk(s.tpls, s.wraps, s.cache, s.closed, th)
    ensures var (pc, e) := PlanTidy(s, th, c); ClosedOk(s.closed || e.ShutDown?, Moved(th, pc, e))
  {
    hide HandsOk, SectionOk;
  }

  // ---------------------------------------------------------------------
  // Each part of the invariant is kept
  // ---------------------------------------------------------------------

  lemma LocksKept(ths: map<Id, Thread>, writer: Option<Id>, readers: set<Id>, t: Id, th: Thread, e: Effect)
    requires t in ths && MuMoves(writer, readers, ths[t].pc, th.pc, e)
    requires LocksOk(ths, writer, readers)
    ensures LocksOk(ths[t := th], WriterAfter(writer, t, e), ReadersAfter(readers, t, e))
  {
  }

  lemma OneLockNew(locks: map<Id, PathLock>, pathLocks: map<Page, Id>, cleaned: set<Page>, l: Id, page: Page)
    requires OneLock(locks, pathLocks, false, cleaned) && l !in locks && page !in pathLocks
    ensures OneLock(locks[l := PathLock(page, None)], pathLocks[page := l], false, cleaned)
  {
  }

  /** Owners may change, and pages may lose their lock by a cleanup or a shutdown. */
  lemma OneLockFewer(locks: map<Id, PathLock>, pathLocks: map<Page, Id>, closed: bool, cleaned: set<Page>,
                     locks': map<Id, PathLock>, pathLocks': map<Page, Id>, closed': bool, cleaned': set<Page>)
    requires OneLock(locks, pathLocks, closed, cleaned)
    requires locks'.Keys == locks.Keys && forall l <- locks :: locks'[l].page == locks[l].page
    requires forall p <- pathLocks' :: p in pathLocks && pathLocks'[p] == pathLocks[p]
    requires (closed ==> closed') && cleaned <= cleaned'
    requires forall p <- pathLocks :: p in pathLocks' || closed' || p in cleaned'
    ensures OneLock(locks', pathLocks', closed', cleaned')
  {
  }

  lemma OneLockKept(s: State, t: Id, pc: Pc, e: Effect)
    requires t in s.threads && PathMoves(s, s.threads[t], pc, e)
    requires PathsOk(s)
    ensures var s' := Apply(s, t, pc, e); OneLock(s'.locks, s'.pathLocks, s'.closed, s'.cleaned)
  {
    var s', page := Apply(s, t, pc, e), s.threads[t].page;
    hide OneLock, PathOk;
    if e.NewLock? {
      OneLockNew(s.locks, s.pathLocks, s.cleaned, e.l, page);
    } else {
      OneLockFewer(s.locks, s.pathLocks, s.closed, s.cleaned, s'.locks, s'.pathLocks, s'.closed, s'.cleaned);
    }
  }

  lemma HeldKept(s: State, t: Id, th: Thread, pc: Pc, e: Effect)
    requires PathMoves(s, th, pc, e) && PathOk(s.locks, t, th)
    ensures var locks, now := LocksAfter(s.locks, t, th.page, e), Moved(th, pc, e);
      PathHeld(now.pc).Some? ==>
        PathHeld(now.pc).value in locks && locks[PathHeld(now.pc).value] == PathLock(now.page, Some(t))
  {
    hide PathHeld;
  }

  lemma WaitKept(s: State, t: Id, th: Thread, pc: Pc, e: Effect)
    requires PathMoves(s, th, pc, e) && PathOk(s.locks, t, th)
    requires th.page in s.pathLocks ==>
      s.pathLocks[th.page] in s.locks && s.locks[s.pathLocks[th.page]].page == th.page
    ensures var locks, now := LocksAfter(s.locks, t, th.page, e), Moved(th, pc, e);
      now.pc.PathWait? ==> now.pc.l in locks && locks[now.pc.l].page == now.page
  {
    hide PathHeld;
  }

  lemma PathKept(s: State, t: Id, pc: Pc, e: Effect)
    requires t in s.threads && PathMoves(s, s.threads[t], pc, e)
    requires PathsOk(s)
    ensures PathOk(LocksAfter(s.locks, t, s.threads[t].page, e), t, Moved(s.threads[t], pc, e))
  {
    var th := s.threads[t];
    assert PathOk(s.locks, t, th);
    hide PathMoves, LocksAfter, Moved, PathHeld;
    HeldKept(s, t, th, pc, e);
    WaitKept(s, t, th, pc, e);
  }

  lemma PathOthers(s: State, t: Id, pc: Pc, e: Effect, u: Id)
    requires t in s.threads && PathMoves(s, s.threads[t], pc, e) && u in s.threads && u != t
    requires PathsOk(s)
    ensures PathOk(LocksAfter(s.locks, t, s.threads[t].page, e), u, s.threads[u])
  {
  }

  lemma RefsKept(ths: map<Id, Thread>, wraps: map<Id, Wrapper>, t: Id, th: Thread, e: Effect)
    requires t in ths && HoldMoves(wraps, ths[t].pc, th.pc, e)
    requires RefsOk(ths, wraps)
    requires e.Acquire? ==> e.x in wraps && !wraps[e.x].destroyed
    requires e.WrapUp? ==> Holders(ths, e.x) == {}
    ensures RefsOk(ths[t := th], WrapsAfter(wraps, e))
  {
    var wraps' := WrapsAfter(wraps, e);
    forall x <- wraps' ensures wraps'[x].refs == One(!wraps'[x].destroyed) + |Holders(ths[t := th], x)| {
      HoldersMove(ths, t, th, x);
    }
  }

  lemma TokenKept(ths: map<Id, Thread>, closes: map<Id, nat>, wraps: map<Id, Wrapper>,
                  t: Id, th: Thread, e: Effect, x: Id)
    requires t in ths && HoldMoves(wraps, ths[t].pc, th.pc, e) && DebtMoves(wraps, ths[t].pc, th.pc, e)
    requires RefsOk(ths, wraps)
    requires e.Obtain? ==> e.x !in closes && e.x !in wraps && Debtors(ths, e.x) == {}
    requires e.RealClose? ==> e.x in closes
    requires e.WrapUp? ==> e.x !in wraps
    requires x in ClosesAfter(closes, e)
    requires x in closes ==> closes[x] + |Debtors(ths, x)| + One(Alive(wraps, x)) == 1
    ensures ClosesAfter(closes, e)[x] + |Debtors(ths[t := th], x)| + One(Alive(WrapsAfter(wraps, e), x)) == 1
  {
    assert e.Release? ==> t in Holders(ths, e.x);
    DebtorsMove(ths, t, th, x);
  }

  lemma TokensKept(ths: map<Id, Thread>, closes: map<Id, nat>, wraps: map<Id, Wrapper>, t: Id, th: Thread, e: Effect)
    requires t in ths && HoldMoves(wraps, ths[t].pc, th.pc, e) && DebtMoves(wraps, ths[t].pc, th.pc, e)
    requires RefsOk(ths, wraps) && TokensOk(ths, closes, wraps)
    requires e.Obtain? ==> e.x !in closes && e.x !in wraps && Debtors(ths, e.x) == {}
    requires e.RealClose? ==> e.x in closes
    requires e.WrapUp? ==> e.x !in wraps
    ensures TokensOk(ths[t := th], ClosesAfter(closes, e), WrapsAfter(wraps, e))
  {
    hide HoldMoves, DebtMoves, RefsOk, WrapsAfter, Alive, Debtors;
    forall x <- ClosesAfter(closes, e)
      ensures ClosesAfter(closes, e)[x] + |Debtors(ths[t := th], x)| + One(Alive(WrapsAfter(wraps, e), x)) == 1
    {
      TokenKept(ths, closes, wraps, t, th, e, x);
    }
  }

  lemma HandsOthers(tpls: map<Id, Template>, wraps: map<Id, Wrapper>, th: Thread, e: Effect, other: Thread)
    requires HandsOk(tpls, wraps, other) && wraps.Keys <= tpls.Keys
    requires e.Obtain? ==> e.x !in tpls
    requires e.ParsedOk? ==> For(tpls, e.x, th, false) && Unwrapped(other.pc) != Some(e.x)
    requires e.WrapUp? ==> e.x !in wraps && Unwrapped(other.pc) != Some(e.x)
    requires e.Acquire? || e.Release? || e.CloseWrap? ==> Storing(other.pc) != Some(e.x)
    ensures HandsOk(TplsAfter(tpls, th, e), WrapsAfter(wraps, e), other)
  {
  }

  lemma SectionOthers(wraps: map<Id, Wrapper>, cache: map<Page, Entry>, th: Thread, e: Effect, other: Thread)
    requires SectionOk(wraps, cache, other)
    requires e.WrapUp? ==> e.x !in wraps
    requires e.PutEntry? || e.DropEntry? || e.ShutDown? ==> !Reads(other.pc) && !Writes(other.pc)
    ensures SectionOk(WrapsAfter(wraps, e), CacheAfter(cache, th, e), other)
  {
  }

  lemma CacheKept(tpls: map<Id, Template>, wraps: map<Id, Wrapper>, cache: map<Page, Entry>,
                  now: Thread, pc: Pc, e: Effect,
                  hole: Option<Page>, hole': Option<Page>)
    requires CacheOk(tpls, wraps, cache, hole) && HandsOk(tpls, wraps, now) && SectionOk(wraps, cache, now)
    requires EntryMoves(cache, now, pc, e)
    requires e.Obtain? ==> e.x !in tpls
    requires e.ParsedOk? ==> For(tpls, e.x, now, false)
    requires e.WrapUp? ==> e.x !in wraps
    requires Listed(now.pc) == {} || cache == map[]
    requires Writes(now.pc) ==> (hole == if Overwriting(now.pc) then Some(now.page) else None)
    requires Writes(now.pc) ==> (hole' == if Overwriting(pc) then Some(now.page) else None)
    requires !Writes(now.pc) ==> hole' == hole
    ensures CacheOk(TplsAfter(tpls, now, e), WrapsAfter(wraps, e), CacheAfter(cache, now, e), hole')
  {
  }

  lemma KeepsOn(cache: map<Page, Entry>, now: Thread, pc: Pc, e: Effect, x: Id)
    requires KeepMoves(cache, now.pc, pc, e)
    ensures Keeps(now, x) ==> Keeps(Moved(now, pc, e), x) || e == PutEntry(x) || e == CloseWrap(x)
    ensures e == WrapUp(x) || (e.ShutDown? && x in Entries(cache)) ==> Keeps(Moved(now, pc, e), x)
  {
  }

  lemma CachedOn(wraps: map<Id, Wrapper>, cache: map<Page, Entry>, now: Thread, pc: Pc, e: Effect, x: Id, p: Page)
    requires SectionOk(wraps, cache, now) && EntryMoves(cache, now, pc, e)
    requires Cached(cache, x, p) && !Destroyed(wraps, x)
    ensures Cached(CacheAfter(cache, now, e), x, p) || (e.ShutDown? && x in Entries(cache))
  {
  }

  lemma KeptKept(s: State, t: Id, pc: Pc, e: Effect, x: Id)
    requires t in s.threads && KeptOk(s.threads, s.tpls, s.wraps, s.cache)
    requires SectionOk(s.wraps, s.cache, s.threads[t])
    requires EntryMoves(s.cache, s.threads[t], pc, e) && KeepMoves(s.cache, s.threads[t].pc, pc, e)
    requires e.Obtain? ==> e.x !in s.tpls
    requires e.ParsedOk? ==> For(s.tpls, e.x, s.threads[t], false)
    requires e.PutEntry? ==> For(s.tpls, e.x, s.threads[t], true)
    requires x in s.wraps && !s.wraps[x].destroyed && e != CloseWrap(x)
    ensures var tpls, cache := TplsAfter(s.tpls, s.threads[t], e), CacheAfter(s.cache, s.threads[t], e);
      || Cached(cache, x, tpls[x].page)
      || exists u <- s.threads :: Keeps(if u == t then Moved(s.threads[t], pc, e) else s.threads[u], x)
  {
    var th := s.threads[t];
    assert TplsAfter(s.tpls, th, e)[x].page == s.tpls[x].page;
    KeepsOn(s.cache, th, pc, e, x);
    hide SectionOk, EntryMoves, KeepMoves, Moved, Keeps;
    if Cached(s.cache, x, s.tpls[x].page) {
      CachedOn(s.wraps, s.cache, th, pc, e, x, s.tpls[x].page);
    } else {
      var u :| u in s.threads && Keeps(s.threads[u], x);
      assert Keeps(if u == t then Moved(th, pc, e) else s.threads[u], x) || (u == t && e == PutEntry(x));
    }
  }

  // ---------------------------------------------------------------------
  // The whole invariant
  // ---------------------------------------------------------------------

  lemma TwoMembers(xs: set<Id>, t: Id, u: Id)
    requires t in xs && u in xs && t != u
    ensures |xs| >= 2
  {
    assert |xs - {t} - {u}| + 2 == |xs|;
  }

  lemma Sole(s: State, t: Id, u: Id, x: Id)
    requires TokensOk(s.threads, s.closes, s.wraps) && x in s.closes
    requires t in s.threads && u in s.threads && Owes(s.threads[t].pc) == Owes(s.threads[u].pc) == Some(x)
    ensures t == u
  {
    var debtors := Debtors(s.threads, x);
    assert t in debtors && u in debtors;
    if t != u { TwoMembers(debtors, t, u); }
  }

  lemma Owed(tpls: map<Id, Template>, wraps: map<Id, Wrapper>, th: Thread)
    requires HandsOk(tpls, wraps, th)
    ensures Owes(th.pc).Some? ==> Owes(th.pc).value in tpls
    ensures Holds(th.pc).Some? ==> Held(tpls, wraps, th, Holds(th.pc).value)
    ensures Storing(th.pc).Some? ==> Built(tpls, wraps, th, Storing(th.pc).value)
    ensures Unwrapped(th.pc).Some? ==>
              Raw(tpls, wraps, th, Unwrapped(th.pc).value, !th.pc.Parsing? && !th.pc.Drop?)
    ensures Listed(th.pc) <= wraps.Keys
  {
  }

  /** Everything the plan of thread `t` hands over. */
  ghost predicate PlanOk(s: State, th: Thread, pc: Pc, e: Effect) {
    && MuMoves(s.writer, s.readers, th.pc, pc, e) && PathMoves(s, th, pc, e)
    && HoldMoves(s.wraps, th.pc, pc, e) && DebtMoves(s.wraps, th.pc, pc, e)
    && EntryMoves(s.cache, th, pc, e) && KeepMoves(s.cache, th.pc, pc, e) && NewMoves(s, th, pc, e)
    && ThreadOk(TplsAfter(s.tpls, th, e), WrapsAfter(s.wraps, e), CacheAfter(s.cache, th, e), s.closed || e.ShutDown?,
                Moved(th, pc, e))
  }

  lemma PlanHands(s: State, t: Id, c: Choice)
    requires Inv(s) && t in s.threads
    ensures var (pc, e) := Plan(s, s.threads[t], c); PlanOk(s, s.threads[t], pc, e)
  {
    var th := s.threads[t];
    var hole := Overwritten(s.threads, s.writer);
    hide MuMoves, PathMoves, HoldMoves, DebtMoves, EntryMoves, KeepMoves, NewMoves,
         HandsOk, SectionOk, ClosedOk, CacheOk;
    hide LocksOk, PathsOk, RefsOk, TokensOk, Overwritten, TplsAfter, WrapsAfter, CacheAfter, Moved;
    hide PlanLook, PlanMake, PlanPublish, PlanTidy;
    if Looking(th.pc) {
      LookLocks(s, th, c); LookRefs(s, th, c); LookKeeps(s, th, c);
      LookHands(s, th, c, hole); LookSection(s, th, c, hole);
    } else if Making(th.pc) {
      MakeLocks(s, th, c); MakeRefs(s, th, c); MakeKeeps(s, th, c);
      MakeHands(s, th, c, hole); MakeSection(s, th, c, hole);
    } else if Publishing(th.pc) {
      PublishLocks(s, th, c); PublishRefs(s, th, c); PublishKeeps(s, th, c);
      PublishHands(s, th, c, hole); PublishSection(s, th, c, hole);
    } else {
      TidyLocks(s, th, c); TidyRefs(s, th, c); TidyKeeps(s, th, c); TidyHands(s, th, c, hole);
      TidySection(s, th, c, hole); TidyClosed(s, th, c);
    }
  }

  /** No other thread has in hand the template that is being parsed or wrapped. */
  lemma ApartHands(s: State, t: Id, x: Id, u: Id)
    requires TokensOk(s.threads, s.closes, s.wraps) && x in s.closes
    requires t in s.threads && u in s.threads && u != t && Owes(s.threads[t].pc) == Some(x)
    ensures Unwrapped(s.threads[u].pc) != Some(x)
  {
    if Unwrapped(s.threads[u].pc) == Some(x) { Sole(s, t, u, x); }
  }

  /** A wrapper under construction is touched by its builder alone. */
  lemma ApartBuilt(s: State, t: Id, pc: Pc, e: Effect, u: Id)
    requires t in s.threads && u in s.threads && u != t && LocksOk(s.threads, s.writer, s.readers)
    requires RefsOk(s.threads, s.wraps)
    requires HandsOk(s.tpls, s.wraps, s.threads[u]) && ClosedOk(s.closed, s.threads[u])
             && ClosedOk(s.closed, s.threads[t])
    requires HoldMoves(s.wraps, s.threads[t].pc, pc, e) && EntryMoves(s.cache, s.threads[t], pc, e)
    requires e.Acquire? || e.Release? || e.CloseWrap?
    ensures Storing(s.threads[u].pc) != Some(e.x)
  {
    assert Storing(s.threads[u].pc).Some? ==> Writes(s.threads[u].pc);
    assert e.Release? ==> t in Holders(s.threads, e.x);
  }

  lemma ApartSection(s: State, t: Id, pc: Pc, e: Effect, u: Id)
    requires t in s.threads && u in s.threads && u != t && LocksOk(s.threads, s.writer, s.readers)
    requires EntryMoves(s.cache, s.threads[t], pc, e) && NewMoves(s, s.threads[t], pc, e)
    requires e.PutEntry? || e.DropEntry? || e.ShutDown?
    ensures !Reads(s.threads[u].pc) && !Writes(s.threads[u].pc)
  {
  }

  /** What no other thread has in hand, or is doing, when the effect happens. */
  lemma OthersApart(s: State, t: Id, pc: Pc, e: Effect, u: Id)
    requires Inv(s) && t in s.threads && u in s.threads && u != t && PlanOk(s, s.threads[t], pc, e)
    ensures var other := s.threads[u].pc;
      && (e.ParsedOk? || e.WrapUp? ==> Unwrapped(other) != Some(e.x))
      && (e.Acquire? || e.Release? || e.CloseWrap? ==> Storing(other) != Some(e.x))
      && (e.PutEntry? || e.DropEntry? || e.ShutDown? ==> !Reads(other) && !Writes(other))
  {
    hide LocksOk, RefsOk, TokensOk, PathsOk, CacheOk, KeptOk, HandsOk, SectionOk, ClosedOk;
    hide MuMoves, PathMoves, HoldMoves, KeepMoves, Overwritten;
    var th := s.threads[t];
    assert ThreadOk(s.tpls, s.wraps, s.cache, s.closed, th);
    assert ThreadOk(s.tpls, s.wraps, s.cache, s.closed, s.threads[u]);
    Owed(s.tpls, s.wraps, th);
    if e.ParsedOk? || e.WrapUp? { ApartHands(s, t, e.x, u); }
    if e.Acquire? || e.Release? || e.CloseWrap? { ApartBuilt(s, t, pc, e, u); }
    if e.PutEntry? || e.DropEntry? || e.ShutDown? { ApartSection(s, t, pc, e, u); }
  }

  lemma WrapsNamed(s: State)
    requires KeptOk(s.threads, s.tpls, s.wraps, s.cache)
    ensures s.wraps.Keys <= s.tpls.Keys
  {
  }

  lemma ClosedOthers(closed: bool, e: Effect, other: Thread)
    requires ClosedOk(closed, other) && (e.ShutDown? ==> !Writes(other.pc))
    ensures ClosedOk(closed || e.ShutDown?, other)
  {
  }

  lemma InvOthers(s: State, t: Id, pc: Pc, e: Effect, u: Id)
    requires Inv(s) && t in s.threads && u in s.threads && u != t && PlanOk(s, s.threads[t], pc, e)
    ensures ThreadOk(TplsAfter(s.tpls, s.threads[t], e), WrapsAfter(s.wraps, e), CacheAfter(s.cache, s.threads[t], e),
                     s.closed || e.ShutDown?, s.threads[u])
  {
    hide HandsOk, SectionOk, ClosedOk, LocksOk, RefsOk, TokensOk, PathsOk, CacheOk, KeptOk;
    hide MuMoves, PathMoves, HoldMoves, DebtMoves, EntryMoves, KeepMoves, NewMoves;
    hide Overwritten, TplsAfter, WrapsAfter, CacheAfter, Moved, Unwrapped, Storing, Reads, Writes;
    var th := s.threads[t];
    var other := s.threads[u];
    OthersApart(s, t, pc, e, u);
    assert ThreadOk(s.tpls, s.wraps, s.cache, s.closed, other) && ThreadOk(s.tpls, s.wraps, s.cache, s.closed, th);
    WrapsNamed(s);
    InHand(s, th, pc, e);
    ClosedOthers(s.closed, e, other);
    HandsOthers(s.tpls, s.wraps, th, e, other);
    SectionOthers(s.wraps, s.cache, th, e, other);
  }

  lemma Unheld(s: State, x: Id)
    requires forall t <- s.threads :: HandsOk(s.tpls, s.wraps, s.threads[t])
    ensures x !in s.wraps ==> Holders(s.threads, x) == {}
    ensures x !in s.tpls ==> Debtors(s.threads, x) == {}
  {
    forall t <- s.threads
      ensures x !in s.wraps ==> Holds(s.threads[t].pc) != Some(x)
      ensures x !in s.tpls ==> Owes(s.threads[t].pc) != Some(x)
    {
      Owed(s.tpls, s.wraps, s.threads[t]);
    }
  }

  /** What the effect names is what the thread has in hand. */
  lemma InHand(s: State, th: Thread, pc: Pc, e: Effect)
    requires HandsOk(s.tpls, s.wraps, th) && s.wraps.Keys <= s.tpls.Keys
    requires DebtMoves(s.wraps, th.pc, pc, e) && EntryMoves(s.cache, th, pc, e) && NewMoves(s, th, pc, e)
    ensures e.ParsedOk? ==> For(s.tpls, e.x, th, false)
    ensures e.WrapUp? ==> e.x in s.tpls && e.x !in s.wraps
    ensures e.PutEntry? ==> For(s.tpls, e.x, th, true)
    ensures e.Obtain? ==> e.x !in s.tpls && e.x !in s.wraps
    ensures e.RealClose? ==> e.x in s.tpls
  {
    Owed(s.tpls, s.wraps, th);
  }

  lemma HoleMoves(ths: map<Id, Thread>, writer: Option<Id>, readers: set<Id>, t: Id, pc: Pc, e: Effect)
    requires t in ths && LocksOk(ths, writer, readers) && MuMoves(writer, readers, ths[t].pc, pc, e)
    ensures var hole, hole' := Overwritten(ths, writer),
              Overwritten(ths[t := Moved(ths[t], pc, e)], WriterAfter(writer, t, e));
      && (Writes(ths[t].pc) ==> hole == if Overwriting(ths[t].pc) then Some(ths[t].page) else None)
      && (Writes(ths[t].pc) ==> hole' == if Overwriting(pc) then Some(ths[t].page) else None)
      && (!Writes(ths[t].pc) ==> hole' == hole)
  {
  }

  /** The acquire of a lookup, and the ignored one of a store, meet a live wrapper. */
  lemma AcquireLive(s: State, t: Id)
    requires t in s.threads && LocksOk(s.threads, s.writer, s.readers)
    requires CacheOk(s.tpls, s.wraps, s.cache, Overwritten(s.threads, s.writer))
    requires SectionOk(s.wraps, s.cache, s.threads[t])
    ensures s.threads[t].pc.Found? || s.threads[t].pc.Grab? ==>
              s.threads[t].pc.x in s.wraps && !s.wraps[s.threads[t].pc.x].destroyed
  {
  }

  lemma MovedPc(now: Thread, pc: Pc, e: Effect)
    ensures Moved(now, pc, e).pc == pc
  {
  }

  lemma AcquireAt(wraps: map<Id, Wrapper>, now: Pc, pc: Pc, e: Effect)
    requires HoldMoves(wraps, now, pc, e)
    ensures e.Acquire? ==> (now.Found? || now.Grab?) && now.x == e.x
  {
  }

  lemma InvCounts(s: State, t: Id, pc: Pc, e: Effect)
    requires t in s.threads && LocksOk(s.threads, s.writer, s.readers) && s.wraps.Keys <= s.tpls.Keys == s.closes.Keys
    requires CacheOk(s.tpls, s.wraps, s.cache, Overwritten(s.threads, s.writer))
    requires SectionOk(s.wraps, s.cache, s.threads[t])
    requires forall u <- s.threads :: HandsOk(s.tpls, s.wraps, s.threads[u])
    requires RefsOk(s.threads, s.wraps) && TokensOk(s.threads, s.closes, s.wraps)
    requires HoldMoves(s.wraps, s.threads[t].pc, pc, e) && DebtMoves(s.wraps, s.threads[t].pc, pc, e)
    requires EntryMoves(s.cache, s.threads[t], pc, e) && NewMoves(s, s.threads[t], pc, e)
    ensures var ths := s.threads[t := Moved(s.threads[t], pc, e)];
      RefsOk(ths, WrapsAfter(s.wraps, e)) && TokensOk(ths, ClosesAfter(s.closes, e), WrapsAfter(s.wraps, e))
  {
    var now := s.threads[t];
    var th := Moved(now, pc, e);
    hide *;
    MovedPc(now, pc, e);
    InHand(s, now, pc, e);
    AcquireAt(s.wraps, now.pc, pc, e);
    AcquireLive(s, t);
    if e.WrapUp? || e.Obtain? { Unheld(s, e.x); }
    RefsKept(s.threads, s.wraps, t, th, e);
    TokensKept(s.threads, s.closes, s.wraps, t, th, e);
  }

  lemma InvKept(s: State, t: Id, pc: Pc, e: Effect)
    requires t in s.threads && KeptOk(s.threads, s.tpls, s.wraps, s.cache)
    requires HandsOk(s.tpls, s.wraps, s.threads[t]) && SectionOk(s.wraps, s.cache, s.threads[t])
    requires DebtMoves(s.wraps, s.threads[t].pc, pc, e) && NewMoves(s, s.threads[t], pc, e)
    requires EntryMoves(s.cache, s.threads[t], pc, e) && KeepMoves(s.cache, s.threads[t].pc, pc, e)
    ensures var th := s.threads[t];
      KeptOk(s.threads[t := Moved(th, pc, e)], TplsAfter(s.tpls, th, e), WrapsAfter(s.wraps, e),
             CacheAfter(s.cache, th, e))
  {
    hide EntryMoves, DebtMoves, NewMoves, KeepMoves, Moved, Keeps, HandsOk, SectionOk, CacheAfter;
    var th := s.threads[t];
    var ths, tpls, wraps, cache :=
      s.threads[t := Moved(th, pc, e)], TplsAfter(s.tpls, th, e), WrapsAfter(s.wraps, e), CacheAfter(s.cache, th, e);
    InHand(s, th, pc, e);
    forall x <- wraps
      ensures wraps[x].destroyed || Cached(cache, x, tpls[x].page) || exists u <- ths :: Keeps(ths[u], x)
    {
      if e == WrapUp(x) {
        KeepsOn(s.cache, th, pc, e, x);
        assert Keeps(ths[t], x);
      } else if !wraps[x].destroyed {
        KeptKept(s, t, pc, e, x);
        if u :| u in s.threads && Keeps(if u == t then Moved(th, pc, e) else s.threads[u], x) {
          assert Keeps(ths[u], x);
        }
      }
    }
  }

  lemma InvCache(s: State, t: Id, pc: Pc, e: Effect)
    requires t in s.threads && LocksOk(s.threads, s.writer, s.readers) && s.wraps.Keys <= s.tpls.Keys
    requires CacheOk(s.tpls, s.wraps, s.cache, Overwritten(s.threads, s.writer))
    requires HandsOk(s.tpls, s.wraps, s.threads[t]) && SectionOk(s.wraps, s.cache, s.threads[t])
    requires MuMoves(s.writer, s.readers, s.threads[t].pc, pc, e) && DebtMoves(s.wraps, s.threads[t].pc, pc, e)
    requires EntryMoves(s.cache, s.threads[t], pc, e) && NewMoves(s, s.threads[t], pc, e)
    requires Listed(s.threads[t].pc) == {} || s.cache == map[]
    ensures var th := s.threads[t];
      CacheOk(TplsAfter(s.tpls, th, e), WrapsAfter(s.wraps, e), CacheAfter(s.cache, th, e),
              Overwritten(s.threads[t := Moved(th, pc, e)], WriterAfter(s.writer, t, e)))
  {
    hide LocksOk, CacheOk, HandsOk, SectionOk, MuMoves, EntryMoves, NewMoves, DebtMoves, Overwritten, Listed;
    var th := s.threads[t];
    InHand(s, th, pc, e);
    HoleMoves(s.threads, s.writer, s.readers, t, pc, e);
    CacheKept(s.tpls, s.wraps, s.cache, th, pc, e, Overwritten(s.threads, s.writer),
              Overwritten(s.threads[t := Moved(th, pc, e)], WriterAfter(s.writer, t, e)));
  }

  /** After `Close` nothing enters the page map or the lock map again. */
  lemma ClosedKept(s: State, t: Id, pc: Pc, e: Effect)
    requires t in s.threads && (s.closed ==> s.cache == map[] && s.pathLocks == map[])
    requires ClosedOk(s.closed, s.threads[t]) && EntryMoves(s.cache, s.threads[t], pc, e)
             && PathMoves(s, s.threads[t], pc, e)
    ensures s.closed || e.ShutDown? ==>
              CacheAfter(s.cache, s.threads[t], e) == map[]
               && PathLocksAfter(s.pathLocks, s.threads[t].page, e) == map[]
  {
    assert s.cache == map[] ==> s.cache - {s.threads[t].page} == map[];
    assert s.pathLocks == map[] ==> s.pathLocks - {s.threads[t].page} == map[];
  }

  lemma NamesKept(s: State, th: Thread, pc: Pc, e: Effect)
    requires HandsOk(s.tpls, s.wraps, th) && s.wraps.Keys <= s.tpls.Keys == s.closes.Keys
    requires DebtMoves(s.wraps, th.pc, pc, e) && EntryMoves(s.cache, th, pc, e) && NewMoves(s, th, pc, e)
    ensures ClosesAfter(s.closes, e).Keys == TplsAfter(s.tpls, th, e).Keys
  {
    hide HandsOk, DebtMoves, EntryMoves, NewMoves;
    InHand(s, th, pc, e);
  }

  lemma InvStep(s: State, t: Id, c: Choice)
    requires Inv(s) && t in s.threads
    ensures Inv(Step(s, t, c))
  {
    hide LocksOk, OneLock, PathOk, CacheOk, HandsOk, SectionOk, RefsOk, TokensOk, Overwritten;
    hide MuMoves, PathMoves, HoldMoves, DebtMoves, EntryMoves, KeepMoves, NewMoves, TplsAfter, WrapsAfter, CacheAfter;
    hide Plan;
    var now := s.threads[t];
    var (pc, e) := Plan(s, now, c);
    var s' := Step(s, t, c);
    PlanHands(s, t, c);
    LocksKept(s.threads, s.writer, s.readers, t, Moved(now, pc, e), e);
    OneLockKept(s, t, pc, e);
    PathKept(s, t, pc, e);
    ClosedKept(s, t, pc, e);
    NamesKept(s, now, pc, e);
    InvCounts(s, t, pc, e);
    InvCache(s, t, pc, e);
    InvKept(s, t, pc, e);
    hide KeptOk;
    forall u <- s'.threads
      ensures ThreadOk(s'.tpls, s'.wraps, s'.cache, s'.closed, s'.threads[u]) && PathOk(s'.locks, u, s'.threads[u])
    {
      if u != t {
        PathOthers(s, t, pc, e, u);
        InvOthers(s, t, pc, e, u);
      }
    }
  }

  lemma InvNext(s: State, e: Event)
    requires Inv(s)
    ensures Inv(Next(s, e))
  {
    match e
    case Run(t, c) => if t in s.threads { InvStep(s, t, c); }
    case Arrive(t) => if t !in s.threads { InvArrival(s, t, Start); }
    case Shutdown(t) => if t !in s.threads { InvArrival(s, t, ShutWait); }
  }

  lemma ArrivalCounts(s: State, t: Id, pc: Pc)
    requires RefsOk(s.threads, s.wraps) && TokensOk(s.threads, s.closes, s.wraps)
    requires t !in s.threads && (pc.Start? || pc.ShutWait?)
    ensures var ths := s.threads[t := Thread("", 0, pc)]; RefsOk(ths, s.wraps) && TokensOk(ths, s.closes, s.wraps)
  {
    var th := Thread("", 0, pc);
    forall x: Id
      ensures |Holders(s.threads[t := th], x)| == |Holders(s.threads, x)|
      ensures |Debtors(s.threads[t := th], x)| == |Debtors(s.threads, x)|
    {
      HoldersMove(s.threads, t, th, x);
      DebtorsMove(s.threads, t, th, x);
    }
  }

  lemma ArrivalKept(s: State, t: Id, th: Thread)
    requires KeptOk(s.threads, s.tpls, s.wraps, s.cache) && t !in s.threads
    ensures KeptOk(s.threads[t := th], s.tpls, s.wraps, s.cache)
  {
    hide Keeps, Cached;
    var ths := s.threads[t := th];
    forall x <- s.wraps
      ensures s.wraps[x].destroyed || Cached(s.cache, x, s.tpls[x].page) || exists u <- ths :: Keeps(ths[u], x)
    {
      if !s.wraps[x].destroyed && !Cached(s.cache, x, s.tpls[x].page) {
        var u :| u in s.threads && Keeps(s.threads[u], x);
        assert Keeps(ths[u], x);
      }
    }
  }

  lemma ArrivalLocks(ths: map<Id, Thread>, writer: Option<Id>, readers: set<Id>, t: Id, pc: Pc)
    requires LocksOk(ths, writer, readers) && t !in ths && (pc.Start? || pc.ShutWait?)
    ensures var ths' := ths[t := Thread("", 0, pc)];
      LocksOk(ths', writer, readers) && Overwritten(ths', writer) == Overwritten(ths, writer)
  {
  }

  lemma ArrivalHands(s: State, t: Id, pc: Pc)
    requires pc.Start? || pc.ShutWait?
    ensures ThreadOk(s.tpls, s.wraps, s.cache, s.closed, Thread("", 0, pc)) && PathOk(s.locks, t, Thread("", 0, pc))
  {
  }

  lemma InvArrival(s: State, t: Id, pc: Pc)
    requires Inv(s) && t !in s.threads && (pc.Start? || pc.ShutWait?)
    ensures Inv(s.(threads := s.threads[t := Thread("", 0, pc)]))
  {
    hide LocksOk, RefsOk, TokensOk, KeptOk, CacheOk, OneLock, ThreadOk, PathOk, Overwritten;
    var th := Thread("", 0, pc);
    ArrivalCounts(s, t, pc);
    ArrivalKept(s, t, th);
    ArrivalLocks(s.threads, s.writer, s.readers, t, pc);
    ArrivalHands(s, t, pc);
  }

  /** The invariant holds after every interleaving. */
  lemma {:induction false} InvAfter(es: seq<Event>)
    ensures Inv(After(es))
  {
    if es != [] {
      InvAfter(es[..|es| - 1]);
      InvNext(After(es[..|es| - 1]), es[|es| - 1]);
    }
  }
}
