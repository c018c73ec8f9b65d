/**
  The dynamic page cache as a lock-level protocol.

  Any number of requests and handler shutdowns interleave.  One step of a
  thread is one lock operation, one section of a wrapper's own mutex, one real
  `DynamicTemplater.Close()`, or one stretch of code under the exclusive lock
  `T.mu` that takes no other lock.  `T.mu` and the per-page parse locks are
  part of the state, so a wrapper's mutex sections interleave with sections of
  `T.mu` exactly as they may at run time.  A wrapper is named by the template
  it wraps: each wrapper is built around the template just parsed.
 */
module PageCache {
  import opened Wrappers

  type Id = nat
  type Page = string
  type Time = int

  /** A template obtained from `Module`: for which page and observed modification
      time, and whether its `Parse` succeeded. */
  datatype Template = Template(page: Page, mtime: Time, parsed: bool)

  /** `refCountedTemplater` */
  datatype Wrapper = Wrapper(refs: int, destroyed: bool)

  datatype Entry = Entry(exec: Id, modeTime: Time)
  datatype PathLock = PathLock(page: Page, owner: Option<Id>)

  // ---------------------------------------------------------------------
  // Sections of a wrapper's mutex
  // ---------------------------------------------------------------------

  /** `Close`: drops the cache's reference once; second result: close for real. */
  function CloseRef(w: Wrapper): (Wrapper, bool) {
    if w.destroyed then (w, false) else (Wrapper(w.refs - 1, true), w.refs - 1 <= 0)
  }

  /** `acquire` */
  function AcquireRef(w: Wrapper): (Wrapper, bool) {
    if w.destroyed then (w, false) else (Wrapper(w.refs + 1, false), true)
  }

  /** `release`; second result: close for real. */
  function ReleaseRef(w: Wrapper): (Wrapper, bool) {
    (Wrapper(w.refs - 1, w.destroyed), w.refs - 1 <= 0 && w.destroyed)
  }

  /** The wrapper as an object: its mutex sections run one at a time. */
  class RefCountedTemplater {
    var refs: int
    var destroyed: bool
    var realCloses: nat   // calls of the embedded template's Close

    function View(): Wrapper
      reads this
    {
      Wrapper(refs, destroyed)
    }

    constructor ()
      ensures View() == Wrapper(1, false) && realCloses == 0
    {
      refs, destroyed, realCloses := 1, false, 0;
    }

    method Close()
      modifies this
      ensures View() == CloseRef(old(View())).0
      ensures realCloses == old(realCloses) + if CloseRef(old(View())).1 then 1 else 0
    {
      if destroyed {
        return;
      }
      destroyed := true;
      refs := refs - 1;
      if refs <= 0 {
        realCloses := realCloses + 1;
      }
    }

    method Acquire() returns (ok: bool)
      modifies this`refs
      ensures (View(), ok) == AcquireRef(old(View()))
    {
      if destroyed {
        return false;
      }
      refs := refs + 1;
      return true;
    }

    method Release()
      modifies this`refs, this`realCloses
      ensures View() == ReleaseRef(old(View())).0
      ensures realCloses == old(realCloses) + if ReleaseRef(old(View())).1 then 1 else 0
    {
      refs := refs - 1;
      if refs <= 0 && destroyed {
        realCloses := realCloses + 1;
      }
    }
  }

  // ---------------------------------------------------------------------
  // Threads and state
  // ---------------------------------------------------------------------

  /** Which of the two cache lookups: before the parse lock, or again under it. */
  datatype Phase = Fast | Recheck(lock: Id)

  datatype Pc =
    | Start                                  // ServeHTTP, before reading `closed`
    | Observe                                // stat or ReadFile
    | ReadWait(k: Phase)                     // before T.mu.RLock
    | Read(k: Phase)                         // holding RLock, before the map lookup
    | Found(k: Phase, x: Id)                 // entry with equal time found, before acquire
    | Hit(k: Phase, x: Id)                   // acquired, before RUnlock
    | Miss(k: Phase, shut: bool)             // nothing acquired, before RUnlock
    | Open                                   // before opening the file
    | Enter                                  // before the section that finds the parse lock
    | PathWait(l: Id)                        // before lock.Lock
    | Parse(l: Id)                           // parseTemplate, before Module
    | Parsing(l: Id, x: Id)                  // before exec.Parse
    | Drop(l: Id, x: Id)                     // Parse failed, before exec.Close
    | StoreWait(l: Id, x: Id)                // parsed, before T.mu.Lock
    | Store(l: Id, x: Id)                    // holding T.mu
    | DropLocked(l: Id, x: Id)               // handler closed, before newExec.Close
    | Replace(l: Id, x: Id, prev: Id)        // wrapped, before the previous entry's Close
    | ReplaceReal(l: Id, x: Id, prev: Id)    // previous wrapper asks for its real close
    | Publish(l: Id, x: Id)                  // before the map store
    | Grab(l: Id, x: Id)                     // before wrapped.acquire, result ignored
    | StoreUnlock(l: Id, got: Option<Id>)    // before T.mu.Unlock
    | Leaving(l: Id, got: Option<Id>)        // before lock.Unlock
    | Hold(x: Id)                            // executing the template, before release
    | Real(x: Id)                            // release asked for the real close
    | CleanWait                              // cleanupCacheEntry, before T.mu.Lock
    | Clean                                  // holding T.mu
    | CleanClose(x: Id)                      // before e.exec.Close
    | CleanReal(x: Id)                       // wrapper asks for its real close
    | CleanDelete                            // before the deletes and T.mu.Unlock
    | ShutWait                               // Close, before T.mu.Lock
    | Shut(xs: set<Id>)                      // close loop over the captured entries
    | ShutReal(xs: set<Id>, x: Id)           // wrapper asks for its real close
    | Done

  datatype Thread = Thread(page: Page, mtime: Time, pc: Pc)

  datatype State = State(
    threads: map<Id, Thread>,
    tpls: map<Id, Template>,
    closes: map<Id, nat>,           // real closes of each template so far
    wraps: map<Id, Wrapper>,
    cache: map<Page, Entry>,
    pathLocks: map<Page, Id>,
    locks: map<Id, PathLock>,
    writer: Option<Id>,
    readers: set<Id>,
    closed: bool,
    cleaned: set<Page>,             // history: pages cleaned up before Close
    observed: set<(Page, Time)>)    // history: what requests observed

  const INIT := State(map[], map[], map[], map[], map[], map[], map[], None, {}, false, {}, {})

  /** What the environment decides in one step. */
  datatype Choice =
    | Tick
    | Seen(page: Page, mtime: Time)   // the file exists with this modification time
    | Unseen(gone: Page)              // stat or ReadFile failed
    | Refused                         // directory, open, Module or Parse error
    | Made(id: Id)                    // name of a new template or lock
    | Pick(next: Id)                  // next entry of the close loop

  datatype Event = Arrive(t: Id) | Shutdown(t: Id) | Run(t: Id, c: Choice)

  // ---------------------------------------------------------------------
  // Steps: what a thread plans at its program point, and its effect on the
  // shared state
  // ---------------------------------------------------------------------

  datatype Effect =
    | Quiet
    | RLock | RUnlock | WLock | WUnlock
    | Saw(page: Page, mtime: Time) | Lost(page: Page)
    | NewLock(l: Id) | TakeLock(l: Id) | GiveLock(l: Id)
    | Obtain(x: Id) | ParsedOk(x: Id) | RealClose(x: Id)
    | WrapUp(x: Id) | Acquire(x: Id) | Release(x: Id) | CloseWrap(x: Id)
    | PutEntry(x: Id) | DropEntry | ShutDown

  predicate MuFree(s: State) { s.writer.None? && s.readers == {} }

  /** Both lookups; only the second one reads `closed` first. */
  function Lookup(s: State, th: Thread, k: Phase): Pc {
    if k.Recheck? && s.closed then Miss(k, true)
    else if th.page in s.cache && s.cache[th.page].modeTime == th.mtime then Found(k, s.cache[th.page].exec)
    else Miss(k, false)
  }

  function AfterMiss(k: Phase, shut: bool): Pc {
    match k
    case Fast => Open
    case Recheck(l) => if shut then Leaving(l, None) else Parse(l)
  }

  function AfterHit(k: Phase, x: Id): Pc {
    match k
    case Fast => Hold(x)
    case Recheck(l) => Leaving(l, Some(x))
  }

  function AfterClose(s: State, x: Id, must: Pc, next: Pc): Pc
    requires x in s.wraps
  {
    if CloseRef(s.wraps[x]).1 then must else next
  }

  function Entries(cache: map<Page, Entry>): set<Id> {
    set p | p in cache :: cache[p].exec
  }

  predicate Looking(pc: Pc) {
    || pc.Start? || pc.Observe? || pc.ReadWait? || pc.Read? || pc.Found? || pc.Hit? || pc.Miss? || pc.Hold? || pc.Real?
  }

  predicate Making(pc: Pc) {
    || pc.Open? || pc.Enter? || pc.PathWait? || pc.Parse? || pc.Parsing? || pc.Drop? || pc.StoreWait?
  }

  predicate Publishing(pc: Pc) {
    || pc.Store? || pc.DropLocked? || pc.Replace? || pc.ReplaceReal? || pc.Publish? || pc.Grab? || pc.StoreUnlock?
    || pc.Leaving?
  }

  predicate Tidying(pc: Pc) { !Looking(pc) && !Making(pc) && !Publishing(pc) }

  /** ServeHTTP and getOrCreateExecutor around the two lookups, and the final release. */
  function PlanLook(s: State, th: Thread, c: Choice): (Pc, Effect)
    requires Looking(th.pc)
  {
    match th.pc
    case Start => (if s.closed then Done else Observe, Quiet)
    case Observe =>
      (match c
       case Seen(q, m) => (ReadWait(Fast), Saw(q, m))
       case Unseen(q) => (CleanWait, Lost(q))
       case _ => (Done, Quiet))
    case ReadWait(k) => if s.writer.Some? then (th.pc, Quiet) else (Read(k), RLock)
    case Read(k) => (Lookup(s, th, k), Quiet)
    case Found(k, x) =>
      if x !in s.wraps then (th.pc, Quiet)
      else if AcquireRef(s.wraps[x]).1 then (Hit(k, x), Acquire(x)) else (Miss(k, false), Quiet)
    case Hit(k, x) => (AfterHit(k, x), RUnlock)
    case Miss(k, shut) => (AfterMiss(k, shut), RUnlock)
    case Hold(x) =>
      if x !in s.wraps then (th.pc, Quiet)
      else (if ReleaseRef(s.wraps[x]).1 then Real(x) else Done, Release(x))
    case Real(x) => (Done, RealClose(x))
  }

  /** parseAndCache up to the store section, and parseTemplate. */
  function PlanMake(s: State, th: Thread, c: Choice): (Pc, Effect)
    requires Making(th.pc)
  {
    match th.pc
    case Open => (if c.Refused? then Done else Enter, Quiet)
    case Enter =>
      if !MuFree(s) then (th.pc, Quiet)
      else if s.closed then (Done, Quiet)
      else if th.page in s.pathLocks then (PathWait(s.pathLocks[th.page]), Quiet)
      else if c.Made? && c.id !in s.locks then (PathWait(c.id), NewLock(c.id))
      else (th.pc, Quiet)
    case PathWait(l) =>
      if l !in s.locks || s.locks[l].owner.Some? then (th.pc, Quiet) else (ReadWait(Recheck(l)), TakeLock(l))
    case Parse(l) =>
      if c.Made? && c.id !in s.tpls then (Parsing(l, c.id), Obtain(c.id))
      else if c.Refused? then (Leaving(l, None), Quiet)
      else (th.pc, Quiet)
    case Parsing(l, x) => if c.Refused? then (Drop(l, x), Quiet) else (StoreWait(l, x), ParsedOk(x))
    case Drop(l, x) => (Leaving(l, None), RealClose(x))
    case StoreWait(l, x) => if MuFree(s) then (Store(l, x), WLock) else (th.pc, Quiet)
  }

  /** The store section of parseAndCache and its deferred unlocks. */
  function PlanPublish(s: State, th: Thread, c: Choice): (Pc, Effect)
    requires Publishing(th.pc)
  {
    match th.pc
    case Store(l, x) =>
      if s.closed then (DropLocked(l, x), Quiet)
      else (if th.page in s.cache then Replace(l, x, s.cache[th.page].exec) else Publish(l, x), WrapUp(x))
    case DropLocked(l, x) => (StoreUnlock(l, None), RealClose(x))
    case Replace(l, x, prev) =>
      if prev !in s.wraps then (th.pc, Quiet)
      else (AfterClose(s, prev, ReplaceReal(l, x, prev), Publish(l, x)), CloseWrap(prev))
    case ReplaceReal(l, x, prev) => (Publish(l, x), RealClose(prev))
    case Publish(l, x) => (Grab(l, x), PutEntry(x))
    case Grab(l, x) => (StoreUnlock(l, Some(x)), Acquire(x))
    case StoreUnlock(l, got) => (Leaving(l, got), WUnlock)
    case Leaving(l, got) => (if got.Some? then Hold(got.value) else Done, GiveLock(l))
  }

  /** cleanupCacheEntry and Close. */
  function PlanTidy(s: State, th: Thread, c: Choice): (Pc, Effect)
    requires Tidying(th.pc)
  {
    match th.pc
    case CleanWait => if MuFree(s) then (Clean, WLock) else (th.pc, Quiet)
    case Clean => (if th.page in s.cache then CleanClose(s.cache[th.page].exec) else CleanDelete, Quiet)
    case CleanClose(x) =>
      if x !in s.wraps then (th.pc, Quiet)
      else (AfterClose(s, x, CleanReal(x), CleanDelete), CloseWrap(x))
    case CleanReal(x) => (CleanDelete, RealClose(x))
    case CleanDelete => (Done, DropEntry)
    case ShutWait =>
      if !MuFree(s) then (th.pc, Quiet)
      else if s.closed then (Done, Quiet)
      else (Shut(Entries(s.cache)), ShutDown)
    case Shut(xs) =>
      if xs == {} then (Done, Quiet)
      else if c.Pick? && c.next in xs && c.next in s.wraps then
        (AfterClose(s, c.next, ShutReal(xs - {c.next}, c.next), Shut(xs - {c.next})), CloseWrap(c.next))
      else (th.pc, Quiet)
    case ShutReal(xs, x) => (Shut(xs), RealClose(x))
    case Done => (Done, Quiet)
  }

  /** The thread's next program point and its effect; a blocked thread stays. */
  function Plan(s: State, th: Thread, c: Choice): (Pc, Effect) {
    if Looking(th.pc) then PlanLook(s, th, c)
    else if Making(th.pc) then PlanMake(s, th, c)
    else if Publishing(th.pc) then PlanPublish(s, th, c)
    else PlanTidy(s, th, c)
  }

  // The shared state after an effect, component by component.

  function ReadersAfter(readers: set<Id>, t: Id, e: Effect): set<Id> {
    match e
    case RLock => readers + {t}
    case RUnlock => readers - {t}
    case _ => readers
  }

  function WriterAfter(writer: Option<Id>, t: Id, e: Effect): Option<Id> {
    match e
    case WLock => Some(t)
    case WUnlock => None
    case DropEntry => None
    case _ => writer
  }

  function LocksAfter(locks: map<Id, PathLock>, t: Id, page: Page, e: Effect): map<Id, PathLock> {
    match e
    case NewLock(l) => locks[l := PathLock(page, None)]
    case TakeLock(l) => if l in locks then locks[l := locks[l].(owner := Some(t))] else locks
    case GiveLock(l) => if l in locks then locks[l := locks[l].(owner := None)] else locks
    case _ => locks
  }

  function PathLocksAfter(pathLocks: map<Page, Id>, page: Page, e: Effect): map<Page, Id> {
    match e
    case NewLock(l) => pathLocks[page := l]
    case DropEntry => pathLocks - {page}
    case ShutDown => map[]
    case _ => pathLocks
  }

  function TplsAfter(tpls: map<Id, Template>, th: Thread, e: Effect): map<Id, Template> {
    match e
    case Obtain(x) => tpls[x := Template(th.page, th.mtime, false)]
    case ParsedOk(x) => tpls[x := Template(th.page, th.mtime, true)]
    case _ => tpls
  }

  function ClosesAfter(closes: map<Id, nat>, e: Effect): map<Id, nat> {
    match e
    case Obtain(x) => closes[x := 0]
    case RealClose(x) => if x in closes then closes[x := closes[x] + 1] else closes
    case _ => closes
  }

  function WrapsAfter(wraps: map<Id, Wrapper>, e: Effect): map<Id, Wrapper> {
    match e
    case WrapUp(x) => wraps[x := Wrapper(1, false)]
    case Acquire(x) => if x in wraps then wraps[x := AcquireRef(wraps[x]).0] else wraps
    case Release(x) => if x in wraps then wraps[x := ReleaseRef(wraps[x]).0] else wraps
    case CloseWrap(x) => if x in wraps then wraps[x := CloseRef(wraps[x]).0] else wraps
    case _ => wraps
  }

  function CacheAfter(cache: map<Page, Entry>, th: Thread, e: Effect): map<Page, Entry> {
    match e
    case PutEntry(x) => cache[th.page := Entry(x, th.mtime)]
    case DropEntry => cache - {th.page}
    case ShutDown => map[]
    case _ => cache
  }

  function Moved(th: Thread, pc: Pc, e: Effect): Thread {
    match e
    case Saw(q, m) => Thread(q, m, pc)
    case Lost(q) => Thread(q, 0, pc)
    case _ => th.(pc := pc)
  }

  /** The state after thread `t` moves to `pc` with effect `e`. */
  function Apply(s: State, t: Id, pc: Pc, e: Effect): State
    requires t in s.threads
  {
    var th := s.threads[t];
    State(
      s.threads[t := Moved(th, pc, e)],
      TplsAfter(s.tpls, th, e),
      ClosesAfter(s.closes, e),
      WrapsAfter(s.wraps, e),
      CacheAfter(s.cache, th, e),
      PathLocksAfter(s.pathLocks, th.page, e),
      LocksAfter(s.locks, t, th.page, e),
      WriterAfter(s.writer, t, e),
      ReadersAfter(s.readers, t, e),
      s.closed || e.ShutDown?,
      if e.DropEntry? && !s.closed then s.cleaned + {th.page} else s.cleaned,
      if e.Saw? then s.observed + {(e.page, e.mtime)} else s.observed)
  }

  function Step(s: State, t: Id, c: Choice): State
    requires t in s.threads
  {
    var (pc, e) := Plan(s, s.threads[t], c);
    Apply(s, t, pc, e)
  }

  function Next(s: State, e: Event): State {
    match e
    case Arrive(t) => if t in s.threads then s else s.(threads := s.threads[t := Thread("", 0, Start)])
    case Shutdown(t) => if t in s.threads then s else s.(threads := s.threads[t := Thread("", 0, ShutWait)])
    case Run(t, c) => if t in s.threads then Step(s, t, c) else s
  }

  /** The state after any interleaving: every sequence of events is a run. */
  function After(es: seq<Event>): State {
    if es == [] then INIT else Next(After(es[..|es| - 1]), es[|es| - 1])
  }
}
