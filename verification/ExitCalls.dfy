/**
  Deferred calls under concurrency: any number of `Defer` and `Free` calls on any
  number of exit lists, sharing one pool of call objects. Every lock section and
  every pool operation is one step.
 */
module ExitCalls {
  import opened Wrappers

  /** Names of threads, exit lists and call objects. */
  type Id = nat

  /** A function with its arguments. Calls themselves are not modelled. */
  type Call = nat

  datatype Phase = ToRun | ToClear | ToPut

  datatype Thread =
    | Idle
    /** In `Defer`; None stands for a call that `Func` refuses. */
    | Getting(x: Id, call: Option<Call>)
    | Holding(x: Id, call: Option<Call>, obj: Id)
    | Filled(x: Id, obj: Id)
    /** In `Free`, before the swap. */
    | Flagged(x: Id)
    /** In the loop of `Free`, at the last element of `calls`. */
    | Draining(batch: nat, calls: seq<Id>, phase: Phase)

  /** What one `Free` took from a list, and what it has run of it so far. */
  datatype Batch = Batch(x: Id, taken: seq<Call>, ran: seq<Call>)

  /** `cell` is the content of every call object, None when blank. `batches` and `registered` record the run. */
  datatype State = State(
    pool: set<Id>,
    cell: map<Id, Option<Call>>,
    efs: map<Id, seq<Id>>,
    freed: set<Id>,
    threads: map<Id, Thread>,
    batches: seq<Batch>,
    registered: map<Id, seq<Call>>)

  const START := State({}, map[], map[], {}, map[], [], map[])

  function ThreadOf(s: State, t: Id): Thread { if t in s.threads then s.threads[t] else Idle }

  function Efs(s: State, x: Id): seq<Id> { if x in s.efs then s.efs[x] else [] }

  function Registered(s: State, x: Id): seq<Call> { if x in s.registered then s.registered[x] else [] }

  /** `guarded` tells a session's `Defer` or `Free` from one on a bare exit list. */
  datatype Event =
    | StartDefer(t: Id, x: Id, call: Option<Call>, guarded: bool)
    | Get(t: Id, obj: Id)
    | Fill(t: Id)
    | Append(t: Id)
    | StartFree(t: Id, x: Id, guarded: bool)
    | Swap(t: Id)
    | Run(t: Id)
    | Clear(t: Id)
    | Put(t: Id)
    /** The pool lets go of an object. */
    | Drop(obj: Id)

  /** The calls held by objects, in order. */
  function CallsOf(cell: map<Id, Option<Call>>, objs: seq<Id>): (r: seq<Call>)
    ensures |r| == |objs|
  {
    seq(|objs|, i requires 0 <= i < |objs| => if objs[i] in cell && cell[objs[i]].Some? then cell[objs[i]].value else 0)
  }

  /** Whether the thread can take this step now; a step that it cannot take does nothing. */
  predicate Enabled(s: State, e: Event) {
    match e
    case StartDefer(t, x, _, guarded) => ThreadOf(s, t).Idle? && !(guarded && x in s.freed)
    case Get(t, obj) => ThreadOf(s, t).Getting? && (obj in s.pool || obj !in s.cell)
    case Fill(t) => ThreadOf(s, t).Holding?
    case Append(t) => ThreadOf(s, t).Filled?
    case StartFree(t, _, _) => ThreadOf(s, t).Idle?
    case Swap(t) => ThreadOf(s, t).Flagged?
    case Run(t) =>
      ThreadOf(s, t).Draining? && ThreadOf(s, t).phase == ToRun
      && ThreadOf(s, t).batch < |s.batches| && ThreadOf(s, t).calls != []
    case Clear(t) => ThreadOf(s, t).Draining? && ThreadOf(s, t).phase == ToClear && ThreadOf(s, t).calls != []
    case Put(t) => ThreadOf(s, t).Draining? && ThreadOf(s, t).phase == ToPut && ThreadOf(s, t).calls != []
    case Drop(obj) => obj in s.pool
  }

  function ThreadAfter(s: State, e: Event): Thread
    requires Enabled(s, e) && !e.Drop?
  {
    var thread := ThreadOf(s, e.t);
    match e
    case StartDefer(_, x, call, _) => Getting(x, call)
    case Get(_, obj) => Holding(thread.x, thread.call, obj)
    case Fill(_) => if thread.call.Some? then Filled(thread.x, thread.obj) else Idle
    case Append(_) => Idle
    case StartFree(_, x, _) => Flagged(x)
    case Swap(_) => if Efs(s, thread.x) == [] then Idle else Draining(|s.batches|, Efs(s, thread.x), ToRun)
    case Run(_) => thread.(phase := ToClear)
    case Clear(_) => thread.(phase := ToPut)
    case Put(_) =>
      var rest := thread.calls[..|thread.calls| - 1];
      if rest == [] then Idle else Draining(thread.batch, rest, ToRun)
  }

  function PoolAfter(s: State, e: Event): set<Id>
    requires Enabled(s, e)
  {
    match e
    case Get(_, obj) => s.pool - {obj}
    case Fill(t) => if ThreadOf(s, t).call.None? then s.pool + {ThreadOf(s, t).obj} else s.pool
    case Put(t) => var calls := ThreadOf(s, t).calls; s.pool + {calls[|calls| - 1]}
    case Drop(obj) => s.pool - {obj}
    case _ => s.pool
  }

  function CellAfter(s: State, e: Event): map<Id, Option<Call>>
    requires Enabled(s, e)
  {
    match e
    case Get(_, obj) => if obj in s.pool then s.cell else s.cell[obj := None]
    case Fill(t) => if ThreadOf(s, t).call.Some? then s.cell[ThreadOf(s, t).obj := ThreadOf(s, t).call] else s.cell
    case Clear(t) => var calls := ThreadOf(s, t).calls; s.cell[calls[|calls| - 1] := None]
    case Drop(obj) => s.cell - {obj}
    case _ => s.cell
  }

  function EfsAfter(s: State, e: Event): map<Id, seq<Id>>
    requires Enabled(s, e)
  {
    match e
    case Append(t) => var th := ThreadOf(s, t); s.efs[th.x := Efs(s, th.x) + [th.obj]]
    case Swap(t) => s.efs[ThreadOf(s, t).x := []]
    case _ => s.efs
  }

  function BatchesAfter(s: State, e: Event): seq<Batch>
    requires Enabled(s, e)
  {
    match e
    case Swap(t) => var x := ThreadOf(s, t).x; s.batches + [Batch(x, CallsOf(s.cell, Efs(s, x)), [])]
    case Run(t) =>
      var th := ThreadOf(s, t);
      var b := s.batches[th.batch];
      s.batches[th.batch := b.(ran := b.ran + CallsOf(s.cell, th.calls[|th.calls| - 1..]))]
    case _ => s.batches
  }

  function RegisteredAfter(s: State, e: Event): map<Id, seq<Call>>
    requires Enabled(s, e)
  {
    match e
    case Append(t) => var th := ThreadOf(s, t); s.registered[th.x := Registered(s, th.x) + CallsOf(s.cell, [th.obj])]
    case _ => s.registered
  }

  function Apply(s: State, e: Event): State
    requires Enabled(s, e)
  {
    State(
      PoolAfter(s, e), CellAfter(s, e), EfsAfter(s, e),
      if e.StartFree? && e.guarded then s.freed + {e.x} else s.freed,
      if e.Drop? then s.threads else s.threads[e.t := ThreadAfter(s, e)],
      BatchesAfter(s, e), RegisteredAfter(s, e))
  }

  function Next(s: State, e: Event): State { if Enabled(s, e) then Apply(s, e) else s }

  /** The state after any interleaving. */
  function After(events: seq<Event>): State {
    if events == [] then START else Next(After(events[..|events| - 1]), events[|events| - 1])
  }

  // ---------------------------------------------------------------------
  // Who owns an object
  // ---------------------------------------------------------------------

  datatype Owner = InPool | Pending(x: Id, i: nat) | InDefer(t: Id) | InFree(t: Id, i: nat)

  predicate Owns(s: State, w: Owner, obj: Id) {
    match w
    case InPool => obj in s.pool
    case Pending(x, i) => i < |Efs(s, x)| && Efs(s, x)[i] == obj
    case InDefer(t) => (ThreadOf(s, t).Holding? || ThreadOf(s, t).Filled?) && ThreadOf(s, t).obj == obj
    case InFree(t, i) => ThreadOf(s, t).Draining? && i < |ThreadOf(s, t).calls| && ThreadOf(s, t).calls[i] == obj
  }

  ghost predicate OneOwner(s: State) {
    && (forall w, obj :: Owns(s, w, obj) ==> obj in s.cell)
    && (forall w, v, obj :: Owns(s, w, obj) && Owns(s, v, obj) ==> w == v)
    && (forall obj <- s.cell :: exists w :: Owns(s, w, obj))
  }

  /** The owner, before the step, of what `w` owns after it. */
  function Was(s: State, e: Event, w: Owner, obj: Id): Owner
    requires Enabled(s, e)
  {
    match e
    case Get(t, _) => if w == InDefer(t) then InPool else w
    case Fill(t) => if w == InPool && ThreadOf(s, t).call.None? && obj == ThreadOf(s, t).obj then InDefer(t) else w
    case Append(t) => if w == Pending(ThreadOf(s, t).x, |Efs(s, ThreadOf(s, t).x)|) then InDefer(t) else w
    case Swap(t) => if w.InFree? && w.t == t then Pending(ThreadOf(s, t).x, w.i) else w
    case Put(t) =>
      var calls := ThreadOf(s, t).calls;
      if w == InPool && obj == calls[|calls| - 1] then InFree(t, |calls| - 1) else w
    case _ => w
  }

  /** The owner, after the step, of what `w` owned before it. */
  function Becomes(s: State, e: Event, w: Owner, obj: Id): Owner
    requires Enabled(s, e)
  {
    match e
    case Get(t, o) => if o == obj then InDefer(t) else w
    case Fill(t) => if w == InDefer(t) && ThreadOf(s, t).call.None? then InPool else w
    case Append(t) => if w == InDefer(t) then Pending(ThreadOf(s, t).x, |Efs(s, ThreadOf(s, t).x)|) else w
    case Swap(t) => if w.Pending? && w.x == ThreadOf(s, t).x then InFree(t, w.i) else w
    case Put(t) => if w == InFree(t, |ThreadOf(s, t).calls| - 1) then InPool else w
    case _ => w
  }

  lemma OwnedBefore(s: State, e: Event, w: Owner, obj: Id)
    requires OneOwner(s) && Enabled(s, e) && Owns(Apply(s, e), w, obj)
    ensures obj in s.cell ==> Owns(s, Was(s, e, w, obj), obj)
    ensures obj !in s.cell ==> e.Get? && w == InDefer(e.t) && obj == e.obj
    ensures obj in CellAfter(s, e)
  {
    var created := e.Get? && w == InDefer(e.t) && obj == e.obj && obj !in s.pool;
    if !created {
      assert Owns(s, Was(s, e, w, obj), obj);
      if e.Drop? { assert Owns(s, InPool, e.obj); }
    }
  }

  lemma OwnedAfter(s: State, e: Event, w: Owner, obj: Id)
    requires OneOwner(s) && Enabled(s, e) && Owns(s, w, obj) && obj in CellAfter(s, e)
    ensures Owns(Apply(s, e), Becomes(s, e, w, obj), obj)
  {
  }

  lemma SameOwner(s: State, e: Event, w: Owner, v: Owner, obj: Id)
    requires OneOwner(s) && Enabled(s, e) && Owns(Apply(s, e), w, obj) && Owns(Apply(s, e), v, obj)
    requires Was(s, e, w, obj) == Was(s, e, v, obj)
    ensures w == v
  {
  }

  lemma OwnerStep(s: State, e: Event)
    requires OneOwner(s) && Enabled(s, e)
    ensures OneOwner(Apply(s, e))
  {
    hide Owns, Was, Becomes, CellAfter, ThreadAfter, PoolAfter, EfsAfter, BatchesAfter, RegisteredAfter;
    var n := Apply(s, e);
    forall w, obj | Owns(n, w, obj) ensures obj in n.cell { OwnedBefore(s, e, w, obj); }
    forall w, v, obj | Owns(n, w, obj) && Owns(n, v, obj) ensures w == v {
      OwnedBefore(s, e, w, obj);
      OwnedBefore(s, e, v, obj);
      if obj in s.cell { SameOwner(s, e, w, v, obj); }
    }
    forall obj | obj in n.cell ensures exists w :: Owns(n, w, obj) {
      if obj in s.cell {
        var w :| Owns(s, w, obj);
        OwnedAfter(s, e, w, obj);
      } else {
        Created(s, e, obj);
      }
    }
  }

  lemma Created(s: State, e: Event, obj: Id)
    requires OneOwner(s) && Enabled(s, e) && obj !in s.cell && obj in CellAfter(s, e)
    ensures e.Get? && Owns(Apply(s, e), InDefer(e.t), obj)
  {
    if e.Fill? { assert Owns(s, InDefer(e.t), ThreadOf(s, e.t).obj); }
    if e.Clear? {
      var calls := ThreadOf(s, e.t).calls;
      assert Owns(s, InFree(e.t, |calls| - 1), calls[|calls| - 1]);
    }
  }

  // ---------------------------------------------------------------------
  // What the owners' objects hold
  // ---------------------------------------------------------------------

  /** The call that an object of this owner must hold; objects in the pool are blank. */
  function Content(s: State, w: Owner): Option<Option<Call>> {
    match w
    case InPool => Some(None)
    case Pending(_, _) => None
    case InDefer(t) => if ThreadOf(s, t).Holding? then Some(None) else None
    case InFree(t, i) =>
      if !ThreadOf(s, t).Draining? then None
      else
        var th := ThreadOf(s, t);
        if i + 1 == |th.calls| && th.phase == ToPut then Some(None)
        else if th.batch < |s.batches| && i < |s.batches[th.batch].taken| then Some(Some(s.batches[th.batch].taken[i]))
        else None
  }

  predicate Holds(s: State, w: Owner, obj: Id) {
    obj in s.cell && if Content(s, w).Some? then s.cell[obj] == Content(s, w).value else s.cell[obj].Some?
  }

  /** Blank where it must be blank, filled elsewhere, and in a drain the call that was taken. */
  ghost predicate ContentOk(s: State) {
    forall w, obj | Owns(s, w, obj) :: Holds(s, w, obj)
  }

  /** Only its owner's step changes an object. */
  lemma CellChange(s: State, e: Event, w: Owner, obj: Id)
    requires OneOwner(s) && Enabled(s, e) && Owns(s, w, obj) && obj in CellAfter(s, e)
    requires e.Fill? ==> w != InDefer(e.t)
    requires e.Clear? ==> w != InFree(e.t, |ThreadOf(s, e.t).calls| - 1)
    ensures obj in s.cell && CellAfter(s, e)[obj] == s.cell[obj]
  {
    if e.Fill? { assert Owns(s, InDefer(e.t), ThreadOf(s, e.t).obj); }
    if e.Clear? {
      var calls := ThreadOf(s, e.t).calls;
      assert Owns(s, InFree(e.t, |calls| - 1), calls[|calls| - 1]);
    }
  }

  /** Whether the step `e` writes the object of owner `v`. */
  predicate Writes(s: State, e: Event, v: Owner)
    requires Enabled(s, e)
  {
    || (e.Fill? && v == InDefer(e.t))
    || (e.Clear? && v == InFree(e.t, |ThreadOf(s, e.t).calls| - 1))
  }

  /** An object that changes hands, but is not written, is due to hold what it held. */
  lemma ContentMoves(s: State, e: Event, w: Owner, obj: Id)
    requires Enabled(s, e) && Owns(Apply(s, e), w, obj)
    requires !e.Swap? && !Writes(s, e, Was(s, e, w, obj)) && !(e.Get? && obj !in s.cell)
    ensures Content(Apply(s, e), w) == Content(s, Was(s, e, w, obj))
  {
  }

  lemma ContentSwaps(s: State, e: Event, w: Owner, obj: Id)
    requires Enabled(s, e) && e.Swap? && Owns(Apply(s, e), w, obj) && Holds(s, Was(s, e, w, obj), obj)
    requires forall t | ThreadOf(s, t).Draining? :: ThreadOf(s, t).batch < |s.batches|
    ensures Holds(Apply(s, e), w, obj)
  {
    var x := ThreadOf(s, e.t).x;
    if w.InFree? && w.t == e.t {
      assert CallsOf(s.cell, Efs(s, x))[w.i] == s.cell[obj].value;
    } else {
      assert Content(Apply(s, e), w) == Content(s, w);
    }
  }

  lemma ContentWritten(s: State, e: Event, w: Owner, obj: Id)
    requires Enabled(s, e) && Owns(Apply(s, e), w, obj) && Owns(s, Was(s, e, w, obj), obj)
    requires Writes(s, e, Was(s, e, w, obj)) && Holds(s, Was(s, e, w, obj), obj)
    ensures Holds(Apply(s, e), w, obj)
  {
  }

  lemma ContentStep(s: State, e: Event)
    requires OneOwner(s) && ContentOk(s) && Enabled(s, e)
    requires forall t | ThreadOf(s, t).Draining? :: ThreadOf(s, t).batch < |s.batches|
    ensures ContentOk(Apply(s, e))
  {
    hide Owns, OneOwner, Was, Content, CellAfter, PoolAfter, EfsAfter, ThreadAfter, BatchesAfter, RegisteredAfter;
    hide Enabled;
    var n := Apply(s, e);
    forall w, obj | Owns(n, w, obj) ensures Holds(n, w, obj) {
      OwnedBefore(s, e, w, obj);
      var v := Was(s, e, w, obj);
      if obj !in s.cell {
        NewIsBlank(s, e);
      } else if e.Swap? {
        ContentSwaps(s, e, w, obj);
      } else if Writes(s, e, v) {
        ContentWritten(s, e, w, obj);
      } else {
        ContentMoves(s, e, w, obj);
        CellChange(s, e, v, obj);
      }
    }
  }

  lemma NewIsBlank(s: State, e: Event)
    requires Enabled(s, e) && e.Get? && e.obj !in s.cell && e.obj in CellAfter(s, e)
    ensures Holds(Apply(s, e), InDefer(e.t), e.obj)
  {
  }

  function Reverse(calls: seq<Call>): (r: seq<Call>)
    ensures |r| == |calls|
  {
    if calls == [] then [] else [calls[|calls| - 1]] + Reverse(calls[..|calls| - 1])
  }

  /** How many calls of its batch the thread has still to run. */
  function ToGo(th: Thread): nat
    requires th.Draining?
  {
    if th.phase == ToRun then |th.calls| else if th.calls == [] then 0 else |th.calls| - 1
  }

  /** The batch has run, newest call first, down to the first `n`. */
  predicate RunDownTo(b: Batch, n: nat) {
    n <= |b.taken| && b.ran + Reverse(b.taken[..n]) == Reverse(b.taken)
  }

  ghost predicate DrainOk(batches: seq<Batch>, th: Thread)
    requires th.Draining?
  {
    && th.calls != [] && th.batch < |batches| && |th.calls| <= |batches[th.batch].taken|
    && RunDownTo(batches[th.batch], ToGo(th))
  }

  ghost predicate DrainsOk(s: State) {
    && (forall t | ThreadOf(s, t).Draining? :: DrainOk(s.batches, ThreadOf(s, t)))
    && (forall t, u | ThreadOf(s, t).Draining? && ThreadOf(s, u).Draining?
                         && ThreadOf(s, t).batch == ThreadOf(s, u).batch :: t == u)
    && (forall b | 0 <= b < |s.batches| ::
         || (exists t :: ThreadOf(s, t).Draining? && ThreadOf(s, t).batch == b)
         || RunDownTo(s.batches[b], 0))
  }

  lemma RunOne(b: Batch, n: nat, call: Call)
    requires 0 < n && RunDownTo(b, n) && b.taken[n - 1] == call
    ensures RunDownTo(b.(ran := b.ran + [call]), n - 1)
  {
    var rest := b.taken[..n];
    assert rest[..n - 1] == b.taken[..n - 1];
    assert b.ran + Reverse(rest) == b.ran + [call] + Reverse(b.taken[..n - 1]);
  }

  lemma Untouched(b: Batch)
    requires b.ran == []
    ensures RunDownTo(b, |b.taken|)
  {
    assert b.taken[..|b.taken|] == b.taken;
  }

  lemma SwapDrains(s: State, t: Id)
    requires Enabled(s, Swap(t)) && ThreadAfter(s, Swap(t)).Draining?
    ensures DrainOk(BatchesAfter(s, Swap(t)), ThreadAfter(s, Swap(t)))
  {
    var x := ThreadOf(s, t).x;
    Untouched(Batch(x, CallsOf(s.cell, Efs(s, x)), []));
  }

  lemma RunDrains(s: State, t: Id)
    requires DrainsOk(s) && ContentOk(s) && OneOwner(s) && Enabled(s, Run(t))
    ensures DrainOk(BatchesAfter(s, Run(t)), ThreadAfter(s, Run(t)))
  {
    var th := ThreadOf(s, t);
    var n := |th.calls|;
    var obj, b := th.calls[n - 1], s.batches[th.batch];
    assert DrainOk(s.batches, th);
    assert Owns(s, InFree(t, n - 1), obj) && Holds(s, InFree(t, n - 1), obj);
    hide DrainsOk, ContentOk, OneOwner, Owns;
    assert s.cell[obj] == Some(b.taken[n - 1]);
    assert th.calls[n - 1..] == [obj];
    assert CallsOf(s.cell, [obj]) == [b.taken[n - 1]];
    hide CallsOf, Holds, Content;
    RunOne(b, n, b.taken[n - 1]);
    hide RunDownTo;
  }

  /** A thread's own drain after its step. */
  lemma OwnDrainStep(s: State, e: Event)
    requires DrainsOk(s) && ContentOk(s) && OneOwner(s) && Enabled(s, e) && !e.Drop? && ThreadAfter(s, e).Draining?
    ensures DrainOk(BatchesAfter(s, e), ThreadAfter(s, e))
  {
    if e.Swap? {
      SwapDrains(s, e.t);
    } else if e.Run? {
      RunDrains(s, e.t);
    } else {
      hide ContentOk, OneOwner, CallsOf, RunDownTo;
      assert ThreadOf(s, e.t).Draining? ==> DrainOk(s.batches, ThreadOf(s, e.t));
    }
  }

  lemma OtherBatches(s: State, e: Event, b: nat)
    requires Enabled(s, e) && b < |s.batches| && !(e.Run? && ThreadOf(s, e.t).batch == b)
    ensures b < |BatchesAfter(s, e)| && BatchesAfter(s, e)[b] == s.batches[b]
  {
  }

  /** When a thread stops draining, its batch has run to the end. */
  lemma DrainEnds(s: State, e: Event)
    requires DrainsOk(s) && Enabled(s, e)
    ensures !e.Drop? && ThreadOf(s, e.t).Draining? && !ThreadAfter(s, e).Draining? ==>
      ThreadOf(s, e.t).batch < |s.batches| && RunDownTo(s.batches[ThreadOf(s, e.t).batch], 0)
  {
    if !e.Drop? && ThreadOf(s, e.t).Draining? { assert DrainOk(s.batches, ThreadOf(s, e.t)); }
  }

  lemma NothingToRun(cell: map<Id, Option<Call>>, x: Id)
    ensures RunDownTo(Batch(x, CallsOf(cell, []), []), 0)
  {
  }

  lemma DrainKeepsBatch(s: State, e: Event, t: Id)
    requires Enabled(s, e) && ThreadOf(Apply(s, e), t).Draining?
    ensures var th, was := ThreadOf(Apply(s, e), t), ThreadOf(s, t);
      if e.Swap? && t == e.t then th.batch == |s.batches| else was.Draining? && was.batch == th.batch
  {
  }

  lemma DrainStep(s: State, e: Event)
    requires DrainsOk(s) && ContentOk(s) && OneOwner(s) && Enabled(s, e)
    ensures DrainsOk(Apply(s, e))
  {
    hide OneOwner, ContentOk, RunDownTo, CellAfter, PoolAfter, EfsAfter, RegisteredAfter;
    var n := Apply(s, e);
    forall t | ThreadOf(n, t).Draining?
      ensures DrainOk(n.batches, ThreadOf(n, t))
    {
      if !e.Drop? && t == e.t {
        OwnDrainStep(s, e);
      } else {
        OtherBatches(s, e, ThreadOf(s, t).batch);
      }
    }
    forall t, u | ThreadOf(n, t).Draining? && ThreadOf(n, u).Draining? && ThreadOf(n, t).batch == ThreadOf(n, u).batch
      ensures t == u
    {
      DrainKeepsBatch(s, e, t);
      DrainKeepsBatch(s, e, u);
    }
    forall b: nat | b < |n.batches| && !RunDownTo(n.batches[b], 0)
      ensures exists t :: ThreadOf(n, t).Draining? && ThreadOf(n, t).batch == b
    {
      DrainerStays(s, e, b);
    }
  }

  lemma DrainerStays(s: State, e: Event, b: nat)
    requires DrainsOk(s) && Enabled(s, e) && b < |BatchesAfter(s, e)| && !RunDownTo(BatchesAfter(s, e)[b], 0)
    ensures exists t :: ThreadOf(Apply(s, e), t).Draining? && ThreadOf(Apply(s, e), t).batch == b
  {
    var n := Apply(s, e);
    if b == |s.batches| {
      NothingToRun(s.cell, ThreadOf(s, e.t).x);
      assert ThreadOf(n, e.t).batch == b;
    } else if e.Run? && ThreadOf(s, e.t).batch == b {
      assert ThreadOf(n, e.t).batch == b;
    } else {
      OtherBatches(s, e, b);
      DrainEnds(s, e);
      var t :| ThreadOf(s, t).Draining? && ThreadOf(s, t).batch == b;
      assert ThreadOf(n, t).Draining? && ThreadOf(n, t).batch == b;
    }
  }

  // ---------------------------------------------------------------------
  // Everything registered is in one batch or still pending
  // ---------------------------------------------------------------------

  /** All that was taken from list `x`, in the order of the swaps. */
  function Taken(batches: seq<Batch>, x: Id): seq<Call> {
    if batches == [] then []
    else
      var b := batches[|batches| - 1];
      Taken(batches[..|batches| - 1], x) + if b.x == x then b.taken else []
  }

  ghost predicate Accounted(s: State) {
    forall x :: Registered(s, x) == Taken(s.batches, x) + CallsOf(s.cell, Efs(s, x))
  }

  /** No step but those of its owner changes what a pending object holds. */
  lemma PendingKept(s: State, e: Event, x: Id)
    requires OneOwner(s) && Enabled(s, e)
    ensures CallsOf(CellAfter(s, e), Efs(s, x)) == CallsOf(s.cell, Efs(s, x))
  {
    var objs := Efs(s, x);
    hide CellAfter, OneOwner;
    forall i | 0 <= i < |objs|
      ensures objs[i] in CellAfter(s, e) && objs[i] in s.cell && CellAfter(s, e)[objs[i]] == s.cell[objs[i]]
    {
      assert Owns(s, Pending(x, i), objs[i]);
      PendingStays(s, e, x, i, objs[i]);
      CellChange(s, e, Pending(x, i), objs[i]);
    }
  }

  lemma PendingStays(s: State, e: Event, x: Id, i: nat, obj: Id)
    requires OneOwner(s) && Enabled(s, e) && Owns(s, Pending(x, i), obj)
    ensures obj in CellAfter(s, e)
  {
    if e.Drop? { assert Owns(s, InPool, e.obj); }
  }

  lemma CallsSnoc(cell: map<Id, Option<Call>>, objs: seq<Id>, obj: Id)
    ensures CallsOf(cell, objs + [obj]) == CallsOf(cell, objs) + CallsOf(cell, [obj])
  {
  }

  lemma TakenSnoc(batches: seq<Batch>, b: Batch, x: Id)
    ensures Taken(batches + [b], x) == Taken(batches, x) + (if b.x == x then b.taken else [])
  {
    assert (batches + [b])[..|batches|] == batches;
  }

  lemma {:induction false} TakenSame(a: seq<Batch>, b: seq<Batch>, x: Id)
    requires |a| == |b| && forall i | 0 <= i < |a| :: a[i].x == b[i].x && a[i].taken == b[i].taken
    ensures Taken(a, x) == Taken(b, x)
    decreases |a|
  {
    if a != [] { TakenSame(a[..|a| - 1], b[..|b| - 1], x); }
  }

  lemma AppendAccounts(s: State, t: Id, x: Id)
    requires Accounted(s) && Enabled(s, Append(t))
    ensures var n := Apply(s, Append(t)); Registered(n, x) == Taken(n.batches, x) + CallsOf(s.cell, Efs(n, x))
  {
    var obj := ThreadOf(s, t).obj;
    assert Registered(s, x) == Taken(s.batches, x) + CallsOf(s.cell, Efs(s, x));
    hide CallsOf, Taken, Accounted;
    CallsSnoc(s.cell, Efs(s, x), obj);
    Assoc(Taken(s.batches, x), CallsOf(s.cell, Efs(s, x)), CallsOf(s.cell, [obj]));
  }

  lemma SwapAccounts(s: State, t: Id, x: Id)
    requires Accounted(s) && Enabled(s, Swap(t))
    ensures var n := Apply(s, Swap(t)); Registered(n, x) == Taken(n.batches, x) + CallsOf(s.cell, Efs(n, x))
  {
    var y := ThreadOf(s, t).x;
    assert Registered(s, x) == Taken(s.batches, x) + CallsOf(s.cell, Efs(s, x));
    hide CallsOf, Taken, Accounted;
    TakenSnoc(s.batches, Batch(y, CallsOf(s.cell, Efs(s, y)), []), x);
    NoCalls(s.cell);
  }

  lemma RestAccounts(s: State, e: Event, x: Id)
    requires Accounted(s) && Enabled(s, e) && !e.Append? && !e.Swap?
    ensures var n := Apply(s, e); Registered(n, x) == Taken(n.batches, x) + CallsOf(s.cell, Efs(n, x))
  {
    assert Registered(s, x) == Taken(s.batches, x) + CallsOf(s.cell, Efs(s, x));
    hide CallsOf, Taken, Accounted;
    TakenSame(s.batches, BatchesAfter(s, e), x);
  }

  lemma AccountStep(s: State, e: Event)
    requires OneOwner(s) && Accounted(s) && Enabled(s, e)
    ensures Accounted(Apply(s, e))
  {
    var n := Apply(s, e);
    hide OneOwner, CallsOf, Taken, CellAfter, PoolAfter, EfsAfter, BatchesAfter, RegisteredAfter, ThreadAfter;
    forall x ensures Registered(n, x) == Taken(n.batches, x) + CallsOf(n.cell, Efs(n, x)) {
      PendingKept(s, e, x);
      match e
      case Append(t) =>
        AppendAccounts(s, t, x);
        AppendKeepsCells(s, e);
      case Swap(t) =>
        SwapAccounts(s, t, x);
        SwapKeepsCells(s, e);
      case _ =>
        RestAccounts(s, e, x);
        RestKeepsEfs(s, e, x);
    }
  }

  lemma SwapKeepsCells(s: State, e: Event)
    requires Enabled(s, e) && e.Swap?
    ensures CellAfter(s, e) == s.cell
  {
  }

  lemma RestKeepsEfs(s: State, e: Event, x: Id)
    requires Enabled(s, e) && !e.Append? && !e.Swap?
    ensures Efs(Apply(s, e), x) == Efs(s, x)
  {
  }

  lemma AppendKeepsCells(s: State, e: Event)
    requires Enabled(s, e) && e.Append?
    ensures CellAfter(s, e) == s.cell
  {
  }

  lemma NoCalls(cell: map<Id, Option<Call>>)
    ensures CallsOf(cell, []) == []
  {
  }

  // ---------------------------------------------------------------------
  // Every reachable state
  // ---------------------------------------------------------------------

  ghost predicate Inv(s: State) { OneOwner(s) && ContentOk(s) && DrainsOk(s) && Accounted(s) }

  lemma InvNext(s: State, e: Event)
    requires Inv(s)
    ensures Inv(Next(s, e))
  {
    if Enabled(s, e) {
      assert forall t | ThreadOf(s, t).Draining? :: ThreadOf(s, t).batch < |s.batches|;
      hide OneOwner, ContentOk, DrainsOk, Accounted, Apply;
      OwnerStep(s, e);
      ContentStep(s, e);
      DrainStep(s, e);
      AccountStep(s, e);
    }
  }

  lemma {:induction false} InvAfter(events: seq<Event>)
    ensures Inv(After(events))
    decreases |events|
  {
    if events == [] {
      InvStart();
    } else {
      InvAfter(events[..|events| - 1]);
      hide Inv, Next;
      InvNext(After(events[..|events| - 1]), events[|events| - 1]);
    }
  }

  lemma InvStart()
    ensures Inv(START)
  {
    forall w, obj ensures !Owns(START, w, obj) {
    }
  }

  /** Every call object has exactly one owner, and the objects in the pool are blank. */
  lemma ExactlyOneOwner(events: seq<Event>)
    ensures var s := After(events);
      && (forall obj <- s.cell :: exists w :: Owns(s, w, obj) && forall v :: Owns(s, v, obj) ==> v == w)
      && (forall obj <- s.pool :: obj in s.cell && s.cell[obj] == None)
  {
    InvAfter(events);
    var s := After(events);
    forall obj | obj in s.cell ensures exists w :: Owns(s, w, obj) && forall v :: Owns(s, v, obj) ==> v == w {
      var w :| Owns(s, w, obj);
      assert forall v :: Owns(s, v, obj) ==> v == w;
    }
    forall obj | obj in s.pool ensures obj in s.cell && s.cell[obj] == None {
      assert Owns(s, InPool, obj) && Holds(s, InPool, obj);
    }
  }

  lemma {:induction false} ReverseAt(calls: seq<Call>, k: nat)
    requires k < |calls|
    ensures Reverse(calls)[k] == calls[|calls| - 1 - k]
    decreases |calls|
  {
    if k > 0 { ReverseAt(calls[..|calls| - 1], k - 1); }
  }

  /** Every registered call is in exactly one batch or still pending. Each batch has one thread that
      runs it in reverse order, or has been run in reverse order to the end. */
  lemma RunsOnceInReverse(events: seq<Event>)
    ensures var s := After(events);
      && (forall x :: Registered(s, x) == Taken(s.batches, x) + CallsOf(s.cell, Efs(s, x)))
      && (forall b | 0 <= b < |s.batches| ::
           || s.batches[b].ran == Reverse(s.batches[b].taken)
           || exists t :: ThreadOf(s, t).Draining? && ThreadOf(s, t).batch == b
                && (forall u :: ThreadOf(s, u).Draining? && ThreadOf(s, u).batch == b ==> u == t)
                && RunDownTo(s.batches[b], ToGo(ThreadOf(s, t))))
  {
    InvAfter(events);
    var s := After(events);
    forall b | 0 <= b < |s.batches| && s.batches[b].ran != Reverse(s.batches[b].taken)
      ensures exists t :: ThreadOf(s, t).Draining? && ThreadOf(s, t).batch == b
                && (forall u :: ThreadOf(s, u).Draining? && ThreadOf(s, u).batch == b ==> u == t)
                && RunDownTo(s.batches[b], ToGo(ThreadOf(s, t)))
    {
      assert !RunDownTo(s.batches[b], 0) by { Reversed(s.batches[b]); }
      var t :| ThreadOf(s, t).Draining? && ThreadOf(s, t).batch == b;
      assert forall u :: ThreadOf(s, u).Draining? && ThreadOf(s, u).batch == b ==> u == t;
    }
  }

  lemma Reversed(b: Batch)
    ensures RunDownTo(b, 0) <==> b.ran == Reverse(b.taken)
  {
    assert b.taken[..0] == [];
  }

  /** Once nothing is pending and no thread is draining, every registered call has been run. */
  lemma QuietMeansAllRun(events: seq<Event>, x: Id)
    requires Efs(After(events), x) == [] && forall t :: !ThreadOf(After(events), t).Draining?
    ensures var s := After(events);
      Registered(s, x) == Taken(s.batches, x) && forall b <- s.batches :: b.ran == Reverse(b.taken)
  {
    RunsOnceInReverse(events);
    NoCalls(After(events).cell);
  }
}
